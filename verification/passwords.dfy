/**
 * The password rules of `User`: the length policy, the stored
 * `hex(salt)|hex(key)` format and the check that recomputes the key.
 */
module Passwords {
  import opened Wrappers
  import opened Hex

  /** `validate_password` accepts passwords of at least this many characters. */
  const MinPasswordLength: nat := 8

  /** `hash_password` draws this many random bytes when no salt is given. */
  const SaltLength: nat := 32

  /** The separator between the salt and the key in a stored hash. */
  const Separator: char := '|'

  /**
   * `pbkdf2_hmac("sha256", password.encode("utf-8"), salt, 100000)`. The key
   * derivation is left uninterpreted: any deterministic function will do.
   */
  type Kdf = (string, seq<byte>) -> seq<byte>

  /** `validate_password`: the password has at least eight characters. */
  function ValidatePassword(password: string): (ok: bool)
    ensures ok <==> |password| >= 8
  {
    |password| >= MinPasswordLength
  }

  /** The stored form of a salt and its derived key. */
  function HashWithSalt(kdf: Kdf, password: string, salt: seq<byte>): (h: string)
    ensures |h| == 2 * |salt| + 1 + 2 * |kdf(password, salt)|
    ensures h[2 * |salt|] == Separator
    ensures forall i :: 0 <= i < |h| && i != 2 * |salt| ==> h[i] in Digits
  {
    ToHex(salt) + [Separator] + ToHex(kdf(password, salt))
  }

  /** The `salt` argument of `hash_password`. */
  datatype SaltArg =
    | Fresh(draw: seq<byte>)   // None: the bytes `urandom(32)` returned
    | HexText(text: string)    // a str, decoded with `bytes.fromhex`
    | Raw(bytes: seq<byte>)    // bytes, used as they are

  /**
   * `hash_password(password, salt)`; a salt text that is not hex makes
   * `fromhex` raise ValueError, here Failure.
   */
  function HashPassword(kdf: Kdf, password: string, salt: SaltArg): (r: Result<string, string>)
    ensures r.Failure? <==> salt.HexText? && FromHex(salt.text).None?
    ensures salt.Fresh? ==> r == Success(HashWithSalt(kdf, password, salt.draw))
    ensures salt.Raw? ==> r == Success(HashWithSalt(kdf, password, salt.bytes))
    ensures salt.HexText? && FromHex(salt.text).Some? ==>
              r == Success(HashWithSalt(kdf, password, FromHex(salt.text).value))
  {
    match salt
    case Fresh(draw) => Success(HashWithSalt(kdf, password, draw))
    case Raw(bytes) => Success(HashWithSalt(kdf, password, bytes))
    case HexText(text) =>
      match FromHex(text)
      case None => Failure("ValueError")
      case Some(bytes) => Success(HashWithSalt(kdf, password, bytes))
  }

  /** `s.split(sep)[0]`: the text before the first separator, or all of it. */
  function BeforeFirst(s: string, sep: char): (r: string)
    ensures r <= s
    ensures sep !in r
    ensures |r| < |s| ==> s[|r|] == sep
  {
    if s == [] || s[0] == sep then [] else [s[0]] + BeforeFirst(s[1..], sep)
  }

  /**
   * `check_password`: the salt is the stored text before the first `|`; the
   * password matches when hashing it with that salt gives the stored text.
   */
  function CheckPassword(kdf: Kdf, stored: string, password: string): (r: Result<bool, string>)
    ensures r.Failure? <==> FromHex(BeforeFirst(stored, Separator)).None?
    ensures r.Success? ==>
              (r.value <==> stored == HashWithSalt(kdf, password, FromHex(BeforeFirst(stored, Separator)).value))
  {
    match HashPassword(kdf, password, HexText(BeforeFirst(stored, Separator)))
    case Failure(e) => Failure(e)
    case Success(h) => Success(h == stored)
  }

  /** The text before the first separator, when it stands at position `n`. */
  lemma BeforeFirstAt(s: string, sep: char, n: nat)
    requires n < |s| && s[n] == sep
    requires forall i :: 0 <= i < n ==> s[i] != sep
    ensures BeforeFirst(s, sep) == s[..n]
  {
    var r := BeforeFirst(s, sep);
    assert |r| == n;
  }

  /** The salt text of a stored hash is the hex of the salt. */
  lemma SaltOfStoredHash(kdf: Kdf, password: string, salt: seq<byte>)
    ensures BeforeFirst(HashWithSalt(kdf, password, salt), Separator) == ToHex(salt)
  {
    var h := HashWithSalt(kdf, password, salt);
    var n := 2 * |salt|;
    assert Separator !in Digits;
    BeforeFirstAt(h, Separator, n);
    assert h[..n] == ToHex(salt);
  }

  /** The text after the salt and its separator reads back as the derived key. */
  lemma KeyOfStoredHash(kdf: Kdf, password: string, salt: seq<byte>)
    ensures var h := HashWithSalt(kdf, password, salt);
      FromHex(h[2 * |salt| + 1..]) == Some(kdf(password, salt))
  {
    var h := HashWithSalt(kdf, password, salt);
    assert h[2 * |salt| + 1..] == ToHex(kdf(password, salt));
    FromHexToHex(kdf(password, salt));
  }

  /**
   * Checking a password against a hash made from `p` succeeds, and answers
   * true exactly when the key derived for the candidate equals the stored key.
   */
  lemma CheckAgainstHash(kdf: Kdf, p: string, q: string, salt: seq<byte>)
    ensures CheckPassword(kdf, HashWithSalt(kdf, p, salt), q) ==
            Success(kdf(q, salt) == kdf(p, salt))
  {
    var stored := HashWithSalt(kdf, p, salt);
    SaltOfStoredHash(kdf, p, salt);
    FromHexToHex(salt);
    var h := HashWithSalt(kdf, q, salt);
    if h == stored {
      assert ToHex(salt) + [Separator] + ToHex(kdf(q, salt)) == ToHex(salt) + [Separator] + ToHex(kdf(p, salt));
      assert h[|ToHex(salt)| + 1..] == ToHex(kdf(q, salt));
      assert stored[|ToHex(salt)| + 1..] == ToHex(kdf(p, salt));
      ToHexInjective(kdf(q, salt), kdf(p, salt));
    }
  }

  /** The password a hash was made from always checks. */
  lemma CheckOwnPassword(kdf: Kdf, p: string, salt: seq<byte>)
    ensures CheckPassword(kdf, HashWithSalt(kdf, p, salt), p) == Success(true)
  {
    CheckAgainstHash(kdf, p, p, salt);
  }

  /** A fresh salt gives a stored hash of 64 hex digits, `|`, then the key's hex. */
  lemma FreshSaltLayout(kdf: Kdf, password: string, draw: seq<byte>)
    requires |draw| == SaltLength
    ensures HashPassword(kdf, password, Fresh(draw)).Success?
    ensures var h := HashPassword(kdf, password, Fresh(draw)).value;
      h[64] == '|' && BeforeFirst(h, Separator) == ToHex(draw) && |BeforeFirst(h, Separator)| == 64
  {
    SaltOfStoredHash(kdf, password, draw);
  }
}
