/** `bytes.hex()` and `bytes.fromhex()`, the text form of salts and keys. */
module Hex {
  import opened Wrappers

  newtype byte = x: int | 0 <= x < 256

  /** The digits `bytes.hex()` writes, lower case. */
  const Digits: string := "0123456789abcdef"

  /** `b.hex()`: two lower-case digits per byte, high nibble first. */
  function ToHex(b: seq<byte>): (s: string)
    ensures |s| == 2 * |b|
    ensures forall i :: 0 <= i < |s| ==> s[i] in Digits
  {
    if b == [] then []
    else [Digits[b[0] / 16], Digits[b[0] % 16]] + ToHex(b[1..])
  }

  /** The value of a hex digit in either case, as `fromhex` accepts them. */
  function DigitValue(c: char): Option<int> {
    if '0' <= c <= '9' then Some(c as int - '0' as int)
    else if 'a' <= c <= 'f' then Some(c as int - 'a' as int + 10)
    else if 'A' <= c <= 'F' then Some(c as int - 'A' as int + 10)
    else None
  }

  /** ASCII whitespace, which `fromhex` skips between byte pairs. */
  predicate IsSpace(c: char) {
    c == ' ' || c == '\t' || c == '\n' || c == '\r' || c == '\U{0B}' || c == '\U{0C}'
  }

  /**
   * `bytes.fromhex(s)`: whitespace before a pair is skipped, every other
   * character must be one of two hex digits of a pair; None where Python
   * raises ValueError.
   */
  function FromHex(s: string): (r: Option<seq<byte>>)
    ensures r.Some? ==> |r.value| <= |s| / 2
    decreases |s|
  {
    if s == [] then Some([])
    else if IsSpace(s[0]) then FromHex(s[1..])
    else if |s| < 2 || DigitValue(s[0]).None? || DigitValue(s[1]).None? then None
    else
      var hi := DigitValue(s[0]).value;
      var lo := DigitValue(s[1]).value;
      match FromHex(s[2..])
      case None => None
      case Some(rest) => Some([(hi * 16 + lo) as byte] + rest)
  }

  /** Every digit written by `hex()` reads back as its value. */
  lemma DigitRoundTrip(d: int)
    requires 0 <= d < 16
    ensures DigitValue(Digits[d]) == Some(d)
  {
  }

  /** `hex()` of a non-empty string: the first byte's two digits, then the rest. */
  lemma ToHexCons(b: seq<byte>)
    requires b != []
    ensures ToHex(b) == [Digits[b[0] as int / 16], Digits[b[0] as int % 16]] + ToHex(b[1..])
  {
  }

  /** `fromhex` reads a leading pair of digits and continues after it. */
  lemma FromHexPair(s: string, hi: int, lo: int, rest: seq<byte>)
    requires 0 <= hi < 16 && 0 <= lo < 16
    requires |s| >= 2 && s[0] == Digits[hi] && s[1] == Digits[lo]
    requires FromHex(s[2..]) == Some(rest)
    ensures FromHex(s) == Some([(hi * 16 + lo) as byte] + rest)
  {
    DigitRoundTrip(hi);
    DigitRoundTrip(lo);
    assert !IsSpace(s[0]);
  }

  /** The two digits `hex()` writes for one byte read back as that byte. */
  lemma FromHexByte(x: byte, t: string, rest: seq<byte>)
    requires FromHex(t) == Some(rest)
    ensures FromHex([Digits[x as int / 16], Digits[x as int % 16]] + t) == Some([x] + rest)
  {
    var v := x as int;
    var s := [Digits[v / 16], Digits[v % 16]] + t;
    assert s[2..] == t;
    FromHexPair(s, v / 16, v % 16, rest);
    assert (v / 16 * 16 + v % 16) as byte == x;
  }

  /** `bytes.fromhex(b.hex()) == b`. */
  lemma {:induction false} FromHexToHex(b: seq<byte>)
    ensures FromHex(ToHex(b)) == Some(b)
  {
    if b != [] {
      ToHexCons(b);
      FromHexToHex(b[1..]);
      FromHexByte(b[0], ToHex(b[1..]), b[1..]);
      assert [b[0]] + b[1..] == b;
    }
  }

  /** Distinct byte strings have distinct hex text. */
  lemma ToHexInjective(a: seq<byte>, b: seq<byte>)
    ensures ToHex(a) == ToHex(b) ==> a == b
  {
    FromHexToHex(a);
    FromHexToHex(b);
  }
}
