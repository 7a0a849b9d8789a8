/**
 * The two enumerations of the data model: a user's `Role` and a tag's `Type`,
 * with their stored values, their display strings and lookup by member name.
 */
module Enums {
  import opened Wrappers

  /** `User.Role`, in declaration order. */
  datatype Role = User | Editor | Admin

  /** `Tag.Type`, in declaration order. */
  datatype TagType = Category | Mechanic

  /**
   * The position of a role in declaration order. The source compares roles
   * with `<`; the model reads that comparison as this rank (see Access).
   */
  function Rank(r: Role): nat {
    match r
    case User => 0
    case Editor => 1
    case Admin => 2
  }

  /** `a` is the same role as `b` or a more privileged one. */
  predicate AtLeast(a: Role, b: Role) {
    Rank(a) >= Rank(b)
  }

  /** The rank order is a total order with USER < EDITOR < ADMIN. */
  lemma RankOrderIsTotal()
    ensures forall a: Role :: AtLeast(a, a)
    ensures forall a: Role, b: Role :: AtLeast(a, b) && AtLeast(b, a) ==> a == b
    ensures forall a: Role, b: Role, c: Role :: AtLeast(a, b) && AtLeast(b, c) ==> AtLeast(a, c)
    ensures forall a: Role, b: Role :: AtLeast(a, b) || AtLeast(b, a)
    ensures !AtLeast(User, Editor) && !AtLeast(Editor, Admin)
  {
  }

  /** The enum member's `value`, as stored in the database. */
  function RoleValue(r: Role): string {
    match r
    case User => "user"
    case Editor => "editor"
    case Admin => "admin"
  }

  function TagTypeValue(t: TagType): string {
    match t
    case Category => "category"
    case Mechanic => "mechanic"
  }

  predicate IsAsciiLower(c: char) { 'a' <= c <= 'z' }
  predicate IsAsciiUpper(c: char) { 'A' <= c <= 'Z' }

  function ToUpperAscii(c: char): char {
    if IsAsciiLower(c) then (c as int - 32) as char else c
  }

  function ToLowerAscii(c: char): char {
    if IsAsciiUpper(c) then (c as int + 32) as char else c
  }

  /**
   * `str.capitalize()` on ASCII text: the first character upper-cased, every
   * other character lower-cased.
   */
  function Capitalize(s: string): (r: string)
    ensures |r| == |s|
    ensures |s| > 0 ==> r[0] == ToUpperAscii(s[0])
    ensures forall i :: 0 < i < |s| ==> r[i] == ToLowerAscii(s[i])
  {
    seq(|s|, i requires 0 <= i < |s| => if i == 0 then ToUpperAscii(s[0]) else ToLowerAscii(s[i]))
  }

  /** Two strings agree when they agree at every position. */
  lemma SameChars(a: string, b: string)
    requires |a| == |b|
    requires forall i :: 0 <= i < |a| ==> a[i] == b[i]
    ensures a == b
  {
  }

  /** `str(role)`, the capitalised value: "User", "Editor" or "Admin". */
  function RoleToString(r: Role): (s: string)
    ensures r == User ==> s == "User"
    ensures r == Editor ==> s == "Editor"
    ensures r == Admin ==> s == "Admin"
  {
    var s := Capitalize(RoleValue(r));
    match r
    case User => SameChars(s, "User"); s
    case Editor => SameChars(s, "Editor"); s
    case Admin => SameChars(s, "Admin"); s
  }

  /** `str(tag_type)`, the capitalised value: "Category" or "Mechanic". */
  function TagTypeToString(t: TagType): (s: string)
    ensures t == Category ==> s == "Category"
    ensures t == Mechanic ==> s == "Mechanic"
  {
    var s := Capitalize(TagTypeValue(t));
    match t
    case Category => SameChars(s, "Category"); s
    case Mechanic => SameChars(s, "Mechanic"); s
  }

  /** The member names, as `Role[...]` looks them up. */
  function RoleName(r: Role): string {
    match r
    case User => "USER"
    case Editor => "EDITOR"
    case Admin => "ADMIN"
  }

  /**
   * One character of Python's `str.upper()`, as far as it can matter for a
   * lookup among the member names: ASCII letters, plus the two non-ASCII
   * letters whose upper case is a single ASCII letter (dotless i and long s).
   * Every other character either stays or becomes text that no member name
   * contains, so it is kept unchanged here.
   */
  function UpperForLookup(c: char): char {
    if IsAsciiLower(c) then ToUpperAscii(c)
    else if c == 'ı' then 'I'
    else if c == 'ſ' then 'S'
    else c
  }

  function UpperAll(s: string): (r: string)
    ensures |r| == |s|
    ensures forall i :: 0 <= i < |s| ==> r[i] == UpperForLookup(s[i])
  {
    seq(|s|, i requires 0 <= i < |s| => UpperForLookup(s[i]))
  }

  /**
   * `User.Role[name.upper()]`: the member whose name is the upper-cased text,
   * or None where Python raises KeyError.
   */
  function RoleByName(name: string): (r: Option<Role>)
    ensures r.Some? ==> UpperAll(name) == RoleName(r.value)
    ensures r.None? ==> forall role: Role :: UpperAll(name) != RoleName(role)
  {
    var u := UpperAll(name);
    if u == "USER" then Some(User)
    else if u == "EDITOR" then Some(Editor)
    else if u == "ADMIN" then Some(Admin)
    else None
  }

  /**
   * Upper-casing after `capitalize` is the same as upper-casing the text
   * itself, so `Role[str(role).upper()]` sees what `Role[role.value.upper()]`
   * sees.
   */
  lemma CapitalizeKeepsLookup(s: string)
    ensures UpperAll(Capitalize(s)) == UpperAll(s)
  {
    SameChars(UpperAll(Capitalize(s)), UpperAll(s));
  }

  /** Upper-casing the value or the display string of a role gives back its name. */
  lemma UpperOfValue(r: Role)
    ensures UpperAll(RoleValue(r)) == RoleName(r)
    ensures UpperAll(RoleToString(r)) == RoleName(r)
  {
    SameChars(UpperAll(RoleValue(r)), RoleName(r));
    CapitalizeKeepsLookup(RoleValue(r));
  }

  /**
   * A role's stored value and its display string both name it again under
   * `Role[...upper()]`, so the value a client sends back selects that role.
   */
  lemma RoleNameRoundTrip(r: Role)
    ensures RoleByName(RoleValue(r)) == Some(r)
    ensures RoleByName(RoleToString(r)) == Some(r)
  {
    UpperOfValue(r);
  }
}
