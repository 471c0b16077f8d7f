/**
 * UUIDs as the core uses them: `to_string()` gives the lower-case hyphenated
 * form (the search-index ids, the editor's document key, the callback URL,
 * object-storage key prefixes), and `Uuid::parse_str` reads a form field.
 * The uuid crate itself is not part of this model; its parser accepts the
 * simple (32 hex digits), hyphenated (8-4-4-4-12), braced (`{...}`) and URN
 * (`urn:uuid:...`) forms, with hex digits of either case.
 */
module Uuids {
  import opened Wrappers
  import Text

  type Nibble = x: int | 0 <= x < 16

  /** The 128 bits of a UUID as 32 nibbles, most significant first. */
  type Uuid = s: seq<Nibble> | |s| == 32 witness seq(32, _ => 0)

  /** The lower-case hex digit of a nibble. */
  function HexDigit(n: Nibble): (c: char)
    ensures '0' <= c <= '9' || 'a' <= c <= 'f'
  {
    if n < 10 then ('0' as int + n) as char else ('a' as int + n - 10) as char
  }

  /** Value of one hex digit of either case. */
  function HexValue(c: char): (r: Option<Nibble>)
    ensures r.Some? ==> HexDigit(r.value) == Text.LowerChar(c)
  {
    if '0' <= c <= '9' then Some(c as int - '0' as int)
    else if 'a' <= c <= 'f' then Some(c as int - 'a' as int + 10)
    else if 'A' <= c <= 'F' then Some(c as int - 'A' as int + 10)
    else None
  }

  /** Lower-case hex rendering, one digit per nibble. */
  function Hex(ns: seq<Nibble>): (r: string)
    ensures |r| == |ns|
    ensures Text.IsLowercase(r)
  {
    seq(|ns|, i requires 0 <= i < |ns| => HexDigit(ns[i]))
  }

  /** Reads a run of hex digits; `None` when any character is not one. */
  function ParseHex(s: string): (r: Option<seq<Nibble>>)
    ensures r.Some? ==> |r.value| == |s| && Hex(r.value) == Text.Lower(s)
    ensures r.None? <==> exists i :: 0 <= i < |s| && HexValue(s[i]).None?
  {
    if forall i :: 0 <= i < |s| ==> HexValue(s[i]).Some? then
      Some(seq(|s|, i requires 0 <= i < |s| => HexValue(s[i]).value))
    else None
  }

  lemma ParseHexOfHex(ns: seq<Nibble>)
    ensures ParseHex(Hex(ns)) == Some(ns)
  {
    var h := Hex(ns);
    forall i | 0 <= i < |h| ensures HexValue(h[i]) == Some(ns[i]) {
      assert h[i] == HexDigit(ns[i]);
    }
    var back := seq(|h|, i requires 0 <= i < |h| => HexValue(h[i]).value);
    assert back == ns;
  }

  /** `Uuid::to_string()`: 8-4-4-4-12 lower-case hex digits joined by hyphens. */
  function ToString(u: Uuid): (r: string)
    ensures |r| == 36
    ensures r[8] == '-' && r[13] == '-' && r[18] == '-' && r[23] == '-'
    ensures Text.IsLowercase(r)
  {
    Hex(u[..8]) + "-" + Hex(u[8..12]) + "-" + Hex(u[12..16]) + "-" + Hex(u[16..20]) + "-" + Hex(u[20..])
  }

  function ParseSimple(s: string): (r: Option<Uuid>)
    requires |s| == 32
  {
    match ParseHex(s)
    case Some(ns) => Some(ns)
    case None => None
  }

  function ParseHyphenated(s: string): Option<Uuid>
    requires |s| == 36
  {
    if s[8] == '-' && s[13] == '-' && s[18] == '-' && s[23] == '-' then
      ParseSimple(s[..8] + s[9..13] + s[14..18] + s[19..23] + s[24..])
    else None
  }

  /** `Uuid::parse_str(s).ok()`: `None` for any string of another shape. */
  function Parse(s: string): (r: Option<Uuid>)
    ensures |s| !in {32, 36, 38, 45} ==> r.None?
  {
    if |s| == 32 then ParseSimple(s)
    else if |s| == 36 then ParseHyphenated(s)
    else if |s| == 38 && s[0] == '{' && s[37] == '}' then ParseHyphenated(s[1..37])
    else if |s| == 45 && s[..9] == "urn:uuid:" then ParseHyphenated(s[9..])
    else None
  }

  /** Parsing the displayed form of a UUID gives the UUID back. */
  lemma ParseToString(u: Uuid)
    ensures Parse(ToString(u)) == Some(u)
  {
    var r := ToString(u);
    assert r[..8] == Hex(u[..8]);
    assert r[9..13] == Hex(u[8..12]);
    assert r[14..18] == Hex(u[12..16]);
    assert r[19..23] == Hex(u[16..20]);
    assert r[24..] == Hex(u[20..]);
    assert r[..8] + r[9..13] + r[14..18] + r[19..23] + r[24..] == Hex(u);
    ParseHexOfHex(u);
  }

  /** Distinct UUIDs have distinct string forms. */
  lemma ToStringInjective(u: Uuid, v: Uuid)
    requires ToString(u) == ToString(v)
    ensures u == v
  {
    ParseToString(u);
    ParseToString(v);
  }
}
