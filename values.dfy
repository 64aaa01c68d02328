/**
 * Field values, records (an entity's attribute map) and the text helpers the
 * query builder applies to filter values: Python's str.strip, str.split(",")
 * and str.replace on single characters.
 */
module Values {
  import opened Models

  /**
   * A field value. VTime carries the instant (for ordering) and the text the
   * database renders it as (for casts to text). VEntity is a live entity
   * reference (its kind and its loaded attributes); VDict is a plain mapping.
   */
  datatype Value =
    | VNull
    | VStr(s: string)
    | VUuid(u: string)
    | VTime(instant: int, text: string)
    | VBool(b: bool)
    | VEntity(model: Model, state: map<string, Value>)
    | VDict(fields: map<string, Value>)

  /** A row or an entity's `__dict__`: attribute name to value. */
  type Record = map<string, Value>

  /** dict.get: a missing key reads as None. */
  function Get(r: Record, key: string): Value {
    if key in r then r[key] else VNull
  }

  /** CAST(value AS VARCHAR) for the values a column can hold. */
  function Text(v: Value): string {
    match v
    case VNull => ""
    case VStr(s) => s
    case VUuid(u) => u
    case VTime(_, t) => t
    case VBool(b) => if b then "true" else "false"
    case VEntity(_, _) => ""
    case VDict(_) => ""
  }

  /** Python's str.isspace for one character. */
  predicate IsSpace(c: char) {
    var n := c as int;
    || (9 <= n <= 13) || (28 <= n <= 32)
    || n == 0x85 || n == 0xA0 || n == 0x1680
    || (0x2000 <= n <= 0x200A)
    || n == 0x2028 || n == 0x2029 || n == 0x202F || n == 0x205F || n == 0x3000
  }

  /** Every character of t is whitespace. */
  predicate AllSpace(t: string) {
    forall k :: 0 <= k < |t| ==> IsSpace(t[k])
  }

  /** Drops the leading whitespace: what is kept is a suffix that does not start with whitespace. */
  function StripLeft(s: string): (r: string)
    ensures |r| <= |s| && r == s[|s| - |r|..]
    ensures r != [] ==> !IsSpace(r[0])
  {
    if s != [] && IsSpace(s[0]) then StripLeft(s[1..]) else s
  }

  /** All StripLeft drops is whitespace. */
  lemma {:induction false} StripLeftDrops(s: string)
    ensures AllSpace(s[..|s| - |StripLeft(s)|])
  {
    if s != [] && IsSpace(s[0]) {
      var r := StripLeft(s[1..]);
      StripLeftDrops(s[1..]);
      assert s[..|s| - |r|] == [s[0]] + s[1..][..|s| - 1 - |r|];
    }
  }

  /** Drops the trailing whitespace: what is kept is a prefix that does not end with whitespace. */
  function StripRight(s: string): (r: string)
    ensures |r| <= |s| && r == s[..|r|]
    ensures r != [] ==> !IsSpace(r[|r| - 1])
  {
    if s != [] && IsSpace(s[|s| - 1]) then StripRight(s[..|s| - 1]) else s
  }

  /** All StripRight drops is whitespace. */
  lemma {:induction false} StripRightDrops(s: string)
    ensures AllSpace(s[|StripRight(s)|..])
  {
    if s != [] && IsSpace(s[|s| - 1]) {
      var r := StripRight(s[..|s| - 1]);
      StripRightDrops(s[..|s| - 1]);
      assert s[|r|..] == s[..|s| - 1][|r|..] + [s[|s| - 1]];
    }
  }

  /** r is s[i..j], and everything of s outside that slice is whitespace. */
  predicate StripEnds(s: string, r: string, i: int, j: int) {
    && 0 <= i <= j <= |s| && r == s[i..j]
    && AllSpace(s[..i]) && AllSpace(s[j..])
  }

  /**
   * str.strip(): drop leading and trailing whitespace. The result is the
   * slice left once every whitespace character at either end is gone: what
   * is dropped is whitespace, and what is kept neither starts nor ends with it.
   */
  function Strip(s: string): (r: string)
    ensures r != [] ==> !IsSpace(r[0]) && !IsSpace(r[|r| - 1])
  {
    var l := StripLeft(s);
    var r := StripRight(l);
    assert r != [] ==> r[0] == l[0];
    r
  }

  /** What Strip keeps is a slice of its input, and all it drops at either end is whitespace. */
  lemma StripSlices(s: string)
    ensures exists i, j :: StripEnds(s, Strip(s), i, j)
  {
    var l := StripLeft(s);
    StripLeftDrops(s);
    StripRightDrops(l);
    assert Strip(s) == StripRight(l);
    StripBoth(s, l, StripRight(l));
  }

  /** Dropping a whitespace prefix, then a whitespace suffix, leaves a slice. */
  lemma StripBoth(s: string, l: string, r: string)
    requires |l| <= |s| && l == s[|s| - |l|..] && AllSpace(s[..|s| - |l|])
    requires |r| <= |l| && r == l[..|r|] && AllSpace(l[|r|..])
    ensures exists i, j :: StripEnds(s, r, i, j)
  {
    var i := |s| - |l|;
    assert r == s[i..i + |r|];
    assert s[i + |r|..] == l[|r|..];
    assert StripEnds(s, r, i, i + |r|);
  }

  /** str.replace(old, new) for single characters. */
  function Replace(s: string, from: char, to: char): (r: string)
    ensures |r| == |s|
    ensures forall i :: 0 <= i < |s| ==> r[i] == if s[i] == from then to else s[i]
  {
    seq(|s|, i requires 0 <= i < |s| => if s[i] == from then to else s[i])
  }

  /** str.split(","): the pieces between commas, empty pieces kept. */
  function SplitComma(s: string): (parts: seq<string>)
    ensures |parts| >= 1
    ensures forall k :: 0 <= k < |parts| ==> ',' !in parts[k]
    decreases |s|
  {
    if s == [] then [""]
    else if s[0] == ',' then [""] + SplitComma(s[1..])
    else
      var rest := SplitComma(s[1..]);
      [[s[0]] + rest[0]] + rest[1..]
  }

  /** ",".join(parts) */
  function JoinComma(parts: seq<string>): string
    requires |parts| >= 1
  {
    if |parts| == 1 then parts[0] else parts[0] + "," + JoinComma(parts[1..])
  }

  /** Splitting on commas loses nothing: joining the pieces gives the string back. */
  lemma {:induction false} SplitJoinRoundTrip(s: string)
    ensures JoinComma(SplitComma(s)) == s
    decreases |s|
  {
    if s == [] {
    } else if s[0] == ',' {
      SplitJoinRoundTrip(s[1..]);
      assert SplitComma(s)[1..] == SplitComma(s[1..]);
    } else {
      SplitJoinRoundTrip(s[1..]);
      var rest := SplitComma(s[1..]);
      if |rest| == 1 {
        assert SplitComma(s) == [[s[0]] + rest[0]];
      } else {
        assert SplitComma(s)[1..] == rest[1..];
        assert JoinComma(rest) == rest[0] + "," + JoinComma(rest[1..]);
        assert s == [s[0]] + s[1..];
      }
    }
  }

  /** A string with a comma splits into at least two pieces. */
  lemma {:induction false} SplitCommaCount(s: string)
    requires ',' in s
    ensures |SplitComma(s)| >= 2
    decreases |s|
  {
    if s[0] != ',' {
      SplitCommaCount(s[1..]);
    }
  }

  /** str.lower() restricted to ASCII letters: 'A'..'Z' become 'a'..'z', every other character is kept. */
  function LowerAscii(s: string): (r: string)
    ensures |r| == |s|
    ensures forall i :: 0 <= i < |s| ==> ('A' <= s[i] <= 'Z' ==> r[i] as int == s[i] as int + 32)
    ensures forall i :: 0 <= i < |s| ==> (!('A' <= s[i] <= 'Z') ==> r[i] == s[i])
  {
    seq(|s|, i requires 0 <= i < |s| => if 'A' <= s[i] <= 'Z' then (s[i] as int + 32) as char else s[i])
  }

  /**
   * A string lowers to a word of lower-case ASCII letters exactly when it
   * spells that word letter by letter, each letter in either case.
   */
  lemma LowerAsciiSpells(s: string, w: string)
    requires forall k :: 0 <= k < |w| ==> 'a' <= w[k] <= 'z'
    ensures LowerAscii(s) == w <==>
      |s| == |w| && forall k :: 0 <= k < |s| ==> s[k] == w[k] || s[k] as int == w[k] as int - 32
  {
    if |s| == |w| && forall k :: 0 <= k < |s| ==> s[k] == w[k] || s[k] as int == w[k] as int - 32 {
      forall k | 0 <= k < |s| ensures LowerAscii(s)[k] == w[k] {
      }
    }
  }
}
