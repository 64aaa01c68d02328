/**
 * Request-body validation as the schema classes declare it: JSON input
 * values, the check of one constrained string field, the check of one UUID
 * field, and the messages each check reports when it rejects its input.
 */
module Validation {
  import opened Wrappers

  /** A JSON value as it arrives in a request body. */
  datatype Json =
    | JNull
    | JStr(s: string)
    | JNum(n: int)
    | JBool(b: bool)
    | JArray(items: seq<Json>)
    | JObject(members: map<string, Json>)

  /** A request body: member name to value. Members the schema does not declare are ignored. */
  type Payload = map<string, Json>

  function Lookup(p: Payload, key: string): Option<Json> {
    if key in p then Some(p[key]) else None
  }

  /** The outcome of validating one field. */
  datatype Check<T> = Accept(value: T) | Reject(msg: string)

  /** The validation errors of one field: none, or one with the field's name. */
  function Problems<T>(loc: string, c: Check<T>): (r: seq<FieldError>)
    ensures c.Accept? <==> r == []
    ensures c.Reject? ==> r == [FieldError(loc, c.msg)]
  {
    if c.Reject? then [FieldError(loc, c.msg)] else []
  }

  /** Decimal text of a natural number. */
  function NatText(n: nat): string {
    if n < 10 then [('0' as int + n) as char] else NatText(n / 10) + NatText(n % 10)
  }

  function Characters(n: nat): string {
    if n == 1 then "character" else "characters"
  }

  /**
   * A string field's declaration: whether it has no default (required),
   * whether `None` is among its types, and its length bounds.
   */
  datatype StrRule = StrRule(required: bool, nullable: bool, minLen: nat, maxLen: nat)

  /**
   * Validating one string field. A missing optional field takes its default
   * `None`; a string is accepted exactly when its length is within the bounds;
   * no other JSON value is coerced to a string.
   */
  function CheckStr(rule: StrRule, j: Option<Json>): (c: Check<Option<string>>)
    ensures c.Accept? && c.value.Some? ==> j == Some(JStr(c.value.value)) && rule.minLen <= |c.value.value| <= rule.maxLen
    ensures c.Accept? && c.value.None? ==> (j.None? && !rule.required) || (j == Some(JNull) && rule.nullable)
    ensures j.Some? && j.value.JStr? && rule.minLen <= |j.value.s| <= rule.maxLen ==> c == Accept(Some(j.value.s))
    ensures j.None? && !rule.required ==> c == Accept(None)
    ensures j == Some(JNull) && rule.nullable ==> c == Accept(None)
    ensures j.None? && rule.required ==> c == Reject("Field required")
  {
    match j
    case None => if rule.required then Reject("Field required") else Accept(None)
    case Some(JNull) => if rule.nullable then Accept(None) else Reject("Input should be a valid string")
    case Some(JStr(s)) =>
      if |s| < rule.minLen then
        Reject("String should have at least " + NatText(rule.minLen) + " " + Characters(rule.minLen))
      else if |s| > rule.maxLen then
        Reject("String should have at most " + NatText(rule.maxLen) + " " + Characters(rule.maxLen))
      else Accept(Some(s))
    case Some(_) => Reject("Input should be a valid string")
  }

  // ----- UUID fields -----

  predicate IsHex(c: char) {
    ('0' <= c <= '9') || ('a' <= c <= 'f') || ('A' <= c <= 'F')
  }

  predicate IsLowerHex(c: char) {
    ('0' <= c <= '9') || ('a' <= c <= 'f')
  }

  /** Positions of the four hyphens in the 8-4-4-4-12 form. */
  predicate IsDashPos(i: int) {
    i == 8 || i == 13 || i == 18 || i == 23
  }

  /** 8-4-4-4-12 hex digits separated by hyphens, in either case. */
  predicate Hyphenated(s: string) {
    |s| == 36 && forall i :: 0 <= i < 36 ==> if IsDashPos(i) then s[i] == '-' else IsHex(s[i])
  }

  /** 32 hex digits without separators. */
  predicate Simple(s: string) {
    |s| == 32 && forall i :: 0 <= i < 32 ==> IsHex(s[i])
  }

  /** The text a UUID is rendered as: the hyphenated form in lower case. */
  predicate Canonical(s: string) {
    |s| == 36 && forall i :: 0 <= i < 36 ==> if IsDashPos(i) then s[i] == '-' else IsLowerHex(s[i])
  }

  function LowerHex(s: string): (r: string)
    ensures |r| == |s|
    ensures forall i :: 0 <= i < |s| ==> r[i] == if 'A' <= s[i] <= 'F' then (s[i] as int + 32) as char else s[i]
  {
    seq(|s|, i requires 0 <= i < |s| => if 'A' <= s[i] <= 'F' then (s[i] as int + 32) as char else s[i])
  }

  function Hyphenate(s: string): (r: string)
    requires Simple(s)
    ensures Hyphenated(r)
  {
    var r := s[..8] + "-" + s[8..12] + "-" + s[12..16] + "-" + s[16..20] + "-" + s[20..];
    assert forall i :: 0 <= i < 36 ==> r[i] == if i < 8 then s[i] else if i == 8 then '-' else if i < 13 then s[i - 1]
      else if i == 13 then '-' else if i < 18 then s[i - 2] else if i == 18 then '-' else if i < 23 then s[i - 3]
      else if i == 23 then '-' else s[i - 4];
    r
  }

  lemma LowerHexCanonical(s: string)
    requires Hyphenated(s)
    ensures Canonical(LowerHex(s))
  {
  }

  /**
   * Reading a UUID from text: the simple, hyphenated, braced (`{...}`) and
   * URN (`urn:uuid:...`) forms in either case; the result is the UUID's
   * canonical text.
   */
  function ParseUuid(s: string): (r: Option<string>)
    ensures r.Some? ==> Canonical(r.value)
    ensures Hyphenated(s) ==> r == Some(LowerHex(s))
    ensures Simple(s) ==> r == Some(LowerHex(Hyphenate(s)))
  {
    if Simple(s) then LowerHexCanonical(Hyphenate(s)); Some(LowerHex(Hyphenate(s)))
    else if Hyphenated(s) then LowerHexCanonical(s); Some(LowerHex(s))
    else if |s| == 38 && s[0] == '{' && s[37] == '}' && Hyphenated(s[1..37]) then
      LowerHexCanonical(s[1..37]); Some(LowerHex(s[1..37]))
    else if |s| == 45 && s[..9] == "urn:uuid:" && Hyphenated(s[9..]) then
      LowerHexCanonical(s[9..]); Some(LowerHex(s[9..]))
    else None
  }

  /** The canonical text reads back as itself, so reading a UUID twice changes nothing. */
  lemma ParseUuidIdempotent(s: string)
    ensures ParseUuid(s).Some? ==> ParseUuid(ParseUuid(s).value) == ParseUuid(s)
  {
    if ParseUuid(s).Some? {
      var t := ParseUuid(s).value;
      assert Hyphenated(t);
      assert LowerHex(t) == t;
    }
  }

  /** The braced and the URN form denote the same UUID as the bare hyphenated text. */
  lemma ParseUuidWrappers(s: string)
    requires Hyphenated(s)
    ensures ParseUuid("{" + s + "}") == ParseUuid(s)
    ensures ParseUuid("urn:uuid:" + s) == ParseUuid(s)
  {
    var braced := "{" + s + "}";
    assert braced[1..37] == s;
    assert !Simple(braced) && !Hyphenated(braced);
    var urn := "urn:uuid:" + s;
    assert urn[..9] == "urn:uuid:" && urn[9..] == s;
    assert !Simple(urn) && !Hyphenated(urn);
  }

  /**
   * Validating one UUID field: required, and null is not a UUID. A string is
   * accepted exactly when it reads as a UUID, and the field then holds the
   * canonical text.
   */
  function CheckUuid(j: Option<Json>): (c: Check<string>)
    ensures c.Accept? <==> j.Some? && j.value.JStr? && ParseUuid(j.value.s).Some?
    ensures c.Accept? ==> c.value == ParseUuid(j.value.s).value && Canonical(c.value)
    ensures j.None? ==> c == Reject("Field required")
    ensures j == Some(JNull) ==> c == Reject("UUID input should be a string, bytes or UUID object")
  {
    match j
    case None => Reject("Field required")
    case Some(JStr(s)) =>
      var u := ParseUuid(s);
      if u.Some? then Accept(u.value) else Reject("Input should be a valid UUID")
    case Some(_) => Reject("UUID input should be a string, bytes or UUID object")
  }
}
