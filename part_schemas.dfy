/**
 * The Part request and response schemas: the name and description
 * constraints (the column widths of `parts.name` and `parts.description`),
 * the create and update bodies as validity predicates, the attribute maps
 * they dump, and the fields a part is returned with.
 */
module PartSchemas {
  import opened Wrappers
  import opened Values
  import opened Validation

  const NameMax: nat := 256
  const DescriptionMax: nat := 1024

  /** AnnotatedName: 1 to 256 characters. */
  predicate ValidName(s: string) {
    1 <= |s| <= NameMax
  }

  /** AnnotatedDescription: None, or at most 1024 characters. */
  predicate ValidDescription(d: Option<string>) {
    d.Some? ==> |d.value| <= DescriptionMax
  }

  const CreateNameRule := StrRule(true, false, 1, NameMax)
  const UpdateNameRule := StrRule(false, true, 1, NameMax)
  const DescriptionRule := StrRule(false, true, 0, DescriptionMax)

  datatype PartCreate = PartCreate(name: string, description: Option<string>)

  datatype PartUpdate = PartUpdate(name: Option<string>, description: Option<string>)

  predicate ValidCreate(c: PartCreate) {
    ValidName(c.name) && ValidDescription(c.description)
  }

  predicate ValidUpdate(u: PartUpdate) {
    (u.name.Some? ==> ValidName(u.name.value)) && ValidDescription(u.description)
  }

  /** A description member the schema accepts: absent, null, or a short enough string. */
  predicate DescriptionAccepted(p: Payload) {
    "description" !in p || p["description"] == JNull || (p["description"].JStr? && |p["description"].s| <= DescriptionMax)
  }

  /** The description read from an accepted body. */
  function DescriptionOf(p: Payload): Option<string> {
    if "description" in p && p["description"].JStr? then Some(p["description"].s) else None
  }

  /**
   * PartCreateSchema: `name` is required, `description` defaults to None.
   * Every failing field is reported, in declaration order.
   */
  function ParseCreate(p: Payload): (r: Result<PartCreate>)
    ensures r.Ok? <==> "name" in p && p["name"].JStr? && ValidName(p["name"].s) && DescriptionAccepted(p)
    ensures r.Ok? ==> r.value == PartCreate(p["name"].s, DescriptionOf(p)) && ValidCreate(r.value)
    ensures r.Err? ==> r.error.Invalid? && r.error.errors != []
  {
    var n := CheckStr(CreateNameRule, Lookup(p, "name"));
    var d := CheckStr(DescriptionRule, Lookup(p, "description"));
    if n.Accept? && d.Accept? then Ok(PartCreate(n.value.value, d.value))
    else Err(Invalid(Problems("name", n) + Problems("description", d)))
  }

  /** A name member the update schema accepts: absent, null, or a valid name. */
  predicate UpdateNameAccepted(p: Payload) {
    "name" !in p || p["name"] == JNull || (p["name"].JStr? && ValidName(p["name"].s))
  }

  function UpdateNameOf(p: Payload): Option<string> {
    if "name" in p && p["name"].JStr? then Some(p["name"].s) else None
  }

  /** PartUpdateSchema: both fields optional, both defaulting to None. */
  function ParseUpdate(p: Payload): (r: Result<PartUpdate>)
    ensures r.Ok? <==> UpdateNameAccepted(p) && DescriptionAccepted(p)
    ensures r.Ok? ==> r.value == PartUpdate(UpdateNameOf(p), DescriptionOf(p)) && ValidUpdate(r.value)
    ensures r.Err? ==> r.error.Invalid? && r.error.errors != []
  {
    var n := CheckStr(UpdateNameRule, Lookup(p, "name"));
    var d := CheckStr(DescriptionRule, Lookup(p, "description"));
    if n.Accept? && d.Accept? then Ok(PartUpdate(n.value, d.value))
    else Err(Invalid(Problems("name", n) + Problems("description", d)))
  }

  function OptJson(o: Option<string>): Json {
    if o.Some? then JStr(o.value) else JNull
  }

  function OptValue(o: Option<string>): Value {
    if o.Some? then VStr(o.value) else VNull
  }

  /** The body a client sends for a create. */
  function CreateBody(c: PartCreate): Payload {
    map["name" := JStr(c.name), "description" := OptJson(c.description)]
  }

  function UpdateBody(u: PartUpdate): Payload {
    map["name" := OptJson(u.name), "description" := OptJson(u.description)]
  }

  /** Exactly the valid creates are accepted, and each is read back as itself. */
  lemma CreateRoundTrip(c: PartCreate)
    ensures ParseCreate(CreateBody(c)).Ok? <==> ValidCreate(c)
    ensures ValidCreate(c) ==> ParseCreate(CreateBody(c)) == Ok(c)
  {
  }

  lemma UpdateRoundTrip(u: PartUpdate)
    ensures ParseUpdate(UpdateBody(u)).Ok? <==> ValidUpdate(u)
    ensures ValidUpdate(u) ==> ParseUpdate(UpdateBody(u)) == Ok(u)
  {
  }

  /** Name bounds: the empty name and a 257-character name are refused, a 256-character name is taken. */
  lemma NameBounds()
    ensures ParseCreate(map["name" := JStr(""), "description" := JNull])
      == Err(Invalid([FieldError("name", "String should have at least 1 character")]))
    ensures ParseCreate(map["name" := JStr(seq(257, _ => 'a')), "description" := JNull])
      == Err(Invalid([FieldError("name", "String should have at most 256 characters")]))
    ensures ParseCreate(map["name" := JStr(seq(256, _ => 'a')), "description" := JNull])
      == Ok(PartCreate(seq(256, _ => 'a'), None))
  {
    var short := map["name" := JStr(""), "description" := JNull];
    assert Lookup(short, "name") == Some(JStr("")) && Lookup(short, "description") == Some(JNull);
    assert NatText(1) == "1";
    assert CheckStr(CreateNameRule, Some(JStr(""))) == Reject("String should have at least 1 character");
    var long := map["name" := JStr(seq(257, _ => 'a')), "description" := JNull];
    assert Lookup(long, "name") == Some(JStr(seq(257, _ => 'a'))) && Lookup(long, "description") == Some(JNull);
    assert NatText(256) == "256" by {
      assert NatText(25) == "25";
    }
    assert CheckStr(CreateNameRule, Some(JStr(seq(257, _ => 'a')))) == Reject("String should have at most 256 characters");
  }

  /** A missing or null description is accepted as None; a 1025-character one is refused. */
  lemma DescriptionBounds(name: string)
    requires ValidName(name)
    ensures ParseCreate(map["name" := JStr(name)]) == Ok(PartCreate(name, None))
    ensures ParseCreate(map["name" := JStr(name), "description" := JNull]) == Ok(PartCreate(name, None))
    ensures ParseCreate(map["name" := JStr(name), "description" := JStr(seq(1025, _ => 'd'))])
      == Err(Invalid([FieldError("description", "String should have at most 1024 characters")]))
  {
    var p := map["name" := JStr(name), "description" := JStr(seq(1025, _ => 'd'))];
    assert Lookup(p, "name") == Some(JStr(name)) && Lookup(p, "description") == Some(JStr(seq(1025, _ => 'd')));
    assert NatText(1024) == "1024" by {
      assert NatText(102) == "102" by {
        assert NatText(10) == "10";
      }
    }
    assert CheckStr(DescriptionRule, Some(JStr(seq(1025, _ => 'd')))) == Reject("String should have at most 1024 characters");
  }

  /** The attribute map a create passes to the model constructor. */
  function DumpCreate(c: PartCreate): (r: Record)
    ensures r.Keys == {"name", "description"}
    ensures r["name"] == VStr(c.name)
    ensures r["description"] == (if c.description.Some? then VStr(c.description.value) else VNull)
  {
    map["name" := VStr(c.name), "description" := OptValue(c.description)]
  }

  /** The update dumps both fields, defaults included. */
  function DumpUpdate(u: PartUpdate): (r: Record)
    ensures r.Keys == {"name", "description"}
    ensures u.name.None? <==> r["name"] == VNull
    ensures u.description.None? <==> r["description"] == VNull
  {
    map["name" := OptValue(u.name), "description" := OptValue(u.description)]
  }

  /** An update body that leaves out a field still writes None into it. */
  lemma OmittedFieldWritesNone(p: Payload)
    requires ParseUpdate(p).Ok?
    ensures "name" !in p ==> DumpUpdate(ParseUpdate(p).value)["name"] == VNull
    ensures "description" !in p ==> DumpUpdate(ParseUpdate(p).value)["description"] == VNull
  {
  }

  /** PartSchema's fields: the base fields, the id and the four audit fields. */
  const OutputFields: seq<string> := ["name", "description", "id", "created_at", "updated_at", "created_by", "updated_by"]

  /** Whether a part's attributes fit PartSchema's field types. */
  predicate OutputTyped(state: Record) {
    && Get(state, "name").VStr? && ValidName(Get(state, "name").s)
    && (Get(state, "description").VNull? || (Get(state, "description").VStr? && |Get(state, "description").s| <= DescriptionMax))
    && Get(state, "id").VUuid?
    && Get(state, "created_at").VTime? && Get(state, "updated_at").VTime?
    && Get(state, "created_by").VUuid? && Get(state, "updated_by").VUuid?
  }

  /**
   * The response for a part: its values for exactly the output fields, or a
   * validation error when one of them does not fit its type.
   */
  function Present(state: Record): (r: Result<Record>)
    ensures r.Ok? <==> OutputTyped(state)
    ensures r.Ok? ==> forall k :: k in r.value <==> k in OutputFields
    ensures r.Ok? ==> forall k :: k in r.value ==> r.value[k] == Get(state, k)
    ensures r.Err? ==> r.error.Invalid?
  {
    if OutputTyped(state) then Ok(map k | k in OutputFields :: Get(state, k))
    else Err(Invalid([FieldError("response", "Response does not match PartSchema")]))
  }

  /** The response carries the id and every audit field. */
  lemma OutputCarriesAudit()
    ensures "id" in OutputFields
    ensures forall f :: f in Models.AuditFields ==> f in OutputFields
    ensures forall c :: c in Models.PartModel().columns <==> c in OutputFields
  {
  }
}
