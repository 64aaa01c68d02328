/**
 * The Comment request and response schemas: the content constraint (the
 * column width of `comments.content`), the create body with its part
 * reference, the update body that carries content only, and the fields a
 * comment is returned with, including its creator's summary.
 */
module CommentSchemas {
  import opened Wrappers
  import opened Values
  import opened Validation

  const ContentMax: nat := 2028

  /** AnnotatedContent: 1 to 2028 characters, never None. */
  predicate ValidContent(s: string) {
    1 <= |s| <= ContentMax
  }

  const ContentRule := StrRule(true, false, 1, ContentMax)

  /** A create: the content and the canonical text of the part's id. */
  datatype CommentCreate = CommentCreate(content: string, partId: string)

  datatype CommentUpdate = CommentUpdate(content: string)

  predicate ValidCreate(c: CommentCreate) {
    ValidContent(c.content) && Canonical(c.partId)
  }

  predicate ValidUpdate(u: CommentUpdate) {
    ValidContent(u.content)
  }

  predicate ContentAccepted(p: Payload) {
    "content" in p && p["content"].JStr? && ValidContent(p["content"].s)
  }

  /** CommentCreateSchema: `content`, then the required UUID `part_id`. */
  function ParseCreate(p: Payload): (r: Result<CommentCreate>)
    ensures r.Ok? <==> ContentAccepted(p) && "part_id" in p && p["part_id"].JStr? && ParseUuid(p["part_id"].s).Some?
    ensures r.Ok? ==> r.value == CommentCreate(p["content"].s, ParseUuid(p["part_id"].s).value) && ValidCreate(r.value)
    ensures r.Err? ==> r.error.Invalid? && r.error.errors != []
  {
    var c := CheckStr(ContentRule, Lookup(p, "content"));
    var u := CheckUuid(Lookup(p, "part_id"));
    if c.Accept? && u.Accept? then Ok(CommentCreate(c.value.value, u.value))
    else Err(Invalid(Problems("content", c) + Problems("part_id", u)))
  }

  /** CommentUpdateSchema: `content` only, required, with the same bounds. */
  function ParseUpdate(p: Payload): (r: Result<CommentUpdate>)
    ensures r.Ok? <==> ContentAccepted(p)
    ensures r.Ok? ==> r.value == CommentUpdate(p["content"].s) && ValidUpdate(r.value)
    ensures r.Err? ==> r.error.Invalid? && r.error.errors != []
  {
    var c := CheckStr(ContentRule, Lookup(p, "content"));
    if c.Accept? then Ok(CommentUpdate(c.value.value))
    else Err(Invalid(Problems("content", c)))
  }

  function CreateBody(c: CommentCreate): Payload {
    map["content" := JStr(c.content), "part_id" := JStr(c.partId)]
  }

  /** A valid create is read back as itself. */
  lemma CreateRoundTrip(c: CommentCreate)
    requires ValidCreate(c)
    ensures ParseCreate(CreateBody(c)) == Ok(c)
  {
    assert Hyphenated(c.partId);
    assert LowerHex(c.partId) == c.partId;
  }

  /** Re-sending what a body was read as reads the same: the part id is already canonical. */
  lemma CreateNormalForm(p: Payload)
    requires ParseCreate(p).Ok?
    ensures ParseCreate(CreateBody(ParseCreate(p).value)) == ParseCreate(p)
  {
    CreateRoundTrip(ParseCreate(p).value);
  }

  /** Null content and a missing or null part id are refused, and each is named in the errors. */
  lemma MissingFieldsRejected(content: string, partId: Json)
    ensures ParseCreate(map["content" := JNull, "part_id" := partId]).Err?
    ensures ParseCreate(map["content" := JNull, "part_id" := partId]).error.errors[0]
      == FieldError("content", "Input should be a valid string")
    ensures ParseCreate(map["content" := JStr(content)]).Err?
    ensures FieldError("part_id", "Field required") in ParseCreate(map["content" := JStr(content)]).error.errors
    ensures FieldError("part_id", "UUID input should be a string, bytes or UUID object")
      in ParseCreate(map["content" := JStr(content), "part_id" := JNull]).error.errors
  {
    var p := map["content" := JNull, "part_id" := partId];
    assert Lookup(p, "content") == Some(JNull);
    var q := map["content" := JStr(content)];
    assert Lookup(q, "part_id") == None;
    var r := map["content" := JStr(content), "part_id" := JNull];
    assert Lookup(r, "part_id") == Some(JNull);
  }

  /** The attribute map a create passes to the model constructor. */
  function DumpCreate(c: CommentCreate): (r: Record)
    ensures r.Keys == {"content", "part_id"}
    ensures r["content"] == VStr(c.content) && r["part_id"] == VUuid(c.partId)
  {
    map["content" := VStr(c.content), "part_id" := VUuid(c.partId)]
  }

  /** The update dumps the content and nothing else. */
  function DumpUpdate(u: CommentUpdate): (r: Record)
    ensures r.Keys == {"content"}
    ensures r["content"] == VStr(u.content)
  {
    map["content" := VStr(u.content)]
  }

  /** No update body, whatever members it holds, can write the part reference. */
  lemma UpdateNeverWritesPartId(p: Payload)
    requires ParseUpdate(p).Ok?
    ensures "part_id" !in DumpUpdate(ParseUpdate(p).value)
    ensures DumpUpdate(ParseUpdate(p).value) == map["content" := VStr(p["content"].s)]
  {
  }

  /** UserBaseSchema, the creator summary: id, name, role, optional is_active. */
  predicate UserSummaryTyped(state: Record) {
    && Get(state, "id").VUuid?
    && Get(state, "name").VStr? && Get(state, "role").VStr?
    && (Get(state, "is_active").VNull? || Get(state, "is_active").VBool?)
  }

  const UserSummaryFields: seq<string> := ["id", "name", "role", "is_active"]

  /** CommentSchema's own fields; `creator` comes on top. */
  const OutputFields: seq<string> := ["content", "id", "part_id", "created_by", "updated_by", "created_at", "updated_at"]

  /** Whether a comment's attributes fit CommentSchema; `updated_by` may be None, `creator` may not. */
  predicate OutputTyped(state: Record) {
    && Get(state, "content").VStr? && ValidContent(Get(state, "content").s)
    && Get(state, "id").VUuid? && Get(state, "part_id").VUuid? && Get(state, "created_by").VUuid?
    && (Get(state, "updated_by").VNull? || Get(state, "updated_by").VUuid?)
    && Get(state, "created_at").VTime? && Get(state, "updated_at").VTime?
    && Get(state, "creator").VEntity? && UserSummaryTyped(Get(state, "creator").state)
  }

  /**
   * The response for a comment: its values for the output fields, plus
   * `creator` as the summary of the creating user; or a validation error.
   */
  function Present(state: Record): (r: Result<Record>)
    ensures r.Ok? <==> OutputTyped(state)
    ensures r.Ok? ==> forall k :: k in r.value <==> k in OutputFields || k == "creator"
    ensures r.Ok? ==> forall k :: k in r.value && k != "creator" ==> r.value[k] == Get(state, k)
    ensures r.Ok? ==>
      && r.value["creator"].VDict?
      && (forall k :: k in r.value["creator"].fields <==> k in UserSummaryFields)
      && (forall k :: k in r.value["creator"].fields ==> r.value["creator"].fields[k] == Get(Get(state, "creator").state, k))
    ensures r.Err? ==> r.error.Invalid?
  {
    if OutputTyped(state) then
      var creator := Get(state, "creator").state;
      Ok((map k | k in OutputFields :: Get(state, k))["creator" := VDict(map k | k in UserSummaryFields :: Get(creator, k))])
    else Err(Invalid([FieldError("response", "Response does not match CommentSchema")]))
  }

  /** A comment without an updater is still returned; one without its creator loaded is not. */
  lemma OutputOptionality(state: Record)
    requires OutputTyped(state)
    ensures Present(state["updated_by" := VNull]).Ok?
    ensures Present(state["creator" := VNull]).Err?
    ensures Present(state - {"creator"}).Err?
  {
    var s := state["updated_by" := VNull];
    assert Get(s, "updated_by") == VNull;
    assert forall k :: k != "updated_by" ==> Get(s, k) == Get(state, k);
  }
}
