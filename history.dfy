/**
 * The change recorder: the history action enum, the flattening of entity
 * values inside a change, the field-level diff between two attribute maps,
 * and the history record built from an operation's before- and after-state.
 */
module History {
  import opened Wrappers
  import opened Models
  import opened Values

  datatype HistoryAction = CREATE | UPDATE | DELETE

  /** The enum member's value. */
  function ActionValue(a: HistoryAction): string {
    match a
    case CREATE => "CREATE"
    case UPDATE => "UPDATE"
    case DELETE => "DELETE"
  }

  /** HistoryAction(s): the member whose value is s, if any. */
  function ParseAction(s: string): Option<HistoryAction> {
    if s == "CREATE" then Some(CREATE)
    else if s == "UPDATE" then Some(UPDATE)
    else if s == "DELETE" then Some(DELETE)
    else None
  }

  /** Each member's value is its own name, and the values name the members one to one. */
  lemma ActionRoundTrip(a: HistoryAction, s: string)
    ensures ParseAction(ActionValue(a)) == Some(a)
    ensures ParseAction(s).Some? ==> ActionValue(ParseAction(s).value) == s
    ensures ParseAction(s).Some? <==> s in {"CREATE", "UPDATE", "DELETE"}
  {
  }

  /** The column map of an entity: each table column to the entity's value for it. */
  function ColumnMap(columns: seq<string>, state: Record): (r: map<string, Value>)
    ensures forall c :: c in r <==> c in columns
    ensures forall c :: c in r ==> r[c] == Get(state, c)
  {
    map c | c in columns :: Get(state, c)
  }

  /**
   * convert_orm_to_dict: an entity becomes the map of its table columns; any
   * other value is returned as it is.
   */
  function Convert(v: Value): (r: Value)
    ensures !v.VEntity? ==> r == v
    ensures v.VEntity? ==>
      && r.VDict?
      && (forall c :: c in r.fields <==> c in v.model.columns)
      && (forall c :: c in r.fields ==> r.fields[c] == Get(v.state, c))
    ensures !r.VEntity?
  {
    match v
    case VEntity(m, state) => VDict(ColumnMap(m.columns, state))
    case _ => v
  }

  /** Converting twice is converting once: the column map is no longer an entity. */
  lemma ConvertIdempotent(v: Value)
    ensures Convert(Convert(v)) == Convert(v)
  {
  }

  /** A flattened entity carries no relationship entries. */
  lemma ConvertDropsRelations(v: Value)
    requires v.VEntity? && SchemaConsistent(v.model)
    ensures forall r :: r in v.model.relations ==> r !in Convert(v).fields
  {
  }

  /** One recorded change; both sides pass through Convert. */
  datatype ValueChange = ValueChange(oldValue: Value, newValue: Value)

  function Change(oldValue: Value, newValue: Value): (c: ValueChange)
    ensures !c.oldValue.VEntity? && !c.newValue.VEntity?
    ensures c.oldValue == Convert(oldValue) && c.newValue == Convert(newValue)
  {
    ValueChange(Convert(oldValue), Convert(newValue))
  }

  /** A history record as handed to the history table. */
  datatype HistoryEntry = HistoryEntry(
    tableName: string,
    entityId: string,
    userId: string,
    action: string,
    changes: map<string, ValueChange>)

  /** A key the recorder looks at: not private (`_` prefix) and not an audit field. */
  predicate Tracked(key: string) {
    !(key != [] && key[0] == '_') && key !in AuditFields
  }

  /** The diff recorded when there is an after-state: tracked keys of the after-state whose value changed. */
  function Diff(before: Record, after: Record): map<string, ValueChange> {
    map k | k in after && Tracked(k) && Get(before, k) != Get(after, k) :: Change(Get(before, k), Get(after, k))
  }

  /** The record of an entity with no after-state: each tracked plain field goes to None. */
  function Removal(m: Model, state: Record): map<string, ValueChange> {
    map k | k in state && Tracked(k) && k !in m.relations && !state[k].VEntity? :: Change(state[k], VNull)
  }

  /** The diff loop over the after-state's keys. */
  method ComputeDiff(before: Record, after: Record) returns (changes: map<string, ValueChange>)
    ensures changes == Diff(before, after)
  {
    changes := map[];
    var pending := after.Keys;
    while pending != {}
      invariant pending <= after.Keys
      invariant forall k :: k in changes <==> k in after && k !in pending && Tracked(k) && Get(before, k) != Get(after, k)
      invariant forall k :: k in changes ==> changes[k] == Change(Get(before, k), Get(after, k))
      decreases pending
    {
      var key :| key in pending;
      var oldValue := Get(before, key);
      var newValue := Get(after, key);
      if Tracked(key) && oldValue != newValue {
        changes := changes[key := Change(oldValue, newValue)];
      }
      pending := pending - {key};
    }
    assert changes.Keys == Diff(before, after).Keys;
  }

  /** The removal loop over the before-state's keys. */
  method ComputeRemoval(m: Model, state: Record) returns (changes: map<string, ValueChange>)
    ensures changes == Removal(m, state)
  {
    changes := map[];
    var pending := state.Keys;
    while pending != {}
      invariant pending <= state.Keys
      invariant forall k :: k in changes <==> k in state && k !in pending && Tracked(k) && k !in m.relations && !state[k].VEntity?
      invariant forall k :: k in changes ==> changes[k] == Change(state[k], VNull)
      decreases pending
    {
      var key :| key in pending;
      if Tracked(key) {
        var value := state[key];
        if key !in m.relations && !value.VEntity? {
          changes := changes[key := Change(value, VNull)];
        }
      }
      pending := pending - {key};
    }
    assert changes.Keys == Removal(m, state).Keys;
  }

  /** A live entity: its kind and its loaded attributes. */
  datatype Snapshot = Snapshot(model: Model, state: Record)

  /** The before-state: an entity, or a plain attribute map (a copy of one, or `{}`). */
  datatype Before = BeforeEntity(entity: Snapshot) | BeforeDict(fields: Record)

  function BeforeFields(before: Before): Record {
    match before
    case BeforeEntity(s) => s.state
    case BeforeDict(d) => d
  }

  /** The table name: the after-state's, else the before-state's when that is an entity. */
  function TableOf(after: Option<Snapshot>, before: Before): Option<string> {
    if after.Some? then Some(after.value.model.table)
    else if before.BeforeEntity? then Some(before.entity.model.table)
    else None
  }

  /** The entity id: the after-state's when its kind has ids, else the before-state's; None when neither gives one. */
  function IdOf(after: Option<Snapshot>, before: Before): Value {
    if after.Some? && after.value.model.hasId then Get(after.value.state, "id")
    else if before.BeforeEntity? && before.entity.model.hasId then Get(before.entity.state, "id")
    else VNull
  }

  /** The changes of a record: the removal without an after-state, else the diff against it. */
  function Changes(after: Option<Snapshot>, before: Before): map<string, ValueChange>
    requires after.None? ==> before.BeforeEntity?
  {
    if after.None? then Removal(before.entity.model, before.entity.state)
    else Diff(BeforeFields(before), after.value.state)
  }

  /**
   * The history record of one operation, or the error raised building it.
   * Without an after-state the table name can only come from an entity
   * before-state, so the "not a BaseModel instance" error is never reached.
   */
  function HistoryRecord(action: HistoryAction, userId: string, after: Option<Snapshot>, before: Before): (r: Result<HistoryEntry>)
    ensures r.Err? <==> TableOf(after, before).None? || !IdOf(after, before).VUuid?
    ensures r.Ok? ==>
      && r.value.tableName == TableOf(after, before).value
      && VUuid(r.value.entityId) == IdOf(after, before)
      && r.value.userId == userId
      && ParseAction(r.value.action) == Some(action)
  {
    var table := TableOf(after, before);
    var id := IdOf(after, before);
    if table.None? then Err(Fatal("Can't record history. Table name is not available."))
    else if id == VNull then Err(Fatal("Can't record history. Entity ID is not available."))
    else if !id.VUuid? then Err(ValueError("entity_id: Input should be a valid UUID"))
    else
      Ok(HistoryEntry(table.value, id.u, userId, ActionValue(action), Changes(after, before)))
  }

  /** The recorder's loop form: the same record, the changes built by the loops above. */
  method BuildHistory(action: HistoryAction, userId: string, after: Option<Snapshot>, before: Before) returns (r: Result<HistoryEntry>)
    ensures r == HistoryRecord(action, userId, after, before)
  {
    var table := TableOf(after, before);
    if table.None? {
      return Err(Fatal("Can't record history. Table name is not available."));
    }
    var id := IdOf(after, before);
    if id == VNull {
      return Err(Fatal("Can't record history. Entity ID is not available."));
    }
    if !id.VUuid? {
      return Err(ValueError("entity_id: Input should be a valid UUID"));
    }
    var changes := ComputeChanges(after, before);
    return Ok(HistoryEntry(table.value, id.u, userId, ActionValue(action), changes));
  }

  /** The changes loop: the removal loop without an after-state, else the diff loop. */
  method ComputeChanges(after: Option<Snapshot>, before: Before) returns (changes: map<string, ValueChange>)
    requires after.None? ==> before.BeforeEntity?
    ensures changes == Changes(after, before)
  {
    if after.None? {
      changes := ComputeRemoval(before.entity.model, before.entity.state);
    } else {
      changes := ComputeDiff(BeforeFields(before), after.value.state);
    }
  }

  // ----- what gets recorded -----

  /** Only tracked keys are ever recorded: no private key and no audit field. */
  lemma RecordedKeysTracked(action: HistoryAction, userId: string, after: Option<Snapshot>, before: Before, k: string)
    requires HistoryRecord(action, userId, after, before).Ok?
    requires k in HistoryRecord(action, userId, after, before).value.changes
    ensures Tracked(k) && k !in AuditFields && !(k != [] && k[0] == '_')
    ensures !HistoryRecord(action, userId, after, before).value.changes[k].oldValue.VEntity?
    ensures !HistoryRecord(action, userId, after, before).value.changes[k].newValue.VEntity?
  {
  }

  /** An update that leaves every tracked value as it was records no changes. */
  lemma UnchangedRecordsNothing(before: Record, after: Record)
    requires forall k :: k in after && Tracked(k) ==> Get(before, k) == Get(after, k)
    ensures Diff(before, after) == map[]
  {
    assert Diff(before, after).Keys == {};
  }

  /** A key is recorded exactly when it is tracked, in the after-state, and its value differs. */
  lemma DiffExactly(before: Record, after: Record, k: string)
    ensures k in Diff(before, after) <==> k in after && Tracked(k) && Get(before, k) != Get(after, k)
    ensures k in Diff(before, after) ==> Diff(before, after)[k] == ValueChange(Convert(Get(before, k)), Convert(after[k]))
  {
  }

  /**
   * CREATE compares against `{}`: every tracked field whose new value is not
   * None is recorded as None -> value, fields that are None are not.
   */
  lemma CreateRecordsNonNullFields(m: Model, state: Record, userId: string, k: string)
    requires m.hasId && Get(state, "id").VUuid?
    ensures HistoryRecord(CREATE, userId, Some(Snapshot(m, state)), BeforeDict(map[])).Ok?
    ensures var ch := HistoryRecord(CREATE, userId, Some(Snapshot(m, state)), BeforeDict(map[])).value.changes;
      && (k in ch <==> k in state && Tracked(k) && state[k] != VNull)
      && (k in ch ==> ch[k] == ValueChange(VNull, Convert(state[k])))
  {
  }

  /** CREATE always records the new id. */
  lemma CreateRecordsId(m: Model, state: Record, userId: string)
    requires m.hasId && Get(state, "id").VUuid?
    ensures var r := HistoryRecord(CREATE, userId, Some(Snapshot(m, state)), BeforeDict(map[]));
      r.Ok? && "id" in r.value.changes && r.value.changes["id"] == ValueChange(VNull, state["id"])
  {
    assert Tracked("id") by {
      assert "id" !in AuditFields;
    }
  }

  /** Without an after-state, relationship entries and entity values are left out and every recorded new value is None. */
  lemma RemovalSkipsRelations(m: Model, state: Record, k: string)
    ensures k in Removal(m, state) <==> k in state && Tracked(k) && k !in m.relations && !state[k].VEntity?
    ensures k in Removal(m, state) ==> Removal(m, state)[k] == ValueChange(state[k], VNull)
  {
  }

  /** With an after-state, relationship values are diffed like any other, flattened to their columns. */
  lemma DiffKeepsRelations(before: Record, after: Record, rel: string, target: Model, state: Record)
    requires rel in after && after[rel] == VEntity(target, state) && Tracked(rel)
    requires Get(before, rel) == VNull
    ensures rel in Diff(before, after)
    ensures Diff(before, after)[rel].newValue == VDict(ColumnMap(target.columns, state))
  {
  }
}
