/**
 * What the repository operations guarantee: what create writes and records,
 * that a constraint failure leaves the store alone, that unique keys stay
 * unique, how update merges its input (defaults included) and never
 * translates a unique violation, that soft deletion keeps the row, and how
 * the Part and Comment schemas meet the store.
 */
module CrudProperties {
  import opened Wrappers
  import opened Models
  import opened Values
  import opened Validation
  import opened Query
  import opened Evaluation
  import opened History
  import opened FilterSemantics
  import opened Crud
  import Like
  import opened Ordering
  import PartSchemas
  import CommentSchemas

  // ----- create -----

  /** The row create writes for these inputs. */
  function CreatedRow(m: Model, values: Record, actorId: string, newId: string, now: Timestamp): Record {
    InsertedRow(m, StampCreate(m, values, actorId), newId, now)
  }

  /**
   * The row create writes has exactly the kind's columns: the acting user in
   * created_by and updated_by, the new id unless one was given, the current
   * time in the timestamps unless given, and the input's value everywhere
   * else it gives one.
   */
  lemma CreatedRowContents(m: Model, values: Record, actorId: string, newId: string, now: Timestamp)
    requires CapabilitiesHold(m)
    ensures var row := CreatedRow(m, values, actorId, newId, now);
      && (forall c :: c in row <==> c in m.columns)
      && (m.createdBy ==> row["created_by"] == VUuid(actorId))
      && (m.blameable ==> row["updated_by"] == VUuid(actorId))
      && (m.blameable && "created_at" !in values ==> row["created_at"] == now)
      && (m.blameable && "updated_at" !in values ==> row["updated_at"] == now)
      && (m.hasId && "id" !in values ==> row["id"] == VUuid(newId))
      && (forall c :: c in values && c in m.columns && c != "created_by" && c != "updated_by" ==> row[c] == values[c])
      && (forall c :: c in m.columns && c !in values && c !in {"id", "created_by", "updated_by", "created_at", "updated_at"}
            ==> row[c] == VNull)
  {
    if m.blameable {
      assert "created_at" in AuditFields && "updated_at" in AuditFields && "updated_by" in AuditFields;
    }
  }

  /**
   * A successful create appends exactly that row to its kind's table, leaves
   * every other table alone, returns the row with the refreshed relations
   * loaded, and appends one CREATE record whose changes diff the returned
   * entity against `{}`.
   */
  lemma CreateWrites(db: Tables, cfg: CrudConfig, values: Record, actorId: string, newId: string, now: Timestamp)
    requires CreateStep(db, cfg, values, actorId, newId, now).result.Ok?
    ensures var o := CreateStep(db, cfg, values, actorId, newId, now);
      var m := cfg.model;
      var row := CreatedRow(m, values, actorId, newId, now);
      && o.tables == db[m.table := Rows(db, m.table) + [row]]
      && Rows(o.tables, m.table) == Rows(db, m.table) + [row]
      && (forall t :: t != m.table ==> Rows(o.tables, t) == Rows(db, t))
      && o.result.value == Loaded(o.tables, m, row, cfg.refresh)
      && o.entry.Some?
      && ParseAction(o.entry.value.action) == Some(CREATE)
      && o.entry.value.tableName == m.table && o.entry.value.userId == actorId
      && VUuid(o.entry.value.entityId) == IdOf(Some(Snapshot(m, o.result.value)), BeforeDict(map[]))
      && o.entry.value.changes == Diff(map[], o.result.value)
  {
    var m := cfg.model;
    assert Construct(m, values) == Ok(values);
    var row := CreatedRow(m, values, actorId, newId, now);
    assert Violated(db, m, row, None).None?;
  }

  /** A failed create appends no history record; a constraint or constructor failure also leaves every table as it was. */
  lemma CreateFailureLeavesStore(db: Tables, cfg: CrudConfig, values: Record, actorId: string, newId: string, now: Timestamp)
    ensures var o := CreateStep(db, cfg, values, actorId, newId, now);
      && (o.result.Err? <==> o.entry.None?)
      && (o.result.Err? && (o.result.error.NotUnique? || o.result.error.Integrity? || o.result.error.TypeError?) ==> o.tables == db)
  {
    var m := cfg.model;
    var o := CreateStep(db, cfg, values, actorId, newId, now);
    if Construct(m, values).Ok? {
      var row := CreatedRow(m, values, actorId, newId, now);
      if Violated(db, m, row, None).None? {
        var written := db[m.table := Rows(db, m.table) + [row]];
        var after := Loaded(written, m, row, cfg.refresh);
        var h := HistoryRecord(CREATE, actorId, Some(Snapshot(m, after)), BeforeDict(map[]));
        assert h.Err? ==> h.error.Fatal? || h.error.ValueError?;
      }
    }
  }

  /**
   * Create reports NotUniqueError exactly when the row passes its NOT NULL
   * checks and one of its unique keys is already taken; the store is then
   * unchanged.
   */
  lemma CreateNotUniqueIff(db: Tables, cfg: CrudConfig, values: Record, actorId: string, newId: string, now: Timestamp)
    requires forall k :: k in values ==> HasAttribute(cfg.model, k)
    ensures var o := CreateStep(db, cfg, values, actorId, newId, now);
      var m := cfg.model;
      var row := CreatedRow(m, values, actorId, newId, now);
      (o.result.Err? && o.result.error.NotUnique?) <==>
        && (forall k :: 0 <= k < |m.columns| && m.columns[k] in m.notNull ==> Get(row, m.columns[k]) != VNull)
        && (exists c :: c in UniqueKeys(m) && Get(row, c) != VNull && Taken(Rows(db, m.table), c, Get(row, c), None))
    ensures var o := CreateStep(db, cfg, values, actorId, newId, now);
      o.result.Err? && o.result.error.NotUnique? ==> o.tables == db && o.entry.None?
  {
    var m := cfg.model;
    var row := CreatedRow(m, values, actorId, newId, now);
    var rows := Rows(db, m.table);
    assert Construct(m, values) == Ok(values);
    var nullCol := FirstNull(m.columns, m.notNull, row);
    if nullCol.None? {
      var clash := FirstClash(rows, UniqueKeys(m), row, None);
      if clash.None? {
        forall c | c in UniqueKeys(m) && Get(row, c) != VNull ensures !Taken(rows, c, Get(row, c), None) {
          var k :| 0 <= k < |UniqueKeys(m)| && UniqueKeys(m)[k] == c;
        }
        CreateFailureLeavesStore(db, cfg, values, actorId, newId, now);
      }
    } else {
      var k :| 0 <= k < |m.columns| && m.columns[k] == nullCol.value;
    }
  }

  /** Appending a row none of whose set unique keys is taken keeps every unique key unique. */
  lemma AppendKeepsUnique(rows: seq<Record>, keys: seq<string>, row: Record)
    requires UniqueKeysHold(rows, keys)
    requires forall k :: 0 <= k < |keys| && Get(row, keys[k]) != VNull ==> !Taken(rows, keys[k], Get(row, keys[k]), None)
    ensures UniqueKeysHold(rows + [row], keys)
  {
    var all := rows + [row];
    forall i, j, k | 0 <= i < |all| && 0 <= j < |all| && i != j && 0 <= k < |keys| && Get(all[i], keys[k]) != VNull
      ensures Get(all[i], keys[k]) != Get(all[j], keys[k])
    {
      if i == |rows| {
        assert all[j] == rows[j];
        assert !Taken(rows, keys[k], Get(row, keys[k]), None);
      } else if j == |rows| {
        assert all[i] == rows[i];
        if Get(row, keys[k]) == Get(rows[i], keys[k]) {
          assert Taken(rows, keys[k], Get(row, keys[k]), None);
        }
      } else {
        assert all[i] == rows[i] && all[j] == rows[j];
      }
    }
  }

  /** Create keeps the primary key and every unique column unique. */
  lemma CreateKeepsUnique(db: Tables, cfg: CrudConfig, values: Record, actorId: string, newId: string, now: Timestamp)
    requires UniqueKeysHold(Rows(db, cfg.model.table), UniqueKeys(cfg.model))
    ensures UniqueKeysHold(Rows(CreateStep(db, cfg, values, actorId, newId, now).tables, cfg.model.table), UniqueKeys(cfg.model))
  {
    var m := cfg.model;
    var o := CreateStep(db, cfg, values, actorId, newId, now);
    if Construct(m, values).Ok? {
      var row := CreatedRow(m, values, actorId, newId, now);
      if Violated(db, m, row, None).None? {
        AppendKeepsUnique(Rows(db, m.table), UniqueKeys(m), row);
        assert Rows(o.tables, m.table) == Rows(db, m.table) + [row];
      }
    }
  }

  // ----- creating parts and comments from their schemas -----

  /** The acting user is a stored user. */
  predicate UserExists(db: Tables, actorId: string) {
    FirstWith(Rows(db, "users"), "id", VUuid(actorId)).Some?
  }

  /** No stored row of the table has this id. */
  predicate FreshId(db: Tables, table: string, newId: string) {
    forall x :: x in Rows(db, table) ==> Get(x, "id") != VUuid(newId)
  }

  /** A row none of whose constraints is broken passes the checks. */
  lemma ViolatedNone(db: Tables, m: Model, row: Record, skip: Option<nat>)
    requires forall c :: c in m.columns && c in m.notNull ==> Get(row, c) != VNull
    requires forall c :: c in UniqueKeys(m) && Get(row, c) != VNull ==> !Taken(Rows(db, m.table), c, Get(row, c), skip)
    requires forall fk :: fk in m.foreignKeys ==>
      Get(row, fk.column) == VNull || FirstWith(Rows(db, fk.refTable), "id", Get(row, fk.column)).Some?
    ensures Violated(db, m, row, skip).None?
  {
    var rows := Rows(db, m.table);
    var previous := if skip.Some? && skip.value < |rows| then Some(rows[skip.value]) else None;
    assert FirstNull(m.columns, m.notNull, row).None?;
    assert FirstClash(rows, UniqueKeys(m), row, skip).None?;
    assert FirstDangling(db, m.foreignKeys, row, previous).None?;
  }

  /** A create whose row passes the checks and carries a UUID id succeeds. */
  lemma CreateSucceeds(db: Tables, cfg: CrudConfig, values: Record, actorId: string, newId: string, now: Timestamp)
    requires "id" !in cfg.model.relations
    requires forall k :: k in values ==> HasAttribute(cfg.model, k)
    requires Violated(db, cfg.model, CreatedRow(cfg.model, values, actorId, newId, now), None).None?
    requires cfg.model.hasId && Get(CreatedRow(cfg.model, values, actorId, newId, now), "id").VUuid?
    ensures var o := CreateStep(db, cfg, values, actorId, newId, now);
      var row := CreatedRow(cfg.model, values, actorId, newId, now);
      && o.result.Ok? && o.entry.Some?
      && o.result.value == Loaded(o.tables, cfg.model, row, cfg.refresh)
      && (cfg.refresh * cfg.model.relations.Keys == {} ==> o.result.value == row)
      && Rows(o.tables, cfg.model.table) == Rows(db, cfg.model.table) + [row]
  {
    var m := cfg.model;
    assert Construct(m, values) == Ok(values);
    var row := CreatedRow(m, values, actorId, newId, now);
    var written := db[m.table := Rows(db, m.table) + [row]];
    var after := Loaded(written, m, row, cfg.refresh);
    assert Get(after, "id") == Get(row, "id");
    assert HistoryRecord(CREATE, actorId, Some(Snapshot(m, after)), BeforeDict(map[])).Ok?;
    if cfg.refresh * m.relations.Keys == {} {
      assert forall k :: k in cfg.refresh && k in m.relations ==> k in cfg.refresh * m.relations.Keys;
      assert after == row;
    }
  }

  /** The Part row a schema create writes. */
  lemma PartCreatedRow(c: PartSchemas.PartCreate, actorId: string, newId: string, now: Timestamp)
    ensures var row := CreatedRow(PartModel(), PartSchemas.DumpCreate(c), actorId, newId, now);
      && Get(row, "name") == VStr(c.name) && Get(row, "description") == PartSchemas.OptValue(c.description)
      && Get(row, "id") == VUuid(newId) && Get(row, "created_at") == now && Get(row, "updated_at") == now
      && Get(row, "created_by") == VUuid(actorId) && Get(row, "updated_by") == VUuid(actorId)
  {
    var m := PartModel();
    CreatedRowContents(m, PartSchemas.DumpCreate(c), actorId, newId, now);
  }

  /** A part row as create writes it: the name, the new id, the acting user and the timestamps set. */
  predicate PartRowStamped(row: Record, actorId: string, newId: string, name: string) {
    && Get(row, "name") == VStr(name) && Get(row, "id") == VUuid(newId)
    && Get(row, "created_by") == VUuid(actorId) && Get(row, "updated_by") == VUuid(actorId)
    && Get(row, "created_at").VTime? && Get(row, "updated_at").VTime?
  }

  /** ... and its id fresh, its name unused, the acting user stored. */
  predicate PartRowFits(db: Tables, row: Record, actorId: string, newId: string, name: string) {
    && PartRowStamped(row, actorId, newId, name)
    && UserExists(db, actorId) && FreshId(db, "parts", newId)
    && forall x :: x in Rows(db, "parts") ==> Get(x, "name") != VStr(name)
  }

  /** Such a row breaks no constraint of the parts table. */
  lemma PartRowPasses(db: Tables, row: Record, actorId: string, newId: string, name: string)
    requires PartRowFits(db, row, actorId, newId, name)
    ensures Violated(db, PartModel(), row, None).None?
  {
    var m := PartModel();
    var rows := Rows(db, "parts");
    forall i | 0 <= i < |rows| ensures Get(rows[i], "id") != VUuid(newId) && Get(rows[i], "name") != VStr(name) {
      assert rows[i] in rows;
    }
    assert UniqueKeys(m) == ["id", "name"];
    ViolatedNone(db, m, row, None);
  }

  /**
   * A schema-valid Part create by a stored user, under a fresh id and a name
   * no stored part has, succeeds: it returns the row it writes and records
   * one history entry.
   */
  lemma PartCreateSucceeds(db: Tables, c: PartSchemas.PartCreate, actorId: string, newId: string, now: Timestamp)
    requires UserExists(db, actorId) && FreshId(db, "parts", newId)
    requires forall x :: x in Rows(db, "parts") ==> Get(x, "name") != VStr(c.name)
    ensures var o := CreateStep(db, PartCrud(), PartSchemas.DumpCreate(c), actorId, newId, now);
      o.result == Ok(CreatedRow(PartModel(), PartSchemas.DumpCreate(c), actorId, newId, now)) && |Entries(o)| == 1
  {
    var m := PartModel();
    var values := PartSchemas.DumpCreate(c);
    var row := CreatedRow(m, values, actorId, newId, now);
    PartCreatedRow(c, actorId, newId, now);
    PartRowPasses(db, row, actorId, newId, c.name);
    CreateSucceeds(db, PartCrud(), values, actorId, newId, now);
  }

  /** The row of a schema-valid create is returned as a PartSchema with the body's name and description. */
  lemma PartCreatedRowPresented(c: PartSchemas.PartCreate, actorId: string, newId: string, now: Timestamp)
    requires PartSchemas.ValidCreate(c)
    ensures var r := PartSchemas.Present(CreatedRow(PartModel(), PartSchemas.DumpCreate(c), actorId, newId, now));
      && r.Ok?
      && r.value["name"] == VStr(c.name) && r.value["description"] == PartSchemas.OptValue(c.description)
      && r.value["id"] == VUuid(newId) && r.value["created_by"] == VUuid(actorId) && r.value["updated_by"] == VUuid(actorId)
  {
    PartCreatedRow(c, actorId, newId, now);
  }

  /**
   * Both together: the part a valid body creates is stored, recorded once,
   * and returned with the body's name and description.
   */
  lemma PartCreateStores(db: Tables, c: PartSchemas.PartCreate, actorId: string, newId: string, now: Timestamp)
    requires PartSchemas.ValidCreate(c) && UserExists(db, actorId) && FreshId(db, "parts", newId)
    requires forall x :: x in Rows(db, "parts") ==> Get(x, "name") != VStr(c.name)
    ensures var o := CreateStep(db, PartCrud(), PartSchemas.DumpCreate(c), actorId, newId, now);
      && o.result.Ok? && |Entries(o)| == 1
      && PartSchemas.Present(o.result.value).Ok?
      && PartSchemas.Present(o.result.value).value["name"] == VStr(c.name)
      && PartSchemas.Present(o.result.value).value["description"] == PartSchemas.OptValue(c.description)
  {
    PartCreateSucceeds(db, c, actorId, newId, now);
    PartCreatedRowPresented(c, actorId, newId, now);
  }

  /** Such a row under a fresh id, whose name a stored part has, breaks the name's unique index first. */
  lemma PartRowClashes(db: Tables, row: Record, actorId: string, newId: string, name: string)
    requires PartRowStamped(row, actorId, newId, name) && FreshId(db, "parts", newId)
    requires exists x :: x in Rows(db, "parts") && Get(x, "name") == VStr(name)
    ensures Violated(db, PartModel(), row, None)
      == Some(UniqueViolation("duplicate key value violates unique constraint \"parts_name_key\""))
  {
    var m := PartModel();
    assert FirstNull(m.columns, m.notNull, row).None?;
    PartNameClashes(Rows(db, "parts"), row, newId, name);
    assert UniqueKeys(m) == ["id", "name"];
    PartNameKeyMessage();
  }

  /** Among a fresh id and a used name, the name is the first unique key that clashes. */
  lemma PartNameClashes(rows: seq<Record>, row: Record, newId: string, name: string)
    requires Get(row, "name") == VStr(name) && Get(row, "id") == VUuid(newId)
    requires forall x :: x in rows ==> Get(x, "id") != VUuid(newId)
    requires exists x :: x in rows && Get(x, "name") == VStr(name)
    ensures FirstClash(rows, ["id", "name"], row, None) == Some("name")
  {
    forall i | 0 <= i < |rows| ensures Get(rows[i], "id") != VUuid(newId) {
      assert rows[i] in rows;
    }
    var x :| x in rows && Get(x, "name") == VStr(name);
    var i :| 0 <= i < |rows| && rows[i] == x;
    assert ["id", "name"][1..] == ["name"];
    assert Taken(rows, "name", Get(row, "name"), None);
  }

  lemma PartNameKeyMessage()
    ensures "duplicate key value violates unique constraint \"" + ConstraintName(PartModel(), "name") + "\""
      == "duplicate key value violates unique constraint \"parts_name_key\""
  {
    assert ConstraintName(PartModel(), "name") == "parts_name_key";
  }

  /**
   * A Part create whose name a stored part already has is refused with the
   * database's message for the name's unique index, before the foreign keys
   * are looked at; nothing is written or recorded.
   */
  lemma DuplicatePartNameRejected(db: Tables, c: PartSchemas.PartCreate, actorId: string, newId: string, now: Timestamp)
    requires FreshId(db, "parts", newId)
    requires exists x :: x in Rows(db, "parts") && Get(x, "name") == VStr(c.name)
    ensures CreateStep(db, PartCrud(), PartSchemas.DumpCreate(c), actorId, newId, now)
      == Outcome(db, None, Err(NotUnique("duplicate key value violates unique constraint \"parts_name_key\"")))
  {
    var m := PartModel();
    var values := PartSchemas.DumpCreate(c);
    assert Construct(m, values) == Ok(values);
    var row := CreatedRow(m, values, actorId, newId, now);
    PartCreatedRow(c, actorId, newId, now);
    PartRowClashes(db, row, actorId, newId, c.name);
  }

  // ----- update -----

  /** The entity update flushes: `before` stamped with the actor, then the input merged over it. */
  function UpdateFields(m: Model, before: Record, input: Record, actorId: string): Record {
    Merge(m, StampUpdate(m, before, actorId), input)
  }

  /** The row update leaves in place of `stored`, from the entity `before` and this input. */
  function UpdateWrittenRow(m: Model, stored: Record, before: Record, input: Record, actorId: string, now: Timestamp): Record {
    UpdatedRow(m, stored, UpdateFields(m, before, input, actorId), Assigned(m, input), now)
  }

  /**
   * The row update writes has exactly the kind's columns: the input's value
   * for every column the input names, else the acting user in updated_by and
   * the current time in updated_at when some column changed (the stored
   * stamp otherwise), and the entity's current value for every other column.
   * Omitted input fields are not "unset": a dumped schema names each of its
   * fields. When no column changes, the stored row's columns stay as they are.
   */
  lemma UpdateWrittenRowContents(m: Model, stored: Record, before: Record, input: Record, actorId: string, now: Timestamp)
    ensures var row := UpdateWrittenRow(m, stored, before, input, actorId, now);
      var changed := NetChange(m, stored, UpdateFields(m, before, input, actorId));
      && (forall c :: c in row <==> c in m.columns)
      && (forall c :: c in m.columns && c in input ==> row[c] == input[c])
      && (m.blameable && "updated_by" in m.columns && "updated_by" !in input ==> row["updated_by"] == VUuid(actorId))
      && (m.blameable && "updated_at" in m.columns && "updated_at" !in input ==>
            row["updated_at"] == if changed then now else Get(stored, "updated_at"))
      && (forall c :: c in m.columns && c !in input && !(m.blameable && c in {"updated_by", "updated_at"})
            ==> row[c] == Get(before, c))
      && (!changed ==> forall c :: c in m.columns ==> row[c] == Get(stored, c))
  {
    var fields := UpdateFields(m, before, input, actorId);
    var row := UpdateWrittenRow(m, stored, before, input, actorId, now);
    forall c | c in m.columns && c in input ensures row[c] == input[c] {
      assert c in Assigned(m, input);
      assert Get(fields, c) == input[c];
    }
  }

  /**
   * An update changes a column, and so emits an UPDATE, exactly when the
   * input names a column with a value other than the stored one, or the
   * acting user differs from the stored updated_by that the input leaves to
   * the stamp.
   */
  lemma UpdateChangesIff(db: Tables, m: Model, stored: Record, input: Record, actorId: string)
    requires WellFormed(m)
    ensures NetChange(m, stored, UpdateFields(m, Entity(db, m, stored), input, actorId)) <==>
      || (exists c :: c in m.columns && c in input && input[c] != Get(stored, c))
      || (m.blameable && "updated_by" !in input && Get(stored, "updated_by") != VUuid(actorId))
  {
    var fields := UpdateFields(m, Entity(db, m, stored), input, actorId);
    forall c | c in m.columns
      ensures Get(fields, c) == if c in input then input[c]
        else if m.blameable && c == "updated_by" then VUuid(actorId) else Get(stored, c)
    {
      EntityColumns(db, m, stored, c);
      if c in input {
        assert c in Assigned(m, input);
      }
    }
    if m.blameable && "updated_by" !in input && Get(stored, "updated_by") != VUuid(actorId) {
      assert "updated_by" in AuditFields;
      assert Get(fields, "updated_by") != Get(stored, "updated_by");
    }
  }

  /** The entity handed out for a row reads each column as the row does. */
  lemma EntityColumns(db: Tables, m: Model, row: Record, c: string)
    requires SchemaConsistent(m) && c in m.columns
    ensures Get(Entity(db, m, row), c) == Get(row, c)
  {
  }

  /**
   * A successful update found an input and the entity by id, replaced that
   * one row of its table with the written row (every other row and every
   * other table unchanged), returned the reloaded entity, and recorded one
   * UPDATE whose changes diff the entity before against the one returned.
   */
  lemma UpdateWrites(db: Tables, cfg: CrudConfig, entityId: string, input: Option<Record>, actorId: string, now: Timestamp)
    requires UpdateStep(db, cfg, entityId, input, actorId, now).result.Ok?
    ensures input.Some? && LocateBy(db, cfg.model, "id", entityId).Ok?
    ensures var o := UpdateStep(db, cfg, entityId, input, actorId, now);
      var m := cfg.model;
      var rows := Rows(db, m.table);
      var i := LocateBy(db, m, "id", entityId).value;
      var before := Entity(db, m, rows[i]);
      var row := UpdateWrittenRow(m, rows[i], before, input.value, actorId, now);
      && o.tables == db[m.table := rows[i := row]]
      && |Rows(o.tables, m.table)| == |rows|
      && Rows(o.tables, m.table)[i] == row
      && (forall j :: 0 <= j < |rows| && j != i ==> Rows(o.tables, m.table)[j] == rows[j])
      && (forall t :: t != m.table ==> Rows(o.tables, t) == Rows(db, t))
      && o.result.value == Entity(o.tables, m, row)
      && o.entry.Some?
      && ParseAction(o.entry.value.action) == Some(UPDATE)
      && o.entry.value.tableName == m.table && o.entry.value.userId == actorId
      && o.entry.value.changes == Diff(before, o.result.value)
  {
    var m := cfg.model;
    var i := LocateBy(db, m, "id", entityId).value;
    var rows := Rows(db, m.table);
    var before := Entity(db, m, rows[i]);
    var row := UpdateWrittenRow(m, rows[i], before, input.value, actorId, now);
    assert FlushViolation(db, m, i, UpdateFields(m, before, input.value, actorId), row).None?;
    ReplaceRowShape(db, m.table, i, row);
  }

  /** Replacing row i of one table changes that row and nothing else. */
  lemma ReplaceRowShape(db: Tables, table: string, i: nat, row: Record)
    requires i < |Rows(db, table)|
    ensures var after := db[table := Rows(db, table)[i := row]];
      && |Rows(after, table)| == |Rows(db, table)|
      && Rows(after, table)[i] == row
      && (forall j :: 0 <= j < |Rows(db, table)| && j != i ==> Rows(after, table)[j] == Rows(db, table)[j])
      && (forall t :: t != table ==> Rows(after, t) == Rows(db, t))
  {
  }

  /**
   * How update fails: without an input it raises ValueError and touches
   * nothing; any failure records nothing; a failure before the history
   * record leaves every table alone; and a unique violation is never
   * translated into NotUniqueError, unlike in create.
   */
  lemma UpdateFailures(db: Tables, cfg: CrudConfig, entityId: string, input: Option<Record>, actorId: string, now: Timestamp)
    ensures input.None? ==>
      UpdateStep(db, cfg, entityId, input, actorId, now) == Outcome(db, None, Err(ValueError("Input is required for update operation.")))
    ensures var o := UpdateStep(db, cfg, entityId, input, actorId, now);
      && (o.result.Err? <==> o.entry.None?)
      && (o.result.Err? && o.tables != db ==> o.result.error.Fatal? || o.result.error.ValueError?)
      && (o.result.Err? ==> !o.result.error.NotUnique?)
  {
    var m := cfg.model;
    if input.Some? && LocateBy(db, m, "id", entityId).Ok? {
      var i := LocateBy(db, m, "id", entityId).value;
      var rows := Rows(db, m.table);
      var before := Entity(db, m, rows[i]);
      var row := UpdateWrittenRow(m, rows[i], before, input.value, actorId, now);
      if FlushViolation(db, m, i, UpdateFields(m, before, input.value, actorId), row).None? {
        var written := db[m.table := rows[i := row]];
        var h := HistoryRecord(UPDATE, actorId, Some(Snapshot(m, Entity(written, m, row))), BeforeDict(before));
        assert h.Err? ==> h.error.Fatal? || h.error.ValueError?;
      }
    }
  }

  /** Replacing row i by a row none of whose set unique keys another row holds keeps every unique key unique. */
  lemma ReplaceKeepsUnique(rows: seq<Record>, keys: seq<string>, i: nat, row: Record)
    requires i < |rows| && UniqueKeysHold(rows, keys)
    requires forall k :: 0 <= k < |keys| && Get(row, keys[k]) != VNull ==> !Taken(rows, keys[k], Get(row, keys[k]), Some(i))
    ensures UniqueKeysHold(rows[i := row], keys)
  {
    var all := rows[i := row];
    forall a, b, k | 0 <= a < |all| && 0 <= b < |all| && a != b && 0 <= k < |keys| && Get(all[a], keys[k]) != VNull
      ensures Get(all[a], keys[k]) != Get(all[b], keys[k])
    {
      if a == i {
        assert all[b] == rows[b];
        assert !Taken(rows, keys[k], Get(row, keys[k]), Some(i));
      } else if b == i {
        assert all[a] == rows[a];
        if Get(row, keys[k]) == Get(rows[a], keys[k]) {
          assert Taken(rows, keys[k], Get(row, keys[k]), Some(i));
        }
      } else {
        assert all[a] == rows[a] && all[b] == rows[b];
      }
    }
  }

  /** Update keeps the primary key and every unique column unique. */
  lemma UpdateKeepsUnique(db: Tables, cfg: CrudConfig, entityId: string, input: Option<Record>, actorId: string, now: Timestamp)
    requires UniqueKeysHold(Rows(db, cfg.model.table), UniqueKeys(cfg.model))
    ensures UniqueKeysHold(Rows(UpdateStep(db, cfg, entityId, input, actorId, now).tables, cfg.model.table), UniqueKeys(cfg.model))
  {
    var m := cfg.model;
    var o := UpdateStep(db, cfg, entityId, input, actorId, now);
    if input.Some? && LocateBy(db, m, "id", entityId).Ok? {
      var i := LocateBy(db, m, "id", entityId).value;
      var rows := Rows(db, m.table);
      var fields := UpdateFields(m, Entity(db, m, rows[i]), input.value, actorId);
      var row := UpdateWrittenRow(m, rows[i], Entity(db, m, rows[i]), input.value, actorId, now);
      if FlushViolation(db, m, i, fields, row).None? {
        if !NetChange(m, rows[i], fields) {
          // no UPDATE is emitted: the row keeps its stored keys
          var keys := UniqueKeys(m);
          forall k | 0 <= k < |keys| && Get(row, keys[k]) != VNull
            ensures !Taken(rows, keys[k], Get(row, keys[k]), Some(i))
          {
            assert Get(row, keys[k]) == Get(rows[i], keys[k]);
          }
        }
        ReplaceKeepsUnique(rows, UniqueKeys(m), i, row);
        assert Rows(o.tables, m.table) == rows[i := row];
      }
    }
  }

  /** An entity id in canonical form reads as itself against the id column. */
  lemma CanonicalIdLiteral(m: Model, entityId: string)
    requires WellFormed(m) && m.hasId && Canonical(entityId)
    ensures Literal(m, "id", entityId) == Ok(VUuid(entityId))
  {
    PgUuidCanonical(entityId);
    assert "id" !in m.relations;
    assert UuidColumn(m, "id");
  }

  /**
   * Updating or soft-deleting an id no stored row has raises NotFoundError
   * naming the kind and the id, and changes nothing. (Soft deletion looks for
   * its attributes first.)
   */
  lemma MissingEntityNotFound(db: Tables, cfg: CrudConfig, entityId: string, input: Record, actorId: string, now: Timestamp)
    requires WellFormed(cfg.model) && cfg.model.hasId && Canonical(entityId)
    requires forall x :: x in Rows(db, cfg.model.table) ==> Get(x, "id") != VUuid(entityId)
    ensures UpdateStep(db, cfg, entityId, Some(input), actorId, now)
      == Outcome(db, None, Err(NotFound(cfg.model.className + " with id='" + entityId + "' was not found.")))
    ensures MissingAttribute(cfg.model, SoftDeleteAttributes).None? ==>
      SoftDeleteStep(db, cfg, entityId, actorId, now)
        == Outcome(db, None, Err(NotFound(cfg.model.className + " with id='" + entityId + "' was not found.")))
  {
    var m := cfg.model;
    AbsentIdNotFound(db, m, entityId);
    IdNotFoundMessage(m.className, entityId);
    if MissingAttribute(m, SoftDeleteAttributes).None? {
      assert SoftDeleteStep(db, cfg, entityId, actorId, now) == Outcome(db, None, Err(NotFound(NotFoundMessage(m, "id", entityId))));
    }
  }

  lemma IdNotFoundMessage(className: string, entityId: string)
    ensures className + " with " + "id" + "='" + entityId + "' was not found."
      == className + " with id='" + entityId + "' was not found."
  {
    assert " with " + "id" + "='" == " with id='";
  }

  /** get_one_by on an id no stored row has: NotFoundError naming the kind and the id. */
  lemma AbsentIdNotFound(db: Tables, m: Model, entityId: string)
    requires WellFormed(m) && m.hasId && Canonical(entityId)
    requires forall x :: x in Rows(db, m.table) ==> Get(x, "id") != VUuid(entityId)
    ensures LocateBy(db, m, "id", entityId) == Err(NotFound(NotFoundMessage(m, "id", entityId)))
  {
    CanonicalIdLiteral(m, entityId);
    var rows := Rows(db, m.table);
    forall i | 0 <= i < |rows| ensures Get(rows[i], "id") != VUuid(entityId) {
      assert rows[i] in rows;
    }
    assert FindIndex(rows, "id", VUuid(entityId)).None?;
    assert FindBy(db, m, "id", entityId) == Ok(None);
  }

  // ----- updating parts and comments from their schemas -----

  /**
   * A Part update body always names both fields, so whatever an update
   * stores is exactly the body: an omitted description is cleared to None.
   */
  lemma PartUpdateReplacesFields(db: Tables, p: Payload, entityId: string, actorId: string, now: Timestamp)
    requires PartSchemas.ParseUpdate(p).Ok?
    requires UpdateStep(db, PartCrud(), entityId, Some(PartSchemas.DumpUpdate(PartSchemas.ParseUpdate(p).value)), actorId, now).result.Ok?
    ensures var u := PartSchemas.ParseUpdate(p).value;
      var r := UpdateStep(db, PartCrud(), entityId, Some(PartSchemas.DumpUpdate(u)), actorId, now).result.value;
      && Get(r, "name") == PartSchemas.OptValue(u.name)
      && Get(r, "description") == PartSchemas.OptValue(u.description)
      && ("description" !in p ==> Get(r, "description") == VNull)
      && Get(r, "updated_by") == VUuid(actorId)
  {
    var m := PartModel();
    var u := PartSchemas.ParseUpdate(p).value;
    var input := PartSchemas.DumpUpdate(u);
    UpdateWrites(db, PartCrud(), entityId, Some(input), actorId, now);
    var o := UpdateStep(db, PartCrud(), entityId, Some(input), actorId, now);
    var i := LocateBy(db, m, "id", entityId).value;
    var row := UpdateWrittenRow(m, Rows(db, m.table)[i], Entity(db, m, Rows(db, m.table)[i]), input, actorId, now);
    UpdateWrittenRowContents(m, Rows(db, m.table)[i], Entity(db, m, Rows(db, m.table)[i]), input, actorId, now);
    PartModelWellFormed();
    EntityColumns(o.tables, m, row, "name");
    EntityColumns(o.tables, m, row, "description");
    EntityColumns(o.tables, m, row, "updated_by");
  }

  /**
   * Re-sending a part's stored values, by the user already in updated_by,
   * emits no UPDATE: the row's columns stay as stored, updated_at is not
   * refreshed, and the UPDATE history record is empty. An update that does
   * change a column refreshes updated_at to the current time.
   */
  lemma RepeatedPartUpdateKeepsStamp(db: Tables, entityId: string, input: Record, actorId: string, now: Timestamp)
    requires UpdateStep(db, PartCrud(), entityId, Some(input), actorId, now).result.Ok?
    ensures LocateBy(db, PartModel(), "id", entityId).Ok?
    ensures var m := PartModel();
      var i := LocateBy(db, m, "id", entityId).value;
      var stored := Rows(db, "parts")[i];
      var o := UpdateStep(db, PartCrud(), entityId, Some(input), actorId, now);
      var same := (forall c :: c in m.columns && c in input ==> input[c] == Get(stored, c))
        && ("updated_by" !in input ==> Get(stored, "updated_by") == VUuid(actorId));
      && (same ==>
            && (forall c :: c in m.columns ==> Get(Rows(o.tables, "parts")[i], c) == Get(stored, c))
            && Get(o.result.value, "updated_at") == Get(stored, "updated_at")
            && o.entry.value.changes == map[])
      && (!same && "updated_at" !in input ==> Get(o.result.value, "updated_at") == now)
  {
    var m := PartModel();
    PartModelWellFormed();
    UpdateWrites(db, PartCrud(), entityId, Some(input), actorId, now);
    var o := UpdateStep(db, PartCrud(), entityId, Some(input), actorId, now);
    var i := LocateBy(db, m, "id", entityId).value;
    var stored := Rows(db, m.table)[i];
    var before := Entity(db, m, stored);
    var row := UpdateWrittenRow(m, stored, before, input, actorId, now);
    UpdateWrittenRowContents(m, stored, before, input, actorId, now);
    UpdateChangesIff(db, m, stored, input, actorId);
    assert Rows(o.tables, m.table)[i] == row;
    EntityColumns(o.tables, m, row, "updated_at");
    if !NetChange(m, stored, UpdateFields(m, before, input, actorId)) {
      var after := o.result.value;
      forall k | k in after && Tracked(k) ensures Get(before, k) == Get(after, k) {
        assert k in m.columns;
        EntityColumns(db, m, stored, k);
        EntityColumns(o.tables, m, row, k);
      }
      UnchangedRecordsNothing(before, after);
    }
  }

  /** A part row whose name is None breaks the first NOT NULL constraint of the parts table. */
  lemma NullNameViolates(db: Tables, row: Record, skip: Option<nat>)
    requires Get(row, "name") == VNull
    ensures Violated(db, PartModel(), row, skip)
      == Some(NotNullViolation("null value in column \"name\" of relation \"parts\" violates not-null constraint"))
  {
    var m := PartModel();
    assert FirstNull(m.columns, m.notNull, row) == Some("name");
    PartNameNullMessage();
  }

  lemma PartNameNullMessage()
    ensures "null value in column \"" + "name" + "\" of relation \"" + PartModel().table + "\" violates not-null constraint"
      == "null value in column \"name\" of relation \"parts\" violates not-null constraint"
  {
    NullMessageHead();
    var b := "null value in column \"name\" of relation \"";
    assert b + PartModel().table == "null value in column \"name\" of relation \"parts";
    NullMessageTail();
  }

  lemma NullMessageHead()
    ensures "null value in column \"" + "name" + "\" of relation \"" == "null value in column \"name\" of relation \""
  {
    var a := "null value in column \"" + "name";
    assert a == "null value in column \"name";
  }

  lemma NullMessageTail()
    ensures "null value in column \"name\" of relation \"parts" + "\" violates not-null constraint"
      == "null value in column \"name\" of relation \"parts\" violates not-null constraint"
  {
  }

  /**
   * An update body that leaves out the name, or sends null for it, passes
   * the schema and then writes None into the NOT NULL name column: the
   * update of a stored part fails with the database's not-null error and
   * changes nothing.
   */
  lemma PartUpdateWithoutNameFails(db: Tables, p: Payload, entityId: string, actorId: string, now: Timestamp)
    requires PartSchemas.ParseUpdate(p).Ok? && PartSchemas.ParseUpdate(p).value.name.None?
    requires Canonical(entityId) && exists x :: x in Rows(db, "parts") && Get(x, "id") == VUuid(entityId)
    requires forall x :: x in Rows(db, "parts") ==> Get(x, "name") != VNull
    ensures UpdateStep(db, PartCrud(), entityId, Some(PartSchemas.DumpUpdate(PartSchemas.ParseUpdate(p).value)), actorId, now)
      == Outcome(db, None, Err(Integrity("null value in column \"name\" of relation \"parts\" violates not-null constraint")))
  {
    var m := PartModel();
    var input := PartSchemas.DumpUpdate(PartSchemas.ParseUpdate(p).value);
    PartModelWellFormed();
    CanonicalIdLiteral(m, entityId);
    var rows := Rows(db, m.table);
    var x :| x in rows && Get(x, "id") == VUuid(entityId);
    var j :| 0 <= j < |rows| && rows[j] == x;
    assert FindIndex(rows, "id", VUuid(entityId)).Some?;
    var i := LocateBy(db, m, "id", entityId).value;
    var before := Entity(db, m, rows[i]);
    var row := UpdateWrittenRow(m, rows[i], before, input, actorId, now);
    UpdateWrittenRowContents(m, rows[i], before, input, actorId, now);
    assert rows[i] in rows;
    PartNameFlushFails(db, i, UpdateFields(m, before, input, actorId), row);
  }

  /** Writing a changed, null name into stored part i is refused by the NOT NULL constraint. */
  lemma PartNameFlushFails(db: Tables, i: nat, fields: Record, row: Record)
    requires i < |Rows(db, "parts")| && Get(row, "name") == VNull
    requires Get(fields, "name") != Get(Rows(db, "parts")[i], "name")
    ensures FlushViolation(db, PartModel(), i, fields, row)
      == Some(NotNullViolation("null value in column \"name\" of relation \"parts\" violates not-null constraint"))
  {
    assert "name" in PartModel().columns;
    NullNameViolates(db, row, Some(i));
  }

  /**
   * A Comment update writes the content and the update stamps only: the
   * part a comment belongs to and its creator stay as they were.
   */
  lemma CommentUpdateKeepsPartId(db: Tables, p: Payload, entityId: string, actorId: string, now: Timestamp)
    requires CommentSchemas.ParseUpdate(p).Ok?
    requires UpdateStep(db, CommentCrud(), entityId, Some(CommentSchemas.DumpUpdate(CommentSchemas.ParseUpdate(p).value)), actorId, now).result.Ok?
    ensures LocateBy(db, CommentModel(), "id", entityId).Ok?
    ensures var prior := Rows(db, "comments")[LocateBy(db, CommentModel(), "id", entityId).value];
      var r := UpdateStep(db, CommentCrud(), entityId, Some(CommentSchemas.DumpUpdate(CommentSchemas.ParseUpdate(p).value)), actorId, now).result.value;
      && Get(r, "content") == VStr(p["content"].s)
      && Get(r, "part_id") == Get(prior, "part_id")
      && Get(r, "created_by") == Get(prior, "created_by")
      && Get(r, "id") == Get(prior, "id")
  {
    var m := CommentModel();
    var input := CommentSchemas.DumpUpdate(CommentSchemas.ParseUpdate(p).value);
    UpdateWrites(db, CommentCrud(), entityId, Some(input), actorId, now);
    var o := UpdateStep(db, CommentCrud(), entityId, Some(input), actorId, now);
    var prior := Rows(db, m.table)[LocateBy(db, m, "id", entityId).value];
    assert o.result.value == Entity(o.tables, m, UpdateWrittenRow(m, prior, Entity(db, m, prior), input, actorId, now));
    CommentContentUpdate(db, o.tables, prior, p["content"].s, actorId, now);
  }

  /** The reloaded comment after writing `content` alone: new content, the rest as before. */
  lemma CommentContentUpdate(db: Tables, after: Tables, prior: Record, content: string, actorId: string, now: Timestamp)
    ensures var m := CommentModel();
      var r := Entity(after, m, UpdateWrittenRow(m, prior, Entity(db, m, prior), map["content" := VStr(content)], actorId, now));
      && Get(r, "content") == VStr(content)
      && Get(r, "part_id") == Get(prior, "part_id")
      && Get(r, "created_by") == Get(prior, "created_by")
      && Get(r, "id") == Get(prior, "id")
  {
    var m := CommentModel();
    var input := map["content" := VStr(content)];
    var row := UpdateWrittenRow(m, prior, Entity(db, m, prior), input, actorId, now);
    UpdateWrittenRowContents(m, prior, Entity(db, m, prior), input, actorId, now);
    CommentModelWellFormed();
    assert "content" in m.columns;
    EntityColumns(after, m, row, "content");
    CommentColumnKept(db, after, prior, input, actorId, now, "part_id");
    CommentColumnKept(db, after, prior, input, actorId, now, "created_by");
    CommentColumnKept(db, after, prior, input, actorId, now, "id");
  }

  /** A comment column the input does not name and update does not stamp is reloaded as it was. */
  lemma CommentColumnKept(db: Tables, after: Tables, prior: Record, input: Record, actorId: string, now: Timestamp, c: string)
    requires c in CommentModel().columns && c !in input && c != "updated_by" && c != "updated_at"
    ensures var m := CommentModel();
      Get(Entity(after, m, UpdateWrittenRow(m, prior, Entity(db, m, prior), input, actorId, now)), c) == Get(prior, c)
  {
    var m := CommentModel();
    var before := Entity(db, m, prior);
    var row := UpdateWrittenRow(m, prior, before, input, actorId, now);
    UpdateWrittenRowContents(m, prior, before, input, actorId, now);
    CommentModelWellFormed();
    assert row[c] == Get(before, c);
    EntityColumns(after, m, row, c);
    EntityColumns(db, m, prior, c);
  }

  // ----- soft delete -----

  lemma NoDeletedAtMessages()
    ensures NoAttribute(PartModel(), "deleted_at") == AttributeError("PartModel has no attribute 'deleted_at'")
    ensures NoAttribute(CommentModel(), "deleted_at") == AttributeError("CommentModel has no attribute 'deleted_at'")
  {
    PartNoDeletedAt();
    CommentNoDeletedAt();
  }

  lemma PartNoDeletedAt()
    ensures NoAttribute(PartModel(), "deleted_at") == AttributeError("PartModel has no attribute 'deleted_at'")
  {
    var a := "PartModel" + " has no attribute '";
    assert a == "PartModel has no attribute '";
    assert a + "deleted_at" + "'" == "PartModel has no attribute 'deleted_at'";
  }

  lemma CommentNoDeletedAt()
    ensures NoAttribute(CommentModel(), "deleted_at") == AttributeError("CommentModel has no attribute 'deleted_at'")
  {
    var b := "CommentModel" + " has no attribute '";
    assert b == "CommentModel has no attribute '";
    assert b + "deleted_at" + "'" == "CommentModel has no attribute 'deleted_at'";
  }

  /**
   * No kind of the registry has the soft-delete columns, so soft_delete on a
   * part or a comment raises AttributeError naming deleted_at, whatever the
   * id, and changes nothing.
   */
  lemma SoftDeleteRegistryFails(db: Tables, entityId: string, actorId: string, now: Timestamp)
    ensures SoftDeleteStep(db, PartCrud(), entityId, actorId, now)
      == Outcome(db, None, Err(AttributeError("PartModel has no attribute 'deleted_at'")))
    ensures SoftDeleteStep(db, CommentCrud(), entityId, actorId, now)
      == Outcome(db, None, Err(AttributeError("CommentModel has no attribute 'deleted_at'")))
  {
    assert MissingAttribute(PartModel(), SoftDeleteAttributes) == Some("deleted_at");
    assert MissingAttribute(CommentModel(), SoftDeleteAttributes) == Some("deleted_at");
    NoDeletedAtMessages();
  }

  /** The row soft deletion leaves in place of `stored`, from the entity `before`. */
  function DeletedRow(m: Model, stored: Record, before: Record, actorId: string, now: Timestamp): Record {
    UpdatedRow(m, stored, before["deleted_at" := now]["deleted_by" := VUuid(actorId)], {"deleted_at", "deleted_by"}, now)
  }

  /**
   * The row soft deletion writes: deleted_at and deleted_by stamped,
   * updated_at refreshed on a blameable kind when the row was not already
   * deleted at this very time, every other column as the entity has it.
   */
  lemma DeletedRowContents(m: Model, stored: Record, before: Record, actorId: string, now: Timestamp)
    requires "deleted_at" in m.columns && "deleted_by" in m.columns
    ensures var row := DeletedRow(m, stored, before, actorId, now);
      && (forall c :: c in row <==> c in m.columns)
      && row["deleted_at"] == now && row["deleted_by"] == VUuid(actorId)
      && (m.blameable && "updated_at" in m.columns && Get(stored, "deleted_at") != now ==> row["updated_at"] == now)
      && (forall c :: c in m.columns && c !in {"deleted_at", "deleted_by", "updated_at"} ==> row[c] == Get(before, c))
  {
    var fields := before["deleted_at" := now]["deleted_by" := VUuid(actorId)];
    if Get(stored, "deleted_at") != now {
      assert Get(fields, "deleted_at") != Get(stored, "deleted_at");
    }
  }

  /**
   * A successful soft deletion keeps the row where it was and the table's
   * size, writing the deleted row in its place, and records one DELETE.
   */
  lemma SoftDeleteWrites(db: Tables, cfg: CrudConfig, entityId: string, actorId: string, now: Timestamp)
    requires SoftDeleteStep(db, cfg, entityId, actorId, now).result.Ok?
    ensures cfg.model.softDeletable && LocateBy(db, cfg.model, "id", entityId).Ok?
    ensures var o := SoftDeleteStep(db, cfg, entityId, actorId, now);
      var m := cfg.model;
      var rows := Rows(db, m.table);
      var i := LocateBy(db, m, "id", entityId).value;
      && Rows(o.tables, m.table) == rows[i := DeletedRow(m, rows[i], Entity(db, m, rows[i]), actorId, now)]
      && (forall t :: t != m.table ==> Rows(o.tables, t) == Rows(db, t))
      && o.entry.Some? && ParseAction(o.entry.value.action) == Some(DELETE)
      && o.entry.value.tableName == m.table && o.entry.value.userId == actorId
  {
    var m := cfg.model;
    var rows := Rows(db, m.table);
    var i := LocateBy(db, m, "id", entityId).value;
    var row := DeletedRow(m, rows[i], Entity(db, m, rows[i]), actorId, now);
    assert FlushViolation(db, m, i, Entity(db, m, rows[i])["deleted_at" := now]["deleted_by" := VUuid(actorId)], row).None?;
  }

  /**
   * After a successful soft deletion the row is stamped and otherwise
   * unchanged; it drops out of get_all, while get_one_by still finds it by
   * id.
   */
  lemma SoftDeletedRowStaysFindable(db: Tables, cfg: CrudConfig, entityId: string, actorId: string, now: Timestamp)
    requires WellFormed(cfg.model)
    requires SoftDeleteStep(db, cfg, entityId, actorId, now).result.Ok?
    ensures cfg.model.softDeletable && LocateBy(db, cfg.model, "id", entityId).Ok?
    ensures var o := SoftDeleteStep(db, cfg, entityId, actorId, now);
      var m := cfg.model;
      var prior := Rows(db, m.table)[LocateBy(db, m, "id", entityId).value];
      var row := Rows(o.tables, m.table)[LocateBy(db, m, "id", entityId).value];
      && row["deleted_at"] == now && row["deleted_by"] == VUuid(actorId)
      && (forall c :: c in m.columns && c !in {"deleted_at", "deleted_by", "updated_at"} ==> row[c] == Get(prior, c))
      && row !in GetAll(o.tables, m)
      && GetOneBy(o.tables, m, "id", entityId) == Ok(row)
  {
    var m := cfg.model;
    SoftDeleteWrites(db, cfg, entityId, actorId, now);
    var rows := Rows(db, m.table);
    var i := LocateBy(db, m, "id", entityId).value;
    var row := DeletedRow(m, rows[i], Entity(db, m, rows[i]), actorId, now);
    DeletedRowContents(m, rows[i], Entity(db, m, rows[i]), actorId, now);
    var o := SoftDeleteStep(db, cfg, entityId, actorId, now);
    forall c | c in m.columns && c !in {"deleted_at", "deleted_by", "updated_at"} ensures row[c] == Get(rows[i], c) {
      EntityColumns(db, m, rows[i], c);
    }
    assert Rows(o.tables, m.table)[i] == row;
    ReplacedRowFound(db, m, entityId, row, o.tables);
  }

  /** Replacing the row get_one_by finds by a row with the same id: get_one_by now finds the replacement. */
  lemma ReplacedRowFound(db: Tables, m: Model, entityId: string, row: Record, after: Tables)
    requires LocateBy(db, m, "id", entityId).Ok?
    requires Rows(after, m.table) == Rows(db, m.table)[LocateBy(db, m, "id", entityId).value := row]
    requires Get(row, "id") == Get(Rows(db, m.table)[LocateBy(db, m, "id", entityId).value], "id")
    ensures GetOneBy(after, m, "id", entityId) == Ok(row)
  {
    var rows := Rows(db, m.table);
    var i := LocateBy(db, m, "id", entityId).value;
    var v := Literal(m, "id", entityId).value;
    FirstIndexAfterReplace(rows, i, row, "id", v);
    assert FindBy(after, m, "id", entityId) == Ok(Some(i));
  }

  /** Replacing the first row that holds v by another that holds v keeps it the first. */
  lemma FirstIndexAfterReplace(rows: seq<Record>, i: nat, row: Record, key: string, v: Value)
    requires i < |rows| && FindIndex(rows, key, v) == Some(i) && Get(row, key) == v
    ensures FindIndex(rows[i := row], key, v) == Some(i)
  {
    var after := rows[i := row];
    assert forall j :: 0 <= j < i ==> after[j] == rows[j];
    assert Get(after[i], key) == v;
  }

  // ----- lookups -----

  /**
   * get_all_by lists the stored rows that the single filter entry admits,
   * that are not soft-deleted and that have the rows its joins need, newest
   * first.
   */
  lemma GetAllBySpec(db: Tables, m: Model, key: string, value: FilterValue, x: Record)
    requires GetAllBy(db, m, key, value).Ok?
    ensures var q := ListQuery(m, [], [Filter(key, value)], [], "").value;
      x in GetAllBy(db, m, key, value).value <==>
        && x in Rows(db, m.table)
        && JoinsHold(db, q.joins, x)
        && (m.softDeletable ==> Get(x, "deleted_at") == VNull)
        && (Constrains(m, Filter(key, value)) ==> Satisfies(db, m, x, Filter(key, value)))
    ensures var q := ListQuery(m, [], [Filter(key, value)], [], "").value;
      Sorted(RowKey(db, q.orderBy), Descending(q.orderBy), GetAllBy(db, m, key, value).value)
    ensures |GetAllBy(db, m, key, value).value| <= |Rows(db, m.table)|
    ensures m in Registry() ==>
      ListQuery(m, [], [Filter(key, value)], [], "").value.orderBy == [OrderKey(Direct("created_at"), Desc)]
  {
    var fs := [Filter(key, value)];
    var q := ListQuery(m, [], fs, [], "").value;
    SelectSpec(db, m, q);
    ListQuerySemantics(db, m, [], fs, [], "", x);
    assert forall i :: 0 <= i < |fs| ==> fs[i] == Filter(key, value);
    if m in Registry() {
      var q1 := FilterQuery(m, EmptyQuery, fs, true).value;
      FilterSemantics.FilterSemantics(db, m, EmptyQuery, fs, true, x);
      DefaultOrderNewestFirst(m, q1);
    }
  }

  /** Every part id a comment holds is a UUID in its canonical text, or NULL. */
  predicate PartIdsCanonical(db: Tables) {
    forall x :: x in Rows(db, "comments") ==>
      Get(x, "part_id") == VNull || (Get(x, "part_id").VUuid? && Canonical(Get(x, "part_id").u))
  }

  /** `u` contains the canonical UUID text `id` only when it is that text. */
  lemma CanonicalContains(u: string, id: string)
    requires Canonical(u) && Canonical(id)
    ensures Like.Contains(Like.Fold(u), Like.Fold(id)) <==> u == id
  {
    assert Like.Fold(u) == u by {
      forall i | 0 <= i < |u| ensures Like.Fold(u)[i] == u[i] {
        assert IsDashPos(i) || IsLowerHex(u[i]);
      }
    }
    assert Like.Fold(id) == id by {
      forall i | 0 <= i < |id| ensures Like.Fold(id)[i] == id[i] {
        assert IsDashPos(i) || IsLowerHex(id[i]);
      }
    }
    if Like.Contains(u, id) {
      var i :| 0 <= i <= |u| && id <= u[i..];
      assert i == 0;
      assert u[0..] == u;
    }
    if u == id {
      assert u[0..] == u;
      assert id <= u[0..];
    }
  }

  /**
   * The comments of a part: get_all_by on `part_id` with the part's id is
   * a case-folded substring match, and on canonical UUID texts that is
   * equality, so exactly the comments referring to the part are listed.
   */
  lemma PartCommentsListed(db: Tables, partId: string)
    requires Canonical(partId) && PartIdsCanonical(db)
    ensures GetAllBy(db, CommentModel(), "part_id", FStr(partId)).Ok?
    ensures forall x :: x in GetAllBy(db, CommentModel(), "part_id", FStr(partId)).value <==>
      x in Rows(db, "comments") && Get(x, "part_id") == VUuid(partId)
  {
    PartIdQuery(partId);
    forall x ensures x in GetAllBy(db, CommentModel(), "part_id", FStr(partId)).value <==>
      x in Rows(db, "comments") && Get(x, "part_id") == VUuid(partId)
    {
      PartCommentMember(db, partId, x);
    }
  }

  /** A canonical UUID text is a plain search word: no separator, no wildcard, not NULL. */
  lemma CanonicalPlain(partId: string)
    requires Canonical(partId)
    ensures partId != "" && partId != "NULL" && ',' !in partId && ' ' !in partId && Like.Literal(partId)
  {
    forall i | 0 <= i < |partId| ensures partId[i] != ',' && partId[i] != ' ' && !Like.IsWild(partId[i]) {
      assert IsDashPos(i) || IsLowerHex(partId[i]);
    }
  }

  /** Filtering comments by a part id resolves the column directly and joins nothing. */
  lemma PartIdQuery(partId: string)
    requires Canonical(partId)
    ensures Resolve(CommentModel(), "part_id") == Ok(Direct("part_id"))
    ensures HasAttribute(CommentModel(), "part_id")
    ensures ListQuery(CommentModel(), [], [Filter("part_id", FStr(partId))], [], "").Ok?
    ensures ListQuery(CommentModel(), [], [Filter("part_id", FStr(partId))], [], "").value.joins == []
  {
    var m := CommentModel();
    var f := Filter("part_id", FStr(partId));
    assert m.columns[0] == "part_id";
    assert HasAttribute(m, "part_id");
    assert Resolve(m, "part_id") == Ok(Direct("part_id"));
    CanonicalPlain(partId);
    var cs := OptionToSeq(ValueCondition(Direct("part_id"), FStr(partId)));
    assert Collect(m, [], [f]) == Ok(Collected([], cs)) by {
      assert [f][..0] == [];
      assert Collect(m, [], []) == Ok(Collected([], []));
      assert AddJoin([], Direct("part_id")) == [];
      assert [] + cs == cs;
    }
    DefaultOrderNewestFirst(m, FilterQuery(m, EmptyQuery, [f], true).value);
  }

  /** One row is listed among a part's comments exactly when it is a comment referring to that part. */
  lemma PartCommentMember(db: Tables, partId: string, x: Record)
    requires Canonical(partId) && PartIdsCanonical(db)
    ensures GetAllBy(db, CommentModel(), "part_id", FStr(partId)).Ok?
    ensures x in GetAllBy(db, CommentModel(), "part_id", FStr(partId)).value <==>
      x in Rows(db, "comments") && Get(x, "part_id") == VUuid(partId)
  {
    PartIdQuery(partId);
    CanonicalPlain(partId);
    GetAllBySpec(db, CommentModel(), "part_id", FStr(partId), x);
    PlainTermSemantics(db, x, Direct("part_id"), partId);
    if x in Rows(db, "comments") && Get(x, "part_id").VUuid? {
      CanonicalContains(Get(x, "part_id").u, partId);
    }
  }
}
