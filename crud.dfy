/**
 * The repository facade over a store of tables and a history log: lookups by
 * attribute, listing, and the create / update / soft-delete operations with
 * actor stamping, the database's constraint checks, and one history record
 * per successful change. Each mutating operation is specified by a step
 * function over the tables; the Store class performs it in place.
 */
module Crud {
  import opened Wrappers
  import opened Models
  import opened Values
  import opened Validation
  import opened Query
  import opened Evaluation
  import opened History
  import opened FilterSemantics

  /** A concrete repository: its kind, its searchable fields and the relations refreshed after create. */
  datatype CrudConfig = CrudConfig(model: Model, searchable: seq<string>, refresh: set<string>)

  function PartCrud(): CrudConfig {
    CrudConfig(PartModel(), [], {})
  }

  function CommentCrud(): CrudConfig {
    CrudConfig(CommentModel(), [], {"creator"})
  }

  /** A point in time as the database stores it. */
  type Timestamp = v: Value | v.VTime? witness VTime(0, "")

  /** hasattr on the model class: a column or a relationship. */
  predicate HasAttribute(m: Model, key: string) {
    key in m.columns || key in m.relations
  }

  function NoAttribute(m: Model, key: string): Error {
    AttributeError(m.className + " has no attribute '" + key + "'")
  }

  // ----- loading entities -----

  /** A many-to-one attribute once loaded: the related entity, or None. */
  function RelationValue(db: Tables, rel: Relation, row: Record): Value {
    match Related(db, rel, row)
    case Some(target) => VEntity(rel.target, target)
    case None => VNull
  }

  /** An entity's attributes: the row's own values plus the named relations, loaded. */
  function Loaded(db: Tables, m: Model, row: Record, rels: set<string>): (r: Record)
    ensures forall k :: k in r <==> k in row || (k in rels && k in m.relations)
    ensures forall k :: k in r && k in rels && k in m.relations ==> r[k] == RelationValue(db, m.relations[k], row)
    ensures forall k :: k in r && !(k in rels && k in m.relations) ==> r[k] == row[k]
  {
    map k | k in row.Keys + (rels * m.relations.Keys) ::
      if k in rels && k in m.relations then RelationValue(db, m.relations[k], row) else row[k]
  }

  function EagerRelations(m: Model): set<string> {
    set r | r in m.relations && m.relations[r].eager
  }

  /** An entity as a query hands it out: the row with its eagerly loaded relations. */
  function Entity(db: Tables, m: Model, row: Record): Record {
    Loaded(db, m, row, EagerRelations(m))
  }

  // ----- lookups -----

  /** Columns holding UUIDs: the id and every foreign key. */
  predicate UuidColumn(m: Model, c: string) {
    (c == "id" && m.hasId) || exists k :: 0 <= k < |m.foreignKeys| && m.foreignKeys[k].column == c
  }

  // ----- PostgreSQL's uuid_in -----

  /** Four hex digits at the head of s. */
  predicate HexGroupAt(s: string) {
    |s| >= 4 && IsHex(s[0]) && IsHex(s[1]) && IsHex(s[2]) && IsHex(s[3])
  }

  /**
   * The digits of uuid_in's input from group g on: 32 hex digits read two
   * bytes (four digits) at a time, each group but the last optionally
   * followed by one hyphen. Returns the digits and the unread rest.
   */
  function PgGroups(s: string, g: nat): (r: Option<(string, string)>)
    requires g <= 8
    ensures r.Some? ==> |r.value.0| == 4 * (8 - g) && forall i :: 0 <= i < |r.value.0| ==> IsHex(r.value.0[i])
    decreases 8 - g
  {
    if g == 8 then Some(("", s))
    else if !HexGroupAt(s) then None
    else
      var rest := if g < 7 && |s| > 4 && s[4] == '-' then s[5..] else s[4..];
      match PgGroups(rest, g + 1)
      case None => None
      case Some(p) =>
        assert forall i :: 4 <= i < |s[..4] + p.0| ==> (s[..4] + p.0)[i] == p.0[i - 4];
        Some((s[..4] + p.0, p.1))
  }

  /**
   * uuid_in: an optional opening brace, the 32 digits, the closing brace
   * when the text opened with one, and nothing after. The value is the
   * UUID's canonical text.
   */
  function PgUuid(s: string): (r: Option<string>)
    ensures r.Some? ==> Canonical(r.value)
  {
    var braced := |s| > 0 && s[0] == '{';
    match PgGroups(if braced then s[1..] else s, 0)
    case None => None
    case Some(p) =>
      if p.1 == (if braced then "}" else "") then
        LowerHexCanonical(Hyphenate(p.0));
        Some(LowerHex(Hyphenate(p.0)))
      else None
  }

  /** 32 digits from group g on, with a hyphen after each group `hyphens` names (the last group excepted). */
  function GroupText(d: string, g: nat, hyphens: set<nat>): string
    requires g <= 8 && |d| == 4 * (8 - g)
    decreases 8 - g
  {
    if g == 8 then "" else d[..4] + (if g < 7 && g in hyphens then "-" else "") + GroupText(d[4..], g + 1, hyphens)
  }

  /** The group at the head of written digits, and where uuid_in goes on reading. */
  lemma GroupTextHead(d: string, g: nat, hyphens: set<nat>, tail: string)
    requires g < 8 && |d| == 4 * (8 - g) && forall i :: 0 <= i < |d| ==> IsHex(d[i])
    ensures var s := GroupText(d, g, hyphens) + tail;
      && HexGroupAt(s) && s[..4] == d[..4]
      && (if g < 7 && |s| > 4 && s[4] == '-' then s[5..] else s[4..]) == GroupText(d[4..], g + 1, hyphens) + tail
  {
    var h := if g < 7 && g in hyphens then "-" else "";
    var next := GroupText(d[4..], g + 1, hyphens) + tail;
    var s := GroupText(d, g, hyphens) + tail;
    assert s == d[..4] + (h + next);
    assert forall i :: 0 <= i < 4 ==> s[i] == d[i];
    if h == "-" {
      assert s[4] == '-' && s[5..] == next;
    } else {
      assert s[4..] == next;
      if g < 7 {
        assert GroupText(d[4..], g + 1, hyphens)[0] == d[4];
        assert s[4] == d[4];
      }
    }
  }

  /** Digits written group by group, hyphens anywhere between groups, are read back whatever follows. */
  lemma {:induction false} PgGroupsRead(d: string, g: nat, hyphens: set<nat>, tail: string)
    requires g <= 8 && |d| == 4 * (8 - g) && forall i :: 0 <= i < |d| ==> IsHex(d[i])
    ensures PgGroups(GroupText(d, g, hyphens) + tail, g) == Some((d, tail))
    decreases 8 - g
  {
    if g < 8 {
      var s := GroupText(d, g, hyphens) + tail;
      GroupTextHead(d, g, hyphens, tail);
      PgGroupsRead(d[4..], g + 1, hyphens, tail);
      assert d[..4] + d[4..] == d;
    } else {
      assert GroupText(d, g, hyphens) + tail == tail;
    }
  }

  /**
   * PostgreSQL reads any 32 hex digits with hyphens between any of their
   * four-digit groups, bare or in braces, as the UUID of those digits.
   */
  lemma PgUuidGrouped(d: string, hyphens: set<nat>)
    requires Simple(d)
    ensures PgUuid(GroupText(d, 0, hyphens)) == Some(LowerHex(Hyphenate(d)))
    ensures PgUuid("{" + GroupText(d, 0, hyphens) + "}") == Some(LowerHex(Hyphenate(d)))
  {
    PgUuidBare(d, hyphens);
    PgUuidBraced(d, hyphens);
  }

  lemma PgUuidBare(d: string, hyphens: set<nat>)
    requires Simple(d)
    ensures PgUuid(GroupText(d, 0, hyphens)) == Some(LowerHex(Hyphenate(d)))
  {
    var t := GroupText(d, 0, hyphens);
    assert t + "" == t;
    assert t[0] == d[0] && t[0] != '{' by {
      assert t == d[..4] + ((if 0 in hyphens then "-" else "") + GroupText(d[4..], 1, hyphens));
    }
    PgGroupsRead(d, 0, hyphens, "");
  }

  lemma PgUuidBraced(d: string, hyphens: set<nat>)
    requires Simple(d)
    ensures PgUuid("{" + GroupText(d, 0, hyphens) + "}") == Some(LowerHex(Hyphenate(d)))
  {
    var t := GroupText(d, 0, hyphens);
    var s := "{" + t + "}";
    assert s[0] == '{' && s[1..] == t + "}";
    PgGroupsRead(d, 0, hyphens, "}");
  }

  /** The URN form, which the request schemas take, is not PostgreSQL input. */
  lemma PgUuidRejectsUrn(s: string)
    ensures PgUuid("urn:uuid:" + s) == None
  {
    assert ("urn:uuid:" + s)[0] == 'u';
  }

  /** The canonical 8-4-4-4-12 layout is the digits with hyphens after groups 1 to 4. */
  lemma GroupTextHyphenate(d: string)
    requires Simple(d)
    ensures GroupText(d, 0, {1, 2, 3, 4}) == Hyphenate(d)
  {
    var hs: set<nat> := {1, 2, 3, 4};
    var g6 := GroupText(d[24..], 6, hs);
    assert d[24..][..4] == d[24..28] && d[24..][4..] == d[28..];
    assert GroupText(d[28..], 7, hs) == d[28..][..4] + GroupText(d[28..][4..], 8, hs) == d[28..];
    assert g6 == d[24..];
    assert d[20..][..4] == d[20..24] && d[20..][4..] == d[24..];
    var g5 := GroupText(d[20..], 5, hs);
    assert g5 == d[20..24] + g6 == d[20..];
    assert d[16..][..4] == d[16..20] && d[16..][4..] == d[20..];
    var g4 := GroupText(d[16..], 4, hs);
    assert g4 == d[16..20] + "-" + d[20..];
    assert d[12..][..4] == d[12..16] && d[12..][4..] == d[16..];
    var g3 := GroupText(d[12..], 3, hs);
    assert g3 == d[12..16] + "-" + g4;
    assert d[8..][..4] == d[8..12] && d[8..][4..] == d[12..];
    var g2 := GroupText(d[8..], 2, hs);
    assert g2 == d[8..12] + "-" + g3;
    assert d[4..][..4] == d[4..8] && d[4..][4..] == d[8..];
    var g1 := GroupText(d[4..], 1, hs);
    assert g1 == d[4..8] + "-" + g2;
    assert GroupText(d, 0, hs) == d[..4] + g1;
    assert d[..4] + d[4..8] == d[..8];
  }

  /** A canonical text is the hyphenated layout of its own digits. */
  lemma CanonicalDigits(u: string) returns (d: string)
    requires Canonical(u)
    ensures Simple(d) && Hyphenate(d) == u
  {
    d := u[..8] + u[9..13] + u[14..18] + u[19..23] + u[24..];
    assert forall i :: 0 <= i < 32 ==> d[i] == u[if i < 8 then i else if i < 12 then i + 1 else if i < 16 then i + 2
      else if i < 20 then i + 3 else i + 4];
    assert d[..8] == u[..8] && d[8..12] == u[9..13] && d[12..16] == u[14..18] && d[16..20] == u[19..23] && d[20..] == u[24..];
    assert u == u[..8] + "-" + u[9..13] + "-" + u[14..18] + "-" + u[19..23] + "-" + u[24..];
  }

  /** Canonical text reads as itself. */
  lemma PgUuidCanonical(u: string)
    requires Canonical(u)
    ensures PgUuid(u) == Some(u)
  {
    var d := CanonicalDigits(u);
    GroupTextHyphenate(d);
    assert LowerHex(u) == u;
    PgUuidBare(d, {1, 2, 3, 4});
  }

  /**
   * `getattr(model, key) == value` for a string value: the attribute must be a
   * column; against a UUID column PostgreSQL reads the text with uuid_in.
   */
  function Literal(m: Model, key: string, value: string): (r: Result<Value>)
    ensures !HasAttribute(m, key) ==> r == Err(NoAttribute(m, key))
    ensures r.Ok? ==> key in m.columns
    ensures r.Ok? && !UuidColumn(m, key) ==> r.value == VStr(value)
    ensures r.Ok? && UuidColumn(m, key) ==> PgUuid(value).Some? && r.value == VUuid(PgUuid(value).value)
    ensures HasAttribute(m, key) && key !in m.relations && UuidColumn(m, key) && PgUuid(value).None? ==> r.Err? && r.error.DataError?
  {
    if !HasAttribute(m, key) then Err(NoAttribute(m, key))
    else if key in m.relations then Err(TypeError("Relationship '" + key + "' compared to a plain value"))
    else if UuidColumn(m, key) then
      match PgUuid(value)
      case None => Err(DataError("invalid input syntax for type uuid: \"" + value + "\""))
      case Some(u) => Ok(VUuid(u))
    else Ok(VStr(value))
  }

  /** The position of the first row whose `key` holds v. */
  function FindIndex(rows: seq<Record>, key: string, v: Value): (r: Option<nat>)
    ensures r.Some? ==> r.value < |rows| && Get(rows[r.value], key) == v
    ensures r.Some? ==> forall i :: 0 <= i < r.value ==> Get(rows[i], key) != v
    ensures r.None? ==> forall i :: 0 <= i < |rows| ==> Get(rows[i], key) != v
  {
    if rows == [] then None
    else if Get(rows[0], key) == v then Some(0)
    else
      match FindIndex(rows[1..], key, v)
      case None => None
      case Some(i) => Some(i + 1)
  }

  /** Where in the kind's table the row with `key` = `value` is, if anywhere. Soft deletion plays no part. */
  function FindBy(db: Tables, m: Model, key: string, value: string): (r: Result<Option<nat>>)
    ensures r.Err? <==> Literal(m, key, value).Err?
    ensures r.Ok? ==> r.value == FindIndex(Rows(db, m.table), key, Literal(m, key, value).value)
  {
    match Literal(m, key, value)
    case Err(e) => Err(e)
    case Ok(v) => Ok(FindIndex(Rows(db, m.table), key, v))
  }

  /** get_one_or_null_by: the first row whose `key` equals `value`, soft-deleted or not. */
  function GetOneOrNullBy(db: Tables, m: Model, key: string, value: string): (r: Result<Option<Record>>)
    ensures r.Err? <==> Literal(m, key, value).Err?
    ensures !HasAttribute(m, key) ==> r == Err(NoAttribute(m, key))
    ensures r.Ok? && r.value.Some? ==> r.value.value in Rows(db, m.table) && Get(r.value.value, key) == Literal(m, key, value).value
    ensures r.Ok? && r.value.None? ==> forall x :: x in Rows(db, m.table) ==> Get(x, key) != Literal(m, key, value).value
  {
    match FindBy(db, m, key, value)
    case Err(e) => Err(e)
    case Ok(None) => Ok(None)
    case Ok(Some(i)) => Ok(Some(Rows(db, m.table)[i]))
  }

  function NotFoundMessage(m: Model, key: string, value: string): string {
    m.className + " with " + key + "='" + value + "' was not found."
  }

  /** get_one_by as a position: a missing row is NotFoundError. */
  function LocateBy(db: Tables, m: Model, key: string, value: string): (r: Result<nat>)
    ensures r.Ok? ==> r.value < |Rows(db, m.table)|
    ensures r.Ok? <==> GetOneOrNullBy(db, m, key, value).Ok? && GetOneOrNullBy(db, m, key, value).value.Some?
    ensures r.Ok? ==> GetOneOrNullBy(db, m, key, value).value.value == Rows(db, m.table)[r.value]
  {
    match FindBy(db, m, key, value)
    case Err(e) => Err(e)
    case Ok(None) => Err(NotFound(NotFoundMessage(m, key, value)))
    case Ok(Some(i)) => Ok(i)
  }

  /** get_one_by: the row get_one_or_null_by finds, or NotFoundError naming the kind, key and value. */
  function GetOneBy(db: Tables, m: Model, key: string, value: string): (r: Result<Record>)
    ensures r.Ok? <==> GetOneOrNullBy(db, m, key, value).Ok? && GetOneOrNullBy(db, m, key, value).value.Some?
    ensures r.Ok? ==> r.value == GetOneOrNullBy(db, m, key, value).value.value
    ensures GetOneOrNullBy(db, m, key, value) == Ok(None) ==> r == Err(NotFound(NotFoundMessage(m, key, value)))
    ensures GetOneOrNullBy(db, m, key, value).Err? ==> r == Err(GetOneOrNullBy(db, m, key, value).error)
  {
    match LocateBy(db, m, key, value)
    case Err(e) => Err(e)
    case Ok(i) => Ok(Rows(db, m.table)[i])
  }

  /** get_all: every row of the kind's table, minus soft-deleted ones, in storage order. */
  function GetAll(db: Tables, m: Model): (r: seq<Record>)
    ensures multiset(r) <= multiset(Rows(db, m.table))
    ensures forall x :: x in r <==> x in Rows(db, m.table) && (m.softDeletable ==> Get(x, "deleted_at") == VNull)
  {
    var q := ExcludeDeleted(m, EmptyQuery);
    assert forall x :: Matches(db, q, x) <==> (m.softDeletable ==> Get(x, "deleted_at") == VNull) by {
      forall x ensures Matches(db, q, x) <==> (m.softDeletable ==> Get(x, "deleted_at") == VNull) {
        ExcludeDeletedSemantics(db, m, EmptyQuery, x);
      }
    }
    FilterRows(db, q, Rows(db, m.table))
  }

  /**
   * get_all_by: the attribute must exist on the kind; then one filter entry
   * (AND mode, soft-delete condition included) and the default order.
   */
  function GetAllBy(db: Tables, m: Model, key: string, value: FilterValue): (r: Result<seq<Record>>)
    ensures !HasAttribute(m, key) ==> r == Err(NoAttribute(m, key))
    ensures HasAttribute(m, key) ==> (r.Ok? <==> ListQuery(m, [], [Filter(key, value)], [], "").Ok?)
    ensures r.Ok? ==> r.value == Select(db, m, ListQuery(m, [], [Filter(key, value)], [], "").value)
  {
    if !HasAttribute(m, key) then Err(NoAttribute(m, key))
    else
      match ListQuery(m, [], [Filter(key, value)], [], "")
      case Err(e) => Err(e)
      case Ok(q) => Ok(Select(db, m, q))
  }

  // ----- constraint checks -----

  /** A failed constraint, with the database's primary message. */
  datatype Violation = NotNullViolation(msg: string) | UniqueViolation(msg: string) | ForeignKeyViolation(msg: string)

  function FirstNull(cols: seq<string>, notNull: set<string>, row: Record): (r: Option<string>)
    ensures r.Some? ==> r.value in cols && r.value in notNull && Get(row, r.value) == VNull
    ensures r.None? ==> forall k :: 0 <= k < |cols| && cols[k] in notNull ==> Get(row, cols[k]) != VNull
  {
    if cols == [] then None
    else if cols[0] in notNull && Get(row, cols[0]) == VNull then Some(cols[0])
    else
      var r := FirstNull(cols[1..], notNull, row);
      assert r.None? ==> forall k :: 1 <= k < |cols| ==> cols[k] == cols[1..][k - 1];
      r
  }

  /** Some row other than the one at `skip` holds v in column c. */
  predicate Taken(rows: seq<Record>, c: string, v: Value, skip: Option<nat>) {
    exists i :: 0 <= i < |rows| && skip != Some(i) && Get(rows[i], c) == v
  }

  function FirstClash(rows: seq<Record>, keys: seq<string>, row: Record, skip: Option<nat>): (r: Option<string>)
    ensures r.Some? ==> r.value in keys && Get(row, r.value) != VNull && Taken(rows, r.value, Get(row, r.value), skip)
    ensures r.None? ==> forall k :: 0 <= k < |keys| && Get(row, keys[k]) != VNull ==> !Taken(rows, keys[k], Get(row, keys[k]), skip)
  {
    if keys == [] then None
    else if Get(row, keys[0]) != VNull && Taken(rows, keys[0], Get(row, keys[0]), skip) then Some(keys[0])
    else
      var r := FirstClash(rows, keys[1..], row, skip);
      assert r.None? ==> forall k :: 1 <= k < |keys| ==> keys[k] == keys[1..][k - 1];
      r
  }

  /** A foreign key that is set, newly set or changed, and names no row of the referenced table. */
  predicate Dangling(db: Tables, fk: ForeignKey, row: Record, previous: Option<Record>) {
    && Get(row, fk.column) != VNull
    && (previous.Some? ==> Get(previous.value, fk.column) != Get(row, fk.column))
    && FirstWith(Rows(db, fk.refTable), "id", Get(row, fk.column)).None?
  }

  function FirstDangling(db: Tables, fks: seq<ForeignKey>, row: Record, previous: Option<Record>): (r: Option<ForeignKey>)
    ensures r.Some? ==> r.value in fks && Dangling(db, r.value, row, previous)
    ensures r.None? ==> forall k :: 0 <= k < |fks| ==> !Dangling(db, fks[k], row, previous)
  {
    if fks == [] then None
    else if Dangling(db, fks[0], row, previous) then Some(fks[0])
    else
      var r := FirstDangling(db, fks[1..], row, previous);
      assert r.None? ==> forall k :: 1 <= k < |fks| ==> fks[k] == fks[1..][k - 1];
      r
  }

  /** The primary key, then the unique columns. */
  function UniqueKeys(m: Model): seq<string> {
    (if m.hasId then ["id"] else []) + m.unique
  }

  /** PostgreSQL's default constraint names. */
  function ConstraintName(m: Model, c: string): string {
    if c == "id" then m.table + "_pkey" else m.table + "_" + c + "_key"
  }

  /** Every unique key's non-null values occur at most once. */
  ghost predicate UniqueKeysHold(rows: seq<Record>, keys: seq<string>) {
    forall i, j, k :: 0 <= i < |rows| && 0 <= j < |rows| && i != j && 0 <= k < |keys| && Get(rows[i], keys[k]) != VNull
      ==> Get(rows[i], keys[k]) != Get(rows[j], keys[k])
  }

  /**
   * The first constraint a written row breaks, in the order the database
   * checks them: NOT NULL in column order, then the unique indexes, then the
   * foreign keys. `skip` is the position of the row being updated.
   */
  function Violated(db: Tables, m: Model, row: Record, skip: Option<nat>): (r: Option<Violation>)
    ensures r.None? ==>
      && (forall k :: 0 <= k < |m.columns| && m.columns[k] in m.notNull ==> Get(row, m.columns[k]) != VNull)
      && (forall k :: 0 <= k < |UniqueKeys(m)| && Get(row, UniqueKeys(m)[k]) != VNull ==>
            !Taken(Rows(db, m.table), UniqueKeys(m)[k], Get(row, UniqueKeys(m)[k]), skip))
    ensures r.Some? && r.value.UniqueViolation? ==>
      exists c :: c in UniqueKeys(m) && Get(row, c) != VNull && Taken(Rows(db, m.table), c, Get(row, c), skip)
  {
    var rows := Rows(db, m.table);
    var previous := if skip.Some? && skip.value < |rows| then Some(rows[skip.value]) else None;
    match FirstNull(m.columns, m.notNull, row)
    case Some(c) =>
      Some(NotNullViolation("null value in column \"" + c + "\" of relation \"" + m.table + "\" violates not-null constraint"))
    case None =>
      match FirstClash(rows, UniqueKeys(m), row, skip)
      case Some(c) => Some(UniqueViolation("duplicate key value violates unique constraint \"" + ConstraintName(m, c) + "\""))
      case None =>
        match FirstDangling(db, m.foreignKeys, row, previous)
        case Some(fk) =>
          Some(ForeignKeyViolation("insert or update on table \"" + m.table + "\" violates foreign key constraint \""
            + m.table + "_" + fk.column + "_fkey\""))
        case None => None
  }

  /** What create raises for a violation: a unique violation becomes NotUniqueError, the rest pass through. */
  function CreateError(v: Violation): Error {
    if v.UniqueViolation? then NotUnique(v.msg) else Integrity(v.msg)
  }

  // ----- the steps -----

  /** The tables after a step, the history record it appends (if any), and its result. */
  datatype Outcome<T> = Outcome(tables: Tables, entry: Option<HistoryEntry>, result: Result<T>)

  function Entries<T>(o: Outcome<T>): seq<HistoryEntry> {
    if o.entry.Some? then [o.entry.value] else []
  }

  /** The model constructor: every keyword must name an attribute. */
  function Construct(m: Model, values: Record): (r: Result<Record>)
    ensures r.Ok? <==> forall k :: k in values ==> HasAttribute(m, k)
    ensures r.Ok? ==> r.value == values
    ensures r.Err? ==> r.error.TypeError?
  {
    if forall k :: k in values ==> HasAttribute(m, k) then Ok(values)
    else Err(TypeError("invalid keyword argument for " + m.className))
  }

  /** created_by and updated_by set to the acting user, as far as the kind has them. */
  function StampCreate(m: Model, fields: Record, actorId: string): Record {
    var f := if m.createdBy then fields["created_by" := VUuid(actorId)] else fields;
    if m.blameable then f["updated_by" := VUuid(actorId)] else f
  }

  /** A column's value when the insert does not give one. */
  function ColumnDefault(m: Model, c: string, newId: string, now: Timestamp): Value {
    if c == "id" && m.hasId then VUuid(newId)
    else if c == "created_at" || c == "updated_at" then now
    else VNull
  }

  /** The row an insert writes: each column's given value, or its default. */
  function InsertedRow(m: Model, fields: Record, newId: string, now: Timestamp): (r: Record)
    ensures forall c :: c in r <==> c in m.columns
    ensures forall c :: c in r ==> r[c] == if c in fields then fields[c] else ColumnDefault(m, c, newId, now)
  {
    map c | c in m.columns :: if c in fields then fields[c] else ColumnDefault(m, c, newId, now)
  }

  /** create: construct, stamp, insert under the constraints, reload, record CREATE. */
  function CreateStep(db: Tables, cfg: CrudConfig, values: Record, actorId: string, newId: string, now: Timestamp): Outcome<Record> {
    var m := cfg.model;
    match Construct(m, values)
    case Err(e) => Outcome(db, None, Err(e))
    case Ok(fields) =>
      var row := InsertedRow(m, StampCreate(m, fields, actorId), newId, now);
      match Violated(db, m, row, None)
      case Some(v) => Outcome(db, None, Err(CreateError(v)))
      case None =>
        var written := db[m.table := Rows(db, m.table) + [row]];
        var after := Loaded(written, m, row, cfg.refresh);
        match HistoryRecord(CREATE, actorId, Some(Snapshot(m, after)), BeforeDict(map[]))
        case Err(e) => Outcome(written, None, Err(e))
        case Ok(entry) => Outcome(written, Some(entry), Ok(after))
  }

  /** The attributes an update input sets: its keys that the entity has. */
  function Assigned(m: Model, input: Record): set<string> {
    set k | k in input && HasAttribute(m, k)
  }

  /** The merge loop's result: input values over the entity's attributes, for attributes the entity has. */
  function Merge(m: Model, fields: Record, input: Record): (r: Record)
    ensures forall k :: k in r <==> k in fields || k in Assigned(m, input)
    ensures forall k :: k in r ==> r[k] == if k in Assigned(m, input) then input[k] else fields[k]
  {
    map k | k in fields.Keys + Assigned(m, input) :: if k in Assigned(m, input) then input[k] else fields[k]
  }

  /** The merge loop: for each input key the entity has, set that attribute to the input's value. */
  method MergeInput(m: Model, entity: Record, input: Record) returns (r: Record)
    ensures r == Merge(m, entity, input)
  {
    r := entity;
    var pending := input.Keys;
    while pending != {}
      invariant pending <= input.Keys
      invariant forall k :: k in r <==> k in entity || (k in Assigned(m, input) && k !in pending)
      invariant forall k :: k in r ==>
        r[k] == if k in Assigned(m, input) && k !in pending then input[k] else entity[k]
      decreases pending
    {
      var key :| key in pending;
      if HasAttribute(m, key) {
        r := r[key := input[key]];
      }
      pending := pending - {key};
    }
  }

  /** Some column of the modified entity holds a value other than the stored row's. */
  predicate NetChange(m: Model, stored: Record, fields: Record) {
    exists c :: c in m.columns && Get(fields, c) != Get(stored, c)
  }

  /**
   * The row left in the table once the modified entity is flushed. An UPDATE
   * is emitted only when some column changed; only then does updated_at's
   * `onupdate` refresh it (unless it was assigned). Without a net change the
   * stored row's columns stay exactly as they were.
   */
  function UpdatedRow(m: Model, stored: Record, fields: Record, setAttrs: set<string>, now: Timestamp): (r: Record)
    ensures forall c :: c in r <==> c in m.columns
    ensures NetChange(m, stored, fields) ==>
      forall c :: c in r ==> r[c] == if c == "updated_at" && m.blameable && c !in setAttrs then now else Get(fields, c)
    ensures !NetChange(m, stored, fields) ==> forall c :: c in r ==> r[c] == Get(stored, c)
  {
    var refresh := NetChange(m, stored, fields) && m.blameable && "updated_at" !in setAttrs;
    map c | c in m.columns :: if c == "updated_at" && refresh then now else Get(fields, c)
  }

  /** The constraints are checked only when an UPDATE is emitted. */
  function FlushViolation(db: Tables, m: Model, i: nat, fields: Record, row: Record): Option<Violation>
    requires i < |Rows(db, m.table)|
  {
    if NetChange(m, Rows(db, m.table)[i], fields) then Violated(db, m, row, Some(i)) else None
  }

  function StampUpdate(m: Model, fields: Record, actorId: string): Record {
    if m.blameable then fields["updated_by" := VUuid(actorId)] else fields
  }

  /** update: require input, find by id, stamp, merge, write under the constraints, reload, record UPDATE. */
  function UpdateStep(db: Tables, cfg: CrudConfig, entityId: string, input: Option<Record>, actorId: string, now: Timestamp): Outcome<Record> {
    var m := cfg.model;
    if input.None? then Outcome(db, None, Err(ValueError("Input is required for update operation.")))
    else
      match LocateBy(db, m, "id", entityId)
      case Err(e) => Outcome(db, None, Err(e))
      case Ok(i) =>
        var rows := Rows(db, m.table);
        var before := Entity(db, m, rows[i]);
        var fields := Merge(m, StampUpdate(m, before, actorId), input.value);
        var row := UpdatedRow(m, rows[i], fields, Assigned(m, input.value), now);
        match FlushViolation(db, m, i, fields, row)
        case Some(v) => Outcome(db, None, Err(Integrity(v.msg)))
        case None =>
          var written := db[m.table := rows[i := row]];
          var after := Entity(written, m, row);
          match HistoryRecord(UPDATE, actorId, Some(Snapshot(m, after)), BeforeDict(before))
          case Err(e) => Outcome(written, None, Err(e))
          case Ok(entry) => Outcome(written, Some(entry), Ok(after))
  }

  const SoftDeleteAttributes: seq<string> := ["deleted_at", "deleted_by"]

  /** The first of the attributes the kind lacks. */
  function MissingAttribute(m: Model, attrs: seq<string>): (r: Option<string>)
    ensures r.None? <==> forall k :: 0 <= k < |attrs| ==> HasAttribute(m, attrs[k])
    ensures r.Some? ==> r.value in attrs && !HasAttribute(m, r.value)
  {
    if attrs == [] then None
    else if !HasAttribute(m, attrs[0]) then Some(attrs[0])
    else
      var r := MissingAttribute(m, attrs[1..]);
      assert r.None? ==> forall k :: 1 <= k < |attrs| ==> attrs[k] == attrs[1..][k - 1];
      r
  }

  /** soft_delete: require the attributes, find by id, require the capability, stamp, write, record DELETE. */
  function SoftDeleteStep(db: Tables, cfg: CrudConfig, entityId: string, actorId: string, now: Timestamp): Outcome<()> {
    var m := cfg.model;
    match MissingAttribute(m, SoftDeleteAttributes)
    case Some(a) => Outcome(db, None, Err(NoAttribute(m, a)))
    case None =>
      match LocateBy(db, m, "id", entityId)
      case Err(e) => Outcome(db, None, Err(e))
      case Ok(i) =>
        if !m.softDeletable then Outcome(db, None, Err(TypeError("Entity is not an instance of SoftDeletableMixin.")))
        else
          var rows := Rows(db, m.table);
          var before := Entity(db, m, rows[i]);
          var fields := before["deleted_at" := now]["deleted_by" := VUuid(actorId)];
          var row := UpdatedRow(m, rows[i], fields, {"deleted_at", "deleted_by"}, now);
          match FlushViolation(db, m, i, fields, row)
          case Some(v) => Outcome(db, None, Err(Integrity(v.msg)))
          case None =>
            var written := db[m.table := rows[i := row]];
            var after := Entity(written, m, row);
            match HistoryRecord(DELETE, actorId, Some(Snapshot(m, after)), BeforeDict(before))
            case Err(e) => Outcome(written, None, Err(e))
            case Ok(entry) => Outcome(written, Some(entry), Ok(()))
  }

  /** The database and the history table, changed in place by the repository's operations. */
  class Store {
    var tables: Tables
    var history: seq<HistoryEntry>

    constructor (db: Tables)
      ensures tables == db && history == []
    {
      tables := db;
      history := [];
    }

    method Create(cfg: CrudConfig, values: Record, actorId: string, newId: string, now: Timestamp) returns (r: Result<Record>)
      modifies this
      ensures var o := CreateStep(old(tables), cfg, values, actorId, newId, now);
        tables == o.tables && history == old(history) + Entries(o) && r == o.result
    {
      var m := cfg.model;
      ghost var o := CreateStep(tables, cfg, values, actorId, newId, now);
      var built := Construct(m, values);
      if built.Err? {
        assert o == Outcome(tables, None, Err(built.error));
        return Err(built.error);
      }
      var entity := built.value;
      if m.createdBy {
        entity := entity["created_by" := VUuid(actorId)];
      }
      if m.blameable {
        entity := entity["updated_by" := VUuid(actorId)];
      }
      assert entity == StampCreate(m, built.value, actorId);
      var row := InsertedRow(m, entity, newId, now);
      var violation := Violated(tables, m, row, None);
      if violation.Some? {
        assert o == Outcome(tables, None, Err(CreateError(violation.value)));
        return Err(CreateError(violation.value));
      }
      var written := tables[m.table := Rows(tables, m.table) + [row]];
      var after := Loaded(written, m, row, cfg.refresh);
      var entry := BuildHistory(CREATE, actorId, Some(Snapshot(m, after)), BeforeDict(map[]));
      tables := written;
      if entry.Err? {
        assert o == Outcome(written, None, Err(entry.error));
        return Err(entry.error);
      }
      assert o == Outcome(written, Some(entry.value), Ok(after));
      history := history + [entry.value];
      return Ok(after);
    }

    method Update(cfg: CrudConfig, entityId: string, input: Option<Record>, actorId: string, now: Timestamp) returns (r: Result<Record>)
      modifies this
      ensures var o := UpdateStep(old(tables), cfg, entityId, input, actorId, now);
        tables == o.tables && history == old(history) + Entries(o) && r == o.result
    {
      var m := cfg.model;
      ghost var o := UpdateStep(tables, cfg, entityId, input, actorId, now);
      if input.None? {
        assert o == Outcome(tables, None, Err(ValueError("Input is required for update operation.")));
        return Err(ValueError("Input is required for update operation."));
      }
      var found := LocateBy(tables, m, "id", entityId);
      if found.Err? {
        assert o == Outcome(tables, None, Err(found.error));
        return Err(found.error);
      }
      var i := found.value;
      var rows := Rows(tables, m.table);
      var before := Entity(tables, m, rows[i]);
      var entity := before;
      if m.blameable {
        entity := entity["updated_by" := VUuid(actorId)];
      }
      assert entity == StampUpdate(m, before, actorId);
      entity := MergeInput(m, entity, input.value);
      var row := UpdatedRow(m, rows[i], entity, Assigned(m, input.value), now);
      var violation := FlushViolation(tables, m, i, entity, row);
      if violation.Some? {
        assert o == Outcome(tables, None, Err(Integrity(violation.value.msg)));
        return Err(Integrity(violation.value.msg));
      }
      var written := tables[m.table := rows[i := row]];
      var after := Entity(written, m, row);
      var entry := BuildHistory(UPDATE, actorId, Some(Snapshot(m, after)), BeforeDict(before));
      tables := written;
      if entry.Err? {
        assert o == Outcome(written, None, Err(entry.error));
        return Err(entry.error);
      }
      assert o == Outcome(written, Some(entry.value), Ok(after));
      history := history + [entry.value];
      return Ok(after);
    }

    method SoftDelete(cfg: CrudConfig, entityId: string, actorId: string, now: Timestamp) returns (r: Result<()>)
      modifies this
      ensures var o := SoftDeleteStep(old(tables), cfg, entityId, actorId, now);
        tables == o.tables && history == old(history) + Entries(o) && r == o.result
    {
      var m := cfg.model;
      ghost var o := SoftDeleteStep(tables, cfg, entityId, actorId, now);
      var k := 0;
      while k < |SoftDeleteAttributes|
        invariant 0 <= k <= |SoftDeleteAttributes|
        invariant MissingAttribute(m, SoftDeleteAttributes) == MissingAttribute(m, SoftDeleteAttributes[k..])
      {
        assert SoftDeleteAttributes[k..][1..] == SoftDeleteAttributes[k + 1..];
        if !HasAttribute(m, SoftDeleteAttributes[k]) {
          assert o == Outcome(tables, None, Err(NoAttribute(m, SoftDeleteAttributes[k])));
          return Err(NoAttribute(m, SoftDeleteAttributes[k]));
        }
        k := k + 1;
      }
      assert MissingAttribute(m, SoftDeleteAttributes).None?;
      var found := LocateBy(tables, m, "id", entityId);
      if found.Err? {
        assert o == Outcome(tables, None, Err(found.error));
        return Err(found.error);
      }
      if !m.softDeletable {
        assert o == Outcome(tables, None, Err(TypeError("Entity is not an instance of SoftDeletableMixin.")));
        return Err(TypeError("Entity is not an instance of SoftDeletableMixin."));
      }
      var i := found.value;
      var rows := Rows(tables, m.table);
      var before := Entity(tables, m, rows[i]);
      var entity := before["deleted_at" := now];
      entity := entity["deleted_by" := VUuid(actorId)];
      var row := UpdatedRow(m, rows[i], entity, {"deleted_at", "deleted_by"}, now);
      var violation := FlushViolation(tables, m, i, entity, row);
      if violation.Some? {
        assert o == Outcome(tables, None, Err(Integrity(violation.value.msg)));
        return Err(Integrity(violation.value.msg));
      }
      var written := tables[m.table := rows[i := row]];
      var after := Entity(written, m, row);
      var entry := BuildHistory(DELETE, actorId, Some(Snapshot(m, after)), BeforeDict(before));
      tables := written;
      if entry.Err? {
        assert o == Outcome(written, None, Err(entry.error));
        return Err(entry.error);
      }
      assert o == Outcome(written, Some(entry.value), Ok(()));
      history := history + [entry.value];
      return Ok(());
    }
  }
}
