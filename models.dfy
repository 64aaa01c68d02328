/**
 * The entity kinds as a static registry: each kind lists its table columns, its
 * many-to-one relations, its database constraints and its capability flags
 * (the Id, CreatedBy, Blameable and SoftDeletable mixins), instead of
 * reflection over model classes.
 */
module Models {

  /** A many-to-one relationship: the related kind and the local foreign-key column. */
  datatype Relation = Relation(target: Model, fk: string, eager: bool)

  datatype Model = Model(
    className: string,
    table: string,
    columns: seq<string>,
    relations: map<string, Relation>,
    foreignKeys: seq<ForeignKey>,
    notNull: set<string>,
    unique: seq<string>,          // unique columns other than the primary key
    hasId: bool,                  // IdMixin
    createdBy: bool,              // CreatedByMixin
    blameable: bool,              // BlameableMixin
    softDeletable: bool           // SoftDeletableMixin
  )

  datatype ForeignKey = ForeignKey(column: string, refTable: string)

  const AuditFields: set<string> := {"created_at", "created_by", "updated_at", "updated_by"}

  predicate HasColumn(m: Model, key: string) {
    key in m.columns
  }

  /** What the mixins guarantee about the columns of a kind. */
  ghost predicate CapabilitiesHold(m: Model) {
    && (m.hasId ==> "id" in m.columns && "id" in m.notNull)
    && (m.createdBy ==> "created_by" in m.columns)
    && (m.blameable ==> m.createdBy && forall f :: f in AuditFields ==> f in m.columns)
    && (m.softDeletable ==> "deleted_at" in m.columns && "deleted_by" in m.columns)
  }

  /** Constraints and relations name columns of the kind; relation names are not columns. */
  ghost predicate SchemaConsistent(m: Model) {
    && (forall c :: c in m.notNull ==> c in m.columns)
    && (forall c :: c in m.unique ==> c in m.columns)
    && (forall k :: 0 <= k < |m.foreignKeys| ==> m.foreignKeys[k].column in m.columns)
    && (forall r :: r in m.relations ==>
          && r !in m.columns
          && m.relations[r].fk in m.columns
          && m.relations[r].target.hasId)
  }

  ghost predicate WellFormed(m: Model) {
    CapabilitiesHold(m) && SchemaConsistent(m)
  }

  /** UserModel: IdMixin and CreatedAtMixin only; its one-to-many `comments` is not in the registry. */
  function UserModel(): (m: Model)
    ensures m.hasId && !m.blameable && !m.softDeletable && m.table == "users"
    ensures "name" in m.unique && m.relations == map[]
  {
    Model("UserModel", "users",
      ["id", "created_at", "name", "role", "is_active", "last_login_at"],
      map[], [],
      {"id", "created_at", "name", "role", "last_login_at"},
      ["name"],
      true, false, false, false)
  }

  /** PartModel: unique name, nullable description, Id and Blameable, not soft-deletable. */
  function PartModel(): (m: Model)
    ensures m.hasId && m.blameable && !m.softDeletable && m.table == "parts"
    ensures "name" in m.unique && "name" in m.notNull && "description" !in m.notNull
    ensures m.relations == map[]
  {
    Model("PartModel", "parts",
      ["name", "description", "id", "created_at", "created_by", "updated_at", "updated_by"],
      map[],
      [ForeignKey("created_by", "users"), ForeignKey("updated_by", "users")],
      {"name", "id", "created_at", "created_by", "updated_at", "updated_by"},
      ["name"],
      true, true, true, false)
  }

  /** CommentModel: belongs to a part, created by a user (loaded eagerly), Id and Blameable. */
  function CommentModel(): (m: Model)
    ensures m.hasId && m.blameable && !m.softDeletable && m.table == "comments"
    ensures m.relations.Keys == {"part", "creator"}
    ensures m.relations["part"] == Relation(PartModel(), "part_id", false)
    ensures m.relations["creator"] == Relation(UserModel(), "created_by", true)
    ensures m.unique == []
  {
    Model("CommentModel", "comments",
      ["part_id", "content", "id", "created_at", "created_by", "updated_at", "updated_by"],
      map["part" := Relation(PartModel(), "part_id", false),
          "creator" := Relation(UserModel(), "created_by", true)],
      [ForeignKey("part_id", "parts"), ForeignKey("created_by", "users"), ForeignKey("updated_by", "users")],
      {"part_id", "content", "id", "created_at", "created_by", "updated_at", "updated_by"},
      [],
      true, true, true, false)
  }

  lemma UserModelWellFormed()
    ensures WellFormed(UserModel())
  {
    var m := UserModel();
    assert CapabilitiesHold(m);
    assert SchemaConsistent(m);
  }

  lemma PartModelWellFormed()
    ensures WellFormed(PartModel())
  {
    var m := PartModel();
    assert CapabilitiesHold(m);
    assert SchemaConsistent(m);
  }

  lemma CommentModelWellFormed()
    ensures WellFormed(CommentModel())
  {
    CommentCapabilities();
    CommentConstraintColumns();
    CommentRelationColumns();
  }

  lemma CommentCapabilities()
    ensures CapabilitiesHold(CommentModel())
  {
    var m := CommentModel();
    assert m.columns[2] == "id" && m.columns[4] == "created_by";
    assert forall f :: f in AuditFields ==> f in m.columns by {
      assert m.columns[3] == "created_at" && m.columns[5] == "updated_at" && m.columns[6] == "updated_by";
    }
  }

  lemma CommentConstraintColumns()
    ensures var m := CommentModel();
      && (forall c :: c in m.notNull ==> c in m.columns)
      && (forall k :: 0 <= k < |m.foreignKeys| ==> m.foreignKeys[k].column in m.columns)
  {
    var m := CommentModel();
    assert m.foreignKeys[0].column == m.columns[0];
    assert m.foreignKeys[1].column == m.columns[4];
    assert m.foreignKeys[2].column == m.columns[6];
  }

  lemma CommentRelationColumns()
    ensures var m := CommentModel();
      forall r :: r in m.relations ==> r !in m.columns && m.relations[r].fk in m.columns && m.relations[r].target.hasId
  {
    var m := CommentModel();
    assert m.columns[0] == "part_id" && m.columns[4] == "created_by";
  }

  function Registry(): seq<Model> {
    [UserModel(), PartModel(), CommentModel()]
  }

  lemma RegistryTablesDistinct()
    ensures forall i, j :: 0 <= i < j < |Registry()| ==> Registry()[i].table != Registry()[j].table
  {
  }
}
