/**
 * What the built queries mean for a row: which filter dicts fail, what each
 * kind of filter value matches, how the entries combine (AND for the caller's
 * filters, OR for the global search), that soft-deleted rows never show, and
 * which sorting dicts are accepted and in what key order.
 */
module FilterSemantics {
  import opened Wrappers
  import opened Models
  import opened Values
  import opened Like
  import opened Query
  import opened Evaluation
  import opened Ordering

  /** The entry's key resolves and its value imposes a condition. */
  ghost predicate Constrains(m: Model, f: Filter) {
    Resolve(m, f.key).Ok? && ValueCondition(Resolve(m, f.key).value, f.value).Some?
  }

  /** The entry imposes a condition and the row meets it. */
  ghost predicate Satisfies(db: Tables, m: Model, row: Record, f: Filter) {
    Constrains(m, f) && Holds(db, row, ValueCondition(Resolve(m, f.key).value, f.value).value)
  }

  // ----- which filter dicts fail -----

  /** Collecting fails exactly when some key does not resolve, whatever the values are. */
  lemma {:induction false} CollectFailsIff(m: Model, joins: seq<Relation>, fs: seq<Filter>)
    ensures Collect(m, joins, fs).Err? <==> exists i :: 0 <= i < |fs| && Resolve(m, fs[i].key).Err?
    decreases |fs|
  {
    if fs != [] {
      var init := fs[..|fs| - 1];
      CollectFailsIff(m, joins, init);
      if exists i :: 0 <= i < |fs| && Resolve(m, fs[i].key).Err? {
        var i :| 0 <= i < |fs| && Resolve(m, fs[i].key).Err?;
        if i < |init| {
          assert init[i] == fs[i];
        }
      }
      if exists i :: 0 <= i < |init| && Resolve(m, init[i].key).Err? {
        var i :| 0 <= i < |init| && Resolve(m, init[i].key).Err?;
        assert init[i] == fs[i];
      }
    }
  }

  /** The error reported is the one of the first key that does not resolve. */
  lemma FirstBadKeyReported(m: Model, joins: seq<Relation>, fs: seq<Filter>, i: nat)
    requires i < |fs| && Resolve(m, fs[i].key).Err?
    requires forall j :: 0 <= j < i ==> Resolve(m, fs[j].key).Ok?
    ensures Collect(m, joins, fs) == Err(Resolve(m, fs[i].key).error)
  {
    var init := fs[..i];
    forall j | 0 <= j < |init| ensures Resolve(m, init[j].key).Ok? {
      assert init[j] == fs[j];
    }
    CollectFailsIff(m, joins, init);
    assert fs[..i + 1][..i] == init;
    CollectErrExtends(m, joins, fs, i + 1, Resolve(m, fs[i].key).error);
  }

  /** A filter dict with an unknown key fails, even when its value would add no condition. */
  lemma UnknownKeyFails(m: Model, q: Query, fs: seq<Filter>, andOperator: bool, i: nat)
    requires i < |fs| && Resolve(m, fs[i].key).Err?
    ensures FilterQuery(m, q, fs, andOperator).Err?
    ensures FilterQuery(m, q, fs, andOperator).error.AttributeError?
  {
    CollectFailsIff(m, ExcludeDeleted(m, q).joins, fs);
    CollectErrorIsAttribute(m, ExcludeDeleted(m, q).joins, fs);
  }

  lemma {:induction false} CollectErrorIsAttribute(m: Model, joins: seq<Relation>, fs: seq<Filter>)
    ensures Collect(m, joins, fs).Err? ==> Collect(m, joins, fs).error.AttributeError?
    decreases |fs|
  {
    if fs != [] {
      CollectErrorIsAttribute(m, joins, fs[..|fs| - 1]);
    }
  }

  // ----- how the entries combine -----

  /** The conditions of the entries that impose one, in entry order. */
  function Flatten(opts: seq<Option<Cond>>): seq<Cond> {
    if opts == [] then [] else Flatten(opts[..|opts| - 1]) + OptionToSeq(opts[|opts| - 1])
  }

  lemma {:induction false} FlattenEmpty(opts: seq<Option<Cond>>)
    ensures Flatten(opts) == [] <==> forall i :: 0 <= i < |opts| ==> opts[i].None?
    decreases |opts|
  {
    if opts != [] {
      var n := |opts| - 1;
      FlattenEmpty(opts[..n]);
      assert forall i :: 0 <= i < n ==> opts[..n][i] == opts[i];
    }
  }

  /** Every flattened condition satisfies P exactly when every imposed condition does. */
  lemma {:induction false} FlattenAll(P: Cond -> bool, opts: seq<Option<Cond>>)
    ensures (forall k :: 0 <= k < |Flatten(opts)| ==> P(Flatten(opts)[k])) <==>
            (forall i :: 0 <= i < |opts| && opts[i].Some? ==> P(opts[i].value))
    decreases |opts|
  {
    if opts != [] {
      var n := |opts| - 1;
      var init := opts[..n];
      FlattenAll(P, init);
      var fi := Flatten(init);
      var f := Flatten(opts);
      assert f == fi + OptionToSeq(opts[n]);
      assert forall i :: 0 <= i < n ==> init[i] == opts[i];
      assert forall k :: 0 <= k < |fi| ==> f[k] == fi[k];
      assert opts[n].Some? ==> f[|fi|] == opts[n].value;
    }
  }

  /** Some flattened condition satisfies P exactly when some imposed condition does. */
  lemma {:induction false} FlattenSome(P: Cond -> bool, opts: seq<Option<Cond>>)
    ensures (exists k :: 0 <= k < |Flatten(opts)| && P(Flatten(opts)[k])) <==>
            (exists i :: 0 <= i < |opts| && opts[i].Some? && P(opts[i].value))
    decreases |opts|
  {
    if opts != [] {
      var n := |opts| - 1;
      var init := opts[..n];
      FlattenSome(P, init);
      var fi := Flatten(init);
      var f := Flatten(opts);
      assert f == fi + OptionToSeq(opts[n]);
      assert forall i :: 0 <= i < n ==> init[i] == opts[i];
      assert forall k :: 0 <= k < |fi| ==> f[k] == fi[k];
      assert opts[n].Some? ==> f[|fi|] == opts[n].value;
      if exists k :: 0 <= k < |f| && P(f[k]) {
        var k :| 0 <= k < |f| && P(f[k]);
        if k < |fi| {
          assert P(fi[k]);
          var i :| 0 <= i < n && init[i].Some? && P(init[i].value);
          assert opts[i] == init[i];
        }
      }
      if exists i :: 0 <= i < |opts| && opts[i].Some? && P(opts[i].value) {
        var i :| 0 <= i < |opts| && opts[i].Some? && P(opts[i].value);
        if i < n {
          assert init[i] == opts[i];
          var k :| 0 <= k < |fi| && P(fi[k]);
          assert P(f[k]);
        } else {
          assert P(f[|fi|]);
        }
      }
    }
  }

  /** The condition each entry imposes, once every key has resolved. */
  function EntryConditions(m: Model, fs: seq<Filter>): (r: seq<Option<Cond>>)
    requires forall i :: 0 <= i < |fs| ==> Resolve(m, fs[i].key).Ok?
    ensures |r| == |fs|
  {
    seq(|fs|, i requires 0 <= i < |fs| => ValueCondition(Resolve(m, fs[i].key).value, fs[i].value))
  }

  /** Collecting keeps one condition per constraining entry, in entry order. */
  lemma {:induction false} CollectConds(m: Model, joins: seq<Relation>, fs: seq<Filter>)
    requires Collect(m, joins, fs).Ok?
    ensures forall i :: 0 <= i < |fs| ==> Resolve(m, fs[i].key).Ok?
    ensures Collect(m, joins, fs).value.conds == Flatten(EntryConditions(m, fs))
    ensures joins <= Collect(m, joins, fs).value.joins
    decreases |fs|
  {
    if fs != [] {
      var n := |fs| - 1;
      var init := fs[..n];
      CollectConds(m, joins, init);
      var c := Collect(m, joins, init).value;
      var a := Resolve(m, fs[n].key).value;
      assert Collect(m, joins, fs).value == Collected(AddJoin(c.joins, a), c.conds + OptionToSeq(ValueCondition(a, fs[n].value)));
      EntryConditionsPrefix(m, fs);
    }
  }

  /** Dropping the last entry drops the last imposed condition. */
  lemma EntryConditionsPrefix(m: Model, fs: seq<Filter>)
    requires fs != [] && forall i :: 0 <= i < |fs| ==> Resolve(m, fs[i].key).Ok?
    ensures var n := |fs| - 1;
      && (forall i :: 0 <= i < n ==> Resolve(m, fs[..n][i].key).Ok?)
      && EntryConditions(m, fs)[..n] == EntryConditions(m, fs[..n])
      && EntryConditions(m, fs)[n] == ValueCondition(Resolve(m, fs[n].key).value, fs[n].value)
  {
    var n := |fs| - 1;
    assert forall i :: 0 <= i < n ==> fs[..n][i] == fs[i];
  }

  /** An entry constrains exactly when it imposes a condition, and is met exactly when that condition holds. */
  lemma EntryConditionsMeaning(db: Tables, m: Model, row: Record, fs: seq<Filter>)
    requires forall i :: 0 <= i < |fs| ==> Resolve(m, fs[i].key).Ok?
    ensures var opts := EntryConditions(m, fs);
      forall i :: 0 <= i < |fs| ==>
        && (Constrains(m, fs[i]) <==> opts[i].Some?)
        && (Satisfies(db, m, row, fs[i]) <==> opts[i].Some? && Holds(db, row, opts[i].value))
  {
  }

  /** The collected conditions hold together exactly when every constraining entry is met, and one holds exactly when some entry is met. */
  lemma CollectSemantics(db: Tables, m: Model, joins: seq<Relation>, fs: seq<Filter>, row: Record)
    requires Collect(m, joins, fs).Ok?
    ensures var c := Collect(m, joins, fs).value;
      && joins <= c.joins
      && (forall i :: 0 <= i < |fs| ==> Resolve(m, fs[i].key).Ok?)
      && ((forall k :: 0 <= k < |c.conds| ==> Holds(db, row, c.conds[k])) <==>
          (forall i :: 0 <= i < |fs| && Constrains(m, fs[i]) ==> Satisfies(db, m, row, fs[i])))
      && ((exists k :: 0 <= k < |c.conds| && Holds(db, row, c.conds[k])) <==>
          (exists i :: 0 <= i < |fs| && Satisfies(db, m, row, fs[i])))
      && (c.conds == [] <==> forall i :: 0 <= i < |fs| ==> !Constrains(m, fs[i]))
  {
    CollectConds(m, joins, fs);
    CollectAllHold(db, m, joins, fs, row);
    CollectSomeHolds(db, m, joins, fs, row);
    EntryConditionsMeaning(db, m, row, fs);
    FlattenEmpty(EntryConditions(m, fs));
  }

  lemma CollectAllHold(db: Tables, m: Model, joins: seq<Relation>, fs: seq<Filter>, row: Record)
    requires Collect(m, joins, fs).Ok?
    ensures var c := Collect(m, joins, fs).value;
      (forall k :: 0 <= k < |c.conds| ==> Holds(db, row, c.conds[k])) <==>
      (forall i :: 0 <= i < |fs| && Constrains(m, fs[i]) ==> Satisfies(db, m, row, fs[i]))
  {
    CollectConds(m, joins, fs);
    EntryConditionsMeaning(db, m, row, fs);
    FlattenAll((c: Cond) => Holds(db, row, c), EntryConditions(m, fs));
  }

  lemma CollectSomeHolds(db: Tables, m: Model, joins: seq<Relation>, fs: seq<Filter>, row: Record)
    requires Collect(m, joins, fs).Ok?
    ensures var c := Collect(m, joins, fs).value;
      (exists k :: 0 <= k < |c.conds| && Holds(db, row, c.conds[k])) <==>
      (exists i :: 0 <= i < |fs| && Satisfies(db, m, row, fs[i]))
  {
    CollectConds(m, joins, fs);
    EntryConditionsMeaning(db, m, row, fs);
    FlattenSome((c: Cond) => Holds(db, row, c), EntryConditions(m, fs));
  }

  /** AND-ing conditions holds when all do; OR-ing them when one does; no conditions add nothing. */
  lemma CombineSemantics(db: Tables, row: Record, cs: seq<Cond>, andOperator: bool)
    ensures AllHold(db, row, Combine(cs, andOperator)) <==>
      if andOperator then AllHold(db, row, cs)
      else cs == [] || exists k :: 0 <= k < |cs| && Holds(db, row, cs[k])
  {
    if cs != [] {
      var c := Combine(cs, andOperator);
      assert c[0] == (if andOperator then AllOf(cs) else AnyOf(cs));
      assert AllHold(db, row, c) <==> Holds(db, row, c[0]);
    }
  }

  lemma ExcludeDeletedSemantics(db: Tables, m: Model, q: Query, row: Record)
    ensures ExcludeDeleted(m, q).joins == q.joins && ExcludeDeleted(m, q).orderBy == q.orderBy
    ensures AllHold(db, row, ExcludeDeleted(m, q).where) <==>
      AllHold(db, row, q.where) && (m.softDeletable ==> Get(row, "deleted_at") == VNull)
  {
    if m.softDeletable {
      var tail := [DeletedAtIsNull];
      AllHoldAppend(db, row, q.where, tail);
      assert tail[0] == DeletedAtIsNull;
      assert AllHold(db, row, tail) <==> Holds(db, row, tail[0]);
    }
  }

  /**
   * What a filtered query admits: the inner joins, the conditions already on
   * the query, `deleted_at IS NULL` for a soft-deletable kind, and then every
   * constraining entry (AND mode) or at least one of them (OR mode).
   */
  lemma FilterSemantics(db: Tables, m: Model, q: Query, fs: seq<Filter>, andOperator: bool, row: Record)
    requires FilterQuery(m, q, fs, andOperator).Ok?
    ensures var r := FilterQuery(m, q, fs, andOperator).value;
      && q.joins <= r.joins && q.where <= r.where && r.orderBy == q.orderBy
      && (Matches(db, r, row) <==>
          && JoinsHold(db, r.joins, row)
          && AllHold(db, row, q.where)
          && (m.softDeletable ==> Get(row, "deleted_at") == VNull)
          && (andOperator ==> forall i :: 0 <= i < |fs| && Constrains(m, fs[i]) ==> Satisfies(db, m, row, fs[i]))
          && (!andOperator && (exists i :: 0 <= i < |fs| && Constrains(m, fs[i])) ==>
                exists i :: 0 <= i < |fs| && Satisfies(db, m, row, fs[i])))
  {
    var q1 := ExcludeDeleted(m, q);
    var r := FilterQuery(m, q, fs, andOperator).value;
    ExcludeDeletedSemantics(db, m, q, row);
    assert q.where <= q1.where;
    if fs != [] {
      var c := Collect(m, q1.joins, fs).value;
      CollectSemantics(db, m, q1.joins, fs, row);
      CombineSemantics(db, row, c.conds, andOperator);
      AllHoldAppend(db, row, q1.where, Combine(c.conds, andOperator));
      assert r.where == q1.where + Combine(c.conds, andOperator);
    }
  }

  // ----- soft deletion -----

  lemma SortQueryKeepsWhere(m: Model, q: Query, es: seq<SortEntry>)
    requires SortQuery(m, q, es).Ok?
    ensures SortQuery(m, q, es).value.where == q.where
    ensures q.joins <= SortQuery(m, q, es).value.joins
  {
    if es != [] {
      CollectOrderSpec(m, q.joins, es);
    }
  }

  lemma JoinsPrefix(db: Tables, a: seq<Relation>, b: seq<Relation>, row: Record)
    requires a <= b && JoinsHold(db, b, row)
    ensures JoinsHold(db, a, row)
  {
    forall k | 0 <= k < |a| ensures Related(db, a[k], row).Some? {
      assert a[k] == b[k];
    }
  }

  /**
   * A listed row is one that meets the joins, is not soft-deleted, meets
   * every constraining filter entry, and, when a search term and searchable
   * fields are given, matches the term in at least one searchable field.
   */
  lemma ListQuerySemantics(db: Tables, m: Model, searchable: seq<string>, fs: seq<Filter>,
                           es: seq<SortEntry>, term: string, row: Record)
    requires ListQuery(m, searchable, fs, es, term).Ok?
    ensures var r := ListQuery(m, searchable, fs, es, term).value;
      Matches(db, r, row) <==>
        && JoinsHold(db, r.joins, row)
        && (m.softDeletable ==> Get(row, "deleted_at") == VNull)
        && (forall i :: 0 <= i < |fs| && Constrains(m, fs[i]) ==> Satisfies(db, m, row, fs[i]))
        && (term != "" && searchable != [] ==>
              exists i :: 0 <= i < |searchable| && Satisfies(db, m, row, Filter(searchable[i], FStr(term))))
  {
    var q1 := FilterQuery(m, EmptyQuery, fs, true).value;
    FilterSemantics(db, m, EmptyQuery, fs, true, row);
    var q2 := SortQuery(m, q1, es).value;
    SortQueryKeepsWhere(m, q1, es);
    var r := ListQuery(m, searchable, fs, es, term).value;
    if term != "" {
      GlobalSearchSemantics(db, m, searchable, q2, term, row);
    }
    assert q1.joins <= r.joins;
    if JoinsHold(db, r.joins, row) {
      JoinsPrefix(db, q1.joins, r.joins, row);
    }
  }

  /** A listed row of a soft-deletable kind is never soft-deleted, whatever the filters and the search term. */
  lemma SoftDeletedNeverListed(db: Tables, m: Model, searchable: seq<string>, fs: seq<Filter>,
                               es: seq<SortEntry>, term: string, row: Record)
    requires m.softDeletable
    requires ListQuery(m, searchable, fs, es, term).Ok?
    requires Matches(db, ListQuery(m, searchable, fs, es, term).value, row)
    ensures Get(row, "deleted_at") == VNull
  {
    var q1 := FilterQuery(m, EmptyQuery, fs, true).value;
    FilterSemantics(db, m, EmptyQuery, fs, true, row);
    var q2 := SortQuery(m, q1, es).value;
    var r := ListQuery(m, searchable, fs, es, term).value;
    assert q1.where[0] == DeletedAtIsNull;
    if term != "" {
      FilterSemantics(db, m, q2, SearchFilters(searchable, term), false, row);
    }
    assert q2.where <= r.where;
    assert Holds(db, row, r.where[0]);
  }

  // ----- the global search -----

  /**
   * A non-empty search term admits a row exactly when the query already
   * admits it and, if there are searchable fields, the term matches one of
   * them; with no searchable fields it adds nothing but the soft-delete test.
   */
  lemma GlobalSearchSemantics(db: Tables, m: Model, searchable: seq<string>, q: Query, term: string, row: Record)
    requires term != ""
    requires GlobalFilterQuery(m, searchable, q, term).Ok?
    ensures var r := GlobalFilterQuery(m, searchable, q, term).value;
      && q.joins <= r.joins && r.orderBy == q.orderBy
      && (Matches(db, r, row) <==>
          && JoinsHold(db, r.joins, row)
          && AllHold(db, row, q.where)
          && (m.softDeletable ==> Get(row, "deleted_at") == VNull)
          && (searchable != [] ==> exists i :: 0 <= i < |searchable| && Satisfies(db, m, row, Filter(searchable[i], FStr(term)))))
  {
    var fs := SearchFilters(searchable, term);
    FilterSemantics(db, m, q, fs, false, row);
    CollectFailsIff(m, ExcludeDeleted(m, q).joins, fs);
    if searchable != [] {
      assert fs[0] == Filter(searchable[0], FStr(term));
      assert Resolve(m, searchable[0]).Ok?;
      assert ValueCondition(Resolve(m, searchable[0]).value, FStr(term)).Some?;
      assert Constrains(m, fs[0]);
    }
  }

  /** A search term never fails on its own: with no searchable fields the query is the soft-delete filter alone. */
  lemma GlobalSearchWithoutFields(m: Model, q: Query, term: string)
    ensures GlobalFilterQuery(m, [], q, term) == Ok(if term == "" then q else ExcludeDeleted(m, q))
  {
    assert SearchFilters([], term) == [];
  }

  // ----- what one filter value matches -----

  /** One `%piece%` pattern without wildcards or spaces: the folded text contains the folded piece. */
  lemma PieceSemantics(db: Tables, row: Record, a: Access, piece: string)
    requires Literal(piece) && ' ' !in piece
    ensures SubstringPattern(piece) == "%" + piece + "%"
    ensures var v := FieldValue(db, row, a);
      Holds(db, row, ILikeCond(a, SubstringPattern(piece))) <==> v != VNull && Contains(Fold(Text(v)), Fold(piece))
  {
    assert Replace(piece, ' ', '%') == piece;
    ILikeSubstring(piece, Text(FieldValue(db, row, a)));
  }

  /** A plain term matches the rows whose text contains it, ignoring ASCII case; NULL never matches. */
  lemma PlainTermSemantics(db: Tables, row: Record, a: Access, s: string)
    requires s != "" && s != "NULL" && ',' !in s && ' ' !in s && Literal(s)
    ensures ValueCondition(a, FStr(s)) == Some(ILikeCond(a, "%" + s + "%"))
    ensures var v := FieldValue(db, row, a);
      Holds(db, row, ValueCondition(a, FStr(s)).value) <==> v != VNull && Contains(Fold(Text(v)), Fold(s))
  {
    PieceSemantics(db, row, a, s);
  }

  /** Two words separated by a space match a row whose text has the first word and, later, the second. */
  lemma SpacedTermMatches(db: Tables, row: Record, a: Access, x: string, y: string, u: string, w: string, z: string)
    requires Literal(x) && Literal(y) && ' ' !in x && ' ' !in y && ',' !in x && ',' !in y
    requires FieldValue(db, row, a) != VNull
    requires Fold(Text(FieldValue(db, row, a))) == u + Fold(x) + w + Fold(y) + z
    ensures ValueCondition(a, FStr(x + " " + y)).Some?
    ensures Holds(db, row, ValueCondition(a, FStr(x + " " + y)).value)
  {
    var s := x + " " + y;
    assert s[|x|] == ' ';
    assert ',' !in s by {
      forall i | 0 <= i < |s| ensures s[i] != ',' {
        if i < |x| { assert s[i] == x[i]; } else if i > |x| { assert s[i] == y[i - |x| - 1]; }
      }
    }
    assert Replace(s, ' ', '%') == x + "%" + y by {
      var r := Replace(s, ' ', '%');
      forall i | 0 <= i < |s| ensures r[i] == (x + "%" + y)[i] {
        if i < |x| { assert s[i] == x[i]; } else if i > |x| { assert s[i] == y[i - |x| - 1]; }
      }
    }
    var p := "%" + x + "%" + y + "%";
    assert SubstringPattern(s) == p;
    FoldAppend("%" + x + "%" + y, "%");
    FoldAppend("%" + x + "%", y);
    FoldAppend("%" + x, "%");
    FoldAppend("%", x);
    assert Fold("%") == "%";
    assert Fold(p) == "%" + Fold(x) + "%" + Fold(y) + "%";
    FoldLiteral(x);
    FoldLiteral(y);
    TwoWordsInOrder(Fold(x), Fold(y), u, w, z);
  }

  /** "NULL", as a string or as a list element, is the null test. */
  lemma NullTermSemantics(db: Tables, row: Record, a: Access)
    ensures ValueCondition(a, FStr("NULL")) == Some(IsNull(a))
    ensures Holds(db, row, ListItem(a, "NULL")) <==> FieldValue(db, row, a) == VNull
  {
    var cs := [IsNull(a)];
    assert ListItem(a, "NULL") == AnyOf(cs);
    assert cs[0] == IsNull(a);
    assert Holds(db, row, AnyOf(cs)) <==> Holds(db, row, cs[0]);
  }

  /** An empty string imposes nothing, but its key must still resolve. */
  lemma EmptyTermIgnored(m: Model, key: string)
    ensures !Constrains(m, Filter(key, FStr("")))
  {
    assert ',' !in "";
  }

  /**
   * A comma-separated string matches where the text contains one of its
   * pieces, each stripped of surrounding whitespace.
   */
  lemma CommaTermSemantics(db: Tables, row: Record, a: Access, s: string)
    requires ',' in s
    requires forall k :: 0 <= k < |SplitComma(s)| ==> Literal(Strip(SplitComma(s)[k])) && ' ' !in Strip(SplitComma(s)[k])
    ensures var v := FieldValue(db, row, a);
      Holds(db, row, ValueCondition(a, FStr(s)).value) <==>
        v != VNull && exists k :: 0 <= k < |SplitComma(s)| && Contains(Fold(Text(v)), Fold(Strip(SplitComma(s)[k])))
  {
    var parts := SplitComma(s);
    var cs := CommaTerms(a, parts);
    var v := FieldValue(db, row, a);
    assert ValueCondition(a, FStr(s)) == Some(AnyOf(cs));
    forall k | 0 <= k < |parts|
      ensures Holds(db, row, cs[k]) <==> v != VNull && Contains(Fold(Text(v)), Fold(Strip(parts[k])))
    {
      PieceSemantics(db, row, a, Strip(parts[k]));
    }
  }

  /** A blank piece becomes the pattern "%%". */
  lemma BlankPattern()
    ensures SubstringPattern("") == "%%"
  {
    var e: string := [];
    assert Replace(e, ' ', '%') == e;
  }

  /** A comma string with a blank piece ("a," or "a, ,b") matches every row whose field is not NULL. */
  lemma BlankPieceMatchesAll(db: Tables, row: Record, a: Access, s: string, k: nat)
    requires ',' in s && k < |SplitComma(s)| && Strip(SplitComma(s)[k]) == ""
    ensures Holds(db, row, ValueCondition(a, FStr(s)).value) <==> FieldValue(db, row, a) != VNull
  {
    var cs := CommaTerms(a, SplitComma(s));
    assert ValueCondition(a, FStr(s)) == Some(AnyOf(cs));
    if FieldValue(db, row, a) != VNull {
      BlankPattern();
      assert cs[k] == ILikeCond(a, "%%");
      MatchAllHolds(db, row, a, cs, k);
    } else {
      NullFieldMatchesNoPiece(db, row, a, cs);
    }
  }

  /** ILIKE alternatives one of which is "%%" hold where the field is not NULL. */
  lemma MatchAllHolds(db: Tables, row: Record, a: Access, cs: seq<Cond>, k: nat)
    requires k < |cs| && cs[k] == ILikeCond(a, "%%") && FieldValue(db, row, a) != VNull
    ensures Holds(db, row, AnyOf(cs))
  {
    ILikeDoublePercent(Text(FieldValue(db, row, a)));
    assert Holds(db, row, cs[k]);
  }

  /** ILIKE alternatives on a NULL field: none holds (ILIKE on NULL is unknown). */
  lemma NullFieldMatchesNoPiece(db: Tables, row: Record, a: Access, cs: seq<Cond>)
    requires forall j :: 0 <= j < |cs| ==> cs[j].ILikeCond? && cs[j].a == a
    requires FieldValue(db, row, a) == VNull
    ensures !Holds(db, row, AnyOf(cs))
  {
    forall j | 0 <= j < |cs| ensures !Holds(db, row, cs[j]) {
    }
  }

  /**
   * A multi-select list matches where one element is "NULL" and the field is
   * NULL, or the field's text equals an element up to ASCII case.
   */
  lemma ListSemantics(db: Tables, row: Record, a: Access, items: seq<string>)
    requires forall i :: 0 <= i < |items| ==> Literal(items[i]) && ' ' !in items[i]
    ensures var v := FieldValue(db, row, a);
      Holds(db, row, ValueCondition(a, FList(items)).value) <==>
        exists i :: 0 <= i < |items| &&
          ((items[i] == "NULL" && v == VNull) || (items[i] != "NULL" && v != VNull && Fold(Text(v)) == Fold(items[i])))
  {
    var v := FieldValue(db, row, a);
    var cs := ListTerms(a, items);
    forall i | 0 <= i < |items|
      ensures Holds(db, row, cs[i]) <==>
        ((items[i] == "NULL" && v == VNull) || (items[i] != "NULL" && v != VNull && Fold(Text(v)) == Fold(items[i])))
    {
      if items[i] == "NULL" {
        NullTermSemantics(db, row, a);
      } else {
        assert Replace(items[i], ' ', '_') == items[i];
        ILikeExact(items[i], Text(v));
        var alts := [ILikeCond(a, items[i]), ILikeCond(a, items[i])];
        assert cs[i] == AnyOf(alts);
        assert Holds(db, row, cs[i]) <==> Holds(db, row, alts[0]);
      }
    }
  }

  /** In a multi-select element a space also matches any single character ("a b" selects "a_b" and "a-b"). */
  lemma ListSpaceMatchesAnyChar(db: Tables, row: Record, a: Access, x: string, y: string, c: char)
    requires Literal(x) && Literal(y) && ' ' !in x && ' ' !in y
    requires FieldValue(db, row, a) != VNull
    requires Fold(Text(FieldValue(db, row, a))) == Fold(x) + [c] + Fold(y)
    ensures Holds(db, row, ListItem(a, x + " " + y))
  {
    var item := x + " " + y;
    assert item != "NULL" by {
      assert item[|x|] == ' ';
    }
    var under := Replace(item, ' ', '_');
    assert under == x + "_" + y by {
      forall i | 0 <= i < |item| ensures under[i] == (x + "_" + y)[i] {
        if i < |x| { assert item[i] == x[i]; } else if i > |x| { assert item[i] == y[i - |x| - 1]; }
      }
    }
    FoldAppend(x + "_", y);
    FoldAppend(x, "_");
    assert Fold("_") == "_";
    FoldLiteral(x);
    FoldLiteral(y);
    OneCharBetween(Fold(x), Fold(y), c);
    var alts := [ILikeCond(a, item), ILikeCond(a, under)];
    assert ListItem(a, item) == AnyOf(alts);
    assert Holds(db, row, alts[1]);
  }

  // ----- sorting -----

  /** A sorting dict is accepted exactly when every key resolves and every token is asc, desc or shortest in any case; keys keep the given order. */
  lemma {:induction false} CollectOrderSpec(m: Model, joins: seq<Relation>, es: seq<SortEntry>)
    ensures CollectOrder(m, joins, es).Ok? <==>
      forall i :: 0 <= i < |es| ==> Resolve(m, es[i].key).Ok? && ParseDirection(es[i].direction).Ok?
    ensures CollectOrder(m, joins, es).Ok? ==>
      var o := CollectOrder(m, joins, es).value;
      && joins <= o.joins
      && |o.keys| == |es|
      && forall i :: 0 <= i < |es| ==> o.keys[i] == OrderKey(Resolve(m, es[i].key).value, ParseDirection(es[i].direction).value)
    decreases |es|
  {
    if es != [] {
      var n := |es| - 1;
      var init := es[..n];
      CollectOrderSpec(m, joins, init);
      assert forall i :: 0 <= i < n ==> init[i] == es[i];
      var last := es[n];
      if CollectOrder(m, joins, init).Ok? && Resolve(m, last.key).Ok? && ParseDirection(last.direction).Ok? {
        var oi := CollectOrder(m, joins, init).value;
        var k := OrderKey(Resolve(m, last.key).value, ParseDirection(last.direction).value);
        assert CollectOrder(m, joins, es) == Ok(Ordered(AddJoin(oi.joins, k.a), oi.keys + [k]));
        var o := CollectOrder(m, joins, es).value;
        assert o.keys == oi.keys + [k];
        assert forall i :: 0 <= i < n ==> o.keys[i] == oi.keys[i] == OrderKey(Resolve(m, es[i].key).value, ParseDirection(es[i].direction).value);
        assert o.keys[n] == k;
      } else {
        assert CollectOrder(m, joins, es).Err?;
        if CollectOrder(m, joins, init).Err? {
          var j :| 0 <= j < n && !(Resolve(m, init[j].key).Ok? && ParseDirection(init[j].direction).Ok?);
          assert es[j] == init[j];
        } else {
          assert !(Resolve(m, es[n].key).Ok? && ParseDirection(es[n].direction).Ok?);
        }
      }
    }
  }

  lemma SortQuerySpec(m: Model, q: Query, es: seq<SortEntry>)
    requires es != []
    ensures SortQuery(m, q, es).Ok? <==>
      forall i :: 0 <= i < |es| ==> Resolve(m, es[i].key).Ok? && ParseDirection(es[i].direction).Ok?
    ensures SortQuery(m, q, es).Ok? ==>
      var r := SortQuery(m, q, es).value;
      && r.where == q.where && q.joins <= r.joins
      && |r.orderBy| == |q.orderBy| + |es|
      && r.orderBy[..|q.orderBy|] == q.orderBy
      && forall i :: 0 <= i < |es| ==>
           r.orderBy[|q.orderBy| + i] == OrderKey(Resolve(m, es[i].key).value, ParseDirection(es[i].direction).value)
  {
    CollectOrderSpec(m, q.joins, es);
  }

  /** Every registered kind has created_at, so with no sorting the newest rows come first. */
  lemma DefaultOrderNewestFirst(m: Model, q: Query)
    requires m in Registry()
    ensures SortQuery(m, q, []) == Ok(q.(orderBy := q.orderBy + [OrderKey(Direct("created_at"), Desc)]))
  {
    assert HasColumn(m, "created_at") by {
      if m == UserModel() {
        assert UserModel().columns[1] == "created_at";
      } else if m == PartModel() {
        assert PartModel().columns[3] == "created_at";
      } else {
        assert CommentModel().columns[3] == "created_at";
      }
    }
  }

  /** `shortest` puts non-NULL values in order of the length of their text, and NULL after them. */
  lemma ShortestByLength(v: Value, w: Value)
    ensures v != VNull && w != VNull ==> (CmpInts(LengthKey(v), LengthKey(w)) <= 0 <==> |Text(v)| <= |Text(w)|)
    ensures v != VNull ==> CmpInts(LengthKey(v), LengthKey(VNull)) < 0
  {
    if v != VNull && w != VNull {
      CmpTagged(|Text(v)|, |Text(w)|);
    }
  }

  /** Two keys tagged 0 compare as their second components. */
  lemma CmpTagged(a: int, b: int)
    ensures CmpInts([0, a], [0, b]) <= 0 <==> a <= b
  {
    var x, y := [0, a], [0, b];
    assert x[1..] == [a] && y[1..] == [b];
    assert CmpInts(x, y) == CmpInts([a], [b]);
    assert [a][1..] == [] && [b][1..] == [];
    assert a == b ==> CmpInts([a], [b]) == CmpInts([], []);
  }

  /** Ascending order puts NULL after every other value (so descending order puts it first). */
  lemma NullsLast(v: Value)
    requires v != VNull
    ensures CmpInts(ValueKey(v), ValueKey(VNull)) < 0
    ensures CmpInts(ValueKey(VNull), ValueKey(v)) > 0
  {
    CmpIntsFlip(ValueKey(v), ValueKey(VNull));
  }

  /** A descending key compares two rows as the ascending key compares them the other way round. */
  lemma DescendingReverses(db: Tables, k: OrderKey, r1: Record, r2: Record)
    requires k.dir == Desc
    ensures CmpKeys(Descending([k]), KeyVector(db, [k], r1), KeyVector(db, [k], r2)) ==
            CmpInts(KeyOf(db, k, r2), KeyOf(db, k, r1))
  {
    CmpIntsFlip(KeyOf(db, k, r1), KeyOf(db, k, r2));
  }

  /** Sorting three elements where the first belongs between the other two. */
  lemma SortThree<T>(key: T -> seq<seq<int>>, desc: seq<bool>, x: T, y: T, z: T)
    requires CmpKeys(desc, key(y), key(z)) <= 0
    requires CmpKeys(desc, key(x), key(y)) > 0 && CmpKeys(desc, key(x), key(z)) <= 0
    ensures Sort(key, desc, [x, y, z]) == [y, x, z]
  {
    assert Sort(key, desc, [z]) == [z] by {
      assert [z][1..] == [];
    }
    assert Sort(key, desc, [y, z]) == [y, z] by {
      assert [y, z][1..] == [z];
      InsertFront(key, desc, y, [z]);
    }
    assert Insert(key, desc, x, [y, z]) == [y, x, z] by {
      assert [y, z][1..] == [z];
      InsertPast(key, desc, x, [y, z]);
      InsertFront(key, desc, x, [z]);
    }
    assert [x, y, z][1..] == [y, z];
  }

  lemma InsertFront<T>(key: T -> seq<seq<int>>, desc: seq<bool>, x: T, s: seq<T>)
    requires s != [] && CmpKeys(desc, key(x), key(s[0])) <= 0
    ensures Insert(key, desc, x, s) == [x] + s
  {
  }

  lemma InsertPast<T>(key: T -> seq<seq<int>>, desc: seq<bool>, x: T, s: seq<T>)
    requires s != [] && CmpKeys(desc, key(x), key(s[0])) > 0
    ensures Insert(key, desc, x, s) == [s[0]] + Insert(key, desc, x, s[1..])
  {
  }

  lemma NameLengthKey(db: Tables, name: string)
    ensures RowKey(db, [OrderKey(Direct("name"), Shortest)])(map["name" := VStr(name)]) == [[0, |name|]]
  {
    var row: Record := map["name" := VStr(name)];
    var k := OrderKey(Direct("name"), Shortest);
    assert FieldValue(db, row, k.a) == VStr(name);
    assert KeyOf(db, k, row) == [0, |name|];
  }

  /** Sorting "AA", "A", "AAA" by shortest name gives "A", "AA", "AAA". */
  lemma ShortestExample(db: Tables)
    ensures var keys := [OrderKey(Direct("name"), Shortest)];
      var a2: Record := map["name" := VStr("AA")];
      var a1: Record := map["name" := VStr("A")];
      var a3: Record := map["name" := VStr("AAA")];
      Sort(RowKey(db, keys), Descending(keys), [a2, a1, a3]) == [a1, a2, a3]
  {
    var keys := [OrderKey(Direct("name"), Shortest)];
    var a2: Record := map["name" := VStr("AA")];
    var a1: Record := map["name" := VStr("A")];
    var a3: Record := map["name" := VStr("AAA")];
    var key := RowKey(db, keys);
    var desc := Descending(keys);
    assert desc == [false];
    NameLengthKey(db, "A");
    NameLengthKey(db, "AA");
    NameLengthKey(db, "AAA");
    assert key(a1) == [[0, 1]] && key(a2) == [[0, 2]] && key(a3) == [[0, 3]];
    var k1, k2, k3: seq<int> := [0, 1], [0, 2], [0, 3];
    assert CmpInts(k1, k3) == CmpInts(k1[1..], k3[1..]) == -1;
    assert CmpInts(k2, k1) == CmpInts(k2[1..], k1[1..]) == 1;
    assert CmpInts(k2, k3) == CmpInts(k2[1..], k3[1..]) == -1;
    assert CmpKeys(desc, [k1], [k3]) == -1;
    assert CmpKeys(desc, [k2], [k1]) == 1;
    assert CmpKeys(desc, [k2], [k3]) == -1;
    SortThree(key, desc, a2, a1, a3);
  }
}
