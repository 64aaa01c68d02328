/**
 * What a built query denotes over the tables: inner joins along many-to-one
 * foreign keys, WHERE conditions under SQL's null semantics, ORDER BY, and the
 * OFFSET/LIMIT window of a page.
 */
module Evaluation {
  import opened Wrappers
  import opened Models
  import opened Values
  import opened Like
  import opened Ordering
  import opened Query

  /** The database: table name to its rows, in storage order. */
  type Tables = map<string, seq<Record>>

  function Rows(db: Tables, table: string): seq<Record> {
    if table in db then db[table] else []
  }

  /** The first row whose `key` equals v. */
  function FirstWith(rows: seq<Record>, key: string, v: Value): (r: Option<Record>)
    ensures r.Some? ==> r.value in rows && Get(r.value, key) == v
    ensures r.None? ==> forall i :: 0 <= i < |rows| ==> Get(rows[i], key) != v
  {
    if rows == [] then None
    else if Get(rows[0], key) == v then Some(rows[0])
    else
      var r := FirstWith(rows[1..], key, v);
      assert r.None? ==> forall i :: 1 <= i < |rows| ==> rows[i] == rows[1..][i - 1];
      r
  }

  /** The row a many-to-one relation points at, by the foreign key's value; none for a null key. */
  function Related(db: Tables, rel: Relation, row: Record): (r: Option<Record>)
    ensures r.Some? ==> Get(row, rel.fk) != VNull && Get(r.value, "id") == Get(row, rel.fk)
    ensures r.Some? ==> r.value in Rows(db, rel.target.table)
  {
    var fk := Get(row, rel.fk);
    if fk == VNull then None else FirstWith(Rows(db, rel.target.table), "id", fk)
  }

  /** The value an attribute reference reads from a row (NULL through a missing related row). */
  function FieldValue(db: Tables, row: Record, a: Access): Value {
    match a
    case Direct(c) => Get(row, c)
    case Through(_, rel, c) =>
      match Related(db, rel, row)
      case None => VNull
      case Some(other) => Get(other, c)
  }

  /** Is a WHERE condition true for a row? Unknown (a NULL operand of ILIKE) counts as false. */
  predicate Holds(db: Tables, row: Record, c: Cond) {
    match c
    case IsNull(a) => FieldValue(db, row, a) == VNull
    case ILikeCond(a, p) =>
      var v := FieldValue(db, row, a);
      v != VNull && ILike(p, Text(v))
    case AnyOf(cs) => exists k :: 0 <= k < |cs| && Holds(db, row, cs[k])
    case AllOf(cs) => forall k :: 0 <= k < |cs| ==> Holds(db, row, cs[k])
  }

  /** Every joined relation finds its related row (an inner join keeps the row). */
  predicate JoinsHold(db: Tables, joins: seq<Relation>, row: Record) {
    forall k :: 0 <= k < |joins| ==> Related(db, joins[k], row).Some?
  }

  predicate AllHold(db: Tables, row: Record, cs: seq<Cond>) {
    forall k :: 0 <= k < |cs| ==> Holds(db, row, cs[k])
  }

  /** Does a row survive the query's inner joins and every WHERE condition? */
  predicate Matches(db: Tables, q: Query, row: Record) {
    JoinsHold(db, q.joins, row) && AllHold(db, row, q.where)
  }

  lemma AllHoldAppend(db: Tables, row: Record, a: seq<Cond>, b: seq<Cond>)
    ensures AllHold(db, row, a + b) <==> AllHold(db, row, a) && AllHold(db, row, b)
  {
    if AllHold(db, row, a) && AllHold(db, row, b) {
      forall k | 0 <= k < |a + b| ensures Holds(db, row, (a + b)[k]) {
        if k < |a| { assert (a + b)[k] == a[k]; } else { assert (a + b)[k] == b[k - |a|]; }
      }
    }
    if AllHold(db, row, a + b) {
      forall k | 0 <= k < |a| ensures Holds(db, row, a[k]) { assert (a + b)[k] == a[k]; }
      forall k | 0 <= k < |b| ensures Holds(db, row, b[k]) { assert (a + b)[|a| + k] == b[k]; }
    }
  }

  function FilterRows(db: Tables, q: Query, rows: seq<Record>): (r: seq<Record>)
    ensures |r| <= |rows| && multiset(r) <= multiset(rows)
    ensures forall x :: x in r <==> x in rows && Matches(db, q, x)
  {
    if rows == [] then []
    else
      assert rows == [rows[0]] + rows[1..];
      var rest := FilterRows(db, q, rows[1..]);
      if Matches(db, q, rows[0]) then [rows[0]] + rest else rest
  }

  function CodePoints(s: string): (r: seq<int>)
    ensures |r| == |s|
  {
    seq(|s|, i requires 0 <= i < |s| => s[i] as int)
  }

  /**
   * The sort key of a value: text by code point, times by instant, false
   * before true; NULL after every other value, so NULLs come last ascending
   * and first descending.
   */
  function ValueKey(v: Value): seq<int> {
    match v
    case VNull => [1]
    case VStr(s) => [0] + CodePoints(s)
    case VUuid(u) => [0] + CodePoints(u)
    case VTime(t, _) => [0, t]
    case VBool(b) => [0, if b then 1 else 0]
    case VEntity(_, _) => [0]
    case VDict(_) => [0]
  }

  /** The `shortest` key: length of the text cast, NULL last. */
  function LengthKey(v: Value): seq<int> {
    if v == VNull then [1] else [0, |Text(v)|]
  }

  function KeyOf(db: Tables, k: OrderKey, row: Record): seq<int> {
    var v := FieldValue(db, row, k.a);
    if k.dir == Shortest then LengthKey(v) else ValueKey(v)
  }

  function KeyVector(db: Tables, keys: seq<OrderKey>, row: Record): (r: seq<seq<int>>)
    ensures |r| == |keys| && forall i :: 0 <= i < |keys| ==> r[i] == KeyOf(db, keys[i], row)
  {
    seq(|keys|, i requires 0 <= i < |keys| => KeyOf(db, keys[i], row))
  }

  function Descending(keys: seq<OrderKey>): (r: seq<bool>)
    ensures |r| == |keys| && forall i :: 0 <= i < |keys| ==> r[i] == (keys[i].dir == Desc)
  {
    seq(|keys|, i requires 0 <= i < |keys| => keys[i].dir == Desc)
  }

  function RowKey(db: Tables, keys: seq<OrderKey>): Record -> seq<seq<int>> {
    row => KeyVector(db, keys, row)
  }

  /** The rows of the kind's table the query selects, in the query's order. */
  function Select(db: Tables, m: Model, q: Query): seq<Record> {
    Sort(RowKey(db, q.orderBy), Descending(q.orderBy), FilterRows(db, q, Rows(db, m.table)))
  }

  /** Select returns exactly the matching rows, each as often as stored, ordered by the keys. */
  lemma SelectSpec(db: Tables, m: Model, q: Query)
    ensures multiset(Select(db, m, q)) == multiset(FilterRows(db, q, Rows(db, m.table)))
    ensures forall x :: x in Select(db, m, q) <==> x in Rows(db, m.table) && Matches(db, q, x)
    ensures |Select(db, m, q)| <= |Rows(db, m.table)|
    ensures Sorted(RowKey(db, q.orderBy), Descending(q.orderBy), Select(db, m, q))
  {
    var filtered := FilterRows(db, q, Rows(db, m.table));
    var s := Sort(RowKey(db, q.orderBy), Descending(q.orderBy), filtered);
    assert s == Select(db, m, q);
    assert multiset(s) == multiset(filtered);
    forall x ensures x in s <==> x in filtered {
      assert x in s <==> x in multiset(s);
      assert x in filtered <==> x in multiset(filtered);
    }
    assert |s| == |multiset(s)| == |multiset(filtered)| == |filtered|;
    SortSorted(RowKey(db, q.orderBy), Descending(q.orderBy), filtered);
  }

  /** Python truthiness of an optional int: None and 0 are false. */
  predicate Truthy(o: Option<int>) {
    o.Some? && o.value != 0
  }

  function Min(a: int, b: int): int {
    if a < b then a else b
  }

  /** Where a page starts: the offset when it is given, capped at the row count. */
  function Start(offset: Option<int>, n: nat): (s: nat)
    requires !Truthy(offset) || offset.value >= 0
    ensures s <= n
  {
    if Truthy(offset) then Min(offset.value, n) else 0
  }

  /** OFFSET when the offset is truthy, then LIMIT when the limit is truthy; negative values fail. */
  function Window(rows: seq<Record>, offset: Option<int>, limit: Option<int>): (r: Result<seq<Record>>)
    ensures r.Err? <==> (Truthy(offset) && offset.value < 0) || (Truthy(limit) && limit.value < 0)
    ensures r.Ok? ==>
      var s := Start(offset, |rows|);
      && s + |r.value| <= |rows|
      && r.value == rows[s..s + |r.value|]
      && (Truthy(limit) ==> |r.value| == Min(limit.value, |rows| - s))
      && (!Truthy(limit) ==> s + |r.value| == |rows|)
  {
    if Truthy(offset) && offset.value < 0 then Err(DataError("OFFSET must not be negative"))
    else if Truthy(limit) && limit.value < 0 then Err(DataError("LIMIT must not be negative"))
    else
      var skipped := if Truthy(offset) then rows[Min(offset.value, |rows|)..] else rows;
      Ok(if Truthy(limit) then skipped[..Min(limit.value, |skipped|)] else skipped)
  }

  /** The response of a list request: the window asked for and the count before windowing. */
  datatype Page = Page(offset: Option<int>, limit: Option<int>, total: nat, data: seq<Record>)

  /** The specification of get_paginated_list over the tables. */
  function ListPage(db: Tables, m: Model, searchable: seq<string>, offset: Option<int>, limit: Option<int>,
                    fs: seq<Filter>, es: seq<SortEntry>, term: string): Result<Page>
  {
    match ListQuery(m, searchable, fs, es, term)
    case Err(e) => Err(e)
    case Ok(q) =>
      var all := Select(db, m, q);
      match Window(all, offset, limit)
      case Err(e) => Err(e)
      case Ok(data) => Ok(Page(offset, limit, |all|, data))
  }

  /** A contiguous slice of a sorted sequence is sorted. */
  lemma SliceSorted<T>(key: T -> seq<seq<int>>, desc: seq<bool>, s: seq<T>, i: nat, j: nat)
    requires i <= j <= |s| && Sorted(key, desc, s)
    ensures Sorted(key, desc, s[i..j])
  {
    forall a, b | 0 <= a < b < j - i
      ensures CmpKeys(desc, key(s[i..j][a]), key(s[i..j][b])) <= 0
    {
      assert s[i..j][a] == s[i + a] && s[i..j][b] == s[i + b];
    }
  }

  /** A window keeps rows of its input only, at most `limit` of them, in the input's order. */
  lemma WindowFacts(key: Record -> seq<seq<int>>, desc: seq<bool>, all: seq<Record>, offset: Option<int>, limit: Option<int>)
    requires Window(all, offset, limit).Ok?
    ensures var data := Window(all, offset, limit).value;
      && |data| <= |all|
      && (Truthy(limit) ==> |data| <= limit.value)
      && (forall x :: x in data ==> x in all)
      && (Sorted(key, desc, all) ==> Sorted(key, desc, data))
  {
    var data := Window(all, offset, limit).value;
    var s := Start(offset, |all|);
    assert data == all[s..s + |data|];
    if Sorted(key, desc, all) {
      SliceSorted(key, desc, all, s, s + |data|);
    }
    forall x | x in data ensures x in all {
      var k :| 0 <= k < |data| && data[k] == x;
      assert all[s + k] == x;
    }
  }

  /**
   * A page counts every matching row, holds at most `limit` of them, only
   * matching rows and in the query's order; it echoes the offset and limit,
   * and with neither of them truthy (so a limit of 0 too) it holds them all.
   */
  lemma ListPageSpec(db: Tables, m: Model, searchable: seq<string>, offset: Option<int>, limit: Option<int>,
                     fs: seq<Filter>, es: seq<SortEntry>, term: string)
    requires ListPage(db, m, searchable, offset, limit, fs, es, term).Ok?
    ensures var p := ListPage(db, m, searchable, offset, limit, fs, es, term).value;
      var q := ListQuery(m, searchable, fs, es, term).value;
      && p.total == |FilterRows(db, q, Rows(db, m.table))|
      && |p.data| <= p.total
      && (Truthy(limit) ==> |p.data| <= limit.value)
      && (forall x :: x in p.data ==> x in Rows(db, m.table) && Matches(db, q, x))
      && Sorted(RowKey(db, q.orderBy), Descending(q.orderBy), p.data)
      && p.offset == offset && p.limit == limit
      && p.data == Window(Select(db, m, q), offset, limit).value
      && (!Truthy(offset) && !Truthy(limit) ==> p.data == Select(db, m, q))
  {
    var q := ListQuery(m, searchable, fs, es, term).value;
    SelectSpec(db, m, q);
    var all := Select(db, m, q);
    if !Truthy(offset) && !Truthy(limit) {
      assert all[0..|all|] == all;
    }
    assert |all| == |multiset(all)| == |multiset(FilterRows(db, q, Rows(db, m.table)))|;
    WindowFacts(RowKey(db, q.orderBy), Descending(q.orderBy), all, offset, limit);
  }

  /** A list request fails on a bad filter or sort key or token, or on a negative truthy offset or limit. */
  lemma ListPageFails(db: Tables, m: Model, searchable: seq<string>, offset: Option<int>, limit: Option<int>,
                      fs: seq<Filter>, es: seq<SortEntry>, term: string)
    ensures ListPage(db, m, searchable, offset, limit, fs, es, term).Err? <==>
      || ListQuery(m, searchable, fs, es, term).Err?
      || (Truthy(offset) && offset.value < 0)
      || (Truthy(limit) && limit.value < 0)
  {
  }
}
