/**
 * The query builder of the generic repository: filters, sort keys and the
 * global search term, turned into a query value (joined relations, WHERE
 * conditions, ORDER BY keys). Each builder is a loop over the caller's
 * entries, proved equal to a recursive specification over a prefix of them.
 */
module Query {
  import opened Wrappers
  import opened Models
  import opened Values

  /** A resolved key: a column of the kind, or a column of a many-to-one related kind. */
  datatype Access = Direct(column: string) | Through(relation: string, rel: Relation, column: string)

  datatype Cond =
    | IsNull(a: Access)
    | ILikeCond(a: Access, pattern: string)
    | AnyOf(cs: seq<Cond>)
    | AllOf(cs: seq<Cond>)

  datatype Direction = Asc | Desc | Shortest

  datatype OrderKey = OrderKey(a: Access, dir: Direction)

  datatype Query = Query(joins: seq<Relation>, where: seq<Cond>, orderBy: seq<OrderKey>)

  /** A filter value: a string, or a list of strings from a multi-select. */
  datatype FilterValue = FStr(s: string) | FList(items: seq<string>)

  /** One entry of the filter dict, in the dict's order. */
  datatype Filter = Filter(key: string, value: FilterValue)

  /** One entry of the sorting dict: key and direction token. */
  datatype SortEntry = SortEntry(key: string, direction: string)

  const EmptyQuery := Query([], [], [])

  /** key.split(".", 1) for a key that contains a dot. */
  function SplitFirstDot(key: string): (r: (string, string))
    requires '.' in key
    ensures key == r.0 + "." + r.1 && '.' !in r.0
  {
    if key[0] == '.' then ([], key[1..])
    else
      var (a, b) := SplitFirstDot(key[1..]);
      assert key == [key[0]] + key[1..];
      ([key[0]] + a, b)
  }

  /** Key lookup: `relation.sub_field` through a relation, otherwise a column of the kind. */
  function Resolve(m: Model, key: string): (r: Result<Access>)
    ensures r.Ok? && '.' !in key ==> r.value == Direct(key) && HasColumn(m, key)
    ensures r.Ok? && '.' in key ==> r.value.Through?
    ensures r.Ok? && r.value.Through? ==>
      && r.value.relation in m.relations
      && r.value.rel == m.relations[r.value.relation]
      && HasColumn(r.value.rel.target, r.value.column)
      && key == r.value.relation + "." + r.value.column
  {
    if '.' in key then
      var (relation, sub) := SplitFirstDot(key);
      if relation !in m.relations then
        Err(AttributeError("Model " + m.className + " has no relationship " + relation))
      else if !HasColumn(m.relations[relation].target, sub) then
        Err(AttributeError("Related model " + m.relations[relation].target.className + " has no attribute " + sub))
      else Ok(Through(relation, m.relations[relation], sub))
    else if !HasColumn(m, key) then
      Err(AttributeError("Model " + m.className + " has no attribute " + key))
    else Ok(Direct(key))
  }

  /** `%term%` with every space turned into `%`. */
  function SubstringPattern(term: string): string {
    "%" + Replace(term, ' ', '%') + "%"
  }

  function CommaTerms(a: Access, parts: seq<string>): (cs: seq<Cond>)
    ensures |cs| == |parts|
    ensures forall k :: 0 <= k < |parts| ==> cs[k].ILikeCond? && cs[k].a == a
    ensures forall k :: 0 <= k < |parts| ==> cs[k] == ILikeCond(a, SubstringPattern(Strip(parts[k])))
  {
    seq(|parts|, k requires 0 <= k < |parts| => ILikeCond(a, SubstringPattern(Strip(parts[k]))))
  }

  /** One multi-select entry: "NULL" is the null test, anything else an exact ILIKE, verbatim or with `_` for spaces. */
  function ListItem(a: Access, item: string): Cond {
    if item == "NULL" then AnyOf([IsNull(a)])
    else AnyOf([ILikeCond(a, item), ILikeCond(a, Replace(item, ' ', '_'))])
  }

  function ListTerms(a: Access, items: seq<string>): (cs: seq<Cond>)
    ensures |cs| == |items|
    ensures forall k :: 0 <= k < |items| ==> cs[k] == ListItem(a, items[k])
  {
    seq(|items|, k requires 0 <= k < |items| => ListItem(a, items[k]))
  }

  /** The condition a filter value imposes on an attribute; None when it imposes none. */
  function ValueCondition(a: Access, v: FilterValue): Option<Cond> {
    match v
    case FStr(s) =>
      if ',' in s then Some(AnyOf(CommaTerms(a, SplitComma(s))))
      else if s == "NULL" then Some(IsNull(a))
      else if s == "" then None
      else Some(ILikeCond(a, SubstringPattern(s)))
    case FList(items) => Some(AnyOf(ListTerms(a, items)))
  }

  /** Is a relation's table already joined? */
  predicate Joined(joins: seq<Relation>, table: string) {
    exists k :: 0 <= k < |joins| && joins[k].target.table == table
  }

  /** A key through a relation joins the related table once. */
  function AddJoin(joins: seq<Relation>, a: Access): (r: seq<Relation>)
    ensures a.Through? ==> Joined(r, a.rel.target.table)
    ensures joins <= r
  {
    match a
    case Direct(_) => joins
    case Through(_, rel, _) =>
      if Joined(joins, rel.target.table) then joins
      else
        assert (joins + [rel])[|joins|] == rel;
        joins + [rel]
  }

  function OptionToSeq(c: Option<Cond>): seq<Cond> {
    match c
    case None => []
    case Some(x) => [x]
  }

  datatype Collected = Collected(joins: seq<Relation>, conds: seq<Cond>)

  /** The joins and conditions collected from a prefix of the filter entries; the first bad key fails. */
  function Collect(m: Model, joins: seq<Relation>, fs: seq<Filter>): Result<Collected>
    decreases |fs|
  {
    if fs == [] then Ok(Collected(joins, []))
    else
      var last := fs[|fs| - 1];
      match Collect(m, joins, fs[..|fs| - 1])
      case Err(e) => Err(e)
      case Ok(c) =>
        match Resolve(m, last.key)
        case Err(e) => Err(e)
        case Ok(a) => Ok(Collected(AddJoin(c.joins, a), c.conds + OptionToSeq(ValueCondition(a, last.value))))
  }

  /** Once a prefix of the entries fails, the whole collection fails with the same error. */
  lemma {:induction false} CollectErrExtends(m: Model, joins: seq<Relation>, fs: seq<Filter>, i: nat, e: Error)
    requires i <= |fs| && Collect(m, joins, fs[..i]) == Err(e)
    ensures Collect(m, joins, fs) == Err(e)
    decreases |fs| - i
  {
    if i < |fs| {
      assert fs[..i + 1][..i] == fs[..i];
      CollectErrExtends(m, joins, fs, i + 1, e);
    } else {
      assert fs[..i] == fs;
    }
  }

  function Combine(cs: seq<Cond>, andOperator: bool): seq<Cond> {
    if cs == [] then [] else if andOperator then [AllOf(cs)] else [AnyOf(cs)]
  }

  const DeletedAtIsNull := IsNull(Direct("deleted_at"))

  /** The soft-delete condition every query over a soft-deletable kind gets. */
  function ExcludeDeleted(m: Model, q: Query): Query {
    if m.softDeletable then q.(where := q.where + [DeletedAtIsNull]) else q
  }

  /** The specification of applying a filter dict (empty means "no filters"). */
  function FilterQuery(m: Model, q: Query, fs: seq<Filter>, andOperator: bool): Result<Query> {
    var q1 := ExcludeDeleted(m, q);
    if fs == [] then Ok(q1)
    else
      match Collect(m, q1.joins, fs)
      case Err(e) => Err(e)
      case Ok(c) => Ok(q1.(joins := c.joins, where := q1.where + Combine(c.conds, andOperator)))
  }

  /** Apply a filter dict: loop over its entries, collecting one condition per constraining value. */
  method ApplyFilters(m: Model, q: Query, fs: seq<Filter>, andOperator: bool) returns (r: Result<Query>)
    ensures r == FilterQuery(m, q, fs, andOperator)
  {
    var query := q;
    if m.softDeletable {
      query := query.(where := query.where + [DeletedAtIsNull]);
    }
    if fs == [] {
      return Ok(query);
    }
    var joins := query.joins;
    var conditions: seq<Cond> := [];
    var i := 0;
    while i < |fs|
      invariant 0 <= i <= |fs|
      invariant query == ExcludeDeleted(m, q)
      invariant Collect(m, query.joins, fs[..i]) == Ok(Collected(joins, conditions))
    {
      assert fs[..i + 1][..i] == fs[..i];
      var a := Resolve(m, fs[i].key);
      if a.Err? {
        CollectErrExtends(m, query.joins, fs, i + 1, a.error);
        return Err(a.error);
      }
      joins := AddJoin(joins, a.value);
      var c := ValueCondition(a.value, fs[i].value);
      var previous := conditions;
      if c.Some? {
        conditions := conditions + [c.value];
      }
      assert conditions == previous + OptionToSeq(c);
      i := i + 1;
    }
    assert fs[..i] == fs;
    assert Collect(m, query.joins, fs) == Ok(Collected(joins, conditions));
    assert FilterQuery(m, q, fs, andOperator) == Ok(query.(joins := joins, where := query.where + Combine(conditions, andOperator)));
    if conditions != [] && andOperator {
      query := query.(joins := joins, where := query.where + [AllOf(conditions)]);
    } else if conditions != [] {
      query := query.(joins := joins, where := query.where + [AnyOf(conditions)]);
    } else {
      assert query.where + [] == query.where;
      query := query.(joins := joins);
    }
    return Ok(query);
  }

  /** One filter entry per searchable field, all carrying the search term. */
  function SearchFilters(fields: seq<string>, term: string): (fs: seq<Filter>)
    ensures |fs| == |fields|
    ensures forall k :: 0 <= k < |fields| ==> fs[k] == Filter(fields[k], FStr(term))
  {
    seq(|fields|, k requires 0 <= k < |fields| => Filter(fields[k], FStr(term)))
  }

  /** The specification of the global search: OR the term over the searchable fields. */
  function GlobalFilterQuery(m: Model, searchable: seq<string>, q: Query, term: string): Result<Query> {
    if term == "" then Ok(q)
    else FilterQuery(m, q, SearchFilters(searchable, term), false)
  }

  method ApplyGlobalFilter(m: Model, searchable: seq<string>, q: Query, term: string) returns (r: Result<Query>)
    ensures r == GlobalFilterQuery(m, searchable, q, term)
  {
    if term == "" {
      return Ok(q);
    }
    var fs: seq<Filter> := [];
    var i := 0;
    while i < |searchable|
      invariant 0 <= i <= |searchable|
      invariant fs == SearchFilters(searchable[..i], term)
    {
      fs := fs + [Filter(searchable[i], FStr(term))];
      i := i + 1;
    }
    assert searchable[..i] == searchable;
    r := ApplyFilters(m, q, fs, false);
  }

  /** The direction token, compared in lower case. */
  function ParseDirection(token: string): (r: Result<Direction>)
    ensures r.Ok? <==> LowerAscii(token) in {"asc", "desc", "shortest"}
    ensures r.Err? ==> r.error.ValueError?
  {
    var t := LowerAscii(token);
    if t == "asc" then Ok(Asc)
    else if t == "desc" then Ok(Desc)
    else if t == "shortest" then Ok(Shortest)
    else Err(ValueError("Invalid sorting value '" + token + "'. Use 'asc' or 'desc'."))
  }

  /**
   * The token is read whatever its case: "DESC" and "Shortest" are accepted,
   * while a longer word such as "ascending" is a ValueError.
   */
  lemma DirectionAnyCase()
    ensures ParseDirection("DESC") == Ok(Desc)
    ensures ParseDirection("Shortest") == Ok(Shortest)
    ensures ParseDirection("aSc") == Ok(Asc)
    ensures ParseDirection("ascending").Err?
  {
    LowerAsciiSpells("DESC", "desc");
    LowerAsciiSpells("Shortest", "shortest");
    LowerAsciiSpells("aSc", "asc");
  }

  datatype Ordered = Ordered(joins: seq<Relation>, keys: seq<OrderKey>)

  /** The joins and order keys from a prefix of the sort entries; the first bad key or token fails. */
  function CollectOrder(m: Model, joins: seq<Relation>, es: seq<SortEntry>): Result<Ordered>
    decreases |es|
  {
    if es == [] then Ok(Ordered(joins, []))
    else
      var last := es[|es| - 1];
      match CollectOrder(m, joins, es[..|es| - 1])
      case Err(e) => Err(e)
      case Ok(o) =>
        match Resolve(m, last.key)
        case Err(e) => Err(e)
        case Ok(a) =>
          match ParseDirection(last.direction)
          case Err(e) => Err(e)
          case Ok(d) => Ok(Ordered(AddJoin(o.joins, a), o.keys + [OrderKey(a, d)]))
  }

  lemma {:induction false} CollectOrderErrExtends(m: Model, joins: seq<Relation>, es: seq<SortEntry>, i: nat, e: Error)
    requires i <= |es| && CollectOrder(m, joins, es[..i]) == Err(e)
    ensures CollectOrder(m, joins, es) == Err(e)
    decreases |es| - i
  {
    if i < |es| {
      assert es[..i + 1][..i] == es[..i];
      CollectOrderErrExtends(m, joins, es, i + 1, e);
    } else {
      assert es[..i] == es;
    }
  }

  /** The fallback when no sorting is given: created_at descending, else title, else name. */
  function DefaultOrder(m: Model, q: Query): Result<Query> {
    if HasColumn(m, "created_at") then Ok(q.(orderBy := q.orderBy + [OrderKey(Direct("created_at"), Desc)]))
    else if HasColumn(m, "title") then Ok(q.(orderBy := q.orderBy + [OrderKey(Direct("title"), Asc)]))
    else if HasColumn(m, "id") then
      if HasColumn(m, "name") then Ok(q.(orderBy := q.orderBy + [OrderKey(Direct("name"), Asc)]))
      else Err(AttributeError("type object '" + m.className + "' has no attribute 'name'"))
    else Ok(q)
  }

  /** The specification of applying a sorting dict (empty means "no sorting"). */
  function SortQuery(m: Model, q: Query, es: seq<SortEntry>): Result<Query> {
    if es == [] then DefaultOrder(m, q)
    else
      match CollectOrder(m, q.joins, es)
      case Err(e) => Err(e)
      case Ok(o) => Ok(q.(joins := o.joins, orderBy := q.orderBy + o.keys))
  }

  method ApplySorting(m: Model, q: Query, es: seq<SortEntry>) returns (r: Result<Query>)
    ensures r == SortQuery(m, q, es)
  {
    if es == [] {
      return DefaultOrder(m, q);
    }
    var joins := q.joins;
    var keys: seq<OrderKey> := [];
    var i := 0;
    while i < |es|
      invariant 0 <= i <= |es|
      invariant CollectOrder(m, q.joins, es[..i]) == Ok(Ordered(joins, keys))
    {
      assert es[..i + 1][..i] == es[..i];
      var a := Resolve(m, es[i].key);
      if a.Err? {
        CollectOrderErrExtends(m, q.joins, es, i + 1, a.error);
        return Err(a.error);
      }
      joins := AddJoin(joins, a.value);
      var d := ParseDirection(es[i].direction);
      if d.Err? {
        CollectOrderErrExtends(m, q.joins, es, i + 1, d.error);
        return Err(d.error);
      }
      keys := keys + [OrderKey(a.value, d.value)];
      i := i + 1;
    }
    assert es[..i] == es;
    return Ok(q.(joins := joins, orderBy := q.orderBy + keys));
  }

  /** get_paginated_list's query: filters (AND), then sorting, then the global search. */
  function ListQuery(m: Model, searchable: seq<string>, fs: seq<Filter>, es: seq<SortEntry>, term: string): Result<Query> {
    match FilterQuery(m, EmptyQuery, fs, true)
    case Err(e) => Err(e)
    case Ok(q1) =>
      match SortQuery(m, q1, es)
      case Err(e) => Err(e)
      case Ok(q2) => GlobalFilterQuery(m, searchable, q2, term)
  }
}
