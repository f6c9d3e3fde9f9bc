/**
 * The query record of the lister (`_query`, src/useLister.ts:27) and what
 * the bulk operations make of it: `apply`, `reset` and `parseJson` as
 * functions of the cells and the query, the derived views, and the hash.
 */
module Query {
  import opened Wrappers
  import opened Json
  import opened Options
  import Codec

  /**
   * The six cells (src/useLister.ts:49-62). Page and limit only ever
   * receive numbers; sort, order and search hold whatever non-null value
   * `reset` or `parseJson` last stored in them.
   */
  datatype Cells = Cells(page: int, limit: int, sort: Json, order: Json, search: Json, filters: Record)

  /** The value a cell contributes to the query under its key. */
  function CellValue(c: Cells, f: Trigger): Json {
    match f
    case Page => Int(c.page)
    case Limit => Int(c.limit)
    case Sort => c.sort
    case Order => c.order
    case Search => c.search
    case Filters => Obj(c.filters)
  }

  const ParamKeys: set<string> := {"page", "limit", "sort", "order", "search", "filters"}

  /** The parameter keys spelled out. */
  lemma KeyNames()
    ensures Key(Page) == "page" && Key(Limit) == "limit" && Key(Sort) == "sort"
    ensures Key(Order) == "order" && Key(Search) == "search" && Key(Filters) == "filters"
  {
  }

  /** The six parameter entries that `apply` writes (src/useLister.ts:109-114). */
  function Params(c: Cells): (p: Record)
    ensures p.Keys == ParamKeys
    ensures forall f :: Key(f) in p && p[Key(f)] == CellValue(c, f)
  {
    map["page" := Int(c.page), "limit" := Int(c.limit), "sort" := c.sort,
        "order" := c.order, "search" := c.search, "filters" := Obj(c.filters)]
  }

  /**
   * `apply` (src/useLister.ts:108-115): every parameter key takes its
   * cell's value; every other key (`data`, `total`, ...) is left as it was.
   */
  function Applied(q: Record, c: Cells): (r: Record)
    ensures forall f :: Key(f) in r && r[Key(f)] == CellValue(c, f)
    ensures forall k :: k !in ParamKeys ==> (k in r <==> k in q)
    ensures forall k :: k !in ParamKeys && k in q ==> r[k] == q[k]
  {
    q + Params(c)
  }

  /** The six writes of `apply`, one key at a time, in source order. */
  lemma AppliedSteps(q: Record, c: Cells)
    ensures Applied(q, c) == q["page" := Int(c.page)]["limit" := Int(c.limit)]["sort" := c.sort]
                              ["order" := c.order]["search" := c.search]["filters" := Obj(c.filters)]
  {
    var w := q["page" := Int(c.page)]["limit" := Int(c.limit)]["sort" := c.sort]
              ["order" := c.order]["search" := c.search]["filters" := Obj(c.filters)];
    assert Applied(q, c).Keys == w.Keys;
  }

  /** A second `apply` with no cell changed in between leaves the query as it is. */
  lemma ApplyIdempotent(q: Record, c: Cells)
    ensures Applied(Applied(q, c), c) == Applied(q, c)
  {
  }

  /** The `limit` setter's allow-list test (src/useLister.ts:275): an empty list allows everything. */
  predicate LimitAllowed(limits: seq<int>, v: int) {
    |limits| == 0 || v in limits
  }

  /** The `sort` setter's allow-list test (src/useLister.ts:289); only strings can be listed. */
  predicate SortAllowed(sorts: seq<string>, v: Json) {
    |sorts| == 0 || (v.Str? && v.s in sorts)
  }

  /** Sort, order and search hold neither null nor undefined, as the defaults do. */
  predicate TextsSet(c: Cells) {
    IsVal(c.sort) && IsVal(c.order) && IsVal(c.search)
  }

  /**
   * `reset` (src/useLister.ts:65-107): page and limit come from the query
   * when it holds an integer there, sort, order and search when it holds a
   * non-null value, filters are a copy of the query's non-null value; the
   * options' defaults stand in otherwise. Limit and sort go through their
   * setters, so a value outside a non-empty allow-list leaves the cell as
   * it was.
   */
  function ResetCells(c: Cells, o: Resolved, limits: seq<int>, sorts: seq<string>, q: Record): (r: Cells)
    ensures LimitAllowed(limits, r.limit) || r.limit == c.limit
    ensures SortAllowed(sorts, r.sort) || r.sort == c.sort
    ensures IsVal(r.order) && IsVal(r.search)
    ensures TextsSet(c) ==> TextsSet(r)
  {
    var page := if Prop(q, "page").Int? then Prop(q, "page").i else o.page;
    var limit := if Prop(q, "limit").Int? then Prop(q, "limit").i else o.limit;
    var sort := if IsVal(Prop(q, "sort")) then Prop(q, "sort") else Str(o.sort);
    var order := if IsVal(Prop(q, "order")) then Prop(q, "order") else Str(o.order);
    var search := if IsVal(Prop(q, "search")) then Prop(q, "search") else Str(o.search);
    var filters := ObjectAssign(if IsVal(Prop(q, "filters")) then Prop(q, "filters") else Obj(o.filters));
    Cells(page, if LimitAllowed(limits, limit) then limit else c.limit,
          if SortAllowed(sorts, sort) then sort else c.sort, order, search, filters)
  }

  /**
   * Where `reset` takes page, limit and sort from: the query's integer
   * (or non-null) value when it holds one, the option's default otherwise,
   * provided the allow-list accepts it.
   */
  lemma ResetTakesNumbers(c: Cells, o: Resolved, limits: seq<int>, sorts: seq<string>, q: Record)
    ensures var r := ResetCells(c, o, limits, sorts, q);
      && (Prop(q, "page").Int? ==> r.page == q["page"].i)
      && (!Prop(q, "page").Int? ==> r.page == o.page)
      && (Prop(q, "limit").Int? && LimitAllowed(limits, q["limit"].i) ==> r.limit == q["limit"].i)
      && (!Prop(q, "limit").Int? && LimitAllowed(limits, o.limit) ==> r.limit == o.limit)
      && (IsVal(Prop(q, "sort")) && SortAllowed(sorts, q["sort"]) ==> r.sort == q["sort"])
      && (!IsVal(Prop(q, "sort")) && SortAllowed(sorts, Str(o.sort)) ==> r.sort == Str(o.sort))
  {
  }

  /**
   * Where `reset` takes order, search and filters from: the query's
   * non-null value when it holds one, the option's default otherwise; the
   * filters are a copy either way.
   */
  lemma ResetTakesTexts(c: Cells, o: Resolved, limits: seq<int>, sorts: seq<string>, q: Record)
    ensures var r := ResetCells(c, o, limits, sorts, q);
      && (IsVal(Prop(q, "order")) ==> r.order == q["order"])
      && (!IsVal(Prop(q, "order")) ==> r.order == Str(o.order))
      && (IsVal(Prop(q, "search")) ==> r.search == q["search"])
      && (!IsVal(Prop(q, "search")) ==> r.search == Str(o.search))
      && (IsVal(Prop(q, "filters")) ==> r.filters == ObjectAssign(q["filters"]))
      && (!IsVal(Prop(q, "filters")) ==> r.filters == o.filters)
  {
  }

  /**
   * Reset after apply restores the cells that were applied, whatever the
   * cells held in between, provided the allow-lists accept them and sort,
   * order and search are not null.
   */
  lemma ResetAfterApply(c: Cells, other: Cells, o: Resolved, limits: seq<int>, sorts: seq<string>, q: Record)
    requires LimitAllowed(limits, c.limit) && SortAllowed(sorts, c.sort)
    requires TextsSet(c)
    ensures ResetCells(other, o, limits, sorts, Applied(q, c)) == c
  {
    var a := Applied(q, c);
    assert a[Key(Page)] == Int(c.page) && a[Key(Limit)] == Int(c.limit);
    assert a[Key(Sort)] == c.sort && a[Key(Order)] == c.order && a[Key(Search)] == c.search;
    assert a[Key(Filters)] == Obj(c.filters);
  }

  /** Resetting twice from the same query is the same as resetting once. */
  lemma ResetIdempotent(c: Cells, o: Resolved, limits: seq<int>, sorts: seq<string>, q: Record)
    ensures ResetCells(ResetCells(c, o, limits, sorts, q), o, limits, sorts, q) == ResetCells(c, o, limits, sorts, q)
  {
  }

  /**
   * Whether `parseJson` takes the payload's value for a parameter
   * (src/useLister.ts:121, 124, 127, 130, 133, 136): an integer page or
   * limit, a truthy sort, an order of "asc" or "desc", a search other than
   * null or undefined, an object (or array) of filters.
   */
  predicate Accepted(d: Record, f: Trigger) {
    var v := Prop(d, Key(f));
    match f
    case Page => v.Int?
    case Limit => v.Int?
    case Sort => Truthy(v)
    case Order => v == Str("asc") || v == Str("desc")
    case Search => IsVal(v)
    case Filters => IsObject(v)
  }

  /**
   * The cells after `parseJson` of a record `d`: each accepted value is
   * stored (limit and sort through their allow-lists), every other cell
   * keeps its value.
   */
  function IngestCells(c: Cells, limits: seq<int>, sorts: seq<string>, d: Record): (r: Cells)
    ensures TextsSet(c) ==> TextsSet(r)
  {
    Cells(
      if Accepted(d, Page) then d["page"].i else c.page,
      if Accepted(d, Limit) && LimitAllowed(limits, d["limit"].i) then d["limit"].i else c.limit,
      if Accepted(d, Sort) && SortAllowed(sorts, d["sort"]) then d["sort"] else c.sort,
      if Accepted(d, Order) then d["order"] else c.order,
      if Accepted(d, Search) then d["search"] else c.search,
      if Accepted(d, Filters) then ObjectAssign(d["filters"]) else c.filters)
  }

  /**
   * `parseJson` moves a cell only to a valid payload value: an integer
   * page or limit, a truthy sort, "asc" or "desc", a non-null search, a copy
   * of object filters; limit and sort only within their allow-lists.
   */
  lemma IngestTakesValid(c: Cells, limits: seq<int>, sorts: seq<string>, d: Record)
    ensures var r := IngestCells(c, limits, sorts, d);
      && (r.page != c.page ==> Prop(d, "page") == Int(r.page))
      && (r.limit != c.limit ==> Prop(d, "limit") == Int(r.limit) && LimitAllowed(limits, r.limit))
      && (r.sort != c.sort ==> Prop(d, "sort") == r.sort && Truthy(r.sort) && SortAllowed(sorts, r.sort))
      && (r.order != c.order ==> Prop(d, "order") == r.order && (r.order == Str("asc") || r.order == Str("desc")))
      && (r.search != c.search ==> Prop(d, "search") == r.search && IsVal(r.search))
      && (r.filters != c.filters ==> IsObject(Prop(d, "filters")) && r.filters == ObjectAssign(Prop(d, "filters")))
  {
  }

  /**
   * One parameter's block of `parseJson`: an accepted payload value is
   * offered to the cell's setter (so limit and sort still pass their
   * allow-lists); every other cell is left alone.
   */
  function Adopted(c: Cells, limits: seq<int>, sorts: seq<string>, d: Record, f: Trigger): (r: Cells)
    ensures forall g :: g != f ==> CellValue(r, g) == CellValue(c, g)
  {
    if !Accepted(d, f) then c
    else match f
      case Page => c.(page := d["page"].i)
      case Limit => if LimitAllowed(limits, d["limit"].i) then c.(limit := d["limit"].i) else c
      case Sort => if SortAllowed(sorts, d["sort"]) then c.(sort := d["sort"]) else c
      case Order => c.(order := d["order"])
      case Search => c.(search := d["search"])
      case Filters => c.(filters := ObjectAssign(d["filters"]))
  }

  /**
   * One parameter's block of `parseJson` on the cells and the query: the
   * cell adopts an accepted value, a rejected one is overwritten in the
   * query by the cell's current value.
   */
  function AdoptStep(c: Cells, q: Record, limits: seq<int>, sorts: seq<string>, d: Record, f: Trigger): (Cells, Record) {
    (Adopted(c, limits, sorts, d, f), FillIn(q, d, f, CellValue(c, f)))
  }

  /** Three consecutive blocks of `parseJson`, for parameters `f`, `g` and `h` in that order. */
  function AdoptThree(c: Cells, q: Record, limits: seq<int>, sorts: seq<string>, d: Record, f: Trigger, g: Trigger, h: Trigger): (Cells, Record) {
    var (c1, q1) := AdoptStep(c, q, limits, sorts, d, f);
    var (c2, q2) := AdoptStep(c1, q1, limits, sorts, d, g);
    AdoptStep(c2, q2, limits, sorts, d, h)
  }

  /**
   * The six blocks of `parseJson`, run in source order from the payload
   * as query, each on the cells and query the previous one left, compose
   * to IngestCells and IngestQuery.
   */
  lemma AdoptedSteps(c0: Cells, limits: seq<int>, sorts: seq<string>, d: Record,
                     s3: (Cells, Record), s6: (Cells, Record))
    requires s3 == AdoptThree(c0, d, limits, sorts, d, Page, Limit, Sort)
    requires s6 == AdoptThree(s3.0, s3.1, limits, sorts, d, Order, Search, Filters)
    ensures s6 == (IngestCells(c0, limits, sorts, d), IngestQuery(c0, d))
  {
    FrontBlocks(c0, limits, sorts, d, s3.0, s3.1);
    BackBlocks(s3.0, s3.1, limits, sorts, d, s6.0, s6.1);
    assert s6.1 == FillAll(c0, d);
  }

  /** The page, limit and sort blocks change only those cells, as IngestCells says. */
  lemma FrontBlocks(c0: Cells, limits: seq<int>, sorts: seq<string>, d: Record, c3: Cells, q3: Record)
    requires (c3, q3) == AdoptThree(c0, d, limits, sorts, d, Page, Limit, Sort)
    ensures var i := IngestCells(c0, limits, sorts, d);
      c3 == c0.(page := i.page, limit := i.limit, sort := i.sort)
    ensures q3 == FillIn(FillIn(FillIn(d, d, Page, CellValue(c0, Page)), d, Limit, CellValue(c0, Limit)), d, Sort, CellValue(c0, Sort))
  {
  }

  /** The order, search and filters blocks change only those cells, as IngestCells says. */
  lemma BackBlocks(c3: Cells, q3: Record, limits: seq<int>, sorts: seq<string>, d: Record, c6: Cells, q6: Record)
    requires (c6, q6) == AdoptThree(c3, q3, limits, sorts, d, Order, Search, Filters)
    ensures var i := IngestCells(c3, limits, sorts, d);
      c6 == c3.(order := i.order, search := i.search, filters := i.filters)
    ensures q6 == FillIn(FillIn(FillIn(q3, d, Order, CellValue(c3, Order)), d, Search, CellValue(c3, Search)), d, Filters, CellValue(c3, Filters))
  {
  }

  /** One fallback write of `parseJson`: a rejected parameter is overwritten with `v`, its cell's value. */
  function FillIn(q: Record, d: Record, f: Trigger, v: Json): (r: Record)
    ensures Accepted(d, f) ==> r == q
    ensures !Accepted(d, f) ==> Key(f) in r && r[Key(f)] == v
    ensures forall k :: k != Key(f) ==> (k in r <==> k in q)
    ensures forall k :: k != Key(f) && k in r ==> r[k] == q[k]
  {
    if Accepted(d, f) then q else q[Key(f) := v]
  }

  /** The six fallback writes, in the order of src/useLister.ts:121-141. */
  function FillAll(c: Cells, d: Record): Record {
    var r1 := FillIn(d, d, Page, CellValue(c, Page));
    var r2 := FillIn(r1, d, Limit, CellValue(c, Limit));
    var r3 := FillIn(r2, d, Sort, CellValue(c, Sort));
    var r4 := FillIn(r3, d, Order, CellValue(c, Order));
    var r5 := FillIn(r4, d, Search, CellValue(c, Search));
    FillIn(r5, d, Filters, CellValue(c, Filters))
  }

  lemma FillAllAt(c: Cells, d: Record, f: Trigger)
    ensures var r := FillAll(c, d);
      Key(f) in r && r[Key(f)] == if Accepted(d, f) then Prop(d, Key(f)) else CellValue(c, f)
  {
    AcceptedIsPresent(d, f);
    KeyNames();
    var r1 := FillIn(d, d, Page, CellValue(c, Page));
    var r2 := FillIn(r1, d, Limit, CellValue(c, Limit));
    var r3 := FillIn(r2, d, Sort, CellValue(c, Sort));
    var r4 := FillIn(r3, d, Order, CellValue(c, Order));
    var r5 := FillIn(r4, d, Search, CellValue(c, Search));
    var r6 := FillIn(r5, d, Filters, CellValue(c, Filters));
    assert r6 == FillAll(c, d);
  }

  lemma FillAllElsewhere(c: Cells, d: Record, k: string)
    requires k !in ParamKeys
    ensures var r := FillAll(c, d);
      (k in r <==> k in d) && (k in d ==> r[k] == d[k])
  {
    KeyNames();
    var r1 := FillIn(d, d, Page, CellValue(c, Page));
    var r2 := FillIn(r1, d, Limit, CellValue(c, Limit));
    var r3 := FillIn(r2, d, Sort, CellValue(c, Sort));
    var r4 := FillIn(r3, d, Order, CellValue(c, Order));
    var r5 := FillIn(r4, d, Search, CellValue(c, Search));
    var r6 := FillIn(r5, d, Filters, CellValue(c, Filters));
    assert r6 == FillAll(c, d);
  }

  lemma FillAllSpec(c: Cells, d: Record)
    ensures var r := FillAll(c, d);
      forall f :: Key(f) in r && r[Key(f)] == if Accepted(d, f) then Prop(d, Key(f)) else CellValue(c, f)
    ensures var r := FillAll(c, d);
      forall k :: k !in ParamKeys ==> (k in r <==> k in d) && (k in d ==> r[k] == d[k])
  {
    forall f {
      FillAllAt(c, d, f);
    }
    forall k | k !in ParamKeys {
      FillAllElsewhere(c, d, k);
    }
  }

  /**
   * The query after `parseJson` of a record `d`: the payload itself, with
   * each parameter it lacks or has invalid filled in from the cell, which
   * still holds its old value at that point.
   */
  function IngestQuery(c: Cells, d: Record): (r: Record)
    ensures forall f :: Key(f) in r && r[Key(f)] == if Accepted(d, f) then Prop(d, Key(f)) else CellValue(c, f)
    ensures forall k :: k !in ParamKeys ==> (k in r <==> k in d)
    ensures forall k :: k !in ParamKeys && k in d ==> r[k] == d[k]
  {
    FillAllSpec(c, d);
    FillAll(c, d)
  }

  /** An accepted parameter is present in the payload. */
  lemma AcceptedIsPresent(d: Record, f: Trigger)
    ensures Accepted(d, f) ==> Key(f) in d
  {
  }

  /**
   * `parseJson` (src/useLister.ts:116-147) as a function of the cells and
   * the query: a payload that is not an object changes nothing; an object
   * payload becomes the query, with the fallbacks of IngestQuery.
   */
  function Ingest(c: Cells, limits: seq<int>, sorts: seq<string>, q: Record, data: Json): (r: (Cells, Record))
    ensures !IsObject(data) ==> r == (c, q)
    ensures IsObject(data) ==> ParamKeys <= r.1.Keys
    ensures TextsSet(c) ==> TextsSet(r.0)
  {
    if IsObject(data) then
      var d := ObjectAssign(data);
      KeyNames();
      (IngestCells(c, limits, sorts, d), IngestQuery(c, d))
    else (c, q)
  }

  /**
   * After ingesting an object, query and cells agree on page, order and
   * search; they disagree on limit or sort only when the payload's value
   * was rejected by the allow-list, and on filters only when the payload's
   * filters were an array.
   */
  lemma IngestAgreement(c: Cells, limits: seq<int>, sorts: seq<string>, q: Record, data: Json)
    requires IsObject(data)
    ensures var d := ObjectAssign(data);
      var (c', q') := Ingest(c, limits, sorts, q, data);
      && q'["page"] == Int(c'.page) && q'["order"] == c'.order && q'["search"] == c'.search
      && (q'["limit"] != Int(c'.limit) ==> Accepted(d, Limit) && !LimitAllowed(limits, d["limit"].i))
      && (q'["sort"] != c'.sort ==> Accepted(d, Sort) && !SortAllowed(sorts, d["sort"]))
      && (q'["filters"] != Obj(c'.filters) ==> d["filters"].Arr?)
  {
    var d := ObjectAssign(data);
    assert Ingest(c, limits, sorts, q, data) == (IngestCells(c, limits, sorts, d), IngestQuery(c, d));
    AgreeOnPlain(c, limits, sorts, d);
    AgreeOnChecked(c, limits, sorts, d);
  }

  /** Page, order and search: the query and the cells agree after ingesting `d`. */
  lemma AgreeOnPlain(c: Cells, limits: seq<int>, sorts: seq<string>, d: Record)
    ensures var c', q' := IngestCells(c, limits, sorts, d), IngestQuery(c, d);
      q'["page"] == Int(c'.page) && q'["order"] == c'.order && q'["search"] == c'.search
  {
    var q' := IngestQuery(c, d);
    KeyNames();
    assert q'[Key(Page)] == q'["page"] && q'[Key(Order)] == q'["order"] && q'[Key(Search)] == q'["search"];
  }

  /** Limit, sort and filters: the query and the cells disagree only after a rejection or for an array. */
  lemma AgreeOnChecked(c: Cells, limits: seq<int>, sorts: seq<string>, d: Record)
    ensures var c', q' := IngestCells(c, limits, sorts, d), IngestQuery(c, d);
      && (q'["limit"] != Int(c'.limit) ==> Accepted(d, Limit) && !LimitAllowed(limits, d["limit"].i))
      && (q'["sort"] != c'.sort ==> Accepted(d, Sort) && !SortAllowed(sorts, d["sort"]))
      && (q'["filters"] != Obj(c'.filters) ==> d["filters"].Arr?)
  {
    var q' := IngestQuery(c, d);
    KeyNames();
    assert q'[Key(Limit)] == q'["limit"] && q'[Key(Sort)] == q'["sort"] && q'[Key(Filters)] == q'["filters"];
  }

  /**
   * Ingesting a query whose parameters already agree with the cells
   * changes neither: the echo of the lister's own query is a no-op.
   */
  lemma IngestOwnQuery(c: Cells, limits: seq<int>, sorts: seq<string>, q0: Record, q: Record)
    requires forall f :: Key(f) in q && q[Key(f)] == CellValue(c, f)
    ensures Ingest(c, limits, sorts, q0, Obj(q)) == (c, q)
  {
    OwnQueryCells(c, limits, sorts, q);
    OwnQueryFill(c, q);
  }

  lemma OwnQueryCells(c: Cells, limits: seq<int>, sorts: seq<string>, q: Record)
    requires forall f :: Key(f) in q && q[Key(f)] == CellValue(c, f)
    ensures IngestCells(c, limits, sorts, q) == c
  {
    KeyNames();
    assert q[Key(Page)] == q["page"] && q[Key(Limit)] == q["limit"] && q[Key(Sort)] == q["sort"];
    assert q[Key(Order)] == q["order"] && q[Key(Search)] == q["search"] && q[Key(Filters)] == q["filters"];
  }

  lemma OwnQueryFill(c: Cells, q: Record)
    requires forall f :: Key(f) in q && q[Key(f)] == CellValue(c, f)
    ensures IngestQuery(c, q) == q
  {
    var r := IngestQuery(c, q);
    forall k | k in ParamKeys ensures k in r && r[k] == q[k] {
      var f :| Key(f) == k;
    }
    assert r.Keys == q.Keys;
  }

  /**
   * Construction runs `parseJson({})` (src/useLister.ts:159): every
   * parameter is rejected, so the cells keep the defaults and the query
   * becomes exactly their parameters.
   */
  lemma IngestEmpty(c: Cells, limits: seq<int>, sorts: seq<string>, q: Record)
    ensures Ingest(c, limits, sorts, q, Obj(map[])) == (c, Params(c))
  {
    assert IngestCells(c, limits, sorts, map[]) == c;
    EmptyPayloadQuery(c);
  }

  /** With nothing accepted, every parameter is filled in from its cell and nothing else is there. */
  lemma EmptyPayloadQuery(c: Cells)
    ensures IngestQuery(c, map[]) == Params(c)
  {
    var r := IngestQuery(c, map[]);
    forall k | k in ParamKeys ensures k in r && r[k] == Params(c)[k] {
      var f :| Key(f) == k;
    }
    assert r.Keys == Params(c).Keys;
  }

  // ------------------------------------------------------- derived views

  /** `records` (src/useLister.ts:31-33): the array under `data`, else empty. */
  function Records(q: Record): (r: seq<Json>)
    ensures "data" in q && q["data"].Arr? ==> r == q["data"].a
    ensures r != [] ==> "data" in q && q["data"] == Arr(r)
  {
    if "data" in q && q["data"].Arr? then q["data"].a else []
  }

  /** `isEmpty` (src/useLister.ts:30): no records. */
  function IsEmpty(q: Record): (b: bool)
    ensures !b <==> "data" in q && q["data"].Arr? && q["data"].a != []
  {
    |Records(q)| == 0
  }

  /**
   * `total`, `from`, `to` and `pages` (src/useLister.ts:34-45): the integer
   * under the key, else 0.
   */
  function IntAt(q: Record, key: string): (n: int)
    ensures key in q && q[key].Int? ==> n == q[key].i
    ensures n != 0 ==> key in q && q[key] == Int(n)
  {
    if key in q && q[key].Int? then q[key].i else 0
  }

  /**
   * `hash` (src/useLister.ts:29): the encoded serialisation of the whole
   * query, `data` and the other payload keys included. `stringify` stands
   * for `JSON.stringify`.
   */
  function HashOf(q: Record, stringify: Json -> string): (h: string)
    ensures Codec.Decode(h) == Some(stringify(Obj(q)))
  {
    Codec.RoundTrip(stringify(Obj(q)));
    Codec.Encode(stringify(Obj(q)))
  }

  /** `parseHash`'s reading of a token (src/useLister.ts:150-151): decode, then `JSON.parse`. */
  function ReadHash(token: string, parse: string -> Option<Json>): Option<Json> {
    match Codec.Decode(token)
    case None => None
    case Some(json) => parse(json)
  }

  /** When `parse` undoes `stringify`, reading the lister's own hash gives its query back. */
  lemma ReadOwnHash(q: Record, stringify: Json -> string, parse: string -> Option<Json>)
    requires forall v :: parse(stringify(v)) == Some(v)
    ensures ReadHash(HashOf(q, stringify), parse) == Some(Obj(q))
  {
  }

  /** The hash tells apart any two queries, even ones that differ only in `data`. */
  lemma HashDistinguishes(q1: Record, q2: Record, stringify: Json -> string, parse: string -> Option<Json>)
    requires forall v :: parse(stringify(v)) == Some(v)
    requires q1 != q2
    ensures HashOf(q1, stringify) != HashOf(q2, stringify)
  {
    ReadOwnHash(q1, stringify, parse);
    ReadOwnHash(q2, stringify, parse);
  }

  /**
   * Feeding the lister's own hash back through `parseHash` changes nothing
   * when its query's parameters agree with the cells.
   */
  lemma HashEcho(c: Cells, limits: seq<int>, sorts: seq<string>, q: Record,
                 stringify: Json -> string, parse: string -> Option<Json>)
    requires forall v :: parse(stringify(v)) == Some(v)
    requires forall f :: Key(f) in q && q[Key(f)] == CellValue(c, f)
    ensures ReadHash(HashOf(q, stringify), parse) == Some(Obj(q))
    ensures Ingest(c, limits, sorts, q, Obj(q)) == (c, q)
  {
    ReadOwnHash(q, stringify, parse);
    IngestOwnQuery(c, limits, sorts, q, q);
  }
}
