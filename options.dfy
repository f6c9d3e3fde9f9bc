/**
 * `useOptions` (src/useLister.ts:229-260): the caller's partial configuration
 * resolved into defaults, allow-lists and the set of parameters that the
 * lister writes into its query as soon as they change.
 */
module Options {
  import opened Wrappers
  import opened Json

  /** The six query parameters (`Trigger`, src/useLister.ts:3). */
  datatype Trigger = Page | Limit | Sort | Order | Search | Filters

  /** The query key of a parameter. */
  function Key(f: Trigger): string {
    match f
    case Page => "page"
    case Limit => "limit"
    case Sort => "sort"
    case Order => "order"
    case Search => "search"
    case Filters => "filters"
  }

  /** `triggers?: Trigger[] | "all"`. */
  datatype Triggers = All | Listed(fields: seq<Trigger>)

  /** `ListerOption` (src/useLister.ts:5-15): every member optional. */
  datatype ListerOption = ListerOption(
    triggers: Option<Triggers>,
    page: Option<int>,
    limit: Option<int>,
    validLimits: Option<seq<int>>,
    sort: Option<string>,
    validSorts: Option<seq<string>>,
    order: Option<string>,
    search: Option<string>,
    filters: Option<Record>)

  /** The resolved options. */
  datatype Resolved = Resolved(
    triggers: seq<Trigger>,
    page: int,
    limit: int,
    limits: seq<int>,
    sort: string,
    sorts: seq<string>,
    order: string,
    search: string,
    filters: Record)

  /**
   * The trigger list: `"all"` names every parameter, an explicit list is
   * kept as given (even when empty), and without one only page, limit, sort
   * and order are applied automatically.
   */
  function TriggerList(t: Option<Triggers>): (r: seq<Trigger>)
    ensures t.None? ==> forall f :: f in r <==> f != Search && f != Filters
    ensures t == Some(All) ==> forall f :: f in r
    ensures t.Some? && t.value.Listed? ==> r == t.value.fields
  {
    match t
    case None =>
      DefaultTriggers();
      [Page, Limit, Sort, Order]
    case Some(All) =>
      EveryTrigger();
      [Page, Limit, Sort, Order, Search, Filters]
    case Some(Listed(fields)) => fields
  }

  lemma DefaultTriggers()
    ensures forall f :: f in [Page, Limit, Sort, Order] <==> f != Search && f != Filters
  {
    forall f ensures f in [Page, Limit, Sort, Order] <==> f != Search && f != Filters {
      var r := [Page, Limit, Sort, Order];
      match f
      case Page => assert r[0] == f;
      case Limit => assert r[1] == f;
      case Sort => assert r[2] == f;
      case Order => assert r[3] == f;
      case _ =>
    }
  }

  lemma EveryTrigger()
    ensures forall f :: f in [Page, Limit, Sort, Order, Search, Filters]
  {
    forall f ensures f in [Page, Limit, Sort, Order, Search, Filters] {
      var r := [Page, Limit, Sort, Order, Search, Filters];
      match f
      case Page => assert r[0] == f;
      case Limit => assert r[1] == f;
      case Sort => assert r[2] == f;
      case Order => assert r[3] == f;
      case Search => assert r[4] == f;
      case Filters => assert r[5] == f;
    }
  }

  /** `v || d` for an optional number: `undefined` and `0` are falsy. */
  function NumberOr(v: Option<int>, d: int): int {
    if v.Some? && v.value != 0 then v.value else d
  }

  /** `v || d` for an optional string: `undefined` and `""` are falsy. */
  function StringOr(v: Option<string>, d: string): string {
    if v.Some? && v.value != "" then v.value else d
  }

  /**
   * `useOptions`: a truthy option is kept as given; a falsy or missing one
   * becomes its default (1, 25, `"_id"`, `"asc"`, `""`, `{}`), and the
   * allow-lists default to empty, meaning unrestricted.
   */
  function UseOptions(opt: ListerOption): (r: Resolved)
    ensures r.triggers == TriggerList(opt.triggers)
    ensures r.page != 0 && r.limit != 0 && r.sort != "" && r.order != ""
    ensures opt.page.Some? && opt.page.value != 0 ==> r.page == opt.page.value
    ensures opt.page.None? || opt.page.value == 0 ==> r.page == 1
    ensures opt.limit.Some? && opt.limit.value != 0 ==> r.limit == opt.limit.value
    ensures opt.limit.None? || opt.limit.value == 0 ==> r.limit == 25
    ensures opt.sort.Some? && opt.sort.value != "" ==> r.sort == opt.sort.value
    ensures opt.sort.None? || opt.sort.value == "" ==> r.sort == "_id"
    ensures opt.order.Some? && opt.order.value != "" ==> r.order == opt.order.value
    ensures opt.order.None? || opt.order.value == "" ==> r.order == "asc"
    ensures opt.search.Some? ==> r.search == opt.search.value
    ensures opt.search.None? ==> r.search == ""
    ensures r.limits == (if opt.validLimits.Some? then opt.validLimits.value else [])
    ensures r.sorts == (if opt.validSorts.Some? then opt.validSorts.value else [])
    ensures r.filters == (if opt.filters.Some? then opt.filters.value else map[])
  {
    Resolved(
      TriggerList(opt.triggers),
      NumberOr(opt.page, 1),
      NumberOr(opt.limit, 25),
      if opt.validLimits.Some? then opt.validLimits.value else [],
      StringOr(opt.sort, "_id"),
      if opt.validSorts.Some? then opt.validSorts.value else [],
      StringOr(opt.order, "asc"),
      StringOr(opt.search, ""),
      if opt.filters.Some? then opt.filters.value else map[])
  }

  /** `mustTriggered` (src/useLister.ts:237-239). */
  predicate MustTrigger(o: Resolved, f: Trigger) {
    f in o.triggers
  }

  /**
   * Which parameters are written into the query as soon as they change:
   * without a trigger option all but search and filters, with `"all"`
   * every one, and with a list exactly the listed ones.
   */
  lemma MustTriggerCases(opt: ListerOption, f: Trigger)
    ensures opt.triggers.None? ==> (MustTrigger(UseOptions(opt), f) <==> f != Search && f != Filters)
    ensures opt.triggers == Some(All) ==> MustTrigger(UseOptions(opt), f)
    ensures opt.triggers.Some? && opt.triggers.value.Listed? ==>
      (MustTrigger(UseOptions(opt), f) <==> f in opt.triggers.value.fields)
  {
  }

  /** Resolved options written back as a configuration. */
  function AsOption(r: Resolved): ListerOption {
    ListerOption(Some(Listed(r.triggers)), Some(r.page), Some(r.limit), Some(r.limits),
                 Some(r.sort), Some(r.sorts), Some(r.order), Some(r.search), Some(r.filters))
  }

  /** Resolving is idempotent: resolved options resolve to themselves. */
  lemma ResolveIdempotent(opt: ListerOption)
    ensures UseOptions(AsOption(UseOptions(opt))) == UseOptions(opt)
  {
  }
}
