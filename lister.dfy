/**
 * `useLister` (src/useLister.ts:21-209): the list-query coordinator as an
 * object. Its six cells, the allow-lists, the query record and the
 * `autoApply` lock are fields; the setters, filter operations and bulk
 * operations are methods that update them in place. Vue's watchers
 * (src/useLister.ts:165-170) are modelled as the trigger hook running
 * synchronously at the end of each setter whose cell changed.
 */
module Listing {
  import opened Wrappers
  import opened Json
  import opened Options
  import FilterRecord
  import opened Query
  import Codec

  class Lister {
    const option: Resolved
    /** The lock: while false, cell changes are not written into the query. */
    var autoApply: bool
    var query: Record
    var page: int
    var limit: int
    /** `limits`: the limit allow-list, a ref the caller may reassign. */
    var limits: seq<int>
    var sort: Json
    /** `sorts`: the sort allow-list, a ref the caller may reassign. */
    var sorts: seq<string>
    var order: Json
    var search: Json
    var filters: Record

    function Current(): Cells
      reads this
    {
      Cells(page, limit, sort, order, search, filters)
    }

    /** Whether the trigger hook writes parameter `f` into the query right now. */
    predicate Fires(f: Trigger)
      reads this
    {
      autoApply && MustTrigger(option, f)
    }

    /**
     * `useLister(opt)`: the cells start at the resolved defaults (the
     * default sort is not checked against the allow-list), then
     * `parseJson({})` makes the query hold exactly their parameters.
     */
    constructor (opt: ListerOption)
      ensures option == UseOptions(opt)
      ensures Current() == Cells(option.page, option.limit, Str(option.sort), Str(option.order),
                                 Str(option.search), option.filters)
      ensures limits == option.limits && sorts == option.sorts
      ensures query == Params(Current()) && autoApply
    {
      var o := UseOptions(opt);
      option := o;
      autoApply := true;
      query := map[];
      page, limit, limits := o.page, o.limit, o.limits;
      sort, sorts := Str(o.sort), o.sorts;
      order, search, filters := Str(o.order), Str(o.search), o.filters;
      new;
      IngestEmpty(Current(), limits, sorts, query);
      ParseJson(Obj(map[]));
    }

    /** The trigger hook (src/useLister.ts:162-164). */
    method TriggerField(f: Trigger, v: Json)
      modifies this`query
      ensures query == if Fires(f) then old(query)[Key(f) := v] else old(query)
    {
      if autoApply && MustTrigger(option, f) {
        query := query[Key(f) := v];
      }
    }

    // ------------------------------------------------------------ setters

    /** `page.value = v` (src/useLister.ts:263-265): any value is stored. */
    method SetPage(v: int)
      modifies this`page, this`query
      ensures page == v
      ensures query == if v != old(page) && Fires(Page) then old(query)[Key(Page) := Int(v)] else old(query)
    {
      var was := page;
      page := v;
      if page != was {
        TriggerField(Page, Int(page));
      }
    }

    /** `limit.value = v` (src/useLister.ts:269-280): stored only if the allow-list is empty or holds it. */
    method SetLimit(v: int)
      modifies this`limit, this`query
      ensures limit == if LimitAllowed(limits, v) then v else old(limit)
      ensures query == if limit != old(limit) && Fires(Limit) then old(query)[Key(Limit) := Int(limit)] else old(query)
    {
      var was := limit;
      if |limits| == 0 || v in limits {
        limit := v;
      }
      if limit != was {
        TriggerField(Limit, Int(limit));
      }
    }

    /**
     * `sort.value = v` (src/useLister.ts:283-294): stored only if the
     * allow-list is empty or holds it; the order is never touched.
     */
    method SetSort(v: Json)
      modifies this`sort, this`query
      ensures sort == if SortAllowed(sorts, v) then v else old(sort)
      ensures query == if sort != old(sort) && Fires(Sort) then old(query)[Key(Sort) := sort] else old(query)
    {
      var was := sort;
      if |sorts| == 0 || (v.Str? && v.s in sorts) {
        sort := v;
      }
      if sort != was {
        TriggerField(Sort, sort);
      }
    }

    /** `order.value = v` (src/useLister.ts:297-304): any value is stored. */
    method SetOrder(v: Json)
      modifies this`order, this`query
      ensures order == v
      ensures query == if v != old(order) && Fires(Order) then old(query)[Key(Order) := v] else old(query)
    {
      var was := order;
      order := v;
      if order != was {
        TriggerField(Order, order);
      }
    }

    /** `search.value = v` (src/useLister.ts:307-308): any value is stored. */
    method SetSearch(v: Json)
      modifies this`search, this`query
      ensures search == v
      ensures query == if v != old(search) && Fires(Search) then old(query)[Key(Search) := v] else old(query)
    {
      var was := search;
      search := v;
      if search != was {
        TriggerField(Search, search);
      }
    }

    /** `clearSearch` (src/useLister.ts:309). */
    method ClearSearch()
      modifies this`search, this`query
      ensures search == Str("")
      ensures query == if old(search) != Str("") && Fires(Search) then old(query)[Key(Search) := Str("")] else old(query)
    {
      SetSearch(Str(""));
    }

    // ---------------------------------------------------------- filters

    /** `clearFilters` (src/useLister.ts:316): a fresh empty record, so the watcher always runs. */
    method ClearFilters()
      modifies this`filters, this`query
      ensures filters == map[]
      ensures query == if Fires(Filters) then old(query)[Key(Filters) := Obj(map[])] else old(query)
    {
      filters := map[];
      TriggerField(Filters, Obj(filters));
    }

    /** `removeFilter` (src/useLister.ts:319-321). */
    method RemoveFilter(key: string)
      modifies this`filters, this`query
      ensures filters == FilterRecord.Removed(old(filters), key)
      ensures query == if key in old(filters) && Fires(Filters) then old(query)[Key(Filters) := Obj(filters)] else old(query)
    {
      if key in filters {
        filters := filters - {key};
        TriggerField(Filters, Obj(filters));
      }
    }

    /** `setFilter` (src/useLister.ts:323-325). */
    method SetFilter(key: string, value: Json)
      modifies this`filters, this`query
      ensures filters == FilterRecord.WithFilter(old(filters), key, value)
      ensures query == if filters != old(filters) && Fires(Filters) then old(query)[Key(Filters) := Obj(filters)] else old(query)
    {
      if Truthy(value) {
        var was := filters;
        filters := filters[key := value];
        if filters != was {
          TriggerField(Filters, Obj(filters));
        }
      } else {
        RemoveFilter(key);
      }
    }

    /**
     * `toggleFilter` (src/useLister.ts:327-335): push or splice on the
     * key's array. A truthy value always changes the record, so the deep
     * watcher always runs for it.
     */
    method ToggleFilter(key: string, value: Json)
      modifies this`filters, this`query
      ensures filters == FilterRecord.Toggled(old(filters), key, value)
      ensures query == if Truthy(value) && Fires(Filters) then old(query)[Key(Filters) := Obj(filters)] else old(query)
    {
      if !Truthy(value) {
        return;
      }
      var vals := if key in filters && filters[key].Arr? then filters[key].a else [];
      var index := IndexOf(vals, value);
      if index == -1 {
        vals := vals + [value];
      } else {
        vals := vals[..index] + vals[index + 1..];
      }
      FilterRecord.ToggleSteps(filters, key, value, vals);
      if |vals| > 0 {
        filters := filters[key := Arr(vals)];
        TriggerField(Filters, Obj(filters));
      } else {
        RemoveFilter(key);
      }
    }

    // ------------------------------------------------------------- reset

    /** `resetPage` (src/useLister.ts:65-69). */
    method ResetPage()
      modifies this`page, this`query
      ensures page == if Prop(old(query), "page").Int? then Prop(old(query), "page").i else option.page
      ensures query == if page != old(page) && Fires(Page) then old(query)[Key(Page) := Int(page)] else old(query)
    {
      SetPage(if Prop(query, "page").Int? then Prop(query, "page").i else option.page);
    }

    /** `resetLimit` (src/useLister.ts:70-74), through the allow-list setter. */
    method ResetLimit()
      modifies this`limit, this`query
      ensures var v := if Prop(old(query), "limit").Int? then Prop(old(query), "limit").i else option.limit;
        limit == if LimitAllowed(limits, v) then v else old(limit)
      ensures query == if limit != old(limit) && Fires(Limit) then old(query)[Key(Limit) := Int(limit)] else old(query)
    {
      SetLimit(if Prop(query, "limit").Int? then Prop(query, "limit").i else option.limit);
    }

    /** `resetSort` (src/useLister.ts:75-79), through the allow-list setter. */
    method ResetSort()
      modifies this`sort, this`query
      ensures var v := if IsVal(Prop(old(query), "sort")) then Prop(old(query), "sort") else Str(option.sort);
        sort == if SortAllowed(sorts, v) then v else old(sort)
      ensures query == if sort != old(sort) && Fires(Sort) then old(query)[Key(Sort) := sort] else old(query)
    {
      SetSort(if IsVal(Prop(query, "sort")) then Prop(query, "sort") else Str(option.sort));
    }

    /** `resetOrder` (src/useLister.ts:80-84). */
    method ResetOrder()
      modifies this`order, this`query
      ensures order == if IsVal(Prop(old(query), "order")) then Prop(old(query), "order") else Str(option.order)
      ensures query == if order != old(order) && Fires(Order) then old(query)[Key(Order) := order] else old(query)
    {
      SetOrder(if IsVal(Prop(query, "order")) then Prop(query, "order") else Str(option.order));
    }

    /** `resetSearch` (src/useLister.ts:85-89). */
    method ResetSearch()
      modifies this`search, this`query
      ensures search == if IsVal(Prop(old(query), "search")) then Prop(old(query), "search") else Str(option.search)
      ensures query == if search != old(search) && Fires(Search) then old(query)[Key(Search) := search] else old(query)
    {
      SetSearch(if IsVal(Prop(query, "search")) then Prop(query, "search") else Str(option.search));
    }

    /** `resetFilters` (src/useLister.ts:90-97): a fresh copy, so the watcher always runs. */
    method ResetFilters()
      modifies this`filters, this`query
      ensures filters == ObjectAssign(if IsVal(Prop(old(query), "filters")) then Prop(old(query), "filters") else Obj(option.filters))
      ensures query == if Fires(Filters) then old(query)[Key(Filters) := Obj(filters)] else old(query)
    {
      filters := ObjectAssign(if IsVal(Prop(query, "filters")) then Prop(query, "filters") else Obj(option.filters));
      TriggerField(Filters, Obj(filters));
    }

    /**
     * `reset` (src/useLister.ts:98-107): all six cells restored from the
     * query under the lock, so the query itself is not modified.
     */
    method Reset()
      modifies this`autoApply, this`page, this`limit, this`sort, this`order, this`search, this`filters, this`query
      ensures autoApply && query == old(query)
      ensures Current() == ResetCells(old(Current()), option, limits, sorts, query)
    {
      autoApply := false;
      ResetNumbers();
      ResetTexts();
      autoApply := true;
    }

    /** The first three resets of `reset`, under the lock. */
    method ResetNumbers()
      requires !autoApply
      modifies this`page, this`limit, this`sort, this`query
      ensures query == old(query)
      ensures page == if Prop(query, "page").Int? then Prop(query, "page").i else option.page
      ensures var v := if Prop(query, "limit").Int? then Prop(query, "limit").i else option.limit;
        limit == if LimitAllowed(limits, v) then v else old(limit)
      ensures var v := if IsVal(Prop(query, "sort")) then Prop(query, "sort") else Str(option.sort);
        sort == if SortAllowed(sorts, v) then v else old(sort)
    {
      ResetPage();
      ResetLimit();
      ResetSort();
    }

    /** The last three resets of `reset`, under the lock. */
    method ResetTexts()
      requires !autoApply
      modifies this`order, this`search, this`filters, this`query
      ensures query == old(query)
      ensures order == if IsVal(Prop(query, "order")) then Prop(query, "order") else Str(option.order)
      ensures search == if IsVal(Prop(query, "search")) then Prop(query, "search") else Str(option.search)
      ensures filters == ObjectAssign(if IsVal(Prop(query, "filters")) then Prop(query, "filters") else Obj(option.filters))
    {
      ResetOrder();
      ResetSearch();
      ResetFilters();
    }

    /**
     * `apply` (src/useLister.ts:108-115): writes the six parameters from
     * the cells, whatever the lock and the trigger set say.
     */
    method Apply()
      modifies this`query
      ensures query == Applied(old(query), Current())
    {
      AppliedSteps(query, Current());
      query := query["page" := Int(page)];
      query := query["limit" := Int(limit)];
      query := query["sort" := sort];
      query := query["order" := order];
      query := query["search" := search];
      query := query["filters" := Obj(filters)];
    }

    // --------------------------------------------------------- ingestion

    /**
     * One parameter's block of `parseJson` (src/useLister.ts:121-141),
     * run under the lock: a valid payload value goes through the cell's
     * setter, otherwise the cell's value is written into the query.
     */
    method Adopt(d: Record, f: Trigger)
      requires !autoApply
      modifies this`page, this`limit, this`sort, this`order, this`search, this`filters, this`query
      ensures (Current(), query) == AdoptStep(old(Current()), old(query), limits, sorts, d, f)
    {
      KeyNames();
      match f
      case Page =>
        if Prop(d, "page").Int? {
          SetPage(d["page"].i);
        } else {
          query := query["page" := Int(page)];
        }
      case Limit =>
        if Prop(d, "limit").Int? {
          SetLimit(d["limit"].i);
        } else {
          query := query["limit" := Int(limit)];
        }
      case Sort =>
        if Truthy(Prop(d, "sort")) {
          SetSort(d["sort"]);
        } else {
          query := query["sort" := sort];
        }
      case Order =>
        if Prop(d, "order") == Str("asc") || Prop(d, "order") == Str("desc") {
          SetOrder(d["order"]);
        } else {
          query := query["order" := order];
        }
      case Search =>
        if IsVal(Prop(d, "search")) {
          SetSearch(d["search"]);
        } else {
          query := query["search" := search];
        }
      case Filters =>
        if IsObject(Prop(d, "filters")) {
          filters := ObjectAssign(d["filters"]);
          TriggerField(Filters, Obj(filters));
        } else {
          query := query["filters" := Obj(filters)];
        }
    }

    /**
     * The object branch of `parseJson` (src/useLister.ts:120-141), run
     * under the lock: the payload becomes the query, then each parameter's
     * block runs in source order.
     */
    method IngestObject(d: Record)
      requires !autoApply
      modifies this`page, this`limit, this`sort, this`order, this`search, this`filters, this`query
      ensures (Current(), query) == (IngestCells(old(Current()), limits, sorts, d), IngestQuery(old(Current()), d))
    {
      query := d;
      AdoptBlocks(d, Page, Limit, Sort);
      ghost var s3 := (Current(), query);
      AdoptBlocks(d, Order, Search, Filters);
      AdoptedSteps(old(Current()), limits, sorts, d, s3, (Current(), query));
    }

    /** Three consecutive blocks of `parseJson`, for `f`, `g` and `h` in that order. */
    method AdoptBlocks(d: Record, f: Trigger, g: Trigger, h: Trigger)
      requires !autoApply
      modifies this`page, this`limit, this`sort, this`order, this`search, this`filters, this`query
      ensures (Current(), query) == AdoptThree(old(Current()), old(query), limits, sorts, d, f, g, h)
    {
      Adopt(d, f);
      Adopt(d, g);
      Adopt(d, h);
    }

    /**
     * `parseJson` (src/useLister.ts:116-147): under the lock, an object
     * payload becomes the query, valid parameters reseed the cells and the
     * others are filled in from them. The lock is released in every case.
     */
    method ParseJson(data: Json)
      modifies this`autoApply, this`page, this`limit, this`sort, this`order, this`search, this`filters, this`query
      ensures autoApply
      ensures (Current(), query) == Ingest(old(Current()), limits, sorts, old(query), data)
    {
      autoApply := false;
      if IsObject(data) {
        IngestObject(ObjectAssign(data));
      }
      autoApply := true;
    }

    /**
     * `parseHash` (src/useLister.ts:148-156): a token that does not decode,
     * or whose text `parse` rejects, changes nothing at all.
     */
    method ParseHash(token: string, parse: string -> Option<Json>)
      modifies this`autoApply, this`page, this`limit, this`sort, this`order, this`search, this`filters, this`query
      ensures ReadHash(token, parse).None? ==> unchanged(this)
      ensures ReadHash(token, parse).Some? ==>
        autoApply && (Current(), query) == Ingest(old(Current()), limits, sorts, old(query), ReadHash(token, parse).value)
    {
      var json := Codec.Decode(token);
      if json.Some? {
        var raw := parse(json.value);
        if raw.Some? {
          ParseJson(raw.value);
        }
      }
    }
  }
}
