/**
 * The Search API sorts block: one link per enabled sort of a search display,
 * ordered by weight, the active one toggling the current order.
 */
module SortsBlock {
  import opened Php
  import opened ConfigIdEscape
  import opened PhpArrayLaws
  import opened WeightSort
  import opened SortsManager

  /** The helper row kept per sort field while building the links. */
  datatype SortRow = SortRow(title: string, weight: int, defaultOrder: string)

  /** What `UrlHelper::parse` returns for the current path. */
  datatype ParsedUrl = ParsedUrl(path: string, query: PhpArray<string>, fragment: string)

  /** One rendered `search_api_sorts_sort` item. */
  datatype SortLink = SortLink(
    title: string,
    url: string,
    active: bool,
    order: string,
    indicator: Option<string>,
    sortField: string)

  /** The render array: nothing, or the item list with its classes and contextual-link parameters. */
  datatype BlockBuild =
    | Hidden
    | Shown(items: seq<SortLink>, classes: seq<string>, indexId: string, displayParam: string)

  /** The request and display the block is built for. */
  datatype Page = Page(
    rendered: bool,
    displayPluginId: string,
    indexId: string,
    request: Request,
    requestUri: string,
    basePath: string)

  /** The services the block calls, as functions. */
  datatype Services = Services(
    parse: string -> ParsedUrl,
    toUrl: (string, PhpArray<string>, string) -> string,
    getClass: string -> string,
    activeAlter: SortAlter,
    defaultAlter: SortAlter)

  function RowOf(e: SortEntity): SortRow {
    SortRow(e.displayLabel, e.weight, e.defaultOrder)
  }

  function RowWeight(row: SortRow): int {
    row.weight
  }

  /** Some enabled sort is on field `k`. */
  predicate HasEnabledField(enabled: seq<SortEntity>, k: string) {
    exists j :: 0 <= j < |enabled| && enabled[j].fieldIdentifier == k
  }

  /** Some link is for field `k`. */
  predicate Linked(items: seq<SortLink>, k: string) {
    exists i :: 0 <= i < |items| && items[i].sortField == k
  }

  /** The helper array: one row per field identifier, a later sort overwriting an earlier one in place. */
  function Rows(enabled: seq<SortEntity>): (r: PhpArray<SortRow>)
    ensures UniqueKeys(r)
    ensures forall k :: HasKey(r, k) <==> HasEnabledField(enabled, k)
    decreases |enabled|
  {
    if enabled == [] then []
    else
      var init := enabled[..|enabled| - 1];
      var last := enabled[|enabled| - 1];
      var r := Put(Rows(init), last.fieldIdentifier, RowOf(last));
      assert forall k :: HasKey(r, k) <==> HasEnabledField(enabled, k) by {
        forall k ensures HasKey(r, k) <==> HasEnabledField(enabled, k) {
          PutHasKey(Rows(init), last.fieldIdentifier, RowOf(last), k);
          assert forall j :: 0 <= j < |init| ==> init[j] == enabled[j];
          if HasEnabledField(enabled, k) && k != last.fieldIdentifier {
            var j :| 0 <= j < |enabled| && enabled[j].fieldIdentifier == k;
            assert j < |init|;
          }
        }
      }
      r
  }

  /** The row under a field identifier is that of the last enabled sort with it. */
  lemma {:induction false} RowsLastWins(enabled: seq<SortEntity>, j: int)
    requires 0 <= j < |enabled|
    requires forall t :: j < t < |enabled| ==> enabled[t].fieldIdentifier != enabled[j].fieldIdentifier
    ensures Get(Rows(enabled), enabled[j].fieldIdentifier) == Some(RowOf(enabled[j]))
    decreases |enabled|
  {
    var init := enabled[..|enabled| - 1];
    if j < |enabled| - 1 {
      assert init[j] == enabled[j];
      RowsLastWins(init, j);
    }
  }

  /** The weight in the row under field `k` (0 when there is none). */
  function WeightOf(rows: PhpArray<SortRow>, k: string): int {
    match Get(rows, k)
    case Some(row) => row.weight
    case None => 0
  }

  /** The loop filling the helper array. */
  method CollectRows(enabled: seq<SortEntity>) returns (rows: PhpArray<SortRow>)
    ensures rows == Rows(enabled)
  {
    rows := [];
    var i := 0;
    while i < |enabled|
      invariant 0 <= i <= |enabled|
      invariant rows == Rows(enabled[..i])
    {
      assert enabled[..i + 1][..i] == enabled[..i];
      rows := Put(rows, enabled[i].fieldIdentifier, RowOf(enabled[i]));
      i := i + 1;
    }
    assert enabled[..i] == enabled;
  }

  /** The current sort: the active one, or the default one when the active field loosely equals NULL. */
  function CurrentSort(active: (Option<string>, string), default: (Option<string>, string)): (r: (Option<string>, string))
    ensures r == if active.0.None? || active.0 == Some("") then default else active
  {
    if LooseEq("", active.0) then default else active
  }

  function Toggle(order: string): (r: string)
    ensures (order == "desc" ==> r == "asc") && (order != "desc" ==> r == "desc")
  {
    if order == "desc" then "asc" else "desc"
  }

  /** The order a link asks for: the current one toggled on the current field, else the field's default. */
  function LinkOrder(field: string, row: SortRow, current: (Option<string>, string)): string {
    if LooseEq(field, current.0) then Toggle(current.1) else row.defaultOrder
  }

  /** The query of a link: the parsed query with `sort` and `order` set. */
  function LinkQuery(query: PhpArray<string>, field: string, order: string): PhpArray<string> {
    Put(Put(query, "sort", field), "order", order)
  }

  function Link(entry: (string, SortRow), current: (Option<string>, string), url: ParsedUrl,
                toUrl: (string, PhpArray<string>, string) -> string): SortLink
  {
    var order := LinkOrder(entry.0, entry.1, current);
    var active := LooseEq(entry.0, current.0);
    SortLink(entry.1.title, toUrl(url.path, LinkQuery(url.query, entry.0, order), url.fragment),
             active, order, if active then Some(order) else None, entry.0)
  }

  function Links(sorted: PhpArray<SortRow>, current: (Option<string>, string), url: ParsedUrl,
                 toUrl: (string, PhpArray<string>, string) -> string): (r: seq<SortLink>)
    ensures |r| == |sorted|
    decreases |sorted|
  {
    if sorted == [] then []
    else Links(sorted[..|sorted| - 1], current, url, toUrl) + [Link(sorted[|sorted| - 1], current, url, toUrl)]
  }

  lemma {:induction false} LinksAt(sorted: PhpArray<SortRow>, current: (Option<string>, string), url: ParsedUrl,
                                   toUrl: (string, PhpArray<string>, string) -> string, i: int)
    requires 0 <= i < |sorted|
    ensures Links(sorted, current, url, toUrl)[i] == Link(sorted[i], current, url, toUrl)
    decreases |sorted|
  {
    if i < |sorted| - 1 {
      var init := sorted[..|sorted| - 1];
      assert init[i] == sorted[i];
      LinksAt(init, current, url, toUrl, i);
    }
  }

  /**
   * Each link sets `sort` and `order` on the parsed query and keeps every other
   * parameter; it is active exactly on the current field, where it toggles the
   * current order and shows the indicator; elsewhere it asks for the field's
   * default order without an indicator.
   */
  lemma LinkFacts(entry: (string, SortRow), current: (Option<string>, string), url: ParsedUrl,
                  toUrl: (string, PhpArray<string>, string) -> string)
    ensures var link := Link(entry, current, url, toUrl);
      var q := LinkQuery(url.query, entry.0, link.order);
      && link.sortField == entry.0 && link.title == entry.1.title
      && link.url == toUrl(url.path, q, url.fragment)
      && Get(q, "sort") == Some(entry.0) && Get(q, "order") == Some(link.order)
      && (forall k :: k != "sort" && k != "order" ==> Get(q, k) == Get(url.query, k))
      && (link.active <==> LooseEq(entry.0, current.0))
      && (link.active ==> link.order == Toggle(current.1) && link.indicator == Some(link.order))
      && (!link.active ==> link.order == entry.1.defaultOrder && link.indicator.None?)
  {
  }

  /** With distinct field identifiers at most one link is active. */
  lemma AtMostOneActive(sorted: PhpArray<SortRow>, current: (Option<string>, string), url: ParsedUrl,
                        toUrl: (string, PhpArray<string>, string) -> string, i: int, j: int)
    requires UniqueKeys(sorted) && 0 <= i < j < |sorted|
    ensures !(Links(sorted, current, url, toUrl)[i].active && Links(sorted, current, url, toUrl)[j].active)
  {
    LinksAt(sorted, current, url, toUrl, i);
    LinksAt(sorted, current, url, toUrl, j);
    assert sorted[i].0 != sorted[j].0;
  }

  /** Setting `sort` and `order` again on a query that already went through one link leaves no trace of that link. */
  lemma LinkQueryAgain(query: PhpArray<string>, f: string, o: string, f': string, o': string)
    ensures LinkQuery(LinkQuery(query, f, o), f', o') == LinkQuery(query, f', o')
  {
    var x := Put(query, "sort", f);
    PutCommute(x, "sort", f', "order", o);
    PutPut(query, "sort", f, f');
    PutPut(Put(query, "sort", f'), "order", o, o');
  }

  lemma LinksStep(sorted: PhpArray<SortRow>, current: (Option<string>, string), url: ParsedUrl,
                  toUrl: (string, PhpArray<string>, string) -> string, i: int)
    requires 0 <= i < |sorted|
    ensures Links(sorted[..i + 1], current, url, toUrl) == Links(sorted[..i], current, url, toUrl) + [Link(sorted[i], current, url, toUrl)]
  {
    assert sorted[..i + 1][..i] == sorted[..i];
  }

  /**
   * One pass of the links loop: `sort` and `order` are written into the parsed
   * query, which holds the original query or the one the previous link left.
   */
  method BuildLink(entry: (string, SortRow), current: (Option<string>, string), url: ParsedUrl,
                   toUrl: (string, PhpArray<string>, string) -> string, query: PhpArray<string>,
                   ghost previousField: string, ghost previousOrder: string)
    returns (link: SortLink, query': PhpArray<string>)
    requires query == url.query || query == LinkQuery(url.query, previousField, previousOrder)
    ensures link == Link(entry, current, url, toUrl)
    ensures query' == LinkQuery(url.query, entry.0, link.order)
  {
    var sortField := entry.0;
    var row := entry.1;
    var order := row.defaultOrder;
    if LooseEq(sortField, current.0) {
      order := if current.1 == "desc" then "asc" else "desc";
    }
    if query != url.query {
      LinkQueryAgain(url.query, previousField, previousOrder, sortField, order);
    }
    query' := Put(query, "sort", sortField);
    query' := Put(query', "order", order);
    var active := LooseEq(sortField, current.0);
    var indicator := None;
    if active {
      indicator := Some(order);
    }
    link := SortLink(row.title, toUrl(url.path, query', url.fragment), active, order, indicator, sortField);
  }

  /** The links loop, which keeps writing `sort` and `order` into the same parsed URL. */
  method BuildLinks(sorted: PhpArray<SortRow>, current: (Option<string>, string), url: ParsedUrl,
                    toUrl: (string, PhpArray<string>, string) -> string) returns (items: seq<SortLink>)
    ensures items == Links(sorted, current, url, toUrl)
  {
    var query := url.query;
    ghost var previousField, previousOrder := "", "";
    items := [];
    var i := 0;
    while i < |sorted|
      invariant 0 <= i <= |sorted|
      invariant items == Links(sorted[..i], current, url, toUrl)
      invariant query == url.query || query == LinkQuery(url.query, previousField, previousOrder)
    {
      var link;
      link, query := BuildLink(sorted[i], current, url, toUrl, query, previousField, previousOrder);
      previousField, previousOrder := sorted[i].0, link.order;
      LinksStep(sorted, current, url, toUrl, i);
      items := items + [link];
      i := i + 1;
    }
    assert sorted[..i] == sorted;
  }

  /** Over rows with distinct keys: one link per key, and at most one of them active. */
  lemma LinksFacts(sorted: PhpArray<SortRow>, current: (Option<string>, string), url: ParsedUrl,
                   toUrl: (string, PhpArray<string>, string) -> string)
    requires UniqueKeys(sorted)
    ensures var items := Links(sorted, current, url, toUrl);
      && (forall i :: 0 <= i < |items| ==> items[i].sortField == sorted[i].0)
      && (forall k :: Linked(items, k) <==> HasKey(sorted, k))
      && (forall i, j :: 0 <= i < j < |items| ==> items[i].sortField != items[j].sortField)
      && (forall i, j :: 0 <= i < j < |items| ==> !(items[i].active && items[j].active))
  {
    var items := Links(sorted, current, url, toUrl);
    forall i | 0 <= i < |items| ensures items[i].sortField == sorted[i].0 {
      LinksAt(sorted, current, url, toUrl, i);
    }
    forall k ensures Linked(items, k) <==> HasKey(sorted, k) {
      if HasKey(sorted, k) {
        var i :| 0 <= i < |sorted| && sorted[i].0 == k;
        assert items[i].sortField == k;
      }
    }
    forall i, j | 0 <= i < j < |items| ensures !(items[i].active && items[j].active) {
      AtMostOneActive(sorted, current, url, toUrl, i, j);
    }
  }

  /** `build()`. */
  function BlockOutput(page: Page, storage: seq<SortEntity>, services: Services): BlockBuild {
    if !page.rendered then Hidden
    else
      var enabled := EnabledSorts(storage, page.displayPluginId);
      if enabled == [] then Hidden
      else
        var current := CurrentSort(ActiveSort(page.request, page.displayPluginId, services.activeAlter),
                                   DefaultSort(enabled, page.displayPluginId, services.defaultAlter));
        var sorted := SortByWeight(Rows(enabled), RowWeight);
        var path := if page.basePath == "" then page.requestUri else StrReplace(page.requestUri, page.basePath, "");
        Shown(Links(sorted, current, services.parse(path), services.toUrl),
              ["search-api-sorts", "search-api-sorts--" + services.getClass(page.displayPluginId)],
              page.indexId, EscapedConfigId(page.displayPluginId))
  }

  /** `build()`, step by step. */
  method Build(page: Page, storage: seq<SortEntity>, services: Services) returns (b: BlockBuild)
    ensures b == BlockOutput(page, storage, services)
  {
    if !page.rendered {
      return Hidden;
    }
    var enabled := EnabledSorts(storage, page.displayPluginId);
    if enabled == [] {
      return Hidden;
    }
    var active := GetActiveSort(page.request, page.displayPluginId, services.activeAlter);
    var currentField := active.GetFieldName();
    var currentOrder := active.GetOrder();
    if LooseEq("", active.GetFieldName()) {
      var default := GetDefaultSort(enabled, page.displayPluginId, services.defaultAlter);
      currentField := default.GetFieldName();
      currentOrder := default.GetOrder();
    }
    var rows := CollectRows(enabled);
    var sorted := SortByWeight(rows, RowWeight);
    var path := page.requestUri;
    if page.basePath != "" {
      path := StrReplace(page.requestUri, page.basePath, "");
    }
    var items := BuildLinks(sorted, (currentField, currentOrder), services.parse(path), services.toUrl);
    b := Shown(items, ["search-api-sorts", "search-api-sorts--" + services.getClass(page.displayPluginId)],
               page.indexId, EscapedConfigId(page.displayPluginId));
  }

  /**
   * The block is hidden exactly when the display is not rendered or has no
   * enabled sort; otherwise it links every sorted field once, lightest first,
   * with at most one active link.
   */
  lemma BlockOutputFacts(page: Page, storage: seq<SortEntity>, services: Services)
    ensures var enabled := EnabledSorts(storage, page.displayPluginId);
      BlockOutput(page, storage, services).Hidden? <==> !page.rendered || enabled == []
    ensures var b := BlockOutput(page, storage, services);
      var enabled := EnabledSorts(storage, page.displayPluginId);
      b.Shown? ==>
        && b.displayParam == EscapedConfigId(page.displayPluginId) && ':' !in b.displayParam
        && (forall k :: Linked(b.items, k) <==> HasEnabledField(enabled, k))
        && (forall i, j :: 0 <= i < j < |b.items| ==> b.items[i].sortField != b.items[j].sortField)
        && (forall i, j :: 0 <= i < j < |b.items| ==> !(b.items[i].active && b.items[j].active))
        && (forall i, j :: 0 <= i < j < |b.items| ==>
              WeightOf(Rows(enabled), b.items[i].sortField) <= WeightOf(Rows(enabled), b.items[j].sortField))
  {
    var b := BlockOutput(page, storage, services);
    if b.Shown? {
      var enabled := EnabledSorts(storage, page.displayPluginId);
      var rows := Rows(enabled);
      var sorted := SortByWeight(rows, RowWeight);
      SortKeepsRows(rows, RowWeight);
      PermutationKeepsUniqueKeys(rows, sorted);
      var current := CurrentSort(ActiveSort(page.request, page.displayPluginId, services.activeAlter),
                                 DefaultSort(enabled, page.displayPluginId, services.defaultAlter));
      var path := if page.basePath == "" then page.requestUri else StrReplace(page.requestUri, page.basePath, "");
      LinksFacts(sorted, current, services.parse(path), services.toUrl);
      forall i | 0 <= i < |sorted| ensures WeightOf(rows, sorted[i].0) == sorted[i].1.weight {
        assert sorted[i] in multiset(rows);
        GetMember(rows, sorted[i]);
      }
    }
  }
}
