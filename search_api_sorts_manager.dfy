/**
 * The Search API sorts manager: the sort requested by the current request,
 * the sorts enabled for a display, and the display's default sort.
 */
module SortsManager {
  import opened Php
  import opened SortsFields
  import opened ConfigIdEscape

  /** A stored sort setting of one display (the search_api_sorts_field config entity). */
  datatype SortEntity = SortEntity(
    id: string,
    status: bool,
    displayId: string,
    fieldIdentifier: string,
    defaultSort: bool,
    defaultOrder: string,
    displayLabel: string,
    weight: int)

  /** The request parameters the manager reads. */
  datatype Request = Request(sort: Option<string>, order: Option<string>)

  /**
   * An alter hook: given the sort's field, its order and the display, the field
   * and order it leaves set (it can only use the setters).
   */
  type SortAlter = (Option<string>, string, string) -> (Option<string>, Option<string>)

  /** `strtolower($order) === 'desc' ? 'desc' : 'asc'`: case is ignored, NULL reads as ''. */
  function ActiveOrder(order: Option<string>): (r: string)
    ensures r == "asc" || r == "desc"
  {
    if ToLower(order.GetOr("")) == "desc" then "desc" else "asc"
  }

  /** The active sort as (field, order): the request's, altered when its field is truthy. */
  function ActiveSort(request: Request, display: string, alter: SortAlter): (r: (Option<string>, string))
    ensures r.1 == "asc" || r.1 == "desc"
    ensures !Truthy(request.sort) ==> r == (request.sort, ActiveOrder(request.order))
    ensures Truthy(request.sort) ==> r == (alter(request.sort, ActiveOrder(request.order), display).0,
                                           NormalizeOrder(alter(request.sort, ActiveOrder(request.order), display).1))
  {
    var order := ActiveOrder(request.order);
    if Truthy(request.sort) then
      var altered := alter(request.sort, order, display);
      (altered.0, NormalizeOrder(altered.1))
    else (request.sort, order)
  }

  /** Lower-case and upper-case "desc" both sort descending here, unlike in the value object. */
  lemma ActiveOrderCases()
    ensures ActiveOrder(Some("desc")) == "desc" && ActiveOrder(Some("DESC")) == "desc" && ActiveOrder(Some("DeSc")) == "desc"
    ensures ActiveOrder(Some("asc")) == "asc" && ActiveOrder(Some("aaa")) == "asc" && ActiveOrder(None) == "asc"
    ensures NormalizeOrder(Some("DESC")) == "asc"
  {
    assert ToLower("DESC") == "desc" by {
      assert |ToLower("DESC")| == 4;
      assert ToLower("DESC")[0] == 'd' && ToLower("DESC")[1] == 'e' && ToLower("DESC")[2] == 's' && ToLower("DESC")[3] == 'c';
    }
    assert ToLower("DeSc") == "desc" by {
      assert |ToLower("DeSc")| == 4;
      assert ToLower("DeSc")[0] == 'd' && ToLower("DeSc")[1] == 'e' && ToLower("DeSc")[2] == 's' && ToLower("DeSc")[3] == 'c';
    }
    assert ToLower("asc")[0] == 'a';
    assert ToLower("aaa")[1] == 'a';
    NormalizeOrderCases();
  }

  /** `getActiveSort`. */
  method GetActiveSort(request: Request, display: string, alter: SortAlter) returns (s: SortsField)
    ensures fresh(s) && s.Valid()
    ensures (s.field, s.order) == ActiveSort(request, display, alter)
  {
    var order := if ToLower(request.order.GetOr("")) == "desc" then "desc" else "asc";
    s := new SortsField(request.sort, Some(order));
    if Truthy(s.GetFieldName()) {
      var altered := alter(s.field, s.order, display);
      s.SetFieldName(altered.0);
      s.SetOrder(altered.1);
    }
  }

  /** `getEnabledSorts`: the stored settings with status on and this display's escaped id, in storage order. */
  function EnabledSorts(storage: seq<SortEntity>, displayPluginId: string): (r: seq<SortEntity>)
    ensures |r| <= |storage|
    ensures forall e :: e in r <==> e in storage && e.status && e.displayId == EscapedConfigId(displayPluginId)
    decreases |storage|
  {
    if storage == [] then []
    else
      var rest := EnabledSorts(storage[1..], displayPluginId);
      assert storage == [storage[0]] + storage[1..];
      if storage[0].status && storage[0].displayId == EscapedConfigId(displayPluginId) then [storage[0]] + rest
      else rest
  }

  const Relevance: string := "search_api_relevance"

  /** The default sort before the alter hook: the last enabled sort flagged default, else relevance descending. */
  function DefaultChoice(enabled: seq<SortEntity>): (r: (Option<string>, string))
    ensures r.1 == "asc" || r.1 == "desc"
    decreases |enabled|
  {
    if enabled == [] then (Some(Relevance), "desc")
    else
      var last := enabled[|enabled| - 1];
      if last.defaultSort then (Some(last.fieldIdentifier), NormalizeOrder(Some(last.defaultOrder)))
      else DefaultChoice(enabled[..|enabled| - 1])
  }

  /** No flagged sort leaves relevance descending; otherwise the last flagged one wins with its own order. */
  lemma {:induction false} DefaultChoiceIsLastFlagged(enabled: seq<SortEntity>, j: int)
    ensures (forall e :: e in enabled ==> !e.defaultSort) ==> DefaultChoice(enabled) == (Some(Relevance), "desc")
    ensures 0 <= j < |enabled| && enabled[j].defaultSort && (forall k :: j < k < |enabled| ==> !enabled[k].defaultSort)
      ==> DefaultChoice(enabled) == (Some(enabled[j].fieldIdentifier), NormalizeOrder(Some(enabled[j].defaultOrder)))
    decreases |enabled|
  {
    if enabled != [] {
      var init := enabled[..|enabled| - 1];
      assert forall e :: e in init ==> e in enabled;
      assert forall k :: 0 <= k < |init| ==> init[k] == enabled[k];
      DefaultChoiceIsLastFlagged(init, j);
    }
  }

  /** The default sort as (field, order): the choice above, passed through the default-sort alter hook. */
  function DefaultSort(enabled: seq<SortEntity>, display: string, alter: SortAlter): (r: (Option<string>, string))
    ensures r.1 == "asc" || r.1 == "desc"
  {
    var choice := DefaultChoice(enabled);
    var altered := alter(choice.0, choice.1, display);
    (altered.0, NormalizeOrder(altered.1))
  }

  /** `getDefaultSort` on the enabled sorts, followed by the default-sort alter hook. */
  method GetDefaultSort(enabled: seq<SortEntity>, display: string, alter: SortAlter) returns (s: SortsField)
    ensures fresh(s) && s.Valid()
    ensures (s.field, s.order) == DefaultSort(enabled, display, alter)
  {
    s := new SortsField(Some(Relevance), Some("desc"));
    var i := 0;
    while i < |enabled|
      invariant 0 <= i <= |enabled|
      invariant fresh(s) && s.Valid()
      invariant (s.field, s.order) == DefaultChoice(enabled[..i])
    {
      assert enabled[..i + 1][..i] == enabled[..i];
      if enabled[i].defaultSort {
        s := new SortsField(Some(enabled[i].fieldIdentifier), Some(enabled[i].defaultOrder));
      }
      i := i + 1;
    }
    assert enabled[..i] == enabled;
    var altered := alter(s.field, s.order, display);
    s.SetFieldName(altered.0);
    s.SetOrder(altered.1);
  }
}
