/**
 * The sort value object of Search API sorts: a field to sort on and an order
 * that is always "asc" or "desc".
 */
module SortsFields {
  import opened Php

  /** `$order == 'desc' ? 'desc' : 'asc'`: only the exact string "desc" sorts descending. */
  function NormalizeOrder(order: Option<string>): (r: string)
    ensures r == "asc" || r == "desc"
    ensures r == "desc" <==> order == Some("desc")
  {
    if LooseEq("desc", order) then "desc" else "asc"
  }

  class SortsField {
    var field: Option<string>
    var order: string

    /** The order is one of the two directions. */
    ghost predicate Valid()
      reads this
    {
      order == "asc" || order == "desc"
    }

    /** `__construct($field, $order = NULL)`. */
    constructor (field: Option<string>, order: Option<string>)
      ensures Valid()
      ensures this.field == field && this.order == NormalizeOrder(order)
    {
      this.field := field;
      this.order := NormalizeOrder(order);
    }

    method SetFieldName(field: Option<string>)
      requires Valid()
      modifies this
      ensures Valid()
      ensures this.field == field && order == old(order)
    {
      this.field := field;
    }

    function GetFieldName(): Option<string>
      reads this
    {
      field
    }

    method SetOrder(order: Option<string>)
      requires Valid()
      modifies this
      ensures Valid()
      ensures this.order == NormalizeOrder(order) && field == old(field)
    {
      this.order := NormalizeOrder(order);
    }

    function GetOrder(): (r: string)
      requires Valid()
      reads this
      ensures r == "asc" || r == "desc"
    {
      order
    }
  }

  /** Only "desc" itself gives "desc": no order, other words and other cases give "asc". */
  lemma NormalizeOrderCases()
    ensures NormalizeOrder(None) == "asc"
    ensures NormalizeOrder(Some("aaa")) == "asc" && NormalizeOrder(Some("owl")) == "asc"
    ensures NormalizeOrder(Some("DESC")) == "asc"
    ensures NormalizeOrder(Some("asc")) == "asc" && NormalizeOrder(Some("desc")) == "desc"
  {
    assert "DESC" != "desc" by { assert "DESC"[0] != "desc"[0]; }
  }

  /** The setters touch one field each; the last values stored are read back. */
  method SettersExample() returns (s: SortsField)
    ensures s.Valid() && s.GetFieldName() == Some("title") && s.GetOrder() == "desc"
  {
    s := new SortsField(Some("search_api_relevance"), None);
    assert s.GetOrder() == "asc";
    s.SetOrder(Some("desc"));
    s.SetFieldName(Some("title"));
  }
}
