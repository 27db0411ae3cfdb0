/** The adapter with two kinds of rows (`MultipleViewTypesAdapter`): every item
    is a title or a description, and the host asks for each row's view type. */
module MultipleViewTypes {
  import opened Wrappers

  /** ItemType.TYPE_TITLE and ItemType.TYPE_DESCRIPTION. */
  const TypeTitle: int := 0
  const TypeDescription: int := 1

  /** ItemType with its two implementations; their data is not modelled. */
  datatype ItemType = Title | Description
  {
    /** getType: the tag of the item's kind, distinct for the two kinds. */
    function Type(): (t: int)
      ensures t == TypeTitle <==> this.Title?
      ensures t == TypeDescription <==> this.Description?
    {
      match this
      case Title => TypeTitle
      case Description => TypeDescription
    }
  }

  /** getViewTypeCount: the number of view types; every item's tag lies below it. */
  function ViewTypeCount(): (n: int)
    ensures forall it: ItemType :: 0 <= it.Type() < n
    ensures n == 2
  {
    2
  }

  /** `items` is mItemList. */
  class MultipleViewTypesAdapter {
    var items: seq<ItemType>

    constructor()
      ensures items == []
    {
      items := [];
    }

    /** add(List): appends all items in order; null is ignored. */
    method AddAll(itemList: Option<seq<ItemType>>)
      modifies this
      ensures itemList.None? ==> items == old(items)
      ensures itemList.Some? ==> items == old(items) + itemList.value
    {
      if itemList.None? {
        return;
      }
      items := items + itemList.value;
    }

    /** add(ItemType): appends one item; null is ignored. */
    method Add(item: Option<ItemType>)
      modifies this
      ensures item.None? ==> items == old(items)
      ensures item.Some? ==> items == old(items) + [item.value]
    {
      if item.None? {
        return;
      }
      items := items + [item.value];
    }

    method Clear()
      modifies this
      ensures items == []
    {
      items := [];
    }

    /** getItemViewType: the tag of the item at `position`; 0 for a title, 1 for
        a description, always a valid view type; outside the list, the
        exception getItem throws. */
    function ItemViewType(position: int): (r: Result<int>)
      reads this
      ensures r.Ok? <==> 0 <= position < Count()
      ensures r.Ok? ==> 0 <= r.value < ViewTypeCount()
      ensures r.Ok? ==> (r.value == TypeTitle <==> items[position].Title?)
      ensures r.Ok? ==> (r.value == TypeDescription <==> items[position].Description?)
      ensures r.IndexOutOfBounds? ==> r.index == position && r.size == Count()
    {
      match GetItem(position)
      case Ok(item) => Ok(item.Type())
      case IndexOutOfBounds(i, n) => IndexOutOfBounds(i, n)
    }

    /** getCount: the number of rows. */
    function Count(): (n: int)
      reads this
      ensures n == |items|
    {
      |items|
    }

    /** getItem: the item at `position`, or the exception outside 0 .. Count()-1. */
    function GetItem(position: int): (r: Result<ItemType>)
      reads this
      ensures r.Ok? <==> 0 <= position < Count()
      ensures r.Ok? ==> r.value == items[position]
      ensures r.IndexOutOfBounds? ==> r.index == position && r.size == Count()
    {
      At(items, position)
    }

    /** getItemId: a row's id is its position. */
    function ItemId(position: int): (id: int)
      ensures id == position
    {
      position
    }
  }

  /** Adding a list keeps the view types of the rows already there and gives
      the new rows the types of the added items. */
  method AddAllKeepsViewTypes(a: MultipleViewTypesAdapter, itemList: seq<ItemType>, position: int)
    modifies a
    ensures a.items == old(a.items) + itemList
    ensures 0 <= position < old(a.Count()) ==> a.ItemViewType(position) == old(a.ItemViewType(position))
    ensures old(a.Count()) <= position < a.Count() ==>
              a.ItemViewType(position) == Ok(itemList[position - old(a.Count())].Type())
  {
    a.AddAll(Some(itemList));
  }
}
