/** The two-level adapter (`ExpandableListViewAdapter`): a list of groups, each
    holding a list of children. */
module Expandable {
  import opened Wrappers

  /** A row under a group; only its text is shown. */
  datatype ChildItem = ChildItem(text: string)

  /** A group row and the children shown when it is expanded. */
  datatype ParentItem = ParentItem(text: string, children: seq<ChildItem>)

  /** `groups` is mItemList. */
  class ExpandableListViewAdapter {
    var groups: seq<ParentItem>

    /** The adapter starts out with the caller's groups. */
    constructor(itemList: seq<ParentItem>)
      ensures groups == itemList
    {
      groups := itemList;
    }

    /** add(List) as written: the addAll call targets the argument itself, so
        the caller's list ends up holding its elements twice and the adapter is
        not touched (this method may modify nothing). */
    method AddAll(itemList: Option<seq<ParentItem>>) returns (argumentAfter: Option<seq<ParentItem>>)
      ensures itemList.None? ==> argumentAfter.None?
      ensures itemList.Some? ==> argumentAfter == Some(itemList.value + itemList.value)
    {
      if itemList.None? {
        return None;
      }
      var arg := itemList.value;
      arg := arg + arg;
      argumentAfter := Some(arg);
    }

    /** add(List) as evidently intended: the argument is appended to the groups. */
    method AddAllIntended(itemList: Option<seq<ParentItem>>)
      modifies this
      ensures itemList.None? ==> groups == old(groups)
      ensures itemList.Some? ==> groups == old(groups) + itemList.value
    {
      if itemList.None? {
        return;
      }
      groups := groups + itemList.value;
    }

    /** add(ParentItem): appends one group; null is ignored. */
    method Add(item: Option<ParentItem>)
      modifies this
      ensures item.None? ==> groups == old(groups)
      ensures item.Some? ==> groups == old(groups) + [item.value]
    {
      if item.None? {
        return;
      }
      groups := groups + [item.value];
    }

    method Clear()
      modifies this
      ensures groups == []
    {
      groups := [];
    }

    /** getChild: the child at `childPosition` of the group at `groupPosition`;
        it exists exactly when the group exists and the child position is below
        that group's children count. */
    function Child(groupPosition: int, childPosition: int): (r: Result<ChildItem>)
      reads this
      ensures r.Ok? <==> ChildrenCount(groupPosition).Ok? &&
                         0 <= childPosition < ChildrenCount(groupPosition).value
      ensures r.Ok? ==> r.value == groups[groupPosition].children[childPosition]
      ensures r.IndexOutOfBounds? && !(0 <= groupPosition < GroupCount()) ==>
                r.index == groupPosition && r.size == GroupCount()
      ensures r.IndexOutOfBounds? && 0 <= groupPosition < GroupCount() ==>
                r.index == childPosition && r.size == |groups[groupPosition].children|
    {
      match Group(groupPosition)
      case Ok(group) => At(group.children, childPosition)
      case IndexOutOfBounds(i, n) => IndexOutOfBounds(i, n)
    }

    /** getChildId: a child's id is its position within its group. */
    function ChildId(groupPosition: int, childPosition: int): (id: int)
      ensures id == childPosition
    {
      childPosition
    }

    /** getChildrenCount: the number of children of an existing group. */
    function ChildrenCount(groupPosition: int): (r: Result<int>)
      reads this
      ensures r.Ok? <==> Group(groupPosition).Ok?
      ensures r.Ok? ==> r.value == |groups[groupPosition].children|
    {
      match Group(groupPosition)
      case Ok(group) => Ok(|group.children|)
      case IndexOutOfBounds(i, n) => IndexOutOfBounds(i, n)
    }

    /** getGroup: the group at `groupPosition`, or the exception outside
        0 .. GroupCount()-1. */
    function Group(groupPosition: int): (r: Result<ParentItem>)
      reads this
      ensures r.Ok? <==> 0 <= groupPosition < GroupCount()
      ensures r.Ok? ==> r.value == groups[groupPosition]
      ensures r.IndexOutOfBounds? ==> r.index == groupPosition && r.size == GroupCount()
    {
      At(groups, groupPosition)
    }

    /** getGroupCount: the number of groups. */
    function GroupCount(): (n: int)
      reads this
      ensures n == |groups|
    {
      |groups|
    }

    /** getGroupId: a group's id is its position. */
    function GroupId(groupPosition: int): (id: int)
      ensures id == groupPosition
    {
      groupPosition
    }

    /** hasStableIds: ids are declared stable. */
    function HasStableIds(): (b: bool)
      ensures b
    {
      true
    }

    /** isChildSelectable: every child can be selected. */
    function IsChildSelectable(groupPosition: int, childPosition: int): (b: bool)
      ensures b
    {
      true
    }
  }

  /** add(List) as written leaves a fresh adapter empty and doubles the
      argument, where the intended append would show the one group added. */
  method AddAllDiscrepancy() returns (asWritten: int, intended: int, argumentAfter: Option<seq<ParentItem>>)
    ensures asWritten == 0
    ensures intended == 1
    ensures argumentAfter.Some? && |argumentAfter.value| == 2
  {
    var g := ParentItem("group", [ChildItem("child")]);
    var a := new ExpandableListViewAdapter([]);
    argumentAfter := a.AddAll(Some([g]));
    asWritten := a.GroupCount();
    var b := new ExpandableListViewAdapter([]);
    b.AddAllIntended(Some([g]));
    intended := b.GroupCount();
  }
}
