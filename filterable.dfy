/** The filterable string list adapter (`FilterableAdapter`): a master list of
    strings and a filtered list that the host list widget displays. */
module Filterable {
  import opened Wrappers
  import opened Subsequences

  /** Java's String.contains: `c` occurs in `s` as a contiguous, case-sensitive
      run of characters. The empty string occurs in every string. */
  predicate Contains(s: string, c: string)
  {
    exists i :: 0 <= i <= |s| - |c| && OccursAt(s, c, i)
  }

  /** `c` occurs in `s` starting at index `i`. */
  predicate OccursAt(s: string, c: string, i: int)
  {
    0 <= i && i + |c| <= |s| && s[i..i + |c|] == c
  }

  lemma ContainsEmpty(s: string)
    ensures Contains(s, "")
  {
    assert OccursAt(s, "", 0);
  }

  /** No two-character window of `s` is "ap". */
  lemma NoAp(s: string)
    requires forall i :: 0 <= i < |s| - 1 ==> s[i] != 'a' || s[i + 1] != 'p'
    ensures !Contains(s, "ap")
  {
    forall i | 0 <= i <= |s| - 2 ensures !OccursAt(s, "ap", i) {
      if i + 2 <= |s| {
        assert s[i..i + 2][0] == s[i] && s[i..i + 2][1] == s[i + 1];
      }
    }
  }

  /** The master elements that contain `c`, in master order: what `filter`
      leaves in the filtered list. */
  function Filtered(s: seq<string>, c: string): (r: seq<string>)
    ensures |r| <= |s|
    ensures forall x :: x in r <==> x in s && Contains(x, c)
  {
    if s == [] then []
    else
      var p, x := s[..|s| - 1], s[|s| - 1];
      assert s == p + [x];
      Filtered(p, c) + (if Contains(x, c) then [x] else [])
  }

  /** Filtering keeps every matching occurrence and drops every other one. */
  lemma {:induction false} FilteredCounts(s: seq<string>, c: string, x: string)
    ensures multiset(Filtered(s, c))[x] == if Contains(x, c) then multiset(s)[x] else 0
  {
    if s != [] {
      var p, y := s[..|s| - 1], s[|s| - 1];
      assert s == p + [y];
      FilteredCounts(p, c, x);
    }
  }

  /** The positions of `s` that `Filtered` keeps, in increasing order. */
  lemma {:induction false} FilteredEmbedding(s: seq<string>, c: string) returns (idx: seq<int>)
    ensures Embeds(idx, Filtered(s, c), s)
  {
    if s == [] {
      idx := [];
    } else {
      var p, y := s[..|s| - 1], s[|s| - 1];
      assert s == p + [y];
      var pre := FilteredEmbedding(p, c);
      idx := if Contains(y, c) then pre + [|p|] else pre;
      forall k | 0 <= k < |pre| ensures s[pre[k]] == p[pre[k]] { }
    }
  }

  /** The filtered list is an order-preserving sub-list of the master list. */
  lemma FilteredIsSubsequence(s: seq<string>, c: string)
    ensures IsSubsequence(Filtered(s, c), s)
  {
    var idx := FilteredEmbedding(s, c);
  }

  /** A list whose every element matches is left as it is. */
  lemma {:induction false} FilteredAllMatch(s: seq<string>, c: string)
    requires forall x :: x in s ==> Contains(x, c)
    ensures Filtered(s, c) == s
  {
    if s != [] {
      var p, y := s[..|s| - 1], s[|s| - 1];
      assert s == p + [y];
      FilteredAllMatch(p, c);
    }
  }

  /** `filter("")` restores the whole master list. */
  lemma FilteredEmptyConstraint(s: seq<string>)
    ensures Filtered(s, "") == s
  {
    forall x | x in s ensures Contains(x, "") {
      ContainsEmpty(x);
    }
    FilteredAllMatch(s, "");
  }

  /** Filtering twice with the same constraint gives the same list as once. */
  lemma FilteredIdempotent(s: seq<string>, c: string)
    ensures Filtered(Filtered(s, c), c) == Filtered(s, c)
  {
    FilteredAllMatch(Filtered(s, c), c);
  }

  /** Filtering a concatenation filters each part. */
  lemma {:induction false} FilteredAppend(s: seq<string>, t: seq<string>, c: string)
    ensures Filtered(s + t, c) == Filtered(s, c) + Filtered(t, c)
  {
    if t != [] {
      var q, y := t[..|t| - 1], t[|t| - 1];
      assert t == q + [y];
      assert s + t == (s + q) + [y];
      FilteredAppend(s, q, c);
    } else {
      assert s + t == s;
    }
  }

  /** Order is preserved: "ap" keeps "apple" and "apricot" and drops "banana". */
  lemma FilteredKeepsOrder()
    ensures Filtered(["apple", "banana", "apricot"], "ap") == ["apple", "apricot"]
  {
    var s := ["apple", "banana", "apricot"];
    assert OccursAt("apple", "ap", 0);
    assert OccursAt("apricot", "ap", 0);
    NoAp("banana");
    assert s[..2][..1] == ["apple"];
    assert s[..2] == ["apple", "banana"];
    assert s[..1] == ["apple"];
    assert s[..1][..0] == [];
  }

  /** Appending a rejected item to a filtered list gives a list that filtering
      the extended master list would not give. */
  lemma StaleAfterAdd(s: seq<string>, c: string, x: string)
    requires !Contains(x, c)
    ensures Filtered(s, c) + [x] != Filtered(s + [x], c)
  {
    // x is in the left side; Filtered's membership clause keeps it out of the right
  }

  /** The list adapter. `items` is mItemList, the master list; `filtered` is
      mFilteredList, the list the host widget shows. */
  class FilterableAdapter {
    var items: seq<string>
    var filtered: seq<string>

    /** Every operation keeps the shown list an order-preserving sub-list of the
        master list, even though `Add` does not re-apply the last constraint. */
    ghost predicate Valid()
      reads this
    {
      IsSubsequence(filtered, items)
    }

    /** What the invariant gives the host: every shown row is a master element
        and there are never more rows than master elements. */
    lemma ShownWithinMaster()
      requires Valid()
      ensures Count() <= |items|
      ensures forall x :: x in filtered ==> x in items
    {
      SubsequenceElements(filtered, items);
    }

    constructor()
      ensures Valid()
      ensures items == [] && filtered == []
    {
      items := [];
      filtered := [];
      new;
      EmptyIsSubsequence<string>([]);
    }

    /** add(List): appends the whole list to both lists; null is ignored. */
    method AddAll(itemList: Option<seq<string>>)
      requires Valid()
      modifies this
      ensures Valid()
      ensures itemList.None? ==> items == old(items) && filtered == old(filtered)
      ensures itemList.Some? ==> items == old(items) + itemList.value
      ensures itemList.Some? ==> filtered == old(filtered) + itemList.value
    {
      if itemList.None? {
        return;
      }
      SubsequenceAppend(filtered, items, itemList.value);
      items := items + itemList.value;
      filtered := filtered + itemList.value;
    }

    /** add(String): appends one item to both lists without re-filtering; null is ignored. */
    method Add(item: Option<string>)
      requires Valid()
      modifies this
      ensures Valid()
      ensures item.None? ==> items == old(items) && filtered == old(filtered)
      ensures item.Some? ==> items == old(items) + [item.value]
      ensures item.Some? ==> filtered == old(filtered) + [item.value]
    {
      if item.None? {
        return;
      }
      SubsequenceAppend(filtered, items, [item.value]);
      items := items + [item.value];
      filtered := filtered + [item.value];
    }

    method Clear()
      requires Valid()
      modifies this
      ensures Valid()
      ensures items == [] && filtered == []
    {
      items := [];
      filtered := [];
      EmptyIsSubsequence<string>([]);
    }

    /** getCount: the number of rows shown. */
    function Count(): (n: int)
      reads this
      ensures n == |filtered|
    {
      |filtered|
    }

    /** getItem: the shown row at `position`, or the exception for a position
        outside 0 .. Count()-1. */
    function GetItem(position: int): (r: Result<string>)
      reads this
      ensures r.Ok? <==> 0 <= position < Count()
      ensures r.Ok? ==> r.value == filtered[position]
      ensures r.IndexOutOfBounds? ==> r.index == position && r.size == Count()
    {
      At(filtered, position)
    }

    /** getItemId: a row's id is its position. */
    function ItemId(position: int): (id: int)
      ensures id == position
    {
      position
    }

    /** filter: a null constraint or an empty master list changes nothing (a
        stale filtered list stays stale); otherwise the shown list becomes the
        master elements containing the constraint, in master order. */
    method Filter(constraint: Option<string>)
      requires Valid()
      modifies this
      ensures Valid()
      ensures items == old(items)
      ensures constraint.None? || old(items) == [] ==> filtered == old(filtered)
      ensures constraint.Some? && old(items) != [] ==>
                filtered == Filtered(old(items), constraint.value)
    {
      if constraint.None? || items == [] {
        return;
      }
      var c := constraint.value;
      var resultList: seq<string> := [];
      for k := 0 to |items|
        invariant resultList == Filtered(items[..k], c)
      {
        var item := items[k];
        assert items[..k + 1][..k] == items[..k];
        if Contains(item, c) {
          resultList := resultList + [item];
        }
      }
      assert items[..|items|] == items;
      FilteredIsSubsequence(items, c);
      filtered := resultList;
    }
  }

  /** A filter followed by an add shows the added item whatever the constraint:
      the shown list is then no longer what filtering the master list gives. */
  method FilterThenAdd(a: FilterableAdapter, c: string, x: string)
    requires a.Valid() && a.items != []
    modifies a
    ensures a.Valid()
    ensures a.items == old(a.items) + [x]
    ensures a.filtered == Filtered(old(a.items), c) + [x]
    ensures !Contains(x, c) ==> a.filtered != Filtered(a.items, c)
  {
    a.Filter(Some(c));
    a.Add(Some(x));
    if !Contains(x, c) {
      StaleAfterAdd(old(a.items), c, x);
    }
  }

  /** Whatever list is added to a fresh adapter, `filter("")` then shows all of it. */
  method CountAfterMatchAll(s: seq<string>) returns (n: int)
    ensures n == |s|
  {
    var a := new FilterableAdapter();
    a.AddAll(Some(s));
    assert a.items == s && a.filtered == s;
    a.Filter(Some(""));
    FilteredEmptyConstraint(s);
    assert a.filtered == s;
    n := a.Count();
  }

  /** After clear, filtering is a no-op and nothing is shown. */
  method ClearThenFilter(a: FilterableAdapter, c: Option<string>)
    requires a.Valid()
    modifies a
    ensures a.Count() == 0 && a.items == []
  {
    a.Clear();
    a.Filter(c);
  }
}
