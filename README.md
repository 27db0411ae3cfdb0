# Android list adapters: the collection logic, in Dafny

The repository holds four Android adapter templates. Almost all of their code
inflates and recycles views for a host widget. This project models the part
that has meaning without the toolkit: the lists the adapters keep and the
lookups the host makes into them.

- `Filterable` (`filterable.dfy`) models `FilterableAdapter`. It is a class
  with the master list `items` (mItemList) and the shown list `filtered`
  (mFilteredList). `add`, `clear` and `filter` are methods that change these
  fields in place. `Filter` is proved, through the invariant of its `for`
  loop, to make the shown list `Filtered(items, c)`: the master elements that
  contain `c` as a substring, in master order, as Java's `String.contains`
  decides it on well-formed strings (`Contains`). The properties of `Filtered` are lemmas:
  membership, multiplicities, sub-list order, `filter("")` showing everything,
  idempotence and concatenation. The class invariant `Valid()` says that the
  shown list is always an order-preserving sub-list of the master list. Every
  method keeps it, including `add`, which does not re-apply the last
  constraint. That staleness is modelled as written: `StaleAfterAdd` and
  `FilterThenAdd` show the shown list holding an item the constraint rejects.
- `Expandable` (`expandable.dfy`) models `ExpandableListViewAdapter`: a class
  holding a sequence of groups, where each group is a value with a sequence of
  children. It has `add`, `clear` and the two-level lookups with their ids and
  flags.
- `MultipleViewTypes` (`multiple_view_types.dfy`) models
  `MultipleViewTypesAdapter`. Items are `Title` or `Description`, tagged 0 and
  1, and there are 2 view types.
- `Wrappers` (`wrappers.dfy`) holds `Option`, which stands for a possibly null
  argument, and `Result`. `Result` carries either a value or the
  IndexOutOfBoundsException that `java.util.List.get` throws. `At` models
  `List.get`.
- `Subsequences` (`subsequences.dfy`) defines the sub-list relation
  independently of any filter. A list is a sub-list of another when strictly
  increasing positions in the other spell it out.

A getter that Java would let throw returns a `Result`. Callers are not
required to stay in range.

Two consequences of the code are worth stating:

- An empty constraint matches every string, because `String.contains("")` is
  true, so `filter("")` shows the whole master list (`FilteredEmptyConstraint`).
- The shown list is an order-preserving sub-list of the master list after
  every operation, not only after `filter` (`Valid`).

Two class and constructor names in the sources do not match their files or
classes. The model uses the evident names: `ExpandableListViewAdapter`, and a
constructor of `MultipleViewTypesAdapter`.

## Model

| member | source | states |
|---|---|---|
| `Wrappers.At` | reminder/adapter/FilterableListAdapter.java:45 | `List.get` returns the element exactly for positions 0..size-1; any other position gives IndexOutOfBounds with that index and the size |
| `Filterable.ContainsEmpty` | reminder/adapter/FilterableListAdapter.java:82 | every string contains the empty constraint |
| `Filterable.Filtered` | reminder/adapter/FilterableListAdapter.java:80-85 | the filter result is never longer than the master list, and a string is in it iff it is in the master list and contains the constraint |
| `Filterable.FilteredCounts` | reminder/adapter/FilterableListAdapter.java:80-85 | each matching string keeps all its occurrences in the result; a non-matching string has none |
| `Filterable.FilteredEmbedding` | reminder/adapter/FilterableListAdapter.java:81-84 | the kept elements sit at strictly increasing master positions |
| `Filterable.FilteredIsSubsequence` | reminder/adapter/FilterableListAdapter.java:80-85 | the filter result is an order-preserving sub-list of the master list |
| `Filterable.FilteredAllMatch` | reminder/adapter/FilterableListAdapter.java:80-85 | when every master element matches, the result is the master list itself |
| `Filterable.FilteredEmptyConstraint` | reminder/adapter/FilterableListAdapter.java:80-85 | `filter("")` shows the whole master list, in order |
| `Filterable.FilteredIdempotent` | reminder/adapter/FilterableListAdapter.java:80-85 | filtering the filter result again with the same constraint changes nothing |
| `Filterable.FilteredAppend` | reminder/adapter/FilterableListAdapter.java:80-85 | filtering a concatenation equals concatenating the filtered parts |
| `Filterable.FilteredKeepsOrder` | reminder/adapter/FilterableListAdapter.java:80-85 | "ap" over apple, banana, apricot gives apple, apricot in that order |
| `Filterable.StaleAfterAdd` | reminder/adapter/FilterableListAdapter.java:29-30 | appending an item the constraint rejects to a filter result gives a list that filtering the extended master list never gives |
| `Filterable.FilterableAdapter.ShownWithinMaster` | reminder/adapter/FilterableListAdapter.java:8-9 | under the invariant, every shown row is a master element and the count never exceeds the master size |
| `Filterable.FilterableAdapter.constructor` | reminder/adapter/FilterableListAdapter.java:11-15 | a new adapter has empty master and shown lists, and the invariant holds |
| `Filterable.FilterableAdapter.AddAll` | reminder/adapter/FilterableListAdapter.java:17-23 | null changes nothing; otherwise the whole list is appended, in order, to both the master and the shown lists; the invariant is kept |
| `Filterable.FilterableAdapter.Add` | reminder/adapter/FilterableListAdapter.java:25-31 | null changes nothing; otherwise the item is appended to both lists without re-filtering, earlier elements unchanged; the invariant is kept |
| `Filterable.FilterableAdapter.Clear` | reminder/adapter/FilterableListAdapter.java:33-36 | both lists become empty |
| `Filterable.FilterableAdapter.Count` | reminder/adapter/FilterableListAdapter.java:38-41 | the count is the length of the shown list |
| `Filterable.FilterableAdapter.GetItem` | reminder/adapter/FilterableListAdapter.java:43-46 | the item exists exactly for 0 <= position < Count() and is the shown row there; otherwise IndexOutOfBounds |
| `Filterable.FilterableAdapter.ItemId` | reminder/adapter/FilterableListAdapter.java:48-51 | a row's id is its position |
| `Filterable.FilterableAdapter.Filter` | reminder/adapter/FilterableListAdapter.java:75-90 | the master list never changes; a null constraint or an empty master list leaves the shown list as it was, even if stale; otherwise the shown list becomes `Filtered(master, constraint)`; the invariant is kept |
| `Filterable.FilterThenAdd` | reminder/adapter/FilterableListAdapter.java:29-30 | after filter then add, the shown list is the filter result plus the new item, which differs from re-filtering when the item does not match |
| `Filterable.CountAfterMatchAll` | reminder/adapter/FilterableListAdapter.java:76-88 | after adding any list to a new adapter, `filter("")` shows exactly that many rows |
| `Filterable.ClearThenFilter` | reminder/adapter/FilterableListAdapter.java:76-78 | after clear, any filter call leaves nothing shown |
| `Subsequences.EmptyIsSubsequence` | reminder/adapter/FilterableListAdapter.java:13-14 | the empty list is a sub-list of any list, so the invariant holds for a new or cleared adapter |
| `Subsequences.SubsequenceAppend` | reminder/adapter/FilterableListAdapter.java:21-22 | appending the same items to both lists keeps the sub-list relation |
| `Subsequences.SubsequenceElements` | reminder/adapter/FilterableListAdapter.java:8-9 | a sub-list is no longer than its list and holds only its elements |
| `Expandable.ExpandableListViewAdapter.constructor` | reminder/adapter/ExpandableListAdapter.java:10-13 | the adapter starts with the caller's groups |
| `Expandable.ExpandableListViewAdapter.AddAll` | reminder/adapter/ExpandableListAdapter.java:15-20 | as written: null gives null; otherwise the caller's (growable) list becomes itself twice over; the method modifies nothing of the adapter, so its groups are unchanged |
| `Expandable.ExpandableListViewAdapter.AddAllIntended` | reminder/adapter/ExpandableListAdapter.java:15-20 | as intended: null changes nothing; otherwise the argument is appended to the groups |
| `Expandable.ExpandableListViewAdapter.Add` | reminder/adapter/ExpandableListAdapter.java:22-27 | null changes nothing; otherwise the group is appended at the end, earlier groups untouched |
| `Expandable.ExpandableListViewAdapter.Clear` | reminder/adapter/ExpandableListAdapter.java:29-34 | the group list becomes empty |
| `Expandable.ExpandableListViewAdapter.Child` | reminder/adapter/ExpandableListAdapter.java:36-40 | the child exists iff the group exists and the child position is below that group's children count; it is that group's child at that position; otherwise the exception names the group index (missing group) or the child index |
| `Expandable.ExpandableListViewAdapter.ChildId` | reminder/adapter/ExpandableListAdapter.java:42-45 | a child's id is its position within its group |
| `Expandable.ExpandableListViewAdapter.ChildrenCount` | reminder/adapter/ExpandableListAdapter.java:47-50 | defined exactly when the group exists, and then it is the length of that group's children |
| `Expandable.ExpandableListViewAdapter.Group` | reminder/adapter/ExpandableListAdapter.java:76-79 | the group exists exactly for 0 <= position < GroupCount() and is the group there; otherwise IndexOutOfBounds |
| `Expandable.ExpandableListViewAdapter.GroupCount` | reminder/adapter/ExpandableListAdapter.java:81-84 | the count is the number of groups |
| `Expandable.ExpandableListViewAdapter.GroupId` | reminder/adapter/ExpandableListAdapter.java:86-89 | a group's id is its position |
| `Expandable.ExpandableListViewAdapter.HasStableIds` | reminder/adapter/ExpandableListAdapter.java:112-115 | ids are always declared stable |
| `Expandable.ExpandableListViewAdapter.IsChildSelectable` | reminder/adapter/ExpandableListAdapter.java:117-120 | every child is selectable |
| `Expandable.AddAllDiscrepancy` | reminder/adapter/ExpandableListAdapter.java:19 | adding a one-group list leaves a new adapter with 0 groups and a two-element argument, where the intended append gives 1 group |
| `MultipleViewTypes.ItemType.Type` | reminder/adapter/MultipleViewTypesAdapter.java:3-21 | the tag is 0 exactly for a Title and 1 exactly for a Description |
| `MultipleViewTypes.ViewTypeCount` | reminder/adapter/MultipleViewTypesAdapter.java:57-60 | there are 2 view types, and every item's tag lies below that count |
| `MultipleViewTypes.MultipleViewTypesAdapter.constructor` | reminder/adapter/MultipleViewTypesAdapter.java:26-29 | a new adapter has no items |
| `MultipleViewTypes.MultipleViewTypesAdapter.AddAll` | reminder/adapter/MultipleViewTypesAdapter.java:31-36 | null changes nothing; otherwise all items are appended in order |
| `MultipleViewTypes.MultipleViewTypesAdapter.Add` | reminder/adapter/MultipleViewTypesAdapter.java:38-43 | null changes nothing; otherwise one item is appended at the end |
| `MultipleViewTypes.MultipleViewTypesAdapter.Clear` | reminder/adapter/MultipleViewTypesAdapter.java:45-50 | the list becomes empty |
| `MultipleViewTypes.MultipleViewTypesAdapter.ItemViewType` | reminder/adapter/MultipleViewTypesAdapter.java:52-55 | defined exactly for positions in range; then 0 iff that item is a Title, 1 iff it is a Description, and always in [0, ViewTypeCount()); otherwise IndexOutOfBounds |
| `MultipleViewTypes.MultipleViewTypesAdapter.Count` | reminder/adapter/MultipleViewTypesAdapter.java:62-65 | the count is the number of items |
| `MultipleViewTypes.MultipleViewTypesAdapter.GetItem` | reminder/adapter/MultipleViewTypesAdapter.java:67-70 | the item exists exactly for 0 <= position < Count() and is the item there; otherwise IndexOutOfBounds |
| `MultipleViewTypes.MultipleViewTypesAdapter.ItemId` | reminder/adapter/MultipleViewTypesAdapter.java:72-75 | a row's id is its position |
| `MultipleViewTypes.AddAllKeepsViewTypes` | reminder/adapter/MultipleViewTypesAdapter.java:31-36 | after adding a list, existing rows keep their view types and each new row has its added item's tag |

## Findings

| source | as written | input that shows it | evidently intended | confidence | as-written member | corrected member |
|---|---|---|---|---|---|---|
| reminder/adapter/ExpandableListAdapter.java:19 | `itemList.addAll(itemList)` appends the argument to itself | `add([g])` on an adapter with no groups: the group count stays 0 and a growable caller's list such as an ArrayList becomes `[g, g]` | `mItemList.addAll(itemList)`, appending the argument to the groups | high; not executed | `Expandable.ExpandableListViewAdapter.AddAll` | `Expandable.ExpandableListViewAdapter.AddAllIntended` |

## Left out

- View construction and recycling: `getView`, `getGroupView`, `getChildView`
  and the `ViewHolder` tag caching. They only inflate layouts and set text on
  toolkit views.
- `notifyDataSetChanged()` in `filter`. It is a callback into the host widget
  and is not modelled.
- `LayoutInflater` and `Context`. These are toolkit objects; the constructors
  take no context.
- `ViewPagerAdapter` as a whole. Its count is a placeholder 0, and its other
  methods only add views to, or remove views from, a host container.
- Null elements inside a list passed to `add(List)`. Strings and items are
  non-null values; in the source, `filter` and `getItemViewType` would throw
  on a null element.
- Expandable.ExpandableListViewAdapter.constructor: the group list is a value
  copied into the adapter. The source stores the caller's list object, so
  later changes the caller makes to it also show up in the adapter. The
  source's constructor also accepts a null list; the model does not, so the
  null check in the expandable `clear` is unreachable in the model.
- The null check in the multi-type `clear` is dead in the source itself: its
  list field is final and always assigned a new ArrayList by the constructor.
  The model leaves it out.
- Expandable.ExpandableListViewAdapter.AddAll: if the caller passes the very
  list object the adapter was built with, the source would double the
  adapter's groups through that alias. The model has no aliasing, so this
  case is not covered.
- Expandable.ExpandableListViewAdapter.AddAll: the argument is taken to be a
  growable list such as an ArrayList, which `addAll` on itself doubles. A
  fixed-size or unmodifiable argument (`Arrays.asList`, `List.of`,
  `Collections.unmodifiableList`) makes line 19 throw
  UnsupportedOperationException instead; the adapter's groups are unchanged
  in that case too, but the model does not return the exception.
- Strings with unpaired surrogates. A Dafny string is a sequence of Unicode
  scalar values, whereas Java compares UTF-16 code units, so a constraint
  holding half of a surrogate pair cannot be expressed. On well-formed strings
  `Contains` agrees with `String.contains`.
- `ParentItem` and `ChildItem` internals, and the data of `Title` and
  `Description`. A group is modelled as its text plus its sequence of
  children, a child as its text, and an item only by its kind.
- Java integer widths. Positions are unbounded integers, so lists are assumed
  to stay below 2^31 elements. Ids (`long`) are the positions themselves.
