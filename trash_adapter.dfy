// The trash list: the folders shown in the trash, from which a restored one is
// taken out.

module TrashAdapter {
  import opened FolderItem

  /** `xs` without its element at `i`, the others kept in order. */
  function RemoveAt<T>(xs: seq<T>, i: nat): (r: seq<T>)
    requires i < |xs|
    ensures |r| == |xs| - 1
    ensures forall k :: 0 <= k < i ==> r[k] == xs[k]
    ensures forall k :: i <= k < |r| ==> r[k] == xs[k + 1]
    ensures multiset(r) + multiset{xs[i]} == multiset(xs)
  {
    assert xs == xs[..i] + [xs[i]] + xs[i + 1..];
    xs[..i] + xs[i + 1..]
  }

  class TrashListAdapter {
    /** The trashed folders on screen, the same objects as in the folder tree. */
    var trashedItems: seq<Child>

    constructor (items: seq<Child>)
      ensures trashedItems == items
    {
      trashedItems := items;
    }

    /** `getItemCount`: one item per trashed folder. */
    function ItemCount(): (n: nat)
      reads this
      ensures n == |trashedItems|
    {
      |trashedItems|
    }

    /**
     * `removeItem`: the first item with that name leaves the list, the rest keep
     * their order; with no such item the list is unchanged.
     */
    method RemoveItem(title: string)
      modifies this
      ensures var i := FirstNamed(old(ChildrenView(trashedItems)), title);
        && (i == |old(trashedItems)| ==> trashedItems == old(trashedItems))
        && (i < |old(trashedItems)| ==> trashedItems == RemoveAt(old(trashedItems), i))
    {
      ghost var names := ChildrenView(trashedItems);
      var items := trashedItems;
      var index := 0;
      while index < |items| && items[index].name != title
        invariant 0 <= index <= |items|
        invariant forall k :: 0 <= k < index ==> names[k].name != title
        invariant index <= FirstNamed(names, title)
      {
        index := index + 1;
      }
      if index < |items| {
        assert names[index].name == title;
        trashedItems := RemoveAt(items, index);
      }
    }
  }
}
