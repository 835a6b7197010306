// The expandable folder list: the rows shown for the folder tree, recomputed from
// the groups whenever the tree changes.

module FolderAdapter {
  import opened FolderItem

  /** A row of the list: a group header or one of its folders, by reference. */
  datatype Row = GroupRow(group: Group) | ChildRow(child: Child)

  const ViewTypeGroup := 1
  const ViewTypeChild := 2
  /** The trash group never lists its children. */
  const TrashGroupName := "휴지통"

  predicate ShowsChildren(g: Group)
    reads g
  {
    g.isExpanded && g.name != TrashGroupName
  }

  /** The non-deleted children, in order (`filter { !it.isDeleted }`). */
  function ActiveRows(cs: seq<Child>): seq<Row>
    reads set c | c in cs
  {
    if cs == [] then []
    else (if cs[0].isDeleted then [] else [ChildRow(cs[0])]) + ActiveRows(cs[1..])
  }

  /** One group's part of the list: its header, then its shown children. */
  function Section(g: Group): seq<Row>
    reads g, set c | c in g.children
  {
    [GroupRow(g)] + (if ShowsChildren(g) then ActiveRows(g.children) else [])
  }

  /** The list `calculateDisplayList` builds: every group's section, in group order. */
  function DisplayList(gs: seq<Group>): seq<Row>
    reads gs, AllChildren(gs)
    decreases |gs|
  {
    if gs == [] then [] else Section(gs[0]) + DisplayList(gs[1..])
  }

  /** The groups whose headers the rows hold, in order. */
  function Headers(rows: seq<Row>): seq<Group>
  {
    if rows == [] then []
    else (if rows[0].GroupRow? then [rows[0].group] else []) + Headers(rows[1..])
  }

  lemma {:induction false} HeadersAppend(a: seq<Row>, b: seq<Row>)
    ensures Headers(a + b) == Headers(a) + Headers(b)
  {
    if a != [] {
      var head: seq<Group> := if a[0].GroupRow? then [a[0].group] else [];
      assert (a + b)[0] == a[0];
      assert (a + b)[1..] == a[1..] + b;
      HeadersAppend(a[1..], b);
      calc {
        Headers(a + b);
        head + Headers(a[1..] + b);
        head + (Headers(a[1..]) + Headers(b));
        (head + Headers(a[1..])) + Headers(b);
        Headers(a) + Headers(b);
      }
    } else {
      assert a + b == b;
    }
  }

  lemma {:induction false} ActiveRowsHaveNoHeaders(cs: seq<Child>)
    ensures Headers(ActiveRows(cs)) == []
  {
    if cs != [] {
      var head: seq<Row> := if cs[0].isDeleted then [] else [ChildRow(cs[0])];
      ActiveRowsHaveNoHeaders(cs[1..]);
      HeadersAppend(head, ActiveRows(cs[1..]));
    }
  }

  /** A child has a row among its siblings' rows exactly when it is not deleted. */
  lemma {:induction false} ActiveRowsIff(cs: seq<Child>, c: Child)
    ensures ChildRow(c) in ActiveRows(cs) <==> c in cs && !c.isDeleted
  {
    if cs != [] {
      ActiveRowsIff(cs[1..], c);
      assert cs == [cs[0]] + cs[1..];
    }
  }

  /** Every group header appears once, in the order of the groups, and nothing else is a header. */
  lemma {:induction false} HeadersAreGroups(gs: seq<Group>)
    ensures Headers(DisplayList(gs)) == gs
  {
    if gs != [] {
      var g := gs[0];
      var shown: seq<Row> := if ShowsChildren(g) then ActiveRows(g.children) else [];
      ActiveRowsHaveNoHeaders(g.children);
      HeadersAppend([GroupRow(g)], shown);
      HeadersAppend(Section(g), DisplayList(gs[1..]));
      HeadersAreGroups(gs[1..]);
      assert gs == [g] + gs[1..];
    }
  }

  /**
   * A child has a row exactly when it is not deleted and belongs to a group that
   * is expanded and is not the trash.
   */
  lemma {:induction false} ChildRowIff(gs: seq<Group>, c: Child)
    ensures ChildRow(c) in DisplayList(gs) <==>
      exists i :: 0 <= i < |gs| && ShowsChildren(gs[i]) && c in gs[i].children && !c.isDeleted
  {
    if gs != [] {
      ChildRowIff(gs[1..], c);
      ActiveRowsIff(gs[0].children, c);
      if ChildRow(c) in DisplayList(gs) {
        if ChildRow(c) in Section(gs[0]) {
          assert ShowsChildren(gs[0]) && c in gs[0].children && !c.isDeleted;
        } else {
          var i :| 0 <= i < |gs[1..]| && ShowsChildren(gs[1..][i]) && c in gs[1..][i].children && !c.isDeleted;
          assert gs[1..][i] == gs[i + 1];
        }
      }
      if exists i :: 0 <= i < |gs| && ShowsChildren(gs[i]) && c in gs[i].children && !c.isDeleted {
        var i :| 0 <= i < |gs| && ShowsChildren(gs[i]) && c in gs[i].children && !c.isDeleted;
        if i > 0 {
          assert gs[1..][i - 1] == gs[i];
        }
      }
    }
  }

  /** A collapsed group adds its header only, whatever its children are. */
  lemma CollapsedSection(g: Group)
    requires !g.isExpanded
    ensures Section(g) == [GroupRow(g)]
  {
  }

  /** The tree after adding an active child in front of the first group called `groupName`. */
  function AddChild(gs: seq<GroupData>, groupName: string, id: string, name: string): seq<GroupData>
  {
    var i := FirstDataNamed(gs, groupName);
    if i < |gs| then gs[i := gs[i].(children := [ChildData(gs[i].id, id, name, false)] + gs[i].children)]
    else gs
  }

  function FirstDataNamed(gs: seq<GroupData>, name: string): (r: nat)
    ensures r <= |gs|
    ensures r < |gs| ==> gs[r].name == name
    ensures forall i :: 0 <= i < r ==> gs[i].name != name
  {
    if gs == [] then 0
    else if gs[0].name == name then 0
    else 1 + FirstDataNamed(gs[1..], name)
  }

  /**
   * Adding a child: with no group of that name nothing changes; otherwise the first
   * such group gains an active child at its front whose parent id is that group's id,
   * its other children move down one place, and every other group is as it was.
   */
  lemma AddChildSpec(gs: seq<GroupData>, groupName: string, id: string, name: string)
    ensures (forall i :: 0 <= i < |gs| ==> gs[i].name != groupName) ==> AddChild(gs, groupName, id, name) == gs
    ensures forall i :: 0 <= i < |gs| && gs[i].name == groupName ==>
      var r := AddChild(gs, groupName, id, name);
      var k := FirstDataNamed(gs, groupName);
      && |r| == |gs| && k <= i
      && r[k].id == gs[k].id && r[k].name == gs[k].name && r[k].isExpanded == gs[k].isExpanded
      && r[k].children == [ChildData(gs[k].id, id, name, false)] + gs[k].children
      && forall l :: 0 <= l < |gs| && l != k ==> r[l] == gs[l]
  {
  }

  /** `calculateDisplayList`: headers and shown children appended group by group. */
  method CalculateDisplayList(groups: seq<Group>) returns (list: seq<Row>)
    ensures list == DisplayList(groups)
  {
    list := [];
    var i := 0;
    while i < |groups|
      invariant 0 <= i <= |groups|
      invariant list == DisplayList(groups[..i])
    {
      var group := groups[i];
      DisplayListSnoc(groups, i);
      var rows := [GroupRow(group)];
      if group.isExpanded && group.name != TrashGroupName {
        rows := rows + ActiveRows(group.children);
      }
      list := list + rows;
      i := i + 1;
    }
    assert groups[..i] == groups;
  }

  lemma {:induction false} DisplayListAppend(a: seq<Group>, b: seq<Group>)
    ensures DisplayList(a + b) == DisplayList(a) + DisplayList(b)
  {
    if a == [] {
      assert a + b == b;
    } else {
      assert (a + b)[1..] == a[1..] + b;
      DisplayListAppend(a[1..], b);
    }
  }

  /** One more group adds its section at the end of the list. */
  lemma DisplayListSnoc(gs: seq<Group>, i: nat)
    requires i < |gs|
    ensures DisplayList(gs[..i + 1]) == DisplayList(gs[..i]) + Section(gs[i])
  {
    assert gs[..i + 1] == gs[..i] + [gs[i]];
    DisplayListAppend(gs[..i], [gs[i]]);
    assert [gs[i]][1..] == [];
  }

  class ExpandableAdapter {
    /** The group list, shared with the screen that owns the tree. */
    const data: seq<Group>
    var displayList: seq<Row>

    ghost predicate Valid()
      reads this, data, AllChildren(data)
    {
      TreeValid(data) && displayList == DisplayList(data)
    }

    /** The list starts as the rows of the initial tree. */
    constructor (data: seq<Group>)
      requires TreeValid(data)
      ensures this.data == data && Valid()
      ensures View(data) == old(View(data))
    {
      this.data := data;
      new;
      NotifyDataChanged();
    }

    /** `notifyDataChanged`: the list is recomputed from the tree. */
    method NotifyDataChanged()
      requires TreeValid(data)
      modifies this
      ensures Valid()
    {
      var list := CalculateDisplayList(data);
      // The adapter is not part of the tree, so writing its list leaves the tree's rows alone.
      assert forall g | g in data :: (g as object) != this;
      assert forall c | c in AllChildren(data) :: (c as object) != this;
      displayList := list;
    }

    /** `getItemCount`: one item per row. */
    function ItemCount(): (n: nat)
      reads this
      ensures n == |displayList|
    {
      |displayList|
    }

    /** `getItemViewType`: 1 for a group header, 2 for a folder. */
    function ItemViewType(position: nat): (t: int)
      requires position < |displayList|
      reads this
      ensures t == ViewTypeGroup <==> displayList[position].GroupRow?
      ensures t == ViewTypeChild <==> displayList[position].ChildRow?
    {
      match displayList[position]
      case GroupRow(_) => ViewTypeGroup
      case ChildRow(_) => ViewTypeChild
    }

    /**
     * `addChildToGroup`: a new active child, with the given id and the group's id as
     * parent id, goes in front of the first group with that name; the list is
     * refreshed only when that group is expanded, and it matches the tree either way.
     */
    method AddChildToGroup(groupName: string, childName: string, newId: string)
      requires Valid()
      modifies this, set g | g in data
      ensures Valid()
      ensures View(data) == AddChild(old(View(data)), groupName, newId, childName)
    {
      ghost var before := View(data);
      var i := 0;
      while i < |data| && data[i].name != groupName
        invariant 0 <= i <= |data|
        invariant forall k :: 0 <= k < i ==> data[k].name != groupName
      {
        i := i + 1;
      }
      assert forall k :: 0 <= k < |data| ==> before[k].name == data[k].name;
      if i < |data| {
        assert FirstDataNamed(before, groupName) == i;
        NewChildAt(data, i, newId, childName);
        if data[i].isExpanded {
          // The adapter is not part of the tree, so refreshing its list leaves the tree alone.
          assert forall g | g in data :: (g as object) != this;
          assert forall c | c in AllChildren(data) :: (c as object) != this;
          NotifyDataChanged();
        }
      } else {
        assert FirstDataNamed(before, groupName) == |data|;
      }
    }

    /** `toggleGroupExpansion`: the group flips between expanded and collapsed and the list is recomputed. */
    method ToggleGroupExpansion(g: Group)
      requires Valid() && g in data
      modifies this, g`isExpanded
      ensures Valid()
      ensures g.isExpanded == !old(g.isExpanded)
    {
      ghost var lists := ChildLists(data);
      assert DistinctLists(lists);
      g.isExpanded := !g.isExpanded;
      assert ChildLists(data) == lists;
      NotifyDataChanged();
    }
  }

  /**
   * `children.add(0, child)` on the group at index `i`: the tree gains the child in
   * front of that group, stays a tree, and when the group is collapsed its rows are
   * the same as before.
   */
  method PrependChild(gs: seq<Group>, i: nat, c: Child)
    requires TreeValid(gs) && i < |gs|
    requires c !in AllChildren(gs) && c.parentId == gs[i].id && !c.isDeleted
    modifies gs[i]
    ensures TreeValid(gs)
    ensures gs[i].isExpanded == old(gs[i].isExpanded)
    ensures View(gs) == old(View(gs))[i := old(View(gs))[i].(children := [ChildView(c)] + old(View(gs))[i].children)]
    ensures !gs[i].isExpanded ==> DisplayList(gs) == old(DisplayList(gs))
  {
    ghost var before := View(gs);
    ghost var lists := ChildLists(gs);
    OutsideTreeInNoList(gs, c);
    PrependKeepsDistinct(lists, i, c);
    var target := gs[i];
    target.children := [c] + target.children;
    assert ChildLists(gs) == lists[i := [c] + lists[i]];
    forall k | 0 <= k < |gs| && k != i
      ensures GroupView(gs[k]) == before[k]
    {
      assert gs[k] != target;
    }
    assert GroupView(gs[i]).children == [ChildView(c)] + before[i].children;
    if !target.isExpanded {
      // A collapsed group shows its header only, so every section is as it was.
      ghost var k := |gs|;
      while k > 0
        invariant 0 <= k <= |gs|
        invariant DisplayList(gs[k..]) == old(DisplayList(gs[k..]))
      {
        k := k - 1;
        assert Section(gs[k]) == old(Section(gs[k]));
      }
      assert gs[0..] == gs;
    }
  }

  /** `Child(...)` followed by `children.add(0, newChild)` on the group at index `i`. */
  method NewChildAt(gs: seq<Group>, i: nat, id: string, name: string)
    requires TreeValid(gs) && i < |gs|
    modifies gs[i]
    ensures TreeValid(gs)
    ensures gs[i].isExpanded == old(gs[i].isExpanded)
    ensures View(gs) == old(View(gs))[i := old(View(gs))[i].(children := [ChildData(gs[i].id, id, name, false)] + old(View(gs))[i].children)]
    ensures !gs[i].isExpanded ==> DisplayList(gs) == old(DisplayList(gs))
  {
    var newChild := new Child(gs[i].id, id, name);
    PrependChild(gs, i, newChild);
  }

  /** A child outside the tree is in none of its children lists. */
  lemma OutsideTreeInNoList(gs: seq<Group>, c: Child)
    requires c !in AllChildren(gs)
    ensures forall k, l :: 0 <= k < |gs| && 0 <= l < |ChildLists(gs)[k]| ==> ChildLists(gs)[k][l] != c
  {
    var lists := ChildLists(gs);
    forall k, l | 0 <= k < |lists| && 0 <= l < |lists[k]|
      ensures lists[k][l] != c
    {
      var g := gs[k];
      assert lists[k] == g.children && g in gs && lists[k][l] in g.children;
      assert lists[k][l] in AllChildren(gs);
    }
  }

  /** A group toggled twice is back where it was, and so is the list. */
  method ToggleTwiceRestores(adapter: ExpandableAdapter, g: Group)
    requires adapter.Valid() && g in adapter.data
    modifies adapter, g`isExpanded
    ensures adapter.Valid()
    ensures g.isExpanded == old(g.isExpanded)
    ensures adapter.displayList == old(adapter.displayList)
  {
    adapter.ToggleGroupExpansion(g);
    adapter.ToggleGroupExpansion(g);
    assert unchanged(adapter.data) && unchanged(AllChildren(adapter.data));
  }
}
