// The folder tree of the notes screen: groups holding children, edited in place.
// The classes carry the mutable state; the datatypes are snapshots of it that the
// specifications of the edits are written against.

module FolderItem {
  /** A folder. Its name and deletion flag are the only fields code changes. */
  class Child {
    const parentId: string
    const id: string
    var name: string
    var isDeleted: bool

    /** A new child is active (not in the trash). */
    constructor (parentId: string, id: string, name: string)
      ensures this.parentId == parentId && this.id == id && this.name == name
      ensures !isDeleted
    {
      this.parentId := parentId;
      this.id := id;
      this.name := name;
      isDeleted := false;
    }
  }

  /** A group of folders. The children list is updated in place by other code. */
  class Group {
    const id: string
    const name: string
    var isExpanded: bool
    var children: seq<Child>

    /** A new group starts collapsed unless told otherwise. */
    constructor (id: string, name: string, isExpanded: bool, children: seq<Child>)
      ensures this.id == id && this.name == name
      ensures this.isExpanded == isExpanded && this.children == children
    {
      this.id := id;
      this.name := name;
      this.isExpanded := isExpanded;
      this.children := children;
    }
  }

  /** Snapshot of a child's fields. */
  datatype ChildData = ChildData(parentId: string, id: string, name: string, isDeleted: bool)

  /** Snapshot of a group and its children. */
  datatype GroupData = GroupData(id: string, name: string, isExpanded: bool, children: seq<ChildData>)

  function ChildView(c: Child): ChildData
    reads c
  {
    ChildData(c.parentId, c.id, c.name, c.isDeleted)
  }

  function ChildrenView(cs: seq<Child>): (r: seq<ChildData>)
    reads set c | c in cs
    ensures |r| == |cs|
  {
    seq(|cs|, j requires 0 <= j < |cs| reads set c | c in cs => ChildView(cs[j]))
  }

  function GroupView(g: Group): GroupData
    reads g, set c | c in g.children
  {
    GroupData(g.id, g.name, g.isExpanded, ChildrenView(g.children))
  }

  /** All children of the tree, the objects edits of a child may change. */
  function AllChildren(gs: seq<Group>): set<Child>
    reads gs
  {
    set g, c | g in gs && c in g.children :: c
  }

  function View(gs: seq<Group>): (r: seq<GroupData>)
    reads gs, AllChildren(gs)
    ensures |r| == |gs|
  {
    seq(|gs|, i requires 0 <= i < |gs| reads gs, AllChildren(gs) => GroupView(gs[i]))
  }

  /** The children lists of the groups, in order. */
  function ChildLists(gs: seq<Group>): (r: seq<seq<Child>>)
    reads gs
    ensures |r| == |gs|
  {
    seq(|gs|, i requires 0 <= i < |gs| reads gs => gs[i].children)
  }

  /** No child object occurs twice, within one list or across two. */
  ghost predicate DistinctLists(ls: seq<seq<Child>>)
  {
    && (forall i, j, l :: 0 <= i < |ls| && 0 <= j < l < |ls[i]| ==> ls[i][j] != ls[i][l])
    && (forall i, k, j, l :: 0 <= i < k < |ls| && 0 <= j < |ls[i]| && 0 <= l < |ls[k]| ==> ls[i][j] != ls[k][l])
  }

  /**
   * The tree is a tree: no group appears twice and no child object is shared,
   * within a group or between two groups. Every list the source builds is made
   * of freshly created objects, so this always holds there.
   */
  ghost predicate TreeValid(gs: seq<Group>)
    reads gs
  {
    && (forall i, k :: 0 <= i < k < |gs| ==> gs[i] != gs[k])
    && DistinctLists(ChildLists(gs))
  }

  /** Two different groups of a tree share no child. */
  lemma SeparateGroups(gs: seq<Group>, i: nat, k: nat)
    requires TreeValid(gs) && i < |gs| && k < |gs| && i != k
    ensures forall c | c in gs[k].children :: c !in gs[i].children
  {
    var ls := ChildLists(gs);
    assert ls[i] == gs[i].children && ls[k] == gs[k].children;
    forall c | c in gs[k].children
      ensures c !in gs[i].children
    {
      var l :| 0 <= l < |ls[k]| && ls[k][l] == c;
      forall j | 0 <= j < |ls[i]|
        ensures ls[i][j] != c
      {
        if i < k {
          assert ls[i][j] != ls[k][l];
        } else {
          assert ls[k][l] != ls[i][j];
        }
      }
    }
  }

  /** The lookup reads names only: lists with the same names find the same index. */
  lemma {:induction false} FirstNamedByNames(a: seq<ChildData>, b: seq<ChildData>, title: string)
    requires |a| == |b| && forall k :: 0 <= k < |a| ==> a[k].name == b[k].name
    ensures FirstNamed(a, title) == FirstNamed(b, title)
  {
    if a != [] {
      FirstNamedByNames(a[1..], b[1..], title);
    }
  }

  /** A child that is in no list yet can go in front of any one of them. */
  lemma PrependKeepsDistinct(ls: seq<seq<Child>>, i: nat, c: Child)
    requires DistinctLists(ls) && i < |ls|
    requires forall k, l :: 0 <= k < |ls| && 0 <= l < |ls[k]| ==> ls[k][l] != c
    ensures DistinctLists(ls[i := [c] + ls[i]])
  {
    var ms := ls[i := [c] + ls[i]];
    forall k, j | 0 <= k < |ms| && 0 <= j < |ms[k]|
      ensures ms[k][j] == if k == i && j == 0 then c else if k == i then ls[i][j - 1] else ls[k][j]
    {
    }
  }

  // ---------------------------------------------------------------------------
  // Edits by name: rename, move to the trash and restore all look a child up by
  // name with `find` (the first child of that name, deleted or not) in every group.
  // ---------------------------------------------------------------------------

  /** The field an edit writes. */
  datatype Edit = SetName(newName: string) | SetDeleted(deleted: bool)

  function Apply(c: ChildData, e: Edit): (r: ChildData)
    ensures r.parentId == c.parentId && r.id == c.id
    ensures e.SetName? ==> r.name == e.newName && r.isDeleted == c.isDeleted
    ensures e.SetDeleted? ==> r.isDeleted == e.deleted && r.name == c.name
  {
    match e
    case SetName(n) => c.(name := n)
    case SetDeleted(d) => c.(isDeleted := d)
  }

  /** Index of the first child named `title`, or `|cs|` when there is none. */
  function FirstNamed(cs: seq<ChildData>, title: string): (r: nat)
    ensures r <= |cs|
    ensures r < |cs| ==> cs[r].name == title
    ensures forall j :: 0 <= j < r ==> cs[j].name != title
  {
    if cs == [] then 0
    else if cs[0].name == title then 0
    else 1 + FirstNamed(cs[1..], title)
  }

  /** `find { it.name == title }` followed by a write to the child found, if any. */
  function EditFirst(cs: seq<ChildData>, title: string, e: Edit): seq<ChildData>
  {
    var j := FirstNamed(cs, title);
    if j < |cs| then cs[j := Apply(cs[j], e)] else cs
  }

  /** The edit applied to each group in turn. */
  function EditEachGroup(gs: seq<GroupData>, title: string, e: Edit): seq<GroupData>
  {
    seq(|gs|, i requires 0 <= i < |gs| => gs[i].(children := EditFirst(gs[i].children, title, e)))
  }

  predicate HasNamed(cs: seq<ChildData>, title: string)
  {
    exists j :: 0 <= j < |cs| && cs[j].name == title
  }

  /** Some group has a child named `title`: the `updated`/`markedAsDeleted` flag. */
  predicate AnyNamed(gs: seq<GroupData>, title: string)
  {
    exists i :: 0 <= i < |gs| && HasNamed(gs[i].children, title)
  }

  /** Looking one group further finds a name exactly when it was found already or that group has it. */
  lemma AnyNamedStep(gs: seq<GroupData>, i: nat, title: string)
    requires i < |gs|
    ensures (exists k :: 0 <= k < i + 1 && HasNamed(gs[k].children, title)) <==>
      (exists k :: 0 <= k < i && HasNamed(gs[k].children, title)) || HasNamed(gs[i].children, title)
  {
  }

  /**
   * Exactly one child per group is written (the first of that name, whatever its
   * deletion flag), every other child is kept, and the list keeps its length and order.
   */
  lemma EditFirstSpec(cs: seq<ChildData>, title: string, e: Edit)
    ensures |EditFirst(cs, title, e)| == |cs|
    ensures forall j :: 0 <= j < |cs| ==>
      EditFirst(cs, title, e)[j] == if j == FirstNamed(cs, title) then Apply(cs[j], e) else cs[j]
    ensures FirstNamed(cs, title) < |cs| <==> HasNamed(cs, title)
  {
    if HasNamed(cs, title) {
      var j :| 0 <= j < |cs| && cs[j].name == title;
      assert FirstNamed(cs, title) <= j;
    }
  }

  /**
   * An edit of the whole tree keeps every group (ids, names, expansion) and every
   * child's ids in place; only the one written field of one child per group changes.
   */
  lemma EditEachGroupSpec(gs: seq<GroupData>, title: string, e: Edit)
    ensures |EditEachGroup(gs, title, e)| == |gs|
    ensures forall i :: 0 <= i < |gs| ==>
      var g := EditEachGroup(gs, title, e)[i];
      && g.id == gs[i].id && g.name == gs[i].name && g.isExpanded == gs[i].isExpanded
      && |g.children| == |gs[i].children|
      && forall j :: 0 <= j < |gs[i].children| ==>
           g.children[j] == if j == FirstNamed(gs[i].children, title) then Apply(gs[i].children[j], e) else gs[i].children[j]
  {
    forall i | 0 <= i < |gs| {
      EditFirstSpec(gs[i].children, title, e);
    }
  }

  /** With no child of that name anywhere, the edit changes nothing. */
  lemma NoMatchNoChange(gs: seq<GroupData>, title: string, e: Edit)
    requires !AnyNamed(gs, title)
    ensures EditEachGroup(gs, title, e) == gs
  {
    forall i | 0 <= i < |gs|
      ensures EditEachGroup(gs, title, e)[i] == gs[i]
    {
      assert !HasNamed(gs[i].children, title);
      EditFirstSpec(gs[i].children, title, e);
      assert EditFirst(gs[i].children, title, e) == gs[i].children;
    }
  }

  /** A rename touches names only: every deletion flag is kept. */
  lemma RenameKeepsFlags(gs: seq<GroupData>, title: string, newName: string)
    ensures forall i, j :: 0 <= i < |gs| && 0 <= j < |gs[i].children| ==>
      EditEachGroup(gs, title, SetName(newName))[i].children[j].isDeleted == gs[i].children[j].isDeleted
  {
    EditEachGroupSpec(gs, title, SetName(newName));
  }

  /** Moving to the trash or restoring touches flags only: every name is kept. */
  lemma FlagEditKeepsNames(gs: seq<GroupData>, title: string, deleted: bool)
    ensures forall i, j :: 0 <= i < |gs| && 0 <= j < |gs[i].children| ==>
      EditEachGroup(gs, title, SetDeleted(deleted))[i].children[j].name == gs[i].children[j].name
  {
    EditEachGroupSpec(gs, title, SetDeleted(deleted));
  }

  /**
   * The lookup ignores the deletion flag: with an active child in front of a
   * trashed one of the same name, restoring clears the active one and the trashed
   * one stays in the trash.
   */
  lemma RestoreHitsActiveTwin(a: ChildData, b: ChildData)
    requires a.name == b.name && !a.isDeleted && b.isDeleted
    ensures EditFirst([a, b], a.name, SetDeleted(false)) == [a, b]
  {
    assert FirstNamed([a, b], a.name) == 0;
  }

  // ---------------------------------------------------------------------------
  // Writing an edit into the objects.
  // ---------------------------------------------------------------------------

  method WriteEdit(c: Child, e: Edit)
    modifies c
    ensures ChildView(c) == Apply(old(ChildView(c)), e)
  {
    match e
    case SetName(n) => c.name := n;
    case SetDeleted(d) => c.isDeleted := d;
  }

  /** `group.children.find { it.name == title }?.<field> = …` on one group. */
  method EditGroup(g: Group, title: string, e: Edit) returns (hit: bool)
    requires forall j, l :: 0 <= j < l < |g.children| ==> g.children[j] != g.children[l]
    modifies set c | c in g.children
    ensures ChildrenView(g.children) == EditFirst(old(ChildrenView(g.children)), title, e)
    ensures hit <==> HasNamed(old(ChildrenView(g.children)), title)
    ensures !hit ==> unchanged(set c | c in g.children)
    ensures e.SetDeleted? ==> forall c | c in g.children :: c.name == old(c.name)
  {
    ghost var before := ChildrenView(g.children);
    EditFirstSpec(before, title, e);
    var cs := g.children;
    var j := 0;
    while j < |cs| && cs[j].name != title
      invariant 0 <= j <= |cs|
      invariant forall l :: 0 <= l < j ==> before[l].name != title
      invariant j <= FirstNamed(before, title)
    {
      j := j + 1;
    }
    hit := j < |cs|;
    assert hit ==> before[j] == ChildView(cs[j]);
    if hit {
      assert j == FirstNamed(before, title);
      WriteEdit(cs[j], e);
      assert forall l :: 0 <= l < |cs| && l != j ==> ChildView(cs[l]) == before[l];
    }
    assert ChildrenView(g.children) == EditFirst(before, title, e);
  }

  /**
   * One group's lambda of the `forEach`, run on group `i` after the groups before it:
   * group `i` takes its edited view, every other group keeps the view it had, and
   * the result says whether group `i` had a child of that name.
   */
  method EditGroupAt(gs: seq<Group>, i: nat, title: string, e: Edit, ghost before: seq<GroupData>, ghost after: seq<GroupData>)
    returns (hit: bool)
    requires TreeValid(gs) && i < |gs| && |before| == |gs| && after == EditEachGroup(before, title, e)
    requires forall k :: 0 <= k < |gs| ==> GroupView(gs[k]) == if k < i then after[k] else before[k]
    modifies set c | c in gs[i].children
    ensures TreeValid(gs)
    ensures forall g | g in gs :: g.children == old(g.children)
    ensures forall k :: 0 <= k < |gs| ==> GroupView(gs[k]) == if k <= i then after[k] else before[k]
    ensures hit <==> HasNamed(before[i].children, title)
    ensures !hit ==> unchanged(AllChildren(gs))
    ensures e.SetDeleted? ==> forall c | c in AllChildren(gs) :: c.name == old(c.name)
  {
    assert ChildLists(gs)[i] == gs[i].children;
    hit := EditGroup(gs[i], title, e);
    forall k | 0 <= k < |gs| && k != i
      ensures GroupView(gs[k]) == old(GroupView(gs[k]))
    {
      SeparateGroups(gs, i, k);
    }
  }

  /** The edit done by `forEach` over the groups, each group's lambda editing its own first match. */
  method EditTree(gs: seq<Group>, title: string, e: Edit) returns (hit: bool)
    requires TreeValid(gs)
    modifies AllChildren(gs)
    ensures TreeValid(gs)
    ensures forall g | g in gs :: g.children == old(g.children)
    ensures View(gs) == EditEachGroup(old(View(gs)), title, e)
    ensures hit <==> AnyNamed(old(View(gs)), title)
    ensures !hit ==> unchanged(AllChildren(gs))
    ensures e.SetDeleted? ==> forall c | c in AllChildren(gs) :: c.name == old(c.name)
  {
    ghost var before := View(gs);
    ghost var after := EditEachGroup(before, title, e);
    ghost var all := AllChildren(gs);
    hit := false;
    var i := 0;
    while i < |gs|
      invariant 0 <= i <= |gs|
      invariant TreeValid(gs)
      invariant forall g | g in gs :: g.children == old(g.children)
      invariant forall k :: 0 <= k < |gs| ==> GroupView(gs[k]) == if k < i then after[k] else before[k]
      invariant hit <==> exists k :: 0 <= k < i && HasNamed(before[k].children, title)
      invariant !hit ==> unchanged(all)
      invariant e.SetDeleted? ==> forall c | c in all :: c.name == old(c.name)
    {
      var h := EditGroupAt(gs, i, title, e, before, after);
      AnyNamedStep(before, i, title);
      hit := hit || h;
      i := i + 1;
    }
    assert View(gs) == after;
    assert AllChildren(gs) == all;
  }
}
