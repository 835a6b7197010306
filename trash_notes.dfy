// The trash screen: the deleted folders of the tree, and restoring one of them.

module TrashNotes {
  import opened Wrappers
  import opened FolderItem
  import opened TrashAdapter

  /** The deleted folders among `cs`, in order (`filter { it.isDeleted }`). */
  function DeletedOf(cs: seq<Child>): seq<Child>
    reads set c | c in cs
  {
    if cs == [] then []
    else (if cs[0].isDeleted then [cs[0]] else []) + DeletedOf(cs[1..])
  }

  /** `flatMap { it.children }.filter { it.isDeleted }`: deleted folders, group by group. */
  function TrashedChildren(gs: seq<Group>): seq<Child>
    reads gs, AllChildren(gs)
    decreases |gs|
  {
    if gs == [] then [] else DeletedOf(gs[0].children) + TrashedChildren(gs[1..])
  }

  /** The same list on snapshots. */
  function DeletedData(cs: seq<ChildData>): seq<ChildData>
  {
    if cs == [] then []
    else (if cs[0].isDeleted then [cs[0]] else []) + DeletedData(cs[1..])
  }

  function Trashed(gs: seq<GroupData>): seq<ChildData>
  {
    if gs == [] then [] else DeletedData(gs[0].children) + Trashed(gs[1..])
  }

  lemma {:induction false} DeletedOfView(cs: seq<Child>)
    ensures ChildrenView(DeletedOf(cs)) == DeletedData(ChildrenView(cs))
  {
    if cs != [] {
      DeletedOfView(cs[1..]);
      assert ChildrenView(cs)[1..] == ChildrenView(cs[1..]);
      var head: seq<Child> := if cs[0].isDeleted then [cs[0]] else [];
      assert ChildrenView(head + DeletedOf(cs[1..])) == ChildrenView(head) + ChildrenView(DeletedOf(cs[1..]));
    }
  }

  /** The objects the trash screen lists are exactly the deleted children of the snapshot. */
  lemma {:induction false} TrashedView(gs: seq<Group>)
    ensures ChildrenView(TrashedChildren(gs)) == Trashed(View(gs))
  {
    if gs != [] {
      TrashedView(gs[1..]);
      DeletedOfView(gs[0].children);
      assert View(gs)[0] == GroupView(gs[0]);
      assert View(gs)[1..] == View(gs[1..]);
      var a := DeletedOf(gs[0].children);
      assert ChildrenView(a + TrashedChildren(gs[1..])) == ChildrenView(a) + ChildrenView(TrashedChildren(gs[1..]));
    }
  }

  lemma {:induction false} DeletedDataIff(cs: seq<ChildData>, c: ChildData)
    ensures c in DeletedData(cs) <==> c in cs && c.isDeleted
  {
    if cs != [] {
      DeletedDataIff(cs[1..], c);
      assert cs == [cs[0]] + cs[1..];
    }
  }

  /** A folder is in the trash list exactly when some group holds it with its deletion flag set. */
  lemma {:induction false} TrashedIff(gs: seq<GroupData>, c: ChildData)
    ensures c in Trashed(gs) <==> c.isDeleted && exists i :: 0 <= i < |gs| && c in gs[i].children
  {
    if gs != [] {
      TrashedIff(gs[1..], c);
      DeletedDataIff(gs[0].children, c);
      if c.isDeleted && exists i :: 0 <= i < |gs| && c in gs[i].children {
        var i :| 0 <= i < |gs| && c in gs[i].children;
        if i > 0 {
          assert gs[1..][i - 1] == gs[i];
        }
      }
      if c in Trashed(gs[1..]) {
        var i :| 0 <= i < |gs[1..]| && c in gs[1..][i].children;
        assert gs[1..][i] == gs[i + 1];
      }
    }
  }

  lemma {:induction false} NoneDeleted(cs: seq<ChildData>)
    requires forall j :: 0 <= j < |cs| ==> !cs[j].isDeleted
    ensures DeletedData(cs) == []
  {
    if cs != [] {
      NoneDeleted(cs[1..]);
    }
  }

  /** With no deleted folder anywhere the trash list is empty, and the empty view is shown. */
  lemma {:induction false} NothingDeletedEmptyTrash(gs: seq<GroupData>)
    requires forall i, j :: 0 <= i < |gs| && 0 <= j < |gs[i].children| ==> !gs[i].children[j].isDeleted
    ensures Trashed(gs) == []
  {
    if gs != [] {
      NoneDeleted(gs[0].children);
      NothingDeletedEmptyTrash(gs[1..]);
    }
  }

  /**
   * Moving a folder to the trash puts it on the trash list: after the delete, the
   * first folder of that name in every group that has one is listed.
   */
  lemma DeletedFolderIsTrashed(gs: seq<GroupData>, title: string, i: nat)
    requires i < |gs| && HasNamed(gs[i].children, title)
    ensures
      var after := EditEachGroup(gs, title, SetDeleted(true));
      var j := FirstNamed(gs[i].children, title);
      j < |gs[i].children| && after[i].children[j] in Trashed(after)
      && after[i].children[j].name == title
  {
    var after := EditEachGroup(gs, title, SetDeleted(true));
    EditEachGroupSpec(gs, title, SetDeleted(true));
    EditFirstSpec(gs[i].children, title, SetDeleted(true));
    var j := FirstNamed(gs[i].children, title);
    TrashedIff(after, after[i].children[j]);
  }

  /**
   * Restoring a folder clears the deletion flag of the first folder of that name in
   * every group that has one; its name is kept.
   */
  lemma RestoredFolderIsActive(gs: seq<GroupData>, title: string, i: nat)
    requires i < |gs| && HasNamed(gs[i].children, title)
    ensures
      var after := EditEachGroup(gs, title, SetDeleted(false));
      var j := FirstNamed(gs[i].children, title);
      j < |gs[i].children| && !after[i].children[j].isDeleted && after[i].children[j].name == title
  {
    EditEachGroupSpec(gs, title, SetDeleted(false));
    EditFirstSpec(gs[i].children, title, SetDeleted(false));
  }

  class TrashScreen {
    /** The groups handed over by the folder screen: the same objects, not copies. */
    const allFolderData: Option<seq<Group>>
    /** Set once a non-empty trash list has been shown (`lateinit`). */
    var trashAdapter: TrashListAdapter?
    var emptyShown: bool

    ghost predicate Valid()
      reads this, if allFolderData.Some? then allFolderData.value else []
    {
      allFolderData.Some? ==> TreeValid(allFolderData.value)
    }

    /** `newInstance(data)` followed by `onCreate`: the groups are read back from the arguments. */
    constructor (data: Option<seq<Group>>)
      requires data.Some? ==> TreeValid(data.value)
      ensures allFolderData == data && trashAdapter == null && Valid()
    {
      allFolderData := data;
      trashAdapter := null;
      emptyShown := false;
    }

    function Groups(): seq<Group>
      reads this
    {
      if allFolderData.Some? then allFolderData.value else []
    }

    /**
     * `displayTrashItems`: the deleted folders of all groups, group by group. An
     * empty list shows the empty view; otherwise a new list adapter holds them.
     */
    method DisplayTrashItems()
      requires Valid()
      modifies this
      ensures Valid()
      ensures emptyShown <==> TrashedChildren(Groups()) == []
      ensures emptyShown ==> trashAdapter == old(trashAdapter)
      ensures !emptyShown ==> trashAdapter != null && fresh(trashAdapter) && trashAdapter.trashedItems == TrashedChildren(Groups())
    {
      var items := TrashedChildren(Groups());
      // The screen is not part of the tree, so its own writes leave the list as computed.
      assert forall g | g in Groups() :: (g as object) != this;
      assert forall c | c in AllChildren(Groups()) :: (c as object) != this;
      if items == [] {
        emptyShown := true;
      } else {
        emptyShown := false;
        trashAdapter := new TrashListAdapter(items);
      }
    }

    /**
     * `onRestore`: in every group the first folder of that name, deleted or not, is
     * marked not deleted; then the first trash entry of that name leaves the list.
     */
    method OnRestore(title: string)
      requires Valid() && trashAdapter != null
      modifies AllChildren(Groups()), trashAdapter
      ensures Valid()
      ensures View(Groups()) == EditEachGroup(old(View(Groups())), title, SetDeleted(false))
      ensures var i := FirstNamed(old(ChildrenView(trashAdapter.trashedItems)), title);
        && (i == |old(trashAdapter.trashedItems)| ==> trashAdapter.trashedItems == old(trashAdapter.trashedItems))
        && (i < |old(trashAdapter.trashedItems)| ==> trashAdapter.trashedItems == RemoveAt(old(trashAdapter.trashedItems), i))
    {
      var groups := Groups();
      ghost var names := ChildrenView(trashAdapter.trashedItems);
      var _ := EditTree(groups, title, SetDeleted(false));
      // Restoring writes deletion flags only, so the names on the trash list are as they were.
      FirstNamedByNames(names, ChildrenView(trashAdapter.trashedItems), title);
      trashAdapter.RemoveItem(title);
    }
  }
}
