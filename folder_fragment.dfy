// The folder screen: owns the folder tree, and renames, trashes and adds folders
// in it before asking the list to refresh.

module FolderFragment {
  import opened Wrappers
  import opened FolderItem
  import opened FolderAdapter
  import opened TrashNotes

  const AllNotesId := "G1"
  const AllNotesName := "전체 노트"
  const TrashId := "G4"
  const InitialChildNames := ["글로벌", "기본 폴더", "생활속의통계이해", "소설공", "운체"]

  /** `getInitialData`, with the random ids of the five starting folders given as `childIds`. */
  function InitialData(childIds: seq<string>): seq<GroupData>
    requires |childIds| == |InitialChildNames|
  {
    var children := seq(|InitialChildNames|, k requires 0 <= k < |InitialChildNames| =>
      ChildData(AllNotesId, childIds[k], InitialChildNames[k], false));
    [GroupData(AllNotesId, AllNotesName, true, children), GroupData(TrashId, TrashGroupName, false, [])]
  }

  /**
   * The starting tree: the expanded "전체 노트" group with its five active folders,
   * all pointing back to it, then the empty, collapsed trash group; nothing is in
   * the trash.
   */
  lemma InitialDataShape(childIds: seq<string>)
    requires |childIds| == |InitialChildNames|
    ensures var d := InitialData(childIds);
      && |d| == 2
      && d[0].name == AllNotesName && d[0].isExpanded && |d[0].children| == 5
      && (forall k :: 0 <= k < 5 ==> d[0].children[k].parentId == d[0].id && !d[0].children[k].isDeleted)
      && d[1].name == TrashGroupName && !d[1].isExpanded && d[1].children == []
      && Trashed(d) == []
  {
    NothingDeletedEmptyTrash(InitialData(childIds));
  }

  /** The five starting folders of "전체 노트": fresh, distinct objects. */
  method NewInitialChildren(childIds: seq<string>) returns (cs: seq<Child>)
    requires |childIds| == |InitialChildNames|
    ensures ChildrenView(cs) == InitialData(childIds)[0].children
    ensures forall j, l :: 0 <= j < l < |cs| ==> cs[j] != cs[l]
  {
    var c0 := new Child(AllNotesId, childIds[0], InitialChildNames[0]);
    var c1 := new Child(AllNotesId, childIds[1], InitialChildNames[1]);
    var c2 := new Child(AllNotesId, childIds[2], InitialChildNames[2]);
    var c3 := new Child(AllNotesId, childIds[3], InitialChildNames[3]);
    var c4 := new Child(AllNotesId, childIds[4], InitialChildNames[4]);
    cs := [c0, c1, c2, c3, c4];
  }

  /** `getInitialData`: fresh folders and groups making up the starting tree. */
  method GetInitialData(childIds: seq<string>) returns (gs: seq<Group>)
    requires |childIds| == |InitialChildNames|
    ensures TreeValid(gs) && View(gs) == InitialData(childIds)
  {
    var cs := NewInitialChildren(childIds);
    var allNotes := new Group(AllNotesId, AllNotesName, true, cs);
    var trash := new Group(TrashId, TrashGroupName, false, []);
    gs := [allNotes, trash];
    assert ChildLists(gs) == [cs, []];
    assert View(gs) == [GroupView(allNotes), GroupView(trash)];
  }

  /**
   * The first `onViewCreated`: the tree is not set yet, so it becomes the starting
   * tree, and a list adapter over it is created.
   */
  method CreateScreen(childIds: seq<string>) returns (screen: FolderScreen)
    requires |childIds| == |InitialChildNames|
    ensures fresh(screen) && fresh(screen.adapter) && screen.Valid()
    ensures View(screen.groups) == InitialData(childIds)
  {
    var gs := GetInitialData(childIds);
    var a := new ExpandableAdapter(gs);
    screen := new FolderScreen(gs, a);
  }

  class FolderScreen {
    /** `folderGroupsData`, shared with the list adapter and handed to the trash screen. */
    const groups: seq<Group>
    var adapter: ExpandableAdapter

    ghost predicate Valid()
      reads this, adapter, groups, AllChildren(groups)
    {
      adapter.data == groups && adapter.Valid()
    }

    /**
     * The tree is shared with the adapter and well formed, but the rows may be out of
     * date: another screen (the trash) may have changed the shared folders.
     */
    ghost predicate Shared()
      reads this, adapter, groups, AllChildren(groups)
    {
      adapter.data == groups && TreeValid(groups)
    }

    /** The screen over a tree and a list adapter already showing it. */
    constructor (gs: seq<Group>, a: ExpandableAdapter)
      requires a.data == gs && a.Valid()
      ensures groups == gs && adapter == a && Valid()
      ensures View(gs) == old(View(gs))
    {
      groups := gs;
      adapter := a;
      new;
      // The screen is not part of the tree or of the adapter.
      assert (a as object) != this;
      assert forall g | g in gs :: (g as object) != this;
      assert forall c | c in AllChildren(gs) :: (c as object) != this;
    }

    /** The view is created again (back from the trash): a new adapter over the same tree. */
    method OnViewCreated()
      requires Shared()
      modifies this
      ensures Valid() && fresh(adapter)
      ensures View(groups) == old(View(groups))
    {
      // The screen is not part of the tree.
      assert forall g | g in groups :: (g as object) != this;
      assert forall c | c in AllChildren(groups) :: (c as object) != this;
      var fresh_ := new ExpandableAdapter(groups);
      adapter := fresh_;
    }

    /** `onResume`: the trash screen may have restored folders, so the list is recomputed. */
    method OnResume()
      requires Shared()
      modifies adapter
      ensures Valid() && adapter == old(adapter)
      ensures View(groups) == old(View(groups))
    {
      adapter.NotifyDataChanged();
    }

    /**
     * `onFolderRenamed(old, new)`: the first folder named `oldTitle` in every group is
     * renamed; the list is refreshed only when some folder was renamed.
     */
    method OnFolderRenamed(oldTitle: string, newTitle: string) returns (updated: bool)
      requires Valid()
      modifies AllChildren(groups), adapter
      ensures Valid()
      ensures View(groups) == EditEachGroup(old(View(groups)), oldTitle, SetName(newTitle))
      ensures updated <==> AnyNamed(old(View(groups)), oldTitle)
      ensures !updated ==> adapter.displayList == old(adapter.displayList)
    {
      assert (adapter as object) !in AllChildren(groups);
      updated := EditTree(groups, oldTitle, SetName(newTitle));
      ghost var edited := View(groups);
      if updated {
        adapter.NotifyDataChanged();
        assert View(groups) == edited;
      } else {
        assert adapter.displayList == DisplayList(groups);
      }
    }

    /**
     * `deleteFolderByTitleAndRefresh`: the first folder named `title` in every group
     * is marked deleted (it stays in its group); the list is refreshed only when
     * some folder was marked.
     */
    method DeleteFolderByTitle(title: string) returns (marked: bool)
      requires Valid()
      modifies AllChildren(groups), adapter
      ensures Valid()
      ensures View(groups) == EditEachGroup(old(View(groups)), title, SetDeleted(true))
      ensures marked <==> AnyNamed(old(View(groups)), title)
      ensures !marked ==> adapter.displayList == old(adapter.displayList)
    {
      assert (adapter as object) !in AllChildren(groups);
      marked := EditTree(groups, title, SetDeleted(true));
      ghost var edited := View(groups);
      if marked {
        adapter.NotifyDataChanged();
        assert View(groups) == edited;
      } else {
        assert adapter.displayList == DisplayList(groups);
      }
    }

    /** `onChildCreated`: handed on to the adapter with the same group and folder names. */
    method OnChildCreated(groupName: string, childName: string, newId: string)
      requires Valid()
      modifies adapter, set g | g in groups
      ensures Valid()
      ensures View(groups) == AddChild(old(View(groups)), groupName, newId, childName)
    {
      adapter.AddChildToGroup(groupName, childName, newId);
    }

    /**
     * Back from the trash screen after a restore: the shared folders were changed
     * behind the list's back, and `onResume` brings the rows up to date.
     */
    method RestoreThenResume(trash: TrashScreen, title: string)
      requires Valid() && trash.allFolderData == Some(groups) && trash.trashAdapter != null
      modifies AllChildren(groups), trash.trashAdapter, adapter
      ensures Valid()
      ensures View(groups) == EditEachGroup(old(View(groups)), title, SetDeleted(false))
    {
      trash.OnRestore(title);
      OnResume();
    }

    /** `navigateToTrashList`: the trash screen receives the same group objects. */
    method NavigateToTrashList() returns (screen: TrashScreen)
      requires Valid()
      ensures fresh(screen) && screen.Valid()
      ensures screen.allFolderData == Some(groups) && screen.trashAdapter == null
    {
      screen := new TrashScreen(Some(groups));
    }
  }
}
