// The folder selection sheet of the topic form: the user's folders that are not in
// the trash, as (id, name) pairs, one of which is handed back to the form.

module FolderSelection {
  import opened Wrappers
  import opened Firestore
  import PresentationInfo

  const ArgUid := "user_uid"
  const NoName := "이름 없음"

  /** `newInstance(uid)`: the arguments bundle of the sheet. */
  function NewInstance(uid: string): (args: map<string, string>)
    ensures args.Keys == {ArgUid}
  {
    map[ArgUid := uid]
  }

  /** `onCreate`: `userUid` is read back from the arguments, if there are any. */
  function UserUid(args: Option<map<string, string>>): Option<string> {
    if args.Some? && ArgUid in args.value then Some(args.value[ArgUid]) else None
  }

  lemma UserUidRoundTrip(uid: string)
    ensures UserUid(Some(NewInstance(uid))) == Some(uid)
  {
  }

  /** The pair shown for one folder document: its id and its name, or "이름 없음". */
  function FolderPair(d: Doc): (string, string) {
    (d.id, GetString(d.fields, "name").GetOr(NoName))
  }

  /** The pairs of the non-deleted folder documents, in query order. */
  function Pairs(docs: seq<Doc>): seq<(string, string)>
  {
    if docs == [] then []
    else
      var last := docs[|docs| - 1];
      Pairs(docs[..|docs| - 1]) + (if FolderDeleted(last.fields) then [] else [FolderPair(last)])
  }

  /** A pair is listed exactly when it belongs to a document that is not deleted. */
  lemma {:induction false} PairsIff(docs: seq<Doc>, p: (string, string))
    ensures |Pairs(docs)| <= |docs|
    ensures p in Pairs(docs) <==> exists k :: 0 <= k < |docs| && !FolderDeleted(docs[k].fields) && FolderPair(docs[k]) == p
  {
    if docs != [] {
      var n := |docs| - 1;
      var init := docs[..n];
      PairsIff(init, p);
      var last := docs[n];
      assert Pairs(docs) == Pairs(init) + (if FolderDeleted(last.fields) then [] else [FolderPair(last)]);
      if p in Pairs(init) {
        var k :| 0 <= k < |init| && !FolderDeleted(init[k].fields) && FolderPair(init[k]) == p;
        assert docs[k] == init[k];
        assert !FolderDeleted(docs[k].fields) && FolderPair(docs[k]) == p;
      } else if !FolderDeleted(last.fields) && FolderPair(last) == p {
        assert !FolderDeleted(docs[n].fields) && FolderPair(docs[n]) == p;
      } else {
        assert p !in Pairs(docs);
        forall k | 0 <= k < |docs| && !FolderDeleted(docs[k].fields)
          ensures FolderPair(docs[k]) != p
        {
          if k < n {
            assert init[k] == docs[k];
          }
        }
      }
    }
  }

  /** A deleted folder is never offered, whatever its name. */
  lemma {:induction false} DeletedNeverOffered(docs: seq<Doc>, k: nat)
    requires k < |docs| && FolderDeleted(docs[k].fields)
    requires forall j :: 0 <= j < |docs| && j != k ==> docs[j].id != docs[k].id
    ensures forall p | p in Pairs(docs) :: p.0 != docs[k].id
  {
    forall p | p in Pairs(docs)
      ensures p.0 != docs[k].id
    {
      PairsIff(docs, p);
    }
  }

  class FolderSelectionSheet {
    const userUid: Option<string>
    /** Whether the host screen implements the selection listener (`onAttach`). */
    const hasListener: bool
    /** The list handed to the sheet's adapter; `None` until a non-empty result arrives. */
    var folders: Option<seq<(string, string)>>
    var dismissed: bool

    /** `onAttach` and `onCreate`: the uid comes from the arguments, if any. */
    constructor (args: Option<map<string, string>>, hasListener: bool)
      ensures userUid == UserUid(args) && this.hasListener == hasListener
      ensures folders.None? && !dismissed
    {
      userUid := UserUid(args);
      this.hasListener := hasListener;
      folders := None;
      dismissed := false;
    }

    /** `onViewCreated`: the user's folders are queried only when the uid is known. */
    method OnViewCreated() returns (query: Option<string>)
      ensures query.Some? <==> userUid.Some?
      ensures query.Some? ==> query.value == userUid.value
    {
      if userUid.Some? {
        query := Some(userUid.value);
      } else {
        query := None;
      }
    }

    /**
     * The folder query's answer: an empty result only shows a notice; otherwise the
     * list shown is the pairs of the non-deleted folders. A failure changes nothing.
     */
    method OnFoldersLoaded(result: Fetch<seq<Doc>>) returns (emptyNotice: bool)
      modifies this
      ensures emptyNotice <==> result.Loaded? && result.result == []
      ensures result.Loaded? && result.result != [] ==> folders == Some(Pairs(result.result))
      ensures !(result.Loaded? && result.result != []) ==> folders == old(folders)
      ensures dismissed == old(dismissed)
    {
      if result.Failed? {
        return false;
      }
      var docs := result.result;
      if docs == [] {
        return true;
      }
      var list: seq<(string, string)> := [];
      var i := 0;
      while i < |docs|
        invariant 0 <= i <= |docs|
        invariant list == Pairs(docs[..i])
      {
        assert docs[..i + 1][..i] == docs[..i];
        var name := GetString(docs[i].fields, "name").GetOr(NoName);
        var foldersUid := docs[i].id;
        if !FolderDeleted(docs[i].fields) {
          list := list + [(foldersUid, name)];
        }
        i := i + 1;
      }
      assert docs[..i] == docs;
      folders := Some(list);
      emptyNotice := false;
    }

    /**
     * A tap on row `k`: the listener, when there is one, receives that row's id and
     * name; the sheet closes either way.
     */
    method OnItemClicked(k: nat) returns (selected: Option<(string, string)>)
      requires folders.Some? && k < |folders.value|
      modifies this
      ensures dismissed && folders == old(folders)
      ensures hasListener ==> selected == Some(folders.value[k])
      ensures !hasListener ==> selected.None?
    {
      selected := if hasListener then Some(folders.value[k]) else None;
      dismissed := true;
    }
  }

  /** The topic form opens the sheet without arguments, so the sheet never queries. */
  method OpenedFromTopicForm() returns (query: Option<string>)
    ensures query.None?
  {
    var sheet := new FolderSelectionSheet(None, true);
    query := sheet.OnViewCreated();
  }

  /** A sheet built with `newInstance(uid)` queries that user's folders. */
  method OpenedWithUid(uid: string) returns (query: Option<string>)
    ensures query == Some(uid)
  {
    UserUidRoundTrip(uid);
    var sheet := new FolderSelectionSheet(Some(NewInstance(uid)), true);
    query := sheet.OnViewCreated();
  }

  /**
   * Picking row `k` of a loaded sheet sets the topic form's folder to exactly the
   * id and name of the k-th non-deleted folder document.
   */
  method PickIntoForm(sheet: FolderSelectionSheet, form: PresentationInfo.TopicForm, k: nat)
    requires sheet.hasListener && sheet.folders.Some? && k < |sheet.folders.value|
    requires form.Valid()
    modifies sheet, form
    ensures form.Valid() && sheet.dismissed
    ensures form.selectedFolderId == Some(old(sheet.folders.value[k]).0)
    ensures form.folderPath == old(sheet.folders.value[k]).1
  {
    var selected := sheet.OnItemClicked(k);
    form.OnFolderSelected(selected.value.0, selected.value.1);
  }
}
