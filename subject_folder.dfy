// The subject-folder screen: the user's folders that are not in the trash, then
// the analysed presentations of the folder picked from them.

module SubjectFolder {
  import opened Wrappers
  import opened Firestore
  import opened FileList

  /** `SubjectFolder`: one folder of the selection sheet. */
  datatype Folder = Folder(id: string, title: string, date: string)

  /**
   * The creation time of a folder: `getTimestamp("created_at")`, and when the field
   * holds a plain number instead, that number as milliseconds.
   */
  function CreatedAt(f: Fields): (t: Option<Millis>)
    ensures "created_at" !in f ==> t.None?
  {
    var v := Lookup(f, "created_at");
    if v.Some? && v.value.VTimestamp? then Some(v.value.millis)
    else if v.Some? && v.value.VLong? then Some(v.value.n)
    else None
  }

  function FolderRecord(d: Doc, format: Millis -> string): Folder {
    Folder(d.id, GetString(d.fields, "name").GetOr(NoTitle), DateString(CreatedAt(d.fields), format))
  }

  /** The folders of a query result that are not deleted, in query order. */
  function Folders(docs: seq<Doc>, format: Millis -> string): seq<Folder>
  {
    if docs == [] then []
    else
      var last := docs[|docs| - 1];
      Folders(docs[..|docs| - 1], format) + (if FolderDeleted(last.fields) then [] else [FolderRecord(last, format)])
  }

  /**
   * Every listed folder is the record of a non-deleted document, every non-deleted
   * document is listed, and the list is never longer than the result.
   */
  lemma {:induction false} FoldersIff(docs: seq<Doc>, format: Millis -> string, x: Folder)
    ensures |Folders(docs, format)| <= |docs|
    ensures x in Folders(docs, format) <==>
              exists k :: 0 <= k < |docs| && !FolderDeleted(docs[k].fields) && FolderRecord(docs[k], format) == x
  {
    if docs != [] {
      var n := |docs| - 1;
      var init := docs[..n];
      FoldersIff(init, format, x);
      var last := docs[n];
      assert Folders(docs, format) == Folders(init, format) + (if FolderDeleted(last.fields) then [] else [FolderRecord(last, format)]);
      if x in Folders(init, format) {
        var k :| 0 <= k < |init| && !FolderDeleted(init[k].fields) && FolderRecord(init[k], format) == x;
        assert docs[k] == init[k];
        assert !FolderDeleted(docs[k].fields) && FolderRecord(docs[k], format) == x;
      } else if !FolderDeleted(last.fields) && FolderRecord(last, format) == x {
        assert !FolderDeleted(docs[n].fields) && FolderRecord(docs[n], format) == x;
      } else {
        assert x !in Folders(docs, format);
        forall k | 0 <= k < |docs| && !FolderDeleted(docs[k].fields)
          ensures FolderRecord(docs[k], format) != x
        {
          if k < n {
            assert init[k] == docs[k];
          }
        }
      }
    }
  }

  /** With no document marked deleted (a missing flag included), every document is listed, in order. */
  lemma {:induction false} NoneDeletedAllListed(docs: seq<Doc>, format: Millis -> string)
    requires forall k :: 0 <= k < |docs| ==> !FolderDeleted(docs[k].fields)
    ensures |Folders(docs, format)| == |docs|
    ensures forall k :: 0 <= k < |docs| ==> Folders(docs, format)[k] == FolderRecord(docs[k], format)
  {
    if docs != [] {
      NoneDeletedAllListed(docs[..|docs| - 1], format);
    }
  }

  /** What tapping the folder field does. */
  datatype FolderTap = Refetch | ShowFolders
  /** What tapping the file field does. */
  datatype FileTap = NeedFolder | NoFiles | ShowFiles

  class SubjectFolderScreen {
    var folderList: seq<Folder>
    var fileList: seq<PresentationFile>
    var selectedFolderId: Option<string>
    /** The presentations query in flight, by folder id. */
    var fileQuery: Option<string>
    /** The folders query in flight, by user uid. */
    var folderQuery: Option<string>

    /** `onCreate`: empty lists and no selection; the first folder fetch is `FetchFolders`. */
    constructor ()
      ensures folderList == [] && fileList == [] && selectedFolderId.None? && fileQuery.None? && folderQuery.None?
    {
      folderQuery := None;
      folderList := [];
      fileList := [];
      selectedFolderId := None;
      fileQuery := None;
    }

    /**
     * `fetchFolders`, with the signed-in user's uid if there is one: without a user
     * nothing happens; otherwise the user's folders are queried.
     */
    method FetchFolders(uid: Option<string>)
      modifies this
      ensures uid.None? ==> folderQuery == old(folderQuery)
      ensures uid.Some? ==> folderQuery == uid
      ensures folderList == old(folderList) && fileList == old(fileList)
      ensures selectedFolderId == old(selectedFolderId) && fileQuery == old(fileQuery)
    {
      if uid.None? {
        return;
      }
      folderQuery := uid;
    }

    /**
     * The folder query's answer: on success the list is replaced by the non-deleted
     * folders in query order (`emptyNotice` when none is left); a failure keeps it.
     */
    method OnFoldersLoaded(result: Fetch<seq<Doc>>, format: Millis -> string) returns (emptyNotice: bool)
      modifies this
      ensures result.Failed? ==> folderList == old(folderList) && !emptyNotice
      ensures result.Loaded? ==> folderList == Folders(result.result, format) && emptyNotice == (folderList == [])
      ensures fileList == old(fileList) && selectedFolderId == old(selectedFolderId) && fileQuery == old(fileQuery)
      ensures folderQuery == old(folderQuery)
    {
      if result.Failed? {
        return false;
      }
      var docs := result.result;
      folderList := [];
      var i := 0;
      while i < |docs|
        invariant 0 <= i <= |docs|
        invariant folderList == Folders(docs[..i], format)
        invariant fileList == old(fileList) && selectedFolderId == old(selectedFolderId) && fileQuery == old(fileQuery)
        invariant folderQuery == old(folderQuery)
      {
        assert docs[..i + 1][..i] == docs[..i];
        if !FolderDeleted(docs[i].fields) {
          folderList := folderList + [FolderRecord(docs[i], format)];
        }
        i := i + 1;
      }
      assert docs[..i] == docs;
      emptyNotice := folderList == [];
    }

    /** The folder field: an empty list triggers a new fetch instead of the sheet. */
    method OnFolderFieldTapped() returns (tap: FolderTap)
      ensures tap == Refetch <==> folderList == []
    {
      tap := if folderList == [] then Refetch else ShowFolders;
    }

    /**
     * Picking the folder at `k` in the sheet: it becomes the selection, the file
     * list is cleared and its presentations are queried.
     */
    method OnFolderPicked(k: nat)
      requires k < |folderList|
      modifies this
      ensures selectedFolderId == Some(old(folderList)[k].id)
      ensures fileQuery == Some(old(folderList)[k].id) && fileList == []
      ensures folderList == old(folderList) && folderQuery == old(folderQuery)
    {
      selectedFolderId := Some(folderList[k].id);
      fileList := [];
      fileQuery := Some(folderList[k].id);
    }

    /** The presentations query's answer: one record per document is appended, in order. */
    method OnPresentationsLoaded(result: Fetch<seq<Doc>>, format: Millis -> string) returns (emptyNotice: bool)
      modifies this
      ensures result.Failed? ==> fileList == old(fileList) && !emptyNotice
      ensures result.Loaded? ==> fileList == old(fileList) + FileRecords(result.result, format)
      ensures result.Loaded? ==> emptyNotice == (fileList == [])
      ensures folderList == old(folderList) && selectedFolderId == old(selectedFolderId) && fileQuery == old(fileQuery)
      ensures folderQuery == old(folderQuery)
    {
      if result.Failed? {
        return false;
      }
      var docs := result.result;
      var i := 0;
      while i < |docs|
        invariant 0 <= i <= |docs|
        invariant fileList == old(fileList) + FileRecords(docs[..i], format)
        invariant folderList == old(folderList) && selectedFolderId == old(selectedFolderId) && fileQuery == old(fileQuery)
        invariant folderQuery == old(folderQuery)
      {
        assert FileRecords(docs[..i + 1], format) == FileRecords(docs[..i], format) + [FileRecord(docs[i], format)];
        fileList := fileList + [FileRecord(docs[i], format)];
        i := i + 1;
      }
      assert docs[..i] == docs;
      emptyNotice := fileList == [];
    }

    /** The file field: refused without a selected folder, or with no file in it. */
    method OnFileFieldTapped() returns (tap: FileTap)
      ensures tap == NeedFolder <==> selectedFolderId.None?
      ensures tap == NoFiles <==> selectedFolderId.Some? && fileList == []
      ensures tap == ShowFiles <==> selectedFolderId.Some? && fileList != []
    {
      if selectedFolderId.None? {
        tap := NeedFolder;
      } else if fileList == [] {
        tap := NoFiles;
      } else {
        tap := ShowFiles;
      }
    }
  }

  /**
   * Loading the folders and then picking one lists exactly that folder's reports:
   * the file list holds one record per presentation document, in query order.
   */
  method PickThenLoad(screen: SubjectFolderScreen, k: nat, docs: seq<Doc>, format: Millis -> string)
    requires k < |screen.folderList|
    modifies screen
    ensures screen.selectedFolderId == Some(old(screen.folderList)[k].id)
    ensures screen.fileList == FileRecords(docs, format)
  {
    screen.OnFolderPicked(k);
    var _ := screen.OnPresentationsLoaded(Loaded(docs), format);
  }
}
