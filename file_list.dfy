// The file list of one folder: the analysed presentations whose `contentId` is the
// folder, one record per stored report in query order.

module FileList {
  import opened Wrappers
  import Int32
  import opened Firestore
  import AnalysisProgress

  const NoTitle := "제목 없음"
  const NoSummary := "요약 정보 없음"
  const NoDate := "-"

  /** `PresentationFile`: one row of the list. */
  datatype PresentationFile = PresentationFile(id: string, title: string, date: string, score: Int32.Int, summary: string)

  /**
   * The score shown for a report: `scoreValue` of the first entry of `scores`, when
   * `scores` is a list whose first item is a map holding a whole number there,
   * narrowed with `toInt()`; 0 otherwise.
   */
  function FirstScore(f: Fields): Int32.Int {
    var v := Lookup(f, "scores");
    if v.Some? && v.value.VList? && |v.value.items| > 0 && v.value.items[0].VMap? then
      var n := GetLong(v.value.items[0].fields, "scoreValue");
      if n.Some? then Int32.Wrap(n.value) else 0
    else 0
  }

  /**
   * `getDateString`: "-" for a missing timestamp, otherwise the timestamp written by
   * `format` (the "yyyy.MM.dd" pattern in the device's time zone).
   */
  function DateString(timestamp: Option<Millis>, format: Millis -> string): (s: string)
    ensures timestamp.None? ==> s == NoDate
    ensures timestamp.Some? ==> s == format(timestamp.value)
  {
    if timestamp.Some? then format(timestamp.value) else NoDate
  }

  /** The record built from one report document. */
  function FileRecord(d: Doc, format: Millis -> string): PresentationFile {
    PresentationFile(
      d.id,
      GetString(d.fields, "topicName").GetOr(NoTitle),
      DateString(GetTimestamp(d.fields, "gradeAt"), format),
      FirstScore(d.fields),
      GetString(d.fields, "overallFeedback").GetOr(NoSummary))
  }

  /** One record per document, in the order of the query result. */
  function FileRecords(docs: seq<Doc>, format: Millis -> string): (r: seq<PresentationFile>)
    ensures |r| == |docs|
    ensures forall k :: 0 <= k < |docs| ==> r[k].id == docs[k].id
  {
    seq(|docs|, k requires 0 <= k < |docs| => FileRecord(docs[k], format))
  }

  /**
   * A report written by the progress screen lists under its own topic name, grading
   * date and overall feedback, with the score of its first criterion (0 without one).
   */
  lemma FileRecordRoundTrip(id: string, p: AnalysisProgress.PresentationData, format: Millis -> string)
    ensures FileRecord(Doc(id, AnalysisProgress.EncodeReport(p)), format)
      == PresentationFile(id, p.topicName, format(p.gradeAt),
                          if |p.scores| > 0 then p.scores[0].scoreValue else 0, p.overallFeedback)
  {
    var maps := seq(|p.scores|, k requires 0 <= k < |p.scores| => AnalysisProgress.EncodeEntry(p.scores[k]));
    MapListRoundTrip(maps);
    if |p.scores| > 0 {
      assert MapList(maps).items[0] == VMap(AnalysisProgress.EncodeEntry(p.scores[0]));
    }
  }

  /** A document with none of the fields lists as "제목 없음", "-", 0 and "요약 정보 없음". */
  lemma EmptyDocumentDefaults(id: string, format: Millis -> string)
    ensures FileRecord(Doc(id, map[]), format) == PresentationFile(id, NoTitle, NoDate, 0, NoSummary)
  {
  }

  /** The list screen of one folder (`FileListActivity`). */
  class FileListScreen {
    var fileList: seq<PresentationFile>
    /** Whether the list view is shown; an empty result hides it. */
    var listVisible: bool
    /** The `contentId` of the query in flight, if any was issued. */
    var query: Option<string>

    /** `onCreate`: only a folder id in the intent starts a load. */
    constructor (folderId: Option<string>)
      ensures fileList == [] && listVisible
      ensures query == folderId
    {
      fileList := [];
      listVisible := true;
      query := folderId;
    }

    /** `fetchPresentations(contentId)`: the list is cleared and the query issued. */
    method FetchPresentations(contentId: string)
      modifies this
      ensures fileList == [] && query == Some(contentId) && listVisible == old(listVisible)
    {
      fileList := [];
      query := Some(contentId);
    }

    /**
     * The query's answer: on success the list is shown exactly when the result is
     * non-empty and gains one record per document in order; a failure changes nothing.
     */
    method OnPresentationsLoaded(result: Fetch<seq<Doc>>, format: Millis -> string)
      modifies this
      ensures query == old(query)
      ensures result.Failed? ==> fileList == old(fileList) && listVisible == old(listVisible)
      ensures result.Loaded? ==> listVisible == (result.result != [])
      ensures result.Loaded? ==> fileList == old(fileList) + FileRecords(result.result, format)
    {
      if result.Failed? {
        return;
      }
      var docs := result.result;
      listVisible := docs != [];
      var i := 0;
      while i < |docs|
        invariant 0 <= i <= |docs|
        invariant query == old(query) && listVisible == (docs != [])
        invariant fileList == old(fileList) + FileRecords(docs[..i], format)
      {
        assert FileRecords(docs[..i + 1], format) == FileRecords(docs[..i], format) + [FileRecord(docs[i], format)];
        fileList := fileList + [FileRecord(docs[i], format)];
        i := i + 1;
      }
      assert docs[..i] == docs;
    }
  }

  /** Opening a folder and loading its reports lists exactly those reports. */
  method OpenFolder(contentId: string, docs: seq<Doc>, format: Millis -> string) returns (screen: FileListScreen)
    ensures screen.query == Some(contentId)
    ensures screen.fileList == FileRecords(docs, format)
    ensures screen.listVisible <==> docs != []
  {
    screen := new FileListScreen(Some(contentId));
    screen.OnPresentationsLoaded(Loaded(docs), format);
  }
}
