/**
 * The result screen (ui/file/AnalysisResultActivity.kt): it reads one stored report
 * back, shows its criteria, and exports a comparison spreadsheet of every completed
 * report on the same topic and a per-team PDF. Only the data the exports are built
 * from is modelled: the spreadsheet as a table of cells and the file names; the
 * binary file formats are not.
 */
module AnalysisResult {
  import opened Wrappers
  import Int32
  import Text
  import opened Firestore
  import AnalysisProgress

  /** One criterion as the screen shows it. */
  datatype CriterionResult = CriterionResult(criterionName: string, maxScore: Int32.Int, actualScore: Int32.Int, feedback: string)

  /** What the screen keeps from a stored report. */
  datatype Report = Report(teamName: string, topicName: string, overallFeedback: string, totalScore: Int32.Int, results: seq<CriterionResult>)

  const UnknownTeam := "Unknown Team"
  const NoFeedback := "피드백이 없습니다."
  const ReportMissingMessage := "결과 문서가 없습니다."
  const LoadFailedPrefix := "데이터 로드 실패: "
  const NoTopicMessage := "주제 정보가 없습니다."
  const NoComparisonMessage := "비교할 데이터가 없습니다."
  /** What the summary shows while the report is being read. */
  const LoadingMessage := "데이터 불러오는 중..."

  /** One stored score map, with "" / 0 / 0 / "" for what is missing or of another type. */
  function DecodeCriterion(m: Fields): CriterionResult {
    CriterionResult(
      AsString(Lookup(m, "standardName")).GetOr(""),
      AsNumberToInt(Lookup(m, "standardScore")).GetOr(0),
      AsNumberToInt(Lookup(m, "scoreValue")).GetOr(0),
      AsString(Lookup(m, "feedback")).GetOr(""))
  }

  function ScoresOf(f: Fields): Option<seq<Fields>> {
    AsMapList(Lookup(f, "scores"))
  }

  function DecodeCriteria(scores: Option<seq<Fields>>): seq<CriterionResult> {
    if scores.None? then []
    else seq(|scores.value|, k requires 0 <= k < |scores.value| => DecodeCriterion(scores.value[k]))
  }

  /** What `loadAnalysisResultFromFirestore` takes from an existing report document. */
  function DecodeReport(f: Fields): Report {
    var total := GetLong(f, "totalScore");
    Report(
      GetString(f, "teamInfo").GetOr(UnknownTeam),
      GetString(f, "topicName").GetOr(""),
      GetString(f, "overallFeedback").GetOr(NoFeedback),
      if total.Some? then Int32.Wrap(total.value) else 0,
      DecodeCriteria(ScoresOf(f)))
  }

  /** The result list, filled entry by entry in stored order. */
  method DecodeResultList(scores: Option<seq<Fields>>) returns (results: seq<CriterionResult>)
    ensures results == DecodeCriteria(scores)
  {
    results := [];
    if scores.Some? {
      for i := 0 to |scores.value|
        invariant |results| == i
        invariant forall k :: 0 <= k < i ==> results[k] == DecodeCriterion(scores.value[k])
      {
        results := results + [DecodeCriterion(scores.value[i])];
      }
    }
  }

  /**
   * Reading back a stored report gives what the progress screen wrote: the team,
   * topic, feedback and total, and one criterion per report line in the same order.
   */
  lemma ReportRoundTrip(p: AnalysisProgress.PresentationData)
    ensures var r := DecodeReport(AnalysisProgress.EncodeReport(p));
      && r.teamName == p.teamInfo && r.topicName == p.topicName
      && r.overallFeedback == p.overallFeedback && r.totalScore == p.totalScore
      && |r.results| == |p.scores|
      && forall k :: 0 <= k < |p.scores| ==>
           r.results[k] == CriterionResult(p.scores[k].standardName, p.scores[k].standardScore,
                                           p.scores[k].scoreValue, p.scores[k].feedback)
  {
    var maps := seq(|p.scores|, k requires 0 <= k < |p.scores| => AnalysisProgress.EncodeEntry(p.scores[k]));
    MapListRoundTrip(maps);
  }

  /**
   * A report without a `scores` list shows no criteria; a missing or mistyped total
   * shows 0; a missing team shows the placeholder.
   */
  lemma MissingFieldsDefault(f: Fields)
    requires "scores" !in f && "teamInfo" !in f
    requires "totalScore" !in f || !f["totalScore"].VLong?
    ensures DecodeReport(f).results == [] && DecodeReport(f).totalScore == 0
    ensures DecodeReport(f).teamName == UnknownTeam
  {
  }

  // ---------------------------------------------------------------------------
  // The comparison spreadsheet
  // ---------------------------------------------------------------------------

  datatype Cell = TextCell(text: string) | NumberCell(number: int)

  const TeamHeader := "팀명"
  const TotalHeader := "총점"
  const NoEntry := "-"

  /** `map["standardName"] as? String` */
  function NameOf(m: Fields): Option<string> {
    AsString(Lookup(m, "standardName"))
  }

  function DocScores(d: Doc): seq<Fields> {
    ScoresOf(d.fields).GetOr([])
  }

  /** The names found in one score list. */
  function NamesIn(scores: seq<Fields>): set<string> {
    if scores == [] then {}
    else
      var last := NameOf(scores[|scores| - 1]);
      NamesIn(scores[..|scores| - 1]) + (if last.Some? then {last.value} else {})
  }

  /** The distinct criterion names across all documents. */
  function CriteriaNames(docs: seq<Doc>): set<string> {
    if docs == [] then {} else CriteriaNames(docs[..|docs| - 1]) + NamesIn(DocScores(docs[|docs| - 1]))
  }

  lemma {:induction false} NamesInIff(scores: seq<Fields>, x: string)
    ensures x in NamesIn(scores) <==> exists j :: 0 <= j < |scores| && NameOf(scores[j]) == Some(x)
  {
    if scores != [] {
      var init := scores[..|scores| - 1];
      NamesInIff(init, x);
      if x in NamesIn(init) {
        var j :| 0 <= j < |init| && NameOf(init[j]) == Some(x);
        assert scores[j] == init[j];
      }
      if exists j :: 0 <= j < |scores| && NameOf(scores[j]) == Some(x) {
        var j :| 0 <= j < |scores| && NameOf(scores[j]) == Some(x);
        if j < |init| { assert init[j] == scores[j]; }
      }
    }
  }

  /** A name is a column exactly when some document has a score entry with that name. */
  lemma {:induction false} CriteriaNamesIff(docs: seq<Doc>, x: string)
    ensures x in CriteriaNames(docs) <==>
      exists k, j :: 0 <= k < |docs| && 0 <= j < |DocScores(docs[k])| && NameOf(DocScores(docs[k])[j]) == Some(x)
  {
    if docs != [] {
      var init := docs[..|docs| - 1];
      var last := docs[|docs| - 1];
      CriteriaNamesIff(init, x);
      NamesInIff(DocScores(last), x);
      if x in CriteriaNames(init) {
        var k, j :| 0 <= k < |init| && 0 <= j < |DocScores(init[k])| && NameOf(DocScores(init[k])[j]) == Some(x);
        assert docs[k] == init[k];
        assert 0 <= j < |DocScores(docs[k])| && NameOf(DocScores(docs[k])[j]) == Some(x);
      } else if x in NamesIn(DocScores(last)) {
        var j :| 0 <= j < |DocScores(last)| && NameOf(DocScores(last)[j]) == Some(x);
        var k := |docs| - 1;
        assert docs[k] == last;
        assert 0 <= j < |DocScores(docs[k])| && NameOf(DocScores(docs[k])[j]) == Some(x);
      } else {
        assert x !in CriteriaNames(docs);
        forall k, j | 0 <= k < |docs| && 0 <= j < |DocScores(docs[k])|
          ensures NameOf(DocScores(docs[k])[j]) != Some(x)
        {
          if k < |init| {
            assert init[k] == docs[k];
          }
        }
      }
    }
  }

  /** Collects the names of every document's score list into a set, then sorts it. */
  method BuildColumns(docs: seq<Doc>) returns (columns: seq<string>)
    ensures Text.StrictlySorted(columns)
    ensures Text.Members(columns) == CriteriaNames(docs)
  {
    var all: set<string> := {};
    for i := 0 to |docs|
      invariant all == CriteriaNames(docs[..i])
    {
      var scores := DocScores(docs[i]);
      for j := 0 to |scores|
        invariant all == CriteriaNames(docs[..i]) + NamesIn(scores[..j])
      {
        assert scores[..j + 1][..j] == scores[..j];
        var name := NameOf(scores[j]);
        if name.Some? {
          all := all + {name.value};
        }
      }
      assert scores[..|scores|] == scores;
      assert docs[..i + 1][..i] == docs[..i];
    }
    assert docs[..|docs|] == docs;
    columns := Text.SortStrings(all);
  }

  /** `scoresList?.find { it["standardName"] == name }`: the first entry whose name is exactly `name`. */
  function FindEntry(scores: seq<Fields>, name: string): (r: Option<nat>)
    ensures r.Some? ==> r.value < |scores| && Lookup(scores[r.value], "standardName") == Some(VString(name))
    ensures r.Some? ==> forall k :: 0 <= k < r.value ==> Lookup(scores[k], "standardName") != Some(VString(name))
    ensures r.None? ==> forall k :: 0 <= k < |scores| ==> Lookup(scores[k], "standardName") != Some(VString(name))
  {
    if scores == [] then None
    else if Lookup(scores[0], "standardName") == Some(VString(name)) then Some(0)
    else
      match FindEntry(scores[1..], name)
      case Some(i) => Some(i + 1)
      case None => None
  }

  /** The cell of one document under one column: its first matching entry's score, else "-". */
  function CellFor(scores: Option<seq<Fields>>, name: string): Cell {
    var m := if scores.Some? then FindEntry(scores.value, name) else None;
    if m.Some? then NumberCell(AsLong(Lookup(scores.value[m.value], "scoreValue")).GetOr(0))
    else TextCell(NoEntry)
  }

  /** The row label: the team, or "Team-" and the first five characters of the document id. */
  function RowLabel(d: Doc): string {
    GetString(d.fields, "teamInfo").GetOr("Team-" + Text.Take(d.id, 5))
  }

  function HeaderRow(columns: seq<string>): seq<Cell> {
    [TextCell(TeamHeader)] + seq(|columns|, k requires 0 <= k < |columns| => TextCell(columns[k])) + [TextCell(TotalHeader)]
  }

  function Row(d: Doc, columns: seq<string>): seq<Cell> {
    [TextCell(RowLabel(d))]
    + seq(|columns|, k requires 0 <= k < |columns| => CellFor(ScoresOf(d.fields), columns[k]))
    + [NumberCell(GetLong(d.fields, "totalScore").GetOr(0))]
  }

  /** Builds the sheet row by row: a header, then one row per document in query order. */
  method BuildSheet(docs: seq<Doc>) returns (columns: seq<string>, sheet: seq<seq<Cell>>)
    ensures Text.StrictlySorted(columns) && Text.Members(columns) == CriteriaNames(docs)
    ensures |sheet| == |docs| + 1
    ensures sheet[0] == HeaderRow(columns)
    ensures forall r :: 0 <= r < |docs| ==> sheet[r + 1] == Row(docs[r], columns)
  {
    columns := BuildColumns(docs);
    var header := [TextCell(TeamHeader)];
    for c := 0 to |columns|
      invariant header == [TextCell(TeamHeader)] + seq(c, k requires 0 <= k < c => TextCell(columns[k]))
    {
      header := header + [TextCell(columns[c])];
    }
    header := header + [TextCell(TotalHeader)];
    sheet := [header];
    for r := 0 to |docs|
      invariant |sheet| == r + 1 && sheet[0] == HeaderRow(columns)
      invariant forall q :: 0 <= q < r ==> sheet[q + 1] == Row(docs[q], columns)
    {
      var d := docs[r];
      var scores := ScoresOf(d.fields);
      var row := [TextCell(RowLabel(d))];
      for c := 0 to |columns|
        invariant row == [TextCell(RowLabel(d))] + seq(c, k requires 0 <= k < c => CellFor(scores, columns[k]))
      {
        row := row + [CellFor(scores, columns[c])];
      }
      row := row + [NumberCell(GetLong(d.fields, "totalScore").GetOr(0))];
      sheet := sheet + [row];
    }
  }

  /**
   * Every row is as wide as the header: the label, one cell per column, and the total.
   * A cell is "-" exactly when the document has no entry with the column's name.
   */
  lemma RowShape(d: Doc, columns: seq<string>, c: nat)
    requires c < |columns|
    ensures |Row(d, columns)| == |HeaderRow(columns)| == |columns| + 2
    ensures Row(d, columns)[c + 1] == TextCell(NoEntry) <==>
      ScoresOf(d.fields).None? ||
      forall k :: 0 <= k < |ScoresOf(d.fields).value| ==> Lookup(ScoresOf(d.fields).value[k], "standardName") != Some(VString(columns[c]))
  {
  }

  /** The spreadsheet name: content and topic names with spaces made underscores, joined by "_". */
  function ExcelFileName(contentName: string, topicName: string): string {
    Text.ReplaceSpaces(contentName) + "_" + Text.ReplaceSpaces(topicName) + ".xlsx"
  }

  /** The PDF name: the trimmed team name (or "Team_Unknown"), spaces made underscores. */
  function PdfFileName(teamName: string): string {
    var trimmed := Text.Trim(teamName);
    var finalName := if trimmed == [] then "Team_Unknown" else trimmed;
    Text.ReplaceSpaces(finalName) + ".pdf"
  }

  /**
   * File names hold no space. The sheet name is the content name, "_", the topic name
   * and ".xlsx", each name with its spaces made underscores; the PDF name is the trimmed
   * team name treated the same way (or "Team_Unknown" when it is blank) and ".pdf".
   */
  lemma FileNamesSpec(contentName: string, topicName: string, teamName: string)
    ensures var x := ExcelFileName(contentName, topicName);
      && ' ' !in x && |x| == |contentName| + |topicName| + 6
      && x[..|contentName|] == Text.ReplaceSpaces(contentName) && x[|contentName|] == '_'
      && x[|contentName| + 1..|x| - 5] == Text.ReplaceSpaces(topicName) && x[|x| - 5..] == ".xlsx"
    ensures var p := PdfFileName(teamName);
      && ' ' !in p && p[|p| - 4..] == ".pdf"
      && (Text.AllWhitespace(teamName) ==> p == "Team_Unknown.pdf")
      && (!Text.AllWhitespace(teamName) ==>
            |p| == |Text.Trim(teamName)| + 4 && p[..|p| - 4] == Text.ReplaceSpaces(Text.Trim(teamName)))
  {
    Text.TrimEmptyIff(teamName);
    var x := ExcelFileName(contentName, topicName);
    var a := Text.ReplaceSpaces(contentName);
    var b := Text.ReplaceSpaces(topicName);
    assert x == a + "_" + b + ".xlsx";
    assert x[|contentName|] == '_';
    var p := PdfFileName(teamName);
    var t := Text.Trim(teamName);
    if t != [] {
      assert p == Text.ReplaceSpaces(t) + ".pdf";
    } else {
      assert p == "Team_Unknown.pdf";
    }
  }

  // ---------------------------------------------------------------------------
  // The screen
  // ---------------------------------------------------------------------------

  /** What an export hands to the download folder: a file name and the data to write. */
  datatype Export = SheetExport(fileName: string, sheet: seq<seq<Cell>>) | PdfExport(fileName: string, maxTotal: Int32.Int)

  function Maxima(results: seq<CriterionResult>): seq<Int32.Int> {
    seq(|results|, k requires 0 <= k < |results| => results[k].maxScore)
  }

  /** The PDF's criteria total: the maxima of the shown criteria added up in an `Int`. */
  method MaxTotal(results: seq<CriterionResult>) returns (total: Int32.Int)
    ensures total == Int32.Wrap(Int32.Sum(Maxima(results)))
  {
    ghost var maxima := Maxima(results);
    total := 0;
    for i := 0 to |results|
      invariant total == Int32.WrappingSum(maxima[..i])
    {
      assert maxima[..i + 1] == maxima[..i] + [results[i].maxScore];
      Int32.WrappingSumAppend(maxima[..i], results[i].maxScore);
      total := Int32.Add(total, results[i].maxScore);
    }
    assert maxima[..|results|] == maxima;
    Int32.WrappingSumIsWrappedSum(maxima);
  }

  class ResultScreen {
    const contentId: Option<string>
    const presentationId: Option<string>

    var currentTopicName: string
    var currentContentName: string
    var currentTeamName: string
    var totalScore: Int32.Int
    var resultList: seq<CriterionResult>
    var summary: string
    var finished: bool

    /**
     * `onCreate`: without a report id the screen closes at once; with one, the summary
     * shows the loading text until the report read finishes.
     */
    constructor (contentId: Option<string>, presentationId: Option<string>)
      ensures this.contentId == contentId && this.presentationId == presentationId
      ensures finished == presentationId.None?
      ensures currentTopicName == "" && currentContentName == "" && currentTeamName == ""
      ensures totalScore == 0 && resultList == []
      ensures summary == if presentationId.Some? then LoadingMessage else ""
    {
      this.contentId := contentId;
      this.presentationId := presentationId;
      currentTopicName := "";
      currentContentName := "";
      currentTeamName := "";
      totalScore := 0;
      resultList := [];
      summary := if presentationId.Some? then LoadingMessage else "";
      finished := presentationId.None?;
    }

    /** `fetchContentName`: an existing content document names the spreadsheet's first part. */
    method OnContentLoaded(content: Option<Fields>)
      modifies this
      ensures content.Some? ==> currentContentName == GetString(content.value, "contentName").GetOr("과목")
      ensures content.None? ==> currentContentName == old(currentContentName)
      ensures currentTopicName == old(currentTopicName) && currentTeamName == old(currentTeamName)
      ensures totalScore == old(totalScore) && resultList == old(resultList) && finished == old(finished)
    {
      if content.Some? {
        currentContentName := GetString(content.value, "contentName").GetOr("과목");
      }
    }

    /**
     * The report read has finished. An existing report replaces everything the screen
     * shows; the total shown is the stored one, not recomputed from the criteria.
     */
    method OnReportLoaded(lookup: Fetch<Option<Fields>>) returns (message: Option<string>)
      modifies this
      ensures lookup.Loaded? && lookup.result.Some? ==>
        var r := DecodeReport(lookup.result.value);
        && currentTeamName == r.teamName && currentTopicName == r.topicName && summary == r.overallFeedback
        && totalScore == r.totalScore && resultList == r.results && message.None? && finished == old(finished)
      ensures lookup.Loaded? && lookup.result.None? ==>
        message == Some(ReportMissingMessage) && finished && resultList == old(resultList)
        && currentTeamName == old(currentTeamName) && currentTopicName == old(currentTopicName)
        && totalScore == old(totalScore) && summary == old(summary)
      ensures lookup.Failed? ==>
        message == Some(LoadFailedPrefix + lookup.message) && resultList == old(resultList) && finished == old(finished)
        && currentTeamName == old(currentTeamName) && currentTopicName == old(currentTopicName)
        && totalScore == old(totalScore) && summary == old(summary)
      ensures currentContentName == old(currentContentName)
    {
      match lookup
      case Loaded(doc) =>
        if doc.Some? {
          var f := doc.value;
          currentTeamName := GetString(f, "teamInfo").GetOr(UnknownTeam);
          currentTopicName := GetString(f, "topicName").GetOr("");
          var overallFeedback := GetString(f, "overallFeedback").GetOr(NoFeedback);
          var total := GetLong(f, "totalScore");
          totalScore := if total.Some? then Int32.Wrap(total.value) else 0;
          resultList := DecodeResultList(ScoresOf(f));
          summary := overallFeedback;
          message := None;
        } else {
          message := Some(ReportMissingMessage);
          finished := true;
        }
      case Failed(m) =>
        message := Some(LoadFailedPrefix + m);
    }

    /** The spreadsheet button: refused without a topic; otherwise the query's topic name. */
    method SaveExcel() returns (r: Result<string>)
      ensures currentTopicName == [] <==> r == Failure(NoTopicMessage)
      ensures currentTopicName != [] ==> r == Success(currentTopicName)
    {
      if currentTopicName == [] {
        return Failure(NoTopicMessage);
      }
      return Success(currentTopicName);
    }

    /** The comparison query has answered with the completed reports on this topic. */
    method OnComparisonLoaded(docs: seq<Doc>) returns (r: Result<Export>)
      ensures docs == [] ==> r == Failure(NoComparisonMessage)
      ensures docs != [] ==>
        && r.Success? && r.value.SheetExport?
        && r.value.fileName == ExcelFileName(currentContentName, currentTopicName)
        && |r.value.sheet| == |docs| + 1
        && (forall q :: 1 <= q < |r.value.sheet| ==> |r.value.sheet[q]| == |r.value.sheet[0]|)
        && (exists columns :: Text.StrictlySorted(columns) && Text.Members(columns) == CriteriaNames(docs)
             && r.value.sheet[0] == HeaderRow(columns)
             && forall q :: 0 <= q < |docs| ==> r.value.sheet[q + 1] == Row(docs[q], columns))
    {
      if docs == [] {
        return Failure(NoComparisonMessage);
      }
      var columns, sheet := BuildSheet(docs);
      forall q | 1 <= q < |sheet| ensures |sheet[q]| == |sheet[0]| {
        assert sheet[q] == Row(docs[q - 1], columns);
      }
      r := Success(SheetExport(ExcelFileName(currentContentName, currentTopicName), sheet));
    }

    /** The PDF button: the file name from the team, and the criteria maxima total. */
    method SavePdf() returns (e: Export)
      ensures e.PdfExport? && e.fileName == PdfFileName(currentTeamName)
      ensures e.maxTotal == Int32.Wrap(Int32.Sum(Maxima(resultList)))
    {
      var trimmed := Text.Trim(currentTeamName);
      var finalTeamName := trimmed;
      if finalTeamName == [] {
        finalTeamName := "Team_Unknown";
      }
      var fileName := Text.ReplaceSpaces(finalTeamName) + ".pdf";
      var maxTotal := MaxTotal(resultList);
      e := PdfExport(fileName, maxTotal);
    }
  }
}
