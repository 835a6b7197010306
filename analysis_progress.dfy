/**
 * The analysis progress screen (ui/file/AnalysisProgressActivity.kt): it polls the
 * analysis service for a submitted job until the job is complete or has failed, then
 * reconciles the service's reviews against the topic's stored rubric and persists the
 * resulting score report.
 *
 * The Android handler queue is the field `queued` (the delays of the pending posts of
 * the polling runnable); a status request whose callback has not run yet is counted in
 * `inFlight`. Service replies and store reads are parameters.
 */
module AnalysisProgress {
  import opened Wrappers
  import Int32
  import Text
  import opened Firestore
  import PresentationInfo

  // ---------------------------------------------------------------------------
  // The status service's payloads, as decoded by the HTTP client
  // ---------------------------------------------------------------------------

  /** One review the service produced: a loosely named criterion with its score and feedback. */
  datatype Review = Review(name: string, score: Int32.Int, feedback: string)

  datatype AiAssessment = AiAssessment(
    overallSummary: Option<string>,
    videoSummary: Option<string>,
    aiFeedback: Option<string>,
    reviews: Option<seq<Review>>)

  datatype AnalysisResultData = AnalysisResultData(aiAssessment: Option<AiAssessment>)

  datatype StatusResponse = StatusResponse(
    status: string,
    message: Option<string>,
    result: Option<AnalysisResultData>)

  /** What one status request ends in: the transport failed, or an HTTP response arrived. */
  datatype PollOutcome =
    | TransportFailure
    | HttpResponse(successful: bool, body: Option<StatusResponse>)

  // ---------------------------------------------------------------------------
  // The polling state machine
  // ---------------------------------------------------------------------------

  const FirstPollDelay: nat := 1000
  const InProgressDelay: nat := 1000
  const RetryDelay: nat := 2000
  const ServerErrorMessage := "서버 오류 발생"
  const EmptyResultMessage := "결과 데이터가 비어있습니다."

  /** What the poller does after one outcome. */
  datatype PollAction =
    | Repoll(delay: nat)
    | Save(result: Option<AnalysisResultData>)
    | Fail(message: string)

  predicate IsTerminal(a: PollAction) {
    !a.Repoll?
  }

  /** The transition of `checkAnalysisStatus`'s callbacks. */
  function Decide(o: PollOutcome): (a: PollAction)
    ensures a == Repoll(RetryDelay) <==> !(o.HttpResponse? && o.successful && o.body.Some?)
    ensures a.Save? <==> o.HttpResponse? && o.successful && o.body.Some? && o.body.value.status == "Complete"
    ensures a.Save? ==> a.result == o.body.value.result
    ensures a.Fail? <==> o.HttpResponse? && o.successful && o.body.Some? && o.body.value.status == "Error"
    ensures a.Fail? ==> a.message == o.body.value.message.GetOr(ServerErrorMessage)
    ensures a == Repoll(InProgressDelay) <==>
      o.HttpResponse? && o.successful && o.body.Some? && o.body.value.status !in {"Complete", "Error"}
  {
    match o
    case TransportFailure => Repoll(RetryDelay)
    case HttpResponse(ok, body) =>
      if ok && body.Some? then
        var status := body.value.status;
        if status == "Complete" then Save(body.value.result)
        else if status == "Error" then Fail(body.value.message.GetOr(ServerErrorMessage))
        else Repoll(InProgressDelay)
      else Repoll(RetryDelay)
  }

  /**
   * What a run of polls does when the service answers with `outcomes`, one per poll:
   * the delays it schedules, how many outcomes it consumes, and the terminal action
   * it takes, if any. A poll is only ever scheduled by the previous poll's outcome.
   */
  datatype Trace = Trace(delays: seq<nat>, consumed: nat, terminal: Option<PollAction>)

  function Run(outcomes: seq<PollOutcome>): Trace {
    if outcomes == [] then Trace([], 0, None)
    else
      match Decide(outcomes[0])
      case Repoll(d) =>
        var t := Run(outcomes[1..]);
        Trace([d] + t.delays, t.consumed + 1, t.terminal)
      case a => Trace([], 1, Some(a))
  }

  /**
   * Polling stops at the first Complete or Error outcome: every earlier outcome only
   * rescheduled (with the delay it asked for), nothing after it is consumed, and the
   * single terminal action is the one that outcome asks for. Without such an outcome
   * every outcome is consumed and polling goes on.
   */
  lemma {:induction false} RunStopsAtFirstTerminal(outcomes: seq<PollOutcome>)
    ensures var t := Run(outcomes);
      && t.consumed <= |outcomes|
      && |t.delays| == (if t.terminal.Some? then t.consumed - 1 else t.consumed)
      && (forall k :: 0 <= k < |t.delays| ==> Decide(outcomes[k]) == Repoll(t.delays[k]))
      && (t.terminal.Some? ==> t.consumed >= 1 && t.terminal.value == Decide(outcomes[t.consumed - 1])
                               && IsTerminal(t.terminal.value))
      && (t.terminal.None? ==> t.consumed == |outcomes|)
  {
    if outcomes != [] && Decide(outcomes[0]).Repoll? {
      RunStopsAtFirstTerminal(outcomes[1..]);
    }
  }

  /** There is a terminal action exactly when some outcome is terminal. */
  lemma {:induction false} RunTerminalIff(outcomes: seq<PollOutcome>)
    ensures Run(outcomes).terminal.Some? <==> exists k :: 0 <= k < |outcomes| && IsTerminal(Decide(outcomes[k]))
  {
    if outcomes != [] {
      RunTerminalIff(outcomes[1..]);
      if !IsTerminal(Decide(outcomes[0])) {
        if exists k :: 0 <= k < |outcomes| && IsTerminal(Decide(outcomes[k])) {
          var k :| 0 <= k < |outcomes| && IsTerminal(Decide(outcomes[k]));
          assert outcomes[1..][k - 1] == outcomes[k];
        }
        if exists k :: 0 <= k < |outcomes[1..]| && IsTerminal(Decide(outcomes[1..][k])) {
          var k :| 0 <= k < |outcomes[1..]| && IsTerminal(Decide(outcomes[1..][k]));
          assert outcomes[k + 1] == outcomes[1..][k];
        }
      }
    }
  }

  /** Two in-progress answers, then completion: exactly one save, with the completed payload. */
  lemma InProgressTwiceThenComplete(payload: AnalysisResultData)
    ensures var working := HttpResponse(true, Some(StatusResponse("InProgress", None, None)));
      var done := HttpResponse(true, Some(StatusResponse("Complete", None, Some(payload))));
      Run([working, working, done]) == Trace([1000, 1000], 3, Some(Save(Some(payload))))
  {
    var working := HttpResponse(true, Some(StatusResponse("InProgress", None, None)));
    var done := HttpResponse(true, Some(StatusResponse("Complete", None, Some(payload))));
    assert "InProgress"[0] != "Complete"[0] && "InProgress"[0] != "Error"[0];
    assert Decide(working) == Repoll(1000);
    assert Decide(done) == Save(Some(payload));
    assert Run([done]) == Trace([], 1, Some(Save(Some(payload))));
    assert [working, done][1..] == [done];
    assert Run([working, done]) == Trace([1000], 2, Some(Save(Some(payload))));
    assert [working, working, done][1..] == [working, done];
  }

  /** Two transport failures, then completion: polling survives both and saves once. */
  lemma FailuresThenComplete(payload: AnalysisResultData)
    ensures var done := HttpResponse(true, Some(StatusResponse("Complete", None, Some(payload))));
      Run([TransportFailure, TransportFailure, done]) == Trace([2000, 2000], 3, Some(Save(Some(payload))))
  {
    var done := HttpResponse(true, Some(StatusResponse("Complete", None, Some(payload))));
    assert Decide(done) == Save(Some(payload));
    assert Run([done]) == Trace([], 1, Some(Save(Some(payload))));
    assert [TransportFailure, done][1..] == [done];
    assert Run([TransportFailure, done]) == Trace([2000], 2, Some(Save(Some(payload))));
    assert [TransportFailure, TransportFailure, done][1..] == [TransportFailure, done];
  }

  // ---------------------------------------------------------------------------
  // Rubric reconciliation
  // ---------------------------------------------------------------------------

  const NoFeedback := "피드백 없음"
  const VideoSummaryHeader := "\n\n[영상 요약]\n"
  const NoAnalysis := "분석 내용 없음"
  const UnknownTeam := "Unknown Team"
  const UnknownTopic := "Unknown Topic"

  /** One line of the persisted report. */
  datatype ScoreEntry = ScoreEntry(
    standardName: string,
    standardScore: Int32.Int,
    scoreValue: Int32.Int,
    feedback: string)

  /** The persisted report (a document of the `presentations` collection). */
  datatype PresentationData = PresentationData(
    teamInfo: string,
    topicName: string,
    overallFeedback: string,
    scores: seq<ScoreEntry>,
    totalScore: Int32.Int,
    status: string,
    gradeAt: Millis)

  /** The stored form of one report line. */
  function EncodeEntry(e: ScoreEntry): Fields {
    map[
      "standardName" := VString(e.standardName),
      "standardScore" := VLong(e.standardScore),
      "scoreValue" := VLong(e.scoreValue),
      "feedback" := VString(e.feedback)]
  }

  /** The stored form of the report: the document written to `presentations`. */
  function EncodeReport(p: PresentationData): Fields {
    map[
      "teamInfo" := VString(p.teamInfo),
      "topicName" := VString(p.topicName),
      "overallFeedback" := VString(p.overallFeedback),
      "scores" := MapList(seq(|p.scores|, k requires 0 <= k < |p.scores| => EncodeEntry(p.scores[k]))),
      "totalScore" := VLong(p.totalScore),
      "status" := VString(p.status),
      "gradeAt" := VTimestamp(p.gradeAt)]
  }

  /** The fuzzy match: either name contains the other. */
  predicate NamesMatch(reviewName: string, standardName: string) {
    Text.Contains(reviewName, standardName) || Text.Contains(standardName, reviewName)
  }

  /** `reviews.find { ... }`: the index of the first review matching `name`. */
  function FindMatch(reviews: seq<Review>, name: string): (r: Option<nat>)
    ensures r.Some? ==> r.value < |reviews| && NamesMatch(reviews[r.value].name, name)
    ensures r.Some? ==> forall k :: 0 <= k < r.value ==> !NamesMatch(reviews[k].name, name)
    ensures r.None? ==> forall k :: 0 <= k < |reviews| ==> !NamesMatch(reviews[k].name, name)
  {
    if reviews == [] then None
    else if NamesMatch(reviews[0].name, name) then Some(0)
    else
      match FindMatch(reviews[1..], name)
      case Some(i) => Some(i + 1)
      case None => None
  }

  function StandardName(std: Fields): string {
    AsString(Lookup(std, "standardName")).GetOr("")
  }

  function StandardMax(std: Fields): Int32.Int {
    AsNumberToInt(Lookup(std, "standardScore")).GetOr(0)
  }

  /** The rubric stored in the topic document, in stored order. */
  function StandardsOf(topic: Fields): seq<Fields> {
    AsMapList(Lookup(topic, "standards")).GetOr([])
  }

  function ReviewsOf(ai: Option<AiAssessment>): Option<seq<Review>> {
    if ai.Some? then ai.value.reviews else None
  }

  /** The report line for one rubric line. */
  function EntryFor(std: Fields, reviews: Option<seq<Review>>): ScoreEntry {
    var name := StandardName(std);
    var m := if reviews.Some? then FindMatch(reviews.value, name) else None;
    if m.Some? then
      ScoreEntry(name, StandardMax(std), reviews.value[m.value].score, reviews.value[m.value].feedback)
    else
      ScoreEntry(name, StandardMax(std), 0, NoAnalysis)
  }

  function Entries(standards: seq<Fields>, reviews: Option<seq<Review>>): seq<ScoreEntry> {
    seq(|standards|, k requires 0 <= k < |standards| => EntryFor(standards[k], reviews))
  }

  function ScoreValues(entries: seq<ScoreEntry>): seq<Int32.Int> {
    seq(|entries|, k requires 0 <= k < |entries| => entries[k].scoreValue)
  }

  predicate NonEmpty(s: Option<string>) {
    s.Some? && s.value != ""
  }

  /** The overall feedback: summary (or a default), the video summary appended, or the text fallback. */
  function OverallFeedback(ai: Option<AiAssessment>): string {
    var summary := if ai.Some? then ai.value.overallSummary.GetOr(NoFeedback) else NoFeedback;
    var video := if ai.Some? then ai.value.videoSummary else None;
    var withVideo := if NonEmpty(video) then summary + VideoSummaryHeader + video.value else summary;
    var reviews := ReviewsOf(ai);
    var fallback := if ai.Some? then ai.value.aiFeedback else None;
    if (reviews.None? || reviews.value == []) && NonEmpty(fallback) then fallback.value else withVideo
  }

  /** The report `saveAnalysisResultToFirestore` builds from the topic document and the assessment. */
  function PresentationDataOf(topic: Fields, ai: Option<AiAssessment>, gradeAt: Millis): PresentationData {
    var entries := Entries(StandardsOf(topic), ReviewsOf(ai));
    PresentationData(
      GetString(topic, "teamInfo").GetOr(UnknownTeam),
      GetString(topic, "topicName").GetOr(UnknownTopic),
      OverallFeedback(ai),
      entries,
      Int32.WrappingSum(ScoreValues(entries)),
      "completed",
      gradeAt)
  }

  /** The overall feedback, assembled step by step as the screen does. */
  method BuildOverallFeedback(ai: Option<AiAssessment>) returns (overallFeedback: string)
    ensures overallFeedback == OverallFeedback(ai)
  {
    overallFeedback := if ai.Some? then ai.value.overallSummary.GetOr(NoFeedback) else NoFeedback;
    if ai.Some? && NonEmpty(ai.value.videoSummary) {
      overallFeedback := overallFeedback + VideoSummaryHeader + ai.value.videoSummary.value;
    }
    var reviews := ReviewsOf(ai);
    if (reviews.None? || reviews.value == []) && ai.Some? && NonEmpty(ai.value.aiFeedback) {
      overallFeedback := ai.value.aiFeedback.value;
    }
  }

  /** The reconciliation loop: one report line per rubric line, and the running total. */
  method ReconcileScores(standards: seq<Fields>, reviews: Option<seq<Review>>)
    returns (scoresList: seq<ScoreEntry>, totalScore: Int32.Int)
    ensures scoresList == Entries(standards, reviews)
    ensures totalScore == Int32.WrappingSum(ScoreValues(scoresList))
  {
    scoresList := [];
    totalScore := 0;
    for i := 0 to |standards|
      invariant |scoresList| == i
      invariant forall k :: 0 <= k < i ==> scoresList[k] == EntryFor(standards[k], reviews)
      invariant totalScore == Int32.WrappingSum(ScoreValues(scoresList))
    {
      var entry := EntryFor(standards[i], reviews);
      assert ScoreValues(scoresList + [entry]) == ScoreValues(scoresList) + [entry.scoreValue];
      Int32.WrappingSumAppend(ScoreValues(scoresList), entry.scoreValue);
      totalScore := Int32.Add(totalScore, entry.scoreValue);
      scoresList := scoresList + [entry];
    }
  }

  /** Builds the report as the screen does. */
  method BuildPresentationData(topic: Fields, ai: Option<AiAssessment>, gradeAt: Millis)
    returns (p: PresentationData)
    ensures p == PresentationDataOf(topic, ai, gradeAt)
  {
    var teamName := GetString(topic, "teamInfo").GetOr(UnknownTeam);
    var topicName := GetString(topic, "topicName").GetOr(UnknownTopic);
    var overallFeedback := BuildOverallFeedback(ai);
    var scoresList, totalScore := ReconcileScores(StandardsOf(topic), ReviewsOf(ai));
    p := PresentationData(teamName, topicName, overallFeedback, scoresList, totalScore, "completed", gradeAt);
  }

  /**
   * One report line per rubric line, in rubric order: the name and the maximum are
   * copied from the rubric (the score is not clamped to the maximum), and score and
   * feedback come from the first review whose name contains, or is contained in, the
   * rubric line's name, or are 0 and the "no analysis" text when no review matches.
   */
  lemma ReportLines(topic: Fields, ai: Option<AiAssessment>, gradeAt: Millis, i: nat)
    requires i < |StandardsOf(topic)|
    ensures var p := PresentationDataOf(topic, ai, gradeAt);
      var std := StandardsOf(topic)[i];
      var reviews := ReviewsOf(ai);
      && |p.scores| == |StandardsOf(topic)|
      && p.scores[i].standardName == StandardName(std)
      && p.scores[i].standardScore == StandardMax(std)
      && (if reviews.Some? && (exists k :: 0 <= k < |reviews.value| && NamesMatch(reviews.value[k].name, StandardName(std)))
          then exists k :: 0 <= k < |reviews.value|
                 && NamesMatch(reviews.value[k].name, StandardName(std))
                 && (forall j :: 0 <= j < k ==> !NamesMatch(reviews.value[j].name, StandardName(std)))
                 && p.scores[i].scoreValue == reviews.value[k].score
                 && p.scores[i].feedback == reviews.value[k].feedback
          else p.scores[i].scoreValue == 0 && p.scores[i].feedback == NoAnalysis)
  {
    var std := StandardsOf(topic)[i];
    var reviews := ReviewsOf(ai);
    if reviews.Some? {
      var m := FindMatch(reviews.value, StandardName(std));
      if m.Some? {
        assert NamesMatch(reviews.value[m.value].name, StandardName(std));
      }
    }
  }

  /** The total is the sum of the line scores (reduced to 32 bits, as Kotlin's `Int` does). */
  lemma TotalIsSumOfLines(topic: Fields, ai: Option<AiAssessment>, gradeAt: Millis)
    ensures var p := PresentationDataOf(topic, ai, gradeAt);
      p.totalScore == Int32.Wrap(Int32.Sum(ScoreValues(p.scores)))
  {
    var p := PresentationDataOf(topic, ai, gradeAt);
    Int32.WrappingSumIsWrappedSum(ScoreValues(p.scores));
  }

  /**
   * A topic stored by the topic-entry screen is read back as the same rubric: the team,
   * the topic, and one report line per stored rubric line with its name and maximum.
   */
  lemma RubricRoundTrip(t: PresentationInfo.TopicData, ai: Option<AiAssessment>, gradeAt: Millis)
    ensures var p := PresentationDataOf(PresentationInfo.EncodeTopic(t), ai, gradeAt);
      && p.teamInfo == t.teamInfo && p.topicName == t.topicName
      && |p.scores| == |t.standards|
      && forall k :: 0 <= k < |t.standards| ==>
           p.scores[k].standardName == t.standards[k].standardName
           && p.scores[k].standardScore == t.standards[k].standardScore
  {
    var maps := seq(|t.standards|, k requires 0 <= k < |t.standards| => PresentationInfo.EncodeStandard(t.standards[k]));
    MapListRoundTrip(maps);
    assert StandardsOf(PresentationInfo.EncodeTopic(t)) == maps;
  }

  /** Without reviews every line scores 0 with the "no analysis" text, and the total is 0. */
  lemma {:induction false} NoReviewsScoresZero(topic: Fields, ai: Option<AiAssessment>, gradeAt: Millis)
    requires ReviewsOf(ai).None? || ReviewsOf(ai).value == []
    ensures var p := PresentationDataOf(topic, ai, gradeAt);
      && p.totalScore == 0
      && forall k :: 0 <= k < |p.scores| ==> p.scores[k].scoreValue == 0 && p.scores[k].feedback == NoAnalysis
  {
    var p := PresentationDataOf(topic, ai, gradeAt);
    AllZeroSum(ScoreValues(p.scores));
  }

  lemma {:induction false} AllZeroSum(xs: seq<Int32.Int>)
    requires forall k :: 0 <= k < |xs| ==> xs[k] == 0
    ensures Int32.WrappingSum(xs) == 0
  {
    if xs != [] {
      AllZeroSum(xs[..|xs| - 1]);
    }
  }

  /** A review named exactly like a rubric line, with no earlier match, scores that line. */
  lemma ExactNameScores(reviews: seq<Review>, std: Fields, k: nat)
    requires k < |reviews| && reviews[k].name == StandardName(std)
    requires forall j :: 0 <= j < k ==> !NamesMatch(reviews[j].name, StandardName(std))
    ensures EntryFor(std, Some(reviews)).scoreValue == reviews[k].score
    ensures EntryFor(std, Some(reviews)).feedback == reviews[k].feedback
  {
    Text.ContainsSelfAndEmpty(reviews[k].name);
    assert NamesMatch(reviews[k].name, StandardName(std));
  }

  /** A rubric line with an empty name is credited by the first review, whatever it is called. */
  lemma EmptyNameTakesFirstReview(reviews: seq<Review>, std: Fields)
    requires reviews != [] && StandardName(std) == ""
    ensures EntryFor(std, Some(reviews)).scoreValue == reviews[0].score
  {
    Text.ContainsSelfAndEmpty(reviews[0].name);
  }

  /** Reviews are not used up: one review can credit several rubric lines. */
  lemma ReviewCreditsManyLines(r: Review, a: Fields, b: Fields)
    requires StandardName(a) == r.name && StandardName(b) == r.name
    ensures EntryFor(a, Some([r])).scoreValue == r.score && EntryFor(b, Some([r])).scoreValue == r.score
  {
    Text.ContainsSelfAndEmpty(r.name);
  }

  /**
   * Without reviews, a non-empty text fallback replaces the whole overall feedback;
   * otherwise it is the summary (or its default) followed, when a video summary is
   * present and non-empty, by the delimited video summary.
   */
  lemma OverallFeedbackCases(ai: AiAssessment)
    ensures var r := OverallFeedback(Some(ai));
      var summary := ai.overallSummary.GetOr(NoFeedback);
      if (ai.reviews.None? || ai.reviews.value == []) && NonEmpty(ai.aiFeedback) then r == ai.aiFeedback.value
      else && r[..|summary|] == summary
           && (NonEmpty(ai.videoSummary) <==> |r| > |summary|)
           && (NonEmpty(ai.videoSummary) ==> r[|summary|..] == VideoSummaryHeader + ai.videoSummary.value)
  {
  }

  // ---------------------------------------------------------------------------
  // Saving: the topic read and the report write that follow a Complete status
  // ---------------------------------------------------------------------------

  const TopicNotFoundMessage := "주제 정보를 찾을 수 없습니다."
  const TopicLoadFailedPrefix := "Topic 로드 실패: "
  const SaveFailedPrefix := "DB 저장 실패: "

  // ---------------------------------------------------------------------------
  // The screen
  // ---------------------------------------------------------------------------

  /** The start guard: the screen polls only when all four ids were passed to it. */
  predicate AllIdsPresent(jobId: Option<string>, userId: Option<string>, folderId: Option<string>, topicId: Option<string>) {
    jobId.Some? && userId.Some? && folderId.Some? && topicId.Some?
  }

  class ProgressScreen {
    const jobId: Option<string>
    const userId: Option<string>
    const folderId: Option<string>
    const topicId: Option<string>

    /** Delays of the posts of the polling runnable still waiting in the handler. */
    var queued: seq<nat>
    /** Status requests sent whose callback has not run yet. */
    var inFlight: nat
    /** Result payloads handed to `saveAnalysisResultToFirestore` that started a topic read. */
    var saves: seq<AnalysisResultData>
    /** Messages shown by `showError`, oldest first. */
    var errors: seq<string>
    /** The report id the screen navigated to, once the report is stored. */
    var navigatedTo: Option<string>
    var finished: bool
    var destroyed: bool

    /** At most one poll is pending or running, and only for a known job. */
    ghost predicate Valid()
      reads this
    {
      && |queued| + inFlight <= 1
      && (|queued| + inFlight == 1 ==> jobId.Some?)
    }

    /** Nothing is queued or running: no poll can ever happen again. */
    predicate Stopped()
      reads this
    {
      queued == [] && inFlight == 0
    }

    /** `onCreate`: polling starts one second later only if all four ids were passed. */
    constructor (jobId: Option<string>, userId: Option<string>, folderId: Option<string>, topicId: Option<string>)
      ensures Valid()
      ensures this.jobId == jobId && this.userId == userId && this.folderId == folderId && this.topicId == topicId
      ensures AllIdsPresent(jobId, userId, folderId, topicId) ==> queued == [FirstPollDelay] && !finished
      ensures !AllIdsPresent(jobId, userId, folderId, topicId) ==> queued == [] && finished
      ensures inFlight == 0 && saves == [] && errors == [] && navigatedTo.None? && !destroyed
    {
      this.jobId := jobId;
      this.userId := userId;
      this.folderId := folderId;
      this.topicId := topicId;
      var all := AllIdsPresent(jobId, userId, folderId, topicId);
      queued := if all then [FirstPollDelay] else [];
      finished := !all;
      inFlight := 0;
      saves := [];
      errors := [];
      navigatedTo := None;
      destroyed := false;
    }

    /** The handler runs the polling runnable: `checkAnalysisStatus` sends a request for the job. */
    method Fire()
      requires Valid() && queued != []
      modifies this
      ensures Valid()
      ensures queued == old(queued)[1..] && inFlight == old(inFlight) + 1
      ensures saves == old(saves) && errors == old(errors) && navigatedTo == old(navigatedTo)
      ensures finished == old(finished) && destroyed == old(destroyed)
    {
      queued := queued[1..];
      if jobId.Some? {
        inFlight := inFlight + 1;
      }
    }

    /** `showError`: shows the message and removes every pending poll. */
    method ShowError(message: string)
      requires Valid()
      modifies this
      ensures Valid()
      ensures errors == old(errors) + [message] && queued == []
      ensures inFlight == old(inFlight) && saves == old(saves) && navigatedTo == old(navigatedTo)
      ensures finished == old(finished) && destroyed == old(destroyed)
    {
      errors := errors + [message];
      queued := [];
    }

    /**
     * The request's callback runs with `o`. A reschedule posts one poll; a Complete
     * status hands its result to the save step (an empty result is an error); an
     * Error status shows its message. After a terminal outcome nothing is pending.
     * The callback is not ignored after `onDestroy`.
     */
    method OnResponse(o: PollOutcome)
      requires Valid() && inFlight > 0
      modifies this
      ensures Valid() && inFlight == 0
      ensures Decide(o).Repoll? ==> queued == [Decide(o).delay] && errors == old(errors) && saves == old(saves)
      ensures IsTerminal(Decide(o)) ==> Stopped()
      ensures Decide(o) == Save(None) ==> errors == old(errors) + [EmptyResultMessage] && saves == old(saves)
      ensures Decide(o).Save? && Decide(o).result.Some? ==>
        saves == old(saves) + [Decide(o).result.value] && errors == old(errors)
      ensures Decide(o).Fail? ==> errors == old(errors) + [Decide(o).message] && saves == old(saves)
      ensures navigatedTo == old(navigatedTo) && finished == old(finished) && destroyed == old(destroyed)
    {
      inFlight := inFlight - 1;
      match Decide(o)
      case Repoll(d) =>
        queued := queued + [d];
      case Save(result) =>
        if result.None? {
          ShowError(EmptyResultMessage);
        } else {
          saves := saves + [result.value];
        }
      case Fail(message) =>
        ShowError(message);
    }

    /**
     * The topic read of the save step, started for a result the poller received, has
     * finished. On success the report is built from that result and returned for
     * writing; otherwise an error is shown, every pending poll is removed, and nothing
     * is written.
     */
    method OnTopicLoaded(data: AnalysisResultData, lookup: Fetch<Option<Fields>>, gradeAt: Millis)
      returns (toWrite: Option<PresentationData>)
      requires Valid() && data in saves
      modifies this
      ensures Valid()
      ensures lookup.Loaded? && lookup.result.Some? ==>
        toWrite == Some(PresentationDataOf(lookup.result.value, data.aiAssessment, gradeAt)) && errors == old(errors)
      ensures lookup.Loaded? && lookup.result.None? ==> toWrite.None? && errors == old(errors) + [TopicNotFoundMessage]
      ensures lookup.Failed? ==> toWrite.None? && errors == old(errors) + [TopicLoadFailedPrefix + lookup.message]
      ensures inFlight == old(inFlight) && saves == old(saves) && navigatedTo == old(navigatedTo)
      ensures finished == old(finished) && destroyed == old(destroyed)
      ensures toWrite.Some? ==> queued == old(queued)
      ensures toWrite.None? ==> queued == []
    {
      match lookup
      case Loaded(doc) =>
        if doc.Some? {
          var p := BuildPresentationData(doc.value, data.aiAssessment, gradeAt);
          toWrite := Some(p);
        } else {
          ShowError(TopicNotFoundMessage);
          toWrite := None;
        }
      case Failed(message) =>
        ShowError(TopicLoadFailedPrefix + message);
        toWrite := None;
    }

    /** The report write has finished: go to the result screen with its id, or show the error. */
    method OnReportWritten(outcome: Fetch<string>)
      requires Valid()
      modifies this
      ensures Valid()
      ensures outcome.Loaded? ==> navigatedTo == Some(outcome.result) && finished && errors == old(errors)
      ensures outcome.Failed? ==>
        navigatedTo == old(navigatedTo) && finished == old(finished) && errors == old(errors) + [SaveFailedPrefix + outcome.message]
      ensures inFlight == old(inFlight) && saves == old(saves) && destroyed == old(destroyed)
    {
      match outcome
      case Loaded(id) =>
        navigatedTo := Some(id);
        finished := true;
      case Failed(message) =>
        ShowError(SaveFailedPrefix + message);
    }

    /** `onDestroy`: pending polls are removed; a request already sent is not cancelled. */
    method OnDestroy()
      requires Valid()
      modifies this
      ensures Valid() && queued == [] && destroyed
      ensures inFlight == old(inFlight) && saves == old(saves) && errors == old(errors)
      ensures navigatedTo == old(navigatedTo) && finished == old(finished)
    {
      queued := [];
      destroyed := true;
    }
  }

  /**
   * `onDestroy` removes the queued polls but does not cancel the request in flight,
   * so a failure that arrives afterwards queues a new poll on the destroyed screen.
   */
  method LateResponseStillPolls() returns (pending: seq<int>, destroyed: bool)
    ensures destroyed && pending == [RetryDelay]
  {
    var screen := new ProgressScreen(Some("job"), Some("user"), Some("folder"), Some("topic"));
    screen.Fire();
    screen.OnDestroy();
    screen.OnResponse(TransportFailure);
    pending, destroyed := screen.queued, screen.destroyed;
  }
}
