/**
 * The upload screen (ui/file/UploadActivity.kt): the user picks a video, the screen
 * reads the topic's rubric, sends the video with the rubric to the analysis service,
 * and hands the returned job id to the progress screen.
 */
module Upload {
  import opened Wrappers
  import Int32
  import Text
  import opened Firestore
  import PresentationInfo
  import AnalysisProgress

  /** The parts of a picked file's `Uri` that are used: its scheme and its path. */
  datatype Uri = Uri(scheme: Option<string>, path: Option<string>)

  /** One rubric line as sent to the service. */
  datatype ScoringCriteria = ScoringCriteria(name: string, score: Int32.Int, description: string)

  /** What the analyze request ends in: the transport failed, or a response arrived with an optional job id. */
  datatype UploadOutcome = UploadFailure(message: string) | UploadResponse(successful: bool, jobId: Option<string>)

  /** The extras the progress screen is started with. */
  datatype ProgressArgs = ProgressArgs(jobId: string, userId: Option<string>, contentId: Option<string>, topicId: Option<string>)

  const FallbackFileName := "temp_video.mp4"
  const AnalyzeLabel := "AI 분석 시작하기"
  const LoadingCriteriaLabel := "채점 기준 불러오는 중..."
  const SendingLabel := "서버로 전송 중..."
  const MissingInfoMessage := "오류: 필요한 정보가 없습니다."
  const NoUserMessage := "유저 정보가 없어 기준을 불러올 수 없습니다."
  const NoCriteriaMessage := "채점 기준을 찾을 수 없습니다. (경로 확인 필요)"

  /**
   * The name `getFileNameFromUri` gives: a content `Uri`'s display name (the resolver's
   * answer, `displayName`) when there is one; otherwise what follows the last '/' of the
   * path, or the whole path when it has none; without a path, a fixed fallback name.
   */
  function FileName(uri: Uri, displayName: Option<string>): (name: string)
    ensures uri.scheme == Some("content") && displayName.Some? ==> name == displayName.value
    ensures !(uri.scheme == Some("content") && displayName.Some?) && uri.path.Some? ==>
      var path := uri.path.value;
      && |name| <= |path| && name == path[|path| - |name|..]
      && '/' !in name
      && (name == path || path[|path| - |name| - 1] == '/')
    ensures !(uri.scheme == Some("content") && displayName.Some?) && uri.path.None? ==> name == FallbackFileName
  {
    if uri.scheme == Some("content") && displayName.Some? then displayName.value
    else if uri.path.None? then FallbackFileName
    else
      var path := uri.path.value;
      var cut := Text.LastIndexOf(path, '/');
      Text.LastIndexOfAbsent(path, '/');
      if cut == -1 then path else path[cut + 1..]
  }

  /** `getFileNameFromUri`, step by step: the result variable is overwritten as each source is tried. */
  method FileNameFromUri(uri: Uri, displayName: Option<string>) returns (name: string)
    ensures name == FileName(uri, displayName)
  {
    var result: Option<string> := None;
    if uri.scheme == Some("content") {
      result := displayName;
    }
    if result.None? {
      result := uri.path;
      if result.Some? {
        var cut := Text.LastIndexOf(result.value, '/');
        if cut != -1 {
          result := Some(result.value[cut + 1..]);
        }
      }
    }
    name := result.GetOr(FallbackFileName);
  }

  /** One stored rubric map, with "" / 0 / "" for what is missing or of another type. */
  function CriteriaOf(m: Fields): ScoringCriteria {
    ScoringCriteria(
      AsString(Lookup(m, "standardName")).GetOr(""),
      AsNumberToInt(Lookup(m, "standardScore")).GetOr(0),
      AsString(Lookup(m, "standardDetail")).GetOr(""))
  }

  /** The criteria loop: one criterion per stored rubric map, in order; none without a list. */
  method DecodeCriteria(topic: Fields) returns (criteria: seq<ScoringCriteria>)
    ensures var standards := AsMapList(Lookup(topic, "standards"));
      && (standards.None? ==> criteria == [])
      && (standards.Some? ==>
            && |criteria| == |standards.value|
            && forall k :: 0 <= k < |criteria| ==> criteria[k] == CriteriaOf(standards.value[k]))
  {
    var standardsMap := AsMapList(Lookup(topic, "standards"));
    criteria := [];
    if standardsMap.Some? {
      for i := 0 to |standardsMap.value|
        invariant |criteria| == i
        invariant forall k :: 0 <= k < i ==> criteria[k] == CriteriaOf(standardsMap.value[k])
      {
        criteria := criteria + [CriteriaOf(standardsMap.value[i])];
      }
    }
  }

  /** A stored topic's rubric is sent to the service unchanged: names, points and details, in order. */
  lemma CriteriaRoundTrip(t: PresentationInfo.TopicData)
    ensures var standards := AsMapList(Lookup(PresentationInfo.EncodeTopic(t), "standards"));
      && standards.Some? && |standards.value| == |t.standards|
      && forall k :: 0 <= k < |t.standards| ==>
           CriteriaOf(standards.value[k])
             == ScoringCriteria(t.standards[k].standardName, t.standards[k].standardScore, t.standards[k].standardDetail)
  {
    var maps := seq(|t.standards|, k requires 0 <= k < |t.standards| => PresentationInfo.EncodeStandard(t.standards[k]));
    MapListRoundTrip(maps);
  }

  /** The analyze request the screen sends: the copied file's name and the criteria. */
  datatype UploadRequest = UploadRequest(fileName: string, criteria: seq<ScoringCriteria>)

  /** What pressing the analyze button leads to. */
  datatype AnalyzeStep = Refused(message: string) | Aborted(message: string) | ReadingCriteria

  class UploadScreen {
    const userId: Option<string>
    const contentId: Option<string>
    const topicId: Option<string>

    var selectedFile: Option<Uri>
    var shownFileName: string
    var analyzeEnabled: bool
    var analyzeLabel: string
    var navigatedTo: Option<ProgressArgs>
    /** A rubric read has been started: only then can its callbacks run. */
    ghost var requested: bool

    ghost predicate Valid()
      reads this
    {
      requested ==> selectedFile.Some? && userId.Some? && contentId.Some? && topicId.Some?
    }

    constructor (userId: Option<string>, contentId: Option<string>, topicId: Option<string>)
      ensures Valid()
      ensures this.userId == userId && this.contentId == contentId && this.topicId == topicId
      ensures selectedFile.None? && navigatedTo.None? && analyzeEnabled && !requested
    {
      this.userId := userId;
      this.contentId := contentId;
      this.topicId := topicId;
      selectedFile := None;
      shownFileName := "";
      analyzeEnabled := true;
      analyzeLabel := AnalyzeLabel;
      navigatedTo := None;
      requested := false;
    }

    /** `resetButton`: the analyze button is enabled again with its idle label. */
    method ResetButton()
      modifies this
      ensures analyzeEnabled && analyzeLabel == AnalyzeLabel
      ensures selectedFile == old(selectedFile) && shownFileName == old(shownFileName)
      ensures navigatedTo == old(navigatedTo) && requested == old(requested)
    {
      analyzeEnabled := true;
      analyzeLabel := AnalyzeLabel;
    }

    /** The picker returned: a picked file is remembered, its name shown, and the button reset. */
    method OnFilePicked(uri: Option<Uri>, displayName: Option<string>)
      requires Valid()
      modifies this
      ensures Valid()
      ensures uri.Some? ==> selectedFile == uri && analyzeEnabled && analyzeLabel == AnalyzeLabel
      ensures uri.Some? ==> shownFileName == FileName(uri.value, displayName)
      ensures uri.None? ==>
        && selectedFile == old(selectedFile) && analyzeEnabled == old(analyzeEnabled)
        && analyzeLabel == old(analyzeLabel) && shownFileName == old(shownFileName)
      ensures navigatedTo == old(navigatedTo) && requested == old(requested)
    {
      if uri.Some? {
        selectedFile := uri;
        shownFileName := FileNameFromUri(uri.value, displayName);
        ResetButton();
      }
    }

    /**
     * The analyze button: refused unless a file, a folder id and a topic id are all
     * present; then the button is disabled while the rubric is read, which is aborted
     * (the button reset) when there is no user id.
     */
    method AnalyzeClicked() returns (step: AnalyzeStep)
      requires Valid()
      modifies this
      ensures Valid()
      ensures !(selectedFile.Some? && contentId.Some? && topicId.Some?) ==>
        step == Refused(MissingInfoMessage) && analyzeEnabled == old(analyzeEnabled) && analyzeLabel == old(analyzeLabel)
      ensures selectedFile.Some? && contentId.Some? && topicId.Some? && userId.None? ==>
        step == Aborted(NoUserMessage) && analyzeEnabled && analyzeLabel == AnalyzeLabel
      ensures selectedFile.Some? && contentId.Some? && topicId.Some? && userId.Some? ==>
        step == ReadingCriteria && !analyzeEnabled && analyzeLabel == LoadingCriteriaLabel && requested
      ensures selectedFile == old(selectedFile) && navigatedTo == old(navigatedTo)
    {
      if !(selectedFile.Some? && contentId.Some? && topicId.Some?) {
        return Refused(MissingInfoMessage);
      }
      analyzeEnabled := false;
      analyzeLabel := LoadingCriteriaLabel;
      if userId.None? {
        ResetButton();
        return Aborted(NoUserMessage);
      }
      requested := true;
      step := ReadingCriteria;
    }

    /**
     * The rubric read has finished. An existing topic's criteria are sent with the
     * file, provided the file could be copied (`fileName`); when it could not, the
     * screen stops with the button still disabled. A missing topic or a failed read
     * resets the button.
     */
    method OnCriteriaLoaded(lookup: Fetch<Option<Fields>>, fileName: Option<string>) returns (request: Option<UploadRequest>)
      requires Valid() && requested
      modifies this
      ensures Valid()
      ensures lookup.Loaded? && lookup.result.Some? ==> analyzeLabel == SendingLabel && analyzeEnabled == old(analyzeEnabled)
      ensures lookup.Loaded? && lookup.result.Some? && fileName.Some? ==>
        request.Some? && request.value.fileName == fileName.value
        && (AsMapList(Lookup(lookup.result.value, "standards")).None? ==> request.value.criteria == [])
        && (AsMapList(Lookup(lookup.result.value, "standards")).Some? ==>
              var standards := AsMapList(Lookup(lookup.result.value, "standards")).value;
              && |request.value.criteria| == |standards|
              && forall k :: 0 <= k < |standards| ==> request.value.criteria[k] == CriteriaOf(standards[k]))
      ensures !(lookup.Loaded? && lookup.result.Some? && fileName.Some?) ==> request.None?
      ensures !(lookup.Loaded? && lookup.result.Some?) ==> analyzeEnabled && analyzeLabel == AnalyzeLabel
      ensures selectedFile == old(selectedFile) && navigatedTo == old(navigatedTo) && requested
    {
      if lookup.Loaded? && lookup.result.Some? {
        var criteria := DecodeCriteria(lookup.result.value);
        analyzeLabel := SendingLabel;
        if fileName.None? {
          return None;
        }
        request := Some(UploadRequest(fileName.value, criteria));
      } else {
        ResetButton();
        request := None;
      }
    }

    /**
     * The analyze request has answered: a successful response with a body starts the
     * progress screen with the job id and the three ids; anything else resets the button.
     */
    method OnUploadResponse(outcome: UploadOutcome)
      requires Valid() && requested
      modifies this
      ensures Valid()
      ensures outcome.UploadResponse? && outcome.successful && outcome.jobId.Some? ==>
        navigatedTo == Some(ProgressArgs(outcome.jobId.value, userId, contentId, topicId))
      ensures !(outcome.UploadResponse? && outcome.successful && outcome.jobId.Some?) ==>
        navigatedTo == old(navigatedTo) && analyzeEnabled && analyzeLabel == AnalyzeLabel
      ensures navigatedTo.Some? && navigatedTo != old(navigatedTo) ==>
        AnalysisProgress.AllIdsPresent(Some(navigatedTo.value.jobId), navigatedTo.value.userId,
                                       navigatedTo.value.contentId, navigatedTo.value.topicId)
      ensures selectedFile == old(selectedFile) && requested
    {
      if outcome.UploadResponse? && outcome.successful && outcome.jobId.Some? {
        navigatedTo := Some(ProgressArgs(outcome.jobId.value, userId, contentId, topicId));
      } else {
        ResetButton();
      }
    }
  }
}
