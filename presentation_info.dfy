/**
 * The topic-entry screen (ui/mainscrean/PresentationInfoActivity.kt): the user picks a
 * folder, types a team and a topic, and fills in one to five rubric cards (name,
 * detail, points). Saving validates the form and writes a topic document whose
 * `standards` field later drives the analysis and the score report.
 */
module PresentationInfo {
  import opened Wrappers
  import Int32
  import Text
  import opened Firestore

  const MaxCards: nat := 5
  const RequiredTotal: int := 100

  /** The raw text of one rubric card's three input fields. */
  datatype Card = Card(name: string, detail: string, score: string)

  /** One stored rubric line. */
  datatype Standard = Standard(standardName: string, standardDetail: string, standardScore: Int32.Int)

  /** The topic document written on a successful save. */
  datatype TopicData = TopicData(
    contentId: string,
    topicName: string,
    teamInfo: string,
    standards: seq<Standard>,
    createdAt: Millis)

  /** The stored form of one rubric line. */
  function EncodeStandard(s: Standard): Fields {
    map[
      "standardName" := VString(s.standardName),
      "standardDetail" := VString(s.standardDetail),
      "standardScore" := VLong(s.standardScore)]
  }

  /** The stored form of a topic: the document written under the chosen folder. */
  function EncodeTopic(t: TopicData): Fields {
    map[
      "contentId" := VString(t.contentId),
      "topicName" := VString(t.topicName),
      "teamInfo" := VString(t.teamInfo),
      "standards" := MapList(seq(|t.standards|, k requires 0 <= k < |t.standards| => EncodeStandard(t.standards[k]))),
      "createdAt" := VTimestamp(t.createdAt)]
  }

  /** How a save attempt ends: one of the rejections (in the order they are checked), or the document to write. */
  datatype SaveOutcome =
    | NoFolder
    | MissingTeamOrTopic
    | IncompleteStandard
    | BadTotal(total: int)
    | Submit(data: TopicData)

  const NoFolderMessage := "폴더(과목)를 먼저 선택해주세요."
  const MissingTeamOrTopicMessage := "팀 정보와 발표 주제를 입력해주세요."
  const IncompleteStandardMessage := "모든 평가 항목의 이름과 배점을 입력해주세요."
  const TooManyCardsMessage := "항목은 최대 5개까지 추가할 수 있습니다."

  predicate AllFilled(cards: seq<Card>) {
    forall k :: 0 <= k < |cards| ==> Filled(cards[k])
  }

  /** A card whose trimmed name and trimmed points are both non-empty. */
  predicate Filled(c: Card) {
    Text.Trim(c.name) != [] && Text.Trim(c.score) != []
  }

  /** The rubric line a filled card becomes: trimmed texts, and points that do not parse count as 0. */
  function StandardOf(c: Card): Standard {
    Standard(Text.Trim(c.name), Text.Trim(c.detail), Text.ToIntOrNull(Text.Trim(c.score)).GetOr(0))
  }

  function StandardsOf(cards: seq<Card>): seq<Standard> {
    seq(|cards|, k requires 0 <= k < |cards| => StandardOf(cards[k]))
  }

  function Points(standards: seq<Standard>): seq<Int32.Int> {
    seq(|standards|, k requires 0 <= k < |standards| => standards[k].standardScore)
  }

  /**
   * The save rules, as the code has them: the running total is a Kotlin `Int`, so a
   * total that overflows wraps around before it is compared with 100.
   */
  function OutcomeAsWritten(folder: Option<string>, team: string, topic: string, cards: seq<Card>, now: Millis): SaveOutcome {
    if folder.None? then NoFolder
    else if Text.Trim(team) == [] || Text.Trim(topic) == [] then MissingTeamOrTopic
    else if !AllFilled(cards) then IncompleteStandard
    else
      var standards := StandardsOf(cards);
      var total := Int32.WrappingSum(Points(standards));
      if total != RequiredTotal then BadTotal(total)
      else Submit(TopicData(folder.value, Text.Trim(topic), Text.Trim(team), standards, now))
  }

  /** The save rules with the points added up exactly, as the 100-point rule intends. */
  function Outcome(folder: Option<string>, team: string, topic: string, cards: seq<Card>, now: Millis): SaveOutcome {
    if folder.None? then NoFolder
    else if Text.Trim(team) == [] || Text.Trim(topic) == [] then MissingTeamOrTopic
    else if !AllFilled(cards) then IncompleteStandard
    else
      var standards := StandardsOf(cards);
      var total := Int32.Sum(Points(standards));
      if total != RequiredTotal then BadTotal(total)
      else Submit(TopicData(folder.value, Text.Trim(topic), Text.Trim(team), standards, now))
  }

  /**
   * A topic is written exactly when a folder is chosen, team and topic are not blank,
   * every card has a name and points, and the points add up to 100. The written
   * document carries the trimmed texts and one rubric line per card, in card order.
   */
  lemma SubmitIff(folder: Option<string>, team: string, topic: string, cards: seq<Card>, now: Millis)
    ensures Outcome(folder, team, topic, cards, now).Submit? <==>
      && folder.Some?
      && !Text.AllWhitespace(team) && !Text.AllWhitespace(topic)
      && AllFilled(cards)
      && Int32.Sum(Points(StandardsOf(cards))) == RequiredTotal
    ensures Outcome(folder, team, topic, cards, now).Submit? ==>
      var d := Outcome(folder, team, topic, cards, now).data;
      && d.contentId == folder.value && d.teamInfo == Text.Trim(team) && d.topicName == Text.Trim(topic)
      && d.createdAt == now
      && |d.standards| == |cards|
      && forall k :: 0 <= k < |cards| ==>
           d.standards[k].standardName == Text.Trim(cards[k].name) && d.standards[k].standardName != []
           && d.standards[k].standardDetail == Text.Trim(cards[k].detail)
           && d.standards[k].standardScore == Text.ToIntOrNull(Text.Trim(cards[k].score)).GetOr(0)
  {
    Text.TrimEmptyIff(team);
    Text.TrimEmptyIff(topic);
  }

  /**
   * The same, for the rule as the code has it: the only difference is that the points
   * must add up to 100 in a wrapping `Int`.
   */
  lemma SubmitAsWrittenIff(folder: Option<string>, team: string, topic: string, cards: seq<Card>, now: Millis)
    ensures OutcomeAsWritten(folder, team, topic, cards, now).Submit? <==>
      && folder.Some?
      && !Text.AllWhitespace(team) && !Text.AllWhitespace(topic)
      && AllFilled(cards)
      && Int32.Wrap(Int32.Sum(Points(StandardsOf(cards)))) == RequiredTotal
    ensures OutcomeAsWritten(folder, team, topic, cards, now).Submit? ==>
      var d := OutcomeAsWritten(folder, team, topic, cards, now).data;
      && d.contentId == folder.value && d.teamInfo == Text.Trim(team) && d.topicName == Text.Trim(topic)
      && d.createdAt == now
      && |d.standards| == |cards|
      && forall k :: 0 <= k < |cards| ==>
           d.standards[k].standardName == Text.Trim(cards[k].name) && d.standards[k].standardName != []
           && d.standards[k].standardDetail == Text.Trim(cards[k].detail)
           && d.standards[k].standardScore == Text.ToIntOrNull(Text.Trim(cards[k].score)).GetOr(0)
  {
    Text.TrimEmptyIff(team);
    Text.TrimEmptyIff(topic);
    Int32.WrappingSumIsWrappedSum(Points(StandardsOf(cards)));
  }

  /** The checks run in order: a missing folder is reported before anything else is looked at. */
  lemma FolderCheckedFirst(team: string, topic: string, cards: seq<Card>, now: Millis)
    ensures Outcome(None, team, topic, cards, now) == NoFolder
    ensures OutcomeAsWritten(None, team, topic, cards, now) == NoFolder
  {
  }

  /** Whenever the true total fits in an `Int`, the code's rule and the intended rule agree. */
  lemma AsWrittenAgreesWithoutOverflow(folder: Option<string>, team: string, topic: string, cards: seq<Card>, now: Millis)
    requires Int32.Min <= Int32.Sum(Points(StandardsOf(cards))) <= Int32.Max
    ensures OutcomeAsWritten(folder, team, topic, cards, now) == Outcome(folder, team, topic, cards, now)
  {
    Int32.WrappingSumExact(Points(StandardsOf(cards)));
  }

  lemma ParsesIntMax()
    ensures Text.ToIntOrNull("2147483647") == Some(Int32.Max)
  {
    IntMaxDigits();
    Text.ToIntOrNullOfDigits("2147483647");
  }

  /** The ten digits of `Int.MAX_VALUE` read back as that value. */
  lemma IntMaxDigits()
    ensures Text.AllDigits("2147483647") && Text.DigitsValue("2147483647") == Int32.Max
  {
    LeadingDigits();
    assert Text.AllDigits("214748") && Text.DigitsValue("214748") == 214748 by {
      Text.DigitsValueSnoc("21474", '8');
      assert "21474" + ['8'] == "214748";
    }
    assert Text.AllDigits("2147483") && Text.DigitsValue("2147483") == 2147483 by {
      Text.DigitsValueSnoc("214748", '3');
      assert "214748" + ['3'] == "2147483";
    }
    assert Text.AllDigits("21474836") && Text.DigitsValue("21474836") == 21474836 by {
      Text.DigitsValueSnoc("2147483", '6');
      assert "2147483" + ['6'] == "21474836";
    }
    assert Text.AllDigits("214748364") && Text.DigitsValue("214748364") == 214748364 by {
      Text.DigitsValueSnoc("21474836", '4');
      assert "21474836" + ['4'] == "214748364";
    }
    assert Text.AllDigits("2147483647") && Text.DigitsValue("2147483647") == 2147483647 by {
      Text.DigitsValueSnoc("214748364", '7');
      assert "214748364" + ['7'] == "2147483647";
    }
  }

  lemma LeadingDigits()
    ensures Text.AllDigits("21474") && Text.DigitsValue("21474") == 21474
  {
    FirstDigits();
    assert Text.AllDigits("2147") && Text.DigitsValue("2147") == 2147 by {
      Text.DigitsValueSnoc("214", '7');
      assert "214" + ['7'] == "2147";
    }
    assert Text.AllDigits("21474") && Text.DigitsValue("21474") == 21474 by {
      Text.DigitsValueSnoc("2147", '4');
      assert "2147" + ['4'] == "21474";
    }
  }

  lemma FirstDigits()
    ensures Text.AllDigits("214") && Text.DigitsValue("214") == 214
  {
    assert Text.AllDigits("2") && Text.DigitsValue("2") == 2 by {
      Text.DigitsValueSnoc("", '2');
      assert "" + ['2'] == "2";
    }
    assert Text.AllDigits("21") && Text.DigitsValue("21") == 21 by {
      Text.DigitsValueSnoc("2", '1');
      assert "2" + ['1'] == "21";
    }
    assert Text.AllDigits("214") && Text.DigitsValue("214") == 214 by {
      Text.DigitsValueSnoc("21", '4');
      assert "21" + ['4'] == "214";
    }
  }

  lemma Parses102()
    ensures Text.ToIntOrNull("102") == Some(102)
  {
    assert Text.AllDigits("1") && Text.DigitsValue("1") == 1 by {
      Text.DigitsValueSnoc("", '1');
      assert "" + ['1'] == "1";
    }
    assert Text.AllDigits("10") && Text.DigitsValue("10") == 10 by {
      Text.DigitsValueSnoc("1", '0');
      assert "1" + ['0'] == "10";
    }
    assert Text.AllDigits("102") && Text.DigitsValue("102") == 102 by {
      Text.DigitsValueSnoc("10", '2');
      assert "10" + ['2'] == "102";
    }
    Text.ToIntOrNullOfDigits("102");
  }

  /** Any filled cards worth 2147483647, 2147483647 and 102 points pass the code's check but not the intended one. */
  lemma OverflowRule(folder: string, team: string, topic: string, cards: seq<Card>, now: Millis)
    requires Text.Trim(team) != [] && Text.Trim(topic) != [] && AllFilled(cards)
    requires Points(StandardsOf(cards)) == [Int32.Max, Int32.Max, 102]
    ensures OutcomeAsWritten(Some(folder), team, topic, cards, now).Submit?
    ensures Outcome(Some(folder), team, topic, cards, now) == BadTotal(4294967396)
  {
    OverflowingPoints();
  }

  /** 2147483647 + 2147483647 + 102 is 4294967396, which a Kotlin `Int` holds as 100. */
  lemma OverflowingPoints()
    ensures Int32.WrappingSum([Int32.Max, Int32.Max, 102]) == 100
    ensures Int32.Sum([Int32.Max, Int32.Max, 102]) == 4294967396
  {
    var points: seq<Int32.Int> := [Int32.Max, Int32.Max, 102];
    assert points[..2] == [Int32.Max, Int32.Max] && points[..2][..1] == [Int32.Max] && points[..2][..1][..0] == [];
    assert Int32.WrappingSum(points[..2][..1]) == Int32.Max;
    assert Int32.Wrap(Int32.Max + Int32.Max) == -2;
    assert Int32.WrappingSum(points[..2]) == -2;
    var total: seq<int> := [Int32.Max, Int32.Max, 102];
    assert total[..2] == [Int32.Max, Int32.Max] && total[..2][..1] == [Int32.Max] && total[..2][..1][..0] == [];
    assert Int32.Sum(total[..2][..1][..0]) == 0;
    assert Int32.Sum(total[..2][..1]) == Int32.Max;
    assert Int32.Sum(total[..2]) == 4294967294;
  }

  /**
   * Three cards worth 2147483647, 2147483647 and 102 points pass the code's 100-point
   * check (the `Int` total wraps around to 100) although they add up to 4294967396.
   */
  lemma OverflowPassesAsWritten(folder: string, now: Millis)
    ensures var cards := [Card("A", "", "2147483647"), Card("B", "", "2147483647"), Card("C", "", "102")];
      && OutcomeAsWritten(Some(folder), "team", "topic", cards, now).Submit?
      && Outcome(Some(folder), "team", "topic", cards, now) == BadTotal(4294967396)
  {
    var cards := [Card("A", "", "2147483647"), Card("B", "", "2147483647"), Card("C", "", "102")];
    ParsesIntMax();
    Parses102();
    FilledCard("A", "2147483647", Int32.Max);
    FilledCard("B", "2147483647", Int32.Max);
    FilledCard("C", "102", 102);
    Text.TrimKeeps("team");
    Text.TrimKeeps("topic");
    ThreeCards(cards[0], cards[1], cards[2], Int32.Max, Int32.Max, 102);
    assert cards == [cards[0], cards[1], cards[2]];
    OverflowRule(folder, "team", "topic", cards, now);
  }

  /** Three filled cards worth `v0`, `v1` and `v2` points give the points `v0`, `v1`, `v2`. */
  lemma ThreeCards(c0: Card, c1: Card, c2: Card, v0: Int32.Int, v1: Int32.Int, v2: Int32.Int)
    requires Filled(c0) && Filled(c1) && Filled(c2)
    requires StandardOf(c0).standardScore == v0 && StandardOf(c1).standardScore == v1
    requires StandardOf(c2).standardScore == v2
    ensures AllFilled([c0, c1, c2]) && Points(StandardsOf([c0, c1, c2])) == [v0, v1, v2]
  {
    ThreeFilled(c0, c1, c2);
    ThreeStandards(c0, c1, c2);
  }

  lemma ThreeFilled(c0: Card, c1: Card, c2: Card)
    requires Filled(c0) && Filled(c1) && Filled(c2)
    ensures AllFilled([c0, c1, c2])
  {
    var cards := [c0, c1, c2];
    assert forall k | 0 <= k < 3 :: cards[k] == c0 || cards[k] == c1 || cards[k] == c2;
  }

  lemma ThreeStandards(c0: Card, c1: Card, c2: Card)
    ensures Points(StandardsOf([c0, c1, c2]))
      == [StandardOf(c0).standardScore, StandardOf(c1).standardScore, StandardOf(c2).standardScore]
  {
    var standards := StandardsOf([c0, c1, c2]);
    assert standards == [StandardOf(c0), StandardOf(c1), StandardOf(c2)];
  }

  /** A card with a one-letter name and points already trimmed is filled and worth those points. */
  lemma FilledCard(name: string, score: string, v: Int32.Int)
    requires |name| == 1 && 'A' <= name[0] <= 'Z'
    requires score != [] && Text.IsDigit(score[0]) && Text.IsDigit(score[|score| - 1])
    requires Text.ToIntOrNull(score) == Some(v)
    ensures Filled(Card(name, "", score)) && StandardOf(Card(name, "", score)).standardScore == v
  {
    Text.TrimKeeps(name);
    Text.TrimKeeps(score);
    Text.TrimKeeps("");
  }


  /** Points that do not parse as an `Int` count as 0 and do not reject the card. */
  lemma UnparsablePointsCountZero(name: string, detail: string, score: string)
    requires Text.Trim(score) != [] && !Text.IsDigit(Text.Trim(score)[0])
    requires Text.Trim(score)[0] != '-' && Text.Trim(score)[0] != '+'
    ensures StandardOf(Card(name, detail, score)).standardScore == 0
  {
    Text.ToIntOrNullRejects(Text.Trim(score));
  }

  /**
   * The card loop of the save: reads the cards in order and stops at the first one
   * without a name or points; otherwise returns their rubric lines and the point total,
   * added up in a Kotlin `Int` that wraps around on overflow.
   */
  method ReadCards(cards: seq<Card>) returns (standards: Option<seq<Standard>>, total: Int32.Int)
    ensures standards.None? <==> !AllFilled(cards)
    ensures standards.Some? ==> standards.value == StandardsOf(cards) && total == Int32.WrappingSum(Points(standards.value))
  {
    var lines: seq<Standard> := [];
    total := 0;
    for i := 0 to |cards|
      invariant AllFilled(cards[..i]) && lines == StandardsOf(cards[..i])
      invariant total == Int32.WrappingSum(Points(lines))
    {
      if !Filled(cards[i]) {
        return None, total;
      }
      var line := StandardOf(cards[i]);
      StandardsSnoc(cards, i);
      PointsSnoc(lines, line);
      Int32.WrappingSumAppend(Points(lines), line.standardScore);
      total := Int32.Add(total, line.standardScore);
      lines := lines + [line];
    }
    assert cards[..|cards|] == cards;
    standards := Some(lines);
  }

  lemma StandardsSnoc(cards: seq<Card>, i: nat)
    requires i < |cards|
    ensures StandardsOf(cards[..i + 1]) == StandardsOf(cards[..i]) + [StandardOf(cards[i])]
    ensures AllFilled(cards[..i + 1]) <==> AllFilled(cards[..i]) && Filled(cards[i])
  {
    var prefix := cards[..i + 1];
    assert prefix[..i] == cards[..i] && prefix[i] == cards[i];
    assert StandardsOf(prefix) == StandardsOf(prefix[..i]) + [StandardOf(prefix[i])];
    if AllFilled(prefix) {
      assert forall k | 0 <= k < i :: cards[..i][k] == prefix[k];
    }
  }

  lemma PointsSnoc(standards: seq<Standard>, line: Standard)
    ensures Points(standards + [line]) == Points(standards) + [line.standardScore]
  {
  }

  /** The screen's state: the chosen folder, the two text fields, the cards, and the start button. */
  class TopicForm {
    var selectedFolderId: Option<string>
    var folderPath: string
    var teamInfo: string
    var topicName: string
    var cards: seq<Card>
    var itemCounter: int
    var startEnabled: bool
    /** The (contentId, topicId) the screen went on to the upload screen with, once the topic is stored. */
    var navigatedTo: Option<(string, string)>

    /**
     * `itemCounter` always equals the number of cards, and there are at most five.
     * The start button is disabled only while a topic is being written, which needs a
     * chosen folder.
     */
    ghost predicate Valid()
      reads this
    {
      && itemCounter == |cards| <= MaxCards
      && (!startEnabled ==> selectedFolderId.Some?)
    }

    /** `onCreate`: one empty card, no folder, the start button enabled. */
    constructor ()
      ensures Valid()
      ensures cards == [Card("", "", "")] && itemCounter == 1
      ensures selectedFolderId.None? && folderPath == "" && teamInfo == "" && topicName == ""
      ensures startEnabled && navigatedTo.None?
    {
      selectedFolderId := None;
      folderPath := "";
      teamInfo := "";
      topicName := "";
      cards := [Card("", "", "")];
      itemCounter := 1;
      startEnabled := true;
      navigatedTo := None;
    }

    /** The add button: a new empty card while there are fewer than five, otherwise a message. */
    method AddItemClicked() returns (message: Option<string>)
      requires Valid()
      modifies this
      ensures Valid()
      ensures old(|cards|) < MaxCards ==> cards == old(cards) + [Card("", "", "")] && message.None?
      ensures old(|cards|) >= MaxCards ==> cards == old(cards) && message == Some(TooManyCardsMessage)
      ensures selectedFolderId == old(selectedFolderId) && teamInfo == old(teamInfo) && topicName == old(topicName)
      ensures folderPath == old(folderPath) && startEnabled == old(startEnabled) && navigatedTo == old(navigatedTo)
    {
      if |cards| < MaxCards {
        itemCounter := itemCounter + 1;
        cards := cards + [Card("", "", "")];
        message := None;
      } else {
        message := Some(TooManyCardsMessage);
      }
    }

    /** A card's delete button: the card goes, the others keep their order. */
    method DeleteCard(i: nat)
      requires Valid() && i < |cards|
      modifies this
      ensures Valid()
      ensures cards == old(cards)[..i] + old(cards)[i + 1..]
      ensures selectedFolderId == old(selectedFolderId) && teamInfo == old(teamInfo) && topicName == old(topicName)
      ensures folderPath == old(folderPath) && startEnabled == old(startEnabled) && navigatedTo == old(navigatedTo)
    {
      cards := cards[..i] + cards[i + 1..];
      itemCounter := itemCounter - 1;
    }

    /** The user types into card `i`. */
    method EditCard(i: nat, c: Card)
      requires Valid() && i < |cards|
      modifies this
      ensures Valid()
      ensures cards == old(cards)[i := c]
      ensures selectedFolderId == old(selectedFolderId) && teamInfo == old(teamInfo) && topicName == old(topicName)
      ensures folderPath == old(folderPath) && startEnabled == old(startEnabled) && navigatedTo == old(navigatedTo)
    {
      cards := cards[i := c];
    }

    /** The folder sheet reports a choice. */
    method OnFolderSelected(folderId: string, folderName: string)
      requires Valid()
      modifies this
      ensures Valid()
      ensures selectedFolderId == Some(folderId) && folderPath == folderName
      ensures cards == old(cards) && teamInfo == old(teamInfo) && topicName == old(topicName)
      ensures startEnabled == old(startEnabled) && navigatedTo == old(navigatedTo)
    {
      selectedFolderId := Some(folderId);
      folderPath := folderName;
    }

    /**
     * The start button: validates the form card by card and, when it passes, disables
     * the button and returns the topic document to write.
     */
    method SaveTopic(now: Millis) returns (outcome: SaveOutcome)
      requires Valid()
      modifies this
      ensures Valid()
      ensures outcome == OutcomeAsWritten(selectedFolderId, teamInfo, topicName, cards, now)
      ensures startEnabled == (old(startEnabled) && !outcome.Submit?)
      ensures selectedFolderId == old(selectedFolderId) && teamInfo == old(teamInfo) && topicName == old(topicName)
      ensures cards == old(cards) && folderPath == old(folderPath) && navigatedTo == old(navigatedTo)
    {
      if selectedFolderId.None? {
        return NoFolder;
      }
      var team := Text.Trim(teamInfo);
      var topic := Text.Trim(topicName);
      if team == [] || topic == [] {
        return MissingTeamOrTopic;
      }
      var standards, total := ReadCards(cards);
      if standards.None? {
        return IncompleteStandard;
      }
      if total != RequiredTotal {
        return BadTotal(total);
      }
      startEnabled := false;
      outcome := Submit(TopicData(selectedFolderId.value, topic, team, standards.value, now));
    }

    /**
     * The topic write has finished (it runs while the start button is disabled): on
     * success go to the upload screen with the chosen folder's id and the new topic's
     * id, otherwise re-enable the button.
     */
    method OnTopicWritten(result: Fetch<string>)
      requires Valid() && !startEnabled
      modifies this
      ensures Valid()
      ensures result.Loaded? ==> startEnabled == old(startEnabled) && navigatedTo == Some((selectedFolderId.value, result.result))
      ensures result.Failed? ==> navigatedTo == old(navigatedTo) && startEnabled
      ensures selectedFolderId == old(selectedFolderId) && teamInfo == old(teamInfo) && topicName == old(topicName)
      ensures cards == old(cards) && folderPath == old(folderPath)
    {
      if result.Loaded? {
        navigatedTo := Some((selectedFolderId.value, result.result));
      } else {
        startEnabled := true;
      }
    }
  }

  /**
   * A save that passes, followed by a successful write, opens the upload screen with
   * the `contentId` of the document that was written and the new topic's id.
   */
  method SaveThenStored(form: TopicForm, now: Millis, topicId: string) returns (outcome: SaveOutcome)
    requires form.Valid()
    modifies form
    ensures form.Valid()
    ensures outcome == OutcomeAsWritten(old(form.selectedFolderId), old(form.teamInfo), old(form.topicName), old(form.cards), now)
    ensures outcome.Submit? ==> form.navigatedTo == Some((outcome.data.contentId, topicId))
    ensures !outcome.Submit? ==> form.navigatedTo == old(form.navigatedTo)
  {
    outcome := form.SaveTopic(now);
    if outcome.Submit? {
      form.OnTopicWritten(Loaded(topicId));
    }
  }
}
