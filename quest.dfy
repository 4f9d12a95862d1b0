/**
 * The festival quest: a fixed five-step scavenger hunt. Steps 1 and 5 are
 * completed by scanning a QR code, steps 2 to 4 by submitting a photo. A
 * per-user progress record holds the current step, the history of completed
 * steps and whether the quest is finished.
 */
module Quest {
  import opened Wrappers

  /** Timestamps are abstract instants; only equality of readings matters here. */
  type Time = int

  /** A step either points at the step that follows it, or at the completion sentinel. */
  datatype NextStep = Next(step: int) | Complete

  /** One entry of the static step catalog. */
  datatype StepInfo = StepInfo(description: string, requiresQr: bool, requiresPhoto: bool, nextStep: NextStep)

  /** The catalog of quest steps, keyed by step number. */
  const Steps: map<int, StepInfo> := map[
    1 := StepInfo("🏮 Найдите маяк на территории фестиваля и отсканируйте QR-код, расположенный у его основания.",
                  true, false, Next(2)),
    2 := StepInfo("📸 Отлично! Теперь сделайте селфи рядом с маяком и загрузите фото.",
                  false, true, Next(3)),
    3 := StepInfo("🎵 Найдите главную сцену и сфотографируйте табличку с названиями выступающих артистов.",
                  false, true, Next(4)),
    4 := StepInfo("🍽️ Посетите фуд-корт и найдите стенд с логотипом Avito. Сфотографируйте его.",
                  false, true, Next(5)),
    5 := StepInfo("💃 Последнее задание! Найдите танцевальную площадку и отсканируйте финальный QR-код.",
                  true, false, Complete)
  ]

  const StartCode := "LIGHTHOUSE_QUEST_START"
  const EndCode := "DANCE_FLOOR_QUEST_END"

  /** The QR code expected at each QR step. */
  const ExpectedCodes: map<int, string> := map[1 := StartCode, 5 := EndCode]

  /** The code shown to a user who has finished the quest. */
  const CompletionCode := "QUEST_COMPLETE_2024"

  /** The number of steps in the catalog. */
  const TotalSteps := 5

  /** Looks a step up in the catalog; the five steps alternate QR, photo, photo, photo, QR. */
  function GetQuestStep(n: int): (r: Option<StepInfo>)
    ensures r.Some? <==> 1 <= n <= TotalSteps
    ensures r.Some? ==> r.value.requiresQr == (n == 1 || n == 5)
    ensures r.Some? ==> r.value.requiresPhoto == (2 <= n <= 4)
    ensures r.Some? ==> r.value.requiresQr != r.value.requiresPhoto
    ensures r.Some? ==> r.value.nextStep == if n == TotalSteps then Complete else Next(n + 1)
  {
    if n in Steps then Some(Steps[n]) else None
  }

  /**
   * True when the scanned payload equals the code expected at `step`. A step
   * without an expected code compares against the empty string, and a missing
   * payload (Python's `None`) equals no string.
   */
  function ValidateQrCode(qr: Option<string>, step: int): (r: bool)
    ensures r <==> || (step == 1 && qr == Some(StartCode))
                   || (step == 5 && qr == Some(EndCode))
                   || (step != 1 && step != 5 && qr == Some(""))
  {
    var expected := if step in ExpectedCodes then ExpectedCodes[step] else "";
    qr == Some(expected)
  }

  /** Photo submissions are accepted unconditionally at the photo steps and nowhere else. */
  function ProcessPhotoSubmission(userId: int, step: int, photoId: Option<string>): (r: bool)
    ensures r <==> 2 <= step <= 4
  {
    step in [2, 3, 4]
  }

  /** One history entry of a completed step. */
  datatype Entry = Entry(step: int, action: string, data: Option<string>, completedAt: Time)

  /** The persisted part of a user's quest record. */
  datatype ProgressState = ProgressState(
    userId: int,
    questStep: int,
    completedSteps: seq<Entry>,
    completed: bool,
    completedAt: Option<Time>)

  /** A new record with the column defaults: step 1, no history, not completed. */
  function Fresh(userId: int): ProgressState
  {
    ProgressState(userId, 1, [], false, None)
  }

  /** The ways an advance can be refused. */
  datatype Rejection = InvalidStep | InvalidQrCode | PhotoValidationFailed | InvalidAction | DatabaseError

  /** The error text of each refusal; none reads as the success message. */
  function Message(e: Rejection): (text: string)
    ensures text != SuccessMessage
    ensures |text| > 0
  {
    match e
    case InvalidStep => "Invalid quest step"
    case InvalidQrCode => "Invalid QR code"
    case PhotoValidationFailed => "Photo validation failed"
    case InvalidAction => "Invalid action for this step"
    case DatabaseError => "Database error"
  }

  const SuccessMessage := "Quest step completed successfully"

  /** The actions the catalog accepts at `step`, stated independently of the catalog. */
  predicate Accepts(step: int, action: string, data: Option<string>)
  {
    || (action == "qr" && step == 1 && data == Some(StartCode))
    || (action == "qr" && step == 5 && data == Some(EndCode))
    || (action == "photo" && 2 <= step <= 4)
  }

  /** The record after an accepted action; the history entry is appended in every case. */
  function Accept(s: ProgressState, info: StepInfo, action: string, data: Option<string>, now: Time): ProgressState
  {
    var history := s.completedSteps + [Entry(s.questStep, action, data, now)];
    match info.nextStep
    case Complete => s.(completedSteps := history, completed := true, completedAt := Some(now))
    case Next(n) => s.(completedSteps := history, questStep := n)
  }

  /**
   * The transition of one quest action before it is committed: the checks of
   * the action against the current step and, if they pass, the new record.
   */
  function Advance(s: ProgressState, action: string, data: Option<string>, now: Time): (r: Result<ProgressState, Rejection>)
    ensures r.Success? <==> Accepts(s.questStep, action, data)
    ensures r.Failure? ==>
      r.error == (if !(1 <= s.questStep <= TotalSteps) then InvalidStep
                  else if action == "qr" && (s.questStep == 1 || s.questStep == 5) then InvalidQrCode
                  else InvalidAction)
    ensures r.Success? ==> r.value.userId == s.userId
    ensures r.Success? ==> r.value.completedSteps == s.completedSteps + [Entry(s.questStep, action, data, now)]
    ensures r.Success? && s.questStep < TotalSteps ==>
      r.value.questStep == s.questStep + 1 && r.value.completed == s.completed && r.value.completedAt == s.completedAt
    ensures r.Success? && s.questStep == TotalSteps ==>
      r.value.questStep == TotalSteps && r.value.completed && r.value.completedAt == Some(now)
  {
    match GetQuestStep(s.questStep)
    case None => Failure(InvalidStep)
    case Some(info) =>
      if action == "qr" && info.requiresQr then
        if !ValidateQrCode(data, s.questStep) then Failure(InvalidQrCode)
        else Success(Accept(s, info, action, data, now))
      else if action == "photo" && info.requiresPhoto then
        if !ProcessPhotoSubmission(s.userId, s.questStep, data) then Failure(PhotoValidationFailed)
        else Success(Accept(s, info, action, data, now))
      else Failure(InvalidAction)
  }

  /** A user's quest record as the database session holds it; fields are updated in place. */
  class QuestProgress {
    const userId: int
    var questStep: int
    var completedSteps: seq<Entry>
    var completed: bool
    var completedAt: Option<Time>

    function State(): ProgressState
      reads this
    {
      ProgressState(userId, questStep, completedSteps, completed, completedAt)
    }

    constructor (userId: int)
      ensures State() == Fresh(userId)
    {
      this.userId := userId;
      questStep := 1;
      completedSteps := [];
      completed := false;
      completedAt := None;
    }
  }

  /**
   * Advances `p` by one action. The fields are updated in place and then
   * committed; `commitOk` is whether the commit succeeds. A failed commit
   * rolls the record back to what it was before the call.
   */
  method AdvanceQuestStep(p: QuestProgress, action: string, data: Option<string>, now: Time, commitOk: bool)
    returns (ok: bool, message: string)
    modifies p
    ensures var r := Advance(old(p.State()), action, data, now);
      && ok == (r.Success? && commitOk)
      && p.State() == (if ok then r.value else old(p.State()))
      && message == (if ok then SuccessMessage
                     else if r.Failure? then Message(r.error)
                     else Message(DatabaseError))
  {
    var currentStep := p.questStep;
    var stepInfo := GetQuestStep(currentStep);
    if stepInfo.None? {
      return false, Message(InvalidStep);
    }
    var info := stepInfo.value;

    if action == "qr" && info.requiresQr {
      if !ValidateQrCode(data, currentStep) {
        return false, Message(InvalidQrCode);
      }
    } else if action == "photo" && info.requiresPhoto {
      if !ProcessPhotoSubmission(p.userId, currentStep, data) {
        return false, Message(PhotoValidationFailed);
      }
    } else {
      return false, Message(InvalidAction);
    }

    // what the database still holds until the commit succeeds
    var saved := p.State();

    p.completedSteps := p.completedSteps + [Entry(currentStep, action, data, now)];
    if info.nextStep.Complete? {
      p.completed := true;
      p.completedAt := Some(now);
      p.questStep := currentStep;
    } else {
      p.questStep := info.nextStep.step;
    }

    if commitOk {
      return true, SuccessMessage;
    }
    p.questStep, p.completedSteps, p.completed, p.completedAt :=
      saved.questStep, saved.completedSteps, saved.completed, saved.completedAt;
    return false, Message(DatabaseError);
  }

  // ---------------------------------------------------------------------------
  // Reachable records

  /** One call of AdvanceQuestStep, with its inputs. */
  datatype Call = Call(action: string, data: Option<string>, now: Time, commitOk: bool)

  /** The record after one call: the advanced record if accepted and committed, else unchanged. */
  function AfterCall(s: ProgressState, c: Call): ProgressState
  {
    var r := Advance(s, c.action, c.data, c.now);
    if r.Success? && c.commitOk then r.value else s
  }

  /** The record after a sequence of calls, applied in order. */
  function Run(s: ProgressState, calls: seq<Call>): ProgressState
    decreases |calls|
  {
    if calls == [] then s else Run(AfterCall(s, calls[0]), calls[1..])
  }

  function Min(a: int, b: int): int { if a <= b then a else b }

  /**
   * The invariant of every record reachable from a fresh one: the step is in
   * range, the i-th history entry is for step min(i+1, 5), an unfinished quest
   * has one entry per step passed, and a finished one sits at the last step.
   */
  ghost predicate Inv(s: ProgressState)
  {
    && 1 <= s.questStep <= TotalSteps
    && (forall i :: 0 <= i < |s.completedSteps| ==> s.completedSteps[i].step == Min(i + 1, TotalSteps))
    && (!s.completed ==> |s.completedSteps| == s.questStep - 1 && s.completedAt.None?)
    && (s.completed ==> s.questStep == TotalSteps && |s.completedSteps| >= TotalSteps && s.completedAt.Some?)
  }

  /** The step numbers of the history never decrease. */
  ghost predicate NonDecreasing(h: seq<Entry>)
  {
    forall i, j :: 0 <= i <= j < |h| ==> h[i].step <= h[j].step
  }

  lemma InvFresh(userId: int)
    ensures Inv(Fresh(userId))
  {
  }

  lemma AfterCallPreservesInv(s: ProgressState, c: Call)
    requires Inv(s)
    ensures Inv(AfterCall(s, c))
    ensures s.completed ==> AfterCall(s, c).completed
    ensures |AfterCall(s, c).completedSteps| >= |s.completedSteps|
  {
    var r := Advance(s, c.action, c.data, c.now);
    if r.Success? && c.commitOk {
      var t := r.value;
      forall i | 0 <= i < |t.completedSteps|
        ensures t.completedSteps[i].step == Min(i + 1, TotalSteps)
      {
        if i < |s.completedSteps| {
          assert t.completedSteps[i] == s.completedSteps[i];
        } else {
          assert t.completedSteps[i].step == s.questStep;
        }
      }
    }
  }

  /** Every reachable record keeps the invariant, and a finished quest stays finished. */
  lemma {:induction false} RunPreservesInv(s: ProgressState, calls: seq<Call>)
    requires Inv(s)
    ensures Inv(Run(s, calls))
    ensures s.completed ==> Run(s, calls).completed
    ensures |Run(s, calls).completedSteps| >= |s.completedSteps|
    decreases |calls|
  {
    if calls != [] {
      AfterCallPreservesInv(s, calls[0]);
      RunPreservesInv(AfterCall(s, calls[0]), calls[1..]);
    }
  }

  lemma InvNonDecreasing(s: ProgressState)
    requires Inv(s)
    ensures NonDecreasing(s.completedSteps)
  {
    forall i, j | 0 <= i <= j < |s.completedSteps|
      ensures s.completedSteps[i].step <= s.completedSteps[j].step
    {
      assert s.completedSteps[i].step == Min(i + 1, TotalSteps);
      assert s.completedSteps[j].step == Min(j + 1, TotalSteps);
    }
  }

  /**
   * From a fresh record, any sequence of calls keeps the step in 1..5; while the
   * quest is unfinished the history has one entry per step passed; the history's
   * step numbers never decrease; and a finished quest has its completion time.
   */
  lemma ReachableRecord(userId: int, calls: seq<Call>)
    ensures var t := Run(Fresh(userId), calls);
      && 1 <= t.questStep <= TotalSteps
      && (!t.completed ==> |t.completedSteps| == t.questStep - 1)
      && (t.completed ==> t.questStep == TotalSteps && t.completedAt.Some?)
      && NonDecreasing(t.completedSteps)
  {
    InvFresh(userId);
    RunPreservesInv(Fresh(userId), calls);
    InvNonDecreasing(Run(Fresh(userId), calls));
  }

  /** The machine does not consult `completed`: a finished record with the final code appends again. */
  lemma CompletedRecordStillAdvances(s: ProgressState, now: Time)
    requires Inv(s) && s.completed
    ensures var r := Advance(s, "qr", Some(EndCode), now);
      r.Success? && |r.value.completedSteps| == |s.completedSteps| + 1 && r.value.questStep == TotalSteps
  {
  }

  /** The whole quest in five calls, each accepted, ends completed with five entries. */
  lemma FullQuest(userId: int, t: Time, photo: Option<string>)
    ensures var calls := [
        Call("qr", Some(StartCode), t, true),
        Call("photo", photo, t, true),
        Call("photo", photo, t, true),
        Call("photo", photo, t, true),
        Call("qr", Some(EndCode), t, true)];
      var final := Run(Fresh(userId), calls);
      final.completed && final.questStep == 5 && |final.completedSteps| == 5 && final.completedAt == Some(t)
  {
    var calls := [
        Call("qr", Some(StartCode), t, true),
        Call("photo", photo, t, true),
        Call("photo", photo, t, true),
        Call("photo", photo, t, true),
        Call("qr", Some(EndCode), t, true)];
    var s1 := AfterCall(Fresh(userId), calls[0]);
    var s2 := AfterCall(s1, calls[1]);
    var s3 := AfterCall(s2, calls[2]);
    var s4 := AfterCall(s3, calls[3]);
    var s5 := AfterCall(s4, calls[4]);
    assert Run(Fresh(userId), calls) == Run(s1, calls[1..]);
    assert Run(s1, calls[1..]) == Run(s2, calls[2..]);
    assert Run(s2, calls[2..]) == Run(s3, calls[3..]);
    assert Run(s3, calls[3..]) == Run(s4, calls[4..]);
    assert Run(s4, calls[4..]) == Run(s5, calls[5..]);
    assert calls[5..] == [];
  }

  // ---------------------------------------------------------------------------
  // Read-only views

  datatype Summary = Summary(
    currentStep: int,
    totalSteps: int,
    completedSteps: nat,
    isCompleted: bool,
    completionCode: Option<string>)

  lemma CatalogSize()
    ensures |Steps| == TotalSteps
  {
    assert Steps.Keys == {1, 2, 3, 4, 5};
  }

  /** The summary of a possibly absent record; an absent record reads as a fresh one at step 1. */
  function GetQuestSummary(p: Option<ProgressState>): (r: Summary)
    ensures r.totalSteps == TotalSteps
    ensures p.None? ==> r == Summary(1, TotalSteps, 0, false, None)
    ensures p.Some? ==> r.currentStep == p.value.questStep
    ensures p.Some? ==> r.completedSteps == |p.value.completedSteps|
    ensures p.Some? ==> r.isCompleted == p.value.completed
    ensures p.Some? ==> (r.completionCode == Some(CompletionCode) <==> p.value.completed)
    ensures r.completionCode.Some? ==> r.completionCode == Some(CompletionCode)
  {
    CatalogSize();
    match p
    case None => Summary(1, |Steps|, 0, false, None)
    case Some(q) =>
      Summary(q.questStep, |Steps|, |q.completedSteps|, q.completed,
              if q.completed then Some(CompletionCode) else None)
  }

  /** A missing record and a freshly created one summarise alike. */
  lemma SummaryOfFresh(userId: int)
    ensures GetQuestSummary(Some(Fresh(userId))) == GetQuestSummary(None)
  {
  }

  /** On a reachable record the summary's count of completed steps tracks the current step. */
  lemma SummaryOfReachable(userId: int, calls: seq<Call>)
    ensures var r := GetQuestSummary(Some(Run(Fresh(userId), calls)));
      && 1 <= r.currentStep <= r.totalSteps
      && (!r.isCompleted ==> r.completedSteps == r.currentStep - 1 && r.completionCode.None?)
      && (r.isCompleted ==> r.completedSteps >= r.totalSteps && r.completionCode == Some(CompletionCode))
  {
    InvFresh(userId);
    RunPreservesInv(Fresh(userId), calls);
  }

  /** The user columns the leaderboard reads. */
  datatype UserInfo = UserInfo(username: Option<string>, firstName: Option<string>)

  /** One completed quest joined with its user, as the ordered query yields it. */
  datatype CompletedQuest = CompletedQuest(completedAt: Option<Time>, user: UserInfo)

  datatype LeaderboardRow = LeaderboardRow(rank: nat, username: Option<string>, completedAt: Option<Time>)

  /** Python's `username or first_name`: the username unless it is missing or empty. */
  function DisplayName(u: UserInfo): (n: Option<string>)
    ensures u.username.Some? && u.username.value != "" ==> n == u.username
    ensures u.username.None? || u.username == Some("") ==> n == u.firstName
  {
    if u.username.Some? && u.username.value != "" then u.username else u.firstName
  }

  /** Numbers the already ordered completed quests 1, 2, ... in the given order. */
  method GetLeaderboard(quests: seq<CompletedQuest>) returns (board: seq<LeaderboardRow>)
    ensures |board| == |quests|
    ensures forall i :: 0 <= i < |board| ==> board[i].rank == i + 1
    ensures forall i :: 0 <= i < |board| ==>
      board[i].username == DisplayName(quests[i].user) && board[i].completedAt == quests[i].completedAt
  {
    board := [];
    for k := 0 to |quests|
      invariant |board| == k
      invariant forall i :: 0 <= i < k ==> board[i].rank == i + 1
      invariant forall i :: 0 <= i < k ==>
        board[i].username == DisplayName(quests[i].user) && board[i].completedAt == quests[i].completedAt
    {
      var q := quests[k];
      board := board + [LeaderboardRow(|board| + 1, DisplayName(q.user), q.completedAt)];
    }
  }
}
