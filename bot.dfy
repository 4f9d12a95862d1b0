/**
 * The Telegram front end of the festival bot: the callback strings its inline
 * keyboards carry, the dispatch on those strings, slot registration, the
 * awaiting-photo flag of the sticker flow and the quest screen.
 */
module Bot {
  import opened Wrappers
  import Quest
  import Sticker

  // ---------------------------------------------------------------------------
  // Constants

  const TimeSlots: seq<string> := ["12:00", "14:00", "16:00", "18:00", "20:00"]
  const Days: seq<string> := ["day1", "day2", "day3"]
  const Activities: seq<string> := ["dance", "yoga"]

  const Separator := '_'
  const RegisterPrefix := "register_"
  const BackText := "🔙 Назад в меню"
  const BackCallback := "back_to_menu"
  const AwaitingPhoto := "awaiting_photo"
  const QuestFinishedText := "Квест завершен"

  // ---------------------------------------------------------------------------
  // Splitting and joining on a separator

  /** Python's `s.split(sep)`: an empty string splits into one empty part. */
  function Split(s: string, sep: char): (parts: seq<string>)
    ensures |parts| >= 1
    ensures forall i :: 0 <= i < |parts| ==> sep !in parts[i]
    decreases |s|
  {
    if |s| == 0 then [""]
    else if s[0] == sep then [""] + Split(s[1..], sep)
    else
      var rest := Split(s[1..], sep);
      [[s[0]] + rest[0]] + rest[1..]
  }

  /** Python's `sep.join(parts)`. */
  function Join(parts: seq<string>, sep: char): string
    requires |parts| >= 1
  {
    if |parts| == 1 then parts[0] else parts[0] + [sep] + Join(parts[1..], sep)
  }

  /** A piece free of the separator glues onto the first part of what follows it. */
  lemma {:induction false} SplitGlue(p: string, t: string, sep: char)
    requires sep !in p
    ensures Split(p + t, sep) == [p + Split(t, sep)[0]] + Split(t, sep)[1..]
    decreases |p|
  {
    if |p| > 0 {
      assert (p + t)[0] == p[0];
      assert (p + t)[1..] == p[1..] + t;
      SplitGlue(p[1..], t, sep);
      assert [p[0]] + (p[1..] + Split(t, sep)[0]) == p + Split(t, sep)[0];
    } else {
      var x := Split(t, sep);
      assert p + t == t && p + x[0] == x[0];
      assert [x[0]] + x[1..] == x;
    }
  }

  /** Splitting what was joined gives back the parts, when none holds the separator. */
  lemma {:induction false} SplitJoin(parts: seq<string>, sep: char)
    requires |parts| >= 1
    requires forall i :: 0 <= i < |parts| ==> sep !in parts[i]
    ensures Split(Join(parts, sep), sep) == parts
    decreases |parts|
  {
    if |parts| == 1 {
      SplitGlue(parts[0], "", sep);
      assert parts[0] + "" == parts[0];
    } else {
      var tail := Join(parts[1..], sep);
      SplitJoin(parts[1..], sep);
      assert parts[0] + [sep] + tail == parts[0] + ([sep] + tail);
      SplitGlue(parts[0], [sep] + tail, sep);
      assert ([sep] + tail)[1..] == tail;
      assert parts[0] + "" == parts[0];
      assert [parts[0]] + parts[1..] == parts;
    }
  }

  /** Joining what was split gives back the string. */
  lemma {:induction false} JoinSplit(s: string, sep: char)
    ensures Join(Split(s, sep), sep) == s
    decreases |s|
  {
    if |s| > 0 {
      JoinSplit(s[1..], sep);
      var rest := Split(s[1..], sep);
      if s[0] == sep {
        assert Split(s, sep)[1..] == rest;
        assert s == [sep] + s[1..];
      } else {
        var parts := [[s[0]] + rest[0]] + rest[1..];
        if |rest| == 1 {
          assert s == [s[0]] + rest[0];
        } else {
          assert parts[1..] == rest[1..];
          assert Join(rest, sep) == rest[0] + [sep] + Join(rest[1..], sep);
          assert s == [s[0]] + s[1..];
        }
      }
    }
  }

  // ---------------------------------------------------------------------------
  // Registration callbacks

  /** The callback string of the button for one slot. */
  function RegisterCallback(activity: string, day: string, slot: string): (r: string)
    ensures StartsWith(r, RegisterPrefix)
    ensures |r| == |RegisterPrefix| + |activity| + |day| + |slot| + 2
  {
    RegisterPrefix + activity + [Separator] + day + [Separator] + slot
  }

  datatype Selection = Selection(activity: string, day: string, slot: string)

  /**
   * The fields handle_registration_selection reads from a callback: parts 1, 2
   * and 3 of its split on '_'. Fewer than four parts is an IndexError; parts
   * past the fourth are ignored.
   */
  function ParseRegistration(data: string): (r: Option<Selection>)
    ensures r.Some? <==> |Split(data, Separator)| >= 4
    ensures r.Some? ==> Separator !in r.value.activity && Separator !in r.value.day && Separator !in r.value.slot
  {
    var parts := Split(data, Separator);
    if |parts| < 4 then None else Some(Selection(parts[1], parts[2], parts[3]))
  }

  predicate StartsWith(s: string, prefix: string)
  {
    |prefix| <= |s| && s[..|prefix|] == prefix
  }

  /**
   * A callback built from fields that hold no '_' starts with "register_" and
   * parses back to exactly those fields.
   */
  lemma RegistrationRoundTrip(activity: string, day: string, slot: string)
    requires Separator !in activity && Separator !in day && Separator !in slot
    ensures StartsWith(RegisterCallback(activity, day, slot), RegisterPrefix)
    ensures ParseRegistration(RegisterCallback(activity, day, slot)) == Some(Selection(activity, day, slot))
  {
    var parts := ["register", activity, day, slot];
    assert Join(parts[3..], Separator) == slot;
    assert Join(parts[2..], Separator) == day + [Separator] + slot;
    assert Join(parts[1..], Separator) == activity + [Separator] + (day + [Separator] + slot);
    assert Join(parts, Separator) == RegisterCallback(activity, day, slot);
    forall i | 0 <= i < |parts|
      ensures Separator !in parts[i]
    {
    }
    SplitJoin(parts, Separator);
    assert RegisterCallback(activity, day, slot)[..|RegisterPrefix|] == RegisterPrefix;
  }

  /** The activities, days and slots the bot offers hold no '_'. */
  lemma OfferedFieldsClean(a: nat, d: nat, s: nat)
    requires a < |Activities| && d < |Days| && s < |TimeSlots|
    ensures Separator !in Activities[a] && Separator !in Days[d] && Separator !in TimeSlots[s]
  {
  }

  /** Every slot the keyboards offer round-trips through its callback string. */
  lemma OfferedSlotsRoundTrip(a: nat, d: nat, s: nat)
    requires a < |Activities| && d < |Days| && s < |TimeSlots|
    ensures StartsWith(RegisterCallback(Activities[a], Days[d], TimeSlots[s]), RegisterPrefix)
    ensures ParseRegistration(RegisterCallback(Activities[a], Days[d], TimeSlots[s]))
      == Some(Selection(Activities[a], Days[d], TimeSlots[s]))
  {
    OfferedFieldsClean(a, d, s);
    RegistrationRoundTrip(Activities[a], Days[d], TimeSlots[s]);
  }

  // ---------------------------------------------------------------------------
  // The slot keyboard

  /** Python's `str(n)` for a natural number. */
  function NumberText(n: nat): (t: string)
    ensures |t| >= 1
    ensures forall i :: 0 <= i < |t| ==> '0' <= t[i] <= '9'
  {
    var digit := ['0' + (n % 10) as char];
    if n < 10 then digit else NumberText(n / 10) + digit
  }

  /** The number a string of decimal digits spells, read independently of NumberText. */
  function DecimalValue(t: string): nat
    requires forall i :: 0 <= i < |t| ==> '0' <= t[i] <= '9'
  {
    if |t| == 0 then 0 else 10 * DecimalValue(t[..|t| - 1]) + (t[|t| - 1] as int - '0' as int)
  }

  /** `str(n)` spells n, with a single digit below 10 and no leading zero above. */
  lemma {:induction false} NumberTextValue(n: nat)
    ensures DecimalValue(NumberText(n)) == n
    ensures n < 10 ==> |NumberText(n)| == 1
    ensures n >= 10 ==> NumberText(n)[0] != '0'
    decreases n
  {
    var t := NumberText(n);
    var digit := ['0' + (n % 10) as char];
    assert digit[0] as int - '0' as int == n % 10;
    if n < 10 {
      assert t == digit && t[..0] == "";
    } else {
      NumberTextValue(n / 10);
      assert t == NumberText(n / 10) + digit;
      assert t[..|t| - 1] == NumberText(n / 10);
      assert t[0] == NumberText(n / 10)[0];
      if n / 10 < 10 {
        assert NumberText(n / 10) == ['0' + (n / 10) as char];
      }
    }
  }

  datatype Button = Button(text: string, callback: string)

  /**
   * Button `i` of the slot keyboard of `activity`: day i / 5 (shown as
   * "День 1" to "День 3"), slot i % 5.
   */
  function SlotButton(activity: string, i: nat): (b: Button)
    requires i < |Days| * |TimeSlots|
    ensures StartsWith(b.callback, RegisterPrefix)
    ensures Separator !in activity ==>
      ParseRegistration(b.callback) == Some(Selection(activity, Days[i / |TimeSlots|], TimeSlots[i % |TimeSlots|]))
  {
    var d, s := i / |TimeSlots|, i % |TimeSlots|;
    OfferedFieldsClean(0, d, s);
    assert Separator !in activity ==>
      ParseRegistration(RegisterCallback(activity, Days[d], TimeSlots[s])) == Some(Selection(activity, Days[d], TimeSlots[s])) by {
      if Separator !in activity {
        RegistrationRoundTrip(activity, Days[d], TimeSlots[s]);
      }
    }
    Button("День " + NumberText(d + 1) + " - " + TimeSlots[s], RegisterCallback(activity, Days[d], TimeSlots[s]))
  }

  /**
   * handle_activity_registration's keyboard: one row per day and slot, days
   * outermost and numbered from 1, then the back button.
   */
  method ActivityKeyboard(activity: string) returns (buttons: seq<Button>)
    ensures |buttons| == |Days| * |TimeSlots| + 1
    ensures forall i :: 0 <= i < |Days| * |TimeSlots| ==> buttons[i] == SlotButton(activity, i)
    ensures buttons[|Days| * |TimeSlots|] == Button(BackText, BackCallback)
  {
    buttons := [];
    var dayNum := 1;
    while dayNum <= |Days|
      invariant 1 <= dayNum <= |Days| + 1
      invariant |buttons| == (dayNum - 1) * |TimeSlots|
      invariant forall i :: 0 <= i < |buttons| ==> buttons[i] == SlotButton(activity, i)
    {
      var day := Days[dayNum - 1];
      var k := 0;
      while k < |TimeSlots|
        invariant 0 <= k <= |TimeSlots|
        invariant |buttons| == (dayNum - 1) * |TimeSlots| + k
        invariant forall i :: 0 <= i < |buttons| ==> buttons[i] == SlotButton(activity, i)
      {
        var slot := TimeSlots[k];
        var text := "День " + NumberText(dayNum) + " - " + slot;
        assert SlotButton(activity, |buttons|) == Button(text, RegisterCallback(activity, day, slot));
        buttons := buttons + [Button(text, RegisterCallback(activity, day, slot))];
        k := k + 1;
      }
      dayNum := dayNum + 1;
    }
    buttons := buttons + [Button(BackText, BackCallback)];
  }

  /** The slot buttons of an activity free of '_' carry pairwise distinct callbacks. */
  lemma SlotCallbacksDistinct(activity: string, i: nat, j: nat)
    requires Separator !in activity
    requires i < |Days| * |TimeSlots| && j < |Days| * |TimeSlots| && i != j
    ensures SlotButton(activity, i).callback != SlotButton(activity, j).callback
  {
    var di, si := i / |TimeSlots|, i % |TimeSlots|;
    var dj, sj := j / |TimeSlots|, j % |TimeSlots|;
    OfferedFieldsClean(0, di, si);
    OfferedFieldsClean(0, dj, sj);
    RegistrationRoundTrip(activity, Days[di], TimeSlots[si]);
    RegistrationRoundTrip(activity, Days[dj], TimeSlots[sj]);
    if SlotButton(activity, i).callback == SlotButton(activity, j).callback {
      DaysDistinct(di, dj);
      SlotsDistinct(si, sj);
      assert false;
    }
  }

  lemma DaysDistinct(a: nat, b: nat)
    requires a < |Days| && b < |Days| && Days[a] == Days[b]
    ensures a == b
  {
    assert Days[a][3] == Days[b][3];
  }

  lemma SlotsDistinct(a: nat, b: nat)
    requires a < |TimeSlots| && b < |TimeSlots| && TimeSlots[a] == TimeSlots[b]
    ensures a == b
  {
    assert TimeSlots[a][0] == TimeSlots[b][0] && TimeSlots[a][1] == TimeSlots[b][1];
  }

  // ---------------------------------------------------------------------------
  // Dispatch

  /** The handler callback_handler calls for a callback string. */
  datatype Handler =
    | MapHandler
    | ActivityHandler(activity: string)
    | QuestHandler
    | StickerHandler
    | ScheduleHandler
    | SelectionHandler
    | MenuHandler
    | NoHandler

  /** The callback strings matched exactly. */
  const Commands: seq<string> := ["map", "dance", "yoga", "quest", "sticker", "schedule", BackCallback]

  /**
   * callback_handler's if-chain: exact strings first, then the "register_"
   * prefix, then "back_to_menu"; anything else is only acknowledged.
   */
  function Route(data: string): (h: Handler)
    ensures h == SelectionHandler <==> StartsWith(data, RegisterPrefix)
    ensures h == NoHandler <==> data !in Commands && !StartsWith(data, RegisterPrefix)
    ensures h.ActivityHandler? <==> data in Activities
    ensures h.ActivityHandler? ==> h.activity == data
  {
    if data == "map" then MapHandler
    else if data == "dance" then ActivityHandler("dance")
    else if data == "yoga" then ActivityHandler("yoga")
    else if data == "quest" then QuestHandler
    else if data == "sticker" then StickerHandler
    else if data == "schedule" then ScheduleHandler
    else if StartsWith(data, RegisterPrefix) then SelectionHandler
    else if data == BackCallback then MenuHandler
    else NoHandler
  }

  /** The exact strings each reach a handler of their own. */
  lemma RouteCommandsDistinct(a: string, b: string)
    requires a in Commands && b in Commands && Route(a) == Route(b)
    ensures a == b
  {
  }

  /** Every button of a slot keyboard routes back into the bot. */
  lemma KeyboardRoutes(a: nat, i: nat)
    requires a < |Activities| && i < |Days| * |TimeSlots|
    ensures Route(SlotButton(Activities[a], i).callback) == SelectionHandler
    ensures ParseRegistration(SlotButton(Activities[a], i).callback)
      == Some(Selection(Activities[a], Days[i / |TimeSlots|], TimeSlots[i % |TimeSlots|]))
    ensures Route(BackCallback) == MenuHandler
  {
    OfferedSlotsRoundTrip(a, i / |TimeSlots|, i % |TimeSlots|);
  }

  // ---------------------------------------------------------------------------
  // Registration

  /** A row of the registrations table; `user` is the subscriber's id. */
  datatype Registration = Registration(user: int, activity: string, day: string, slot: string)

  predicate Unique(rs: seq<Registration>)
  {
    forall i, j :: 0 <= i < j < |rs| ==> rs[i] != rs[j]
  }

  /** The table after booking `r`: a row already present is not added again. */
  function Book(rs: seq<Registration>, r: Registration): (out: seq<Registration>)
    ensures r in out
    ensures forall x :: x in out <==> x in rs || x == r
    ensures r in rs ==> out == rs
    ensures r !in rs ==> out == rs + [r]
  {
    if r in rs then rs else rs + [r]
  }

  /** Booking the same slot twice is the same as booking it once. */
  lemma BookIdempotent(rs: seq<Registration>, r: Registration)
    ensures Book(Book(rs, r), r) == Book(rs, r)
  {
  }

  /** Booking never creates a duplicate row. */
  lemma BookKeepsUnique(rs: seq<Registration>, r: Registration)
    requires Unique(rs)
    ensures Unique(Book(rs, r))
  {
    if r !in rs {
      var out := rs + [r];
      forall i, j | 0 <= i < j < |out|
        ensures out[i] != out[j]
      {
        if j == |rs| {
          assert out[i] == rs[i];
        }
      }
    }
  }

  /** Python's `s.replace(pattern, "")` for a non-empty pattern: every match, left to right. */
  function RemoveAll(s: string, pattern: string): (t: string)
    requires |pattern| > 0
    ensures |t| <= |s|
    ensures |s| > 0 && !StartsWith(s, pattern) ==> |t| > 0 && t[0] == s[0]
    decreases |s|
  {
    if StartsWith(s, pattern) then RemoveAll(s[|pattern|..], pattern)
    else if |s| == 0 then ""
    else [s[0]] + RemoveAll(s[1..], pattern)
  }

  /** A match at the front is dropped and removal goes on after it. */
  lemma RemoveAllSkipsMatch(s: string, pattern: string)
    requires |pattern| > 0
    ensures RemoveAll(pattern + s, pattern) == RemoveAll(s, pattern)
  {
    assert (pattern + s)[..|pattern|] == pattern;
    assert (pattern + s)[|pattern|..] == s;
  }

  /** A string with no match anywhere is left as it is. */
  lemma {:induction false} RemoveAllNoMatch(s: string, pattern: string)
    requires |pattern| > 0
    requires forall k :: 0 <= k <= |s| ==> !StartsWith(s[k..], pattern)
    ensures RemoveAll(s, pattern) == s
    decreases |s|
  {
    assert s[0..] == s;
    if |s| > 0 {
      forall k | 0 <= k <= |s| - 1
        ensures !StartsWith(s[1..][k..], pattern)
      {
        assert s[1..][k..] == s[k + 1..];
      }
      RemoveAllNoMatch(s[1..], pattern);
      assert [s[0]] + s[1..] == s;
    }
  }

  /** day.replace("day", ""), the day number shown on the confirmation. */
  function DayNumber(day: string): (n: string)
    ensures |n| <= |day|
    ensures !StartsWith(day, "day") && |day| > 0 ==> |n| > 0 && n[0] == day[0]
  {
    RemoveAll(day, "day")
  }

  /** The offered days show as their position counted from 1. */
  lemma DayNumbers(d: nat)
    requires d < |Days|
    ensures DayNumber(Days[d]) == NumberText(d + 1)
  {
    var day := Days[d];
    assert StartsWith(day, "day");
    assert day[3..] == [day[3]];
    assert !StartsWith(day[3..], "day");
    assert RemoveAll(day[3..][1..], "day") == "";
  }

  /** The Russian name shown on the confirmation: "dance" is Танцы, anything else Йога. */
  function ActivityName(activity: string): (name: string)
    ensures name == "Танцы" <==> activity == "dance"
    ensures name == "Танцы" || name == "Йога"
  {
    if activity == "dance" then "Танцы" else "Йога"
  }

  datatype RegOutcome = AlreadyRegistered | Registered(activityName: string, dayNumber: string, slot: string)

  /**
   * Why handle_registration_selection raises: a callback with fewer than four
   * parts indexes past the split, and an unknown user leaves `text` unbound.
   */
  datatype SelectionError = MalformedCallback | UnknownUser

  // ---------------------------------------------------------------------------
  // The quest screen

  datatype QuestScreen = Congratulations(code: string) | StepScreen(step: int, text: string)

  /**
   * handle_quest's text: the completion code once the quest is completed,
   * otherwise the current step and its description, or "Квест завершен" for a
   * step outside the catalog.
   */
  function QuestScreenFor(p: Quest.ProgressState): (v: QuestScreen)
    ensures v.Congratulations? <==> p.completed
    ensures v.Congratulations? ==> v.code == Quest.CompletionCode
    ensures v.StepScreen? ==> v.step == p.questStep
    ensures v.StepScreen? ==>
      (v.text == QuestFinishedText <==> Quest.GetQuestStep(p.questStep).None?)
  {
    if p.completed then Congratulations(Quest.CompletionCode)
    else
      var info := Quest.GetQuestStep(p.questStep);
      StepScreen(p.questStep, if info.Some? then info.value.description else QuestFinishedText)
  }

  /**
   * For any record the quest machine can reach, an unfinished quest shows the
   * catalog description of its step, never the fallback text.
   */
  lemma QuestScreenOfReachable(userId: int, calls: seq<Quest.Call>)
    ensures var p := Quest.Run(Quest.Fresh(userId), calls);
      !p.completed ==>
        && Quest.GetQuestStep(p.questStep).Some?
        && QuestScreenFor(p) == StepScreen(p.questStep, Quest.GetQuestStep(p.questStep).value.description)
  {
    Quest.ReachableRecord(userId, calls);
  }

  // ---------------------------------------------------------------------------
  // The sticker flow

  /** What the download produced: an exception, or bytes that decode to an image of `size` or do not. */
  datatype PhotoInput = DownloadFailed | Downloaded(size: Option<Sticker.Size>)

  datatype PhotoOutcome = Ignored | StickerSent(sticker: Sticker.StickerImage) | NotProcessed | Failed

  /** A row of the sticker-generation log. */
  datatype StickerRecord = StickerRecord(user: int, templateUsed: string, photoFileId: string)

  /** What handle_photo replies for a user awaiting a photo, with template `choice`. */
  function PhotoResult(input: PhotoInput, choice: nat): (o: PhotoOutcome)
    requires choice < |Sticker.Templates|
    ensures o != Ignored
    ensures o.StickerSent? <==> input.Downloaded? && input.size.Some?
                                && input.size.value.width > 0 && input.size.value.height > 0
    ensures o.StickerSent? ==> o.sticker.template == Sticker.Templates[choice]
    ensures o == Failed <==> input.DownloadFailed?
  {
    Sticker.TemplatesRender(choice);
    match input
    case DownloadFailed => Failed
    case Downloaded(size) =>
      match Sticker.GenerateSimpleSticker(size, Sticker.Templates[choice])
      case Some(st) => StickerSent(st)
      case None => NotProcessed
  }

  // ---------------------------------------------------------------------------
  // The bot's state

  datatype Screen =
    | MenuScreen
    | MapScreen
    | ActivityScreen(activity: string, buttons: seq<Button>)
    | QuestView(view: Option<QuestScreen>)
    | StickerPrompt
    | ScheduleScreen
    | RegistrationView(outcome: RegOutcome)
    | NoScreen

  /** The callback was acknowledged, or acknowledged with the error notice after an exception. */
  datatype Reply = Answered(screen: Screen) | ErrorAnswered

  /**
   * What the handlers read and write: the known subscribers, the in-memory
   * `user_states` map, and the registrations, quest and sticker tables.
   */
  class BotState {
    var users: set<int>
    var userStates: map<int, string>
    var registrations: seq<Registration>
    var quests: map<int, Quest.ProgressState>
    var stickers: seq<StickerRecord>

    /** No duplicate registration, and every quest record belongs to its key and is reachable-shaped. */
    ghost predicate Valid()
      reads this
    {
      && Unique(registrations)
      && forall u :: u in quests ==> quests[u].userId == u && Quest.Inv(quests[u])
    }

    constructor ()
      ensures Valid()
      ensures users == {} && userStates == map[] && registrations == [] && quests == map[] && stickers == []
    {
      users := {};
      userStates := map[];
      registrations := [];
      quests := map[];
      stickers := [];
    }

    /** start_command: the user is created when unknown. */
    method StartCommand(uid: int)
      requires Valid()
      modifies this
      ensures Valid()
      ensures users == old(users) + {uid}
      ensures userStates == old(userStates) && registrations == old(registrations)
      ensures quests == old(quests) && stickers == old(stickers)
    {
      if uid !in users {
        users := users + {uid};
      }
    }

    /** handle_sticker_request: the user now awaits a photo. */
    method RequestSticker(uid: int)
      requires Valid()
      modifies this
      ensures Valid()
      ensures userStates == old(userStates)[uid := AwaitingPhoto]
      ensures users == old(users) && registrations == old(registrations)
      ensures quests == old(quests) && stickers == old(stickers)
    {
      userStates := userStates[uid := AwaitingPhoto];
    }

    /**
     * handle_photo: a user not awaiting a photo is ignored. Otherwise the photo
     * is made into a simple sticker with template `choice`, a generated sticker
     * is logged for a known user, and the user's state is removed whatever the
     * outcome.
     */
    method HandlePhoto(uid: int, photoFileId: string, input: PhotoInput, choice: nat) returns (outcome: PhotoOutcome)
      requires Valid() && choice < |Sticker.Templates|
      modifies this
      ensures Valid()
      ensures !(uid in old(userStates) && old(userStates)[uid] == AwaitingPhoto) ==>
        outcome == Ignored && unchanged(this)
      ensures uid in old(userStates) && old(userStates)[uid] == AwaitingPhoto ==>
        && outcome == PhotoResult(input, choice)
        && userStates == old(userStates) - {uid}
        && uid !in userStates
        && (forall u :: u != uid ==>
              (u in userStates <==> u in old(userStates)) && (u in userStates ==> userStates[u] == old(userStates)[u]))
        && stickers == old(stickers) +
             (if outcome.StickerSent? && uid in users
              then [StickerRecord(uid, Sticker.Templates[choice].name, photoFileId)] else [])
      ensures users == old(users) && registrations == old(registrations) && quests == old(quests)
    {
      if uid !in userStates || userStates[uid] != AwaitingPhoto {
        return Ignored;
      }
      outcome := PhotoResult(input, choice);
      if outcome.StickerSent? && uid in users {
        stickers := stickers + [StickerRecord(uid, Sticker.Templates[choice].name, photoFileId)];
      }
      if uid in userStates {
        userStates := userStates - {uid};
      }
    }

    /**
     * handle_registration_selection: the slot is parsed from the callback and
     * booked for a known user unless that exact row already exists.
     */
    method SelectRegistration(uid: int, data: string) returns (r: Result<RegOutcome, SelectionError>)
      requires Valid()
      modifies this
      ensures Valid()
      ensures r == Failure(MalformedCallback) <==> ParseRegistration(data).None?
      ensures r == Failure(UnknownUser) <==> ParseRegistration(data).Some? && uid !in users
      ensures r.Failure? ==> unchanged(this)
      ensures r.Success? ==>
        var sel := ParseRegistration(data).value;
        var row := Registration(uid, sel.activity, sel.day, sel.slot);
        && registrations == Book(old(registrations), row)
        && (r.value == AlreadyRegistered <==> row in old(registrations))
        && (r.value.Registered? ==>
              r.value == Registered(ActivityName(sel.activity), DayNumber(sel.day), sel.slot))
      ensures users == old(users) && userStates == old(userStates)
      ensures quests == old(quests) && stickers == old(stickers)
    {
      var sel := ParseRegistration(data);
      if sel.None? {
        return Failure(MalformedCallback);
      }
      if uid !in users {
        return Failure(UnknownUser);
      }
      var row := Registration(uid, sel.value.activity, sel.value.day, sel.value.slot);
      if row in registrations {
        r := Success(AlreadyRegistered);
      } else {
        BookKeepsUnique(registrations, row);
        registrations := registrations + [row];
        r := Success(Registered(ActivityName(row.activity), DayNumber(row.day), row.slot));
      }
    }

    /**
     * handle_quest: nothing for an unknown user; otherwise a missing record is
     * created at step 1 and its screen shown.
     */
    method ShowQuest(uid: int) returns (view: Option<QuestScreen>)
      requires Valid()
      modifies this
      ensures Valid()
      ensures uid !in old(users) ==> view.None? && unchanged(this)
      ensures uid in old(users) ==>
        && quests == (if uid in old(quests) then old(quests) else old(quests)[uid := Quest.Fresh(uid)])
        && view == Some(QuestScreenFor(quests[uid]))
      ensures uid in old(users) && !quests[uid].completed ==>
        && Quest.GetQuestStep(quests[uid].questStep).Some?
        && view == Some(StepScreen(quests[uid].questStep, Quest.GetQuestStep(quests[uid].questStep).value.description))
      ensures users == old(users) && userStates == old(userStates)
      ensures registrations == old(registrations) && stickers == old(stickers)
    {
      if uid !in users {
        return None;
      }
      if uid !in quests {
        Quest.InvFresh(uid);
        quests := quests[uid := Quest.Fresh(uid)];
      }
      view := Some(QuestScreenFor(quests[uid]));
    }

    /**
     * callback_handler: routes the callback and acknowledges it; an exception
     * in the registration handler is acknowledged with the error notice.
     */
    method HandleCallback(uid: int, data: string) returns (reply: Reply)
      requires Valid()
      modifies this
      ensures Valid()
      ensures reply == ErrorAnswered <==>
        Route(data) == SelectionHandler && (ParseRegistration(data).None? || uid !in old(users))
      ensures reply == ErrorAnswered ==> unchanged(this)
      ensures Route(data) !in {QuestHandler, StickerHandler, SelectionHandler} ==> unchanged(this)
      ensures users == old(users) && stickers == old(stickers)
      ensures Route(data) != StickerHandler ==> userStates == old(userStates)
      ensures Route(data) != QuestHandler ==> quests == old(quests)
      ensures Route(data) == NoHandler ==> reply == Answered(NoScreen)
      ensures Route(data) == MenuHandler ==> reply == Answered(MenuScreen)
      ensures Route(data).ActivityHandler? ==>
        reply.Answered? && reply.screen.ActivityScreen? && reply.screen.activity == data
        && |reply.screen.buttons| == |Days| * |TimeSlots| + 1
        && (forall i :: 0 <= i < |Days| * |TimeSlots| ==> reply.screen.buttons[i] == SlotButton(data, i))
      ensures Route(data) == StickerHandler ==>
        reply == Answered(StickerPrompt) && userStates == old(userStates)[uid := AwaitingPhoto]
        && registrations == old(registrations) && quests == old(quests)
      ensures Route(data) == QuestHandler ==>
        reply.Answered? && reply.screen.QuestView? && userStates == old(userStates)
        && registrations == old(registrations)
        && (reply.screen.view.Some? <==> uid in old(users))
        && quests == (if uid in old(users) && uid !in old(quests) then old(quests)[uid := Quest.Fresh(uid)] else old(quests))
        && (uid in old(users) ==> reply.screen.view == Some(QuestScreenFor(quests[uid])))
      ensures Route(data) == SelectionHandler && reply.Answered? ==>
        var sel := ParseRegistration(data).value;
        var row := Registration(uid, sel.activity, sel.day, sel.slot);
        && registrations == Book(old(registrations), row)
        && reply == Answered(RegistrationView(
             if row in old(registrations) then AlreadyRegistered
             else Registered(ActivityName(sel.activity), DayNumber(sel.day), sel.slot)))
      ensures Route(data) != SelectionHandler ==> registrations == old(registrations)
    {
      match Route(data)
      case MapHandler => reply := Answered(MapScreen);
      case ActivityHandler(a) =>
        var buttons := ActivityKeyboard(a);
        reply := Answered(ActivityScreen(a, buttons));
      case QuestHandler =>
        var view := ShowQuest(uid);
        reply := Answered(QuestView(view));
      case StickerHandler =>
        RequestSticker(uid);
        reply := Answered(StickerPrompt);
      case ScheduleHandler => reply := Answered(ScheduleScreen);
      case SelectionHandler =>
        var r := SelectRegistration(uid, data);
        assert r.Failure? ==> r.error == MalformedCallback || r.error == UnknownUser;
        reply := if r.Success? then Answered(RegistrationView(r.value)) else ErrorAnswered;
      case MenuHandler => reply := Answered(MenuScreen);
      case NoHandler => reply := Answered(NoScreen);
    }
  }
}
