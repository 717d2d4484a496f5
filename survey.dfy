/**
 * The survey engine `SurveyManager`: the consent step, the per-user survey
 * state machine kept in the FSM storage, completion, and the broadcast
 * that starts the survey for every registered user. Message sends are
 * no-ops; where a send raising changes the outcome, the failure is a
 * parameter.
 */
module Survey {
  import opened Wrappers
  import opened Fsm
  import opened Questions
  import DataProcessing

  const ConsentText: string := "Согласен"

  /** The ids `run_scheduled_survey` never surveys. */
  const AdminIds: seq<int> := [7687534894]

  /** `{'current_question': 0, 'answers': {}}` */
  const Initial: SurveyData := SurveyData(0, map[])

  // ------------------------------------------------------- survey progress

  /** The columns of the first `q` questions. */
  function ColumnsBefore(q: nat): set<string>
    requires q <= |Catalogue|
  {
    set i | 0 <= i < q :: Catalogue[i].column
  }

  /** The answers cover exactly the questions already asked, and each of
    * them passed its question's validator. */
  predicate ProgressValid(d: SurveyData) {
    && 0 <= d.currentQuestion < |Catalogue|
    && d.answers.Keys == ColumnsBefore(d.currentQuestion)
    && forall i | 0 <= i < d.currentQuestion :: Validate(Catalogue[i], d.answers[Catalogue[i].column])
  }

  /** A record the survey handler can work on: `IN_PROGRESS` always has
    * survey data, and stored survey data is always consistent. */
  predicate RecordValid(r: Record) {
    && (r.state == InProgress ==> r.data.Some?)
    && (r.data.Some? ==> ProgressValid(r.data.value))
  }

  predicate StorageValid(records: map<Key, Record>) {
    forall k | k in records :: RecordValid(records[k])
  }

  /** Storing a consistent record keeps the storage consistent. */
  lemma StoreValid(records: map<Key, Record>, key: Key, r: Record)
    requires StorageValid(records) && RecordValid(r)
    ensures StorageValid(records[key := r])
  {
  }

  datatype Outcome = Rejected | Advanced(next: SurveyData) | Completed(answers: map<string, string>)

  /** One answer to the current question (`handle_answer` without I/O). */
  function Step(d: SurveyData, text: string): Outcome
    requires 0 <= d.currentQuestion < |Catalogue|
  {
    var q := Catalogue[d.currentQuestion];
    if !Validate(q, text) then Rejected
    else
      var answers := d.answers[q.column := text];
      if d.currentQuestion + 1 < |Catalogue| then Advanced(SurveyData(d.currentQuestion + 1, answers))
      else Completed(answers)
  }

  /** A rejected answer is exactly one the current question's validator
    * refuses; an accepted one is stored verbatim under that question's
    * column and moves to the next question, or completes after the last. */
  lemma StepCases(d: SurveyData, text: string)
    requires ProgressValid(d)
    ensures var q := d.currentQuestion; var out := Step(d, text);
      && (out.Rejected? <==> !Validate(Catalogue[q], text))
      && (out.Advanced? ==> out.next == SurveyData(q + 1, d.answers[Catalogue[q].column := text]))
      && (out.Completed? <==> Validate(Catalogue[q], text) && q == |Catalogue| - 1)
      && (out.Completed? ==> out.answers == d.answers[Catalogue[q].column := text])
  {
  }

  /** Storing the answer to question `q` adds exactly its column. */
  lemma ExtendKeys(answers: map<string, string>, q: nat, text: string)
    requires q < |Catalogue| && answers.Keys == ColumnsBefore(q)
    ensures answers[Catalogue[q].column := text].Keys == ColumnsBefore(q + 1)
  {
    var c := Catalogue[q].column;
    forall x
      ensures x in ColumnsBefore(q + 1) <==> x in ColumnsBefore(q) || x == c
    {
      if x in ColumnsBefore(q + 1) && x != c {
        var i :| 0 <= i < q + 1 && Catalogue[i].column == x;
        assert i < q;
      }
    }
  }

  /** Storing a valid answer to question `q` leaves the earlier answers
    * valid: no earlier question shares its column. */
  lemma ExtendValid(answers: map<string, string>, q: nat, text: string)
    requires q < |Catalogue| && answers.Keys == ColumnsBefore(q)
    requires forall i | 0 <= i < q :: Validate(Catalogue[i], answers[Catalogue[i].column])
    requires Validate(Catalogue[q], text)
    ensures var a := answers[Catalogue[q].column := text];
      forall i | 0 <= i < q + 1 :: Validate(Catalogue[i], a[Catalogue[i].column])
  {
    var c := Catalogue[q].column;
    var a := answers[c := text];
    forall i | 0 <= i < q + 1
      ensures Validate(Catalogue[i], a[Catalogue[i].column])
    {
      if i < q {
        ColumnsDistinct();
        assert Catalogue[i].column != c;
      }
    }
  }

  /** An accepted answer keeps the survey data consistent, and a completed
    * survey holds one validated answer for every one of the twelve columns. */
  lemma StepPreserves(d: SurveyData, text: string)
    requires ProgressValid(d)
    ensures Step(d, text).Advanced? ==> ProgressValid(Step(d, text).next)
    ensures Step(d, text).Completed? ==>
      var a := Step(d, text).answers;
      && a.Keys == ColumnsBefore(|Catalogue|)
      && forall i | 0 <= i < |Catalogue| :: Validate(Catalogue[i], a[Catalogue[i].column])
  {
    var q := d.currentQuestion;
    if Validate(Catalogue[q], text) {
      ExtendKeys(d.answers, q, text);
      ExtendValid(d.answers, q, text);
    }
  }

  /** The answers a sequence of accepted texts leaves, one per question. */
  function AnswersOf(texts: seq<string>): map<string, string>
    requires |texts| <= |Catalogue|
  {
    if texts == [] then map[]
    else AnswersOf(texts[..|texts| - 1])[Catalogue[|texts| - 1].column := texts[|texts| - 1]]
  }

  /** Feeding messages to the survey one at a time: rejected ones are
    * re-asked, and the survey ends at its completion. `Advanced(d)` at the
    * end means still in progress at `d`. */
  function Run(d: SurveyData, texts: seq<string>): Outcome
    requires 0 <= d.currentQuestion < |Catalogue|
    decreases |texts|
  {
    if texts == [] then Advanced(d)
    else match Step(d, texts[0])
      case Rejected => Run(d, texts[1..])
      case Advanced(next) => Run(next, texts[1..])
      case Completed(a) => Completed(a)
  }

  /** Twelve acceptable answers, in order, complete the survey with exactly
    * those answers under their columns. */
  lemma {:induction false} RunCompletes(texts: seq<string>, k: nat)
    requires |texts| == |Catalogue| && k < |Catalogue|
    requires forall i | 0 <= i < |texts| :: Validate(Catalogue[i], texts[i])
    ensures Run(SurveyData(k, AnswersOf(texts[..k])), texts[k..]) == Completed(AnswersOf(texts))
    decreases |Catalogue| - k
  {
    var d := SurveyData(k, AnswersOf(texts[..k]));
    assert texts[k..][0] == texts[k];
    assert texts[..k + 1][..k] == texts[..k];
    if k + 1 < |Catalogue| {
      assert texts[k..][1..] == texts[k + 1..];
      RunCompletes(texts, k + 1);
    } else {
      assert texts[..k + 1] == texts;
    }
  }

  /** A rejected message changes nothing: the same question is asked again. */
  lemma RunSkipsRejected(d: SurveyData, text: string, rest: seq<string>)
    requires 0 <= d.currentQuestion < |Catalogue|
    requires !Validate(Catalogue[d.currentQuestion], text)
    ensures Run(d, [text] + rest) == Run(d, rest)
  {
    assert ([text] + rest)[1..] == rest;
  }

  /** The step count example: 70000 steps are refused, 500 are stored. */
  lemma StepsExample()
    ensures Step(Initial, "70000") == Rejected
    ensures Step(Initial, "500") == Advanced(SurveyData(1, map["Шаги" := "500"]))
  {
    IntAcceptsNumeral(Catalogue[0], 70000);
    IntAcceptsNumeral(Catalogue[0], 500);
    assert PyText.NatToDigits(70000) == "70000";
    assert PyText.NatToDigits(500) == "500";
  }

  // ------------------------------------------------------------ broadcast

  /** Where `_start_survey` raises, if it does: at the opening message
    * (nothing changed yet) or at the first question (the survey is marked
    * active and its data set, but the state is not yet `IN_PROGRESS`). */
  datatype StartFault = NoFault | FailAtAnnounce | FailAtQuestion

  datatype World = World(records: map<Key, Record>, active: map<int, bool>)

  /** The effect of `_start_survey(chat, key)`. */
  function StartEffect(w: World, chat: int, key: Key, fault: StartFault): World {
    match fault
    case FailAtAnnounce => w
    case FailAtQuestion =>
      World(w.records[key := Record(Lookup(w.records, key).state, Some(Initial))], w.active[chat := true])
    case NoFault => World(w.records[key := Record(InProgress, Some(Initial))], w.active[chat := true])
  }

  /** The survey is started for each id in turn, under the key `(id, id)`. */
  function StartAll(w: World, ids: seq<int>, fault: int -> StartFault): World {
    if ids == [] then w
    else
      var last := ids[|ids| - 1];
      StartEffect(StartAll(w, ids[..|ids| - 1], fault), last, Key(last, last), fault(last))
  }

  function Successes(ids: seq<int>, fault: int -> StartFault): nat {
    if ids == [] then 0
    else Successes(ids[..|ids| - 1], fault) + (if fault(ids[|ids| - 1]).NoFault? then 1 else 0)
  }

  /** The registry without the admin ids, in registry order. */
  function Targets(users: seq<int>): (ids: seq<int>)
    ensures forall x :: x in ids <==> x in users && x !in AdminIds
  {
    if users == [] then []
    else
      var rest := Targets(users[..|users| - 1]);
      var last := users[|users| - 1];
      assert users == users[..|users| - 1] + [last];
      if last in AdminIds then rest else rest + [last]
  }

  /** The whole broadcast: nothing without a registry, otherwise every
    * registered non-admin id in registry order. */
  function Broadcast(w: World, users: Option<seq<int>>, fault: int -> StartFault): World {
    if users.None? then w else StartAll(w, Targets(users.value), fault)
  }

  /** At least one start succeeded exactly when some id did not fault. */
  lemma {:induction false} SuccessesPositive(ids: seq<int>, fault: int -> StartFault)
    ensures Successes(ids, fault) > 0 <==> exists x | x in ids :: fault(x).NoFault?
  {
    if ids != [] {
      var init, last := ids[..|ids| - 1], ids[|ids| - 1];
      SuccessesPositive(init, fault);
      assert ids == init + [last];
      if fault(last).NoFault? {
        assert last in ids;
      } else if x :| x in ids && fault(x).NoFault? {
        assert x in init;
      }
    }
  }

  /** After the broadcast, every id whose start did not fault is in
    * `IN_PROGRESS` at question 0 with no answers and marked active; an id
    * that failed at its first question is active with fresh data; and
    * every key that is not `(id, id)` for a started id keeps its record. */
  lemma {:induction false} StartAllEffect(w: World, ids: seq<int>, fault: int -> StartFault, k: Key)
    ensures var r := StartAll(w, ids, fault);
      && (k.chat == k.user && k.chat in ids && fault(k.chat).NoFault? ==>
            Lookup(r.records, k) == Record(InProgress, Some(Initial)) && k.chat in r.active && r.active[k.chat])
      && (k.chat == k.user && k.chat in ids && fault(k.chat).FailAtQuestion? ==>
            Lookup(r.records, k) == Record(Lookup(w.records, k).state, Some(Initial))
            && k.chat in r.active && r.active[k.chat])
      && ((k.chat != k.user || k.chat !in ids || fault(k.chat).FailAtAnnounce?) ==>
            Lookup(r.records, k) == Lookup(w.records, k))
  {
    if ids != [] {
      var init := ids[..|ids| - 1];
      StartAllEffect(w, init, fault, k);
      assert ids == init + [ids[|ids| - 1]];
    }
  }

  /** Chats that are not started keep their active flag. */
  lemma {:induction false} StartAllActive(w: World, ids: seq<int>, fault: int -> StartFault, chat: int)
    requires chat !in ids || fault(chat).FailAtAnnounce?
    ensures var r := StartAll(w, ids, fault);
      (chat in r.active <==> chat in w.active) && (chat in w.active ==> r.active[chat] == w.active[chat])
  {
    if ids != [] {
      var init := ids[..|ids| - 1];
      StartAllActive(w, init, fault, chat);
      assert ids == init + [ids[|ids| - 1]];
    }
  }

  /** Starting keeps the storage consistent. */
  lemma {:induction false} StartAllValid(w: World, ids: seq<int>, fault: int -> StartFault)
    requires StorageValid(w.records)
    ensures StorageValid(StartAll(w, ids, fault).records)
  {
    if ids != [] {
      StartAllValid(w, ids[..|ids| - 1], fault);
    }
  }

  /** The whole broadcast keeps the storage consistent. */
  lemma BroadcastValid(w: World, users: Option<seq<int>>, fault: int -> StartFault)
    requires StorageValid(w.records)
    ensures StorageValid(Broadcast(w, users, fault).records)
  {
    if users.Some? {
      StartAllValid(w, Targets(users.value), fault);
    }
  }

  // -------------------------------------------------------------- manager

  class SurveyManager {
    const processor: DataProcessing.DataProcessor
    const storage: FsmStorage
    /** `active_surveys`: chat id to "a survey is running". */
    var activeSurveys: map<int, bool>

    constructor (processor: DataProcessing.DataProcessor, storage: FsmStorage)
      ensures this.processor == processor && this.storage == storage && activeSurveys == map[]
    {
      this.processor := processor;
      this.storage := storage;
      activeSurveys := map[];
    }

    /** `is_survey_in_progress`: `active_surveys.get(chat_id, False)`. */
    function IsSurveyInProgress(chat: int): bool
      reads this
    {
      chat in activeSurveys && activeSurveys[chat]
    }

    /** The storage records and the active flags together. */
    function Current(): World
      reads this, storage
    {
      World(storage.records, activeSurveys)
    }

    /** `send_consent_request`: asks for consent and sets `CONSENT`; the
      * survey data, if any, stays. */
    method SendConsentRequest(key: Key)
      modifies storage
      ensures storage.records == old(storage.records)[key := Record(Consent, old(storage.Get(key)).data)]
      ensures StorageValid(old(storage.records)) ==> StorageValid(storage.records)
    {
      storage.SetState(key, Consent);
    }

    /** `handle_consent`: the exact text "Согласен" registers the chat id;
      * either way the state is cleared. */
    method HandleConsent(key: Key, text: string, ioFails: bool)
      modifies storage, processor`users
      ensures storage.records == old(storage.records)[key := Cleared]
      ensures text == ConsentText && !ioFails ==>
        processor.users == Some(DataProcessing.Register(
          if old(processor.users).Some? then old(processor.users).value else [], key.chat))
      ensures text != ConsentText || ioFails ==> processor.users == old(processor.users)
      ensures StorageValid(old(storage.records)) ==> StorageValid(storage.records)
    {
      if text == ConsentText {
        processor.UpdateUsersFile(key.chat, ioFails);
      }
      storage.Clear(key);
    }

    /** `_start_survey(chat, key)`; `ok` is false where it raises. */
    method StartSurvey(chat: int, key: Key, fault: StartFault) returns (ok: bool)
      modifies this`activeSurveys, storage
      ensures ok <==> fault.NoFault?
      ensures Current() == StartEffect(old(Current()), chat, key, fault)
    {
      if fault.FailAtAnnounce? {
        return false;
      }
      activeSurveys := activeSurveys[chat := true];
      storage.SetData(key, Initial);
      if fault.FailAtQuestion? {
        return false;
      }
      storage.SetState(key, InProgress);
      ok := true;
    }

    /** `_complete_survey`: saves the answers under the chat id, then marks
      * the survey inactive and clears the state whether or not saving raised. */
    method CompleteSurvey(key: Key, answers: map<string, string>, now: int, saveFails: bool)
      modifies this`activeSurveys, storage, processor`log
      ensures processor.log == (if saveFails then old(processor.log)
        else Some(DataProcessing.Appended(old(processor.log), DataProcessing.LogRow(answers, key.chat, now))))
      ensures activeSurveys == old(activeSurveys)[key.chat := false]
      ensures storage.records == old(storage.records)[key := Cleared]
      ensures !IsSurveyInProgress(key.chat)
    {
      var _ := processor.SaveResponse(key.chat, answers, now, saveFails);
      activeSurveys := activeSurveys[key.chat := false];
      storage.Clear(key);
    }

    /** `handle_answer`, reached only in `IN_PROGRESS`. */
    method HandleAnswer(key: Key, text: string, now: int, saveFails: bool) returns (outcome: Outcome)
      requires storage.Get(key).state == InProgress && RecordValid(storage.Get(key))
      modifies this`activeSurveys, storage, processor`log
      ensures var d := old(storage.Get(key)).data.value; outcome == Step(d, text)
      ensures outcome.Rejected? ==>
        storage.records == old(storage.records) && activeSurveys == old(activeSurveys)
        && processor.log == old(processor.log)
      ensures outcome.Advanced? ==>
        storage.records == old(storage.records)[key := Record(InProgress, Some(outcome.next))]
        && activeSurveys == old(activeSurveys) && processor.log == old(processor.log)
      ensures outcome.Completed? ==>
        && processor.log == (if saveFails then old(processor.log)
             else Some(DataProcessing.Appended(old(processor.log),
                    DataProcessing.LogRow(outcome.answers, key.chat, now))))
        && activeSurveys == old(activeSurveys)[key.chat := false]
        && storage.records == old(storage.records)[key := Cleared]
      ensures StorageValid(old(storage.records)) ==> StorageValid(storage.records)
    {
      var d := storage.Get(key).data.value;
      StepPreserves(d, text);
      outcome := Step(d, text);
      match outcome
      case Rejected =>
      case Advanced(next) =>
        if StorageValid(storage.records) {
          StoreValid(storage.records, key, Record(InProgress, Some(next)));
        }
        storage.SetData(key, next);
      case Completed(answers) =>
        storage.SetData(key, SurveyData(d.currentQuestion, answers));
        CompleteSurvey(key, answers, now, saveFails);
    }

    /** `run_scheduled_survey`: `false` without a registry; otherwise every
      * registered non-admin id gets the survey under the key `(id, id)`,
      * and the result says whether at least one start succeeded. */
    method RunScheduledSurvey(fault: int -> StartFault) returns (ok: bool)
      modifies this`activeSurveys, storage
      ensures Current() == Broadcast(old(Current()), processor.users, fault)
      ensures ok <==> processor.users.Some? && exists x | x in Targets(processor.users.value) :: fault(x).NoFault?
    {
      if processor.users.None? {
        return false;
      }
      var ids := Targets(processor.users.value);
      var success := 0;
      var i := 0;
      while i < |ids|
        invariant 0 <= i <= |ids|
        invariant Current() == StartAll(old(Current()), ids[..i], fault)
        invariant success == Successes(ids[..i], fault)
      {
        var started := StartSurvey(ids[i], Key(ids[i], ids[i]), fault(ids[i]));
        if started {
          success := success + 1;
        }
        assert ids[..i + 1][..i] == ids[..i];
        i := i + 1;
      }
      assert ids[..i] == ids;
      SuccessesPositive(ids, fault);
      ok := success > 0;
    }
  }
}
