/**
 * `MentalHealthBot`: the dispatcher wired to the survey engine, the admin
 * panel and the text generator. One call handles one incoming text
 * message; the FSM storage and the admin panel's counters stay consistent
 * across every message.
 */
module Bot {
  import opened Wrappers
  import opened Fsm
  import opened Router
  import opened Survey
  import opened Admin
  import ChatModel
  import DataProcessing

  /** The FSM storage key of a private-chat message. */
  function KeyOf(m: Message): Key {
    Key(m.chat, m.user)
  }

  class MentalHealthBot {
    const panel: AdminPanel
    const botName: string

    constructor (users: Option<seq<int>>, log: Option<DataProcessing.SurveyLog>, password: string,
                 hash: string -> string, botName: string)
      ensures Valid() && this.botName == botName
      ensures panel.survey.processor.users == users && panel.survey.storage.records == map[]
      ensures panel.activeSessions == {} && panel.survey.activeSurveys == map[]
    {
      var processor := new DataProcessing.DataProcessor(users, log);
      var storage := new FsmStorage();
      var survey := new SurveyManager(processor, storage);
      panel := new AdminPanel(survey, password, hash);
      this.botName := botName;
    }

    /** Every stored survey record is consistent and every login counter is 1 or 2. */
    predicate Valid()
      reads this, panel, panel.survey, panel.survey.storage
    {
      StorageValid(panel.survey.storage.records) && AttemptsValid(panel.loginAttempts)
    }

    /** The admin sessions and the login counters are as they were. */
    twostate predicate PanelKept()
      reads this, panel
    {
      panel.activeSessions == old(panel.activeSessions) && panel.loginAttempts == old(panel.loginAttempts)
    }

    /** The registry and the survey log are as they were. */
    twostate predicate FilesKept()
      reads this, panel, panel.survey, panel.survey.processor
    {
      && panel.survey.processor.users == old(panel.survey.processor.users)
      && panel.survey.processor.log == old(panel.survey.processor.log)
    }

    /** The admin panel's handler: its effect, which keeps the storage and
      * the counters consistent. */
    method AdminMessage(key: Key, text: string, fault: int -> StartFault, ioFails: bool)
      requires Valid()
      modifies panel, panel.survey, panel.survey.storage, panel.survey.processor
      ensures Valid()
      ensures panel.AdminEffect(key, text, fault, ioFails)
    {
      FailLoginPreserves(panel.loginAttempts, key.user);
      BroadcastValid(panel.survey.Current(), panel.survey.processor.users, fault);
      var _ := panel.HandleAdminCommand(key, text, fault, ioFails);
    }

    /** `_start_handler`: consent is asked for again, the data kept. */
    twostate predicate StartEffect(m: Message)
      reads this, panel, panel.survey, panel.survey.storage, panel.survey.processor
    {
      && panel.survey.storage.records == old(panel.survey.storage.records)[KeyOf(m) :=
           Record(Consent, old(panel.survey.storage.Get(KeyOf(m))).data)]
      && panel.survey.activeSurveys == old(panel.survey.activeSurveys)
      && FilesKept() && PanelKept()
    }

    /** `_consent_handler`: the state is cleared, and the exact consent
      * text registers the chat unless the write fails. */
    twostate predicate ConsentEffect(m: Message, ioFails: bool)
      reads this, panel, panel.survey, panel.survey.storage, panel.survey.processor
    {
      && panel.survey.storage.records == old(panel.survey.storage.records)[KeyOf(m) := Cleared]
      && panel.survey.processor.users ==
           (if m.text == ConsentText && !ioFails
            then Some(DataProcessing.Register(if old(panel.survey.processor.users).Some?
                                              then old(panel.survey.processor.users).value else [], m.chat))
            else old(panel.survey.processor.users))
      && panel.survey.processor.log == old(panel.survey.processor.log)
      && panel.survey.activeSurveys == old(panel.survey.activeSurveys)
      && PanelKept()
    }

    /** `_survey_answer_handler`: one survey step on the stored data. */
    twostate predicate AnswerEffect(m: Message, now: int, saveFails: bool)
      reads this, panel, panel.survey, panel.survey.storage, panel.survey.processor
    {
      && RecordValid(old(panel.survey.storage.Get(KeyOf(m))))
      && old(panel.survey.storage.Get(KeyOf(m))).data.Some?
      && var out := Step(old(panel.survey.storage.Get(KeyOf(m))).data.value, m.text);
      && (!out.Completed? ==>
            && panel.survey.activeSurveys == old(panel.survey.activeSurveys)
            && panel.survey.processor.log == old(panel.survey.processor.log))
      && (out.Rejected? ==> panel.survey.storage.records == old(panel.survey.storage.records))
      && (out.Advanced? ==>
            panel.survey.storage.records ==
              old(panel.survey.storage.records)[KeyOf(m) := Record(InProgress, Some(out.next))])
      && (out.Completed? ==>
            && panel.survey.processor.log ==
                 (if saveFails then old(panel.survey.processor.log)
                  else Some(DataProcessing.Appended(old(panel.survey.processor.log),
                              DataProcessing.LogRow(out.answers, m.chat, now))))
            && panel.survey.activeSurveys == old(panel.survey.activeSurveys)[m.chat := false]
            && panel.survey.storage.records == old(panel.survey.storage.records)[KeyOf(m) := Cleared])
      && panel.survey.processor.users == old(panel.survey.processor.users)
      && PanelKept()
    }

    method StartMessage(m: Message)
      requires Valid()
      modifies panel.survey.storage
      ensures Valid() && StartEffect(m)
    {
      panel.survey.SendConsentRequest(KeyOf(m));
    }

    method ConsentMessage(m: Message, ioFails: bool)
      requires Valid()
      modifies panel.survey.storage, panel.survey.processor
      ensures Valid() && ConsentEffect(m, ioFails)
    {
      panel.survey.HandleConsent(KeyOf(m), m.text, ioFails);
    }

    method AnswerMessage(m: Message, now: int, saveFails: bool)
      requires Valid() && panel.survey.storage.Get(KeyOf(m)).state == InProgress
      modifies panel.survey, panel.survey.storage, panel.survey.processor
      ensures Valid() && AnswerEffect(m, now, saveFails)
    {
      assert KeyOf(m) in panel.survey.storage.records;
      var _ := panel.survey.HandleAnswer(KeyOf(m), m.text, now, saveFails);
    }

    /** The routed handler's work for one text message, with the new state
      * of every branch. The clock, the failures of file writes, of the
      * start messages and of the generator's output are parameters. */
    method HandleMessage(m: Message, now: int, ioFails: bool, saveFails: bool,
                         fault: int -> StartFault, output: Option<string>)
      returns (handler: Option<Handler>, reply: Option<string>)
      requires Valid()
      modifies panel, panel.survey, panel.survey.storage, panel.survey.processor
      ensures Valid()
      ensures handler == Route(m, old(panel.survey.storage.Get(KeyOf(m))).state, botName)
      ensures handler != Some(FreeDialogHandler) ==> reply == None
      ensures handler == Some(AdminHandler) ==> panel.AdminEffect(KeyOf(m), m.text, fault, ioFails)
      ensures handler == Some(StartHandler) ==> StartEffect(m)
      ensures handler == Some(ConsentHandler) ==> ConsentEffect(m, ioFails)
      ensures handler == Some(SurveyAnswerHandler) ==> AnswerEffect(m, now, saveFails)
      ensures handler == Some(FreeDialogHandler) ==>
        && reply == (if FreeDialog(old(panel.survey.storage.Get(KeyOf(m))).state,
                                   old(panel.survey.IsSurveyInProgress(m.chat))) == Silent
                     then None else Some(ChatModel.Respond(output)))
        && unchanged(panel, panel.survey, panel.survey.storage, panel.survey.processor)
      ensures handler == None ==> unchanged(panel, panel.survey, panel.survey.storage, panel.survey.processor)
    {
      var survey := panel.survey;
      var key := KeyOf(m);
      var state := survey.storage.Get(key).state;
      handler := Route(m, state, botName);
      reply := None;
      StateHandlersNeedState(m, state, botName);
      match handler
      case None =>
      case Some(AdminHandler) =>
        AdminMessage(key, m.text, fault, ioFails);
      case Some(StartHandler) =>
        StartMessage(m);
      case Some(SurveyAnswerHandler) =>
        AnswerMessage(m, now, saveFails);
      case Some(ConsentHandler) =>
        ConsentMessage(m, ioFails);
      case Some(FreeDialogHandler) =>
        if FreeDialog(state, survey.IsSurveyInProgress(m.chat)) == Generate {
          reply := Some(ChatModel.Respond(output));
        }
    }
  }
}
