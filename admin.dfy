/**
 * The admin panel `AdminPanel`: a mode dispatcher over the FSM state, the
 * password check by digest equality, the failed-attempt counter, the set
 * of active admin sessions and the exact-match command table. SHA-256 is
 * an uninterpreted function `hash`; the configured password is a constant.
 */
module Admin {
  import opened Wrappers
  import opened Fsm
  import opened PyText
  import opened Survey
  import DataProcessing

  /** The password prompt; the router recognises replies to it. */
  const PasswordPrompt: string := "🔒 Введите пароль администратора:"

  /** Failed attempts that trigger the block notice. */
  const MaxAttempts: int := 3

  datatype Command = GetReport | RunSurvey | ExitAdmin | Unknown

  /** `_process_authenticated`'s table, matched on `text.strip().lower()`.
    * All three commands are eleven characters long, so a command followed
    * by an argument, or any other text whose strip has another length, is
    * unknown. */
  function ParseCommand(text: string): (r: Command)
    ensures r != Unknown ==> |Strip(text)| == 11
  {
    var c := Lower(Strip(text));
    if c == "/get_report" then GetReport
    else if c == "/run_survey" then RunSurvey
    else if c == "/exit_admin" then ExitAdmin
    else Unknown
  }

  datatype Action = AuthCommand(cmd: Command) | AskPassword | VerifyPassword | Ignore

  /** `handle_admin_command`'s branches, chosen by the FSM state and the text. */
  function Dispatch(state: State, text: string): Action {
    if state == Authenticated then AuthCommand(ParseCommand(text))
    else if StartsWith(text, "/admin") then AskPassword
    else if state == AuthRequested then VerifyPassword
    else Ignore
  }

  /** In `AUTHENTICATED` every text is a command, and `/admin` itself is an
    * unknown one; elsewhere `/admin…` always asks for the password; only
    * `AUTH_REQUESTED` treats other text as a password. */
  lemma DispatchModes(state: State, text: string)
    ensures state == Authenticated ==> Dispatch(state, text).AuthCommand?
    ensures Dispatch(Authenticated, "/admin") == AuthCommand(Unknown)
    ensures state != Authenticated && StartsWith(text, "/admin") ==> Dispatch(state, text) == AskPassword
    ensures Dispatch(state, text) == VerifyPassword <==> state == AuthRequested && !StartsWith(text, "/admin")
    ensures Dispatch(state, text) == Ignore <==>
      state != Authenticated && state != AuthRequested && !StartsWith(text, "/admin")
  {
    StripNoSpace("/admin");
  }

  /** Commands ignore case: lowering the text first changes nothing. */
  lemma CommandIgnoresCase(text: string)
    ensures ParseCommand(Lower(text)) == ParseCommand(text)
  {
    StripLower(text);
    LowerIdempotent(Strip(text));
  }

  /** Commands ignore whitespace around them. */
  lemma CommandIgnoresPadding(w1: string, text: string, w2: string)
    requires forall k | 0 <= k < |w1| :: IsSpace(w1[k])
    requires forall k | 0 <= k < |w2| :: IsSpace(w2[k])
    ensures ParseCommand(w1 + text + w2) == ParseCommand(text)
  {
    StripPadding(w1, text, w2);
  }

  lemma LowerExit(s: string)
    requires s == "/EXIT_ADMIN"
    ensures Lower(s) == "/exit_admin"
  {
    forall i | 0 <= i < |s|
      ensures Lower(s)[i] == "/exit_admin"[i]
    {
      LowerAt(s, i);
    }
  }

  lemma ExitParses(c: string)
    requires c == "/exit_admin"
    ensures ParseCommand(c) == ExitAdmin
  {
    StripNoSpace(c);
    forall i | 0 <= i < |c|
      ensures Lower(c)[i] == c[i]
    {
      LowerAt(c, i);
    }
    assert c[1] != "/get_report"[1] && c[1] != "/run_survey"[1];
  }

  /** The two lemmas above on one input: ` /EXIT_ADMIN` and a newline
    * leave the admin mode. */
  lemma CommandIgnoresCaseAndSpace(w1: string, u: string, w2: string)
    requires w1 == " " && u == "/EXIT_ADMIN" && w2 == "\n"
    ensures ParseCommand(w1 + u + w2) == ExitAdmin
  {
    calc {
      ParseCommand(w1 + u + w2);
      { CommandIgnoresPadding(w1, u, w2); }
      ParseCommand(u);
      { CommandIgnoresCase(u); }
      ParseCommand(Lower(u));
      { LowerExit(u); ExitParses(Lower(u)); }
      ExitAdmin;
    }
  }

  datatype Notice = Remaining(left: int) | Blocked

  /** `_handle_wrong_password`: a missing entry counts as 0; the third
    * failure deletes the entry and sends the block notice. */
  function FailLogin(attempts: map<int, int>, user: int): (map<int, int>, Notice) {
    var n := (if user in attempts then attempts[user] else 0) + 1;
    if n >= MaxAttempts then (attempts - {user}, Blocked)
    else (attempts[user := n], Remaining(MaxAttempts - n))
  }

  /** Between calls every stored count is 1 or 2. */
  predicate AttemptsValid(attempts: map<int, int>) {
    forall u | u in attempts :: 1 <= attempts[u] < MaxAttempts
  }

  /** A failure keeps the counts valid, touches only the failing user's entry
    * and reports 1 or 2 attempts left unless it blocks. */
  lemma FailLoginPreserves(attempts: map<int, int>, user: int)
    requires AttemptsValid(attempts)
    ensures var (m, notice) := FailLogin(attempts, user);
      && AttemptsValid(m)
      && (forall v | v != user :: (v in m <==> v in attempts) && (v in m ==> m[v] == attempts[v]))
      && (notice.Remaining? ==> notice.left in {1, 2} && user in m && m[user] == MaxAttempts - notice.left)
      && (notice.Blocked? <==> user in attempts && attempts[user] == 2)
      && (notice.Blocked? ==> user !in m)
  {
  }

  /** Three failures in a row from a clean slate block; the block only
    * deletes the counter, so a fourth failure starts counting afresh. */
  lemma ThreeStrikes(attempts: map<int, int>, user: int)
    requires user !in attempts
    ensures var (m1, n1) := FailLogin(attempts, user);
      var (m2, n2) := FailLogin(m1, user);
      var (m3, n3) := FailLogin(m2, user);
      var (m4, n4) := FailLogin(m3, user);
      && n1 == Remaining(2) && n2 == Remaining(1) && n3 == Blocked
      && m3 == attempts && n4 == Remaining(2)
  {
    var (m1, n1) := FailLogin(attempts, user);
    var (m2, n2) := FailLogin(m1, user);
    var (m3, n3) := FailLogin(m2, user);
    assert m3 == attempts;
  }

  ghost predicate Injective(hash: string -> string) {
    forall a, b :: hash(a) == hash(b) ==> a == b
  }

  /** With a collision-free digest, a password is accepted exactly when it
    * is the configured one. */
  lemma DigestAccepts(hash: string -> string, password: string, text: string)
    requires Injective(hash)
    ensures hash(text) == hash(password) <==> text == password
  {
  }

  class AdminPanel {
    const survey: SurveyManager
    const password: string
    /** SHA-256 hex digest of a string's UTF-8 encoding. */
    const hash: string -> string
    var activeSessions: set<int>
    var loginAttempts: map<int, int>

    constructor (survey: SurveyManager, password: string, hash: string -> string)
      ensures this.survey == survey && this.password == password && this.hash == hash
      ensures activeSessions == {} && loginAttempts == map[]
    {
      this.survey := survey;
      this.password := password;
      this.hash := hash;
      activeSessions := {};
      loginAttempts := map[];
    }

    /** `_handle_wrong_password` */
    method HandleWrongPassword(user: int) returns (notice: Notice)
      modifies this`loginAttempts
      ensures (loginAttempts, notice) == FailLogin(old(loginAttempts), user)
    {
      var attempts := (if user in loginAttempts then loginAttempts[user] else 0) + 1;
      loginAttempts := loginAttempts[user := attempts];
      if attempts >= MaxAttempts {
        notice := Blocked;
        loginAttempts := loginAttempts - {user};
        assert loginAttempts == old(loginAttempts) - {user};
      } else {
        notice := Remaining(MaxAttempts - attempts);
      }
    }

    /** `_check_password`: digest equality opens a session and authenticates;
      * otherwise the failure is counted and the state cleared. Earlier
      * failures are left in place by a success. */
    method CheckPassword(key: Key, text: string) returns (accepted: bool)
      modifies this`activeSessions, this`loginAttempts, survey.storage
      ensures accepted <==> hash(text) == hash(password)
      ensures accepted ==>
        && activeSessions == old(activeSessions) + {key.user}
        && loginAttempts == old(loginAttempts)
        && survey.storage.records == old(survey.storage.records)[key :=
             Record(Authenticated, old(survey.storage.Get(key)).data)]
      ensures !accepted ==>
        && activeSessions == old(activeSessions)
        && loginAttempts == FailLogin(old(loginAttempts), key.user).0
        && survey.storage.records == old(survey.storage.records)[key := Cleared]
    {
      if hash(text) == hash(password) {
        activeSessions := activeSessions + {key.user};
        survey.storage.SetState(key, Authenticated);
        accepted := true;
      } else {
        var _ := HandleWrongPassword(key.user);
        survey.storage.Clear(key);
        accepted := false;
      }
    }

    /** `_handle_exit_admin`: clears the state and ends the session, if any. */
    method HandleExitAdmin(key: Key)
      modifies this`activeSessions, survey.storage
      ensures activeSessions == old(activeSessions) - {key.user}
      ensures survey.storage.records == old(survey.storage.records)[key := Cleared]
    {
      survey.storage.Clear(key);
      activeSessions := activeSessions - {key.user};
    }

    /** `_process_authenticated`: `/get_report` runs `process_all_data`,
      * which creates a missing log before building the report outside the
      * model; `/run_survey` runs the broadcast. */
    method ProcessAuthenticated(key: Key, text: string, fault: int -> StartFault, ioFails: bool)
      returns (handled: bool)
      modifies this`activeSessions, survey`activeSurveys, survey.storage, survey.processor`log
      ensures handled <==> ParseCommand(text) != Unknown
      ensures survey.processor.log ==
        (if ParseCommand(text) == GetReport && !ioFails then DataProcessing.WithReportFile(old(survey.processor.log))
         else old(survey.processor.log))
      ensures ParseCommand(text) == ExitAdmin ==>
        && activeSessions == old(activeSessions) - {key.user}
        && survey.storage.records == old(survey.storage.records)[key := Cleared]
        && survey.activeSurveys == old(survey.activeSurveys)
      ensures ParseCommand(text) == RunSurvey ==>
        && survey.Current() == Broadcast(old(survey.Current()), survey.processor.users, fault)
        && activeSessions == old(activeSessions)
      ensures ParseCommand(text) in {GetReport, Unknown} ==>
        && survey.storage.records == old(survey.storage.records)
        && survey.activeSurveys == old(survey.activeSurveys)
        && activeSessions == old(activeSessions)
    {
      match ParseCommand(text)
      case GetReport =>
        survey.processor.ProcessAllData(ioFails);
        handled := true;
      case RunSurvey =>
        var _ := survey.RunScheduledSurvey(fault);
        handled := true;
      case ExitAdmin =>
        HandleExitAdmin(key);
        handled := true;
      case Unknown =>
        handled := false;
    }

    /** Whether `handle_admin_command` reports the message as handled, from
      * the state at entry. */
    function Handled(state: State, text: string): bool {
      match Dispatch(state, text)
      case AuthCommand(cmd) => cmd != Unknown
      case AskPassword => true
      case VerifyPassword => hash(text) == hash(password)
      case Ignore => false
    }

    /** The effect of `handle_admin_command` on the sessions, the counters,
      * the FSM storage and the active flags: that of the branch `Dispatch`
      * picks from the state at entry. */
    twostate predicate AdminEffect(key: Key, text: string, fault: int -> StartFault, ioFails: bool)
      reads this, survey, survey.storage, survey.processor
    {
      var entry := old(survey.storage.Get(key));
      var action := Dispatch(entry.state, text);
      && survey.processor.users == old(survey.processor.users)
      && survey.processor.log ==
           (if action == AuthCommand(GetReport) && !ioFails
            then DataProcessing.WithReportFile(old(survey.processor.log))
            else old(survey.processor.log))
      && (action.AuthCommand? ==>
            && loginAttempts == old(loginAttempts)
            && (action.cmd == ExitAdmin ==>
                  && activeSessions == old(activeSessions) - {key.user}
                  && survey.storage.records == old(survey.storage.records)[key := Cleared])
            && (action.cmd == RunSurvey ==>
                  && survey.Current() == Broadcast(old(survey.Current()), survey.processor.users, fault)
                  && activeSessions == old(activeSessions))
            && (action.cmd in {GetReport, Unknown} ==>
                  && survey.storage.records == old(survey.storage.records)
                  && activeSessions == old(activeSessions)))
      && (action == AskPassword ==>
            && survey.storage.records == old(survey.storage.records)[key := Record(AuthRequested, entry.data)]
            && activeSessions == old(activeSessions) && loginAttempts == old(loginAttempts))
      && (action == VerifyPassword ==>
            && (hash(text) == hash(password) ==>
                  && activeSessions == old(activeSessions) + {key.user}
                  && loginAttempts == old(loginAttempts)
                  && survey.storage.records == old(survey.storage.records)[key := Record(Authenticated, entry.data)])
            && (hash(text) != hash(password) ==>
                  && activeSessions == old(activeSessions)
                  && loginAttempts == FailLogin(old(loginAttempts), key.user).0
                  && survey.storage.records == old(survey.storage.records)[key := Cleared]))
      && (action == Ignore ==>
            && survey.storage.records == old(survey.storage.records)
            && activeSessions == old(activeSessions) && loginAttempts == old(loginAttempts))
      && (action != AuthCommand(RunSurvey) ==> survey.activeSurveys == old(survey.activeSurveys))
    }

    /** `handle_admin_command`: what happens is decided by `Dispatch` on the
      * state read at entry. */
    method HandleAdminCommand(key: Key, text: string, fault: int -> StartFault, ioFails: bool)
      returns (handled: bool)
      modifies this`activeSessions, this`loginAttempts, survey`activeSurveys, survey.storage, survey.processor`log
      ensures handled == Handled(old(survey.storage.Get(key)).state, text)
      ensures AdminEffect(key, text, fault, ioFails)
    {
      var state := survey.storage.Get(key).state;
      if state == Authenticated {
        handled := ProcessAuthenticated(key, text, fault, ioFails);
        return;
      }
      if StartsWith(text, "/admin") {
        survey.storage.SetState(key, AuthRequested);
        return true;
      }
      if survey.storage.Get(key).state == AuthRequested {
        handled := CheckPassword(key, text);
        return;
      }
      handled := false;
    }
  }
}
