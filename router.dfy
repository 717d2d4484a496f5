/**
 * The dispatcher set up by `MentalHealthBot._register_handlers`: an ordered
 * list of (filters, handler) registrations, tried in order, the first
 * whose filters all hold handling the message; plus the guards of the
 * free-dialog handler. Only text messages are modelled.
 */
module Router {
  import opened Wrappers
  import opened Fsm
  import opened PyText
  import Admin
  import Survey

  /** A text message; `replyTo` is the text of the message it replies to. */
  datatype Message = Message(chat: int, user: int, text: string, replyTo: Option<string>)

  datatype Handler = AdminHandler | StartHandler | SurveyAnswerHandler | ConsentHandler | FreeDialogHandler

  datatype Filter =
    | TextStartsWith(prefixes: seq<string>)   // `F.text.startswith(...)`
    | ReplyContains(needle: string)            // `F.reply_to_message.text.contains(...)`
    | InState(state: State)                    // a state filter
    | StartCommand                             // `Command("start")`
    | PlainText                                // `F.text & ~F.command`

  datatype Registration = Registration(filters: seq<Filter>, handler: Handler)

  const PasswordNeedle: string := "пароль администратора"
  const AdminCommands: seq<string> := ["/get_report", "/run_survey", "/exit_admin"]

  const Registrations: seq<Registration> := [
    Registration([TextStartsWith(["/admin"])], AdminHandler),
    Registration([ReplyContains(PasswordNeedle)], AdminHandler),
    Registration([TextStartsWith(AdminCommands), InState(Authenticated)], AdminHandler),
    Registration([StartCommand], StartHandler),
    Registration([InState(InProgress)], SurveyAnswerHandler),
    Registration([InState(Consent)], ConsentHandler),
    Registration([PlainText], FreeDialogHandler)
  ]

  // ------------------------------------------------------ Command("start")

  /** The characters up to the first whitespace. */
  function TakeToken(s: string): (t: string)
    ensures |t| <= |s| && t == s[..|t|]
  {
    if s == [] || IsSpace(s[0]) then [] else [s[0]] + TakeToken(s[1..])
  }

  /** The token is the run of characters before the first whitespace. */
  lemma {:induction false} TakeTokenUpTo(s: string, i: nat)
    requires i <= |s| && (i == |s| || IsSpace(s[i]))
    requires forall k | 0 <= k < i :: !IsSpace(s[k])
    ensures TakeToken(s) == s[..i]
  {
    if i > 0 {
      TakeTokenUpTo(s[1..], i - 1);
      assert [s[0]] + s[1..][..i - 1] == s[..i];
    }
  }

  /** `text.split(maxsplit=1)[0]`, or `None` when there is no token. */
  function FirstToken(text: string): Option<string> {
    var t := TakeToken(LStrip(text));
    if t == [] then None else Some(t)
  }

  /** `s.partition("@")`: before and after the first '@' ("" when absent). */
  function Partition(s: string): (r: (string, string))
    ensures |r.0| <= |s| && r.0 == s[..|r.0|]
  {
    if s == [] then ([], [])
    else if s[0] == '@' then ([], s[1..])
    else var (a, b) := Partition(s[1..]); ([s[0]] + a, b)
  }

  /** Partition splits at the first '@'. */
  lemma {:induction false} PartitionAt(s: string, i: nat)
    requires i <= |s| && (i < |s| ==> s[i] == '@')
    requires forall k | 0 <= k < i :: s[k] != '@'
    ensures Partition(s) == (s[..i], if i < |s| then s[i + 1..] else [])
  {
    if i > 0 {
      PartitionAt(s[1..], i - 1);
      assert [s[0]] + s[1..][..i - 1] == s[..i];
      if i < |s| {
        assert s[1..][i..] == s[i + 1..];
      }
    }
  }

  /** `Command("start")`: the first token is "/start", optionally followed
    * by "@" and a mention that must name this bot, ignoring case. */
  predicate IsStartCommand(text: string, botName: string) {
    match FirstToken(text)
    case None => false
    case Some(tok) =>
      && tok[0] == '/'
      && var (command, mention) := Partition(tok[1..]);
      && command == "start"
      && (mention == [] || Lower(mention) == Lower(botName))
  }

  lemma {:induction false} LStripSpaces(ws: string, t: string)
    requires forall k | 0 <= k < |ws| :: IsSpace(ws[k])
    requires t == [] || !IsSpace(t[0])
    ensures LStrip(ws + t) == t
  {
    if ws != [] {
      assert (ws + t)[1..] == ws[1..] + t;
      LStripSpaces(ws[1..], t);
    }
  }

  /** The first token of `ws + tok + rest`, for leading whitespace `ws`, a
    * token without whitespace and a rest that is empty or starts with it. */
  lemma FirstTokenOf(ws: string, tok: string, rest: string)
    requires forall k | 0 <= k < |ws| :: IsSpace(ws[k])
    requires tok != [] && forall k | 0 <= k < |tok| :: !IsSpace(tok[k])
    requires rest == [] || IsSpace(rest[0])
    ensures FirstToken(ws + tok + rest) == Some(tok)
  {
    assert ws + tok + rest == ws + (tok + rest);
    LStripSpaces(ws, tok + rest);
    TakeTokenUpTo(tok + rest, |tok|);
    assert (tok + rest)[..|tok|] == tok;
  }

  /** A "/start" token counts wherever the whitespace around it is. */
  lemma StartAccepted(ws: string, rest: string, botName: string)
    requires forall k | 0 <= k < |ws| :: IsSpace(ws[k])
    requires rest == [] || IsSpace(rest[0])
    ensures IsStartCommand(ws + "/start" + rest, botName)
  {
    FirstTokenOf(ws, "/start", rest);
    PartitionAt("start", 5);
  }

  /** Only the token decides: surrounding whitespace and text are ignored. */
  lemma TokenDecides(ws: string, tok: string, rest: string, botName: string)
    requires forall k | 0 <= k < |ws| :: IsSpace(ws[k])
    requires tok != [] && forall k | 0 <= k < |tok| :: !IsSpace(tok[k])
    requires rest == [] || IsSpace(rest[0])
    ensures IsStartCommand(ws + tok + rest, botName) <==> IsStartCommand(tok, botName)
  {
    FirstTokenOf(ws, tok, rest);
    FirstTokenOf([], tok, []);
    assert [] + tok + [] == tok;
  }

  lemma MentionNoSpace(mention: string)
    requires forall k | 0 <= k < |mention| :: !IsSpace(mention[k])
    ensures var tok := "/start@" + mention; forall k | 0 <= k < |tok| :: !IsSpace(tok[k])
  {
    var tok := "/start@" + mention;
    forall k | 0 <= k < |tok|
      ensures !IsSpace(tok[k])
    {
      if k >= 7 {
        assert tok[k] == mention[k - 7];
      }
    }
  }

  /** The command and the mention of "/start@name". */
  lemma MentionParts(tok: string, mention: string)
    requires tok == "/start@" + mention
    ensures tok[0] == '/' && Partition(tok[1..]) == ("start", mention)
  {
    assert tok[1..] == "start@" + mention;
    PartitionAt(tok[1..], 5);
    assert tok[1..][..5] == "start";
    assert tok[1..][6..] == mention;
  }

  lemma MentionToken(tok: string, mention: string, botName: string)
    requires tok == "/start@" + mention
    requires forall k | 0 <= k < |tok| :: !IsSpace(tok[k])
    ensures IsStartCommand(tok, botName) <==> mention == [] || Lower(mention) == Lower(botName)
  {
    FirstTokenOf([], tok, []);
    assert [] + tok + [] == tok;
    MentionParts(tok, mention);
  }

  /** With a mention, "/start@name" counts exactly when the mention is empty
    * or names this bot, ignoring case. */
  lemma MentionChecked(ws: string, mention: string, rest: string, botName: string)
    requires forall k | 0 <= k < |ws| :: IsSpace(ws[k])
    requires forall k | 0 <= k < |mention| :: !IsSpace(mention[k])
    requires rest == [] || IsSpace(rest[0])
    ensures IsStartCommand(ws + ("/start@" + mention) + rest, botName) <==>
      mention == [] || Lower(mention) == Lower(botName)
  {
    MentionNoSpace(mention);
    MentionToken("/start@" + mention, mention, botName);
    TokenDecides(ws, "/start@" + mention, rest, botName);
  }

  /** The command is compared with its case. */
  lemma CapitalisedStartRefused(botName: string)
    ensures !IsStartCommand("/Start", botName)
  {
    FirstTokenOf([], "/Start", []);
    assert [] + "/Start" + [] == "/Start";
    PartitionAt("Start", 5);
    assert "Start"[0] != "start"[0];
  }

  // -------------------------------------------------------------- dispatch

  predicate AnyPrefix(text: string, prefixes: seq<string>) {
    exists p | p in prefixes :: StartsWith(text, p)
  }

  predicate Holds(f: Filter, m: Message, state: State, botName: string) {
    match f
    case TextStartsWith(prefixes) => AnyPrefix(m.text, prefixes)
    case ReplyContains(needle) => m.replyTo.Some? && Contains(m.replyTo.value, needle)
    case InState(s) => state == s
    case StartCommand => IsStartCommand(m.text, botName)
    case PlainText => m.text != []
  }

  predicate Matches(r: Registration, m: Message, state: State, botName: string) {
    forall f | f in r.filters :: Holds(f, m, state, botName)
  }

  /** aiogram's observer: the index of the first registration that matches. */
  function FirstMatch(regs: seq<Registration>, m: Message, state: State, botName: string): (r: Option<nat>)
    ensures r.Some? ==>
      && r.value < |regs| && Matches(regs[r.value], m, state, botName)
      && forall j | 0 <= j < r.value :: !Matches(regs[j], m, state, botName)
    ensures r.None? ==> forall j | 0 <= j < |regs| :: !Matches(regs[j], m, state, botName)
  {
    if regs == [] then None
    else if Matches(regs[0], m, state, botName) then Some(0)
    else
      match FirstMatch(regs[1..], m, state, botName)
      case Some(i) => Some(i + 1)
      case None => None
  }

  /** The handler that receives the message, if any. */
  function Route(m: Message, state: State, botName: string): (r: Option<Handler>)
    ensures r.None? ==> m.text == [] && state != InProgress && state != Consent
  {
    OtherRegistrations(m, state, botName);
    match FirstMatch(Registrations, m, state, botName)
    case Some(i) => Some(Registrations[i].handler)
    case None => None
  }

  lemma MatchesOne(r: Registration, m: Message, state: State, botName: string)
    requires |r.filters| == 1
    ensures Matches(r, m, state, botName) <==> Holds(r.filters[0], m, state, botName)
  {
    assert r.filters[0] in r.filters;
  }

  /** What the three admin registrations' filters ask of a message. */
  lemma AdminRegistrations(m: Message, state: State, botName: string)
    ensures |Registrations| == 7
    ensures Matches(Registrations[0], m, state, botName) <==> StartsWith(m.text, "/admin")
    ensures Matches(Registrations[1], m, state, botName) <==>
      m.replyTo.Some? && Contains(m.replyTo.value, PasswordNeedle)
    ensures Matches(Registrations[2], m, state, botName) <==>
      AnyPrefix(m.text, AdminCommands) && state == Authenticated
  {
    var admin := Registrations[0].filters;
    assert admin == [TextStartsWith(["/admin"])];
    assert Holds(admin[0], m, state, botName) <==> StartsWith(m.text, "/admin") by {
      assert "/admin" in ["/admin"];
    }
    MatchesOne(Registrations[0], m, state, botName);
    assert Registrations[1].filters == [ReplyContains(PasswordNeedle)];
    MatchesOne(Registrations[1], m, state, botName);
    var auth := Registrations[2].filters;
    assert auth == [TextStartsWith(AdminCommands), InState(Authenticated)];
    assert Matches(Registrations[2], m, state, botName) <==>
      Holds(auth[0], m, state, botName) && Holds(auth[1], m, state, botName);
  }

  /** What the other four registrations' filters ask of a message. */
  lemma OtherRegistrations(m: Message, state: State, botName: string)
    ensures |Registrations| == 7
    ensures Matches(Registrations[3], m, state, botName) <==> IsStartCommand(m.text, botName)
    ensures Matches(Registrations[4], m, state, botName) <==> state == InProgress
    ensures Matches(Registrations[5], m, state, botName) <==> state == Consent
    ensures Matches(Registrations[6], m, state, botName) <==> m.text != []
  {
    assert Registrations[3].filters == [StartCommand];
    MatchesOne(Registrations[3], m, state, botName);
    assert Registrations[4].filters == [InState(InProgress)];
    MatchesOne(Registrations[4], m, state, botName);
    assert Registrations[5].filters == [InState(Consent)];
    MatchesOne(Registrations[5], m, state, botName);
    assert Registrations[6].filters == [PlainText];
    MatchesOne(Registrations[6], m, state, botName);
  }

  /** The router as the cascade of `_register_handlers`, in order. */
  lemma RouteCases(m: Message, state: State, botName: string)
    ensures Route(m, state, botName) ==
      if StartsWith(m.text, "/admin") then Some(AdminHandler)
      else if m.replyTo.Some? && Contains(m.replyTo.value, PasswordNeedle) then Some(AdminHandler)
      else if AnyPrefix(m.text, AdminCommands) && state == Authenticated then Some(AdminHandler)
      else if IsStartCommand(m.text, botName) then Some(StartHandler)
      else if state == InProgress then Some(SurveyAnswerHandler)
      else if state == Consent then Some(ConsentHandler)
      else if m.text != [] then Some(FreeDialogHandler)
      else None
  {
    AdminRegistrations(m, state, botName);
    OtherRegistrations(m, state, botName);
    var r := FirstMatch(Registrations, m, state, botName);
    if r.Some? {
      var i := r.value;
      assert i < 7;
      assert forall j | 0 <= j < i :: !Matches(Registrations[j], m, state, botName);
      if i >= 1 { assert !Matches(Registrations[0], m, state, botName); }
      if i >= 2 { assert !Matches(Registrations[1], m, state, botName); }
      if i >= 3 { assert !Matches(Registrations[2], m, state, botName); }
      if i >= 4 { assert !Matches(Registrations[3], m, state, botName); }
      if i >= 5 { assert !Matches(Registrations[4], m, state, botName); }
      if i >= 6 { assert !Matches(Registrations[5], m, state, botName); }
    } else {
      assert forall j | 0 <= j < 7 :: !Matches(Registrations[j], m, state, botName);
    }
  }

  /** Text starting with `/admin` reaches the admin panel in every state,
    * mid-survey included. */
  lemma AdminPrefixWins(m: Message, state: State, botName: string)
    requires StartsWith(m.text, "/admin")
    ensures Route(m, state, botName) == Some(AdminHandler)
  {
    RouteCases(m, state, botName);
  }

  /** Outside `AUTHENTICATED` and the `/admin` prefix, the admin panel sees
    * a message exactly when it replies to the password prompt. */
  lemma PasswordOnlyAsReply(m: Message, state: State, botName: string)
    requires !StartsWith(m.text, "/admin") && state != Authenticated
    ensures Route(m, state, botName) == Some(AdminHandler) <==>
      m.replyTo.Some? && Contains(m.replyTo.value, PasswordNeedle)
  {
    RouteCases(m, state, botName);
  }

  /** The prompt the panel sends is recognised when replied to. */
  lemma PromptIsRecognised()
    ensures Contains(Admin.PasswordPrompt, PasswordNeedle)
  {
    var head := "🔒 Введите ";
    assert Admin.PasswordPrompt == head + PasswordNeedle + ":";
    assert (head + PasswordNeedle + ":")[|head|..|head| + |PasswordNeedle|] == PasswordNeedle;
    assert OccursAt(Admin.PasswordPrompt, PasswordNeedle, |head|);
  }

  /** A password typed without replying, while the panel waits for it, goes
    * to the text generator (unless it looks like `/start`). */
  lemma UnrepliedPasswordToGenerator(m: Message, botName: string)
    requires m.text != [] && !StartsWith(m.text, "/admin") && m.replyTo.None?
    requires !IsStartCommand(m.text, botName)
    ensures Route(m, AuthRequested, botName) == Some(FreeDialogHandler)
  {
    RouteCases(m, AuthRequested, botName);
  }

  /** Admin command prefixes reach the panel only in `AUTHENTICATED`. */
  lemma AdminCommandsNeedAuthentication(m: Message, state: State, botName: string)
    requires AnyPrefix(m.text, AdminCommands) && !StartsWith(m.text, "/admin")
    requires !(m.replyTo.Some? && Contains(m.replyTo.value, PasswordNeedle))
    ensures Route(m, state, botName) == Some(AdminHandler) <==> state == Authenticated
  {
    RouteCases(m, state, botName);
  }

  /** The router tests prefixes while the panel matches whole commands, so
    * a command with a suffix is routed to the panel and then refused. */
  lemma SuffixedCommandRefused()
    ensures AnyPrefix("/exit_admin_now", AdminCommands)
    ensures Admin.ParseCommand("/exit_admin_now") == Admin.Unknown
  {
    assert StartsWith("/exit_admin_now", AdminCommands[2]);
    StripNoSpace("/exit_admin_now");
  }

  /** A text that passes `Command("start")` begins, after its leading
    * whitespace, with "/s". */
  lemma StartShape(text: string, botName: string)
    requires IsStartCommand(text, botName)
    ensures |LStrip(text)| >= 2 && LStrip(text)[0] == '/' && LStrip(text)[1] == 's'
  {
    var tok := FirstToken(text).value;
    var (command, mention) := Partition(tok[1..]);
    assert command == "start" && command == tok[1..][..5];
    assert tok == LStrip(text)[..|tok|];
  }

  /** No `/start` command also starts with `/admin` or an admin command,
    * so the earlier admin registrations never take it. */
  lemma StartIsNotAdminText(text: string, botName: string)
    requires IsStartCommand(text, botName)
    ensures !StartsWith(text, "/admin") && !AnyPrefix(text, AdminCommands)
  {
    StartShape(text, botName);
    if text != [] && text[0] == '/' {
      assert LStrip(text) == text;
      assert text[1] == 's';
      forall p | p in ["/admin"] + AdminCommands
        ensures !StartsWith(text, p)
      {
        assert p[1] != 's';
        assert |p| >= 2;
      }
      assert "/admin" in ["/admin"] + AdminCommands;
    }
  }

  /** `/start` is matched before the survey and consent handlers, so it
    * asks for consent again in every state, mid-survey and in the admin
    * mode included; only a reply to the password prompt goes first. */
  lemma StartBeatsSurvey(m: Message, state: State, botName: string)
    requires IsStartCommand(m.text, botName)
    requires !(m.replyTo.Some? && Contains(m.replyTo.value, PasswordNeedle))
    ensures Route(m, state, botName) == Some(StartHandler)
  {
    StartIsNotAdminText(m.text, botName);
    RouteCases(m, state, botName);
  }

  /** A text that starts with whitespace starts with no admin prefix. */
  lemma LeadingSpaceNotAdminText(text: string)
    requires text != [] && IsSpace(text[0])
    ensures !StartsWith(text, "/admin") && !AnyPrefix(text, AdminCommands)
  {
    forall p | p in ["/admin"] + AdminCommands
      ensures !StartsWith(text, p)
    {
      assert p[0] == '/';
    }
    assert "/admin" in ["/admin"] + AdminCommands;
  }

  /** In `AUTHENTICATED`, text that is not a reply to the prompt and whose
    * first characters are not an admin command goes to the free-dialog
    * handler, which stays silent for an authenticated admin. */
  lemma UnprefixedCommandSilenced(m: Message, surveyActive: bool, botName: string)
    requires m.text != [] && !StartsWith(m.text, "/admin") && !AnyPrefix(m.text, AdminCommands)
    requires !(m.replyTo.Some? && Contains(m.replyTo.value, PasswordNeedle))
    requires !IsStartCommand(m.text, botName)
    ensures Route(m, Authenticated, botName) == Some(FreeDialogHandler)
    ensures FreeDialog(Authenticated, surveyActive) == Silent
  {
    RouteCases(m, Authenticated, botName);
  }

  /** The panel ignores case and whitespace, but the router does not: the
    * exit command with a leading space and a newline, not sent as a reply,
    * never reaches the panel in `AUTHENTICATED`. */
  lemma PaddedExitNotRouted(ws: string, u: string, nl: string, chat: int, user: int, botName: string)
    requires ws == " " && u == "/EXIT_ADMIN" && nl == "\n"
    ensures Route(Message(chat, user, ws + u + nl, None), Authenticated, botName) == Some(FreeDialogHandler)
  {
    var text := ws + u + nl;
    assert text[0] == ' ';
    LeadingSpaceNotAdminText(text);
    assert forall k | 0 <= k < |u| :: !IsSpace(u[k]);
    TokenDecides(ws, u, nl, botName);
    FirstTokenOf([], u, []);
    assert [] + u + [] == u;
    if IsStartCommand(u, botName) {
      StartShape(u, botName);
      assert false;
    }
    UnprefixedCommandSilenced(Message(chat, user, text, None), false, botName);
  }

  /** The survey handler is only ever reached in `IN_PROGRESS`, and the
    * consent handler only in `CONSENT`. */
  lemma StateHandlersNeedState(m: Message, state: State, botName: string)
    ensures Route(m, state, botName) == Some(SurveyAnswerHandler) ==> state == InProgress
    ensures Route(m, state, botName) == Some(ConsentHandler) ==> state == Consent
  {
    RouteCases(m, state, botName);
  }

  // ----------------------------------------------------------- free dialog

  datatype Reply = Silent | Generate

  /** `_free_dialog_handler`'s guards: no reply to an authenticated admin,
    * nor while `active_surveys` marks the chat's survey as running. */
  function FreeDialog(state: State, surveyActive: bool): (r: Reply) {
    if state == Authenticated then Silent
    else if surveyActive then Silent
    else Generate
  }

  /** A chat whose start failed at the first question during a broadcast is
    * left idle but marked active, so its plain text reaches the
    * free-dialog handler, which stays silent until a survey completes for
    * it. */
  lemma ActiveFlagSilences(w: Survey.World, ids: seq<int>, fault: int -> Survey.StartFault,
                           m: Message, botName: string)
    requires m.chat == m.user && m.chat in ids && fault(m.chat).FailAtQuestion?
    requires Lookup(w.records, Key(m.chat, m.user)).state == Idle
    requires m.text != [] && !StartsWith(m.text, "/admin") && m.replyTo.None?
    requires !IsStartCommand(m.text, botName)
    ensures var r := Survey.StartAll(w, ids, fault); var state := Lookup(r.records, Key(m.chat, m.user)).state;
      && state == Idle
      && Route(m, state, botName) == Some(FreeDialogHandler)
      && FreeDialog(state, m.chat in r.active && r.active[m.chat]) == Silent
  {
    Survey.StartAllEffect(w, ids, fault, Key(m.chat, m.user));
    RouteCases(m, Idle, botName);
  }
}
