# Mental-health survey bot: a Dafny model of its core

The bot talks to school students over Telegram. It asks for consent to
process their data. An administrator who authenticates with a password
can broadcast a twelve-question self-report survey to every registered
user with `/run_survey`. The bot validates each answer and appends every
completed survey to a CSV log. `/get_report`, and a job scheduled every
night at 23:00, build an anomaly report from that log. Any other text is
answered by a text generator, after its output is post-processed.

The model covers:

- the message router of `main.py`: the ordered handler registrations with
  aiogram's first-match rule, the `Command("start")` filter and the guards
  of the free-dialog handler;
- `SurveyManager` (`survey_module.py`): consent, the per-user survey state
  machine kept in the FSM storage, the answer validator over the fixed
  catalogue, completion and the broadcast `run_scheduled_survey`;
- `AdminPanel` (`admin_panel.py`): the mode dispatcher, the password check
  by digest equality, the failed-attempt counter and the session set;
- `DataProcessor` (`data_processing.py`): the user registry `users.csv`,
  the append-only `survey_data.csv`, the report's creation of a missing
  log, and `_convert_time`;
- the generator's pure text handling (`chat_model.py`): `_format_prompt`
  and `_postprocess_response`.

Modules, one per file:

- `Wrappers`: `Option`.
- `PyText` and `PyFloat`: the Python string built-ins the core relies on,
  with their edge cases (`isdigit`, `int()`, `float()`, `strip`, `split`,
  `replace`, `lower`).
- `Fsm`: aiogram's in-memory storage as a class over a map from key to
  (state, data).
- `DataProcessing`, `Questions`, `Survey`, `Admin`, `Router` and
  `ChatModel`: the core files above.
- `Bot`: `MentalHealthBot`, one call per incoming text message. It proves
  that the storage and the login counters stay consistent across every
  message.

Classes stand where the source mutates state in place:

- `FsmStorage`, `DataProcessor`, `SurveyManager`, `AdminPanel` and
  `MentalHealthBot`.
- Each method states its complete new state. The message handler states
  it branch by branch, one two-state predicate per routed handler. The
  broadcast is a `while` loop proved against the functions `StartAll` and
  `Successes`.

Pure code becomes functions with lemmas:

- the validator;
- `_convert_time`;
- the dispatch table;
- the prompt template;
- the post-processing.

Behaviour of the code that the model makes explicit:

- Three failed passwords send the "blocked for 24 hours" notice, but the
  counter is then deleted. A fourth attempt starts a fresh count
  (`Admin.ThreeStrikes`). No block is enforced.
- A successful login leaves earlier failures counted. The code never
  resets the counter on success (`Admin.AdminPanel.CheckPassword`).
- The `format` key of the time questions is never read. `7.05` is
  accepted and `25:00` is rejected, although the regular expression would
  do the opposite (`Questions.DottedTimeAccepted`,
  `Questions.LateTimeRejected`).
- The `optional` flag is never read either (`Questions.OptionalIgnored`).
- Integer answers go through `str.isdigit`, so signs and surrounding
  spaces are rejected. Leading zeros are accepted
  (`Questions.IntRejectsNonDigit`, `Questions.IntLeadingZeros`).
- The sleep duration goes through `float()`, which also reads `nan` and
  `inf`. The range check rejects both (`Questions.SleepRejectsNaN`,
  `Questions.SleepRejectsInf`).
- The marker removal is one left-to-right pass. A marker formed by a
  deletion survives (`ChatModel.SinglePass`).
- The third admin registration only checks a prefix, so
  `/exit_admin_now` reaches the panel. The panel's exact-match table then
  treats it as unknown (`Router.SuffixedCommandRefused`).
- A password typed without replying to the prompt goes to the text
  generator (`Router.UnrepliedPasswordToGenerator`).
- A broadcast start can fail after the chat is marked active but before
  the state is `IN_PROGRESS`. That chat then gets no reply to plain text
  (`Router.ActiveFlagSilences`).
- The panel ignores case and surrounding whitespace in commands, but the
  router's prefix filter does not. In `AUTHENTICATED`, " /EXIT_ADMIN" with
  a newline goes to the free-dialog handler, which stays silent for an
  admin, unless it is sent as a reply to the password prompt
  (`Router.PaddedExitNotRouted`, `Admin.CommandIgnoresCaseAndSpace`).
- `/get_report` on a missing `survey_data.csv` creates it with the eleven
  `required_columns` as header. Every survey saved afterwards is appended
  under that header, although its rows also hold the mood answer,
  `user_id` and `timestamp` (`DataProcessing.ReportHeaderMisses`).

The model follows the code throughout. Two places where its behaviour is
easy to misread:

- No code path resets the failure counter on a successful login
  (admin_panel.py:61-84).
- An integer answer must pass `str.isdigit()` before `int()` reads it, so
  a sign or surrounding whitespace, which `int()` alone would accept,
  makes the answer invalid (survey_module.py:189-191).

## Model

| member | source | states |
|---|---|---|
| Fsm.FsmStorage.constructor | main.py:37 | the in-memory storage starts with no records |
| Fsm.FsmStorage.SetState | survey_module.py:122 | `set_state` replaces the key's state, keeps its data and leaves every other key as it was |
| Fsm.FsmStorage.SetData | survey_module.py:144-148 | `set_data` replaces the key's data, keeps its state and leaves every other key as it was |
| Fsm.FsmStorage.Clear | survey_module.py:226 | `clear` resets the key to no state and empty data, leaving every other key |
| PyText.ParseIntOfDigits | survey_module.py:191 | `int()` of an ASCII digit string is its decimal value |
| PyText.StripShape | admin_panel.py:46 | `strip()` gives a slice of the text with only whitespace before and after it and no whitespace at either of its own ends |
| PyText.StripShapeUnique | admin_panel.py:46 | at most one string has that shape, so the shape determines the strip |
| PyText.StripCharacterised | admin_panel.py:46 | `strip()` returns a string exactly when that string has the shape above |
| PyText.StripPadding | admin_panel.py:46 | whitespace added at either end does not change the strip |
| PyText.LowerCharSpace | admin_panel.py:46 | lower-casing a character keeps it whitespace or not and is idempotent |
| PyText.LowerIdempotent | admin_panel.py:46 | `lower()` applied twice is `lower()` once |
| PyText.StripLower | admin_panel.py:46 | `lower()` and `strip()` commute |
| PyText.SplitJoin | data_processing.py:93 | joining the pieces of `split(sep)` with `sep` gives back the text |
| PyFloat.ParseFloatOfDigits | survey_module.py:196 | `float()` of an ASCII digit string is the finite value of that numeral |
| DataProcessing.NormaliseSeparator | data_processing.py:92 | replacing '.' and ',' by ':' turns `a<sep>b` into `a:b` for any of the three separators |
| DataProcessing.ConvertTime | data_processing.py:90-96 | definition of `_convert_time`, with `None` for NaN; the lemmas below state its values |
| DataProcessing.ConvertNumerals | data_processing.py:90-96 | two ASCII numerals joined by ':', '.' or ',' convert to 60 × hours + minutes |
| DataProcessing.ConvertClock | data_processing.py:90-96 | `str(h) + sep + str(m)` converts back to `h * 60 + m` for every h and m, with no range check |
| DataProcessing.ConvertNeedsSeparator | data_processing.py:90-96 | text with none of ':', '.', ',' is a single piece, so the conversion gives NaN |
| DataProcessing.Register | data_processing.py:14-28 | definition of the registry update; `DataProcessing.RegisterProperties` states its properties |
| DataProcessing.RegisterProperties | data_processing.py:14-28 | registering puts the id in the registry at most once and keeps earlier entries in order; registering twice is registering once; a duplicate-free registry stays duplicate-free |
| DataProcessing.Appended | data_processing.py:30-39 | a missing log is created with the row's columns as header; an existing one keeps its header and rows and gains the row at the end |
| DataProcessing.DataProcessor.constructor | data_processing.py:46 | the processor starts from the given registry and log files |
| DataProcessing.DataProcessor.UpdateUsersFile | data_processing.py:14-28 | a missing registry is created empty and the id is appended unless present; an I/O failure leaves the registry unchanged |
| DataProcessing.WithReportFile | data_processing.py:113-114 | after the report's first step a log exists, and an existing log is left exactly as it was |
| DataProcessing.ReportHeaderMisses | data_processing.py:36-39 | a log the report created keeps the eleven required columns as header when a survey row is appended, and that header names neither `user_id`, `timestamp` nor the mood column of the row |
| DataProcessing.DataProcessor.ProcessAllData | data_processing.py:111-115 | unless the write fails, the log becomes `WithReportFile` of the old one; a failure leaves it unchanged |
| DataProcessing.DataProcessor.SaveResponse | data_processing.py:30-44 | on success the log is exactly the old log with the stamped row appended; a failure is reported and leaves the log unchanged |
| Questions.ColumnsDistinct | survey_module.py:25-105 | the catalogue constant, which transcribes each question's column, type, bounds and options, has twelve questions and no two share a column name |
| Questions.Validate | survey_module.py:187-211 | definition of `_validate_answer`: `isdigit()` then the range for integers, `float()` then the range, two `int()` pieces of the text with ':' for '.' with hours below 24 and minutes below 60, exact option membership, and acceptance for any other type; the lemmas below state its verdicts |
| Questions.IntAcceptsNumeral | survey_module.py:188-192 | an integer question accepts `str(n)` exactly when `min <= n <= max` |
| Questions.IntRejectsNonDigit | survey_module.py:189-190 | an empty answer, or one with any non-ASCII-digit character, is rejected |
| Questions.IntLeadingZeros | survey_module.py:189-192 | a leading zero never changes an integer answer's verdict |
| Questions.TimeOfNumerals | survey_module.py:201-206 | `H:MM` or `H.MM` of ASCII numerals is accepted exactly when H < 24 and MM < 60 |
| Questions.DottedTimeAccepted | survey_module.py:201-206 | "7.05" is accepted although it does not match the question's `format` pattern |
| Questions.LateTimeRejected | survey_module.py:201-206 | "25:00" matches the `format` pattern but is rejected |
| Questions.ValidTimeConverts | data_processing.py:90-96 | every time accepted by the validator converts to minutes within one day |
| Questions.CategoryExact | survey_module.py:208-209 | category answers must equal an option exactly: case and spaces matter |
| Questions.TextAcceptsAll | survey_module.py:211 | the free-text question accepts every answer |
| Questions.OptionalIgnored | survey_module.py:40-47 | the optional pulse question still rejects an empty answer and out-of-range values |
| Questions.SleepAcceptsNumeral | survey_module.py:194-199 | a whole number of hours of sleep is accepted exactly up to 24 |
| Questions.SleepRejectsNaN | survey_module.py:194-199 | "nan" parses as NaN and is rejected by the range check |
| Questions.SleepRejectsInf | survey_module.py:194-199 | "inf" parses as infinity and is rejected by the range check |
| Survey.Step | survey_module.py:169-185 | definition of one answer step: rejection, advance with the answer stored, or completion on the last question; `Survey.StepCases` states its cases |
| Survey.StepCases | survey_module.py:169-185 | an answer is rejected exactly when it fails its question's validator; a valid one is stored under the question's column and either advances to the next question or completes the survey on the last one |
| Survey.StepPreserves | survey_module.py:169-185 | each step keeps the survey data consistent; a completed survey holds exactly one validated answer per column |
| Survey.RunCompletes | survey_module.py:169-185 | from any question, feeding the remaining valid answers completes the survey with all of them |
| Survey.RunSkipsRejected | survey_module.py:174-176 | a rejected answer changes nothing, so the user can simply retry |
| Survey.StepsExample | survey_module.py:26-32 | 70000 steps is out of range; 500 steps is stored and advances to question 2 |
| Survey.Targets | survey_module.py:240-242 | the broadcast targets are exactly the registered ids that are not admin ids |
| Survey.SuccessesPositive | survey_module.py:245-263 | the success count is positive exactly when some target's start did not fail |
| Survey.StartAll | survey_module.py:246-260 | definition of the broadcast loop over the targets in order, each start stopping at the fault it meets; `Survey.StartAllEffect` states its effect |
| Survey.Broadcast | survey_module.py:232-263 | definition of `run_scheduled_survey`'s effect: nothing without a registry, otherwise `StartAll` over the targets; `Survey.BroadcastValid` states what it preserves |
| Survey.StartAllEffect | survey_module.py:246-260 | after the broadcast, a target whose start succeeded is `IN_PROGRESS` at question 0 and marked active; one whose start failed at the first question has its data set and is marked active, but its state is unchanged; a start that failed at the opening message, and every other key, leave the record unchanged |
| Survey.StartAllActive | survey_module.py:246-260 | the active flag of a chat that was not started is unchanged |
| Survey.StartAllValid | survey_module.py:246-260 | the broadcast keeps every stored survey record consistent |
| Survey.BroadcastValid | survey_module.py:232-263 | a whole broadcast, with or without a registry, keeps every stored survey record consistent |
| Survey.SurveyManager.constructor | survey_module.py:21-106 | the manager starts with no active surveys |
| Survey.SurveyManager.SendConsentRequest | survey_module.py:108-126 | sets `CONSENT` for the key, keeping its data and the storage's consistency |
| Survey.SurveyManager.HandleConsent | survey_module.py:128-135 | the exact text "Согласен" registers the chat id, unless the write fails; any other text changes no file; the state is cleared either way |
| Survey.SurveyManager.StartSurvey | survey_module.py:137-150 | reports success exactly when nothing raised; the new state is the start's effect at the point where it stopped |
| Survey.SurveyManager.CompleteSurvey | survey_module.py:213-227 | the answers are appended to the log unless saving fails; the survey is then marked inactive and the state cleared in every case |
| Survey.SurveyManager.HandleAnswer | survey_module.py:169-185 | the outcome is the survey step on the stored data: a rejection changes nothing, an advance stores the next data, a completion saves and clears; storage consistency is preserved |
| Survey.SurveyManager.RunScheduledSurvey | survey_module.py:232-263 | the new state is the broadcast over the registry; the result is true exactly when a registry exists and some target's start succeeded |
| Admin.Dispatch | admin_panel.py:29-43 | definition of the branch `handle_admin_command` takes; `Admin.DispatchModes` states the modes |
| Admin.DispatchModes | admin_panel.py:29-43 | when authenticated every text is a command, `/admin` included; otherwise an `/admin…` text asks for the password, other text is checked as a password only in `AUTH_REQUESTED`, and is ignored elsewhere |
| Admin.ParseCommand | admin_panel.py:45-59 | a known command has a stripped text of eleven characters, so a command with an argument is unknown |
| Admin.CommandIgnoresCase | admin_panel.py:45-56 | lower-casing the text first never changes the command |
| Admin.CommandIgnoresPadding | admin_panel.py:45-56 | whitespace around the text never changes the command |
| Admin.CommandIgnoresCaseAndSpace | admin_panel.py:45-56 | the two lemmas above on one input: " /EXIT_ADMIN\n" exits |
| Admin.FailLogin | admin_panel.py:145-157 | definition of the lockout rule on the counters and the notice; `Admin.FailLoginPreserves` and `Admin.ThreeStrikes` state its properties |
| Admin.FailLoginPreserves | admin_panel.py:145-158 | a failure leaves other users' counters alone and keeps every counter at 1 or 2; it reports 2 or 1 attempts left, or the block exactly on the third failure, which deletes the counter |
| Admin.ThreeStrikes | admin_panel.py:145-158 | three failures give "2 left", "1 left", then the block and the original counters; a fourth starts over at "2 left" |
| Admin.DigestAccepts | admin_panel.py:61-66 | with a collision-free digest, a text is accepted exactly when it is the configured password |
| Admin.AdminPanel.constructor | admin_panel.py:20-26 | the panel starts with no sessions and no counters |
| Admin.AdminPanel.HandleWrongPassword | admin_panel.py:145-158 | the counters and the notice are exactly those of the lockout rule |
| Admin.AdminPanel.CheckPassword | admin_panel.py:61-84 | acceptance is exactly digest equality; success opens a session and authenticates, keeping the counters; failure counts the attempt and clears the state |
| Admin.AdminPanel.HandleExitAdmin | admin_panel.py:115-123 | the session ends and the state is cleared |
| Admin.AdminPanel.ProcessAuthenticated | admin_panel.py:45-59 | handled exactly for the three commands: exit ends the session, run-survey runs the broadcast, the report creates a missing log unless the write fails, and an unknown text changes no state; only the report touches the log |
| Admin.AdminPanel.HandleAdminCommand | admin_panel.py:29-43 | the result says whether the text was handled: a known command, a password request, or a correct password; the new state is that of the branch `Dispatch` picks from the state at entry: exit ends the session and clears the state, run-survey is the broadcast, a request asks for the password keeping the data, a correct password opens a session and authenticates, a wrong one counts the attempt and clears the state, ignored text changes nothing; the registry is kept, and the log changes only by the report's creation of a missing one |
| Router.IsStartCommand | main.py:70-73 | definition of the `Command("start")` filter; the lemmas below state what it accepts |
| Router.StartShape | main.py:70-73 | a start command begins, after leading whitespace, with "/s" |
| Router.StartIsNotAdminText | main.py:54-73 | no start command starts with `/admin` or an admin command |
| Router.StartAccepted | main.py:70-73 | `/start` as the first word, after any leading whitespace and before any argument, is the start command |
| Router.TokenDecides | main.py:70-73 | only the first word of the text decides whether it is the start command |
| Router.MentionChecked | main.py:70-73 | `/start@name` is the start command exactly when the name is empty or equals the bot's name ignoring case |
| Router.CapitalisedStartRefused | main.py:70-73 | the command name is case-sensitive: `/Start` is not the start command |
| Router.FirstMatch | main.py:53-86 | the chosen registration matches and no earlier one does; with no choice, none matches |
| Router.AdminRegistrations | main.py:54-68 | the three admin registrations match `/admin…` text, a reply to a message containing "пароль администратора", and an admin-command prefix in `AUTHENTICATED` |
| Router.OtherRegistrations | main.py:70-86 | the others match the start command, `IN_PROGRESS`, `CONSENT`, and any non-empty text |
| Router.Route | main.py:53-86 | no handler is chosen only for empty text outside `IN_PROGRESS` and `CONSENT` |
| Router.RouteCases | main.py:53-86 | routing is the registrations' priority cascade, ending with no handler for empty text |
| Router.AdminPrefixWins | main.py:54-57 | `/admin…` text always reaches the admin panel, whatever the state |
| Router.PasswordOnlyAsReply | main.py:59-62 | outside `AUTHENTICATED`, non-`/admin` text reaches the panel exactly when it replies to the password prompt |
| Router.PromptIsRecognised | main.py:59-62 | the panel's password prompt contains the text the router looks for in replies |
| Router.UnrepliedPasswordToGenerator | main.py:59-86 | in `AUTH_REQUESTED`, a password sent without replying to the prompt goes to the text generator |
| Router.AdminCommandsNeedAuthentication | main.py:64-68 | an admin command that is neither `/admin…` nor a reply to the prompt reaches the panel exactly when authenticated |
| Router.SuffixedCommandRefused | main.py:64-68 | `/exit_admin_now` passes the router's prefix filter but is an unknown command to the panel |
| Router.StartBeatsSurvey | main.py:54-77 | a start command that is not a reply to the password prompt reaches the start handler in every state, mid-survey and `AUTHENTICATED` included |
| Router.StateHandlersNeedState | main.py:74-81 | the survey-answer and consent handlers are reached only in their own states |
| Router.FreeDialog | main.py:113-120 | definition of the free-dialog guards: silent for an authenticated admin or an active survey; `Router.ActiveFlagSilences` states a consequence |
| Router.ActiveFlagSilences | main.py:113-120 | a chat whose broadcast start failed at the first question stays idle but is marked active, so its plain text reaches the free-dialog handler and gets no reply |
| Router.LeadingSpaceNotAdminText | main.py:54-68 | text that starts with whitespace passes none of the admin prefix filters |
| Router.UnprefixedCommandSilenced | main.py:64-68 | in `AUTHENTICATED`, text that no admin filter or the start command takes goes to the free-dialog handler, which stays silent |
| Router.PaddedExitNotRouted | main.py:64-68 | " /EXIT_ADMIN" with a newline, not sent as a reply, goes to the free-dialog handler in `AUTHENTICATED` |
| ChatModel.FormatPrompt | chat_model.py:80-87 | definition of the prompt template; the two lemmas below state its properties |
| ChatModel.FormatPromptRoundTrip | chat_model.py:80-87 | the prompt is the fixed preamble and tag, the question verbatim, and the answer tag; the question can be read back |
| ChatModel.FormatPromptInjective | chat_model.py:80-87 | distinct questions give distinct prompts |
| ChatModel.MarkerAt | chat_model.py:90 | a positive length is that of the marker the text starts with; zero means no marker starts it |
| ChatModel.RemoveMarkers | chat_model.py:90 | definition of the one-pass marker removal; the lemmas below state its properties |
| ChatModel.RemoveMarkersNoLonger | chat_model.py:90 | marker removal never lengthens the text |
| ChatModel.RemoveMarkersShrinks | chat_model.py:90 | a marker anywhere in the text makes it strictly shorter |
| ChatModel.RemoveMarkersNoop | chat_model.py:90 | text without markers is left unchanged |
| ChatModel.RemoveMarkersUnchanged | chat_model.py:90 | the text is unchanged exactly when it contains no marker |
| ChatModel.SinglePass | chat_model.py:90 | removal is a single pass: "Отв\n" with a literal backslash-n inside "Ответ:" leaves a new "Ответ:" |
| ChatModel.FirstTerminator | chat_model.py:92-94 | the result is the first index of '.', '!', '?' or '…', or none when there is none |
| ChatModel.CutAtTerminator | chat_model.py:92-94 | the cut is a prefix that ends at the first terminator and contains no earlier one; text without terminators is kept whole |
| ChatModel.Postprocess | chat_model.py:89-103 | definition of `_postprocess_response`; `ChatModel.PostprocessShape` states its shape |
| ChatModel.PostprocessShape | chat_model.py:89-103 | the reply is the hotline text when the cut text names a blacklisted word, the clarification request when it is shorter than 15, and otherwise exactly its strip, with at most one terminator, at its end |
| ChatModel.BlankNotFlagged | chat_model.py:96-98 | text of spaces names no blacklisted word |
| ChatModel.BlankReply | chat_model.py:89-103 | a blank generation of 15 or more spaces is post-processed to the empty string |
| ChatModel.Respond | chat_model.py:52-78 | definition of `generate_response` on the generator's output or its failure; `ChatModel.RespondFails` states when it apologises |
| ChatModel.RespondFails | chat_model.py:52-78 | the reply is the error apology exactly when generation raised; no model output is post-processed into it |
| Bot.MentalHealthBot.constructor | main.py:36-50 | the bot starts with empty storage, no sessions and no active surveys, in a consistent state |
| Bot.MentalHealthBot.AdminMessage | main.py:54-68 | the admin handler has the panel's effect for the text and the state at entry, including the report's creation of a missing log, and keeps the storage and the login counters consistent |
| Bot.MentalHealthBot.StartMessage | main.py:96-102 | `/start` sets `CONSENT` keeping the data, and changes nothing else |
| Bot.MentalHealthBot.ConsentMessage | main.py:110-111 | the consent handler clears the state, registers the chat for the exact consent text unless the write fails, and changes nothing else |
| Bot.MentalHealthBot.AnswerMessage | main.py:107-108 | the survey step on the stored data: a rejection keeps the record, an advance stores the next data, a completion appends the answers unless saving fails, marks the survey inactive and clears the state; nothing else changes |
| Bot.MentalHealthBot.HandleMessage | main.py:53-86 | the handler run is the one routing picks from the state at entry, and the new state is that handler's effect as stated for the four members above; only the free-dialog handler replies, with the generator's post-processed text unless the chat is authenticated or its survey is active, changing no state; with no handler nothing changes; consistency is preserved |

## Left out

- Message sends, keyboards and logging are no-ops. Telegram's refusal of an empty reply (`BlankReply`) is outside the model.
- Sends never raise in the model, except inside the broadcast's `_start_survey` (`StartFault`). A raising send would change state elsewhere too, and the model does not capture it:
  - the block notice (admin_panel.py:150) comes before the `del` (admin_panel.py:151), so a failed notice would leave a counter of 3;
  - the consent keyboard (survey_module.py:117) comes before `set_state(CONSENT)` (survey_module.py:122), so a failed send would leave the state unchanged;
  - the consent reply (survey_module.py:131) comes before `state.clear()` (survey_module.py:132), so a failed send would leave the registry updated but the state at `CONSENT`.
- The outer `except` of `run_scheduled_survey` (an unreadable `users.csv`) is left out. A registry that exists is always read successfully in the model.
- File I/O failures, the clock (`pd.Timestamp.now()`) and the generator's output are parameters. The `start_time` entry of the survey data is not modelled.
- The report itself (`process_all_data` after it creates a missing log, `_preprocess_data`, `_process_lessons`), the autoencoder, `analysis_results.csv` and the scheduler are not part of this model. The nightly job would create a missing log as `DataProcessing.DataProcessor.ProcessAllData` does, but nothing in the model calls it on a schedule.
- SHA-256 is an uninterpreted function. Only the consequence of collision-freedom is proved (`Admin.DigestAccepts`).
- The tokenizer, the model's generation and its stopping criteria are not part of this model. Truncation of the prompt to 1024 tokens is left out with them.
- Missing configuration (`ADMIN_PASSWORD`, `BOT_TOKEN`, `TZ`) is left out. The password is a constructor argument.
- Non-text messages, concurrency between chats, and the aiogram polling loop are left out. Each call handles one text message to completion.
- `active_sessions` is written but never read by the source. The model keeps it as a field and reads it nowhere.
- PyText.Lower: lower-cases ASCII and the basic Cyrillic capitals only. That covers the command table, whose entries are ASCII. It does not cover every input: Python also maps, for example, the Kelvin sign U+212A to 'k' and other scripts' capitals, which matters for the bot-name comparison of `Router.MentionChecked`.
- Questions.Validate: `str.isdigit()` and `int()` are modelled on ASCII digits only. Python's `isdigit()` and `int()` also accept other Unicode decimal digits ("٥٠٠" is 500). `isdigit()` also accepts digits such as "²", on which `int()` then raises an uncaught `ValueError`. Neither is modelled. The sleep question's `float()` is read as an exact real, so answers that Python rounds into the range, such as "24.0000000000000001" (24.0) and "-1e-400" (-0.0), are rejected by the model but accepted by the code.
- Questions.IntRejectsNonDigit: holds of the model's ASCII-only `isdigit()`; in Python an answer of non-ASCII decimal digits passes the digit test.
- PyText.ParseInt: reads ASCII digits only; underscores and non-ASCII decimal digits, which Python's `int()` accepts, are left out.
- PyFloat.ParseFloatOfDigits: values are exact reals, so the rounding of `float()` to a 64-bit double is not modelled. Underscore forms and non-ASCII digits are left out as well.
- Questions.TimeOfNumerals: `int()` also accepts surrounding spaces and a sign in each piece. The general validator models that, but this lemma is stated for plain numerals only.
- Router.MentionChecked: the bot's username is a parameter, not the result of `get_me()`.
