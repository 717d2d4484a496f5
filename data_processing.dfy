/**
 * The data processor's bookkeeping: the registry of consenting users
 * (`users.csv`), the append-only log of completed surveys
 * (`survey_data.csv`), and the `H:MM` to minutes conversion used when
 * the report is built. Files are in-memory values; `None` is a file
 * that does not exist yet. A failing disk is a `bool` parameter.
 */
module DataProcessing {
  import opened Wrappers
  import opened PyText

  /** `_convert_time`: '.' and ',' become ':', and exactly two `int()`
    * pieces give `h * 60 + m`, with no range check; `None` stands for NaN. */
  function ConvertTime(s: string): Option<int> {
    var parts := TwoInts(NormaliseTime(s));
    if parts.Some? then Some(parts.value.0 * 60 + parts.value.1) else None
  }

  function NormaliseTime(s: string): string {
    Replace(Replace(s, '.', ':'), ',', ':')
  }

  /** Normalising the separators of `a<sep>b` with digit-only `a`, `b`. */
  lemma NormaliseSeparator(a: string, b: string, sep: char)
    requires AllDigits(a) && AllDigits(b)
    requires sep == ':' || sep == '.' || sep == ','
    ensures NormaliseTime(a + [sep] + b) == a + ":" + b
  {
    var s := a + [sep] + b;
    var t := NormaliseTime(s);
    var u := a + ":" + b;
    forall i | 0 <= i < |s|
      ensures t[i] == u[i]
    {
      ReplaceAt(s, '.', ':', i);
      ReplaceAt(Replace(s, '.', ':'), ',', ':', i);
      if i < |a| {
        assert s[i] == a[i] && IsAsciiDigit(a[i]);
      } else if i > |a| {
        assert s[i] == b[i - |a| - 1] && IsAsciiDigit(b[i - |a| - 1]);
      }
    }
  }

  /** `_convert_time` reads the two pieces of the normalised text. */
  lemma ConvertVia(s: string, t: string, h: int, m: int)
    requires NormaliseTime(s) == t && TwoInts(t) == Some((h, m))
    ensures ConvertTime(s) == Some(h * 60 + m)
  {
  }

  /** The normalised form of `a<sep>b`, named so that the proof below only
    * ever sees one concatenation at a time. */
  lemma NormalisedNumerals(a: string, b: string, sep: char) returns (t: string)
    requires IsDigitString(a) && IsDigitString(b)
    requires sep == ':' || sep == '.' || sep == ','
    ensures NormaliseTime(a + [sep] + b) == t
    ensures TwoInts(t) == Some((DigitsValue(a) as int, DigitsValue(b) as int))
  {
    NormaliseSeparator(a, b, sep);
    TwoIntsOfNumerals(a, b);
    t := a + ":" + b;
  }

  /** Two numerals separated by ':', '.' or ',' give `60 * H + M`. */
  lemma ConvertNumerals(s: string, a: string, b: string, sep: char)
    requires IsDigitString(a) && IsDigitString(b)
    requires sep == ':' || sep == '.' || sep == ','
    requires s == a + [sep] + b
    ensures ConvertTime(s) == Some(DigitsValue(a) * 60 + DigitsValue(b))
  {
    var t := NormalisedNumerals(a, b, sep);
    ConvertVia(s, t, DigitsValue(a), DigitsValue(b));
  }

  /** Any `H<sep>M` numeral pair converts to `60 * H + M`, whatever its range. */
  lemma ConvertClock(h: nat, m: nat, sep: char, s: string)
    requires sep == ':' || sep == '.' || sep == ','
    requires s == NatToDigits(h) + [sep] + NatToDigits(m)
    ensures ConvertTime(s) == Some(h * 60 + m)
  {
    var a, b := NatToDigits(h), NatToDigits(m);
    calc {
      ConvertTime(s);
      { ConvertNumerals(s, a, b, sep); }
      Some(DigitsValue(a) * 60 + DigitsValue(b));
      { DigitsRoundTrip(h); DigitsRoundTrip(m); }
      Some(h * 60 + m);
    }
  }

  /** Without any of ':', '.', ',' there is one piece only, hence NaN. */
  lemma ConvertNeedsSeparator(s: string)
    requires ':' !in s && '.' !in s && ',' !in s
    ensures ConvertTime(s) == None
  {
    forall i | 0 <= i < |s|
      ensures NormaliseTime(s)[i] == s[i]
    {
      ReplaceAt(s, '.', ':', i);
      ReplaceAt(Replace(s, '.', ':'), ',', ':', i);
    }
    assert NormaliseTime(s) == s;
    SplitNone(s, ':');
  }

  /** `_update_users_file`'s effect on the id column: an id already present
    * leaves it as is, a new id goes at the end. */
  function Register(users: seq<int>, id: int): seq<int> {
    if id in users then users else users + [id]
  }

  predicate NoDuplicates(s: seq<int>) {
    forall i, j :: 0 <= i < j < |s| ==> s[i] != s[j]
  }

  /** Registration keeps every earlier entry in place, adds `id` at most once
    * and keeps the registry free of duplicates; registering twice is
    * registering once. */
  lemma RegisterProperties(users: seq<int>, id: int)
    ensures var r := Register(users, id);
      && id in r
      && |users| <= |r| <= |users| + 1
      && r[..|users|] == users
      && (forall x :: x in r <==> x in users || x == id)
      && (NoDuplicates(users) ==> NoDuplicates(r))
      && Register(r, id) == r
  {
  }

  /** One line of `survey_data.csv`: the answers dict plus `user_id` and `timestamp`. */
  datatype LogRow = LogRow(answers: map<string, string>, userId: int, timestamp: int)

  /** The header is written once, from the columns of the first record. */
  datatype SurveyLog = SurveyLog(header: set<string>, rows: seq<LogRow>)

  function Columns(row: LogRow): set<string> {
    row.answers.Keys + {"user_id", "timestamp"}
  }

  /** `save_response`'s effect: a new file gets a header and the row; an
    * existing one gets the row appended in `mode='a'` without a header. */
  function Appended(log: Option<SurveyLog>, row: LogRow): (r: SurveyLog)
    ensures |r.rows| == (if log.Some? then |log.value.rows| else 0) + 1 && r.rows[|r.rows| - 1] == row
    ensures log.None? ==> r.header == Columns(row) && r.rows == [row]
    ensures log.Some? ==> r.header == log.value.header && r.rows[..|log.value.rows|] == log.value.rows
  {
    match log
    case None => SurveyLog(Columns(row), [row])
    case Some(l) => SurveyLog(l.header, l.rows + [row])
  }

  /** `required_columns`: the header `process_all_data` gives a log it has
    * to create. It names neither the mood column nor `user_id` and
    * `timestamp`. */
  const RequiredColumns: set<string> := {
    "Шаги", "Время активности", "Средний пульс", "Длительность сна",
    "Качество сна", "Время засыпания", "Время пробуждения",
    "Стресс", "Возраст", "Пол", "Количество уроков"
  }

  /** The first step of `process_all_data`: a missing log is created with
    * the required columns as header and no rows; an existing one is left
    * as it is. */
  function WithReportFile(log: Option<SurveyLog>): (r: Option<SurveyLog>)
    ensures r.Some? && (log.Some? ==> r == log)
  {
    if log.None? then Some(SurveyLog(RequiredColumns, [])) else log
  }

  /** Once a report has created the log, the rows `save_response` appends
    * carry `user_id` and `timestamp` columns, and the mood answer, that
    * the header never names. */
  lemma ReportHeaderMisses(row: LogRow)
    requires "Оценка настроения" in row.answers
    ensures var l := Appended(WithReportFile(None), row);
      && l.header == RequiredColumns && l.rows == [row]
      && "user_id" in Columns(row) && "user_id" !in l.header
      && "timestamp" in Columns(row) && "timestamp" !in l.header
      && "Оценка настроения" in Columns(row) && "Оценка настроения" !in l.header
  {
  }

  class DataProcessor {
    /** `users.csv`'s `user_id` column. */
    var users: Option<seq<int>>
    /** `survey_data.csv` */
    var log: Option<SurveyLog>

    constructor (users0: Option<seq<int>>, log0: Option<SurveyLog>)
      ensures users == users0 && log == log0
    {
      users, log := users0, log0;
    }

    /** `_update_users_file`: creates a missing registry empty, then appends
      * the id unless present; a failure is logged and swallowed. */
    method UpdateUsersFile(userId: int, ioFails: bool)
      modifies this`users
      ensures ioFails ==> users == old(users)
      ensures !ioFails ==> users == Some(Register(if old(users).Some? then old(users).value else [], userId))
    {
      if ioFails {
        return;
      }
      if users.None? {
        users := Some([]);
      }
      var current := users.value;
      if userId !in current {
        users := Some(current + [userId]);
      }
    }

    /** `process_all_data`, up to the report itself: a missing log is
      * created unless the write fails, which the method's `except` absorbs. */
    method ProcessAllData(ioFails: bool)
      modifies this`log
      ensures log == (if ioFails then old(log) else WithReportFile(old(log)))
    {
      if !ioFails && log.None? {
        log := Some(SurveyLog(RequiredColumns, []));
      }
    }

    /** `save_response`: appends one record stamped with `now`; a failure
      * is logged and re-raised, reported here as `ok == false`. */
    method SaveResponse(userId: int, answers: map<string, string>, now: int, ioFails: bool) returns (ok: bool)
      modifies this`log
      ensures ok == !ioFails
      ensures ok ==> log == Some(Appended(old(log), LogRow(answers, userId, now)))
      ensures !ok ==> log == old(log)
    {
      if ioFails {
        return false;
      }
      var row := LogRow(answers, userId, now);
      if log.None? {
        log := Some(SurveyLog(Columns(row), [row]));
      } else {
        log := Some(SurveyLog(log.value.header, log.value.rows + [row]));
      }
      ok := true;
    }
  }
}
