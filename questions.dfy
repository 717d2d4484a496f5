/**
 * The daily survey's fixed catalogue of twelve questions and the per-type
 * answer validator `_validate_answer`.
 */
module Questions {
  import opened Wrappers
  import opened PyText
  import opened PyFloat
  import DataProcessing

  /** The `type` of a question together with the keys that type reads. */
  datatype Kind =
    | IntKind(min: int, max: int)
    | FloatKind(lo: real, hi: real)
    | TimeKind(format: string)
    | CategoryKind(options: seq<string>)
    | TextKind

  datatype Question = Question(prompt: string, column: string, kind: Kind, optional: bool)

  const ClockFormat: string := @"^\d{1,2}:\d{2}$"

  const Catalogue: seq<Question> := [
    Question("Сколько Вы сделали сегодня шагов?", "Шаги", IntKind(0, 50000), false),
    Question("Сколько времени Вы уделили занятиям физической активностью? (в минутах)",
      "Время активности", IntKind(0, 1440), false),
    Question("Если носите smart-часы, какой средний пульс за день?", "Средний пульс", IntKind(40, 200), true),
    Question("Сколько часов Вы спали прошлой ночью?", "Длительность сна", FloatKind(0.0, 24.0), false),
    Question("Как Вы оцениваете качество своего сна?", "Качество сна",
      CategoryKind(["Отлично", "Хорошо", "Удовлетворительно", "Плохо"]), false),
    Question("Во сколько Вы уснули этой ночью? (ЧЧ:ММ)", "Время засыпания", TimeKind(ClockFormat), false),
    Question("Во сколько Вы сегодня проснулись? (ЧЧ:ММ)", "Время пробуждения", TimeKind(ClockFormat), false),
    Question("Оцените свое настроение от 1 до 10", "Оценка настроения", IntKind(1, 10), false),
    Question("Были сегодня стрессовые события? Если были, опишите", "Стресс", TextKind, false),
    Question("Сколько Вам полных лет?", "Возраст", IntKind(7, 25), false),
    Question("Ваш пол?", "Пол", CategoryKind(["Мужской", "Женский"]), false),
    Question("Тяжёлый день? Сколько было уроков?", "Количество уроков", IntKind(0, 12), false)
  ]

  /** No two questions share a column, so stored answers never overwrite each other. */
  lemma ColumnsDistinct()
    ensures |Catalogue| == 12
    ensures forall i, j :: 0 <= i < j < |Catalogue| ==> Catalogue[i].column != Catalogue[j].column
  {
  }

  /** A `time` answer: '.' becomes ':', then exactly two `int()` pieces. */
  predicate TimeAccepts(answer: string) {
    var parts := TwoInts(Replace(answer, '.', ':'));
    parts.Some? && 0 <= parts.value.0 < 24 && 0 <= parts.value.1 < 60
  }

  /** `min <= float(answer) <= max` with IEEE comparisons: NaN and the
    * infinities compare false against finite bounds. */
  predicate FloatAccepts(lo: real, hi: real, answer: string) {
    match ParseFloat(answer)
    case Some(Finite(v)) => lo <= v <= hi
    case _ => false
  }

  /** `_validate_answer`; the `optional` flag and the `format` key are not read. */
  predicate Validate(q: Question, answer: string) {
    match q.kind
    case IntKind(lo, hi) => IsDigitString(answer) && lo <= DigitsValue(answer) <= hi
    case FloatKind(lo, hi) => FloatAccepts(lo, hi, answer)
    case TimeKind(_) => TimeAccepts(answer)
    case CategoryKind(options) => answer in options
    case TextKind => true
  }

  // ---------------------------------------------------------------- int

  /** The numeral `str(n)` is accepted exactly when `n` is in range. */
  lemma IntAcceptsNumeral(q: Question, n: nat)
    requires q.kind.IntKind?
    ensures Validate(q, NatToDigits(n)) <==> q.kind.min <= n <= q.kind.max
  {
    DigitsRoundTrip(n);
  }

  /** Empty answers, signs, spaces and any other non-digit are rejected. */
  lemma IntRejectsNonDigit(q: Question, answer: string)
    requires q.kind.IntKind?
    requires answer == [] || exists i | 0 <= i < |answer| :: !IsAsciiDigit(answer[i])
    ensures !Validate(q, answer)
  {
  }

  /** Leading zeros are accepted and read as the same value. */
  lemma IntLeadingZeros(q: Question, answer: string)
    requires q.kind.IntKind? && IsDigitString(answer)
    ensures Validate(q, "0" + answer) == Validate(q, answer)
  {
    LeadingZero(answer);
  }

  // ---------------------------------------------------------------- time

  /** `^\d{1,2}:\d{2}$` with ASCII digits (`$` also matches before a final newline). */
  predicate ClockShape(s: string) {
    || (|s| == 4 && IsAsciiDigit(s[0]) && s[1] == ':' && IsAsciiDigit(s[2]) && IsAsciiDigit(s[3]))
    || (|s| == 5 && IsAsciiDigit(s[0]) && IsAsciiDigit(s[1]) && s[2] == ':'
        && IsAsciiDigit(s[3]) && IsAsciiDigit(s[4]))
  }

  predicate MatchesFormat(s: string) {
    ClockShape(s) || (|s| > 0 && s[|s| - 1] == '\n' && ClockShape(s[..|s| - 1]))
  }

  /** The form `a<sep>b` of two numerals after '.' becomes ':', named so the
    * callers see one concatenation at a time. */
  lemma DottedNumerals(a: string, b: string, sep: char) returns (t: string)
    requires IsDigitString(a) && IsDigitString(b) && (sep == ':' || sep == '.')
    ensures Replace(a + [sep] + b, '.', ':') == t
    ensures TwoInts(t) == Some((DigitsValue(a) as int, DigitsValue(b) as int))
  {
    var s := a + [sep] + b;
    t := a + ":" + b;
    forall i | 0 <= i < |s|
      ensures Replace(s, '.', ':')[i] == t[i]
    {
      ReplaceAt(s, '.', ':', i);
      if i < |a| {
        assert s[i] == a[i] && IsAsciiDigit(a[i]);
      } else if i > |a| {
        assert s[i] == b[i - |a| - 1] && IsAsciiDigit(b[i - |a| - 1]);
      }
    }
    TwoIntsOfNumerals(a, b);
  }

  lemma TimeVia(s: string, t: string, h: int, m: int)
    requires Replace(s, '.', ':') == t && TwoInts(t) == Some((h, m))
    ensures TimeAccepts(s) <==> 0 <= h < 24 && 0 <= m < 60
  {
  }

  /** Two numerals around ':' or '.' are accepted exactly when they read
    * as an hour below 24 and a minute below 60, however many digits. */
  lemma TimeOfNumerals(a: string, b: string, sep: char)
    requires IsDigitString(a) && IsDigitString(b) && (sep == ':' || sep == '.')
    ensures TimeAccepts(a + [sep] + b) <==> DigitsValue(a) < 24 && DigitsValue(b) < 60
  {
    var t := DottedNumerals(a, b, sep);
    TimeVia(a + [sep] + b, t, DigitsValue(a), DigitsValue(b));
  }

  /** The catalogue's format string plays no part: "7.05" is accepted
    * though it does not match it... */
  lemma DottedTimeAccepted(s: string)
    requires s == "7.05"
    ensures Catalogue[5].kind == TimeKind(ClockFormat)
    ensures Validate(Catalogue[5], s) && !MatchesFormat(s)
  {
    TimeOfNumerals("7", "05", '.');
    assert s == "7" + ['.'] + "05";
    assert s[1] != ':' && s[2] != ':';
  }

  /** ...and "25:00" matches it but is rejected. */
  lemma LateTimeRejected(s: string)
    requires s == "25:00"
    ensures MatchesFormat(s) && !Validate(Catalogue[5], s)
  {
    TimeOfNumerals("25", "00", ':');
    assert s == "25" + [':'] + "00";
    assert ClockShape(s);
  }

  /** Text that reads as two integers around ':' holds no ','. */
  lemma TwoIntsNoComma(u: string)
    requires TwoInts(u).Some?
    ensures ',' !in u
  {
    var parts := Split(u, ':');
    ParseIntChars(parts[0]);
    ParseIntChars(parts[1]);
    SplitJoin(u, ':');
    assert u == parts[0] + [':'] + parts[1] by {
      assert parts[1..] == [parts[1]];
    }
  }

  /** Every time the survey accepts is one the report can convert, and it
    * falls within one day: the validator's pieces contain no ',', so the
    * report's extra ',' rule never applies. */
  lemma ValidTimeConverts(s: string)
    requires TimeAccepts(s)
    ensures var v := DataProcessing.ConvertTime(s); v.Some? && 0 <= v.value < 24 * 60
  {
    var u := Replace(s, '.', ':');
    TwoIntsNoComma(u);
    ReplaceAbsent(u, ',', ':');
    var hm := TwoInts(u).value;
    DataProcessing.ConvertVia(s, u, hm.0, hm.1);
  }

  // ---------------------------------------------------------- other kinds

  /** A category answer must match an option exactly: case and surrounding
    * spaces count. */
  lemma CategoryExact()
    ensures Validate(Catalogue[4], "Отлично")
    ensures !Validate(Catalogue[4], "отлично") && !Validate(Catalogue[4], " Отлично")
    ensures Validate(Catalogue[10], "Женский") && !Validate(Catalogue[10], "женский")
  {
  }

  /** A `text` question accepts anything, the empty string included. */
  lemma TextAcceptsAll(s: string)
    ensures Validate(Catalogue[8], s)
  {
  }

  /** The pulse question is marked optional, yet an empty or skipping
    * answer is rejected like on any other `int` question. */
  lemma OptionalIgnored()
    ensures Catalogue[2].optional
    ensures !Validate(Catalogue[2], "") && !Validate(Catalogue[2], "-")
    ensures !Validate(Catalogue[2], "0") && Validate(Catalogue[2], "60")
  {
    assert !IsAsciiDigit("-"[0]);
    IntRejectsNonDigit(Catalogue[2], "-");
    IntAcceptsNumeral(Catalogue[2], 60);
    IntAcceptsNumeral(Catalogue[2], 0);
  }

  /** Whole hours of sleep are accepted exactly up to 24. */
  lemma SleepAcceptsNumeral(n: nat)
    ensures Validate(Catalogue[3], NatToDigits(n)) <==> n <= 24
  {
    var s := NatToDigits(n);
    calc {
      Validate(Catalogue[3], s);
    <==> { assert Catalogue[3].kind == FloatKind(0.0, 24.0); }
      FloatAccepts(0.0, 24.0, s);
    <==> { ParseFloatOfDigits(s); DigitsRoundTrip(n); }
      n as real <= 24.0;
    }
  }

  /** `float()` reads "nan" and "inf", but neither is within the bounds. */
  lemma SleepRejectsNaN(s: string)
    requires s == "nan"
    ensures ParseFloat(s) == Some(NaN) && !Validate(Catalogue[3], s)
  {
    ParseFloatOfWord(s);
    assert s != "inf" && s != "infinity";
  }

  lemma SleepRejectsInf(s: string)
    requires s == "inf"
    ensures ParseFloat(s) == Some(Infinite(false)) && !Validate(Catalogue[3], s)
  {
    ParseFloatOfWord(s);
  }
}
