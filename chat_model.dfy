/**
 * The text generator's pure string handling: the prompt template around
 * the user's question, and the post-processing of the generated reply
 * (marker removal, the cut after the first sentence terminator, the
 * blacklist fallback and the minimum-length fallback).
 */
module ChatModel {
  import opened Wrappers
  import opened PyText

  const Preamble: string :=
    "Ты — психологический помощник для школьников. Отвечай подробно 3-5 предложениями. "
    + "Используй техники КПТ и mindfulness. Примеры ответов:\n"
    + "1. 'Сделай дыхательное упражнение 4-7-8: вдох 4 сек, задержка 7 сек, выдох 8 сек.'\n"
    + "2. 'Составь список дел по приоритетам. Начни с самых важных.'\n"

  const QuestionTag: string := "Вопрос: "
  const AnswerTag: string := "\nОтвет:"

  /** `_format_prompt` */
  function FormatPrompt(prompt: string): string {
    Preamble + QuestionTag + prompt + AnswerTag
  }

  /** The user's text as it sits between the tags of a formatted prompt. */
  function QuestionOf(formatted: string): string
    requires |formatted| >= |Preamble| + |QuestionTag| + |AnswerTag|
  {
    formatted[|Preamble| + |QuestionTag|..|formatted| - |AnswerTag|]
  }

  /** The prompt is the fixed preamble, then the tagged question verbatim,
    * then the answer tag: the question can be read back unchanged. */
  lemma FormatPromptRoundTrip(prompt: string)
    ensures var f := FormatPrompt(prompt);
      && StartsWith(f, Preamble + QuestionTag)
      && f[|f| - |AnswerTag|..] == AnswerTag
      && QuestionOf(f) == prompt
  {
    var f := FormatPrompt(prompt);
    assert f == (Preamble + QuestionTag) + prompt + AnswerTag;
    assert f[..|Preamble + QuestionTag|] == Preamble + QuestionTag;
  }

  /** Distinct questions give distinct prompts. */
  lemma FormatPromptInjective(p: string, q: string)
    requires FormatPrompt(p) == FormatPrompt(q)
    ensures p == q
  {
    FormatPromptRoundTrip(p);
    FormatPromptRoundTrip(q);
  }

  // --------------------------------------------------------------- markers

  /** The alternatives of the removal pattern, in pattern order; the last is
    * a backslash followed by `n`, not a newline. */
  const Markers: seq<string> := ["Пользователь:", "Ассистент:", "Вопрос:", "Ответ:", "\\n"]

  /** The length of the marker `s` starts with, if any (no two markers
    * share a first character, so at most one can match). */
  function MarkerAt(s: string): (n: nat)
    ensures n > 0 ==> n <= |s| && s[..n] in Markers
    ensures n == 0 ==> forall m | m in Markers :: !StartsWith(s, m)
  {
    if StartsWith(s, Markers[0]) then |Markers[0]|
    else if StartsWith(s, Markers[1]) then |Markers[1]|
    else if StartsWith(s, Markers[2]) then |Markers[2]|
    else if StartsWith(s, Markers[3]) then |Markers[3]|
    else if StartsWith(s, Markers[4]) then |Markers[4]|
    else 0
  }

  /** `re.sub` with the marker alternation: one left-to-right scan that
    * deletes each match and resumes after it. */
  function RemoveMarkers(s: string): string
    decreases |s|
  {
    if s == [] then []
    else if MarkerAt(s) > 0 then RemoveMarkers(s[MarkerAt(s)..])
    else [s[0]] + RemoveMarkers(s[1..])
  }

  predicate HasMarker(s: string) {
    exists i, m | 0 <= i <= |s| && m in Markers :: StartsWith(s[i..], m)
  }

  /** Removal never lengthens the text. */
  lemma {:induction false} RemoveMarkersNoLonger(s: string)
    ensures |RemoveMarkers(s)| <= |s|
    decreases |s|
  {
    if s != [] {
      var n := MarkerAt(s);
      if n > 0 {
        RemoveMarkersNoLonger(s[n..]);
      } else {
        RemoveMarkersNoLonger(s[1..]);
      }
    }
  }

  /** A marker occurring at index `i` makes the text shorter. */
  lemma {:induction false} RemoveMarkersShrinks(s: string, i: nat, m: string)
    requires i <= |s| && m in Markers && StartsWith(s[i..], m)
    ensures |RemoveMarkers(s)| < |s|
    decreases |s|
  {
    var n := MarkerAt(s);
    if n > 0 {
      RemoveMarkersNoLonger(s[n..]);
    } else {
      assert s[0..] == s;
      assert i > 0;
      assert s[1..][i - 1..] == s[i..];
      RemoveMarkersShrinks(s[1..], i - 1, m);
    }
  }

  /** Text without markers passes through unchanged. */
  lemma {:induction false} RemoveMarkersNoop(s: string)
    requires !HasMarker(s)
    ensures RemoveMarkers(s) == s
    decreases |s|
  {
    if s != [] {
      forall m | m in Markers
        ensures !StartsWith(s, m)
      {
        assert s[0..] == s;
      }
      forall i, m | 0 <= i <= |s[1..]| && m in Markers
        ensures !StartsWith(s[1..][i..], m)
      {
        assert s[1..][i..] == s[i + 1..];
      }
      RemoveMarkersNoop(s[1..]);
    }
  }

  /** The text is left as is exactly when no marker occurs in it. */
  lemma RemoveMarkersUnchanged(s: string)
    ensures RemoveMarkers(s) == s <==> !HasMarker(s)
  {
    if HasMarker(s) {
      var i, m :| 0 <= i <= |s| && m in Markers && StartsWith(s[i..], m);
      RemoveMarkersShrinks(s, i, m);
    } else {
      RemoveMarkersNoop(s);
    }
  }

  /** The first characters of the markers. */
  predicate MarkerHead(c: char) {
    c == 'П' || c == 'А' || c == 'В' || c == 'О' || c == '\\'
  }

  /** A character that starts no marker is kept and the scan moves on. */
  lemma KeepChar(t: string)
    requires t != [] && !MarkerHead(t[0])
    ensures RemoveMarkers(t) == [t[0]] + RemoveMarkers(t[1..])
  {
    forall m | m in Markers
      ensures !StartsWith(t, m)
    {
      assert MarkerHead(m[0]);
      assert |m| <= |t| ==> t[..|m|][0] == t[0];
    }
  }

  /** A leading backslash-n is deleted and the scan resumes after it. */
  lemma DropNewlineMarker(t: string)
    requires StartsWith(t, Markers[4])
    ensures RemoveMarkers(t) == RemoveMarkers(t[2..])
  {
    forall i | 0 <= i < 4
      ensures !StartsWith(t, Markers[i])
    {
      assert Markers[i][0] != t[..2][0];
    }
  }

  lemma PlainTail(t: string)
    requires t == "ет:"
    ensures RemoveMarkers(t) == t
  {
    KeepChar(t);
    KeepChar(t[1..]);
    KeepChar(t[2..]);
  }

  lemma SplitMarkerHead(s: string)
    requires s == "Отв\\nет:"
    ensures RemoveMarkers(s) == [s[0]] + RemoveMarkers(s[1..])
  {
    forall m | m in Markers
      ensures !StartsWith(s, m)
    {
      assert |m| <= |s| ==> s[..|m|][0] == s[0];
      if m == Markers[3] {
        assert s[..|m|][3] != m[3];
      }
    }
  }

  /** A single pass: a marker formed by a deletion survives. */
  lemma SinglePass(s: string)
    requires s == "Отв\\nет:"
    ensures RemoveMarkers(s) == "Ответ:"
  {
    var tail := s[5..];
    calc {
      RemoveMarkers(s);
      { SplitMarkerHead(s); }
      [s[0]] + RemoveMarkers(s[1..]);
      { KeepChar(s[1..]); assert s[1..][1..] == s[2..]; }
      [s[0]] + ([s[1]] + RemoveMarkers(s[2..]));
      { KeepChar(s[2..]); assert s[2..][1..] == s[3..]; }
      [s[0]] + ([s[1]] + ([s[2]] + RemoveMarkers(s[3..])));
      { DropNewlineMarker(s[3..]); assert s[3..][2..] == tail; }
      [s[0]] + ([s[1]] + ([s[2]] + RemoveMarkers(tail)));
      { PlainTail(tail); }
      [s[0]] + ([s[1]] + ([s[2]] + tail));
      [s[0], s[1], s[2], tail[0], tail[1], tail[2]];
    }
  }

  // ---------------------------------------------------------- terminators

  predicate IsTerminator(c: char) {
    c == '.' || c == '!' || c == '?' || c == '…'
  }

  /** `re.search(r'[.!?…]', s)`: the index of the first terminator. */
  function FirstTerminator(s: string): (r: Option<nat>)
    ensures r.Some? ==>
      && r.value < |s| && IsTerminator(s[r.value])
      && forall k | 0 <= k < r.value :: !IsTerminator(s[k])
    ensures r.None? ==> forall k | 0 <= k < |s| :: !IsTerminator(s[k])
  {
    if s == [] then None
    else if IsTerminator(s[0]) then Some(0)
    else
      match FirstTerminator(s[1..])
      case Some(i) => Some(i + 1)
      case None => None
  }

  /** The text up to and including its first terminator, or all of it. */
  function CutAtTerminator(s: string): (r: string)
    ensures StartsWith(s, r)
    ensures forall k | 0 <= k < |r| - 1 :: !IsTerminator(r[k])
    ensures r != s ==> |r| > 0 && IsTerminator(r[|r| - 1])
    ensures (forall k | 0 <= k < |s| :: !IsTerminator(s[k])) ==> r == s
  {
    match FirstTerminator(s)
    case Some(i) => s[..i + 1]
    case None => s
  }

  // --------------------------------------------------------------- replies

  const Blacklist: seq<string> := ["жизнь", "смысл", "религия", "политика", "суицид"]
  const Hotline: string := "Обратись к школьному психологу или позвони на горячую линию: 8-800-2000-122."
  const Clarify: string := "Уточни, пожалуйста, свой вопрос."
  const MinLength: nat := 15

  /** `any(word in text.lower() for word in blacklist)` */
  predicate Flagged(s: string) {
    exists w | w in Blacklist :: Contains(Lower(s), w)
  }

  /** `_postprocess_response` */
  function Postprocess(text: string): string {
    var t := CutAtTerminator(RemoveMarkers(text));
    if Flagged(t) then Hotline
    else if |t| < MinLength then Clarify
    else Strip(t)
  }

  /** The strip of a text whose terminators can only be last keeps that property. */
  lemma StripKeepsCut(t: string)
    requires forall k | 0 <= k < |t| - 1 :: !IsTerminator(t[k])
    ensures var r := Strip(t);
      && IsStripOf(t, r)
      && forall k | 0 <= k < |r| - 1 :: !IsTerminator(r[k])
  {
    var r := Strip(t);
    StripShape(t);
    var i :| 0 <= i <= |t| && PaddedAt(t, r, i);
    forall k | 0 <= k < |r| - 1
      ensures !IsTerminator(r[k])
    {
      assert r[k] == t[i..i + |r|][k] == t[i + k];
    }
  }

  /** The reply is the hotline text when the cut text mentions a
    * blacklisted word (whatever its length), the clarification request
    * when it is short, and otherwise the strip of the cut text, in the
    * sense of `IsStripOf`, with at most one terminator, at its end. */
  lemma PostprocessShape(text: string)
    ensures var t := CutAtTerminator(RemoveMarkers(text)); var r := Postprocess(text);
      && StartsWith(RemoveMarkers(text), t)
      && (Flagged(t) ==> r == Hotline)
      && (!Flagged(t) && |t| < MinLength ==> r == Clarify)
      && (!Flagged(t) && |t| >= MinLength ==>
            && IsStripOf(t, r)
            && forall k | 0 <= k < |r| - 1 :: !IsTerminator(r[k]))
  {
    StripKeepsCut(CutAtTerminator(RemoveMarkers(text)));
  }

  /** Spaces hold no marker. */
  lemma BlankNoMarker(text: string)
    requires forall k | 0 <= k < |text| :: text[k] == ' '
    ensures !HasMarker(text)
  {
    forall i, m | 0 <= i <= |text| && m in Markers
      ensures !StartsWith(text[i..], m)
    {
      assert m[0] != ' ';
      if |m| <= |text[i..]| {
        assert text[i..][..|m|][0] == text[i];
      }
    }
  }

  /** Spaces hold no word that starts with something else. */
  lemma SpacesHoldNoWord(u: string, w: string)
    requires forall k | 0 <= k < |u| :: u[k] == ' '
    requires w != [] && w[0] != ' '
    ensures !Contains(u, w)
  {
    forall i | 0 <= i <= |u|
      ensures !OccursAt(u, w, i)
    {
      if i + |w| <= |u| {
        assert u[i..i + |w|][0] == u[i];
      }
    }
  }

  /** Spaces hold no blacklisted word. */
  lemma BlankNotFlagged(text: string)
    requires forall k | 0 <= k < |text| :: text[k] == ' '
    ensures !Flagged(text)
  {
    var u := Lower(text);
    forall k | 0 <= k < |u|
      ensures u[k] == ' '
    {
      LowerAt(text, k);
    }
    forall w | w in Blacklist
      ensures !Contains(u, w)
    {
      SpacesHoldNoWord(u, w);
    }
  }

  /** A long enough blank reply with no markers, terminators or blacklisted
    * words is stripped to the empty string. */
  lemma BlankReply(text: string)
    requires |text| >= MinLength
    requires forall k | 0 <= k < |text| :: text[k] == ' '
    ensures Postprocess(text) == []
  {
    BlankNoMarker(text);
    RemoveMarkersNoop(text);
    BlankNotFlagged(text);
    StripShape(text);
  }

  const GenerationError: string := "Извините, произошла ошибка обработки. Попробуйте переформулировать вопрос."

  /** `generate_response`, given the model's decoded continuation of
    * `FormatPrompt(question)`, or `None` when tokenising or generating raises. */
  function Respond(output: Option<string>): string {
    match output
    case Some(raw) => Postprocess(raw)
    case None => GenerationError
  }

  /** The error text ends its first sentence at index 36, before its last
    * character, and is neither fallback reply. */
  lemma ErrorTextShape(e: string)
    requires e == GenerationError
    ensures 36 < |e| - 1 && IsTerminator(e[36])
    ensures e != Hotline && e != Clarify
  {
  }

  /** A failed generation is recognisable: no model output is
    * post-processed into the error text. */
  lemma RespondFails(output: Option<string>)
    ensures Respond(output) == GenerationError <==> output.None?
  {
    if output.Some? {
      var r := Postprocess(output.value);
      PostprocessShape(output.value);
      assert r == Hotline || r == Clarify || forall k | 0 <= k < |r| - 1 :: !IsTerminator(r[k]);
      ErrorTextShape(GenerationError);
    }
  }
}
