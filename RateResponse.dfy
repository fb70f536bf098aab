/** The response rater: the prompt sent to the hosted model, the three-tier
    extraction of a JSON object from its free-form reply, and the in-place
    normalisation of that object into a rating record. */
module RateResponse {
  import opened Wrappers
  import opened Text
  import opened Json

  const ScoreKey := "score"
  const SummaryKey := "summary"
  const StrengthsKey := "strengths"
  const ImprovementsKey := "improvements"

  /** The keys the normalisation rewrites; every other key passes through. */
  const RatingKeys: set<string> := {ScoreKey, SummaryKey, StrengthsKey, ImprovementsKey}

  const MinScore: int := 0
  const MaxScore: int := 10
  /** At most this many strengths or improvements are kept. */
  const MaxItems: nat := 6
  /** The fallback summary keeps at most this many characters of the reply. */
  const SummaryLimit: nat := 500

  /** The least integer that `float()` refuses with OverflowError: 2^1024 - 2^970,
      the midpoint above the largest double, rounds (half to even) to 2^1024. */
  const FloatOverflow: int := 0xFF_FFFF_FFFF_FFFC_0000_0000_0000_0000_0000_0000_0000_0000_0000_0000_0000_0000_0000_0000_0000_0000_0000_0000_0000_0000_0000_0000_0000_0000_0000_0000_0000_0000_0000_0000_0000_0000_0000_0000_0000_0000_0000_0000_0000_0000_0000_0000_0000_0000_0000_0000_0000_0000_0000_0000_0000_0000_0000_0000_0000_0000_0000_0000_0000_0000_00

  const SystemInstructions :=
    "You are a behavioral interview evaluator. Rate responses on overall thought process, clarity, "
    + "structure (STAR), relevance, self-awareness, and impact. Do NOT penalize minor grammar or "
    + "ASR transcription artifacts. Be concise and professional."

  const Rubric :=
    "Scoring rubric (0-10):\n"
    + "- 9-10: Exceptional structure (STAR), clear reasoning, strong impact, self-awareness.\n"
    + "- 7-8: Good structure and reasoning; mostly relevant with actionable examples.\n"
    + "- 5-6: Some structure; generic or partially relevant; limited depth.\n"
    + "- 3-4: Vague, little structure; weak linkage to the question.\n"
    + "- 0-2: Off-topic or incoherent.\n"
    + "Output strictly in compact JSON with keys: score (integer 0-10), summary (string),"
    + " strengths (array of strings), improvements (array of strings)."

  datatype Message = Message(role: string, content: string)

  const QuestionHead := "Behavioral interview question:\n"
  const TranscriptHead := "\n\nCandidate transcript (ASR, may include minor errors):\n"
  const PromptTail := "\n\n" + Rubric

  /** The user prompt: the question and the transcript in their slots, the rubric last. */
  function Prompt(question: string, transcript: string): (p: string)
    ensures |p| == |QuestionHead| + |question| + |TranscriptHead| + |transcript| + |PromptTail|
    ensures p[..|QuestionHead|] == QuestionHead
    ensures p[|QuestionHead|..|QuestionHead| + |question|] == question
    ensures var t := |QuestionHead| + |question| + |TranscriptHead|;
      p[t - |TranscriptHead|..t] == TranscriptHead && p[t..t + |transcript|] == transcript
    ensures p[|p| - |PromptTail|..] == PromptTail
  {
    Slots(QuestionHead, question, TranscriptHead, transcript, PromptTail)
  }

  /** Five texts in a row, each found at its own offset. */
  function Slots(a: string, b: string, c: string, d: string, e: string): (p: string)
    ensures |p| == |a| + |b| + |c| + |d| + |e|
    ensures p[..|a|] == a && p[|a|..|a| + |b|] == b
    ensures p[|a| + |b|..|a| + |b| + |c|] == c
    ensures p[|a| + |b| + |c|..|a| + |b| + |c| + |d|] == d
    ensures p[|p| - |e|..] == e
  {
    a + b + c + d + e
  }

  /** The conversation sent to the hosted model: the evaluator persona, then the prompt. */
  function Messages(question: string, transcript: string): seq<Message> {
    [Message("system", SystemInstructions), Message("user", Prompt(question, transcript))]
  }

  function Min(a: int, b: int): int {
    if a <= b then a else b
  }

  // ---------------------------------------------------------------------------
  // Extraction

  /** Where `re.search(r"\{[\s\S]*\}", text)` matches, as (start, end): the
      greedy pattern runs from the first '{' to the last '}' after it. */
  function MatchBounds(text: string): (r: Option<(nat, nat)>)
    ensures r.Some? ==> r.value.0 < r.value.1 <= |text|
    ensures r.Some? ==> text[r.value.0] == '{' && text[r.value.1 - 1] == '}'
    ensures r.Some? ==> forall k :: 0 <= k < r.value.0 ==> text[k] != '{'
    ensures r.Some? ==> forall k :: r.value.1 <= k < |text| ==> text[k] != '}'
  {
    var open := IndexOf(text, '{');
    var close := LastIndexOf(text, '}');
    if open.Some? && close.Some? && open.value < close.value then
      Some((open.value, close.value + 1))
    else
      None
  }

  /** The pattern matches exactly when some '{' comes before some '}'. */
  lemma NoMatchIff(text: string)
    ensures MatchBounds(text).None? <==>
      forall i, j :: 0 <= i < j < |text| && text[i] == '{' ==> text[j] != '}'
  {
    var open := IndexOf(text, '{');
    var close := LastIndexOf(text, '}');
    if MatchBounds(text).Some? {
      assert text[open.value] == '{' && text[close.value] == '}';
    } else {
      forall i, j | 0 <= i < j < |text| && text[i] == '{'
        ensures text[j] != '}'
      {
        assert open.Some? && open.value <= i;
      }
    }
  }

  /** The record built when no JSON can be found: no score, the stripped reply
      cut to 500 characters as the summary, and no strengths or improvements. */
  function Fallback(text: string): Value {
    var stripped := Strip(text);
    Object(map[
      ScoreKey := Null,
      SummaryKey := Str(stripped[..Min(|stripped|, SummaryLimit)]),
      StrengthsKey := Array([]),
      ImprovementsKey := Array([])
    ])
  }

  /** `_extract_json`: the whole reply if it parses; else the brace span if it
      parses; else the fallback record. `parse` stands for `json.loads`, with
      `None` for the exception it raises. */
  function ExtractJson(text: string, parse: string -> Option<Value>): (r: Value)
    ensures parse(text).Some? ==> r == parse(text).value
    ensures parse(text).None? ==>
      r == Fallback(text) ||
      (MatchBounds(text).Some? && parse(text[MatchBounds(text).value.0..MatchBounds(text).value.1]) == Some(r))
  {
    match parse(text)
    case Some(v) => v
    case None =>
      var m := MatchBounds(text);
      if m.Some? && parse(text[m.value.0..m.value.1]).Some? then
        parse(text[m.value.0..m.value.1]).value
      else
        Fallback(text)
  }

  /** A JSON object embedded in prose is recovered when the prose before it has
      no '{' and the prose after it has no '}', whatever the object contains. */
  lemma ExtractRecoversEmbeddedObject(pre: string, body: string, post: string,
                                      parse: string -> Option<Value>, v: Value)
    requires |body| >= 2 && body[0] == '{' && body[|body| - 1] == '}'
    requires forall k :: 0 <= k < |pre| ==> pre[k] != '{'
    requires forall k :: 0 <= k < |post| ==> post[k] != '}'
    requires parse(pre + body + post).None? && parse(body) == Some(v)
    ensures ExtractJson(pre + body + post, parse) == v
  {
    var text := pre + body + post;
    var m := MatchBounds(text);
    assert text[|pre|] == '{' && text[|pre| + |body| - 1] == '}';
    assert m.Some? by { NoMatchIff(text); }
    assert m.value.0 == |pre| by {
      assert forall k :: 0 <= k < |pre| ==> text[k] == pre[k];
    }
    assert m.value.1 == |pre| + |body| by {
      assert forall k :: |pre| + |body| <= k < |text| ==> text[k] == post[k - |pre| - |body|];
    }
    assert text[m.value.0..m.value.1] == body;
  }

  /** When neither the reply nor a brace span parses, the result has no score,
      empty lists, and as summary the first 500 characters of the stripped reply
      (all of it when it is shorter). */
  lemma ExtractFallbackShape(text: string, parse: string -> Option<Value>)
    requires parse(text).None?
    requires MatchBounds(text).None? ||
             parse(text[MatchBounds(text).value.0..MatchBounds(text).value.1]).None?
    ensures var r := ExtractJson(text, parse);
      && r.Object? && r.fields.Keys == RatingKeys
      && r.fields[ScoreKey] == Null
      && r.fields[StrengthsKey] == Array([]) && r.fields[ImprovementsKey] == Array([])
      && r.fields[SummaryKey].Str?
      && var s := r.fields[SummaryKey].s;
         |s| == Min(|Strip(text)|, SummaryLimit) && s <= Strip(text)
         && (|Strip(text)| <= SummaryLimit ==> s == Strip(text))
         && (s == [] || (!IsSpace(s[0]) && (|Strip(text)| <= SummaryLimit ==> !IsSpace(s[|s| - 1]))))
  {
    var r := ExtractJson(text, parse);
    assert r == Fallback(text);
    var stripped := Strip(text);
    StripEnds(text);
    var s := stripped[..Min(|stripped|, SummaryLimit)];
    assert r.fields[SummaryKey] == Str(s);
    assert s <= stripped;
    assert s != [] ==> s[0] == stripped[0];
  }

  // ---------------------------------------------------------------------------
  // Normalisation

  predicate IsEven(n: int) {
    n % 2 == 0
  }

  /** Python's `round` of a finite float: the nearest integer, ties to even. */
  function RoundHalfEven(x: real): (n: int)
    ensures x - 0.5 <= n as real <= x + 0.5
    ensures (n as real - x == 0.5 || x - n as real == 0.5) ==> IsEven(n)
  {
    var f := x.Floor;
    var d := x - f as real;
    if d < 0.5 then f
    else if d > 0.5 then f + 1
    else if f % 2 == 0 then f
    else f + 1
  }

  /** Round-half-even is the only rounding within one half that picks the even
      neighbour on a tie. */
  lemma RoundHalfEvenUnique(x: real, m: int)
    requires x - 0.5 <= m as real <= x + 0.5
    requires (m as real - x == 0.5 || x - m as real == 0.5) ==> IsEven(m)
    ensures RoundHalfEven(x) == m
  {
    var n := RoundHalfEven(x);
    assert -1 <= n - m <= 1;
    assert n - m == 1 || m - n == 1 ==> IsEven(n) && IsEven(m);
  }

  /** `max(0, min(10, i))`. */
  function Clamp(i: int): (r: int)
    ensures MinScore <= r <= MaxScore
  {
    if i < MinScore then MinScore else if i > MaxScore then MaxScore else i
  }

  /** The clamped score is the point of [0, 10] nearest the raw one. */
  lemma ClampNearest(i: int, v: int)
    requires MinScore <= v <= MaxScore
    ensures var d := Clamp(i) - i; var e := v - i;
      (if d < 0 then -d else d) <= (if e < 0 then -e else e)
  {
  }

  /** The score rule: a number (a bool counts as one, as in Python) becomes
      `int(round(float(score)))` clamped to [0, 10]; a number `float` or
      `round` rejects (NaN, an infinity, an int beyond the float range) becomes
      None; anything else, a missing score included, is written back as it was. */
  function NormalizeScore(score: Value): (r: Value)
  {
    match score
    case Bool(b) => Int(Clamp(if b then 1 else 0))
    case Int(i) => if -FloatOverflow < i < FloatOverflow then Int(Clamp(i)) else Null
    case Float(x) => Int(Clamp(RoundHalfEven(x)))
    case NonFinite => Null
    case _ => score
  }

  predicate IsNumber(v: Value) {
    v.Bool? || v.Int? || v.Float? || v.NonFinite?
  }

  /** What a rating may hold under "score": no score, an integer 0-10, or a
      non-numeric value the model supplied. */
  predicate WellFormedScore(v: Value) {
    v.Null? || (v.Int? && MinScore <= v.i <= MaxScore) || v.Str? || v.Array? || v.Object?
  }

  /** What the score rule promises, case by case: a finite float is rounded to
      the nearest integer, ties to even, and pulled into [0, 10]; an integer the
      float range holds is pulled into [0, 10]; a bool is 0 or 1; None comes only
      from NaN, an infinity or an integer too large for a float; a non-number is
      kept. */
  lemma NormalizeScoreShape(score: Value)
    ensures WellFormedScore(NormalizeScore(score))
    ensures IsNumber(score) ==> NormalizeScore(score).Null? || NormalizeScore(score).Int?
    ensures !IsNumber(score) ==> NormalizeScore(score) == score
    ensures IsNumber(score) && NormalizeScore(score).Null? <==>
      score.NonFinite? || (score.Int? && !(-FloatOverflow < score.i < FloatOverflow))
    ensures score.Float? ==> NormalizeScore(score).Int?
    ensures score.Float? && MinScore as real <= score.x <= MaxScore as real ==>
      var n := NormalizeScore(score).i;
      && score.x - 0.5 <= n as real <= score.x + 0.5
      && ((n as real - score.x == 0.5 || score.x - n as real == 0.5) ==> IsEven(n))
    ensures score.Float? && score.x >= MaxScore as real ==> NormalizeScore(score) == Int(MaxScore)
    ensures score.Float? && score.x <= MinScore as real ==> NormalizeScore(score) == Int(MinScore)
    ensures score.Int? && -FloatOverflow < score.i < FloatOverflow ==>
      && (MinScore <= score.i <= MaxScore ==> NormalizeScore(score) == score)
      && (score.i > MaxScore ==> NormalizeScore(score) == Int(MaxScore))
      && (score.i < MinScore ==> NormalizeScore(score) == Int(MinScore))
    ensures score.Bool? ==> NormalizeScore(score) == Int(if score.b then 1 else 0)
  {
  }

  /** `str(x)` for an element of a list: exact for strings, None, booleans and
      integers; `repr` stands for Python's rendering of floats, lists and dicts. */
  function ElementText(v: Value, repr: Value -> string): string {
    match v
    case Str(s) => s
    case Null => "None"
    case Bool(b) => if b then "True" else "False"
    case Int(i) => Decimal(i)
    case _ => repr(v)
  }

  /** A list of at most six strings: what "strengths" and "improvements" hold. */
  predicate IsTextList(v: Value) {
    v.Array? && |v.items| <= MaxItems && forall k :: 0 <= k < |v.items| ==> v.items[k].Str?
  }

  /** The list rule: a list keeps its first six elements, each turned into a
      string; a non-blank string becomes a one-element list of its stripped
      text; anything else becomes the empty list. */
  function NormalizeList(v: Value, repr: Value -> string): (r: Value)
    ensures IsTextList(r)
    ensures v.Array? ==> |r.items| == Min(|v.items|, MaxItems)
    ensures v.Array? ==> forall k :: 0 <= k < |r.items| ==> r.items[k] == Str(ElementText(v.items[k], repr))
    ensures v.Str? ==> r.items == if AllSpace(v.s) then [] else [Str(Strip(v.s))]
    ensures !v.Array? && !v.Str? ==> r.items == []
  {
    match v
    case Array(items) =>
      var all := seq(|items|, k requires 0 <= k < |items| => Str(ElementText(items[k], repr)));
      Array(all[..Min(|all|, MaxItems)])
    case Str(s) =>
      StripEmptyIff(s);
      if Strip(s) != "" then Array([Str(Strip(s))]) else Array([])
    case _ => Array([])
  }

  /** The summary rule: a string is kept, anything else becomes "". */
  function NormalizeSummary(v: Value): (r: Value)
    ensures r.Str?
    ensures v.Str? ==> r == v
    ensures !v.Str? ==> r == Str("")
  {
    if v.Str? then v else Str("")
  }

  predicate WellFormedRating(fields: map<string, Value>) {
    && RatingKeys <= fields.Keys
    && WellFormedScore(fields[ScoreKey])
    && IsTextList(fields[StrengthsKey])
    && IsTextList(fields[ImprovementsKey])
    && fields[SummaryKey].Str?
  }

  /** The record `rate_response` returns for an extracted object. */
  function Normalized(fields: map<string, Value>, repr: Value -> string): (r: map<string, Value>)
    ensures r.Keys == fields.Keys + RatingKeys
    ensures forall k :: k in fields && k !in RatingKeys ==> r[k] == fields[k]
    ensures WellFormedRating(r)
  {
    NormalizeScoreShape(Get(fields, ScoreKey));
    fields[ScoreKey := NormalizeScore(Get(fields, ScoreKey))]
          [StrengthsKey := NormalizeList(Get(fields, StrengthsKey), repr)]
          [ImprovementsKey := NormalizeList(Get(fields, ImprovementsKey), repr)]
          [SummaryKey := NormalizeSummary(Get(fields, SummaryKey))]
  }

  /** Normalisation leaves a record alone exactly when it is already a
      well-formed rating; in particular normalising twice changes nothing. */
  lemma NormalizedFixedPoints(fields: map<string, Value>, repr: Value -> string)
    ensures Normalized(fields, repr) == fields <==> WellFormedRating(fields)
    ensures Normalized(Normalized(fields, repr), repr) == Normalized(fields, repr)
  {
    if WellFormedRating(fields) {
      NormalizedKeepsRating(fields, repr);
    }
    NormalizedKeepsRating(Normalized(fields, repr), repr);
  }

  /** A well-formed rating is its own normal form. */
  lemma NormalizedKeepsRating(fields: map<string, Value>, repr: Value -> string)
    requires WellFormedRating(fields)
    ensures Normalized(fields, repr) == fields
  {
    NormalizeListKeeps(fields[StrengthsKey], repr);
    NormalizeListKeeps(fields[ImprovementsKey], repr);
    NormalizeScoreShape(fields[ScoreKey]);
    var n := Normalized(fields, repr);
    assert n.Keys == fields.Keys;
  }

  lemma NormalizeListKeeps(v: Value, repr: Value -> string)
    requires IsTextList(v)
    ensures NormalizeList(v, repr) == v
  {
    var r := NormalizeList(v, repr);
    assert |r.items| == |v.items|;
    assert forall k :: 0 <= k < |v.items| ==> r.items[k] == v.items[k];
  }

  // ---------------------------------------------------------------------------
  // The rater

  datatype RateError =
    | ModelCallFailed(message: string)  // the hosted call raised
    | NotAnObject(value: Value)         // `result.get` raised AttributeError

  /** What `rate_response` returns (or raises) for the model's reply. */
  function Rate(reply: Result<string, string>, parse: string -> Option<Value>,
                repr: Value -> string): Result<map<string, Value>, RateError>
  {
    match reply
    case Failure(e) => Failure(ModelCallFailed(e))
    case Success(content) =>
      match ExtractJson(content, parse)
      case Object(fields) => Success(Normalized(fields, repr))
      case other => Failure(NotAnObject(other))
  }

  /** True of `json.loads`: a text that starts with '{' and parses is an object. */
  ghost predicate BracedTextsParseToObjects(parse: string -> Option<Value>) {
    forall t :: |t| > 0 && t[0] == '{' && parse(t).Some? ==> parse(t).value.Object?
  }

  /** Every successful rating is well formed, and keys other than the four
      rating keys come through from the extracted object unchanged. */
  lemma RatingIsWellFormed(reply: Result<string, string>, parse: string -> Option<Value>,
                           repr: Value -> string)
    requires Rate(reply, parse, repr).Success?
    ensures WellFormedRating(Rate(reply, parse, repr).value)
    ensures var e := ExtractJson(reply.value, parse);
      e.Object? && forall k :: k in e.fields && k !in RatingKeys ==>
        k in Rate(reply, parse, repr).value && Rate(reply, parse, repr).value[k] == e.fields[k]
  {
  }

  /** A reply that is not JSON as a whole always yields an object: the brace
      span, when it parses, starts with '{', and the fallback is an object. */
  lemma UnparsedReplyGivesObject(content: string, parse: string -> Option<Value>)
    requires BracedTextsParseToObjects(parse)
    requires parse(content).None?
    ensures ExtractJson(content, parse).Object?
  {
    var e := ExtractJson(content, parse);
    var m := MatchBounds(content);
    if e != Fallback(content) {
      var span := content[m.value.0..m.value.1];
      assert span[0] == '{';
      assert parse(span) == Some(e);
    }
  }

  /** The summary a rating carries: the extracted summary when it is a
      string, and "" otherwise, a missing summary included. */
  lemma RatedSummary(content: string, parse: string -> Option<Value>, repr: Value -> string)
    requires Rate(Success(content), parse, repr).Success?
    ensures var e := ExtractJson(content, parse);
      var s := Get(e.fields, SummaryKey);
      Rate(Success(content), parse, repr).value[SummaryKey] == (if s.Str? then s else Str(""))
  {
    var e := ExtractJson(content, parse);
    assert Rate(Success(content), parse, repr).value == Normalized(e.fields, repr);
  }

  /** Malformed model output never makes the rater raise: it raises (on
      `result.get`) exactly when the whole reply is valid JSON but not an object. */
  lemma RaisesOnlyOnNonObjectReply(content: string, parse: string -> Option<Value>,
                                   repr: Value -> string)
    requires BracedTextsParseToObjects(parse)
    ensures Rate(Success(content), parse, repr).Failure? <==>
      parse(content).Some? && !parse(content).value.Object?
  {
    if parse(content).None? {
      UnparsedReplyGivesObject(content, parse);
    }
  }

  /** A reply without any '{' that is not itself JSON is rated as no score, the
      stripped reply as summary (when it fits in 500 characters) and no lists. */
  lemma RatesProseReply(content: string, parse: string -> Option<Value>, repr: Value -> string)
    requires forall k :: 0 <= k < |content| ==> content[k] != '{'
    requires parse(content).None?
    requires |Strip(content)| <= SummaryLimit
    ensures Rate(Success(content), parse, repr) == Success(map[
      ScoreKey := Null, SummaryKey := Str(Strip(content)),
      StrengthsKey := Array([]), ImprovementsKey := Array([])])
  {
    var f := map[ScoreKey := Null, SummaryKey := Str(Strip(content)),
                 StrengthsKey := Array([]), ImprovementsKey := Array([])];
    ProseReplyFallsBack(content, parse);
    assert WellFormedRating(f);
    NormalizedFixedPoints(f, repr);
  }

  lemma ProseReplyFallsBack(content: string, parse: string -> Option<Value>)
    requires forall k :: 0 <= k < |content| ==> content[k] != '{'
    requires parse(content).None?
    requires |Strip(content)| <= SummaryLimit
    ensures ExtractJson(content, parse) == Object(map[
      ScoreKey := Null, SummaryKey := Str(Strip(content)),
      StrengthsKey := Array([]), ImprovementsKey := Array([])])
  {
    assert MatchBounds(content).None?;
    var stripped := Strip(content);
    assert stripped[..Min(|stripped|, SummaryLimit)] == stripped;
  }

  /** A reply with prose before an object whose score is 11.6, whose strengths
      is one string with no surrounding blanks and whose improvements is empty:
      the score is rounded and clamped to 10 and the string is wrapped into a
      one-element list. */
  lemma RatesEmbeddedExample(pre: string, body: string, summary: string, word: string,
                             parse: string -> Option<Value>, repr: Value -> string)
    requires forall k :: 0 <= k < |pre| ==> pre[k] != '{'
    requires |body| >= 2 && body[0] == '{' && body[|body| - 1] == '}'
    requires |word| > 0 && !IsSpace(word[0]) && !IsSpace(word[|word| - 1])
    requires parse(pre + body).None?
    requires parse(body) == Some(Object(map[ScoreKey := Float(11.6), SummaryKey := Str(summary),
                                            StrengthsKey := Str(word), ImprovementsKey := Array([])]))
    ensures Rate(Success(pre + body), parse, repr) == Success(map[
      ScoreKey := Int(10), SummaryKey := Str(summary),
      StrengthsKey := Array([Str(word)]), ImprovementsKey := Array([])])
  {
    assert pre + body == pre + body + "";
    ExtractRecoversEmbeddedObject(pre, body, "", parse, parse(body).value);
    ExampleFieldRules(word, repr);
    NormalizedRatingFields(Float(11.6), Str(summary), Str(word), Array([]), repr);
  }

  /** A reply object holding exactly the four rating keys is normalised key by
      key, each rule applied to that key's own value. */
  lemma NormalizedRatingFields(score: Value, summary: Value, strengths: Value,
                               improvements: Value, repr: Value -> string)
    ensures Normalized(map[ScoreKey := score, SummaryKey := summary,
                           StrengthsKey := strengths, ImprovementsKey := improvements], repr)
         == map[ScoreKey := NormalizeScore(score), SummaryKey := NormalizeSummary(summary),
                StrengthsKey := NormalizeList(strengths, repr),
                ImprovementsKey := NormalizeList(improvements, repr)]
  {
    var fields := map[ScoreKey := score, SummaryKey := summary,
                      StrengthsKey := strengths, ImprovementsKey := improvements];
    assert |ScoreKey| != |SummaryKey| && |ScoreKey| != |StrengthsKey| && |ScoreKey| != |ImprovementsKey|;
    assert |SummaryKey| != |StrengthsKey| && |SummaryKey| != |ImprovementsKey|;
    assert |StrengthsKey| != |ImprovementsKey|;
    assert Get(fields, ScoreKey) == score && Get(fields, SummaryKey) == summary;
    assert Get(fields, StrengthsKey) == strengths && Get(fields, ImprovementsKey) == improvements;
    UpdateEachOfFour(ScoreKey, SummaryKey, StrengthsKey, ImprovementsKey,
                     score, summary, strengths, improvements,
                     NormalizeScore(score), NormalizeSummary(summary),
                     NormalizeList(strengths, repr), NormalizeList(improvements, repr));
  }

  /** Overwriting every entry of a four-entry map, in any order, gives the map
      of the new values. */
  lemma UpdateEachOfFour(k1: string, k2: string, k3: string, k4: string,
                         v1: Value, v2: Value, v3: Value, v4: Value,
                         w1: Value, w2: Value, w3: Value, w4: Value)
    requires k1 != k2 && k1 != k3 && k1 != k4 && k2 != k3 && k2 != k4 && k3 != k4
    ensures map[k1 := v1, k2 := v2, k3 := v3, k4 := v4][k1 := w1][k3 := w3][k4 := w4][k2 := w2]
         == map[k1 := w1, k2 := w2, k3 := w3, k4 := w4]
  {
    var n := map[k1 := v1, k2 := v2, k3 := v3, k4 := v4][k1 := w1][k3 := w3][k4 := w4][k2 := w2];
    var m := map[k1 := w1, k2 := w2, k3 := w3, k4 := w4];
    assert n.Keys == m.Keys;
  }

  lemma ExampleFieldRules(word: string, repr: Value -> string)
    requires |word| > 0 && !IsSpace(word[0]) && !IsSpace(word[|word| - 1])
    ensures NormalizeScore(Float(11.6)) == Int(10)
    ensures NormalizeList(Str(word), repr) == Array([Str(word)])
    ensures NormalizeList(Array([]), repr) == Array([])
  {
    assert RoundHalfEven(11.6) == 12;
    assert |NormalizeList(Array([]), repr).items| == 0;
    assert !AllSpace(word);
    assert word[..0] == [] && word[|word|..] == [];
    StripUnique(word, 0, |word|);
  }

  /** `ResponseRater.rate_response`: ask the model, extract, then normalise
      the extracted dict in place, one rule after the other. `chat` stands for
      the hosted chat-completion call. */
  method RateResponseCall(question: string, transcript: string,
                          chat: seq<Message> -> Result<string, string>,
                          parse: string -> Option<Value>, repr: Value -> string)
    returns (r: Result<map<string, Value>, RateError>)
    ensures r == Rate(chat(Messages(question, transcript)), parse, repr)
  {
    var completion := chat(Messages(question, transcript));
    if completion.Failure? {
      return Failure(ModelCallFailed(completion.error));
    }
    var extracted := ExtractJson(completion.value, parse);
    if !extracted.Object? {
      return Failure(NotAnObject(extracted));
    }
    var result := NormalizeInPlace(extracted.fields, repr);
    return Success(result);
  }

  /** `[str(x) for x in v]`. */
  method ElementTexts(items: seq<Value>, repr: Value -> string) returns (all: seq<Value>)
    ensures |all| == |items|
    ensures forall j :: 0 <= j < |items| ==> all[j] == Str(ElementText(items[j], repr))
  {
    all := [];
    for i := 0 to |items|
      invariant |all| == i
      invariant forall j :: 0 <= j < i ==> all[j] == Str(ElementText(items[j], repr))
    {
      all := all + [Str(ElementText(items[i], repr))];
    }
  }

  /** `m` with the list rule applied, in order, to each of the keys `ks`. */
  ghost function ListsNormalized(m: map<string, Value>, ks: seq<string>,
                                 fields: map<string, Value>, repr: Value -> string): map<string, Value>
    decreases |ks|
  {
    if ks == [] then m
    else ListsNormalized(m, ks[..|ks| - 1], fields, repr)[ks[|ks| - 1] := NormalizeList(Get(fields, ks[|ks| - 1]), repr)]
  }

  /** The normalisation block of `rate_response`, rewriting the extracted dict
      key by key: the score, then the two lists in turn, then the summary. */
  method NormalizeInPlace(fields: map<string, Value>, repr: Value -> string)
    returns (result: map<string, Value>)
    ensures result == Normalized(fields, repr)
  {
    result := fields;

    // Normalize and clamp
    var score := Get(result, ScoreKey);
    if score.Bool? || score.Int? || score.Float? || score.NonFinite? {
      score := match score
        case Bool(b) => Int(if b then 1 else 0)
        case Int(i) => if -FloatOverflow < i < FloatOverflow then Int(i) else Null
        case Float(x) => Int(RoundHalfEven(x))
        case _ => Null;
    }
    if score.Int? {
      score := Int(Clamp(score.i));
    }
    assert score == NormalizeScore(Get(fields, ScoreKey));
    result := result[ScoreKey := score];

    // Ensure lists
    ghost var scored := result;
    var keys := [StrengthsKey, ImprovementsKey];
    for n := 0 to |keys|
      invariant result == ListsNormalized(scored, keys[..n], fields, repr)
    {
      var k := keys[n];
      var v := Get(result, k);
      assert v == Get(fields, k) by {
        assert |ScoreKey| != |StrengthsKey| && |ScoreKey| != |ImprovementsKey|;
        assert |StrengthsKey| != |ImprovementsKey|;
        assert keys[..1] == [StrengthsKey] && keys[..1][..0] == [];
      }
      ghost var before := result;
      if v.Array? {
        var all := ElementTexts(v.items, repr);
        result := result[k := Array(all[..Min(|all|, MaxItems)])];
        assert all[..Min(|all|, MaxItems)] == NormalizeList(v, repr).items;
      } else if v.Str? && Strip(v.s) != "" {
        result := result[k := Array([Str(Strip(v.s))])];
      } else {
        result := result[k := Array([])];
      }
      assert result == before[k := NormalizeList(v, repr)];
      assert keys[..n + 1][..n] == keys[..n];
    }
    assert keys[..2] == keys && keys[..2][..1] == [StrengthsKey] && keys[..2][..1][..0] == [];

    // Summary fallback
    assert Get(result, SummaryKey) == Get(fields, SummaryKey) by {
      assert |SummaryKey| != |ScoreKey| && |SummaryKey| != |StrengthsKey|;
      assert |SummaryKey| != |ImprovementsKey|;
    }
    ghost var listed := result;
    if !Get(result, SummaryKey).Str? {
      result := result[SummaryKey := Str("")];
    } else {
      assert result == listed[SummaryKey := listed[SummaryKey]];
    }
    assert result == listed[SummaryKey := NormalizeSummary(Get(fields, SummaryKey))];
  }
}
