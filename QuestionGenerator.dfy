/** The question generator: a topic from a fixed list, a one-message prompt
    to the hosted chat model, and the post-processing of its reply into an
    interview question. The random pick of the topic is an index supplied by
    the caller; the chat call is a function from the prompt to the reply's
    content (`None` when the reply carries no content) or to the text of the
    exception the client raised. */
module QuestionGenerator {
  import opened Wrappers
  import opened Text

  /** The ten interview topics the generator draws from. */
  const Topics: seq<string> := [
    "leadership and teamwork",
    "problem solving skills",
    "career goals and motivation",
    "technical skills and experience",
    "communication and interpersonal skills",
    "work ethic and reliability",
    "adaptability and learning",
    "conflict resolution",
    "project management",
    "innovation and creativity"
  ]

  /** The shortest stripped reply accepted as a question. */
  const MinQuestionLength := 10

  const PromptHead := "Generate an interview question about "
  const PromptTail := ". Make it a clear, professional question and generate only the question."

  const TooShort := "Generated response is too short or empty"
  const FailurePrefix := "Failed to generate AI question: "

  /** What `str(e)` says when `.strip()` is called on a reply without content. */
  const NoContent := "'NoneType' object has no attribute 'strip'"

  /** The prompt for a topic: the fixed template with the topic in its slot. */
  function Prompt(topic: string): (p: string)
    ensures |p| == |PromptHead| + |topic| + |PromptTail|
    ensures p[..|PromptHead|] == PromptHead
    ensures p[|PromptHead|..|PromptHead| + |topic|] == topic
    ensures p[|PromptHead| + |topic|..] == PromptTail
  {
    var p := PromptHead + topic + PromptTail;
    assert p[..|PromptHead|] == PromptHead;
    assert p[|PromptHead|..|PromptHead| + |topic|] == topic;
    p
  }

  /** Different topics give different prompts: the topic can be read back. */
  lemma PromptInjective(a: string, b: string)
    requires Prompt(a) == Prompt(b)
    ensures a == b
  {
    assert |a| == |b|;
  }

  /** The post-processing of the reply: strip it, reject it when it is empty or
      shorter than ten characters, otherwise make sure it ends with '?'. */
  function Polish(reply: string): (r: Result<string, string>)
    ensures r.Success? <==> |Strip(reply)| >= MinQuestionLength
    ensures r.Failure? ==> r.error == TooShort
    ensures r.Success? ==> EndsWithQuestionMark(r.value) && |r.value| >= MinQuestionLength
    ensures r.Success? ==> Strip(reply) <= r.value
    ensures r.Success? ==> |r.value| == |Strip(reply)| + (if EndsWithQuestionMark(Strip(reply)) then 0 else 1)
  {
    var question := Strip(reply);
    if question == "" || |question| < MinQuestionLength then
      Failure(TooShort)
    else if !EndsWithQuestionMark(question) then
      Success(question + "?")
    else
      Success(question)
  }

  /** Only the stripped reply matters: surrounding blanks never change the outcome. */
  lemma PolishIgnoresBlanks(reply: string)
    ensures Polish(Strip(reply)) == Polish(reply)
  {
    StripIdempotent(reply);
  }

  /** A polished question is accepted again unchanged, so the rule is idempotent. */
  lemma PolishIdempotent(reply: string)
    requires Polish(reply).Success?
    ensures Polish(Polish(reply).value) == Polish(reply)
  {
    var q := Polish(reply).value;
    StripEnds(reply);
    assert q[0] == Strip(reply)[0];
    PolishAccepts(q);
  }

  /** A question of ten or more characters that starts with a non-space and
      ends with '?' passes the post-processing unchanged. */
  lemma PolishAccepts(q: string)
    requires |q| >= MinQuestionLength && !IsSpace(q[0]) && EndsWithQuestionMark(q)
    ensures Polish(q) == Success(q)
  {
    StripTrimmed(q);
  }

  /** `QuestionGenerator.generate_question`: the topic at index `choice` (the
      random pick), the chat call, then the post-processing; every exception,
      the client's own included, is re-raised with the common prefix. A
      question comes back exactly when the model answered with content whose
      stripped text is at least ten characters long, and it is that reply polished. */
  function GenerateQuestion(choice: nat, chat: string -> Result<Option<string>, string>)
    : (r: Result<string, string>)
    requires choice < |Topics|
    ensures r.Failure? ==> |r.error| >= |FailurePrefix| && r.error[..|FailurePrefix|] == FailurePrefix
    ensures r.Success? ==> EndsWithQuestionMark(r.value) && |r.value| >= MinQuestionLength
    ensures var reply := chat(Prompt(Topics[choice]));
      r.Success? <==> reply.Success? && reply.value.Some? && |Strip(reply.value.value)| >= MinQuestionLength
    ensures var reply := chat(Prompt(Topics[choice]));
      r.Success? ==> r == Polish(reply.value.value)
  {
    match chat(Prompt(Topics[choice]))
    case Failure(e) => Failure(FailurePrefix + e)
    case Success(None) => Failure(FailurePrefix + NoContent)
    case Success(Some(content)) =>
      match Polish(content)
      case Success(q) => Success(q)
      case Failure(e) => Failure(FailurePrefix + e)
  }

  /** A too-short reply is reported with the fixed reason behind the prefix. */
  lemma GenerateQuestionTooShort(choice: nat, chat: string -> Result<Option<string>, string>)
    requires choice < |Topics|
    requires chat(Prompt(Topics[choice])) == Success(Some(""))
    ensures GenerateQuestion(choice, chat) == Failure(FailurePrefix + TooShort)
  {
    assert Strip("") == "";
  }
}
