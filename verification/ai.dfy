/** The model-calling layer of ai_utils.py: one call to the hosted model,
    the two single-text helpers built on it, and the batch summariser that
    asks for all summaries in one reply and splits them apart again.
    The hosted model is a parameter, `provider`, mapping a prompt to what the
    call produced; the database and the clock it may write to are `Env`. */
module Ai {
  import opened Wrappers
  import opened Text
  import opened Markers
  import opened ReplyFormat
  import opened RateLimit

  /** The three token counts read off `response.usage_metadata`. */
  datatype Usage = Usage(promptTokens: int, completionTokens: int, totalTokens: int)

  /** A response object. `Unreadable` is one whose `.text` or
      `.usage_metadata` raises when read (a blocked or empty candidate). */
  datatype Response = Readable(text: string, usage: Usage) | Unreadable

  /** What `generate_content` does: return a response, raise
      `ResourceExhausted`, or raise anything else. */
  datatype ApiOutcome = Responded(response: Response) | QuotaExceeded | OtherError

  /** The exceptions that escape this layer: `RateLimitException`, and the
      error a single-text helper meets reading an unreadable response. */
  datatype AiError = RateLimitExceeded | ResponseUnreadable

  /** The rate-limit log, the current time, and whether storing to it fails. */
  datatype Env = Env(log: Log, now: int, storeFails: bool)

  /** A result together with the rate-limit log after the call. */
  datatype Outcome<T> = Outcome(result: Result<T, AiError>, log: Log)

  /** `_call_google_api` (lines 58-77). A quota error is logged through the
      rate limiter and raised; any other failure is swallowed into `None`;
      only a quota error touches the log. */
  function CallGoogleApi(prompt: string, provider: string -> ApiOutcome, env: Env): (r: Outcome<Option<Response>>)
    ensures r.result.Err? <==> provider(prompt).QuotaExceeded?
    ensures r.result.Err? ==> r.result.error == RateLimitExceeded
                              && r.log == Record(env.log, env.now, env.storeFails)
    ensures r.result.Ok? ==> r.log == env.log
    ensures r.result.Ok? ==> (r.result.value.Some? <==> provider(prompt).Responded?)
    ensures r.result.Ok? && r.result.value.Some? ==> r.result.value.value == provider(prompt).response
  {
    match provider(prompt)
    case Responded(response) => Outcome(Ok(Some(response)), env.log)
    case QuotaExceeded => Outcome(Err(RateLimitExceeded), Record(env.log, env.now, env.storeFails))
    case OtherError => Outcome(Ok(None), env.log)
  }

  /** Whatever the model does, a call either leaves the log alone or performs
      exactly one step of the rate limiter, so records stay 23 hours apart. */
  lemma CallKeepsSpaced(prompt: string, provider: string -> ApiOutcome, env: Env)
    requires Spaced(env.log)
    ensures Spaced(CallGoogleApi(prompt, provider, env).log)
  {
    RecordKeepsSpaced(env.log, env.now, env.storeFails);
  }

  /** The fallback summary: the first 150 characters and an ellipsis when the
      text is longer than 150 characters, the text itself otherwise. */
  function Truncated(text: string): (r: string)
    ensures |r| <= 153
    ensures |text| <= 150 ==> r == text
    ensures |text| > 150 ==> |r| == 153 && text[..150] <= r && EndsWith(r, "...")
  {
    if |text| > 150 then text[..150] + "..." else text
  }

  /** Truncating a fallback summary again changes nothing. */
  lemma TruncatedIdempotent(text: string)
    ensures Truncated(Truncated(text)) == Truncated(text)
  {
    if |text| > 150 {
      var t := Truncated(text);
      assert t[..150] == text[..150];
    }
  }

  /** The fallback for a whole batch: every text truncated, in order. */
  function Fallback(texts: seq<string>): (r: seq<string>)
    ensures |r| == |texts|
    ensures forall i :: 0 <= i < |texts| ==> r[i] == Truncated(texts[i])
  {
    seq(|texts|, i requires 0 <= i < |texts| => Truncated(texts[i]))
  }

  const SummaryInstruction: string :=
    "You are an expert news summarizer. Summarize the following text concisely in no more than 100 words:\n\n"

  const AnchorInstruction: string :=
    "You are a professional news anchor. Rewrite the following text into a cohesive, flowing news script that you would read on air. Make it engaging and professional:\n\n"

  const AnchorFallback: string := "Could not generate the news anchor script at this time."

  /** `summarize_text` (lines 79-96). A readable reply becomes the summary
      with its token counts; a swallowed failure gives the truncated text and
      no counts; a quota error and an unreadable reply escape as errors. */
  function SummarizeText(text: string, provider: string -> ApiOutcome, env: Env): (r: Outcome<(string, Option<Usage>)>)
    ensures var reply := provider(SummaryInstruction + text);
            && (r.result.Err? <==> reply.QuotaExceeded? || reply == Responded(Unreadable))
            && (r.result.Err? && reply.QuotaExceeded? ==> r.result.error == RateLimitExceeded)
            && (r.result.Err? && !reply.QuotaExceeded? ==> r.result.error == ResponseUnreadable)
            && (r.result.Ok? && r.result.value.1.None? <==> reply.OtherError?)
            && (r.result.Ok? && r.result.value.1.None? ==> r.result.value.0 == Truncated(text))
            && (r.result.Ok? && r.result.value.1.Some? ==>
                  reply == Responded(Readable(r.result.value.0, r.result.value.1.value)))
    ensures r.log == if provider(SummaryInstruction + text).QuotaExceeded?
                     then Record(env.log, env.now, env.storeFails) else env.log
  {
    var call := CallGoogleApi(SummaryInstruction + text, provider, env);
    match call.result
    case Err(e) => Outcome(Err(e), call.log)
    case Ok(None) => Outcome(Ok((Truncated(text), None)), call.log)
    case Ok(Some(Unreadable)) => Outcome(Err(ResponseUnreadable), call.log)
    case Ok(Some(Readable(summary, usage))) => Outcome(Ok((summary, Some(usage))), call.log)
  }

  /** `rephrase_as_anchor` (lines 98-114): the same shape as `SummarizeText`,
      with a fixed apology as the fallback. */
  function RephraseAsAnchor(text: string, provider: string -> ApiOutcome, env: Env): (r: Outcome<(string, Option<Usage>)>)
    ensures var reply := provider(AnchorInstruction + text);
            && (r.result.Err? <==> reply.QuotaExceeded? || reply == Responded(Unreadable))
            && (r.result.Err? && reply.QuotaExceeded? ==> r.result.error == RateLimitExceeded)
            && (r.result.Err? && !reply.QuotaExceeded? ==> r.result.error == ResponseUnreadable)
            && (r.result.Ok? && r.result.value.1.None? <==> reply.OtherError?)
            && (r.result.Ok? && r.result.value.1.None? ==> r.result.value.0 == AnchorFallback)
            && (r.result.Ok? && r.result.value.1.Some? ==>
                  reply == Responded(Readable(r.result.value.0, r.result.value.1.value)))
    ensures r.log == if provider(AnchorInstruction + text).QuotaExceeded?
                     then Record(env.log, env.now, env.storeFails) else env.log
  {
    var call := CallGoogleApi(AnchorInstruction + text, provider, env);
    match call.result
    case Err(e) => Outcome(Err(e), call.log)
    case Ok(None) => Outcome(Ok((AnchorFallback, None)), call.log)
    case Ok(Some(Unreadable)) => Outcome(Err(ResponseUnreadable), call.log)
    case Ok(Some(Readable(script, usage))) => Outcome(Ok((script, Some(usage))), call.log)
  }

  /** The four fixed paragraphs that open the batch prompt (lines 126-131). */
  const BatchInstructions: seq<string> := [
    "You are an expert news summarizer. I will provide a list of articles. For each article, provide a concise and clear summary of no more than 100 words.",
    "Present the output as a numbered list. Each summary must start with 'SUMMARY <number>:' on a new line, where <number> is the article number.",
    "For example:\nSUMMARY 1:\n<summary for article 1>\n\nSUMMARY 2:\n<summary for article 2>",
    "\nHere are the articles:\n"
  ]

  /** One article of the batch prompt, numbered from 1 (line 133). */
  function ArticleSection(number: nat, text: string): string {
    "ARTICLE " + Decimal(number) + ":\n" + text + "\n"
  }

  function ArticleSections(texts: seq<string>): (r: seq<string>)
    ensures |r| == |texts|
    ensures forall i :: 0 <= i < |texts| ==> r[i] == ArticleSection(i + 1, texts[i])
  {
    seq(|texts|, i requires 0 <= i < |texts| => ArticleSection(i + 1, texts[i]))
  }

  /** The whole batch prompt (line 135): instructions then articles, one
      per line. */
  function BatchPrompt(texts: seq<string>): string {
    Join("\n", BatchInstructions + ArticleSections(texts))
  }

  /** The batch prompt opens with all four instruction paragraphs, and with
      articles the first article follows them after a line break. */
  lemma BatchPromptLayout(texts: seq<string>)
    ensures Join("\n", BatchInstructions) <= BatchPrompt(texts)
    ensures texts != [] ==> Join("\n", BatchInstructions) + "\n" + ArticleSection(1, texts[0]) <= BatchPrompt(texts)
  {
    InstructionsOpen(BatchInstructions, texts);
  }

  /** The joined instructions open the prompt; with articles, the first
      article comes right after them and a line break. */
  lemma InstructionsOpen(instructions: seq<string>, texts: seq<string>)
    requires |instructions| > 0
    ensures Join("\n", instructions) <= Join("\n", instructions + ArticleSections(texts))
    ensures texts != [] ==>
              Join("\n", instructions) + "\n" + ArticleSection(1, texts[0])
                <= Join("\n", instructions + ArticleSections(texts))
  {
    var sections := ArticleSections(texts);
    if texts == [] {
      assert instructions + sections == instructions;
    } else {
      JoinAppend("\n", instructions, sections);
      JoinStartsWithFirst("\n", sections);
      var rest := Join("\n", sections);
      assert sections[0] <= rest;
      assert Join("\n", instructions) + "\n" + sections[0]
               <= Join("\n", instructions) + "\n" + rest;
    }
  }

  /** Every article appears in the batch prompt, verbatim, under its number,
      after all the instructions. */
  lemma BatchPromptHasArticle(texts: seq<string>, i: nat)
    requires i < |texts|
    ensures IsInfix(ArticleSection(i + 1, texts[i]), BatchPrompt(texts))
    ensures Join("\n", BatchInstructions) <= BatchPrompt(texts)
  {
    JoinedHasArticle(BatchInstructions, texts, i);
    BatchPromptLayout(texts);
  }

  lemma JoinedHasArticle(instructions: seq<string>, texts: seq<string>, i: nat)
    requires i < |texts|
    ensures IsInfix(ArticleSection(i + 1, texts[i]), Join("\n", instructions + ArticleSections(texts)))
  {
    var parts := instructions + ArticleSections(texts);
    assert parts[|instructions| + i] == ArticleSection(i + 1, texts[i]);
    JoinContains("\n", parts, |instructions| + i);
  }

  /** `summarize_texts_batch` (lines 116-160). An empty batch answers at once.
      Otherwise the model is called once; a quota error escapes; a swallowed
      failure, an unreadable response, or a reply that does not split into
      exactly one summary per text gives the truncated texts; a reply that
      does gives its summaries and the token counts. */
  function SummarizeTextsBatch(texts: seq<string>, provider: string -> ApiOutcome, env: Env)
    : (r: Outcome<(seq<string>, Option<Usage>)>)
    ensures texts == [] ==> r == Outcome(Ok(([], None)), env.log)
    ensures r.result.Err? <==> texts != [] && provider(BatchPrompt(texts)).QuotaExceeded?
    ensures r.result.Err? ==> r.result.error == RateLimitExceeded
                              && r.log == Record(env.log, env.now, env.storeFails)
    ensures r.result.Ok? ==> r.log == env.log && |r.result.value.0| == |texts|
    ensures r.result.Ok? && r.result.value.1.None? ==> r.result.value.0 == Fallback(texts)
    ensures r.result.Ok? && r.result.value.1.Some? <==>
              texts != [] && BatchAccepted(texts, provider(BatchPrompt(texts)))
    ensures r.result.Ok? && r.result.value.1.Some? ==>
              var response := provider(BatchPrompt(texts)).response;
              r.result.value == (ParseSegments(response.text), Some(response.usage))
  {
    if texts == [] then Outcome(Ok(([], None)), env.log)
    else ReadBatchReply(texts, CallGoogleApi(BatchPrompt(texts), provider, env))
  }

  /** Lines 138-160: what the batch makes of the call's outcome. */
  function ReadBatchReply(texts: seq<string>, call: Outcome<Option<Response>>)
    : (r: Outcome<(seq<string>, Option<Usage>)>)
    ensures r.log == call.log
    ensures r.result.Err? <==> call.result.Err?
    ensures r.result.Err? ==> r.result.error == call.result.error
    ensures r.result.Ok? ==> |r.result.value.0| == |texts|
    ensures r.result.Ok? && r.result.value.1.None? ==> r.result.value.0 == Fallback(texts)
    ensures r.result.Ok? && r.result.value.1.Some? <==>
              call.result.Ok? && call.result.value.Some? && BatchAccepted(texts, Responded(call.result.value.value))
    ensures r.result.Ok? && r.result.value.1.Some? ==>
              var response := call.result.value.value;
              r.result.value == (ParseSegments(response.text), Some(response.usage))
  {
    match call.result
    case Err(e) => Outcome(Err(e), call.log)
    case Ok(None) => Outcome(Ok((Fallback(texts), None)), call.log)
    case Ok(Some(Unreadable)) => Outcome(Ok((Fallback(texts), None)), call.log)
    case Ok(Some(Readable(reply, usage))) =>
      var summaries := ParseSegments(reply);
      if |summaries| == |texts| then Outcome(Ok((summaries, Some(usage))), call.log)
      else Outcome(Ok((Fallback(texts), None)), call.log)
  }

  /** The model answered readably with one summary per text. */
  predicate BatchAccepted(texts: seq<string>, outcome: ApiOutcome) {
    outcome.Responded? && outcome.response.Readable?
    && |ParseSegments(outcome.response.text)| == |texts|
  }

  /** A reply written exactly as the prompt asks, `SUMMARY 1:` onwards with a
      blank line between summaries, is accepted and gives back the summaries
      the model wrote, provided none of them is empty, padded, or itself
      contains a `SUMMARY <n>:` marker. */
  lemma RenderedReplyAccepted(texts: seq<string>, sums: seq<string>, usage: Usage, log: Log)
    requires |sums| == |texts|
    requires forall i :: 0 <= i < |sums| ==> WellFormedSummary(sums[i])
    ensures ReadBatchReply(texts, Outcome(Ok(Some(Readable(Render(1, sums), usage))), log))
            == Outcome(Ok((sums, Some(usage))), log)
  {
    ParseRendered(1, sums);
  }

  /** A readable reply that splits into the wrong number of summaries is
      discarded for the truncated texts, counts and all. */
  lemma MiscountFallsBack(texts: seq<string>, reply: string, usage: Usage, log: Log)
    requires |ScanFrom(Strip(reply), 0)| != |texts|
    ensures ReadBatchReply(texts, Outcome(Ok(Some(Readable(reply, usage))), log))
            == Outcome(Ok((Fallback(texts), None)), log)
  {
  }

  /** The batch never touches the log except through the rate limiter. */
  lemma BatchKeepsSpaced(texts: seq<string>, provider: string -> ApiOutcome, env: Env)
    requires Spaced(env.log)
    ensures Spaced(SummarizeTextsBatch(texts, provider, env).log)
  {
    RecordKeepsSpaced(env.log, env.now, env.storeFails);
  }
}
