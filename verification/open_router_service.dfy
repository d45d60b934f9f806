/** The three-step generation protocol (src/services/OpenRouterService.ts).
    The completion endpoint is a script of replies consumed one per call, in call
    order: `None` stands for a transport error or a reply without content, and a
    script that has run out answers `None`. `JSON.parse` followed by reading the
    fields is an abstract partial parser per step. Prompts are not modelled. */
module OpenRouterService {
  import opened Wrappers
  import opened Strings

  datatype GeneratedQuoteResult = GeneratedQuoteResult(
    quote: string, qualityScore: real, viralityScore: real, emotion: string, reason: string)

  datatype QualityCheckResult = QualityCheckResult(score: real, reason: string, approved: bool)

  datatype ViralityScoreResult = ViralityScoreResult(
    viralityScore: real, emotion: string, likelyAudienceReaction: string)

  /** Which branch of a scoring step's `try`/`catch` produced the value. */
  datatype Scored<T> = Parsed(value: T) | Fallback(value: T)

  datatype Step = DraftStep | QualityStep | ViralityStep

  /** The abstract `JSON.parse` of each scoring step; `None` is a thrown parse error. */
  datatype Parsers = Parsers(
    quality: string -> Option<QualityCheckResult>,
    virality: string -> Option<ViralityScoreResult>)

  /** One generation attempt: its result and the completion calls it made, in order. */
  datatype Generation = Generation(result: Result<GeneratedQuoteResult>, calls: seq<Step>)

  /** `generateQuoteWithRetry`: its result, every attempt made, and the back-off
      delays (milliseconds) it waited, in order. */
  datatype RetryOutcome = RetryOutcome(
    result: Result<GeneratedQuoteResult>, attempts: seq<Generation>, delays: seq<int>)

  const LLM_CALL_FAILED: string := "LLM Call failed"
  const REJECTED_PREFIX: string := "Quote rejected by quality filter: "
  const RETRIES_EXHAUSTED: string := "Quote generation failed after retries"
  const DEFAULT_MAX_RETRIES: int := 3
  const QUALITY_FALLBACK: QualityCheckResult := QualityCheckResult(7.0, "Parse error fallback", true)
  const VIRALITY_FALLBACK: ViralityScoreResult := ViralityScoreResult(5.0, "neutral", "average")

  predicate IsQuoteMark(c: char) {
    c == '"' || c == '\''
  }

  /** `cleanText`: trim, then drop one leading and one trailing quote mark (the global
      regex `^["']|["']$` matches each end at most once); nothing is re-trimmed. */
  function CleanText(text: string): (r: string)
    ensures |Trim(text)| - 2 <= |r| <= |Trim(text)|
  {
    var t := Trim(text);
    var a := if |t| > 0 && IsQuoteMark(t[0]) then 1 else 0;
    var b := if |t| > a && IsQuoteMark(t[|t| - 1]) then |t| - 1 else |t|;
    t[a..b]
  }

  /** What `CleanText` keeps: the trimmed text less one leading quote mark exactly when
      it starts with one, and less one trailing quote mark exactly when one is left at
      its end. */
  lemma CleanTextKeeps(text: string)
    ensures
      var t := Trim(text);
      var r := CleanText(text);
      var a := if |t| > 0 && IsQuoteMark(t[0]) then 1 else 0;
      && a + |r| <= |t|
      && r == t[a..a + |r|]
      && (|t| - a - |r| == 1 <==> (|t| > a && IsQuoteMark(t[|t| - 1])))
      && |t| - a - |r| <= 1
  {
  }

  /** Wrapping any text in double quotes, with any whitespace around, and cleaning
      gives the text back, whatever spaces or quote marks it holds inside: only one
      mark comes off each end. */
  lemma CleanTextUnquotes(pre: string, s: string, post: string)
    requires AllWhitespace(pre) && AllWhitespace(post)
    ensures CleanText(pre + ['"'] + s + ['"'] + post) == s
  {
    var q := ['"'] + s + ['"'];
    assert pre + ['"'] + s + ['"'] + post == pre + q + post;
    TrimPadded(pre, q, post);
  }

  /** `String.prototype.match` with `/\{[\s\S]*\}/`: a first '{' that some later '}' follows. */
  predicate HasJsonSpan(s: string) {
    exists i, j :: 0 <= i < j < |s| && s[i] == '{' && s[j] == '}'
  }

  function FirstIndexOf(s: string, c: char): (r: Option<nat>)
    ensures r.None? <==> c !in s
    ensures r.Some? ==> r.value < |s| && s[r.value] == c && c !in s[..r.value]
    decreases |s|
  {
    if |s| == 0 then None
    else if s[0] == c then Some(0)
    else
      match FirstIndexOf(s[1..], c)
      case None => None
      case Some(i) =>
        assert s[..i + 1] == [s[0]] + s[1..][..i];
        Some(i + 1)
  }

  function LastIndexOf(s: string, c: char): (r: Option<nat>)
    ensures r.None? <==> c !in s
    ensures r.Some? ==> r.value < |s| && s[r.value] == c && c !in s[r.value + 1..]
    decreases |s|
  {
    if |s| == 0 then None
    else if s[|s| - 1] == c then Some(|s| - 1)
    else
      var r := LastIndexOf(s[..|s| - 1], c);
      assert r.Some? ==> s[r.value + 1..] == s[..|s| - 1][r.value + 1..] + [s[|s| - 1]];
      assert r.None? ==> s == s[..|s| - 1] + [s[|s| - 1]];
      r
  }

  /** The JSON candidate of lines 160-161: the greedy span from the first '{' to the
      last '}', or the whole reply when there is no such span. */
  function ExtractJson(s: string): (r: string)
    ensures !HasJsonSpan(s) ==> r == s
    ensures HasJsonSpan(s) ==>
      && |r| >= 2 && r[0] == '{' && r[|r| - 1] == '}'
      && exists i :: 0 <= i <= |s| - |r| && r == s[i..i + |r|] && '{' !in s[..i] && '}' !in s[i + |r|..]
  {
    match (FirstIndexOf(s, '{'), LastIndexOf(s, '}'))
    case (Some(i), Some(j)) =>
      if i < j then
        assert s[i..][..j + 1 - i] == s[i..j + 1];
        s[i..j + 1]
      else
        assert !HasJsonSpan(s) by {
          forall i', j' | 0 <= i' < j' < |s| && s[i'] == '{' && s[j'] == '}'
            ensures false
          {
          }
        }
        s
    case _ =>
      s
  }

  /** Greedy: prose around a brace-delimited span is cut away, and whatever lies between
      the first '{' and the last '}' is kept, braces and prose included. */
  lemma ExtractJsonIsGreedy(before: string, inner: string, after: string)
    requires '{' !in before && '}' !in after
    ensures ExtractJson(before + "{" + inner + "}" + after) == "{" + inner + "}"
  {
    var span := "{" + inner + "}";
    var s := before + span + after;
    assert before + "{" + inner + "}" + after == s;
    SliceThree(before, span, after);
    assert s[|before|] == span[0] && s[|before| + |span| - 1] == span[|span| - 1];
    ExtractJsonBetween(s, |before|, |before| + |span| - 1);
  }

  /** The three parts of a concatenation are its slices. */
  lemma SliceThree(a: string, b: string, c: string)
    ensures (a + b + c)[..|a|] == a
    ensures (a + b + c)[|a|..|a| + |b|] == b
    ensures (a + b + c)[|a| + |b|..] == c
  {
  }

  /** The candidate runs from a '{' with none before it to a '}' with none after it. */
  lemma ExtractJsonBetween(s: string, i: nat, j: nat)
    requires i < j < |s| && s[i] == '{' && s[j] == '}'
    requires '{' !in s[..i] && '}' !in s[j + 1..]
    ensures ExtractJson(s) == s[i..j + 1]
  {
    FirstIndexAt(s, '{', i);
    LastIndexAt(s, '}', j);
  }

  /** The first occurrence is the one with none before it. */
  lemma {:induction false} FirstIndexAt(s: string, c: char, k: nat)
    requires k < |s| && s[k] == c && c !in s[..k]
    ensures FirstIndexOf(s, c) == Some(k)
    decreases k
  {
    if k > 0 {
      assert s[..k][0] == s[0];
      assert s[1..][..k - 1] == s[..k][1..];
      FirstIndexAt(s[1..], c, k - 1);
    }
  }

  /** The last occurrence is the one with none after it. */
  lemma {:induction false} LastIndexAt(s: string, c: char, k: nat)
    requires k < |s| && s[k] == c && c !in s[k + 1..]
    ensures LastIndexOf(s, c) == Some(k)
    decreases |s| - k
  {
    if k < |s| - 1 {
      assert s[k + 1..][|s| - k - 2] == s[|s| - 1];
      assert s[..|s| - 1][k + 1..] == s[k + 1..][..|s| - k - 2];
      LastIndexAt(s[..|s| - 1], c, k);
    }
  }

  /** The reply to call number `i` of a script. */
  function Reply(replies: seq<Option<string>>, i: nat): Option<string> {
    if i < |replies| then replies[i] else None
  }

  /** What is left of a script after `n` calls. */
  function Drop(replies: seq<Option<string>>, n: nat): (r: seq<Option<string>>)
    ensures forall i: nat :: Reply(r, i) == Reply(replies, n + i)
  {
    if n <= |replies| then replies[n..] else []
  }

  /** `callLlm`: a missing or empty content is an error, every failure is reported as
      "LLM Call failed", and a reply is always cleaned. */
  function CallLlm(reply: Option<string>): (r: Result<string>)
    ensures r.Failure? <==> reply.None? || reply.value == ""
    ensures r.Failure? ==> r.error == LLM_CALL_FAILED
    ensures r.Success? ==> r.value == CleanText(reply.value)
  {
    match reply
    case None => Failure(LLM_CALL_FAILED)
    case Some(content) => if content == "" then Failure(LLM_CALL_FAILED) else Success(CleanText(content))
  }

  /** `stepQualityCheck`: an unparseable reply fails open as an approval with score 7. */
  function QualityCheck(reply: Option<string>, parse: string -> Option<QualityCheckResult>): (r: Result<Scored<QualityCheckResult>>)
    ensures r.Failure? <==> CallLlm(reply).Failure?
    ensures r.Failure? ==> r.error == LLM_CALL_FAILED
    ensures r.Success? && r.value.Fallback? ==> r.value.value == QUALITY_FALLBACK && r.value.value.approved
    ensures r.Success? ==>
      (r.value.Parsed? <==> parse(ExtractJson(CallLlm(reply).value)).Some?)
    ensures r.Success? && r.value.Parsed? ==> r.value.value == parse(ExtractJson(CallLlm(reply).value)).value
  {
    var response :- CallLlm(reply);
    match parse(ExtractJson(response))
    case Some(q) => Success(Parsed(q))
    case None => Success(Fallback(QUALITY_FALLBACK))
  }

  /** `stepViralityScore`: an unparseable reply scores 5, "neutral", "average". */
  function ViralityScore(reply: Option<string>, parse: string -> Option<ViralityScoreResult>): (r: Result<Scored<ViralityScoreResult>>)
    ensures r.Failure? <==> CallLlm(reply).Failure?
    ensures r.Failure? ==> r.error == LLM_CALL_FAILED
    ensures r.Success? && r.value.Fallback? ==> r.value.value == VIRALITY_FALLBACK
    ensures r.Success? ==>
      (r.value.Parsed? <==> parse(ExtractJson(CallLlm(reply).value)).Some?)
    ensures r.Success? && r.value.Parsed? ==> r.value.value == parse(ExtractJson(CallLlm(reply).value)).value
  {
    var response :- CallLlm(reply);
    match parse(ExtractJson(response))
    case Some(v) => Success(Parsed(v))
    case None => Success(Fallback(VIRALITY_FALLBACK))
  }

  /** A reply whose JSON candidate parses is scored by exactly what the parser read, in
      both steps; the fallbacks are used only when parsing fails. */
  lemma ScoresComeFromTheReply(reply: Option<string>, parsers: Parsers)
    requires CallLlm(reply).Success?
    ensures var text := ExtractJson(CallLlm(reply).value);
      && (parsers.quality(text).Some? ==> QualityCheck(reply, parsers.quality) == Success(Parsed(parsers.quality(text).value)))
      && (parsers.quality(text).None? ==> QualityCheck(reply, parsers.quality) == Success(Fallback(QUALITY_FALLBACK)))
      && (parsers.virality(text).Some? ==> ViralityScore(reply, parsers.virality) == Success(Parsed(parsers.virality(text).value)))
      && (parsers.virality(text).None? ==> ViralityScore(reply, parsers.virality) == Success(Fallback(VIRALITY_FALLBACK)))
  {
  }

  /** The protocol of `generateQuote` on its three step results: a failed draft ends it,
      a failed or rejecting quality check ends it, and only an approved draft is scored.
      The steps are pure here, so all three results may be given up front; `calls`
      records the ones the code actually makes. */
  function Combine(draft: Result<string>, quality: Result<Scored<QualityCheckResult>>,
                   virality: Result<Scored<ViralityScoreResult>>): (r: Generation)
    ensures 1 <= |r.calls| <= 3
    ensures r.calls == [DraftStep, QualityStep, ViralityStep][..|r.calls|]
    ensures |r.calls| == 1 <==> draft.Failure?
    ensures |r.calls| == 3 <==> draft.Success? && quality.Success? && quality.value.value.approved
    ensures r.result.Success? <==> |r.calls| == 3 && virality.Success?
    ensures r.result.Success? ==>
      r.result.value == GeneratedQuoteResult(draft.value, quality.value.value.score,
                                             virality.value.value.viralityScore, virality.value.value.emotion,
                                             virality.value.value.likelyAudienceReaction)
    ensures |r.calls| == 1 ==> r.result == Failure(draft.error)
    ensures |r.calls| == 2 && quality.Failure? ==> r.result == Failure(quality.error)
    ensures |r.calls| == 2 && quality.Success? ==> r.result == Failure(REJECTED_PREFIX + quality.value.value.reason)
    ensures |r.calls| == 3 && virality.Failure? ==> r.result == Failure(virality.error)
  {
    match draft
    case Failure(e) => Generation(Failure(e), [DraftStep])
    case Success(quote) =>
      match quality
      case Failure(e) => Generation(Failure(e), [DraftStep, QualityStep])
      case Success(q) =>
        if !q.value.approved then
          Generation(Failure(REJECTED_PREFIX + q.value.reason), [DraftStep, QualityStep])
        else
          match virality
          case Failure(e) => Generation(Failure(e), [DraftStep, QualityStep, ViralityStep])
          case Success(v) =>
            Generation(Success(GeneratedQuoteResult(quote, q.value.score, v.value.viralityScore,
                                                    v.value.emotion, v.value.likelyAudienceReaction)),
                       [DraftStep, QualityStep, ViralityStep])
  }

  /** `generateQuote`: draft, quality, then virality, each on the next reply of the
      script; virality is only asked for an approved draft, and every failure is the
      "LLM Call failed" error except a rejection, which carries the checker's reason. */
  function GenerateQuote(replies: seq<Option<string>>, parsers: Parsers): (r: Generation)
    ensures 1 <= |r.calls| <= 3
    ensures r.calls == [DraftStep, QualityStep, ViralityStep][..|r.calls|]
    ensures |r.calls| == 1 <==> CallLlm(Reply(replies, 0)).Failure?
    ensures |r.calls| == 3 <==>
      && CallLlm(Reply(replies, 0)).Success?
      && QualityCheck(Reply(replies, 1), parsers.quality).Success?
      && QualityCheck(Reply(replies, 1), parsers.quality).value.value.approved
    ensures r.result.Success? <==> |r.calls| == 3 && ViralityScore(Reply(replies, 2), parsers.virality).Success?
    ensures r.result.Success? ==>
      var quality := QualityCheck(Reply(replies, 1), parsers.quality).value.value;
      var virality := ViralityScore(Reply(replies, 2), parsers.virality).value.value;
      r.result.value == GeneratedQuoteResult(CallLlm(Reply(replies, 0)).value, quality.score,
                                             virality.viralityScore, virality.emotion,
                                             virality.likelyAudienceReaction)
    ensures |r.calls| == 2 && QualityCheck(Reply(replies, 1), parsers.quality).Success? ==>
      r.result == Failure(REJECTED_PREFIX + QualityCheck(Reply(replies, 1), parsers.quality).value.value.reason)
    ensures r.result.Failure? && !(|r.calls| == 2 && QualityCheck(Reply(replies, 1), parsers.quality).Success?) ==>
      r.result.error == LLM_CALL_FAILED
  {
    Combine(CallLlm(Reply(replies, 0)), QualityCheck(Reply(replies, 1), parsers.quality),
            ViralityScore(Reply(replies, 2), parsers.virality))
  }

  /** An unparseable quality reply never blocks: the draft goes on to the virality step. */
  lemma QualityFailsOpen(replies: seq<Option<string>>, parsers: Parsers)
    requires CallLlm(Reply(replies, 0)).Success? && CallLlm(Reply(replies, 1)).Success?
    requires parsers.quality(ExtractJson(CallLlm(Reply(replies, 1)).value)).None?
    ensures GenerateQuote(replies, parsers).calls == [DraftStep, QualityStep, ViralityStep]
    ensures GenerateQuote(replies, parsers).result.Success? ==>
              GenerateQuote(replies, parsers).result.value.qualityScore == 7.0
  {
  }

  /** The number of completion calls a list of attempts used. */
  function Consumed(gs: seq<Generation>): nat
    decreases |gs|
  {
    if |gs| == 0 then 0 else |gs[0].calls| + Consumed(gs[1..])
  }

  /** One attempt of the retry loop on a script: a generation as a value, so the
      loop is described for any attempt. */
  function Attempt(parsers: Parsers): seq<Option<string>> -> Generation {
    replies => GenerateQuote(replies, parsers)
  }

  /** Each attempt of `attempts` is `generate` run on the script left by the ones
      before it. */
  predicate Chained(generate: seq<Option<string>> -> Generation, replies: seq<Option<string>>, attempts: seq<Generation>)
    decreases |attempts|
  {
    |attempts| == 0 ||
    (attempts[0] == generate(replies) &&
     Chained(generate, Drop(replies, |attempts[0].calls|), attempts[1..]))
  }

  lemma DropDrop(replies: seq<Option<string>>, a: nat, b: nat)
    ensures Drop(Drop(replies, a), b) == Drop(replies, a + b)
  {
  }

  /** Chaining spelled out: attempt `k` reads the script from just after the calls
      of attempts `0..k`. */
  lemma {:induction false} ChainedAt(generate: seq<Option<string>> -> Generation, replies: seq<Option<string>>,
                                     attempts: seq<Generation>, k: nat)
    requires Chained(generate, replies, attempts)
    requires k < |attempts|
    ensures attempts[k] == generate(Drop(replies, Consumed(attempts[..k])))
    decreases k
  {
    if k == 0 {
      assert Drop(replies, 0) == replies;
    } else {
      var first := |attempts[0].calls|;
      ChainedAt(generate, Drop(replies, first), attempts[1..], k - 1);
      assert attempts[..k][1..] == attempts[1..][..k - 1];
      DropDrop(replies, first, Consumed(attempts[1..][..k - 1]));
    }
  }

  /** Attempts `attempt`..`maxRetries` of the loop at lines 255-265, on what is left of
      the script. */
  function RetryFrom(generate: seq<Option<string>> -> Generation, replies: seq<Option<string>>,
                     attempt: nat, maxRetries: int): (r: RetryOutcome)
    requires 1 <= attempt <= maxRetries
    ensures 1 <= |r.attempts| <= maxRetries - attempt + 1
    ensures Chained(generate, replies, r.attempts)
    ensures forall k :: 0 <= k < |r.attempts| - 1 ==> r.attempts[k].result.Failure?
    ensures r.result == r.attempts[|r.attempts| - 1].result
    ensures r.result.Failure? ==> |r.attempts| == maxRetries - attempt + 1
    ensures |r.delays| == |r.attempts| - (if r.result.Success? then 1 else 0)
    ensures forall k :: 0 <= k < |r.delays| ==> r.delays[k] == 1000 * (attempt + k)
    decreases maxRetries - attempt
  {
    var g := generate(replies);
    if g.result.Success? then RetryOutcome(g.result, [g], [])
    else if attempt == maxRetries then RetryOutcome(g.result, [g], [1000 * attempt])
    else
      var rest := RetryFrom(generate, Drop(replies, |g.calls|), attempt + 1, maxRetries);
      assert ([g] + rest.attempts)[1..] == rest.attempts;
      RetryOutcome(rest.result, [g] + rest.attempts, [1000 * attempt] + rest.delays)
  }

  /** `generateQuoteWithRetry(params, maxRetries)`: up to `maxRetries` attempts, the
      first success returned, otherwise the last attempt's error (or a generic one when
      no attempt ran); after every failed attempt, the last included, it waits
      1000 * attempt ms. */
  function GenerateQuoteWithRetry(replies: seq<Option<string>>, parsers: Parsers, maxRetries: int): (r: RetryOutcome)
    ensures maxRetries < 1 ==> r == RetryOutcome(Failure(RETRIES_EXHAUSTED), [], [])
    ensures maxRetries >= 1 ==> 1 <= |r.attempts| <= maxRetries
    ensures Chained(Attempt(parsers), replies, r.attempts)
    ensures forall k :: 0 <= k < |r.attempts| - 1 ==> r.attempts[k].result.Failure?
    ensures |r.attempts| > 0 ==> r.result == r.attempts[|r.attempts| - 1].result
    ensures r.result.Failure? && maxRetries >= 1 ==> |r.attempts| == maxRetries
    ensures |r.delays| == |r.attempts| - (if r.result.Success? then 1 else 0)
    ensures forall k :: 0 <= k < |r.delays| ==> r.delays[k] == 1000 * (k + 1)
  {
    if maxRetries < 1 then RetryOutcome(Failure(RETRIES_EXHAUSTED), [], [])
    else RetryFrom(Attempt(parsers), replies, 1, maxRetries)
  }
}
