/** Bounded retry and recovery against a provider (`src/brains/llm.ts`). What the provider
    does is an arbitrary function of the number of the post; delays are left out. */
module Transport {
  import opened Contract
  import T = Text

  // ----- Usage -----

  datatype Usage = Usage(
    promptTokens: int,
    completionTokens: int,
    cachedPromptTokens: Option<int>,
    costUsd: Option<real>)

  const ZERO_USAGE := Usage(0, 0, None, None)

  /** `sumUsage`: an optional figure is present when either side reported it. */
  function SumUsage(a: Usage, b: Usage): Usage {
    Usage(
      a.promptTokens + b.promptTokens,
      a.completionTokens + b.completionTokens,
      if a.cachedPromptTokens.None? && b.cachedPromptTokens.None? then None
      else Some((if a.cachedPromptTokens.Some? then a.cachedPromptTokens.value else 0)
                + (if b.cachedPromptTokens.Some? then b.cachedPromptTokens.value else 0)),
      if a.costUsd.None? && b.costUsd.None? then None
      else Some((if a.costUsd.Some? then a.costUsd.value else 0.0)
                + (if b.costUsd.Some? then b.costUsd.value else 0.0)))
  }

  /** Usage can be summed in any grouping and order. */
  lemma {:induction false} UsageIsAMonoid(a: Usage, b: Usage, c: Usage)
    ensures SumUsage(a, SumUsage(b, c)) == SumUsage(SumUsage(a, b), c)
    ensures SumUsage(a, b) == SumUsage(b, a)
    ensures SumUsage(ZERO_USAGE, a) == a == SumUsage(a, ZERO_USAGE)
  {
  }

  /** Figure by figure: tokens add up, and an optional figure is the sum of those reported. */
  lemma {:induction false} UsageAdds(a: Usage, b: Usage)
    ensures var r := SumUsage(a, b);
      && r.promptTokens == a.promptTokens + b.promptTokens
      && r.completionTokens == a.completionTokens + b.completionTokens
      && (b.cachedPromptTokens == None ==> r.cachedPromptTokens == a.cachedPromptTokens)
      && (a.cachedPromptTokens == None ==> r.cachedPromptTokens == b.cachedPromptTokens)
      && (forall x, y | a.cachedPromptTokens == Some(x) && b.cachedPromptTokens == Some(y) ::
            r.cachedPromptTokens == Some(x + y))
      && (b.costUsd == None ==> r.costUsd == a.costUsd) && (a.costUsd == None ==> r.costUsd == b.costUsd)
      && (forall x, y | a.costUsd == Some(x) && b.costUsd == Some(y) :: r.costUsd == Some(x + y))
  {
  }

  /** The total of a step that was re-prompted once, as `mergeMalformedStepRetry` adds it. */
  function RepromptedUsage(first: Usage, second: Usage): Usage {
    Usage(
      first.promptTokens + second.promptTokens,
      first.completionTokens + second.completionTokens,
      None,
      if first.costUsd.None? && second.costUsd.None? then None
      else Some((if first.costUsd.Some? then first.costUsd.value else 0.0)
                + (if second.costUsd.Some? then second.costUsd.value else 0.0)))
  }

  /** It is the sum of the two usages exactly when neither reports cached tokens; otherwise
      those are dropped and everything else agrees. */
  lemma {:induction false} RepromptDropsCachedTokens(first: Usage, second: Usage)
    ensures RepromptedUsage(first, second) == SumUsage(first, second) <==>
      first.cachedPromptTokens.None? && second.cachedPromptTokens.None?
    ensures RepromptedUsage(first, second) == SumUsage(first, second).(cachedPromptTokens := None)
  {
  }

  // ----- One post -----

  datatype Body = Read(text: string) | Unreadable(message: string, timeout: bool)

  datatype Post = NetworkFault(message: string, timeout: bool) | Responded(status: nat, body: Body)

  const MAX_RETRIES := 3

  predicate Ok(status: nat) { 200 <= status < 300 }

  /** `classifyStatus`: whatever is not known to be transient is terminal. */
  predicate Retryable(status: nat) { status == 429 || 500 <= status < 600 }

  /** The number of posts a loop makes: up to the first that settles, but no more than one
      and the retries. */
  function PostsFrom(settles: nat -> bool, attempt: nat): (n: nat)
    requires attempt <= MAX_RETRIES
    ensures attempt < n <= MAX_RETRIES + 1
    ensures forall k | attempt <= k < n - 1 :: !settles(k)
    ensures n <= MAX_RETRIES ==> settles(n - 1)
    decreases MAX_RETRIES - attempt
  {
    if settles(attempt) || attempt == MAX_RETRIES then attempt + 1 else PostsFrom(settles, attempt + 1)
  }

  function Posts(settles: nat -> bool): nat { PostsFrom(settles, 0) }

  lemma {:induction false} PostsAre(settles: nat -> bool, n: nat)
    requires 0 < n <= MAX_RETRIES + 1
    requires forall k: nat | k < n - 1 :: !settles(k)
    requires n <= MAX_RETRIES ==> settles(n - 1)
    ensures n == Posts(settles)
  {
  }

  // ----- The step fetch -----

  /** No retry could follow: an answer, a terminal status, or an error whose text is lost. */
  predicate StepSettles(p: Post) {
    p.Responded? && (if Ok(p.status) then p.body.Read? else p.body.Unreadable? || !Retryable(p.status))
  }

  /** When the step fetch stops, by status: a read response unless it is a 429 or a 5xx, an
      unreadable one unless it is a 2xx; never at a network fault. */
  lemma {:induction false} StepSettlesIff(p: Post)
    ensures StepSettles(p) <==>
      match p
      case NetworkFault(_, _) => false
      case Responded(status, Read(_)) => status != 429 && (status < 500 || status > 599)
      case Responded(status, Unreadable(_, _)) => status < 200 || status > 299
  {
  }

  function Settling(replies: nat -> Post): nat -> bool {
    (k: nat) => StepSettles(replies(k))
  }

  datatype StepResult =
    | BodyText(text: string)
    | TransportFailure(message: string, timeout: bool)
    | HttpFailure(status: nat, text: string)
    | ErrorTextLost(message: string)

  /** What a fetch that ends with this post returns or throws. */
  function StepEnding(p: Post): StepResult {
    match p
    case NetworkFault(message, timeout) => TransportFailure(message, timeout)
    case Responded(status, Read(text)) => if Ok(status) then BodyText(text) else HttpFailure(status, text)
    case Responded(status, Unreadable(message, timeout)) =>
      if Ok(status) then TransportFailure(message, timeout) else ErrorTextLost(message)
  }

  /** What ends the step fetch, by status. */
  lemma {:induction false} StepEndings(p: Post)
    ensures
      match p
      case NetworkFault(message, timeout) => StepEnding(p) == TransportFailure(message, timeout)
      case Responded(status, Read(text)) =>
        StepEnding(p) == if 200 <= status <= 299 then BodyText(text) else HttpFailure(status, text)
      case Responded(status, Unreadable(message, timeout)) =>
        StepEnding(p) == if 200 <= status <= 299 then TransportFailure(message, timeout) else ErrorTextLost(message)
  {
  }

  function Fault(message: string, timeout: bool): string {
    if timeout then "network timeout" else message
  }

  /** The incident that a retry of this post is logged under. */
  function Incident(p: Post): string {
    match p
    case NetworkFault(message, timeout) => Fault(message, timeout)
    case Responded(status, Read(text)) =>
      "HTTP " + T.Digits(status) + ": " + text[..if |text| < 200 then |text| else 200]
    case Responded(status, Unreadable(message, timeout)) => Fault(message, timeout)
  }

  /** What a retry is logged under: a timeout, the words of the fault, or the status with the
      first two hundred characters of the answer. */
  lemma {:induction false} IncidentTells(p: Post)
    ensures
      match p
      case NetworkFault(message, timeout) => Incident(p) == if timeout then "network timeout" else message
      case Responded(_, Unreadable(message, timeout)) =>
        Incident(p) == if timeout then "network timeout" else message
      case Responded(status, Read(text)) =>
        var head := "HTTP " + T.Digits(status) + ": ";
        && head <= Incident(p) && Incident(p)[|head|..] <= text
        && |Incident(p)| == |head| + (if |text| < 200 then |text| else 200)
  {
    if p.Responded? && p.body.Read? {
      var head := "HTTP " + T.Digits(p.status) + ": ";
      var shown := p.body.text[..if |p.body.text| < 200 then |p.body.text| else 200];
      assert Incident(p) == head + shown;
      assert (head + shown)[|head|..] == shown;
    }
  }

  function Incidents(replies: nat -> Post, n: nat): seq<string> {
    if n == 0 then [] else Incidents(replies, n - 1) + [Incident(replies(n - 1))]
  }

  /** `fetchStepResponse`: at most four posts, ending at the first that settles; every post
      but the last leaves one incident. */
  method FetchStepResponse(replies: nat -> Post, transportIncidents: seq<string>)
    returns (r: StepResult, posts: nat, incidents: seq<string>)
    ensures posts == Posts(Settling(replies))
    ensures r == StepEnding(replies(posts - 1))
    ensures incidents == transportIncidents + Incidents(replies, posts - 1)
  {
    var attempt: nat := 0;
    incidents := transportIncidents;
    while true
      invariant attempt <= MAX_RETRIES
      invariant forall k: nat | k < attempt :: !StepSettles(replies(k))
      invariant incidents == transportIncidents + Incidents(replies, attempt)
      decreases MAX_RETRIES - attempt
    {
      var response := replies(attempt);
      if response.NetworkFault? {
        if attempt < MAX_RETRIES {
          incidents := incidents + [Fault(response.message, response.timeout)];
          attempt := attempt + 1;
          continue;
        }
        r := TransportFailure(response.message, response.timeout);
        break;
      }
      if Ok(response.status) {
        if response.body.Unreadable? {
          if attempt < MAX_RETRIES {
            incidents := incidents + [Fault(response.body.message, response.body.timeout)];
            attempt := attempt + 1;
            continue;
          }
          r := TransportFailure(response.body.message, response.body.timeout);
          break;
        }
        r := BodyText(response.body.text);
        break;
      }
      if response.body.Unreadable? {
        r := ErrorTextLost(response.body.message);
        break;
      }
      if !Retryable(response.status) || attempt >= MAX_RETRIES {
        r := HttpFailure(response.status, response.body.text);
        break;
      }
      incidents := incidents + [Incident(response)];
      attempt := attempt + 1;
    }
    posts := attempt + 1;
    PostsAre(Settling(replies), posts);
  }

  /** One incident per retry, each telling of the post it retried. */
  lemma {:induction false} OneIncidentPerRetry(replies: nat -> Post, n: nat)
    ensures |Incidents(replies, n)| == n
    ensures forall k | 0 <= k < n :: Incidents(replies, n)[k] == Incident(replies(k))
  {
    if n > 0 { OneIncidentPerRetry(replies, n - 1); }
  }

  // ----- The completion call -----

  datatype Completion = Completion(content: string, usage: Usage, truncated: bool)

  datatype Call = Completed(completion: Completion) | Thrown(message: string)

  const OWN_ERROR := "LLM request failed"

  /** The call's own error, which its catch clause lets out. */
  predicate Own(message: string) { OWN_ERROR <= message }

  function HttpError(status: nat, text: string): string {
    OWN_ERROR + " (" + T.Digits(status) + "): " + text
  }

  /** What a call that ends with this post returns or throws; `decode` parses a body. */
  function CallEnding(decode: string -> Call, p: Post): Call {
    match p
    case NetworkFault(message, _) => Thrown(message)
    case Responded(status, Read(text)) => if Ok(status) then decode(text) else Thrown(HttpError(status, text))
    case Responded(status, Unreadable(message, _)) => Thrown(message)
  }

  /** No retry could follow: a completion, a terminal status, or an error worded like the
      call's own. Here a lost error text is retried like a network fault. */
  predicate CallSettles(decode: string -> Call, p: Post) {
    if p.Responded? && !Ok(p.status) && p.body.Read? then !Retryable(p.status)
    else CallEnding(decode, p).Completed? || Own(CallEnding(decode, p).message)
  }

  /** When the completion call stops, and with what: a failed status that is neither a 429 nor
      a 5xx; a decoded completion; an error worded like its own. */
  lemma {:induction false} CallSettlesIff(decode: string -> Call, p: Post)
    ensures
      match p
      case NetworkFault(message, _) =>
        CallEnding(decode, p) == Thrown(message) && (CallSettles(decode, p) <==> "LLM request failed" <= message)
      case Responded(_, Unreadable(message, _)) =>
        CallEnding(decode, p) == Thrown(message) && (CallSettles(decode, p) <==> "LLM request failed" <= message)
      case Responded(status, Read(text)) =>
        if 200 <= status <= 299 then
          && CallEnding(decode, p) == decode(text)
          && (CallSettles(decode, p) <==> decode(text).Completed? || "LLM request failed" <= decode(text).message)
        else
          && CallEnding(decode, p) == Thrown("LLM request failed (" + T.Digits(status) + "): " + text)
          && (CallSettles(decode, p) <==> status != 429 && (status < 500 || status > 599))
  {
  }

  function CallSettling(decode: string -> Call, replies: nat -> Post): nat -> bool {
    (k: nat) => CallSettles(decode, replies(k))
  }

  function CallPosts(decode: string -> Call, replies: nat -> Post): (n: nat)
    ensures 0 < n <= MAX_RETRIES + 1
  {
    Posts(CallSettling(decode, replies))
  }

  function CallResult(decode: string -> Call, replies: nat -> Post): Call {
    CallEnding(decode, replies(CallPosts(decode, replies) - 1))
  }

  /** `callCompletions`. */
  method CallCompletions(decode: string -> Call, replies: nat -> Post) returns (r: Call, posts: nat)
    ensures posts == CallPosts(decode, replies)
    ensures r == CallResult(decode, replies)
  {
    var attempt: nat := 0;
    while true
      invariant attempt <= MAX_RETRIES
      invariant forall k: nat | k < attempt :: !CallSettles(decode, replies(k))
      decreases MAX_RETRIES - attempt
    {
      var response := replies(attempt);
      if response.Responded? && !Ok(response.status) && response.body.Read? {
        if Retryable(response.status) && attempt < MAX_RETRIES {
          attempt := attempt + 1;
          continue;
        }
        r := Thrown(HttpError(response.status, response.body.text));
        break;
      }
      r := CallEnding(decode, response);
      if r.Completed? || Own(r.message) { break; }
      if attempt < MAX_RETRIES {
        attempt := attempt + 1;
        continue;
      }
      break;
    }
    posts := attempt + 1;
    PostsAre(CallSettling(decode, replies), posts);
  }

  // ----- Recovering a non-delivery -----

  datatype Cause = Truncated | Refusal | EmptyResponse | ParseDrop

  datatype Diagnosis = Diagnosis(reason: Cause, rawSample: string)

  /** `resolve`: the model for a tier, or the error that no model meets the needs. */
  datatype Target = Uses(model: string) | Unmet(message: string)

  /** The brain as `produce` sees it: how a completion is parsed, what reads as a refusal,
      what the provider does on each post of each completion, and what the call's tier and
      the middle tier resolve to. */
  datatype Brain = Brain(
    decode: string -> Call,
    parse: string -> Artifact,
    refuses: string -> bool,
    provider: (nat, nat) -> Post,
    target: Target,
    mid: Target)

  predicate IsEmptyArtifact(a: Artifact) {
    match a
    case Files(files) => files == []
    case Text(text) => T.Trim(text) == ""
  }

  function DiagnoseEmpty(b: Brain, c: Completion): Diagnosis {
    var sample := c.content[..if |c.content| < 200 then |c.content| else 200];
    if c.truncated then Diagnosis(Truncated, sample)
    else if b.refuses(T.Trim(c.content)) then Diagnosis(Refusal, sample)
    else if T.Trim(c.content) == "" then Diagnosis(EmptyResponse, sample)
    else Diagnosis(ParseDrop, sample)
  }

  /** `nonDeliveryReason`. */
  function NonDeliveryReason(b: Brain, c: Completion): Option<Diagnosis> {
    var artifact := b.parse(c.content);
    if IsEmptyArtifact(artifact) || c.truncated || (artifact.Text? && b.refuses(T.Trim(artifact.text)))
    then Some(DiagnoseEmpty(b, c)) else None
  }

  predicate Delivers(b: Brain, c: Completion) { NonDeliveryReason(b, c).None? }

  /** A completion delivers exactly when it was not cut off and what it parses to is a file at
      least, or a text that is not blank and does not read as a refusal. */
  lemma {:induction false} DeliversIff(b: Brain, c: Completion)
    ensures Delivers(b, c) <==>
      && !c.truncated
      && (match b.parse(c.content)
          case Files(files) => files != []
          case Text(text) => !T.Blank(text) && !b.refuses(T.Trim(text)))
  {
    if b.parse(c.content).Text? { T.TrimEmptyIffBlank(b.parse(c.content).text); }
  }

  /** Why a completion was not delivered, with its first two hundred characters: it was cut
      off, or else reads as a refusal, or else is blank, or else was lost in parsing. */
  lemma {:induction false} DiagnosisExplained(b: Brain, c: Completion)
    requires !Delivers(b, c)
    ensures var d := NonDeliveryReason(b, c).value;
      && (d.reason == Truncated <==> c.truncated)
      && (d.reason == Refusal <==> !c.truncated && b.refuses(T.Trim(c.content)))
      && (d.reason == EmptyResponse <==> !c.truncated && !b.refuses(T.Trim(c.content)) && T.Blank(c.content))
      && d.rawSample <= c.content && |d.rawSample| == if |c.content| < 200 then |c.content| else 200
  {
    T.TrimEmptyIffBlank(c.content);
  }

  function Replies(b: Brain, i: nat): nat -> Post {
    (k: nat) => b.provider(i, k)
  }

  /** The i-th completion. */
  function Ask(b: Brain, i: nat): Call { CallResult(b.decode, Replies(b, i)) }

  function PostsOf(b: Brain, n: nat): nat {
    if n == 0 then 0 else PostsOf(b, n - 1) + CallPosts(b.decode, Replies(b, n - 1))
  }

  ghost predicate NoneDelivered(b: Brain, n: nat) {
    forall i: nat | i < n :: Ask(b, i).Completed? && !Delivers(b, Ask(b, i).completion)
  }

  function TotalUsage(b: Brain, n: nat): Usage {
    if n == 0 then ZERO_USAGE
    else
      SumUsage(TotalUsage(b, n - 1), if Ask(b, n - 1).Completed? then Ask(b, n - 1).completion.usage else ZERO_USAGE)
  }

  datatype Produced =
    | Delivered(artifact: Artifact, usage: Usage)
    | Diagnosed(artifact: Artifact, diagnosis: Diagnosis, usage: Usage)
    | Failed(message: string)

  /** A third completion would come from a model that meets the needs and is not the one
      already used. */
  predicate HasThird(b: Brain) {
    b.mid.Uses? && b.target.Uses? && b.mid.model != b.target.model
  }

  /** Nothing is asked for without a model; another completion is asked for only after a
      non-delivery, and the third only from a different model. */
  ghost predicate Stops(b: Brain, n: nat) {
    if b.target.Unmet? then n == 0
    else
      && 1 <= n <= 3
      && NoneDelivered(b, n - 1)
      && (n == 3 || Ask(b, n - 1).Thrown? || Delivers(b, Ask(b, n - 1).completion) || (n == 2 && !HasThird(b)))
      && (n == 3 ==> HasThird(b))
  }

  /** How `produce` ends: the last completion's artifact, carrying the diagnosis of the first
      completion when none of them delivered, and the usage of all of them; or the error of a
      post, or of a tier that no model meets. */
  ghost predicate Ends(b: Brain, n: nat, posts: nat, r: Produced) {
    && Stops(b, n)
    && posts == PostsOf(b, n)
    && if n == 0 then b.target.Unmet? && r == Failed(b.target.message)
       else if n == 2 && NoneDelivered(b, 2) && b.mid.Unmet? then r == Failed(b.mid.message)
       else match Ask(b, n - 1)
       case Thrown(message) => r == Failed(message)
       case Completed(c) =>
         if Delivers(b, c) then r == Delivered(b.parse(c.content), TotalUsage(b, n))
         else
           NoneDelivered(b, n)
           && r == Diagnosed(b.parse(c.content), NonDeliveryReason(b, Ask(b, 0).completion).value, TotalUsage(b, n))
  }

  /** The first completion is the whole sum so far. */
  lemma {:induction false} FirstCall(b: Brain, n: nat)
    requires n == 0
    ensures PostsOf(b, n + 1) == CallPosts(b.decode, Replies(b, n))
    ensures Ask(b, n).Completed? ==> TotalUsage(b, n + 1) == Ask(b, n).completion.usage
  {
  }

  /** `produce` with `recoverNonDelivery`. */
  method Produce(b: Brain) returns (r: Produced, completions: nat, posts: nat)
    ensures Ends(b, completions, posts, r)
  {
    if b.target.Unmet? { return Failed(b.target.message), 0, 0; }
    var first, p0 := CallCompletions(b.decode, Replies(b, 0));
    completions, posts := 1, p0;
    FirstCall(b, 0);
    if first.Thrown? { return Failed(first.message), completions, posts; }
    var firstReason := NonDeliveryReason(b, first.completion);
    var firstArtifact := b.parse(first.completion.content);
    if firstReason.None? { return Delivered(firstArtifact, first.completion.usage), completions, posts; }
    r, completions, posts := RecoverNonDelivery(b, first.completion, firstReason.value, p0);
  }

  method RecoverNonDelivery(b: Brain, first: Completion, firstReason: Diagnosis, p0: nat)
    returns (r: Produced, completions: nat, posts: nat)
    requires b.target.Uses? && Ask(b, 0) == Completed(first) && NonDeliveryReason(b, first) == Some(firstReason)
    requires TotalUsage(b, 1) == first.usage && PostsOf(b, 1) == p0
    ensures Ends(b, completions, posts, r)
  {
    assert NoneDelivered(b, 1);
    var second, p1 := CallCompletions(b.decode, Replies(b, 1));
    completions, posts := 2, p0 + p1;
    if second.Thrown? { return Failed(second.message), completions, posts; }
    var usage := SumUsage(first.usage, second.completion.usage);
    assert TotalUsage(b, 2) == usage;
    var secondArtifact := b.parse(second.completion.content);
    if NonDeliveryReason(b, second.completion).None? {
      return Delivered(secondArtifact, usage), completions, posts;
    }
    assert NoneDelivered(b, 2);
    if b.mid.Unmet? { return Failed(b.mid.message), completions, posts; }
    if b.mid.model == b.target.model { return Diagnosed(secondArtifact, firstReason, usage), completions, posts; }
    var third, p2 := CallCompletions(b.decode, Replies(b, 2));
    completions, posts := 3, p0 + p1 + p2;
    if third.Thrown? { return Failed(third.message), completions, posts; }
    usage := SumUsage(usage, third.completion.usage);
    assert TotalUsage(b, 3) == usage;
    var thirdArtifact := b.parse(third.completion.content);
    if NonDeliveryReason(b, third.completion).None? {
      return Delivered(thirdArtifact, usage), completions, posts;
    }
    return Diagnosed(thirdArtifact, firstReason, usage), completions, posts;
  }

  /** Whatever the provider does, one artifact costs at most twelve posts. */
  lemma {:induction false} AtMostTwelvePosts(b: Brain, n: nat)
    requires n <= 3
    ensures n <= PostsOf(b, n) <= 4 * n <= 12
  {
    if n > 0 { AtMostTwelvePosts(b, n - 1); }
  }

  /** What `produce` returns, reports and costs is settled by the provider and the catalog. It
      diagnoses exactly when a model was used, nothing was delivered and the middle tier could
      be resolved. */
  lemma {:induction false} OneWayToEnd(b: Brain, m: nat, n: nat, p: nat, q: nat, r: Produced, s: Produced)
    requires Ends(b, m, p, r) && Ends(b, n, q, s)
    ensures m == n && p == q && r == s
    ensures n <= 3 && n <= q <= 12 && (n == 0 <==> b.target.Unmet?)
    ensures s.Diagnosed? <==> n > 0 && NoneDelivered(b, n) && b.mid.Uses?
  {
    AtMostTwelvePosts(b, n);
    if b.target.Uses? { assert m <= n <= m; }
  }

  /** Only what was not cut off is ever delivered: the artifact that `produce` returns as
      delivered was parsed from a completion that was not truncated, and is not empty. */
  lemma {:induction false} NothingTruncatedIsDelivered(b: Brain, n: nat, posts: nat, r: Produced)
    requires Ends(b, n, posts, r) && r.Delivered?
    ensures exists i: nat | i < 3 && Ask(b, i).Completed? ::
      !Ask(b, i).completion.truncated && r.artifact == b.parse(Ask(b, i).completion.content)
    ensures match r.artifact
      case Files(files) => files != []
      case Text(text) => !T.Blank(text) && !b.refuses(T.Trim(text))
  {
    DeliversIff(b, Ask(b, n - 1).completion);
  }
}
