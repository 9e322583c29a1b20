/** `src/engine/scratchpad.ts`: bounding a leaf's working memory by replacing the oldest
    tool reads with stubs, in place. */
module Scratchpad {
  import opened Contract
  import opened Selections
  import opened Transcript
  import T = Text

  // ----- Token estimates -----

  function EstimateTokens(text: string): nat { (|text| + 3) / 4 }

  function CallTokens(calls: seq<ToolCall>): nat {
    if calls == [] then 0
    else CallTokens(calls[..|calls| - 1]) + EstimateTokens(calls[|calls| - 1].argsJson)
  }

  function MessageTokens(m: StepMessage): nat {
    EstimateTokens(m.content) + (if m.Assistant? && m.toolCalls.Some? then CallTokens(m.toolCalls.value) else 0)
  }

  /** The estimate for the first `n` messages. */
  function TotalTo(t: seq<StepMessage>, n: nat): nat
    requires n <= |t|
  {
    if n == 0 then 0 else TotalTo(t, n - 1) + MessageTokens(t[n - 1])
  }

  function Total(t: seq<StepMessage>): nat { TotalTo(t, |t|) }

  lemma {:induction false} TotalToPrefix(a: seq<StepMessage>, b: seq<StepMessage>, n: nat)
    requires n <= |a|
    ensures TotalTo(a + b, n) == TotalTo(a, n)
  {
    if n > 0 { TotalToPrefix(a, b, n - 1); }
  }

  lemma {:induction false} TotalToSuffix(a: seq<StepMessage>, b: seq<StepMessage>, n: nat)
    requires n <= |b|
    ensures TotalTo(a + b, |a| + n) == Total(a) + TotalTo(b, n)
  {
    if n == 0 { TotalToPrefix(a, b, |a|); } else { TotalToSuffix(a, b, n - 1); }
  }

  lemma {:induction false} TotalConcat(a: seq<StepMessage>, b: seq<StepMessage>)
    ensures Total(a + b) == Total(a) + Total(b)
  {
    TotalToSuffix(a, b, |b|);
  }

  // ----- The text that is estimated, apart from the estimate -----

  /** Every text a message sends: its content, and the arguments of each call of a turn. */
  function TextsOf(m: StepMessage): seq<string> {
    [m.content] +
      (match m
       case Assistant(_, Some(calls)) => seq(|calls|, j requires 0 <= j < |calls| => calls[j].argsJson)
       case _ => [])
  }

  function AllTexts(t: seq<StepMessage>): seq<string> {
    Concatenated(seq(|t|, i requires 0 <= i < |t| => TextsOf(t[i])))
  }

  function Chars(texts: seq<string>): nat {
    |Concatenated(texts)|
  }

  lemma {:induction false} ConcatenatedConcat<X>(a: seq<seq<X>>, b: seq<seq<X>>)
    ensures Concatenated(a + b) == Concatenated(a) + Concatenated(b)
  {
    if b == [] {
      assert a + b == a;
    } else {
      assert (a + b)[..|a + b| - 1] == a + b[..|b| - 1];
      ConcatenatedConcat(a, b[..|b| - 1]);
    }
  }

  /** A number of tokens that is a quarter of the characters of the texts, each rounded up. */
  predicate Quarters(texts: seq<string>, tokens: nat) {
    Chars(texts) <= 4 * tokens <= Chars(texts) + 3 * |texts|
  }

  lemma {:induction false} QuartersConcat(a: seq<string>, m: nat, b: seq<string>, n: nat)
    requires Quarters(a, m) && Quarters(b, n)
    ensures Quarters(a + b, m + n)
  {
    ConcatenatedConcat(a, b);
  }

  lemma {:induction false} OneTextQuarters(text: string)
    ensures Quarters([text], EstimateTokens(text))
  {
    assert [text][..0] == [];
    assert Concatenated([text]) == text;
  }

  function Arguments(calls: seq<ToolCall>): seq<string> {
    seq(|calls|, j requires 0 <= j < |calls| => calls[j].argsJson)
  }

  lemma {:induction false} CallsQuarters(calls: seq<ToolCall>)
    ensures Quarters(Arguments(calls), CallTokens(calls))
  {
    if calls != [] {
      var front, last := calls[..|calls| - 1], calls[|calls| - 1];
      CallsQuarters(front);
      OneTextQuarters(last.argsJson);
      assert Arguments(calls) == Arguments(front) + [last.argsJson];
      QuartersConcat(Arguments(front), CallTokens(front), [last.argsJson], EstimateTokens(last.argsJson));
    }
  }

  lemma {:induction false} MessageQuarters(m: StepMessage)
    ensures Quarters(TextsOf(m), MessageTokens(m))
  {
    OneTextQuarters(m.content);
    if m.Assistant? && m.toolCalls.Some? {
      var calls := m.toolCalls.value;
      CallsQuarters(calls);
      QuartersConcat([m.content], EstimateTokens(m.content), Arguments(calls), CallTokens(calls));
    } else {
      assert [m.content] + [] == [m.content];
    }
  }

  /** The estimate is a quarter of all that is sent, contents and call arguments, each text
      rounded up. */
  lemma {:induction false} EstimateIsAQuarter(t: seq<StepMessage>)
    ensures Quarters(AllTexts(t), Total(t))
  {
    if t != [] {
      var front, last := t[..|t| - 1], t[|t| - 1];
      EstimateIsAQuarter(front);
      MessageQuarters(last);
      assert t == front + [last];
      TotalConcat(front, [last]);
      assert TotalTo([last], 1) == TotalTo([last], 0) + MessageTokens(last);
      var parts := seq(|t|, i requires 0 <= i < |t| => TextsOf(t[i]));
      assert parts[..|parts| - 1] == seq(|front|, i requires 0 <= i < |front| => TextsOf(front[i]));
      QuartersConcat(AllTexts(front), Total(front), TextsOf(last), MessageTokens(last));
    }
  }

  method TranscriptTokens(transcript: array<StepMessage>) returns (total: nat)
    ensures total == Total(transcript[..])
    ensures Quarters(AllTexts(transcript[..]), total)
  {
    EstimateIsAQuarter(transcript[..]);
    total := 0;
    for i := 0 to transcript.Length
      invariant total == TotalTo(transcript[..], i)
    {
      var m := transcript[i];
      assert m == transcript[..][i];
      total := total + EstimateTokens(m.content);
      if m.Assistant? && m.toolCalls.Some? {
        var calls := m.toolCalls.value;
        ghost var before := total;
        for j := 0 to |calls|
          invariant total == before + CallTokens(calls[..j])
        {
          assert calls[..j + 1][..j] == calls[..j];
          total := total + EstimateTokens(calls[j].argsJson);
        }
        assert calls[..|calls|] == calls;
      }
    }
  }

  // ----- Stubs -----

  /** The texts that replace a read: one from its call id and content, one from its call id
      and a gist. */
  datatype Wording = Wording(blind: (string, string) -> string, distilled: (string, string) -> string)

  const STUB_OPENING := "[evicted:"

  predicate IsStub(content: string) { STUB_OPENING <= content }

  /** Blind stubs are recognised as stubs, distilled ones are not. */
  ghost predicate Distinct(w: Wording) {
    && (forall callId, content :: IsStub(w.blind(callId, content)))
    && (forall callId, gist :: !IsStub(w.distilled(callId, gist)))
  }

  const SUMMARY_OPENING := "[evicted-summary:"

  /** The engine's wording, cut down to its opening and the data it carries. */
  const ENGINE_WORDING := Wording(
    (callId: string, content: string) => STUB_OPENING + T.Digits(|T.Lines(content)|) + callId,
    (callId: string, gist: string) => SUMMARY_OPENING + gist + callId)

  lemma {:induction false} OpeningsDiffer(data: string, id: string)
    ensures IsStub(STUB_OPENING + data + id)
    ensures !IsStub(SUMMARY_OPENING + data + id)
  {
    var summary := SUMMARY_OPENING + data + id;
    assert summary[8] == SUMMARY_OPENING[8] == '-';
    assert STUB_OPENING[8] == ':';
  }

  lemma {:induction false} EngineWordingIsDistinct()
    ensures Distinct(ENGINE_WORDING)
  {
    forall callId: string, content: string
      ensures IsStub(ENGINE_WORDING.blind(callId, content))
    {
      OpeningsDiffer(T.Digits(|T.Lines(content)|), callId);
    }
    forall callId: string, gist: string
      ensures !IsStub(ENGINE_WORDING.distilled(callId, gist))
    {
      OpeningsDiffer(gist, callId);
    }
  }

  /** One call of the summarizer: it throws, or answers with a gist and the tokens spent. */
  datatype Reply = Threw | Gist(text: string, tokens: nat)

  predicate Useful(reply: Reply) {
    reply.Gist? && T.Trim(reply.text) != ""
  }

  /** The two ways to evict; `replies(n)` is what the n-th summarizer call does. */
  datatype Stubber = Blind(w: Wording) | Summarized(w: Wording, replies: nat -> Reply)

  /** What replaces the content of the n-th evicted read. */
  function Stub(stub: Stubber, m: StepMessage, n: nat): string
    requires m.ToolResult?
  {
    if stub.Summarized? && Useful(stub.replies(n))
    then stub.w.distilled(m.callId, T.Trim(stub.replies(n).text))
    else stub.w.blind(m.callId, m.content)
  }

  // ----- Evicting the oldest reads -----

  predicate Evictable(m: StepMessage) {
    m.ToolResult? && !IsStub(m.content)
  }

  /** How many of the first `i` messages are reads that could be evicted. */
  function Rank(t: seq<StepMessage>, i: nat): (n: nat)
    requires i <= |t|
    ensures n <= i
  {
    if i == 0 then 0 else Rank(t, i - 1) + (if Evictable(t[i - 1]) then 1 else 0)
  }

  function Reads(t: seq<StepMessage>): (n: nat)
    ensures n <= |t|
  {
    Rank(t, |t|)
  }

  /** The message at `i` once the `k` oldest reads are evicted. */
  function MessageAfter(stub: Stubber, t: seq<StepMessage>, k: nat, i: nat): StepMessage
    requires i < |t|
  {
    if Evictable(t[i]) && Rank(t, i) < k then ToolResult(t[i].callId, Stub(stub, t[i], Rank(t, i)))
    else t[i]
  }

  /** The transcript once its `k` oldest reads are evicted. */
  function EvictOldest(stub: Stubber, t: seq<StepMessage>, k: nat): (r: seq<StepMessage>)
    ensures |r| == |t|
  {
    seq(|t|, i requires 0 <= i < |t| => MessageAfter(stub, t, k, i))
  }

  /** At the cap, or nothing left to evict. */
  predicate Enough(stub: Stubber, t: seq<StepMessage>, cap: int, k: nat) {
    k >= Reads(t) || Total(EvictOldest(stub, t, k)) <= cap
  }

  function FewestFrom(stub: Stubber, t: seq<StepMessage>, cap: int, k: nat): (n: nat)
    requires k <= Reads(t)
    ensures k <= n <= Reads(t) && Enough(stub, t, cap, n)
    ensures forall j | k <= j < n :: !Enough(stub, t, cap, j)
    decreases Reads(t) - k
  {
    if Enough(stub, t, cap, k) then k else FewestFrom(stub, t, cap, k + 1)
  }

  /** The least number of oldest reads to evict: the shortest prefix that reaches the cap, or
      all of them. */
  function Fewest(stub: Stubber, t: seq<StepMessage>, cap: int): (n: nat)
    ensures n <= Reads(t) && Enough(stub, t, cap, n)
    ensures forall j | 0 <= j < n :: !Enough(stub, t, cap, j)
  {
    FewestFrom(stub, t, cap, 0)
  }

  function Evicted(stub: Stubber, t: seq<StepMessage>, cap: int): seq<StepMessage> {
    EvictOldest(stub, t, Fewest(stub, t, cap))
  }

  lemma {:induction false} FewestIs(stub: Stubber, t: seq<StepMessage>, cap: int, n: nat)
    requires n <= Reads(t) && Enough(stub, t, cap, n)
    requires forall j | 0 <= j < n :: !Enough(stub, t, cap, j)
    ensures n == Fewest(stub, t, cap)
  {
  }

  /** Where the k-th read among the first `n` messages is. */
  function ReadAtTo(t: seq<StepMessage>, n: nat, k: nat): (i: nat)
    requires n <= |t| && k < Rank(t, n)
    ensures i < n && Evictable(t[i]) && Rank(t, i) == k
  {
    if k < Rank(t, n - 1) then ReadAtTo(t, n - 1, k) else n - 1
  }

  function ReadAt(t: seq<StepMessage>, k: nat): (i: nat)
    requires k < Reads(t)
    ensures i < |t| && Evictable(t[i]) && Rank(t, i) == k
  {
    ReadAtTo(t, |t|, k)
  }

  /** Where the reads among the first `n` messages are, oldest first. */
  function ReadIdxsTo(t: seq<StepMessage>, n: nat): (r: seq<nat>)
    requires n <= |t|
    ensures |r| == Rank(t, n)
  {
    if n == 0 then [] else ReadIdxsTo(t, n - 1) + (if Evictable(t[n - 1]) then [n - 1] else [])
  }

  function ReadIdxs(t: seq<StepMessage>): (r: seq<nat>)
    ensures |r| == Reads(t)
  {
    ReadIdxsTo(t, |t|)
  }

  lemma {:induction false} ReadIdxsToAre(t: seq<StepMessage>, n: nat, k: nat)
    requires n <= |t| && k < Rank(t, n)
    ensures ReadIdxsTo(t, n)[k] == ReadAtTo(t, n, k)
  {
    if k < Rank(t, n - 1) { ReadIdxsToAre(t, n - 1, k); }
  }

  /** The call ids of the first `k` reads. */
  function CallIds(t: seq<StepMessage>, k: nat): (r: seq<string>)
    requires k <= Reads(t)
    ensures |r| == k
  {
    if k == 0 then [] else CallIds(t, k - 1) + [t[ReadAt(t, k - 1)].callId]
  }

  lemma {:induction false} RankMonotone(t: seq<StepMessage>, i: nat, j: nat)
    requires i <= j <= |t|
    ensures Rank(t, i) <= Rank(t, j)
    ensures i < j && Evictable(t[i]) ==> Rank(t, i) < Rank(t, j)
  {
    if i < j { RankMonotone(t, i, j - 1); }
  }

  /** Evicting one more read replaces exactly one message. */
  lemma {:induction false} EvictNext(stub: Stubber, t: seq<StepMessage>, k: nat)
    requires k < Reads(t)
    ensures var i := ReadAt(t, k);
      EvictOldest(stub, t, k + 1) == EvictOldest(stub, t, k)[i := ToolResult(t[i].callId, Stub(stub, t[i], k))]
    ensures EvictOldest(stub, t, k)[ReadAt(t, k)] == t[ReadAt(t, k)]
  {
    var i := ReadAt(t, k);
    forall j | 0 <= j < |t| && j != i
      ensures MessageAfter(stub, t, k + 1, j) == MessageAfter(stub, t, k, j)
    {
      RankMonotone(t, if i < j then i else j, if i < j then j else i);
    }
  }

  /** The transcript after `k` rounds of the eviction loop. */
  function EvictLoop(stub: Stubber, t: seq<StepMessage>, k: nat): (r: seq<StepMessage>)
    requires k <= Reads(t)
    ensures |r| == |t|
  {
    if k == 0 then t
    else
      var i := ReadAt(t, k - 1);
      EvictLoop(stub, t, k - 1)[i := ToolResult(t[i].callId, Stub(stub, t[i], k - 1))]
  }

  /** The loop has not stopped before round `k`. */
  predicate StillOver(stub: Stubber, t: seq<StepMessage>, cap: int, k: nat)
    requires k <= Reads(t)
  {
    k == 0 || (StillOver(stub, t, cap, k - 1) && Total(EvictLoop(stub, t, k - 1)) > cap)
  }

  lemma {:induction false} LoopEvictsOldest(stub: Stubber, t: seq<StepMessage>, k: nat)
    requires k <= Reads(t)
    ensures EvictLoop(stub, t, k) == EvictOldest(stub, t, k)
  {
    if k == 0 {
      EvictNone(stub, t);
    } else {
      LoopEvictsOldest(stub, t, k - 1);
      EvictNext(stub, t, k - 1);
    }
  }

  lemma {:induction false} StillOverMeans(stub: Stubber, t: seq<StepMessage>, cap: int, k: nat)
    requires k <= Reads(t) && StillOver(stub, t, cap, k)
    ensures forall j | 0 <= j < k :: !Enough(stub, t, cap, j)
  {
    if k > 0 {
      StillOverMeans(stub, t, cap, k - 1);
      LoopEvictsOldest(stub, t, k - 1);
    }
  }

  /** The read of round `k` is untouched until then. */
  lemma {:induction false} NextReadUntouched(stub: Stubber, t: seq<StepMessage>, k: nat)
    requires k < Reads(t)
    ensures EvictLoop(stub, t, k)[ReadAt(t, k)] == t[ReadAt(t, k)]
  {
    LoopEvictsOldest(stub, t, k);
    EvictNext(stub, t, k);
  }

  lemma {:induction false} EvictNone(stub: Stubber, t: seq<StepMessage>)
    ensures EvictOldest(stub, t, 0) == t
  {
  }

  // ----- Eviction, written out -----

  /** Which of the first `n` messages are tool reads that are not stubs. */
  function ReadsBelow(t: seq<StepMessage>, n: nat): seq<bool>
    requires n <= |t|
  {
    seq(n, i requires 0 <= i < n => t[i].ToolResult? && !("[evicted:" <= t[i].content))
  }

  /** What the n-th evicted read is replaced with: a gist when the summarizer gives one, and
      otherwise what the engine makes of its call id and content. */
  predicate Replaced(stub: Stubber, n: nat, old': StepMessage, new': StepMessage) {
    && old'.ToolResult?
    && new' == ToolResult(old'.callId,
         if stub.Summarized? && stub.replies(n).Gist? && T.Trim(stub.replies(n).text) != ""
         then stub.w.distilled(old'.callId, T.Trim(stub.replies(n).text))
         else stub.w.blind(old'.callId, old'.content))
  }

  /** All tool reads before index `cut` were replaced, oldest first, and nothing else; the cap
      is met, or no read is left; and it was not met before the last replacement. */
  ghost predicate EvictedUpTo(
    stub: Stubber, t: seq<StepMessage>, cap: int, cut: nat, picks: seq<nat>, now: seq<StepMessage>, ids: seq<string>)
  {
    && |now| == |t| && cut <= |t| && Selects(ReadsBelow(t, cut), picks)
    && (forall n: nat | n < |picks| :: Replaced(stub, n, t[picks[n]], now[picks[n]]))
    && (forall i: nat | i < |t| && i !in picks :: now[i] == t[i])
    && |ids| == |picks| && (forall n: nat | n < |picks| :: t[picks[n]].ToolResult? && ids[n] == t[picks[n]].callId)
    && (Total(now) <= cap || forall i: nat | cut <= i < |t| && t[i].ToolResult? :: "[evicted:" <= t[i].content)
    && (cut > 0 ==> cut - 1 in picks && Total(now[cut - 1 := t[cut - 1]]) > cap)
  }

  ghost predicate EvictedOldestFirst(
    stub: Stubber, t: seq<StepMessage>, cap: int, now: seq<StepMessage>, ids: seq<string>)
  {
    exists cut, picks :: EvictedUpTo(stub, t, cap, cut, picks, now, ids)
  }

  lemma {:induction false} ReadsAreSelected(t: seq<StepMessage>, n: nat)
    requires n <= |t|
    ensures Selects(ReadsBelow(t, n), ReadIdxsTo(t, n))
  {
    if n > 0 {
      ReadsAreSelected(t, n - 1);
      assert ReadsBelow(t, n) == ReadsBelow(t, n - 1) + [Evictable(t[n - 1])];
      SelectsSnoc(ReadsBelow(t, n - 1), Evictable(t[n - 1]), ReadIdxsTo(t, n - 1));
    }
  }

  /** Just after the last of the `k` oldest reads. */
  function CutAfter(t: seq<StepMessage>, k: nat): (cut: nat)
    requires k <= Reads(t)
    ensures cut <= |t| && Rank(t, cut) == k
  {
    if k == 0 then 0 else ReadAt(t, k - 1) + 1
  }

  lemma {:induction false} BelowTheCut(t: seq<StepMessage>, k: nat, i: nat)
    requires k <= Reads(t) && i < |t|
    ensures Evictable(t[i]) ==> (Rank(t, i) < k <==> i < CutAfter(t, k))
  {
    var cut := CutAfter(t, k);
    RankMonotone(t, if i < cut then i else cut, if i < cut then cut else i);
  }

  lemma {:induction false} PicksReplaced(stub: Stubber, t: seq<StepMessage>, k: nat, n: nat)
    requires k <= Reads(t) && n < k
    ensures var picks := ReadIdxsTo(t, CutAfter(t, k));
      && |picks| == k && picks[n] < |t| && t[picks[n]].ToolResult?
      && Replaced(stub, n, t[picks[n]], EvictOldest(stub, t, k)[picks[n]])
      && CallIds(t, k)[n] == t[picks[n]].callId
  {
    var cut := CutAfter(t, k);
    ReadIdxsToAre(t, cut, n);
    CallIdsAre(t, k, n);
    RanksDiffer(t, ReadAtTo(t, cut, n), ReadAt(t, n));
  }

  lemma {:induction false} RanksDiffer(t: seq<StepMessage>, i: nat, j: nat)
    requires i < |t| && j < |t| && Evictable(t[i]) && Evictable(t[j]) && Rank(t, i) == Rank(t, j)
    ensures i == j
  {
    if i < j { RankMonotone(t, i, j); } else if j < i { RankMonotone(t, j, i); }
  }

  lemma {:induction false} CallIdsAre(t: seq<StepMessage>, k: nat, n: nat)
    requires k <= Reads(t) && n < k
    ensures CallIds(t, k)[n] == t[ReadAt(t, n)].callId
  {
    if n < k - 1 { CallIdsAre(t, k - 1, n); }
  }

  lemma {:induction false} OthersStay(stub: Stubber, t: seq<StepMessage>, k: nat, i: nat)
    requires k <= Reads(t) && i < |t| && i !in ReadIdxsTo(t, CutAfter(t, k))
    ensures EvictOldest(stub, t, k)[i] == t[i]
  {
    var cut := CutAfter(t, k);
    ReadsAreSelected(t, cut);
    BelowTheCut(t, k, i);
    if i < cut { assert ReadsBelow(t, cut)[i] == Evictable(t[i]); }
  }

  /** Undoing the last replacement is evicting one read less. */
  lemma {:induction false} LastUndone(stub: Stubber, t: seq<StepMessage>, k: nat)
    requires 0 < k <= Reads(t)
    ensures var i := CutAfter(t, k) - 1;
      EvictOldest(stub, t, k)[i := t[i]] == EvictOldest(stub, t, k - 1)
  {
    EvictNext(stub, t, k - 1);
  }

  lemma {:induction false} NothingPastTheCut(t: seq<StepMessage>)
    ensures forall i: nat | CutAfter(t, Reads(t)) <= i < |t| :: !Evictable(t[i])
  {
    var cut := CutAfter(t, Reads(t));
    forall i: nat | cut <= i < |t|
      ensures !Evictable(t[i])
    {
      RankMonotone(t, cut, i);
      RankMonotone(t, i, |t|);
    }
  }

  /** The replaced reads, one by one, and the messages between them. */
  lemma {:induction false} ReplacedOneByOne(stub: Stubber, t: seq<StepMessage>, k: nat)
    requires k <= Reads(t)
    ensures var picks, now := ReadIdxsTo(t, CutAfter(t, k)), EvictOldest(stub, t, k);
      && |picks| == k
      && (forall n: nat | n < k ::
            && picks[n] < |t| && t[picks[n]].ToolResult? && Replaced(stub, n, t[picks[n]], now[picks[n]])
            && CallIds(t, k)[n] == t[picks[n]].callId)
      && (forall i: nat | i < |t| && i !in picks :: now[i] == t[i])
  {
    var picks := ReadIdxsTo(t, CutAfter(t, k));
    forall n: nat | n < k
      ensures picks[n] < |t| && t[picks[n]].ToolResult?
      ensures Replaced(stub, n, t[picks[n]], EvictOldest(stub, t, k)[picks[n]])
      ensures CallIds(t, k)[n] == t[picks[n]].callId
    {
      PicksReplaced(stub, t, k, n);
    }
    forall i: nat | i < |t| && i !in picks
      ensures EvictOldest(stub, t, k)[i] == t[i]
    {
      OthersStay(stub, t, k, i);
    }
  }

  lemma {:induction false} EvictedWrittenOut(stub: Stubber, t: seq<StepMessage>, cap: int)
    ensures EvictedOldestFirst(stub, t, cap, Evicted(stub, t, cap), CallIds(t, Fewest(stub, t, cap)))
  {
    var k := Fewest(stub, t, cap);
    var cut := CutAfter(t, k);
    var picks := ReadIdxsTo(t, cut);
    ReadsAreSelected(t, cut);
    ReplacedOneByOne(stub, t, k);
    if k == Reads(t) { NothingPastTheCut(t); }
    if k > 0 {
      LastUndone(stub, t, k);
      assert !Enough(stub, t, cap, k - 1);
      assert ReadsBelow(t, cut)[cut - 1];
    }
    assert EvictedUpTo(stub, t, cap, cut, picks, Evicted(stub, t, cap), CallIds(t, k));
  }

  datatype EvictionResult = EvictionResult(
    evicted: bool,
    beforeTokens: nat,
    afterTokens: nat,
    evictedCallIds: seq<string>)

  /** The order in which reads are evicted; the protected ones come last. */
  function EvictOrder(toolIdxs: seq<nat>, keepRecent: int): (r: seq<nat>)
    ensures r == toolIdxs
  {
    var limit := if |toolIdxs| - keepRecent < 0 then 0 else |toolIdxs| - keepRecent;
    var preferred := toolIdxs[..if limit < |toolIdxs| then limit else |toolIdxs|];
    preferred + toolIdxs[|preferred|..]
  }

  method ToolIdxs(transcript: array<StepMessage>) returns (toolIdxs: seq<nat>)
    ensures toolIdxs == ReadIdxs(transcript[..])
  {
    toolIdxs := [];
    for i := 0 to transcript.Length
      invariant toolIdxs == ReadIdxsTo(transcript[..], i)
    {
      assert transcript[i] == transcript[..][i];
      if Evictable(transcript[i]) {
        toolIdxs := toolIdxs + [i];
      }
    }
  }

  /** One round: the oldest read left gets its stub. */
  method EvictRead(w: Wording, transcript: array<StepMessage>, idx: nat) returns (callId: string)
    requires idx < transcript.Length && transcript[idx].ToolResult?
    modifies transcript
    ensures callId == old(transcript[idx]).callId
    ensures transcript[..] ==
      old(transcript[..])[idx := ToolResult(callId, w.blind(callId, old(transcript[idx]).content))]
  {
    var msg := transcript[idx];
    transcript[idx] := ToolResult(msg.callId, w.blind(msg.callId, msg.content));
    return msg.callId;
  }

  /** The eviction loop has made one round for each of `ids`, and had to. */
  ghost predicate Progress(
    stub: Stubber, t: seq<StepMessage>, cap: int, now: seq<StepMessage>, ids: seq<string>)
  {
    && |ids| <= Reads(t)
    && now == EvictLoop(stub, t, |ids|)
    && ids == CallIds(t, |ids|)
    && StillOver(stub, t, cap, |ids|)
  }

  lemma {:induction false} RoundPlace(stub: Stubber, t: seq<StepMessage>, k: nat)
    requires k < Reads(t)
    ensures ReadIdxs(t)[k] == ReadAt(t, k)
    ensures EvictLoop(stub, t, k)[ReadAt(t, k)] == t[ReadAt(t, k)]
  {
    ReadIdxsToAre(t, |t|, k);
    NextReadUntouched(stub, t, k);
  }

  lemma {:induction false} ProgressNext(
    stub: Stubber, t: seq<StepMessage>, cap: int, now: seq<StepMessage>, ids: seq<string>, i: nat)
    requires Progress(stub, t, cap, now, ids) && |ids| < Reads(t) && Total(now) > cap
    requires i == ReadAt(t, |ids|) && |now| == |t|
    ensures Progress(stub, t, cap, now[i := ToolResult(t[i].callId, Stub(stub, t[i], |ids|))], ids + [t[i].callId])
  {
  }

  lemma {:induction false} RoundAdvances(
    stub: Stubber, t: seq<StepMessage>, cap: int, now: seq<StepMessage>, ids: seq<string>)
    requires Progress(stub, t, cap, now, ids) && |ids| < Reads(t) && Total(now) > cap
    ensures |now| == |t|
    ensures var i := ReadIdxs(t)[|ids|];
      && i < |t| && t[i].ToolResult? && now[i] == t[i]
      && Progress(stub, t, cap, now[i := ToolResult(t[i].callId, Stub(stub, t[i], |ids|))], ids + [t[i].callId])
  {
    RoundPlace(stub, t, |ids|);
    ProgressNext(stub, t, cap, now, ids, ReadAt(t, |ids|));
  }

  /** Where the loop stops. */
  lemma {:induction false} LoopStops(
    stub: Stubber, t: seq<StepMessage>, cap: int, now: seq<StepMessage>, ids: seq<string>)
    requires Progress(stub, t, cap, now, ids)
    requires |ids| == Reads(t) || Total(now) <= cap
    ensures now == Evicted(stub, t, cap)
    ensures ids == CallIds(t, Fewest(stub, t, cap))
  {
    StillOverMeans(stub, t, cap, |ids|);
    LoopEvictsOldest(stub, t, |ids|);
    FewestIs(stub, t, cap, |ids|);
  }

  /** The blind eviction loop: oldest first, until the cap is met or nothing is left. */
  method EvictInOrder(
    w: Wording, transcript: array<StepMessage>, evictOrder: seq<nat>, cap: int)
    returns (evictedCallIds: seq<string>)
    requires evictOrder == ReadIdxs(transcript[..])
    modifies transcript
    ensures Progress(Blind(w), old(transcript[..]), cap, transcript[..], evictedCallIds)
    ensures |evictedCallIds| == |evictOrder| || Total(transcript[..]) <= cap
  {
    ghost var t := transcript[..];
    evictedCallIds := [];
    while |evictedCallIds| < |evictOrder|
      invariant Progress(Blind(w), t, cap, transcript[..], evictedCallIds)
    {
      var tokens := TranscriptTokens(transcript);
      if tokens <= cap { return; }
      RoundAdvances(Blind(w), t, cap, transcript[..], evictedCallIds);
      var idx := evictOrder[|evictedCallIds|];
      assert transcript[idx] == transcript[..][idx];
      var callId := EvictRead(w, transcript, idx);
      evictedCallIds := evictedCallIds + [callId];
    }
  }

  /** `evictTranscript`. `keepRecent` has no say in the outcome. */
  method EvictTranscript(w: Wording, transcript: array<StepMessage>, cap: int, keepRecent: int)
    returns (r: EvictionResult)
    modifies transcript
    ensures transcript[..] == Evicted(Blind(w), old(transcript[..]), cap)
    ensures r.evictedCallIds ==
      CallIds(old(transcript[..]), Fewest(Blind(w), old(transcript[..]), cap))
    ensures r.evicted == (r.evictedCallIds != [])
    ensures r.beforeTokens == Total(old(transcript[..])) && r.afterTokens == Total(transcript[..])
    ensures EvictedOldestFirst(Blind(w), old(transcript[..]), cap, transcript[..], r.evictedCallIds)
    ensures Quarters(AllTexts(old(transcript[..])), r.beforeTokens) && Quarters(AllTexts(transcript[..]), r.afterTokens)
    ensures r.afterTokens <= cap ==> Chars(AllTexts(transcript[..])) <= 4 * cap
  {
    ghost var t := transcript[..];
    EvictedWrittenOut(Blind(w), t, cap);
    var beforeTokens := TranscriptTokens(transcript);
    if beforeTokens <= cap {
      LoopStops(Blind(w), t, cap, transcript[..], []);
      return EvictionResult(false, beforeTokens, beforeTokens, []);
    }
    var toolIdxs := ToolIdxs(transcript);
    var evictedCallIds := EvictInOrder(w, transcript, EvictOrder(toolIdxs, keepRecent), cap);
    LoopStops(Blind(w), t, cap, transcript[..], evictedCallIds);
    var afterTokens := TranscriptTokens(transcript);
    return EvictionResult(|evictedCallIds| > 0, beforeTokens, afterTokens, evictedCallIds);
  }

  /** The tokens of the first `n` calls that answered. */
  function TokensSpent(replies: nat -> Reply, n: nat): nat {
    if n == 0 then 0
    else TokensSpent(replies, n - 1) + (if replies(n - 1).Gist? then replies(n - 1).tokens else 0)
  }

  /** The stub of one read; a reply without a gist falls back to the blind one. */
  method Distil(w: Wording, msg: StepMessage, replies: nat -> Reply, n: nat)
    returns (content: string, tokens: nat)
    requires msg.ToolResult?
    ensures content == Stub(Summarized(w, replies), msg, n)
    ensures TokensSpent(replies, n + 1) == TokensSpent(replies, n) + tokens
    ensures replies(n).Gist? ==> tokens == replies(n).tokens
    ensures replies(n).Threw? ==> tokens == 0
  {
    content := w.blind(msg.callId, msg.content);
    tokens := 0;
    match replies(n) {
      case Threw =>
      case Gist(text, spent) =>
        tokens := spent;
        var gist := T.Trim(text);
        if |gist| > 0 {
          content := w.distilled(msg.callId, gist);
        }
    }
  }

  /** One round of the distilling loop. */
  method DistilRead(
    w: Wording, transcript: array<StepMessage>, idx: nat, replies: nat -> Reply, cap: int,
    evictedCallIds: seq<string>, ghost t: seq<StepMessage>)
    returns (callId: string, tokens: nat)
    requires Progress(Summarized(w, replies), t, cap, transcript[..], evictedCallIds)
    requires |evictedCallIds| < Reads(t) && idx == ReadIdxs(t)[|evictedCallIds|] && Total(transcript[..]) > cap
    modifies transcript
    ensures Progress(Summarized(w, replies), t, cap, transcript[..], evictedCallIds + [callId])
    ensures TokensSpent(replies, |evictedCallIds| + 1) == TokensSpent(replies, |evictedCallIds|) + tokens
  {
    RoundAdvances(Summarized(w, replies), t, cap, transcript[..], evictedCallIds);
    ghost var now := transcript[..];
    var msg := transcript[idx];
    assert msg == now[idx];
    var content;
    content, tokens := Distil(w, msg, replies, |evictedCallIds|);
    transcript[idx] := ToolResult(msg.callId, content);
    assert transcript[..] == now[idx := ToolResult(msg.callId, content)];
    callId := msg.callId;
  }

  /** The distilling eviction loop. */
  method DistilInOrder(
    w: Wording, transcript: array<StepMessage>, evictOrder: seq<nat>, replies: nat -> Reply, cap: int)
    returns (evictedCallIds: seq<string>, summaryTokens: nat)
    requires evictOrder == ReadIdxs(transcript[..])
    modifies transcript
    ensures Progress(Summarized(w, replies), old(transcript[..]), cap, transcript[..], evictedCallIds)
    ensures |evictedCallIds| == |evictOrder| || Total(transcript[..]) <= cap
    ensures summaryTokens == TokensSpent(replies, |evictedCallIds|)
  {
    ghost var t := transcript[..];
    evictedCallIds := [];
    summaryTokens := 0;
    while |evictedCallIds| < |evictOrder|
      invariant Progress(Summarized(w, replies), t, cap, transcript[..], evictedCallIds)
      invariant summaryTokens == TokensSpent(replies, |evictedCallIds|)
    {
      var tokens := TranscriptTokens(transcript);
      if tokens <= cap { return; }
      var idx := evictOrder[|evictedCallIds|];
      var callId, spent := DistilRead(w, transcript, idx, replies, cap, evictedCallIds, t);
      summaryTokens := summaryTokens + spent;
      evictedCallIds := evictedCallIds + [callId];
    }
  }

  /** `evictTranscriptWithSummary`. */
  method EvictTranscriptWithSummary(
    w: Wording, transcript: array<StepMessage>, replies: nat -> Reply, cap: int, keepRecent: int)
    returns (r: EvictionResult, summaryTokens: nat)
    modifies transcript
    ensures transcript[..] == Evicted(Summarized(w, replies), old(transcript[..]), cap)
    ensures var n := Fewest(Summarized(w, replies), old(transcript[..]), cap);
      r.evictedCallIds == CallIds(old(transcript[..]), n) && summaryTokens == TokensSpent(replies, n)
    ensures r.evicted == (r.evictedCallIds != [])
    ensures r.beforeTokens == Total(old(transcript[..])) && r.afterTokens == Total(transcript[..])
    ensures EvictedOldestFirst(Summarized(w, replies), old(transcript[..]), cap, transcript[..], r.evictedCallIds)
    ensures Quarters(AllTexts(old(transcript[..])), r.beforeTokens) && Quarters(AllTexts(transcript[..]), r.afterTokens)
    ensures r.afterTokens <= cap ==> Chars(AllTexts(transcript[..])) <= 4 * cap
  {
    ghost var t := transcript[..];
    EvictedWrittenOut(Summarized(w, replies), t, cap);
    summaryTokens := 0;
    var beforeTokens := TranscriptTokens(transcript);
    if beforeTokens <= cap {
      LoopStops(Summarized(w, replies), t, cap, transcript[..], []);
      return EvictionResult(false, beforeTokens, beforeTokens, []), summaryTokens;
    }
    var toolIdxs := ToolIdxs(transcript);
    var evictedCallIds;
    evictedCallIds, summaryTokens :=
      DistilInOrder(w, transcript, EvictOrder(toolIdxs, keepRecent), replies, cap);
    LoopStops(Summarized(w, replies), t, cap, transcript[..], evictedCallIds);
    var afterTokens := TranscriptTokens(transcript);
    return EvictionResult(|evictedCallIds| > 0, beforeTokens, afterTokens, evictedCallIds), summaryTokens;
  }

  // ----- What eviction keeps -----

  /** The same message up to the content of a tool read. */
  predicate SameButRead(m: StepMessage, r: StepMessage) {
    if m.ToolResult? then r.ToolResult? && r.callId == m.callId else r == m
  }

  lemma {:induction false} EvictionTouchesOnlyReads(stub: Stubber, t: seq<StepMessage>, cap: int)
    ensures |Evicted(stub, t, cap)| == |t|
    ensures forall i | 0 <= i < |t| :: SameButRead(t[i], Evicted(stub, t, cap)[i])
    ensures forall i | 0 <= i < |t| && !Evictable(t[i]) :: Evicted(stub, t, cap)[i] == t[i]
  {
  }

  /** The bound: at most the cap, or every read was replaced by its stub. */
  lemma {:induction false} EvictionBounds(stub: Stubber, t: seq<StepMessage>, cap: int)
    ensures
      || Total(Evicted(stub, t, cap)) <= cap
      || forall i | 0 <= i < |t| && Evictable(t[i]) ::
           Evicted(stub, t, cap)[i] == ToolResult(t[i].callId, Stub(stub, t[i], Rank(t, i)))
  {
    var k := Fewest(stub, t, cap);
    if k == Reads(t) {
      forall i | 0 <= i < |t| && Evictable(t[i])
        ensures Rank(t, i) < k
      {
        RankMonotone(t, i, |t|);
      }
    }
  }

  /** A lower cap evicts at least as much. */
  lemma {:induction false} LowerCapEvictsMore(stub: Stubber, t: seq<StepMessage>, low: int, high: int)
    requires low <= high
    ensures Fewest(stub, t, high) <= Fewest(stub, t, low)
  {
    assert Enough(stub, t, high, Fewest(stub, t, low));
  }

  // ----- Blind eviction, again and again -----

  lemma {:induction false} NoReadsNothingEvicted(stub: Stubber, t: seq<StepMessage>, cap: int)
    requires Reads(t) == 0
    ensures Evicted(stub, t, cap) == t
  {
  }

  /** Counting reads after the `k` oldest were blindly evicted. */
  lemma {:induction false} ReadsLeft(w: Wording, t: seq<StepMessage>, k: nat, i: nat)
    requires Distinct(w)
    requires i <= |t|
    ensures Rank(EvictOldest(Blind(w), t, k), i) == if Rank(t, i) < k then 0 else Rank(t, i) - k
  {
    if i > 0 {
      ReadsLeft(w, t, k, i - 1);
      BlindEvictable(w, t, k, i - 1);
    }
  }

  lemma {:induction false} BlindEvictable(w: Wording, t: seq<StepMessage>, k: nat, i: nat)
    requires Distinct(w)
    requires i < |t|
    ensures Evictable(EvictOldest(Blind(w), t, k)[i]) <==> Evictable(t[i]) && Rank(t, i) >= k
  {
  }

  /** Evicting some and then some more is evicting them all at once. */
  lemma {:induction false} EvictTwice(w: Wording, t: seq<StepMessage>, k: nat, j: nat)
    requires Distinct(w)
    ensures EvictOldest(Blind(w), EvictOldest(Blind(w), t, k), j) == EvictOldest(Blind(w), t, k + j)
  {
    var r := EvictOldest(Blind(w), t, k);
    forall i | 0 <= i < |t|
      ensures MessageAfter(Blind(w), r, j, i) == MessageAfter(Blind(w), t, k + j, i)
    {
      ReadsLeft(w, t, k, i);
      BlindEvictable(w, t, k, i);
    }
  }

  lemma {:induction false} RankPrefix(a: seq<StepMessage>, b: seq<StepMessage>, i: nat)
    requires i <= |a|
    ensures Rank(a + b, i) == Rank(a, i)
  {
    if i > 0 { RankPrefix(a, b, i - 1); }
  }

  /** Old reads are evicted alike whatever was appended after them. */
  lemma {:induction false} EvictBeforeAppend(stub: Stubber, t: seq<StepMessage>, more: seq<StepMessage>, k: nat)
    requires k <= Reads(t)
    ensures EvictOldest(stub, t + more, k) == EvictOldest(stub, t, k) + more
  {
    var all := t + more;
    forall i | 0 <= i < |all|
      ensures MessageAfter(stub, all, k, i) == (EvictOldest(stub, t, k) + more)[i]
    {
      if i < |t| {
        RankPrefix(t, more, i);
      } else {
        RankPrefix(t, more, |t|);
        RankMonotone(all, |t|, i);
      }
    }
  }

  lemma {:induction false} MoreReads(t: seq<StepMessage>, more: seq<StepMessage>)
    ensures Reads(t) <= Reads(t + more)
  {
    RankPrefix(t, more, |t|);
    RankMonotone(t + more, |t|, |t + more|);
  }

  /** The reads a blind eviction of `t` takes, the eviction of a longer transcript takes too. */
  lemma {:induction false} LongerEvictsMore(w: Wording, t: seq<StepMessage>, more: seq<StepMessage>, cap: int)
    ensures Fewest(Blind(w), t, cap) <= Fewest(Blind(w), t + more, cap)
  {
    MoreReads(t, more);
    forall n | 0 <= n < Fewest(Blind(w), t, cap)
      ensures !Enough(Blind(w), t + more, cap, n)
    {
      EvictBeforeAppend(Blind(w), t, more, n);
      TotalConcat(EvictOldest(Blind(w), t, n), more);
      assert !Enough(Blind(w), t, cap, n);
    }
  }

  /** Starting from some of the reads that must go anyway, eviction ends where it would have
      ended at once. */
  lemma {:induction false} EvictionResumes(w: Wording, t: seq<StepMessage>, k: nat, cap: int)
    requires Distinct(w) && k <= Fewest(Blind(w), t, cap)
    ensures Evicted(Blind(w), EvictOldest(Blind(w), t, k), cap) == Evicted(Blind(w), t, cap)
  {
    var stub := Blind(w);
    var first, n := EvictOldest(stub, t, k), Fewest(stub, t, cap);
    ReadsLeft(w, t, k, |t|);
    forall j: nat
      ensures Enough(stub, first, cap, j) <==> Enough(stub, t, cap, k + j)
    {
      EvictTwice(w, t, k, j);
    }
    forall j | 0 <= j < n - k
      ensures !Enough(stub, first, cap, j)
    {
      assert !Enough(stub, t, cap, k + j);
    }
    FewestIs(stub, first, cap, n - k);
    EvictTwice(w, t, k, n - k);
  }

  /** Evicting, then appending and evicting again, ends where one eviction at the end would. */
  lemma {:induction false} EvictionIsIncremental(
    w: Wording, t: seq<StepMessage>, more: seq<StepMessage>, cap: int)
    requires Distinct(w)
    ensures Evicted(Blind(w), Evicted(Blind(w), t, cap) + more, cap) == Evicted(Blind(w), t + more, cap)
  {
    var k := Fewest(Blind(w), t, cap);
    LongerEvictsMore(w, t, more, cap);
    EvictBeforeAppend(Blind(w), t, more, k);
    EvictionResumes(w, t + more, k, cap);
  }

  /** A second blind pass changes nothing. */
  lemma {:induction false} BlindEvictionIsFinal(w: Wording, t: seq<StepMessage>, cap: int)
    requires Distinct(w)
    ensures Evicted(Blind(w), Evicted(Blind(w), t, cap), cap) == Evicted(Blind(w), t, cap)
    ensures Fewest(Blind(w), Evicted(Blind(w), t, cap), cap) == 0
  {
    var stub, k := Blind(w), Fewest(Blind(w), t, cap);
    var r := Evicted(stub, t, cap);
    EvictNone(stub, r);
    ReadsLeft(w, t, k, |t|);
    FewestIs(stub, r, cap, 0);
  }

  // ----- Summarising eviction -----

  /** When no summary is of use, the summarising eviction is the blind one. */
  lemma {:induction false} UselessSummariesEvictBlindly(
    w: Wording, replies: nat -> Reply, t: seq<StepMessage>, cap: int)
    requires forall n: nat :: n < Reads(t) ==> !Useful(replies(n))
    ensures Fewest(Summarized(w, replies), t, cap) == Fewest(Blind(w), t, cap)
    ensures Evicted(Summarized(w, replies), t, cap) == Evicted(Blind(w), t, cap)
  {
    forall k: nat
      ensures EvictOldest(Summarized(w, replies), t, k) == EvictOldest(Blind(w), t, k)
      ensures Enough(Summarized(w, replies), t, cap, k) <==> Enough(Blind(w), t, cap, k)
    {
      forall i | 0 <= i < |t|
        ensures MessageAfter(Summarized(w, replies), t, k, i) == MessageAfter(Blind(w), t, k, i)
      {
        if Evictable(t[i]) {
          RankMonotone(t, i, |t|);
        }
      }
    }
    FewestIs(Blind(w), t, cap, Fewest(Summarized(w, replies), t, cap));
  }

  /** A message evicted with a useful summary is a read again. */
  lemma {:induction false} SummarizedEvictable(
    w: Wording, replies: nat -> Reply, t: seq<StepMessage>, k: nat, i: nat)
    requires Distinct(w)
    requires i < |t|
    ensures Evictable(EvictOldest(Summarized(w, replies), t, k)[i]) <==>
      Evictable(t[i]) && (Rank(t, i) >= k || Useful(replies(Rank(t, i))))
  {
  }

  lemma {:induction false} SomeReadIff(t: seq<StepMessage>, n: nat)
    requires n <= |t|
    ensures Rank(t, n) > 0 <==> exists i | 0 <= i < n :: Evictable(t[i])
  {
    if n > 0 { SomeReadIff(t, n - 1); }
  }

  /** A second pass evicts nothing exactly when the first one reached the cap, or no summary
      it used was of any use: a distilled stub is not recognised as a stub. */
  lemma {:induction false} SecondPassEvictsNothingIff(
    w: Wording, replies: nat -> Reply, again: nat -> Reply, t: seq<StepMessage>, cap: int)
    requires Distinct(w)
    ensures var first := Evicted(Summarized(w, replies), t, cap);
      Fewest(Summarized(w, again), first, cap) == 0 <==>
        Total(first) <= cap || forall n: nat | n < Reads(t) :: !Useful(replies(n))
  {
    var k := Fewest(Summarized(w, replies), t, cap);
    var first := Evicted(Summarized(w, replies), t, cap);
    EvictNone(Summarized(w, again), first);
    SomeReadIff(first, |first|);
    if Total(first) > cap {
      assert k == Reads(t);
      assert Fewest(Summarized(w, again), first, cap) == 0 <==> Reads(first) == 0;
      forall i | 0 <= i < |t|
        ensures Evictable(first[i]) <==> Evictable(t[i]) && Useful(replies(Rank(t, i)))
      {
        SummarizedEvictable(w, replies, t, k, i);
        RankMonotone(t, i, |t|);
      }
      forall i | 0 <= i < |t| && Evictable(t[i])
        ensures Rank(t, i) < Reads(t)
      {
        RankMonotone(t, i, |t|);
      }
      forall n: nat | n < Reads(t) && Useful(replies(n))
        ensures Evictable(first[ReadAt(t, n)])
      {
        assert Evictable(t[ReadAt(t, n)]);
      }
    }
  }

  /** A read distilled once is distilled again by a second pass that is still over the cap. */
  lemma {:induction false} DistilledStubIsEvictedAgain(
    w: Wording, callId: string, content: string, replies: nat -> Reply)
    requires Distinct(w) && content != "" && !IsStub(content)
    requires Useful(replies(0)) && w.distilled(callId, T.Trim(replies(0).text)) != ""
    ensures var first := Evicted(Summarized(w, replies), [ToolResult(callId, content)], 0);
      Fewest(Summarized(w, replies), first, 0) == 1
  {
  }
}
