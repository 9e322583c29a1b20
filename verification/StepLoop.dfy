/** How the step loop bounds its transcript before every call of the model
    (`src/engine/step-loop-transcript.ts`): the notes message is brought up to date, then the
    oldest reads are evicted. The opening of the notes is cut down to its prefix. */
module StepLoop {
  import opened Contract
  import opened Transcript
  import opened Scratchpad
  import T = Text

  const NOTE_PREFIX := "YOUR NOTES"

  // ----- The notes message -----

  function NoteLine(notes: seq<string>, i: nat): string
    requires i < |notes|
  {
    "  " + T.Digits(i + 1) + ". " + notes[i]
  }

  function NoteLines(notes: seq<string>): seq<string> {
    seq(|notes|, i requires 0 <= i < |notes| => NoteLine(notes, i))
  }

  /** `renderScratchpad`. */
  function Rendered(notes: seq<string>): string {
    if notes == [] then "" else NOTE_PREFIX + ":\n" + T.Join(NoteLines(notes), "\n")
  }

  predicate IsNotes(m: StepMessage) {
    m.Context? && NOTE_PREFIX <= m.content
  }

  /** The first notes message from index `i` on. */
  function NotesFrom(t: seq<StepMessage>, i: nat): (r: Option<nat>)
    requires i <= |t|
    ensures r.Some? ==> i <= r.value < |t| && IsNotes(t[r.value]) && forall j | i <= j < r.value :: !IsNotes(t[j])
    ensures r.None? ==> forall j | i <= j < |t| :: !IsNotes(t[j])
    decreases |t| - i
  {
    if i == |t| then None else if IsNotes(t[i]) then Some(i) else NotesFrom(t, i + 1)
  }

  function Spliced(t: seq<StepMessage>, m: StepMessage): seq<StepMessage> {
    var at := if |t| == 0 then 0 else 1;
    t[..at] + [m] + t[at..]
  }

  /** The transcript with its notes message rewritten, or spliced in after the first message. */
  function Synced(t: seq<StepMessage>, rendered: string): seq<StepMessage> {
    if rendered == "" then t
    else
      match NotesFrom(t, 0)
      case Some(i) => t[i := Context(rendered)]
      case None => Spliced(t, Context(rendered))
  }

  lemma {:induction false} JoinSnoc(parts: seq<string>, part: string, separator: string)
    ensures T.Join(parts + [part], separator) ==
      if parts == [] then part else T.Join(parts, separator) + separator + part
  {
    var all := parts + [part];
    if |parts| == 1 {
      assert all[1..] == [part];
    } else if |parts| > 1 {
      assert all[1..] == parts[1..] + [part];
      JoinSnoc(parts[1..], part, separator);
      assert parts[0] + separator + (T.Join(parts[1..], separator) + separator + part) ==
        (parts[0] + separator + T.Join(parts[1..], separator)) + separator + part;
    }
  }

  /** Without notes there is no block; one more note adds its number and its text at the end. */
  lemma {:induction false} RenderedNext(notes: seq<string>, note: string)
    ensures Rendered([]) == ""
    ensures
      var line := "  " + T.Digits(|notes| + 1) + ". " + note;
      Rendered(notes + [note]) ==
        if notes == [] then "YOUR NOTES:\n" + line else Rendered(notes) + "\n" + line
  {
    var line := "  " + T.Digits(|notes| + 1) + ". " + note;
    assert NoteLines(notes + [note]) == NoteLines(notes) + [line];
    JoinSnoc(NoteLines(notes), line, "\n");
    if notes != [] {
      var head, lines := NOTE_PREFIX + ":\n", T.Join(NoteLines(notes), "\n");
      assert head + (lines + "\n" + line) == head + lines + "\n" + line;
    }
  }

  /** Message `i` is the first that is a context opening like the notes. */
  predicate FirstNotes(t: seq<StepMessage>, i: nat) {
    && i < |t| && t[i].Context? && "YOUR NOTES" <= t[i].content
    && forall j | 0 <= j < i :: t[j].Context? ==> !("YOUR NOTES" <= t[j].content)
  }

  /** Nothing to show changes nothing; otherwise the first notes message gets the new text, or
      when there is none one is put in second place, or first in an empty transcript. All other
      messages keep their order. */
  lemma {:induction false} SyncedWrittenOut(t: seq<StepMessage>, rendered: string)
    ensures var r := Synced(t, rendered);
      && (rendered == "" ==> r == t)
      && (forall i: nat | rendered != "" && FirstNotes(t, i) ::
            |r| == |t| && r[i] == Context(rendered) && forall j | 0 <= j < |t| && j != i :: r[j] == t[j])
      && (rendered != "" && (forall i: nat :: !FirstNotes(t, i)) ==>
            && |r| == |t| + 1
            && (if t == [] then r[0] == Context(rendered)
                else r[0] == t[0] && r[1] == Context(rendered) && r[2..] == t[1..]))
  {
    forall i: nat | FirstNotes(t, i)
      ensures NotesFrom(t, 0) == Some(i)
    {
      NotesAre(t, i);
    }
    var found := NotesFrom(t, 0);
    if found.Some? { assert FirstNotes(t, found.value); }
  }

  class StepTranscript {
    var messages: seq<StepMessage>

    constructor (messages: seq<StepMessage>)
      ensures this.messages == messages
    {
      this.messages := messages;
    }

    /** `syncScratchpadMessage`. */
    method SyncScratchpadMessage(notes: seq<string>)
      modifies this
      ensures messages == Synced(old(messages), Rendered(notes))
    {
      var rendered := Rendered(notes);
      if |rendered| == 0 { return; }
      var idx := 0;
      while idx < |messages| && !IsNotes(messages[idx])
        invariant idx <= |messages| && NotesFrom(messages, 0) == NotesFrom(messages, idx)
      {
        idx := idx + 1;
      }
      if idx < |messages| {
        messages := messages[idx := Context(rendered)];
      } else {
        messages := Spliced(messages, Context(rendered));
      }
    }
  }

  // ----- Syncing and evicting touch different messages -----

  lemma {:induction false} NotesAre(t: seq<StepMessage>, i: nat)
    requires i < |t| && IsNotes(t[i]) && forall j | 0 <= j < i :: !IsNotes(t[j])
    ensures NotesFrom(t, 0) == Some(i)
  {
  }

  lemma {:induction false} SameNotes(a: seq<StepMessage>, b: seq<StepMessage>)
    requires |a| == |b| && forall i | 0 <= i < |a| :: IsNotes(a[i]) <==> IsNotes(b[i])
    ensures NotesFrom(a, 0) == NotesFrom(b, 0)
  {
    var found := NotesFrom(a, 0);
    if found.Some? { NotesAre(b, found.value); }
  }

  lemma {:induction false} EvictionKeepsNotes(w: Wording, t: seq<StepMessage>, k: nat)
    ensures NotesFrom(EvictOldest(Blind(w), t, k), 0) == NotesFrom(t, 0)
  {
    SameNotes(t, EvictOldest(Blind(w), t, k));
  }

  lemma {:induction false} RankPast(a: seq<StepMessage>, b: seq<StepMessage>, n: nat)
    requires n <= |b|
    ensures Rank(a + b, |a| + n) == Reads(a) + Rank(b, n)
  {
    if n == 0 { RankPrefix(a, b, |a|); } else { RankPast(a, b, n - 1); }
  }

  lemma {:induction false} EvictConcat(w: Wording, a: seq<StepMessage>, b: seq<StepMessage>, k: nat)
    ensures EvictOldest(Blind(w), a + b, k) ==
      EvictOldest(Blind(w), a, k) + EvictOldest(Blind(w), b, if k < Reads(a) then 0 else k - Reads(a))
  {
    var left := if k < Reads(a) then 0 else k - Reads(a);
    forall i | 0 <= i < |a| + |b|
      ensures MessageAfter(Blind(w), a + b, k, i) ==
        (EvictOldest(Blind(w), a, k) + EvictOldest(Blind(w), b, left))[i]
    {
      if i < |a| { RankPrefix(a, b, i); } else { RankPast(a, b, i - |a|); }
    }
  }

  lemma {:induction false} ContextHasNoReads(content: string)
    ensures Reads([Context(content)]) == 0
    ensures forall w, k :: EvictOldest(Blind(w), [Context(content)], k) == [Context(content)]
  {
    assert !Evictable([Context(content)][0]);
    assert Rank([Context(content)], 1) == Rank([Context(content)], 0);
  }

  lemma {:induction false} EvictSpliced(w: Wording, t: seq<StepMessage>, content: string, k: nat)
    ensures EvictOldest(Blind(w), Spliced(t, Context(content)), k) ==
      Spliced(EvictOldest(Blind(w), t, k), Context(content))
    ensures Reads(Spliced(t, Context(content))) == Reads(t)
  {
    var at := if |t| == 0 then 0 else 1;
    var a, b, c := t[..at], t[at..], [Context(content)];
    assert t == a + b;
    ContextHasNoReads(content);
    RankPast(a, c, 1);
    RankPast(a + c, b, |b|);
    RankPast(a, b, |b|);
    EvictConcat(w, a, b, k);
    EvictConcat(w, a + c, b, k);
    EvictConcat(w, a, c, k);
    var evicted := EvictOldest(Blind(w), t, k);
    assert evicted[..at] == EvictOldest(Blind(w), a, k);
    assert evicted == evicted[..at] + evicted[at..];
  }

  lemma {:induction false} RankAfterRewrite(t: seq<StepMessage>, i: nat, content: string, n: nat)
    requires i < |t| && t[i].Context? && n <= |t|
    ensures Rank(t[i := Context(content)], n) == Rank(t, n)
  {
    if n > 0 { RankAfterRewrite(t, i, content, n - 1); }
  }

  lemma {:induction false} EvictRewritten(w: Wording, t: seq<StepMessage>, i: nat, content: string, k: nat)
    requires i < |t| && t[i].Context?
    ensures EvictOldest(Blind(w), t[i := Context(content)], k) == EvictOldest(Blind(w), t, k)[i := Context(content)]
    ensures Reads(t[i := Context(content)]) == Reads(t)
  {
    forall j | 0 <= j < |t|
      ensures Rank(t[i := Context(content)], j) == Rank(t, j)
    {
      RankAfterRewrite(t, i, content, j);
    }
    RankAfterRewrite(t, i, content, |t|);
  }

  lemma {:induction false} EvictSynced(w: Wording, t: seq<StepMessage>, rendered: string, k: nat)
    ensures EvictOldest(Blind(w), Synced(t, rendered), k) == Synced(EvictOldest(Blind(w), t, k), rendered)
    ensures Reads(Synced(t, rendered)) == Reads(t)
  {
    EvictionKeepsNotes(w, t, k);
    var found := NotesFrom(t, 0);
    if found.Some? {
      EvictRewritten(w, t, found.value, rendered, k);
    } else {
      EvictSpliced(w, t, rendered, k);
    }
  }

  // ----- Syncing does not shrink a transcript -----

  lemma {:induction false} TotalAfterRewrite(t: seq<StepMessage>, i: nat, m: StepMessage)
    requires i < |t|
    ensures Total(t[i := m]) + MessageTokens(t[i]) == Total(t) + MessageTokens(m)
  {
    var a, b := t[..i], t[i + 1..];
    assert t == a + [t[i]] + b && t[i := m] == a + [m] + b;
    TotalConcat(a + [t[i]], b);
    TotalConcat(a + [m], b);
    TotalConcat(a, [t[i]]);
    TotalConcat(a, [m]);
    OneTotal(t[i]);
    OneTotal(m);
  }

  lemma {:induction false} OneTotal(m: StepMessage)
    ensures Total([m]) == MessageTokens(m)
  {
    assert TotalTo([m], 1) == TotalTo([m], 0) + MessageTokens([m][0]);
  }

  lemma {:induction false} TotalAfterSplice(t: seq<StepMessage>, m: StepMessage)
    ensures Total(Spliced(t, m)) == Total(t) + MessageTokens(m)
  {
    var at := if |t| == 0 then 0 else 1;
    assert t == t[..at] + t[at..];
    TotalConcat(t[..at], t[at..]);
    TotalConcat(t[..at] + [m], t[at..]);
    TotalConcat(t[..at], [m]);
    OneTotal(m);
  }

  /** The notes message, if there is one, is no longer than this text. */
  predicate NotesWithin(t: seq<StepMessage>, rendered: string) {
    var found := NotesFrom(t, 0);
    found.Some? ==> |t[found.value].content| <= |rendered|
  }

  lemma {:induction false} SyncingGrows(t: seq<StepMessage>, rendered: string)
    requires NotesWithin(t, rendered)
    ensures Total(t) <= Total(Synced(t, rendered))
  {
    var found := NotesFrom(t, 0);
    if rendered != "" {
      if found.Some? {
        TotalAfterRewrite(t, found.value, Context(rendered));
      } else {
        TotalAfterSplice(t, Context(rendered));
      }
    }
  }

  // ----- One step more -----

  /** One pass of the loop, before eviction. */
  function Pass(t: seq<StepMessage>, batch: seq<StepMessage>, rendered: string): seq<StepMessage> {
    Synced(t + batch, rendered)
  }

  lemma {:induction false} EvictBeforePass(
    w: Wording, t: seq<StepMessage>, batch: seq<StepMessage>, rendered: string, k: nat)
    requires k <= Reads(t)
    ensures EvictOldest(Blind(w), Pass(t, batch, rendered), k) == Pass(EvictOldest(Blind(w), t, k), batch, rendered)
    ensures Reads(t) <= Reads(Pass(t, batch, rendered))
  {
    EvictBeforeAppend(Blind(w), t, batch, k);
    EvictSynced(w, t + batch, rendered, k);
    MoreReads(t, batch);
  }

  lemma {:induction false} PassGrows(
    w: Wording, t: seq<StepMessage>, batch: seq<StepMessage>, rendered: string, k: nat)
    requires NotesWithin(t + batch, rendered) && k <= Reads(t)
    ensures Total(EvictOldest(Blind(w), t, k)) <= Total(Pass(EvictOldest(Blind(w), t, k), batch, rendered))
  {
    var evicted := EvictOldest(Blind(w), t, k);
    EvictBeforeAppend(Blind(w), t, batch, k);
    EvictionKeepsNotes(w, t + batch, k);
    TotalConcat(evicted, batch);
    SyncingGrows(evicted + batch, rendered);
  }

  lemma {:induction false} PassEvictsMore(
    w: Wording, t: seq<StepMessage>, batch: seq<StepMessage>, rendered: string, cap: int)
    requires NotesWithin(t + batch, rendered)
    ensures Fewest(Blind(w), t, cap) <= Fewest(Blind(w), Pass(t, batch, rendered), cap)
  {
    EvictBeforePass(w, t, batch, rendered, 0);
    forall n | 0 <= n < Fewest(Blind(w), t, cap)
      ensures !Enough(Blind(w), Pass(t, batch, rendered), cap, n)
    {
      EvictBeforePass(w, t, batch, rendered, n);
      PassGrows(w, t, batch, rendered, n);
      assert !Enough(Blind(w), t, cap, n);
    }
  }

  /** Evicting, then making a pass and evicting again, ends where one eviction at the end
      would, as long as the notes do not shrink. */
  lemma {:induction false} PassIsIncremental(
    w: Wording, t: seq<StepMessage>, batch: seq<StepMessage>, rendered: string, cap: int)
    requires Distinct(w) && NotesWithin(t + batch, rendered)
    ensures Evicted(Blind(w), Pass(Evicted(Blind(w), t, cap), batch, rendered), cap) ==
      Evicted(Blind(w), Pass(t, batch, rendered), cap)
  {
    var k := Fewest(Blind(w), t, cap);
    EvictBeforePass(w, t, batch, rendered, k);
    PassEvictsMore(w, t, batch, rendered, cap);
    EvictionResumes(w, Pass(t, batch, rendered), k, cap);
  }

  // ----- A whole run -----

  /** What happens between two calls of the model: messages are pushed and notes land. */
  datatype Step = Step(messages: seq<StepMessage>, noted: seq<string>)

  function Messages(steps: seq<Step>): seq<StepMessage> {
    if steps == [] then [] else Messages(steps[..|steps| - 1]) + steps[|steps| - 1].messages
  }

  function Notes(steps: seq<Step>): seq<string> {
    if steps == [] then [] else Notes(steps[..|steps| - 1]) + steps[|steps| - 1].noted
  }

  /** The transcript as `boundStepLoopTranscript` finds it once the notes are up to date, when
      `stubs` says how each pass evicts. */
  function Unbounded(stubs: nat -> Stubber, steps: seq<Step>, cap: int): seq<StepMessage>
    requires steps != []
    decreases |steps|, 0
  {
    Pass(RunWith(stubs, steps[..|steps| - 1], cap), steps[|steps| - 1].messages, Rendered(Notes(steps)))
  }

  /** The transcript after each step was followed by `boundStepLoopTranscript`. */
  function RunWith(stubs: nat -> Stubber, steps: seq<Step>, cap: int): seq<StepMessage>
    decreases |steps|, 1
  {
    if steps == [] then [] else Evicted(stubs(|steps| - 1), Unbounded(stubs, steps, cap), cap)
  }

  function Blindly(w: Wording): nat -> Stubber {
    _ => Blind(w)
  }

  /** The same without a summarizer. */
  function Run(w: Wording, steps: seq<Step>, cap: int): seq<StepMessage> {
    RunWith(Blindly(w), steps, cap)
  }

  predicate NoNotes(t: seq<StepMessage>) {
    forall i | 0 <= i < |t| :: !IsNotes(t[i])
  }

  /** The first messages are not nothing, and no pushed message passes for the notes. */
  predicate Usual(steps: seq<Step>) {
    && (steps != [] ==> steps[0].messages != [])
    && forall i | 0 <= i < |steps| :: NoNotes(steps[i].messages)
  }

  lemma {:induction false} UsualMessages(steps: seq<Step>)
    requires Usual(steps)
    ensures NoNotes(Messages(steps)) && (steps != [] ==> Messages(steps) != [])
  {
    if steps != [] {
      var front := steps[..|steps| - 1];
      UsualMessages(front);
      if front == [] { assert steps[0] == steps[|steps| - 1]; }
    }
  }

  lemma {:induction false} JoinGrows(parts: seq<string>, more: seq<string>, separator: string)
    ensures |T.Join(parts, separator)| <= |T.Join(parts + more, separator)|
  {
    if |parts| > 1 {
      assert (parts + more)[1..] == parts[1..] + more;
      JoinGrows(parts[1..], more, separator);
    } else if |parts| == 1 {
      assert (parts + more)[0] == parts[0];
    }
  }

  lemma {:induction false} RenderedGrows(notes: seq<string>, more: seq<string>)
    ensures |Rendered(notes)| <= |Rendered(notes + more)|
    ensures Rendered(notes) == "" <==> notes == []
    ensures notes != [] ==> NOTE_PREFIX <= Rendered(notes)
  {
    if notes == [] {
      assert notes + more == more;
    } else {
      var rest := NoteLines(notes + more)[|notes|..];
      forall i | 0 <= i < |notes|
        ensures NoteLine(notes + more, i) == NoteLine(notes, i)
      {
      }
      assert NoteLines(notes + more) == NoteLines(notes) + rest;
      JoinGrows(NoteLines(notes), rest, "\n");
    }
  }

  lemma {:induction false} SplicedThenPushed(
    t: seq<StepMessage>, batch: seq<StepMessage>, m: StepMessage, other: StepMessage)
    requires t != []
    ensures var all := Spliced(t, m) + batch;
      |all| >= 2 && all[0] == t[0] && all[1] == m && all[1 := other] == Spliced(t + batch, other)
  {
    assert Spliced(t, m) == [t[0], m] + t[1..];
    assert Spliced(t + batch, other) == [t[0], other] + (t + batch)[1..];
  }

  /** Only the last sync shows. */
  lemma {:induction false} SyncedAgain(
    t: seq<StepMessage>, batch: seq<StepMessage>, before: string, rendered: string)
    requires NoNotes(t) && NoNotes(batch) && |before| <= |rendered|
    requires before != "" ==> NOTE_PREFIX <= before && t != []
    ensures Pass(Synced(t, before), batch, rendered) == Synced(t + batch, rendered)
    ensures NotesWithin(Synced(t, before) + batch, rendered)
  {
    if before != "" {
      SplicedThenPushed(t, batch, Context(before), Context(rendered));
      NotesAre(Synced(t, before) + batch, 1);
    }
  }

  /** Over a whole run, rewriting the notes and evicting before every call of the model leaves
      exactly what one rewriting and one eviction of the full history would leave. */
  lemma {:induction false} RunEvictsOnce(w: Wording, steps: seq<Step>, cap: int)
    requires Distinct(w) && Usual(steps)
    ensures Run(w, steps, cap) == Evicted(Blind(w), Synced(Messages(steps), Rendered(Notes(steps))), cap)
  {
    if steps == [] {
      NoReadsNothingEvicted(Blind(w), [], cap);
    } else {
      var front, last := steps[..|steps| - 1], steps[|steps| - 1];
      var before, rendered := Rendered(Notes(front)), Rendered(Notes(steps));
      assert Unbounded(Blindly(w), steps, cap) == Pass(Run(w, front, cap), last.messages, rendered);
      RunEvictsOnce(w, front, cap);
      UsualMessages(front);
      RenderedGrows(Notes(front), last.noted);
      SyncedAgain(Messages(front), last.messages, before, rendered);
      PassIsIncremental(w, Synced(Messages(front), before), last.messages, rendered, cap);
    }
  }

  // ----- A whole run that distils -----

  /** The two differ at most in the contents of tool reads. */
  ghost predicate AlikeButReads(a: seq<StepMessage>, b: seq<StepMessage>) {
    |a| == |b| && forall i | 0 <= i < |a| :: SameButRead(a[i], b[i])
  }

  lemma {:induction false} SyncedAlike(a: seq<StepMessage>, b: seq<StepMessage>, rendered: string)
    requires AlikeButReads(a, b)
    ensures AlikeButReads(Synced(a, rendered), Synced(b, rendered))
  {
    SameNotes(a, b);
  }

  lemma {:induction false} PassAlike(
    a: seq<StepMessage>, b: seq<StepMessage>, batch: seq<StepMessage>, rendered: string)
    requires AlikeButReads(a, b)
    ensures AlikeButReads(Pass(a, batch, rendered), Pass(b, batch, rendered))
  {
    assert AlikeButReads(a + batch, b + batch);
    SyncedAlike(a + batch, b + batch, rendered);
  }

  /** However the passes evict, distilling or not, a whole run keeps every message of the
      history in its place, with the last notes, and all of them but tool reads unchanged. */
  lemma {:induction false} RunKeepsMessages(stubs: nat -> Stubber, steps: seq<Step>, cap: int)
    requires Usual(steps)
    ensures AlikeButReads(Synced(Messages(steps), Rendered(Notes(steps))), RunWith(stubs, steps, cap))
    decreases |steps|
  {
    if steps != [] {
      var front, last := steps[..|steps| - 1], steps[|steps| - 1];
      var before, rendered := Rendered(Notes(front)), Rendered(Notes(steps));
      RunKeepsMessages(stubs, front, cap);
      UsualMessages(front);
      RenderedGrows(Notes(front), last.noted);
      SyncedAgain(Messages(front), last.messages, before, rendered);
      PassAlike(Synced(Messages(front), before), RunWith(stubs, front, cap), last.messages, rendered);
      EvictionTouchesOnlyReads(stubs(|steps| - 1), Unbounded(stubs, steps, cap), cap);
    }
  }

  /** After every pass, distilling or not, the estimate is at most the cap, or every read that
      could be evicted has been replaced; and a pass that finds the cap met changes nothing. */
  lemma {:induction false} EveryPassBounds(stubs: nat -> Stubber, steps: seq<Step>, cap: int)
    requires steps != []
    ensures
      var stub, before, after := stubs(|steps| - 1), Unbounded(stubs, steps, cap), RunWith(stubs, steps, cap);
      && |after| == |before|
      && (Total(before) <= cap ==> after == before)
      && (|| Total(after) <= cap
          || forall i | 0 <= i < |before| && Evictable(before[i]) ::
               after[i] == ToolResult(before[i].callId, Stub(stub, before[i], Rank(before, i))))
  {
    var stub, before := stubs(|steps| - 1), Unbounded(stubs, steps, cap);
    EvictionBounds(stub, before, cap);
    EvictNone(stub, before);
  }
}
