/** What recording fixes does to an issue file over time: the status is the last one recorded,
    and the Resolution section grows by each entry in turn. */
module IssueHistory {
  import opened Contract
  import opened IssueUpdates
  import T = Text

  // ----- Text without its blank lines -----

  /** The lines that say something, without the white space at their ends. */
  function Substance(lines: seq<string>): seq<string> {
    if lines == [] then []
    else
      Substance(lines[..|lines| - 1]) +
        (if T.BlankLine(lines[|lines| - 1]) then [] else [T.TrimEnd(lines[|lines| - 1])])
  }

  lemma {:induction false} SubstanceConcat(a: seq<string>, b: seq<string>)
    ensures Substance(a + b) == Substance(a) + Substance(b)
  {
    if b == [] {
      assert a + b == a;
    } else {
      assert (a + b)[..|a + b| - 1] == a + b[..|b| - 1];
      SubstanceConcat(a, b[..|b| - 1]);
    }
  }

  lemma {:induction false} BlanksSayNothing(lines: seq<string>)
    requires forall k | 0 <= k < |lines| :: T.BlankLine(lines[k])
    ensures Substance(lines) == []
  {
    if lines != [] { BlanksSayNothing(lines[..|lines| - 1]); }
  }

  lemma {:induction false} SubstanceOfOne(line: string)
    ensures Substance([line]) == if T.BlankLine(line) then [] else [T.TrimEnd(line)]
  {
  }

  // ----- The three parts of a body -----

  /** What stands before the Resolution section, in it, and from the next heading of level one
      or two on. */
  datatype Parts = Parts(before: seq<string>, section: seq<string>, after: seq<string>)

  function PartsOf(body: seq<string>): Parts {
    var start := First(body, 0, IsResolution);
    if start == |body| then Parts(Substance(body), [], [])
    else
      var next := First(body, start + 1, IsHeading);
      Parts(Substance(body[..start]), Substance(body[start..next]), Substance(body[next..]))
  }

  /** More text at the end of the section, which opens with its heading. */
  function Said(parts: Parts, text: seq<string>): Parts {
    Parts(parts.before, (if parts.section == [] then [RESOLUTION_HEADING] else parts.section) + text, parts.after)
  }

  /** One more entry at the end of the section. */
  function Grown(parts: Parts, entry: seq<string>): Parts {
    Said(parts, Substance(entry))
  }

  /** An entry without headings of level one or two, ending in text. */
  predicate Plain(entry: seq<string>) {
    && entry != []
    && (forall l :: l in entry ==> !IsHeading(l))
    && !T.BlankLine(entry[|entry| - 1]) && T.TrimEnd(entry[|entry| - 1]) == entry[|entry| - 1]
  }

  lemma {:induction false} HeadingFacts()
    ensures !IsResolution("") && !IsHeading("") && !IsRule("")
    ensures IsResolution(RESOLUTION_HEADING) && IsHeading(RESOLUTION_HEADING) && !IsRule(RESOLUTION_HEADING)
    ensures T.BlankLine("") && !T.BlankLine(RESOLUTION_HEADING)
    ensures T.TrimEnd(RESOLUTION_HEADING) == RESOLUTION_HEADING
  {
    assert T.TrimEnd("") == "";
    assert T.Trim("") == "";
    var h := RESOLUTION_HEADING;
    assert h[|h| - 1] == 'n';
    assert T.TrimEnd(h) == h;
    assert T.TrimStart(h) == h;
  }

  /** Every resolution heading is a heading of level two. */
  lemma {:induction false} ResolutionIsHeading(line: string)
    requires IsResolution(line)
    ensures IsHeading(line) && !T.BlankLine(line)
  {
    assert line[..3] == RESOLUTION_HEADING[..3] == "## ";
    assert line[0] == '#';
    var tail := T.TrimEndSplits(line);
    assert line[0] in line;
    assert !T.Blank(line);
  }

  lemma {:induction false} MadeFinds(lines: seq<string>, entry: seq<string>)
    requires Plain(entry) && First(lines, 0, IsResolution) == |lines|
    ensures var all := Made(lines, entry);
      && First(all, 0, IsResolution) == |lines| + 1
      && First(all, |lines| + 2, IsHeading) == |all|
  {
    HeadingFacts();
    var all, n := Made(lines, entry), |lines|;
    FirstIs(all, 0, IsResolution, n + 1);
    forall k | n + 2 <= k < |all|
      ensures !IsHeading(all[k])
    {
      if k > n + 2 { assert all[k] == entry[k - n - 3]; }
    }
    FirstIs(all, n + 2, IsHeading, |all|);
  }

  lemma {:induction false} MadeSlices(lines: seq<string>, entry: seq<string>)
    ensures var all, n := Made(lines, entry), |lines|;
      |all| >= n + 1 && all[..n + 1] == lines + [""] && all[n + 1..|all|] == [RESOLUTION_HEADING] + ([""] + entry)
  {
  }

  lemma {:induction false} MadeSays(lines: seq<string>, entry: seq<string>)
    ensures var all, n := Made(lines, entry), |lines|;
      && |all| >= n + 1
      && Substance(all[..n + 1]) == Substance(lines)
      && Substance(all[n + 1..|all|]) == [RESOLUTION_HEADING] + Substance(entry)
  {
    HeadingFacts();
    MadeSlices(lines, entry);
    SubstanceConcat(lines, [""]);
    SubstanceOfOne("");
    SubstanceConcat([RESOLUTION_HEADING], [""] + entry);
    SubstanceConcat([""], entry);
    SubstanceOfOne(RESOLUTION_HEADING);
  }

  lemma {:induction false} MadeGrows(lines: seq<string>, entry: seq<string>)
    requires Plain(entry) && First(lines, 0, IsResolution) == |lines|
    ensures PartsOf(Made(lines, entry)) == Grown(PartsOf(lines), entry)
  {
    MadeFinds(lines, entry);
    MadeSays(lines, entry);
    var all := Made(lines, entry);
    assert all[|all|..] == [];
  }

  lemma {:induction false} SplicedFinds(lines: seq<string>, start: nat, tail: nat, next: nat, entry: seq<string>)
    requires Plain(entry) && start == First(lines, 0, IsResolution) < |lines|
    requires next == First(lines, start + 1, IsHeading) && start < tail <= next
    ensures var all := Spliced(lines, tail, next, entry);
      && First(all, 0, IsResolution) == start
      && First(all, start + 1, IsHeading) == |all| - (|lines| - next)
  {
    HeadingFacts();
    var all := Spliced(lines, tail, next, entry);
    var middle := [""] + entry + (if next < |lines| then [""] else []);
    assert all == lines[..tail] + middle + lines[next..];
    FirstIs(all, 0, IsResolution, start);
    var end := tail + |middle|;
    forall k | start + 1 <= k < end
      ensures !IsHeading(all[k])
    {
      if k < tail {
        assert all[k] == lines[k];
      } else {
        assert all[k] == middle[k - tail];
        assert middle[k - tail] == "" || middle[k - tail] in entry;
      }
    }
    if next < |lines| { assert all[end] == lines[next]; }
    FirstIs(all, start + 1, IsHeading, end);
  }

  lemma {:induction false} SplicedSlices(lines: seq<string>, start: nat, tail: nat, next: nat, entry: seq<string>)
    requires start <= tail <= next <= |lines|
    ensures var all, separator := Spliced(lines, tail, next, entry), if next < |lines| then [""] else [];
      var end := |all| - (|lines| - next);
      && start <= end
      && all[..start] == lines[..start]
      && all[start..end] == lines[start..tail] + ([""] + (entry + separator))
      && all[end..] == lines[next..]
  {
  }

  lemma {:induction false} BlankBeforeAndAfter(entry: seq<string>, separator: seq<string>)
    requires separator == [] || separator == [""]
    ensures Substance([""] + (entry + separator)) == Substance(entry)
  {
    assert T.TrimEnd("") == "";
    BlanksSayNothing([""]);
    BlanksSayNothing(separator);
    SubstanceConcat([""], entry + separator);
    SubstanceConcat(entry, separator);
    assert Substance(entry) + [] == Substance(entry);
  }

  /** Blank lines around an entry do not count. */
  lemma {:induction false} EntrySays(
    section: seq<string>, blanks: seq<string>, entry: seq<string>, separator: seq<string>)
    requires forall k | 0 <= k < |blanks| :: T.BlankLine(blanks[k])
    requires separator == [] || separator == [""]
    ensures Substance(section + ([""] + (entry + separator))) == Substance(section + blanks) + Substance(entry)
  {
    SubstanceConcat(section, [""] + (entry + separator));
    BlankBeforeAndAfter(entry, separator);
    SubstanceConcat(section, blanks);
    BlanksSayNothing(blanks);
    assert Substance(section) + [] == Substance(section);
  }

  lemma {:induction false} SectionSaysSomething(section: seq<string>)
    requires section != [] && IsResolution(section[0])
    ensures Substance(section) != []
  {
    assert section == [section[0]] + section[1..];
    SubstanceConcat([section[0]], section[1..]);
    SubstanceOfOne(section[0]);
    ResolutionIsHeading(section[0]);
  }

  lemma {:induction false} SplicedSays(lines: seq<string>, start: nat, tail: nat, next: nat, entry: seq<string>)
    requires start <= tail <= next <= |lines|
    requires forall k | tail <= k < next :: T.BlankLine(lines[k])
    ensures var all := Spliced(lines, tail, next, entry);
      var end := |all| - (|lines| - next);
      && start <= end
      && Substance(all[..start]) == Substance(lines[..start])
      && Substance(all[start..end]) == Substance(lines[start..next]) + Substance(entry)
      && Substance(all[end..]) == Substance(lines[next..])
  {
    SplicedSlices(lines, start, tail, next, entry);
    EntrySays(lines[start..tail], lines[tail..next], entry, if next < |lines| then [""] else []);
    assert lines[start..next] == lines[start..tail] + lines[tail..next];
  }

  lemma {:induction false} PartsIs(lines: seq<string>, start: nat, next: nat)
    requires First(lines, 0, IsResolution) == start < |lines| && First(lines, start + 1, IsHeading) == next
    ensures PartsOf(lines) ==
      Parts(Substance(lines[..start]), Substance(lines[start..next]), Substance(lines[next..]))
  {
  }

  lemma {:induction false} SplicedGrows(lines: seq<string>, start: nat, tail: nat, next: nat, entry: seq<string>)
    requires Plain(entry) && start == First(lines, 0, IsResolution) < |lines|
    requires next == First(lines, start + 1, IsHeading) && start < tail <= next
    requires forall k | tail <= k < next :: T.BlankLine(lines[k])
    ensures PartsOf(Spliced(lines, tail, next, entry)) == Grown(PartsOf(lines), entry)
  {
    var all := Spliced(lines, tail, next, entry);
    SplicedFinds(lines, start, tail, next, entry);
    SplicedSays(lines, start, tail, next, entry);
    PartsIs(lines, start, next);
    PartsIs(all, start, |all| - (|lines| - next));
    SectionSaysSomething(lines[start..next]);
  }

  /** Appending an entry grows the section by it and leaves what stands before and after. */
  lemma {:induction false} AppendingGrows(lines: seq<string>, entry: seq<string>)
    requires Plain(entry)
    ensures PartsOf(Appended(lines, entry)) == Grown(PartsOf(lines), entry)
  {
    match PlaceOf(lines) {
      case NoSection => MadeGrows(lines, entry);
      case Slot(start, tail, next) => SplicedGrows(lines, start, tail, next, entry);
    }
  }

  // ----- Front matter and body -----

  /** A front matter: its last line is the first rule after line 0. */
  predicate IsFront(front: seq<string>) {
    && |front| >= 2 && IsRule(front[|front| - 1])
    && forall k | 1 <= k < |front| - 1 :: !IsRule(front[k])
  }

  predicate NoResolution(lines: seq<string>) {
    forall k | 0 <= k < |lines| :: !IsResolution(lines[k])
  }

  lemma {:induction false} ClosingOfFront(front: seq<string>, rest: seq<string>)
    requires IsFront(front)
    ensures Closing(front + rest) == |front| - 1
  {
    var all := front + rest;
    FirstIs(all, 1, IsRule, |front| - 1);
  }

  lemma {:induction false} NoClosingIff(lines: seq<string>)
    ensures Closing(lines) == 0 <==> forall k | 1 <= k < |lines| :: !IsRule(lines[k])
  {
  }

  function Front(lines: seq<string>): seq<string> {
    if Closing(lines) == 0 then [] else lines[..Closing(lines) + 1]
  }

  function Body(lines: seq<string>): seq<string> {
    if Closing(lines) == 0 then lines else lines[Closing(lines) + 1..]
  }

  lemma {:induction false} PrefixIsFront(lines: seq<string>, end: nat)
    requires 1 <= end < |lines| && IsRule(lines[end]) && forall k | 1 <= k < end :: !IsRule(lines[k])
    ensures IsFront(lines[..end + 1])
  {
  }

  lemma {:induction false} FrontAndBody(lines: seq<string>)
    ensures lines == Front(lines) + Body(lines)
    ensures Closing(lines) > 0 ==> IsFront(Front(lines))
  {
    if Closing(lines) > 0 { PrefixIsFront(lines, Closing(lines)); }
  }

  lemma {:induction false} FrontOf(front: seq<string>, rest: seq<string>)
    requires IsFront(front)
    ensures Front(front + rest) == front && Body(front + rest) == rest
  {
    ClosingOfFront(front, rest);
  }

  // ----- Trimming the end -----

  predicate AllBlank(lines: seq<string>) {
    forall k | 0 <= k < |lines| :: T.BlankLine(lines[k])
  }

  function TrimLast(lines: seq<string>): seq<string>
    requires lines != []
  {
    lines[..|lines| - 1] + [T.TrimEnd(lines[|lines| - 1])]
  }

  lemma {:induction false} TrimAfterText(front: seq<string>, rest: seq<string>)
    requires front != [] && !T.BlankLine(front[|front| - 1])
    ensures T.TrimLines(front + rest) == if AllBlank(rest) then TrimLast(front) else front + T.TrimLines(rest)
  {
    if rest == [] {
      assert front + rest == front;
    } else {
      var shorter, last := rest[..|rest| - 1], rest[|rest| - 1];
      assert (front + rest)[..|front + rest| - 1] == front + shorter;
      if T.BlankLine(last) {
        TrimAfterText(front, shorter);
        assert AllBlank(shorter) == AllBlank(rest);
      }
    }
  }

  lemma {:induction false} RuleFacts(line: string)
    requires IsRule(line)
    ensures !T.BlankLine(line) && IsRule(T.TrimEnd(line))
    ensures !IsResolution(line)
  {
    TrimmedBlank(line);
    TrimEndEndsInText(line);
    if IsResolution(line) { FirstCharStays(line); }
  }

  lemma {:induction false} FirstCharStays(line: string)
    requires line != "" && !T.IsSpace(line[0])
    ensures T.Trim(line) != "" && T.Trim(line)[0] == line[0]
  {
    var tail := T.TrimEndSplits(line);
    assert line[0] in line;
    assert !T.Blank(line);
    assert T.TrimEnd(line)[0] == line[0];
  }

  lemma {:induction false} TrimmedFront(front: seq<string>)
    requires IsFront(front)
    ensures IsFront(TrimLast(front)) && NoResolution(TrimLast(front)) == NoResolution(front)
  {
    RuleFacts(front[|front| - 1]);
    RuleFacts(T.TrimEnd(front[|front| - 1]));
    var trimmed := TrimLast(front);
    assert forall k | 0 <= k < |front| - 1 :: trimmed[k] == front[k];
  }

  /** Trimming acts on the body alone, up to the white space after the closing rule. */
  lemma {:induction false} TrimFrontAndBody(front: seq<string>, body: seq<string>)
    requires IsFront(front)
    ensures var trimmed := T.TrimLines(front + body);
      && IsFront(Front(trimmed)) && trimmed == Front(trimmed) + Body(trimmed)
      && Front(trimmed) == (if AllBlank(body) then TrimLast(front) else front)
      && Body(trimmed) == (if AllBlank(body) then [] else T.TrimLines(body))
      && NoResolution(Front(trimmed)) == NoResolution(front)
  {
    RuleFacts(front[|front| - 1]);
    TrimAfterText(front, body);
    TrimmedFront(front);
    if AllBlank(body) {
      assert T.TrimLines(front + body) == TrimLast(front) + [];
      FrontOf(TrimLast(front), []);
    } else {
      FrontOf(front, T.TrimLines(body));
    }
  }

  lemma {:induction false} TrimmedAt(lines: seq<string>, k: nat)
    requires k < |T.TrimLines(lines)|
    ensures T.TrimLines(lines)[k] == lines[k] || T.TrimLines(lines)[k] == T.TrimEnd(lines[k])
  {
    var front, last := lines[..|lines| - 1], lines[|lines| - 1];
    if front != [] && T.BlankLine(last) { TrimmedAt(front, k); }
  }

  lemma {:induction false} TrimKeepsOpen(lines: seq<string>)
    requires Closing(lines) == 0
    ensures Closing(T.TrimLines(lines)) == 0
  {
    NoClosingIff(lines);
    NoClosingIff(T.TrimLines(lines));
    forall k | 1 <= k < |T.TrimLines(lines)|
      ensures !IsRule(T.TrimLines(lines)[k])
    {
      TrimmedAt(lines, k);
      TrimEndEndsInText(lines[k]);
    }
  }

  lemma {:induction false} TrimEndsInText(lines: seq<string>)
    ensures var r := T.TrimLines(lines);
      r != [] ==> T.TrimEnd(r[|r| - 1]) == r[|r| - 1] && (|r| > 1 ==> !T.BlankLine(r[|r| - 1]))
  {
    if lines != [] {
      var front, last := lines[..|lines| - 1], lines[|lines| - 1];
      TrimEndEndsInText(last);
      if front != [] && T.BlankLine(last) { TrimEndsInText(front); }
    }
  }

  // ----- Appending behind a front matter -----

  lemma {:induction false} FirstBehind(front: seq<string>, body: seq<string>, from: nat, p: LineTest)
    requires from <= |body|
    ensures First(front + body, |front| + from, p) == |front| + First(body, from, p)
  {
    FirstIs(front + body, |front| + from, p, |front| + First(body, from, p));
  }

  lemma {:induction false} FirstResolutionBehind(front: seq<string>, body: seq<string>)
    requires NoResolution(front)
    ensures First(front + body, 0, IsResolution) == |front| + First(body, 0, IsResolution)
  {
    FirstIs(front + body, 0, IsResolution, |front| + First(body, 0, IsResolution));
  }

  lemma {:induction false} SkipBehind(front: seq<string>, body: seq<string>, lo: nat, n: nat)
    requires lo <= n <= |body|
    ensures SkipBlankBack(front + body, |front| + lo, |front| + n) == |front| + SkipBlankBack(body, lo, n)
  {
    if n > lo && T.BlankLine(body[n - 1]) { SkipBehind(front, body, lo, n - 1); }
  }

  function Shifted(place: Place, offset: nat): Place {
    match place
    case NoSection => NoSection
    case Slot(start, tail, next) => Slot(start + offset, tail + offset, next + offset)
  }

  lemma {:induction false} PlaceIs(lines: seq<string>, start: nat, next: nat, tail: nat)
    requires First(lines, 0, IsResolution) == start < |lines|
    requires First(lines, start + 1, IsHeading) == next && SkipBlankBack(lines, start + 1, next) == tail
    ensures PlaceOf(lines) == Slot(start, tail, next)
  {
  }

  lemma {:induction false} NextBehind(front: seq<string>, body: seq<string>, start: nat, p: LineTest)
    requires start < |body|
    ensures First(front + body, |front| + start + 1, p) == |front| + First(body, start + 1, p)
  {
    FirstBehind(front, body, start + 1, p);
  }

  lemma {:induction false} SkipAfter(front: seq<string>, body: seq<string>, start: nat, next: nat)
    requires start < next <= |body|
    ensures SkipBlankBack(front + body, |front| + start + 1, |front| + next) ==
      |front| + SkipBlankBack(body, start + 1, next)
  {
    SkipBehind(front, body, start + 1, next);
  }

  lemma {:induction false} SlotShifts(front: seq<string>, body: seq<string>, start: nat, next: nat, tail: nat)
    requires NoResolution(front)
    requires First(body, 0, IsResolution) == start < |body|
    requires First(body, start + 1, IsHeading) == next && SkipBlankBack(body, start + 1, next) == tail
    ensures PlaceOf(front + body) == Slot(start + |front|, tail + |front|, next + |front|)
  {
    FirstResolutionBehind(front, body);
    NextBehind(front, body, start, IsHeading);
    SkipAfter(front, body, start, next);
    PlaceIs(front + body, |front| + start, |front| + next, |front| + tail);
  }

  /** The place of an append behind a front matter is that of the body, shifted. */
  lemma {:induction false} PlaceShifts(front: seq<string>, body: seq<string>)
    requires NoResolution(front)
    ensures PlaceOf(front + body) == Shifted(PlaceOf(body), |front|)
  {
    var start := First(body, 0, IsResolution);
    if start < |body| {
      var next := First(body, start + 1, IsHeading);
      SlotShifts(front, body, start, next, SkipBlankBack(body, start + 1, next));
    } else {
      FirstResolutionBehind(front, body);
    }
  }

  lemma {:induction false} AppendedAtBehind(place: Place, front: seq<string>, body: seq<string>, entry: seq<string>)
    requires Fits(place, body)
    ensures Fits(Shifted(place, |front|), front + body)
    ensures AppendedAt(Shifted(place, |front|), front + body, entry) == front + AppendedAt(place, body, entry)
  {
    match place {
      case NoSection => MadeBehind(front, body, entry);
      case Slot(_, tail, next) => SplicedBehind(front, body, tail, next, entry);
    }
  }

  lemma {:induction false} MadeBehind(front: seq<string>, body: seq<string>, entry: seq<string>)
    ensures Made(front + body, entry) == front + Made(body, entry)
  {
  }

  lemma {:induction false} SplicedBehind(
    front: seq<string>, body: seq<string>, tail: nat, next: nat, entry: seq<string>)
    requires tail <= next <= |body|
    ensures Spliced(front + body, tail + |front|, next + |front|, entry) == front + Spliced(body, tail, next, entry)
  {
    assert (front + body)[..tail + |front|] == front + body[..tail];
    assert (front + body)[next + |front|..] == body[next..];
  }

  lemma {:induction false} AppendedBehind(front: seq<string>, body: seq<string>, entry: seq<string>)
    requires NoResolution(front)
    ensures Appended(front + body, entry) == front + Appended(body, entry)
  {
    PlaceShifts(front, body);
    AppendedAtBehind(PlaceOf(body), front, body, entry);
  }

  lemma {:induction false} TrimsBack(lines: seq<string>)
    requires lines != [] && !T.BlankLine(lines[|lines| - 1])
    requires T.TrimEnd(lines[|lines| - 1]) == lines[|lines| - 1]
    ensures T.TrimLines(lines + [""]) == lines
  {
    assert (lines + [""])[..|lines|] == lines;
    assert lines == lines[..|lines| - 1] + [lines[|lines| - 1]];
  }

  /** The last line of the result says something, so it survives the next trim. */
  lemma {:induction false} AppendedEndsInText(lines: seq<string>, entry: seq<string>)
    requires Plain(entry)
    ensures var r := Appended(T.TrimLines(lines), entry);
      |r| > 1 && T.TrimLines(r + [""]) == r
  {
    var trimmed := T.TrimLines(lines);
    TrimEndsInText(lines);
    AppendedLast(trimmed, entry);
    TrimsBack(Appended(trimmed, entry));
  }

  lemma {:induction false} AppendedLast(lines: seq<string>, entry: seq<string>)
    requires entry != []
    ensures var r := Appended(lines, entry);
      && |r| > 1
      && (r[|r| - 1] == entry[|entry| - 1] || (|lines| > 1 && r[|r| - 1] == lines[|lines| - 1]))
  {
  }

  /** No rule after line 0. */
  predicate Open(lines: seq<string>) {
    forall k | 1 <= k < |lines| :: !IsRule(lines[k])
  }

  predicate NoRule(lines: seq<string>) {
    forall k | 0 <= k < |lines| :: !IsRule(lines[k])
  }

  lemma {:induction false} OpenConcat(lines: seq<string>, more: seq<string>)
    requires Open(lines) && lines != [] && NoRule(more)
    ensures Open(lines + more)
  {
  }

  lemma {:induction false} SplicedStaysOpen(lines: seq<string>, tail: nat, next: nat, entry: seq<string>)
    requires Open(lines) && NoRule(entry) && 1 <= tail <= next <= |lines|
    ensures Open(Spliced(lines, tail, next, entry))
  {
  }

  lemma {:induction false} AppendedStaysOpen(lines: seq<string>, entry: seq<string>)
    requires lines != [] && Closing(lines) == 0 && NoRule(entry)
    ensures Closing(Appended(lines, entry)) == 0 && Closing(Appended(lines, entry) + [""]) == 0
  {
    HeadingFacts();
    NoClosingIff(lines);
    match PlaceOf(lines) {
      case NoSection =>
        OpenConcat(lines, ["", RESOLUTION_HEADING, ""]);
        OpenConcat(lines + ["", RESOLUTION_HEADING, ""], entry);
      case Slot(_, tail, next) =>
        SplicedStaysOpen(lines, tail, next, entry);
    }
    var r := Appended(lines, entry);
    assert Open(r);
    NoClosingIff(r);
    NoClosingIff(r + [""]);
  }

  // ----- Setting the status -----

  const STATUS := "status"

  lemma {:induction false} StatusLineIsPlain(value: string)
    ensures !IsRule(FieldLine(STATUS, value)) && !IsResolution(FieldLine(STATUS, value))
    ensures HasField(STATUS)(FieldLine(STATUS, value))
    ensures FieldLine(STATUS, value)[|STATUS| + 1..] == " " + value
  {
    var line := FieldLine(STATUS, value);
    assert line[0] == 's';
    FirstCharStays(line);
    assert (STATUS + ":")[..7] == line[..7];
  }

  /** A front matter whose first status field reads so. */
  predicate Reads(front: seq<string>, value: string) {
    && IsFront(front)
    && var i := First(front, 1, HasField(STATUS)); i < |front| - 1 && front[i][|STATUS| + 1..] == value
  }

  lemma {:induction false} ReadsBefore(front: seq<string>, rest: seq<string>, value: string)
    requires Reads(front, value)
    ensures FieldValue(front + rest, STATUS) == Some(value)
  {
    ClosingOfFront(front, rest);
    FirstIs(front + rest, 1, HasField(STATUS), First(front, 1, HasField(STATUS)));
  }

  lemma {:induction false} ReadsTrimmed(front: seq<string>, value: string)
    requires Reads(front, value)
    ensures Reads(TrimLast(front), value)
  {
    TrimmedFront(front);
    FirstIs(TrimLast(front), 1, HasField(STATUS), First(front, 1, HasField(STATUS)));
  }

  lemma {:induction false} NotBefore(lines: seq<string>, front: seq<string>, n: nat, p: LineTest)
    requires 1 <= n <= |front| && n <= |lines| && n <= First(lines, 1, p)
    requires front[..n] == lines[..n]
    ensures forall k | 1 <= k < n :: !p(front[k])
  {
  }

  /** The front matter with this status: in place of the first one, or before the closing rule
      when there is none. */
  function StatusIn(front: seq<string>, value: string): seq<string>
    requires |front| >= 2
  {
    var end, i := |front| - 1, First(front, 1, HasField(STATUS));
    if i < end then front[i := FieldLine(STATUS, value)]
    else front[..end] + [FieldLine(STATUS, value)] + front[end..]
  }

  lemma {:induction false} StatusReplaced(front: seq<string>, i: nat, value: string)
    requires IsFront(front) && 1 <= i < |front| - 1
    requires forall k | 1 <= k < i :: !HasField(STATUS)(front[k])
    ensures var front' := front[i := FieldLine(STATUS, value)];
      && First(front', 1, HasField(STATUS)) == i
      && Reads(front', " " + value) && (NoResolution(front) ==> NoResolution(front'))
  {
    StatusLineIsPlain(value);
    FirstIs(front[i := FieldLine(STATUS, value)], 1, HasField(STATUS), i);
  }

  lemma {:induction false} StatusInserted(front: seq<string>, value: string)
    requires IsFront(front)
    requires forall k | 1 <= k < |front| - 1 :: !HasField(STATUS)(front[k])
    ensures var end := |front| - 1;
      var front' := front[..end] + [FieldLine(STATUS, value)] + front[end..];
      && First(front', 1, HasField(STATUS)) == end
      && Reads(front', " " + value) && (NoResolution(front) ==> NoResolution(front'))
  {
    StatusLineIsPlain(value);
    var end := |front| - 1;
    FirstIs(front[..end] + [FieldLine(STATUS, value)] + front[end..], 1, HasField(STATUS), end);
  }

  lemma {:induction false} InsertedBefore(front: seq<string>, body: seq<string>, i: nat, line: string)
    requires i <= |front|
    ensures (front + body)[..i] + [line] + (front + body)[i..] == front[..i] + [line] + front[i..] + body
  {
  }

  lemma {:induction false} ReplacedBefore(front: seq<string>, body: seq<string>, i: nat, line: string)
    requires i < |front|
    ensures (front + body)[i := line] == front[i := line] + body
  {
  }

  /** The front matter found in a longer text has its status line in the same place. */
  lemma {:induction false} SamePlace(front: seq<string>, body: seq<string>)
    requires |front| >= 2
    ensures var i, j, end := First(front, 1, HasField(STATUS)), First(front + body, 1, HasField(STATUS)), |front| - 1;
      (i < end <==> j < end) && (i < end ==> i == j)
  {
    var lines, end := front + body, |front| - 1;
    var i, j := First(front, 1, HasField(STATUS)), First(lines, 1, HasField(STATUS));
    if i < end { FirstIs(lines, 1, HasField(STATUS), i); }
    if j < end {
      NotBefore(lines, front, j, HasField(STATUS));
      assert front[j] == lines[j];
      FirstIs(front, 1, HasField(STATUS), j);
    }
  }

  /** Setting the status rewrites the front matter alone. */
  lemma {:induction false} StatusIsSet(front: seq<string>, body: seq<string>, value: string)
    requires IsFront(front)
    ensures WithField(front + body, STATUS, value) == StatusIn(front, value) + body
    ensures Reads(StatusIn(front, value), " " + value)
    ensures NoResolution(front) ==> NoResolution(StatusIn(front, value))
  {
    var end, i := |front| - 1, First(front, 1, HasField(STATUS));
    ClosingOfFront(front, body);
    SamePlace(front, body);
    if i < end {
      ReplacedBefore(front, body, i, FieldLine(STATUS, value));
      StatusReplaced(front, i, value);
    } else {
      InsertedBefore(front, body, end, FieldLine(STATUS, value));
      StatusInserted(front, value);
    }
  }

  // ----- The rest of the front matter -----

  /** The front matter with an empty status: all its other lines, where they stand. The white
      space after the closing rule does not count. */
  function Emptied(front: seq<string>): seq<string>
    requires |front| >= 2
  {
    TrimLast(StatusIn(front, ""))
  }

  lemma {:induction false} StatusInTwice(front: seq<string>, value: string)
    requires IsFront(front)
    ensures Emptied(StatusIn(front, value)) == Emptied(front)
  {
    StatusInAgain(front, value);
  }

  lemma {:induction false} StatusInIs(front: seq<string>, i: nat, value: string)
    requires |front| >= 2 && First(front, 1, HasField(STATUS)) == i
    ensures StatusIn(front, value) ==
      if i < |front| - 1 then front[i := FieldLine(STATUS, value)]
      else front[..|front| - 1] + [FieldLine(STATUS, value)] + front[|front| - 1..]
  {
  }

  lemma {:induction false} InsertedThenReplaced(front: seq<string>, end: nat, line: string, other: string)
    requires end <= |front|
    ensures (front[..end] + [line] + front[end..])[end := other] == front[..end] + [other] + front[end..]
  {
  }

  lemma {:induction false} StatusInAgain(front: seq<string>, value: string)
    requires IsFront(front)
    ensures |StatusIn(front, value)| >= 2 && StatusIn(StatusIn(front, value), "") == StatusIn(front, "")
  {
    var end, i := |front| - 1, First(front, 1, HasField(STATUS));
    var front' := StatusIn(front, value);
    StatusInIs(front, i, value);
    StatusInIs(front, i, "");
    if i < end {
      StatusReplaced(front, i, value);
      StatusInIs(front', i, "");
    } else {
      StatusInserted(front, value);
      StatusInIs(front', end, "");
      InsertedThenReplaced(front, end, FieldLine(STATUS, value), FieldLine(STATUS, ""));
    }
  }

  lemma {:induction false} TrimmedFieldLine(front: seq<string>)
    requires |front| >= 2
    ensures
      var i, j, end := First(front, 1, HasField(STATUS)), First(TrimLast(front), 1, HasField(STATUS)), |front| - 1;
      (i < end <==> j < end) && (i < end ==> i == j)
  {
    var end, rule := |front| - 1, front[|front| - 1];
    assert front == front[..end] + [rule];
    var i, j := First(front, 1, HasField(STATUS)), First(TrimLast(front), 1, HasField(STATUS));
    if i < end { FirstIs(TrimLast(front), 1, HasField(STATUS), i); }
    if j < end {
      NotBefore(TrimLast(front), front, j, HasField(STATUS));
      assert front[j] == TrimLast(front)[j];
      FirstIs(front, 1, HasField(STATUS), j);
    }
  }

  lemma {:induction false} EmptiedTrimmed(front: seq<string>)
    requires |front| >= 2
    ensures Emptied(TrimLast(front)) == Emptied(front)
  {
    TrimmedFieldLine(front);
    TrimEndEndsInText(front[|front| - 1]);
  }

  // ----- Recording fixes -----

  datatype Fix = Fix(status: string, entry: string)

  predicate PlainFix(fix: Fix) {
    '\n' !in fix.status && Plain(T.Lines(fix.entry))
  }

  /** The lines of the file once a fix is recorded. */
  function Recorded(lines: seq<string>, fix: Fix): seq<string> {
    Appended(T.TrimLines(WithField(lines, STATUS, fix.status)), T.Lines(fix.entry)) + [""]
  }

  /** `recordFix`, without the catalog row. */
  method RecordFix(content: string, fix: Fix) returns (r: string)
    requires '\n' !in fix.status
    ensures T.Lines(r) == Recorded(T.Lines(content), fix)
  {
    var withStatus := SetFrontmatterField(content, STATUS, fix.status);
    r := AppendResolution(withStatus, fix.entry);
    WithFieldHasNoNewline(T.Lines(content), fix.status);
    T.LinesOfJoin(WithField(T.Lines(content), STATUS, fix.status));
  }

  lemma {:induction false} WithFieldHasNoNewline(lines: seq<string>, value: string)
    requires lines != [] && '\n' !in value && forall l :: l in lines ==> '\n' !in l
    ensures WithField(lines, STATUS, value) != []
    ensures forall l :: l in WithField(lines, STATUS, value) ==> '\n' !in l
  {
  }

  /** The parts of a file below its front matter, but for white space at its end. */
  function PartsOfFile(lines: seq<string>): Parts {
    PartsOf(Body(T.TrimLines(lines)))
  }

  /** No Resolution heading stands in the front matter. */
  predicate WellOrdered(lines: seq<string>) {
    NoResolution(Front(T.TrimLines(lines)))
  }

  /** The other lines of the front matter, where they stand around the status. */
  function OtherFields(lines: seq<string>): seq<string> {
    if Closing(lines) == 0 then [] else Emptied(Front(lines))
  }

  /** What a reader sees of an issue file: whether its front matter closes and its headings are
      in order, its status, the other lines of the front matter, and the parts below it. */
  datatype View = View(ordered: bool, closes: bool, status: Option<string>, fields: seq<string>, parts: Parts)

  function ViewOf(lines: seq<string>): View {
    View(WellOrdered(lines), Closing(lines) > 0, FieldValue(lines, STATUS), OtherFields(lines), PartsOfFile(lines))
  }

  /** The file reads this status, exactly when its front matter closes, and its section says
      so much more; every other line of the front matter and everything else below it is as
      it was. */
  predicate Grew(was: View, now: View, status: string, text: seq<string>) {
    now == View(true, was.closes, if was.closes then Some(" " + status) else None, was.fields, Said(was.parts, text))
  }

  lemma {:induction false} GrewTwice(
    a: View, b: View, c: View, s: string, status: string, text: seq<string>, more: seq<string>)
    requires Grew(a, b, s, text) && Grew(b, c, status, more)
    ensures Grew(a, c, status, text + more)
  {
  }

  lemma {:induction false} RecordWithoutFront(lines: seq<string>, fix: Fix)
    requires lines != [] && Closing(lines) == 0 && PlainFix(fix) && NoRule(T.Lines(fix.entry))
    ensures Recorded(lines, fix) != []
    ensures Grew(ViewOf(lines), ViewOf(Recorded(lines, fix)), fix.status, Substance(T.Lines(fix.entry)))
  {
    var trimmed, entry := T.TrimLines(lines), T.Lines(fix.entry);
    TrimKeepsOpen(lines);
    AppendedStaysOpen(trimmed, entry);
    AppendedEndsInText(lines, entry);
    AppendingGrows(trimmed, entry);
  }

  lemma {:induction false} FrontIsOrdered(front: seq<string>, body: seq<string>)
    requires IsFront(front)
    ensures WellOrdered(front + body) == NoResolution(front)
    ensures PartsOfFile(front + body) == PartsOf(if AllBlank(body) then [] else T.TrimLines(body))
  {
    TrimFrontAndBody(front, body);
  }

  /** The front matter and the trimmed body that the entry is appended to. */
  lemma {:induction false} StatusSetAndTrimmed(front: seq<string>, body: seq<string>, status: string)
    returns (f: seq<string>, b: seq<string>)
    requires IsFront(front) && NoResolution(front)
    ensures T.TrimLines(WithField(front + body, STATUS, status)) == f + b
    ensures Reads(f, " " + status) && NoResolution(f) && Emptied(f) == Emptied(front)
    ensures PartsOf(b) == PartsOfFile(front + body)
  {
    var rewritten := StatusIn(front, status);
    StatusIsSet(front, body, status);
    StatusInTwice(front, status);
    EmptiedTrimmed(rewritten);
    TrimFrontAndBody(rewritten, body);
    FrontIsOrdered(front, body);
    if AllBlank(body) { ReadsTrimmed(rewritten, " " + status); }
    f, b := Front(T.TrimLines(rewritten + body)), Body(T.TrimLines(rewritten + body));
  }

  /** The lines of a recorded file with a front matter, and what survives the next trim. */
  lemma {:induction false} RecordedLines(lines: seq<string>, fix: Fix, f: seq<string>, b: seq<string>)
    requires PlainFix(fix) && NoResolution(f)
    requires T.TrimLines(WithField(lines, STATUS, fix.status)) == f + b
    ensures var r := Appended(b, T.Lines(fix.entry));
      Recorded(lines, fix) == f + r + [""] && T.TrimLines(f + r + [""]) == f + r
  {
    AppendedBehind(f, b, T.Lines(fix.entry));
    AppendedEndsInText(WithField(lines, STATUS, fix.status), T.Lines(fix.entry));
  }

  lemma {:induction false} RecordWithFront(lines: seq<string>, fix: Fix)
    requires Closing(lines) > 0 && WellOrdered(lines) && PlainFix(fix)
    ensures Recorded(lines, fix) != []
    ensures Grew(ViewOf(lines), ViewOf(Recorded(lines, fix)), fix.status, Substance(T.Lines(fix.entry)))
  {
    FrontAndBody(lines);
    FrontIsOrdered(Front(lines), Body(lines));
    var f, b := StatusSetAndTrimmed(Front(lines), Body(lines), fix.status);
    RecordedLines(lines, fix, f, b);
    AppendingGrows(b, T.Lines(fix.entry));
    RecordedReads(f, Appended(b, T.Lines(fix.entry)), fix.status);
  }

  lemma {:induction false} RecordedReads(front: seq<string>, body: seq<string>, status: string)
    requires Reads(front, " " + status) && NoResolution(front)
    requires T.TrimLines(front + body + [""]) == front + body
    ensures var now := front + body + [""];
      && Closing(now) > 0 && WellOrdered(now)
      && FieldValue(now, STATUS) == Some(" " + status)
      && OtherFields(now) == Emptied(front)
      && PartsOfFile(now) == PartsOf(body)
  {
    assert front + body + [""] == front + (body + [""]);
    ClosingOfFront(front, body + [""]);
    ReadsBefore(front, body + [""], " " + status);
    FrontOf(front, body + [""]);
    FrontOf(front, body);
  }

  /** Recording one fix: the status reads back exactly when a front matter closes, the section
      grows by the entry, and every other line is kept. */
  lemma {:induction false} RecordingOnce(lines: seq<string>, fix: Fix)
    requires lines != [] && WellOrdered(lines) && PlainFix(fix)
    requires Closing(lines) > 0 || NoRule(T.Lines(fix.entry))
    ensures Recorded(lines, fix) != []
    ensures Grew(ViewOf(lines), ViewOf(Recorded(lines, fix)), fix.status, Substance(T.Lines(fix.entry)))
  {
    if Closing(lines) > 0 { RecordWithFront(lines, fix); } else { RecordWithoutFront(lines, fix); }
  }

  function FoldFixes(step: (seq<string>, Fix) -> seq<string>, lines: seq<string>, fixes: seq<Fix>): seq<string> {
    if fixes == [] then lines else step(FoldFixes(step, lines, fixes[..|fixes| - 1]), fixes[|fixes| - 1])
  }

  function AllSaid(said: Fix -> seq<string>, fixes: seq<Fix>): seq<string> {
    if fixes == [] then [] else AllSaid(said, fixes[..|fixes| - 1]) + said(fixes[|fixes| - 1])
  }

  /** The file after every fix was recorded in turn. */
  function RecordedAll(lines: seq<string>, fixes: seq<Fix>): seq<string> {
    FoldFixes(Recorded, lines, fixes)
  }

  function EntrySaid(fix: Fix): seq<string> { Substance(T.Lines(fix.entry)) }

  /** What all entries say, in order. */
  function AllEntries(fixes: seq<Fix>): seq<string> {
    AllSaid(EntrySaid, fixes)
  }

  /** A fix that may be recorded in a file that reads so. */
  predicate Suits(was: View, fix: Fix) {
    PlainFix(fix) && (was.closes || NoRule(T.Lines(fix.entry)))
  }

  predicate Ready(lines: seq<string>) { lines != [] && WellOrdered(lines) }

  /** Steps that each add to what a file reads add up. */
  lemma {:induction false} StepsAddUp(
    view: seq<string> -> View, ready: seq<string> -> bool, fits: (View, Fix) -> bool,
    step: (seq<string>, Fix) -> seq<string>, said: Fix -> seq<string>, lines: seq<string>, fixes: seq<Fix>)
    requires ready(lines) && fixes != []
    requires forall was: View, fix :: fix in fixes && was.closes == view(lines).closes ==> fits(was, fix)
    requires forall was, fix :: ready(was) && fits(view(was), fix) ==>
      ready(step(was, fix)) && Grew(view(was), view(step(was, fix)), fix.status, said(fix))
    ensures ready(FoldFixes(step, lines, fixes))
    ensures Grew(view(lines), view(FoldFixes(step, lines, fixes)), fixes[|fixes| - 1].status, AllSaid(said, fixes))
  {
    var front, last := fixes[..|fixes| - 1], fixes[|fixes| - 1];
    var mid := FoldFixes(step, lines, front);
    if front == [] {
      assert AllSaid(said, fixes) == [] + said(last);
    } else {
      StepsAddUp(view, ready, fits, step, said, lines, front);
      GrewTwice(view(lines), view(mid), view(step(mid, last)), front[|front| - 1].status, last.status,
        AllSaid(said, front), said(last));
    }
  }

  /** Over any sequence of fixes, whose entries hold no rule if the file has no front matter to
      begin with: the status is the last one recorded, exactly when the file has a front
      matter that closes; the section holds its old text and then every entry in
      order; every other line of the front matter stays where it was; and the text before the
      section and from the next heading on stays as it was, but for blank lines and white
      space at line ends. */
  lemma {:induction false} RecordingFixes(lines: seq<string>, fixes: seq<Fix>)
    requires Ready(lines) && fixes != [] && forall fix :: fix in fixes ==> PlainFix(fix)
    requires Closing(lines) > 0 || forall fix :: fix in fixes ==> NoRule(T.Lines(fix.entry))
    ensures Ready(RecordedAll(lines, fixes))
    ensures Grew(ViewOf(lines), ViewOf(RecordedAll(lines, fixes)), fixes[|fixes| - 1].status, AllEntries(fixes))
  {
    forall was, fix | Ready(was) && Suits(ViewOf(was), fix)
      ensures Ready(Recorded(was, fix))
      ensures Grew(ViewOf(was), ViewOf(Recorded(was, fix)), fix.status, EntrySaid(fix))
    {
      RecordingOnce(was, fix);
    }
    StepsAddUp(ViewOf, Ready, Suits, Recorded, EntrySaid, lines, fixes);
  }
}
