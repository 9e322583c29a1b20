/** `src/engine/host-conventions.ts`: dropping operational sections from a host's
    convention file, then capping what is left. */
module HostConventions {
  import opened Contract
  import opened Selections
  import T = Text

  /** What one line means to the stripper. */
  datatype Mark = Body | Heading(depth: nat, operational: bool)

  const KEYWORDS: set<string> :=
    {"commands", "bash", "shell", "hooks", "permissions", "tools", "mcp", "settings"}

  function Lower(s: string): string {
    seq(|s|, i requires 0 <= i < |s| =>
      if 'A' <= s[i] <= 'Z' then (s[i] as int + 32) as char else s[i])
  }

  function Hashes(line: string): (n: nat)
    ensures n <= |line|
  {
    if line == "" || line[0] != '#' then 0 else 1 + Hashes(line[1..])
  }

  /** What may follow the hashes: white space, then a title without line ends, then white
      space. A title of white space alone needs a second character. */
  predicate TitleFollows(rest: string) {
    && rest != "" && T.IsSpace(rest[0])
    && (if T.Trim(rest) != "" then forall c :: c in T.Trim(rest) ==> !T.IsLineEnd(c)
        else exists k | 1 <= k < |rest| :: !T.IsLineEnd(rest[k]))
  }

  /** An ATX heading of depth one to six, operational when its whole title is a keyword. */
  function Classify(line: string): Mark {
    var n := Hashes(line);
    if 1 <= n <= 6 && TitleFollows(line[n..]) then Heading(n, Lower(T.Trim(line[n..])) in KEYWORDS)
    else Body
  }

  // ----- Headings, spelled out -----

  function HashMarks(n: nat): string {
    seq(n, _ => '#')
  }

  lemma {:induction false} HashesCounted(n: nat, rest: string)
    requires rest == "" || rest[0] != '#'
    ensures Hashes(HashMarks(n) + rest) == n
  {
    if n == 0 {
      assert HashMarks(0) + rest == rest;
    } else {
      var line := HashMarks(n) + rest;
      assert line[1..] == HashMarks(n - 1) + rest;
      HashesCounted(n - 1, rest);
    }
  }

  /** The same letters, the title's possibly upper-case. */
  predicate ReadsAs(title: string, word: string) {
    && |title| == |word|
    && forall k | 0 <= k < |word| ::
         title[k] == word[k] || ('A' <= title[k] <= 'Z' && title[k] as int + 32 == word[k] as int)
  }

  const OPERATIONAL_TITLES: seq<string> :=
    ["commands", "bash", "shell", "hooks", "permissions", "tools", "mcp", "settings"]

  lemma {:induction false} LowerReads(title: string, word: string)
    requires forall k | 0 <= k < |word| :: 'a' <= word[k] <= 'z'
    ensures Lower(title) == word <==> ReadsAs(title, word)
  {
    if Lower(title) == word {
      forall k | 0 <= k < |word|
        ensures title[k] == word[k] || ('A' <= title[k] <= 'Z' && title[k] as int + 32 == word[k] as int)
      {
        assert Lower(title)[k] == word[k];
      }
    }
  }

  lemma {:induction false} KeywordsAreTitles(title: string)
    ensures Lower(title) in KEYWORDS <==> exists word | word in OPERATIONAL_TITLES :: ReadsAs(title, word)
  {
    forall word | word in OPERATIONAL_TITLES
      ensures Lower(title) == word <==> ReadsAs(title, word)
    {
      LowerReads(title, word);
    }
    assert forall word :: word in KEYWORDS <==> word in OPERATIONAL_TITLES;
  }

  /** One to six hashes, white space and a title make a heading as deep as the hashes are many;
      it is operational exactly when the title is one of eight words, in any case. */
  lemma {:induction false} HeadingSpelled(depth: nat, gap: string, title: string, tail: string)
    requires 1 <= depth <= 6 && gap != "" && T.Blank(gap) && T.Blank(tail) && T.Tight(title)
    requires forall c | c in title :: !T.IsLineEnd(c)
    ensures Classify(HashMarks(depth) + gap + title + tail) ==
      Heading(depth, exists word | word in OPERATIONAL_TITLES :: ReadsAs(title, word))
  {
    var rest := gap + title + tail;
    assert HashMarks(depth) + gap + title + tail == HashMarks(depth) + rest;
    assert gap[0] in gap && rest[0] == gap[0];
    HashesCounted(depth, rest);
    assert (HashMarks(depth) + rest)[depth..] == rest;
    T.TrimIs(gap, title, tail);
    KeywordsAreTitles(title);
  }

  /** White space, and then no line ends between the white space that surrounds the rest; white
      space alone needs a second character that is no line end. */
  predicate Titled(rest: string) {
    && rest != "" && T.IsSpace(rest[0])
    && (if T.Blank(rest) then exists c | c in rest[1..] :: !T.IsLineEnd(c)
        else forall c | c in T.Trim(rest) :: !T.IsLineEnd(c))
  }

  lemma {:induction false} TitledIff(rest: string)
    ensures TitleFollows(rest) <==> Titled(rest)
  {
    T.TrimEmptyIffBlank(rest);
    if k :| 1 <= k < |rest| && !T.IsLineEnd(rest[k]) { assert rest[1..][k - 1] in rest[1..]; }
  }

  lemma {:induction false} HashesIff(line: string, depth: nat)
    requires depth < |line| && line[depth] != '#'
    ensures Hashes(line) == depth <==> forall k | 0 <= k < depth :: line[k] == '#'
  {
    HashesAre(line);
    if forall k | 0 <= k < depth :: line[k] == '#' {
      assert HashMarks(depth) + line[depth..] == line;
      HashesCounted(depth, line[depth..]);
    }
  }

  /** A line is a heading of this depth exactly when it begins with so many hashes, one to six,
      and a title follows them. */
  lemma {:induction false} HeadingIff(line: string, depth: nat)
    ensures Classify(line).Heading? && Classify(line).depth == depth <==>
      && 1 <= depth <= 6 && depth < |line|
      && (forall k | 0 <= k < depth :: line[k] == '#') && Titled(line[depth..])
  {
    if depth < |line| {
      TitledIff(line[depth..]);
      if T.IsSpace(line[depth]) { HashesIff(line, depth); }
    }
  }

  lemma {:induction false} HashesAre(line: string)
    ensures forall k | 0 <= k < Hashes(line) :: line[k] == '#'
  {
    if line != "" && line[0] == '#' {
      HashesAre(line[1..]);
      assert forall k | 1 <= k < |line| :: line[k] == line[1..][k - 1];
    }
  }

  predicate Operational(m: Mark) {
    m.Heading? && m.operational
  }

  function Marks(lines: seq<string>): seq<Mark> {
    seq(|lines|, i requires 0 <= i < |lines| => Classify(lines[i]))
  }

  /** The operational heading at `j` still covers the last line: every heading after it is
      strictly deeper. */
  predicate Covers(marks: seq<Mark>, j: nat) {
    && j < |marks|
    && Operational(marks[j])
    && forall k | j < k < |marks| && marks[k].Heading? :: marks[k].depth > marks[j].depth
  }

  /** The last line lies in some operational section. */
  predicate Covered(marks: seq<Mark>) {
    exists j | 0 <= j < |marks| :: Covers(marks, j)
  }

  /** The lines that no operational section covers, in order. */
  function Kept(lines: seq<string>): seq<string> {
    if lines == [] then []
    else
      Kept(lines[..|lines| - 1]) + (if Covered(Marks(lines)) then [] else [lines[|lines| - 1]])
  }

  // ----- The lines that stay, written out -----

  /** Line `i` stands in an operational section that began at or before it: some operational
      heading there is followed, up to it, by deeper headings only. */
  ghost predicate InSection(lines: seq<string>, i: nat)
    requires i < |lines|
  {
    exists j | 0 <= j <= i ::
      && Classify(lines[j]).Heading? && Classify(lines[j]).operational
      && forall k | j < k <= i && Classify(lines[k]).Heading? :: Classify(lines[k]).depth > Classify(lines[j]).depth
  }

  ghost function Outside(lines: seq<string>): seq<bool> {
    seq(|lines|, i requires 0 <= i < |lines| => !InSection(lines, i))
  }

  lemma {:induction false} CoveredIffInSection(lines: seq<string>)
    requires lines != []
    ensures Covered(Marks(lines)) <==> InSection(lines, |lines| - 1)
  {
    var marks, i := Marks(lines), |lines| - 1;
    if j :| 0 <= j < |marks| && Covers(marks, j) {
      assert marks[j] == Classify(lines[j]);
      forall k | j < k <= i && Classify(lines[k]).Heading?
        ensures Classify(lines[k]).depth > Classify(lines[j]).depth
      {
        assert marks[k] == Classify(lines[k]);
      }
    }
    if InSection(lines, i) {
      var j :| 0 <= j <= i && Classify(lines[j]).Heading? && Classify(lines[j]).operational
        && forall k | j < k <= i && Classify(lines[k]).Heading? :: Classify(lines[k]).depth > Classify(lines[j]).depth;
      assert Covers(marks, j);
    }
  }

  lemma {:induction false} SectionsByPrefix(front: seq<string>, last: string)
    ensures Outside(front + [last]) == Outside(front) + [!InSection(front + [last], |front|)]
  {
    var lines := front + [last];
    forall i: nat | i < |front|
      ensures InSection(lines, i) <==> InSection(front, i)
    {
      assert forall k | 0 <= k <= i :: lines[k] == front[k];
    }
  }

  /** What stripping keeps: exactly the lines outside operational sections, in order. */
  lemma {:induction false} KeptAreOutside(lines: seq<string>) returns (picks: seq<nat>)
    ensures Selects(Outside(lines), picks) && |Kept(lines)| == |picks|
    ensures forall n: nat | n < |picks| :: Kept(lines)[n] == lines[picks[n]]
  {
    picks := [];
    if lines != [] {
      var front, last := lines[..|lines| - 1], lines[|lines| - 1];
      assert lines == front + [last];
      picks := KeptAreOutside(front);
      CoveredIffInSection(lines);
      SectionsByPrefix(front, last);
      SelectsSnoc(Outside(front), !InSection(lines, |front|), picks);
      if !InSection(lines, |front|) { picks := picks + [|front|]; }
    }
  }

  // ----- The loop's flag -----

  /** `skipUntilDepth` after one more line. */
  function After(skip: Option<nat>, m: Mark): Option<nat> {
    match m
    case Body => skip
    case Heading(depth, operational) =>
      var ended := if skip.Some? && depth <= skip.value then None else skip;
      if ended.None? && operational then Some(depth) else ended
  }

  /** The flag is set exactly inside an operational section, to the depth of its outermost
      heading. */
  ghost predicate Tracks(skip: Option<nat>, marks: seq<Mark>) {
    match skip
    case None => !Covered(marks)
    case Some(d) =>
      && (exists j | 0 <= j < |marks| :: Covers(marks, j) && marks[j].depth == d)
      && forall j | 0 <= j < |marks| && Covers(marks, j) :: marks[j].depth >= d
  }

  lemma {:induction false} CoversStep(marks: seq<Mark>, m: Mark, j: nat)
    requires j < |marks|
    ensures Covers(marks + [m], j) <==> Covers(marks, j) && (m.Heading? ==> m.depth > marks[j].depth)
  {
    var longer := marks + [m];
    assert longer[|marks|] == m;
    if Covers(longer, j) {
      forall k | j < k < |marks| && marks[k].Heading?
        ensures marks[k].depth > marks[j].depth
      {
        assert longer[k] == marks[k];
      }
    }
  }

  lemma {:induction false} TracksStep(skip: Option<nat>, marks: seq<Mark>, m: Mark)
    requires Tracks(skip, marks)
    ensures Tracks(After(skip, m), marks + [m])
  {
    var longer := marks + [m];
    assert longer[|marks|] == m;
    assert Covers(longer, |marks|) <==> Operational(m);
    forall j | 0 <= j < |marks|
      ensures Covers(longer, j) <==> Covers(marks, j) && (m.Heading? ==> m.depth > marks[j].depth)
    {
      CoversStep(marks, m, j);
    }
    if skip.Some? {
      var j :| 0 <= j < |marks| && Covers(marks, j) && marks[j].depth == skip.value;
      assert longer[j] == marks[j];
    }
    if After(skip, m) == None {
      assert !Covered(longer);
    }
  }

  lemma {:induction false} MarksSnoc(lines: seq<string>, line: string)
    ensures Marks(lines + [line]) == Marks(lines) + [Classify(line)]
  {
  }

  /** `stripOperationalSections`. */
  method StripOperationalSections(text: string) returns (r: string)
    ensures r == Stripped(text)
  {
    var lines := T.Lines(text);
    var out: seq<string> := [];
    var skipUntilDepth: Option<nat> := None;
    for i := 0 to |lines|
      invariant out == Kept(lines[..i])
      invariant Tracks(skipUntilDepth, Marks(lines[..i]))
    {
      var line := lines[i];
      ghost var skip := skipUntilDepth;
      assert lines[..i + 1] == lines[..i] + [line];
      MarksSnoc(lines[..i], line);
      TracksStep(skip, Marks(lines[..i]), Classify(line));
      match Classify(line) {
        case Heading(depth, operational) =>
          if skipUntilDepth.Some? && depth <= skipUntilDepth.value {
            skipUntilDepth := None;
          }
          if skipUntilDepth.None? {
            if operational {
              skipUntilDepth := Some(depth);
              continue;
            }
            out := out + [line];
          }
        case Body =>
          if skipUntilDepth.None? {
            out := out + [line];
          }
      }
    }
    assert lines[..|lines|] == lines;
    return T.Join(out, "\n");
  }

  function Stripped(text: string): string {
    T.Join(Kept(T.Lines(text)), "\n")
  }

  // ----- What stripping means -----

  lemma {:induction false} KeptAreNotOperational(lines: seq<string>)
    ensures forall l :: l in Kept(lines) ==> l in lines && !Operational(Classify(l))
  {
    if lines != [] {
      var front, last := lines[..|lines| - 1], lines[|lines| - 1];
      assert lines == front + [last];
      KeptAreNotOperational(front);
      assert Marks(lines)[|lines| - 1] == Classify(last);
      if Operational(Classify(last)) { assert Covers(Marks(lines), |lines| - 1); }
    }
  }

  lemma {:induction false} NothingOperationalNothingDropped(lines: seq<string>)
    requires forall l :: l in lines ==> !Operational(Classify(l))
    ensures Kept(lines) == lines
  {
    if lines != [] {
      var front, last := lines[..|lines| - 1], lines[|lines| - 1];
      assert lines == front + [last];
      NothingOperationalNothingDropped(front);
      forall j | 0 <= j < |lines|
        ensures !Operational(Marks(lines)[j])
      {
        assert lines[j] in lines;
      }
    }
  }

  /** The text that is left holds no operational heading, and stripping it again changes
      nothing. */
  lemma {:induction false} StrippingIsFinal(text: string)
    ensures forall l :: l in T.Lines(Stripped(text)) ==> !Operational(Classify(l))
    ensures Stripped(Stripped(text)) == Stripped(text)
  {
    var kept := Kept(T.Lines(text));
    KeptAreNotOperational(T.Lines(text));
    if kept == [] {
      assert T.Lines("") == [""];
      assert Classify("") == Body;
      NothingOperationalNothingDropped([""]);
    } else {
      T.LinesOfJoin(kept);
      NothingOperationalNothingDropped(kept);
    }
  }

  /** The flag after a whole file. */
  function Flag(lines: seq<string>): Option<nat> {
    if lines == [] then None else After(Flag(lines[..|lines| - 1]), Classify(lines[|lines| - 1]))
  }

  lemma {:induction false} FlagTracks(lines: seq<string>)
    ensures Tracks(Flag(lines), Marks(lines))
    ensures Covered(Marks(lines)) <==> Flag(lines).Some?
  {
    if lines != [] {
      var front, last := lines[..|lines| - 1], lines[|lines| - 1];
      assert lines == front + [last];
      FlagTracks(front);
      MarksSnoc(front, last);
      TracksStep(Flag(front), Marks(front), Classify(last));
    }
  }

  lemma {:induction false} KeptSnoc(lines: seq<string>, line: string)
    ensures Flag(lines + [line]) == After(Flag(lines), Classify(line))
    ensures Kept(lines + [line]) == Kept(lines) + (if Flag(lines + [line]).Some? then [] else [line])
  {
    assert (lines + [line])[..|lines|] == lines;
    FlagTracks(lines + [line]);
  }

  /** Lines below a heading: every heading among them is strictly deeper. */
  predicate Below(body: seq<string>, depth: nat) {
    forall l :: l in body && Classify(l).Heading? ==> Classify(l).depth > depth
  }

  /** An operational heading and the lines below it leave no trace, whatever precedes them. */
  lemma {:induction false} SectionLeavesNoTrace(before: seq<string>, heading: string, body: seq<string>)
    requires Operational(Classify(heading)) && Below(body, Classify(heading).depth)
    ensures Kept(before + [heading] + body) == Kept(before)
    ensures Flag(before + [heading] + body) == After(Flag(before), Classify(heading))
  {
    if body == [] {
      assert before + [heading] + body == before + [heading];
      KeptSnoc(before, heading);
    } else {
      var front, last := body[..|body| - 1], body[|body| - 1];
      assert last in body;
      assert before + [heading] + body == before + [heading] + front + [last];
      SectionLeavesNoTrace(before, heading, front);
      KeptSnoc(before + [heading] + front, last);
    }
  }

  lemma {:induction false} HeadingEndsSection(skip: Option<nat>, section: Mark, next: Mark)
    requires Operational(section) && next.Heading? && next.depth <= section.depth
    ensures After(After(skip, section), next) == After(skip, next)
  {
  }

  lemma {:induction false} KeptLast(a: seq<string>, rest: seq<string>)
    requires rest != []
    ensures var shorter, last := a + rest[..|rest| - 1], rest[|rest| - 1];
      && Flag(a + rest) == After(Flag(shorter), Classify(last))
      && Kept(a + rest) == Kept(shorter) + (if Flag(a + rest).Some? then [] else [last])
  {
    var shorter, last := a + rest[..|rest| - 1], rest[|rest| - 1];
    assert a + rest == shorter + [last];
    KeptSnoc(shorter, last);
  }

  /** Two files that agree up to the flag keep the same lines of whatever follows. */
  lemma {:induction false} SameFlagSameRest(a: seq<string>, b: seq<string>, rest: seq<string>)
    requires Flag(a) == Flag(b) && Kept(a) == Kept(b)
    ensures Flag(a + rest) == Flag(b + rest) && Kept(a + rest) == Kept(b + rest)
  {
    if rest == [] {
      assert a + rest == a && b + rest == b;
    } else {
      SameFlagSameRest(a, b, rest[..|rest| - 1]);
      KeptLast(a, rest);
      KeptLast(b, rest);
    }
  }

  lemma {:induction false} HeadFirst(s: seq<string>, rest: seq<string>)
    requires rest != []
    ensures s + rest == (s + [rest[0]]) + rest[1..]
  {
  }

  /** A whole operational section can be cut out of a file: what is kept is what would be
      kept without it. The section ends at the end of the file or at a heading that is no
      deeper than its own. */
  lemma {:induction false} SectionsAreRemovedWhole(
    before: seq<string>, heading: string, body: seq<string>, after: seq<string>)
    requires Operational(Classify(heading)) && Below(body, Classify(heading).depth)
    requires after != [] ==> Classify(after[0]).Heading? && Classify(after[0]).depth <= Classify(heading).depth
    ensures Kept(before + [heading] + body + after) == Kept(before + after)
  {
    var section := before + [heading] + body;
    SectionLeavesNoTrace(before, heading, body);
    if after == [] {
      assert section + after == section && before + after == before;
    } else {
      var next, rest := after[0], after[1..];
      KeptSnoc(section, next);
      KeptSnoc(before, next);
      HeadingEndsSection(Flag(before), Classify(heading), Classify(next));
      SameFlagSameRest(section + [next], before + [next], rest);
      HeadFirst(section, after);
      HeadFirst(before, after);
    }
  }

  // ----- The character cap -----

  const MAX_CONTEXT_CHARS := 8000

  const TRUNCATION_SUFFIX :=
    "[\U{2026} truncated " + "\U{2014} host file " + "exceeds 8 000-char" + " budget]"

  /** `applyContextCap`: a text over the cap is cut at the last newline that is neither its
      first character nor beyond the cap, or at the cap itself when there is none. */
  method ApplyContextCap(text: string) returns (r: string)
    ensures r == Capped(text)
  {
    if |text| <= MAX_CONTEXT_CHARS {
      return text;
    }
    var lastNl := MAX_CONTEXT_CHARS - 1;
    while lastNl >= 0 && text[lastNl] != '\n'
      invariant -1 <= lastNl < MAX_CONTEXT_CHARS
      invariant forall k | lastNl < k < MAX_CONTEXT_CHARS :: text[k] != '\n'
    {
      lastNl := lastNl - 1;
    }
    assert lastNl > 0 ==> LineCut(text, lastNl);
    var cutPoint := if lastNl > 0 then lastNl else MAX_CONTEXT_CHARS;
    CutPointIs(text, cutPoint);
    return text[..cutPoint] + "\n" + TRUNCATION_SUFFIX;
  }

  /** A place where the text may be cut at a line end. */
  predicate LineCut(text: string, k: int) {
    0 < k < MAX_CONTEXT_CHARS && k < |text| && text[k] == '\n'
  }

  ghost predicate HasLineCut(text: string) {
    exists k :: LineCut(text, k)
  }

  ghost predicate IsCutPoint(text: string, cut: nat) {
    if HasLineCut(text) then LineCut(text, cut) && forall k | LineCut(text, k) :: k <= cut
    else cut == MAX_CONTEXT_CHARS
  }

  function LastCutBelow(text: string, n: nat): nat
    requires n <= MAX_CONTEXT_CHARS
  {
    if n == 0 then MAX_CONTEXT_CHARS
    else if LineCut(text, n - 1) then n - 1
    else LastCutBelow(text, n - 1)
  }

  function CutPoint(text: string): (cut: nat)
    ensures cut <= MAX_CONTEXT_CHARS
    ensures IsCutPoint(text, cut)
  {
    LastCutBelowIs(text, MAX_CONTEXT_CHARS);
    LastCutBelow(text, MAX_CONTEXT_CHARS)
  }

  lemma {:induction false} LastCutBelowIs(text: string, n: nat)
    requires n <= MAX_CONTEXT_CHARS
    ensures var cut := LastCutBelow(text, n);
      && cut <= MAX_CONTEXT_CHARS
      && (cut < MAX_CONTEXT_CHARS ==> LineCut(text, cut))
      && (forall k | LineCut(text, k) && k < n :: k <= cut < MAX_CONTEXT_CHARS)
  {
    if n > 0 && !LineCut(text, n - 1) { LastCutBelowIs(text, n - 1); }
  }

  lemma {:induction false} CutPointIs(text: string, cut: nat)
    requires IsCutPoint(text, cut)
    ensures cut == CutPoint(text)
  {
  }

  function Capped(text: string): string {
    if |text| <= MAX_CONTEXT_CHARS then text else text[..CutPoint(text)] + "\n" + TRUNCATION_SUFFIX
  }

  /** The cap, written out: a text of up to 8000 characters stays; a longer one ends before the
      last newline among its characters 1 to 7999, or after 8000 characters when there is none,
      and a line follows that says so. */
  lemma {:induction false} CappedWrittenOut(text: string)
    ensures |text| <= 8000 ==> Capped(text) == text
    ensures |text| > 8000 ==>
      && (forall k | 0 < k < 8000 && text[k] == '\n' && (forall h | k < h < 8000 :: text[h] != '\n') ::
            Capped(text) == text[..k] + "\n" + TRUNCATION_SUFFIX)
      && ((forall k | 0 < k < 8000 :: text[k] != '\n') ==> Capped(text) == text[..8000] + "\n" + TRUNCATION_SUFFIX)
  {
    if |text| > 8000 {
      forall k | 0 < k < 8000 && text[k] == '\n' && forall h | k < h < 8000 :: text[h] != '\n'
        ensures CutPoint(text) == k
      {
        assert LineCut(text, k);
        CutPointIs(text, k);
      }
    }
  }

  ghost predicate HasOperationalLine(lines: seq<string>) {
    exists l :: l in lines && Operational(Classify(l))
  }

  /** All lines of a text but the last survive anything written after it. */
  lemma {:induction false} FinishedLinesStay(a: string, b: string)
    ensures T.Lines(a)[..|T.Lines(a)| - 1] <= T.Lines(a + b)
    ensures |T.Lines(a)| <= |T.Lines(a + b)|
  {
    if b == "" {
      assert a + b == a;
    } else {
      var front, c := b[..|b| - 1], b[|b| - 1];
      FinishedLinesStay(a, front);
      assert a + b == (a + front) + [c];
      T.LinesSnoc(a + front, c);
    }
  }

  lemma {:induction false} SuffixIsBody()
    ensures '\n' !in TRUNCATION_SUFFIX && Classify(TRUNCATION_SUFFIX) == Body
  {
  }

  lemma {:induction false} LastDecides(front: seq<string>, last: string)
    ensures HasOperationalLine(front + [last]) <==> HasOperationalLine(front) || Operational(Classify(last))
  {
  }

  lemma {:induction false} PrefixIsClean(front: seq<string>, lines: seq<string>)
    requires front <= lines && !HasOperationalLine(lines)
    ensures !HasOperationalLine(front)
  {
  }

  lemma {:induction false} LinesAroundCut(text: string, cut: nat)
    requires LineCut(text, cut)
    ensures T.Lines(text[..cut]) <= T.Lines(text)
  {
    var before, after := text[..cut], text[cut + 1..];
    assert text == before + "\n" + after;
    T.LinesConcat(before, after);
  }

  lemma {:induction false} CutAtNewlineIsClean(text: string, cut: nat, suffix: string)
    requires !HasOperationalLine(T.Lines(text)) && LineCut(text, cut)
    requires '\n' !in suffix && Classify(suffix) == Body
    ensures !HasOperationalLine(T.Lines(text[..cut] + "\n" + suffix))
  {
    T.LinesConcat(text[..cut], suffix);
    T.OneLine(suffix);
    LinesAroundCut(text, cut);
    PrefixIsClean(T.Lines(text[..cut]), T.Lines(text));
    LastDecides(T.Lines(text[..cut]), suffix);
  }

  lemma {:induction false} DecidedByLast(kept: seq<string>, suffix: string, all: seq<string>)
    requires kept != [] && kept[..|kept| - 1] <= all
    requires !HasOperationalLine(all) && Classify(suffix) == Body
    ensures HasOperationalLine(kept + [suffix]) <==> Operational(Classify(kept[|kept| - 1]))
  {
  }

  lemma {:induction false} SuffixAfter(before: string, after: string, suffix: string)
    requires !HasOperationalLine(T.Lines(before + after))
    requires '\n' !in suffix && Classify(suffix) == Body
    ensures var lines := T.Lines(before);
      HasOperationalLine(T.Lines(before + "\n" + suffix)) <==> Operational(Classify(lines[|lines| - 1]))
  {
    T.LinesConcat(before, suffix);
    T.OneLine(suffix);
    FinishedLinesStay(before, after);
    DecidedByLast(T.Lines(before), suffix, T.Lines(before + after));
  }

  lemma {:induction false} CutInLine(text: string, cut: nat, suffix: string)
    requires !HasOperationalLine(T.Lines(text)) && cut <= |text|
    requires '\n' !in suffix && Classify(suffix) == Body
    ensures var lines := T.Lines(text[..cut]);
      HasOperationalLine(T.Lines(text[..cut] + "\n" + suffix)) <==> Operational(Classify(lines[|lines| - 1]))
  {
    assert text == text[..cut] + text[cut..];
    SuffixAfter(text[..cut], text[cut..], suffix);
  }

  /** The cap works on the stripped text, so it can cut a heading short. The capped text has
      an operational heading exactly when no newline stands at positions 1 to 7999 and the
      line cut at the cap reads as one. */
  lemma {:induction false} CapBringsBackHeadingIff(text: string)
    requires !HasOperationalLine(T.Lines(text))
    ensures HasOperationalLine(T.Lines(Capped(text))) <==>
      && |text| > MAX_CONTEXT_CHARS
      && !HasLineCut(text)
      && var lines := T.Lines(text[..MAX_CONTEXT_CHARS]); Operational(Classify(lines[|lines| - 1]))
  {
    SuffixIsBody();
    if |text| > MAX_CONTEXT_CHARS {
      if HasLineCut(text) {
        CutAtNewlineIsClean(text, CutPoint(text), TRUNCATION_SUFFIX);
      } else {
        CutInLine(text, MAX_CONTEXT_CHARS, TRUNCATION_SUFFIX);
      }
    }
  }

  /** Such a text: a keyword, blanks up to the cap, then one more letter. */
  lemma {:induction false} CapCanBringBackHeading() returns (text: string)
    ensures text == Stripped(text)
    ensures !HasOperationalLine(T.Lines(text))
    ensures HasOperationalLine(T.Lines(Capped(text)))
  {
    var blanks := seq(MAX_CONTEXT_CHARS, _ => ' ');
    text := "# Bash" + blanks + "x";
    T.OneLine(text);
    WholeTitleIsNoKeyword(blanks);
    NothingOperationalNothingDropped([text]);
    var cut := text[..MAX_CONTEXT_CHARS];
    var rest := blanks[..MAX_CONTEXT_CHARS - 6];
    assert cut == "# Bash" + rest;
    T.OneLine(cut);
    CutTitleIsKeyword(rest);
    assert !HasLineCut(text);
    CapBringsBackHeadingIff(text);
  }

  lemma {:induction false} HashesOne(line: string)
    requires |line| > 1 && line[0] == '#' && line[1] != '#'
    ensures Hashes(line) == 1
  {
  }

  lemma {:induction false} CutTitleIsKeyword(blanks: string)
    requires T.Blank(blanks)
    ensures Operational(Classify("# Bash" + blanks))
  {
    var line := "# Bash" + blanks;
    HashesOne(line);
    assert line[1..] == " Bash" + blanks;
    T.TrimEndDropsBlank(" Bash", blanks);
    assert T.TrimEnd(" Bash") == " Bash";
    assert " Bash"[1..] == "Bash";
    assert T.TrimStart(" Bash") == T.TrimStart("Bash") == "Bash";
    assert Lower("Bash") == "bash";
  }

  lemma {:induction false} WholeTitleIsNoKeyword(blanks: string)
    requires |blanks| == MAX_CONTEXT_CHARS
    ensures !Operational(Classify("# Bash" + blanks + "x"))
  {
    var line := "# Bash" + blanks + "x";
    HashesOne(line);
    var rest := line[1..];
    assert T.TrimEnd(rest) == rest;
    assert rest[0] == ' ' && rest[1] == 'B';
    assert T.TrimStart(rest) == T.TrimStart(rest[1..]) == rest[1..];
    assert |Lower(rest[1..])| > 11;
    assert forall k :: k in KEYWORDS ==> |k| <= 11;
  }
}
