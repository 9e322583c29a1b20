/** The line edits that record a fix in an issue file (`src/engine/issue-updates.ts`): the
    status in the front matter and the entry at the end of the Resolution section. */
module IssueUpdates {
  import opened Contract
  import T = Text

  const RESOLUTION_HEADING := "## Resolution"

  type LineTest = string -> bool

  predicate IsRule(line: string) { T.Trim(line) == "---" }

  predicate IsResolution(line: string) { RESOLUTION_HEADING <= line }

  /** A heading of level one or two. */
  predicate IsHeading(line: string) { "# " <= line || "## " <= line }

  function HasField(field: string): LineTest {
    (line: string) => field + ":" <= line
  }

  function FieldLine(field: string, value: string): string { field + ": " + value }

  /** The first line at or after `from` that passes the test, or the number of lines. */
  function First(lines: seq<string>, from: nat, p: LineTest): (r: nat)
    requires from <= |lines|
    ensures from <= r <= |lines|
    ensures r < |lines| ==> p(lines[r])
    ensures forall k | from <= k < r :: !p(lines[k])
    decreases |lines| - from
  {
    if from == |lines| || p(lines[from]) then from else First(lines, from + 1, p)
  }

  lemma {:induction false} FirstIs(lines: seq<string>, from: nat, p: LineTest, r: nat)
    requires from <= r <= |lines|
    requires r < |lines| ==> p(lines[r])
    requires forall k | from <= k < r :: !p(lines[k])
    ensures First(lines, from, p) == r
  {
  }

  // ----- The front matter -----

  /** The line that closes the front matter, or 0: the first rule after line 0. */
  function Closing(lines: seq<string>): (c: nat)
    ensures c == 0 || (c < |lines| && IsRule(lines[c]))
  {
    if lines == [] then 0
    else
      var r := First(lines, 1, IsRule);
      if r < |lines| then r else 0
  }

  function WithField(lines: seq<string>, field: string, value: string): seq<string> {
    var end := Closing(lines);
    if end == 0 then lines
    else
      var i := First(lines, 1, HasField(field));
      if i < end then lines[i := FieldLine(field, value)]
      else lines[..end] + [FieldLine(field, value)] + lines[end..]
  }

  /** The first rule after line 0 closes the front matter at `end`; without one nothing changes. */
  predicate ClosesAt(lines: seq<string>, end: nat) {
    && 0 < end < |lines| && T.Trim(lines[end]) == "---"
    && forall k | 0 < k < end :: T.Trim(lines[k]) != "---"
  }

  /** The first line of the front matter that begins with the field's name and a colon becomes
      the name, a colon, a space and the value; when there is none such a line is put before
      the closing rule; a text without a front matter that closes stays as it is. */
  lemma {:induction false} FieldWrittenOut(lines: seq<string>, field: string, value: string)
    ensures var r := WithField(lines, field, value);
      && (forall end: nat, i: nat | ClosesAt(lines, end) && 0 < i < end && field + ":" <= lines[i] ::
            (forall k | 0 < k < i :: !(field + ":" <= lines[k])) ==> r == lines[i := field + ": " + value])
      && (forall end: nat | ClosesAt(lines, end) ::
            (forall k | 0 < k < end :: !(field + ":" <= lines[k])) ==>
            r == lines[..end] + [field + ": " + value] + lines[end..])
      && ((forall end: nat :: !ClosesAt(lines, end)) ==> r == lines)
  {
    forall end: nat | ClosesAt(lines, end)
      ensures Closing(lines) == end
    {
      FirstIs(lines, 1, IsRule, end);
    }
    var c := Closing(lines);
    if c > 0 { assert ClosesAt(lines, c); }
    forall end: nat, i: nat | ClosesAt(lines, end) && 0 < i < end && field + ":" <= lines[i]
      && forall k | 0 < k < i :: !(field + ":" <= lines[k])
      ensures First(lines, 1, HasField(field)) == i
    {
      FirstIs(lines, 1, HasField(field), i);
    }
  }

  /** What follows the colon of the first such field in the front matter. */
  function FieldValue(lines: seq<string>, field: string): Option<string> {
    var end := Closing(lines);
    if end == 0 then None
    else
      var i := First(lines, 1, HasField(field));
      if i < end then Some(lines[i][|field| + 1..]) else None
  }

  /** `setFrontmatterField`. */
  method SetFrontmatterField(content: string, field: string, value: string) returns (r: string)
    ensures r == T.Join(WithField(T.Lines(content), field, value), "\n")
  {
    var lines := T.Lines(content);
    var end := 0;
    var k := 1;
    while k < |lines|
      invariant 1 <= k <= |lines|
      invariant end == 0
      invariant forall j | 1 <= j < k :: !IsRule(lines[j])
    {
      if T.Trim(lines[k]) == "---" {
        end := k;
        break;
      }
      k := k + 1;
    }
    FirstIs(lines, 1, IsRule, if end == 0 then |lines| else end);
    assert end == Closing(lines);
    var i := 1;
    while i < end
      invariant 1 <= i && (end > 0 ==> i <= end)
      invariant forall j | 1 <= j < i && j < |lines| :: !HasField(field)(lines[j])
    {
      if field + ":" <= lines[i] {
        FirstIs(lines, 1, HasField(field), i);
        lines := lines[i := FieldLine(field, value)];
        return T.Join(lines, "\n");
      }
      i := i + 1;
    }
    if end > 0 {
      assert First(lines, 1, HasField(field)) >= end;
      lines := lines[..end] + [FieldLine(field, value)] + lines[end..];
    }
    return T.Join(lines, "\n");
  }

  // ----- The Resolution section -----

  /** Where the blank lines before `n` begin, not below `lo`. */
  function SkipBlankBack(lines: seq<string>, lo: nat, n: nat): (r: nat)
    requires lo <= n <= |lines|
    ensures lo <= r <= n
    ensures forall k | r <= k < n :: T.BlankLine(lines[k])
  {
    if n > lo && T.BlankLine(lines[n - 1]) then SkipBlankBack(lines, lo, n - 1) else n
  }

  /** A new section at the end. */
  function Made(lines: seq<string>, entry: seq<string>): seq<string> {
    lines + ["", RESOLUTION_HEADING, ""] + entry
  }

  /** The entry in place of the blank lines from `tail` to `next`. */
  function Spliced(lines: seq<string>, tail: nat, next: nat, entry: seq<string>): seq<string>
    requires tail <= next <= |lines|
  {
    lines[..tail] + [""] + entry + (if next < |lines| then [""] else []) + lines[next..]
  }

  /** Where an entry goes: the first Resolution heading, the blank lines that end its section,
      and the next heading of level one or two. */
  datatype Place = NoSection | Slot(start: nat, tail: nat, next: nat)

  function PlaceOf(lines: seq<string>): (r: Place)
    ensures r.Slot? ==> r.start < r.tail <= r.next <= |lines|
  {
    var start := First(lines, 0, IsResolution);
    if start == |lines| then NoSection
    else
      var next := First(lines, start + 1, IsHeading);
      Slot(start, SkipBlankBack(lines, start + 1, next), next)
  }

  predicate Fits(place: Place, lines: seq<string>) {
    place.Slot? ==> place.tail <= place.next <= |lines|
  }

  function AppendedAt(place: Place, lines: seq<string>, entry: seq<string>): seq<string>
    requires Fits(place, lines)
  {
    match place
    case NoSection => Made(lines, entry)
    case Slot(_, tail, next) => Spliced(lines, tail, next, entry)
  }

  /** The lines with the entry at the end of the section, which is made at the end when there
      is none. */
  function Appended(lines: seq<string>, entry: seq<string>): seq<string> {
    AppendedAt(PlaceOf(lines), lines, entry)
  }

  /** The Resolution section runs from its first heading, at `start`, to the next heading of
      level one or two, or to the end, at `next`; from `tail` on it is blank. */
  predicate SectionAt(lines: seq<string>, start: nat, tail: nat, next: nat) {
    && start < tail <= next <= |lines|
    && "## Resolution" <= lines[start] && (forall k | 0 <= k < start :: !("## Resolution" <= lines[k]))
    && (next < |lines| ==> "# " <= lines[next] || "## " <= lines[next])
    && (forall k | start < k < next :: !("# " <= lines[k]) && !("## " <= lines[k]))
    && (forall k | tail <= k < next :: T.Blank(lines[k]))
    && (tail > start + 1 ==> !T.Blank(lines[tail - 1]))
  }

  lemma {:induction false} SkipIs(lines: seq<string>, lo: nat, n: nat, tail: nat)
    requires lo <= tail <= n <= |lines|
    requires forall k | tail <= k < n :: T.Blank(lines[k])
    requires tail > lo ==> !T.Blank(lines[tail - 1])
    ensures SkipBlankBack(lines, lo, n) == tail
  {
    if n > lo {
      TrimmedBlank(lines[n - 1]);
      T.TrimEmptyIffBlank(lines[n - 1]);
      if tail < n { SkipIs(lines, lo, n - 1, tail); }
    }
  }

  lemma {:induction false} SkipStops(lines: seq<string>, lo: nat, n: nat)
    requires lo <= n <= |lines|
    ensures var tail := SkipBlankBack(lines, lo, n);
      && (tail > lo ==> !T.Blank(lines[tail - 1])) && forall k | tail <= k < n :: T.Blank(lines[k])
  {
    if n > lo {
      TrimmedBlank(lines[n - 1]);
      T.TrimEmptyIffBlank(lines[n - 1]);
      if T.BlankLine(lines[n - 1]) { SkipStops(lines, lo, n - 1); }
    }
  }

  lemma {:induction false} PlaceIsSection(lines: seq<string>, start: nat, tail: nat, next: nat)
    requires SectionAt(lines, start, tail, next)
    ensures PlaceOf(lines) == Slot(start, tail, next)
  {
    FirstIs(lines, 0, IsResolution, start);
    FirstIs(lines, start + 1, IsHeading, next);
    SkipIs(lines, start + 1, next, tail);
  }

  /** The entry takes the place of the blank lines that end the section, with a blank line
      before it, and one after it when a heading follows; a text without such a section gets
      one at its end. */
  lemma {:induction false} EntryWrittenOut(lines: seq<string>, entry: seq<string>)
    ensures var r := Appended(lines, entry);
      && (forall start: nat, tail: nat, next: nat | SectionAt(lines, start, tail, next) ::
            r == lines[..tail] + [""] + entry + (if next < |lines| then [""] else []) + lines[next..])
      && ((forall k | 0 <= k < |lines| :: !("## Resolution" <= lines[k])) ==>
            r == lines + ["", "## Resolution", ""] + entry)
  {
    forall start: nat, tail: nat, next: nat | SectionAt(lines, start, tail, next)
      ensures PlaceOf(lines) == Slot(start, tail, next)
    {
      PlaceIsSection(lines, start, tail, next);
    }
  }

  /** A text with a Resolution heading has such a section, with one place for the entry. */
  lemma {:induction false} OneSection(lines: seq<string>, k: nat) returns (start: nat, tail: nat, next: nat)
    requires k < |lines| && "## Resolution" <= lines[k]
    ensures SectionAt(lines, start, tail, next)
    ensures forall a: nat, b: nat, c: nat | SectionAt(lines, a, b, c) :: a == start && b == tail && c == next
  {
    assert IsResolution(lines[k]);
    var place := PlaceOf(lines);
    start, tail, next := place.start, place.tail, place.next;
    SkipStops(lines, start + 1, next);
    forall a: nat, b: nat, c: nat | SectionAt(lines, a, b, c)
      ensures place == Slot(a, b, c)
    {
      PlaceIsSection(lines, a, b, c);
    }
  }

  lemma {:induction false} TrimmedBlank(line: string)
    ensures T.Trim(line) == "" <==> T.BlankLine(line)
  {
    T.TrimEmptyIffBlank(line);
    var tail := T.TrimEndSplits(line);
    if T.BlankLine(line) {
      assert line == tail;
    } else {
      T.TrimStartEmptyIffBlank(T.TrimEnd(line));
      TrimEndEndsInText(line);
      var kept := T.TrimEnd(line);
      assert kept[|kept| - 1] in kept;
    }
  }

  lemma {:induction false} TrimEndEndsInText(s: string)
    ensures var r := T.TrimEnd(s); r != "" ==> !T.IsSpace(r[|r| - 1])
    ensures T.TrimEnd(T.TrimEnd(s)) == T.TrimEnd(s)
  {
    if s != "" && T.IsSpace(s[|s| - 1]) { TrimEndEndsInText(s[..|s| - 1]); }
  }

  method FindFirst(lines: seq<string>, from: nat, p: LineTest) returns (r: nat)
    requires from <= |lines|
    ensures r == First(lines, from, p)
  {
    r := from;
    while r < |lines| && !p(lines[r])
      invariant from <= r <= |lines|
      invariant First(lines, r, p) == First(lines, from, p)
    {
      r := r + 1;
    }
  }

  method FindTail(lines: seq<string>, lo: nat, next: nat) returns (tail: nat)
    requires lo <= next <= |lines|
    ensures tail == SkipBlankBack(lines, lo, next)
  {
    tail := next;
    while tail > lo && T.Trim(lines[tail - 1]) == ""
      invariant lo <= tail <= next
      invariant SkipBlankBack(lines, lo, tail) == SkipBlankBack(lines, lo, next)
    {
      TrimmedBlank(lines[tail - 1]);
      tail := tail - 1;
    }
    if tail > lo { TrimmedBlank(lines[tail - 1]); }
  }

  method ContentLines(content: string) returns (lines: seq<string>)
    ensures lines == T.TrimLines(T.Lines(content))
    ensures forall l :: l in lines ==> '\n' !in l
  {
    lines := T.Lines(T.TrimEnd(content));
    T.LinesOfTrimEnd(content);
  }

  method JoinMade(lines: seq<string>, entry: string) returns (r: string)
    requires forall l :: l in lines ==> '\n' !in l
    ensures T.Lines(r) == Made(lines, T.Lines(entry)) + [""]
  {
    var before := lines + ["", RESOLUTION_HEADING, ""];
    JoinedWithEntry(before, entry, [""]);
    assert before + T.Lines(entry) + [""] == before + (T.Lines(entry) + [""]);
    r := T.Join(before + ([entry] + [""]), "\n");
  }

  method JoinSpliced(lines: seq<string>, tail: nat, next: nat, entry: string) returns (r: string)
    requires tail <= next <= |lines| && forall l :: l in lines ==> '\n' !in l
    ensures T.Lines(r) == Spliced(lines, tail, next, T.Lines(entry)) + [""]
  {
    var before := lines[..tail] + [""];
    var separator := if next == |lines| then [] else [""];
    var after := separator + lines[next..];
    JoinWithNewline(before + ([entry] + after));
    assert before + ([entry] + after) + [""] == before + ([entry] + (after + [""]));
    JoinedWithEntry(before, entry, after + [""]);
    Regroup(before, T.Lines(entry), separator, lines[next..], [""]);
    r := T.Join(before + ([entry] + after), "\n") + "\n";
  }

  /** `appendResolution`: the lines of the new text, which ends with a newline. */
  method AppendResolution(content: string, entry: string) returns (r: string)
    ensures T.Lines(r) == Appended(T.TrimLines(T.Lines(content)), T.Lines(entry)) + [""]
  {
    var lines := ContentLines(content);
    var start := FindFirst(lines, 0, IsResolution);
    if start == |lines| {
      r := JoinMade(lines, entry);
      return;
    }
    var next := FindFirst(lines, start + 1, IsHeading);
    var tail := FindTail(lines, start + 1, next);
    r := JoinSpliced(lines, tail, next, entry);
  }

  lemma {:induction false} Regroup(a: seq<string>, b: seq<string>, c: seq<string>, d: seq<string>, e: seq<string>)
    ensures a + (b + ((c + d) + e)) == a + b + c + d + e
  {
  }

  lemma {:induction false} JoinWithNewline(lines: seq<string>)
    requires lines != []
    ensures T.Join(lines, "\n") + "\n" == T.Join(lines + [""], "\n")
  {
    if |lines| > 1 {
      JoinWithNewline(lines[1..]);
      assert (lines + [""])[1..] == lines[1..] + [""];
      assert T.Join(lines, "\n") + "\n" == lines[0] + "\n" + (T.Join(lines[1..], "\n") + "\n");
    } else {
      assert (lines + [""])[1..] == [""];
    }
  }

  lemma {:induction false} JoinedWithEntry(before: seq<string>, entry: string, rest: seq<string>)
    requires forall l :: l in before ==> '\n' !in l
    requires forall l :: l in rest ==> '\n' !in l
    ensures T.Lines(T.Join(before + ([entry] + rest), "\n")) == before + (T.Lines(entry) + rest)
  {
    T.LinesOfJoined(before + ([entry] + rest));
    T.AllLinesConcat(before, [entry] + rest);
    T.AllLinesOfLines(before);
    T.AllLinesOfLines(rest);
    assert ([entry] + rest)[1..] == rest;
  }
}
