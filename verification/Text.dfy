/** Strings as the engine handles them: separators, lines and white space. */
module Text {

  function Join(parts: seq<string>, separator: string): string {
    if |parts| == 0 then ""
    else if |parts| == 1 then parts[0]
    else parts[0] + separator + Join(parts[1..], separator)
  }

  /** The distinct values, each at its first occurrence. */
  function Dedupe(values: seq<string>): (r: seq<string>)
    ensures forall v :: v in r <==> v in values
    ensures forall i, j :: 0 <= i < j < |r| ==> r[i] != r[j]
  {
    if values == [] then []
    else
      var front, last := values[..|values| - 1], values[|values| - 1];
      assert values == front + [last];
      if last in front then Dedupe(front) else Dedupe(front) + [last]
  }

  function Digits(n: nat): string {
    if n < 10 then [('0' as int + n) as char] else Digits(n / 10) + Digits(n % 10)
  }

  /** What decimal digits are worth. */
  function Worth(digits: string): int {
    if digits == "" then 0 else 10 * Worth(digits[..|digits| - 1]) + (digits[|digits| - 1] as int - '0' as int)
  }

  lemma {:induction false} DigitsAreWorth(n: nat)
    ensures Worth(Digits(n)) == n && Digits(n) != "" && forall c | c in Digits(n) :: '0' <= c <= '9'
  {
    if n >= 10 {
      DigitsAreWorth(n / 10);
      var front, last := Digits(n / 10), Digits(n % 10);
      assert (front + last)[..|front|] == front;
    } else {
      assert Digits(n)[..0] == "";
    }
  }

  /** Of two values that occur for the first time, the earlier one stands before the later. */
  lemma {:induction false} DedupeKeepsOrder(values: seq<string>, p: nat, q: nat)
    requires p < q < |values| && values[p] !in values[..p] && values[q] !in values[..q]
    ensures exists i, j | 0 <= i < j < |Dedupe(values)| ::
      Dedupe(values)[i] == values[p] && Dedupe(values)[j] == values[q]
  {
    var front, last := values[..|values| - 1], values[|values| - 1];
    var kept := Dedupe(front);
    assert values == front + [last] && front[..p] == values[..p];
    if q < |front| {
      assert front[..q] == values[..q];
      DedupeKeepsOrder(front, p, q);
      var i, j :| 0 <= i < j < |kept| && kept[i] == values[p] && kept[j] == values[q];
      assert Dedupe(values)[i] == values[p] && Dedupe(values)[j] == values[q];
    } else {
      assert front == values[..q] && front[p] == values[p];
      assert values[p] in kept;
      var i :| 0 <= i < |kept| && kept[i] == values[p];
      assert Dedupe(values)[i] == values[p] && Dedupe(values)[|kept|] == values[q];
    }
  }

  // ----- White space -----

  predicate IsLineEnd(c: char) {
    c == '\n' || c == '\r' || c == '\U{2028}' || c == '\U{2029}'
  }

  /** White space as ECMAScript's `trim` and `\s` see it. */
  predicate IsSpace(c: char) {
    || IsLineEnd(c)
    || c == ' ' || c == '\t' || c == '\U{000B}' || c == '\U{000C}' || c == '\U{00A0}' || c == '\U{1680}'
    || '\U{2000}' <= c <= '\U{200A}'
    || c == '\U{202F}' || c == '\U{205F}' || c == '\U{3000}' || c == '\U{FEFF}'
  }

  predicate Blank(s: string) {
    forall c :: c in s ==> IsSpace(c)
  }

  function TrimStart(s: string): string {
    if s == "" || !IsSpace(s[0]) then s else TrimStart(s[1..])
  }

  function TrimEnd(s: string): string {
    if s == "" || !IsSpace(s[|s| - 1]) then s else TrimEnd(s[..|s| - 1])
  }

  function Trim(s: string): string {
    TrimStart(TrimEnd(s))
  }

  lemma {:induction false} TrimEndDropsBlank(s: string, tail: string)
    requires Blank(tail)
    ensures TrimEnd(s + tail) == TrimEnd(s)
  {
    if tail == "" {
      assert s + tail == s;
    } else {
      assert tail[|tail| - 1] in tail;
      assert (s + tail)[..|s + tail| - 1] == s + tail[..|tail| - 1];
      TrimEndDropsBlank(s, tail[..|tail| - 1]);
    }
  }

  lemma {:induction false} TrimStartEmptyIffBlank(s: string)
    ensures TrimStart(s) == "" <==> Blank(s)
  {
    if s != "" {
      assert s == [s[0]] + s[1..];
      assert s[0] in s;
      TrimStartEmptyIffBlank(s[1..]);
    }
  }

  lemma {:induction false} TrimEndSplits(s: string) returns (tail: string)
    ensures s == TrimEnd(s) + tail && Blank(tail)
  {
    if s == "" || !IsSpace(s[|s| - 1]) {
      tail := "";
    } else {
      tail := TrimEndSplits(s[..|s| - 1]);
      assert s == s[..|s| - 1] + [s[|s| - 1]];
      tail := tail + [s[|s| - 1]];
    }
  }

  lemma {:induction false} TrimEmptyIffBlank(s: string)
    ensures Trim(s) == "" <==> Blank(s)
  {
    var tail := TrimEndSplits(s);
    TrimStartEmptyIffBlank(TrimEnd(s));
    assert forall c :: c in TrimEnd(s) ==> c in s;
  }

  /** It begins and ends with something other than white space. */
  predicate Tight(s: string) {
    s != "" && !IsSpace(s[0]) && !IsSpace(s[|s| - 1])
  }

  lemma {:induction false} TrimStartDropsBlank(lead: string, s: string)
    requires Blank(lead) && (s == "" || !IsSpace(s[0]))
    ensures TrimStart(lead + s) == s
  {
    if lead == "" {
      assert lead + s == s;
    } else {
      assert lead[0] in lead;
      assert (lead + s)[1..] == lead[1..] + s;
      TrimStartDropsBlank(lead[1..], s);
    }
  }

  /** Trimming drops the white space around a text and nothing else. */
  lemma {:induction false} TrimIs(lead: string, s: string, tail: string)
    requires Blank(lead) && Blank(tail) && (s == "" || Tight(s))
    ensures Trim(lead + s + tail) == s
  {
    TrimEndDropsBlank(lead + s, tail);
    if s == "" {
      assert lead + s == "" + lead;
      TrimEndDropsBlank("", lead);
    } else {
      assert (lead + s)[|lead + s| - 1] == s[|s| - 1];
      TrimStartDropsBlank(lead, s);
    }
  }

  // ----- Lines -----

  /** One more character at the end of the last line, or a new line. */
  function Grow(lines: seq<string>, c: char): (r: seq<string>)
    requires lines != []
    ensures r != []
  {
    if c == '\n' then lines + [""]
    else lines[..|lines| - 1] + [lines[|lines| - 1] + [c]]
  }

  lemma {:induction false} GrowKeepsLines(lines: seq<string>, c: char)
    requires lines != [] && forall l :: l in lines ==> '\n' !in l
    ensures forall l :: l in Grow(lines, c) ==> '\n' !in l
  {
  }

  /** `split('\n')`: never empty, and no line holds a newline. */
  function Lines(s: string): (r: seq<string>)
    ensures r != []
    ensures forall l :: l in r ==> '\n' !in l
  {
    if s == "" then [""]
    else
      var before, c := Lines(s[..|s| - 1]), s[|s| - 1];
      GrowKeepsLines(before, c);
      Grow(before, c)
  }

  lemma {:induction false} LinesSnoc(s: string, c: char)
    ensures Lines(s + [c]) == Grow(Lines(s), c)
  {
  }

  lemma {:induction false} GrowConcat(a: seq<string>, b: seq<string>, c: char)
    requires b != []
    ensures Grow(a + b, c) == a + Grow(b, c)
  {
  }

  lemma {:induction false} LinesConcat(a: string, b: string)
    ensures Lines(a + "\n" + b) == Lines(a) + Lines(b)
  {
    if b == "" {
      assert a + "\n" + b == a + ['\n'];
      LinesSnoc(a, '\n');
    } else {
      var front, c := b[..|b| - 1], b[|b| - 1];
      LinesConcat(a, front);
      assert a + "\n" + b == (a + "\n" + front) + [c];
      LinesSnoc(a + "\n" + front, c);
      GrowConcat(Lines(a), Lines(front), c);
    }
  }

  lemma {:induction false} OneLine(s: string)
    requires '\n' !in s
    ensures Lines(s) == [s]
  {
    if s != "" {
      var front, c := s[..|s| - 1], s[|s| - 1];
      assert s == front + [c];
      OneLine(front);
    }
  }

  /** Splitting what was joined gives the lines back. */
  lemma {:induction false} LinesOfJoin(lines: seq<string>)
    requires lines != [] && forall l :: l in lines ==> '\n' !in l
    ensures Lines(Join(lines, "\n")) == lines
  {
    assert lines[0] in lines;
    OneLine(lines[0]);
    if |lines| > 1 {
      LinesOfJoin(lines[1..]);
      LinesConcat(lines[0], Join(lines[1..], "\n"));
      assert lines == [lines[0]] + lines[1..];
    }
  }

  /** The lines of every part, one after the other. */
  function AllLines(parts: seq<string>): seq<string> {
    if parts == [] then [] else Lines(parts[0]) + AllLines(parts[1..])
  }

  lemma {:induction false} LinesOfJoined(parts: seq<string>)
    requires parts != []
    ensures Lines(Join(parts, "\n")) == AllLines(parts)
  {
    if |parts| > 1 {
      LinesOfJoined(parts[1..]);
      LinesConcat(parts[0], Join(parts[1..], "\n"));
    } else {
      assert AllLines(parts) == Lines(parts[0]) + AllLines([]);
    }
  }

  lemma {:induction false} AllLinesConcat(a: seq<string>, b: seq<string>)
    ensures AllLines(a + b) == AllLines(a) + AllLines(b)
  {
    if a == [] {
      assert a + b == b;
    } else {
      assert (a + b)[1..] == a[1..] + b;
      AllLinesConcat(a[1..], b);
    }
  }

  lemma {:induction false} AllLinesOfLines(lines: seq<string>)
    requires forall l :: l in lines ==> '\n' !in l
    ensures AllLines(lines) == lines
  {
    if lines != [] {
      assert lines[0] in lines;
      OneLine(lines[0]);
      AllLinesOfLines(lines[1..]);
      assert lines == [lines[0]] + lines[1..];
    }
  }

  // ----- White space at the end of a text -----

  predicate BlankLine(line: string) { TrimEnd(line) == "" }

  /** Trailing blank lines go, and the white space at the end of the last line left. */
  function TrimLines(lines: seq<string>): (r: seq<string>)
    ensures lines != [] ==> r != []
    ensures |r| <= |lines|
  {
    if lines == [] then []
    else
      var front, last := lines[..|lines| - 1], lines[|lines| - 1];
      if front != [] && BlankLine(last) then TrimLines(front) else front + [TrimEnd(last)]
  }

  lemma {:induction false} TrimEndSnoc(s: string, c: char)
    ensures TrimEnd(s + [c]) == if IsSpace(c) then TrimEnd(s) else s + [c]
  {
  }

  lemma {:induction false} TrimLinesGrow(lines: seq<string>, c: char)
    requires lines != [] && IsSpace(c)
    ensures TrimLines(Grow(lines, c)) == TrimLines(lines)
  {
  }

  /** Trimming the end of a text, seen line by line. */
  lemma {:induction false} LinesOfTrimEnd(s: string)
    ensures Lines(TrimEnd(s)) == TrimLines(Lines(s))
  {
    if s == "" {
      assert Lines("") == [""];
      assert TrimEnd("") == "";
    } else {
      var front, c := s[..|s| - 1], s[|s| - 1];
      assert s == front + [c];
      LinesSnoc(front, c);
      if IsSpace(c) {
        LinesOfTrimEnd(front);
        TrimLinesGrow(Lines(front), c);
      } else {
        var last := Lines(front)[|Lines(front)| - 1];
        TrimEndSnoc(last, c);
        assert TrimLines(Lines(s)) == Lines(s);
      }
    }
  }
}
