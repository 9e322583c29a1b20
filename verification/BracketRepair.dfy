/** `unbalancedClosers` of `src/brains/llm.ts`, proved against the bracket grammar. */
module BracketRepair {
  import opened Contract
  import opened BracketGrammar

  datatype Mode = Outside | InString | Escaped

  /** What the scan knows: the closers still expected, innermost last, or a mismatch. */
  datatype Scan = Mismatch | At(stack: string, mode: Mode)

  const START := At("", Outside)

  function ScanChar(st: Scan, c: char): Scan {
    match st
    case Mismatch => Mismatch
    case At(stack, Escaped) => At(stack, InString)
    case At(stack, InString) =>
      At(stack, if c == '\\' then Escaped else if c == '"' then Outside else InString)
    case At(stack, Outside) =>
      if c == '"' then At(stack, InString)
      else if IsOpener(c) then At(stack + [Closer(c)], Outside)
      else if !IsCloser(c) then st
      else if stack != "" && stack[|stack| - 1] == c then At(stack[..|stack| - 1], Outside)
      else Mismatch
  }

  function ScanFrom(st: Scan, s: string): Scan {
    if s == "" then st else ScanChar(ScanFrom(st, s[..|s| - 1]), s[|s| - 1])
  }

  lemma {:induction false} ScanAppend(st: Scan, a: string, b: string)
    ensures ScanFrom(st, a + b) == ScanFrom(ScanFrom(st, a), b)
  {
    if b == "" {
      assert a + b == a;
    } else {
      assert (a + b)[..|a + b| - 1] == a + b[..|b| - 1];
      ScanAppend(st, a, b[..|b| - 1]);
    }
  }

  lemma {:induction false} ScanOne(st: Scan, c: char)
    ensures ScanFrom(st, [c]) == ScanChar(st, c)
  {
  }

  // ----- The scan accepts the grammar -----

  lemma {:induction false} ScanBody(stack: string, body: seq<Piece>)
    requires BodyOk(body)
    ensures ScanFrom(At(stack, InString), BodyYield(body)) == At(stack, InString)
  {
    if body != [] {
      var front, p := body[..|body| - 1], body[|body| - 1];
      ScanBody(stack, front);
      assert PieceOk(p);
      ScanAppend(At(stack, InString), BodyYield(front), PieceYield(p));
      ScanOne(At(stack, InString), p.c);
      if p.Escape? {
        assert PieceYield(p) == ['\\'] + [p.c];
        ScanAppend(At(stack, InString), ['\\'], [p.c]);
        ScanOne(At(stack, InString), '\\');
        ScanOne(At(stack, Escaped), p.c);
      }
    }
  }

  lemma {:induction false} ScanQuoted(stack: string, body: seq<Piece>)
    requires BodyOk(body)
    ensures ScanFrom(At(stack, Outside), "\"" + BodyYield(body) + "\"") == At(stack, Outside)
  {
    ScanOne(At(stack, Outside), '"');
    ScanAppend(At(stack, Outside), "\"", BodyYield(body));
    ScanBody(stack, body);
    ScanAppend(At(stack, Outside), "\"" + BodyYield(body), "\"");
    ScanOne(At(stack, InString), '"');
  }

  lemma {:induction false} ScanYield(stack: string, t: Text)
    requires Ok(t)
    ensures ScanFrom(At(stack, Outside), Yield(t)) == At(stack, Outside)
    decreases t
  {
    match t {
      case Empty =>
      case Plain(c, rest) =>
        ScanOne(At(stack, Outside), c);
        ScanAppend(At(stack, Outside), [c], Yield(rest));
        ScanYield(stack, rest);
      case Quoted(body, rest) =>
        ScanQuoted(stack, body);
        ScanAppend(At(stack, Outside), "\"" + BodyYield(body) + "\"", Yield(rest));
        ScanYield(stack, rest);
      case Nested(open, inner, rest) =>
        var deeper := stack + [Closer(open)];
        ScanOne(At(stack, Outside), open);
        ScanAppend(At(stack, Outside), [open], Yield(inner));
        ScanYield(deeper, inner);
        ScanAppend(At(stack, Outside), [open] + Yield(inner), [Closer(open)]);
        ScanOne(At(deeper, Outside), Closer(open));
        assert deeper[..|deeper| - 1] == stack;
        ScanAppend(At(stack, Outside), [open] + Yield(inner) + [Closer(open)], Yield(rest));
        ScanYield(stack, rest);
    }
  }

  lemma {:induction false} BalancedScans(s: string)
    requires Balanced(s)
    ensures ScanFrom(START, s) == START
  {
    var t :| Ok(t) && Yield(t) == s;
    ScanYield("", t);
  }

  lemma {:induction false} MismatchStays(s: string)
    ensures ScanFrom(Mismatch, s) == Mismatch
  {
    if s != "" { MismatchStays(s[..|s| - 1]); }
  }

  // ----- What the scan has seen, as an unfinished derivation -----

  /** Brackets opened and not yet closed, each with the finished text after it. */
  datatype Open =
    | Top(t: Text)
    | Under(outer: Open, open: char, t: Text)

  predicate OpenOk(o: Open) {
    match o
    case Top(t) => Ok(t)
    case Under(outer, open, t) => OpenOk(outer) && IsOpener(open) && Ok(t)
  }

  function OpenYield(o: Open): string {
    match o
    case Top(t) => Yield(t)
    case Under(outer, open, t) => OpenYield(outer) + [open] + Yield(t)
  }

  function Expected(o: Open): string {
    match o
    case Top(_) => ""
    case Under(outer, open, _) => Expected(outer) + [Closer(open)]
  }

  function Append(t: Text, u: Text): Text {
    match t
    case Empty => u
    case Plain(c, rest) => Plain(c, Append(rest, u))
    case Quoted(body, rest) => Quoted(body, Append(rest, u))
    case Nested(open, inner, rest) => Nested(open, inner, Append(rest, u))
  }

  lemma {:induction false} Regroup(a: string, b: string, c: string)
    ensures (a + b) + c == a + (b + c)
  {
  }

  lemma {:induction false} AppendYields(t: Text, u: Text)
    requires Ok(t) && Ok(u)
    ensures Ok(Append(t, u)) && Yield(Append(t, u)) == Yield(t) + Yield(u)
    decreases t
  {
    if t.Empty? {
      assert Yield(t) + Yield(u) == Yield(u);
    } else {
      AppendYields(t.rest, u);
      var head :=
        match t
        case Plain(c, _) => [c]
        case Quoted(body, _) => "\"" + BodyYield(body) + "\""
        case Nested(open, inner, _) => [open] + Yield(inner) + [Closer(open)];
      assert Yield(t) == head + Yield(t.rest);
      assert Yield(Append(t, u)) == head + Yield(Append(t.rest, u));
      Regroup(head, Yield(t.rest), Yield(u));
    }
  }

  function Extend(o: Open, u: Text): Open {
    match o
    case Top(t) => Top(Append(t, u))
    case Under(outer, open, t) => Under(outer, open, Append(t, u))
  }

  lemma {:induction false} ExtendYields(o: Open, u: Text)
    requires OpenOk(o) && Ok(u)
    ensures OpenOk(Extend(o, u)) && OpenYield(Extend(o, u)) == OpenYield(o) + Yield(u)
    ensures Expected(Extend(o, u)) == Expected(o)
  {
    AppendYields(o.t, u);
  }

  /** Closing the innermost bracket. */
  lemma {:induction false} CloseInner(o: Open) returns (closed: Open)
    requires OpenOk(o) && o.Under?
    ensures closed == Extend(o.outer, Nested(o.open, o.t, Empty)) && OpenOk(closed)
    ensures OpenYield(closed) == OpenYield(o) + [Closer(o.open)]
    ensures Expected(closed) == Expected(o.outer)
  {
    ExtendYields(o.outer, Nested(o.open, o.t, Empty));
    closed := Extend(o.outer, Nested(o.open, o.t, Empty));
    assert Yield(Nested(o.open, o.t, Empty)) == [o.open] + Yield(o.t) + [Closer(o.open)];
  }

  function Tail(mode: Mode, body: seq<Piece>): string {
    match mode
    case Outside => ""
    case InString => "\"" + BodyYield(body)
    case Escaped => "\"" + BodyYield(body) + "\\"
  }

  function LexChar(mode: Mode, c: char): Mode {
    match mode
    case Outside => if c == '"' then InString else Outside
    case InString => if c == '\\' then Escaped else if c == '"' then Outside else InString
    case Escaped => InString
  }

  /** Reading on inside a string lengthens the unclosed part by one character. */
  lemma {:induction false} TailGrows(mode: Mode, body: seq<Piece>, c: char) returns (body': seq<Piece>)
    requires BodyOk(body) && mode != Outside && LexChar(mode, c) != Outside
    ensures BodyOk(body') && Tail(LexChar(mode, c), body') == Tail(mode, body) + [c]
  {
    body' := body;
    if mode == Escaped {
      BodySnoc(body, Escape(c));
      body' := body + [Escape(c)];
      Regroup("\"" + BodyYield(body), "\\", [c]);
      Regroup("\"", BodyYield(body), ['\\', c]);
    } else if c != '\\' {
      BodySnoc(body, Literal(c));
      body' := body + [Literal(c)];
      Regroup("\"", BodyYield(body), [c]);
    }
  }

  /** An unfinished derivation of `s` that expects exactly the closers on the stack. */
  predicate Reads(st: Scan, o: Open, body: seq<Piece>, s: string) {
    st.At? && OpenOk(o) && BodyOk(body) && st.stack == Expected(o) && s == OpenYield(o) + Tail(st.mode, body)
  }

  lemma {:induction false} ReadOutside(st: Scan, o: Open, body: seq<Piece>, s: string, c: char)
    returns (o': Open, body': seq<Piece>)
    requires Reads(st, o, body, s) && st.mode == Outside && ScanChar(st, c).At?
    ensures Reads(ScanChar(st, c), o', body', s + [c])
  {
    o', body' := o, [];
    if c == '"' {
      assert BodyYield([]) == "";
    } else if IsOpener(c) {
      o' := Under(o, c, Empty);
    } else if IsCloser(c) {
      o' := CloseInner(o);
    } else {
      ExtendYields(o, Plain(c, Empty));
      o' := Extend(o, Plain(c, Empty));
    }
  }

  lemma {:induction false} ReadInside(st: Scan, o: Open, body: seq<Piece>, s: string, c: char)
    returns (o': Open, body': seq<Piece>)
    requires Reads(st, o, body, s) && st.mode != Outside
    ensures Reads(ScanChar(st, c), o', body', s + [c])
  {
    o', body' := o, body;
    if LexChar(st.mode, c) == Outside {
      ExtendYields(o, Quoted(body, Empty));
      o' := Extend(o, Quoted(body, Empty));
      assert Yield(Quoted(body, Empty)) == Tail(st.mode, body) + [c];
    } else {
      body' := TailGrows(st.mode, body, c);
    }
    Regroup(OpenYield(o), Tail(st.mode, body), [c]);
  }

  lemma {:induction false} ScanBuilds(s: string) returns (o: Open, body: seq<Piece>)
    requires ScanFrom(START, s).At?
    ensures Reads(ScanFrom(START, s), o, body, s)
  {
    if s == "" {
      o, body := Top(Empty), [];
    } else {
      var front, c := s[..|s| - 1], s[|s| - 1];
      assert s == front + [c];
      o, body := ScanBuilds(front);
      if ScanFrom(START, front).mode == Outside {
        o, body := ReadOutside(ScanFrom(START, front), o, body, front, c);
      } else {
        o, body := ReadInside(ScanFrom(START, front), o, body, front, c);
      }
    }
  }

  lemma {:induction false} BodySnoc(body: seq<Piece>, p: Piece)
    requires BodyOk(body) && PieceOk(p)
    ensures BodyOk(body + [p]) && BodyYield(body + [p]) == BodyYield(body) + PieceYield(p)
  {
  }

  function Reverse(s: string): string {
    if s == "" then "" else [s[|s| - 1]] + Reverse(s[..|s| - 1])
  }

  /** The expected closers, innermost first, finish the derivation. */
  lemma {:induction false} ClosersFinish(o: Open) returns (t: Text)
    requires OpenOk(o)
    ensures Ok(t) && Yield(t) == OpenYield(o) + Reverse(Expected(o))
    decreases |Expected(o)|
  {
    if o.Top? {
      t := o.t;
    } else {
      var closed := CloseInner(o);
      t := ClosersFinish(closed);
      RegroupCloser(o, closed);
    }
  }

  lemma {:induction false} RegroupCloser(o: Open, closed: Open)
    requires o.Under?
    requires OpenYield(closed) == OpenYield(o) + [Closer(o.open)]
    requires Expected(closed) == Expected(o.outer)
    ensures OpenYield(closed) + Reverse(Expected(closed)) == OpenYield(o) + Reverse(Expected(o))
  {
  }

  lemma {:induction false} ExpectedAreClosers(o: Open)
    ensures OnlyClosers(Expected(o))
  {
    if o.Under? { ExpectedAreClosers(o.outer); }
  }

  lemma {:induction false} ReverseKeeps(s: string)
    ensures |Reverse(s)| == |s| && (OnlyClosers(s) ==> OnlyClosers(Reverse(s)))
  {
    if s != "" { ReverseKeeps(s[..|s| - 1]); }
  }

  // ----- No other completion -----

  /** One character closes at most one bracket. */
  lemma {:induction false} OneCloserEach(st: Scan, d: string)
    requires st.At? && ScanFrom(st, d).At?
    ensures |ScanFrom(st, d).stack| + |d| >= |st.stack|
  {
    if d != "" { OneCloserEach(st, d[..|d| - 1]); }
  }

  lemma {:induction false} ClosersAreForced(stack: string, d: string)
    requires OnlyClosers(d) && ScanFrom(At(stack, Outside), d) == START
    ensures d == Reverse(stack)
    decreases |d|
  {
    if d != "" {
      assert d == [d[0]] + d[1..];
      assert d[0] in d;
      ScanAppend(At(stack, Outside), [d[0]], d[1..]);
      ScanOne(At(stack, Outside), d[0]);
      if ScanChar(At(stack, Outside), d[0]) == Mismatch { MismatchStays(d[1..]); }
      ClosersAreForced(stack[..|stack| - 1], d[1..]);
    }
  }

  // ----- Ending inside a string -----

  function LexFrom(mode: Mode, s: string): Mode {
    if s == "" then mode else LexChar(LexFrom(mode, s[..|s| - 1]), s[|s| - 1])
  }

  lemma {:induction false} LexAppend(mode: Mode, a: string, b: string)
    ensures LexFrom(mode, a + b) == LexFrom(LexFrom(mode, a), b)
  {
    if b == "" {
      assert a + b == a;
    } else {
      assert (a + b)[..|a + b| - 1] == a + b[..|b| - 1];
      LexAppend(mode, a, b[..|b| - 1]);
    }
  }

  lemma {:induction false} LexOne(mode: Mode, c: char)
    ensures LexFrom(mode, [c]) == LexChar(mode, c)
  {
  }

  lemma {:induction false} ScanLexes(s: string)
    requires ScanFrom(START, s).At?
    ensures ScanFrom(START, s).mode == LexFrom(Outside, s)
  {
    if s != "" { ScanLexes(s[..|s| - 1]); }
  }

  lemma {:induction false} LexBody(body: seq<Piece>)
    requires BodyOk(body)
    ensures LexFrom(InString, BodyYield(body)) == InString
  {
    if body != [] {
      var front, p := body[..|body| - 1], body[|body| - 1];
      LexBody(front);
      assert PieceOk(p);
      LexAppend(InString, BodyYield(front), PieceYield(p));
      LexOne(InString, p.c);
      if p.Escape? {
        assert PieceYield(p) == ['\\'] + [p.c];
        LexAppend(InString, ['\\'], [p.c]);
        LexOne(InString, '\\');
        LexOne(Escaped, p.c);
      }
    }
  }

  lemma {:induction false} LexLexemes(ls: seq<Lexeme>)
    requires LexemesOk(ls)
    ensures LexFrom(Outside, LexYield(ls)) == Outside
  {
    if ls != [] {
      var front, l := ls[..|ls| - 1], ls[|ls| - 1];
      LexLexemes(front);
      assert LexemeOk(l);
      LexAppend(Outside, LexYield(front), LexemeYield(l));
      if l.Bare? {
        LexOne(Outside, l.c);
      } else {
        LexOne(Outside, '"');
        LexAppend(Outside, "\"", BodyYield(l.body));
        LexBody(l.body);
        LexAppend(Outside, "\"" + BodyYield(l.body), "\"");
        LexOne(InString, '"');
      }
    }
  }

  lemma {:induction false} EndsInStringLexes(s: string)
    requires EndsInString(s)
    ensures LexFrom(Outside, s) != Outside
  {
    var ls, body, dangling :|
      LexemesOk(ls) && BodyOk(body) && s == UnclosedYield(ls, body, dangling);
    LexLexemes(ls);
    LexOne(Outside, '"');
    LexAppend(Outside, LexYield(ls), "\"");
    LexBody(body);
    LexAppend(Outside, LexYield(ls) + "\"", BodyYield(body));
    LexAppend(Outside, LexYield(ls) + "\"" + BodyYield(body), if dangling then "\\" else "");
    LexOne(InString, '\\');
  }

  lemma {:induction false} LexSnoc(ls: seq<Lexeme>, l: Lexeme)
    requires LexemesOk(ls) && LexemeOk(l)
    ensures LexemesOk(ls + [l]) && LexYield(ls + [l]) == LexYield(ls) + LexemeYield(l)
  {
  }

  predicate Lexed(mode: Mode, ls: seq<Lexeme>, body: seq<Piece>, s: string) {
    LexemesOk(ls) && BodyOk(body) && s == LexYield(ls) + Tail(mode, body)
  }

  lemma {:induction false} LexOutside(ls: seq<Lexeme>, body: seq<Piece>, s: string, c: char)
    returns (ls': seq<Lexeme>, body': seq<Piece>)
    requires Lexed(Outside, ls, body, s)
    ensures Lexed(LexChar(Outside, c), ls', body', s + [c])
  {
    ls', body' := ls, [];
    if c != '"' {
      LexSnoc(ls, Bare(c));
      ls' := ls + [Bare(c)];
    }
  }

  lemma {:induction false} LexInside(mode: Mode, ls: seq<Lexeme>, body: seq<Piece>, s: string, c: char)
    returns (ls': seq<Lexeme>, body': seq<Piece>)
    requires Lexed(mode, ls, body, s) && mode != Outside
    ensures Lexed(LexChar(mode, c), ls', body', s + [c])
  {
    ls', body' := ls, body;
    if LexChar(mode, c) == Outside {
      LexSnoc(ls, Quote(body));
      ls' := ls + [Quote(body)];
      assert LexemeYield(Quote(body)) == Tail(mode, body) + [c];
    } else {
      body' := TailGrows(mode, body, c);
    }
    Regroup(LexYield(ls), Tail(mode, body), [c]);
  }

  /** Read outside strings, a text is whole lexemes; read inside one, it ends in a string. */
  lemma {:induction false} LexBuilds(s: string) returns (ls: seq<Lexeme>, body: seq<Piece>)
    ensures Lexed(LexFrom(Outside, s), ls, body, s)
  {
    if s == "" {
      ls, body := [], [];
    } else {
      var front, c := s[..|s| - 1], s[|s| - 1];
      assert s == front + [c];
      ls, body := LexBuilds(front);
      if LexFrom(Outside, front) == Outside {
        ls, body := LexOutside(ls, body, front, c);
      } else {
        ls, body := LexInside(LexFrom(Outside, front), ls, body, front, c);
      }
    }
  }

  lemma {:induction false} UnclosedIsTail(mode: Mode, ls: seq<Lexeme>, body: seq<Piece>)
    requires mode != Outside
    ensures LexYield(ls) + Tail(mode, body) == UnclosedYield(ls, body, mode == Escaped)
  {
  }

  lemma {:induction false} LexedInsideEndsInString(s: string)
    requires LexFrom(Outside, s) != Outside
    ensures EndsInString(s)
  {
    var ls, body := LexBuilds(s);
    UnclosedIsTail(LexFrom(Outside, s), ls, body);
  }

  // ----- The three answers -----

  lemma {:induction false} BalancedIff(s: string)
    ensures Balanced(s) <==> ScanFrom(START, s) == START
  {
    if Balanced(s) { BalancedScans(s); }
    if ScanFrom(START, s) == START {
      var o, body := ScanBuilds(s);
      assert o.Top?;
      assert Yield(o.t) == s;
    }
  }

  lemma {:induction false} MismatchIsHopeless(s: string)
    requires ScanFrom(START, s) == Mismatch
    ensures !Completable(s)
  {
    forall d
      ensures !Balanced(s + d)
    {
      ScanAppend(START, s, d);
      MismatchStays(d);
      BalancedIff(s + d);
    }
  }

  lemma {:induction false} StackCompletes(s: string, stack: string)
    requires ScanFrom(START, s) == At(stack, Outside)
    ensures OnlyClosers(Reverse(stack)) && |Reverse(stack)| == |stack| && Balanced(s + Reverse(stack))
    ensures forall d :: Balanced(s + d) ==> |Reverse(stack)| <= |d| && (OnlyClosers(d) ==> d == Reverse(stack))
  {
    var o, body := ScanBuilds(s);
    assert s == OpenYield(o);
    var t := ClosersFinish(o);
    ExpectedAreClosers(o);
    ReverseKeeps(stack);
    forall d | Balanced(s + d)
      ensures |Reverse(stack)| <= |d| && (OnlyClosers(d) ==> d == Reverse(stack))
    {
      BalancedIff(s + d);
      ScanAppend(START, s, d);
      OneCloserEach(At(stack, Outside), d);
      if OnlyClosers(d) { ClosersAreForced(stack, d); }
    }
  }

  /** `unbalancedClosers`. The closers returned complete the text, no other closers do, and
      no completion of any kind is shorter. Nothing is returned exactly when the text is
      already balanced, ends inside a string, or cannot be completed at all. */
  method UnbalancedClosers(s: string) returns (r: Option<string>)
    ensures r.Some? ==> OnlyClosers(r.value) && r.value != "" && Balanced(s + r.value)
    ensures r.Some? ==> forall d :: Balanced(s + d) ==> |r.value| <= |d| && (OnlyClosers(d) ==> d == r.value)
    ensures r.None? <==> Balanced(s) || EndsInString(s) || !Completable(s)
  {
    var stack, inString, escaped := "", false, false;
    for i := 0 to |s|
      invariant ScanFrom(START, s[..i]) ==
        At(stack, if !inString then Outside else if escaped then Escaped else InString)
      invariant escaped ==> inString
    {
      var ch := s[i];
      assert s[..i + 1][..i] == s[..i];
      if inString {
        if escaped { escaped := false; }
        else if ch == '\\' { escaped := true; }
        else if ch == '"' { inString := false; }
        continue;
      }
      if ch == '"' { inString := true; }
      else if ch == '{' { stack := stack + ['}']; }
      else if ch == '[' { stack := stack + [']']; }
      else if ch == '}' || ch == ']' {
        if stack == "" || stack[|stack| - 1] != ch {
          assert s == s[..i + 1] + s[i + 1..];
          ScanAppend(START, s[..i + 1], s[i + 1..]);
          MismatchStays(s[i + 1..]);
          MismatchIsHopeless(s);
          return None;
        }
        stack := stack[..|stack| - 1];
      }
    }
    assert s[..|s|] == s;
    ScanLexes(s);
    BalancedIff(s);
    if inString {
      LexedInsideEndsInString(s);
      return None;
    }
    if |stack| == 0 {
      return None;
    }
    StackCompletes(s, stack);
    if EndsInString(s) { EndsInStringLexes(s); }
    return Some(Reverse(stack));
  }
}
