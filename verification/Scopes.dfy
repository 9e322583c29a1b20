/** Overlapping scopes: the path test that the coverage gate (`src/engine/coverage-gate.ts`)
    and the late reading of dive facts (`src/engine/assembly.ts`) share. */
module Scopes {
  import Text

  /** The path without its trailing slashes. */
  function Norm(path: string): string {
    if path != [] && path[|path| - 1] == '/' then Norm(path[..|path| - 1]) else path
  }

  predicate PathsOverlap(left: string, right: string) {
    var l, r := Norm(left), Norm(right);
    l == r || r + "/" <= l || l + "/" <= r
  }

  predicate ScopesOverlap(a: seq<string>, b: seq<string>) {
    a == [] || b == [] || exists left, right | left in a && right in b :: PathsOverlap(left, right)
  }

  /** The parts of a path between its slashes. */
  function Segments(path: string): (r: seq<string>)
    ensures |r| >= 1
  {
    if path == "" then [""]
    else
      var rest := Segments(path[1..]);
      if path[0] == '/' then [""] + rest else [[path[0]] + rest[0]] + rest[1..]
  }

  lemma {:induction false} PrefixMeansAncestor(path: string, ancestor: string)
    ensures path == ancestor || ancestor + "/" <= path <==> Segments(ancestor) <= Segments(path)
  {
    if ancestor == "" {
      if path != "" {
        assert path == [path[0]] + path[1..];
        SegmentsOfCons(path[0], path[1..]);
        PrefixOfCons('/', "", path[0], path[1..]);
        assert ancestor + "/" == ['/'] + "";
        assert Segments(ancestor) == [""];
        assert Segments(ancestor) <= Segments(path) <==> Segments(path)[0] == "";
      }
    } else if path == "" {
      assert ancestor == [ancestor[0]] + ancestor[1..];
      SegmentsOfCons(ancestor[0], ancestor[1..]);
      assert Segments(path) == [""];
      assert |Segments(ancestor)| >= 2 || Segments(ancestor)[0] != Segments(path)[0];
    } else {
      PrefixMeansAncestor(path[1..], ancestor[1..]);
      assert ancestor == [ancestor[0]] + ancestor[1..] && path == [path[0]] + path[1..];
      assert ancestor + "/" == [ancestor[0]] + (ancestor[1..] + "/");
      SegmentsOfCons(ancestor[0], ancestor[1..]);
      SegmentsOfCons(path[0], path[1..]);
      PrefixOfCons(ancestor[0], ancestor[1..] + "/", path[0], path[1..]);
      SegmentPrefixOfCons(ancestor[0], Segments(ancestor[1..]), path[0], Segments(path[1..]));
    }
  }

  lemma {:induction false} SegmentsOfCons(c: char, rest: string)
    ensures Segments([c] + rest) == PrependChar(c, Segments(rest))
  {
  }

  function PrependChar(c: char, segments: seq<string>): seq<string>
    requires |segments| >= 1
  {
    if c == '/' then [""] + segments else [[c] + segments[0]] + segments[1..]
  }

  lemma {:induction false} PrefixOfCons(a: char, s: string, b: char, t: string)
    ensures [a] + s <= [b] + t <==> a == b && s <= t
  {
    assert ([a] + s)[1..] == s && ([b] + t)[1..] == t;
    if [a] + s <= [b] + t {
      assert ([a] + s)[0] == ([b] + t)[0];
      assert s == ([b] + t)[..1 + |s|][1..] == t[..|s|];
    }
  }

  lemma {:induction false} SegmentPrefixOfCons(a: char, s: seq<string>, b: char, t: seq<string>)
    requires |s| >= 1 && |t| >= 1
    ensures PrependChar(a, s) <= PrependChar(b, t) <==> a == b && s <= t
  {
    var x, y := PrependChar(a, s), PrependChar(b, t);
    if x <= y {
      assert x[0] == y[0];
      if a != '/' { assert x[0][0] == a; }
      if b != '/' { assert y[0][0] == b; }
      if a == b && a == '/' {
        assert s == x[1..] && t == y[1..];
        assert s == x[1..] == y[1..|x|] == t[..|s|];
      } else if a == b {
        assert x[0][1..] == s[0] && y[0][1..] == t[0];
        assert forall k :: 1 <= k < |s| ==> s[k] == x[k] == y[k] == t[k];
      }
    }
    if a == b && s <= t {
      assert forall k :: 0 <= k < |s| ==> s[k] == t[k];
    }
  }

  /** Without the empty segments that trailing slashes leave; the first segment stays. */
  function Pruned(segments: seq<string>): (r: seq<string>)
    requires segments != []
    ensures r != [] && r <= segments
    ensures forall k | |r| <= k < |segments| :: segments[k] == ""
    ensures |r| > 1 ==> r[|r| - 1] != ""
  {
    var n := |segments| - 1;
    if n > 0 && segments[n] == "" then Pruned(segments[..n]) else segments
  }

  /** Trailing slashes apart, one path is, segment by segment, an ancestor of the other or
      equal to it. */
  predicate Related(left: string, right: string) {
    var l, r := Pruned(Segments(left)), Pruned(Segments(right));
    l <= r || r <= l
  }

  /** The segments hold no slash, and joined by slashes they spell the path. */
  lemma {:induction false} SegmentsSpellThePath(path: string)
    ensures Text.Join(Segments(path), "/") == path
    ensures forall part | part in Segments(path) :: '/' !in part
  {
    if path != "" {
      SegmentsSpellThePath(path[1..]);
      var rest := Segments(path[1..]);
      assert path == [path[0]] + path[1..];
      if path[0] == '/' {
        assert ([""] + rest)[1..] == rest;
      } else {
        var grown := [[path[0]] + rest[0]] + rest[1..];
        assert grown[1..] == rest[1..];
        if |rest| > 1 {
          assert [path[0]] + rest[0] + "/" + Text.Join(rest[1..], "/") ==
            [path[0]] + (rest[0] + "/" + Text.Join(rest[1..], "/"));
        }
      }
    }
  }

  lemma {:induction false} SegmentsOfSlashed(path: string)
    ensures Segments(path + "/") == Segments(path) + [""]
  {
    if path == "" {
      assert "" + "/" == ['/'] + "";
      SegmentsOfCons('/', "");
    } else {
      SegmentsOfSlashed(path[1..]);
      assert path + "/" == [path[0]] + (path[1..] + "/") && path == [path[0]] + path[1..];
      SegmentsOfCons(path[0], path[1..] + "/");
      SegmentsOfCons(path[0], path[1..]);
    }
  }

  lemma {:induction false} LastSegment(path: string)
    requires path != "" && path[|path| - 1] != '/'
    ensures Segments(path)[|Segments(path)| - 1] != ""
  {
    var rest := path[1..];
    assert path == [path[0]] + rest;
    SegmentsOfCons(path[0], rest);
    if rest != "" {
      LastSegment(rest);
      assert rest[|rest| - 1] == path[|path| - 1];
    }
  }

  lemma {:induction false} NormPrunes(path: string)
    ensures Segments(Norm(path)) == Pruned(Segments(path))
  {
    if path != "" {
      var front := path[..|path| - 1];
      if path[|path| - 1] == '/' {
        assert path == front + "/";
        SegmentsOfSlashed(front);
        assert (Segments(front) + [""])[..|Segments(front)|] == Segments(front);
        NormPrunes(front);
      } else {
        LastSegment(path);
      }
    }
  }

  lemma {:induction false} OverlapMeansRelated(left: string, right: string)
    ensures PathsOverlap(left, right) <==> Related(left, right)
  {
    NormPrunes(left);
    NormPrunes(right);
    PrefixMeansAncestor(Norm(left), Norm(right));
    PrefixMeansAncestor(Norm(right), Norm(left));
  }

  predicate OnlySlashes(path: string) {
    forall c | c in path :: c == '/'
  }

  lemma {:induction false} NormIsEmptyIff(path: string)
    ensures Norm(path) == "" <==> OnlySlashes(path)
  {
    if path != "" {
      var front, last := path[..|path| - 1], path[|path| - 1];
      assert path == front + [last];
      assert last in path && forall c | c in front :: c in path;
      NormIsEmptyIff(front);
    }
  }

  lemma {:induction false} NormOfSlashed(path: string, slashes: string)
    requires OnlySlashes(slashes)
    ensures Norm(path + slashes) == Norm(path)
  {
    if slashes == "" {
      assert path + slashes == path;
    } else {
      var front := slashes[..|slashes| - 1];
      assert slashes[|slashes| - 1] in slashes && forall c | c in front :: c in slashes;
      assert (path + slashes)[..|path + slashes| - 1] == path + front;
      NormOfSlashed(path, front);
    }
  }

  /** Slashes at the end of a path play no part in what it overlaps. */
  lemma {:induction false} TrailingSlashesDoNotMatter(left: string, right: string, slashes: string)
    requires OnlySlashes(slashes)
    ensures PathsOverlap(left + slashes, right) <==> PathsOverlap(left, right)
    ensures PathsOverlap(left, right + slashes) <==> PathsOverlap(left, right)
  {
    NormOfSlashed(left, slashes);
    NormOfSlashed(right, slashes);
  }

  /** Two scopes overlap exactly when one of them is empty or some path of one is related to
      some path of the other; overlap is symmetric. */
  lemma {:induction false} OverlapIsAncestry(a: seq<string>, b: seq<string>)
    ensures ScopesOverlap(a, b) <==>
      a == [] || b == [] || exists left, right | left in a && right in b :: Related(left, right)
    ensures ScopesOverlap(a, b) <==> ScopesOverlap(b, a)
  {
    forall left, right
      ensures PathsOverlap(left, right) <==> Related(left, right)
      ensures PathsOverlap(left, right) <==> PathsOverlap(right, left)
    {
      OverlapMeansRelated(left, right);
    }
    if ScopesOverlap(a, b) && a != [] && b != [] {
      var left, right :| left in a && right in b && PathsOverlap(left, right);
      assert Related(left, right) && PathsOverlap(right, left);
    }
    if ScopesOverlap(b, a) && a != [] && b != [] {
      var left, right :| left in b && right in a && PathsOverlap(left, right);
      assert PathsOverlap(right, left);
    }
    if left, right :| left in a && right in b && Related(left, right) {
      assert PathsOverlap(left, right);
    }
  }
}
