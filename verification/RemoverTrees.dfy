// The trees that something may remove, and the check that no two of them nest.

module RemoverTrees {
  import opened Common

  const SEP: char := '/'

  type Path = string

  predicate EndsWithSep(p: Path) { p != "" && p[|p| - 1] == SEP }

  function Stem(root: Path): Path { if EndsWithSep(root) then root else root + [SEP] }

  // The comparison, on paths already resolved.
  predicate ContainedInResolved(path: Path, root: Path) { path != root && Stem(root) <= path }

  predicate AtOrUnderResolved(path: Path, root: Path) { path == root || ContainedInResolved(path, root) }

  // What `realpath` answers at this moment: nothing for a path that is not there, which is then taken
  // as it is written.
  type World = Path -> Option<Path>

  function Resolved(disk: World, p: Path): Path { if disk(p).Some? then disk(p).value else p }

  predicate AtOrUnder(disk: World, path: Path, root: Path) {
    AtOrUnderResolved(Resolved(disk, path), Resolved(disk, root))
  }

  datatype Tree = Tree(name: string, path: Path)

  predicate Nest(a: Tree, b: Tree) { AtOrUnderResolved(a.path, b.path) || AtOrUnderResolved(b.path, a.path) }

  function Found(disk: World, tree: Tree): Tree { tree.(path := Resolved(disk, tree.path)) }

  predicate Overlap(disk: World, a: Tree, b: Tree) { Nest(Found(disk, a), Found(disk, b)) }

  // `refused` names the first pair that nests, in the order of the loops.
  method CheckTrees(trees: seq<Tree>, disk: World) returns (refused: bool, a: nat, b: nat)
    ensures refused ==> a < b < |trees| && Overlap(disk, trees[a], trees[b])
    ensures refused ==>
              forall i, j :: 0 <= i < j < |trees| && (i < a || (i == a && j < b)) ==> !Overlap(disk, trees[i], trees[j])
    ensures !refused ==> forall i, j :: 0 <= i < j < |trees| ==> !Overlap(disk, trees[i], trees[j])
  {
    var index := 0;
    while index < |trees|
      invariant 0 <= index <= |trees|
      invariant forall i, j :: 0 <= i < index && i < j < |trees| ==> !Overlap(disk, trees[i], trees[j])
    {
      var other := index + 1;
      while other < |trees|
        invariant index < other <= |trees|
        invariant forall j :: index < j < other ==> !Overlap(disk, trees[index], trees[j])
      {
        if AtOrUnder(disk, trees[index].path, trees[other].path)
           || AtOrUnder(disk, trees[other].path, trees[index].path)
        {
          return true, index, other;
        }
        other := other + 1;
      }
      index := index + 1;
    }
    return false, 0, 0;
  }

  // ---- what the check is for ----

  // A path, taken apart at its separators.
  function Segments(p: Path): seq<string> {
    if p == "" then [""]
    else
      var rest := Segments(p[1..]);
      if p[0] == SEP then [""] + rest else [[p[0]] + rest[0]] + rest[1..]
  }

  lemma {:induction false} SegmentsAfter(a: Path, b: Path)
    ensures |Segments(a)| > 0 && Segments(a + [SEP] + b) == Segments(a) + Segments(b)
  {
    if a == "" {
      SegmentsCons(SEP, b);
      assert a + [SEP] + b == [SEP] + b;
    } else {
      var tail := a[1..];
      SegmentsAfter(tail, b);
      assert a + [SEP] + b == [a[0]] + (tail + [SEP] + b) && a == [a[0]] + tail;
      SegmentsOneMore(a[0], tail, tail + [SEP] + b, Segments(b));
    }
  }

  lemma SegmentsOneMore(c: char, p: Path, longer: Path, more: seq<string>)
    requires |Segments(p)| > 0 && Segments(longer) == Segments(p) + more
    ensures Segments([c] + longer) == Segments([c] + p) + more
  {
    SegmentsCons(c, p);
    SegmentsCons(c, longer);
    Glue(c, Segments(p), more);
  }

  lemma Glue(c: char, segments: seq<string>, more: seq<string>)
    requires |segments| > 0
    ensures [""] + (segments + more) == ([""] + segments) + more
    ensures var all := segments + more;
            [[c] + all[0]] + all[1..] == ([[c] + segments[0]] + segments[1..]) + more
  {
    assert (segments + more)[1..] == segments[1..] + more;
  }

  lemma SegmentsCons(c: char, p: Path)
    ensures |Segments(p)| > 0
    ensures Segments([c] + p) == if c == SEP then [""] + Segments(p) else [[c] + Segments(p)[0]] + Segments(p)[1..]
  {
    SegmentsAreNeverEmpty(p);
    assert ([c] + p)[1..] == p;
  }

  lemma {:induction false} SegmentsJoin(a: Path, b: Path)
    requires Segments(a) <= Segments(b) && Segments(a) != Segments(b)
    ensures a + [SEP] <= b
    decreases |a|
  {
    SegmentsAreNeverEmpty(a);
    SegmentsAreNeverEmpty(b);
    if a == "" {
      assert Segments(b)[0] == "";
      FirstSegmentEmpty(b);
    } else {
      var restA := Segments(a[1..]);
      SegmentsAreNeverEmpty(a[1..]);
      if b == "" {
        SegmentsOfNonEmpty(a);
      } else {
        var restB := Segments(b[1..]);
        SegmentsAreNeverEmpty(b[1..]);
        if a[0] == SEP {
          FirstSegmentEmpty(b);
          assert Segments(b)[1..] == restB && Segments(a)[1..] == restA;
        } else {
          assert Segments(a)[0] == Segments(b)[0];
          assert Segments(a)[0] == [a[0]] + restA[0];
          assert b[0] != SEP;
          assert Segments(b)[0] == [b[0]] + restB[0];
          assert a[0] == b[0] && restA[0] == restB[0] by { assert Segments(a)[0][1..] == Segments(b)[0][1..]; }
          assert restA[1..] == Segments(a)[1..] && restB[1..] == Segments(b)[1..];
          assert restA == [restA[0]] + restA[1..] && restB == [restB[0]] + restB[1..];
        }
        SegmentsJoin(a[1..], b[1..]);
        assert a + [SEP] == [a[0]] + (a[1..] + [SEP]) && b == [b[0]] + b[1..];
      }
    }
  }

  lemma {:induction false} SegmentsAreNeverEmpty(p: Path)
    ensures |Segments(p)| > 0
  {
    if p != "" { SegmentsAreNeverEmpty(p[1..]); }
  }

  lemma FirstSegmentEmpty(p: Path)
    requires |Segments(p)| > 0 && Segments(p)[0] == "" && Segments(p) != [""]
    ensures p != "" && p[0] == SEP
  {
    if p != "" { SegmentsAreNeverEmpty(p[1..]); }
  }

  lemma SegmentsOfNonEmpty(p: Path)
    requires p != ""
    ensures Segments(p) != [""] && !(Segments(p) <= [""])
  {
    SegmentsAreNeverEmpty(p[1..]);
  }

  // A root that is not the root directory holds exactly the paths whose segments begin with its own.
  lemma ContainmentIsBySegments(path: Path, root: Path)
    requires !EndsWithSep(root)
    ensures AtOrUnderResolved(path, root) <==> Segments(root) <= Segments(path)
  {
    if ContainedInResolved(path, root) {
      var below := path[|root| + 1..];
      assert path == root + [SEP] + below;
      SegmentsAfter(root, below);
    }
    if Segments(root) <= Segments(path) {
      if Segments(root) == Segments(path) {
        SegmentsDetermine(path, root);
      } else {
        SegmentsJoin(root, path);
      }
    }
  }

  lemma {:induction false} SegmentsDetermine(a: Path, b: Path)
    requires Segments(a) == Segments(b)
    ensures a == b
    decreases |a|
  {
    if a == "" {
      if b != "" { SegmentsOfNonEmpty(b); }
    } else if b == "" {
      SegmentsOfNonEmpty(a);
    } else {
      var restA, restB := Segments(a[1..]), Segments(b[1..]);
      SegmentsAreNeverEmpty(a[1..]);
      SegmentsAreNeverEmpty(b[1..]);
      if a[0] == SEP {
        assert b[0] == SEP;
        assert Segments(a)[1..] == restA && Segments(b)[1..] == restB;
      } else {
        assert b[0] != SEP;
        assert Segments(a)[0] == [a[0]] + restA[0] && Segments(b)[0] == [b[0]] + restB[0];
        assert a[0] == b[0] && restA[0] == restB[0] by { assert Segments(a)[0][1..] == Segments(b)[0][1..]; }
        assert restA[1..] == Segments(a)[1..] && restB[1..] == Segments(b)[1..];
        assert restA == [restA[0]] + restA[1..] && restB == [restB[0]] + restB[1..];
      }
      SegmentsDetermine(a[1..], b[1..]);
      assert a == [a[0]] + a[1..] && b == [b[0]] + b[1..];
    }
  }

  lemma StemsMeet(p: Path, a: Tree, b: Tree)
    requires Stem(a.path) <= p && Stem(b.path) <= p && |Stem(a.path)| <= |Stem(b.path)|
    ensures Nest(a, b)
  {
    var x, y := Stem(a.path), Stem(b.path);
    assert x == p[..|x|] == y[..|x|];
    if |x| == |y| {
      assert x == y;
      if !EndsWithSep(a.path) { assert a.path == x[..|x| - 1]; }
      if !EndsWithSep(b.path) { assert b.path == y[..|y| - 1]; }
    } else {
      assert x == b.path[..|x|];
    }
  }

  // Two trees nest exactly when some path lies in both.
  lemma NestingIsMeeting(a: Tree, b: Tree)
    ensures Nest(a, b) <==> exists p: Path :: AtOrUnderResolved(p, a.path) && AtOrUnderResolved(p, b.path)
  {
    if Nest(a, b) {
      assert AtOrUnderResolved(a.path, a.path) && AtOrUnderResolved(b.path, b.path);
    }
    forall p: Path | AtOrUnderResolved(p, a.path) && AtOrUnderResolved(p, b.path) ensures Nest(a, b) {
      if p != a.path && p != b.path {
        if |Stem(a.path)| <= |Stem(b.path)| { StemsMeet(p, a, b); } else { StemsMeet(p, b, a); }
      }
    }
  }

  // So a daemon that starts has trees of which no two share a path: nothing removed at or under one
  // is at or under another.
  lemma WhatIsRemovedFromOneIsInNoOther(disk: World, trees: seq<Tree>, i: nat, j: nat, p: Path)
    requires forall a, b :: 0 <= a < b < |trees| ==> !Overlap(disk, trees[a], trees[b])
    requires i < |trees| && j < |trees| && i != j && AtOrUnderResolved(p, Resolved(disk, trees[i].path))
    ensures !AtOrUnderResolved(p, Resolved(disk, trees[j].path))
  {
    if i < j {
      assert !Overlap(disk, trees[i], trees[j]);
      NestingIsMeeting(Found(disk, trees[i]), Found(disk, trees[j]));
    } else {
      assert !Overlap(disk, trees[j], trees[i]);
      NestingIsMeeting(Found(disk, trees[j]), Found(disk, trees[i]));
    }
  }

  // And one that is refused really had two trees with a path in common.
  lemma ARefusalIsNeverIdle(disk: World, trees: seq<Tree>, a: nat, b: nat)
    requires a < b < |trees| && Overlap(disk, trees[a], trees[b])
    ensures exists p: Path ::
              AtOrUnderResolved(p, Resolved(disk, trees[a].path)) && AtOrUnderResolved(p, Resolved(disk, trees[b].path))
  {
    NestingIsMeeting(Found(disk, trees[a]), Found(disk, trees[b]));
  }

  // A prefix of the text is not containment.
  lemma APrefixIsNotContainment()
    ensures "/srv/tree" <= "/srv/trees" && !AtOrUnderResolved("/srv/trees", "/srv/tree")
            && !Nest(Tree("", "/srv/tree"), Tree("", "/srv/trees"))
  {
    assert "/srv/trees"[9] == 's' && Stem("/srv/tree")[9] == SEP;
    assert |Stem("/srv/trees")| > |"/srv/tree"|;
  }
}
