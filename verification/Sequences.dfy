/** Laws of concatenation, spelled out where a proof needs exactly one instance of them, and stripping. */
module Sequences {
  lemma Associates<T>(a: seq<T>, b: seq<T>, c: seq<T>)
    ensures a + b + c == a + (b + c)
  {
  }

  lemma Regroup<T>(a: seq<T>, x: T, b: seq<T>)
    ensures a + ([x] + b) == a + [x] + b
  {
  }

  // ---- Stripping ----

  function StripLeft<T>(space: T -> bool, s: seq<T>): seq<T> {
    if s != [] && space(s[0]) then StripLeft(space, s[1..]) else s
  }

  function StripRight<T>(space: T -> bool, s: seq<T>): seq<T> {
    if s != [] && space(s[|s| - 1]) then StripRight(space, s[..|s| - 1]) else s
  }

  function Strip<T>(space: T -> bool, s: seq<T>): seq<T> {
    StripRight(space, StripLeft(space, s))
  }

  ghost predicate All<T>(space: T -> bool, s: seq<T>) {
    forall i | 0 <= i < |s| :: space(s[i])
  }

  ghost predicate HasBareEnds<T>(space: T -> bool, s: seq<T>) {
    s != [] ==> !space(s[0]) && !space(s[|s| - 1])
  }

  lemma {:induction false} StripLeftSplits<T>(space: T -> bool, s: seq<T>)
    ensures var r := StripLeft(space, s); var n := |s| - |r|;
      && 0 <= n && s[n..] == r && All(space, s[..n])
      && (r != [] ==> !space(r[0]))
  {
    if s != [] && space(s[0]) {
      StripLeftSplits(space, s[1..]);
      var n := |s| - |StripLeft(space, s[1..])|;
      assert s[1..][n - 1..] == s[n..];
      assert forall i | 1 <= i < n :: s[i] == s[1..][..n - 1][i - 1];
    }
  }

  lemma {:induction false} StripRightSplits<T>(space: T -> bool, s: seq<T>)
    ensures var r := StripRight(space, s);
      && |r| <= |s| && s[..|r|] == r && All(space, s[|r|..])
      && (r != [] ==> !space(r[|r| - 1]))
  {
    if s != [] && space(s[|s| - 1]) {
      var front := s[..|s| - 1];
      StripRightSplits(space, front);
      var n := |StripRight(space, front)|;
      assert forall i | n <= i < |front| :: s[i] == front[n..][i - n];
    }
  }

  /** Nothing but spaces is stripped, and all of them at both ends. */
  lemma StripSplits<T>(space: T -> bool, s: seq<T>) returns (before: seq<T>, after: seq<T>)
    ensures s == before + Strip(space, s) + after && All(space, before) && All(space, after)
    ensures HasBareEnds(space, Strip(space, s))
  {
    var left := StripLeft(space, s);
    var middle := StripRight(space, left);
    StripLeftSplits(space, s);
    StripRightSplits(space, left);
    before, after := s[..|s| - |left|], left[|middle|..];
    assert s == before + left && left == middle + after;
    Associates(before, middle, after);
  }

  lemma {:induction false} StripLeftOf<T>(space: T -> bool, before: seq<T>, s: seq<T>)
    requires All(space, before) && (s != [] ==> !space(s[0]))
    ensures StripLeft(space, before + s) == s
  {
    if before == [] {
      assert before + s == s;
    } else {
      StripLeftOf(space, before[1..], s);
      assert (before + s)[1..] == before[1..] + s;
    }
  }

  lemma {:induction false} StripRightOf<T>(space: T -> bool, s: seq<T>, after: seq<T>)
    requires All(space, after) && (s != [] ==> !space(s[|s| - 1]))
    ensures StripRight(space, s + after) == s
  {
    if after == [] {
      assert s + after == s;
    } else {
      StripRightOf(space, s, after[..|after| - 1]);
      assert (s + after)[..|s + after| - 1] == s + after[..|after| - 1];
    }
  }

  lemma StripOf<T>(space: T -> bool, before: seq<T>, s: seq<T>, after: seq<T>)
    requires All(space, before) && All(space, after) && HasBareEnds(space, s)
    ensures Strip(space, before + s + after) == s
  {
    if s == [] {
      StripLeftOf(space, before + after, []);
      assert before + s + after == before + after + [];
    } else {
      StripLeftOf(space, before, s + after);
      Associates(before, s, after);
      StripRightOf(space, s, after);
    }
  }
}
