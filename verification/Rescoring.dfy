// The first pass of the tablebase rescorer: every hit rewrites the results back to the previous hit, from the point of
// view of the side to move in each frame.

module Rescoring {
  import opened Board

  /** The fields of a training frame that the pass touches. */
  datatype Frame = Frame(resultQ: real, resultD: real)

  /** `ResultForData` insists on a plain win, loss or draw. */
  predicate Decided(f: Frame) {
    f.resultQ == -1.0 || f.resultQ == 0.0 || f.resultQ == 1.0
  }

  function Result(f: Frame): (r: int)
    ensures -1 <= r <= 1
  {
    if f.resultQ == 1.0 then 1 else if f.resultQ == -1.0 then -1 else 0
  }

  /** A decided result is the number in the frame. */
  lemma ResultMeans(f: Frame)
    requires Decided(f)
    ensures Result(f) as real == f.resultQ
  {
  }

  /** The frame after a score is written. */
  function Rewritten(score: int): Frame {
    Frame(score as real, if score == 0 then 1.0 else 0.0)
  }

  /** The score seen `plies` earlier. */
  function Seen(score: int, plies: int): (r: int)
    ensures r == score || r == -score
    decreases plies
  {
    if plies <= 0 then score else -Seen(score, plies - 1)
  }

  lemma {:induction false} SeenParity(score: int, plies: nat)
    ensures Seen(score, plies) == if plies % 2 == 0 then score else -score
  {
    if plies > 0 { SeenParity(score, plies - 1); }
  }

  // ---- what the pass is meant to do ----

  /** `hits[i]` is the score of the position after move `i`, that is, of frame `i + 1`, when it was probed with
      success. */
  ghost predicate Scores(hits: seq<Option<int>>) {
    forall i :: 0 <= i < |hits| && hits[i].Some? ==> -1 <= hits[i].value <= 1
  }

  predicate IsHit(hits: seq<Option<int>>, h: int) {
    1 <= h <= |hits| && hits[h - 1].Some?
  }

  /** The nearest hit at or after frame `j`, among the frames up to `n`; -1 if there is none. */
  function NearestHit(hits: seq<Option<int>>, j: int, n: int): int
    requires n <= |hits|
    decreases n
  {
    if n < j || n <= 0 then -1
    else if NearestHit(hits, j, n - 1) != -1 then NearestHit(hits, j, n - 1)
    else if IsHit(hits, n) then n else -1
  }

  lemma {:induction false} NearestHitIsNearest(hits: seq<Option<int>>, j: int, n: int)
    requires n <= |hits|
    ensures var h := NearestHit(hits, j, n);
      && (h != -1 ==> j <= h <= n && IsHit(hits, h) && forall k :: j <= k < h ==> !IsHit(hits, k))
      && (h == -1 ==> forall k :: j <= k <= n ==> !IsHit(hits, k))
    decreases n
  {
    if n >= j && n > 0 { NearestHitIsNearest(hits, j, n - 1); }
  }

  /** Frame `j` after the first `n` moves were looked at. */
  function NewFrame(was: seq<Frame>, hits: seq<Option<int>>, j: nat, n: nat): Frame
    requires j < |was| && n <= |hits|
  {
    var h := NearestHit(hits, j, n);
    if IsHit(hits, h) then Rewritten(Seen(hits[h - 1].value, h - j)) else was[j]
  }

  /** Which result the counters move the game to: they look at the frame of the first hit only. */
  function CountedResult(was: seq<Frame>, hits: seq<Option<int>>, n: nat): (r: int)
    requires |was| == |hits| + 1 && n <= |hits|
    ensures Scores(hits) ==> -1 <= r <= 1
  {
    var h := NearestHit(hits, 0, n);
    if IsHit(hits, h) && Result(was[h]) != hits[h - 1].value then Seen(hits[h - 1].value, h) else Result(was[0])
  }

  function Bump(counts: seq<int>, r: int): seq<int>
    requires |counts| == 3 && -1 <= r <= 1
  {
    counts[r + 1 := counts[r + 1] + 1]
  }

  function Abs(x: int): int {
    if x < 0 then -x else x
  }

  /** Of the first `n` frames, those whose result differs. */
  function Changed(a: seq<Frame>, b: seq<Frame>, n: nat): nat
    requires n <= |a| == |b|
  {
    if n == 0 then 0 else Changed(a, b, n - 1) + if Result(a[n - 1]) != Result(b[n - 1]) then 1 else 0
  }

  /** By how much their results differ in all. */
  function Distance(a: seq<Frame>, b: seq<Frame>, n: nat): int
    requires n <= |a| == |b|
  {
    if n == 0 then 0 else Distance(a, b, n - 1) + Abs(Result(a[n - 1]) - Result(b[n - 1]))
  }

  lemma {:induction false} ChangedAt(a: seq<Frame>, b: seq<Frame>, j: nat, v: Frame, n: nat)
    requires n <= |a| == |b| && j < |a| && a[j] == b[j]
    ensures Changed(a, b[j := v], n) == Changed(a, b, n) + if j < n && Result(a[j]) != Result(v) then 1 else 0
    ensures Distance(a, b[j := v], n) == Distance(a, b, n) + if j < n then Abs(Result(a[j]) - Result(v)) else 0
  {
    if n > 0 { ChangedAt(a, b, j, v, n - 1); }
  }

  lemma {:induction false} NothingChanged(a: seq<Frame>, n: nat)
    requires n <= |a|
    ensures Changed(a, a, n) == 0 && Distance(a, a, n) == 0
  {
    if n > 0 { NothingChanged(a, n - 1); }
  }

  /** `Changed` counts the frames whose result differs. */
  lemma {:induction false} ChangedIsCardinality(a: seq<Frame>, b: seq<Frame>, n: nat)
    requires n <= |a| == |b|
    ensures Changed(a, b, n) == |set j | 0 <= j < n && Result(a[j]) != Result(b[j])|
  {
    if n > 0 {
      ChangedIsCardinality(a, b, n - 1);
      var fewer, all := set j | 0 <= j < n - 1 && Result(a[j]) != Result(b[j]), set j | 0 <= j < n &&
        Result(a[j]) != Result(b[j]);
      assert all == fewer + if Result(a[n - 1]) != Result(b[n - 1]) then {n - 1} else {};
    }
  }

  // ---- the counters follow frame 0 ----

  /** Each side sees the negated result of the other. */
  ghost predicate Alternating(was: seq<Frame>) {
    forall j :: 0 <= j < |was| ==> Result(was[j]) == Seen(Result(was[0]), j)
  }

  /** The counters record the new result of frame 0 unless the first hit confirms its own frame while frame 0
      disagreed. */
  lemma CountsTrackFrameZero(was: seq<Frame>, hits: seq<Option<int>>)
    requires |was| == |hits| + 1 && Scores(hits)
    ensures var h := NearestHit(hits, 0, |hits|);
      CountedResult(was, hits, |hits|) == Result(NewFrame(was, hits, 0, |hits|)) <==>
      (IsHit(hits, h) && Result(was[h]) == hits[h - 1].value ==> Result(was[0]) == Seen(hits[h - 1].value, h))
  {
  }

  /** In particular for the results of a real game, which alternate. */
  lemma AlternatingTracked(was: seq<Frame>, hits: seq<Option<int>>)
    requires |was| == |hits| + 1 && Scores(hits) && Alternating(was)
    ensures CountedResult(was, hits, |hits|) == Result(NewFrame(was, hits, 0, |hits|))
  {
    CountsTrackFrameZero(was, hits);
    var h := NearestHit(hits, 0, |hits|);
    NearestHitIsNearest(hits, 0, |hits|);
    if IsHit(hits, h) {
      assert Result(was[h]) == Seen(Result(was[0]), h);
      SeenParity(Result(was[0]), h);
      SeenParity(hits[h - 1].value, h);
    }
  }

  /** Frames that do not alternate can be miscounted: a draw at frame 0 turns into a loss, but a win confirmed at frame
      1 leaves the counters alone. */
  lemma MiscountedExample()
    ensures var was, hits := [Frame(0.0, 1.0), Frame(1.0, 0.0)], [Some(1)];
      CountedResult(was, hits, 1) == 0 && Result(NewFrame(was, hits, 0, 1)) == -1
  {
    var was, hits := [Frame(0.0, 1.0), Frame(1.0, 0.0)], [Some(1)];
    assert IsHit(hits, 1) && NearestHit(hits, 0, 0) == -1;
  }

  // ---- one step ----

  lemma Starts(was: seq<Frame>, hits: seq<Option<int>>)
    requires |was| == |hits| + 1
    ensures forall j :: 0 <= j < |was| ==> NewFrame(was, hits, j, 0) == was[j]
    ensures CountedResult(was, hits, 0) == Result(was[0])
  {
  }

  /** `last` is the latest hit among the frames up to `n`. */
  ghost predicate IsLast(hits: seq<Option<int>>, last: int, n: nat) {
    && (last == -1 || (IsHit(hits, last) && last <= n)) && forall h :: last < h <= n ==> !IsHit(hits, h)
  }

  /** A move without a hit changes nothing. */
  lemma NoHit(was: seq<Frame>, hits: seq<Option<int>>, n: nat)
    requires |was| == |hits| + 1 && n < |hits| && hits[n].None?
    ensures forall j :: 0 <= j < |was| ==> NewFrame(was, hits, j, n + 1) == NewFrame(was, hits, j, n)
    ensures CountedResult(was, hits, n + 1) == CountedResult(was, hits, n)
  {
    forall j | 0 <= j < |was| ensures NearestHit(hits, j, n + 1) == NearestHit(hits, j, n) {
      NearestHitIsNearest(hits, j, n);
      NearestHitIsNearest(hits, j, n + 1);
    }
  }

  /** A hit decides the frames since the last one, and only those. */
  lemma HitReaches(was: seq<Frame>, hits: seq<Option<int>>, n: nat, last: int, j: nat)
    requires |was| == |hits| + 1 && n < |hits| && hits[n].Some? && IsLast(hits, last, n) && j < |was|
    ensures last < j ==> NewFrame(was, hits, j, n) == was[j]
    ensures last < j <= n + 1 ==> NewFrame(was, hits, j, n + 1) == Rewritten(Seen(hits[n].value, n + 1 - j))
    ensures !(last < j <= n + 1) ==> NewFrame(was, hits, j, n + 1) == NewFrame(was, hits, j, n)
  {
    NearestHitIsNearest(hits, j, n);
    NearestHitIsNearest(hits, j, n + 1);
  }

  /** Only the first hit changes the counters. */
  lemma HitCounts(was: seq<Frame>, hits: seq<Option<int>>, n: nat, last: int)
    requires |was| == |hits| + 1 && n < |hits| && hits[n].Some? && IsLast(hits, last, n)
    ensures last == -1 ==> CountedResult(was, hits, n) == Result(was[0])
    ensures last == -1 && Result(was[n + 1]) != hits[n].value ==>
      CountedResult(was, hits, n + 1) == Seen(hits[n].value, n + 1)
    ensures last == -1 && Result(was[n + 1]) == hits[n].value ==> CountedResult(was, hits, n + 1) == Result(was[0])
    ensures last != -1 ==> CountedResult(was, hits, n + 1) == CountedResult(was, hits, n)
  {
    NearestHitIsNearest(hits, 0, n);
    NearestHitIsNearest(hits, 0, n + 1);
  }

  /** The frames `last + 1` to `n` seen from a score at frame `n`, the others as in `f`. */
  ghost predicate Back(f: seq<Frame>, g: seq<Frame>, last: int, n: int, score: int) {
    |g| == |f| && forall k {:trigger g[k]} ::
      0 <= k < |f| ==> g[k] == if last < k <= n then Rewritten(Seen(score, n - k)) else f[k]
  }

  lemma BackStep(f: seq<Frame>, g: seq<Frame>, h: seq<Frame>, j: nat, n: int, score: int)
    requires Back(f, g, j, n, score) && j < |g| && j <= n && h == g[j := Rewritten(Seen(score, n - j))]
    ensures Back(f, h, j - 1, n, score)
  {
  }

  lemma BackIsNewFrames(f: seq<Frame>, g: seq<Frame>, was: seq<Frame>, hits: seq<Option<int>>, n: nat, last: int)
    requires |f| == |was| == |hits| + 1 && n < |hits| && hits[n].Some? && IsLast(hits, last, n)
    requires forall j :: 0 <= j < |f| ==> f[j] == NewFrame(was, hits, j, n)
    requires Back(f, g, last, n + 1, hits[n].value)
    ensures forall j :: 0 <= j < |g| ==> g[j] == NewFrame(was, hits, j, n + 1)
  {
    forall j | 0 <= j < |g| ensures g[j] == NewFrame(was, hits, j, n + 1) { HitReaches(was, hits, n, last, j); }
  }

  lemma SinceLast(f: seq<Frame>, was: seq<Frame>, hits: seq<Option<int>>, n: nat, last: int)
    requires |f| == |was| == |hits| + 1 && n < |hits| && hits[n].Some? && IsLast(hits, last, n)
    requires forall j :: 0 <= j < |f| ==> f[j] == NewFrame(was, hits, j, n)
    ensures forall j :: last < j < |f| && j >= 0 ==> f[j] == was[j]
  {
    forall j | last < j < |f| && j >= 0 ensures f[j] == was[j] { HitReaches(was, hits, n, last, j); }
  }

  // ---- the pass ----

  class Rescorer {
    var origCounts: seq<int>
    var fixedCounts: seq<int>
    var rescored: int
    var delta: int

    constructor ()
      ensures origCounts == fixedCounts == [0, 0, 0] && rescored == delta == 0
    {
      origCounts, fixedCounts, rescored, delta := [0, 0, 0], [0, 0, 0], 0, 0;
    }

    /** What the fields mean once the first `n` moves were looked at. */
    ghost predicate Progress(frames: seq<Frame>, was: seq<Frame>, hits: seq<Option<int>>, n: nat, counts: seq<int>,
                             rescoredWas: int, deltaWas: int)
      requires |was| == |hits| + 1 && n <= |hits| && |counts| == 3 && Scores(hits)
      reads this
    {
      && |frames| == |was| && (forall j {:trigger frames[j]} ::
        0 <= j < |frames| ==> frames[j] == NewFrame(was, hits, j, n))
      && -1 <= CountedResult(was, hits, n) <= 1 && fixedCounts == Bump(counts, CountedResult(was, hits, n))
      && rescored == rescoredWas + Changed(was, frames, |was|)
      && delta == deltaWas + Distance(was, frames, |was|)
    }
  
    /** The game moves from its old result to the one the first hit gives frame 0. */
    method Recount(frame: Frame, i: nat, score: int, ghost counts: seq<int>)
      requires |counts| == 3 && -1 <= score <= 1 && fixedCounts == Bump(counts, Result(frame))
      modifies this`fixedCounts
      ensures fixedCounts == Bump(counts, Seen(score, i + 1))
    {
      fixedCounts := fixedCounts[Result(frame) + 1 := fixedCounts[Result(frame) + 1] - 1];
      assert fixedCounts == counts;
      var flip := i % 2 == 0;
      var r := if flip then -score else score;
      SeenParity(score, i + 1);
      fixedCounts := fixedCounts[r + 1 := fixedCounts[r + 1] + 1];
    }

    /** One frame: count it if it changes, then write it. */
    method Rewrite(frames: array<Frame>, j: nat, s: int, ghost was: seq<Frame>, ghost rescoredWas: int,
                   ghost deltaWas: int)
      requires j < frames.Length == |was| && frames[j] == was[j] && -1 <= s <= 1
      requires rescored == rescoredWas + Changed(was, frames[..], |was|)
      requires delta == deltaWas + Distance(was, frames[..], |was|)
      modifies this`rescored, this`delta, frames
      ensures frames[..] == old(frames[..])[j := Rewritten(s)]
      ensures rescored == rescoredWas + Changed(was, frames[..], |was|)
      ensures delta == deltaWas + Distance(was, frames[..], |was|)
    {
      ghost var f := frames[..];
      ChangedAt(was, f, j, Rewritten(s), |was|);
      if Result(frames[j]) != s {
        rescored := rescored + 1;
        delta := delta + Abs(Result(frames[j]) - s);
      }
      frames[j] := Frame(s as real, if s == 0 then 1.0 else 0.0);
      assert frames[..] == f[j := Rewritten(s)];
    }

    /** The inner loop: rewrite the frames from `i + 1` back to the one after `last`. */
    method RewriteBack(frames: array<Frame>, i: nat, last: int, score: int, ghost was: seq<Frame>,
                       ghost counts: seq<int>, ghost counted: int, ghost rescoredWas: int, ghost deltaWas: int)
      requires -1 <= last <= i < |was| - 1 && frames.Length == |was| && -1 <= score <= 1
      requires forall j :: last < j < |was| ==> frames[j] == was[j]
      requires |counts| == 3 && -1 <= counted <= 1 && fixedCounts == Bump(counts, counted) &&
        (last == -1 ==> counted == Result(was[0]))
      requires rescored == rescoredWas + Changed(was, frames[..], |was|)
      requires delta == deltaWas + Distance(was, frames[..], |was|)
      modifies this`fixedCounts, this`rescored, this`delta, frames
      ensures Back(old(frames[..]), frames[..], last, i + 1, score)
      ensures fixedCounts == Bump(counts, if last == -1 &&
        Result(was[i + 1]) != score then Seen(score, i + 1) else counted)
      ensures rescored == rescoredWas + Changed(was, frames[..], |was|)
      ensures delta == deltaWas + Distance(was, frames[..], |was|)
    {
      ghost var f, k, after := frames[..], 0, if last == -1 &&
        Result(was[i + 1]) != score then Seen(score, i + 1) else counted;
      var s := score;
      var j := i + 1;
      while j > last
        invariant last <= j <= i + 1 && -1 <= s <= 1 && k == i + 1 - j && s == Seen(score, k)
        invariant forall q :: last < q <= j ==> frames[q] == was[q]
        invariant Back(f, frames[..], j, i + 1, score)
        invariant rescored == rescoredWas + Changed(was, frames[..], |was|)
        invariant delta == deltaWas + Distance(was, frames[..], |was|)
        invariant fixedCounts == Bump(counts, if j == i + 1 then counted else after)
        decreases j - last
      {
        ghost var g := frames[..];
        if j == i + 1 && last == -1 && Result(frames[j]) != s { Recount(frames[0], i, s, counts); }
        Rewrite(frames, j, s, was, rescoredWas, deltaWas);
        BackStep(f, g, frames[..], j, i + 1, score);
        s, k := -s, k + 1;
        j := j - 1;
      }
    }

    /** One hit. */
    method ApplyHit(frames: array<Frame>, i: nat, last: int, score: int, ghost was: seq<Frame>,
                    ghost hits: seq<Option<int>>,
                    ghost counts: seq<int>, ghost rescoredWas: int, ghost deltaWas: int)
      requires |was| == |hits| + 1 && i < |hits| && |counts| == 3 && Scores(hits) && hits[i] == Some(score) &&
        IsLast(hits, last, i)
      requires Progress(frames[..], was, hits, i, counts, rescoredWas, deltaWas)
      modifies this`fixedCounts, this`rescored, this`delta, frames
      ensures Progress(frames[..], was, hits, i + 1, counts, rescoredWas, deltaWas)
    {
      ghost var f := frames[..];
      SinceLast(f, was, hits, i, last);
      HitCounts(was, hits, i, last);
      RewriteBack(frames, i, last, score, was, counts, CountedResult(was, hits, i), rescoredWas, deltaWas);
      BackIsNewFrames(f, frames[..], was, hits, i, last);
    }

    /** The first pass of `ApplySyzygyRescoring`; `hits` are the scores of the successful probes, move by move. */
    method FirstPass(frames: array<Frame>, hits: seq<Option<int>>)
      requires frames.Length == |hits| + 1 && |origCounts| == |fixedCounts| == 3 && Scores(hits)
      requires forall j :: 0 <= j < frames.Length ==> Decided(frames[j])
      modifies this, frames
      ensures forall j :: 0 <= j < frames.Length ==> frames[j] == NewFrame(old(frames[..]), hits, j, |hits|)
      ensures origCounts == Bump(old(origCounts), Result(old(frames[0])))
      ensures fixedCounts == Bump(old(fixedCounts), CountedResult(old(frames[..]), hits, |hits|))
      ensures rescored == old(rescored) + Changed(old(frames[..]), frames[..], frames.Length)
      ensures delta == old(delta) + Distance(old(frames[..]), frames[..], frames.Length)
    {
      ghost var was, counts, rescoredWas, deltaWas := frames[..], fixedCounts, rescored, delta;
      var last := -1;
      origCounts := Bump(origCounts, Result(frames[0]));
      fixedCounts := Bump(fixedCounts, Result(frames[0]));
      NothingChanged(was, |was|);
      Starts(was, hits);
      assert Progress(frames[..], was, hits, 0, counts, rescoredWas, deltaWas);
      var i := 0;
      while i < |hits|
        invariant 0 <= i <= |hits| && -1 <= last <= i && IsLast(hits, last, i)
        invariant Progress(frames[..], was, hits, i, counts, rescoredWas, deltaWas)
        invariant origCounts == Bump(old(origCounts), Result(was[0]))
      {
        match hits[i] {
          case None =>
            NoHit(was, hits, i);
          case Some(score) =>
            ApplyHit(frames, i, last, score, was, hits, counts, rescoredWas, deltaWas);
            last := i + 1;
        }
        i := i + 1;
      }
    }
  }
}
