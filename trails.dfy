/** Ball trails: per-ball histories of (x, y, age) samples, oldest first, aged and trimmed every tick. */
module Trails {
  import opened Vectors

  /** One glm::vec3 (x, y, age) entry of a trail deque. */
  datatype Sample = Sample(pos: Vec2, age: real)

  type Trail = seq<Sample>

  /** The trail the constructor gives a ball: it looks as if the ball had been at pos forever. */
  function InitialTrail(pos: Vec2, trailLength: real): Trail
  {
    [Sample(pos, trailLength), Sample(pos, 0.0)]
  }

  /** Every sample of t, one elapsed interval older. */
  function Aged(t: Trail, elapsed: real): (r: Trail)
    ensures |r| == |t|
    ensures forall k :: 0 <= k < |t| ==> r[k] == Sample(t[k].pos, t[k].age + elapsed)
  {
    seq(|t|, k requires 0 <= k < |t| => Sample(t[k].pos, t[k].age + elapsed))
  }

  /** How many samples the eviction loop pops from the front of t. */
  function Evicted(t: Trail, trailLength: real): (k: nat)
    ensures k <= |t|
    ensures |t| > 0 ==> k < |t|
    decreases |t|
  {
    if |t| >= 2 && t[1].age > trailLength then 1 + Evicted(t[1..], trailLength) else 0
  }

  /** The trail after one tick: aged, the ball's fresh position appended, too-old samples evicted. */
  function NextTrail(t: Trail, pos: Vec2, elapsed: real, trailLength: real): Trail
  {
    var s := Aged(t, elapsed) + [Sample(pos, 0.0)];
    s[Evicted(s, trailLength)..]
  }

  /** Oldest first: ages never increase from front to back, and none is negative. */
  ghost predicate OldestFirst(t: Trail)
  {
    (forall i, j :: 0 <= i < j < |t| ==> t[i].age >= t[j].age) &&
    (forall i :: 0 <= i < |t| ==> t[i].age >= 0.0)
  }

  /** Every trail of a ball collection holds at least one sample and is oldest-first. */
  ghost predicate AllOldestFirst(ts: seq<Trail>)
  {
    forall i :: 0 <= i < |ts| ==> |ts[i]| >= 1 && OldestFirst(ts[i])
  }

  /** A collection made only of copies of trails of another one inherits its ordering. */
  lemma CopiedKeepsOrder(ts: seq<Trail>, from: seq<Trail>)
    requires forall t :: t in ts ==> t in from
    requires AllOldestFirst(from)
    ensures AllOldestFirst(ts)
  {
    forall i | 0 <= i < |ts|
      ensures |ts[i]| >= 1 && OldestFirst(ts[i])
    {
      assert ts[i] in from;
      var j :| 0 <= j < |from| && from[j] == ts[i];
    }
  }

  /**
   * The eviction loop pops exactly the samples it should: the j-th pop happened because the
   * sample behind the popped one was older than the window, and the loop stops at the first
   * front whose successor is inside the window.
   */
  lemma {:induction false} EvictedExactly(t: Trail, trailLength: real)
    ensures forall j :: 1 <= j <= Evicted(t, trailLength) ==> t[j].age > trailLength
    ensures Evicted(t, trailLength) + 1 < |t| ==> t[Evicted(t, trailLength) + 1].age <= trailLength
  {
    if |t| >= 2 && t[1].age > trailLength {
      EvictedExactly(t[1..], trailLength);
      forall j | 2 <= j <= Evicted(t, trailLength)
        ensures t[j].age > trailLength
      {
        assert t[j] == t[1..][j - 1];
      }
      assert Evicted(t, trailLength) + 1 < |t| ==>
        t[Evicted(t, trailLength) + 1] == t[1..][Evicted(t[1..], trailLength) + 1];
    }
  }

  /** Ageing every sample by the same non-negative amount and appending a fresh one keeps the order. */
  lemma AgedKeepsOrder(t: Trail, pos: Vec2, elapsed: real)
    requires OldestFirst(t) && elapsed >= 0.0
    ensures OldestFirst(Aged(t, elapsed) + [Sample(pos, 0.0)])
  {
    var s := Aged(t, elapsed) + [Sample(pos, 0.0)];
    forall i, j | 0 <= i < j < |s|
      ensures s[i].age >= s[j].age
    {
      if j < |t| {
        assert s[i] == Aged(t, elapsed)[i] && s[j] == Aged(t, elapsed)[j];
      } else {
        assert s[i] == Aged(t, elapsed)[i];
      }
    }
    forall i | 0 <= i < |s|
      ensures s[i].age >= 0.0
    {
      if i < |t| {
        assert s[i] == Aged(t, elapsed)[i];
      }
    }
  }

  /** Dropping samples from the front keeps the order. */
  lemma SuffixKeepsOrder(s: Trail, k: nat)
    requires OldestFirst(s) && k <= |s|
    ensures OldestFirst(s[k..])
  {
    var r := s[k..];
    forall i, j | 0 <= i < j < |r|
      ensures r[i].age >= r[j].age
    {
      assert r[i] == s[k + i] && r[j] == s[k + j];
    }
    forall i | 0 <= i < |r|
      ensures r[i].age >= 0.0
    {
      assert r[i] == s[k + i];
    }
  }

  /**
   * What one tick guarantees of a trail: what survives is a suffix of the aged samples followed
   * by the fresh one, so the trail is never empty and its newest sample is the ball's current
   * position with age 0; the second sample is inside the window, a sample older than the window
   * is still there whenever one was, a non-empty trail comes back with at least two samples
   * (the fresh one is never the only survivor), and the oldest-first order is kept.
   */
  lemma NextTrailFacts(t: Trail, pos: Vec2, elapsed: real, trailLength: real)
    ensures var r := NextTrail(t, pos, elapsed, trailLength);
      && 1 <= |r| <= |t| + 1
      && r == (Aged(t, elapsed) + [Sample(pos, 0.0)])[|t| + 1 - |r|..]
      && r[|r| - 1] == Sample(pos, 0.0)
      && (|r| >= 2 ==> r[1].age <= trailLength)
      && (|t| > 0 && t[0].age + elapsed > trailLength ==> r[0].age > trailLength)
      && (|t| > 0 && trailLength >= 0.0 ==> |r| >= 2)
      && (OldestFirst(t) && elapsed >= 0.0 ==> OldestFirst(r))
  {
    var s := Aged(t, elapsed) + [Sample(pos, 0.0)];
    var k := Evicted(s, trailLength);
    EvictedExactly(s, trailLength);
    var r := s[k..];
    assert r == NextTrail(t, pos, elapsed, trailLength);
    assert r[|r| - 1] == s[|s| - 1];
    assert s[|s| - 1].age == 0.0;
    if |r| >= 2 {
      assert r[1] == s[k + 1];
    }
    if |t| > 0 && t[0].age + elapsed > trailLength {
      assert r[0] == s[k];
      if k == 0 {
        assert s[0] == Aged(t, elapsed)[0];
      }
    }
    if OldestFirst(t) && elapsed >= 0.0 {
      AgedKeepsOrder(t, pos, elapsed);
      SuffixKeepsOrder(s, k);
    }
  }

  /** The newest-sample and window facts of one trail update on their own. */
  lemma NextTrailEnds(t: Trail, pos: Vec2, elapsed: real, trailLength: real)
    ensures var r := NextTrail(t, pos, elapsed, trailLength);
      && |r| >= 1 && r[|r| - 1] == Sample(pos, 0.0)
      && (|r| >= 2 ==> r[1].age <= trailLength)
  {
    NextTrailFacts(t, pos, elapsed, trailLength);
  }

  /**
   * The per-ball trail update done in place on a deque: add elapsed to every age, push the
   * fresh sample at the back, pop the front while the second sample is older than the window.
   */
  method StepTrail(trail: Trail, pos: Vec2, elapsed: real, trailLength: real) returns (t: Trail)
    ensures t == NextTrail(trail, pos, elapsed, trailLength)
  {
    t := trail;
    var k := 0;
    while k < |t|
      invariant 0 <= k <= |t| == |trail|
      invariant t[..k] == Aged(trail, elapsed)[..k]
      invariant t[k..] == trail[k..]
    {
      t := t[k := Sample(t[k].pos, t[k].age + elapsed)];
      k := k + 1;
    }
    assert t == Aged(trail, elapsed);
    t := t + [Sample(pos, 0.0)];
    ghost var s := t;
    ghost var popped := 0;
    while |t| >= 2 && t[1].age > trailLength
      invariant 0 <= popped <= |s|
      invariant t == s[popped..]
      invariant popped + Evicted(t, trailLength) == Evicted(s, trailLength)
      decreases |t|
    {
      t := t[1..];
      popped := popped + 1;
    }
  }
}
