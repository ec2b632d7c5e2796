/**
 The fair queue order of a flexible window: middle first, then the middles of
 the halves, level by level.  Both ports run this same loop.
 */
module BisectionOrder {
  import opened Prelude

  datatype Interval = Interval(lo: int, hi: int)

  function Width(x: Interval): nat {
    Max(0, x.hi - x.lo + 1)
  }

  function Mid(x: Interval): int {
    (x.lo + x.hi) / 2
  }

  /** Queue an interval unless it is empty. */
  function Push(queue: seq<Interval>, lo: int, hi: int): seq<Interval> {
    if lo <= hi then queue + [Interval(lo, hi)] else queue
  }

  function PushHalves(queue: seq<Interval>, x: Interval): seq<Interval> {
    Push(Push(queue, x.lo, Mid(x) - 1), Mid(x) + 1, x.hi)
  }

  function FirstQueue(n: int): seq<Interval> {
    if n <= 0 then [] else [Interval(0, n - 1)]
  }

  /** Turn `t` of the loop: order[t] is visited and queues[t] becomes queues[t + 1]. */
  predicate TurnAt(order: seq<int>, queues: seq<seq<Interval>>, t: nat) {
    && t < |order| && t + 1 < |queues|
    && queues[t] != [] && order[t] == Mid(queues[t][0]) && queues[t + 1] == PushHalves(queues[t][1..], queues[t][0])
  }

  /** A run of the loop: queues[t] is the queue after t turns, order the middles taken out so far. */
  ghost predicate IsRun(n: int, order: seq<int>, queues: seq<seq<Interval>>) {
    && |queues| == |order| + 1
    && queues[0] == FirstQueue(n)
    && forall t :: 0 <= t < |order| ==> TurnAt(order, queues, t)
  }

  /** The run has emptied the queue. */
  ghost predicate IsWholeRun(n: int, order: seq<int>, queues: seq<seq<Interval>>) {
    IsRun(n, order, queues) && queues[|order|] == []
  }

  function TotalWidth(queue: seq<Interval>): nat {
    if queue == [] then 0 else Width(queue[0]) + TotalWidth(queue[1..])
  }

  lemma {:induction false} TotalWidthAppend(a: seq<Interval>, x: Interval)
    ensures TotalWidth(a + [x]) == TotalWidth(a) + Width(x)
  {
    if a != [] {
      TotalWidthAppend(a[1..], x);
      assert (a + [x])[1..] == a[1..] + [x];
    }
  }

  /** Splitting an interval visits exactly one of its indices. */
  lemma HalvesLoseOne(queue: seq<Interval>, x: Interval)
    requires x.lo <= x.hi
    ensures TotalWidth(PushHalves(queue, x)) == TotalWidth(queue) + Width(x) - 1
  {
    TotalWidthAppend(queue, Interval(x.lo, Mid(x) - 1));
    TotalWidthAppend(Push(queue, x.lo, Mid(x) - 1), Interval(Mid(x) + 1, x.hi));
  }

  predicate Proper(queue: seq<Interval>) {
    forall i :: 0 <= i < |queue| ==> queue[i].lo <= queue[i].hi
  }

  /** Each turn takes one index out of the intervals still queued. */
  lemma {:induction false} QueueWidth(n: nat, order: seq<int>, queues: seq<seq<Interval>>, t: nat)
    requires IsRun(n, order, queues) && t <= |order|
    ensures Proper(queues[t]) && TotalWidth(queues[t]) == n - t
  {
    if t > 0 {
      assert TurnAt(order, queues, t - 1);
      QueueWidth(n, order, queues, t - 1);
      var q := queues[t - 1];
      HalvesLoseOne(q[1..], q[0]);
    }
  }

  // ------------------------------------------------------------ permutation

  /** How many queued intervals contain `v`. */
  function Cover(queue: seq<Interval>, v: int): nat {
    if queue == [] then 0 else (if queue[0].lo <= v <= queue[0].hi then 1 else 0) + Cover(queue[1..], v)
  }

  lemma {:induction false} CoverAppend(a: seq<Interval>, x: Interval, v: int)
    ensures Cover(a + [x], v) == Cover(a, v) + if x.lo <= v <= x.hi then 1 else 0
  {
    if a != [] {
      CoverAppend(a[1..], x, v);
      assert (a + [x])[1..] == a[1..] + [x];
    }
  }

  lemma CoverHalves(queue: seq<Interval>, x: Interval, v: int)
    requires x.lo <= x.hi
    ensures Cover(PushHalves(queue, x), v) + (if v == Mid(x) then 1 else 0)
         == Cover(queue, v) + if x.lo <= v <= x.hi then 1 else 0
  {
    CoverAppend(queue, Interval(x.lo, Mid(x) - 1), v);
    CoverAppend(Push(queue, x.lo, Mid(x) - 1), Interval(Mid(x) + 1, x.hi), v);
  }

  lemma {:induction false} TurnKeepsCount(before: seq<int>, q: seq<Interval>, v: int)
    requires q != [] && q[0].lo <= q[0].hi
    ensures multiset(before + [Mid(q[0])])[v] + Cover(PushHalves(q[1..], q[0]), v) == multiset(before)[v] + Cover(q, v)
  {
    CoverHalves(q[1..], q[0], v);
  }

  lemma {:induction false} VisitedOrQueued(n: nat, order: seq<int>, queues: seq<seq<Interval>>, t: nat, v: int)
    requires IsRun(n, order, queues) && t <= |order|
    ensures multiset(order[..t])[v] + Cover(queues[t], v) == if 0 <= v < n then 1 else 0
  {
    if t > 0 {
      VisitedOrQueued(n, order, queues, t - 1, v);
      QueueWidth(n, order, queues, t - 1);
      assert TurnAt(order, queues, t - 1);
      TurnKeepsCount(order[..t - 1], queues[t - 1], v);
      assert order[..t] == order[..t - 1] + [order[t - 1]];
    }
  }

  /** Every index of the window exactly once, and nothing else. */
  ghost predicate IsPermutation(n: int, order: seq<int>) {
    |order| == Max(0, n) && forall v :: multiset(order)[v] == if 0 <= v < n then 1 else 0
  }

  lemma RunIsPermutation(n: nat, order: seq<int>, queues: seq<seq<Interval>>)
    requires IsWholeRun(n, order, queues)
    ensures IsPermutation(n, order)
  {
    QueueWidth(n, order, queues, |order|);
    forall v ensures multiset(order)[v] == if 0 <= v < n then 1 else 0 {
      VisitedOrQueued(n, order, queues, |order|, v);
      assert order[..|order|] == order;
    }
  }

  // --------------------------------------------------------------- fairness

  function Mids(queue: seq<Interval>): seq<int> {
    if queue == [] then [] else Mids(queue[..|queue| - 1]) + [Mid(queue[|queue| - 1])]
  }

  /** The queue once every interval now in it has been taken out. */
  function NextLevel(queue: seq<Interval>): seq<Interval> {
    if queue == [] then [] else PushHalves(NextLevel(queue[..|queue| - 1]), queue[|queue| - 1])
  }

  function Level(n: nat, k: nat): seq<Interval> {
    if k == 0 then FirstQueue(n) else NextLevel(Level(n, k - 1))
  }

  /** How many indices are visited before level `k` begins. */
  function Start(n: nat, k: nat): nat {
    if k == 0 then 0 else Start(n, k - 1) + |Level(n, k - 1)|
  }

  lemma PushHalvesBehind(a: seq<Interval>, b: seq<Interval>, x: Interval)
    ensures PushHalves(a + b, x) == a + PushHalves(b, x)
  {
  }

  lemma NextLevelStep(front: seq<Interval>, x: Interval)
    ensures NextLevel(front + [x]) == PushHalves(NextLevel(front), x)
    ensures Mids(front + [x]) == Mids(front) + [Mid(x)]
  {
    assert (front + [x])[..|front|] == front;
  }

  lemma SplitLast(head: seq<Interval>, tail: seq<Interval>)
    requires head != []
    ensures
      var front, x := head[..|head| - 1], head[|head| - 1];
      head == front + [x] && head + tail == front + ([x] + tail)
  {
  }

  lemma SliceStep(order: seq<int>, from: nat, to: nat)
    requires from <= to < |order|
    ensures order[from..to + 1] == order[from..to] + [order[to]]
  {
  }

  /** The turn that takes `x`, last of the part worked off so far. */
  lemma TurnWithinLevel(
    n: nat, order: seq<int>, queues: seq<seq<Interval>>, t: nat, x: Interval, tail: seq<Interval>, next: seq<Interval>)
    requires IsWholeRun(n, order, queues)
    requires t <= |order| && queues[t] == ([x] + tail) + next
    ensures t < |order| && order[t] == Mid(x) && queues[t + 1] == tail + PushHalves(next, x)
  {
    assert queues[t][0] == x && queues[t][1..] == tail + next;
    assert t < |order| ==> TurnAt(order, queues, t);
    PushHalvesBehind(tail, next, x);
  }

  /** First in, first out: as a level is worked off, its tail is followed by the halves of its head. */
  lemma {:induction false} WithinLevel(
    n: nat, order: seq<int>, queues: seq<seq<Interval>>, base: nat, head: seq<Interval>, tail: seq<Interval>)
    requires IsWholeRun(n, order, queues)
    requires base <= |order| && queues[base] == head + tail
    ensures base + |head| <= |order|
    ensures queues[base + |head|] == tail + NextLevel(head)
    ensures order[base..base + |head|] == Mids(head)
    decreases |head|
  {
    if head == [] {
      assert head + tail == tail && tail + NextLevel(head) == tail;
    } else {
      var j := |head| - 1;
      var front, x := head[..j], head[j];
      SplitLast(head, tail);
      WithinLevel(n, order, queues, base, front, [x] + tail);
      TurnWithinLevel(n, order, queues, base + j, x, tail, NextLevel(front));
      NextLevelStep(front, x);
      SliceStep(order, base, base + j);
    }
  }

  lemma {:induction false} WholeLevel(
    n: nat, order: seq<int>, queues: seq<seq<Interval>>, base: nat, level: seq<Interval>)
    requires IsWholeRun(n, order, queues)
    requires base <= |order| && queues[base] == level
    ensures base + |level| <= |order|
    ensures queues[base + |level|] == NextLevel(level)
    ensures order[base..base + |level|] == Mids(level)
  {
    assert level + [] == level && [] + NextLevel(level) == NextLevel(level);
    WithinLevel(n, order, queues, base, level, []);
  }

  lemma {:induction false} LevelBegins(n: nat, order: seq<int>, queues: seq<seq<Interval>>, k: nat)
    requires IsWholeRun(n, order, queues)
    ensures Start(n, k) <= |order| && queues[Start(n, k)] == Level(n, k)
  {
    if k > 0 {
      LevelBegins(n, order, queues, k - 1);
      WholeLevel(n, order, queues, Start(n, k - 1), Level(n, k - 1));
    }
  }

  predicate AtMost(queue: seq<Interval>, width: nat) {
    forall i :: 0 <= i < |queue| ==> Width(queue[i]) <= width
  }

  lemma {:induction false} NextLevelNarrower(queue: seq<Interval>, width: nat)
    requires AtMost(queue, width)
    ensures AtMost(NextLevel(queue), width / 2) && |NextLevel(queue)| <= 2 * |queue|
  {
    if queue != [] {
      var x := queue[|queue| - 1];
      assert Width(x) <= width;
      NextLevelNarrower(queue[..|queue| - 1], width);
    }
  }

  /** n halved k times, rounding down each time. */
  function Halved(n: nat, k: nat): nat {
    if k == 0 then n else Halved(n, k - 1) / 2
  }

  lemma ProductAtLeast(d: nat, x: int)
    requires x >= 1
    ensures d * x >= d
  {
  }

  lemma QuotientIs(n: nat, d: nat, q: nat, r: nat)
    requires d > 0 && n == d * q + r && r < d
    ensures n / d == q
  {
    var t := n / d;
    assert d * (t - q) == r - n % d;
    assert d * (q - t) == n % d - r;
    if t > q {
      ProductAtLeast(d, t - q);
    } else if t < q {
      ProductAtLeast(d, q - t);
    }
  }

  lemma Regroup(p: nat, h: nat)
    ensures p * (2 * h) == (2 * p) * h
  {
  }

  lemma HalfOfQuotient(n: nat, p: nat)
    requires p > 0
    ensures n / p / 2 == n / (2 * p)
  {
    var q, r := n / p, n % p;
    var h := q / 2;
    Regroup(p, h);
    if q % 2 == 0 {
      assert q == 2 * h;
      QuotientIs(n, 2 * p, h, r);
    } else {
      assert q == 2 * h + 1;
      assert p * q == p * (2 * h) + p;
      QuotientIs(n, 2 * p, h, p + r);
    }
  }

  /** Halving k times is one division by 2^k. */
  lemma {:induction false} HalvedIsQuotient(n: nat, k: nat)
    ensures Halved(n, k) == n / Pow2(k)
  {
    if k > 0 {
      HalvedIsQuotient(n, k - 1);
      HalfOfQuotient(n, Pow2(k - 1));
    }
  }

  /** Level k has at most 2^k intervals of width at most n / 2^k, and begins after at most 2^k - 1 visits. */
  lemma {:induction false} LevelSize(n: nat, k: nat)
    ensures AtMost(Level(n, k), Halved(n, k))
    ensures |Level(n, k)| <= Pow2(k) && Start(n, k) <= Pow2(k) - 1
  {
    if k > 0 {
      LevelSize(n, k - 1);
      NextLevelNarrower(Level(n, k - 1), Halved(n, k - 1));
    }
  }

  /** A run [a, b] of unvisited indices lies inside some interval of the queue. */
  predicate Holds(queue: seq<Interval>, a: int, b: int) {
    exists i :: 0 <= i < |queue| && queue[i].lo <= a && b <= queue[i].hi
  }

  lemma {:induction false} MidsAt(queue: seq<Interval>, i: nat)
    requires i < |queue|
    ensures Mid(queue[i]) in Mids(queue)
    decreases |queue|
  {
    if i < |queue| - 1 {
      MidsAt(queue[..|queue| - 1], i);
    }
  }

  lemma {:induction false} HalvesAppear(queue: seq<Interval>, i: nat, half: Interval)
    requires i < |queue| && half in PushHalves([], queue[i])
    ensures half in NextLevel(queue)
    decreases |queue|
  {
    var below := NextLevel(queue[..|queue| - 1]);
    PushHalvesBehind(below, [], queue[|queue| - 1]);
    assert below + [] == below;
    if i < |queue| - 1 {
      HalvesAppear(queue[..|queue| - 1], i, half);
    }
  }

  lemma RunStaysWhole(queue: seq<Interval>, a: int, b: int)
    requires a <= b && Holds(queue, a, b)
    requires forall v :: a <= v <= b ==> v !in Mids(queue)
    ensures Holds(NextLevel(queue), a, b)
  {
    var i :| 0 <= i < |queue| && queue[i].lo <= a && b <= queue[i].hi;
    var x := queue[i];
    MidsAt(queue, i);
    var half := if b < Mid(x) then Interval(x.lo, Mid(x) - 1) else Interval(Mid(x) + 1, x.hi);
    var both := PushHalves([], x);
    assert both[if b < Mid(x) then 0 else |both| - 1] == half;
    HalvesAppear(queue, i, half);
  }

  /** No index of [a, b] is among the first `visits`. */
  ghost predicate Unvisited(order: seq<int>, visits: nat, a: int, b: int) {
    forall t :: 0 <= t < visits && t < |order| ==> !(a <= order[t] <= b)
  }

  lemma LevelMissesRun(order: seq<int>, base: nat, level: seq<Interval>, a: int, b: int)
    requires base + |level| <= |order| && order[base..base + |level|] == Mids(level)
    requires Unvisited(order, base + |level|, a, b)
    ensures forall v :: a <= v <= b ==> v !in Mids(level)
  {
    forall v | a <= v <= b ensures v !in Mids(level) {
      assert forall t :: 0 <= t < |level| ==> Mids(level)[t] == order[base + t];
    }
  }

  lemma RunPastLevel(
    n: nat, order: seq<int>, queues: seq<seq<Interval>>, base: nat, level: seq<Interval>, a: int, b: int)
    requires IsWholeRun(n, order, queues) && base <= |order| && queues[base] == level
    requires a <= b && Unvisited(order, base + |level|, a, b) && Holds(level, a, b)
    ensures Holds(NextLevel(level), a, b)
  {
    WholeLevel(n, order, queues, base, level);
    LevelMissesRun(order, base, level, a, b);
    RunStaysWhole(level, a, b);
  }

  lemma UnvisitedBefore(order: seq<int>, earlier: nat, later: nat, a: int, b: int)
    requires earlier <= later && Unvisited(order, later, a, b)
    ensures Unvisited(order, earlier, a, b)
  {
  }

  /** From one level to the next. */
  lemma RunInNextLevel(n: nat, order: seq<int>, queues: seq<seq<Interval>>, k: nat, a: int, b: int)
    requires IsWholeRun(n, order, queues) && Unvisited(order, Start(n, k + 1), a, b)
    requires a <= b && Holds(Level(n, k), a, b)
    ensures Holds(Level(n, k + 1), a, b)
  {
    LevelBegins(n, order, queues, k);
    RunPastLevel(n, order, queues, Start(n, k), Level(n, k), a, b);
  }

  lemma {:induction false} RunInLevel(n: nat, order: seq<int>, queues: seq<seq<Interval>>, k: nat, a: int, b: int)
    requires IsWholeRun(n, order, queues) && Unvisited(order, Start(n, k), a, b)
    requires 0 <= a <= b < n
    ensures Holds(Level(n, k), a, b)
  {
    if k == 0 {
      assert Level(n, 0)[0] == Interval(0, n - 1);
    } else {
      UnvisitedBefore(order, Start(n, k - 1), Start(n, k), a, b);
      RunInLevel(n, order, queues, k - 1, a, b);
      RunInNextLevel(n, order, queues, k - 1, a, b);
    }
  }

  /**
   After the first 2^k - 1 visits (or all of them) no run of consecutive
   unvisited indices is longer than n / 2^k.
   */
  ghost predicate IsFair(n: nat, order: seq<int>) {
    forall k: nat, visits: nat, a: nat, b: nat ::
      Min(n, Pow2(k) - 1) <= visits && a <= b < n && Unvisited(order, visits, a, b) ==> b - a + 1 <= n / Pow2(k)
  }

  lemma NoLongGap(n: nat, order: seq<int>, queues: seq<seq<Interval>>, k: nat, visits: nat, a: nat, b: nat)
    requires IsWholeRun(n, order, queues)
    requires Start(n, k) <= visits && a <= b < n && Unvisited(order, visits, a, b)
    ensures b - a + 1 <= Halved(n, k)
  {
    LevelSize(n, k);
    RunInLevel(n, order, queues, k, a, b);
    var i :| 0 <= i < |Level(n, k)| && Level(n, k)[i].lo <= a && b <= Level(n, k)[i].hi;
    assert Width(Level(n, k)[i]) <= Halved(n, k);
  }

  lemma RunIsFair(n: nat, order: seq<int>, queues: seq<seq<Interval>>)
    requires IsWholeRun(n, order, queues)
    ensures IsFair(n, order)
  {
    QueueWidth(n, order, queues, |order|);
    forall k: nat, visits: nat, a: nat, b: nat |
      Min(n, Pow2(k) - 1) <= visits && a <= b < n && Unvisited(order, visits, a, b)
      ensures b - a + 1 <= n / Pow2(k)
    {
      LevelSize(n, k);
      LevelBegins(n, order, queues, k);
      NoLongGap(n, order, queues, k, visits, a, b);
      HalvedIsQuotient(n, k);
    }
  }

  // --------------------------------------------------------------- the loop

  lemma OneMoreTurn(n: int, order: seq<int>, queues: seq<seq<Interval>>, longer: seq<int>, queues': seq<seq<Interval>>)
    requires IsRun(n, order, queues) && queues[|order|] != []
    requires
      var q := queues[|order|];
      && longer == order + [Mid(q[0])]
      && queues' == queues + [Push(Push(q[1..], q[0].lo, Mid(q[0]) - 1), Mid(q[0]) + 1, q[0].hi)]
    ensures IsRun(n, longer, queues')
  {
    forall t | 0 <= t < |longer| ensures TurnAt(longer, queues', t) {
      assert t < |order| ==> TurnAt(order, queues, t);
    }
  }

  method BisectionOrder(n: int) returns (order: seq<int>, ghost queues: seq<seq<Interval>>)
    ensures IsPermutation(n, order) && IsFair(Max(0, n), order)
    ensures IsWholeRun(n, order, queues)
  {
    order, queues := [], [FirstQueue(n)];
    if n <= 0 {
      RunIsPermutation(0, order, queues);
      RunIsFair(0, order, queues);
      return;
    }
    var queue := [Interval(0, n - 1)];
    while queue != []
      invariant IsRun(n, order, queues) && queues[|order|] == queue
      decreases n - |order|
    {
      ghost var before, trace := order, queues;
      QueueWidth(n, order, queues, |order|);
      var x := queue[0];
      queue := queue[1..];
      var mid := Mid(x);
      order := order + [mid];
      queue := Push(queue, x.lo, mid - 1);
      queue := Push(queue, mid + 1, x.hi);
      queues := queues + [queue];
      OneMoreTurn(n, before, trace, order, queues);
    }
    RunIsPermutation(n, order, queues);
    RunIsFair(n, order, queues);
  }

  /** The order is a function of `n`: two runs visit the same indices at the same turns. */
  lemma {:induction false} RunsAgree(
    n: int, a: seq<int>, qa: seq<seq<Interval>>, b: seq<int>, qb: seq<seq<Interval>>, t: nat)
    requires IsRun(n, a, qa) && IsRun(n, b, qb) && t <= |a| && t <= |b|
    ensures a[..t] == b[..t] && qa[t] == qb[t]
  {
    if t > 0 {
      RunsAgree(n, a, qa, b, qb, t - 1);
      assert TurnAt(a, qa, t - 1) && TurnAt(b, qb, t - 1);
      assert a[..t] == a[..t - 1] + [a[t - 1]] && b[..t] == b[..t - 1] + [b[t - 1]];
    }
  }

  /** Attach the fair position to each pair: the queue holds every pair once, in bisection order. */
  method OrderedPairs<T>(pairs: seq<T>) returns (queue: seq<T>, order: seq<int>)
    ensures IsPermutation(|pairs|, order) && IsFair(|pairs|, order)
    ensures |queue| == |pairs| && forall i :: 0 <= i < |queue| ==>
      0 <= order[i] < |pairs| && queue[i] == pairs[order[i]]
  {
    ghost var queues;
    order, queues := BisectionOrder(|pairs|);
    forall i | 0 <= i < |order| ensures 0 <= order[i] < |pairs| {
      assert order[i] in multiset(order);
    }
    queue := seq(|pairs|, i requires 0 <= i < |pairs| && 0 <= order[i] < |pairs| => pairs[order[i]]);
  }
}
