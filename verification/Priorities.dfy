/** The absolute ordering of the threads: static priorities by (period, id). */
module Priorities {
  import opened Words
  import opened KernelState

  predicate IsLive(threads: seq<Tcb>, n: nat, i: int) {
    0 <= i < n && i < |threads| && threads[i].state != Defunct
  }

  function LiveSet(threads: seq<Tcb>, n: nat): (r: set<int>) {
    set i | 0 <= i < n && IsLive(threads, n, i)
  }

  /** Shorter period first, then smaller id. */
  predicate KeyLess(a: Tcb, b: Tcb) {
    a.t < b.t || (a.t == b.t && a.id < b.id)
  }

  function Before(threads: seq<Tcb>, n: nat, i: nat): (r: set<int>)
    requires i < |threads|
  {
    set j | 0 <= j < n && IsLive(threads, n, j) && KeyLess(threads[j], threads[i])
  }

  /** How many live threads come before thread i. */
  function Rank(threads: seq<Tcb>, n: nat, i: nat): (r: nat)
    requires i < |threads|
  {
    |Before(threads, n, i)|
  }

  ghost predicate DistinctIds(threads: seq<Tcb>, n: nat) {
    forall i, j :: IsLive(threads, n, i) && IsLive(threads, n, j) && i != j ==> threads[i].id != threads[j].id
  }

  /** No live thread has the pair the search starts from, which it would never select. */
  ghost predicate NoSentinel(threads: seq<Tcb>, n: nat) {
    forall i :: IsLive(threads, n, i) ==> !Sentinel(threads[i])
  }

  /** Live threads get their rank as static and dynamic priority, defunct ones MAX. */
  function Ranked(threads: seq<Tcb>, n: nat, i: nat): (r: Tcb)
    requires n <= |threads| && n <= MAX_NUM_THREADS && i < |threads|
  {
    if i >= n then threads[i]
    else
      RankBound(threads, n, i);
      var p := if IsLive(threads, n, i) then Rank(threads, n, i) else MAX;
      threads[i].(staticPrio := p, dynPrio := p)
  }

  function Order(threads: seq<Tcb>, n: nat): (r: seq<Tcb>)
    requires n <= |threads| && n <= MAX_NUM_THREADS
    ensures |r| == |threads|
    ensures forall i :: 0 <= i < |threads| ==> r[i] == Ranked(threads, n, i)
  {
    seq(|threads|, i requires 0 <= i < |threads| => Ranked(threads, n, i))
  }

  // ----- cardinalities

  function Upto(n: nat): (r: set<int>)
    ensures forall i :: i in r <==> 0 <= i < n
  {
    if n == 0 then {} else Upto(n - 1) + {n - 1}
  }

  lemma {:induction false} UptoSize(n: nat)
    ensures |Upto(n)| == n
  {
    if n == 0 {
    } else {
      UptoSize(n - 1);
    }
  }

  lemma {:induction false} SubsetSize<T>(a: set<T>, b: set<T>)
    requires a <= b
    ensures |a| <= |b|
    ensures a != b ==> |a| < |b|
  {
    if a == {} {
    } else {
      var x :| x in a;
      SubsetSize(a - {x}, b - {x});
    }
  }

  lemma Pick<T>(a: set<T>) returns (x: T)
    requires a != {}
    ensures x in a
  {
    x :| x in a;
  }

  lemma RankBound(threads: seq<Tcb>, n: nat, i: nat)
    requires i < |threads|
    ensures Rank(threads, n, i) <= n
  {
    UptoSize(n);
    SubsetSize(Before(threads, n, i), Upto(n));
  }

  lemma LiveBound(threads: seq<Tcb>, n: nat)
    ensures |LiveSet(threads, n)| <= n
  {
    UptoSize(n);
    SubsetSize(LiveSet(threads, n), Upto(n));
  }

  /** Filling a defunct slot adds one live thread. */
  lemma LiveSetAdd(threads: seq<Tcb>, n: nat, slot: nat, th: Tcb)
    requires slot < n <= |threads| && threads[slot].state == Defunct && th.state != Defunct
    ensures var r := threads[slot := th];
            && LiveSet(r, n) == LiveSet(threads, n) + {slot}
            && |LiveSet(r, n)| == |LiveSet(threads, n)| + 1 <= n
  {
    var r := threads[slot := th];
    forall i: int ensures i in LiveSet(r, n) <==> i in LiveSet(threads, n) || i == slot {}
    assert LiveSet(r, n) == LiveSet(threads, n) + {slot};
    LiveBound(r, n);
  }

  // ----- ranks order the live threads

  /** An earlier thread has a strictly smaller rank. */
  lemma RankMonotone(threads: seq<Tcb>, n: nat, i: nat, j: nat)
    requires IsLive(threads, n, i) && IsLive(threads, n, j) && KeyLess(threads[i], threads[j])
    ensures Rank(threads, n, i) < Rank(threads, n, j)
  {
    assert i in Before(threads, n, j) && i !in Before(threads, n, i);
    SubsetSize(Before(threads, n, i), Before(threads, n, j));
  }

  /** Ranks run below the number of live threads. */
  lemma RankBelowLive(threads: seq<Tcb>, n: nat, i: nat)
    requires IsLive(threads, n, i)
    ensures Rank(threads, n, i) < |LiveSet(threads, n)|
  {
    assert i in LiveSet(threads, n) && i !in Before(threads, n, i);
    SubsetSize(Before(threads, n, i), LiveSet(threads, n));
  }

  function RankedBelow(threads: seq<Tcb>, n: nat, k: nat): (r: set<int>) {
    set i | 0 <= i < n && IsLive(threads, n, i) && Rank(threads, n, i) < k
  }

  /** A thread that comes before all others of rank k or more has rank exactly k. */
  lemma LeastOfRestHasRank(threads: seq<Tcb>, n: nat, k: nat, m: nat)
    requires DistinctIds(threads, n)
    requires |RankedBelow(threads, n, k)| == k
    requires IsLive(threads, n, m) && k <= Rank(threads, n, m)
    requires forall j :: IsLive(threads, n, j) && k <= Rank(threads, n, j) && j != m ==> KeyLess(threads[m], threads[j])
    ensures Rank(threads, n, m) == k
    ensures |RankedBelow(threads, n, k + 1)| == k + 1
  {
    var s := RankedBelow(threads, n, k);
    forall j | j in s ensures j in Before(threads, n, m) {
      if !KeyLess(threads[j], threads[m]) { RankMonotone(threads, n, m, j); }
    }
    assert s == Before(threads, n, m);
    forall j | j in RankedBelow(threads, n, k + 1) ensures j in s + {m} {
      if j != m && k <= Rank(threads, n, j) { RankMonotone(threads, n, m, j); }
    }
    assert RankedBelow(threads, n, k + 1) == s + {m};
  }

  /** The first live thread in key order among a non-empty set of live threads. */
  lemma {:induction false} Least(threads: seq<Tcb>, n: nat, s: set<int>) returns (m: int)
    requires s != {} && DistinctIds(threads, n)
    requires forall i :: i in s ==> IsLive(threads, n, i)
    ensures m in s && forall j :: j in s && j != m ==> KeyLess(threads[m], threads[j])
    decreases |s|
  {
    var x := Pick(s);
    if s == {x} {
      m := x;
    } else {
      var y := Least(threads, n, s - {x});
      m := if KeyLess(threads[x], threads[y]) then x else y;
    }
  }

  /** Exactly k live threads have rank below k, for every k up to their number. */
  lemma {:induction false} RanksFill(threads: seq<Tcb>, n: nat, k: nat)
    requires DistinctIds(threads, n) && k <= |LiveSet(threads, n)|
    ensures |RankedBelow(threads, n, k)| == k
  {
    if k == 0 {
      assert RankedBelow(threads, n, 0) == {};
    } else {
      RanksFill(threads, n, k - 1);
      var m := NextRanked(threads, n, k - 1);
    }
  }

  lemma NextRanked(threads: seq<Tcb>, n: nat, k: nat) returns (m: nat)
    requires DistinctIds(threads, n) && k < |LiveSet(threads, n)|
    requires |RankedBelow(threads, n, k)| == k
    ensures IsLive(threads, n, m) && Rank(threads, n, m) == k
    ensures |RankedBelow(threads, n, k + 1)| == k + 1
  {
    var rest := LiveSet(threads, n) - RankedBelow(threads, n, k);
    assert LiveSet(threads, n) <= RankedBelow(threads, n, k) + rest;
    if rest == {} { SubsetSize(LiveSet(threads, n), RankedBelow(threads, n, k)); }
    m := Least(threads, n, rest);
    LeastOfRestHasRank(threads, n, k, m);
  }

  /** Every rank below the number of live threads is taken. */
  lemma RankTaken(threads: seq<Tcb>, n: nat, k: nat)
    requires DistinctIds(threads, n) && k < |LiveSet(threads, n)|
    ensures exists i: nat :: IsLive(threads, n, i) && Rank(threads, n, i) == k
  {
    RanksFill(threads, n, k);
    var m := NextRanked(threads, n, k);
  }

  /** Some live thread has static priority k. */
  ghost predicate Taken(threads: seq<Tcb>, n: nat, k: nat) {
    exists i: nat :: IsLive(threads, n, i) && threads[i].staticPrio == k
  }

  /** The ordering is a bijection of the live threads onto 0..count-1, strictly by (period, id). */
  lemma OrderIsBijection(threads: seq<Tcb>, n: nat)
    requires n <= |threads| && n <= MAX_NUM_THREADS && DistinctIds(threads, n)
    ensures var r := Order(threads, n); var count := |LiveSet(threads, n)|;
            && (forall i :: IsLive(threads, n, i) ==> r[i].staticPrio < count && r[i].dynPrio == r[i].staticPrio)
            && (forall i, j :: IsLive(threads, n, i) && IsLive(threads, n, j) ==>
                  (r[i].staticPrio < r[j].staticPrio <==> KeyLess(threads[i], threads[j])))
            && (forall i, j :: IsLive(threads, n, i) && IsLive(threads, n, j) && i != j ==>
                  r[i].staticPrio != r[j].staticPrio)
            && (forall k :: 0 <= k < count ==> Taken(r, n, k))
            && (forall i :: 0 <= i < n && !IsLive(threads, n, i) ==> r[i].staticPrio == MAX && r[i].dynPrio == MAX)
  {
    var r := Order(threads, n);
    forall i | IsLive(threads, n, i) ensures r[i].staticPrio < |LiveSet(threads, n)| {
      RankBelowLive(threads, n, i);
    }
    forall i, j | IsLive(threads, n, i) && IsLive(threads, n, j) && i != j
      ensures r[i].staticPrio != r[j].staticPrio
      ensures r[i].staticPrio < r[j].staticPrio <==> KeyLess(threads[i], threads[j])
    {
      if KeyLess(threads[i], threads[j]) { RankMonotone(threads, n, i, j); } else { RankMonotone(threads, n, j, i); }
    }
    forall k | 0 <= k < |LiveSet(threads, n)| ensures Taken(r, n, k) {
      RankTaken(threads, n, k);
      var i: nat :| IsLive(threads, n, i) && Rank(threads, n, i) == k;
      assert IsLive(r, n, i);
    }
  }

  /** The pair that the priority search starts from. */
  predicate Sentinel(th: Tcb) { th.t == MAX && th.id == MAX }

  /** Round k of the search starts from the pair (MAX, MAX), so it finds a thread only if some thread not yet
      ranked comes before that pair. */
  ghost predicate RoundFinds(threads: seq<Tcb>, n: nat, k: nat) {
    exists i: nat :: IsLive(threads, n, i) && k <= Rank(threads, n, i) && !Sentinel(threads[i])
  }

  /** Every round finds a thread, and so stays inside the thread table, exactly when no live thread has the
      pair itself. */
  lemma SearchSucceedsIff(threads: seq<Tcb>, n: nat)
    requires n <= |threads| && DistinctIds(threads, n)
    ensures (forall k: nat :: k < |LiveSet(threads, n)| ==> RoundFinds(threads, n, k)) <==> NoSentinel(threads, n)
  {
    if NoSentinel(threads, n) {
      forall k: nat | k < |LiveSet(threads, n)| ensures RoundFinds(threads, n, k) {
        RankTaken(threads, n, k);
        var i: nat :| IsLive(threads, n, i) && Rank(threads, n, i) == k;
      }
    } else {
      var s: int :| IsLive(threads, n, s) && Sentinel(threads[s]);
      SentinelIsLast(threads, n, s);
    }
  }

  lemma SentinelIsLast(threads: seq<Tcb>, n: nat, s: nat)
    requires DistinctIds(threads, n)
    requires IsLive(threads, n, s) && Sentinel(threads[s])
    ensures exists k: nat :: k < |LiveSet(threads, n)| && !RoundFinds(threads, n, k)
  {
    RankBelowLive(threads, n, s);
    var k := Rank(threads, n, s);
    forall i: nat | IsLive(threads, n, i) && k <= Rank(threads, n, i)
      ensures Sentinel(threads[i])
    {
      if KeyLess(threads[i], threads[s]) { RankMonotone(threads, n, i, s); }
    }
    assert !RoundFinds(threads, n, k);
  }

  // ----- the progress of the priority assignment

  predicate Unassigned(th: Tcb) {
    th.staticPrio == MAX && th.state != Defunct
  }

  /** The static priority of thread i once ranks below k have been given out. */
  function PrioBelow(threads: seq<Tcb>, n: nat, i: nat, k: nat): (r: Word)
    requires i < |threads| && n <= MAX_NUM_THREADS
  {
    RankBound(threads, n, i);
    if IsLive(threads, n, i) && Rank(threads, n, i) < k then Rank(threads, n, i) else MAX
  }

  function Assigned(threads: seq<Tcb>, n: nat, i: nat, k: nat): (r: Tcb)
    requires i < |threads| && n <= MAX_NUM_THREADS
  {
    threads[i].(staticPrio := PrioBelow(threads, n, i, k), dynPrio := PrioBelow(threads, n, i, k))
  }

  /** Ranks depend only on liveness, period and id. */
  lemma RankSame(a: seq<Tcb>, b: seq<Tcb>, n: nat, i: nat)
    requires n <= |a| == |b| && i < |a|
    requires forall j :: 0 <= j < |a| ==> a[j].state == b[j].state && a[j].t == b[j].t && a[j].id == b[j].id
    ensures LiveSet(a, n) == LiveSet(b, n) && Before(a, n, i) == Before(b, n, i)
    ensures forall j :: IsLive(a, n, j) == IsLive(b, n, j)
  {
  }

  /** The partly assigned table describes itself as well as it describes the table it came from. */
  lemma AssignedSame(was: seq<Tcb>, now: seq<Tcb>, n: nat, k: nat)
    requires n <= |was| == |now| && n <= MAX_NUM_THREADS
    requires forall j :: 0 <= j < n ==> now[j] == Assigned(was, n, j, k)
    requires forall j :: n <= j < |was| ==> now[j] == was[j]
    ensures LiveSet(was, n) == LiveSet(now, n)
    ensures forall i :: 0 <= i < n ==> Rank(was, n, i) == Rank(now, n, i)
    ensures forall i :: 0 <= i < n ==> now[i].staticPrio == PrioBelow(now, n, i, k)
    ensures DistinctIds(was, n) ==> DistinctIds(now, n)
    ensures NoSentinel(was, n) ==> NoSentinel(now, n)
  {
    forall i | 0 <= i < n
      ensures Rank(was, n, i) == Rank(now, n, i) && now[i].staticPrio == PrioBelow(now, n, i, k)
      ensures LiveSet(was, n) == LiveSet(now, n)
    {
      RankSame(was, now, n, i);
    }
    assert forall j: int :: IsLive(was, n, j) == IsLive(now, n, j);
  }

  /** The search result has the next rank. */
  lemma FirstUnassigned(threads: seq<Tcb>, n: nat, k: nat, best: nat)
    requires n <= |threads| && n <= MAX_NUM_THREADS && k < |LiveSet(threads, n)| && DistinctIds(threads, n)
    requires forall i :: 0 <= i < n ==> threads[i].staticPrio == PrioBelow(threads, n, i, k)
    requires best == n ==> forall j :: 0 <= j < n ==> !Unassigned(threads[j])
    requires best != n ==> best < n && Unassigned(threads[best])
    requires best != n ==> forall j :: 0 <= j < n && j != best && Unassigned(threads[j]) ==>
               KeyLess(threads[best], threads[j])
    ensures IsLive(threads, n, best) && Rank(threads, n, best) == k
  {
    forall i | 0 <= i < n ensures Unassigned(threads[i]) <==> IsLive(threads, n, i) && k <= Rank(threads, n, i) {
      RankBound(threads, n, i);
    }
    RankTaken(threads, n, k);
    var m: nat :| IsLive(threads, n, m) && Rank(threads, n, m) == k;
    assert Unassigned(threads[m]);
    RanksFill(threads, n, k);
    LeastOfRestHasRank(threads, n, k, best);
  }

  /** Giving rank k to the thread that has it is one step of the assignment. */
  lemma AssignedStep(was: seq<Tcb>, n: nat, k: nat, best: nat)
    requires n <= |was| && n <= MAX_NUM_THREADS && DistinctIds(was, n)
    requires IsLive(was, n, best) && Rank(was, n, best) == k
    ensures forall j :: 0 <= j < n ==>
              Assigned(was, n, j, k + 1) ==
                if j == best then was[j].(staticPrio := k, dynPrio := k) else Assigned(was, n, j, k)
  {
    forall j | 0 <= j < n && j != best && IsLive(was, n, j) ensures Rank(was, n, j) != k {
      if KeyLess(was[j], was[best]) { RankMonotone(was, n, j, best); } else { RankMonotone(was, n, best, j); }
    }
    RankBound(was, n, best);
  }

  lemma AllAssigned(was: seq<Tcb>, now: seq<Tcb>, n: nat)
    requires n <= |was| == |now| && n <= MAX_NUM_THREADS
    requires forall j :: 0 <= j < n ==> now[j] == Assigned(was, n, j, |LiveSet(was, n)|)
    requires forall j :: n <= j < |was| ==> now[j] == was[j]
    ensures now == Order(was, n)
  {
    forall j | 0 <= j < |was| ensures now[j] == Ranked(was, n, j) {
      if IsLive(was, n, j) { RankBelowLive(was, n, j); }
    }
  }

  lemma UnassignedIsUnranked(threads: seq<Tcb>, n: nat, k: nat, i: nat)
    requires n <= |threads| && n <= MAX_NUM_THREADS && i < n
    requires threads[i].staticPrio == PrioBelow(threads, n, i, k)
    ensures Unassigned(threads[i]) <==> IsLive(threads, n, i) && k <= Rank(threads, n, i)
  {
    RankBound(threads, n, i);
  }

  /** What the result of one search says. */
  lemma SearchEnds(threads: seq<Tcb>, n: nat, k: nat, best: nat)
    requires n <= |threads| && n <= MAX_NUM_THREADS && k < |LiveSet(threads, n)| && DistinctIds(threads, n)
    requires forall i :: 0 <= i < n ==> threads[i].staticPrio == PrioBelow(threads, n, i, k)
    requires best == n ==> forall j :: 0 <= j < n && Unassigned(threads[j]) ==> Sentinel(threads[j])
    requires best != n ==> best < n && Unassigned(threads[best]) && !Sentinel(threads[best])
    requires best != n ==> forall j :: 0 <= j < n && j != best && Unassigned(threads[j]) ==>
               KeyLess(threads[best], threads[j])
    ensures best == n <==> !RoundFinds(threads, n, k)
    ensures best != n ==> IsLive(threads, n, best) && Rank(threads, n, best) == k
  {
    if best == n {
      forall i: nat | IsLive(threads, n, i) && k <= Rank(threads, n, i) ensures Sentinel(threads[i]) {
        UnassignedIsUnranked(threads, n, k, i);
      }
    } else {
      UnassignedIsUnranked(threads, n, k, best);
      FirstUnassigned(threads, n, k, best);
    }
  }

  lemma RoundFindsSame(was: seq<Tcb>, now: seq<Tcb>, n: nat, k: nat)
    requires n <= |was| == |now| && n <= MAX_NUM_THREADS
    requires forall j :: 0 <= j < n ==> now[j] == Assigned(was, n, j, k)
    requires forall i :: 0 <= i < n ==> Rank(was, n, i) == Rank(now, n, i)
    ensures RoundFinds(now, n, k) <==> RoundFinds(was, n, k)
  {
    forall i: nat
      ensures IsLive(now, n, i) && k <= Rank(now, n, i) && !Sentinel(now[i]) <==>
                IsLive(was, n, i) && k <= Rank(was, n, i) && !Sentinel(was[i])
    {
    }
  }
}
