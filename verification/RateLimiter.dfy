/**
 The sliding-window rate limiter: one atomic Redis script per call over a sorted set
 whose scores are the callers' clock readings, shared by all nodes.

 A call carries two times: `stamp`, read from the clock of the calling node, and `at`,
 the moment Redis runs the script. Redis runs scripts one after another, so `at` never
 decreases; nothing is assumed of the stamps beyond what each theorem says.
 */
module RateLimiter {
  import opened Options

  /** `lapsed`: Redis finds that the key has expired when the script starts. */
  datatype Call = Call(at: int, stamp: int, limit: nat, member: nat, lapsed: bool)

  /** The sorted set of one key and its expiry; an empty sorted set does not exist in Redis. */
  datatype Window = Window(scores: map<nat, int>, expireAt: Option<int>)

  const Absent := Window(map[], None)

  datatype Outcome = Outcome(accepted: bool, window: Window)

  /** `ZREMRANGEBYSCORE key -inf cutoff`, on the set as it is when the script starts. */
  function Pruned(w: Window, c: Call, size: nat): (kept: map<nat, int>)
    ensures forall m :: m in kept <==> !c.lapsed && m in w.scores && w.scores[m] > c.stamp - size
    ensures forall m :: m in kept ==> kept[m] == w.scores[m]
  {
    if c.lapsed then map[] else map m | m in w.scores && w.scores[m] > c.stamp - size :: w.scores[m]
  }

  /** The script: prune, count, and add and renew the expiry if there is room. */
  function Hit(w: Window, c: Call, size: nat): Outcome {
    var kept := Pruned(w, c, size);
    if |kept| >= c.limit then
      Outcome(false, if kept == map[] then Absent else Window(kept, w.expireAt))
    else
      Outcome(true, Window(kept[c.member := c.stamp], Some(c.at + size)))
  }

  /** The key in Redis that all nodes share. */
  class SortedSet {
    var scores: map<nat, int>
    var expireAt: Option<int>

    function View(): Window
      reads this
    {
      Window(scores, expireAt)
    }

    constructor ()
      ensures View() == Absent
    {
      scores, expireAt := map[], None;
    }

    /** `hit_window`. */
    method HitWindow(c: Call, size: nat) returns (allowed: bool)
      modifies this
      ensures Outcome(allowed, View()) == Hit(old(View()), c, size)
    {
      if c.lapsed {
        scores, expireAt := map[], None;
      }
      var cutoff := c.stamp - size;
      scores := map m | m in scores && scores[m] > cutoff :: scores[m];
      assert scores == Pruned(old(View()), c, size);
      if scores == map[] {
        expireAt := None;
      }
      if |scores| >= c.limit {
        return false;
      }
      scores := scores[c.member := c.stamp];
      expireAt := Some(c.at + size);
      return true;
    }
  }

  // ---------------------------------------------------------------- runs

  /** `ws[i]` is the key before call `i`. Redis may drop the key once its expiry is reached, not earlier. */
  ghost predicate Run(ws: seq<Window>, calls: seq<Call>, size: nat) {
    && |ws| == |calls| + 1
    && ws[0] == Absent
    && (forall i :: 0 <= i < |calls| ==> ws[i + 1] == Hit(ws[i], calls[i], size).window)
    && (forall i :: 0 <= i < |calls| && calls[i].lapsed ==> ws[i].expireAt.Some? && ws[i].expireAt.value <= calls[i].at)
    && (forall i, j :: 0 <= i < j < |calls| ==> calls[i].at <= calls[j].at)
    && forall i, j :: 0 <= i < j < |calls| ==> calls[i].member != calls[j].member
  }

  ghost predicate Accepted(ws: seq<Window>, calls: seq<Call>, size: nat, i: nat) {
    |ws| == |calls| + 1 && i < |calls| && Hit(ws[i], calls[i], size).accepted
  }

  /** The accepted calls among the first `n` that ran in the real-time window (lo, hi]. */
  ghost function AcceptedIn(ws: seq<Window>, calls: seq<Call>, size: nat, n: nat, lo: int, hi: int): set<nat> {
    set i: nat | i < n && Accepted(ws, calls, size, i) && lo < calls[i].at <= hi
  }

  ghost function Members(calls: seq<Call>, ids: set<nat>): set<nat>
    requires forall i :: i in ids ==> i < |calls|
  {
    set i | i in ids :: calls[i].member
  }

  lemma {:induction false} MembersCount(calls: seq<Call>, ids: set<nat>)
    requires forall i :: i in ids ==> i < |calls|
    requires forall i, j :: 0 <= i < j < |calls| ==> calls[i].member != calls[j].member
    ensures |Members(calls, ids)| == |ids|
  {
    if ids != {} {
      var i :| i in ids;
      var rest := ids - {i};
      MembersCount(calls, rest);
      forall j | j in rest ensures calls[j].member != calls[i].member {
        assert if i < j then calls[i].member != calls[j].member else calls[j].member != calls[i].member;
      }
      assert calls[i].member !in Members(calls, rest);
      assert Members(calls, ids) == Members(calls, rest) + {calls[i].member};
    }
  }

  ghost function Below(n: nat): (r: set<nat>)
    ensures |r| == n && forall k: nat :: k in r <==> k < n
  {
    if n == 0 then {} else Below(n - 1) + {n - 1}
  }

  lemma SubsetCount(a: set<nat>, b: set<nat>)
    requires a <= b
    ensures |a| <= |b|
  {
    assert b == a + (b - a);
  }

  lemma {:induction false} Latest(ids: set<nat>) returns (last: nat)
    requires ids != {}
    ensures last in ids && forall i :: i in ids ==> i <= last
  {
    var i :| i in ids;
    if ids == {i} {
      return i;
    }
    var rest := ids - {i};
    assert ids == rest + {i};
    var j := Latest(rest);
    last := if i < j then j else i;
    assert forall k :: k in ids ==> k == i || k in rest;
  }

  /** Every call's stamp is within `skew` of the moment its script runs. */
  ghost predicate Skewed(calls: seq<Call>, skew: nat) {
    forall i :: 0 <= i < |calls| ==> calls[i].at - skew <= calls[i].stamp <= calls[i].at + skew
  }

  /** The entry of an accepted call stays until a call that runs `size - 2 * skew` later or more. */
  lemma {:induction false} Survives(ws: seq<Window>, calls: seq<Call>, size: nat, skew: nat, i: nat, j: nat)
    requires Run(ws, calls, size) && Skewed(calls, skew)
    requires i < j < |calls| && Accepted(ws, calls, size, i)
    requires calls[j].at < calls[i].at + size - 2 * skew
    ensures calls[i].member in Pruned(ws[j], calls[j], size)
    ensures Pruned(ws[j], calls[j], size)[calls[i].member] == calls[i].stamp
    ensures ws[j].expireAt.Some? && calls[i].at + size <= ws[j].expireAt.value
    decreases j
  {
    if i + 1 < j {
      Survives(ws, calls, size, skew, i, j - 1);
    }
  }

  /** Every entry was put there by an earlier accepted call. */
  lemma {:induction false} EntryProvenance(ws: seq<Window>, calls: seq<Call>, size: nat, j: nat, m: nat) returns (i: nat)
    requires Run(ws, calls, size) && j < |ws| && m in ws[j].scores
    ensures i < j && Accepted(ws, calls, size, i) && calls[i].member == m && ws[j].scores[m] == calls[i].stamp
  {
    assert j > 0;
    if calls[j - 1].member == m && Accepted(ws, calls, size, j - 1) {
      i := j - 1;
    } else {
      i := EntryProvenance(ws, calls, size, j - 1, m);
    }
  }

  // ---------------------------------------------------------------- the limit

  /**
   The limit under clock skew: no real-time window (x, x + size - 2 * skew] holds more than
   `limit` accepted calls, from however many nodes, pruning and key expiry included.
   */
  lemma LimitHolds(ws: seq<Window>, calls: seq<Call>, size: nat, skew: nat, limit: nat, x: int)
    requires Run(ws, calls, size) && Skewed(calls, skew)
    requires forall i :: 0 <= i < |calls| ==> calls[i].limit <= limit
    ensures |AcceptedIn(ws, calls, size, |calls|, x, x + size - 2 * skew)| <= limit
  {
    var ids := AcceptedIn(ws, calls, size, |calls|, x, x + size - 2 * skew);
    if ids != {} {
      var last := Latest(ids);
      var earlier := ids - {last};
      var kept := Pruned(ws[last], calls[last], size);
      forall i | i in earlier ensures calls[i].member in kept {
        Survives(ws, calls, size, skew, i, last);
      }
      MembersCount(calls, earlier);
      assert Members(calls, earlier) <= kept.Keys;
      SubsetCount(Members(calls, earlier), kept.Keys);
      assert |kept.Keys| == |kept|;
    }
  }

  /** A call of a node whose clock is `skew` behind. */
  function Early(limit: nat, skew: nat, k: nat): Call {
    Call(0, 0 - skew, limit, k, false)
  }

  ghost predicate EarlyRun(ws: seq<Window>, calls: seq<Call>, size: nat, skew: nat, limit: nat) {
    && Run(ws, calls, size) && |calls| <= limit
    && (forall i :: 0 <= i < |calls| ==> calls[i] == Early(limit, skew, i) && Accepted(ws, calls, size, i))
    && (forall m :: m in ws[|calls|].scores ==> m < |calls| && ws[|calls|].scores[m] == 0 - skew)
  }

  lemma FewEntries(w: Window, c: Call, size: nat, n: nat)
    requires forall m :: m in w.scores ==> m < n
    ensures |Pruned(w, c, size)| <= n
  {
    var kept := Pruned(w, c, size);
    assert kept.Keys <= Below(n);
    SubsetCount(kept.Keys, Below(n));
    assert |kept.Keys| == |kept|;
  }

  /** A run can go on with any call that comes no earlier and has a member of its own. */
  lemma RunGrows(ws: seq<Window>, calls: seq<Call>, size: nat, c: Call)
    requires Run(ws, calls, size) && !c.lapsed
    requires forall i :: 0 <= i < |calls| ==> calls[i].at <= c.at && calls[i].member != c.member
    ensures Run(ws + [Hit(ws[|calls|], c, size).window], calls + [c], size)
  {
  }

  /** As many calls as the limit allows, all at one moment, all accepted. */
  lemma {:induction false} EarlyCalls(size: nat, skew: nat, limit: nat, k: nat) returns (ws: seq<Window>, calls: seq<Call>)
    requires k <= limit
    ensures EarlyRun(ws, calls, size, skew, limit) && |calls| == k
  {
    if k == 0 {
      ws, calls := [Absent], [];
    } else {
      var before, some := EarlyCalls(size, skew, limit, k - 1);
      var c := Early(limit, skew, k - 1);
      FewEntries(before[k - 1], c, size, k - 1);
      RunGrows(before, some, size, c);
      ws, calls := before + [Hit(before[k - 1], c, size).window], some + [c];
      forall i | 0 <= i < k ensures calls[i] == Early(limit, skew, i) && Accepted(ws, calls, size, i) {
        assert i < k - 1 ==> Accepted(before, some, size, i);
      }
    }
  }

  lemma AllCounted(ws: seq<Window>, calls: seq<Call>, size: nat, lo: int, hi: int)
    requires |ws| == |calls| + 1
    requires forall i :: 0 <= i < |calls| ==> Accepted(ws, calls, size, i) && lo < calls[i].at <= hi
    ensures |AcceptedIn(ws, calls, size, |calls|, lo, hi)| == |calls|
  {
    assert AcceptedIn(ws, calls, size, |calls|, lo, hi) == Below(|calls|);
  }

  /** The call of a node whose clock is `skew` ahead, when the early entries have just left its window. */
  lemma LateCall(ws: seq<Window>, calls: seq<Call>, size: nat, skew: nat, limit: nat) returns (vs: seq<Window>, all: seq<Call>)
    requires EarlyRun(ws, calls, size, skew, limit) && |calls| == limit > 0 && size >= 2 * skew
    ensures Run(vs, all, size) && |all| == limit + 1
    ensures all == calls + [Call(size - 2 * skew, size - skew, limit, limit, false)]
    ensures forall i :: 0 <= i < |all| ==> Accepted(vs, all, size, i)
  {
    var c := Call(size - 2 * skew, size - skew, limit, limit, false);
    RunGrows(ws, calls, size, c);
    vs, all := ws + [Hit(ws[limit], c, size).window], calls + [c];
    assert Pruned(ws[limit], c, size) == map[];
    forall i | 0 <= i < |all| ensures Accepted(vs, all, size, i) {
      assert i < limit ==> Accepted(ws, calls, size, i);
    }
  }

  /** The bound is tight for every limit: a window one unit longer can hold one call more. */
  lemma SkewBoundIsTight(size: nat, skew: nat, limit: nat) returns (ws: seq<Window>, calls: seq<Call>)
    requires size >= 2 * skew && limit > 0
    ensures Run(ws, calls, size) && Skewed(calls, skew)
    ensures forall i :: 0 <= i < |calls| ==> calls[i].limit == limit
    ensures |AcceptedIn(ws, calls, size, |calls|, -1, -1 + (size - 2 * skew + 1))| == limit + 1
  {
    var before, some := EarlyCalls(size, skew, limit, limit);
    ws, calls := LateCall(before, some, size, skew, limit);
    AllCounted(ws, calls, size, -1, size - 2 * skew);
  }

  // ---------------------------------------------------------------- one clock: a plain history

  /**
   Each call is accepted exactly when fewer than its limit were accepted in (now - size, now]: with
   one clock the pruned set holds exactly those calls.
   */
  lemma RefinesHistory(ws: seq<Window>, calls: seq<Call>, size: nat, i: nat)
    requires Run(ws, calls, size) && Skewed(calls, 0) && i < |calls|
    ensures Accepted(ws, calls, size, i) <==>
            |AcceptedIn(ws, calls, size, i, calls[i].at - size, calls[i].at)| < calls[i].limit
  {
    var kept := Pruned(ws[i], calls[i], size);
    var ids := AcceptedIn(ws, calls, size, i, calls[i].at - size, calls[i].at);
    forall m | m in kept ensures m in Members(calls, ids) {
      var k := EntryProvenance(ws, calls, size, i, m);
      assert k in ids;
    }
    forall k | k in ids ensures calls[k].member in kept {
      Survives(ws, calls, size, 0, k, i);
    }
    assert kept.Keys == Members(calls, ids);
    MembersCount(calls, ids);
    assert |kept.Keys| == |kept|;
  }

  /** The same calls, whatever Redis does with the key expiry: for instance, never expiring it. */
  ghost predicate SameCalls(a: seq<Call>, b: seq<Call>) {
    |a| == |b| && forall i :: 0 <= i < |a| ==> a[i] == b[i].(lapsed := a[i].lapsed)
  }

  /** Key expiry changes no decision. */
  lemma {:induction false} ExpiryIrrelevant(ws: seq<Window>, a: seq<Call>, vs: seq<Window>, b: seq<Call>, size: nat, i: nat)
    requires Run(ws, a, size) && Run(vs, b, size) && SameCalls(a, b) && Skewed(a, 0) && i < |a|
    ensures Accepted(ws, a, size, i) <==> Accepted(vs, b, size, i)
  {
    var lo, hi := a[i].at - size, a[i].at;
    forall k: nat | k < i ensures Accepted(ws, a, size, k) <==> Accepted(vs, b, size, k) {
      ExpiryIrrelevant(ws, a, vs, b, size, k);
    }
    assert Skewed(b, 0);
    assert AcceptedIn(ws, a, size, i, lo, hi) == AcceptedIn(vs, b, size, i, lo, hi);
    RefinesHistory(ws, a, size, i);
    RefinesHistory(vs, b, size, i);
  }

  /** A burst within one window, on an empty key: exactly the first `limit` calls are accepted. */
  lemma {:induction false} BurstAcceptsExactly(ws: seq<Window>, calls: seq<Call>, size: nat, limit: nat, i: nat)
    requires Run(ws, calls, size) && Skewed(calls, 0) && i < |calls|
    requires forall k :: 0 <= k < |calls| ==> calls[k].limit == limit && calls[k].at < calls[0].at + size
    ensures Accepted(ws, calls, size, i) <==> i < limit
  {
    var ids := AcceptedIn(ws, calls, size, i, calls[i].at - size, calls[i].at);
    var n := if i < limit then i else limit;
    forall k: nat | k < i ensures k in ids <==> k < n {
      BurstAcceptsExactly(ws, calls, size, limit, k);
    }
    assert ids == Below(n);
    RefinesHistory(ws, calls, size, i);
  }

  lemma BurstCount(ws: seq<Window>, calls: seq<Call>, size: nat, limit: nat)
    requires Run(ws, calls, size) && Skewed(calls, 0) && calls != []
    requires forall k :: 0 <= k < |calls| ==> calls[k].limit == limit && calls[k].at < calls[0].at + size
    ensures var n := |calls|;
            |set k: nat | k < |calls| && Accepted(ws, calls, size, k)| == if n < limit then n else limit
  {
    var n := if |calls| < limit then |calls| else limit;
    forall k: nat | k < |calls| ensures Accepted(ws, calls, size, k) <==> k < limit {
      BurstAcceptsExactly(ws, calls, size, limit, k);
    }
    assert (set k: nat | k < |calls| && Accepted(ws, calls, size, k)) == Below(n);
  }
}
