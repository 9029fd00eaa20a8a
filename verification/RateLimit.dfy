/** The sliding-window log limiter of src/masova_agent/runtime/rate_limit.py.
    Times are seconds as reals. Every request comes with the budget of its tier. */
module RateLimit {

  const WINDOW_SECONDS := 60.0

  datatype Tier = Ai | Read | Default | Exempt

  datatype RateResult = RateResult(allowed: bool, limit: int, remaining: int, resetSeconds: int, retryAfter: int)

  function Max(a: int, b: int): int { if a < b then b else a }

  function ScopedKey(key: string, tier: Tier): string {
    match tier
    case Ai => key + ":" + "ai"
    case Read => key + ":" + "read"
    case Exempt => key + ":" + "exempt"
    case Default => key
  }

  // ---- one queue ----

  /** Drop the admissions that left the window. */
  function Expire(q: seq<real>, now: real): seq<real> {
    if q != [] && now - q[0] >= WINDOW_SECONDS then Expire(q[1..], now) else q
  }

  /** Whole seconds, at least one, until `oldest` leaves the window; the fraction is cut off. */
  function SecondsLeft(oldest: real, now: real): int {
    Max(1, Truncate(WINDOW_SECONDS - (now - oldest)))
  }

  /** Conversion to int cuts toward zero. */
  function Truncate(x: real): int {
    if x >= 0.0 then x.Floor else -((-x).Floor)
  }

  predicate Admits(q: seq<real>, budget: int, now: real) {
    |Expire(q, now)| < budget
  }

  function NextQueue(q: seq<real>, budget: int, now: real): seq<real> {
    if Admits(q, budget, now) then Expire(q, now) + [now] else Expire(q, now)
  }

  function Answer(q: seq<real>, budget: int, now: real): RateResult
    requires budget >= 1
  {
    var live := Expire(q, now);
    if |live| < budget then
      RateResult(true, budget, Max(0, budget - |live| - 1), SecondsLeft((live + [now])[0], now), 0)
    else
      RateResult(false, budget, 0, SecondsLeft(live[0], now), SecondsLeft(live[0], now))
  }

  class RateLimiter {
    var hits: map<string, seq<real>>

    constructor ()
      ensures hits == map[]
    {
      hits := map[];
    }

    function Queue(k: string): seq<real>
      reads this
    {
      if k in hits then hits[k] else []
    }

    method CheckRateLimit(key: string, tier: Tier, budget: int, disabled: bool, now: real) returns (r: RateResult)
      requires budget >= 1
      modifies this
      ensures disabled || tier == Exempt ==> r == RateResult(true, 10000, 10000, 0, 0) && hits == old(hits)
      ensures !disabled && tier != Exempt ==>
                var k, q := ScopedKey(key, tier), old(Queue(ScopedKey(key, tier)));
                && r == Answer(q, budget, now)
                && hits == old(hits)[k := NextQueue(q, budget, now)]
    {
      if disabled || tier == Exempt {
        return RateResult(true, 10000, 10000, 0, 0);
      }
      var k := ScopedKey(key, tier);
      var q := Queue(k);
      ghost var q0 := q;
      while q != [] && now - q[0] >= WINDOW_SECONDS
        invariant Expire(q, now) == Expire(q0, now)
        decreases |q|
      {
        q := q[1..];
      }
      if |q| >= budget {
        var retryAfter := SecondsLeft(q[0], now);
        hits := hits[k := q];
        return RateResult(false, budget, 0, retryAfter, retryAfter);
      }
      q := q + [now];
      hits := hits[k := q];
      r := RateResult(true, budget, Max(0, budget - |q|), SecondsLeft(q[0], now), 0);
    }
  }

  // ---- runs over many keys ----

  /** A request of a scoped key, and the budget of its tier. */
  datatype Request = Request(key: string, now: real, budget: nat)

  ghost predicate Ordered(s: seq<real>) {
    forall i, j :: 0 <= i < j < |s| ==> s[i] <= s[j]
  }

  /** No request of the key has a budget above `most`; all have one of at least one. */
  ghost predicate BudgetsWithin(reqs: seq<Request>, k: string, most: nat) {
    forall i :: 0 <= i < |reqs| && reqs[i].key == k ==> 1 <= reqs[i].budget <= most
  }

  ghost predicate ClockNeverGoesBack(reqs: seq<Request>) {
    forall i, j :: 0 <= i < j < |reqs| ==> reqs[i].now <= reqs[j].now
  }

  /** The queue of one scoped key after a run of requests of any keys. */
  ghost function QueueAfter(reqs: seq<Request>, k: string): seq<real> {
    if reqs == [] then []
    else
      var last, q := reqs[|reqs| - 1], QueueAfter(reqs[..|reqs| - 1], k);
      if last.key == k then NextQueue(q, last.budget, last.now) else q
  }

  /** The times at which requests of the key were admitted during the run. */
  ghost function Admitted(reqs: seq<Request>, k: string): seq<real> {
    if reqs == [] then []
    else
      var front, last := reqs[..|reqs| - 1], reqs[|reqs| - 1];
      var a := Admitted(front, k);
      if last.key == k && Admits(QueueAfter(front, k), last.budget, last.now) then a + [last.now] else a
  }

  /** The admissions of `a` that lie in the window (t - 60, t]. */
  ghost function InWindow(a: seq<real>, t: real): seq<real> {
    InWindowTo(a, t, |a|)
  }

  ghost function InWindowTo(a: seq<real>, t: real, n: nat): seq<real>
    requires n <= |a|
  {
    if n == 0 then []
    else InWindowTo(a, t, n - 1) + if t - WINDOW_SECONDS < a[n - 1] <= t then [a[n - 1]] else []
  }

  ghost predicate ExpirePoint(q: seq<real>, now: real, n: nat) {
    && n <= |q|
    && Expire(q, now) == q[n..]
    && (forall i :: 0 <= i < n ==> now - q[i] >= WINDOW_SECONDS)
    && (n < |q| ==> now - q[n] < WINDOW_SECONDS)
  }

  lemma {:induction false} ExpireDropsPrefix(q: seq<real>, now: real) returns (n: nat)
    ensures ExpirePoint(q, now, n)
  {
    if q != [] && now - q[0] >= WINDOW_SECONDS {
      var m := ExpireDropsPrefix(q[1..], now);
      n := m + 1;
      assert q[1..][m..] == q[n..];
    } else {
      n := 0;
    }
  }

  ghost predicate Suffix(q: seq<real>, a: seq<real>) {
    |q| <= |a| && q == a[|a| - |q|..]
  }

  ghost predicate AllBy(a: seq<real>, now: real) {
    forall i :: 0 <= i < |a| ==> a[i] <= now
  }

  /** The first `n` admissions left the window by `now`. */
  ghost predicate Gone(a: seq<real>, n: int, now: real) {
    forall i :: 0 <= i < n && i < |a| ==> now - a[i] >= WINDOW_SECONDS
  }

  /** An admission is at least a window later than the one `budget` places before it. */
  ghost predicate Spaced(a: seq<real>, budget: nat) {
    forall i: nat, j: nat :: j == i + budget && j < |a| ==> a[j] - a[i] >= WINDOW_SECONDS
  }

  /** What holds after every run, `now` being a time not before its last request. */
  ghost predicate LogInvariant(q: seq<real>, a: seq<real>, budget: nat, now: real) {
    && Ordered(a) && AllBy(a, now)
    && Suffix(q, a) && |q| <= budget
    && Gone(a, |a| - |q|, now)
    && Spaced(a, budget)
  }

  lemma ExpireKeepsInvariant(q: seq<real>, a: seq<real>, budget: nat, before: real, now: real)
    requires before <= now && LogInvariant(q, a, budget, before)
    ensures LogInvariant(Expire(q, now), a, budget, now)
  {
    var n := ExpireDropsPrefix(q, now);
    var live := q[n..];
    assert live == a[|a| - |live|..];
    forall i | 0 <= i < |a| - |live| ensures now - a[i] >= WINDOW_SECONDS {
      if i >= |a| - |q| {
        assert a[i] == q[i - (|a| - |q|)];
      }
    }
  }

  lemma AdmitKeepsInvariant(live: seq<real>, a: seq<real>, most: nat, now: real)
    requires LogInvariant(live, a, most, now) && |live| < most
    ensures LogInvariant(live + [now], a + [now], most, now)
  {
    assert Suffix(live + [now], a + [now]);
    var n := |a| - most;
    assert 0 <= n ==> now - a[n] >= WINDOW_SECONDS;
  }

  lemma {:induction false} RunInvariant(reqs: seq<Request>, k: string, most: nat, now: real)
    requires BudgetsWithin(reqs, k, most) && ClockNeverGoesBack(reqs)
    requires reqs != [] ==> reqs[|reqs| - 1].now <= now
    ensures LogInvariant(QueueAfter(reqs, k), Admitted(reqs, k), most, now)
  {
    if reqs != [] {
      var front, last := reqs[..|reqs| - 1], reqs[|reqs| - 1];
      var q, a := QueueAfter(front, k), Admitted(front, k);
      RunInvariant(front, k, most, last.now);
      if last.key == k {
        ExpireKeepsInvariant(q, a, most, last.now, last.now);
        if Admits(q, last.budget, last.now) {
          AdmitKeepsInvariant(Expire(q, last.now), a, most, last.now);
        }
      }
    }
  }

  // ---- the bound ----

  /** The stretch of an ordered list that lies in the window (t - 60, t]. */
  ghost predicate Stretch(a: seq<real>, t: real, lo: int, hi: int) {
    && 0 <= lo <= hi <= |a|
    && (forall i :: 0 <= i < lo ==> a[i] <= t - WINDOW_SECONDS)
    && (forall i :: lo <= i < hi ==> t - WINDOW_SECONDS < a[i] <= t)
    && (forall i :: hi <= i < |a| ==> a[i] > t)
  }

  lemma {:induction false} FirstAbove(a: seq<real>, t: real) returns (n: nat)
    requires Ordered(a)
    ensures n <= |a|
    ensures forall i :: 0 <= i < n ==> a[i] <= t
    ensures forall i :: n <= i < |a| ==> a[i] > t
  {
    n := |a|;
    if a != [] && a[|a| - 1] > t {
      n := FirstAbove(a[..|a| - 1], t);
    }
  }

  lemma {:induction false} NoneBefore(a: seq<real>, t: real, n: nat)
    requires n <= |a| && forall i :: 0 <= i < n ==> a[i] <= t - WINDOW_SECONDS
    ensures InWindowTo(a, t, n) == []
  {
    if n > 0 {
      NoneBefore(a, t, n - 1);
    }
  }

  lemma {:induction false} AllInside(a: seq<real>, t: real, lo: nat, n: nat)
    requires lo <= n <= |a| && InWindowTo(a, t, lo) == []
    requires forall i :: lo <= i < n ==> t - WINDOW_SECONDS < a[i] <= t
    ensures InWindowTo(a, t, n) == a[lo..n]
  {
    if n > lo {
      AllInside(a, t, lo, n - 1);
      assert a[lo..n] == a[lo..n - 1] + [a[n - 1]];
    }
  }

  lemma {:induction false} NoneAfter(a: seq<real>, t: real, hi: nat, n: nat)
    requires hi <= n <= |a| && forall i :: hi <= i < n ==> a[i] > t
    ensures InWindowTo(a, t, n) == InWindowTo(a, t, hi)
  {
    if n > hi {
      NoneAfter(a, t, hi, n - 1);
    }
  }

  lemma StretchIsWindow(a: seq<real>, t: real, lo: int, hi: int)
    requires Stretch(a, t, lo, hi)
    ensures InWindow(a, t) == a[lo..hi]
  {
    NoneBefore(a, t, lo);
    AllInside(a, t, lo, hi);
    NoneAfter(a, t, hi, |a|);
  }

  /** In an ordered list the part inside a window is one stretch. */
  lemma WindowIsStretch(a: seq<real>, t: real) returns (lo: nat, hi: nat)
    requires Ordered(a)
    ensures Stretch(a, t, lo, hi) && InWindow(a, t) == a[lo..hi]
  {
    lo := FirstAbove(a, t - WINDOW_SECONDS);
    hi := FirstAbove(a, t);
    assert lo < |a| ==> a[lo] > t - WINDOW_SECONDS;
    assert hi < |a| ==> a[hi] > t;
    assert lo <= hi;
    StretchIsWindow(a, t, lo, hi);
  }

  /** The sliding-window bound: at most `most` admissions of a scoped key in every interval
      (t - 60, t], whatever the time t and however the keys interleave, `most` being the
      largest budget a request of the key comes with. */
  lemma AtMostBudgetInEveryWindow(reqs: seq<Request>, k: string, most: nat, t: real)
    requires BudgetsWithin(reqs, k, most) && ClockNeverGoesBack(reqs)
    ensures |InWindow(Admitted(reqs, k), t)| <= most
  {
    var a := Admitted(reqs, k);
    RunInvariant(reqs, k, most, if reqs == [] then 0.0 else reqs[|reqs| - 1].now);
    var lo, hi := WindowIsStretch(a, t);
    assert lo + most < |a| ==> a[lo + most] - a[lo] >= WINDOW_SECONDS;
  }

  /** A client key that ends in a tier's suffix shares the queue of that tier of another
      client; both are then held to the larger of the two budgets. */
  lemma SharedQueue(a: string, b: string)
    ensures ScopedKey(a, Default) == ScopedKey(b, Ai) <==> a == b + ":ai"
    ensures ScopedKey(a, Default) == ScopedKey(b, Read) <==> a == b + ":read"
    ensures ScopedKey(a, Ai) != ScopedKey(b, Read)
  {
    var x, y := ScopedKey(a, Ai), ScopedKey(b, Read);
    assert x[|x| - 1] == 'i' && y[|y| - 1] == 'd';
    assert b + ":" + "ai" == b + ":ai" && b + ":" + "read" == b + ":read";
  }

  /** At a check the queue holds exactly the admitted history inside the window. The check is
      denied exactly if it has used up its budget there, which is then met exactly if no
      request of the key had a larger one. */
  lemma QueueIsWindowOfHistory(reqs: seq<Request>, k: string, most: nat, budget: nat, now: real)
    requires BudgetsWithin(reqs, k, most) && ClockNeverGoesBack(reqs)
    requires reqs != [] ==> reqs[|reqs| - 1].now <= now
    ensures var q, used := QueueAfter(reqs, k), InWindow(Admitted(reqs, k), now);
            && Expire(q, now) == used
            && (!Admits(q, budget, now) <==> |used| >= budget)
            && (most <= budget ==> (!Admits(q, budget, now) <==> |used| == budget))
  {
    var q, a := QueueAfter(reqs, k), Admitted(reqs, k);
    RunInvariant(reqs, k, most, if reqs == [] then now else reqs[|reqs| - 1].now);
    ExpireKeepsInvariant(q, a, most, if reqs == [] then now else reqs[|reqs| - 1].now, now);
    LiveIsWindow(q, a, most, now);
  }

  lemma LiveIsWindow(q: seq<real>, a: seq<real>, budget: nat, now: real)
    requires LogInvariant(Expire(q, now), a, budget, now)
    ensures Expire(q, now) == InWindow(a, now)
  {
    var n := ExpireDropsPrefix(q, now);
    var live := Expire(q, now);
    var lo, hi := WindowIsStretch(a, now);
    assert hi == |a|;
    var cut := |a| - |live|;
    assert cut < |a| ==> a[cut] == live[0] == q[n];
    assert lo < |a| ==> a[lo] > now - WINDOW_SECONDS;
    assert lo == cut;
  }

  // ---- what callers are told ----

  /** The answer to one more request of the key after a run. */
  ghost function Told(reqs: seq<Request>, k: string, budget: nat, now: real): RateResult
    requires budget >= 1
  {
    Answer(QueueAfter(reqs, k), budget, now)
  }

  /** A limiter that keeps every admission and counts: a request is granted if fewer than its
      budget were granted in the minute before it. */
  ghost function Granted(reqs: seq<Request>, k: string): seq<real> {
    if reqs == [] then []
    else
      var last, before := reqs[|reqs| - 1], Granted(reqs[..|reqs| - 1], k);
      if last.key == k && |InWindow(before, last.now)| < last.budget then before + [last.now] else before
  }

  /** The times of the requests of the key that were answered with `allowed`. */
  ghost function AnsweredYes(reqs: seq<Request>, k: string): seq<real>
    requires forall i :: 0 <= i < |reqs| && reqs[i].key == k ==> reqs[i].budget >= 1
  {
    if reqs == [] then []
    else
      var front, last := reqs[..|reqs| - 1], reqs[|reqs| - 1];
      AnsweredYes(front, k) + if last.key == k && Told(front, k, last.budget, last.now).allowed then [last.now] else []
  }

  /** The queue refines the count: the requests answered with `allowed` are exactly those a
      limiter grants that keeps the whole history, and they are the ones admitted. */
  lemma {:induction false} AnswersAreGrants(reqs: seq<Request>, k: string, most: nat)
    requires BudgetsWithin(reqs, k, most) && ClockNeverGoesBack(reqs)
    ensures AnsweredYes(reqs, k) == Granted(reqs, k) == Admitted(reqs, k)
  {
    if reqs != [] {
      var front, last := reqs[..|reqs| - 1], reqs[|reqs| - 1];
      AnswersAreGrants(front, k, most);
      if last.key == k {
        QueueIsWindowOfHistory(front, k, most, last.budget, last.now);
      }
    }
  }

  /** After every run the answer says yes exactly if fewer than the budget were granted in the
      last minute; it names the budget, and how many more requests it leaves. */
  lemma AnswerExactly(reqs: seq<Request>, k: string, most: nat, budget: nat, now: real)
    requires budget >= 1 && BudgetsWithin(reqs, k, most) && ClockNeverGoesBack(reqs)
    requires reqs != [] ==> reqs[|reqs| - 1].now <= now
    ensures var used, answer := |InWindow(Granted(reqs, k), now)|, Told(reqs, k, budget, now);
            && (answer.allowed <==> used < budget)
            && answer.limit == budget
            && answer.remaining == if used < budget then budget - used - 1 else 0
  {
    AnswersAreGrants(reqs, k, most);
    QueueIsWindowOfHistory(reqs, k, most, budget, now);
  }

  /** The reset is when the oldest request granted in the last minute, or this one, leaves the
      window: in whole seconds, one at least. A denied caller is told the same as its wait. */
  lemma ResetExactly(reqs: seq<Request>, k: string, most: nat, budget: nat, now: real)
    requires budget >= 1 && BudgetsWithin(reqs, k, most) && ClockNeverGoesBack(reqs)
    requires reqs != [] ==> reqs[|reqs| - 1].now <= now
    ensures var used, answer := InWindow(Granted(reqs, k), now), Told(reqs, k, budget, now);
            var left := if used == [] then 60.0 else 60.0 - (now - used[0]);
            && answer.retryAfter == (if answer.allowed then 0 else answer.resetSeconds)
            && (if left >= 1.0 then left - 1.0 < answer.resetSeconds as real <= left else answer.resetSeconds == 1)
  {
    AnswersAreGrants(reqs, k, most);
    QueueIsWindowOfHistory(reqs, k, most, budget, now);
  }

  /** So at most `most` requests of a key are answered with `allowed` in any minute. */
  lemma AtMostBudgetAllowed(reqs: seq<Request>, k: string, most: nat, t: real)
    requires BudgetsWithin(reqs, k, most) && ClockNeverGoesBack(reqs)
    ensures |InWindow(AnsweredYes(reqs, k), t)| <= most
  {
    AnswersAreGrants(reqs, k, most);
    AtMostBudgetInEveryWindow(reqs, k, most, t);
  }

  lemma SecondsInRange(oldest: real, now: real)
    requires 0.0 <= now - oldest < WINDOW_SECONDS
    ensures 1 <= SecondsLeft(oldest, now) <= 60
  {
  }

  /** After a run a denied caller is told to wait between one second and a minute. */
  lemma RetryAfterInRange(reqs: seq<Request>, k: string, most: nat, budget: nat, now: real)
    requires budget >= 1 && BudgetsWithin(reqs, k, most) && ClockNeverGoesBack(reqs)
    requires reqs != [] ==> reqs[|reqs| - 1].now <= now
    ensures var q := QueueAfter(reqs, k);
            && (!Admits(q, budget, now) ==> 1 <= Answer(q, budget, now).retryAfter <= 60)
            && 1 <= Answer(q, budget, now).resetSeconds <= 60
  {
    var q := QueueAfter(reqs, k);
    RunInvariant(reqs, k, most, now);
    var n := ExpireDropsPrefix(q, now);
    var live := Expire(q, now);
    if live != [] {
      assert live[0] == q[n] <= now;
      SecondsInRange(live[0], now);
    } else {
      SecondsInRange(now, now);
    }
  }

  /** Coming back exactly when told, with no other request of the key in between, succeeds
      exactly if no fraction of a second was cut off the remaining time (or less than a
      second remained). */
  lemma RetryExactlyThen(q: seq<real>, budget: int, now: real)
    requires budget >= 1 && Ordered(q) && (forall i :: 0 <= i < |q| ==> q[i] <= now)
    requires |q| <= budget && !Admits(q, budget, now)
    ensures var left := WINDOW_SECONDS - (now - q[0]);
            Admits(NextQueue(q, budget, now), budget, now + Answer(q, budget, now).retryAfter as real)
            <==> left <= 1.0 || left == left.Floor as real
  {
    var n := ExpireDropsPrefix(q, now);
    assert n == 0 && Expire(q, now) == q;
    var later := now + Answer(q, budget, now).retryAfter as real;
    var m := ExpireDropsPrefix(q, later);
  }

  /** A queue for which the advertised wait is too short. */
  lemma RetryCanBeTooEarly()
    ensures var q := [0.5];
            && Ordered(q) && !Admits(q, 1, 1.0) && Answer(q, 1, 1.0).retryAfter == 59
            && !Admits(NextQueue(q, 1, 1.0), 1, 1.0 + 59.0)
  {
    var q := [0.5];
    assert Expire(q, 1.0) == q;
    assert Expire(q, 60.0) == q;
    assert (59.5).Floor == 59;
  }
}
