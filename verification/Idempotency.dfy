/** The claim table of src/masova_agent/runtime/idempotency.py. Times are seconds as reals. */
module Idempotency {
  import opened Outcomes

  const DEFAULT_TTL_SEC := 6 * 3600

  type Payload = map<string, string>

  datatype Entry = Entry(expires: real, payload: Payload)

  type Table = map<string, Entry>

  function Max(a: int, b: int): int { if a < b then b else a }

  /** Seconds a claim holds its key: never less than one. */
  function Hold(ttl: int): real {
    Max(1, ttl) as real
  }

  function Purge(t: Table, now: real): Table {
    map k | k in t && t[k].expires > now :: t[k]
  }

  predicate Live(t: Table, key: string, now: real) {
    key in t && t[key].expires > now
  }

  /** The first caller's default for the time of the claim does not replace one supplied. */
  function Stamped(p: Payload, claimedAt: string): Payload {
    if "claimed_at" in p then p else p["claimed_at" := claimedAt]
  }

  class ClaimTable {
    var store: Table

    constructor ()
      ensures store == map[]
    {
      store := map[];
    }

    method PurgeExpired(now: real)
      modifies this
      ensures store == Purge(old(store), now)
    {
      var dead := set k | k in store && store[k].expires <= now;
      ghost var all := store;
      ghost var gone: set<string> := {};
      while dead != {}
        invariant dead + gone == set k | k in all && all[k].expires <= now
        invariant dead !! gone
        invariant store == map k | k in all && k !in gone :: all[k]
        decreases dead
      {
        var k :| k in dead;
        store := store - {k};
        dead := dead - {k};
        gone := gone + {k};
      }
    }

    method Seen(key: string, now: real) returns (hit: Option<Payload>)
      modifies this
      ensures store == Purge(old(store), now)
      ensures hit == if Live(old(store), key, now) then Some(old(store)[key].payload) else None
      ensures store == After(old(store), Call.Seen(key, now), true)
      ensures ReplyOf(old(store), Call.Seen(key, now)) == if hit.Some? then Duplicate(hit.value) else Absent
    {
      PurgeExpired(now);
      if key !in store {
        return None;
      }
      hit := Some(store[key].payload);
    }

    method Claim(key: string, payload: Payload, ttl: int, now: real, claimedAt: string) returns (isNew: bool, held: Payload)
      modifies this
      ensures isNew <==> !Live(old(store), key, now)
      ensures held == if isNew then Stamped(payload, claimedAt) else old(store)[key].payload
      ensures store == if isNew then Purge(old(store), now)[key := Entry(now + Hold(ttl), Stamped(payload, claimedAt))]
                       else Purge(old(store), now)
      ensures var c := Call.Claim(key, now, ttl, Stamped(payload, claimedAt));
              && store == After(old(store), c, true)
              && ReplyOf(old(store), c) == if isNew then Won(held) else Duplicate(held)
    {
      var p := if "claimed_at" in payload then payload else payload["claimed_at" := claimedAt];
      PurgeExpired(now);
      if key in store && store[key].expires > now {
        return false, store[key].payload;
      }
      store := store[key := Entry(now + Max(1, ttl) as real, p)];
      return true, p;
    }
  }

  // ---- runs of calls ----

  datatype Call = Claim(key: string, now: real, ttl: int, payload: Payload) | Seen(key: string, now: real)

  datatype Reply = Won(held: Payload) | Duplicate(held: Payload) | Absent

  /** One call on a table, with or without the purge. */
  ghost function After(t: Table, c: Call, purge: bool): Table {
    var t1 := if purge then Purge(t, c.now) else t;
    if c.Claim? && !Live(t, c.key, c.now) then t1[c.key := Entry(c.now + Hold(c.ttl), c.payload)] else t1
  }

  ghost function ReplyOf(t: Table, c: Call): Reply {
    if Live(t, c.key, c.now) then Duplicate(t[c.key].payload)
    else if c.Claim? then Won(c.payload)
    else Absent
  }

  ghost function Run(calls: seq<Call>, purge: bool): Table {
    if calls == [] then map[] else After(Run(calls[..|calls| - 1], purge), calls[|calls| - 1], purge)
  }

  ghost predicate ClockNeverGoesBack(calls: seq<Call>) {
    forall i, j :: 0 <= i < j < |calls| ==> calls[i].now <= calls[j].now
  }

  /** The two tables answer alike from time `now` on. */
  ghost predicate SameFrom(s: Table, t: Table, now: real) {
    forall k :: Live(s, k, now) || Live(t, k, now) ==> k in s && k in t && s[k] == t[k]
  }

  /** Answering the last call of a run, the purged table and one never purged agree. */
  lemma {:induction false} PurgeInvisible(calls: seq<Call>, c: Call)
    requires ClockNeverGoesBack(calls + [c])
    ensures SameFrom(Run(calls, true), Run(calls, false), c.now)
    ensures ReplyOf(Run(calls, true), c) == ReplyOf(Run(calls, false), c)
  {
    if calls != [] {
      var front, last := calls[..|calls| - 1], calls[|calls| - 1];
      assert (calls + [c])[|calls|] == c && (calls + [c])[|calls| - 1] == last;
      assert forall i :: 0 <= i < |calls| ==> (calls + [c])[i] == calls[i] && (front + [last])[i] == calls[i];
      PurgeInvisible(front, last);
    }
  }

  /** `seen` answers, with the holder's payload, exactly when a claim would be a duplicate.
      Both methods of the table answer as ReplyOf says. */
  lemma {:induction false} SeenAgreesWithClaim(calls: seq<Call>, key: string, now: real, ttl: int, p: Payload)
    ensures var t := Run(calls, true);
            ReplyOf(t, Seen(key, now)) ==
              match ReplyOf(t, Claim(key, now, ttl, p)) { case Won(_) => Absent case r => r }
  {
  }

  // ---- how often a key can be won ----

  /** Times at which claims of `key` were won during a run. */
  ghost function Wins(calls: seq<Call>, key: string): seq<real> {
    if calls == [] then []
    else
      var front, last := calls[..|calls| - 1], calls[|calls| - 1];
      var w := Wins(front, key);
      if last.key == key && ReplyOf(Run(front, true), last).Won? then w + [last.now] else w
  }

  ghost predicate TtlAtLeast(calls: seq<Call>, key: string, ttl: int) {
    forall i :: 0 <= i < |calls| && calls[i].Claim? && calls[i].key == key ==> calls[i].ttl >= ttl
  }

  ghost predicate Spaced(w: seq<real>, gap: real) {
    forall i, j :: 0 <= i && j == i + 1 && j < |w| ==> w[j] - w[i] >= gap
  }

  /** The last win still holds the key until its time to live is over. */
  ghost predicate Held(t: Table, w: seq<real>, key: string, gap: real, now: real) {
    && Spaced(w, gap)
    && (w != [] && now < w[|w| - 1] + gap ==> Live(t, key, now))
  }

  lemma {:induction false} WinsSpaced(calls: seq<Call>, key: string, ttl: int, now: real)
    requires ClockNeverGoesBack(calls) && TtlAtLeast(calls, key, ttl)
    requires calls != [] ==> calls[|calls| - 1].now <= now
    ensures Held(Run(calls, true), Wins(calls, key), key, Hold(ttl), now)
  {
    if calls != [] {
      var front, last := calls[..|calls| - 1], calls[|calls| - 1];
      WinsSpaced(front, key, ttl, last.now);
      WinsSpaced(front, key, ttl, now);
      if last.Claim? && last.key == key {
        assert Hold(last.ttl) >= Hold(ttl);
      }
    }
  }

  /** Successive wins of a key are at least max(1, ttl) apart. */
  lemma SuccessiveWinsApart(calls: seq<Call>, key: string, ttl: int)
    requires ClockNeverGoesBack(calls) && TtlAtLeast(calls, key, ttl)
    ensures Spaced(Wins(calls, key), Hold(ttl))
  {
    WinsSpaced(calls, key, ttl, if calls == [] then 0.0 else calls[|calls| - 1].now);
  }

  lemma {:induction false} SpanOf(w: seq<real>, gap: real)
    requires w != [] && Spaced(w, gap)
    ensures w[|w| - 1] - w[0] >= (|w| - 1) as real * gap
  {
    if |w| > 1 {
      var n := |w| - 1;
      SpanOf(w[..n], gap);
      assert w[..n][n - 1] == w[n - 1];
      assert n as real * gap == (n - 1) as real * gap + gap;
    }
  }

  function Ceil(x: real): int {
    -((-x).Floor)
  }

  /** Every member lies in [from, from + width). */
  ghost predicate Inside(w: seq<real>, from: real, width: real) {
    forall i :: 0 <= i < |w| ==> from <= w[i] < from + width
  }

  /** The wins in the window (t, t + width]. */
  ghost function WinsWithin(w: seq<real>, t: real, width: real): seq<real> {
    if w == [] then []
    else
      var last := w[|w| - 1];
      WinsWithin(w[..|w| - 1], t, width) + if t < last <= t + width then [last] else []
  }

  lemma {:induction false} WithinIsSpaced(w: seq<real>, gap: real, t: real, width: real)
    requires gap > 0.0 && Spaced(w, gap)
    ensures Spaced(WinsWithin(w, t, width), gap)
    ensures forall i :: 0 <= i < |WinsWithin(w, t, width)| ==>
              t < WinsWithin(w, t, width)[i] <= t + width && WinsWithin(w, t, width)[i] <= w[|w| - 1]
  {
    if w != [] {
      var front := w[..|w| - 1];
      WithinIsSpaced(front, gap, t, width);
      assert front != [] ==> w[|w| - 1] - front[|front| - 1] >= gap;
    }
  }

  /** Any window of the given width holds at most ceil(width / ttl) wins of a key. */
  lemma WinsInWindow(calls: seq<Call>, key: string, ttl: int, t: real, width: real)
    requires ClockNeverGoesBack(calls) && TtlAtLeast(calls, key, ttl) && width >= 0.0
    ensures |WinsWithin(Wins(calls, key), t, width)| <= Ceil(width / Hold(ttl))
  {
    SuccessiveWinsApart(calls, key, ttl);
    FewWithin(Wins(calls, key), Hold(ttl), t, width);
  }

  lemma FewWithin(w: seq<real>, gap: real, t: real, width: real)
    requires gap > 0.0 && Spaced(w, gap) && width >= 0.0
    ensures |WinsWithin(w, t, width)| <= Ceil(width / gap)
  {
    var inside := WinsWithin(w, t, width);
    WithinIsSpaced(w, gap, t, width);
    if inside != [] {
      SpanOf(inside, gap);
    }
    CeilBound(|inside|, gap, width);
  }

  lemma FewFit(w: seq<real>, gap: real, from: real, width: real)
    requires w != [] && gap > 0.0 && Spaced(w, gap) && Inside(w, from, width)
    ensures |w| <= Ceil(width / gap)
  {
    SpanOf(w, gap);
    assert from <= w[0] && w[|w| - 1] < from + width;
    CeilBound(|w|, gap, width);
  }

  lemma CeilBound(n: nat, gap: real, width: real)
    requires gap > 0.0 && (n - 1) as real * gap < width
    ensures n <= Ceil(width / gap)
  {
    DivAbove((n - 1) as real, gap, width);
  }

  lemma DivAbove(x: real, gap: real, width: real)
    requires gap > 0.0 && x * gap < width
    ensures x < width / gap
  {
    var y := width / gap;
    assert y * gap == width;
    MulLeq(y, x, gap);
  }

  lemma MulLeq(a: real, b: real, k: real)
    requires k >= 0.0
    ensures a <= b ==> a * k <= b * k
  {
  }

  // ---- what callers are told ----

  /** The last claim of the key that was won, told from the calls alone: a claim wins if none
      won before, or the time of the last winner is over. */
  ghost function LastWinner(calls: seq<Call>, key: string): Option<Call> {
    if calls == [] then None
    else
      var last, before := calls[|calls| - 1], LastWinner(calls[..|calls| - 1], key);
      if last.Claim? && last.key == key && !Holds(before, last.now) then Some(last) else before
  }

  /** The winner, if there is one, still holds its key: for its seconds, or for one. */
  ghost predicate Holds(winner: Option<Call>, now: real) {
    winner.Some? && winner.value.Claim? && now < winner.value.now + (if winner.value.ttl >= 1 then winner.value.ttl as real else 1.0)
  }

  lemma {:induction false} WinnerClaims(calls: seq<Call>, key: string)
    ensures LastWinner(calls, key).Some? ==> LastWinner(calls, key).value.Claim? && LastWinner(calls, key).value.key == key
  {
    if calls != [] {
      WinnerClaims(calls[..|calls| - 1], key);
    }
  }

  /** The table holds of a key what its last winner put there, while that holds. */
  lemma {:induction false} TableOfWinner(calls: seq<Call>, key: string, now: real)
    requires ClockNeverGoesBack(calls) && (calls != [] ==> calls[|calls| - 1].now <= now)
    ensures var t, winner := Run(calls, true), LastWinner(calls, key);
            && (Live(t, key, now) <==> Holds(winner, now))
            && (Live(t, key, now) ==> winner.Some? && winner.value.Claim? && t[key].payload == winner.value.payload)
  {
    if calls != [] {
      var front, last := calls[..|calls| - 1], calls[|calls| - 1];
      TableOfWinner(front, key, last.now);
      TableOfWinner(front, key, now);
    }
  }

  /** What every caller is told, from the calls before it alone: while the last winner of the
      key holds it, the winner's payload; else a claim wins with its own, and a look finds
      nothing. */
  lemma RepliesExactly(calls: seq<Call>, c: Call)
    requires ClockNeverGoesBack(calls) && (calls != [] ==> calls[|calls| - 1].now <= c.now)
    ensures var winner := LastWinner(calls, c.key);
            ReplyOf(Run(calls, true), c) == if Holds(winner, c.now) then Duplicate(winner.value.payload)
                                            else if c.Claim? then Won(c.payload) else Absent
  {
    TableOfWinner(calls, c.key, c.now);
  }

  /** A winner keeps the payload it came with; the time of the claim is added if absent. */
  lemma PayloadIsKept(p: Payload, claimedAt: string, k: string)
    ensures k in p ==> k in Stamped(p, claimedAt) && Stamped(p, claimedAt)[k] == p[k]
    ensures k !in p ==> (k in Stamped(p, claimedAt) <==> k == "claimed_at")
    ensures "claimed_at" !in p ==> Stamped(p, claimedAt)["claimed_at"] == claimedAt
  {
  }

  // ---- when a key is won at most once ----

  ghost predicate ClaimOf(calls: seq<Call>, key: string, i: int) {
    0 <= i < |calls| && calls[i].Claim? && calls[i].key == key
  }

  /** All claims of the key ask for the same time to live. */
  ghost predicate SameTtl(calls: seq<Call>, key: string, ttl: int) {
    forall i :: ClaimOf(calls, key, i) ==> calls[i].ttl == ttl
  }

  /** No claim of the key comes a time to live, or more, after another. */
  ghost predicate ClaimsClose(calls: seq<Call>, key: string, gap: real) {
    forall i, j :: i < j && ClaimOf(calls, key, i) && ClaimOf(calls, key, j) ==> calls[j].now < calls[i].now + gap
  }

  /** From its last win on, a key is held exactly until its time to live is over. */
  lemma {:induction false} LiveExactly(calls: seq<Call>, key: string, ttl: int, now: real)
    requires ClockNeverGoesBack(calls) && SameTtl(calls, key, ttl)
    requires calls != [] ==> calls[|calls| - 1].now <= now
    ensures var w := Wins(calls, key);
            Live(Run(calls, true), key, now) <==> w != [] && now < w[|w| - 1] + Hold(ttl)
  {
    if calls != [] {
      var n := |calls| - 1;
      FrontIsRun(calls, key, ttl, n);
      LiveExactly(calls[..n], key, ttl, calls[n].now);
      LiveExactly(calls[..n], key, ttl, now);
      assert ClaimOf(calls, key, n) ==> calls[n].ttl == ttl;
    }
  }

  lemma FrontIsRun(calls: seq<Call>, key: string, ttl: int, n: nat)
    requires n <= |calls| && ClockNeverGoesBack(calls) && SameTtl(calls, key, ttl)
    ensures ClockNeverGoesBack(calls[..n]) && SameTtl(calls[..n], key, ttl)
  {
    forall i | ClaimOf(calls[..n], key, i) ensures calls[..n][i].ttl == ttl {
      assert ClaimOf(calls, key, i);
    }
  }

  /** Every win is a claim of the key. */
  lemma {:induction false} WinIsClaim(calls: seq<Call>, key: string, n: nat)
    requires n < |Wins(calls, key)|
    ensures exists i :: ClaimOf(calls, key, i) && calls[i].now == Wins(calls, key)[n]
  {
    var m := |calls| - 1;
    if n < |Wins(calls[..m], key)| {
      WinIsClaim(calls[..m], key, n);
      var i :| ClaimOf(calls[..m], key, i) && calls[..m][i].now == Wins(calls[..m], key)[n];
      assert ClaimOf(calls, key, i);
    } else {
      assert ClaimOf(calls, key, m);
    }
  }

  /** While there is one win at most, every claim falls into the time it holds the key. */
  lemma {:induction false} ClaimsOfOneWin(calls: seq<Call>, key: string, ttl: int, j: int)
    requires ClockNeverGoesBack(calls) && SameTtl(calls, key, ttl)
    requires |Wins(calls, key)| <= 1 && ClaimOf(calls, key, j)
    ensures |Wins(calls, key)| == 1 && Wins(calls, key)[0] <= calls[j].now < Wins(calls, key)[0] + Hold(ttl)
  {
    var n := |calls| - 1;
    FrontIsRun(calls, key, ttl, n);
    if j < n {
      assert ClaimOf(calls[..n], key, j);
      ClaimsOfOneWin(calls[..n], key, ttl, j);
    } else {
      LiveExactly(calls[..n], key, ttl, calls[n].now);
      WinsByNow(calls[..n], key, calls[n].now);
    }
  }

  lemma {:induction false} WinsByNow(calls: seq<Call>, key: string, now: real)
    requires forall i :: 0 <= i < |calls| ==> calls[i].now <= now
    ensures forall n :: 0 <= n < |Wins(calls, key)| ==> Wins(calls, key)[n] <= now
  {
    if calls != [] {
      WinsByNow(calls[..|calls| - 1], key, now);
    }
  }

  /** A key whose claims ask for one time to live is won at most once exactly if no two of
      them are that time, or more, apart. */
  lemma WonOnceExactly(calls: seq<Call>, key: string, ttl: int)
    requires ClockNeverGoesBack(calls) && SameTtl(calls, key, ttl)
    ensures |Wins(calls, key)| <= 1 <==> ClaimsClose(calls, key, Hold(ttl))
  {
    if |Wins(calls, key)| <= 1 {
      forall i, j | i < j && ClaimOf(calls, key, i) && ClaimOf(calls, key, j) ensures calls[j].now < calls[i].now + Hold(ttl) {
        ClaimsOfOneWin(calls, key, ttl, i);
        ClaimsOfOneWin(calls, key, ttl, j);
      }
    } else {
      TwoWinsFarApart(calls, key, ttl);
    }
  }

  lemma TwoWinsFarApart(calls: seq<Call>, key: string, ttl: int)
    requires ClockNeverGoesBack(calls) && SameTtl(calls, key, ttl) && |Wins(calls, key)| > 1
    ensures !ClaimsClose(calls, key, Hold(ttl))
  {
    forall i | 0 <= i < |calls| && calls[i].Claim? && calls[i].key == key ensures calls[i].ttl >= ttl {
      assert ClaimOf(calls, key, i);
    }
    SuccessiveWinsApart(calls, key, ttl);
    WinIsClaim(calls, key, 0);
    WinIsClaim(calls, key, 1);
    var i :| ClaimOf(calls, key, i) && calls[i].now == Wins(calls, key)[0];
    var j :| ClaimOf(calls, key, j) && calls[j].now == Wins(calls, key)[1];
    assert calls[j].now - calls[i].now >= Hold(ttl);
    assert i < j;
  }

  // ---- bucketed keys ----

  /** Every claim of the key happens inside one bucket of `width` seconds, as it does for
      a key that names the hour or the day of the call. */
  ghost predicate OneBucket(calls: seq<Call>, key: string, bucket: int, width: int) {
    forall i :: 0 <= i < |calls| && calls[i].key == key ==>
      (bucket * width) as real <= calls[i].now < (bucket * width + width) as real
  }

  lemma {:induction false} WinsInBucket(calls: seq<Call>, key: string, bucket: int, width: int)
    requires OneBucket(calls, key, bucket, width)
    ensures Inside(Wins(calls, key), (bucket * width) as real, width as real)
  {
    if calls != [] {
      WinsInBucket(calls[..|calls| - 1], key, bucket, width);
    }
  }

  /** With the default time to live a key named after the hour is won at most once. */
  lemma HourKeyWonOnce(calls: seq<Call>, key: string, hour: int)
    requires ClockNeverGoesBack(calls) && TtlAtLeast(calls, key, DEFAULT_TTL_SEC)
    requires OneBucket(calls, key, hour, 3600)
    ensures |Wins(calls, key)| <= 1
  {
    var w := Wins(calls, key);
    WinsInBucket(calls, key, hour, 3600);
    if w != [] {
      SuccessiveWinsApart(calls, key, DEFAULT_TTL_SEC);
      FewFit(w, Hold(DEFAULT_TTL_SEC), (hour * 3600) as real, 3600.0);
    }
  }

  /** A key named after the day is won at most four times. */
  lemma DateKeyWonFourTimes(calls: seq<Call>, key: string, day: int)
    requires ClockNeverGoesBack(calls) && TtlAtLeast(calls, key, DEFAULT_TTL_SEC)
    requires OneBucket(calls, key, day, 86400)
    ensures |Wins(calls, key)| <= 4
  {
    var w := Wins(calls, key);
    WinsInBucket(calls, key, day, 86400);
    if w != [] {
      SuccessiveWinsApart(calls, key, DEFAULT_TTL_SEC);
      FewFit(w, Hold(DEFAULT_TTL_SEC), (day * 86400) as real, 86400.0);
    }
  }

  /** With the default time to live a key is won at most once exactly if all its claims come
      within less than six hours of each other, whatever day or hour it is named after. */
  lemma DateKeyWonOnceExactly(calls: seq<Call>, key: string)
    requires ClockNeverGoesBack(calls) && SameTtl(calls, key, DEFAULT_TTL_SEC)
    ensures |Wins(calls, key)| <= 1 <==>
            forall i, j :: i < j && ClaimOf(calls, key, i) && ClaimOf(calls, key, j) ==> calls[j].now - calls[i].now < 21600.0
  {
    WonOnceExactly(calls, key, DEFAULT_TTL_SEC);
    assert Hold(DEFAULT_TTL_SEC) == 21600.0;
    if ClaimsClose(calls, key, 21600.0) {
    } else {
      var i, j :| i < j && ClaimOf(calls, key, i) && ClaimOf(calls, key, j) && calls[j].now >= calls[i].now + 21600.0;
      assert calls[j].now - calls[i].now >= 21600.0;
    }
  }

  function SixHourly(i: nat): Call {
    Claim("d", 21600.0 * i as real, DEFAULT_TTL_SEC, map[])
  }

  /** `n` claims of the same key, one every six hours from midnight on. */
  function EverySixHours(n: nat): seq<Call> {
    seq(n, i requires 0 <= i => SixHourly(i))
  }

  lemma {:induction false} SixHourlyRun(n: nat)
    ensures forall k :: k in Run(EverySixHours(n), true) ==> k == "d" && Run(EverySixHours(n), true)[k].expires == 21600.0 * n as real
    ensures |Wins(EverySixHours(n), "d")| == n
  {
    if n > 0 {
      var calls, front := EverySixHours(n), EverySixHours(n - 1);
      assert calls[..n - 1] == front && calls[n - 1] == SixHourly(n - 1);
      SixHourlyRun(n - 1);
      assert !Live(Run(front, true), "d", SixHourly(n - 1).now);
      assert Hold(DEFAULT_TTL_SEC) == 21600.0;
    }
  }

  /** The bound is reached: asking every six hours wins the same day's key four times. */
  lemma DateKeyCanBeWonFourTimes()
    ensures var calls := EverySixHours(4);
            && ClockNeverGoesBack(calls) && TtlAtLeast(calls, "d", DEFAULT_TTL_SEC)
            && OneBucket(calls, "d", 0, 86400) && |Wins(calls, "d")| == 4
  {
    SixHourlyRun(4);
    assert forall i :: 0 <= i < 4 ==> EverySixHours(4)[i].now == 21600.0 * i as real;
  }
}
