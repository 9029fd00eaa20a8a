/** Decisions when the proposal log cannot be written: what a process still answers once it
    reads the file, and when a decided proposal can be decided again
    (src/masova_agent/runtime/proposal_store.py, src/masova_agent/tools/proposal_tools.py). */
module LostAppends {
  import opened Outcomes
  import opened ProposalStore
  import opened ProposalTools

  /** What lookups answer, event tags aside: memory first, then the file. */
  ghost function Observed(m: Memory): View {
    map id | id in Loaded(m).byId :: Untag(if id in m.byId then m.byId[id] else Loaded(m).byId[id])
  }

  lemma LookupIsObserved(m: Memory, id: string)
    ensures Lookup(m, id).Some? <==> id in Observed(m)
    ensures Lookup(m, id).Some? ==> Untag(Lookup(m, id).value) == Observed(m)[id]
  {
  }

  /** A process that starts over on the file. */
  ghost function Restarted(m: Memory): Memory {
    Memory(map[], m.log, false)
  }

  /** The file says of a card what memory says. */
  ghost predicate OnFile(m: Memory, id: string) {
    id in m.byId && id in Lines(m.log) && Untag(Lines(m.log)[id]) == Untag(m.byId[id])
  }

  /** Reading the file would reopen or alter no closed card: the file was read already, or it
      has no line for the card, or the line that memory has. */
  ghost predicate SafeToLoad(m: Memory) {
    m.loaded || forall id :: id in m.byId && m.byId[id].status != PENDING && id in Lines(m.log) ==> OnFile(m, id)
  }

  /** Reading the file keeps every closed card exactly if it is safe to load. */
  lemma LoadKeepsExactly(m: Memory)
    ensures ClosedStay(Observed(m), Observed(Loaded(m))) <==> SafeToLoad(m)
  {
    if !m.loaded {
      forall id | id in m.byId && m.byId[id].status != PENDING
        ensures id in Observed(m) && Observed(m)[id] == Untag(m.byId[id])
        ensures id in Observed(Loaded(m))
        ensures Observed(Loaded(m))[id] == Untag(if id in Lines(m.log) then Lines(m.log)[id] else m.byId[id])
      {
      }
    }
  }

  /** A restart keeps every closed card exactly if the file has each of them as it stands. */
  lemma RestartKeepsExactly(m: Memory)
    ensures ClosedStay(Observed(m), Observed(Restarted(m)))
            <==> forall id :: id in Observed(m) && Observed(m)[id].status != PENDING ==>
                   id in Lines(m.log) && Untag(Lines(m.log)[id]) == Observed(m)[id]
  {
    var r := Restarted(m);
    assert Loaded(r).byId == Lines(m.log);
  }

  /** Memory files cards under their own ids, as every process does. */
  ghost predicate Keyed(m: Memory) {
    forall id :: id in m.byId ==> m.byId[id].id == id
  }

  lemma LoadedIsKeyed(m: Memory)
    requires Keyed(m)
    ensures Keyed(Loaded(m))
  {
    LinesAreFold(m.log);
  }

  lemma LineAdded(log: seq<Card>, c: Card)
    ensures Lines(log + [c]) == Lines(log)[c.id := c]
  {
    assert (log + [c])[..|log|] == log;
  }

  /** A card just resolved reads as resolved at once. Once the file is read it still does
      exactly if the append succeeded, or the file had been read already, or has no line for
      the card, or one that says the same. */
  lemma ResolvedReadsExactly(m: Memory, id: string, status: Status, note: string, now: string, appendOk: bool)
    requires Keyed(m) && Lookup(m, id).Some? && status != PENDING
    ensures var n, rec := AfterResolve(m, id, status, note, now, appendOk), Closed(Lookup(m, id).value, status, note, now);
            && Lookup(n, id) == Some(rec) && id in Observed(Loaded(n))
            && (Observed(Loaded(n))[id] == Untag(rec)
                <==> appendOk || n.loaded || id !in Lines(m.log) || Untag(Lines(m.log)[id]) == Untag(rec))
  {
    var n, rec := AfterResolve(m, id, status, note, now, appendOk), Closed(Lookup(m, id).value, status, note, now);
    LoadedIsKeyed(m);
    assert rec.id == id && n.byId[id] == rec;
    LineAdded(m.log, rec.(tagged := true));
    assert Lines(n.log) == if appendOk then Lines(m.log)[id := rec.(tagged := true)] else Lines(m.log);
    assert Untag(rec.(tagged := true)) == Untag(rec);
  }

  // ---- histories of one desk ----

  /** What a desk and its processes do: saves, guarded decisions, the closing of cards that
      are listed as pending (as superseding, sweeps and expiry do), lookups, listings,
      restarts. */
  datatype Deed =
    | Save(card: Card, appendOk: bool)
    | Decide(id: string, verdict: Status, note: string, now: string, appendOk: bool)
    | Close(id: string, status: Status, note: string, now: string, appendOk: bool)
    | Look(id: string)
    | List
    | Restart

  ghost function Done(b: Bench, d: Deed): Bench {
    match d
    case Save(card, ok) => b.(memory := AfterSave(b.memory, card, ok))
    case Decide(id, verdict, note, now, ok) => Decided(b, id, verdict, note, now, ok)
    case Close(id, status, note, now, ok) =>
      if id in b.memory.byId && b.memory.byId[id].status == PENDING
      then b.(memory := AfterResolve(b.memory, id, status, note, now, ok))
      else b
    case Look(id) => b.(memory := AfterGet(b.memory, id))
    case List => b.(memory := Loaded(b.memory))
    case Restart => b.(memory := Restarted(b.memory))
  }

  ghost function AllDone(b: Bench, ds: seq<Deed>): Bench {
    if ds == [] then b else Done(AllDone(b, ds[..|ds| - 1]), ds[|ds| - 1])
  }

  /** The deed meets the guards of the code: verdicts are verdicts, saves are of ids that are
      new or still pending, and cards are closed after a listing, which reads the file. */
  ghost predicate Allowed(b: Bench, d: Deed) {
    match d
    case Save(card, _) => NewOrPending(Observed(b.memory), card.id)
    case Decide(_, verdict, _, _, _) => verdict == APPROVED || verdict == REJECTED
    case Close(_, status, _, _, _) => status != PENDING && b.memory.loaded
    case _ => true
  }

  /** Every closed card that is seen is on file as it stands. */
  ghost predicate SafeToRestart(m: Memory) {
    forall id :: id in Observed(m) && Observed(m)[id].status != PENDING ==>
      id in Lines(m.log) && Untag(Lines(m.log)[id]) == Observed(m)[id]
  }

  /** What the deed reads from the file is safe to read. */
  ghost predicate Safe(b: Bench, d: Deed) {
    match d
    case Save(_, _) => true
    case Decide(id, _, _, _, _) => id == "" || id in b.memory.byId || SafeToLoad(b.memory)
    case Look(id) => id in b.memory.byId || SafeToLoad(b.memory)
    case Close(_, _, _, _, _) => true
    case List => SafeToLoad(b.memory)
    case Restart => SafeToRestart(b.memory)
  }

  lemma SeenAt(m: Memory, id: string)
    ensures id in Observed(m) <==> id in m.byId || (!m.loaded && id in Lines(m.log))
    ensures id in m.byId ==> Observed(m)[id] == Untag(m.byId[id])
    ensures id !in m.byId && id in Observed(m) ==> Observed(m)[id] == Untag(Lines(m.log)[id])
  {
  }

  /** Only the line of one card is added, if any. */
  ghost predicate OtherLinesStay(m: Memory, n: Memory, id: string) {
    forall k :: k != id ==> (k in Lines(n.log) <==> k in Lines(m.log)) && (k in Lines(m.log) ==> Lines(n.log)[k] == Lines(m.log)[k])
  }

  /** A card put into memory changes what is seen of that card alone. */
  lemma PutIsSeen(m: Memory, n: Memory, id: string, c: Card)
    requires n.loaded == m.loaded && n.byId == m.byId[id := c] && OtherLinesStay(m, n, id)
    ensures Observed(n) == Observed(m)[id := Untag(c)]
  {
    forall k
      ensures k in Observed(n) <==> k in Observed(m)[id := Untag(c)]
      ensures k in Observed(n) ==> Observed(n)[k] == Observed(m)[id := Untag(c)][k]
    {
      SeenAt(m, k);
      SeenAt(n, k);
    }
  }

  lemma ResolveIsSeen(m: Memory, id: string, status: Status, note: string, now: string, appendOk: bool)
    requires Keyed(m) && id in m.byId && status != PENDING
    ensures var n := AfterResolve(m, id, status, note, now, appendOk);
            && Keyed(n) && n.loaded == m.loaded
            && Observed(n) == Observed(m)[id := Untag(Closed(m.byId[id], status, note, now))]
  {
    var n, rec := AfterResolve(m, id, status, note, now, appendOk), Closed(m.byId[id], status, note, now);
    LineAdded(m.log, rec.(tagged := true));
    PutIsSeen(m, n, id, rec);
  }

  lemma SaveIsSeen(m: Memory, card: Card, appendOk: bool)
    requires Keyed(m)
    ensures var n := AfterSave(m, card, appendOk);
            Keyed(n) && Observed(n) == Observed(m)[card.id := Untag(card)]
  {
    LineAdded(m.log, Untag(card));
    PutIsSeen(m, AfterSave(m, card, appendOk), card.id, Untag(card));
  }

  /** Applied ids are distinct and seen as closed. */
  ghost predicate Once(b: Bench) {
    AppliedOnce(State(Observed(b.memory), b.applied))
  }

  /** Closing a card that both views have as pending decides nothing about what stays closed. */
  lemma ClosePending(u: View, v: View, id: string, c: Card)
    requires id in v && v[id].status == PENDING && (id in u ==> u[id] == v[id])
    ensures ClosedStay(u, v[id := c]) <==> ClosedStay(u, v)
  {
    var w := v[id := c];
    assert forall k :: k in u && u[k].status != PENDING ==> k != id;
    assert forall k :: k != id ==> (k in w <==> k in v) && (k in v ==> w[k] == v[k]);
  }

  /** A lookup that loads the file sees of the card what was seen before. */
  lemma GetSeesSame(m: Memory, id: string)
    ensures id in Observed(AfterGet(m, id)) <==> id in Observed(m)
    ensures id in Observed(m) ==> Observed(AfterGet(m, id))[id] == Observed(m)[id]
    ensures id in Observed(m) ==> id in AfterGet(m, id).byId
  {
    SeenAt(m, id);
    SeenAt(AfterGet(m, id), id);
  }

  lemma GetKeepsExactly(m: Memory, id: string)
    ensures ClosedStay(Observed(m), Observed(AfterGet(m, id))) <==> id in m.byId || SafeToLoad(m)
  {
    LoadKeepsExactly(m);
  }

  lemma DecideKeepsExactly(b: Bench, d: Deed)
    requires d.Decide? && Keyed(b.memory) && Allowed(b, d)
    ensures Keyed(Done(b, d).memory)
    ensures ClosedStay(Observed(b.memory), Observed(Done(b, d).memory)) <==> Safe(b, d)
  {
    var m, m1 := b.memory, AfterGet(b.memory, d.id);
    LoadedIsKeyed(m);
    GetKeepsExactly(m, d.id);
    if d.id != "" && Lookup(m, d.id).Some? && Lookup(m, d.id).value.status == PENDING {
      Acted(b, d);
      GetSeesSame(m, d.id);
      LookupIsObserved(m, d.id);
      ClosePending(Observed(m), Observed(m1), d.id, Untag(Closed(m1.byId[d.id], d.verdict, d.note, d.now)));
    }
  }

  /** A decision that acts closes a card seen as pending, and no other. */
  lemma Acted(b: Bench, d: Deed)
    requires d.Decide? && Keyed(b.memory) && Allowed(b, d)
    requires d.id != "" && Lookup(b.memory, d.id).Some? && Lookup(b.memory, d.id).value.status == PENDING
    ensures var m1, e := AfterGet(b.memory, d.id), Done(b, d);
            && d.id in m1.byId && Keyed(e.memory) && e.applied == b.applied + [Applied(d.id, d.verdict)]
            && Observed(m1)[d.id].status == PENDING
            && Observed(e.memory) == Observed(m1)[d.id := Untag(Closed(m1.byId[d.id], d.verdict, d.note, d.now))]
  {
    var m1 := AfterGet(b.memory, d.id);
    LoadedIsKeyed(b.memory);
    SeenAt(m1, d.id);
    assert AfterResolve(b.memory, d.id, d.verdict, d.note, d.now, d.appendOk)
        == AfterResolve(m1, d.id, d.verdict, d.note, d.now, d.appendOk);
    ResolveIsSeen(m1, d.id, d.verdict, d.note, d.now, d.appendOk);
  }

  /** A deed keeps the closed cards exactly if what it reads from the file is safe to read. */
  lemma DeedKeepsExactly(b: Bench, d: Deed)
    requires Keyed(b.memory) && Allowed(b, d)
    ensures Keyed(Done(b, d).memory)
    ensures ClosedStay(Observed(b.memory), Observed(Done(b, d).memory)) <==> Safe(b, d)
  {
    var m := b.memory;
    match d
    case Save(card, ok) => SaveIsSeen(m, card, ok);
    case Decide(_, _, _, _, _) => DecideKeepsExactly(b, d);
    case Close(id, status, note, now, ok) =>
      if id in m.byId {
        ResolveIsSeen(m, id, status, note, now, ok);
      }
    case Look(id) =>
      LoadedIsKeyed(m);
      LoadKeepsExactly(m);
    case List =>
      LoadedIsKeyed(m);
      LoadKeepsExactly(m);
    case Restart => RestartKeepsExactly(m);
  }

  lemma DeedKeepsOnce(b: Bench, d: Deed)
    requires Keyed(b.memory) && Allowed(b, d) && Safe(b, d) && Once(b)
    ensures Once(Done(b, d))
  {
    DeedKeepsExactly(b, d);
    if d.Decide? && d.id != "" && Lookup(b.memory, d.id).Some? && Lookup(b.memory, d.id).value.status == PENDING {
      Acted(b, d);
      LookupIsObserved(b.memory, d.id);
      OnceMore(Observed(b.memory), Observed(Done(b, d).memory), b.applied, Applied(d.id, d.verdict));
    } else {
      assert Done(b, d).applied == b.applied;
    }
  }

  lemma OnceMore(v: View, w: View, applied: seq<Applied>, a: Applied)
    requires AppliedOnce(State(v, applied)) && ClosedStay(v, w)
    requires a.id in v && v[a.id].status == PENDING && a.id in w && w[a.id].status != PENDING
    ensures AppliedOnce(State(w, applied + [a]))
  {
  }

  ghost predicate AllAllowed(b: Bench, ds: seq<Deed>) {
    forall i :: 0 <= i < |ds| ==> Allowed(AllDone(b, ds[..i]), ds[i])
  }

  ghost predicate AllSafe(b: Bench, ds: seq<Deed>) {
    forall i :: 0 <= i < |ds| ==> Safe(AllDone(b, ds[..i]), ds[i])
  }

  lemma FrontIsFine(b: Bench, ds: seq<Deed>, n: nat)
    requires |ds| == n + 1 && AllAllowed(b, ds)
    ensures AllAllowed(b, ds[..n]) && Allowed(AllDone(b, ds[..n]), ds[n])
    ensures AllSafe(b, ds) ==> AllSafe(b, ds[..n]) && Safe(AllDone(b, ds[..n]), ds[n])
  {
    forall i | 0 <= i < n
      ensures Allowed(AllDone(b, ds[..n][..i]), ds[..n][i])
      ensures AllSafe(b, ds) ==> Safe(AllDone(b, ds[..n][..i]), ds[..n][i])
    {
      assert ds[..n][..i] == ds[..i];
    }
  }

  /** The guarded lifecycle with failing appends. As long as every deed reads the file only
      when that is safe, closed cards stay as they are and every id is applied at most once. */
  lemma {:induction false} LifecycleSurvives(b: Bench, ds: seq<Deed>)
    requires Keyed(b.memory) && Once(b) && AllAllowed(b, ds) && AllSafe(b, ds)
    ensures var e := AllDone(b, ds);
            Keyed(e.memory) && Once(e) && ClosedStay(Observed(b.memory), Observed(e.memory))
  {
    if ds != [] {
      var n := |ds| - 1;
      FrontIsFine(b, ds, n);
      LifecycleSurvives(b, ds[..n]);
      DeedKeepsExactly(AllDone(b, ds[..n]), ds[n]);
      DeedKeepsOnce(AllDone(b, ds[..n]), ds[n]);
    }
  }

  /** One process that has read the file keeps the lifecycle whatever appends fail. */
  lemma {:induction false} LoadedProcessIsSafe(b: Bench, ds: seq<Deed>)
    requires b.memory.loaded && forall i :: 0 <= i < |ds| ==> !ds[i].Restart?
    ensures AllDone(b, ds).memory.loaded && AllSafe(b, ds)
  {
    if ds != [] {
      var n := |ds| - 1;
      LoadedProcessIsSafe(b, ds[..n]);
      forall i | 0 <= i < |ds| ensures Safe(AllDone(b, ds[..i]), ds[i]) {
        if i < n {
          assert ds[..n][..i] == ds[..i] && ds[..n][i] == ds[i];
        }
      }
    }
  }

  lemma OneProcessKeepsLifecycle(b: Bench, ds: seq<Deed>)
    requires b.memory.loaded && forall i :: 0 <= i < |ds| ==> !ds[i].Restart?
    requires Keyed(b.memory) && Once(b) && AllAllowed(b, ds)
    ensures Once(AllDone(b, ds)) && ClosedStay(Observed(b.memory), Observed(AllDone(b, ds).memory))
  {
    LoadedProcessIsSafe(b, ds);
    LifecycleSurvives(b, ds);
  }

  /** With no append lost the file is always safe to read: memory is a cache of it. */
  lemma CacheIsSafe(m: Memory)
    requires CacheOf(m.byId, Fold(m.log), m.loaded)
    ensures SafeToLoad(m) && SafeToRestart(m)
  {
    LinesAreFold(m.log);
  }

  /** A decided card that reads as pending again is applied again by the next decision. */
  lemma ReopenedIsAppliedAgain(b: Bench, i: nat, verdict: Status, note: string, now: string, appendOk: bool)
    requires i < |b.applied| && b.applied[i].id != ""
    requires b.applied[i].id in Observed(b.memory) && Observed(b.memory)[b.applied[i].id].status == PENDING
    ensures !Once(Done(b, Deed.Decide(b.applied[i].id, verdict, note, now, appendOk)))
  {
    var e := Done(b, Deed.Decide(b.applied[i].id, verdict, note, now, appendOk));
    LookupIsObserved(b.memory, b.applied[i].id);
    assert e.applied[i].id == e.applied[|b.applied|].id;
  }

  /** Such a history: a draft is saved, approved with a failing append, listed, and approved
      again. The process had not read the file before. */
  lemma LostApprovalAppliesTwice(c: Card, note: string, now: string)
    requires c.id != "" && c.status == PENDING
    ensures var start := Bench(Memory(map[], [], false), []);
            var saved := Done(start, Deed.Save(c, true));
            var approved := Done(saved, Deed.Decide(c.id, APPROVED, note, now, false));
            var listed := Done(approved, List);
            && Once(approved) && !Safe(approved, List)
            && Done(listed, Deed.Decide(c.id, APPROVED, note, now, true)).applied
               == [Applied(c.id, APPROVED), Applied(c.id, APPROVED)]
  {
    var start := Bench(Memory(map[], [], false), []);
    var saved := Done(start, Deed.Save(c, true));
    LineAdded([], Untag(c));
    assert [] + [Untag(c)] == [Untag(c)] && Lines([Untag(c)]) == map[c.id := Untag(c)];
    var approved := Done(saved, Deed.Decide(c.id, APPROVED, note, now, false));
    assert approved.memory.byId[c.id].status == APPROVED && approved.memory.log == [Untag(c)];
    assert approved.applied == [Applied(c.id, APPROVED)];
    var listed := Done(approved, List);
    assert listed.memory.byId[c.id] == Untag(c);
  }
}
