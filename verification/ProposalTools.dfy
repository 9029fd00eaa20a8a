/** The manager's approve and reject tools with their pending guard
    (src/masova_agent/tools/proposal_tools.py), the HTTP route without one
    (src/masova_agent/main.py), and what the guard is worth. */
module ProposalTools {
  import opened Outcomes
  import opened Texts
  import opened ProposalStore
  import opened Policy
  import opened AgentRuntime
  import opened ProposalQueue

  /** One call of the code that changes the business tables. */
  datatype Applied = Applied(id: string, verdict: Status)

  datatype Answer = IdRequired | NotFound | NotPending(status: Status) | Done(card: Card)

  class Desk {
    const store: Store
    var applied: seq<Applied>

    constructor (store: Store)
      ensures this.store == store && applied == []
    {
      this.store := store;
      applied := [];
    }

    method ApproveProposal(given: string, note: string, now: string, appendOk: bool) returns (a: Answer)
      modifies this, store
      ensures Bench(store.Now(), applied) == Decided(old(Bench(store.Now(), applied)), Strip(given), APPROVED, note, now, appendOk)
      ensures old(store.Valid()) && appendOk ==>
                && store.Valid()
                && State(store.View(), applied)
                   == After(State(old(store.View()), old(applied)), Event.Decide(Strip(given), APPROVED, note, now))
                && (a.Done? <==> Decidable(old(store.View()), Strip(given)))
    {
      a := Decide(Strip(given), APPROVED, note, now, appendOk);
    }

    method RejectProposal(given: string, note: string, now: string, appendOk: bool) returns (a: Answer)
      modifies this, store
      ensures Bench(store.Now(), applied) == Decided(old(Bench(store.Now(), applied)), Strip(given), REJECTED, note, now, appendOk)
      ensures old(store.Valid()) && appendOk ==>
                && store.Valid()
                && State(store.View(), applied)
                   == After(State(old(store.View()), old(applied)), Event.Decide(Strip(given), REJECTED, note, now))
                && (a.Done? <==> Decidable(old(store.View()), Strip(given)))
    {
      a := Decide(Strip(given), REJECTED, note, now, appendOk);
    }

    /** What the two tools do with the stripped id; they differ only in the verdict. */
    method Decide(id: string, verdict: Status, note: string, now: string, appendOk: bool) returns (a: Answer)
      requires verdict == APPROVED || verdict == REJECTED
      modifies this, store
      ensures Bench(store.Now(), applied) == Decided(old(Bench(store.Now(), applied)), id, verdict, note, now, appendOk)
      ensures old(store.Valid()) && appendOk ==>
                var before := State(old(store.View()), old(applied));
                && store.Valid()
                && State(store.View(), applied) == After(before, Event.Decide(id, verdict, note, now))
                && (a.Done? <==> Decidable(before.cards, id))
                && (a.Done? ==> Untag(a.card) == store.View()[id])
    {
      if id == "" {
        return IdRequired;
      }
      FoldIsLastLine(store.log, id);
      var rec := store.GetProposal(id);
      if rec == None {
        return NotFound;
      }
      if rec.value.status != PENDING {
        return NotPending(rec.value.status);
      }
      var updated := store.ResolveProposal(id, verdict, note, now, appendOk);
      applied := applied + [Applied(id, verdict)];
      a := Answer.Done(updated.value.value);
    }

    /** The HTTP route resolves and applies without looking at the present status. */
    method HttpResolve(id: string, verdict: Status, note: string, now: string) returns (a: Answer)
      requires store.Valid() && (verdict == APPROVED || verdict == REJECTED)
      modifies this, store
      ensures store.Valid()
      ensures State(store.View(), applied) == After(State(old(store.View()), old(applied)), Event.HttpResolve(id, verdict, note, now))
    {
      var updated := store.ResolveProposal(id, verdict, note, now, true);
      if updated.value == None {
        return NotFound;
      }
      applied := applied + [Applied(id, verdict)];
      a := Answer.Done(updated.value.value);
    }
  }

  /** A process and what it applied. */
  datatype Bench = Bench(memory: Memory, applied: seq<Applied>)

  ghost function Decided(b: Bench, id: string, verdict: Status, note: string, now: string, appendOk: bool): Bench {
    if id == "" then b
    else if Lookup(b.memory, id).Some? && Lookup(b.memory, id).value.status == PENDING
    then Bench(AfterResolve(b.memory, id, verdict, note, now, appendOk), b.applied + [Applied(id, verdict)])
    else b.(memory := AfterGet(b.memory, id))
  }

  ghost predicate Decidable(v: View, id: string) {
    id != "" && id in v && v[id].status == PENDING
  }

  // ---- histories ----

  datatype State = State(cards: View, applied: seq<Applied>)

  datatype Event =
    | Decide(id: string, verdict: Status, note: string, now: string)
    | HttpResolve(id: string, verdict: Status, note: string, now: string)
    | Save(card: Card)
    | Queue(step: Step)

  ghost function After(s: State, e: Event): State {
    match e
    case Decide(id, verdict, note, now) =>
      if id != "" && id in s.cards && s.cards[id].status == PENDING
      then State(s.cards[id := Closed(s.cards[id], verdict, note, now)], s.applied + [Applied(id, verdict)])
      else s
    case HttpResolve(id, verdict, note, now) =>
      if id in s.cards
      then State(s.cards[id := Closed(s.cards[id], verdict, note, now)], s.applied + [Applied(id, verdict)])
      else s
    case Save(card) => s.(cards := s.cards[card.id := Untag(card)])
    case Queue(step) => s.(cards := Next(s.cards, step))
  }

  ghost function History(s: State, events: seq<Event>): State {
    if events == [] then s else After(History(s, events[..|events| - 1]), events[|events| - 1])
  }

  ghost predicate NewOrPending(v: View, id: string) {
    id in v ==> v[id].status == PENDING
  }

  /** Events of the guarded path: tools, sweeps, expiry, superseding and restarts as they
      come; saves and commits for ids that are new or still pending; no direct resolve. */
  ghost predicate Guarded(s: State, e: Event) {
    match e
    case Decide(_, verdict, _, _) => verdict == APPROVED || verdict == REJECTED
    case HttpResolve(_, _, _, _) => false
    case Save(card) => NewOrPending(s.cards, card.id)
    case Queue(Commit(req, ps, runId, _)) =>
      forall id :: id in IdSet(Cards(Validated(ps), req, runId)) ==> NewOrPending(s.cards, id)
    case Queue(Resolve(_, _, _, _)) => false
    case Queue(_) => true
  }

  ghost predicate AllGuarded(s: State, events: seq<Event>) {
    forall i :: 0 <= i < |events| ==> Guarded(History(s, events[..i]), events[i])
  }

  /** A card that left PENDING reads the same afterwards. */
  ghost predicate ClosedStay(v: View, w: View) {
    forall id :: id in v && v[id].status != PENDING ==> id in w && w[id] == v[id]
  }

  ghost predicate AppliedOnce(s: State) {
    && (forall i, j :: 0 <= i < j < |s.applied| ==> s.applied[i].id != s.applied[j].id)
    && (forall i :: 0 <= i < |s.applied| ==>
          s.applied[i].id in s.cards && s.cards[s.applied[i].id].status != PENDING)
  }

  lemma OnlyPendingClosed(v: View, step: Step)
    requires !step.Commit? && !step.Resolve?
    ensures ClosedStay(v, Next(v, step))
  {
  }

  lemma CommitKeepsClosed(v: View, req: Request, cards: seq<Card>, runId: string, now: string)
    requires forall id :: id in IdSet(cards) ==> NewOrPending(v, id)
    ensures ClosedStay(v, Committed(v, req, cards, runId, now))
  {
    forall id | id in v && v[id].status != PENDING
      ensures id in Committed(v, req, cards, runId, now) && Committed(v, req, cards, runId, now)[id] == v[id]
    {
      SavedAt(v, cards, id);
    }
  }

  lemma GuardedStep(s: State, e: Event)
    requires AppliedOnce(s) && Guarded(s, e)
    ensures ClosedStay(s.cards, After(s, e).cards) && AppliedOnce(After(s, e))
  {
    match e
    case Queue(Commit(req, ps, runId, now)) =>
      CommitKeepsClosed(s.cards, req, Cards(Validated(ps), req, runId), runId, now);
    case Queue(step) =>
      OnlyPendingClosed(s.cards, step);
    case _ =>
  }

  /** The guarded lifecycle: a card that has left PENDING never changes again, and every id
      is applied at most once, so never both as approved and as rejected. */
  lemma {:induction false} GuardedLifecycle(s: State, events: seq<Event>)
    requires AppliedOnce(s) && AllGuarded(s, events)
    ensures ClosedStay(s.cards, History(s, events).cards) && AppliedOnce(History(s, events))
  {
    if events != [] {
      var n := |events| - 1;
      forall i | 0 <= i < n ensures Guarded(History(s, events[..n][..i]), events[..n][i]) {
        assert events[..n][..i] == events[..i];
      }
      GuardedLifecycle(s, events[..n]);
      GuardedStep(History(s, events[..n]), events[n]);
    }
  }

  /** The HTTP route keeps closed cards exactly if the card is unknown, pending, or closed
      with the same verdict, note and time already; and it keeps every id applied at most
      once exactly if the id was not applied before. */
  lemma HttpResolveExactly(s: State, e: Event)
    requires AppliedOnce(s) && e.HttpResolve? && (e.verdict == APPROVED || e.verdict == REJECTED)
    ensures ClosedStay(s.cards, After(s, e).cards) <==>
            e.id !in s.cards || s.cards[e.id].status == PENDING || Closed(s.cards[e.id], e.verdict, e.note, e.now) == s.cards[e.id]
    ensures AppliedOnce(After(s, e)) <==>
            e.id !in s.cards || forall i :: 0 <= i < |s.applied| ==> s.applied[i].id != e.id
  {
    var t := After(s, e);
    if e.id in s.cards {
      assert t.cards[e.id] == Closed(s.cards[e.id], e.verdict, e.note, e.now);
      assert t.applied[|s.applied|].id == e.id;
      assert forall i :: 0 <= i < |s.applied| ==> t.applied[i] == s.applied[i];
    }
  }

  /** A decision takes effect exactly if the card is known and pending: then it is closed with
      the verdict and applied once with it. All other cards stay. */
  lemma DecisionTakesEffect(s: State, id: string, verdict: Status, note: string, now: string, other: string)
    requires id != "" && other in s.cards
    ensures var t := After(s, Event.Decide(id, verdict, note, now));
            var acts := id in s.cards && s.cards[id].status == PENDING;
            && t.cards.Keys == s.cards.Keys
            && t.applied == s.applied + (if acts then [Applied(id, verdict)] else [])
            && t.cards[other] == if acts && other == id then s.cards[id].(status := verdict, note := note, resolvedAt := now)
                                 else s.cards[other]
  {
  }

  lemma HistoryOfTwo(s: State, d: Event, e: Event)
    ensures History(s, [d]) == After(s, d) && History(s, [d, e]) == After(After(s, d), e)
  {
    assert [d][..0] == [] && [d, e][..1] == [d];
  }

  /** Two calls of the route apply one pending card both as approved and as rejected. */
  lemma HttpAppliesBoth(c: Card, note: string, now: string)
    requires c.status == PENDING
    ensures var s := State(map[c.id := c], []);
            var approve, reject := Event.HttpResolve(c.id, APPROVED, note, now), Event.HttpResolve(c.id, REJECTED, note, now);
            var first, second := History(s, [approve]), History(s, [approve, reject]);
            && second.applied == [Applied(c.id, APPROVED), Applied(c.id, REJECTED)]
            && !AppliedOnce(second) && !ClosedStay(first.cards, second.cards)
  {
    var s := State(map[c.id := c], []);
    var approve, reject := Event.HttpResolve(c.id, APPROVED, note, now), Event.HttpResolve(c.id, REJECTED, note, now);
    HistoryOfTwo(s, approve, reject);
    var first, second := History(s, [approve]), History(s, [approve, reject]);
    assert second.applied[0].id == second.applied[1].id;
    assert first.cards[c.id].status == APPROVED && second.cards[c.id].status == REJECTED;
  }
}
