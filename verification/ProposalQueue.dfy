/** The laws of the open queue: what run commits, resolves, superseding, sweeps, expiry and
    restarts keep (src/masova_agent/runtime/proposal_store.py, agent_runtime.py). */
module ProposalQueue {
  import opened Outcomes
  import opened ProposalStore
  import opened Policy
  import opened AgentRuntime

  ghost predicate OpenCard(v: View, id: string, store: string, agent: string) {
    id in v && v[id].status == PENDING && v[id].store == store && v[id].agent == agent
  }

  /** The pending cards of a snapshot agent in a store are all of one run. */
  ghost predicate OneRun(v: View) {
    forall a, b, store, agent ::
      store != "" && agent in SNAPSHOT_AGENTS && OpenCard(v, a, store, agent) && OpenCard(v, b, store, agent)
      ==> RunOf(v[a]) == RunOf(v[b])
  }

  /** Cards are filed under their own ids, as in every view of a log. */
  ghost predicate Filed(v: View) {
    forall id :: id in v ==> v[id].id == id
  }

  lemma {:induction false} LogIsFiled(log: seq<Card>)
    ensures Filed(Fold(log))
  {
    forall id | id in Fold(log) ensures Fold(log)[id].id == id {
      FoldIsLastLine(log, id);
    }
  }

  lemma ClosingKeepsOneRun(v: View, ids: set<string>, status: Status, note: string, now: string)
    requires OneRun(v) && status != PENDING
    ensures OneRun(CloseAll(v, ids, status, note, now))
  {
    var w := CloseAll(v, ids, status, note, now);
    forall a, b, store, agent |
      store != "" && agent in SNAPSHOT_AGENTS && OpenCard(w, a, store, agent) && OpenCard(w, b, store, agent)
      ensures RunOf(w[a]) == RunOf(w[b])
    {
      assert OpenCard(v, a, store, agent) && OpenCard(v, b, store, agent);
    }
  }

  // ---- run commits ----

  ghost predicate ScopedCards(cards: seq<Card>, req: Request, runId: string) {
    forall c :: c in cards ==> c.runId == runId && c.store == req.store && c.agent == req.agent && !SideEffect(c)
  }

  lemma ReviewIsNoSnapshot()
    ensures REVIEW_AGENT !in SNAPSHOT_AGENTS && "" !in SNAPSHOT_AGENTS
  {
    assert REVIEW_AGENT[0] == 'r';
    assert forall a :: a in SNAPSHOT_AGENTS ==> a[0] != 'r';
  }

  /** An open card of the committing agent and store is of the new run. */
  lemma CommitLeavesNewRun(v: View, req: Request, cards: seq<Card>, runId: string, now: string, id: string)
    requires Filed(v) && req.store != "" && req.agent in SNAPSHOT_AGENTS && runId != "" && ScopedCards(cards, req, runId)
    requires OpenCard(Committed(v, req, cards, runId, now), id, req.store, req.agent)
    ensures RunOf(Committed(v, req, cards, runId, now)[id]) == runId
  {
    SavedAt(v, cards, id);
    ReviewIsNoSnapshot();
    var saved := SaveAll(v, cards);
    var stale := StaleIds(saved, req.store, req.agent, IdSet(cards), runId, ReviewOf(cards));
    var w := CloseAll(saved, stale, SUPERSEDED, SupersedeReason("", runId), now);
    assert Committed(v, req, cards, runId, now) == w;
    assert id !in stale && w[id] == saved[id];
    assert Matches(saved[id], req.store, Some(PENDING), req.agent, false);
    if id !in IdSet(cards) {
      assert RunOf(saved[id]) == runId;
    }
  }

  /** Cards of other agents or stores that the run does not itself save stay as they are. */
  lemma CommitLeavesOthers(v: View, req: Request, cards: seq<Card>, runId: string, now: string, id: string)
    requires id in v && id !in IdSet(cards)
    requires req.store != "" ==> v[id].store != req.store || v[id].agent != req.agent
    ensures id in Committed(v, req, cards, runId, now) && Committed(v, req, cards, runId, now)[id] == v[id]
  {
    SavedAt(v, cards, id);
  }

  lemma OtherCardIsOld(v: View, req: Request, cards: seq<Card>, runId: string, now: string, id: string, store: string, agent: string)
    requires ScopedCards(cards, req, runId) && (store != req.store || agent != req.agent)
    requires OpenCard(Committed(v, req, cards, runId, now), id, store, agent)
    ensures OpenCard(v, id, store, agent) && Committed(v, req, cards, runId, now)[id] == v[id]
  {
    SavedAt(v, cards, id);
  }

  lemma CommitKeepsOneRun(v: View, req: Request, cards: seq<Card>, runId: string, now: string)
    requires Filed(v) && OneRun(v) && req.store != "" && runId != "" && ScopedCards(cards, req, runId)
    ensures OneRun(Committed(v, req, cards, runId, now))
  {
    var w := Committed(v, req, cards, runId, now);
    forall a, b, store, agent |
      store != "" && agent in SNAPSHOT_AGENTS && OpenCard(w, a, store, agent) && OpenCard(w, b, store, agent)
      ensures RunOf(w[a]) == RunOf(w[b])
    {
      if store == req.store && agent == req.agent {
        CommitLeavesNewRun(v, req, cards, runId, now, a);
        CommitLeavesNewRun(v, req, cards, runId, now, b);
      } else {
        OtherCardIsOld(v, req, cards, runId, now, a, store, agent);
        OtherCardIsOld(v, req, cards, runId, now, b, store, agent);
      }
    }
  }

  // ---- fleet-wide runs ----

  /** A card saved without superseding keeps the queue at one run exactly if the open cards of
      its store and agent are of its run already. */
  lemma SavedAloneExactly(v: View, c: Card)
    requires OneRun(v) && c.status == PENDING && c.store != "" && c.agent in SNAPSHOT_AGENTS
    ensures OneRun(v[c.id := c]) <==>
            forall id :: id != c.id && OpenCard(v, id, c.store, c.agent) ==> RunOf(v[id]) == RunOf(c)
  {
    var w := v[c.id := c];
    assert OpenCard(w, c.id, c.store, c.agent);
    if OneRun(w) {
      forall id | id != c.id && OpenCard(v, id, c.store, c.agent) ensures RunOf(v[id]) == RunOf(c) {
        assert OpenCard(w, id, c.store, c.agent);
      }
    } else {
      var a, b, store, agent :| store != "" && agent in SNAPSHOT_AGENTS
        && OpenCard(w, a, store, agent) && OpenCard(w, b, store, agent) && RunOf(w[a]) != RunOf(w[b]);
      assert a != c.id ==> OpenCard(v, a, store, agent);
      assert b != c.id ==> OpenCard(v, b, store, agent);
    }
  }

  /** What a run leaves saved under an id is an open card of a snapshot agent in a store. */
  ghost predicate SavesOpen(cards: seq<Card>, id: string) {
    var last := LastLine(cards, id);
    last.Some? && last.value.status == PENDING && last.value.store != "" && last.value.agent in SNAPSHOT_AGENTS
  }

  /** The run saves nothing next to an open card of another run: no card that stays shares
      store and agent with a saved one. */
  ghost predicate SavesBesideOwn(v: View, cards: seq<Card>, runId: string) {
    forall a, b ::
      SavesOpen(cards, a) && LastLine(cards, b) == None
      && OpenCard(v, b, LastLine(cards, a).value.store, LastLine(cards, a).value.agent)
      ==> RunOf(v[b]) == runId
  }

  /** A fleet-wide run supersedes nothing. It keeps the queue at one run exactly if no open
      card of another run is left in a store and agent it saves open cards for. */
  lemma FleetCommitExactly(v: View, req: Request, ps: seq<Proposal>, runId: string, now: string)
    requires OneRun(v) && req.store == "" && runId != ""
    ensures OneRun(Next(v, Commit(req, ps, runId, now)))
            <==> SavesBesideOwn(v, Cards(Validated(ps), req, runId), runId)
  {
    var cards := Cards(Validated(ps), req, runId);
    var w := Next(v, Commit(req, ps, runId, now));
    assert w == SaveAll(v, cards);
    if OneRun(w) {
      forall a, b | SavesOpen(cards, a) && LastLine(cards, b) == None
                    && OpenCard(v, b, LastLine(cards, a).value.store, LastLine(cards, a).value.agent)
        ensures RunOf(v[b]) == runId
      {
        AfterFleetCommit(v, Validated(ps), req, runId, a);
        AfterFleetCommit(v, Validated(ps), req, runId, b);
        var store, agent := w[a].store, w[a].agent;
        assert OpenCard(w, a, store, agent) && OpenCard(w, b, store, agent);
      }
    }
    if SavesBesideOwn(v, cards, runId) {
      forall a, b, store, agent |
        store != "" && agent in SNAPSHOT_AGENTS && OpenCard(w, a, store, agent) && OpenCard(w, b, store, agent)
        ensures RunOf(w[a]) == RunOf(w[b])
      {
        FleetPair(v, Validated(ps), req, runId, a, b, store, agent);
      }
    }
  }

  /** After the saves a card is the run's own, or what it was. */
  lemma AfterFleetCommit(v: View, ps: seq<Proposal>, req: Request, runId: string, id: string)
    requires runId != ""
    ensures var cards := Cards(ps, req, runId);
            var w := SaveAll(v, cards);
            match LastLine(cards, id)
            case Some(c) => id in w && w[id] == c && RunOf(c) == runId
            case None => (id in w <==> id in v) && (id in v ==> w[id] == v[id])
  {
    var cards := Cards(ps, req, runId);
    SavedAt(v, cards, id);
    SavedIsLast(v, cards, id);
    CardsCarryRun(ps, req, runId, id);
  }

  lemma FleetPair(v: View, ps: seq<Proposal>, req: Request, runId: string, a: string, b: string, store: string, agent: string)
    requires OneRun(v) && runId != "" && store != "" && agent in SNAPSHOT_AGENTS
    requires SavesBesideOwn(v, Cards(ps, req, runId), runId)
    requires var w := SaveAll(v, Cards(ps, req, runId)); OpenCard(w, a, store, agent) && OpenCard(w, b, store, agent)
    ensures var w := SaveAll(v, Cards(ps, req, runId)); RunOf(w[a]) == RunOf(w[b])
  {
    var cards := Cards(ps, req, runId);
    AfterFleetCommit(v, ps, req, runId, a);
    AfterFleetCommit(v, ps, req, runId, b);
    if LastLine(cards, a).Some? {
      assert SavesOpen(cards, a);
    } else if LastLine(cards, b).Some? {
      assert SavesOpen(cards, b);
    } else {
      assert OpenCard(v, a, store, agent) && OpenCard(v, b, store, agent);
    }
  }

  /** A fleet-wide run of one open draft breaks the queue wherever an open card of the draft's
      store and agent is left from another run. */
  lemma FleetRunBreaksOneRun(v: View, open: string, p: Proposal, req: Request, runId: string, now: string)
    requires OneRun(v) && req.store == "" && runId != ""
    requires p.risk == PROPOSE && InScope(p.card, req) && p.card.status == PENDING
    requires p.card.store != "" && p.card.agent in SNAPSHOT_AGENTS
    requires open != p.card.id && OpenCard(v, open, p.card.store, p.card.agent) && RunOf(v[open]) != runId
    ensures !OneRun(Next(v, Commit(req, [p], runId, now)))
  {
    var saved := Stamped(p.card, req, runId);
    ReviewIsNoSnapshot();
    OneDraftSaved(req, p, runId);
    FleetCommitExactly(v, req, [p], runId, now);
    assert [saved][..0] == [];
    assert LastLine([saved], p.card.id) == Some(saved) && LastLine([saved], open) == None;
    assert SavesOpen([saved], p.card.id);
  }

  /** Such an input: a draft of run r1 is open when a fleet-wide run r2 drafts for its store. */
  lemma FleetRunsPileUp(now: string)
    ensures var draft := Card("b", "s1", "inventory_reorder", "DRAFT_PURCHASE_ORDER", PENDING, Stamp(0, None),
                              "", "", "", "", "", "", false);
            var v := map["a" := draft.(id := "a", runId := "r1")];
            OneRun(v) && !OneRun(Next(v, Commit(Request("inventory_reorder", ""), [Proposal(draft, PROPOSE, true)], "r2", now)))
  {
    var draft := Card("b", "s1", "inventory_reorder", "DRAFT_PURCHASE_ORDER", PENDING, Stamp(0, None),
                      "", "", "", "", "", "", false);
    var v := map["a" := draft.(id := "a", runId := "r1")];
    DraftIsDecision(draft);
    assert OpenCard(v, "a", "s1", "inventory_reorder") && "a" != "b" && "r1" != "r2";
    FleetRunBreaksOneRun(v, "a", Proposal(draft, PROPOSE, true), Request("inventory_reorder", ""), "r2", now);
  }

  lemma DraftIsDecision(c: Card)
    requires c.kind == "DRAFT_PURCHASE_ORDER" && c.agent == "inventory_reorder"
    ensures !SideEffect(c) && c.agent in SNAPSHOT_AGENTS
  {
    assert c.kind[0] == 'D' && "NOTIFY_MANAGERS"[0] == 'N';
  }

  lemma OneDraftSaved(req: Request, p: Proposal, runId: string)
    requires p.risk == PROPOSE && InScope(p.card, req)
    ensures Cards(Validated([p]), req, runId) == [Stamped(p.card, req, runId)]
  {
    assert [p][..0] == [];
    assert Validated([p]) == [Tamed(p)];
    assert [Tamed(p)][..0] == [];
  }

  // ---- the sweep ----

  ghost function PendingIds(v: View): set<string> {
    set id | id in v && v[id].status == PENDING
  }

  lemma SweptAt(v: View, newest: map<Group, string>, now: string, id: string)
    requires NewestOf(v, newest) && id in v
    ensures id in Swept(v, newest, now)
    ensures id !in NotifyIds(v) && id !in OutdatedIds(v, newest) ==> Swept(v, newest, now)[id] == v[id]
    ensures id in NotifyIds(v) || id in OutdatedIds(v, newest) ==> Swept(v, newest, now)[id].status == SUPERSEDED
  {
  }

  /** What is open after a sweep: no notification, and of each group the newest card with
      the cards of its run. */
  lemma SweepLeaves(v: View, newest: map<Group, string>, now: string, id: string)
    requires NewestOf(v, newest)
    ensures var w := Swept(v, newest, now);
            id in w && w[id].status == PENDING <==>
              id in v && Decision(v[id]) && KeptWith(v[id], v[newest[GroupOf(v[id])]])
    ensures id in PendingIds(Swept(v, newest, now)) ==> Swept(v, newest, now)[id] == v[id]
  {
    if id in v {
      SweptAt(v, newest, now, id);
    }
  }

  lemma PendingSplits(v: View, newest: map<Group, string>, now: string)
    requires NewestOf(v, newest)
    ensures PendingIds(v) == PendingIds(Swept(v, newest, now)) + NotifyIds(v) + OutdatedIds(v, newest)
    ensures PendingIds(Swept(v, newest, now)) !! NotifyIds(v)
    ensures PendingIds(Swept(v, newest, now)) + NotifyIds(v) !! OutdatedIds(v, newest)
  {
    var after := PendingIds(Swept(v, newest, now));
    forall id ensures id in after <==> id in PendingIds(v) && id !in NotifyIds(v) && id !in OutdatedIds(v, newest) {
      SweepLeaves(v, newest, now, id);
    }
  }

  /** Pending before is pending after plus what the two counters report. */
  lemma SweepConserves(v: View, newest: map<Group, string>, now: string)
    requires NewestOf(v, newest)
    ensures |PendingIds(v)| == |PendingIds(Swept(v, newest, now))| + |NotifyIds(v)| + |OutdatedIds(v, newest)|
  {
    PendingSplits(v, newest, now);
    DisjointSize(PendingIds(Swept(v, newest, now)), NotifyIds(v));
    DisjointSize(PendingIds(Swept(v, newest, now)) + NotifyIds(v), OutdatedIds(v, newest));
  }

  /** The newest card of every group survives. */
  lemma NewestSurvives(v: View, newest: map<Group, string>, now: string, g: Group)
    requires NewestOf(v, newest) && g in newest
    ensures var w := Swept(v, newest, now); newest[g] in w && w[newest[g]] == v[newest[g]] && w[newest[g]].status == PENDING
  {
    SweepLeaves(v, newest, now, newest[g]);
  }

  /** A card still open after a sweep would be kept by the next one. */
  lemma OpenStaysKept(v: View, newest: map<Group, string>, now: string, newest': map<Group, string>, id: string)
    requires Filed(v) && NewestOf(v, newest) && NewestOf(Swept(v, newest, now), newest')
    requires id in PendingIds(Swept(v, newest, now))
    ensures var w := Swept(v, newest, now);
            Decision(w[id]) && GroupOf(w[id]) in newest' && KeptWith(w[id], w[newest'[GroupOf(w[id])]])
  {
    SweepLeaves(v, newest, now, id);
    var g := GroupOf(v[id]);
    assert g in newest';
    SweepLeaves(v, newest, now, newest'[g]);
  }

  /** A second sweep closes nothing. */
  lemma SweepIdempotent(v: View, newest: map<Group, string>, now: string, newest': map<Group, string>, now': string)
    requires Filed(v) && NewestOf(v, newest) && NewestOf(Swept(v, newest, now), newest')
    ensures NotifyIds(Swept(v, newest, now)) == {} && OutdatedIds(Swept(v, newest, now), newest') == {}
    ensures Swept(Swept(v, newest, now), newest', now') == Swept(v, newest, now)
  {
    var w := Swept(v, newest, now);
    forall id | id in PendingIds(w) ensures Decision(w[id]) && id !in OutdatedIds(w, newest') {
      OpenStaysKept(v, newest, now, newest', id);
    }
    assert NotifyIds(w) == {} && OutdatedIds(w, newest') == {};
    CloseNone(w, SUPERSEDED, NOTIFY_NOTE, now');
    CloseNone(w, SUPERSEDED, SWEEP_NOTE, now');
  }

  /** The sweep brings any queue down to one run per snapshot agent and store. */
  lemma SweepEstablishesOneRun(v: View, newest: map<Group, string>, now: string)
    requires Filed(v) && NewestOf(v, newest)
    ensures OneRun(Swept(v, newest, now))
  {
    var w := Swept(v, newest, now);
    forall a, b, store, agent |
      store != "" && agent in SNAPSHOT_AGENTS && OpenCard(w, a, store, agent) && OpenCard(w, b, store, agent)
      ensures RunOf(w[a]) == RunOf(w[b])
    {
      SweepLeaves(v, newest, now, a);
      SweepLeaves(v, newest, now, b);
      assert GroupOf(v[a]) == GroupOf(v[b]);
    }
  }

  // ---- histories ----

  datatype Step =
    | Commit(req: Request, proposals: seq<Proposal>, runId: string, now: string)
    | Resolve(id: string, status: Status, note: string, now: string)
    | Supersede(store: string, agent: string, keepIds: set<string>, keepRun: string, reviewId: string, note: string, now: string)
    | Sweep(newest: map<Group, string>, now: string)
    | Expire(cutoff: int, note: string, now: string)
    | Restart

  /** The effect of a step on the cards; a step that could not be taken has none. */
  ghost function Next(v: View, step: Step): View {
    match step
    case Commit(req, ps, runId, now) => Committed(v, req, Cards(Validated(ps), req, runId), runId, now)
    case Resolve(id, status, note, now) =>
      if id in v && status != PENDING then v[id := Closed(v[id], status, note, now)] else v
    case Supersede(store, agent, keepIds, keepRun, reviewId, note, now) =>
      CloseAll(v, StaleIds(v, store, agent, keepIds, keepRun, reviewId), SUPERSEDED, SupersedeReason(note, keepRun), now)
    case Sweep(newest, now) => if NewestOf(v, newest) then Swept(v, newest, now) else v
    case Expire(cutoff, note, now) => CloseAll(v, OverdueIds(v, cutoff), EXPIRED, note, now)
    case Restart => v
  }

  ghost function Run(v: View, steps: seq<Step>): View {
    if steps == [] then v else Next(Run(v, steps[..|steps| - 1]), steps[|steps| - 1])
  }

  /** Runs are for one store and speak for their own agent. */
  ghost predicate StoreScoped(step: Step) {
    step.Commit? ==> step.req.store != "" && step.runId != "" && OwnAgentOnly(step.proposals, step.req)
  }

  lemma {:induction false} ValidatedOwnAgent(ps: seq<Proposal>, req: Request)
    requires OwnAgentOnly(ps, req)
    ensures OwnAgentOnly(Validated(ps), req)
  {
    ValidatedAreSafe(ps);
    forall p | p in Validated(ps) ensures p.card.agent in {"", req.agent} {
      var q :| q in ps && q.risk != EXECUTE && q.card == p.card;
    }
  }

  lemma CommitIsScoped(step: Step)
    requires step.Commit? && StoreScoped(step)
    ensures ScopedCards(Cards(Validated(step.proposals), step.req, step.runId), step.req, step.runId)
  {
    ValidatedOwnAgent(step.proposals, step.req);
    CardsAreScoped(Validated(step.proposals), step.req, step.runId);
  }

  lemma SingleClose(v: View, id: string, status: Status, note: string, now: string)
    requires id in v
    ensures v[id := Closed(v[id], status, note, now)] == CloseAll(v, {id}, status, note, now)
  {
  }

  lemma NextKeepsFiled(v: View, step: Step)
    requires Filed(v)
    ensures Filed(Next(v, step))
  {
    if step.Commit? {
      var cards := Cards(Validated(step.proposals), step.req, step.runId);
      forall id | id in SaveAll(v, cards) ensures SaveAll(v, cards)[id].id == id {
        SavedAt(v, cards, id);
      }
    }
  }

  lemma NextKeepsOneRun(v: View, step: Step)
    requires Filed(v) && OneRun(v) && StoreScoped(step)
    ensures OneRun(Next(v, step))
  {
    match step
    case Commit(req, ps, runId, now) =>
      CommitIsScoped(step);
      CommitKeepsOneRun(v, req, Cards(Validated(ps), req, runId), runId, now);
    case Resolve(id, status, note, now) =>
      if id in v && status != PENDING {
        SingleClose(v, id, status, note, now);
        ClosingKeepsOneRun(v, {id}, status, note, now);
      }
    case Supersede(store, agent, keepIds, keepRun, reviewId, note, now) =>
      ClosingKeepsOneRun(v, StaleIds(v, store, agent, keepIds, keepRun, reviewId), SUPERSEDED, SupersedeReason(note, keepRun), now);
    case Sweep(newest, now) =>
      if NewestOf(v, newest) {
        ClosingKeepsOneRun(v, NotifyIds(v), SUPERSEDED, NOTIFY_NOTE, now);
        ClosingKeepsOneRun(CloseAll(v, NotifyIds(v), SUPERSEDED, NOTIFY_NOTE, now), OutdatedIds(v, newest), SUPERSEDED, SWEEP_NOTE, now);
      }
    case Expire(cutoff, note, now) =>
      ClosingKeepsOneRun(v, OverdueIds(v, cutoff), EXPIRED, note, now);
    case Restart =>
  }

  /** The one-run queue: every interleaving of store-scoped commits, resolves, superseding,
      sweeps, expiry and restarts leaves one run per snapshot agent and store open. */
  lemma {:induction false} OneRunAlways(v: View, steps: seq<Step>)
    requires Filed(v) && OneRun(v) && forall i :: 0 <= i < |steps| ==> StoreScoped(steps[i])
    ensures Filed(Run(v, steps)) && OneRun(Run(v, steps))
  {
    if steps != [] {
      OneRunAlways(v, steps[..|steps| - 1]);
      NextKeepsFiled(Run(v, steps[..|steps| - 1]), steps[|steps| - 1]);
      NextKeepsOneRun(Run(v, steps[..|steps| - 1]), steps[|steps| - 1]);
    }
  }

  /** After a commit the run that is left open is the one that committed. */
  lemma NewestRunRules(v: View, step: Step, id: string)
    requires Filed(v) && step.Commit? && StoreScoped(step) && step.req.agent in SNAPSHOT_AGENTS
    requires OpenCard(Next(v, step), id, step.req.store, step.req.agent)
    ensures RunOf(Next(v, step)[id]) == step.runId
  {
    CommitIsScoped(step);
    CommitLeavesNewRun(v, step.req, Cards(Validated(step.proposals), step.req, step.runId), step.runId, step.now, id);
  }
}
