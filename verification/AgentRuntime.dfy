/** How an agent run commits its proposals to the queue
    (`AgentRuntime.run` in src/masova_agent/runtime/agent_runtime.py). */
module AgentRuntime {
  import opened ProposalStore
  import opened Policy

  /** The agent that runs and the store it runs for; "" is a fleet-wide run. */
  datatype Request = Request(agent: string, store: string)

  predicate InScope(c: Card, req: Request) {
    (req.store == "" || c.store == "" || c.store == req.store) && !SideEffect(c)
  }

  /** The card that is saved: blanks filled in from the request, stamped with the run. */
  function Stamped(c: Card, req: Request, runId: string): Card {
    c.(agent := if c.agent == "" then req.agent else c.agent,
       store := if c.store == "" then req.store else c.store,
       payloadRunId := if c.payloadRunId == "" then runId else c.payloadRunId,
       runId := runId,
       tagged := false)
  }

  ghost function Cards(ps: seq<Proposal>, req: Request, runId: string): seq<Card> {
    if ps == [] then []
    else
      var last := ps[|ps| - 1].card;
      Cards(ps[..|ps| - 1], req, runId) + if InScope(last, req) then [Stamped(last, req, runId)] else []
  }

  /** The review the run answers: the first one a reply names. */
  function ReviewOf(cards: seq<Card>): string {
    if cards == [] then ""
    else
      var last := cards[|cards| - 1];
      var before := ReviewOf(cards[..|cards| - 1]);
      if before == "" && last.kind == "DRAFT_REVIEW_REPLY" then last.reviewId else before
  }

  ghost function SaveAll(v: View, cards: seq<Card>): View {
    if cards == [] then v
    else SaveAll(v, cards[..|cards| - 1])[cards[|cards| - 1].id := cards[|cards| - 1]]
  }

  ghost function Committed(v: View, req: Request, cards: seq<Card>, runId: string, now: string): View {
    var saved := SaveAll(v, cards);
    if req.store == "" || req.agent == "" then saved
    else CloseAll(saved, StaleIds(saved, req.store, req.agent, IdSet(cards), runId, ReviewOf(cards)),
                  SUPERSEDED, SupersedeReason("", runId), now)
  }

  method CommitRun(store: Store, req: Request, proposals: seq<Proposal>, runId: string, now: string)
    returns (ghost cards: seq<Card>)
    requires store.Valid()
    modifies store
    ensures store.Valid() && cards == Cards(Validated(proposals), req, runId)
    ensures store.View() == Committed(old(store.View()), req, cards, runId, now)
  {
    var ps := ValidateProposals(proposals);
    var keptIds, reviewId;
    keptIds, reviewId, cards := SaveCards(store, req, ps, runId);
    if req.store != "" && req.agent != "" {
      var _ := store.SupersedeStalePending(req.store, req.agent, keptIds, runId, reviewId, "", now);
    }
  }

  /** Saves the proposals in scope and notes their ids and the review they answer. */
  method SaveCards(store: Store, req: Request, ps: seq<Proposal>, runId: string)
    returns (keptIds: set<string>, reviewId: string, ghost cards: seq<Card>)
    requires store.Valid()
    modifies store
    ensures store.Valid() && cards == Cards(ps, req, runId)
    ensures store.View() == SaveAll(old(store.View()), cards)
    ensures keptIds == IdSet(cards) && reviewId == ReviewOf(cards)
  {
    ghost var v := store.View();
    keptIds, reviewId, cards := {}, "", [];
    for i := 0 to |ps|
      invariant store.Valid() && cards == Cards(ps[..i], req, runId)
      invariant store.View() == SaveAll(v, cards)
      invariant keptIds == IdSet(cards) && reviewId == ReviewOf(cards)
    {
      assert ps[..i + 1][..i] == ps[..i];
      var c := ps[i].card;
      if InScope(c, req) {
        var rec := Stamped(c, req, runId);
        if rec.kind == "DRAFT_REVIEW_REPLY" && reviewId == "" {
          reviewId := rec.reviewId;
        }
        var _ := store.SaveProposal(rec, true);
        CardAppended(v, cards, rec);
        cards := cards + [rec];
        keptIds := keptIds + {rec.id};
      }
    }
    assert ps[..|ps|] == ps;
  }

  lemma CardAppended(v: View, cards: seq<Card>, c: Card)
    ensures IdSet(cards + [c]) == IdSet(cards) + {c.id}
    ensures SaveAll(v, cards + [c]) == SaveAll(v, cards)[c.id := c]
    ensures ReviewOf(cards + [c]) == if ReviewOf(cards) == "" && c.kind == "DRAFT_REVIEW_REPLY" then c.reviewId else ReviewOf(cards)
  {
    var all := cards + [c];
    assert all[..|cards|] == cards;
    forall id | id in IdSet(cards) + {c.id} ensures id in IdSet(all) {
      if id == c.id {
        assert all[|cards|].id == id;
      } else {
        var i :| 0 <= i < |cards| && cards[i].id == id;
        assert all[i].id == id;
      }
    }
  }

  // ---- what a commit saves ----

  lemma {:induction false} SavedAt(v: View, cards: seq<Card>, id: string)
    ensures id in IdSet(cards) ==> id in SaveAll(v, cards) && SaveAll(v, cards)[id] in cards && SaveAll(v, cards)[id].id == id
    ensures id !in IdSet(cards) ==> (id in SaveAll(v, cards) <==> id in v) && (id in v ==> SaveAll(v, cards)[id] == v[id])
  {
    if cards != [] {
      var front, last := cards[..|cards| - 1], cards[|cards| - 1];
      assert cards == front + [last];
      CardAppended(v, front, last);
      SavedAt(v, front, id);
    }
  }

  /** Of cards saved under one id the last is what remains. */
  lemma {:induction false} SavedIsLast(v: View, cards: seq<Card>, id: string)
    ensures id in IdSet(cards) <==> LastLine(cards, id).Some?
    ensures id in IdSet(cards) ==> id in SaveAll(v, cards) && SaveAll(v, cards)[id] == LastLine(cards, id).value
  {
    if cards != [] {
      var front, last := cards[..|cards| - 1], cards[|cards| - 1];
      assert cards == front + [last];
      CardAppended(v, front, last);
      SavedIsLast(v, front, id);
    }
  }

  lemma {:induction false} CardsCarryRun(ps: seq<Proposal>, req: Request, runId: string, id: string)
    ensures LastLine(Cards(ps, req, runId), id).Some? ==> LastLine(Cards(ps, req, runId), id).value.runId == runId
  {
    if ps != [] {
      CardsCarryRun(ps[..|ps| - 1], req, runId, id);
      var before, last := Cards(ps[..|ps| - 1], req, runId), ps[|ps| - 1].card;
      if InScope(last, req) {
        assert Cards(ps, req, runId) == before + [Stamped(last, req, runId)];
        assert (before + [Stamped(last, req, runId)])[..|before|] == before;
      } else {
        assert Cards(ps, req, runId) == before;
      }
    }
  }

  /** No proposal that survives validation speaks for another agent. */
  ghost predicate OwnAgentOnly(ps: seq<Proposal>, req: Request) {
    forall p :: p in ps ==> p.card.agent in {"", req.agent}
  }

  lemma {:induction false} CardsAreScoped(ps: seq<Proposal>, req: Request, runId: string)
    requires OwnAgentOnly(ps, req)
    ensures forall c :: c in Cards(ps, req, runId) ==>
              c.runId == runId && c.agent == req.agent && !SideEffect(c) && (req.store != "" ==> c.store == req.store)
  {
    if ps != [] {
      CardsAreScoped(ps[..|ps| - 1], req, runId);
      assert ps[|ps| - 1] in ps;
    }
  }
}
