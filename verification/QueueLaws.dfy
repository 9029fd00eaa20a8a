/** What one step does to every single card of the queue: which proposals a run saves, which
    cards it closes, what expiry and the sweep close; and the runs open per review
    (src/masova_agent/runtime/agent_runtime.py, proposal_store.py, proposal_expiry.py). */
module QueueLaws {
  import opened Outcomes
  import opened ProposalStore
  import opened Policy
  import opened AgentRuntime
  import opened ProposalQueue

  // ---- what a run saves ----

  /** Proposal `i` is one of the first fifty, was not marked for execution, is no notification,
      and is of the run's store, of no store, or the run is fleet-wide. */
  ghost predicate Passes(ps: seq<Proposal>, req: Request, i: int) {
    0 <= i < |ps| && i < 50 && ps[i].risk != EXECUTE && ps[i].card.kind != "NOTIFY_MANAGERS"
    && (req.store == "" || ps[i].card.store == "" || ps[i].card.store == req.store)
  }

  /** The card of the proposal, stamped with the run; agent, store and the run in the payload
      are filled in only where they are blank. */
  ghost predicate SavedAs(rec: Card, c: Card, req: Request, runId: string) {
    && rec.runId == runId
    && rec.agent == (if c.agent != "" then c.agent else req.agent)
    && rec.store == (if c.store != "" then c.store else req.store)
    && rec.payloadRunId == (if c.payloadRunId != "" then c.payloadRunId else runId)
    && rec.(runId := c.runId, agent := c.agent, store := c.store, payloadRunId := c.payloadRunId) == c.(tagged := false)
  }

  /** Proposal `i` is the last that passes under its id. */
  ghost predicate LastToPass(ps: seq<Proposal>, req: Request, i: int, id: string) {
    Passes(ps, req, i) && ps[i].card.id == id
    && forall j :: i < j < |ps| && Passes(ps, req, j) ==> ps[j].card.id != id
  }

  lemma CardsGrow(qs: seq<Proposal>, p: Proposal, req: Request, runId: string)
    ensures Cards(qs + [p], req, runId)
            == Cards(qs, req, runId) + if InScope(p.card, req) then [Stamped(p.card, req, runId)] else []
  {
    assert (qs + [p])[..|qs|] == qs;
  }

  lemma NoticesAreSideEffects(kind: string)
    ensures kind in SIDE_EFFECT_TYPES <==> kind == "NOTIFY_MANAGERS"
  {
  }

  lemma OneMoreCard(ps: seq<Proposal>, req: Request, runId: string)
    requires ps != []
    ensures var n, before := |ps| - 1, Cards(Validated(ps[..|ps| - 1]), req, runId);
            Cards(Validated(ps), req, runId) == before + if Passes(ps, req, n) then [Stamped(ps[n].card, req, runId)] else []
  {
    var n := |ps| - 1;
    NoticesAreSideEffects(ps[n].card.kind);
    if n < 50 && ps[n].risk != EXECUTE {
      CardsGrow(Validated(ps[..n]), Tamed(ps[n]), req, runId);
    } else {
      assert Validated(ps) == Validated(ps[..n]);
    }
  }

  lemma StampedIsSaved(c: Card, req: Request, runId: string)
    ensures SavedAs(Stamped(c, req, runId), c, req, runId)
  {
  }

  /** The card is the one of the last proposal that passes under the id. */
  ghost predicate FromLastToPass(last: Option<Card>, ps: seq<Proposal>, req: Request, runId: string, id: string) {
    && (last.Some? <==> exists i :: LastToPass(ps, req, i, id))
    && forall i :: LastToPass(ps, req, i, id) ==> last.Some? && SavedAs(last.value, ps[i].card, req, runId)
  }

  lemma FromLastStep(last: Option<Card>, ps: seq<Proposal>, req: Request, runId: string, id: string)
    requires ps != [] && FromLastToPass(last, ps[..|ps| - 1], req, runId, id)
    ensures var n := |ps| - 1;
            FromLastToPass(if Passes(ps, req, n) && ps[n].card.id == id then Some(Stamped(ps[n].card, req, runId)) else last,
                           ps, req, runId, id)
  {
    var n := |ps| - 1;
    PassesBefore(ps, req, id);
    StampedIsSaved(ps[n].card, req, runId);
    if Passes(ps, req, n) && ps[n].card.id == id {
      assert LastToPass(ps, req, n, id);
    } else {
      forall i | LastToPass(ps, req, i, id) ensures last.Some? && SavedAs(last.value, ps[i].card, req, runId) {
        assert LastToPass(ps[..n], req, i, id) && ps[..n][i] == ps[i];
      }
    }
  }

  lemma LineAppended(cards: seq<Card>, c: Card, id: string)
    ensures LastLine(cards + [c], id) == if c.id == id then Some(c) else LastLine(cards, id)
  {
    assert (cards + [c])[..|cards|] == cards;
  }

  /** What is saved under an id is the last proposal that passes under it. */
  lemma {:induction false} SavedExactly(ps: seq<Proposal>, req: Request, runId: string, id: string)
    ensures FromLastToPass(LastLine(Cards(Validated(ps), req, runId), id), ps, req, runId, id)
  {
    if ps != [] {
      var n := |ps| - 1;
      var before := Cards(Validated(ps[..n]), req, runId);
      SavedExactly(ps[..n], req, runId, id);
      OneMoreCard(ps, req, runId);
      FromLastStep(LastLine(before, id), ps, req, runId, id);
      if Passes(ps, req, n) {
        LineAppended(before, Stamped(ps[n].card, req, runId), id);
      } else {
        assert Cards(Validated(ps), req, runId) == before;
      }
    }
  }

  lemma PassesBefore(ps: seq<Proposal>, req: Request, id: string)
    requires ps != []
    ensures var n := |ps| - 1;
            !(Passes(ps, req, n) && ps[n].card.id == id) ==>
              forall i :: LastToPass(ps, req, i, id) <==> LastToPass(ps[..n], req, i, id)
    ensures var n := |ps| - 1;
            Passes(ps, req, n) && ps[n].card.id == id ==> forall i :: LastToPass(ps, req, i, id) ==> i == n
  {
    var n := |ps| - 1;
    assert forall j :: 0 <= j < n ==> (Passes(ps, req, j) <==> Passes(ps[..n], req, j));
    if !(Passes(ps, req, n) && ps[n].card.id == id) {
      forall i ensures LastToPass(ps, req, i, id) <==> LastToPass(ps[..n], req, i, id) {
        if LastToPass(ps[..n], req, i, id) {
          forall j | i < j < |ps| && Passes(ps, req, j) ensures ps[j].card.id != id {
            assert j < n ==> Passes(ps[..n], req, j);
          }
        }
        if LastToPass(ps, req, i, id) {
          forall j | i < j < n && Passes(ps[..n], req, j) ensures ps[..n][j].card.id != id {
            assert Passes(ps, req, j);
          }
        }
      }
    }
  }

  lemma {:induction false} HasLastToPass(ps: seq<Proposal>, req: Request, i: int)
    requires Passes(ps, req, i)
    ensures exists k :: LastToPass(ps, req, k, ps[i].card.id)
  {
    var id, n := ps[i].card.id, |ps| - 1;
    if Passes(ps, req, n) && ps[n].card.id == id {
      assert LastToPass(ps, req, n, id);
    } else {
      assert Passes(ps[..n], req, i);
      HasLastToPass(ps[..n], req, i);
      PassesBefore(ps, req, id);
    }
  }

  /** After a commit the queue holds every proposal that passes, the last one under each id,
      as it was made: superseding spares what the run itself saved. */
  lemma PassingIsQueued(v: View, req: Request, ps: seq<Proposal>, runId: string, now: string, i: int)
    requires Passes(ps, req, i) && LastToPass(ps, req, i, ps[i].card.id)
    ensures var w := Next(v, Commit(req, ps, runId, now));
            ps[i].card.id in w && SavedAs(w[ps[i].card.id], ps[i].card, req, runId)
  {
    var cards, id := Cards(Validated(ps), req, runId), ps[i].card.id;
    SavedExactly(ps, req, runId, id);
    SavedIsLast(v, cards, id);
  }

  // ---- what a run closes ----

  ghost predicate Spared(ps: seq<Proposal>, req: Request, id: string) {
    forall i :: Passes(ps, req, i) ==> ps[i].card.id != id
  }

  lemma SparedIsNotSaved(ps: seq<Proposal>, req: Request, runId: string, id: string)
    ensures Spared(ps, req, id) <==> id !in IdSet(Cards(Validated(ps), req, runId))
  {
    SavedExactly(ps, req, runId, id);
    SavedIsLast(map[], Cards(Validated(ps), req, runId), id);
    if !Spared(ps, req, id) {
      var i :| Passes(ps, req, i) && ps[i].card.id == id;
      HasLastToPass(ps, req, i);
    }
  }

  /** An agent whose whole open queue in a store is replaced by its next run there. */
  predicate ReplacesAll(agent: string) {
    agent in {"inventory_reorder", "demand_forecast", "shift_optimisation", "kitchen_coach", "dynamic_pricing", "churn_prevention"}
  }

  /** A commit and one card it does not save: the card is closed exactly if it is an open card
      of another run of the same agent in the same store and, if the agent answers reviews,
      of the review answered; else it is as it was. */
  lemma CommitClosesExactly(v: View, req: Request, ps: seq<Proposal>, runId: string, now: string, id: string)
    requires Filed(v) && id in v && Spared(ps, req, id) && runId != ""
    ensures var w := Next(v, Commit(req, ps, runId, now));
            var c := v[id];
            && id in w
            && w[id] == if req.store != "" && req.agent != "" && c.status == PENDING && c.store == req.store
                           && c.agent == req.agent && RunOf(c) != runId
                           && (if req.agent == "review_response" then c.reviewId == Answered(ps, req) else ReplacesAll(req.agent))
                        then c.(status := SUPERSEDED, note := "Superseded by run " + runId, resolvedAt := now)
                        else c
  {
    var cards := Cards(Validated(ps), req, runId);
    SparedIsNotSaved(ps, req, runId, id);
    SavedAt(v, cards, id);
    AnsweredIsReviewOf(ps, req, runId);
    ReplacesAllExactly(req.agent);
  }

  /** Superseding as such closes exactly the open cards of the store and agent that are not to
      be kept, by id or by run, if the agent's runs replace each other, or answer the review. */
  lemma SupersedeExactly(v: View, step: Step, id: string)
    requires step.Supersede? && Filed(v) && id in v
    ensures var w, c := Next(v, step), v[id];
            var run := if c.runId != "" then c.runId else c.payloadRunId;
            w.Keys == v.Keys
            && w[id] == if c.status == PENDING && (step.store == "" || c.store == step.store) && (step.agent == "" || c.agent == step.agent)
                           && id !in step.keepIds && !(step.keepRun != "" && run == step.keepRun)
                           && (if step.agent == "review_response" then c.reviewId == step.reviewId else ReplacesAll(step.agent))
                        then c.(status := SUPERSEDED, resolvedAt := step.now,
                                note := if step.note != "" then step.note
                                        else if step.keepRun != "" then "Superseded by run " + step.keepRun
                                        else "Superseded by a newer agent run")
                        else c
  {
    ReplacesAllExactly(step.agent);
  }

  lemma ReplacesAllExactly(agent: string)
    ensures agent in SNAPSHOT_AGENTS <==> ReplacesAll(agent)
  {
  }

  /** The review a run answers: the first that a saved reply names. */
  ghost function Answered(ps: seq<Proposal>, req: Request): string {
    if exists i :: FirstReply(ps, req, i)
    then
      var i :| FirstReply(ps, req, i);
      ps[i].card.reviewId
    else ""
  }

  ghost predicate NamesReview(ps: seq<Proposal>, req: Request, i: int) {
    Passes(ps, req, i) && ps[i].card.kind == "DRAFT_REVIEW_REPLY" && ps[i].card.reviewId != ""
  }

  ghost predicate FirstReply(ps: seq<Proposal>, req: Request, i: int) {
    NamesReview(ps, req, i) && forall j :: 0 <= j < i ==> !NamesReview(ps, req, j)
  }

  lemma {:induction false} AnsweredIsReviewOf(ps: seq<Proposal>, req: Request, runId: string)
    ensures ReviewOf(Cards(Validated(ps), req, runId)) == Answered(ps, req)
  {
    if ps != [] {
      var n := |ps| - 1;
      AnsweredIsReviewOf(ps[..n], req, runId);
      OneMoreCard(ps, req, runId);
      if Passes(ps, req, n) {
        CardAppended(map[], Cards(Validated(ps[..n]), req, runId), Stamped(ps[n].card, req, runId));
      } else {
        assert Cards(Validated(ps), req, runId) == Cards(Validated(ps[..n]), req, runId);
      }
      FirstReplyBefore(ps, req);
    }
  }

  lemma FirstReplyBefore(ps: seq<Proposal>, req: Request)
    requires ps != []
    ensures var n, before := |ps| - 1, Answered(ps[..|ps| - 1], req);
            Answered(ps, req) == if before == "" && NamesReview(ps, req, n) then ps[n].card.reviewId else before
  {
    var n := |ps| - 1;
    assert forall j :: 0 <= j < n ==> (NamesReview(ps, req, j) <==> NamesReview(ps[..n], req, j));
    if i :| FirstReply(ps[..n], req, i) {
      assert FirstReply(ps, req, i);
    } else {
      NoFirstReply(ps[..n], req, n);
      if NamesReview(ps, req, n) {
        assert FirstReply(ps, req, n);
      }
      assert forall j :: FirstReply(ps, req, j) ==> j == n;
    }
  }

  lemma {:induction false} NoFirstReply(ps: seq<Proposal>, req: Request, n: nat)
    requires forall i :: !FirstReply(ps, req, i)
    ensures forall j :: 0 <= j < n ==> !NamesReview(ps, req, j)
  {
    if n > 0 {
      NoFirstReply(ps, req, n - 1);
      assert !FirstReply(ps, req, n - 1);
    }
  }

  // ---- one run per review ----

  ghost predicate OpenReply(v: View, id: string, store: string, review: string) {
    OpenCard(v, id, store, "review_response") && v[id].reviewId == review
  }

  /** The open replies to one review in a store are all of one run. */
  ghost predicate OneRunPerReview(v: View) {
    forall a, b, store, review ::
      store != "" && review != "" && OpenReply(v, a, store, review) && OpenReply(v, b, store, review)
      ==> RunOf(v[a]) == RunOf(v[b])
  }

  /** Every card open afterwards was open, and the same, before. */
  ghost predicate OnlyCloses(v: View, w: View) {
    forall id :: id in w && w[id].status == PENDING ==> id in v && v[id] == w[id]
  }

  lemma OtherStepsOnlyClose(v: View, step: Step)
    requires !step.Commit?
    ensures OnlyCloses(v, Next(v, step))
  {
  }

  lemma ClosingKeepsPerReview(v: View, w: View)
    requires OneRunPerReview(v) && OnlyCloses(v, w)
    ensures OneRunPerReview(w)
  {
    forall a, b, store, review |
      store != "" && review != "" && OpenReply(w, a, store, review) && OpenReply(w, b, store, review)
      ensures RunOf(w[a]) == RunOf(w[b])
    {
      assert OpenReply(v, a, store, review) && OpenReply(v, b, store, review);
    }
  }

  /** The run leaves an open reply to a review other than the one it answers. */
  ghost predicate AlsoReplies(ps: seq<Proposal>, req: Request, i: int, review: string) {
    && review != "" && review != Answered(ps, req)
    && Passes(ps, req, i) && LastToPass(ps, req, i, ps[i].card.id)
    && ps[i].card.status == PENDING && ps[i].card.reviewId == review
  }

  /** To no such review an open reply of another run is left. */
  ghost predicate RepliesBesideOwn(v: View, ps: seq<Proposal>, req: Request, runId: string) {
    forall i, b, review ::
      AlsoReplies(ps, req, i, review) && Spared(ps, req, b) && OpenReply(v, b, req.store, review) ==> RunOf(v[b]) == runId
  }

  /** A card open after a commit is one the run saved, or was open, and the same, before. */
  lemma AfterCommit(v: View, step: Step, id: string)
    requires Filed(v) && step.Commit? && step.runId != ""
    requires var w := Next(v, step); id in w && w[id].status == PENDING
    ensures var w := Next(v, step);
            if Spared(step.proposals, step.req, id) then id in v && w[id] == v[id]
            else exists i :: LastToPass(step.proposals, step.req, i, id) && SavedAs(w[id], step.proposals[i].card, step.req, step.runId)
  {
    var ps, req, runId := step.proposals, step.req, step.runId;
    if Spared(ps, req, id) {
      SparedIsNotSaved(ps, req, runId, id);
      SavedAt(v, Cards(Validated(ps), req, runId), id);
      CommitClosesExactly(v, req, ps, runId, step.now, id);
    } else {
      var j :| Passes(ps, req, j) && ps[j].card.id == id;
      HasLastToPass(ps, req, j);
      var i :| LastToPass(ps, req, i, id);
      PassingIsQueued(v, req, ps, runId, step.now, i);
    }
  }

  /** Runs of other agents leave the replies alone, and save none. */
  lemma OtherAgentsKeepPerReview(v: View, step: Step)
    requires Filed(v) && OneRunPerReview(v) && step.Commit? && StoreScoped(step) && step.req.agent != "review_response"
    ensures OneRunPerReview(Next(v, step))
  {
    var w := Next(v, step);
    forall a, b, store, review |
      store != "" && review != "" && OpenReply(w, a, store, review) && OpenReply(w, b, store, review)
      ensures RunOf(w[a]) == RunOf(w[b])
    {
      AfterCommit(v, step, a);
      AfterCommit(v, step, b);
      assert Spared(step.proposals, step.req, a) && Spared(step.proposals, step.req, b) by {
        OwnOnly(step, a);
        OwnOnly(step, b);
      }
      assert OpenReply(v, a, store, review) && OpenReply(v, b, store, review);
    }
  }

  /** What a store-scoped run saves is of its own agent and store. */
  lemma OwnOnly(step: Step, id: string)
    requires step.Commit? && StoreScoped(step)
    ensures forall rec, i :: LastToPass(step.proposals, step.req, i, id) && SavedAs(rec, step.proposals[i].card, step.req, step.runId)
              ==> rec.agent == step.req.agent && rec.store == step.req.store && RunOf(rec) == step.runId
  {
    forall i | LastToPass(step.proposals, step.req, i, id) ensures step.proposals[i].card.agent in {"", step.req.agent} {
      assert step.proposals[i] in step.proposals;
    }
  }

  /** A review run keeps one run open per review exactly if no open reply of another run is
      left to a review that it replies to besides the one it answers. */
  lemma ReviewCommitExactly(v: View, step: Step)
    requires Filed(v) && OneRunPerReview(v)
    requires step.Commit? && StoreScoped(step) && step.req.agent == "review_response"
    ensures OneRunPerReview(Next(v, step)) <==> RepliesBesideOwn(v, step.proposals, step.req, step.runId)
  {
    var w := Next(v, step);
    if OneRunPerReview(w) {
      forall i, b, review |
        AlsoReplies(step.proposals, step.req, i, review) && Spared(step.proposals, step.req, b) && OpenReply(v, b, step.req.store, review)
        ensures RunOf(v[b]) == step.runId
      {
        LeftBeside(v, step, i, b, review);
      }
    }
    if RepliesBesideOwn(v, step.proposals, step.req, step.runId) {
      forall a, b, store, review |
        store != "" && review != "" && OpenReply(w, a, store, review) && OpenReply(w, b, store, review)
        ensures RunOf(w[a]) == RunOf(w[b])
      {
        RepliesAgree(v, step, a, b, store, review);
      }
    }
  }

  lemma LeftBeside(v: View, step: Step, i: int, b: string, review: string)
    requires Filed(v) && step.Commit? && StoreScoped(step) && step.req.agent == "review_response"
    requires OneRunPerReview(Next(v, step))
    requires AlsoReplies(step.proposals, step.req, i, review) && Spared(step.proposals, step.req, b) && OpenReply(v, b, step.req.store, review)
    ensures RunOf(v[b]) == step.runId
  {
    var w, a := Next(v, step), step.proposals[i].card.id;
    PassingIsQueued(v, step.req, step.proposals, step.runId, step.now, i);
    OwnOnly(step, a);
    CommitClosesExactly(v, step.req, step.proposals, step.runId, step.now, b);
    assert OpenReply(w, a, step.req.store, review) && OpenReply(w, b, step.req.store, review);
  }

  lemma RepliesAgree(v: View, step: Step, a: string, b: string, store: string, review: string)
    requires Filed(v) && OneRunPerReview(v) && step.Commit? && StoreScoped(step) && step.req.agent == "review_response"
    requires RepliesBesideOwn(v, step.proposals, step.req, step.runId)
    requires store != "" && review != "" && OpenReply(Next(v, step), a, store, review) && OpenReply(Next(v, step), b, store, review)
    ensures RunOf(Next(v, step)[a]) == RunOf(Next(v, step)[b])
  {
    ReplyIsOwnOrOld(v, step, a, store, review);
    ReplyIsOwnOrOld(v, step, b, store, review);
    if Spared(step.proposals, step.req, a) && !Spared(step.proposals, step.req, b) {
      SavedReplyBeside(v, step, b, a, store, review);
    } else if !Spared(step.proposals, step.req, a) && Spared(step.proposals, step.req, b) {
      SavedReplyBeside(v, step, a, b, store, review);
    }
  }

  lemma ReplyIsOwnOrOld(v: View, step: Step, id: string, store: string, review: string)
    requires Filed(v) && step.Commit? && StoreScoped(step) && OpenReply(Next(v, step), id, store, review)
    ensures if Spared(step.proposals, step.req, id) then OpenReply(v, id, store, review) && Next(v, step)[id] == v[id]
            else RunOf(Next(v, step)[id]) == step.runId
  {
    AfterCommit(v, step, id);
    OwnOnly(step, id);
  }

  lemma SavedReplyBeside(v: View, step: Step, a: string, b: string, store: string, review: string)
    requires Filed(v) && step.Commit? && StoreScoped(step) && step.req.agent == "review_response"
    requires RepliesBesideOwn(v, step.proposals, step.req, step.runId)
    requires review != "" && OpenReply(Next(v, step), a, store, review) && OpenReply(Next(v, step), b, store, review)
    requires !Spared(step.proposals, step.req, a) && Spared(step.proposals, step.req, b)
    ensures RunOf(Next(v, step)[b]) == step.runId
  {
    AfterCommit(v, step, a);
    OwnOnly(step, a);
    AfterCommit(v, step, b);
    if review == Answered(step.proposals, step.req) {
      CommitClosesExactly(v, step.req, step.proposals, step.runId, step.now, b);
    } else {
      var i :| LastToPass(step.proposals, step.req, i, a)
               && SavedAs(Next(v, step)[a], step.proposals[i].card, step.req, step.runId);
      assert AlsoReplies(step.proposals, step.req, i, review);
    }
  }

  /** Such an input: a reply to review R2 by run r1 is open when run r2 of the store replies
      to R1 and then to R2; it answers R1 and leaves both replies to R2 open. */
  lemma SecondReplyPilesUp(now: string)
    ensures var reply := Card("b", "s1", "review_response", "DRAFT_REVIEW_REPLY", PENDING, Stamp(0, None),
                              "", "", "R1", "", "", "", false);
            var v := map["a" := reply.(id := "a", reviewId := "R2", runId := "r1")];
            var ps := [Proposal(reply, PROPOSE, true), Proposal(reply.(id := "c", reviewId := "R2"), PROPOSE, true)];
            OneRunPerReview(v) && !OneRunPerReview(Next(v, Commit(Request("review_response", "s1"), ps, "r2", now)))
  {
    var reply := Card("b", "s1", "review_response", "DRAFT_REVIEW_REPLY", PENDING, Stamp(0, None),
                      "", "", "R1", "", "", "", false);
    var v := map["a" := reply.(id := "a", reviewId := "R2", runId := "r1")];
    var ps := [Proposal(reply, PROPOSE, true), Proposal(reply.(id := "c", reviewId := "R2"), PROPOSE, true)];
    var req := Request("review_response", "s1");
    assert reply.kind[0] == 'D' && "NOTIFY_MANAGERS"[0] == 'N' && "R1"[1] != "R2"[1] && "a" != "b" && "a" != "c" && "b" != "c";
    assert "r1"[1] != "r2"[1];
    assert NamesReview(ps, req, 0) && FirstReply(ps, req, 0) && forall i :: FirstReply(ps, req, i) ==> i == 0;
    assert LastToPass(ps, req, 1, "c") && AlsoReplies(ps, req, 1, "R2");
    assert Spared(ps, req, "a") && OpenReply(v, "a", "s1", "R2") && RunOf(v["a"]) == "r1";
    assert forall p :: p in ps ==> p == ps[0] || p == ps[1];
    assert OneRunPerReview(v) && Filed(v);
    if OneRunPerReview(Next(v, Commit(req, ps, "r2", now))) {
      LeftBeside(v, Commit(req, ps, "r2", now), 1, "a", "R2");
    }
  }

  /** All review ids a review run brings are of one review, and are on its replies. */
  ghost predicate RepliesToOneReview(ps: seq<Proposal>) {
    forall p, q :: p in ps && q in ps && p.card.reviewId != "" && q.card.reviewId != "" ==>
      p.card.reviewId == q.card.reviewId && p.card.kind == "DRAFT_REVIEW_REPLY"
  }

  lemma OneReviewIsAnswered(v: View, ps: seq<Proposal>, req: Request, runId: string)
    requires RepliesToOneReview(ps)
    ensures RepliesBesideOwn(v, ps, req, runId)
  {
    forall i, review ensures !AlsoReplies(ps, req, i, review) {
      if Passes(ps, req, i) && ps[i].card.reviewId == review != "" {
        assert ps[i] in ps && NamesReview(ps, req, i);
        SomeFirstReply(ps, req, i);
        var k :| FirstReply(ps, req, k) && ps[k].card.reviewId == Answered(ps, req);
        assert ps[k] in ps;
      }
    }
  }

  lemma {:induction false} SomeFirstReply(ps: seq<Proposal>, req: Request, i: int)
    requires NamesReview(ps, req, i)
    ensures exists k :: FirstReply(ps, req, k) && ps[k].card.reviewId == Answered(ps, req)
  {
    if forall k :: !FirstReply(ps, req, k) {
      NoFirstReply(ps, req, i + 1);
    }
  }

  /** The queue of replies: every interleaving of store-scoped commits, of which each review
      run replies to one review, with resolves, superseding, sweeps, expiry and restarts
      leaves one run open per store and review. */
  lemma {:induction false} OneRunPerReviewAlways(v: View, steps: seq<Step>)
    requires Filed(v) && OneRunPerReview(v)
    requires forall i :: 0 <= i < |steps| ==> StoreScoped(steps[i])
    requires forall i :: 0 <= i < |steps| && steps[i].Commit? && steps[i].req.agent == "review_response" ==>
               RepliesToOneReview(steps[i].proposals)
    ensures Filed(Run(v, steps)) && OneRunPerReview(Run(v, steps))
  {
    if steps != [] {
      var front, last := steps[..|steps| - 1], steps[|steps| - 1];
      var u := Run(v, front);
      OneRunPerReviewAlways(v, front);
      NextKeepsFiled(u, last);
      if !last.Commit? {
        OtherStepsOnlyClose(u, last);
        ClosingKeepsPerReview(u, Next(u, last));
      } else if last.req.agent != "review_response" {
        OtherAgentsKeepPerReview(u, last);
      } else {
        OneReviewIsAnswered(u, last.proposals, last.req, last.runId);
        ReviewCommitExactly(u, last);
      }
    }
  }

  // ---- resolving, expiry, listing ----

  /** A card closed by hand has the verdict, the note and the time of it, and keeps the rest;
      all other cards stay. */
  lemma ResolveExactly(v: View, id: string, status: Status, note: string, now: string, other: string)
    requires status != PENDING && other in v
    ensures var w := Next(v, Resolve(id, status, note, now));
            w.Keys == v.Keys
            && w[other] == if other == id then v[other].(status := status, note := note, resolvedAt := now) else v[other]
  {
  }

  /** Expiry closes exactly the pending cards that were made at or before the cutoff. */
  lemma ExpiryExactly(v: View, cutoff: int, note: string, now: string, id: string)
    requires id in v
    ensures var w := Next(v, Expire(cutoff, note, now));
            var aged := v[id].created.instant.Some? && v[id].created.instant.value <= cutoff;
            w.Keys == v.Keys
            && w[id] == if v[id].status == PENDING && aged then v[id].(status := EXPIRED, note := note, resolvedAt := now) else v[id]
  {
  }

  /** Expiring at an earlier cutoff first leaves the same cards open. */
  lemma ExpiryInSteps(v: View, early: int, late: int, note: string, now: string)
    requires early <= late
    ensures PendingIds(Next(Next(v, Expire(early, note, now)), Expire(late, note, now))) == PendingIds(Next(v, Expire(late, note, now)))
  {
  }

  /** A list holds the cards of the store, status and agent asked for, if one is. */
  lemma SelectedExactly(v: View, store: string, status: Option<Status>, agent: string, decisionsOnly: bool, id: string)
    ensures id in Selected(v, store, status, agent, decisionsOnly) <==>
              id in v && (store != "" ==> v[id].store == store) && (agent != "" ==> v[id].agent == agent)
              && (status.Some? ==> v[id].status == status.value) && !(decisionsOnly && v[id].kind == "NOTIFY_MANAGERS")
  {
  }

  // ---- the sweep, card by card ----

  /** Cards one of which a newer run replaces: of one store and agent and, for replies, of
      one review; a reply without a review stands for itself. */
  predicate SameGroup(c: Card, d: Card) {
    c.store == d.store && c.agent == d.agent
    && (c.agent == "review_response" ==>
          (if c.reviewId != "" then c.reviewId else c.id) == (if d.reviewId != "" then d.reviewId else d.id))
  }

  predicate OpenDecision(c: Card) {
    c.status == PENDING && c.kind != "NOTIFY_MANAGERS"
  }

  ghost predicate NewestCard(v: View, n: string) {
    n in v && OpenDecision(v[n])
    && forall id :: id in v && id != n && OpenDecision(v[id]) && SameGroup(v[id], v[n]) ==> v[id].created.order < v[n].created.order
  }

  lemma OpenDecisionExactly(c: Card)
    ensures Decision(c) <==> OpenDecision(c)
  {
  }

  lemma SameGroupExactly(c: Card, d: Card)
    ensures GroupOf(c) == GroupOf(d) <==> SameGroup(c, d)
  {
  }

  lemma NewestIsChosen(v: View, newest: map<Group, string>, n: string)
    requires Filed(v) && NewestOf(v, newest) && NewestCard(v, n)
    ensures GroupOf(v[n]) in newest && newest[GroupOf(v[n])] == n
  {
    var g := GroupOf(v[n]);
    OpenDecisionExactly(v[n]);
    var m := newest[g];
    OpenDecisionExactly(v[m]);
    SameGroupExactly(v[m], v[n]);
  }

  /** Of the cards of one group the sweep leaves the newest and those of its run, if it has
      one; it closes all others, as it does every notification. Everything else it leaves. */
  lemma SweepExactly(v: View, newest: map<Group, string>, now: string, n: string, id: string)
    requires Filed(v) && NewestOf(v, newest) && id in v
    requires OpenDecision(v[id]) ==> NewestCard(v, n) && SameGroup(v[id], v[n])
    ensures var w, c := Next(v, Sweep(newest, now)), v[id];
            && w.Keys == v.Keys
            && w[id] == if c.status != PENDING then c
                        else if c.kind == "NOTIFY_MANAGERS"
                        then c.(status := SUPERSEDED, note := "Notification is not a manager decision card", resolvedAt := now)
                        else if id == n || (RunOf(v[n]) != "" && RunOf(c) == RunOf(v[n])) then c
                        else c.(status := SUPERSEDED, note := "Superseded by a newer agent run for this store", resolvedAt := now)
  {
    NoticesAreSideEffects(v[id].kind);
    if OpenDecision(v[id]) {
      NewestIsChosen(v, newest, n);
      OpenDecisionExactly(v[id]);
      SameGroupExactly(v[id], v[n]);
    }
  }
}
