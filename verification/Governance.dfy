/** The proposals and the draft tables together: agents post and save, managers decide, and a
    decision is carried out on the tables (src/masova_agent/tools/proposal_tools.py,
    src/masova_agent/runtime/proposal_apply.py, src/masova_agent/services/demo_backend.py). */
module Governance {
  import opened Outcomes
  import opened ProposalStore
  import D = DraftTables
  import L = DraftLaws
  import R = DecisionLaws
  import T = ProposalTools

  datatype World = World(desk: T.State, tables: D.Tables)

  /** An event of the proposals, with the row its decision means if it acts, or a post. */
  datatype Action = Desk(event: T.Event, target: Option<string>) | Post(step: L.Step)

  /** What the tables are told of a resolved card. */
  type Meaning = Card -> D.Decision

  /** The event decides a proposal: it is applied. */
  ghost predicate Acts(w: World, a: Action) {
    a.Desk? && a.event.Decide? && T.After(w.desk, a.event) != w.desk
  }

  ghost function Told(w: World, a: Action, meaning: Meaning): L.Step
    requires Acts(w, a)
  {
    var d := meaning(T.After(w.desk, a.event).cards[a.event.id]);
    if a.event.verdict == APPROVED then L.Approve(d, a.target) else L.Reject(d, a.target)
  }

  ghost predicate Enabled(w: World, a: Action, meaning: Meaning) {
    match a
    case Desk(e, _) => T.Guarded(w.desk, e) && (Acts(w, a) ==> L.Enabled(w.tables, Told(w, a, meaning)))
    case Post(step) => L.IsPost(step) && L.Enabled(w.tables, step)
  }

  ghost function After(w: World, a: Action, meaning: Meaning, round2: real -> real): World
    requires Enabled(w, a, meaning)
  {
    match a
    case Desk(e, _) =>
      World(T.After(w.desk, e), if Acts(w, a) then L.After(w.tables, Told(w, a, meaning), round2) else w.tables)
    case Post(step) => w.(tables := L.After(w.tables, step, round2))
  }

  /** `ws` are the states of a run of the actions; at its start no proposal was applied twice. */
  ghost predicate IsRun(ws: seq<World>, acts: seq<Action>, meaning: Meaning, round2: real -> real) {
    && |ws| == |acts| + 1 && T.AppliedOnce(ws[0].desk)
    && forall i :: 0 <= i < |acts| ==> Enabled(ws[i], acts[i], meaning) && ws[i + 1] == After(ws[i], acts[i], meaning, round2)
  }

  lemma StepKeepsOnce(w: World, a: Action, meaning: Meaning, round2: real -> real)
    requires Enabled(w, a, meaning) && T.AppliedOnce(w.desk)
    ensures var n := After(w, a, meaning, round2);
            && T.AppliedOnce(n.desk) && w.desk.applied <= n.desk.applied
            && (Acts(w, a) ==> n.desk.applied == w.desk.applied + [T.Applied(a.event.id, a.event.verdict)])
  {
    if a.Desk? {
      T.GuardedStep(w.desk, a.event);
    }
  }

  lemma {:induction false} OnceAlways(ws: seq<World>, acts: seq<Action>, meaning: Meaning, round2: real -> real, i: nat, n: nat)
    requires IsRun(ws, acts, meaning, round2) && i <= n < |ws|
    ensures T.AppliedOnce(ws[n].desk) && ws[i].desk.applied <= ws[n].desk.applied
  {
    if n > 0 {
      OnceAlways(ws, acts, meaning, round2, if i < n then i else n - 1, n - 1);
      StepKeepsOnce(ws[n - 1], acts[n - 1], meaning, round2);
    }
  }

  /** No proposal acts on the tables twice. */
  lemma ActsOnce(ws: seq<World>, acts: seq<Action>, meaning: Meaning, round2: real -> real, i: nat, j: nat)
    requires IsRun(ws, acts, meaning, round2) && i < j < |acts| && Acts(ws[i], acts[i]) && Acts(ws[j], acts[j])
    ensures acts[i].event.id != acts[j].event.id
  {
    OnceAlways(ws, acts, meaning, round2, i, i);
    StepKeepsOnce(ws[i], acts[i], meaning, round2);
    OnceAlways(ws, acts, meaning, round2, i + 1, j);
    StepKeepsOnce(ws[j], acts[j], meaning, round2);
    OnceAlways(ws, acts, meaning, round2, j, j + 1);
    var k, all := |ws[i].desk.applied|, ws[j + 1].desk.applied;
    assert ws[i + 1].desk.applied[k].id == acts[i].event.id;
    assert all[k] == ws[j].desk.applied[k] == ws[i + 1].desk.applied[k];
    assert all[|all| - 1].id == acts[j].event.id;
  }

  /** Action `i` carries out a decision, and no other action is by the same proposal. */
  ghost predicate ByOneProposal(ws: seq<World>, acts: seq<Action>, i: nat)
    requires |ws| == |acts| + 1 && i < |acts|
  {
    Acts(ws[i], acts[i]) && forall j :: 0 <= j < |acts| && j != i && Acts(ws[j], acts[j]) ==> acts[j].event.id != acts[i].event.id
  }

  lemma ActsAlone(ws: seq<World>, acts: seq<Action>, meaning: Meaning, round2: real -> real, i: nat)
    requires IsRun(ws, acts, meaning, round2) && i < |acts| && Acts(ws[i], acts[i])
    ensures ByOneProposal(ws, acts, i)
  {
    forall j | 0 <= j < |acts| && j != i && Acts(ws[j], acts[j]) ensures acts[j].event.id != acts[i].event.id {
      if j < i {
        ActsOnce(ws, acts, meaning, round2, j, i);
      } else {
        ActsOnce(ws, acts, meaning, round2, i, j);
      }
    }
  }

  /** The action told the tables a decision of the kind, about the store. */
  ghost predicate Decides(w: World, a: Action, meaning: Meaning, kind: string, store: string) {
    Acts(w, a) && Told(w, a, meaning).d.kind == kind && Told(w, a, meaning).d.store == store
  }

  /** An order whose status changes is moved by a decision on an order of its store, and by
      the one decision of that proposal. */
  lemma OrderMovedByOneProposal(ws: seq<World>, acts: seq<Action>, meaning: Meaning, round2: real -> real, i: nat, id: string)
    requires IsRun(ws, acts, meaning, round2) && i < |acts| && id in ws[i].tables.orders
    ensures id in ws[i + 1].tables.orders
    ensures ws[i + 1].tables.orders[id].status != ws[i].tables.orders[id].status ==>
              && ByOneProposal(ws, acts, i)
              && Decides(ws[i], acts[i], meaning, "DRAFT_PURCHASE_ORDER", ws[i].tables.orders[id].store)
  {
    TablesMove(ws[i], acts[i], meaning, round2);
    if Acts(ws[i], acts[i]) {
      ActsAlone(ws, acts, meaning, round2, i);
    }
  }

  lemma CampaignMovedByOneProposal(ws: seq<World>, acts: seq<Action>, meaning: Meaning, round2: real -> real, i: nat, id: string)
    requires IsRun(ws, acts, meaning, round2) && i < |acts| && id in ws[i].tables.campaigns
    ensures id in ws[i + 1].tables.campaigns
    ensures ws[i + 1].tables.campaigns[id].status != ws[i].tables.campaigns[id].status ==>
              && ByOneProposal(ws, acts, i)
              && Decides(ws[i], acts[i], meaning, "DRAFT_CHURN_CAMPAIGN", ws[i].tables.campaigns[id].store)
  {
    TablesMove(ws[i], acts[i], meaning, round2);
    if Acts(ws[i], acts[i]) {
      ActsAlone(ws, acts, meaning, round2, i);
    }
  }

  /** A shift, moreover, is moved once in its life: only while it is a draft. */
  lemma ShiftMovedByOneProposal(ws: seq<World>, acts: seq<Action>, meaning: Meaning, round2: real -> real, i: nat, id: string)
    requires IsRun(ws, acts, meaning, round2) && i < |acts| && id in ws[i].tables.shifts
    ensures id in ws[i + 1].tables.shifts
    ensures ws[i + 1].tables.shifts[id] != ws[i].tables.shifts[id] ==>
              && ByOneProposal(ws, acts, i) && ws[i].tables.shifts[id].status == D.DRAFT
              && ws[i + 1].tables.shifts[id].status != D.DRAFT
              && Decides(ws[i], acts[i], meaning, "DRAFT_SHIFT_ROSTER", ws[i].tables.shifts[id].store)
  {
    TablesMove(ws[i], acts[i], meaning, round2);
    if Acts(ws[i], acts[i]) {
      ActsAlone(ws, acts, meaning, round2, i);
    }
  }

  /** A price changes only by an approved adjustment that lists the item, one per proposal. */
  lemma PriceMovedByOneProposal(ws: seq<World>, acts: seq<Action>, meaning: Meaning, round2: real -> real, i: nat, id: string)
    requires IsRun(ws, acts, meaning, round2) && i < |acts| && id in ws[i].tables.menu
    ensures id in ws[i + 1].tables.menu
    ensures ws[i + 1].tables.menu[id] != ws[i].tables.menu[id] ==>
              && ByOneProposal(ws, acts, i) && acts[i].event.verdict == APPROVED
              && Told(ws[i], acts[i], meaning).d.kind == "SUGGEST_PRICE_ADJUSTMENT"
              && id in Told(ws[i], acts[i], meaning).d.itemIds
  {
    MenuMoves(ws[i], acts[i], meaning, round2);
    if Acts(ws[i], acts[i]) {
      ActsAlone(ws, acts, meaning, round2, i);
    }
  }

  /** A row that moves, moves by the verdict on its proposal: an order to the supplier's
      approval or to cancelled. */
  lemma OrderMovesByVerdict(ws: seq<World>, acts: seq<Action>, meaning: Meaning, round2: real -> real, i: nat, id: string)
    requires IsRun(ws, acts, meaning, round2) && i < |acts| && id in ws[i].tables.orders && id in ws[i + 1].tables.orders
    requires ws[i + 1].tables.orders[id].status != ws[i].tables.orders[id].status
    ensures Acts(ws[i], acts[i])
    ensures var o := ws[i].tables.orders[id];
            ws[i + 1].tables.orders[id]
            == if acts[i].event.verdict == APPROVED then o.(status := D.PENDING_APPROVAL, approvedBy := "demo-manager")
               else o.(status := D.CANCELLED, reason := Told(ws[i], acts[i], meaning).d.reason)
  {
    OrderMovedByOneProposal(ws, acts, meaning, round2, i, id);
    R.OrderDecision(ws[i].tables, Told(ws[i], acts[i], meaning), round2);
  }

  /** A campaign is scheduled or cancelled. */
  lemma CampaignMovesByVerdict(ws: seq<World>, acts: seq<Action>, meaning: Meaning, round2: real -> real, i: nat, id: string)
    requires IsRun(ws, acts, meaning, round2) && i < |acts| && id in ws[i].tables.campaigns && id in ws[i + 1].tables.campaigns
    requires ws[i + 1].tables.campaigns[id].status != ws[i].tables.campaigns[id].status
    ensures Acts(ws[i], acts[i])
    ensures ws[i + 1].tables.campaigns[id]
            == ws[i].tables.campaigns[id].(status := if acts[i].event.verdict == APPROVED then D.SCHEDULED else D.CANCELLED)
  {
    CampaignMovedByOneProposal(ws, acts, meaning, round2, i, id);
    R.CampaignDecision(ws[i].tables, Told(ws[i], acts[i], meaning), round2);
  }

  /** A shift is confirmed or cancelled, and all draft shifts of its store with it. */
  lemma ShiftsMoveByVerdict(ws: seq<World>, acts: seq<Action>, meaning: Meaning, round2: real -> real, i: nat, id: string, other: string)
    requires IsRun(ws, acts, meaning, round2) && i < |acts|
    requires id in ws[i].tables.shifts && id in ws[i + 1].tables.shifts && ws[i + 1].tables.shifts[id] != ws[i].tables.shifts[id]
    requires other in ws[i].tables.shifts
    ensures Acts(ws[i], acts[i]) && other in ws[i + 1].tables.shifts
    ensures var s := ws[i].tables.shifts[other];
            ws[i + 1].tables.shifts[other]
            == if s.store == ws[i].tables.shifts[id].store && s.status == D.DRAFT
               then s.(status := if acts[i].event.verdict == APPROVED then D.CONFIRMED else D.CANCELLED)
               else s
  {
    ShiftMovedByOneProposal(ws, acts, meaning, round2, i, id);
    R.RosterDecision(ws[i].tables, Told(ws[i], acts[i], meaning), round2);
  }

  /** What one action may do to the rows there are. */
  lemma TablesMove(w: World, a: Action, meaning: Meaning, round2: real -> real)
    requires Enabled(w, a, meaning)
    ensures var n := After(w, a, meaning, round2).tables;
            if Acts(w, a) then
              var d := Told(w, a, meaning).d;
              L.OrdersDecided(w.tables.orders, n.orders, d) && L.CampaignsDecided(w.tables.campaigns, n.campaigns, d)
              && L.ShiftsDecided(w.tables.shifts, n.shifts, d)
            else L.OnlyDraftsTouched(w.tables, n)
  {
    match a
    case Desk(_, _) =>
      if Acts(w, a) {
        L.DecisionStaysInStore(w.tables, Told(w, a, meaning), round2);
      }
    case Post(step) => L.PostTouchesOnlyDrafts(w.tables, step, round2);
  }

  lemma MenuMoves(w: World, a: Action, meaning: Meaning, round2: real -> real)
    requires Enabled(w, a, meaning)
    ensures var n := After(w, a, meaning, round2).tables;
            && n.menu.Keys == w.tables.menu.Keys
            && forall id :: id in w.tables.menu && n.menu[id] != w.tables.menu[id] ==>
                 Acts(w, a) && a.event.verdict == APPROVED
                 && Told(w, a, meaning).d.kind == "SUGGEST_PRICE_ADJUSTMENT" && id in Told(w, a, meaning).d.itemIds
  {
    match a
    case Desk(_, _) =>
      if Acts(w, a) {
        L.DecisionOnMenu(w.tables, Told(w, a, meaning), round2);
      }
    case Post(step) => L.PostTouchesOnlyDrafts(w.tables, step, round2);
  }

  lemma ActClosesCard(w: World, a: Action)
    requires Acts(w, a)
    ensures var id := a.event.id;
            && id in w.desk.cards && w.desk.cards[id].status == PENDING
            && id in T.After(w.desk, a.event).cards && T.After(w.desk, a.event).cards[id].status == a.event.verdict
  {
  }

  lemma ClosedStaysOneStep(w: World, a: Action, meaning: Meaning, round2: real -> real)
    requires Enabled(w, a, meaning) && T.AppliedOnce(w.desk)
    ensures T.ClosedStay(w.desk.cards, After(w, a, meaning, round2).desk.cards)
  {
    if a.Desk? {
      T.GuardedStep(w.desk, a.event);
    }
  }

  lemma VerdictStays(w: World, a: Action, meaning: Meaning, round2: real -> real, id: string)
    requires Enabled(w, a, meaning) && T.AppliedOnce(w.desk) && id in w.desk.cards && w.desk.cards[id].status != PENDING
    ensures var n := After(w, a, meaning, round2).desk.cards; id in n && n[id] == w.desk.cards[id]
  {
    ClosedStaysOneStep(w, a, meaning, round2);
  }

  lemma ActsByVerdict(w: World, a: Action, meaning: Meaning)
    requires Enabled(w, a, meaning) && Acts(w, a)
    ensures a.event.verdict != PENDING
  {
  }

  /** A proposal that acted is closed, by its verdict, in every later state. */
  lemma {:induction false} ActedStaysClosed(ws: seq<World>, acts: seq<Action>, meaning: Meaning, round2: real -> real, i: nat, n: nat)
    requires IsRun(ws, acts, meaning, round2) && i < n < |ws| && Acts(ws[i], acts[i])
    ensures acts[i].event.id in ws[i].desk.cards && ws[i].desk.cards[acts[i].event.id].status == PENDING
    ensures acts[i].event.id in ws[n].desk.cards && ws[n].desk.cards[acts[i].event.id].status == acts[i].event.verdict
  {
    ActClosesCard(ws[i], acts[i]);
    if n > i + 1 {
      ActedStaysClosed(ws, acts, meaning, round2, i, n - 1);
      OnceAlways(ws, acts, meaning, round2, n - 1, n - 1);
      ActsByVerdict(ws[i], acts[i], meaning);
      VerdictStays(ws[n - 1], acts[n - 1], meaning, round2, acts[i].event.id);
    } else {
      assert ws[n].desk == T.After(ws[i].desk, acts[i].event);
    }
  }
}
