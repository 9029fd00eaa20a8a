/** What every interleaving of agent posts and manager decisions keeps of the draft tables
    (src/masova_agent/services/demo_backend.py, src/masova_agent/runtime/proposal_apply.py). */
module DraftLaws {
  import opened Outcomes
  import opened DraftTables

  /** A post carries the row it was given, a decision the row it meant. Stores are ids. */
  datatype Step =
    | PostOrder(store: string, supplier: string, notes: string, items: seq<Item>, now: nat, freshId: string, id: string)
    | PostCampaign(store: string, kind: string, content: string, now: nat, freshId: string, id: string)
    | PostShifts(wanted: seq<Shift>, ids: seq<string>)
    | Approve(d: Decision, target: Option<string>)
    | Reject(d: Decision, target: Option<string>)

  predicate IsPost(step: Step) {
    step.PostOrder? || step.PostCampaign? || step.PostShifts?
  }

  ghost predicate Enabled(t: Tables, step: Step) {
    match step
    case PostOrder(store, supplier, _, _, now, freshId, id) =>
      freshId !in t.orders && OrderChosen(t, store, supplier, now, freshId, id)
    case PostCampaign(store, kind, _, now, freshId, id) =>
      freshId !in t.campaigns && CampaignChosen(t, store, kind, now, freshId, id)
    case PostShifts(wanted, ids) => |ids| == |wanted| && FreshIds(t.shifts, ids)
    case Approve(d, target) => TargetChosen(t, d, target)
    case Reject(d, target) => TargetChosen(t, d, target)
  }

  ghost function After(t: Tables, step: Step, round2: real -> real): Tables
    requires Enabled(t, step)
  {
    match step
    case PostOrder(store, supplier, notes, items, now, _, id) => WithOrder(t, store, supplier, notes, items, now, id)
    case PostCampaign(store, kind, content, now, _, id) => WithCampaign(t, store, kind, content, now, id)
    case PostShifts(wanted, ids) => t.(shifts := WithShifts(t.shifts, wanted, ids))
    case Approve(d, target) => Approved(t, d, target, round2)
    case Reject(d, target) => Rejected(t, d, target)
  }

  /** `ts` are the states of a run of the steps. */
  ghost predicate IsRun(ts: seq<Tables>, steps: seq<Step>, round2: real -> real) {
    |ts| == |steps| + 1 &&
    forall i :: 0 <= i < |steps| ==> Enabled(ts[i], steps[i]) && ts[i + 1] == After(ts[i], steps[i], round2)
  }

  // ---- at most one draft per key ----

  predicate SameOrderKey(o: Order, p: Order) {
    o.status == DRAFT && p.status == DRAFT && o.store == p.store && o.supplier == p.supplier && Day(o.createdAt) == Day(p.createdAt)
  }

  predicate SameCampaignKey(c: Campaign, d: Campaign) {
    c.status == DRAFT && d.status == DRAFT && c.store == d.store && c.kind == d.kind && Day(c.createdAt) == Day(d.createdAt)
  }

  predicate SameShiftKey(s: Shift, r: Shift) {
    s.status == DRAFT && r.status == DRAFT && s.store == r.store && s.date == r.date && s.staff == r.staff && s.start == r.start
  }

  ghost predicate OneDraftOrder(orders: map<string, Order>) {
    forall a, b :: a in orders && b in orders && SameOrderKey(orders[a], orders[b]) ==> a == b
  }

  ghost predicate OneDraftCampaign(campaigns: map<string, Campaign>) {
    forall a, b :: a in campaigns && b in campaigns && SameCampaignKey(campaigns[a], campaigns[b]) ==> a == b
  }

  ghost predicate OneDraftShift(shifts: map<string, Shift>) {
    forall a, b :: a in shifts && b in shifts && SameShiftKey(shifts[a], shifts[b]) ==> a == b
  }

  ghost predicate OneDraft(t: Tables) {
    OneDraftOrder(t.orders) && OneDraftCampaign(t.campaigns) && OneDraftShift(t.shifts)
  }

  lemma OnlyOpenOrder(orders: map<string, Order>, store: string, supplier: string, day: nat, id: string)
    requires OneDraftOrder(orders) && id in OpenOrders(orders, store, supplier, day)
    ensures OpenOrders(orders, store, supplier, day) == {id}
  {
    forall a | a in OpenOrders(orders, store, supplier, day) ensures a == id {
      assert SameOrderKey(orders[a], orders[id]);
    }
  }

  lemma PostOrderKeepsOneDraft(t: Tables, step: Step, round2: real -> real)
    requires step.PostOrder? && Enabled(t, step) && OneDraftOrder(t.orders)
    ensures OneDraftOrder(After(t, step, round2).orders)
  {
    var open := OpenOrders(t.orders, step.store, step.supplier, Day(step.now));
    if open != {} {
      OnlyOpenOrder(t.orders, step.store, step.supplier, Day(step.now), step.id);
    }
    assert open <= {step.id};
    var w := After(t, step, round2).orders;
    assert w[step.id].store == step.store && w[step.id].supplier == step.supplier && w[step.id].createdAt == step.now;
    forall a | a in w && a != step.id ensures !SameOrderKey(w[a], w[step.id]) {
      assert w[a] == t.orders[a] && a !in open;
    }
  }

  lemma OnlyOpenCampaign(campaigns: map<string, Campaign>, store: string, kind: string, day: nat, id: string)
    requires OneDraftCampaign(campaigns) && id in OpenCampaigns(campaigns, store, kind, day)
    ensures OpenCampaigns(campaigns, store, kind, day) == {id}
  {
    forall a | a in OpenCampaigns(campaigns, store, kind, day) ensures a == id {
      assert SameCampaignKey(campaigns[a], campaigns[id]);
    }
  }

  lemma PostCampaignKeepsOneDraft(t: Tables, step: Step, round2: real -> real)
    requires step.PostCampaign? && Enabled(t, step) && OneDraftCampaign(t.campaigns)
    ensures OneDraftCampaign(After(t, step, round2).campaigns)
  {
    var open := OpenCampaigns(t.campaigns, step.store, step.kind, Day(step.now));
    if open != {} {
      OnlyOpenCampaign(t.campaigns, step.store, step.kind, Day(step.now), step.id);
    }
    assert open <= {step.id};
    var w := After(t, step, round2).campaigns;
    assert w[step.id].store == step.store && w[step.id].kind == step.kind && w[step.id].createdAt == step.now;
    forall a | a in w && a != step.id ensures !SameCampaignKey(w[a], w[step.id]) {
      assert w[a] == t.campaigns[a] && a !in open;
    }
  }

  lemma {:induction false} PostShiftsKeepsOneDraft(shifts: map<string, Shift>, wanted: seq<Shift>, ids: seq<string>)
    requires |ids| == |wanted| && OneDraftShift(shifts)
    ensures OneDraftShift(WithShifts(shifts, wanted, ids))
  {
    if wanted != [] {
      var n := |wanted| - 1;
      PostShiftsKeepsOneDraft(shifts, wanted[..n], ids[..n]);
      var before := WithShifts(shifts, wanted[..n], ids[..n]);
      if !Duplicate(before, wanted[n]) {
        var added := wanted[n].(status := DRAFT);
        forall a | a in before ensures !SameShiftKey(before[a], added) {
          assert !OpenShift(before[a], wanted[n]);
        }
      }
    }
  }

  // ---- what a decision may change ----

  /** A changed row was one of the decision's store, and is no draft any more. */
  ghost predicate OrdersDecided(t: map<string, Order>, w: map<string, Order>, d: Decision) {
    w.Keys == t.Keys &&
    forall id :: id in t && w[id] != t[id] ==>
      d.kind == "DRAFT_PURCHASE_ORDER" && t[id].store == d.store == w[id].store && w[id].status != DRAFT
  }

  ghost predicate CampaignsDecided(t: map<string, Campaign>, w: map<string, Campaign>, d: Decision) {
    w.Keys == t.Keys &&
    forall id :: id in t && w[id] != t[id] ==>
      d.kind == "DRAFT_CHURN_CAMPAIGN" && t[id].store == d.store == w[id].store && w[id].status != DRAFT
  }

  /** Of shifts, moreover, only drafts are changed, whatever row the decision names. */
  ghost predicate ShiftsDecided(t: map<string, Shift>, w: map<string, Shift>, d: Decision) {
    w.Keys == t.Keys &&
    forall id :: id in t && w[id] != t[id] ==>
      d.kind == "DRAFT_SHIFT_ROSTER" && t[id].store == d.store == w[id].store && t[id].status == DRAFT && w[id].status != DRAFT
  }

  lemma ChosenOrder(t: Tables, d: Decision, target: Option<string>)
    requires d.kind == "DRAFT_PURCHASE_ORDER" && TargetChosen(t, d, target) && target.Some?
    ensures target.value in t.orders && t.orders[target.value].store == d.store
    ensures d.rowId == "" ==> t.orders[target.value].status == DRAFT
  {
    assert RowChosen(OrderHeads(t.orders), d.store, d.rowId, target);
  }

  lemma ChosenCampaign(t: Tables, d: Decision, target: Option<string>)
    requires d.kind == "DRAFT_CHURN_CAMPAIGN" && TargetChosen(t, d, target) && target.Some?
    ensures target.value in t.campaigns && t.campaigns[target.value].store == d.store
    ensures d.rowId == "" ==> t.campaigns[target.value].status == DRAFT
  {
    assert RowChosen(CampaignHeads(t.campaigns), d.store, d.rowId, target);
  }

  lemma OrdersAfterApproval(t: Tables, d: Decision, target: Option<string>, round2: real -> real)
    requires TargetChosen(t, d, target)
    ensures OrdersDecided(t.orders, Approved(t, d, target, round2).orders, d)
  {
    if d.kind == "DRAFT_PURCHASE_ORDER" && target.Some? {
      ChosenOrder(t, d, target);
    }
  }

  lemma OrdersAfterRejection(t: Tables, d: Decision, target: Option<string>)
    requires TargetChosen(t, d, target)
    ensures OrdersDecided(t.orders, Rejected(t, d, target).orders, d)
  {
    if d.kind == "DRAFT_PURCHASE_ORDER" && target.Some? {
      ChosenOrder(t, d, target);
    }
  }

  lemma CampaignsAfterApproval(t: Tables, d: Decision, target: Option<string>, round2: real -> real)
    requires TargetChosen(t, d, target)
    ensures CampaignsDecided(t.campaigns, Approved(t, d, target, round2).campaigns, d)
  {
    if d.kind == "DRAFT_CHURN_CAMPAIGN" && target.Some? {
      ChosenCampaign(t, d, target);
    }
  }

  lemma CampaignsAfterRejection(t: Tables, d: Decision, target: Option<string>)
    requires TargetChosen(t, d, target)
    ensures CampaignsDecided(t.campaigns, Rejected(t, d, target).campaigns, d)
  {
    if d.kind == "DRAFT_CHURN_CAMPAIGN" && target.Some? {
      ChosenCampaign(t, d, target);
    }
  }

  lemma AllShiftsDecided(t: map<string, Shift>, status: RowStatus, d: Decision)
    requires d.kind == "DRAFT_SHIFT_ROSTER" && status != DRAFT
    ensures ShiftsDecided(t, AllShifts(t, d.store, status), d)
  {
  }

  lemma ShiftsAfterApproval(t: Tables, d: Decision, target: Option<string>, round2: real -> real)
    ensures ShiftsDecided(t.shifts, Approved(t, d, target, round2).shifts, d)
  {
    if d.kind == "DRAFT_SHIFT_ROSTER" {
      AllShiftsDecided(t.shifts, CONFIRMED, d);
    } else {
      assert Approved(t, d, target, round2).shifts == t.shifts;
    }
  }

  lemma ShiftsAfterRejection(t: Tables, d: Decision, target: Option<string>)
    ensures ShiftsDecided(t.shifts, Rejected(t, d, target).shifts, d)
  {
    if d.kind == "DRAFT_SHIFT_ROSTER" {
      AllShiftsDecided(t.shifts, CANCELLED, d);
    } else {
      assert Rejected(t, d, target).shifts == t.shifts;
    }
  }

  /** Decisions on orders, campaigns and shifts leave other stores' rows and all rows of
      other tables alone; no decision adds or removes a row. */
  lemma DecisionStaysInStore(t: Tables, step: Step, round2: real -> real)
    requires !IsPost(step) && Enabled(t, step)
    ensures OrdersDecided(t.orders, After(t, step, round2).orders, step.d)
    ensures CampaignsDecided(t.campaigns, After(t, step, round2).campaigns, step.d)
    ensures ShiftsDecided(t.shifts, After(t, step, round2).shifts, step.d)
  {
    if step.Approve? {
      OrdersAfterApproval(t, step.d, step.target, round2);
      CampaignsAfterApproval(t, step.d, step.target, round2);
      ShiftsAfterApproval(t, step.d, step.target, round2);
    } else {
      OrdersAfterRejection(t, step.d, step.target);
      CampaignsAfterRejection(t, step.d, step.target);
      ShiftsAfterRejection(t, step.d, step.target);
    }
  }

  lemma DecisionKeepsOneDraft(t: Tables, step: Step, round2: real -> real)
    requires !IsPost(step) && Enabled(t, step) && OneDraft(t)
    ensures OneDraft(After(t, step, round2))
  {
    DecisionStaysInStore(t, step, round2);
    FewerDraftOrders(t.orders, After(t, step, round2).orders, step.d);
    FewerDraftCampaigns(t.campaigns, After(t, step, round2).campaigns, step.d);
    FewerDraftShifts(t.shifts, After(t, step, round2).shifts, step.d);
  }

  lemma FewerDraftOrders(t: map<string, Order>, w: map<string, Order>, d: Decision)
    requires OrdersDecided(t, w, d) && OneDraftOrder(t)
    ensures OneDraftOrder(w)
  {
    forall a, b | a in w && b in w && SameOrderKey(w[a], w[b]) ensures a == b {
      assert SameOrderKey(t[a], t[b]);
    }
  }

  lemma FewerDraftCampaigns(t: map<string, Campaign>, w: map<string, Campaign>, d: Decision)
    requires CampaignsDecided(t, w, d) && OneDraftCampaign(t)
    ensures OneDraftCampaign(w)
  {
    forall a, b | a in w && b in w && SameCampaignKey(w[a], w[b]) ensures a == b {
      assert SameCampaignKey(t[a], t[b]);
    }
  }

  lemma FewerDraftShifts(t: map<string, Shift>, w: map<string, Shift>, d: Decision)
    requires ShiftsDecided(t, w, d) && OneDraftShift(t)
    ensures OneDraftShift(w)
  {
    forall a, b | a in w && b in w && SameShiftKey(w[a], w[b]) ensures a == b {
      assert SameShiftKey(t[a], t[b]);
    }
  }

  lemma StepKeepsOneDraft(t: Tables, step: Step, round2: real -> real)
    requires Enabled(t, step) && OneDraft(t)
    ensures OneDraft(After(t, step, round2))
  {
    match step
    case PostOrder(_, _, _, _, _, _, _) => PostOrderKeepsOneDraft(t, step, round2);
    case PostCampaign(_, _, _, _, _, _) => PostCampaignKeepsOneDraft(t, step, round2);
    case PostShifts(wanted, ids) => PostShiftsKeepsOneDraft(t.shifts, wanted, ids);
    case _ => DecisionKeepsOneDraft(t, step, round2);
  }

  /** Over every interleaving there is at most one draft order per store, supplier and day,
      one draft campaign per store, kind and day, and one draft shift per store, date,
      person and start. */
  lemma {:induction false} OneDraftAlways(ts: seq<Tables>, steps: seq<Step>, round2: real -> real, n: nat)
    requires IsRun(ts, steps, round2) && OneDraft(ts[0]) && n < |ts|
    ensures OneDraft(ts[n])
  {
    if n > 0 {
      OneDraftAlways(ts, steps, round2, n - 1);
      StepKeepsOneDraft(ts[n - 1], steps[n - 1], round2);
    }
  }

  // ---- agents draft, managers decide ----

  predicate StillDraft(was: RowStatus, now: RowStatus, same: bool) {
    if was == DRAFT then now == DRAFT else same
  }

  /** Rows stay; those that are no drafts stay as they are, and drafts stay drafts. */
  ghost predicate OnlyDraftsTouched(t: Tables, w: Tables) {
    && (forall id :: id in t.orders ==>
          id in w.orders && StillDraft(t.orders[id].status, w.orders[id].status, w.orders[id] == t.orders[id]))
    && (forall id :: id in t.campaigns ==>
          id in w.campaigns && StillDraft(t.campaigns[id].status, w.campaigns[id].status, w.campaigns[id] == t.campaigns[id]))
    && (forall id :: id in t.shifts ==> id in w.shifts && w.shifts[id] == t.shifts[id])
  }

  /** Every row the posts add is a draft. */
  ghost predicate OnlyDraftsAdded(t: Tables, w: Tables) {
    && (forall id :: id in w.orders && id !in t.orders ==> w.orders[id].status == DRAFT)
    && (forall id :: id in w.campaigns && id !in t.campaigns ==> w.campaigns[id].status == DRAFT)
    && (forall id :: id in w.shifts && id !in t.shifts ==> w.shifts[id].status == DRAFT)
    && w.menu == t.menu && w.actions == t.actions
  }

  lemma {:induction false} PostedShift(shifts: map<string, Shift>, wanted: seq<Shift>, ids: seq<string>, id: string)
    requires |ids| == |wanted| && forall i :: 0 <= i < |ids| ==> ids[i] !in shifts
    ensures var w := WithShifts(shifts, wanted, ids);
            if id in shifts then id in w && w[id] == shifts[id] else id in w ==> w[id].status == DRAFT
  {
    if wanted != [] {
      var n := |wanted| - 1;
      PostedShift(shifts, wanted[..n], ids[..n], id);
    }
  }

  lemma PostedShifts(t: Tables, wanted: seq<Shift>, ids: seq<string>)
    requires |ids| == |wanted| && FreshIds(t.shifts, ids)
    ensures var w := t.(shifts := WithShifts(t.shifts, wanted, ids)); OnlyDraftsTouched(t, w) && OnlyDraftsAdded(t, w)
  {
    forall id ensures var w := WithShifts(t.shifts, wanted, ids);
                      if id in t.shifts then id in w && w[id] == t.shifts[id] else id in w ==> w[id].status == DRAFT
    {
      PostedShift(t.shifts, wanted, ids, id);
    }
  }

  lemma OrderTouchesOnlyDrafts(t: Tables, step: Step, round2: real -> real)
    requires step.PostOrder? && Enabled(t, step)
    ensures OnlyDraftsTouched(t, After(t, step, round2)) && OnlyDraftsAdded(t, After(t, step, round2))
  {
    assert step.id in t.orders ==> t.orders[step.id].status == DRAFT;
  }

  lemma CampaignTouchesOnlyDrafts(t: Tables, step: Step, round2: real -> real)
    requires step.PostCampaign? && Enabled(t, step)
    ensures OnlyDraftsTouched(t, After(t, step, round2)) && OnlyDraftsAdded(t, After(t, step, round2))
  {
    assert step.id in t.campaigns ==> t.campaigns[step.id].status == DRAFT;
  }

  lemma PostTouchesOnlyDrafts(t: Tables, step: Step, round2: real -> real)
    requires IsPost(step) && Enabled(t, step)
    ensures OnlyDraftsTouched(t, After(t, step, round2)) && OnlyDraftsAdded(t, After(t, step, round2))
  {
    match step
    case PostOrder(_, _, _, _, _, _, _) => OrderTouchesOnlyDrafts(t, step, round2);
    case PostCampaign(_, _, _, _, _, _) => CampaignTouchesOnlyDrafts(t, step, round2);
    case PostShifts(wanted, ids) => PostedShifts(t, wanted, ids);
  }

  /** However many posts agents make, only a manager's decision moves a row on. */
  lemma {:induction false} OnlyManagersMoveRows(ts: seq<Tables>, steps: seq<Step>, round2: real -> real, n: nat)
    requires IsRun(ts, steps, round2) && n < |ts|
    requires forall i :: 0 <= i < n ==> IsPost(steps[i])
    ensures OnlyDraftsTouched(ts[0], ts[n]) && OnlyDraftsAdded(ts[0], ts[n])
  {
    if n > 0 {
      OnlyManagersMoveRows(ts, steps, round2, n - 1);
      PostTouchesOnlyDrafts(ts[n - 1], steps[n - 1], round2);
    }
  }

  lemma {:induction false} OnlyListedRepriced(menu: map<string, real>, ids: seq<string>, factor: real, round2: real -> real)
    ensures Repriced(menu, ids, factor, round2).Keys == menu.Keys
    ensures forall id :: id in menu && id !in ids ==> Repriced(menu, ids, factor, round2)[id] == menu[id]
  {
    if ids != [] {
      OnlyListedRepriced(menu, ids[..|ids| - 1], factor, round2);
    }
  }

  /** The menu changes only by an approved price adjustment, and then in no other item than
      the listed ones; lines of orders never change by a decision. */
  lemma DecisionOnMenu(t: Tables, step: Step, round2: real -> real)
    requires !IsPost(step) && Enabled(t, step)
    ensures After(t, step, round2).lines == t.lines && After(t, step, round2).menu.Keys == t.menu.Keys
    ensures forall id :: id in t.menu && After(t, step, round2).menu[id] != t.menu[id] ==>
      step.Approve? && step.d.kind == "SUGGEST_PRICE_ADJUSTMENT" && id in step.d.itemIds
  {
    if step.Approve? && step.d.kind == "SUGGEST_PRICE_ADJUSTMENT" {
      OnlyListedRepriced(t.menu, step.d.itemIds, Factor(step.d.direction, step.d.percent), round2);
    } else {
      assert After(t, step, round2).menu == t.menu;
    }
  }

  /** The decision names an order of its store. */
  predicate NamesOrder(t: Tables, d: Decision) {
    d.rowId != "" && d.store != "" && d.rowId in t.orders && t.orders[d.rowId].store == d.store
  }

  predicate NamesCampaign(t: Tables, d: Decision) {
    d.rowId != "" && d.store != "" && d.rowId in t.campaigns && t.campaigns[d.rowId].store == d.store
  }

  /** Rows that are past DRAFT stay as they are. */
  ghost predicate SparesOrders(orders: map<string, Order>, w: map<string, Order>) {
    forall id :: id in orders && orders[id].status != DRAFT ==> id in w && w[id] == orders[id]
  }

  ghost predicate SparesCampaigns(campaigns: map<string, Campaign>, w: map<string, Campaign>) {
    forall id :: id in campaigns && campaigns[id].status != DRAFT ==> id in w && w[id] == campaigns[id]
  }

  /** An approval spares orders that are past DRAFT exactly if it names no order of its
      store, or a draft, or one that is approved already. */
  lemma OrderApprovalSparesExactly(t: Tables, d: Decision, target: Option<string>, round2: real -> real)
    requires d.kind == "DRAFT_PURCHASE_ORDER" && TargetChosen(t, d, target)
    ensures SparesOrders(t.orders, Approved(t, d, target, round2).orders)
            <==> NamesOrder(t, d) ==>
                   var o := t.orders[d.rowId];
                   o.status == DRAFT || (o.status == PENDING_APPROVAL && o.approvedBy == "demo-manager")
  {
    OrderTarget(t, d, target);
    if target.Some? {
      OneOrderSpared(t.orders, target.value,
                     t.orders[target.value].(status := PENDING_APPROVAL, approvedBy := "demo-manager"));
    }
  }

  /** The same for a rejection, and an order that was rejected for the same reason. */
  lemma OrderRejectionSparesExactly(t: Tables, d: Decision, target: Option<string>)
    requires d.kind == "DRAFT_PURCHASE_ORDER" && TargetChosen(t, d, target)
    ensures SparesOrders(t.orders, Rejected(t, d, target).orders)
            <==> NamesOrder(t, d) ==>
                   var o := t.orders[d.rowId];
                   o.status == DRAFT || (o.status == CANCELLED && o.reason == d.reason)
  {
    OrderTarget(t, d, target);
    if target.Some? {
      OneOrderSpared(t.orders, target.value, t.orders[target.value].(status := CANCELLED, reason := d.reason));
    }
  }

  lemma CampaignApprovalSparesExactly(t: Tables, d: Decision, target: Option<string>, round2: real -> real)
    requires d.kind == "DRAFT_CHURN_CAMPAIGN" && TargetChosen(t, d, target)
    ensures SparesCampaigns(t.campaigns, Approved(t, d, target, round2).campaigns)
            <==> NamesCampaign(t, d) ==> t.campaigns[d.rowId].status in {DRAFT, SCHEDULED}
  {
    CampaignTarget(t, d, target);
    if target.Some? {
      OneCampaignSpared(t.campaigns, target.value, t.campaigns[target.value].(status := SCHEDULED));
    }
  }

  lemma CampaignRejectionSparesExactly(t: Tables, d: Decision, target: Option<string>)
    requires d.kind == "DRAFT_CHURN_CAMPAIGN" && TargetChosen(t, d, target)
    ensures SparesCampaigns(t.campaigns, Rejected(t, d, target).campaigns)
            <==> NamesCampaign(t, d) ==> t.campaigns[d.rowId].status in {DRAFT, CANCELLED}
  {
    CampaignTarget(t, d, target);
    if target.Some? {
      OneCampaignSpared(t.campaigns, target.value, t.campaigns[target.value].(status := CANCELLED));
    }
  }

  /** The row a decision moves is the named one, or a draft. */
  lemma OrderTarget(t: Tables, d: Decision, target: Option<string>)
    requires d.kind == "DRAFT_PURCHASE_ORDER" && TargetChosen(t, d, target)
    ensures NamesOrder(t, d) ==> target == Some(d.rowId)
    ensures !NamesOrder(t, d) && target.Some? ==> target.value in t.orders && t.orders[target.value].status == DRAFT
  {
    assert RowChosen(OrderHeads(t.orders), d.store, d.rowId, target);
  }

  lemma CampaignTarget(t: Tables, d: Decision, target: Option<string>)
    requires d.kind == "DRAFT_CHURN_CAMPAIGN" && TargetChosen(t, d, target)
    ensures NamesCampaign(t, d) ==> target == Some(d.rowId)
    ensures !NamesCampaign(t, d) && target.Some? ==>
              target.value in t.campaigns && t.campaigns[target.value].status == DRAFT
  {
    assert RowChosen(CampaignHeads(t.campaigns), d.store, d.rowId, target);
  }

  lemma OneOrderSpared(orders: map<string, Order>, id: string, o: Order)
    requires id in orders
    ensures SparesOrders(orders, orders[id := o]) <==> orders[id].status == DRAFT || o == orders[id]
  {
    var w := orders[id := o];
    assert w[id] == o;
  }

  lemma OneCampaignSpared(campaigns: map<string, Campaign>, id: string, c: Campaign)
    requires id in campaigns
    ensures SparesCampaigns(campaigns, campaigns[id := c]) <==> campaigns[id].status == DRAFT || c == campaigns[id]
  {
    var w := campaigns[id := c];
    assert w[id] == c;
  }

  /** A decision on a roster leaves no draft shift of its store, and the opposite decision
      afterwards changes no shift. */
  lemma ShiftsDecidedOnce(t: Tables, d: Decision, round2: real -> real)
    requires d.kind == "DRAFT_SHIFT_ROSTER" && d.store != ""
    ensures var a, r := Approved(t, d, None, round2), Rejected(t, d, None);
            && (forall id :: id in a.shifts && a.shifts[id].store == d.store ==> a.shifts[id].status != DRAFT)
            && (forall id :: id in r.shifts && r.shifts[id].store == d.store ==> r.shifts[id].status != DRAFT)
            && Rejected(a, d, None).shifts == a.shifts && Approved(r, d, None, round2).shifts == r.shifts
  {
    var a, r := Approved(t, d, None, round2), Rejected(t, d, None);
    assert AllShifts(a.shifts, d.store, CANCELLED) == a.shifts;
    assert AllShifts(r.shifts, d.store, CONFIRMED) == r.shifts;
  }

  /** A named order obeys the last decision: nothing in the tables keeps a rejection from
      undoing an approval, or the other way round. */
  lemma LastDecisionWins(t: Tables, d: Decision, round2: real -> real)
    requires d.kind == "DRAFT_PURCHASE_ORDER" && d.rowId != "" && d.store != ""
    requires d.rowId in t.orders && t.orders[d.rowId].store == d.store
    ensures var row := Some(d.rowId);
            var a, r := Approved(t, d, row, round2), Rejected(t, d, row);
            && TargetChosen(t, d, row) && TargetChosen(a, d, row) && TargetChosen(r, d, row)
            && Rejected(a, d, row).orders[d.rowId].status == CANCELLED
            && Approved(r, d, row, round2).orders[d.rowId].status == PENDING_APPROVAL
  {
    var a, r := Approved(t, d, Some(d.rowId), round2), Rejected(t, d, Some(d.rowId));
    NamedChosen(t, d);
    NamedChosen(a, d);
    NamedChosen(r, d);
  }

  lemma NamedChosen(t: Tables, d: Decision)
    requires d.kind == "DRAFT_PURCHASE_ORDER" && d.rowId != "" && d.store != ""
    requires d.rowId in t.orders && t.orders[d.rowId].store == d.store
    ensures TargetChosen(t, d, Some(d.rowId))
  {
    assert RowChosen(OrderHeads(t.orders), d.store, d.rowId, Some(d.rowId));
  }

  /** Decisions that name no order never meet one row twice. */
  lemma UnnamedMoveOnce(t: Tables, d: Decision, target: Option<string>, later: Decision, next: Option<string>, round2: real -> real)
    requires d.kind == later.kind == "DRAFT_PURCHASE_ORDER" && later.rowId == ""
    requires TargetChosen(t, d, target) && target.Some?
    ensures TargetChosen(Approved(t, d, target, round2), later, next) ==> next != target
    ensures TargetChosen(Rejected(t, d, target), later, next) ==> next != target
  {
    ChosenOrder(t, d, target);
    var a, r := Approved(t, d, target, round2), Rejected(t, d, target);
    if TargetChosen(a, later, next) && next.Some? {
      ChosenOrder(a, later, next);
    }
    if TargetChosen(r, later, next) && next.Some? {
      ChosenOrder(r, later, next);
    }
  }

  // ---- the items of a posted order ----

  ghost predicate LinesOwned(t: Tables) {
    forall i :: 0 <= i < |t.lines| ==> t.lines[i].order in t.orders
  }

  lemma {:induction false} LinesOfConcat(a: seq<OrderLine>, b: seq<OrderLine>, id: string)
    ensures LinesOf(a + b, id) == LinesOf(a, id) + LinesOf(b, id)
  {
    if b == [] {
      assert a + b == a;
    } else {
      var n := |b| - 1;
      assert (a + b)[..|a + b| - 1] == a + b[..n];
      LinesOfConcat(a, b[..n], id);
    }
  }

  lemma {:induction false} LinesOfExcept(lines: seq<OrderLine>, id: string, other: string)
    ensures LinesOf(LinesExcept(lines, id), other) == if other == id then [] else LinesOf(lines, other)
  {
    if lines != [] {
      var n := |lines| - 1;
      var front := LinesExcept(lines[..n], id);
      LinesOfExcept(lines[..n], id, other);
      if lines[n].order == id {
        assert LinesExcept(lines, id) == front;
      } else {
        assert LinesExcept(lines, id) == front + [lines[n]] && (front + [lines[n]])[..|front|] == front;
      }
    }
  }

  lemma {:induction false} LinesExceptWithin(lines: seq<OrderLine>, id: string, l: OrderLine)
    requires l in LinesExcept(lines, id)
    ensures l in lines
  {
    var n := |lines| - 1;
    if l in LinesExcept(lines[..n], id) {
      LinesExceptWithin(lines[..n], id, l);
    }
  }

  lemma {:induction false} LinesOfNew(id: string, items: seq<Item>, other: string)
    ensures LinesOf(LinesFor(id, items), other) == if other == id then LinesFor(id, items) else []
  {
    if items != [] {
      var n := |items| - 1;
      LinesOfNew(id, items[..n], other);
      assert LinesFor(id, items)[..n] == LinesFor(id, items[..n]);
    }
  }

  lemma {:induction false} NoLinesOf(lines: seq<OrderLine>, id: string)
    requires forall i :: 0 <= i < |lines| ==> lines[i].order != id
    ensures LinesOf(lines, id) == []
  {
    if lines != [] {
      NoLinesOf(lines[..|lines| - 1], id);
    }
  }

  /** A post to a drafted order replaces its items. */
  lemma ItemsReplaced(lines: seq<OrderLine>, id: string, items: seq<Item>, other: string)
    ensures LinesOf(LinesExcept(lines, id) + LinesFor(id, items), other)
            == if other == id then LinesFor(id, items) else LinesOf(lines, other)
  {
    LinesOfExcept(lines, id, other);
    LinesOfNew(id, items, other);
    LinesOfConcat(LinesExcept(lines, id), LinesFor(id, items), other);
  }

  lemma ItemsAdded(lines: seq<OrderLine>, id: string, items: seq<Item>, other: string)
    requires forall i :: 0 <= i < |lines| ==> lines[i].order != id
    ensures LinesOf(lines + LinesFor(id, items), other)
            == if other == id then LinesFor(id, items) else LinesOf(lines, other)
  {
    LinesOfNew(id, items, other);
    LinesOfConcat(lines, LinesFor(id, items), other);
    NoLinesOf(lines, id);
  }

  /** After a post the order's items are exactly those of the post, and every other
      order's are what they were. */
  lemma PostedItemsExactly(t: Tables, step: Step, round2: real -> real, other: string)
    requires step.PostOrder? && Enabled(t, step) && LinesOwned(t)
    ensures LinesOf(After(t, step, round2).lines, other)
            == if other == step.id then LinesFor(step.id, step.items) else LinesOf(t.lines, other)
  {
    if step.id in t.orders {
      ItemsReplaced(t.lines, step.id, step.items, other);
    } else {
      ItemsAdded(t.lines, step.id, step.items, other);
    }
  }

  lemma LinesStayOwned(t: Tables, step: Step, round2: real -> real)
    requires Enabled(t, step) && LinesOwned(t)
    ensures LinesOwned(After(t, step, round2))
  {
    if step.PostOrder? {
      OrderStaysOwned(t, step.store, step.supplier, step.notes, step.items, step.now, step.id);
    } else {
      OtherStepsOnLines(t, step, round2);
    }
  }

  lemma OtherStepsOnLines(t: Tables, step: Step, round2: real -> real)
    requires Enabled(t, step) && !step.PostOrder?
    ensures After(t, step, round2).lines == t.lines && After(t, step, round2).orders.Keys == t.orders.Keys
  {
    if !IsPost(step) {
      DecisionOnMenu(t, step, round2);
      DecisionStaysInStore(t, step, round2);
    }
  }

  lemma LinesOwnedBy(front: seq<OrderLine>, orders: map<string, Order>, id: string, items: seq<Item>)
    requires id in orders && forall l :: l in front ==> l.order in orders
    ensures forall l :: l in front + LinesFor(id, items) ==> l.order in orders
  {
  }

  lemma OrderStaysOwned(t: Tables, store: string, supplier: string, notes: string, items: seq<Item>, now: nat, id: string)
    requires LinesOwned(t)
    ensures LinesOwned(WithOrder(t, store, supplier, notes, items, now, id))
  {
    var w := WithOrder(t, store, supplier, notes, items, now, id);
    var front := if id in t.orders then LinesExcept(t.lines, id) else t.lines;
    forall l | l in front ensures l.order in w.orders {
      if id in t.orders {
        LinesExceptWithin(t.lines, id, l);
      }
    }
    LinesOwnedBy(front, w.orders, id, items);
    forall i | 0 <= i < |w.lines| ensures w.lines[i].order in w.orders {
      assert w.lines[i] in front + LinesFor(id, items);
    }
  }

  predicate PostsTo(step: Step, id: string) {
    step.PostOrder? && step.id == id
  }

  /** No step but a post to the same order changes the items of an order. */
  lemma ItemsChangeOnlyByPost(t: Tables, step: Step, round2: real -> real, id: string)
    requires Enabled(t, step) && LinesOwned(t) && !PostsTo(step, id)
    ensures LinesOf(After(t, step, round2).lines, id) == LinesOf(t.lines, id)
  {
    if step.PostOrder? {
      PostedItemsExactly(t, step, round2, id);
    } else {
      OtherStepsOnLines(t, step, round2);
    }
  }

  lemma ItemsAfterStep(t: Tables, step: Step, round2: real -> real, id: string, items: seq<Item>)
    requires Enabled(t, step) && LinesOwned(t)
    requires if PostsTo(step, id) then step.items == items else LinesOf(t.lines, id) == LinesFor(id, items)
    ensures LinesOf(After(t, step, round2).lines, id) == LinesFor(id, items)
  {
    if PostsTo(step, id) {
      PostedItemsExactly(t, step, round2, id);
    } else {
      ItemsChangeOnlyByPost(t, step, round2, id);
    }
  }

  /** In every run an order holds exactly the items of the last post to it. */
  lemma {:induction false} OrderHoldsLastPost(ts: seq<Tables>, steps: seq<Step>, round2: real -> real, k: nat, n: nat,
                                              id: string, items: seq<Item>)
    requires IsRun(ts, steps, round2) && LinesOwned(ts[0])
    requires k < n < |ts| && PostsTo(steps[k], id) && steps[k].items == items
    requires forall i :: k < i < n ==> !PostsTo(steps[i], id)
    ensures LinesOf(ts[n].lines, id) == LinesFor(id, items)
  {
    OwnedAlways(ts, steps, round2, n - 1);
    if n > k + 1 {
      OrderHoldsLastPost(ts, steps, round2, k, n - 1, id, items);
    }
    ItemsAfterStep(ts[n - 1], steps[n - 1], round2, id, items);
  }

  lemma {:induction false} OwnedAlways(ts: seq<Tables>, steps: seq<Step>, round2: real -> real, n: nat)
    requires IsRun(ts, steps, round2) && LinesOwned(ts[0]) && n < |ts|
    ensures LinesOwned(ts[n])
  {
    if n > 0 {
      OwnedAlways(ts, steps, round2, n - 1);
      LinesStayOwned(ts[n - 1], steps[n - 1], round2);
    }
  }
}
