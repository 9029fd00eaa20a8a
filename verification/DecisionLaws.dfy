/** What one post or one decision leaves in the draft tables, row by row
    (src/masova_agent/services/demo_backend.py, src/masova_agent/runtime/proposal_apply.py). */
module DecisionLaws {
  import opened Outcomes
  import opened DraftTables
  import opened DraftLaws

  // ---- decisions on orders and campaigns ----

  /** The order a decision moves: the one it names, if that is of its store; without a name
      the newest draft of the store; none if there is none. */
  ghost predicate MovedOrder(orders: map<string, Order>, d: Decision, target: Option<string>) {
    if d.store == "" then target == None
    else if d.rowId != "" then
      target == if d.rowId in orders && orders[d.rowId].store == d.store then Some(d.rowId) else None
    else if forall id :: id in orders && orders[id].store == d.store ==> orders[id].status != DRAFT then target == None
    else
      target.Some? && target.value in orders && orders[target.value].store == d.store && orders[target.value].status == DRAFT
      && forall id :: id in orders && orders[id].store == d.store && orders[id].status == DRAFT ==>
           orders[id].createdAt <= orders[target.value].createdAt
  }

  ghost predicate MovedCampaign(campaigns: map<string, Campaign>, d: Decision, target: Option<string>) {
    if d.store == "" then target == None
    else if d.rowId != "" then
      target == if d.rowId in campaigns && campaigns[d.rowId].store == d.store then Some(d.rowId) else None
    else if forall id :: id in campaigns && campaigns[id].store == d.store ==> campaigns[id].status != DRAFT then target == None
    else
      target.Some? && target.value in campaigns && campaigns[target.value].store == d.store
      && campaigns[target.value].status == DRAFT
      && forall id :: id in campaigns && campaigns[id].store == d.store && campaigns[id].status == DRAFT ==>
           campaigns[id].createdAt <= campaigns[target.value].createdAt
  }

  /** The row given to a decision on orders is the one it means. */
  lemma OrderIsChosen(t: Tables, d: Decision, target: Option<string>)
    requires d.kind == "DRAFT_PURCHASE_ORDER" && TargetChosen(t, d, target)
    ensures MovedOrder(t.orders, d, target)
  {
    var heads := OrderHeads(t.orders);
    assert RowChosen(heads, d.store, d.rowId, target);
    assert forall id :: id in t.orders ==> (id in Drafts(heads, d.store) <==> t.orders[id].store == d.store && t.orders[id].status == DRAFT);
  }

  /** The same for campaigns. */
  lemma CampaignIsChosen(t: Tables, d: Decision, target: Option<string>)
    requires d.kind == "DRAFT_CHURN_CAMPAIGN" && TargetChosen(t, d, target)
    ensures MovedCampaign(t.campaigns, d, target)
  {
    var heads := CampaignHeads(t.campaigns);
    assert RowChosen(heads, d.store, d.rowId, target);
    assert forall id :: id in t.campaigns ==>
      (id in Drafts(heads, d.store) <==> t.campaigns[id].store == d.store && t.campaigns[id].status == DRAFT);
  }

  /** A decision on an order changes one order of the store at most: approved, it waits for
      the supplier under the manager's name; rejected, it is cancelled for the reason given. */
  lemma OrderDecision(t: Tables, step: Step, round2: real -> real)
    requires !IsPost(step) && step.d.kind == "DRAFT_PURCHASE_ORDER" && Enabled(t, step)
    ensures var w := After(t, step, round2);
            && w.orders.Keys == t.orders.Keys && w == t.(orders := w.orders)
            && forall id :: id in t.orders ==>
                 w.orders[id] == if step.target != Some(id) then t.orders[id]
                                 else if step.Approve? then t.orders[id].(status := PENDING_APPROVAL, approvedBy := "demo-manager")
                                 else t.orders[id].(status := CANCELLED, reason := step.d.reason)
  {
    if step.target.Some? {
      OrderIsChosen(t, step.d, step.target);
    }
  }

  /** The same for a campaign: approved, it is scheduled; rejected, it is cancelled. */
  lemma CampaignDecision(t: Tables, step: Step, round2: real -> real)
    requires !IsPost(step) && step.d.kind == "DRAFT_CHURN_CAMPAIGN" && Enabled(t, step)
    ensures var w := After(t, step, round2);
            && w.campaigns.Keys == t.campaigns.Keys && w == t.(campaigns := w.campaigns)
            && forall id :: id in t.campaigns ==>
                 w.campaigns[id] == if step.target != Some(id) then t.campaigns[id]
                                    else t.campaigns[id].(status := if step.Approve? then SCHEDULED else CANCELLED)
  {
    if step.target.Some? {
      CampaignIsChosen(t, step.d, step.target);
    }
  }

  /** A decision on a roster settles every draft shift of the store, approved ones as
      confirmed and rejected ones as cancelled, and leaves every other shift. */
  lemma RosterDecision(t: Tables, step: Step, round2: real -> real)
    requires !IsPost(step) && step.d.kind == "DRAFT_SHIFT_ROSTER" && Enabled(t, step)
    ensures var w := After(t, step, round2);
            && w.shifts.Keys == t.shifts.Keys && w == t.(shifts := w.shifts)
            && forall id :: id in t.shifts ==>
                 w.shifts[id] == if step.d.store == "" || t.shifts[id].store != step.d.store || t.shifts[id].status != DRAFT
                                 then t.shifts[id]
                                 else t.shifts[id].(status := if step.Approve? then CONFIRMED else CANCELLED)
  {
  }

  /** An approved forecast, reply or kitchen brief is recorded as one manager action of its
      store; a rejected one, and any kind not known, changes no table. */
  lemma OtherDecision(t: Tables, step: Step, round2: real -> real)
    requires !IsPost(step) && Enabled(t, step)
    requires step.d.kind !in {"DRAFT_PURCHASE_ORDER", "DRAFT_CHURN_CAMPAIGN", "DRAFT_SHIFT_ROSTER", "SUGGEST_PRICE_ADJUSTMENT"}
    ensures After(t, step, round2)
            == if step.Approve? && step.d.kind in {"WRITE_FORECAST", "DRAFT_REVIEW_REPLY", "DRAFT_KITCHEN_BRIEF"}
               then t.(actions := t.actions + [(step.d.store, step.d.kind)])
               else t
  {
  }

  /** The kinds an approval reports as carried out, and those a rejection does. A roster needs
      a store. */
  lemma ReportedKinds(d: Decision)
    ensures Approvable(d) <==>
              d.kind == "DRAFT_PURCHASE_ORDER" || d.kind == "DRAFT_CHURN_CAMPAIGN" || d.kind == "SUGGEST_PRICE_ADJUSTMENT"
              || d.kind == "WRITE_FORECAST" || d.kind == "DRAFT_REVIEW_REPLY" || d.kind == "DRAFT_KITCHEN_BRIEF"
              || (d.kind == "DRAFT_SHIFT_ROSTER" && d.store != "")
    ensures Rejectable(d) <==>
              d.kind == "DRAFT_PURCHASE_ORDER" || d.kind == "DRAFT_CHURN_CAMPAIGN" || d.kind == "SUGGEST_PRICE_ADJUSTMENT"
              || (d.kind == "DRAFT_SHIFT_ROSTER" && d.store != "")
  {
  }

  // ---- posts ----

  /** Of two times in seconds: they fall on one day. */
  predicate SameDay(a: nat, b: nat) {
    a / 86400 == b / 86400
  }

  predicate DraftFor(o: Order, store: string, supplier: string, now: nat) {
    o.store == store && o.supplier == supplier && o.status == DRAFT && SameDay(o.createdAt, now)
  }

  /** A posted order is there afterwards: it is the draft of its store, supplier and day if
      there was one, with the new notes and time, and else a new one. No other order changes. */
  lemma PostedOrder(t: Tables, step: Step, round2: real -> real)
    requires step.PostOrder? && Enabled(t, step)
    ensures var w, id := After(t, step, round2).orders, step.id;
            && w.Keys == t.orders.Keys + {id}
            && (id in t.orders <==> exists o :: o in t.orders && DraftFor(t.orders[o], step.store, step.supplier, step.now))
            && (id in t.orders ==> DraftFor(t.orders[id], step.store, step.supplier, step.now))
            && w[id] == (if id in t.orders then t.orders[id].(notes := step.notes, createdAt := step.now)
                         else Order(step.store, step.supplier, DRAFT, step.notes, step.now, "", ""))
            && forall o :: o in t.orders && o != id ==> w[o] == t.orders[o]
  {
    var open := OpenOrders(t.orders, step.store, step.supplier, Day(step.now));
    forall o | o in t.orders ensures o in open <==> DraftFor(t.orders[o], step.store, step.supplier, step.now) {
    }
  }

  lemma {:induction false} LinesOfExactly(lines: seq<OrderLine>, id: string, l: OrderLine)
    ensures l in LinesOf(lines, id) <==> l in lines && l.order == id
  {
    if lines != [] {
      LinesOfExactly(lines[..|lines| - 1], id, l);
      assert lines == lines[..|lines| - 1] + [lines[|lines| - 1]];
    }
  }

  /** The lines of a posted order are the items of the post, one by one. */
  lemma PostedLines(t: Tables, step: Step, round2: real -> real)
    requires step.PostOrder? && Enabled(t, step) && LinesOwned(t)
    ensures var mine := LinesOf(After(t, step, round2).lines, step.id);
            |mine| == |step.items| && forall i :: 0 <= i < |mine| ==> mine[i] == OrderLine(step.id, step.items[i])
  {
    PostedItemsExactly(t, step, round2, step.id);
  }

  predicate DraftOf(c: Campaign, store: string, kind: string, now: nat) {
    c.store == store && c.kind == kind && c.status == DRAFT && SameDay(c.createdAt, now)
  }

  /** The same for a posted campaign, which has the posted content. */
  lemma PostedCampaign(t: Tables, step: Step, round2: real -> real)
    requires step.PostCampaign? && Enabled(t, step)
    ensures var w, id := After(t, step, round2).campaigns, step.id;
            && w.Keys == t.campaigns.Keys + {id}
            && (id in t.campaigns <==> exists c :: c in t.campaigns && DraftOf(t.campaigns[c], step.store, step.kind, step.now))
            && (id in t.campaigns ==> DraftOf(t.campaigns[id], step.store, step.kind, step.now))
            && w[id] == Campaign(step.store, step.kind, DRAFT, step.content, step.now)
            && forall c :: c in t.campaigns && c != id ==> w[c] == t.campaigns[c]
  {
    var open := OpenCampaigns(t.campaigns, step.store, step.kind, Day(step.now));
    forall c | c in t.campaigns ensures c in open <==> DraftOf(t.campaigns[c], step.store, step.kind, step.now) {
    }
  }

  ghost predicate Drafted(shifts: map<string, Shift>, s: Shift) {
    exists id :: id in shifts && SameShiftKey(shifts[id], s.(status := DRAFT))
  }

  /** After a post every posted shift is drafted: a draft with its store, date, person and
      start is there. One that was drafted before stays as it was; a new one is as posted. */
  lemma {:induction false} PostedShiftIsDrafted(shifts: map<string, Shift>, wanted: seq<Shift>, ids: seq<string>, i: nat)
    requires |ids| == |wanted| && i < |wanted| && FreshIds(shifts, ids)
    ensures var w := WithShifts(shifts, wanted, ids);
            && Drafted(w, wanted[i])
            && (ids[i] in w ==> w[ids[i]] == wanted[i].(status := DRAFT))
  {
    var n := |wanted| - 1;
    var before := WithShifts(shifts, wanted[..n], ids[..n]);
    OnlyPostedIds(shifts, wanted[..n], ids[..n], ids[n]);
    if i < n {
      PostedShiftIsDrafted(shifts, wanted[..n], ids[..n], i);
      var id :| id in before && SameShiftKey(before[id], wanted[i].(status := DRAFT));
      assert WithShifts(shifts, wanted, ids)[id] == before[id];
    } else if Duplicate(before, wanted[n]) {
      var id :| id in before && OpenShift(before[id], wanted[n]);
      assert SameShiftKey(before[id], wanted[n].(status := DRAFT));
    } else {
      var w := before[ids[n] := wanted[n].(status := DRAFT)];
      assert SameShiftKey(w[ids[n]], wanted[n].(status := DRAFT));
    }
  }

  lemma {:induction false} OnlyPostedIds(shifts: map<string, Shift>, wanted: seq<Shift>, ids: seq<string>, id: string)
    requires |ids| == |wanted| && id !in shifts && id !in ids
    ensures id !in WithShifts(shifts, wanted, ids)
  {
    if wanted != [] {
      var n := |wanted| - 1;
      OnlyPostedIds(shifts, wanted[..n], ids[..n], id);
    }
  }

  /** A shift that a post adds is one of those posted, as a draft, and was not drafted before. */
  lemma {:induction false} AddedShiftWasPosted(shifts: map<string, Shift>, wanted: seq<Shift>, ids: seq<string>, id: string)
    requires |ids| == |wanted| && FreshIds(shifts, ids) && id !in shifts && id in WithShifts(shifts, wanted, ids)
    ensures exists i :: 0 <= i < |wanted| && ids[i] == id && WithShifts(shifts, wanted, ids)[id] == wanted[i].(status := DRAFT)
                        && !Drafted(shifts, wanted[i])
  {
    var n := |wanted| - 1;
    var before := WithShifts(shifts, wanted[..n], ids[..n]);
    if id in before {
      AddedShiftWasPosted(shifts, wanted[..n], ids[..n], id);
      var i :| 0 <= i < n && ids[..n][i] == id && before[id] == wanted[..n][i].(status := DRAFT) && !Drafted(shifts, wanted[..n][i]);
      assert ids[i] == id && id != ids[n] && !Drafted(shifts, wanted[i]);
    } else {
      OldShiftsStay(shifts, wanted[..n], ids[..n]);
      assert ids[n] == id && !Duplicate(before, wanted[n]);
      DraftedIsDuplicate(shifts, before, wanted[n]);
    }
  }

  lemma DraftedIsDuplicate(shifts: map<string, Shift>, before: map<string, Shift>, s: Shift)
    requires forall k :: k in shifts ==> k in before && before[k] == shifts[k]
    ensures Drafted(shifts, s) ==> Duplicate(before, s)
  {
    if Drafted(shifts, s) {
      var k :| k in shifts && SameShiftKey(shifts[k], s.(status := DRAFT));
      assert OpenShift(before[k], s);
    }
  }

  lemma OldShiftsStay(shifts: map<string, Shift>, wanted: seq<Shift>, ids: seq<string>)
    requires |ids| == |wanted| && FreshIds(shifts, ids)
    ensures forall k :: k in shifts ==> k in WithShifts(shifts, wanted, ids) && WithShifts(shifts, wanted, ids)[k] == shifts[k]
  {
    forall k | k in shifts ensures k in WithShifts(shifts, wanted, ids) && WithShifts(shifts, wanted, ids)[k] == shifts[k] {
      PostedShift(shifts, wanted, ids, k);
    }
  }
}
