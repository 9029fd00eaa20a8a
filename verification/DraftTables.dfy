/** The draft tables of the demo backend: what agents post into them
    (`post` in src/masova_agent/services/demo_backend.py) and what a manager's decision does
    to them (src/masova_agent/runtime/proposal_apply.py).

    A table is a map from row ids. New ids, the clock and the choice among equally new
    rows come from outside. Prices are reals, and rounding to cents is a parameter. */
module DraftTables {
  import opened Outcomes

  datatype RowStatus = DRAFT | PENDING_APPROVAL | SCHEDULED | CONFIRMED | CANCELLED | Other(name: string)

  datatype Order = Order(store: string, supplier: string, status: RowStatus, notes: string, createdAt: nat,
                         approvedBy: string, reason: string)

  datatype Item = Item(itemId: string, name: string, quantity: real, unitCost: real)

  datatype OrderLine = OrderLine(order: string, item: Item)

  datatype Campaign = Campaign(store: string, kind: string, status: RowStatus, content: string, createdAt: nat)

  datatype Shift = Shift(store: string, staff: string, date: string, start: string, status: RowStatus, content: string)

  datatype Tables = Tables(orders: map<string, Order>, lines: seq<OrderLine>, campaigns: map<string, Campaign>,
                           shifts: map<string, Shift>, menu: map<string, real>, actions: seq<(string, string)>)

  const SECONDS_PER_DAY := 86400

  function Day(at: nat): nat {
    at / SECONDS_PER_DAY
  }

  // ---- posts ----

  predicate OpenOrder(o: Order, store: string, supplier: string, day: nat) {
    o.store == store && o.supplier == supplier && o.status == DRAFT && Day(o.createdAt) == day
  }

  predicate OpenCampaign(c: Campaign, store: string, kind: string, day: nat) {
    c.store == store && c.kind == kind && c.status == DRAFT && Day(c.createdAt) == day
  }

  predicate OpenShift(s: Shift, wanted: Shift) {
    s.store == wanted.store && s.date == wanted.date && s.staff == wanted.staff && s.start == wanted.start && s.status == DRAFT
  }

  /** The order a post writes to: the newest draft of the store, supplier and day, or a new one. */
  ghost predicate OrderChosen(t: Tables, store: string, supplier: string, now: nat, freshId: string, id: string) {
    var open := OpenOrders(t.orders, store, supplier, Day(now));
    if open == {} then id == freshId
    else id in open && forall o :: o in open ==> t.orders[o].createdAt <= t.orders[id].createdAt
  }

  function OpenOrders(orders: map<string, Order>, store: string, supplier: string, day: nat): set<string> {
    set o | o in orders && OpenOrder(orders[o], store, supplier, day)
  }

  function LinesFor(id: string, items: seq<Item>): seq<OrderLine> {
    seq(|items|, i requires 0 <= i < |items| => OrderLine(id, items[i]))
  }

  function LinesExcept(lines: seq<OrderLine>, id: string): seq<OrderLine> {
    if lines == [] then []
    else LinesExcept(lines[..|lines| - 1], id) + if lines[|lines| - 1].order == id then [] else [lines[|lines| - 1]]
  }

  function LinesOf(lines: seq<OrderLine>, id: string): seq<OrderLine> {
    if lines == [] then []
    else LinesOf(lines[..|lines| - 1], id) + if lines[|lines| - 1].order == id then [lines[|lines| - 1]] else []
  }

  function WithOrder(t: Tables, store: string, supplier: string, notes: string, items: seq<Item>, now: nat, id: string): Tables {
    if id in t.orders
    then t.(orders := t.orders[id := t.orders[id].(notes := notes, createdAt := now)],
            lines := LinesExcept(t.lines, id) + LinesFor(id, items))
    else t.(orders := t.orders[id := Order(store, supplier, DRAFT, notes, now, "", "")],
            lines := t.lines + LinesFor(id, items))
  }

  ghost predicate CampaignChosen(t: Tables, store: string, kind: string, now: nat, freshId: string, id: string) {
    var open := OpenCampaigns(t.campaigns, store, kind, Day(now));
    if open == {} then id == freshId
    else id in open && forall c :: c in open ==> t.campaigns[c].createdAt <= t.campaigns[id].createdAt
  }

  function OpenCampaigns(campaigns: map<string, Campaign>, store: string, kind: string, day: nat): set<string> {
    set c | c in campaigns && OpenCampaign(campaigns[c], store, kind, day)
  }

  function WithCampaign(t: Tables, store: string, kind: string, content: string, now: nat, id: string): Tables {
    if id in t.campaigns
    then t.(campaigns := t.campaigns[id := t.campaigns[id].(content := content, createdAt := now)])
    else t.(campaigns := t.campaigns[id := Campaign(store, kind, DRAFT, content, now)])
  }

  predicate Duplicate(shifts: map<string, Shift>, wanted: Shift) {
    exists id :: id in shifts && OpenShift(shifts[id], wanted)
  }

  /** Shifts are taken one by one; one that is drafted already is passed over. */
  function WithShifts(shifts: map<string, Shift>, wanted: seq<Shift>, ids: seq<string>): map<string, Shift>
    requires |ids| == |wanted|
  {
    if wanted == [] then shifts
    else
      var n := |wanted| - 1;
      var before := WithShifts(shifts, wanted[..n], ids[..n]);
      if Duplicate(before, wanted[n]) then before else before[ids[n] := wanted[n].(status := DRAFT)]
  }

  ghost predicate FreshIds(shifts: map<string, Shift>, ids: seq<string>) {
    (forall i :: 0 <= i < |ids| ==> ids[i] !in shifts) && forall i, j :: 0 <= i < j < |ids| ==> ids[i] != ids[j]
  }

  // ---- decisions ----

  const PRICE_INCREASE_PCT_MAX := 12.0
  const PRICE_DISCOUNT_PCT_MAX := 15.0

  /** What the tables are told of a resolved proposal; "" stands for an absent id. */
  datatype Decision = Decision(kind: string, store: string, rowId: string, itemIds: seq<string>, percent: real,
                               direction: string, reason: string)

  /** The row a decision on an order or campaign means: the one it names, if it is of its
      store; else the newest draft of the store. */
  ghost predicate RowChosen(rows: Heads, store: string, rowId: string, target: Option<string>) {
    if store == "" then target == None
    else if rowId != "" then target == if rowId in rows && rows[rowId].store == store then Some(rowId) else None
    else if Drafts(rows, store) == {} then target == None
    else target.Some? && target.value in Drafts(rows, store)
         && forall r :: r in Drafts(rows, store) ==> rows[r].createdAt <= rows[target.value].createdAt
  }

  /** What choosing a row looks at. */
  datatype Head = Head(store: string, status: RowStatus, createdAt: nat)

  type Heads = map<string, Head>

  function Drafts(rows: Heads, store: string): set<string> {
    set r | r in rows && rows[r].store == store && rows[r].status == DRAFT
  }

  function OrderHeads(orders: map<string, Order>): Heads {
    map id | id in orders :: Head(orders[id].store, orders[id].status, orders[id].createdAt)
  }

  function CampaignHeads(campaigns: map<string, Campaign>): Heads {
    map id | id in campaigns :: Head(campaigns[id].store, campaigns[id].status, campaigns[id].createdAt)
  }

  ghost predicate TargetChosen(t: Tables, d: Decision, target: Option<string>) {
    if d.kind == "DRAFT_PURCHASE_ORDER" then RowChosen(OrderHeads(t.orders), d.store, d.rowId, target)
    else if d.kind == "DRAFT_CHURN_CAMPAIGN" then RowChosen(CampaignHeads(t.campaigns), d.store, d.rowId, target)
    else target == None
  }

  function Abs(x: real): real { if x < 0.0 then -x else x }

  function Min(x: real, y: real): real { if x < y then x else y }

  function Factor(direction: string, percent: real): real {
    if direction == "increase" then 1.0 + Min(Abs(percent), PRICE_INCREASE_PCT_MAX) / 100.0
    else 1.0 - Min(Abs(percent), PRICE_DISCOUNT_PCT_MAX) / 100.0
  }

  function NewPrice(price: real, factor: real, round2: real -> real): real {
    round2(price * factor)
  }

  /** Item ids are taken one by one, each from the price then in the table. */
  function Repriced(menu: map<string, real>, ids: seq<string>, factor: real, round2: real -> real): map<string, real> {
    if ids == [] then menu
    else
      var before, id := Repriced(menu, ids[..|ids| - 1], factor, round2), ids[|ids| - 1];
      if id in before then before[id := NewPrice(before[id], factor, round2)] else before
  }

  function AllShifts(shifts: map<string, Shift>, store: string, status: RowStatus): map<string, Shift> {
    map id | id in shifts :: if shifts[id].store == store && shifts[id].status == DRAFT then shifts[id].(status := status) else shifts[id]
  }

  const MANAGER_ACTION_TYPES: set<string> := {"WRITE_FORECAST", "DRAFT_REVIEW_REPLY", "DRAFT_KITCHEN_BRIEF"}

  function Approved(t: Tables, d: Decision, target: Option<string>, round2: real -> real): Tables {
    if d.kind == "DRAFT_PURCHASE_ORDER" then
      (if target.Some? && target.value in t.orders
       then t.(orders := t.orders[target.value := t.orders[target.value].(status := PENDING_APPROVAL, approvedBy := "demo-manager")])
       else t)
    else if d.kind == "DRAFT_CHURN_CAMPAIGN" then
      (if target.Some? && target.value in t.campaigns
       then t.(campaigns := t.campaigns[target.value := t.campaigns[target.value].(status := SCHEDULED)])
       else t)
    else if d.kind == "DRAFT_SHIFT_ROSTER" then
      (if d.store != "" then t.(shifts := AllShifts(t.shifts, d.store, CONFIRMED)) else t)
    else if d.kind == "SUGGEST_PRICE_ADJUSTMENT" then
      t.(menu := Repriced(t.menu, d.itemIds, Factor(d.direction, d.percent), round2))
    else if d.kind in MANAGER_ACTION_TYPES then t.(actions := t.actions + [(d.store, d.kind)])
    else t
  }

  function Rejected(t: Tables, d: Decision, target: Option<string>): Tables {
    if d.kind == "DRAFT_PURCHASE_ORDER" then
      (if target.Some? && target.value in t.orders
       then t.(orders := t.orders[target.value := t.orders[target.value].(status := CANCELLED, reason := d.reason)])
       else t)
    else if d.kind == "DRAFT_CHURN_CAMPAIGN" then
      (if target.Some? && target.value in t.campaigns
       then t.(campaigns := t.campaigns[target.value := t.campaigns[target.value].(status := CANCELLED)])
       else t)
    else if d.kind == "DRAFT_SHIFT_ROSTER" then
      (if d.store != "" then t.(shifts := AllShifts(t.shifts, d.store, CANCELLED)) else t)
    else t
  }

  /** The kinds of decision the tables know how to carry out. */
  predicate Approvable(d: Decision) {
    d.kind in {"DRAFT_PURCHASE_ORDER", "DRAFT_CHURN_CAMPAIGN", "SUGGEST_PRICE_ADJUSTMENT"} + MANAGER_ACTION_TYPES
    || (d.kind == "DRAFT_SHIFT_ROSTER" && d.store != "")
  }

  predicate Rejectable(d: Decision) {
    d.kind in {"DRAFT_PURCHASE_ORDER", "DRAFT_CHURN_CAMPAIGN", "SUGGEST_PRICE_ADJUSTMENT"}
    || (d.kind == "DRAFT_SHIFT_ROSTER" && d.store != "")
  }

  /** The newest of a set of rows, if any. */
  method Newest(rows: Heads, wanted: set<string>) returns (best: Option<string>)
    requires wanted <= rows.Keys
    ensures wanted == {} <==> best == None
    ensures best.Some? ==> best.value in wanted && forall r :: r in wanted ==> rows[r].createdAt <= rows[best.value].createdAt
  {
    best := None;
    var todo := wanted;
    while todo != {}
      invariant todo <= wanted
      invariant best == None ==> todo == wanted
      invariant best.Some? ==> best.value in wanted && forall r :: r in wanted - todo ==> rows[r].createdAt <= rows[best.value].createdAt
      decreases todo
    {
      var r :| r in todo;
      if best == None || rows[best.value].createdAt < rows[r].createdAt {
        best := Some(r);
      }
      todo := todo - {r};
    }
  }

  method ChooseRow(rows: Heads, store: string, rowId: string) returns (target: Option<string>)
    ensures RowChosen(rows, store, rowId, target)
  {
    if rowId != "" && store != "" {
      target := if rowId in rows && rows[rowId].store == store then Some(rowId) else None;
    } else if store != "" {
      target := Newest(rows, Drafts(rows, store));
    } else {
      target := None;
    }
  }

  class DemoBackend {
    const round2: real -> real
    const storeIds: map<string, string>
    var orders: map<string, Order>
    var lines: seq<OrderLine>
    var campaigns: map<string, Campaign>
    var shifts: map<string, Shift>
    var menu: map<string, real>
    var actions: seq<(string, string)>

    ghost function T(): Tables
      reads this
    {
      Tables(orders, lines, campaigns, shifts, menu, actions)
    }

    constructor (t: Tables, round2: real -> real, storeIds: map<string, string>)
      ensures T() == t && this.round2 == round2 && this.storeIds == storeIds
    {
      this.round2, this.storeIds := round2, storeIds;
      orders, lines, campaigns, shifts, menu, actions := t.orders, t.lines, t.campaigns, t.shifts, t.menu, t.actions;
    }

    /** A store may be named by its id or its code; an unknown name is taken as it is. */
    function StoreId(name: string): (id: string)
      ensures name in storeIds ==> id == storeIds[name]
      ensures name !in storeIds ==> id == name
    {
      if name in storeIds then storeIds[name] else name
    }

    method PostOrder(store: string, supplier: string, notes: string, items: seq<Item>, now: nat, freshId: string) returns (id: string)
      requires freshId !in orders
      modifies this
      ensures OrderChosen(old(T()), StoreId(store), supplier, now, freshId, id)
      ensures T() == WithOrder(old(T()), StoreId(store), supplier, notes, items, now, id)
    {
      var storeId := StoreId(store);
      var existing := Newest(OrderHeads(orders), OpenOrders(orders, storeId, supplier, Day(now)));
      if existing.Some? {
        id := existing.value;
        lines := LinesExcept(lines, id);
        orders := orders[id := orders[id].(notes := notes, createdAt := now)];
      } else {
        id := freshId;
        orders := orders[id := Order(storeId, supplier, DRAFT, notes, now, "", "")];
      }
      InsertLines(id, items);
    }

    method InsertLines(id: string, items: seq<Item>)
      modifies this`lines
      ensures lines == old(lines) + LinesFor(id, items)
    {
      for i := 0 to |items|
        invariant lines == old(lines) + LinesFor(id, items[..i])
      {
        assert LinesFor(id, items[..i + 1]) == LinesFor(id, items[..i]) + [OrderLine(id, items[i])];
        lines := lines + [OrderLine(id, items[i])];
      }
      assert items[..|items|] == items;
    }

    method PostCampaign(store: string, kind: string, content: string, now: nat, freshId: string) returns (id: string)
      requires freshId !in campaigns
      modifies this
      ensures CampaignChosen(old(T()), StoreId(store), kind, now, freshId, id)
      ensures T() == WithCampaign(old(T()), StoreId(store), kind, content, now, id)
    {
      var storeId := StoreId(store);
      var existing := Newest(CampaignHeads(campaigns), OpenCampaigns(campaigns, storeId, kind, Day(now)));
      if existing.Some? {
        id := existing.value;
        campaigns := campaigns[id := campaigns[id].(content := content, createdAt := now)];
      } else {
        id := freshId;
        campaigns := campaigns[id := Campaign(storeId, kind, DRAFT, content, now)];
      }
    }

    method PostShifts(wanted: seq<Shift>, ids: seq<string>)
      requires |ids| == |wanted| && FreshIds(shifts, ids)
      modifies this
      ensures T() == old(T()).(shifts := WithShifts(old(shifts), wanted, ids))
    {
      for i := 0 to |wanted|
        invariant T() == old(T()).(shifts := WithShifts(old(shifts), wanted[..i], ids[..i]))
      {
        assert wanted[..i + 1][..i] == wanted[..i] && ids[..i + 1][..i] == ids[..i];
        if Duplicate(shifts, wanted[i]) {
          continue;
        }
        shifts := shifts[ids[i] := wanted[i].(status := DRAFT)];
      }
      assert wanted[..|wanted|] == wanted && ids[..|ids|] == ids;
    }

    method ApplyApproved(d: Decision, demoMode: bool) returns (ok: bool, target: Option<string>)
      modifies this
      ensures !demoMode ==> T() == old(T())
      ensures ok <==> demoMode && Approvable(d)
      ensures demoMode ==> TargetChosen(old(T()), d, target) && T() == Approved(old(T()), d, target, round2)
    {
      ok, target := false, None;
      if !demoMode {
        return;
      }
      if d.kind == "DRAFT_PURCHASE_ORDER" {
        target := ChooseRow(OrderHeads(orders), d.store, d.rowId);
        if target.Some? {
          orders := orders[target.value := orders[target.value].(status := PENDING_APPROVAL, approvedBy := "demo-manager")];
        }
        ok := true;
      } else if d.kind == "DRAFT_CHURN_CAMPAIGN" {
        target := ChooseRow(CampaignHeads(campaigns), d.store, d.rowId);
        if target.Some? {
          campaigns := campaigns[target.value := campaigns[target.value].(status := SCHEDULED)];
        }
        ok := true;
      } else if d.kind == "DRAFT_SHIFT_ROSTER" {
        if d.store == "" {
          return;
        }
        shifts := AllShifts(shifts, d.store, CONFIRMED);
        ok := true;
      } else if d.kind == "SUGGEST_PRICE_ADJUSTMENT" {
        ApplyPrices(d);
        ok := true;
      } else if d.kind in MANAGER_ACTION_TYPES {
        actions := actions + [(d.store, d.kind)];
        ok := true;
      }
    }

    method ApplyPrices(d: Decision)
      modifies this`menu
      ensures menu == Repriced(old(menu), d.itemIds, Factor(d.direction, d.percent), round2)
    {
      var percent := Abs(d.percent);
      var factor;
      if d.direction == "increase" {
        percent := Min(percent, PRICE_INCREASE_PCT_MAX);
        factor := 1.0 + percent / 100.0;
      } else {
        percent := Min(percent, PRICE_DISCOUNT_PCT_MAX);
        factor := 1.0 - percent / 100.0;
      }
      for i := 0 to |d.itemIds|
        invariant menu == Repriced(old(menu), d.itemIds[..i], factor, round2)
      {
        assert d.itemIds[..i + 1][..i] == d.itemIds[..i] && d.itemIds[..i + 1][i] == d.itemIds[i];
        if d.itemIds[i] !in menu {
          continue;
        }
        menu := menu[d.itemIds[i] := NewPrice(menu[d.itemIds[i]], factor, round2)];
      }
      assert d.itemIds[..|d.itemIds|] == d.itemIds;
    }

    method ApplyRejected(d: Decision, demoMode: bool) returns (ok: bool, target: Option<string>)
      modifies this
      ensures !demoMode ==> T() == old(T())
      ensures ok <==> demoMode && Rejectable(d)
      ensures demoMode ==> TargetChosen(old(T()), d, target) && T() == Rejected(old(T()), d, target)
    {
      ok, target := false, None;
      if !demoMode {
        return;
      }
      if d.kind == "DRAFT_PURCHASE_ORDER" {
        target := ChooseRow(OrderHeads(orders), d.store, d.rowId);
        if target.Some? {
          orders := orders[target.value := orders[target.value].(status := CANCELLED, reason := d.reason)];
        }
        ok := true;
      } else if d.kind == "DRAFT_CHURN_CAMPAIGN" {
        target := ChooseRow(CampaignHeads(campaigns), d.store, d.rowId);
        if target.Some? {
          campaigns := campaigns[target.value := campaigns[target.value].(status := CANCELLED)];
        }
        ok := true;
      } else if d.kind == "DRAFT_SHIFT_ROSTER" {
        if d.store == "" {
          return;
        }
        shifts := AllShifts(shifts, d.store, CANCELLED);
        ok := true;
      } else if d.kind == "SUGGEST_PRICE_ADJUSTMENT" {
        ok := true;
      }
    }
  }
}
