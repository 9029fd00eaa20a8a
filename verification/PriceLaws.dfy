/** Price decisions: what an approved price adjustment does to the menu, and when it stays
    within the stated percentage (src/masova_agent/runtime/proposal_apply.py). */
module PriceLaws {
  import opened DraftTables
  import opened DraftLaws

  /** Rounding to cents moves a price by half a cent at most. */
  ghost predicate Rounds(round2: real -> real) {
    forall x :: -0.005 <= round2(x) - x <= 0.005
  }

  function Count(ids: seq<string>, id: string): nat {
    if ids == [] then 0 else Count(ids[..|ids| - 1], id) + if ids[|ids| - 1] == id then 1 else 0
  }

  function Repeat(price: real, factor: real, round2: real -> real, n: nat): real {
    if n == 0 then price else NewPrice(Repeat(price, factor, round2, n - 1), factor, round2)
  }

  /** The price of an item after a decision: the factor once for every time it is listed.
      Items that are not listed keep their price. */
  lemma {:induction false} PriceAfter(menu: map<string, real>, ids: seq<string>, factor: real, round2: real -> real,
                                      id: string)
    requires id in menu
    ensures id in Repriced(menu, ids, factor, round2)
    ensures Repriced(menu, ids, factor, round2)[id] == Repeat(menu[id], factor, round2, Count(ids, id))
  {
    if ids != [] {
      PriceAfter(menu, ids[..|ids| - 1], factor, round2, id);
    }
  }

  ghost predicate DistinctItems(ids: seq<string>) {
    forall i, j :: 0 <= i < j < |ids| ==> ids[i] != ids[j]
  }

  lemma {:induction false} ListedOnce(ids: seq<string>, id: string)
    requires DistinctItems(ids)
    ensures Count(ids, id) == if id in ids then 1 else 0
  {
    if ids != [] {
      var front, last := ids[..|ids| - 1], ids[|ids| - 1];
      ListedOnce(front, id);
      assert ids == front + [last];
    }
  }

  // ---- one application of the factor ----

  lemma FactorInRange(direction: string, percent: real)
    ensures 0.85 <= Factor(direction, percent) <= 1.12
    ensures if direction == "increase" then Factor(direction, percent) >= 1.0 else Factor(direction, percent) <= 1.0
  {
  }

  lemma Grows(a: real, b: real)
    requires a >= 0.0 && b >= 0.0
    ensures a * b >= 0.0
  {
  }

  /** Products with one number are ordered as their other factors. */
  lemma Scaled(a: real, low: real, high: real, lowScaled: real, highScaled: real)
    requires a >= 0.0 && low <= high && lowScaled == a * low && highScaled == a * high
    ensures lowScaled <= highScaled
  {
    Grows(a, high - low);
    assert a * (high - low) == a * high - a * low;
  }

  lemma RoundedNear(price: real, factor: real, round2: real -> real, exact: real)
    requires Rounds(round2) && exact == price * factor
    ensures exact - 0.005 <= NewPrice(price, factor, round2) <= exact + 0.005
  {
    assert -0.005 <= round2(exact) - exact <= 0.005;
  }

  /** A price after one move: between the old one and the old one times the factor, to half a
      cent, whichever way round these are. */
  predicate Within(price: real, factor: real, now: real) {
    if factor >= 1.0 then price - 0.005 <= now <= price * factor + 0.005
    else price * factor - 0.005 <= now <= price + 0.005
  }

  lemma OneMoveWithin(price: real, factor: real, round2: real -> real)
    requires Rounds(round2) && price >= 0.0
    ensures Within(price, factor, NewPrice(price, factor, round2))
  {
    var exact := price * factor;
    RoundedNear(price, factor, round2, exact);
    BetweenOldAndScaled(price, factor, exact);
  }

  lemma BetweenOldAndScaled(price: real, factor: real, exact: real)
    requires price >= 0.0 && exact == price * factor
    ensures if factor >= 1.0 then price <= exact else exact <= price
  {
    if factor >= 1.0 {
      Scaled(price, 1.0, factor, price, exact);
    } else {
      Scaled(price, factor, 1.0, exact, price);
    }
  }

  /** Within the limits the code sets for a decision: 12% up, 15% down. */
  predicate Capped(price: real, direction: string, now: real) {
    if direction == "increase" then price - 0.005 <= now <= price * 1.12 + 0.005
    else price * 0.85 - 0.005 <= now <= price + 0.005
  }

  lemma WithinIsCapped(price: real, direction: string, factor: real, now: real)
    requires price >= 0.0 && Within(price, factor, now)
    requires if direction == "increase" then 1.0 <= factor <= 1.12 else 0.85 <= factor <= 1.0
    ensures Capped(price, direction, now)
  {
    if direction == "increase" {
      Scaled(price, factor, 1.12, price * factor, price * 1.12);
    } else {
      Scaled(price, 0.85, factor, price * 0.85, price * factor);
    }
  }

  /** One price change stays within the limits and moves only in the stated direction. */
  lemma PriceCap(price: real, direction: string, percent: real, round2: real -> real)
    requires Rounds(round2) && price >= 0.0
    ensures var now := NewPrice(price, Factor(direction, percent), round2);
            Within(price, Factor(direction, percent), now) && Capped(price, direction, now)
  {
    var f := Factor(direction, percent);
    OneMoveWithin(price, f, round2);
    FactorInRange(direction, percent);
    WithinIsCapped(price, direction, f, NewPrice(price, f, round2));
  }

  /** With distinct ids every listed price is moved once, and no other price is. */
  lemma PriceCapHolds(menu: map<string, real>, ids: seq<string>, factor: real, round2: real -> real, id: string)
    requires id in menu && DistinctItems(ids)
    ensures id in Repriced(menu, ids, factor, round2)
    ensures Repriced(menu, ids, factor, round2)[id]
            == if id in ids then NewPrice(menu[id], factor, round2) else menu[id]
  {
    PriceAfter(menu, ids, factor, round2, id);
    ListedOnce(ids, id);
    RepeatUnfolds(menu[id], factor, round2);
  }

  /** The price cap of a decision. With distinct ids an approved price adjustment moves every
      listed price once, by the stated percentage at most and within the limits, and moves
      no other price. */
  lemma DecisionKeepsCap(t: Tables, step: Step, round2: real -> real, id: string)
    requires Enabled(t, step) && step.Approve? && step.d.kind == "SUGGEST_PRICE_ADJUSTMENT"
    requires Rounds(round2) && DistinctItems(step.d.itemIds) && id in t.menu
    ensures var menu, d := After(t, step, round2).menu, step.d;
            && id in menu
            && (id !in d.itemIds ==> menu[id] == t.menu[id])
            && (id in d.itemIds && t.menu[id] >= 0.0 ==>
                  Within(t.menu[id], Factor(d.direction, d.percent), menu[id]) && Capped(t.menu[id], d.direction, menu[id]))
  {
    var f := Factor(step.d.direction, step.d.percent);
    assert After(t, step, round2).menu == Repriced(t.menu, step.d.itemIds, f, round2);
    PriceCapHolds(t.menu, step.d.itemIds, f, round2, id);
    if t.menu[id] >= 0.0 {
      PriceCap(t.menu[id], step.d.direction, step.d.percent, round2);
    }
  }

  /** By how much in a hundred a decision moves a price: as asked, no more than 12 up or 15
      down. */
  function PercentMoved(d: Decision): real {
    var asked := if d.percent < 0.0 then -d.percent else d.percent;
    if d.direction == "increase" then (if asked < 12.0 then asked else 12.0)
    else (if asked < 15.0 then -asked else -15.0)
  }

  function MovedPrice(price: real, d: Decision): real {
    price * (1.0 + PercentMoved(d) / 100.0)
  }

  lemma MovedBy(price: real, factor: real, round2: real -> real, exact: real)
    requires exact == price * factor
    ensures Repeat(price, factor, round2, 1) == round2(exact) && Repeat(price, factor, round2, 0) == price
  {
    RepeatUnfolds(price, factor, round2);
  }

  lemma OneMove(price: real, d: Decision, round2: real -> real)
    ensures var factor := Factor(d.direction, d.percent);
            Repeat(price, factor, round2, 1) == round2(MovedPrice(price, d)) && Repeat(price, factor, round2, 0) == price
  {
    FactorIsPercent(d);
    SameProduct(price, Factor(d.direction, d.percent), 1.0 + PercentMoved(d) / 100.0);
    MovedBy(price, Factor(d.direction, d.percent), round2, MovedPrice(price, d));
  }

  lemma FactorIsPercent(d: Decision)
    ensures Factor(d.direction, d.percent) == 1.0 + PercentMoved(d) / 100.0
  {
  }

  lemma SameProduct(a: real, b: real, c: real)
    requires b == c
    ensures a * b == a * c
  {
  }

  /** An approved adjustment moves the price of an item it lists once by its percentage,
      rounded, and leaves prices it does not list; a rejected one moves none. Nothing else in
      the tables changes. */
  lemma PriceDecision(t: Tables, step: Step, round2: real -> real, id: string)
    requires !IsPost(step) && step.d.kind == "SUGGEST_PRICE_ADJUSTMENT" && Enabled(t, step)
    requires id in t.menu && Count(step.d.itemIds, id) <= 1
    ensures var w := After(t, step, round2);
            && w == t.(menu := w.menu) && id in w.menu
            && w.menu[id] == if step.Approve? && Count(step.d.itemIds, id) == 1
                             then round2(MovedPrice(t.menu[id], step.d))
                             else t.menu[id]
  {
    if step.Approve? {
      var factor := Factor(step.d.direction, step.d.percent);
      PriceAfter(t.menu, step.d.itemIds, factor, round2, id);
      OneMove(t.menu[id], step.d, round2);
    }
  }

  lemma RepeatUnfolds(price: real, factor: real, round2: real -> real)
    ensures Repeat(price, factor, round2, 0) == price
    ensures Repeat(price, factor, round2, 1) == NewPrice(price, factor, round2)
    ensures Repeat(price, factor, round2, 2) == NewPrice(NewPrice(price, factor, round2), factor, round2)
  {
    assert Repeat(price, factor, round2, 1) == NewPrice(Repeat(price, factor, round2, 0), factor, round2);
  }

  // ---- when the stated percentage is kept ----

  /** Whatever the menu, the item's price stays within the stated percentage. */
  ghost predicate KeepsPercentage(ids: seq<string>, id: string, factor: real, round2: real -> real) {
    forall menu: map<string, real> ::
      id in menu && menu[id] >= 0.0 ==> Within(menu[id], factor, PriceIn(Repriced(menu, ids, factor, round2), id))
  }

  function PriceIn(menu: map<string, real>, id: string): real {
    if id in menu then menu[id] else 0.0
  }

  // ---- how far listings carry a price ----

  function Power(factor: real, n: nat): real {
    if n == 0 then 1.0 else Power(factor, n - 1) * factor
  }

  /** What `n` roundings by half a cent add up to, each scaled along by the moves after it. */
  function Errors(factor: real, n: nat): real {
    if n == 0 then 0.0 else Errors(factor, n - 1) * factor + 0.005
  }

  lemma {:induction false} PowerPositive(factor: real, n: nat)
    requires factor > 0.0
    ensures Power(factor, n) > 0.0 && Errors(factor, n) >= 0.0
  {
    if n > 0 {
      PowerPositive(factor, n - 1);
      Grows(Errors(factor, n - 1), factor);
      PositiveProduct(Power(factor, n - 1), factor);
    }
  }

  lemma PositiveProduct(a: real, b: real)
    requires a > 0.0 && b > 0.0
    ensures a * b > 0.0
  {
  }

  /** Numbers that are near stay near when they are scaled. */
  lemma Apart(a: real, b: real, gap: real, factor: real, aScaled: real, bScaled: real)
    requires factor >= 0.0 && a - gap <= b <= a + gap
    requires aScaled == a * factor && bScaled == b * factor
    ensures aScaled - gap * factor <= bScaled <= aScaled + gap * factor
  {
    Grows(b - a + gap, factor);
    Grows(a - b + gap, factor);
    assert (b - a + gap) * factor == b * factor - a * factor + gap * factor;
    assert (a - b + gap) * factor == a * factor - b * factor + gap * factor;
  }

  lemma OneMoveNear(before: real, factor: real, round2: real -> real, exactBefore: real, gap: real, exact: real, errors: real)
    requires Rounds(round2) && factor >= 0.0 && exactBefore - gap <= before <= exactBefore + gap
    requires exact == exactBefore * factor && errors == gap * factor + 0.005
    ensures exact - errors <= NewPrice(before, factor, round2) <= exact + errors
  {
    var middle := before * factor;
    Apart(exactBefore, before, gap, factor, exact, middle);
    RoundedNear(before, factor, round2, middle);
  }

  lemma Associate(a: real, b: real, c: real)
    ensures a * (b * c) == (a * b) * c
  {
  }

  /** The price after `n` moves without rounding. */
  function Exact(price: real, factor: real, n: nat): real {
    if n == 0 then price else Exact(price, factor, n - 1) * factor
  }

  lemma {:induction false} ExactIsPower(price: real, factor: real, n: nat)
    ensures Exact(price, factor, n) == price * Power(factor, n)
  {
    if n > 0 {
      ExactIsPower(price, factor, n - 1);
      Associate(price, Power(factor, n - 1), factor);
    }
  }

  lemma ExactUnfolds(price: real, factor: real, n: nat, exactBefore: real, exact: real)
    requires n > 0 && exactBefore == Exact(price, factor, n - 1) && exact == Exact(price, factor, n)
    ensures exact == exactBefore * factor
  {
  }

  lemma ErrorsUnfold(factor: real, n: nat, gap: real, errors: real)
    requires n > 0 && gap == Errors(factor, n - 1) && errors == Errors(factor, n)
    ensures errors == gap * factor + 0.005
  {
  }

  predicate Near(exact: real, now: real, errors: real) {
    exact - errors <= now <= exact + errors
  }

  lemma {:induction false} NearExact(price: real, factor: real, round2: real -> real, n: nat)
    requires Rounds(round2) && factor > 0.0
    ensures Near(Exact(price, factor, n), Repeat(price, factor, round2, n), Errors(factor, n))
  {
    if n > 0 {
      var before, exactBefore, gap := Repeat(price, factor, round2, n - 1), Exact(price, factor, n - 1), Errors(factor, n - 1);
      NearExact(price, factor, round2, n - 1);
      NearStep(price, factor, round2, n, before, exactBefore, gap);
    }
  }

  lemma NearStep(price: real, factor: real, round2: real -> real, n: nat, before: real, exactBefore: real, gap: real)
    requires Rounds(round2) && factor > 0.0 && n > 0 && Near(exactBefore, before, gap)
    requires before == Repeat(price, factor, round2, n - 1) && exactBefore == Exact(price, factor, n - 1) && gap == Errors(factor, n - 1)
    ensures Near(Exact(price, factor, n), Repeat(price, factor, round2, n), Errors(factor, n))
  {
    var exact, errors := Exact(price, factor, n), Errors(factor, n);
    ExactUnfolds(price, factor, n, exactBefore, exact);
    ErrorsUnfold(factor, n, gap, errors);
    OneMoveNear(before, factor, round2, exactBefore, gap, exact, errors);
  }

  /** A price listed `n` times is the price times the factor's power, up to the roundings. */
  lemma NearPower(price: real, factor: real, round2: real -> real, n: nat)
    requires Rounds(round2) && factor > 0.0
    ensures price * Power(factor, n) - Errors(factor, n) <= Repeat(price, factor, round2, n)
    ensures Repeat(price, factor, round2, n) <= price * Power(factor, n) + Errors(factor, n)
  {
    NearExact(price, factor, round2, n);
    ExactIsPower(price, factor, n);
  }

  /** The price at which a slope above another leads by `lead`. */
  lemma LeadingPrice(low: real, high: real, lead: real) returns (price: real)
    requires low < high && lead >= 0.0
    ensures price >= 0.0 && price * high == price * low + lead
  {
    price := lead / (high - low);
    QuotientSign(lead, high - low);
    assert price * (high - low) == lead;
    assert price * (high - low) == price * high - price * low;
  }

  lemma QuotientSign(a: real, b: real)
    requires a >= 0.0 && b > 0.0
    ensures a / b >= 0.0
  {
  }

  /** If the power exceeds a bound, some price outgrows it, whatever the slack. */
  lemma RiseEscapes(factor: real, round2: real -> real, n: nat, bound: real, slack: real) returns (price: real)
    requires Rounds(round2) && factor > 0.0 && Power(factor, n) > bound && slack >= 0.0
    ensures price >= 0.0 && Repeat(price, factor, round2, n) > price * bound + slack
  {
    PowerPositive(factor, n);
    price := LeadingPrice(bound, Power(factor, n), slack + Errors(factor, n) + 1.0);
    NearPower(price, factor, round2, n);
  }

  lemma FallEscapes(factor: real, round2: real -> real, n: nat, bound: real, slack: real) returns (price: real)
    requires Rounds(round2) && factor > 0.0 && Power(factor, n) < bound && slack >= 0.0
    ensures price >= 0.0 && Repeat(price, factor, round2, n) < price * bound - slack
  {
    PowerPositive(factor, n);
    price := LeadingPrice(Power(factor, n), bound, slack + Errors(factor, n) + 1.0);
    NearPower(price, factor, round2, n);
  }

  /** Twice listed, a factor other than one carries further than once. */
  lemma {:induction false} PowerBeyond(factor: real, n: nat)
    requires factor > 0.0 && factor != 1.0 && n >= 2
    ensures if factor > 1.0 then Power(factor, n) > factor else Power(factor, n) < factor
  {
    var before := Power(factor, n - 1);
    PowerPositive(factor, n - 1);
    if n == 2 {
      assert before == Power(factor, 0) * factor == factor;
    } else {
      PowerBeyond(factor, n - 1);
    }
    Stretched(before, factor, before * factor);
  }

  lemma Stretched(a: real, factor: real, scaled: real)
    requires factor > 0.0 && a > 0.0 && scaled == a * factor
    ensures factor > 1.0 ==> scaled > a
    ensures factor < 1.0 ==> scaled < a
  {
    if factor > 1.0 {
      PositiveProduct(a, factor - 1.0);
      assert a * (factor - 1.0) == scaled - a;
    } else if factor < 1.0 {
      PositiveProduct(a, 1.0 - factor);
      assert a * (1.0 - factor) == a - scaled;
    }
  }

  /** A decision that moves prices keeps an item within the stated percentage, whatever the
      menu, exactly if it lists the item once at most. */
  lemma PercentageKeptExactly(ids: seq<string>, id: string, factor: real, round2: real -> real)
    requires Rounds(round2) && factor > 0.0 && factor != 1.0
    ensures KeepsPercentage(ids, id, factor, round2) <==> Count(ids, id) <= 1
  {
    var n := Count(ids, id);
    if n <= 1 {
      forall menu: map<string, real> | id in menu && menu[id] >= 0.0
        ensures Within(menu[id], factor, PriceIn(Repriced(menu, ids, factor, round2), id))
      {
        PriceAfter(menu, ids, factor, round2, id);
        RepeatUnfolds(menu[id], factor, round2);
        OneMoveWithin(menu[id], factor, round2);
        Unmoved(menu[id], factor);
      }
    } else {
      var price := Escape(factor, round2, n);
      var menu := map[id := price];
      PriceAfter(menu, ids, factor, round2, id);
      assert !Within(menu[id], factor, PriceIn(Repriced(menu, ids, factor, round2), id));
    }
  }

  lemma Escape(factor: real, round2: real -> real, n: nat) returns (price: real)
    requires Rounds(round2) && factor > 0.0 && factor != 1.0 && n >= 2
    ensures price >= 0.0 && !Within(price, factor, Repeat(price, factor, round2, n))
  {
    PowerBeyond(factor, n);
    if factor > 1.0 {
      price := RiseEscapes(factor, round2, n, factor, 0.005);
    } else {
      price := FallEscapes(factor, round2, n, factor, 0.005);
    }
  }

  lemma Unmoved(price: real, factor: real)
    requires price >= 0.0
    ensures Within(price, factor, price)
  {
    BetweenOldAndScaled(price, factor, price * factor);
  }

  /** Rounding a rounded price changes nothing. */
  ghost predicate Settles(round2: real -> real) {
    forall x :: round2(round2(x)) == round2(x)
  }

  lemma {:induction false} UnitFactorRounds(price: real, round2: real -> real, n: nat)
    requires Settles(round2)
    ensures Repeat(price, 1.0, round2, n) == if n == 0 then price else round2(price)
  {
    if n > 0 {
      UnitFactorRounds(price, round2, n - 1);
      assert round2(round2(price)) == round2(price);
    }
  }

  /** A decision of zero percent keeps every price, however often it is listed. */
  lemma ZeroPercentKept(ids: seq<string>, id: string, round2: real -> real)
    requires Rounds(round2) && Settles(round2)
    ensures KeepsPercentage(ids, id, 1.0, round2)
  {
    forall menu: map<string, real> | id in menu && menu[id] >= 0.0
      ensures Within(menu[id], 1.0, PriceIn(Repriced(menu, ids, 1.0, round2), id))
    {
      PriceAfter(menu, ids, 1.0, round2, id);
      UnitFactorRounds(menu[id], round2, Count(ids, id));
      var price := menu[id];
      assert -0.005 <= round2(price) - price <= 0.005;
    }
  }

  /** Whatever the menu, the item's price stays within the limits. */
  ghost predicate KeepsCap(ids: seq<string>, id: string, direction: string, percent: real, round2: real -> real) {
    forall menu: map<string, real> ::
      id in menu && menu[id] >= 0.0 ==>
        Capped(menu[id], direction, PriceIn(Repriced(menu, ids, Factor(direction, percent), round2), id))
  }

  /** A decision that asks for the limit or more (12% up, 15% down) keeps the limit exactly if
      it lists the item once at most. */
  lemma CapKeptExactly(ids: seq<string>, id: string, direction: string, percent: real, round2: real -> real)
    requires Rounds(round2)
    requires Abs(percent) >= if direction == "increase" then PRICE_INCREASE_PCT_MAX else PRICE_DISCOUNT_PCT_MAX
    ensures KeepsCap(ids, id, direction, percent, round2) <==> Count(ids, id) <= 1
  {
    var f := Factor(direction, percent);
    assert f == if direction == "increase" then 1.12 else 0.85;
    PercentageKeptExactly(ids, id, f, round2);
    CapIsPercentage(ids, id, direction, f, percent, round2);
  }

  lemma CapIsPercentage(ids: seq<string>, id: string, direction: string, f: real, percent: real, round2: real -> real)
    requires f == Factor(direction, percent) && f == if direction == "increase" then 1.12 else 0.85
    ensures KeepsCap(ids, id, direction, percent, round2) <==> KeepsPercentage(ids, id, f, round2)
  {
    forall menu: map<string, real> | id in menu && menu[id] >= 0.0
      ensures Capped(menu[id], direction, PriceIn(Repriced(menu, ids, f, round2), id))
              <==> Within(menu[id], f, PriceIn(Repriced(menu, ids, f, round2), id))
    {
    }
  }

  // ---- the limits at any percentage ----

  /** Whatever the menu, the item's price stays within the limit of its direction, up to
      `slack`. */
  ghost predicate KeepsCapUpTo(ids: seq<string>, id: string, direction: string, percent: real, round2: real -> real,
                               slack: real) {
    forall menu: map<string, real> ::
      id in menu && menu[id] >= 0.0 ==>
        CappedUpTo(menu[id], direction, PriceIn(Repriced(menu, ids, Factor(direction, percent), round2), id), slack)
  }

  predicate CappedUpTo(price: real, direction: string, now: real, slack: real) {
    if direction == "increase" then now <= price * 1.12 + slack else now >= price * 0.85 - slack
  }

  /** The factor applied once for every listing stays within the limit. */
  predicate PowerCapped(ids: seq<string>, id: string, direction: string, percent: real) {
    var power := Power(Factor(direction, percent), Count(ids, id));
    if direction == "increase" then power <= 1.12 else power >= 0.85
  }

  /** At any percentage: some slack is enough for the limit on every menu exactly if the
      factor, applied once for every listing, stays within the limit; and then the sum of
      the roundings is enough. */
  lemma CapUpToRoundingExactly(ids: seq<string>, id: string, direction: string, percent: real, round2: real -> real)
    requires Rounds(round2)
    ensures (exists slack :: slack >= 0.0 && KeepsCapUpTo(ids, id, direction, percent, round2, slack))
            <==> PowerCapped(ids, id, direction, percent)
    ensures PowerCapped(ids, id, direction, percent) ==>
              KeepsCapUpTo(ids, id, direction, percent, round2, Errors(Factor(direction, percent), Count(ids, id)))
  {
    var f, n := Factor(direction, percent), Count(ids, id);
    FactorInRange(direction, percent);
    PowerPositive(f, n);
    if PowerCapped(ids, id, direction, percent) {
      RoundingsSuffice(ids, id, direction, percent, round2);
    } else {
      forall slack | slack >= 0.0 ensures !KeepsCapUpTo(ids, id, direction, percent, round2, slack) {
        NoSlackSuffices(ids, id, direction, percent, round2, slack);
      }
    }
  }

  lemma RoundingsSuffice(ids: seq<string>, id: string, direction: string, percent: real, round2: real -> real)
    requires Rounds(round2) && PowerCapped(ids, id, direction, percent)
    ensures KeepsCapUpTo(ids, id, direction, percent, round2, Errors(Factor(direction, percent), Count(ids, id)))
  {
    var f, n := Factor(direction, percent), Count(ids, id);
    FactorInRange(direction, percent);
    forall menu: map<string, real> | id in menu && menu[id] >= 0.0
      ensures CappedUpTo(menu[id], direction, PriceIn(Repriced(menu, ids, f, round2), id), Errors(f, n))
    {
      PriceAfter(menu, ids, f, round2, id);
      RepeatCapped(menu[id], direction, f, round2, n);
    }
  }

  lemma RepeatCapped(price: real, direction: string, factor: real, round2: real -> real, n: nat)
    requires Rounds(round2) && price >= 0.0 && factor > 0.0
    requires if direction == "increase" then Power(factor, n) <= 1.12 else Power(factor, n) >= 0.85
    ensures CappedUpTo(price, direction, Repeat(price, factor, round2, n), Errors(factor, n))
  {
    NearExact(price, factor, round2, n);
    ExactCapped(price, direction, factor, n);
  }

  lemma ExactCapped(price: real, direction: string, factor: real, n: nat)
    requires price >= 0.0
    requires if direction == "increase" then Power(factor, n) <= 1.12 else Power(factor, n) >= 0.85
    ensures if direction == "increase" then Exact(price, factor, n) <= price * 1.12 else Exact(price, factor, n) >= price * 0.85
  {
    ExactIsPower(price, factor, n);
    if direction == "increase" {
      Scaled(price, Power(factor, n), 1.12, Exact(price, factor, n), price * 1.12);
    } else {
      Scaled(price, 0.85, Power(factor, n), price * 0.85, Exact(price, factor, n));
    }
  }

  lemma NoSlackSuffices(ids: seq<string>, id: string, direction: string, percent: real, round2: real -> real, slack: real)
    requires Rounds(round2) && slack >= 0.0 && !PowerCapped(ids, id, direction, percent)
    ensures !KeepsCapUpTo(ids, id, direction, percent, round2, slack)
  {
    var f, n := Factor(direction, percent), Count(ids, id);
    FactorInRange(direction, percent);
    var price;
    if direction == "increase" {
      price := RiseEscapes(f, round2, n, 1.12, slack);
    } else {
      price := FallEscapes(f, round2, n, 0.85, slack);
    }
    var menu := map[id := price];
    PriceAfter(menu, ids, f, round2, id);
    assert !CappedUpTo(menu[id], direction, PriceIn(Repriced(menu, ids, f, round2), id), slack);
  }

  /** In particular, listings that carry the factor past the limit break the cap. */
  lemma CapNeedsPower(ids: seq<string>, id: string, direction: string, percent: real, round2: real -> real)
    requires Rounds(round2) && KeepsCap(ids, id, direction, percent, round2)
    ensures PowerCapped(ids, id, direction, percent)
  {
    forall menu: map<string, real> | id in menu && menu[id] >= 0.0
      ensures CappedUpTo(menu[id], direction, PriceIn(Repriced(menu, ids, Factor(direction, percent), round2), id), 0.005)
    {
    }
    assert KeepsCapUpTo(ids, id, direction, percent, round2, 0.005);
    CapUpToRoundingExactly(ids, id, direction, percent, round2);
  }

  /** An id listed twice escapes the cap: 100 becomes more than 125 under a 12% limit. */
  lemma RepeatedIdEscapesCap(round2: real -> real)
    requires Rounds(round2)
    ensures "x" in Repriced(map["x" := 100.0], ["x", "x"], Factor("increase", 12.0), round2)
    ensures Repriced(map["x" := 100.0], ["x", "x"], Factor("increase", 12.0), round2)["x"] > 125.0
  {
    var f, menu, ids := Factor("increase", 12.0), map["x" := 100.0], ["x", "x"];
    PriceAfter(menu, ids, f, round2, "x");
    assert ids[..1] == ["x"] && ids[..1][..0] == [];
    assert Count(ids[..1], "x") == 1 && Count(ids, "x") == 2;
    assert f == 1.12;
    assert Power(f, 1) == Power(f, 0) * f == f && Errors(f, 1) == Errors(f, 0) * f + 0.005;
    assert Power(f, 2) == Power(f, 1) * f && Errors(f, 2) == Errors(f, 1) * f + 0.005;
    NearPower(100.0, f, round2, 2);
  }
}
