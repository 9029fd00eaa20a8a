/** When a proposing tool of an agent run is called and when it is skipped, and with what
    arguments (src/masova_agent/core/ops_contract.py, src/masova_agent/runtime/ops_llm.py). */
module ProposeLaws {
  import opened Outcomes
  import opened Policy
  import opened ToolArgs
  import opened ToolLoop

  // ---- the tools, by what they propose ----

  predicate Campaigns(name: string) { name == "create_draft_campaign" || name == "draft_churn_campaign" }

  predicate Orders(name: string) { name == "create_draft_po" || name == "draft_purchase_order" }

  predicate Forecasts(name: string) { name == "write_forecast" }

  predicate Rosters(name: string) { name == "create_draft_shifts" || name == "draft_shift_roster" }

  predicate Notices(name: string) { name == "notify_managers" || name == "notify_manager" }

  predicate Briefs(name: string) { name == "draft_kitchen_brief" }

  predicate Prices(name: string) { name == "propose_price_suggestion" || name == "suggest_price_adjustment" }

  lemma SameTools(name: string)
    ensures (name in CAMPAIGN_TOOLS <==> Campaigns(name)) && (name in ORDER_TOOLS <==> Orders(name))
    ensures (name in SHIFT_TOOLS <==> Rosters(name)) && (name in NOTIFY_TOOLS <==> Notices(name))
    ensures name in PRICE_TOOLS <==> Prices(name)
  {
  }

  /** The length and two letters of a name tell what it proposes. */
  lemma NamesDiffer(name: string)
    ensures Campaigns(name) ==> |name| == 21 || (|name| == 20 && name[6] == 'c')
    ensures Orders(name) ==> (|name| == 15 && name[0] == 'c') || (|name| == 20 && name[6] == 'p')
    ensures Forecasts(name) ==> |name| == 14 && name[0] == 'w'
    ensures Rosters(name) ==> (|name| == 19 && name[0] == 'c') || |name| == 18
    ensures Notices(name) ==> (|name| == 15 || |name| == 14) && name[0] == 'n'
    ensures Briefs(name) ==> |name| == 19 && name[0] == 'd'
    ensures Prices(name) ==> |name| == 24
  {
  }

  // ---- what is filled in ----

  /** Result `i` is the newest of one of the tools. */
  ghost predicate NewestResult(prior: seq<Entry>, tools: set<string>, i: int) {
    0 <= i < |prior| && prior[i].tool in tools && forall j :: i < j < |prior| ==> prior[j].tool !in tools
  }

  lemma {:induction false} LastBodyIsNewest(prior: seq<Entry>, tools: set<string>)
    ensures LastBody(prior, tools).Some? <==> exists i :: NewestResult(prior, tools, i)
    ensures forall i :: NewestResult(prior, tools, i) ==> LastBody(prior, tools) == Some(Fields(prior[i].result))
  {
    if prior != [] {
      var n := |prior| - 1;
      if prior[n].tool in tools {
        assert NewestResult(prior, tools, n);
      } else {
        LastBodyIsNewest(prior[..n], tools);
        forall i ensures NewestResult(prior, tools, i) <==> NewestResult(prior[..n], tools, i) {
          if NewestResult(prior[..n], tools, i) {
            assert forall j :: i < j < n ==> prior[..n][j] == prior[j];
          }
          if NewestResult(prior, tools, i) {
            assert forall j :: i < j < n ==> prior[..n][j] == prior[j];
          }
        }
      }
    }
  }

  /** The items an order is called with: those given, or those of the newest low-stock result. */
  ghost function ItemsFor(args: Args, prior: seq<Entry>): Json {
    if Truthy(Get(args, "items")) then args["items"]
    else if exists i :: NewestResult(prior, {"list_low_stock", "read_inventory_levels"}, i)
    then
      var i :| NewestResult(prior, {"list_low_stock", "read_inventory_levels"}, i);
      List(Rows(Get(Fields(prior[i].result), "items")))
    else Get(args, "items")
  }

  /** The texts of a key, row by row, for rows that have one. */
  lemma {:induction false} TextsOfTwo(reader: Reader, a: seq<Json>, b: seq<Json>, key: string)
    ensures Texts(reader, a + b, key) == Texts(reader, a, key) + Texts(reader, b, key)
  {
    if b == [] {
      assert a + b == a;
    } else {
      assert (a + b)[..|a + b| - 1] == a + b[..|b| - 1];
      TextsOfTwo(reader, a, b[..|b| - 1], key);
    }
  }

  lemma TextsOfOne(reader: Reader, row: Json, key: string)
    ensures Texts(reader, [row], key)
            == if row.Obj? && key in row.fields && Truthy(row.fields[key]) then [Str(reader.text(row.fields[key]))] else []
  {
    assert [row][..0] == [];
  }

  ghost function CustomersOf(reader: Reader, e: Entry): seq<Json> {
    Texts(reader, Rows(Get(Fields(e.result), "customers")), "id")
  }

  /** Result `i` is the newest churn segment that lists customers. */
  ghost predicate NewestSegment(reader: Reader, prior: seq<Entry>, i: int) {
    0 <= i < |prior| && prior[i].tool == "read_churn_segment" && CustomersOf(reader, prior[i]) != []
    && forall j :: i < j < |prior| && prior[j].tool == "read_churn_segment" ==> CustomersOf(reader, prior[j]) == []
  }

  ghost function CustomersFor(reader: Reader, args: Args, prior: seq<Entry>): Json {
    if Truthy(Get(args, "customer_ids")) then args["customer_ids"]
    else if exists i :: NewestSegment(reader, prior, i)
    then
      var i :| NewestSegment(reader, prior, i);
      List(CustomersOf(reader, prior[i]))
    else List([])
  }

  lemma {:induction false} IdsAreNewest(reader: Reader, prior: seq<Entry>)
    ensures var ids := IdsFromPrior(reader, prior, {"read_churn_segment"}, "customers");
            && (ids == [] <==> forall i :: !NewestSegment(reader, prior, i))
            && forall i :: NewestSegment(reader, prior, i) ==> ids == CustomersOf(reader, prior[i])
  {
    if prior != [] {
      var n := |prior| - 1;
      if prior[n].tool == "read_churn_segment" && CustomersOf(reader, prior[n]) != [] {
        assert NewestSegment(reader, prior, n);
      } else {
        IdsAreNewest(reader, prior[..n]);
        OlderSegments(reader, prior);
        if i :| NewestSegment(reader, prior[..n], i) {
          assert NewestSegment(reader, prior, i);
        }
      }
    }
  }

  lemma OlderSegments(reader: Reader, prior: seq<Entry>)
    requires prior != []
    requires var last := prior[|prior| - 1]; !(last.tool == "read_churn_segment" && CustomersOf(reader, last) != [])
    ensures forall i :: NewestSegment(reader, prior, i) ==> NewestSegment(reader, prior[..|prior| - 1], i)
    ensures forall i :: NewestSegment(reader, prior[..|prior| - 1], i) ==> NewestSegment(reader, prior, i)
  {
    var n := |prior| - 1;
    assert forall j :: 0 <= j < n ==> prior[..n][j] == prior[j];
  }

  /** The newest churn segment that was read counts nobody. */
  ghost predicate NobodyLeft(reader: Reader, prior: seq<Entry>) {
    exists i :: NewestResult(prior, {"read_churn_segment"}, i)
                && var count := Get(Fields(prior[i].result), "count"); !Truthy(count) || reader.toInt(count) == 0
  }

  lemma ChurnEmptyExactly(reader: Reader, prior: seq<Entry>)
    ensures ChurnEmpty(reader, prior) <==> NobodyLeft(reader, prior)
  {
    LastBodyIsNewest(prior, {"read_churn_segment"});
  }

  ghost function ForecastsFor(reader: Reader, args: Args, prior: seq<Entry>): Json {
    var given := Get(args, "forecasts");
    match reader.forecasts(given, prior) case Some(lifted) => lifted case None => given
  }

  function SupplierOf(row: Args): Json {
    if Truthy(Get(row, "primary_supplier_id")) then row["primary_supplier_id"]
    else if Truthy(Get(row, "supplier_id")) then row["supplier_id"]
    else Get(row, "supplierId")
  }

  /** Item `i` is the first that names a supplier. */
  ghost predicate FirstSupplied(rows: seq<Json>, i: int) {
    0 <= i < |rows| && Truthy(SupplierOf(Fields(rows[i]))) && forall j :: 0 <= j < i ==> !Truthy(SupplierOf(Fields(rows[j])))
  }

  ghost function SupplierFor(given: Args, items: Json): Json {
    if Truthy(Get(given, "supplier_id")) then given["supplier_id"]
    else if exists i :: FirstSupplied(Rows(items), i)
    then
      var i :| FirstSupplied(Rows(items), i);
      SupplierOf(Fields(Rows(items)[i]))
    else Get(given, "supplier_id")
  }

  lemma SupplierOfRow(row: Args)
    ensures Truthy(FirstOf(row, SUPPLIER_KEYS)) <==> Truthy(SupplierOf(row))
    ensures Truthy(SupplierOf(row)) ==> FirstOf(row, SUPPLIER_KEYS) == SupplierOf(row)
  {
    var k1, k2 := SUPPLIER_KEYS[1..], SUPPLIER_KEYS[2..];
    assert k1 == ["supplier_id", "supplierId"] && k1[1..] == k2 == ["supplierId"] && k2[1..] == [];
    assert FirstOf(row, k2) == if Truthy(Get(row, "supplierId")) then Get(row, "supplierId") else FirstOf(row, []);
    assert FirstOf(row, k1) == if Truthy(Get(row, "supplier_id")) then Get(row, "supplier_id") else FirstOf(row, k2);
  }

  lemma {:induction false} SupplierInRows(rows: seq<Json>)
    ensures Truthy(SupplierIn(rows)) <==> exists i :: FirstSupplied(rows, i)
    ensures forall i :: FirstSupplied(rows, i) ==> SupplierIn(rows) == SupplierOf(Fields(rows[i]))
  {
    if rows != [] {
      SupplierOfRow(Fields(rows[0]));
      if Truthy(SupplierOf(Fields(rows[0]))) {
        assert FirstSupplied(rows, 0);
      } else {
        SupplierInRows(rows[1..]);
        forall i ensures FirstSupplied(rows, i) <==> FirstSupplied(rows[1..], i - 1) {
          assert forall j :: 0 <= j < |rows| - 1 ==> rows[1..][j] == rows[j + 1];
          assert FirstSupplied(rows[1..], i - 1) ==> forall j :: 0 < j < i ==> rows[j] == rows[1..][j - 1];
        }
        if i :| FirstSupplied(rows[1..], i) {
          assert FirstSupplied(rows[1..], i + 1 - 1) && FirstSupplied(rows, i + 1);
        }
      }
    }
  }

  /** A price rise looks at what sells best, a discount at what sells slowly too. */
  ghost function PriceSources(reader: Reader, given: Args): set<string> {
    var direction := Get(given, "direction");
    if Truthy(direction) && LowerCase(reader.text(direction)) == "increase" then {"get_top_items"}
    else {"get_slow_items", "get_top_items"}
  }

  ghost function ItemTexts(reader: Reader, e: Entry, key: string): seq<Json> {
    Texts(reader, Rows(Get(Fields(e.result), "items")), key)
  }

  ghost predicate ListsItems(reader: Reader, e: Entry, tools: set<string>) {
    e.tool in tools && (ItemTexts(reader, e, "id") != [] || ItemTexts(reader, e, "name") != [])
  }

  /** Result `i` is the newest of the sources that lists items. */
  ghost predicate NewestSource(reader: Reader, prior: seq<Entry>, tools: set<string>, i: int) {
    0 <= i < |prior| && ListsItems(reader, prior[i], tools) && forall j :: i < j < |prior| ==> !ListsItems(reader, prior[j], tools)
  }

  ghost function ListedFor(reader: Reader, given: Args, prior: seq<Entry>, arg: string, key: string): Json {
    var tools := PriceSources(reader, given);
    if Truthy(Get(given, "item_ids")) || Truthy(Get(given, "item_names")) || arg in given then Get(given, arg)
    else if exists i :: NewestSource(reader, prior, tools, i)
    then
      var i :| NewestSource(reader, prior, tools, i);
      List(ItemTexts(reader, prior[i], key))
    else List([])
  }

  lemma {:induction false} SourceIsNewest(reader: Reader, prior: seq<Entry>, tools: set<string>)
    ensures var found := PriceSource(reader, prior, tools);
            && ((forall i :: !NewestSource(reader, prior, tools, i)) ==> found == ([], []))
            && forall i :: NewestSource(reader, prior, tools, i) ==>
                 found == (ItemTexts(reader, prior[i], "id"), ItemTexts(reader, prior[i], "name"))
  {
    if prior != [] {
      var n := |prior| - 1;
      if ListsItems(reader, prior[n], tools) {
        assert NewestSource(reader, prior, tools, n);
      } else {
        SourceIsNewest(reader, prior[..n], tools);
        OlderSources(reader, prior, tools);
        if i :| NewestSource(reader, prior[..n], tools, i) {
          assert NewestSource(reader, prior, tools, i);
        }
        assert Texts(reader, [], "id") == [] && Texts(reader, [], "name") == [];
        assert PriceSource(reader, prior, tools) == PriceSource(reader, prior[..n], tools);
      }
    }
  }

  lemma OlderSources(reader: Reader, prior: seq<Entry>, tools: set<string>)
    requires prior != [] && !ListsItems(reader, prior[|prior| - 1], tools)
    ensures forall i :: NewestSource(reader, prior, tools, i) ==> NewestSource(reader, prior[..|prior| - 1], tools, i)
    ensures forall i :: NewestSource(reader, prior[..|prior| - 1], tools, i) ==> NewestSource(reader, prior, tools, i)
  {
    var n := |prior| - 1;
    assert forall j :: 0 <= j < n ==> prior[..n][j] == prior[j];
  }

  /** A figure of a kitchen brief: the one given, or that of the newest kitchen metrics. */
  ghost function FigureFor(given: Args, prior: seq<Entry>, key: string): Json {
    if !Blank(Get(given, key)) then given[key]
    else if exists i :: NewestResult(prior, {"read_kitchen_metrics"}, i)
                       && !Blank(Get(Fields(prior[i].result), key))
    then
      var i :| NewestResult(prior, {"read_kitchen_metrics"}, i) && !Blank(Get(Fields(prior[i].result), key));
      Fields(prior[i].result)[key]
    else Get(given, key)
  }

  /** The text of a brief: the one given, or worded from the newest kitchen metrics. */
  ghost function BriefTextFor(reader: Reader, given: Args, prior: seq<Entry>): Json {
    if Truthy(Get(given, "brief_text")) then given["brief_text"]
    else if exists i :: NewestResult(prior, {"read_kitchen_metrics"}, i)
    then
      var i :| NewestResult(prior, {"read_kitchen_metrics"}, i);
      Str(reader.brief(Fields(prior[i].result)))
    else Get(given, "brief_text")
  }

  lemma {:induction false} FilledKey(args: Args, body: Args, keys: seq<string>, key: string)
    ensures Get(FillKeys(args, body, keys), key)
            == if key in keys && Blank(Get(args, key)) && !Blank(Get(body, key)) then Get(body, key) else Get(args, key)
    decreases |keys|
  {
    if keys != [] {
      var next := if Blank(Get(args, keys[0])) && !Blank(Get(body, keys[0])) then args[keys[0] := Get(body, keys[0])] else args;
      FilledKey(next, body, keys[1..], key);
      assert key in keys <==> key == keys[0] || key in keys[1..];
    }
  }

  // ---- what comes of a call ----

  /** The arguments that were given reach the tool as far as it takes them; blanks may be
      filled in, and a forecast may be completed. */
  ghost predicate Carries(tools: Tools, name: string, given: Args, call: Call)
    requires name in tools.params
  {
    forall k :: k in tools.params[name] && Truthy(Get(given, k)) && !(Forecasts(name) && k == "forecasts") ==>
      k in call.args && call.args[k] == given[k]
  }

  /** The tool ran once, after the calls `before`, and its answer is the result. */
  ghost predicate Ran(tools: Tools, name: string, given: Args, call: Call, before: seq<Call>, after: seq<Call>, result: Json)
    requires name in tools.params
  {
    call.tool == name && after == before + [call] && result == tools.answer(call, before) && Carries(tools, name, given, call)
  }

  /** The tool ran, and as far as it takes them got the `filled` arguments. */
  ghost predicate RanWith(tools: Tools, name: string, given: Args, filled: Args,
                          before: seq<Call>, after: seq<Call>, result: Json)
    requires name in tools.params
  {
    exists call :: Ran(tools, name, given, call, before, after, result) && Got(tools, name, call, filled)
  }

  ghost predicate Got(tools: Tools, name: string, call: Call, filled: Args)
    requires name in tools.params
  {
    forall k :: k in filled && k in tools.params[name] ==> Get(call.args, k) == filled[k]
  }

  /** The tool ran with nothing filled in. */
  ghost predicate RanAsGiven(tools: Tools, name: string, given: Args, before: seq<Call>, after: seq<Call>, result: Json)
    requires name in tools.params
  {
    exists call :: Ran(tools, name, given, call, before, after, result)
                   && (forall k :: k in call.args <==> k in given && k in tools.params[name])
                   && (forall k :: k in call.args ==> call.args[k] == given[k])
  }

  /** No tool ran; the result says that it was skipped, and why. */
  ghost predicate SkippedFor(reason: string, before: seq<Call>, after: seq<Call>, result: Json) {
    after == before
    && result == Obj(map["ok" := Bool(true), "skipped" := Bool(true), "reason" := Str(reason), "proposal" := Null])
  }

  ghost function OrderFilled(given: Args, items: Json): Args {
    map["items" := items, "supplier_id" := SupplierFor(given, items)]
  }

  ghost function BriefFilled(reader: Reader, given: Args, prior: seq<Entry>): Args {
    (map k | k in {"ticket_count", "avg_prep_minutes", "slow_tickets", "period_date"} :: FigureFor(given, prior, k))
    ["brief_text" := BriefTextFor(reader, given, prior)]
  }

  ghost function PricesFilled(reader: Reader, given: Args, prior: seq<Entry>): Args {
    map["item_ids" := ListedFor(reader, given, prior, "item_ids", "id"),
        "item_names" := ListedFor(reader, given, prior, "item_names", "name")]
  }

  /** What comes of calling a tool with the arguments given, after the results `prior`: a
      proposal that would be empty is skipped for a stated reason, and any other call runs,
      with what was missing filled in. */
  ghost predicate Outcome(tools: Tools, name: string, given: Args, prior: seq<Entry>,
                          before: seq<Call>, after: seq<Call>, result: Json)
    requires name in tools.params
  {
    var reader := tools.reader;
    if Campaigns(name) then
      var ids := CustomersFor(reader, given, prior);
      if Truthy(ids) && !NobodyLeft(reader, prior) then RanWith(tools, name, given, map["customer_ids" := ids], before, after, result)
      else SkippedFor("no_churn_customers", before, after, result)
    else if Orders(name) then
      var items := ItemsFor(given, prior);
      if Truthy(items) then RanWith(tools, name, given, OrderFilled(given, items), before, after, result)
      else SkippedFor("no_po_items", before, after, result)
    else if Forecasts(name) then
      var forecasts := ForecastsFor(reader, given, prior);
      if Truthy(forecasts) then RanWith(tools, name, given, map["forecasts" := forecasts], before, after, result)
      else SkippedFor("no_forecasts", before, after, result)
    else if Rosters(name) then
      if Truthy(Get(given, "shifts")) then RanAsGiven(tools, name, given, before, after, result)
      else SkippedFor("no_shifts", before, after, result)
    else if Notices(name) then
      if NobodyLeft(reader, prior) then SkippedFor("no_churn_customers", before, after, result)
      else RanAsGiven(tools, name, given, before, after, result)
    else if Briefs(name) then RanWith(tools, name, given, BriefFilled(reader, given, prior), before, after, result)
    else if Prices(name) then RanWith(tools, name, given, PricesFilled(reader, given, prior), before, after, result)
    else RanAsGiven(tools, name, given, before, after, result)
  }

  /** The arguments a tool is called with start from those given, with the run's own store. */
  function Given(tools: Tools, run: Run, name: string, args: Args): Args
    requires name in tools.params
  {
    if run.store != "" && "store_id" in tools.params[name] then args["store_id" := Str(run.store)] else args
  }

  /** A hydrated call that is not skipped runs and carries what was given. */
  lemma InvokedRuns(tools: Tools, run: Run, name: string, args: Args, prior: seq<Entry>, history: seq<Call>) returns (call: Call)
    requires name in tools.params
    requires var full := Hydrate(tools.reader, name, Given(tools, run, name, args), prior);
             SkipIncomplete(tools.reader, name, full, prior) == None
    ensures var given := Given(tools, run, name, args);
            var full := Hydrate(tools.reader, name, given, prior);
            var (result, calls) := Invoke(tools, run, name, args, prior, history);
            && calls == [call] && call.args == Accepted(tools, name, full)
            && Ran(tools, name, given, call, history, history + calls, result)
  {
    var given := Given(tools, run, name, args);
    var full := Hydrate(tools.reader, name, given, prior);
    call := Call(name, Accepted(tools, name, full));
    forall k | k in tools.params[name] && Truthy(Get(given, k)) && !(Forecasts(name) && k == "forecasts")
      ensures k in call.args && call.args[k] == given[k]
    {
      HydrateFillsOnlyGaps(tools.reader, name, given, prior, k);
    }
  }

  lemma AcceptedIsGot(tools: Tools, name: string, full: Args, filled: Args)
    requires name in tools.params && forall k :: k in filled ==> Get(full, k) == filled[k]
    ensures Got(tools, name, Call(name, Accepted(tools, name, full)), filled)
  {
  }

  lemma OrderIsFilled(args: Args, prior: seq<Entry>)
    ensures var full, items := FillSupplier(FillOrderItems(args, prior)), ItemsFor(args, prior);
            Get(full, "items") == items && Get(full, "supplier_id") == SupplierFor(args, items)
  {
    LastBodyIsNewest(prior, LOW_STOCK_TOOLS);
    assert LOW_STOCK_TOOLS == {"list_low_stock", "read_inventory_levels"};
    assert "items"[0] == 'i' && "supplier_id"[0] == 's';
    assert Get(FillOrderItems(args, prior), "items") == ItemsFor(args, prior);
    SupplierInRows(Rows(ItemsFor(args, prior)));
  }

  lemma OrderOutcome(tools: Tools, run: Run, name: string, args: Args, prior: seq<Entry>, history: seq<Call>)
    requires name in tools.params && Orders(name)
    ensures var (result, calls) := Invoke(tools, run, name, args, prior, history);
            Outcome(tools, name, Given(tools, run, name, args), prior, history, history + calls, result)
  {
    SameTools(name);
    NamesDiffer(name);
    var given := Given(tools, run, name, args);
    OrderIsFilled(given, prior);
    var items := ItemsFor(given, prior);
    if Truthy(items) {
      var call := InvokedRuns(tools, run, name, args, prior, history);
      AcceptedIsGot(tools, name, FillSupplier(FillOrderItems(given, prior)), OrderFilled(given, items));
    }
  }

  lemma CampaignOutcome(tools: Tools, run: Run, name: string, args: Args, prior: seq<Entry>, history: seq<Call>)
    requires name in tools.params && Campaigns(name)
    ensures var (result, calls) := Invoke(tools, run, name, args, prior, history);
            Outcome(tools, name, Given(tools, run, name, args), prior, history, history + calls, result)
  {
    SameTools(name);
    NamesDiffer(name);
    var given := Given(tools, run, name, args);
    IdsAreNewest(tools.reader, prior);
    ChurnEmptyExactly(tools.reader, prior);
    var ids := CustomersFor(tools.reader, given, prior);
    assert Get(FillCampaign(tools.reader, given, prior), "customer_ids") == ids;
    if Truthy(ids) && !NobodyLeft(tools.reader, prior) {
      var call := InvokedRuns(tools, run, name, args, prior, history);
      AcceptedIsGot(tools, name, FillCampaign(tools.reader, given, prior), map["customer_ids" := ids]);
    }
  }

  lemma ForecastOutcome(tools: Tools, run: Run, name: string, args: Args, prior: seq<Entry>, history: seq<Call>)
    requires name in tools.params && Forecasts(name)
    ensures var (result, calls) := Invoke(tools, run, name, args, prior, history);
            Outcome(tools, name, Given(tools, run, name, args), prior, history, history + calls, result)
  {
    SameTools(name);
    NamesDiffer(name);
    var given := Given(tools, run, name, args);
    var forecasts := ForecastsFor(tools.reader, given, prior);
    assert Get(FillForecasts(tools.reader, given, prior), "forecasts") == forecasts;
    if Truthy(forecasts) {
      var call := InvokedRuns(tools, run, name, args, prior, history);
      AcceptedIsGot(tools, name, FillForecasts(tools.reader, given, prior), map["forecasts" := forecasts]);
    }
  }

  /** Rosters, notices and all tools that propose nothing get what was given. */
  lemma PlainOutcome(tools: Tools, run: Run, name: string, args: Args, prior: seq<Entry>, history: seq<Call>)
    requires name in tools.params
    requires !Campaigns(name) && !Orders(name) && !Forecasts(name) && !Briefs(name) && !Prices(name)
    ensures var (result, calls) := Invoke(tools, run, name, args, prior, history);
            Outcome(tools, name, Given(tools, run, name, args), prior, history, history + calls, result)
  {
    SameTools(name);
    NamesDiffer(name);
    var given := Given(tools, run, name, args);
    ChurnEmptyExactly(tools.reader, prior);
    assert Hydrate(tools.reader, name, given, prior) == given;
    if SkipIncomplete(tools.reader, name, given, prior) == None {
      var call := InvokedRuns(tools, run, name, args, prior, history);
    }
  }

  lemma BriefIsFilled(reader: Reader, args: Args, prior: seq<Entry>, key: string)
    requires key in BRIEF_KEYS
    ensures Get(FillBrief(reader, args, prior), key) == FigureFor(args, prior, key)
  {
    LastBodyIsNewest(prior, {"read_kitchen_metrics"});
    var body := LastBody(prior, {"read_kitchen_metrics"});
    assert key != "brief_text" by {
      assert "brief_text"[0] == 'b' && key[0] != 'b';
    }
    if body.Some? {
      FilledKey(args, body.value, BRIEF_KEYS, key);
    }
  }

  lemma BriefTextIsFilled(reader: Reader, args: Args, prior: seq<Entry>)
    ensures Get(FillBrief(reader, args, prior), "brief_text") == BriefTextFor(reader, args, prior)
  {
    LastBodyIsNewest(prior, {"read_kitchen_metrics"});
    var body := LastBody(prior, {"read_kitchen_metrics"});
    assert "brief_text" !in BRIEF_KEYS by {
      assert "brief_text"[0] == 'b' && forall k :: k in BRIEF_KEYS ==> k[0] != 'b';
    }
    if body.Some? {
      FilledKey(args, body.value, BRIEF_KEYS, "brief_text");
    }
  }

  lemma BriefOutcome(tools: Tools, run: Run, name: string, args: Args, prior: seq<Entry>, history: seq<Call>)
    requires name in tools.params && Briefs(name)
    ensures var (result, calls) := Invoke(tools, run, name, args, prior, history);
            Outcome(tools, name, Given(tools, run, name, args), prior, history, history + calls, result)
  {
    SameTools(name);
    NamesDiffer(name);
    var given := Given(tools, run, name, args);
    var full, filled := FillBrief(tools.reader, given, prior), BriefFilled(tools.reader, given, prior);
    forall k | k in filled ensures Get(full, k) == filled[k] {
      if k == "brief_text" {
        BriefTextIsFilled(tools.reader, given, prior);
      } else {
        BriefIsFilled(tools.reader, given, prior, k);
      }
    }
    var call := InvokedRuns(tools, run, name, args, prior, history);
    AcceptedIsGot(tools, name, full, filled);
  }

  lemma TwoDefaults(args: Args, a: string, x: Json, b: string, y: Json)
    requires a != b
    ensures var full := Default(Default(args, a, x), b, y);
            && Get(full, a) == (if a in args then args[a] else x) && Get(full, b) == (if b in args then args[b] else y)
  {
  }

  lemma PricesAreFilled(reader: Reader, args: Args, prior: seq<Entry>, rising: bool)
    requires PriceSources(reader, args) == if rising then {"get_top_items"} else {"get_slow_items", "get_top_items"}
    ensures var full := FillPrices(reader, args, prior, rising);
            && Get(full, "item_ids") == ListedFor(reader, args, prior, "item_ids", "id")
            && Get(full, "item_names") == ListedFor(reader, args, prior, "item_names", "name")
  {
    var found := PriceSource(reader, prior, PriceSources(reader, args));
    SourceIsNewest(reader, prior, PriceSources(reader, args));
    assert "item_ids"[5] == 'i' && "item_names"[5] == 'n';
    TwoDefaults(args, "item_ids", List(found.0), "item_names", List(found.1));
  }

  lemma PriceOutcome(tools: Tools, run: Run, name: string, args: Args, prior: seq<Entry>, history: seq<Call>)
    requires name in tools.params && Prices(name)
    ensures var (result, calls) := Invoke(tools, run, name, args, prior, history);
            Outcome(tools, name, Given(tools, run, name, args), prior, history, history + calls, result)
  {
    SameTools(name);
    NamesDiffer(name);
    var reader, given := tools.reader, Given(tools, run, name, args);
    var rising := Truthy(Get(given, "direction")) && LowerCase(reader.text(Get(given, "direction"))) == "increase";
    PricesAreFilled(reader, given, prior, rising);
    assert "item_ids"[5] == 'i' && "item_names"[5] == 'n';
    var call := InvokedRuns(tools, run, name, args, prior, history);
    AcceptedIsGot(tools, name, FillPrices(reader, given, prior, rising), PricesFilled(reader, given, prior));
  }

  lemma InvokeOutcome(tools: Tools, run: Run, name: string, args: Args, prior: seq<Entry>, history: seq<Call>)
    requires name in tools.params
    ensures var (result, calls) := Invoke(tools, run, name, args, prior, history);
            Outcome(tools, name, Given(tools, run, name, args), prior, history, history + calls, result)
  {
    if Campaigns(name) {
      CampaignOutcome(tools, run, name, args, prior, history);
    } else if Orders(name) {
      OrderOutcome(tools, run, name, args, prior, history);
    } else if Forecasts(name) {
      ForecastOutcome(tools, run, name, args, prior, history);
    } else if Briefs(name) {
      BriefOutcome(tools, run, name, args, prior, history);
    } else if Prices(name) {
      PriceOutcome(tools, run, name, args, prior, history);
    } else {
      PlainOutcome(tools, run, name, args, prior, history);
    }
  }

  // ---- steps of the two loops ----

  ghost predicate Failed(reason: string, result: Json) {
    result == Obj(map["ok" := Bool(false), "error" := Str(reason)])
  }

  /** A step of a plan adds one entry: the outcome of the call if the tool is on the run's
      list, is no execute-tier tool and is known; else a refusal, and no call. */
  lemma PlanStepOutcome(tools: Tools, run: Run, p: Progress, step: PlanStep)
    requires step.tool != ""
    ensures var q, n := AfterPlanStep(tools, run, p, step), |p.results|;
            var allowed := step.tool in run.allowed && !(step.tool in tools.registry && tools.registry[step.tool] == EXECUTE);
            && |q.results| == n + 1 && q.results[..n] == p.results && q.results[n].tool == step.tool
            && if allowed && step.tool in tools.params then
                 q.used == p.used + [step.tool]
                 && Outcome(tools, step.tool, Given(tools, run, step.tool, step.args), p.results, p.invoked, q.invoked, q.results[n].result)
               else
                 q.used == p.used && q.invoked == p.invoked
                 && Failed(if allowed then "unknown_tool" else "tool_not_allowed", q.results[n].result)
  {
    if step.tool in tools.params {
      InvokeOutcome(tools, run, step.tool, step.args, p.results, p.invoked);
    }
  }

  /** A request of the model for a tool whose results are not kept: the same, for tools that
      are registered. */
  lemma RequestOutcome(tools: Tools, run: Run, caching: bool, prior: seq<Entry>, m: Memory, r: Request)
    requires r.tool !in DEDUP_TOOLS
    ensures var (after, result) := RunOne(tools, run, caching, prior, m, r);
            var allowed := r.tool in run.allowed && r.tool in tools.registry && tools.registry[r.tool] != EXECUTE;
            && after == m.(invoked := after.invoked)
            && if allowed && r.tool in tools.params then
                 Outcome(tools, r.tool, Given(tools, run, r.tool, tools.decode(r.text)), prior, m.invoked, after.invoked, result)
               else after.invoked == m.invoked && Failed(if allowed then "unknown_tool" else "tool_not_allowed", result)
  {
    if r.tool in tools.params {
      InvokeOutcome(tools, run, r.tool, tools.decode(r.text), prior, m.invoked);
    }
  }
}
