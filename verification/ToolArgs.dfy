/** Arguments and results of agent tools, and what is filled in before a call
    (`hydrate_propose_args` and `skip_incomplete_propose` in
    src/masova_agent/core/ops_contract.py). */
module ToolArgs {
  import opened Outcomes

  datatype Json =
    | Null
    | Bool(flag: bool)
    | Num(number: real)
    | Str(text: string)
    | List(items: seq<Json>)
    | Obj(fields: map<string, Json>)

  type Args = map<string, Json>

  /** A tool's result in the list that later steps read. */
  datatype Entry = Entry(tool: string, result: Json)

  /** Renderings this model does not look into: `str`, `int`, the forecast series lifted from
      earlier results (None: left alone), and the wording of a kitchen brief. */
  datatype Reader = Reader(text: Json -> string, toInt: Json -> int, forecasts: (Json, seq<Entry>) -> Option<Json>,
                           brief: Args -> string)

  predicate Truthy(j: Json) {
    match j
    case Null => false
    case Bool(b) => b
    case Num(x) => x != 0.0
    case Str(s) => s != ""
    case List(items) => items != []
    case Obj(fields) => fields != map[]
  }

  function Get(o: Args, key: string): Json {
    if key in o then o[key] else Null
  }

  function Fields(j: Json): Args {
    if j.Obj? then j.fields else map[]
  }

  function Rows(j: Json): seq<Json> {
    if j.List? then j.items else []
  }

  /** The first of the keys with a truthy value. */
  function FirstOf(o: Args, keys: seq<string>): Json {
    if keys == [] then Null
    else if Truthy(Get(o, keys[0])) then Get(o, keys[0])
    else FirstOf(o, keys[1..])
  }

  const LOW_STOCK_TOOLS: set<string> := {"list_low_stock", "read_inventory_levels"}
  const CAMPAIGN_TOOLS: set<string> := {"create_draft_campaign", "draft_churn_campaign"}
  const ORDER_TOOLS: set<string> := {"create_draft_po", "draft_purchase_order"}
  const SHIFT_TOOLS: set<string> := {"create_draft_shifts", "draft_shift_roster"}
  const PRICE_TOOLS: set<string> := {"propose_price_suggestion", "suggest_price_adjustment"}
  const NOTIFY_TOOLS: set<string> := {"notify_managers", "notify_manager"}
  const BRIEF_KEYS: seq<string> := ["ticket_count", "avg_prep_minutes", "slow_tickets", "period_date"]
  const SUPPLIER_KEYS: seq<string> := ["primary_supplier_id", "supplier_id", "supplierId"]

  /** The newest result of one of the tools. */
  function LastBody(prior: seq<Entry>, tools: set<string>): Option<Args> {
    if prior == [] then None
    else
      var last := prior[|prior| - 1];
      if last.tool in tools then Some(Fields(last.result)) else LastBody(prior[..|prior| - 1], tools)
  }

  function Texts(reader: Reader, rows: seq<Json>, key: string): seq<Json> {
    if rows == [] then []
    else
      var last := rows[|rows| - 1];
      Texts(reader, rows[..|rows| - 1], key)
      + if Truthy(Get(Fields(last), key)) then [Str(reader.text(Get(Fields(last), key)))] else []
  }

  /** Ids of the newest result that lists any. */
  function IdsFromPrior(reader: Reader, prior: seq<Entry>, tools: set<string>, listKey: string): seq<Json> {
    if prior == [] then []
    else
      var last := prior[|prior| - 1];
      var ids := if last.tool in tools then Texts(reader, Rows(Get(Fields(last.result), listKey)), "id") else [];
      if ids != [] then ids else IdsFromPrior(reader, prior[..|prior| - 1], tools, listKey)
  }

  function SupplierIn(rows: seq<Json>): Json {
    if rows == [] then Null
    else
      var here := FirstOf(Fields(rows[0]), SUPPLIER_KEYS);
      if Truthy(here) then here else SupplierIn(rows[1..])
  }

  function FillCampaign(reader: Reader, args: Args, prior: seq<Entry>): Args {
    if Truthy(Get(args, "customer_ids")) then args
    else args["customer_ids" := List(IdsFromPrior(reader, prior, {"read_churn_segment"}, "customers"))]
  }

  function FillOrderItems(args: Args, prior: seq<Entry>): Args {
    if Truthy(Get(args, "items")) then args
    else
      match LastBody(prior, LOW_STOCK_TOOLS)
      case None => args
      case Some(body) => args["items" := List(Rows(Get(body, "items")))]
  }

  function FillSupplier(args: Args): Args {
    var found := SupplierIn(Rows(Get(args, "items")));
    if Truthy(Get(args, "supplier_id")) || !Truthy(found) then args else args["supplier_id" := found]
  }

  function FillForecasts(reader: Reader, args: Args, prior: seq<Entry>): Args {
    match reader.forecasts(Get(args, "forecasts"), prior)
    case None => args
    case Some(forecasts) => args["forecasts" := forecasts]
  }

  predicate Blank(j: Json) {
    j == Null || j == Str("")
  }

  function FillKeys(args: Args, body: Args, keys: seq<string>): Args
    decreases |keys|
  {
    if keys == [] then args
    else
      var key := keys[0];
      var next := if Blank(Get(args, key)) && !Blank(Get(body, key)) then args[key := Get(body, key)] else args;
      FillKeys(next, body, keys[1..])
  }

  function FillBrief(reader: Reader, args: Args, prior: seq<Entry>): Args {
    match LastBody(prior, {"read_kitchen_metrics"})
    case None => args
    case Some(body) =>
      var filled := FillKeys(args, body, BRIEF_KEYS);
      if Truthy(Get(filled, "brief_text")) then filled else filled["brief_text" := Str(reader.brief(body))]
  }

  function Default(args: Args, key: string, value: Json): Args {
    if key in args then args else args[key := value]
  }

  /** Ids and names of the newest price source that has either. */
  function PriceSource(reader: Reader, prior: seq<Entry>, tools: set<string>): (seq<Json>, seq<Json>) {
    if prior == [] then ([], [])
    else
      var last := prior[|prior| - 1];
      var rows := if last.tool in tools then Rows(Get(Fields(last.result), "items")) else [];
      var ids, names := Texts(reader, rows, "id"), Texts(reader, rows, "name");
      if ids != [] || names != [] then (ids, names) else PriceSource(reader, prior[..|prior| - 1], tools)
  }

  function FillPrices(reader: Reader, args: Args, prior: seq<Entry>, rising: bool): Args {
    if Truthy(Get(args, "item_ids")) || Truthy(Get(args, "item_names")) then args
    else
      var found := PriceSource(reader, prior, if rising then {"get_top_items"} else {"get_slow_items", "get_top_items"});
      Default(Default(args, "item_ids", List(found.0)), "item_names", List(found.1))
  }

  function Lower(c: char): char {
    if 'A' <= c <= 'Z' then c - 'A' + 'a' else c
  }

  function LowerCase(s: string): string {
    seq(|s|, i requires 0 <= i < |s| => Lower(s[i]))
  }

  function Hydrate(reader: Reader, name: string, args: Args, prior: seq<Entry>): Args {
    if name in CAMPAIGN_TOOLS then FillCampaign(reader, args, prior)
    else if name in ORDER_TOOLS then FillSupplier(FillOrderItems(args, prior))
    else if name == "write_forecast" then FillForecasts(reader, args, prior)
    else if name == "draft_kitchen_brief" then FillBrief(reader, args, prior)
    else if name in PRICE_TOOLS then
      FillPrices(reader, args, prior, Truthy(Get(args, "direction")) && LowerCase(reader.text(Get(args, "direction"))) == "increase")
    else args
  }

  function Skipped(reason: string): Json {
    Obj(map["ok" := Bool(true), "skipped" := Bool(true), "reason" := Str(reason), "proposal" := Null])
  }

  predicate ChurnEmpty(reader: Reader, prior: seq<Entry>) {
    match LastBody(prior, {"read_churn_segment"})
    case None => false
    case Some(body) => !Truthy(Get(body, "count")) || reader.toInt(Get(body, "count")) == 0
  }

  /** A proposal that would be empty is not made. */
  function SkipIncomplete(reader: Reader, name: string, args: Args, prior: seq<Entry>): Option<Json> {
    if name in CAMPAIGN_TOOLS && (!Truthy(Get(args, "customer_ids")) || ChurnEmpty(reader, prior)) then Some(Skipped("no_churn_customers"))
    else if name in ORDER_TOOLS && !Truthy(Get(args, "items")) then Some(Skipped("no_po_items"))
    else if name == "write_forecast" && !Truthy(Get(args, "forecasts")) then Some(Skipped("no_forecasts"))
    else if name in SHIFT_TOOLS && !Truthy(Get(args, "shifts")) then Some(Skipped("no_shifts"))
    else if name in NOTIFY_TOOLS && ChurnEmpty(reader, prior) then Some(Skipped("no_churn_customers"))
    else None
  }

  // ---- what filling in may change ----

  predicate SameAt(a: Args, b: Args, key: string) {
    (key in a <==> key in b) && (key in a ==> a[key] == b[key])
  }

  predicate Filled(key: string) {
    key in {"customer_ids", "items", "supplier_id", "forecasts", "brief_text", "item_ids", "item_names"}
    || key in BRIEF_KEYS
  }

  lemma {:induction false} FillKeysFrame(args: Args, body: Args, keys: seq<string>, key: string)
    ensures key !in keys || !Blank(Get(args, key)) ==> SameAt(FillKeys(args, body, keys), args, key)
    decreases |keys|
  {
    if keys != [] {
      var next := if Blank(Get(args, keys[0])) && !Blank(Get(body, keys[0])) then args[keys[0] := Get(body, keys[0])] else args;
      FillKeysFrame(next, body, keys[1..], key);
    }
  }

  /** Filling in adds the listed arguments and no others; in particular the store an
      argument list is pinned to stays. */
  lemma {:induction false} HydrateKeepsOtherArgs(reader: Reader, name: string, args: Args, prior: seq<Entry>, key: string)
    requires !Filled(key)
    ensures SameAt(Hydrate(reader, name, args, prior), args, key)
  {
    if name == "draft_kitchen_brief" {
      var body := LastBody(prior, {"read_kitchen_metrics"});
      if body.Some? {
        FillKeysFrame(args, body.value, BRIEF_KEYS, key);
      }
    }
  }

  /** An argument the model gave is never replaced; only a forecast may be completed. */
  lemma {:induction false} HydrateFillsOnlyGaps(reader: Reader, name: string, args: Args, prior: seq<Entry>, key: string)
    requires Truthy(Get(args, key)) && (name == "write_forecast" ==> key != "forecasts")
    ensures SameAt(Hydrate(reader, name, args, prior), args, key)
  {
    if name == "draft_kitchen_brief" {
      var body := LastBody(prior, {"read_kitchen_metrics"});
      if body.Some? {
        FillKeysFrame(args, body.value, BRIEF_KEYS, key);
      }
    }
  }

  lemma StoreIsNotFilled()
    ensures !Filled("store_id")
  {
    assert "store_id"[0] == 's' && "item_ids"[0] == 'i';
  }

  /** Read tools whose results are kept for the rest of a run. */
  const DEDUP_TOOLS: set<string> := {
    "search_ops_manual", "read_churn_segment", "list_low_stock", "read_inventory_levels", "read_kitchen_metrics",
    "read_order_metrics", "read_staff_slots", "get_top_items", "get_slow_items", "list_stores"
  }

  /** The tools that are filled in or skipped. */
  predicate Proposes(name: string) {
    name in CAMPAIGN_TOOLS || name in ORDER_TOOLS || name in SHIFT_TOOLS || name in PRICE_TOOLS || name in NOTIFY_TOOLS
    || name == "write_forecast" || name == "draft_kitchen_brief"
  }

  lemma KeptAreNotProposing(name: string)
    requires name in DEDUP_TOOLS
    ensures !Proposes(name)
  {
    assert name[0] == 's' || name[0] == 'r' || name[0] == 'l' || name[0] == 'g';
    assert name[0] == 's' ==> name[1] == 'e';
    ProposingInitials(name);
  }

  lemma ProposingInitials(name: string)
    ensures Proposes(name) ==> |name| > 1 && (name[0] == 'c' || name[0] == 'd' || name[0] == 'p' || name[0] == 'n' || name[0] == 'w'
                                              || (name[0] == 's' && name[1] == 'u'))
  {
  }

  /** On the kept read tools filling in changes nothing and nothing is skipped. */
  lemma {:induction false} ReadsAreNotHydrated(reader: Reader, name: string, args: Args, prior: seq<Entry>)
    requires name in DEDUP_TOOLS
    ensures Hydrate(reader, name, args, prior) == args
    ensures SkipIncomplete(reader, name, args, prior) == None
  {
    KeptAreNotProposing(name);
  }
}
