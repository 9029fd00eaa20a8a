/** Stock evidence of purchase-order proposals, lifted from earlier tool results
    (`extract_proposals_from_tool_results` in src/masova_agent/runtime/ops_llm.py). */
module Evidence {
  import opened Outcomes
  import opened ToolArgs
  import opened Dedupe

  /** A stock value a tool reported for a row. */
  datatype Fact = Fact(tool: string, row: string, value: Json)

  function FactKey(f: Fact): (string, string) {
    (f.tool, f.row)
  }

  const ROW_KEYS: seq<string> := ["id", "inventoryItemId", "inventory_item_id"]
  const ITEM_KEYS: seq<string> := ["inventoryItemId", "inventory_item_id", "id"]

  function Stock(row: Args): Json {
    if "currentStock" in row then row["currentStock"] else Get(row, "current_stock")
  }

  /** The rows the proposal orders; none if it names none. */
  function ItemIds(reader: Reader, items: seq<Json>): set<string> {
    if items == [] then {}
    else
      var last := items[|items| - 1];
      var id := FirstOf(Fields(last), ITEM_KEYS);
      ItemIds(reader, items[..|items| - 1]) + if Truthy(id) then {reader.text(id)} else {}
  }

  function ProposalItems(proposal: Args): seq<Json> {
    Rows(Get(Fields(Get(proposal, "payload")), "items"))
  }

  predicate Wanted(ids: set<string>, row: string) {
    ids == {} || row in ids
  }

  /** What a row of a low-stock result says, if it is of use. */
  function FactOf(reader: Reader, ids: set<string>, tool: string, row: Args): Option<Fact> {
    var id := FirstOf(row, ROW_KEYS);
    if !Truthy(id) || !Wanted(ids, reader.text(id)) || Stock(row) == Null then None
    else Some(Fact(tool, reader.text(id), Stock(row)))
  }

  ghost function RowFacts(reader: Reader, ids: set<string>, tool: string, rows: seq<Json>): seq<Fact> {
    if rows == [] then []
    else
      var fact := FactOf(reader, ids, tool, Fields(rows[|rows| - 1]));
      RowFacts(reader, ids, tool, rows[..|rows| - 1]) + if fact.Some? then [fact.value] else []
  }

  function ResultRows(e: Entry): seq<Json> {
    if e.tool in LOW_STOCK_TOOLS then Rows(Get(Fields(e.result), "items")) else []
  }

  /** All facts the results report, in order. */
  ghost function Reported(reader: Reader, ids: set<string>, prior: seq<Entry>): seq<Fact> {
    if prior == [] then []
    else
      var last := prior[|prior| - 1];
      Reported(reader, ids, prior[..|prior| - 1]) + RowFacts(reader, ids, last.tool, ResultRows(last))
  }

  method InventoryEvidence(reader: Reader, proposal: Args, prior: seq<Entry>) returns (evidence: seq<Fact>)
    ensures evidence == FirstOccurrences(Reported(reader, ItemIds(reader, ProposalItems(proposal)), prior), FactKey)
  {
    var ids := ItemIds(reader, ProposalItems(proposal));
    evidence := [];
    var seen: set<(string, string)> := {};
    for i := 0 to |prior|
      invariant evidence == FirstOccurrences(Reported(reader, ids, prior[..i]), FactKey)
      invariant SeenKeys(seen, Reported(reader, ids, prior[..i]))
    {
      assert prior[..i + 1][..i] == prior[..i] && prior[..i + 1][i] == prior[i];
      evidence, seen := AddRows(reader, ids, prior[i].tool, ResultRows(prior[i]), evidence, seen, Reported(reader, ids, prior[..i]));
    }
    assert prior[..|prior|] == prior;
  }

  /** The rows of one result, added to what the `facts` before gave. */
  method AddRows(reader: Reader, ids: set<string>, tool: string, rows: seq<Json>, evidence: seq<Fact>,
                 seen: set<(string, string)>, ghost facts: seq<Fact>)
      returns (more: seq<Fact>, seenNow: set<(string, string)>)
    requires evidence == FirstOccurrences(facts, FactKey) && SeenKeys(seen, facts)
    ensures more == FirstOccurrences(facts + RowFacts(reader, ids, tool, rows), FactKey)
    ensures SeenKeys(seenNow, facts + RowFacts(reader, ids, tool, rows))
  {
    more, seenNow := evidence, seen;
    ghost var now := facts;
    assert facts + [] == facts;
    for j := 0 to |rows|
      invariant now == facts + RowFacts(reader, ids, tool, rows[..j])
      invariant more == FirstOccurrences(now, FactKey) && SeenKeys(seenNow, now)
    {
      assert rows[..j + 1][..j] == rows[..j];
      var fact := FactOf(reader, ids, tool, Fields(rows[j]));
      if fact.Some? {
        OneMore(now, fact.value, seenNow);
        if FactKey(fact.value) !in seenNow {
          more := more + [fact.value];
        }
        seenNow, now := seenNow + {FactKey(fact.value)}, now + [fact.value];
      }
    }
    assert rows[..|rows|] == rows;
  }

  ghost predicate SeenKeys(seen: set<(string, string)>, facts: seq<Fact>) {
    seen == set i | 0 <= i < |facts| :: FactKey(facts[i])
  }

  lemma OneMore(facts: seq<Fact>, f: Fact, seen: set<(string, string)>)
    requires SeenKeys(seen, facts)
    ensures SeenKeys(seen + {FactKey(f)}, facts + [f])
    ensures FirstOccurrences(facts + [f], FactKey)
            == FirstOccurrences(facts, FactKey) + if FactKey(f) in seen then [] else [f]
  {
    var more, n := facts + [f], |facts|;
    assert more[..n] == facts;
    if FactKey(f) in seen {
      var i :| 0 <= i < n && FactKey(facts[i]) == FactKey(f);
      assert FactKey(more[i]) == FactKey(more[n]);
    }
    assert forall i :: 0 <= i < n ==> more[i] == facts[i];
    assert SeenKeys(seen + {FactKey(f)}, more) by {
      forall k | k in seen + {FactKey(f)} ensures exists i :: 0 <= i < |more| && FactKey(more[i]) == k {
        if k in seen {
          var i :| 0 <= i < n && FactKey(facts[i]) == k;
          assert FactKey(more[i]) == k;
        } else {
          assert FactKey(more[n]) == k;
        }
      }
    }
  }

  function FactJson(f: Fact): Json {
    Obj(map["tool" := Str(f.tool), "row_id" := Str(f.row), "field" := Str("currentStock"), "value" := f.value])
  }

  function FactsJson(facts: seq<Fact>): Json {
    List(seq(|facts|, i requires 0 <= i < |facts| => FactJson(facts[i])))
  }

  /** An entry of the evidence names the tool, the row and the field, and gives the value. */
  lemma EntrySays(facts: seq<Fact>, i: nat)
    requires i < |facts|
    ensures var entry := Fields(Rows(FactsJson(facts))[i]);
            && |Rows(FactsJson(facts))| == |facts|
            && Get(entry, "tool") == Str(facts[i].tool) && Get(entry, "row_id") == Str(facts[i].row)
            && Get(entry, "field") == Str("currentStock") && Get(entry, "value") == facts[i].value
  {
    assert "tool"[0] == 't' && "row_id"[0] == 'r' && "field"[0] == 'f' && "value"[0] == 'v';
  }

  predicate IsOrder(proposal: Args) {
    Get(proposal, "type") == Str("DRAFT_PURCHASE_ORDER")
  }

  /** The proposal with the evidence the earlier results give, whatever it brought itself. */
  ghost function WithEvidence(reader: Reader, proposal: Args, prior: seq<Entry>): Args {
    if !IsOrder(proposal) then proposal
    else
      var facts := FirstOccurrences(Reported(reader, ItemIds(reader, ProposalItems(proposal)), prior), FactKey);
      if facts == [] then proposal - {"evidence"} else proposal["evidence" := FactsJson(facts)]
  }

  method WithToolEvidence(reader: Reader, proposal: Args, prior: seq<Entry>) returns (out: Args)
    ensures out == WithEvidence(reader, proposal, prior)
  {
    out := proposal;
    if IsOrder(out) {
      var evidence := InventoryEvidence(reader, out, prior);
      out := if evidence != [] then out["evidence" := FactsJson(evidence)] else out - {"evidence"};
    }
  }

  /** The proposals a result brings: the single one, then the listed ones. */
  function Brought(result: Json): seq<Args> {
    var single := Get(Fields(result), "proposal");
    (if single.Obj? then [single.fields] else []) + Objects(Rows(Get(Fields(result), "proposals")))
  }

  function Objects(rows: seq<Json>): seq<Args> {
    if rows == [] then []
    else
      var last := rows[|rows| - 1];
      Objects(rows[..|rows| - 1]) + if last.Obj? then [last.fields] else []
  }

  ghost function EachWithEvidence(reader: Reader, proposals: seq<Args>, prior: seq<Entry>): seq<Args> {
    seq(|proposals|, i requires 0 <= i < |proposals| => WithEvidence(reader, proposals[i], prior))
  }

  ghost function Extracted(reader: Reader, results: seq<Entry>): seq<Args> {
    if results == [] then []
    else
      var n := |results| - 1;
      Extracted(reader, results[..n]) + EachWithEvidence(reader, Brought(results[n].result), results[..n])
  }

  method ExtractProposals(reader: Reader, results: seq<Entry>) returns (proposals: seq<Args>)
    ensures proposals == Extracted(reader, results)
  {
    proposals := [];
    for i := 0 to |results|
      invariant proposals == Extracted(reader, results[..i])
    {
      assert results[..i + 1][..i] == results[..i];
      var brought := SupportEach(reader, Brought(results[i].result), results[..i]);
      proposals := proposals + brought;
    }
    assert results[..|results|] == results;
  }

  method SupportEach(reader: Reader, brought: seq<Args>, prior: seq<Entry>) returns (proposals: seq<Args>)
    ensures proposals == EachWithEvidence(reader, brought, prior)
  {
    proposals := [];
    for j := 0 to |brought|
      invariant |proposals| == j && forall k :: 0 <= k < j ==> proposals[k] == WithEvidence(reader, brought[k], prior)
    {
      var p := WithToolEvidence(reader, brought[j], prior);
      proposals := proposals + [p];
    }
  }

  // ---- grounding ----

  /** Row `j` of result `i`, of a low-stock tool, states the fact. */
  ghost predicate Stated(reader: Reader, prior: seq<Entry>, i: nat, j: nat, f: Fact) {
    i < |prior| && prior[i].tool in LOW_STOCK_TOOLS && f.tool == prior[i].tool
    && var rows := Rows(Get(Fields(prior[i].result), "items"));
       j < |rows| && var id := FirstOf(Fields(rows[j]), ROW_KEYS);
       Truthy(id) && reader.text(id) == f.row && Stock(Fields(rows[j])) == f.value && f.value != Null
  }

  ghost predicate StatedRow(reader: Reader, ids: set<string>, tool: string, rows: seq<Json>, j: nat, f: Fact) {
    j < |rows| && FactOf(reader, ids, tool, Fields(rows[j])) == Some(f)
  }

  lemma {:induction false} RowFactsExactly(reader: Reader, ids: set<string>, tool: string, rows: seq<Json>, f: Fact)
    ensures f in RowFacts(reader, ids, tool, rows) <==> exists j: nat :: StatedRow(reader, ids, tool, rows, j, f)
  {
    if rows == [] {
      assert forall j: nat :: !StatedRow(reader, ids, tool, rows, j, f);
    } else {
      var n := |rows| - 1;
      RowFactsExactly(reader, ids, tool, rows[..n], f);
      if f in RowFacts(reader, ids, tool, rows) {
        if f in RowFacts(reader, ids, tool, rows[..n]) {
          var j: nat :| StatedRow(reader, ids, tool, rows[..n], j, f);
          assert StatedRow(reader, ids, tool, rows, j, f);
        } else {
          assert StatedRow(reader, ids, tool, rows, n, f);
        }
      }
      if j: nat :| StatedRow(reader, ids, tool, rows, j, f) {
        if j < n {
          assert StatedRow(reader, ids, tool, rows[..n], j, f);
        }
      }
    }
  }

  ghost predicate StatedBy(reader: Reader, ids: set<string>, prior: seq<Entry>, i: nat, f: Fact) {
    i < |prior| && f in RowFacts(reader, ids, prior[i].tool, ResultRows(prior[i]))
  }

  lemma {:induction false} ReportedExactly(reader: Reader, ids: set<string>, prior: seq<Entry>, f: Fact)
    ensures f in Reported(reader, ids, prior) <==> exists i: nat :: StatedBy(reader, ids, prior, i, f)
  {
    if prior == [] {
      assert forall i: nat :: !StatedBy(reader, ids, prior, i, f);
    } else {
      var n := |prior| - 1;
      ReportedExactly(reader, ids, prior[..n], f);
      if f in Reported(reader, ids, prior) {
        if f in Reported(reader, ids, prior[..n]) {
          var i: nat :| StatedBy(reader, ids, prior[..n], i, f);
          assert StatedBy(reader, ids, prior, i, f);
        } else {
          assert StatedBy(reader, ids, prior, n, f);
        }
      }
      if i: nat :| StatedBy(reader, ids, prior, i, f) {
        if i < n {
          assert StatedBy(reader, ids, prior[..n], i, f);
        }
      }
    }
  }

  /** A fact is among the reported ones exactly if a row of an earlier low-stock result
      states it and the proposal orders that row, or names none. */
  lemma ReportedIsStated(reader: Reader, ids: set<string>, prior: seq<Entry>, f: Fact)
    ensures f in Reported(reader, ids, prior) <==> Wanted(ids, f.row) && exists i: nat, j: nat :: Stated(reader, prior, i, j, f)
  {
    ReportedExactly(reader, ids, prior, f);
    if i: nat :| StatedBy(reader, ids, prior, i, f) {
      RowFactsExactly(reader, ids, prior[i].tool, ResultRows(prior[i]), f);
      var j: nat :| StatedRow(reader, ids, prior[i].tool, ResultRows(prior[i]), j, f);
      assert Stated(reader, prior, i, j, f);
    }
    if i: nat, j: nat :| Wanted(ids, f.row) && Stated(reader, prior, i, j, f) {
      assert StatedRow(reader, ids, prior[i].tool, ResultRows(prior[i]), j, f);
      RowFactsExactly(reader, ids, prior[i].tool, ResultRows(prior[i]), f);
      assert StatedBy(reader, ids, prior, i, f);
    }
  }

  /** Evidence is grounded: each entry is stated by a row of an earlier low-stock result, is
      the first report of its tool and row, concerns a row the proposal orders if it names
      any, and no tool and row occur twice. */
  lemma EvidenceIsGrounded(reader: Reader, ids: set<string>, prior: seq<Entry>, f: Fact)
    requires f in FirstOccurrences(Reported(reader, ids, prior), FactKey)
    ensures Wanted(ids, f.row) && exists i: nat, j: nat :: Stated(reader, prior, i, j, f)
    ensures var all := Reported(reader, ids, prior);
            exists k :: 0 <= k < |all| && all[k] == f && forall m :: 0 <= m < k ==> FactKey(all[m]) != FactKey(f)
    ensures DistinctKeys(FirstOccurrences(Reported(reader, ids, prior), FactKey), FactKey)
  {
    var all := Reported(reader, ids, prior);
    Shrinks(all, FactKey);
    ReportedIsStated(reader, ids, prior, f);
    KeptIsFirst(all, FactKey, f);
    var k :| 0 <= k < |all| && all[k] == f && !Repeated(all, FactKey, k);
    assert forall m :: 0 <= m < k ==> FactKey(all[m]) != FactKey(f);
    ResultDistinct(all, FactKey);
  }

  /** Evidence is complete: a row of an earlier low-stock result with a stock value, if the
      proposal orders it or names no rows, has an entry. */
  lemma EvidenceIsComplete(reader: Reader, ids: set<string>, prior: seq<Entry>, i: nat, j: nat, f: Fact)
    requires Stated(reader, prior, i, j, f) && Wanted(ids, f.row)
    ensures HasKey(FirstOccurrences(Reported(reader, ids, prior), FactKey), FactKey, FactKey(f))
  {
    var all := Reported(reader, ids, prior);
    ReportedIsStated(reader, ids, prior, f);
    var k :| 0 <= k < |all| && all[k] == f;
    assert FactKey(all[k]) == FactKey(f);
    KeepsEveryKey(all, FactKey, FactKey(f));
  }

  ghost predicate BroughtAt(reader: Reader, results: seq<Entry>, n: nat, proposal: Args, p: Args) {
    n < |results| && proposal in Brought(results[n].result) && p == WithEvidence(reader, proposal, results[..n])
  }

  lemma StillBrought(reader: Reader, results: seq<Entry>, k: nat, m: nat, proposal: Args, p: Args)
    requires k <= |results| && BroughtAt(reader, results[..k], m, proposal, p)
    ensures BroughtAt(reader, results, m, proposal, p)
  {
    assert results[..k][..m] == results[..m];
  }

  lemma BroughtHere(reader: Reader, proposals: seq<Args>, prior: seq<Entry>, p: Args)
    requires p in EachWithEvidence(reader, proposals, prior)
    ensures exists proposal :: proposal in proposals && p == WithEvidence(reader, proposal, prior)
  {
    var k :| 0 <= k < |proposals| && p == EachWithEvidence(reader, proposals, prior)[k];
    assert proposals[k] in proposals;
  }

  /** Every extracted proposal was brought by some result, and its evidence comes from the
      results before that one. */
  lemma {:induction false} ExtractedFromEarlier(reader: Reader, results: seq<Entry>, p: Args)
    requires p in Extracted(reader, results)
    ensures exists n: nat, proposal :: BroughtAt(reader, results, n, proposal, p)
  {
    var n := |results| - 1;
    if p in Extracted(reader, results[..n]) {
      ExtractedFromEarlier(reader, results[..n], p);
      var m: nat, proposal :| BroughtAt(reader, results[..n], m, proposal, p);
      StillBrought(reader, results, n, m, proposal, p);
    } else {
      BroughtHere(reader, Brought(results[n].result), results[..n], p);
      var proposal :| proposal in Brought(results[n].result) && p == WithEvidence(reader, proposal, results[..n]);
      assert BroughtAt(reader, results, n, proposal, p);
    }
  }

  // ---- the evidence of an extracted proposal ----

  /** The fact is the first report of its tool and row. */
  ghost predicate FirstReport(all: seq<Fact>, f: Fact) {
    exists k :: 0 <= k < |all| && all[k] == f && forall m :: 0 <= m < k ==> FactKey(all[m]) != FactKey(f)
  }

  /** The facts are what the results say of the rows `ids`: each is stated by a low-stock
      result and is the first report of its tool and row, no tool and row occur twice, and
      no stated fact of a wanted row goes without one. */
  ghost predicate Grounded(reader: Reader, ids: set<string>, prior: seq<Entry>, facts: seq<Fact>) {
    && DistinctKeys(facts, FactKey)
    && (forall f :: f in facts ==>
          Wanted(ids, f.row) && FirstReport(Reported(reader, ids, prior), f)
          && exists i: nat, j: nat :: Stated(reader, prior, i, j, f))
    && (forall i: nat, j: nat, f :: Stated(reader, prior, i, j, f) && Wanted(ids, f.row) ==> HasKey(facts, FactKey, FactKey(f)))
  }

  /** What an extracted purchase order says for itself: it was brought by result `n`, and its
      evidence is grounded in the results before that one. */
  ghost predicate Supported(reader: Reader, results: seq<Entry>, n: nat, p: Args, facts: seq<Fact>) {
    && n < |results| && (exists proposal :: BroughtAt(reader, results, n, proposal, p))
    && Grounded(reader, ItemIds(reader, ProposalItems(p)), results[..n], facts)
    && (if facts == [] then "evidence" !in p else "evidence" in p && p["evidence"] == FactsJson(facts))
  }

  lemma FactsAreGrounded(reader: Reader, ids: set<string>, prior: seq<Entry>)
    ensures Grounded(reader, ids, prior, FirstOccurrences(Reported(reader, ids, prior), FactKey))
  {
    var all := Reported(reader, ids, prior);
    var facts := FirstOccurrences(all, FactKey);
    ResultDistinct(all, FactKey);
    forall f | f in facts
      ensures Wanted(ids, f.row) && FirstReport(all, f) && exists i: nat, j: nat :: Stated(reader, prior, i, j, f)
    {
      EvidenceIsGrounded(reader, ids, prior, f);
    }
    forall i: nat, j: nat, f | Stated(reader, prior, i, j, f) && Wanted(ids, f.row) ensures HasKey(facts, FactKey, FactKey(f)) {
      EvidenceIsComplete(reader, ids, prior, i, j, f);
    }
  }

  /** Evidence is no part of the payload, so it does not change which rows are ordered. */
  lemma SupportKeepsPayload(reader: Reader, proposal: Args, prior: seq<Entry>)
    ensures var p := WithEvidence(reader, proposal, prior);
            IsOrder(p) == IsOrder(proposal) && ProposalItems(p) == ProposalItems(proposal)
  {
    assert "evidence"[0] == 'e' && "type"[0] == 't' && "payload"[0] == 'p';
  }

  /** End to end: the evidence of every extracted purchase order is exactly what the results
      before it report of the rows it orders. */
  lemma ExtractedIsSupported(reader: Reader, results: seq<Entry>, p: Args)
    requires p in Extracted(reader, results) && IsOrder(p)
    ensures exists n: nat, facts :: Supported(reader, results, n, p, facts)
  {
    ExtractedFromEarlier(reader, results, p);
    var n: nat, proposal :| BroughtAt(reader, results, n, proposal, p);
    SupportKeepsPayload(reader, proposal, results[..n]);
    var ids := ItemIds(reader, ProposalItems(p));
    FactsAreGrounded(reader, ids, results[..n]);
    var facts := FirstOccurrences(Reported(reader, ids, results[..n]), FactKey);
    assert Supported(reader, results, n, p, facts);
  }

  /** Evidence a purchase order brings itself is never kept: with nothing reported earlier it
      has none at all. */
  lemma NothingReportedNoEvidence(reader: Reader, proposal: Args, prior: seq<Entry>)
    requires IsOrder(proposal)
    ensures "evidence" in WithEvidence(reader, proposal, prior) <==>
            Reported(reader, ItemIds(reader, ProposalItems(proposal)), prior) != []
  {
    var all := Reported(reader, ItemIds(reader, ProposalItems(proposal)), prior);
    if all != [] {
      assert all[0] in all && FactKey(all[0]) == FactKey(all[0]);
      KeepsEveryKey(all, FactKey, FactKey(all[0]));
    }
  }

  // ---- nothing brought is dropped ----

  /** What result `n` brings: the single proposal, or one of the listed ones. */
  ghost predicate Brings(results: seq<Entry>, n: nat, proposal: Args) {
    && n < |results| && results[n].result.Obj?
    && var body := results[n].result.fields;
       || Get(body, "proposal") == Obj(proposal)
       || ("proposals" in body && body["proposals"].List? && Obj(proposal) in body["proposals"].items)
  }

  lemma {:induction false} ObjectsExactly(rows: seq<Json>, o: Args)
    ensures o in Objects(rows) <==> Obj(o) in rows
  {
    if rows != [] {
      ObjectsExactly(rows[..|rows| - 1], o);
      assert rows == rows[..|rows| - 1] + [rows[|rows| - 1]];
    }
  }

  lemma BringsExactly(results: seq<Entry>, n: nat, proposal: Args)
    requires n < |results|
    ensures proposal in Brought(results[n].result) <==> Brings(results, n, proposal)
  {
    ObjectsExactly(Rows(Get(Fields(results[n].result), "proposals")), proposal);
  }

  /** The extracted proposals are exactly those the results bring, each as it was but for the
      evidence of a purchase order. */
  lemma {:induction false} ExtractedExactly(reader: Reader, results: seq<Entry>, p: Args)
    ensures p in Extracted(reader, results) <==>
            exists n: nat, proposal :: Brings(results, n, proposal) && p == WithEvidence(reader, proposal, results[..n])
  {
    if p in Extracted(reader, results) {
      ExtractedFromEarlier(reader, results, p);
      var n: nat, proposal :| BroughtAt(reader, results, n, proposal, p);
      BringsExactly(results, n, proposal);
    }
    if n: nat, proposal :| Brings(results, n, proposal) && p == WithEvidence(reader, proposal, results[..n]) {
      BringsExactly(results, n, proposal);
      BroughtIsExtracted(reader, results, n, proposal);
    }
  }

  lemma BroughtIsExtracted(reader: Reader, results: seq<Entry>, n: nat, proposal: Args)
    requires n < |results| && proposal in Brought(results[n].result)
    ensures WithEvidence(reader, proposal, results[..n]) in Extracted(reader, results)
  {
    var upTo := results[..n + 1];
    assert upTo[..n] == results[..n] && upTo[n] == results[n];
    LastIsExtracted(reader, upTo, proposal);
    ExtractedInOrder(reader, results, n + 1);
  }

  lemma LastIsExtracted(reader: Reader, results: seq<Entry>, proposal: Args)
    requires results != [] && proposal in Brought(results[|results| - 1].result)
    ensures WithEvidence(reader, proposal, results[..|results| - 1]) in Extracted(reader, results)
  {
    var n := |results| - 1;
    EachIsSupported(reader, Brought(results[n].result), results[..n], proposal);
  }

  lemma EachIsSupported(reader: Reader, brought: seq<Args>, prior: seq<Entry>, proposal: Args)
    requires proposal in brought
    ensures WithEvidence(reader, proposal, prior) in EachWithEvidence(reader, brought, prior)
  {
    var j :| 0 <= j < |brought| && brought[j] == proposal;
    assert EachWithEvidence(reader, brought, prior)[j] == WithEvidence(reader, proposal, prior);
  }

  /** Proposals come out in the order of the results: later ones only add to the end. */
  lemma {:induction false} ExtractedInOrder(reader: Reader, results: seq<Entry>, n: nat)
    requires n <= |results|
    ensures Extracted(reader, results[..n]) <= Extracted(reader, results)
  {
    if n < |results| {
      var front := results[..|results| - 1];
      ExtractedInOrder(reader, front, n);
      assert front[..n] == results[..n];
    } else {
      assert results[..n] == results;
    }
  }

  /** Extraction alters nothing of a proposal but the evidence of a purchase order. */
  lemma OnlyEvidenceChanges(reader: Reader, proposal: Args, prior: seq<Entry>)
    ensures var p := WithEvidence(reader, proposal, prior);
            && p - {"evidence"} == proposal - {"evidence"}
            && (Get(proposal, "type") != Str("DRAFT_PURCHASE_ORDER") ==> p == proposal)
  {
  }

  /** The row a low-stock result speaks of, and the stock it states, by the names the results
      use for them. */
  lemma RowSays(row: Args)
    ensures Truthy(FirstOf(row, ROW_KEYS)) ==>
              FirstOf(row, ROW_KEYS) == if Truthy(Get(row, "id")) then Get(row, "id")
                                        else if Truthy(Get(row, "inventoryItemId")) then Get(row, "inventoryItemId")
                                        else Get(row, "inventory_item_id")
    ensures Truthy(FirstOf(row, ROW_KEYS)) <==>
              Truthy(Get(row, "id")) || Truthy(Get(row, "inventoryItemId")) || Truthy(Get(row, "inventory_item_id"))
    ensures Stock(row) == if "currentStock" in row then row["currentStock"] else Get(row, "current_stock")
  {
    var k1, k2 := ROW_KEYS[1..], ROW_KEYS[2..];
    assert k1 == ["inventoryItemId", "inventory_item_id"] && k1[1..] == k2 == ["inventory_item_id"] && k2[1..] == [];
    assert FirstOf(row, k2) == if Truthy(Get(row, "inventory_item_id")) then Get(row, "inventory_item_id") else FirstOf(row, []);
    assert FirstOf(row, k1) == if Truthy(Get(row, "inventoryItemId")) then Get(row, "inventoryItemId") else FirstOf(row, k2);
  }
}
