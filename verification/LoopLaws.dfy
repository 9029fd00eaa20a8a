/** What the tool loops of an agent run guarantee for every plan and every model
    (src/masova_agent/runtime/ops_llm.py). */
module LoopLaws {
  import opened Policy
  import opened ToolArgs
  import opened ToolLoop

  // ---- every call is allowed and bound to the run's store ----

  ghost predicate Guarded(tools: Tools, run: Run, c: Call) {
    && c.tool in run.allowed && (c.tool in tools.registry ==> tools.registry[c.tool] != EXECUTE)
    && c.tool in tools.params && c.args.Keys <= tools.params[c.tool]
    && (run.store != "" && "store_id" in tools.params[c.tool] ==>
          "store_id" in c.args && c.args["store_id"] == Str(run.store))
  }

  ghost predicate AllGuarded(tools: Tools, run: Run, calls: seq<Call>) {
    forall i :: 0 <= i < |calls| ==> Guarded(tools, run, calls[i])
  }

  lemma InvokeIsGuarded(tools: Tools, run: Run, name: string, args: Args, prior: seq<Entry>, history: seq<Call>)
    requires ScriptAllows(tools, run, name)
    ensures |Invoke(tools, run, name, args, prior, history).1| <= 1
    ensures AllGuarded(tools, run, Invoke(tools, run, name, args, prior, history).1)
  {
    if name in tools.params {
      StoreIsNotFilled();
      HydrateKeepsOtherArgs(tools.reader, name, Pinned(tools, name, args, run.store), prior, "store_id");
    }
  }

  ghost predicate WithinPlan(tools: Tools, run: Run, p: Progress, n: nat) {
    AllGuarded(tools, run, p.invoked) && |p.invoked| <= |p.used| <= |p.results| <= n
  }

  lemma PlanStepIsSafe(tools: Tools, run: Run, p: Progress, step: PlanStep, n: nat)
    requires WithinPlan(tools, run, p, n)
    ensures WithinPlan(tools, run, AfterPlanStep(tools, run, p, step), n + 1)
  {
    if ScriptAllows(tools, run, step.tool) {
      InvokeIsGuarded(tools, run, step.tool, step.args, p.results, p.invoked);
    }
  }

  /** For every plan a scripted run calls no more tools than the plan has steps, and each is
      on the run's list, is no execute-tier tool, and gets the run's own store whenever it
      takes one. */
  lemma {:induction false} ScriptIsSafe(tools: Tools, run: Run, plan: seq<PlanStep>)
    ensures WithinPlan(tools, run, AfterPlan(tools, run, plan), |plan|)
  {
    if plan != [] {
      var n := |plan| - 1;
      ScriptIsSafe(tools, run, plan[..n]);
      PlanStepIsSafe(tools, run, AfterPlan(tools, run, plan[..n]), plan[n], n);
    }
  }

  /** A scripted run keeps to its budget; a negative one takes steps off the end of the plan. */
  lemma ScriptKeepsBudget(tools: Tools, run: Run, plan: seq<PlanStep>)
    ensures var p := AfterPlan(tools, run, UpTo(plan, Budget(run)));
            WithinPlan(tools, run, p, |plan|) && (Budget(run) >= 0 ==> |p.invoked| <= Budget(run))
  {
    ScriptIsSafe(tools, run, UpTo(plan, Budget(run)));
  }

  /** The tools the steps of a plan name, in order; a step may name none. */
  function NamedTools(plan: seq<PlanStep>): seq<string> {
    if plan == [] then []
    else NamedTools(plan[..|plan| - 1]) + if plan[|plan| - 1].tool == "" then [] else [plan[|plan| - 1].tool]
  }

  ghost predicate Answers(results: seq<Entry>, names: seq<string>) {
    |results| == |names| && forall i :: 0 <= i < |names| ==> results[i].tool == names[i]
  }

  /** Every step that names a tool is answered, in order. */
  lemma {:induction false} ScriptAnswersEveryStep(tools: Tools, run: Run, plan: seq<PlanStep>)
    ensures Answers(AfterPlan(tools, run, plan).results, NamedTools(plan))
  {
    if plan != [] {
      ScriptAnswersEveryStep(tools, run, plan[..|plan| - 1]);
    }
  }

  /** A run answers the first steps of its plan, as many as its budget; below zero the budget
      counts from the end. */
  lemma ScriptTakesItsBudget(tools: Tools, run: Run, plan: seq<PlanStep>)
    ensures var b := if run.maxCalls != 0 then run.maxCalls else run.defaultCalls;
            var n := if b >= |plan| then |plan| else if b >= 0 then b else if |plan| + b > 0 then |plan| + b else 0;
            Answers(AfterPlan(tools, run, UpTo(plan, Budget(run))).results, NamedTools(plan[..n]))
  {
    var b := Budget(run);
    var n := if b >= |plan| then |plan| else if b >= 0 then b else if |plan| + b > 0 then |plan| + b else 0;
    assert UpTo(plan, b) == plan[..n];
    ScriptAnswersEveryStep(tools, run, plan[..n]);
  }

  // ---- the same for the model-driven loop ----

  /** Only registered tools are called, and only kept for tools that may be called. */
  ghost predicate MemorySafe(tools: Tools, run: Run, m: Memory) {
    && AllGuarded(tools, run, m.invoked)
    && (forall i :: 0 <= i < |m.invoked| ==> m.invoked[i].tool in tools.registry)
    && CacheSafe(tools, run, m.cache) && CacheSafe(tools, run, m.late)
  }

  ghost predicate CacheSafe(tools: Tools, run: Run, cache: Cache) {
    forall key :: key in cache ==> key.0 in DEDUP_TOOLS && IsAllowed(tools.registry, key.0, run.allowed)
  }

  lemma RunOneIsSafe(tools: Tools, run: Run, caching: bool, prior: seq<Entry>, m: Memory, r: Request)
    requires MemorySafe(tools, run, m)
    ensures var (after, result) := RunOne(tools, run, caching, prior, m, r);
            MemorySafe(tools, run, after) && |after.invoked| <= |m.invoked| + 1
            && (!IsAllowed(tools.registry, r.tool, run.allowed) ==> result == NOT_ALLOWED && after == m)
  {
    if IsAllowed(tools.registry, r.tool, run.allowed) {
      InvokeIsGuarded(tools, run, r.tool, tools.decode(r.text), prior, m.invoked);
    }
  }

  ghost predicate EntryMatches(tools: Tools, run: Run, r: Request, e: Entry) {
    e.tool == r.tool && (!IsAllowed(tools.registry, r.tool, run.allowed) ==> e.result == NOT_ALLOWED)
  }

  lemma {:induction false} RunAllIsSafe(tools: Tools, run: Run, caching: bool, prior: seq<Entry>, m: Memory, rs: seq<Request>)
    requires MemorySafe(tools, run, m)
    ensures var (after, entries) := RunAll(tools, run, caching, prior, m, rs);
            MemorySafe(tools, run, after) && |after.invoked| <= |m.invoked| + |rs| && |entries| == |rs|
            && forall i :: 0 <= i < |rs| ==> EntryMatches(tools, run, rs[i], entries[i])
  {
    if rs != [] {
      var n := |rs| - 1;
      RunAllIsSafe(tools, run, caching, prior, m, rs[..n]);
      RunOneIsSafe(tools, run, caching, prior, RunAll(tools, run, caching, prior, m, rs[..n]).0, rs[n]);
    }
  }

  ghost predicate SessionSafe(tools: Tools, run: Run, s: Session, calls: nat) {
    MemorySafe(tools, run, s.memory) && |s.memory.invoked| <= |s.results| == calls
    && forall i :: 0 <= i < |s.results| ==>
      !IsAllowed(tools.registry, s.results[i].tool, run.allowed) ==> s.results[i].result == NOT_ALLOWED
  }

  function Cap(run: Run): nat {
    if Budget(run) > 0 then Budget(run) else 0
  }

  lemma TurnIsSafe(tools: Tools, run: Run, caching: bool, s: Session, rs: seq<Request>, calls: nat)
    requires SessionSafe(tools, run, s, calls)
    ensures SessionSafe(tools, run, AfterTurn(tools, run, caching, s, rs), calls + |rs|)
  {
    RunAllIsSafe(tools, run, caching, s.results, s.memory, rs);
    var (m, entries) := RunAll(tools, run, caching, s.results, s.memory, rs);
    forall i | 0 <= i < |entries|
      ensures !IsAllowed(tools.registry, entries[i].tool, run.allowed) ==> entries[i].result == NOT_ALLOWED
    {
      assert EntryMatches(tools, run, rs[i], entries[i]);
    }
  }

  ghost predicate ChatSafe(tools: Tools, run: Run, c: Chat) {
    SessionSafe(tools, run, c.session, c.calls) && c.calls <= Cap(run)
  }

  lemma NextIsSafe(tools: Tools, run: Run, model: Model, caching: bool, c: Chat)
    requires ChatSafe(tools, run, c) && !Over(run, model, c)
    ensures ChatSafe(tools, run, Next(tools, run, model, caching, c))
  {
    TurnIsSafe(tools, run, caching, c.session, Runnable(run, model, c), c.calls);
  }

  ghost predicate EndSafe(tools: Tools, run: Run, end: Session) {
    SessionSafe(tools, run, end, |end.results|) && |end.results| <= Cap(run)
  }

  lemma {:induction false} ChatIsSafe(tools: Tools, run: Run, model: Model, caching: bool, c: Chat)
    requires ChatSafe(tools, run, c)
    ensures EndSafe(tools, run, AfterChat(tools, run, model, caching, c))
    decreases Budget(run) - c.calls
  {
    if !Over(run, model, c) {
      NextIsSafe(tools, run, model, caching, c);
      ChatIsSafe(tools, run, model, caching, Next(tools, run, model, caching, c));
    }
  }

  /** Whatever the model requests, the loop ends after at most the budget's number of calls;
      every call that ran was allowed, was no execute-tier tool and got the run's own store;
      a disallowed request is only ever answered by a refusal, never from the kept results. */
  lemma WholeChatIsSafe(tools: Tools, run: Run, model: Model, caching: bool)
    ensures var end := AfterChat(tools, run, model, caching, OPENING);
            && AllGuarded(tools, run, end.memory.invoked)
            && |end.memory.invoked| <= |end.results| <= Cap(run)
            && (forall i :: 0 <= i < |end.memory.invoked| ==> IsAllowed(tools.registry, end.memory.invoked[i].tool, run.allowed))
            && (forall i :: 0 <= i < |end.results| ==>
                  !IsAllowed(tools.registry, end.results[i].tool, run.allowed) ==> end.results[i].result == NOT_ALLOWED)
  {
    ChatIsSafe(tools, run, model, caching, OPENING);
    var end := AfterChat(tools, run, model, caching, OPENING);
    assert EndSafe(tools, run, end);
    forall i | 0 <= i < |end.memory.invoked| ensures IsAllowed(tools.registry, end.memory.invoked[i].tool, run.allowed) {
      assert Guarded(tools, run, end.memory.invoked[i]);
    }
  }

  /** The budget is spent, or the model, shown the results, asks for nothing more. */
  ghost predicate AtEnd(run: Run, model: Model, end: Session, turn: nat) {
    |end.results| >= Budget(run) || model(turn, end.results) == []
  }

  /** The loop stops nowhere else. */
  lemma {:induction false} ChatRunsToItsEnd(tools: Tools, run: Run, model: Model, caching: bool, c: Chat)
    requires ChatSafe(tools, run, c)
    ensures exists turn: nat :: AtEnd(run, model, AfterChat(tools, run, model, caching, c), turn)
    decreases Budget(run) - c.calls
  {
    if Over(run, model, c) {
      assert AtEnd(run, model, AfterChat(tools, run, model, caching, c), c.turn);
    } else {
      NextIsSafe(tools, run, model, caching, c);
      var next := Next(tools, run, model, caching, c);
      ChatRunsToItsEnd(tools, run, model, caching, next);
      var turn: nat :| AtEnd(run, model, AfterChat(tools, run, model, caching, next), turn);
      assert AtEnd(run, model, AfterChat(tools, run, model, caching, c), turn);
    }
  }

  /** A turn answers its requests in order: as many as the model makes, or as fit. */
  lemma TurnAnswersRequests(tools: Tools, run: Run, model: Model, caching: bool, c: Chat)
    requires ChatSafe(tools, run, c) && !Over(run, model, c)
    ensures var next, rs := Next(tools, run, model, caching, c), model(c.turn, c.session.results);
            var n := if |rs| <= Budget(run) - c.calls then |rs| else Budget(run) - c.calls;
            && |next.session.results| == |c.session.results| + n && next.turn == c.turn + 1
            && next.session.results[..|c.session.results|] == c.session.results
            && forall i :: 0 <= i < n ==> next.session.results[|c.session.results| + i].tool == rs[i].tool
  {
    var rs := Runnable(run, model, c);
    RunAllIsSafe(tools, run, caching, c.session.results, c.session.memory, rs);
    var (m, entries) := RunAll(tools, run, caching, c.session.results, c.session.memory, rs);
    assert forall i :: 0 <= i < |rs| ==> EntryMatches(tools, run, rs[i], entries[i]);
  }

  /** The tools reported as used are those that were answered with anything but a refusal. */
  lemma {:induction false} UsedExactly(entries: seq<Entry>, tool: string)
    ensures tool in UsedTools(entries) <==>
            exists i :: 0 <= i < |entries| && entries[i].tool == tool
                        && !(entries[i].result.Obj? && Get(entries[i].result.fields, "error") == Str("tool_not_allowed"))
  {
    if entries != [] {
      var n := |entries| - 1;
      UsedExactly(entries[..n], tool);
      assert forall i :: 0 <= i < n ==> entries[..n][i] == entries[i];
    }
  }

  // ---- kept results change nothing ----

  ghost function Others(calls: seq<Call>): seq<Call> {
    if calls == [] then []
    else
      var last := calls[|calls| - 1];
      Others(calls[..|calls| - 1]) + if last.tool in DEDUP_TOOLS then [] else [last]
  }

  /** The listed tools only read: their answers depend on their arguments alone, and they
      leave no trace in the answers of others. */
  ghost predicate ListedOnlyRead(tools: Tools) {
    && (forall c: Call, h: seq<Call> :: c.tool in DEDUP_TOOLS ==> Answer(tools, c, h) == Answer(tools, c, []))
    && (forall c: Call, h: seq<Call> :: c.tool !in DEDUP_TOOLS ==> Answer(tools, c, h) == Answer(tools, c, Others(h)))
  }

  /** What a listed tool answers to the JSON text of its arguments. */
  function Reading(tools: Tools, run: Run, name: string, text: string): Json {
    if name !in tools.params then UNKNOWN_TOOL
    else Answer(tools, Call(name, Accepted(tools, name, Pinned(tools, name, tools.decode(text), run.store))), [])
  }

  /** Tools and argument texts a model may ask for. */
  type Questions = iset<(string, string)>

  /** No two questions of a listed tool that may be called share a key and differ in what the
      tool answers. */
  ghost predicate ToldApart(tools: Tools, run: Run, asked: Questions) {
    forall name, s, t ::
      name in DEDUP_TOOLS && name in Callable(tools, run) && (name, s) in asked && (name, t) in asked
      && KeyText(s, run.textLimit) == KeyText(t, run.textLimit)
      ==> Reading(tools, run, name, s) == Reading(tools, run, name, t)
  }

  /** A kept result is the reading of every question with its key. */
  ghost predicate CacheTrue(tools: Tools, run: Run, asked: Questions, cache: Cache) {
    forall key :: key in cache ==>
      key.0 in DEDUP_TOOLS && key.0 in Callable(tools, run)
      && forall text :: (key.0, text) in asked && KeyText(text, run.textLimit) == key.1
           ==> cache[key] == Reading(tools, run, key.0, text)
  }

  ghost predicate Agree(tools: Tools, run: Run, asked: Questions, kept: Memory, plain: Memory) {
    && CacheTrue(tools, run, asked, kept.cache) && CacheTrue(tools, run, asked, kept.late)
    && Others(kept.invoked) == Others(plain.invoked) && |kept.invoked| <= |plain.invoked|
  }

  lemma ReadingIsInvoked(tools: Tools, run: Run, name: string, text: string, prior: seq<Entry>, history: seq<Call>)
    requires ListedOnlyRead(tools) && name in DEDUP_TOOLS
    ensures Invoke(tools, run, name, tools.decode(text), prior, history).0 == Reading(tools, run, name, text)
    ensures forall c :: c in Invoke(tools, run, name, tools.decode(text), prior, history).1 ==> c.tool == name
    ensures |Invoke(tools, run, name, tools.decode(text), prior, history).1| <= 1
  {
    if name in tools.params {
      var pinned := Pinned(tools, name, tools.decode(text), run.store);
      ReadsAreNotHydrated(tools.reader, name, pinned, prior);
      var c := Call(name, Accepted(tools, name, pinned));
      assert Invoke(tools, run, name, tools.decode(text), prior, history) == (Answer(tools, c, history), [c]);
      assert Answer(tools, c, history) == Answer(tools, c, []);
    }
  }

  lemma OthersAfter(before: seq<Call>, calls: seq<Call>)
    requires |calls| <= 1
    ensures Others(before + calls) == Others(before) + Others(calls)
  {
    if calls == [] {
      assert before + calls == before;
    } else {
      assert (before + calls)[..|before|] == before && calls[..0] == [];
    }
  }

  lemma ReadingsLeaveNoTrace(before: seq<Call>, calls: seq<Call>)
    requires |calls| <= 1 && forall c :: c in calls ==> c.tool in DEDUP_TOOLS
    ensures Others(before + calls) == Others(before)
  {
    OthersAfter(before, calls);
    assert calls != [] ==> calls[0] in calls && calls[..0] == [];
  }

  lemma OthersAnswerAlike(tools: Tools, run: Run, name: string, args: Args, prior: seq<Entry>, h: seq<Call>, k: seq<Call>)
    requires ListedOnlyRead(tools) && name !in DEDUP_TOOLS && Others(h) == Others(k)
    ensures Invoke(tools, run, name, args, prior, h) == Invoke(tools, run, name, args, prior, k)
    ensures |Invoke(tools, run, name, args, prior, h).1| <= 1
  {
  }

  /** Asking a listed tool every time answers its reading, if it may be called. */
  lemma ListedAsked(tools: Tools, run: Run, caching: bool, prior: seq<Entry>, m: Memory, r: Request)
    requires ListedOnlyRead(tools) && r.tool in DEDUP_TOOLS && (caching ==> Key(run, r) !in m.cache)
    ensures var (after, result) := RunOne(tools, run, caching, prior, m, r);
            && result == (if r.tool in Callable(tools, run) then Reading(tools, run, r.tool, r.text) else NOT_ALLOWED)
            && Others(after.invoked) == Others(m.invoked)
            && |m.invoked| <= |after.invoked|
            && after.invoked == m.invoked + (if r.tool in Callable(tools, run)
                                             then Invoke(tools, run, r.tool, tools.decode(r.text), prior, m.invoked).1 else [])
  {
    ReadingIsInvoked(tools, run, r.tool, r.text, prior, m.invoked);
    ReadingsLeaveNoTrace(m.invoked, Invoke(tools, run, r.tool, tools.decode(r.text), prior, m.invoked).1);
  }

  /** How many tools a listed request runs does not depend on the history. */
  lemma ListedCost(tools: Tools, run: Run, name: string, args: Args, prior: seq<Entry>, h: seq<Call>, k: seq<Call>)
    ensures Invoke(tools, run, name, args, prior, h).1 == Invoke(tools, run, name, args, prior, k).1
  {
  }

  lemma ListedRequestAgrees(tools: Tools, run: Run, asked: Questions, prior: seq<Entry>, kept: Memory, plain: Memory,
                            r: Request)
    requires ListedOnlyRead(tools) && ToldApart(tools, run, asked) && Agree(tools, run, asked, kept, plain)
    requires r.tool in DEDUP_TOOLS && (r.tool, r.text) in asked
    ensures var (k, x) := RunOne(tools, run, true, prior, kept, r);
            var (p, y) := RunOne(tools, run, false, prior, plain, r);
            x == y && Agree(tools, run, asked, k, p)
  {
    ListedAsked(tools, run, false, prior, plain, r);
    if Key(run, r) !in kept.cache {
      ListedAsked(tools, run, true, prior, kept, r);
      ListedCost(tools, run, r.tool, tools.decode(r.text), prior, kept.invoked, plain.invoked);
      KeptStaysTrue(tools, run, asked, prior, kept, r);
    }
  }

  lemma KeptStaysTrue(tools: Tools, run: Run, asked: Questions, prior: seq<Entry>, m: Memory, r: Request)
    requires ListedOnlyRead(tools) && ToldApart(tools, run, asked)
    requires CacheTrue(tools, run, asked, m.cache) && CacheTrue(tools, run, asked, m.late)
    requires r.tool in DEDUP_TOOLS && (r.tool, r.text) in asked && Key(run, r) !in m.cache
    ensures var k := RunOne(tools, run, true, prior, m, r).0;
            CacheTrue(tools, run, asked, k.cache) && CacheTrue(tools, run, asked, k.late)
  {
    ReadingIsInvoked(tools, run, r.tool, r.text, prior, m.invoked);
    if r.tool in Callable(tools, run) {
      OneMoreTrue(tools, run, asked, m.cache, r);
      OneMoreTrue(tools, run, asked, m.late, r);
    }
  }

  lemma OneMoreTrue(tools: Tools, run: Run, asked: Questions, cache: Cache, r: Request)
    requires ToldApart(tools, run, asked) && CacheTrue(tools, run, asked, cache)
    requires r.tool in DEDUP_TOOLS && r.tool in Callable(tools, run) && (r.tool, r.text) in asked
    ensures CacheTrue(tools, run, asked, cache[Key(run, r) := Reading(tools, run, r.tool, r.text)])
  {
  }

  lemma OtherRequestAgrees(tools: Tools, run: Run, asked: Questions, prior: seq<Entry>, kept: Memory, plain: Memory,
                           r: Request)
    requires ListedOnlyRead(tools) && Agree(tools, run, asked, kept, plain) && r.tool !in DEDUP_TOOLS
    ensures var (k, x) := RunOne(tools, run, true, prior, kept, r);
            var (p, y) := RunOne(tools, run, false, prior, plain, r);
            x == y && Agree(tools, run, asked, k, p)
  {
    OthersAnswerAlike(tools, run, r.tool, tools.decode(r.text), prior, kept.invoked, plain.invoked);
    var calls := Invoke(tools, run, r.tool, tools.decode(r.text), prior, kept.invoked).1;
    OthersAfter(kept.invoked, calls);
    OthersAfter(plain.invoked, calls);
  }

  ghost predicate AllAsked(asked: Questions, rs: seq<Request>) {
    forall i :: 0 <= i < |rs| ==> (rs[i].tool, rs[i].text) in asked
  }

  lemma {:induction false} RequestsAgree(tools: Tools, run: Run, asked: Questions, prior: seq<Entry>,
                                         kept: Memory, plain: Memory, rs: seq<Request>)
    requires ListedOnlyRead(tools) && ToldApart(tools, run, asked) && Agree(tools, run, asked, kept, plain)
    requires AllAsked(asked, rs)
    ensures var (k, xs) := RunAll(tools, run, true, prior, kept, rs);
            var (p, ys) := RunAll(tools, run, false, prior, plain, rs);
            xs == ys && Agree(tools, run, asked, k, p)
  {
    if rs != [] {
      var n := |rs| - 1;
      RequestsAgree(tools, run, asked, prior, kept, plain, rs[..n]);
      var k := RunAll(tools, run, true, prior, kept, rs[..n]).0;
      var p := RunAll(tools, run, false, prior, plain, rs[..n]).0;
      if rs[n].tool in DEDUP_TOOLS {
        ListedRequestAgrees(tools, run, asked, prior, k, p, rs[n]);
      } else {
        OtherRequestAgrees(tools, run, asked, prior, k, p, rs[n]);
      }
    }
  }

  ghost predicate SessionsAgree(tools: Tools, run: Run, asked: Questions, kept: Session, plain: Session) {
    kept.results == plain.results && kept.used == plain.used && Agree(tools, run, asked, kept.memory, plain.memory)
  }

  lemma TurnsAgree(tools: Tools, run: Run, asked: Questions, kept: Session, plain: Session, rs: seq<Request>)
    requires ListedOnlyRead(tools) && ToldApart(tools, run, asked) && SessionsAgree(tools, run, asked, kept, plain)
    requires AllAsked(asked, rs)
    ensures SessionsAgree(tools, run, asked, AfterTurn(tools, run, true, kept, rs), AfterTurn(tools, run, false, plain, rs))
  {
    RequestsAgree(tools, run, asked, kept.results, kept.memory, plain.memory, rs);
    var m := RunAll(tools, run, true, kept.results, kept.memory, rs).0;
    assert CacheTrue(tools, run, asked, m.cache + m.late);
  }

  ghost predicate ChatsAgree(tools: Tools, run: Run, asked: Questions, kept: Chat, plain: Chat) {
    SessionsAgree(tools, run, asked, kept.session, plain.session) && kept.calls == plain.calls && kept.turn == plain.turn
  }

  lemma NextAgrees(tools: Tools, run: Run, asked: Questions, model: Model, kept: Chat, plain: Chat)
    requires ListedOnlyRead(tools) && ToldApart(tools, run, asked) && ChatsAgree(tools, run, asked, kept, plain)
    requires !Over(run, model, kept) && AllAsked(asked, model(kept.turn, kept.session.results))
    ensures !Over(run, model, plain)
    ensures ChatsAgree(tools, run, asked, Next(tools, run, model, true, kept), Next(tools, run, model, false, plain))
  {
    var rs := Runnable(run, model, kept);
    assert AllAsked(asked, rs);
    TurnsAgree(tools, run, asked, kept.session, plain.session, rs);
  }

  lemma {:induction false} EndsAgree(tools: Tools, run: Run, asked: Questions, model: Model, kept: Chat, plain: Chat)
    requires ListedOnlyRead(tools) && ToldApart(tools, run, asked) && ChatsAgree(tools, run, asked, kept, plain)
    requires forall t, seen :: AllAsked(asked, model(t, seen))
    ensures SessionsAgree(tools, run, asked, AfterChat(tools, run, model, true, kept), AfterChat(tools, run, model, false, plain))
    decreases Budget(run) - kept.calls
  {
    if !Over(run, model, kept) {
      NextAgrees(tools, run, asked, model, kept, plain);
      EndsAgree(tools, run, asked, model, Next(tools, run, model, true, kept), Next(tools, run, model, false, plain));
    }
  }

  /** Whatever it has seen, the model asks no other questions. */
  ghost predicate AsksOnly(model: Model, asked: Questions) {
    forall t, seen :: AllAsked(asked, model(t, seen))
  }

  /** The loop that keeps results and the loop that asks every time end alike, the first with
      no more calls. */
  ghost predicate SameOutcome(tools: Tools, run: Run, model: Model) {
    var kept, plain := AfterChat(tools, run, model, true, OPENING), AfterChat(tools, run, model, false, OPENING);
    && kept.results == plain.results && kept.used == plain.used
    && Others(kept.memory.invoked) == Others(plain.memory.invoked)
    && |kept.memory.invoked| <= |plain.memory.invoked|
  }

  /** With listed tools that only read, and questions that share a key only if the tool does
      not tell them apart, the loop that keeps results yields the same results, tools and
      effects as the loop that asks every time. */
  lemma CacheRefines(tools: Tools, run: Run, asked: Questions, model: Model)
    requires ListedOnlyRead(tools) && ToldApart(tools, run, asked) && AsksOnly(model, asked)
    ensures SameOutcome(tools, run, model)
  {
    EndsAgree(tools, run, asked, model, OPENING, OPENING);
  }

  /** Listed tools are asked in texts that the key does not cut. */
  predicate Uncut(run: Run, rs: seq<Request>) {
    forall i :: 0 <= i < |rs| ==> rs[i].tool in DEDUP_TOOLS ==> |rs[i].text| <= run.textLimit
  }

  /** In particular if no text of a listed tool exceeds the limit. */
  lemma UncutTextsRefine(tools: Tools, run: Run, model: Model)
    requires ListedOnlyRead(tools) && forall t, seen :: Uncut(run, model(t, seen))
    ensures SameOutcome(tools, run, model)
  {
    var asked: Questions := iset q: (string, string) | q.0 in DEDUP_TOOLS ==> |q.1| <= run.textLimit;
    forall t, seen ensures AllAsked(asked, model(t, seen)) {
      assert Uncut(run, model(t, seen));
    }
    CacheRefines(tools, run, asked, model);
  }

  /** Two different texts share a key exactly if both are over the limit and agree up to it. */
  lemma {:induction false} KeysCollideExactly(s: string, t: string, limit: nat)
    requires s != t
    ensures KeyText(s, limit) == KeyText(t, limit) <==> |s| > limit && |t| > limit && s[..limit] == t[..limit]
  {
    var a, b := KeyText(s, limit), KeyText(t, limit);
    if |s| > limit && |t| > limit {
      assert a[..limit] == s[..limit] && b[..limit] == t[..limit];
    }
  }

  // ---- when the kept results are safe ----

  /** The model that asks one question, then the other, and is done. */
  function AskTwice(name: string, s: string, t: string): Model {
    (turn: nat, seen: seq<Entry>) => Question(name, s, t, turn)
  }

  function Question(name: string, s: string, t: string, turn: nat): seq<Request> {
    if turn == 0 then [Request(name, s, false)] else if turn == 1 then [Request(name, t, false)] else []
  }

  lemma TurnOfOne(tools: Tools, run: Run, caching: bool, s: Session, r: Request)
    ensures var (m, result) := RunOne(tools, run, caching, s.results, s.memory, r);
            var end := AfterTurn(tools, run, caching, s, [r]);
            end.results == s.results + [Entry(r.tool, result)] && end.used == s.used + UsedTools([Entry(r.tool, result)])
            && end.memory == Memory(m.cache + m.late, map[], m.invoked)
  {
    assert [r][..0] == [];
    var (m, result) := RunOne(tools, run, caching, s.results, s.memory, r);
    assert RunAll(tools, run, caching, s.results, s.memory, [r]) == (m, [] + [Entry(r.tool, result)]);
    assert [] + [Entry(r.tool, result)] == [Entry(r.tool, result)];
  }

  lemma ChatGoesOn(tools: Tools, run: Run, model: Model, caching: bool, c: Chat, r: Request)
    requires c.calls < Budget(run) && model(c.turn, c.session.results) == [r]
    ensures AfterChat(tools, run, model, caching, c)
            == AfterChat(tools, run, model, caching, Chat(AfterTurn(tools, run, caching, c.session, [r]), c.calls + 1, c.turn + 1))
  {
    assert Runnable(run, model, c) == [r];
  }

  lemma ChatEnds(tools: Tools, run: Run, model: Model, caching: bool, c: Chat)
    requires Over(run, model, c)
    ensures AfterChat(tools, run, model, caching, c) == c.session
  {
  }

  /** A model that asks one request, then one more, and is done. */
  lemma TwoTurns(tools: Tools, run: Run, model: Model, caching: bool, q: Request, r: Request)
    requires Budget(run) >= 2
    requires (forall seen :: model(0, seen) == [q]) && (forall seen :: model(1, seen) == [r]) && (forall seen :: model(2, seen) == [])
    ensures AfterChat(tools, run, model, caching, OPENING)
            == AfterTurn(tools, run, caching, AfterTurn(tools, run, caching, START, [q]), [r])
  {
    FirstTurn(tools, run, model, caching, q);
    SecondTurn(tools, run, model, caching, AfterTurn(tools, run, caching, START, [q]), r);
  }

  lemma FirstTurn(tools: Tools, run: Run, model: Model, caching: bool, q: Request)
    requires Budget(run) >= 2 && model(0, []) == [q]
    ensures AfterChat(tools, run, model, caching, OPENING)
            == AfterChat(tools, run, model, caching, Chat(AfterTurn(tools, run, caching, START, [q]), 1, 1))
  {
    ChatGoesOn(tools, run, model, caching, OPENING, q);
  }

  lemma SecondTurn(tools: Tools, run: Run, model: Model, caching: bool, first: Session, r: Request)
    requires Budget(run) >= 2 && model(1, first.results) == [r] && forall seen :: model(2, seen) == []
    ensures AfterChat(tools, run, model, caching, Chat(first, 1, 1)) == AfterTurn(tools, run, caching, first, [r])
  {
    ChatGoesOn(tools, run, model, caching, Chat(first, 1, 1), r);
    ChatEnds(tools, run, model, caching, Chat(AfterTurn(tools, run, caching, first, [r]), 2, 2));
  }

  lemma ChatOfTwo(tools: Tools, run: Run, caching: bool, name: string, s: string, t: string)
    requires Budget(run) >= 2
    ensures AfterChat(tools, run, AskTwice(name, s, t), caching, OPENING)
            == AfterTurn(tools, run, caching, AfterTurn(tools, run, caching, START, [Request(name, s, false)]),
                         [Request(name, t, false)])
  {
    TwoTurns(tools, run, AskTwice(name, s, t), caching, Request(name, s, false), Request(name, t, false));
  }

  /** Past the limit the second question gets the answer to the first from the kept results,
      and its own answer if it is asked. */
  lemma CutTextsGetWrongAnswer(tools: Tools, run: Run, name: string, s: string, t: string)
    requires ListedOnlyRead(tools) && name in DEDUP_TOOLS && name in Callable(tools, run) && Budget(run) >= 2
    requires KeyText(s, run.textLimit) == KeyText(t, run.textLimit)
    ensures AfterChat(tools, run, AskTwice(name, s, t), true, OPENING).results
            == [Entry(name, Reading(tools, run, name, s)), Entry(name, Reading(tools, run, name, s))]
    ensures AfterChat(tools, run, AskTwice(name, s, t), false, OPENING).results
            == [Entry(name, Reading(tools, run, name, s)), Entry(name, Reading(tools, run, name, t))]
  {
    ChatOfTwo(tools, run, true, name, s, t);
    ChatOfTwo(tools, run, false, name, s, t);
    KeptTwice(tools, run, name, s, t);
    AskedTwice(tools, run, name, s, t);
  }

  lemma KeptTwice(tools: Tools, run: Run, name: string, s: string, t: string)
    requires ListedOnlyRead(tools) && name in DEDUP_TOOLS && name in Callable(tools, run)
    requires KeyText(s, run.textLimit) == KeyText(t, run.textLimit)
    ensures var first := AfterTurn(tools, run, true, START, [Request(name, s, false)]);
            AfterTurn(tools, run, true, first, [Request(name, t, false)]).results
            == [Entry(name, Reading(tools, run, name, s)), Entry(name, Reading(tools, run, name, s))]
  {
    var q, r := Request(name, s, false), Request(name, t, false);
    TurnOfOne(tools, run, true, START, q);
    ListedAsked(tools, run, true, [], START.memory, q);
    var first := AfterTurn(tools, run, true, START, [q]);
    assert Key(run, r) in first.memory.cache && first.memory.cache[Key(run, r)] == Reading(tools, run, name, s);
    TurnOfOne(tools, run, true, first, r);
  }

  lemma AskedTwice(tools: Tools, run: Run, name: string, s: string, t: string)
    requires ListedOnlyRead(tools) && name in DEDUP_TOOLS && name in Callable(tools, run)
    ensures var first := AfterTurn(tools, run, false, START, [Request(name, s, false)]);
            AfterTurn(tools, run, false, first, [Request(name, t, false)]).results
            == [Entry(name, Reading(tools, run, name, s)), Entry(name, Reading(tools, run, name, t))]
  {
    var q, r := Request(name, s, false), Request(name, t, false);
    TurnOfOne(tools, run, false, START, q);
    ListedAsked(tools, run, false, [], START.memory, q);
    var first := AfterTurn(tools, run, false, START, [q]);
    TurnOfOne(tools, run, false, first, r);
    ListedAsked(tools, run, false, first.results, first.memory, r);
  }

  /** A run that may make one call has nothing to keep. */
  lemma OneCallRefines(tools: Tools, run: Run, model: Model)
    requires Budget(run) <= 1
    ensures SameOutcome(tools, run, model)
  {
    if !Over(run, model, OPENING) {
      var rs := Runnable(run, model, OPENING);
      assert rs == [rs[0]];
      TurnOfOne(tools, run, true, START, rs[0]);
      TurnOfOne(tools, run, false, START, rs[0]);
      OneRequestAlike(tools, run, rs[0]);
      OneTurnEnds(tools, run, model, true);
      OneTurnEnds(tools, run, model, false);
    }
  }

  lemma OneTurnEnds(tools: Tools, run: Run, model: Model, caching: bool)
    requires Budget(run) <= 1 && !Over(run, model, OPENING)
    ensures AfterChat(tools, run, model, caching, OPENING)
            == AfterTurn(tools, run, caching, START, Runnable(run, model, OPENING))
  {
    var second := Next(tools, run, model, caching, OPENING);
    assert Over(run, model, second);
  }

  lemma OneRequestAlike(tools: Tools, run: Run, r: Request)
    ensures var (k, x) := RunOne(tools, run, true, [], START.memory, r);
            var (p, y) := RunOne(tools, run, false, [], START.memory, r);
            x == y && k.invoked == p.invoked
  {
  }

  /** The exact condition of the result cache. Whatever a model asks of the questions allowed,
      keeping results changes nothing, exactly if the run may make one call at most or no two
      of the questions share a key and are answered differently. */
  lemma CacheExactly(tools: Tools, run: Run, asked: Questions)
    requires ListedOnlyRead(tools)
    ensures Budget(run) <= 1 || ToldApart(tools, run, asked)
            <==> forall model: Model :: AsksOnly(model, asked) ==> SameOutcome(tools, run, model)
  {
    if Budget(run) <= 1 {
      forall model: Model ensures SameOutcome(tools, run, model) {
        OneCallRefines(tools, run, model);
      }
    } else if ToldApart(tools, run, asked) {
      forall model: Model | AsksOnly(model, asked) ensures SameOutcome(tools, run, model) {
        CacheRefines(tools, run, asked, model);
      }
    } else {
      var name, s, t :|
        name in DEDUP_TOOLS && name in Callable(tools, run) && (name, s) in asked && (name, t) in asked
        && KeyText(s, run.textLimit) == KeyText(t, run.textLimit)
        && Reading(tools, run, name, s) != Reading(tools, run, name, t);
      TwoQuestionsDiffer(tools, run, asked, name, s, t);
    }
  }

  /** Two such questions, asked one after the other, end the two loops differently. */
  lemma TwoQuestionsDiffer(tools: Tools, run: Run, asked: Questions, name: string, s: string, t: string)
    requires ListedOnlyRead(tools) && name in DEDUP_TOOLS && name in Callable(tools, run) && Budget(run) >= 2
    requires (name, s) in asked && (name, t) in asked
    requires KeyText(s, run.textLimit) == KeyText(t, run.textLimit)
    requires Reading(tools, run, name, s) != Reading(tools, run, name, t)
    ensures AsksOnly(AskTwice(name, s, t), asked) && !SameOutcome(tools, run, AskTwice(name, s, t))
  {
    AsksTheTwo(asked, name, s, t);
    CutTextsGetWrongAnswer(tools, run, name, s, t);
    EntriesDiffer(name, Reading(tools, run, name, s), Reading(tools, run, name, t));
    ResultsDiffer(tools, run, AskTwice(name, s, t));
  }

  lemma AsksTheTwo(asked: Questions, name: string, s: string, t: string)
    requires (name, s) in asked && (name, t) in asked
    ensures AsksOnly(AskTwice(name, s, t), asked)
  {
  }

  lemma EntriesDiffer(name: string, x: Json, y: Json)
    requires x != y
    ensures [Entry(name, x), Entry(name, x)] != [Entry(name, x), Entry(name, y)]
  {
    assert [Entry(name, x), Entry(name, x)][1] != [Entry(name, x), Entry(name, y)][1];
  }

  lemma ResultsDiffer(tools: Tools, run: Run, model: Model)
    requires AfterChat(tools, run, model, true, OPENING).results != AfterChat(tools, run, model, false, OPENING).results
    ensures !SameOutcome(tools, run, model)
  {
  }
}
