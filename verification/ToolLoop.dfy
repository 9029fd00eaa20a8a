/** The bounded tool loops of an agent run (src/masova_agent/runtime/ops_llm.py): a scripted
    one over a fixed plan, and one driven by a model that answers with tool requests. */
module ToolLoop {
  import opened Outcomes
  import opened Policy
  import opened ToolArgs

  /** A tool that ran, and the arguments it was given. */
  datatype Call = Call(tool: string, args: Args)

  /** The tools of a run: their tiers, their parameter names, and what a call answers after
      the calls before it. `decode` reads the JSON text of a request's arguments. */
  datatype Tools = Tools(registry: Registry, params: map<string, set<string>>, answer: (Call, seq<Call>) -> Json,
                         decode: string -> Args, reader: Reader)

  /** A run's request; `maxCalls` 0 means the configured default. */
  datatype Run = Run(store: string, allowed: set<string>, maxCalls: int, defaultCalls: int, textLimit: nat)

  function Budget(run: Run): int {
    if run.maxCalls != 0 then run.maxCalls else run.defaultCalls
  }

  function Error(reason: string): Json {
    Obj(map["ok" := Bool(false), "error" := Str(reason)])
  }

  const NOT_ALLOWED: Json := Error("tool_not_allowed")
  const UNKNOWN_TOOL: Json := Error("unknown_tool")

  function Pinned(tools: Tools, name: string, args: Args, store: string): Args
    requires name in tools.params
  {
    if store != "" && "store_id" in tools.params[name] then args["store_id" := Str(store)] else args
  }

  /** A tool is passed only the parameters it takes. */
  function Accepted(tools: Tools, name: string, args: Args): Args
    requires name in tools.params
  {
    map k | k in args && k in tools.params[name] :: args[k]
  }

  function Answer(tools: Tools, call: Call, history: seq<Call>): Json {
    tools.answer(call, history)
  }

  function Invoke(tools: Tools, run: Run, name: string, args: Args, prior: seq<Entry>, history: seq<Call>): (Json, seq<Call>) {
    if name !in tools.params then (UNKNOWN_TOOL, [])
    else
      var full := Hydrate(tools.reader, name, Pinned(tools, name, args, run.store), prior);
      match SkipIncomplete(tools.reader, name, full, prior)
      case Some(skipped) => (skipped, [])
      case None =>
        var call := Call(name, Accepted(tools, name, full));
        (Answer(tools, call, history), [call])
  }

  // ---- the scripted loop ----

  datatype PlanStep = PlanStep(tool: string, args: Args)

  datatype Progress = Progress(results: seq<Entry>, used: seq<string>, invoked: seq<Call>)

  /** A plan may also name tools of no known tier. */
  predicate ScriptAllows(tools: Tools, run: Run, name: string) {
    name in run.allowed && (name in tools.registry ==> tools.registry[name] != EXECUTE)
  }

  ghost function AfterPlanStep(tools: Tools, run: Run, p: Progress, step: PlanStep): Progress {
    if step.tool == "" then p
    else if !ScriptAllows(tools, run, step.tool) then p.(results := p.results + [Entry(step.tool, NOT_ALLOWED)])
    else if step.tool !in tools.params then p.(results := p.results + [Entry(step.tool, UNKNOWN_TOOL)])
    else
      var (result, calls) := Invoke(tools, run, step.tool, step.args, p.results, p.invoked);
      Progress(p.results + [Entry(step.tool, result)], p.used + [step.tool], p.invoked + calls)
  }

  ghost function AfterPlan(tools: Tools, run: Run, plan: seq<PlanStep>): Progress {
    if plan == [] then Progress([], [], [])
    else AfterPlanStep(tools, run, AfterPlan(tools, run, plan[..|plan| - 1]), plan[|plan| - 1])
  }

  /** A Python slice up to `n`: a negative bound counts from the end. */
  function UpTo<T>(s: seq<T>, n: int): seq<T> {
    if n > |s| then s
    else if n >= 0 then s[..n]
    else if |s| + n > 0 then s[..|s| + n]
    else []
  }

  method RunScriptedToolLoop(tools: Tools, run: Run, plan: seq<PlanStep>) returns (p: Progress)
    ensures p == AfterPlan(tools, run, UpTo(plan, Budget(run)))
  {
    var steps := UpTo(plan, Budget(run));
    var results, used, invoked := [], [], [];
    for i := 0 to |steps|
      invariant Progress(results, used, invoked) == AfterPlan(tools, run, steps[..i])
    {
      assert steps[..i + 1][..i] == steps[..i];
      var name := steps[i].tool;
      if name == "" {
        continue;
      }
      if name !in run.allowed {
        results := results + [Entry(name, NOT_ALLOWED)];
        continue;
      }
      if name in tools.registry && tools.registry[name] == EXECUTE {
        results := results + [Entry(name, NOT_ALLOWED)];
        continue;
      }
      if name in tools.registry && !IsAllowed(tools.registry, name, run.allowed) {
        results := results + [Entry(name, NOT_ALLOWED)];
        continue;
      }
      if name !in tools.params {
        results := results + [Entry(name, UNKNOWN_TOOL)];
        continue;
      }
      var (result, calls) := Invoke(tools, run, name, steps[i].args, results, invoked);
      used, invoked := used + [name], invoked + calls;
      results := results + [Entry(name, result)];
    }
    assert steps[..|steps|] == steps;
    p := Progress(results, used, invoked);
  }

  // ---- the model-driven loop ----

  /** A request of the model: a tool and the JSON text of its arguments. Requests of one turn
      run together; one that `overlaps` answers only after the others have started. */
  datatype Request = Request(tool: string, text: string, overlaps: bool)

  /** What the model requests in a turn, given the results so far; none ends the run. */
  type Model = (nat, seq<Entry>) -> seq<Request>

  type Cache = map<(string, string), Json>

  /** Results kept, results kept once the turn is over, and the tools that ran. */
  datatype Memory = Memory(cache: Cache, late: Cache, invoked: seq<Call>)

  datatype Session = Session(results: seq<Entry>, used: seq<string>, memory: Memory)

  const START := Session([], [], Memory(map[], map[], []))

  function KeyText(text: string, limit: nat): string {
    if |text| > limit then text[..limit] + "\U{2026}" else text
  }

  /** The tools of the run's list that may be called. */
  function Callable(tools: Tools, run: Run): set<string> {
    set t | t in run.allowed && IsAllowed(tools.registry, t, run.allowed)
  }

  function Key(run: Run, r: Request): (string, string) {
    (r.tool, KeyText(r.text, run.textLimit))
  }

  /** One request; without `caching` the kept results are neither read nor written. */
  function RunOne(tools: Tools, run: Run, caching: bool, prior: seq<Entry>, m: Memory, r: Request): (Memory, Json) {
    var kept := caching && r.tool in DEDUP_TOOLS;
    if kept && Key(run, r) in m.cache then (m, m.cache[Key(run, r)])
    else if r.tool !in Callable(tools, run) || !IsAllowed(tools.registry, r.tool, Callable(tools, run)) then (m, NOT_ALLOWED)
    else
      var (result, calls) := Invoke(tools, run, r.tool, tools.decode(r.text), prior, m.invoked);
      var ran := m.(invoked := m.invoked + calls);
      if !kept then (ran, result)
      else if r.overlaps then (ran.(late := m.late[Key(run, r) := result]), result)
      else (ran.(cache := m.cache[Key(run, r) := result]), result)
  }

  ghost function RunAll(tools: Tools, run: Run, caching: bool, prior: seq<Entry>, m: Memory, rs: seq<Request>): (Memory, seq<Entry>) {
    if rs == [] then (m, [])
    else
      var n := |rs| - 1;
      var (before, entries) := RunAll(tools, run, caching, prior, m, rs[..n]);
      var (after, result) := RunOne(tools, run, caching, prior, before, rs[n]);
      (after, entries + [Entry(rs[n].tool, result)])
  }

  predicate Refused(result: Json) {
    result.Obj? && Get(result.fields, "error") == Str("tool_not_allowed")
  }

  function UsedTools(entries: seq<Entry>): seq<string> {
    if entries == [] then []
    else
      var last := entries[|entries| - 1];
      UsedTools(entries[..|entries| - 1]) + if Refused(last.result) then [] else [last.tool]
  }

  ghost function AfterTurn(tools: Tools, run: Run, caching: bool, s: Session, rs: seq<Request>): Session {
    var (m, entries) := RunAll(tools, run, caching, s.results, s.memory, rs);
    Session(s.results + entries, s.used + UsedTools(entries), Memory(m.cache + m.late, map[], m.invoked))
  }

  /** A chat between turns: the session, the calls counted so far, the number of the turn. */
  datatype Chat = Chat(session: Session, calls: nat, turn: nat)

  predicate Over(run: Run, model: Model, c: Chat) {
    c.calls >= Budget(run) || model(c.turn, c.session.results) == []
  }

  /** The requests of the turn that fit the budget. */
  function Runnable(run: Run, model: Model, c: Chat): (rs: seq<Request>)
    requires !Over(run, model, c)
    ensures 0 < |rs| <= Budget(run) - c.calls && rs <= model(c.turn, c.session.results)
    ensures rs == model(c.turn, c.session.results) || |rs| == Budget(run) - c.calls
  {
    UpTo(model(c.turn, c.session.results), Budget(run) - c.calls)
  }

  ghost function Next(tools: Tools, run: Run, model: Model, caching: bool, c: Chat): (next: Chat)
    requires !Over(run, model, c)
    ensures c.calls < next.calls <= Budget(run)
  {
    var rs := Runnable(run, model, c);
    Chat(AfterTurn(tools, run, caching, c.session, rs), c.calls + |rs|, c.turn + 1)
  }

  /** The session once the model is done or the budget is spent. */
  ghost function AfterChat(tools: Tools, run: Run, model: Model, caching: bool, c: Chat): Session
    decreases Budget(run) - c.calls
  {
    if Over(run, model, c) then c.session else AfterChat(tools, run, model, caching, Next(tools, run, model, caching, c))
  }

  const OPENING := Chat(START, 0, 0)

  method RunGenaiToolLoop(tools: Tools, run: Run, model: Model) returns (r: Result<Session>)
    ensures r == if Callable(tools, run) == {} then Err("no_allowed_tools")
                 else Ok(AfterChat(tools, run, model, true, OPENING))
  {
    if Callable(tools, run) == {} {
      return Err("no_allowed_tools");
    }
    var s := TakeTurns(tools, run, model);
    r := Ok(s);
  }

  method TakeTurns(tools: Tools, run: Run, model: Model) returns (s: Session)
    ensures s == AfterChat(tools, run, model, true, OPENING)
  {
    var calls, turn: nat := 0, 0;
    s := START;
    ghost var c := OPENING;
    ghost var end := AfterChat(tools, run, model, true, c);
    while calls < Budget(run)
      invariant c.session == s && c.turn == turn && end == AfterChat(tools, run, model, true, c)
      invariant 0 <= c.calls <= calls && (c.calls < calls ==> c.calls == Budget(run))
      decreases Budget(run) - calls
    {
      var requests := model(turn, s.results);
      if requests == [] {
        break;
      }
      var runnable, counted := TakeRunnable(requests, calls, Budget(run));
      s := RunTurn(tools, run, s, runnable);
      c := Next(tools, run, model, true, c);
      turn, calls := turn + 1, counted;
    }
  }

  /** The requests that still fit the budget; the first that does not ends the count. */
  method TakeRunnable(requests: seq<Request>, before: nat, maxCalls: int) returns (runnable: seq<Request>, calls: nat)
    requires before < maxCalls
    ensures runnable == UpTo(requests, maxCalls - before)
    ensures calls == if before + |requests| > maxCalls then maxCalls + 1 else before + |requests|
  {
    runnable, calls := [], before;
    for i := 0 to |requests|
      invariant calls == before + i && calls <= maxCalls
      invariant runnable == requests[..i]
    {
      calls := calls + 1;
      if calls > maxCalls {
        break;
      }
      runnable := runnable + [requests[i]];
    }
  }

  method RunTurn(tools: Tools, run: Run, s: Session, runnable: seq<Request>) returns (next: Session)
    ensures next == AfterTurn(tools, run, true, s, runnable)
  {
    var m, outcomes := s.memory, [];
    for i := 0 to |runnable|
      invariant (m, outcomes) == RunAll(tools, run, true, s.results, s.memory, runnable[..i])
    {
      assert runnable[..i + 1][..i] == runnable[..i];
      var (after, result) := RunOne(tools, run, true, s.results, m, runnable[i]);
      m := after;
      outcomes := outcomes + [Entry(runnable[i].tool, result)];
    }
    assert runnable[..|runnable|] == runnable;
    var results, used := s.results, s.used;
    for i := 0 to |outcomes|
      invariant results == s.results + outcomes[..i] && used == s.used + UsedTools(outcomes[..i])
    {
      assert outcomes[..i + 1][..i] == outcomes[..i];
      if !Refused(outcomes[i].result) {
        used := used + [outcomes[i].tool];
      }
      results := results + [outcomes[i]];
    }
    assert outcomes[..|outcomes|] == outcomes;
    next := Session(results, used, Memory(m.cache + m.late, map[], m.invoked));
  }
}
