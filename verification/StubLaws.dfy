/** What the audit log shows of a run: which value of a field wins when a stub is updated,
    and what a record keeps of what was passed in (src/masova_agent/runtime/run_store.py). */
module StubLaws {
  import opened Outcomes
  import opened RunStore
  import opened RunHistory

  /** What a call says of a field of its record: the agent may come under its older name. */
  function Says(rec: RunStore.Record, k: string): Option<string> {
    if k == "agent" then Some(if "agent" in rec && rec["agent"] != "" then rec["agent"]
                              else if "agent_name" in rec then rec["agent_name"] else "")
    else if k in rec then Some(rec[k])
    else None
  }

  function FieldOf(row: RunStore.Record, k: string): Option<string> {
    if k in row then Some(row[k]) else None
  }

  /** The list with one record replaced. */
  ghost predicate OnlyAt(all: seq<RunStore.Record>, now: seq<RunStore.Record>, i: int) {
    |now| == |all| && forall j :: 0 <= j < |all| && j != i ==> now[j] == all[j]
  }

  /** An update of a run that has a stub changes that record alone: every field the update
      names has the update's value, every other field the value it had. */
  lemma UpdateWins(s: State, rec: RunStore.Record, i: int, k: string)
    requires AgentOf(rec) != "" && "run_id" in rec && rec["run_id"] != ""
    requires OneStub(Load(s).all) && Stub(Load(s).all, i, rec["run_id"])
    ensures var all, now := Load(s).all, AfterUpsert(s, rec).all;
            OnlyAt(all, now, i) && FieldOf(now[i], k) == if Says(rec, k).Some? then Says(rec, k) else FieldOf(all[i], k)
  {
    var all, runId := Load(s).all, rec["run_id"];
    StubIndexFound(all, runId);
    var j := StubIndex(all, runId);
    assert Stub(all, j, runId) && j == i;
  }

  /** With no stub to update the record is added, with the fields it came with. */
  lemma UpdateAdds(s: State, rec: RunStore.Record, k: string)
    requires AgentOf(rec) != ""
    requires "run_id" in rec && rec["run_id"] != "" ==> !HasStub(Load(s).all, rec["run_id"])
    ensures var all, now := Load(s).all, AfterUpsert(s, rec).all;
            |now| == |all| + 1 && now[..|all|] == all && FieldOf(now[|all|], k) == Says(rec, k)
  {
    var all := Load(s).all;
    StubIndexFound(all, Get(rec, "run_id"));
  }

  /** A record in the log says what was passed in, and its place in the chain. */
  lemma RecordSays(h: Hasher, s: State, rec: RunStore.Record, appendOk: bool, k: string)
    requires AgentOf(rec) != ""
    ensures var all, now := Load(s).all, AfterRecord(h, s, rec, appendOk).all;
            && |now| == |all| + 1 && now[..|all|] == all
            && FieldOf(now[|all|], k) == (if k == "prev_hash" then Some(Load(s).tip)
                                          else if k == "record_hash" then Some(h(Load(s).tip, rec["agent" := Says(rec, "agent").value]))
                                          else Says(rec, k))
  {
  }

  // ---- over histories ----

  predicate Updates(step: Step, runId: string) {
    step.Upsert? && AgentOf(step.rec) != "" && OfRun(step.rec, runId)
  }

  ghost predicate Updated(steps: seq<Step>, runId: string) {
    exists i :: 0 <= i < |steps| && Updates(steps[i], runId)
  }

  /** The value of a field in the last update of the run that names it. */
  ghost function LastSaid(steps: seq<Step>, runId: string, k: string): Option<string> {
    if steps == [] then None
    else
      var last := steps[|steps| - 1];
      if Updates(last, runId) && Says(last.rec, k).Some? then Says(last.rec, k)
      else LastSaid(steps[..|steps| - 1], runId, k)
  }

  /** The process goes on without a restart and without the run's terminal record. */
  ghost predicate InFlight(steps: seq<Step>, runId: string) {
    forall i :: 0 <= i < |steps| ==> !steps[i].Restart? && !(steps[i].Record? && OfRun(steps[i].rec, runId))
  }

  ghost predicate Unknown(all: seq<RunStore.Record>, runId: string) {
    forall i :: 0 <= i < |all| ==> !OfRun(all[i], runId)
  }

  /** The run has one record, a stub, and it says what the updates last said. */
  ghost predicate Shows(all: seq<RunStore.Record>, i: int, steps: seq<Step>, runId: string) {
    && Stub(all, i, runId)
    && (forall j :: 0 <= j < |all| && j != i ==> !OfRun(all[j], runId))
    && (forall k :: FieldOf(all[i], k) == LastSaid(steps, runId, k))
  }

  lemma {:induction false} NothingSaid(steps: seq<Step>, runId: string, k: string)
    requires !Updated(steps, runId)
    ensures LastSaid(steps, runId, k) == None
  {
    if steps != [] {
      var n := |steps| - 1;
      assert !Updates(steps[n], runId);
      UpdatedMore(steps, runId);
      NothingSaid(steps[..n], runId, k);
    }
  }

  lemma FirstUpdateShows(s: State, front: seq<Step>, steps: seq<Step>, runId: string)
    requires runId != "" && |steps| == |front| + 1 && steps[..|front|] == front && !Updated(front, runId)
    requires Unknown(Load(s).all, runId) && Updates(steps[|front|], runId) && Clean(steps[|front|].rec)
    ensures Shows(AfterUpsert(s, steps[|front|].rec).all, |Load(s).all|, steps, runId)
  {
    var rec := steps[|front|].rec;
    var all, now := Load(s).all, AfterUpsert(s, rec).all;
    assert !HasStub(all, runId);
    forall k ensures FieldOf(now[|all|], k) == LastSaid(steps, runId, k) {
      UpdateAdds(s, rec, k);
      NothingSaid(front, runId, k);
    }
    UpdateAdds(s, rec, "run_id");
    assert forall j :: 0 <= j < |all| ==> now[j] == now[..|all|][j];
    UpdateAdds(s, rec, "record_hash");
  }

  lemma NextUpdateShows(s: State, i: int, front: seq<Step>, steps: seq<Step>, runId: string)
    requires runId != "" && |steps| == |front| + 1 && steps[..|front|] == front
    requires Shows(Load(s).all, i, front, runId) && Updates(steps[|front|], runId) && Clean(steps[|front|].rec)
    ensures Shows(AfterUpsert(s, steps[|front|].rec).all, i, steps, runId)
  {
    var rec := steps[|front|].rec;
    var all, now := Load(s).all, AfterUpsert(s, rec).all;
    StubIndexFound(all, runId);
    assert Stub(all, StubIndex(all, runId), runId) && StubIndex(all, runId) == i;
    assert now == all[i := all[i] + Named(rec)];
    forall k ensures FieldOf(now[i], k) == LastSaid(steps, runId, k) {
      assert FieldOf(all[i], k) == LastSaid(front, runId, k);
    }
  }

  /** A call about another run. */
  lemma OtherCallShows(h: Hasher, s: State, front: seq<Step>, steps: seq<Step>, runId: string)
    requires runId != "" && |steps| == |front| + 1 && steps[..|front|] == front && !Updates(steps[|front|], runId)
    requires var last := steps[|front|]; !last.Restart? && !(last.Record? && OfRun(last.rec, runId))
    ensures var all, now := Load(s).all, Load(Next(h, s, steps[|front|])).all;
            && (Unknown(all, runId) ==> Unknown(now, runId))
            && forall i :: Shows(all, i, front, runId) ==> Shows(now, i, steps, runId)
  {
    var last := steps[|front|];
    var all, now := Load(s).all, Load(Next(h, s, last)).all;
    assert forall k :: LastSaid(steps, runId, k) == LastSaid(front, runId, k);
    if AgentOf(last.rec) != "" {
      OthersStay(h, s, last, runId);
      forall i | Shows(all, i, front, runId) ensures Shows(now, i, steps, runId) {
        assert now[i] == all[i];
      }
    }
  }

  lemma OthersStay(h: Hasher, s: State, last: Step, runId: string)
    requires runId != "" && !last.Restart? && AgentOf(last.rec) != "" && !OfRun(last.rec, runId)
    ensures var all, now := Load(s).all, Load(Next(h, s, last)).all;
            && |all| <= |now|
            && (forall j :: 0 <= j < |all| && OfRun(all[j], runId) ==> now[j] == all[j])
            && (forall j :: 0 <= j < |now| && OfRun(now[j], runId) ==> j < |all| && now[j] == all[j])
  {
    var all := Load(s).all;
    if last.Upsert? {
      var i := StubIndex(all, Get(last.rec, "run_id"));
      assert Get(last.rec, "run_id") != runId;
      if Get(last.rec, "run_id") != "" && i < |all| {
        assert OfRun(all[i], Get(last.rec, "run_id"));
      }
    }
  }

  /** From a state that does not know the run: while it is in flight the run has no record,
      or one stub that shows what its updates last said. */
  lemma {:induction false} InFlightShows(h: Hasher, s: State, steps: seq<Step>, runId: string)
    requires runId != "" && Unknown(Load(s).all, runId) && CleanInputs(steps) && InFlight(steps, runId)
    ensures var all := Load(Run(h, s, steps)).all;
            if Updated(steps, runId) then exists i :: Shows(all, i, steps, runId) else Unknown(all, runId)
  {
    if steps != [] {
      var front, last := steps[..|steps| - 1], steps[|steps| - 1];
      var t := Run(h, s, front);
      assert Run(h, s, steps) == Next(h, t, last);
      InFlightShows(h, s, front, runId);
      UpdatedMore(steps, runId);
      if !Updates(last, runId) {
        OtherCallShows(h, t, front, steps, runId);
        if Updated(front, runId) {
          var i :| Shows(Load(t).all, i, front, runId);
          assert Shows(Load(Run(h, s, steps)).all, i, steps, runId);
        } else {
          assert Unknown(Load(t).all, runId);
        }
      } else if Updated(front, runId) {
        var i :| Shows(Load(t).all, i, front, runId);
        NextUpdateShows(t, i, front, steps, runId);
      } else {
        FirstUpdateShows(t, front, steps, runId);
      }
    }
  }

  lemma UpdatedMore(steps: seq<Step>, runId: string)
    requires steps != []
    ensures Updated(steps, runId) <==> Updated(steps[..|steps| - 1], runId) || Updates(steps[|steps| - 1], runId)
  {
    var n := |steps| - 1;
    if Updated(steps[..n], runId) {
      var i :| 0 <= i < n && Updates(steps[..n][i], runId);
      assert Updates(steps[i], runId);
    }
    if Updated(steps, runId) {
      var i :| 0 <= i < |steps| && Updates(steps[i], runId);
      assert i < n ==> Updates(steps[..n][i], runId);
    }
  }

  /** Between a run's first update and its terminal record, whatever other runs record or
      update meanwhile, looking the run up gives for every field the value of the last
      update that names it. */
  lemma LookupShowsLastUpdates(h: Hasher, s: State, steps: seq<Step>, runId: string, k: string)
    requires runId != "" && Unknown(Load(s).all, runId) && CleanInputs(steps) && InFlight(steps, runId)
    ensures var row := FindRun(Load(Run(h, s, steps)).all, runId);
            && (row.Some? <==> Updated(steps, runId))
            && (row.Some? ==> FieldOf(row.value, k) == LastSaid(steps, runId, k))
  {
    var all := Load(Run(h, s, steps)).all;
    InFlightShows(h, s, steps, runId);
    if Updated(steps, runId) {
      var i :| Shows(all, i, steps, runId);
      FindRunIsLast(all, runId, i);
    } else {
      UnknownNotFound(all, runId);
    }
  }

  lemma {:induction false} UnknownNotFound(all: seq<RunStore.Record>, runId: string)
    requires Unknown(all, runId)
    ensures FindRun(all, runId) == None
  {
    if all != [] {
      assert !OfRun(all[|all| - 1], runId);
      UnknownNotFound(all[..|all| - 1], runId);
    }
  }

  /** The terminal record is looked up with the fields it was recorded with. */
  lemma TerminalShows(h: Hasher, s: State, rec: RunStore.Record, appendOk: bool, runId: string, k: string)
    requires AgentOf(rec) != "" && OfRun(rec, runId) && k !in SEAL_KEYS
    ensures var row := FindRun(AfterRecord(h, s, rec, appendOk).all, runId);
            row.Some? && FieldOf(row.value, k) == Says(rec, k)
  {
    RecordSays(h, s, rec, appendOk, k);
  }

  /** The last record of the run is `j`, a chained one, and the run has a stub as well. */
  ghost predicate EndsAt(all: seq<RunStore.Record>, runId: string, j: int) {
    && 0 <= j < |all| && OfRun(all[j], runId) && Chained(all[j]) && HasStub(all, runId)
    && forall k :: j < k < |all| ==> !OfRun(all[k], runId)
  }

  lemma UpdateKeepsEnd(all: seq<RunStore.Record>, rec: RunStore.Record, runId: string, j: int)
    requires runId != "" && EndsAt(all, runId, j) && Clean(rec)
    ensures EndsAt(Merge(all, rec), runId, j) && Merge(all, rec)[j] == all[j]
  {
    MergeKeepsStub(all, rec, runId);
    StubIndexFound(all, Get(rec, "run_id"));
  }

  lemma RecordKeepsEnd(all: seq<RunStore.Record>, row: RunStore.Record, runId: string, j: int)
    requires EndsAt(all, runId, j) && !OfRun(row, runId)
    ensures EndsAt(all + [row], runId, j) && (all + [row])[j] == all[j]
  {
    var i :| Stub(all, i, runId);
    assert Stub(all + [row], i, runId);
  }

  lemma StepKeepsEnd(h: Hasher, s: State, step: Step, runId: string, j: int)
    requires runId != "" && s.loaded && EndsAt(s.all, runId, j)
    requires !step.Restart? && Clean(step.rec) && !(step.Record? && OfRun(step.rec, runId))
    ensures var t := Next(h, s, step); t.loaded && EndsAt(t.all, runId, j) && t.all[j] == s.all[j]
  {
    if AgentOf(step.rec) != "" {
      if step.Upsert? {
        NamedStaysClean(step.rec);
        UpdateKeepsEnd(s.all, Named(step.rec), runId, j);
      } else {
        RecordKeepsEnd(s.all, Seal(h, s.tip, Named(step.rec)), runId, j);
      }
    }
  }

  lemma EndIsFound(all: seq<RunStore.Record>, runId: string, j: int)
    requires EndsAt(all, runId, j)
    ensures FindRun(all, runId) == Some(all[j])
  {
    FindRunIsLast(all, runId, j);
  }

  lemma {:induction false} EndStays(h: Hasher, s: State, steps: seq<Step>, runId: string, j: int)
    requires runId != "" && s.loaded && EndsAt(s.all, runId, j) && CleanInputs(steps) && InFlight(steps, runId)
    ensures var t := Run(h, s, steps); t.loaded && EndsAt(t.all, runId, j) && t.all[j] == s.all[j]
  {
    if steps != [] {
      var n := |steps| - 1;
      var t := Run(h, s, steps[..n]);
      EndStays(h, s, steps[..n], runId, j);
      StepKeepsEnd(h, t, steps[n], runId, j);
      assert Run(h, s, steps) == Next(h, t, steps[n]);
    }
  }

  /** From the terminal record of a run on, the lookup gives that very record, whatever is
      recorded for other runs and however late updates of the run come. */
  lemma TerminalIsFinal(h: Hasher, s: State, steps: seq<Step>, runId: string, j: int)
    requires runId != "" && s.loaded && EndsAt(s.all, runId, j) && CleanInputs(steps) && InFlight(steps, runId)
    ensures FindRun(Run(h, s, steps).all, runId) == Some(s.all[j])
  {
    EndStays(h, s, steps, runId, j);
    EndIsFound(Run(h, s, steps).all, runId, j);
  }

  // ---- reloading ----

  /** A new process knows exactly the records of the file that name an agent. */
  lemma {:induction false} LoadedExactly(lines: seq<Line>, r: RunStore.Record)
    ensures r in LoadedRows(lines) <==> Row(r) in lines && "agent" in r && r["agent"] != ""
  {
    if lines != [] {
      var n := |lines| - 1;
      LoadedExactly(lines[..n], r);
      assert lines == lines[..n] + [lines[n]];
    }
  }
}
