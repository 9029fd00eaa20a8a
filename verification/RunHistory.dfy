/** What every history of a run log keeps: processes that record runs, update stubs, fail
    to append and restart (src/masova_agent/runtime/run_store.py). */
module RunHistory {
  import opened Outcomes
  import opened RunStore

  datatype Step = Record(rec: RunStore.Record, appendOk: bool) | Upsert(rec: RunStore.Record) | Restart

  ghost function Start(file: seq<Line>): State {
    State(file, [], false, GENESIS)
  }

  /** A call without an agent raises before it touches anything. */
  ghost function Next(h: Hasher, s: State, step: Step): State {
    match step
    case Restart => Start(s.file)
    case Record(r, ok) => if AgentOf(r) == "" then s else AfterRecord(h, s, r, ok)
    case Upsert(r) => if AgentOf(r) == "" then s else AfterUpsert(s, r)
  }

  ghost function Run(h: Hasher, s: State, steps: seq<Step>): State {
    if steps == [] then s else Next(h, Run(h, s, steps[..|steps| - 1]), steps[|steps| - 1])
  }

  /** No caller passes the two keys the log itself writes. */
  ghost predicate CleanInputs(steps: seq<Step>) {
    forall i :: 0 <= i < |steps| && !steps[i].Restart? ==> Clean(steps[i].rec)
  }

  // ---- the chain in memory and on file ----

  ghost predicate Sealed(r: RunStore.Record) {
    Get(r, "agent") != "" && Chained(r)
  }

  ghost predicate AllSealed(lines: seq<Line>) {
    forall i :: 0 <= i < |lines| && lines[i].Row? ==> Sealed(lines[i].rec)
  }

  lemma {:induction false} SealedLoadsAll(lines: seq<Line>)
    requires AllSealed(lines)
    ensures LoadedRows(lines) == Rows(lines) && LoadedTip(lines) == Tip(lines)
    ensures ChainedRows(LoadedRows(lines)) == Rows(lines)
    ensures forall i :: 0 <= i < |LoadedRows(lines)| ==> Chained(LoadedRows(lines)[i])
  {
    if lines != [] {
      var front := lines[..|lines| - 1];
      SealedLoadsAll(front);
      var rows := LoadedRows(front);
      match lines[|lines| - 1]
      case Row(r) =>
        assert lines[|lines| - 1].Row? && Sealed(r);
        assert LoadedRows(lines) == rows + [r] && (rows + [r])[..|rows|] == rows;
      case _ =>
        assert LoadedRows(lines) == rows && Rows(lines) == Rows(front);
    }
  }

  ghost predicate Stub(all: seq<RunStore.Record>, i: int, runId: string) {
    0 <= i < |all| && OfRun(all[i], runId) && !Chained(all[i])
  }

  /** A run has at most one unchained record. */
  ghost predicate OneStub(all: seq<RunStore.Record>) {
    forall i, j, runId :: runId != "" && Stub(all, i, runId) && Stub(all, j, runId) ==> i == j
  }

  /** The memory of a process agrees with its file. */
  ghost predicate InStep(s: State) {
    && ChainedRows(s.all) == Rows(s.file)
    && s.tip == Tip(s.file)
    && OneStub(s.all)
  }

  ghost predicate Good(h: Hasher, s: State) {
    && Verified(h, s.file) && AllSealed(s.file)
    && InStep(Load(s))
  }

  lemma FreshIsGood(h: Hasher, file: seq<Line>)
    requires Verified(h, file) && AllSealed(file)
    ensures Good(h, Start(file))
  {
    SealedLoadsAll(file);
  }

  lemma BodyOfSeal(h: Hasher, prev: string, r: RunStore.Record)
    ensures Clean(r) ==> Body(Seal(h, prev, r)) == r
    ensures !Clean(r) ==> Body(Seal(h, prev, r)) != r
  {
    var s := Seal(h, prev, r);
    if Clean(r) {
      assert forall k :: k in Body(s) <==> k in r;
    } else {
      var k :| k in SEAL_KEYS && k in r;
      assert k !in Body(s);
    }
  }

  lemma NamedStaysClean(r: RunStore.Record)
    ensures Clean(Named(r)) <==> Clean(r)
  {
  }

  /** Appending one record keeps a verified file verified exactly if the process has the
      file's tip and the caller left the two log keys alone. */
  lemma AppendVerifiesExactly(h: Hasher, s: State, r: RunStore.Record)
    requires CollisionFree(h) && AgentOf(r) != "" && Verified(h, s.file)
    ensures Verified(h, AfterRecord(h, s, r, true).file) <==> Load(s).tip == Tip(s.file) && Clean(r)
  {
    var t := AfterRecord(h, s, r, true);
    assert t.file[..|t.file| - 1] == s.file;
    BodyOfSeal(h, Load(s).tip, Named(r));
    NamedStaysClean(r);
  }

  ghost predicate HasStub(all: seq<RunStore.Record>, runId: string) {
    exists i :: Stub(all, i, runId)
  }

  lemma StubIndexFound(all: seq<RunStore.Record>, runId: string)
    ensures StubIndex(all, runId) < |all| <==> HasStub(all, runId)
  {
    var k := StubIndex(all, runId);
    if k < |all| {
      assert Stub(all, k, runId);
    }
  }

  lemma {:induction false} ChainedRowsUpdate(all: seq<RunStore.Record>, i: nat, r: RunStore.Record)
    requires i < |all| && !Chained(all[i]) && !Chained(r)
    ensures ChainedRows(all[i := r]) == ChainedRows(all)
    decreases |all|
  {
    var n := |all| - 1;
    var all' := all[i := r];
    if i < n {
      ChainedRowsUpdate(all[..n], i, r);
      assert all'[..n] == all[..n][i := r] && all'[n] == all[n];
    } else {
      assert all'[..n] == all[..n];
    }
  }

  /** A stub update leaves the chained records as they are, in content and order. */
  lemma MergeKeepsChain(all: seq<RunStore.Record>, rec: RunStore.Record)
    requires Clean(rec)
    ensures ChainedRows(Merge(all, rec)) == ChainedRows(all)
    ensures OneStub(all) ==> OneStub(Merge(all, rec))
  {
    var runId := Get(rec, "run_id");
    var i := StubIndex(all, runId);
    StubIndexFound(all, runId);
    if runId != "" && i < |all| {
      assert !Chained(all[i] + rec);
      ChainedRowsUpdate(all, i, all[i] + rec);
    } else {
      assert (all + [rec])[..|all|] == all;
    }
    if OneStub(all) {
      MergeKeepsOneStub(all, rec);
    }
  }

  lemma MergeKeepsOneStub(all: seq<RunStore.Record>, rec: RunStore.Record)
    requires Clean(rec) && OneStub(all)
    ensures OneStub(Merge(all, rec))
  {
    var runId := Get(rec, "run_id");
    var i := StubIndex(all, runId);
    StubIndexFound(all, runId);
    var m := Merge(all, rec);
    forall a, b, id | id != "" && Stub(m, a, id) && Stub(m, b, id) ensures a == b {
      if a < |all| && b < |all| {
        assert Stub(all, a, id) || (a == i && id == runId);
        assert Stub(all, b, id) || (b == i && id == runId);
        assert a == i && id == runId ==> Stub(all, a, id);
        assert b == i && id == runId ==> Stub(all, b, id);
      } else {
        assert m == all + [rec] && (a == |all| || b == |all|);
        assert m[|all|] == rec && id == runId;
      }
    }
  }

  lemma SealKeepsOneStub(all: seq<RunStore.Record>, r: RunStore.Record)
    requires Chained(r) && OneStub(all)
    ensures OneStub(all + [r])
  {
    forall a, b, id | id != "" && Stub(all + [r], a, id) && Stub(all + [r], b, id) ensures a == b {
      assert Stub(all, a, id) && Stub(all, b, id);
    }
  }

  lemma RecordKeepsGood(h: Hasher, s: State, r: RunStore.Record)
    requires CollisionFree(h) && Good(h, s) && Clean(r) && AgentOf(r) != ""
    ensures Good(h, AfterRecord(h, s, r, true))
  {
    var sealed := Seal(h, Load(s).tip, Named(r));
    AppendVerifiesExactly(h, s, r);
    SealedIsSealed(h, Load(s).tip, r);
    AppendedRow(s.file, sealed);
    AppendedRecord(Load(s).all, sealed);
    SealKeepsOneStub(Load(s).all, sealed);
  }

  lemma SealedIsSealed(h: Hasher, prev: string, r: RunStore.Record)
    requires CollisionFree(h) && AgentOf(r) != ""
    ensures Sealed(Seal(h, prev, Named(r)))
  {
    assert h(prev, Named(r)) !in {GENESIS, ""};
  }

  lemma AppendedRow(lines: seq<Line>, r: RunStore.Record)
    requires Sealed(r)
    ensures AllSealed(lines) ==> AllSealed(lines + [Row(r)])
    ensures Rows(lines + [Row(r)]) == Rows(lines) + [r] && Tip(lines + [Row(r)]) == Get(r, "record_hash")
  {
    assert (lines + [Row(r)])[..|lines|] == lines;
  }

  lemma AppendedRecord(all: seq<RunStore.Record>, r: RunStore.Record)
    requires Chained(r)
    ensures ChainedRows(all + [r]) == ChainedRows(all) + [r]
  {
    assert (all + [r])[..|all|] == all;
  }

  lemma UpsertKeepsGood(h: Hasher, s: State, r: RunStore.Record)
    requires Good(h, s) && Clean(r)
    ensures Good(h, AfterUpsert(s, r)) && AfterUpsert(s, r).file == s.file
  {
    NamedStaysClean(r);
    MergeKeepsChain(Load(s).all, Named(r));
  }

  lemma NextKeepsGood(h: Hasher, s: State, step: Step)
    requires CollisionFree(h) && Good(h, s)
    requires step.Restart? || Clean(step.rec)
    requires step.Record? ==> step.appendOk
    ensures Good(h, Next(h, s, step))
    ensures step.Upsert? ==> Next(h, s, step).file == s.file
  {
    match step
    case Restart =>
      FreshIsGood(h, s.file);
    case Record(r, _) =>
      if AgentOf(r) != "" {
        RecordKeepsGood(h, s, r);
      }
    case Upsert(r) =>
      UpsertKeepsGood(h, s, r);
  }

  /** The chain invariant. After any history of records, stub updates and restarts the file
      verifies, the chained records in memory are those of the file in order, the tip in
      memory is the file's, and no run has two stubs. */
  lemma {:induction false} ChainInvariant(h: Hasher, file: seq<Line>, steps: seq<Step>)
    requires CollisionFree(h) && Verified(h, file) && AllSealed(file)
    requires CleanInputs(steps)
    requires forall i :: 0 <= i < |steps| && steps[i].Record? ==> steps[i].appendOk
    ensures Good(h, Run(h, Start(file), steps))
  {
    FreshIsGood(h, file);
    if steps != [] {
      var front := steps[..|steps| - 1];
      ChainInvariant(h, file, front);
      NextKeepsGood(h, Run(h, Start(file), front), steps[|steps| - 1]);
    }
  }

  /** In a good state the console's report is the truth about the file: it verifies, and the
      report gives the number of its records and its tip. */
  lemma ReportIsTrue(h: Hasher, s: State)
    requires CollisionFree(h) && Good(h, s)
    ensures ReportOf(h, s) == Report(true, |Rows(s.file)|, Tip(s.file))
  {
    TipIsLastRow(h, s.file);
    TipNotEmpty(h, s.file);
  }

  lemma {:induction false} TipNotEmpty(h: Hasher, lines: seq<Line>)
    requires CollisionFree(h) && Verified(h, lines)
    ensures Tip(lines) != ""
  {
    if lines != [] {
      TipNotEmpty(h, lines[..|lines| - 1]);
    }
  }

  // ---- failed appends ----

  ghost function Fold(h: Hasher, p: string, bodies: seq<RunStore.Record>): string {
    if bodies == [] then p else h(Fold(h, p, bodies[..|bodies| - 1]), bodies[|bodies| - 1])
  }

  /** A chain from the start marker tells its records apart. */
  lemma {:induction false} FoldInjective(h: Hasher, a: seq<RunStore.Record>, b: seq<RunStore.Record>)
    requires CollisionFree(h) && Fold(h, GENESIS, a) == Fold(h, GENESIS, b)
    ensures a == b
  {
    if a != [] && b != [] {
      FoldInjective(h, a[..|a| - 1], b[..|b| - 1]);
      assert a == a[..|a| - 1] + [a[|a| - 1]] && b == b[..|b| - 1] + [b[|b| - 1]];
    }
  }

  lemma {:induction false} FoldOn(h: Hasher, p: string, a: seq<RunStore.Record>, b: seq<RunStore.Record>)
    ensures Fold(h, p, a + b) == Fold(h, Fold(h, p, a), b)
  {
    if b == [] {
      assert a + b == a;
    } else {
      FoldOn(h, p, a, b[..|b| - 1]);
      assert (a + b)[..|a + b| - 1] == a + b[..|b| - 1];
    }
  }

  /** The contents of a log's records. */
  ghost function Bodies(lines: seq<Line>): seq<RunStore.Record> {
    if lines == [] then []
    else Bodies(lines[..|lines| - 1]) +
         match lines[|lines| - 1] { case Row(r) => [Body(r)] case _ => [] }
  }

  lemma {:induction false} TipIsFold(h: Hasher, lines: seq<Line>)
    requires Verified(h, lines)
    ensures Tip(lines) == Fold(h, GENESIS, Bodies(lines))
  {
    if lines != [] {
      var front := lines[..|lines| - 1];
      TipIsFold(h, front);
      match lines[|lines| - 1]
      case Row(r) => assert (Bodies(front) + [Body(r)])[..|Bodies(front)|] == Bodies(front);
      case Blank => assert Bodies(lines) == Bodies(front);
      case Garbage =>
    }
  }

  /** A process that went on from the tip of a verified log has another tip. */
  lemma NeverBack(h: Hasher, lines: seq<Line>, lost: seq<RunStore.Record>)
    requires CollisionFree(h) && Verified(h, lines) && lost != []
    ensures Fold(h, Tip(lines), lost) != Tip(lines)
  {
    TipIsFold(h, lines);
    FoldOn(h, GENESIS, Bodies(lines), lost);
    if Fold(h, Tip(lines), lost) == Tip(lines) {
      FoldInjective(h, Bodies(lines) + lost, Bodies(lines));
    }
  }

  /** The records of the running process that the file missed. */
  ghost function Lost(steps: seq<Step>): seq<RunStore.Record> {
    if steps == [] then []
    else
      var lost := Lost(steps[..|steps| - 1]);
      match steps[|steps| - 1]
      case Restart => []
      case Record(r, ok) => if AgentOf(r) != "" && !ok then lost + [Named(r)] else lost
      case Upsert(_) => lost
  }

  /** Some append succeeded after one that failed in the same process. */
  ghost predicate Gap(steps: seq<Step>) {
    steps != [] &&
    (var front, last := steps[..|steps| - 1], steps[|steps| - 1];
     Gap(front) || (last.Record? && last.appendOk && AgentOf(last.rec) != "" && Lost(front) != []))
  }

  ghost predicate Tracks(h: Hasher, s: State, lost: seq<RunStore.Record>) {
    Verified(h, s.file) && AllSealed(s.file) && Load(s).tip == Fold(h, Tip(s.file), lost)
  }

  lemma TracksNext(h: Hasher, s: State, lost: seq<RunStore.Record>, step: Step)
    requires CollisionFree(h) && Tracks(h, s, lost)
    requires step.Restart? || Clean(step.rec)
    requires step.Record? && step.appendOk && AgentOf(step.rec) != "" ==> lost == []
    ensures Tracks(h, Next(h, s, step),
                   match step case Restart => []
                   case Record(r, ok) => if AgentOf(r) != "" && !ok then lost + [Named(r)] else lost
                   case Upsert(_) => lost)
  {
    match step
    case Restart =>
      SealedLoadsAll(s.file);
    case Record(r, ok) =>
      if AgentOf(r) != "" {
        if ok {
          AppendVerifiesExactly(h, s, r);
          var t := AfterRecord(h, s, r, true);
          assert t.file[..|t.file| - 1] == s.file;
        } else {
          assert (lost + [Named(r)])[..|lost|] == lost;
        }
      }
    case Upsert(_) =>
  }

  lemma FileOnlyGrows(h: Hasher, s: State, step: Step)
    ensures |s.file| <= |Next(h, s, step).file| && Next(h, s, step).file[..|s.file|] == s.file
  {
  }

  lemma {:induction false} BrokenExactlyAtGap(h: Hasher, file: seq<Line>, steps: seq<Step>)
    requires CollisionFree(h) && Verified(h, file) && AllSealed(file) && CleanInputs(steps)
    ensures Gap(steps) ==> !Verified(h, Run(h, Start(file), steps).file)
    ensures !Gap(steps) ==> Tracks(h, Run(h, Start(file), steps), Lost(steps))
  {
    SealedLoadsAll(file);
    if steps != [] {
      var front, last := steps[..|steps| - 1], steps[|steps| - 1];
      var s := Run(h, Start(file), front);
      BrokenExactlyAtGap(h, file, front);
      if Gap(front) {
        FileOnlyGrows(h, s, last);
        NeverMended(h, Next(h, s, last).file, |s.file|);
      } else if Gap(steps) {
        AppendVerifiesExactly(h, s, last.rec);
        NeverBack(h, s.file, Lost(front));
      } else {
        TracksNext(h, s, Lost(front), last);
      }
    }
  }

  /** With failing appends the file still verifies exactly if no append succeeded after a
      failed one in the same process; a restart in between mends the chain. */
  lemma VerifiedExactlyWithoutGap(h: Hasher, file: seq<Line>, steps: seq<Step>)
    requires CollisionFree(h) && Verified(h, file) && AllSealed(file) && CleanInputs(steps)
    ensures Verified(h, Run(h, Start(file), steps).file) <==> !Gap(steps)
  {
    BrokenExactlyAtGap(h, file, steps);
  }

  /** Such a gap: the append of the first record fails and that of the second succeeds. */
  lemma LostRecordBreaksChain(h: Hasher, a: RunStore.Record, b: RunStore.Record)
    requires CollisionFree(h) && Clean(a) && Clean(b) && AgentOf(a) != "" && AgentOf(b) != ""
    ensures !Verified(h, Run(h, Start([]), [Record(a, false), Record(b, true)]).file)
  {
    var steps := [Record(a, false), Record(b, true)];
    assert steps[..1] == [Record(a, false)] && steps[..1][..0] == [];
    assert Lost(steps[..1]) == [Named(a)];
    assert Gap(steps);
    VerifiedExactlyWithoutGap(h, [], steps);
  }

  // ---- stubs and their terminal records ----

  /** The run has a stub with a chained record after it. */
  ghost predicate Settled(all: seq<RunStore.Record>, runId: string) {
    exists i, j :: i < j < |all| && Stub(all, i, runId) && OfRun(all[j], runId) && Chained(all[j])
  }

  lemma {:induction false} FindRunIsLast(all: seq<RunStore.Record>, runId: string, j: int)
    requires 0 <= j < |all| && OfRun(all[j], runId)
    ensures FindRun(all, runId).Some?
    ensures exists k :: j <= k < |all| && OfRun(all[k], runId) && FindRun(all, runId) == Some(all[k])
    decreases |all|
  {
    var n := |all| - 1;
    if !OfRun(all[n], runId) {
      FindRunIsLast(all[..n], runId, j);
      var k :| j <= k < n && OfRun(all[..n][k], runId) && FindRun(all, runId) == Some(all[..n][k]);
      assert all[k] == all[..n][k];
    }
  }

  /** Looking up a settled run returns a terminal record. */
  lemma SettledFindsTerminal(all: seq<RunStore.Record>, runId: string)
    requires runId != "" && OneStub(all) && Settled(all, runId)
    ensures FindRun(all, runId).Some? && OfRun(FindRun(all, runId).value, runId)
    ensures Chained(FindRun(all, runId).value)
  {
    var i, j :| i < j < |all| && Stub(all, i, runId) && OfRun(all[j], runId) && Chained(all[j]);
    FindRunIsLast(all, runId, j);
    var k :| j <= k < |all| && OfRun(all[k], runId) && FindRun(all, runId) == Some(all[k]);
    if !Chained(all[k]) {
      assert Stub(all, k, runId);
    }
  }

  lemma SealSettles(h: Hasher, s: State, r: RunStore.Record, ok: bool, runId: string)
    requires s.loaded && AgentOf(r) != "" && CollisionFree(h) && runId != ""
    ensures Settled(s.all, runId) ==> Settled(AfterRecord(h, s, r, ok).all, runId)
    ensures OfRun(r, runId) && HasStub(s.all, runId) ==> Settled(AfterRecord(h, s, r, ok).all, runId)
  {
    var t := AfterRecord(h, s, r, ok).all;
    if Settled(s.all, runId) {
      var i, j :| i < j < |s.all| && Stub(s.all, i, runId) && OfRun(s.all[j], runId) && Chained(s.all[j]);
      assert t[i] == s.all[i] && t[j] == s.all[j] && Stub(t, i, runId);
    }
    if OfRun(r, runId) && HasStub(s.all, runId) {
      var i :| Stub(s.all, i, runId);
      assert t[i] == s.all[i] && Stub(t, i, runId) && OfRun(t[|s.all|], runId) && Chained(t[|s.all|]);
    }
  }

  lemma MergeKeepsSettled(all: seq<RunStore.Record>, rec: RunStore.Record, runId: string)
    requires Clean(rec) && runId != "" && Settled(all, runId)
    ensures Settled(Merge(all, rec), runId)
  {
    var i, j :| i < j < |all| && Stub(all, i, runId) && OfRun(all[j], runId) && Chained(all[j]);
    var m := Merge(all, rec);
    assert m[j] == all[j];
    if m[i] != all[i] {
      assert i == StubIndex(all, Get(rec, "run_id")) && OfRun(all[i], Get(rec, "run_id"));
      assert Get(rec, "run_id") == runId;
    }
    assert Stub(m, i, runId);
  }

  /** Once the stub of a run is followed by its terminal record, every later lookup in the
      process returns a terminal record, whatever is recorded or updated meanwhile. */
  lemma {:induction false} TerminalStays(h: Hasher, s: State, steps: seq<Step>, runId: string)
    requires CollisionFree(h) && CleanInputs(steps) && runId != ""
    requires s.loaded && OneStub(s.all) && Settled(s.all, runId)
    requires NoRestart(steps)
    ensures var t := Run(h, s, steps);
            && t.loaded && OneStub(t.all) && Settled(t.all, runId)
            && FindRun(t.all, runId).Some? && Chained(FindRun(t.all, runId).value)
  {
    if steps != [] {
      var front, last := steps[..|steps| - 1], steps[|steps| - 1];
      var t := Run(h, s, front);
      TerminalStays(h, s, front, runId);
      if AgentOf(last.rec) != "" {
        if last.Record? {
          SealSettles(h, t, last.rec, last.appendOk, runId);
          SealKeepsOneStub(t.all, Seal(h, t.tip, Named(last.rec)));
        } else {
          NamedStaysClean(last.rec);
          MergeKeepsOneStub(t.all, Named(last.rec));
          MergeKeepsSettled(t.all, Named(last.rec), runId);
        }
      }
    }
    SettledFindsTerminal(Run(h, s, steps).all, runId);
  }

  ghost predicate NoRestart(steps: seq<Step>) {
    forall i :: 0 <= i < |steps| ==> !steps[i].Restart?
  }

  lemma MergeKeepsStub(all: seq<RunStore.Record>, rec: RunStore.Record, runId: string)
    requires Clean(rec)
    ensures HasStub(all, runId) && runId != "" ==> HasStub(Merge(all, rec), runId)
    ensures OfRun(rec, runId) && runId != "" ==> HasStub(Merge(all, rec), runId)
  {
    var m, k := Merge(all, rec), StubIndex(all, Get(rec, "run_id"));
    if OfRun(rec, runId) && runId != "" {
      assert Stub(m, if k < |all| then k else |all|, runId);
    }
    if HasStub(all, runId) && runId != "" {
      var i :| Stub(all, i, runId);
      assert Stub(m, i, runId) || (i == k && OfRun(rec, runId));
    }
  }

  /** From the stub written when a run starts until its terminal record, the stub stays. */
  lemma {:induction false} StubStays(h: Hasher, s: State, steps: seq<Step>, runId: string)
    requires CollisionFree(h) && CleanInputs(steps) && NoRestart(steps) && runId != ""
    requires s.loaded && OneStub(s.all) && HasStub(s.all, runId)
    ensures var t := Run(h, s, steps); t.loaded && OneStub(t.all) && HasStub(t.all, runId)
  {
    if steps != [] {
      var front, last := steps[..|steps| - 1], steps[|steps| - 1];
      var t := Run(h, s, front);
      StubStays(h, s, front, runId);
      if AgentOf(last.rec) != "" {
        if last.Record? {
          var sealed := Seal(h, t.tip, Named(last.rec));
          SealKeepsOneStub(t.all, sealed);
          var i :| Stub(t.all, i, runId);
          assert Stub(t.all + [sealed], i, runId);
        } else {
          NamedStaysClean(last.rec);
          MergeKeepsOneStub(t.all, Named(last.rec));
          MergeKeepsStub(t.all, Named(last.rec), runId);
        }
      }
    }
  }

  /** The life of a run as the runtime drives it: a stub at the start, any calls of any runs
      meanwhile, the terminal record, and any calls after it. Without a restart in between,
      looking the run up afterwards returns a terminal record. */
  lemma FinishedRunIsFound(h: Hasher, s: State, stub: RunStore.Record, during: seq<Step>,
                           terminal: RunStore.Record, appendOk: bool, after: seq<Step>, runId: string)
    requires CollisionFree(h) && Good(h, s) && runId != ""
    requires Clean(stub) && AgentOf(stub) != "" && OfRun(stub, runId)
    requires AgentOf(terminal) != "" && OfRun(terminal, runId)
    requires CleanInputs(during) && NoRestart(during) && CleanInputs(after) && NoRestart(after)
    ensures var s1 := Run(h, AfterUpsert(s, stub), during);
            var t := Run(h, AfterRecord(h, s1, terminal, appendOk), after);
            FindRun(t.all, runId).Some? && Chained(FindRun(t.all, runId).value)
  {
    NamedStaysClean(stub);
    MergeKeepsOneStub(Load(s).all, Named(stub));
    MergeKeepsStub(Load(s).all, Named(stub), runId);
    StubStays(h, AfterUpsert(s, stub), during, runId);
    var s1 := Run(h, AfterUpsert(s, stub), during);
    SealSettles(h, s1, terminal, appendOk, runId);
    SealKeepsOneStub(s1.all, Seal(h, s1.tip, Named(terminal)));
    TerminalStays(h, AfterRecord(h, s1, terminal, appendOk), after, runId);
  }

  /** A stub update for a run hides no terminal record exactly if it finds a stub to
      replace; after a restart it finds none, because stubs are never written. */
  lemma LateUpsertExactly(all: seq<RunStore.Record>, rec: RunStore.Record)
    requires Clean(rec) && Get(rec, "run_id") != "" && OneStub(all)
    requires var before := FindRun(all, Get(rec, "run_id")); before.Some? && Chained(before.value)
    ensures var after := FindRun(Merge(all, rec), Get(rec, "run_id"));
            after.Some? && (Chained(after.value) <==> HasStub(all, Get(rec, "run_id")))
  {
    var runId := Get(rec, "run_id");
    StubIndexFound(all, runId);
    var i := StubIndex(all, runId);
    if i < |all| {
      FindRunWitness(all, runId);
      var j :| 0 <= j < |all| && OfRun(all[j], runId) && Chained(all[j])
               && forall k :: j < k < |all| ==> !OfRun(all[k], runId);
      assert i != j && !(i > j);
      MergeKeepsOneStub(all, rec);
      assert Settled(all, runId);
      MergeKeepsSettled(all, rec, runId);
      SettledFindsTerminal(Merge(all, rec), runId);
    }
  }

  lemma {:induction false} FindRunWitness(all: seq<RunStore.Record>, runId: string)
    requires FindRun(all, runId).Some?
    ensures exists j :: 0 <= j < |all| && OfRun(all[j], runId) && FindRun(all, runId) == Some(all[j])
                        && forall k :: j < k < |all| ==> !OfRun(all[k], runId)
  {
    var n := |all| - 1;
    if !OfRun(all[n], runId) {
      FindRunWitness(all[..n], runId);
      var j :| 0 <= j < n && OfRun(all[..n][j], runId) && FindRun(all, runId) == Some(all[..n][j])
               && forall k :: j < k < n ==> !OfRun(all[..n][k], runId);
      forall k | j < k < |all| ensures !OfRun(all[k], runId) {
        assert k < n ==> all[..n][k] == all[k];
      }
      assert all[..n][j] == all[j];
    }
  }

  lemma FreshHasNoStub(file: seq<Line>, i: int, runId: string)
    requires AllSealed(file)
    ensures !Stub(Load(Start(file)).all, i, runId)
  {
    SealedLoadsAll(file);
  }
}
