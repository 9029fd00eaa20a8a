/** The hash-chained audit log of agent runs (src/masova_agent/runtime/run_store.py).

    A record is a map of strings; an absent key and an empty value are the same to the
    code, which tests truth throughout. SHA-256 over the canonical JSON is a function
    parameter. A missing file is an empty one. */
module RunStore {
  import opened Outcomes

  type Record = map<string, string>

  type Hasher = (string, Record) -> string

  const GENESIS := "genesis"

  const SEAL_KEYS: set<string> := {"prev_hash", "record_hash"}

  /** A line of the log file: empty, not JSON, or a record. */
  datatype Line = Blank | Garbage | Row(rec: Record)

  function Get(r: Record, k: string): string {
    if k in r then r[k] else ""
  }

  function Body(r: Record): Record {
    r - SEAL_KEYS
  }

  predicate Clean(r: Record) {
    forall k :: k in SEAL_KEYS ==> k !in r
  }

  predicate Chained(r: Record) {
    Get(r, "record_hash") != ""
  }

  function AgentOf(r: Record): string {
    if Get(r, "agent") != "" then Get(r, "agent") else Get(r, "agent_name")
  }

  function Named(r: Record): Record {
    r["agent" := AgentOf(r)]
  }

  function Seal(h: Hasher, prev: string, r: Record): Record {
    r["prev_hash" := prev]["record_hash" := h(prev, r)]
  }

  predicate OfRun(r: Record, runId: string) {
    "run_id" in r && r["run_id"] == runId
  }

  // ---- the file ----

  ghost predicate Linked(h: Hasher, r: Record, prev: string) {
    Get(r, "prev_hash") == prev && Get(r, "record_hash") == h(prev, Body(r))
  }

  /** Every record names the hash before it and carries the hash of its own content. */
  ghost predicate Verified(h: Hasher, lines: seq<Line>) {
    lines == [] ||
    (var front := lines[..|lines| - 1];
     Verified(h, front) &&
     match lines[|lines| - 1]
     case Blank => true
     case Garbage => false
     case Row(r) => Linked(h, r, Tip(front)))
  }

  ghost function Tip(lines: seq<Line>): string {
    if lines == [] then GENESIS
    else match lines[|lines| - 1]
      case Row(r) => Get(r, "record_hash")
      case _ => Tip(lines[..|lines| - 1])
  }

  ghost function Rows(lines: seq<Line>): seq<Record> {
    if lines == [] then []
    else Rows(lines[..|lines| - 1]) +
         match lines[|lines| - 1] { case Row(r) => [r] case _ => [] }
  }

  /** What a fresh process reads: records without an agent are passed over. */
  ghost function LoadedRows(lines: seq<Line>): seq<Record> {
    if lines == [] then []
    else LoadedRows(lines[..|lines| - 1]) +
         match lines[|lines| - 1] { case Row(r) => (if Get(r, "agent") != "" then [r] else []) case _ => [] }
  }

  ghost function LoadedTip(lines: seq<Line>): string {
    if lines == [] then GENESIS
    else match lines[|lines| - 1]
      case Row(r) => if Get(r, "agent") != "" && Chained(r) then Get(r, "record_hash") else LoadedTip(lines[..|lines| - 1])
      case _ => LoadedTip(lines[..|lines| - 1])
  }

  // ---- the process ----

  datatype State = State(file: seq<Line>, all: seq<Record>, loaded: bool, tip: string)

  ghost function Load(s: State): State {
    if s.loaded then s else State(s.file, LoadedRows(s.file), true, LoadedTip(s.file))
  }

  /** The position of the first unchained record of the run, or the length. */
  function StubIndex(all: seq<Record>, runId: string): (i: nat)
    ensures i <= |all|
    ensures forall j :: 0 <= j < i ==> !(OfRun(all[j], runId) && !Chained(all[j]))
    ensures i < |all| ==> OfRun(all[i], runId) && !Chained(all[i])
  {
    if all == [] then 0
    else
      var i := StubIndex(all[..|all| - 1], runId);
      if i < |all| - 1 then i
      else if OfRun(all[|all| - 1], runId) && !Chained(all[|all| - 1]) then |all| - 1
      else |all|
  }

  ghost function AfterRecord(h: Hasher, s: State, r: Record, appendOk: bool): State {
    var s1 := Load(s);
    var sealed := Seal(h, s1.tip, Named(r));
    State(if appendOk then s1.file + [Row(sealed)] else s1.file, s1.all + [sealed], true, sealed["record_hash"])
  }

  function Merge(all: seq<Record>, rec: Record): seq<Record> {
    var i := StubIndex(all, Get(rec, "run_id"));
    if Get(rec, "run_id") != "" && i < |all| then all[i := all[i] + rec] else all + [rec]
  }

  /** The record an update leaves in the list: merged with the stub it found, or itself. */
  function Upserted(all: seq<Record>, rec: Record): Record {
    var i := StubIndex(all, Get(rec, "run_id"));
    if Get(rec, "run_id") != "" && i < |all| then all[i] + rec else rec
  }

  ghost function AfterUpsert(s: State, r: Record): State {
    var s1 := Load(s);
    s1.(all := Merge(s1.all, Named(r)))
  }

  /** The last record of the run, stub or not. */
  function FindRun(all: seq<Record>, runId: string): Option<Record> {
    if all == [] then None
    else if OfRun(all[|all| - 1], runId) then Some(all[|all| - 1])
    else FindRun(all[..|all| - 1], runId)
  }

  datatype Report = Report(verified: bool, length: nat, tip: string)

  /** What the console is told of a log. */
  ghost function ReportOf(h: Hasher, s: State): Report {
    var s1 := Load(s);
    var chained := ChainedRows(s1.all);
    Report(Verified(h, s1.file), |chained|,
           if chained != [] then Get(chained[|chained| - 1], "record_hash") else if s1.tip == "" then GENESIS else s1.tip)
  }

  function ChainedRows(all: seq<Record>): seq<Record> {
    if all == [] then []
    else ChainedRows(all[..|all| - 1]) + if Chained(all[|all| - 1]) then [all[|all| - 1]] else []
  }

  class RunLog {
    const hash: Hasher
    var file: seq<Line>
    var all: seq<Record>
    var loaded: bool
    var tip: string

    ghost function Now(): State
      reads this
    {
      State(file, all, loaded, tip)
    }

    /** A process starts with nothing loaded, on the file an earlier one left. */
    constructor (hash: Hasher, file: seq<Line>)
      ensures this.hash == hash && Now() == State(file, [], false, GENESIS)
    {
      this.hash := hash;
      this.file := file;
      all, loaded, tip := [], false, GENESIS;
    }

    method LoadFileOnce()
      modifies this
      ensures Now() == Load(old(Now()))
    {
      if loaded {
        return;
      }
      var last := GENESIS;
      all := [];
      for i := 0 to |file|
        invariant file == old(file)
        invariant all == LoadedRows(file[..i]) && last == LoadedTip(file[..i])
      {
        assert file[..i + 1][..i] == file[..i];
        if file[i].Row? && Get(file[i].rec, "agent") != "" {
          all := all + [file[i].rec];
          if Chained(file[i].rec) {
            last := Get(file[i].rec, "record_hash");
          }
        }
      }
      assert file[..|file|] == file;
      tip, loaded := last, true;
    }

    /** `appendOk` is false when writing the line fails, which the code only logs. */
    method RecordRun(record: Record, appendOk: bool) returns (r: Result<Record>)
      modifies this
      ensures AgentOf(record) == "" ==> r.Err? && Now() == old(Now())
      ensures AgentOf(record) != "" ==>
                && Now() == AfterRecord(hash, old(Now()), record, appendOk)
                && r == Ok(Now().all[|Now().all| - 1])
    {
      if AgentOf(record) == "" {
        return Err("record_run requires a non-empty 'agent' key");
      }
      var rec := record["agent" := AgentOf(record)];
      LoadFileOnce();
      var prevHash := tip;
      var recordHash := hash(prevHash, rec);
      rec := rec["prev_hash" := prevHash]["record_hash" := recordHash];
      tip := recordHash;
      all := all + [rec];
      if appendOk {
        file := file + [Row(rec)];
      }
      r := Ok(rec);
    }

    method UpsertRun(record: Record) returns (r: Result<Record>)
      modifies this
      ensures AgentOf(record) == "" ==> r.Err? && Now() == old(Now())
      ensures AgentOf(record) != "" ==>
                && Now() == AfterUpsert(old(Now()), record)
                && r == Ok(Upserted(Load(old(Now())).all, Named(record)))
    {
      if AgentOf(record) == "" {
        return Err("upsert_run requires a non-empty 'agent' key");
      }
      var rec := record["agent" := AgentOf(record)];
      var runId := Get(rec, "run_id");
      LoadFileOnce();
      if runId != "" {
        for i := 0 to |all|
          invariant all == Load(old(Now())).all && Now() == Load(old(Now()))
          invariant forall j :: 0 <= j < i ==> !(OfRun(all[j], runId) && !Chained(all[j]))
        {
          if OfRun(all[i], runId) && !Chained(all[i]) {
            assert i == StubIndex(all, runId);
            rec := all[i] + rec;
            all := all[i := rec];
            return Ok(rec);
          }
        }
      }
      all := all + [rec];
      r := Ok(rec);
    }

    method GetRunById(runId: string) returns (row: Option<Record>)
      modifies this
      ensures Now() == Load(old(Now())) && row == FindRun(all, runId)
    {
      LoadFileOnce();
      var i := |all|;
      assert all[..|all|] == all;
      while i > 0
        invariant 0 <= i <= |all| && FindRun(all, runId) == FindRun(all[..i], runId)
      {
        i := i - 1;
        assert all[..i + 1][..i] == all[..i];
        if OfRun(all[i], runId) {
          return Some(all[i]);
        }
      }
      row := None;
    }

    method VerifyChain() returns (ok: bool)
      ensures ok <==> Verified(hash, file)
    {
      var prev := GENESIS;
      for i := 0 to |file|
        invariant Verified(hash, file[..i]) && prev == Tip(file[..i])
      {
        assert file[..i + 1][..i] == file[..i];
        match file[i]
        case Blank =>
        case Garbage =>
          NeverMended(hash, file, i + 1);
          return false;
        case Row(row) =>
          var claimedPrev, claimedHash := Get(row, "prev_hash"), Get(row, "record_hash");
          var expected := hash(claimedPrev, Body(row));
          if claimedPrev != prev || claimedHash != expected {
            NeverMended(hash, file, i + 1);
            return false;
          }
          prev := claimedHash;
      }
      assert file[..|file|] == file;
      ok := true;
    }

    method ChainReport() returns (report: Report)
      modifies this
      ensures Now() == Load(old(Now()))
      ensures report == ReportOf(hash, old(Now()))
    {
      var verified := VerifyChain();
      LoadFileOnce();
      var chained := ChainedRows(all);
      var end := if tip == "" then GENESIS else tip;
      if chained != [] {
        end := Get(chained[|chained| - 1], "record_hash");
      }
      report := Report(verified, |chained|, end);
    }
  }

  /** A log stays broken once a prefix of it is. */
  lemma {:induction false} NeverMended(h: Hasher, lines: seq<Line>, n: nat)
    requires n <= |lines| && !Verified(h, lines[..n])
    ensures !Verified(h, lines)
  {
    if n < |lines| {
      var front := lines[..|lines| - 1];
      assert front[..n] == lines[..n];
      NeverMended(h, front, n);
    } else {
      assert lines[..n] == lines;
    }
  }

  // ---- tamper evidence ----

  /** Two records of the logs betray the hash: different content with the same hash, or a
      hash that reads as the start marker or as nothing. */
  ghost predicate Clash(h: Hasher, x: Record, y: Record) {
    var (p, q) := (Get(x, "prev_hash"), Get(y, "prev_hash"));
    || h(p, Body(x)) in {GENESIS, ""}
    || h(q, Body(y)) in {GENESIS, ""}
    || ((p, Body(x)) != (q, Body(y)) && h(p, Body(x)) == h(q, Body(y)))
  }

  ghost predicate HashBetrayed(h: Hasher, a: seq<Line>, b: seq<Line>) {
    exists x, y :: x in Rows(a) + Rows(b) && y in Rows(a) + Rows(b) && Clash(h, x, y)
  }

  lemma SameLinkSameRecord(h: Hasher, x: Record, y: Record, p: string, q: string)
    requires Linked(h, x, p) && Linked(h, y, q)
    requires Get(x, "record_hash") == Get(y, "record_hash")
    requires p != "" && q != ""
    ensures (x == y && p == q) || Clash(h, x, y)
  {
    if !Clash(h, x, y) {
      assert Body(x) == Body(y) && p == q;
      forall k ensures k in x <==> k in y {
        assert k !in SEAL_KEYS ==> (k in x <==> k in Body(x)) && (k in y <==> k in Body(y));
      }
      forall k | k in x ensures x[k] == y[k] {
        assert k !in SEAL_KEYS ==> x[k] == Body(x)[k] && y[k] == Body(y)[k];
      }
    }
  }

  lemma {:induction false} TipIsLastRow(h: Hasher, a: seq<Line>)
    requires Verified(h, a)
    ensures Rows(a) == [] ==> Tip(a) == GENESIS
    ensures Rows(a) != [] ==> Tip(a) == Get(Rows(a)[|Rows(a)| - 1], "record_hash")
    ensures Tip(a) in {"", GENESIS} && Rows(a) != [] ==> HashBetrayed(h, a, a)
  {
    if a != [] {
      var front := a[..|a| - 1];
      TipIsLastRow(h, front);
      match a[|a| - 1]
      case Row(r) =>
        if Tip(a) in {"", GENESIS} {
          assert r == Rows(a)[|Rows(a)| - 1] && Clash(h, r, r);
        }
      case Blank =>
        assert Rows(a) == Rows(front);
      case Garbage =>
    }
  }

  /** Tamper evidence without assuming anything of the hash: two logs that both verify and
      end in the same tip hold the same records in the same order, or two of their own
      records are a concrete collision. */
  lemma {:induction false} SameTipSameLog(h: Hasher, a: seq<Line>, b: seq<Line>)
    requires Verified(h, a) && Verified(h, b) && Tip(a) == Tip(b)
    ensures Rows(a) == Rows(b) || HashBetrayed(h, a, b)
    decreases |a| + |b|
  {
    if a != [] && !a[|a| - 1].Row? {
      assert Rows(a) == Rows(a[..|a| - 1]);
      SameTipSameLog(h, a[..|a| - 1], b);
    } else if b != [] && !b[|b| - 1].Row? {
      assert Rows(b) == Rows(b[..|b| - 1]);
      SameTipSameLog(h, a, b[..|b| - 1]);
    } else if a == [] || b == [] {
      EmptyAgainst(h, a, b);
    } else {
      LastRowsAgree(h, a, b);
      if !HashBetrayed(h, a, b) {
        SameTipSameLog(h, a[..|a| - 1], b[..|b| - 1]);
        BetrayalGrows(h, a[..|a| - 1], b[..|b| - 1], a, b);
      }
    }
  }

  lemma EmptyAgainst(h: Hasher, a: seq<Line>, b: seq<Line>)
    requires Verified(h, a) && Verified(h, b) && Tip(a) == Tip(b)
    requires a == [] || b == []
    ensures Rows(a) == Rows(b) || HashBetrayed(h, a, b)
  {
    TipIsLastRow(h, a);
    TipIsLastRow(h, b);
    if Rows(a) != [] {
      BetrayalGrows(h, a, a, a, b);
    } else if Rows(b) != [] {
      BetrayalGrows(h, b, b, a, b);
    }
  }

  lemma LastRowsAgree(h: Hasher, a: seq<Line>, b: seq<Line>)
    requires Verified(h, a) && Verified(h, b) && Tip(a) == Tip(b)
    requires a != [] && b != [] && a[|a| - 1].Row? && b[|b| - 1].Row?
    ensures (a[|a| - 1] == b[|b| - 1] && Tip(a[..|a| - 1]) == Tip(b[..|b| - 1])) || HashBetrayed(h, a, b)
  {
    var (f, g) := (a[..|a| - 1], b[..|b| - 1]);
    var (x, y) := (a[|a| - 1].rec, b[|b| - 1].rec);
    assert x == Rows(a)[|Rows(a)| - 1] && y == Rows(b)[|Rows(b)| - 1];
    TipIsLastRow(h, f);
    TipIsLastRow(h, g);
    if Tip(f) == "" {
      BetrayalGrows(h, f, f, a, b);
    } else if Tip(g) == "" {
      BetrayalGrows(h, g, g, a, b);
    } else {
      SameLinkSameRecord(h, x, y, Tip(f), Tip(g));
      if Clash(h, x, y) {
        assert x in Rows(a) + Rows(b) && y in Rows(a) + Rows(b);
      }
    }
  }

  lemma BetrayalGrows(h: Hasher, a: seq<Line>, b: seq<Line>, a': seq<Line>, b': seq<Line>)
    requires forall r :: r in Rows(a) + Rows(b) ==> r in Rows(a') + Rows(b')
    ensures HashBetrayed(h, a, b) ==> HashBetrayed(h, a', b')
  {
  }

  /** What the design expects of SHA-256. */
  ghost predicate CollisionFree(h: Hasher) {
    && (forall p, x, q, y :: h(p, x) == h(q, y) ==> p == q && x == y)
    && (forall p, x :: h(p, x) !in {GENESIS, ""})
  }

  /** Against a known tip, any edit, insertion, deletion or reordering of records shows:
      the altered log fails verification or ends in a different tip. */
  lemma TamperingShows(h: Hasher, log: seq<Line>, altered: seq<Line>)
    requires CollisionFree(h) && Verified(h, log)
    requires Rows(altered) != Rows(log)
    ensures !Verified(h, altered) || Tip(altered) != Tip(log)
  {
    if Verified(h, altered) && Tip(altered) == Tip(log) {
      SameTipSameLog(h, log, altered);
    }
  }

  /** Without the tip nothing shows that the end of a log was cut off. */
  lemma {:induction false} TruncationVerifies(h: Hasher, log: seq<Line>, n: nat)
    requires Verified(h, log) && n <= |log|
    ensures Verified(h, log[..n])
  {
    if n < |log| {
      var front := log[..|log| - 1];
      TruncationVerifies(h, front, n);
      assert front[..n] == log[..n];
    } else {
      assert log[..n] == log;
    }
  }
}
