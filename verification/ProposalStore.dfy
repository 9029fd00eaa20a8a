/** The durable store of action proposals (src/masova_agent/runtime/proposal_store.py) with
    its expiry job (src/masova_agent/runtime/proposal_expiry.py).

    The store is a memory map in front of an append-only log whose last line for an id
    wins; the map is filled lazily. An append may fail, which the code only logs; the two
    then differ. The order in which a map lists its cards is left open, so every result
    holds for any order. */
module ProposalStore {
  import opened Outcomes

  datatype Status = PENDING | APPROVED | REJECTED | EXPIRED | SUPERSEDED

  /** A creation time: its rank among the texts the code sorts by, and the instant it
      parses to, if it does. */
  datatype Stamp = Stamp(order: int, instant: Option<int>)

  /** `content` stands for the fields nothing here looks at; `tagged` for the event key
      that resolve lines carry. */
  datatype Card = Card(id: string, store: string, agent: string, kind: string, status: Status,
                       created: Stamp, runId: string, payloadRunId: string, reviewId: string,
                       content: string, note: string, resolvedAt: string, tagged: bool)

  type View = map<string, Card>

  const SIDE_EFFECT_TYPES: set<string> := {"NOTIFY_MANAGERS"}
  const SNAPSHOT_AGENTS: set<string> :=
    {"inventory_reorder", "demand_forecast", "shift_optimisation", "kitchen_coach", "dynamic_pricing", "churn_prevention"}
  const REVIEW_AGENT := "review_response"

  predicate SideEffect(c: Card) {
    c.kind in SIDE_EFFECT_TYPES
  }

  function RunOf(c: Card): string {
    if c.runId != "" then c.runId else c.payloadRunId
  }

  function Untag(c: Card): Card {
    c.(tagged := false)
  }

  function Closed(c: Card, status: Status, note: string, now: string): Card {
    c.(status := status, note := note, resolvedAt := now)
  }

  // ---- the log and its meaning ----

  /** The last line of an id. */
  ghost function LastLine(log: seq<Card>, id: string): Option<Card> {
    if log == [] then None
    else if log[|log| - 1].id == id then Some(log[|log| - 1])
    else LastLine(log[..|log| - 1], id)
  }

  /** The cards a log stands for, event tags aside. */
  ghost function Fold(log: seq<Card>): View {
    if log == [] then map[]
    else Fold(log[..|log| - 1])[log[|log| - 1].id := Untag(log[|log| - 1])]
  }

  lemma {:induction false} FoldIsLastLine(log: seq<Card>, id: string)
    ensures id in Fold(log) <==> LastLine(log, id).Some?
    ensures id in Fold(log) ==> Fold(log)[id] == Untag(LastLine(log, id).value) && Fold(log)[id].id == id
  {
    if log != [] {
      FoldIsLastLine(log[..|log| - 1], id);
    }
  }

  lemma FoldAppend(log: seq<Card>, c: Card)
    ensures Fold(log + [c]) == Fold(log)[c.id := Untag(c)]
  {
    assert (log + [c])[..|log|] == log;
  }

  /** A memory map that answers as the log would; complete once the file was loaded. */
  ghost predicate CacheOf(byId: map<string, Card>, v: View, loaded: bool) {
    && (forall id :: id in byId ==> byId[id].id == id && id in v && Untag(byId[id]) == v[id])
    && (loaded ==> byId.Keys == v.Keys)
  }

  lemma CacheUpdate(byId: map<string, Card>, v: View, loaded: bool, c: Card)
    requires CacheOf(byId, v, loaded)
    ensures CacheOf(byId[c.id := c], v[c.id := Untag(c)], loaded)
  {
  }

  // ---- the process ----

  datatype Memory = Memory(byId: map<string, Card>, log: seq<Card>, loaded: bool)

  /** The last line of every id, as it stands. */
  ghost function Lines(log: seq<Card>): map<string, Card> {
    if log == [] then map[] else Lines(log[..|log| - 1])[log[|log| - 1].id := log[|log| - 1]]
  }

  /** Reading the file puts its last lines over what memory holds. */
  ghost function Loaded(m: Memory): Memory {
    if m.loaded then m else Memory(m.byId + Lines(m.log), m.log, true)
  }

  ghost function AfterGet(m: Memory, id: string): Memory {
    if id in m.byId then m else Loaded(m)
  }

  ghost function Lookup(m: Memory, id: string): Option<Card> {
    var m1 := AfterGet(m, id);
    if id in m1.byId then Some(m1.byId[id]) else None
  }

  ghost function AfterSave(m: Memory, card: Card, appendOk: bool): Memory {
    Memory(m.byId[card.id := Untag(card)], if appendOk then m.log + [Untag(card)] else m.log, m.loaded)
  }

  ghost function AfterResolve(m: Memory, id: string, status: Status, note: string, now: string, appendOk: bool): Memory {
    var m1 := AfterGet(m, id);
    if status == PENDING then m
    else if id !in m1.byId then m1
    else
      var rec := Closed(m1.byId[id], status, note, now);
      Memory(m1.byId[id := rec], if appendOk then m1.log + [rec.(tagged := true)] else m1.log, m1.loaded)
  }

  lemma {:induction false} LinesAreFold(log: seq<Card>)
    ensures Lines(log).Keys == Fold(log).Keys
    ensures forall id :: id in Lines(log) ==> Lines(log)[id].id == id && Untag(Lines(log)[id]) == Fold(log)[id]
  {
    if log != [] {
      LinesAreFold(log[..|log| - 1]);
    }
  }

  lemma LoadedIsCache(m: Memory)
    requires CacheOf(m.byId, Fold(m.log), m.loaded)
    ensures CacheOf(Loaded(m).byId, Fold(m.log), true)
  {
    LinesAreFold(m.log);
  }

  // ---- selections ----

  /** An empty store, agent or kind means no filter. */
  predicate Matches(c: Card, store: string, status: Option<Status>, agent: string, excludeSideEffects: bool) {
    && (store == "" || c.store == store)
    && (status == None || c.status == status.value)
    && (agent == "" || c.agent == agent)
    && (excludeSideEffects ==> !SideEffect(c))
  }

  ghost predicate NewestFirst(rows: seq<Card>) {
    forall i, j :: 0 <= i < j < |rows| ==> rows[i].created.order >= rows[j].created.order
  }

  ghost predicate DistinctIds(rows: seq<Card>) {
    forall i, j :: 0 <= i < j < |rows| ==> rows[i].id != rows[j].id
  }

  ghost predicate CopiesOf(rows: seq<Card>, v: View) {
    forall i :: 0 <= i < |rows| ==> rows[i].id in v && Untag(rows[i]) == v[rows[i].id]
  }

  function IdSet(rows: seq<Card>): set<string> {
    set i | 0 <= i < |rows| :: rows[i].id
  }

  lemma IdSetAppend(rows: seq<Card>, i: nat)
    requires i < |rows|
    ensures IdSet(rows[..i + 1]) == IdSet(rows[..i]) + {rows[i].id}
    ensures DistinctIds(rows) ==> rows[i].id !in IdSet(rows[..i])
  {
    assert rows[..i + 1][i] == rows[i];
    assert forall j :: 0 <= j < i ==> rows[..i][j] == rows[j] && rows[..i + 1][j] == rows[j];
  }

  /** `rows` lists exactly the cards `ids` of the view, newest first. */
  ghost predicate Lists(rows: seq<Card>, v: View, ids: set<string>) {
    NewestFirst(rows) && DistinctIds(rows) && CopiesOf(rows, v) && IdSet(rows) == ids
  }

  ghost function Selected(v: View, store: string, status: Option<Status>, agent: string, excludeSideEffects: bool): set<string> {
    set id | id in v && Matches(v[id], store, status, agent, excludeSideEffects)
  }

  /** The view with some cards closed. */
  ghost function CloseAll(v: View, ids: set<string>, status: Status, note: string, now: string): View {
    map id | id in v :: if id in ids then Closed(v[id], status, note, now) else v[id]
  }

  // ---- what a newer run replaces ----

  /** A pending card that a run of this store and agent closes. */
  predicate Stale(c: Card, store: string, agent: string, keepIds: set<string>, keepRun: string, reviewId: string) {
    && Matches(c, store, Some(PENDING), agent, false)
    && c.id !in keepIds
    && !(keepRun != "" && RunOf(c) == keepRun)
    && (if agent == REVIEW_AGENT then c.reviewId == reviewId else agent in SNAPSHOT_AGENTS)
  }

  ghost function StaleIds(v: View, store: string, agent: string, keepIds: set<string>, keepRun: string, reviewId: string): set<string> {
    set id | id in v && Stale(v[id], store, agent, keepIds, keepRun, reviewId)
  }

  // ---- the fleet-wide sweep ----

  type Group = (string, string, string)

  function GroupOf(c: Card): Group {
    if c.agent == REVIEW_AGENT then (c.store, c.agent, if c.reviewId != "" then c.reviewId else c.id)
    else (c.store, c.agent, "")
  }

  predicate Decision(c: Card) {
    c.status == PENDING && !SideEffect(c)
  }

  /** `newest` names one of the newest open cards of every group. */
  ghost predicate NewestOf(v: View, newest: map<Group, string>) {
    && (forall id :: id in v && Decision(v[id]) ==> GroupOf(v[id]) in newest)
    && (forall g :: g in newest ==> newest[g] in v && Decision(v[newest[g]]) && GroupOf(v[newest[g]]) == g)
    && (forall id :: id in v && Decision(v[id]) && GroupOf(v[id]) in newest && newest[GroupOf(v[id])] in v ==>
          v[id].created.order <= v[newest[GroupOf(v[id])]].created.order)
  }

  /** A card stays with the newest of its group if it is of the same run, or is that card. */
  predicate KeptWith(c: Card, n: Card) {
    if RunOf(n) != "" then RunOf(c) == RunOf(n) else c.id == n.id
  }

  ghost function NotifyIds(v: View): set<string> {
    set id | id in v && v[id].status == PENDING && SideEffect(v[id])
  }

  ghost function OutdatedIds(v: View, newest: map<Group, string>): set<string>
    requires NewestOf(v, newest)
  {
    set id | id in v && Decision(v[id]) && !KeptWith(v[id], v[newest[GroupOf(v[id])]])
  }

  const NOTIFY_NOTE := "Notification is not a manager decision card"
  const SWEEP_NOTE := "Superseded by a newer agent run for this store"

  ghost function Swept(v: View, newest: map<Group, string>, now: string): View
    requires NewestOf(v, newest)
  {
    CloseAll(CloseAll(v, NotifyIds(v), SUPERSEDED, NOTIFY_NOTE, now), OutdatedIds(v, newest), SUPERSEDED, SWEEP_NOTE, now)
  }

  // ---- expiry ----

  ghost function OverdueIds(v: View, cutoff: int): set<string> {
    set id | id in v && v[id].status == PENDING && Overdue(v[id], cutoff)
  }

  predicate Overdue(c: Card, cutoff: int) {
    c.created.instant.Some? && c.created.instant.value <= cutoff
  }

  class Store {
    var byId: map<string, Card>
    var log: seq<Card>
    var loaded: bool

    ghost function View(): View
      reads this
    {
      Fold(log)
    }

    ghost function Now(): Memory
      reads this
    {
      Memory(byId, log, loaded)
    }

    /** The memory map is a cache of the log, complete once the file was loaded. */
    ghost predicate Valid()
      reads this
    {
      CacheOf(byId, View(), loaded)
    }

    /** A process starts cold on the log an earlier one left. */
    constructor (log: seq<Card>)
      ensures Valid() && this.log == log && !loaded && byId == map[]
    {
      this.log := log;
      byId, loaded := map[], false;
    }

    method LoadFileOnce()
      modifies this
      ensures Now() == Loaded(old(Now()))
      ensures old(Valid()) ==> Valid()
    {
      if loaded {
        return;
      }
      ghost var cached := byId;
      for i := 0 to |log|
        invariant log == old(log) && !loaded && byId == cached + Lines(log[..i])
      {
        assert log[..i + 1][..i] == log[..i];
        byId := byId[log[i].id := log[i]];
      }
      assert log[..|log|] == log;
      loaded := true;
      if old(Valid()) {
        LoadedIsCache(old(Now()));
      }
    }

    /** `appendOk` is false when writing the line fails. */
    method SaveProposal(card: Card, appendOk: bool) returns (rec: Card)
      modifies this
      ensures rec == Untag(card) && Now() == AfterSave(old(Now()), card, appendOk)
      ensures old(Valid()) && appendOk ==> Valid() && View() == old(View())[card.id := Untag(card)]
    {
      rec := Untag(card);
      FoldAppend(log, rec);
      if old(Valid()) {
        CacheUpdate(byId, View(), loaded, rec);
      }
      byId := byId[rec.id := rec];
      if appendOk {
        log := log + [rec];
      }
    }

    /** The lookup answers from memory if it can and loads the file only if it must. */
    method GetProposal(id: string) returns (hit: Option<Card>)
      modifies this
      ensures Now() == AfterGet(old(Now()), id) && hit == Lookup(old(Now()), id)
      ensures old(Valid()) ==>
                && Valid() && log == old(log) && (hit.Some? <==> LastLine(log, id).Some?)
                && (hit.Some? ==> Untag(hit.value) == Untag(LastLine(log, id).value) && hit.value.id == id)
    {
      FoldIsLastLine(log, id);
      if id in byId {
        return Some(byId[id]);
      }
      LoadFileOnce();
      hit := if id in byId then Some(byId[id]) else None;
    }

    /** Closes a card whatever its present status; there is no check that it is pending. */
    method ResolveProposal(id: string, status: Status, note: string, now: string, appendOk: bool)
      returns (r: Result<Option<Card>>)
      modifies this
      ensures Now() == AfterResolve(old(Now()), id, status, note, now, appendOk)
      ensures status == PENDING ==> r.Err?
      ensures status != PENDING ==> r == Ok(match Lookup(old(Now()), id)
                                            case None => None
                                            case Some(c) => Some(Closed(c, status, note, now)))
      ensures old(Valid()) && status == PENDING ==> Valid() && log == old(log)
      ensures old(Valid()) && status != PENDING && id !in old(View()) ==> Valid() && r == Ok(None) && log == old(log)
      ensures old(Valid()) && status != PENDING && id in old(View()) ==>
                && r.Ok? && r.value.Some? && Untag(r.value.value) == Closed(old(View())[id], status, note, now)
                && (appendOk ==> Valid() && View() == old(View())[id := Closed(old(View())[id], status, note, now)]
                                 && log == old(log) + [r.value.value.(tagged := true)])
    {
      if status == PENDING {
        return Err("status must be APPROVED, REJECTED, EXPIRED, or SUPERSEDED");
      }
      FoldIsLastLine(log, id);
      var hit := GetProposal(id);
      if hit == None {
        return Ok(None);
      }
      var rec := Closed(hit.value, status, note, now);
      if old(Valid()) {
        FoldAppend(log, rec.(tagged := true));
        CacheUpdate(byId, View(), loaded, rec);
      }
      byId := byId[id := rec];
      if appendOk {
        log := log + [rec.(tagged := true)];
      }
      r := Ok(Some(rec));
    }

    method FilteredRows(store: string, status: Option<Status>, agent: string, excludeSideEffects: bool) returns (rows: seq<Card>)
      requires Valid()
      modifies this
      ensures Valid() && log == old(log)
      ensures Lists(rows, View(), Selected(View(), store, status, agent, excludeSideEffects))
    {
      LoadFileOnce();
      rows := [];
      var todo := byId.Keys;
      ghost var v, wanted := View(), Selected(View(), store, status, agent, excludeSideEffects);
      assert wanted - todo == {} && IdSet(rows) == {};
      while todo != {}
        invariant Valid() && log == old(log) && View() == v
        invariant todo <= byId.Keys && Lists(rows, v, wanted - todo)
        decreases todo
      {
        var id :| id in todo;
        CachedTest(byId, v, loaded, id, store, status, agent, excludeSideEffects);
        OneLessToDo(wanted, todo, id);
        if Matches(byId[id], store, status, agent, excludeSideEffects) {
          rows := InsertNewestFirst(rows, byId[id], v, wanted - todo);
        }
        todo := todo - {id};
      }
      assert wanted - todo == wanted;
    }

    /** Closes one more card of a batch. */
    method CloseNext(id: string, status: Status, note: string, now: string, ghost v: View, ghost ids: set<string>)
      requires Valid() && View() == CloseAll(v, ids, status, note, now)
      requires status != PENDING && id in v && id !in ids
      modifies this
      ensures Valid() && View() == CloseAll(v, ids + {id}, status, note, now)
    {
      CloseOneMore(v, ids, id, status, note, now);
      var _ := ResolveProposal(id, status, note, now, true);
    }

    method SupersedeStalePending(store: string, agent: string, keepIds: set<string>, keepRun: string,
                                 reviewId: string, note: string, now: string) returns (closed: nat)
      requires Valid()
      modifies this
      ensures Valid()
      ensures var ids := StaleIds(old(View()), store, agent, keepIds, keepRun, reviewId);
              && closed == |ids|
              && View() == CloseAll(old(View()), ids, SUPERSEDED, SupersedeReason(note, keepRun), now)
    {
      ghost var v := View();
      var pending := FilteredRows(store, Some(PENDING), agent, false);
      ghost var stale := StaleIds(v, store, agent, keepIds, keepRun, reviewId);
      var reason := SupersedeReason(note, keepRun);
      ghost var ids: set<string> := {};
      closed := 0;
      CloseNone(v, SUPERSEDED, reason, now);
      for i := 0 to |pending|
        invariant Valid() && View() == CloseAll(v, ids, SUPERSEDED, reason, now)
        invariant closed == |ids| && Done(pending, i, stale, ids)
      {
        DoneStep(pending, i, stale, ids);
        RowIsCopy(pending, v, i);
        var replaced := Replaced(pending[i], store, agent, keepIds, keepRun, reviewId);
        if replaced {
          CloseNext(pending[i].id, SUPERSEDED, reason, now, v, ids);
          ids := ids + {pending[i].id};
          closed := closed + 1;
        }
      }
      AllDone(pending, stale, ids);
    }

    /** The tests one pending card of a store and agent goes through before it is closed. */
    method Replaced(rec: Card, store: string, agent: string, keepIds: set<string>, keepRun: string, reviewId: string)
      returns (close: bool)
      requires Matches(rec, store, Some(PENDING), agent, false)
      ensures close <==> Stale(Untag(rec), store, agent, keepIds, keepRun, reviewId)
    {
      if rec.id in keepIds {
        return false;
      }
      if keepRun != "" && RunOf(rec) == keepRun {
        return false;
      }
      if agent == REVIEW_AGENT {
        if reviewId != "" {
          if rec.reviewId != reviewId {
            return false;
          }
        } else if rec.reviewId != "" {
          return false;
        }
      } else if agent !in SNAPSHOT_AGENTS {
        return false;
      }
      return true;
    }

    method SweepExpired(cutoff: int, note: string, now: string) returns (expired: nat)
      requires Valid()
      modifies this
      ensures Valid()
      ensures expired == |OverdueIds(old(View()), cutoff)|
      ensures View() == CloseAll(old(View()), OverdueIds(old(View()), cutoff), EXPIRED, note, now)
    {
      ghost var v := View();
      var pending := FilteredRows("", Some(PENDING), "", false);
      ghost var overdue := OverdueIds(v, cutoff);
      ghost var ids: set<string> := {};
      expired := 0;
      CloseNone(v, EXPIRED, note, now);
      for i := 0 to |pending|
        invariant Valid() && View() == CloseAll(v, ids, EXPIRED, note, now)
        invariant expired == |ids| && Done(pending, i, overdue, ids)
      {
        DoneStep(pending, i, overdue, ids);
        RowIsCopy(pending, v, i);
        var rec := pending[i];
        assert rec.id in overdue <==> Overdue(rec, cutoff);
        if rec.created.instant.Some? && rec.created.instant.value <= cutoff {
          CloseNext(rec.id, EXPIRED, note, now, v, ids);
          ids := ids + {rec.id};
          expired := expired + 1;
        }
      }
      AllDone(pending, overdue, ids);
    }

    /** Closes the cards of one group that are not kept. */
    method CloseRest(recs: seq<Card>, keepIds: set<string>, now: string) returns (closed: nat)
      requires Valid() && DistinctIds(recs) && IdSet(recs) <= View().Keys
      modifies this
      ensures Valid() && View() == CloseAll(old(View()), IdSet(recs) - keepIds, SUPERSEDED, SWEEP_NOTE, now)
      ensures closed == |IdSet(recs) - keepIds|
    {
      ghost var v, ids, targets := View(), {}, IdSet(recs) - keepIds;
      closed := 0;
      CloseNone(v, SUPERSEDED, SWEEP_NOTE, now);
      for i := 0 to |recs|
        invariant Valid() && View() == CloseAll(v, ids, SUPERSEDED, SWEEP_NOTE, now)
        invariant closed == |ids| && Done(recs, i, targets, ids)
      {
        DoneStep(recs, i, targets, ids);
        if recs[i].id !in keepIds {
          CloseNext(recs[i].id, SUPERSEDED, SWEEP_NOTE, now, v, ids);
          ids := ids + {recs[i].id};
          closed := closed + 1;
        }
      }
      AllDone(recs, targets, ids);
    }

    /** Notifications are closed on sight; all other cards are sorted into their groups. */
    method CloseNotices(pending: seq<Card>, now: string) returns (notify: nat, groups: map<Group, seq<Card>>)
      requires Valid() && Lists(pending, View(), Selected(View(), "", Some(PENDING), "", false))
      modifies this
      ensures Valid() && View() == CloseAll(old(View()), NotifyIds(old(View())), SUPERSEDED, NOTIFY_NOTE, now)
      ensures notify == |NotifyIds(old(View()))| && groups == Grouped(pending, |pending|)
    {
      ghost var v, ids := View(), {};
      notify, groups := 0, map[];
      CloseNone(v, SUPERSEDED, NOTIFY_NOTE, now);
      for i := 0 to |pending|
        invariant Valid() && View() == CloseAll(v, ids, SUPERSEDED, NOTIFY_NOTE, now)
        invariant notify == |ids| && Done(pending, i, NotifyIds(v), ids)
        invariant groups == Grouped(pending, i)
      {
        NoticeStep(pending, v, i, ids);
        var closed;
        closed, groups := CloseOrGroup(pending[i], groups, now, v, ids);
        ids := if SideEffect(pending[i]) then ids + {pending[i].id} else ids;
        notify := notify + closed;
      }
      AllNoticed(pending, v, ids);
    }

    /** One card of the sweep's first pass; `ids` are those closed before. */
    method CloseOrGroup(rec: Card, groups: map<Group, seq<Card>>, now: string, ghost v: View, ghost ids: set<string>)
      returns (closed: nat, more: map<Group, seq<Card>>)
      requires Valid() && View() == CloseAll(v, ids, SUPERSEDED, NOTIFY_NOTE, now)
      requires rec.id in v && rec.id !in ids
      modifies this
      ensures Valid() && closed == (if SideEffect(rec) then 1 else 0)
      ensures View() == CloseAll(v, if SideEffect(rec) then ids + {rec.id} else ids, SUPERSEDED, NOTIFY_NOTE, now)
      ensures more == WithRow(groups, rec)
    {
      closed, more := 0, groups;
      if SideEffect(rec) {
        CloseNext(rec.id, SUPERSEDED, NOTIFY_NOTE, now, v, ids);
        closed := 1;
      } else {
        more := AddToGroup(groups, rec);
      }
    }

    method SweepStaleOpenQueue(now: string) returns (notify: nat, stale: nat, ghost newest: map<Group, string>)
      requires Valid()
      modifies this
      ensures Valid() && NewestOf(old(View()), newest)
      ensures View() == Swept(old(View()), newest, now)
      ensures notify == |NotifyIds(old(View()))| && stale == |OutdatedIds(old(View()), newest)|
    {
      ghost var v := View();
      var pending := FilteredRows("", Some(PENDING), "", false);
      var groups;
      notify, groups := CloseNotices(pending, now);
      newest := GroupsCover(pending, v);
      stale := CloseOutdated(groups, now, v, newest);
    }

    /** Every group keeps the run of its newest card, which heads the list of the group. */
    method CloseOutdated(groups: map<Group, seq<Card>>, now: string, ghost v: View, ghost newest: map<Group, string>)
      returns (stale: nat)
      requires Valid() && View().Keys == v.Keys
      requires NewestOf(v, newest) && groups.Keys == newest.Keys
      requires forall g :: g in groups ==> GroupListed(groups[g], v, g) && newest[g] == groups[g][0].id
      modifies this
      ensures Valid() && View() == CloseAll(old(View()), OutdatedIds(v, newest), SUPERSEDED, SWEEP_NOTE, now)
      ensures stale == |OutdatedIds(v, newest)|
    {
      var todo := groups.Keys;
      ghost var v1, ids := View(), {};
      stale := 0;
      CloseNone(v1, SUPERSEDED, SWEEP_NOTE, now);
      assert OutdatedOutside(v, newest, todo) == {};
      while todo != {}
        invariant todo <= groups.Keys && Valid() && View() == CloseAll(v1, ids, SUPERSEDED, SWEEP_NOTE, now)
        invariant ids == OutdatedOutside(v, newest, todo) && stale == |ids|
        decreases todo
      {
        var g :| g in todo;
        var recs := groups[g];
        var keepIds := KeepIds(recs);
        GroupOutdated(recs, v, newest, g, todo);
        var n := CloseRest(recs, keepIds, now);
        CloseMore(v1, ids, IdSet(recs) - keepIds, SUPERSEDED, SWEEP_NOTE, now);
        ids := ids + (IdSet(recs) - keepIds);
        stale := stale + n;
        todo := todo - {g};
      }
      assert ids == OutdatedIds(v, newest);
    }
  }

  /** The ids that stay open in a group: the run of the first card, or that card alone. */
  function KeepIds(recs: seq<Card>): set<string>
    requires recs != []
  {
    var latestRun := RunOf(recs[0]);
    if latestRun != "" then set i | 0 <= i < |recs| && RunOf(recs[i]) == latestRun :: recs[i].id
    else {recs[0].id}
  }

  lemma CloseTwice(v: View, a: set<string>, b: set<string>, status: Status, note: string, now: string)
    ensures CloseAll(CloseAll(v, a, status, note, now), b, status, note, now) == CloseAll(v, a + b, status, note, now)
  {
  }

  lemma CloseMore(v: View, a: set<string>, b: set<string>, status: Status, note: string, now: string)
    requires a !! b
    ensures CloseAll(CloseAll(v, a, status, note, now), b, status, note, now) == CloseAll(v, a + b, status, note, now)
    ensures |a + b| == |a| + |b|
  {
    CloseTwice(v, a, b, status, note, now);
    DisjointSize(a, b);
  }

  lemma DisjointSize(a: set<string>, b: set<string>)
    requires a !! b
    ensures |a + b| == |a| + |b|
  {
  }

  lemma NoticeStep(rows: seq<Card>, v: View, i: nat, ids: set<string>)
    requires i < |rows| && Lists(rows, v, Selected(v, "", Some(PENDING), "", false)) && Done(rows, i, NotifyIds(v), ids)
    ensures rows[i].id in v && rows[i].id !in ids
    ensures Done(rows, i + 1, NotifyIds(v), if SideEffect(rows[i]) then ids + {rows[i].id} else ids)
  {
    DoneStep(rows, i, NotifyIds(v), ids);
    assert rows[i].id in NotifyIds(v) <==> SideEffect(rows[i]);
  }

  lemma AllNoticed(rows: seq<Card>, v: View, ids: set<string>)
    requires Lists(rows, v, Selected(v, "", Some(PENDING), "", false)) && Done(rows, |rows|, NotifyIds(v), ids)
    ensures ids == NotifyIds(v)
  {
    AllDone(rows, NotifyIds(v), ids);
  }

  lemma OneLessToDo(wanted: set<string>, todo: set<string>, id: string)
    requires id in todo
    ensures wanted - (todo - {id}) == if id in wanted then wanted - todo + {id} else wanted - todo
  {
  }

  lemma CachedTest(byId: map<string, Card>, v: View, loaded: bool, id: string,
                   store: string, status: Option<Status>, agent: string, excludeSideEffects: bool)
    requires CacheOf(byId, v, loaded) && id in byId
    ensures id in v && Untag(byId[id]) == v[id] && byId[id].id == id
    ensures id in Selected(v, store, status, agent, excludeSideEffects)
            <==> Matches(byId[id], store, status, agent, excludeSideEffects)
  {
  }

  /** Of the first `i` rows exactly the targets `ids` were dealt with. */
  ghost predicate Done(rows: seq<Card>, i: nat, targets: set<string>, ids: set<string>) {
    i <= |rows| && ids == IdSet(rows[..i]) * targets
  }

  lemma DoneStep(rows: seq<Card>, i: nat, targets: set<string>, ids: set<string>)
    requires i < |rows| && DistinctIds(rows) && Done(rows, i, targets, ids)
    ensures rows[i].id in IdSet(rows) && rows[i].id !in ids
    ensures if rows[i].id in targets then Done(rows, i + 1, targets, ids + {rows[i].id}) else Done(rows, i + 1, targets, ids)
  {
    IdSetAppend(rows, i);
  }

  lemma RowIsCopy(rows: seq<Card>, v: View, i: nat)
    requires i < |rows| && CopiesOf(rows, v)
    ensures rows[i].id in v && v[rows[i].id] == Untag(rows[i])
  {
  }

  lemma AllDone(rows: seq<Card>, targets: set<string>, ids: set<string>)
    requires Done(rows, |rows|, targets, ids) && targets <= IdSet(rows)
    ensures ids == targets
  {
    assert rows[..|rows|] == rows;
  }

  lemma CloseNone(v: View, status: Status, note: string, now: string)
    ensures CloseAll(v, {}, status, note, now) == v
  {
  }

  lemma CloseOneMore(v: View, ids: set<string>, id: string, status: Status, note: string, now: string)
    requires id in v && id !in ids
    ensures CloseAll(v, ids, status, note, now)[id := Closed(v[id], status, note, now)] == CloseAll(v, ids + {id}, status, note, now)
    ensures CloseAll(v, ids, status, note, now)[id] == v[id]
  {
  }

  function SupersedeReason(note: string, keepRun: string): string {
    if note != "" then note
    else if keepRun != "" then "Superseded by run " + keepRun
    else "Superseded by a newer agent run"
  }

  /** Puts a card behind all that are at least as new. */
  method InsertNewestFirst(rows: seq<Card>, c: Card, ghost v: View, ghost ids: set<string>) returns (out: seq<Card>)
    requires Lists(rows, v, ids)
    requires c.id in v && Untag(c) == v[c.id] && c.id !in ids
    ensures Lists(out, v, ids + {c.id})
  {
    var p := 0;
    while p < |rows| && rows[p].created.order >= c.created.order
      invariant 0 <= p <= |rows|
      invariant forall i :: 0 <= i < p ==> rows[i].created.order >= c.created.order
    {
      p := p + 1;
    }
    out := rows[..p] + [c] + rows[p..];
    InsertedAt(rows, c, p, v);
    InsertedIds(rows, c, p);
  }

  lemma InsertedAt(rows: seq<Card>, c: Card, p: nat, v: View)
    requires p <= |rows| && NewestFirst(rows) && DistinctIds(rows) && CopiesOf(rows, v)
    requires c.id in v && Untag(c) == v[c.id] && c.id !in IdSet(rows)
    requires forall i :: 0 <= i < p ==> rows[i].created.order >= c.created.order
    requires p < |rows| ==> rows[p].created.order < c.created.order
    ensures var out := rows[..p] + [c] + rows[p..];
            NewestFirst(out) && DistinctIds(out) && CopiesOf(out, v)
  {
    var out := rows[..p] + [c] + rows[p..];
    forall i, j | 0 <= i < j < |out|
      ensures out[i].created.order >= out[j].created.order && out[i].id != out[j].id
    {
      var i', j' := if i < p then i else i - 1, if j < p then j else j - 1;
      assert i != p ==> out[i] == rows[i'] && out[i].id in IdSet(rows);
      assert j != p ==> out[j] == rows[j'] && out[j].id in IdSet(rows);
    }
    forall i | 0 <= i < |out| ensures out[i].id in v && Untag(out[i]) == v[out[i].id] {
      assert i != p ==> out[i] == rows[if i < p then i else i - 1];
    }
  }

  lemma InsertedIds(rows: seq<Card>, c: Card, p: nat)
    requires p <= |rows|
    ensures IdSet(rows[..p] + [c] + rows[p..]) == IdSet(rows) + {c.id}
  {
    var out := rows[..p] + [c] + rows[p..];
    forall id | id in IdSet(rows) ensures id in IdSet(out) {
      var i :| 0 <= i < |rows| && rows[i].id == id;
      assert out[if i < p then i else i + 1] == rows[i];
    }
    assert out[p] == c;
    forall id | id in IdSet(out) ensures id in IdSet(rows) + {c.id} {
      var i :| 0 <= i < |out| && out[i].id == id;
      assert i == p || out[i] == rows[if i < p then i else i - 1];
    }
  }

  // ---- grouping ----

  /** The lists of the groups after the first `i` rows. */
  ghost function Grouped(rows: seq<Card>, i: nat): map<Group, seq<Card>>
    requires i <= |rows|
  {
    if i == 0 then map[]
    else
      WithRow(Grouped(rows, i - 1), rows[i - 1])
  }

  function WithRow(groups: map<Group, seq<Card>>, rec: Card): map<Group, seq<Card>> {
    if SideEffect(rec) then groups else AddToGroup(groups, rec)
  }

  function AddToGroup(groups: map<Group, seq<Card>>, rec: Card): map<Group, seq<Card>> {
    groups[GroupOf(rec) := (if GroupOf(rec) in groups then groups[GroupOf(rec)] else []) + [rec]]
  }

  ghost function GroupIds(v: View, g: Group): set<string> {
    set id | id in v && Decision(v[id]) && GroupOf(v[id]) == g
  }

  /** `recs` lists the open cards of group `g`, newest first. */
  ghost predicate GroupListed(recs: seq<Card>, v: View, g: Group) {
    recs != [] && Lists(recs, v, GroupIds(v, g))
  }

  /** The list of a group holds the rows of that group seen so far, in their order. */
  ghost predicate GroupUpTo(recs: seq<Card>, rows: seq<Card>, i: nat, g: Group)
    requires i <= |rows|
  {
    NewestFirst(recs) && DistinctIds(recs) && GroupMembers(recs, rows[..i], g)
  }

  ghost predicate GroupMembers(recs: seq<Card>, rows: seq<Card>, g: Group) {
    forall c :: c in recs <==> c in rows && !SideEffect(c) && GroupOf(c) == g
  }

  function ListOf(groups: map<Group, seq<Card>>, g: Group): seq<Card> {
    if g in groups then groups[g] else []
  }

  ghost predicate GroupSound(groups: map<Group, seq<Card>>, rows: seq<Card>, i: nat, g: Group)
    requires i <= |rows|
  {
    (g in groups ==> groups[g] != []) && GroupUpTo(ListOf(groups, g), rows, i, g)
  }

  lemma {:induction false} GroupedUpTo(rows: seq<Card>, i: nat, g: Group)
    requires i <= |rows| && NewestFirst(rows) && DistinctIds(rows)
    ensures GroupSound(Grouped(rows, i), rows, i, g)
  {
    if i == 0 {
      assert Grouped(rows, i) == map[];
    } else {
      GroupedUpTo(rows, i - 1, g);
      GroupStep(Grouped(rows, i - 1), rows, i - 1, g);
      assert Grouped(rows, i) == WithRow(Grouped(rows, i - 1), rows[i - 1]);
    }
  }

  lemma GroupStep(groups: map<Group, seq<Card>>, rows: seq<Card>, i: nat, g: Group)
    requires i < |rows| && NewestFirst(rows) && DistinctIds(rows) && GroupSound(groups, rows, i, g)
    ensures GroupSound(WithRow(groups, rows[i]), rows, i + 1, g)
  {
    var recs := ListOf(groups, g);
    GroupMembersGrow(recs, rows, i, g);
    if !SideEffect(rows[i]) && GroupOf(rows[i]) == g {
      AppendedToGroup(recs, rows, i);
    }
  }

  lemma GroupMembersGrow(recs: seq<Card>, rows: seq<Card>, i: nat, g: Group)
    requires i < |rows| && GroupMembers(recs, rows[..i], g)
    ensures GroupMembers(if !SideEffect(rows[i]) && GroupOf(rows[i]) == g then recs + [rows[i]] else recs, rows[..i + 1], g)
  {
    assert rows[..i + 1] == rows[..i] + [rows[i]];
  }

  lemma AppendedToGroup(recs: seq<Card>, rows: seq<Card>, i: nat)
    requires i < |rows| && NewestFirst(rows) && DistinctIds(rows)
    requires NewestFirst(recs) && DistinctIds(recs) && (forall c :: c in recs ==> c in rows[..i])
    ensures NewestFirst(recs + [rows[i]]) && DistinctIds(recs + [rows[i]])
  {
    forall k | 0 <= k < |recs| ensures recs[k].created.order >= rows[i].created.order && recs[k].id != rows[i].id {
      assert recs[k] in rows[..i];
    }
  }

  lemma GroupedLists(rows: seq<Card>, v: View, g: Group)
    requires Lists(rows, v, Selected(v, "", Some(PENDING), "", false)) && g in Grouped(rows, |rows|)
    ensures GroupListed(Grouped(rows, |rows|)[g], v, g)
  {
    GroupedUpTo(rows, |rows|, g);
    assert rows[..|rows|] == rows;
    var recs := Grouped(rows, |rows|)[g];
    GroupIsSound(rows, recs, v, g);
    GroupIsComplete(rows, recs, v, g);
  }

  lemma GroupIsSound(rows: seq<Card>, recs: seq<Card>, v: View, g: Group)
    requires Lists(rows, v, Selected(v, "", Some(PENDING), "", false)) && GroupMembers(recs, rows, g)
    ensures CopiesOf(recs, v) && IdSet(recs) <= GroupIds(v, g)
  {
    forall k | 0 <= k < |recs| ensures recs[k].id in GroupIds(v, g) && v[recs[k].id] == Untag(recs[k]) {
      assert recs[k] in recs;
      RowCard(rows, v, recs[k]);
    }
  }

  lemma GroupIsComplete(rows: seq<Card>, recs: seq<Card>, v: View, g: Group)
    requires Lists(rows, v, Selected(v, "", Some(PENDING), "", false))
    requires GroupMembers(recs, rows, g)
    ensures GroupIds(v, g) <= IdSet(recs)
  {
    forall id | id in GroupIds(v, g) ensures id in IdSet(recs) {
      assert id in IdSet(rows);
      var k :| 0 <= k < |rows| && rows[k].id == id;
      assert rows[k] in rows && rows[k] in recs;
    }
  }

  lemma RowCard(rows: seq<Card>, v: View, c: Card)
    requires Lists(rows, v, Selected(v, "", Some(PENDING), "", false)) && c in rows
    ensures c.id in v && Untag(c) == v[c.id] && c.status == PENDING
  {
    var k :| 0 <= k < |rows| && rows[k] == c;
    assert c.id in IdSet(rows);
  }

  /** The heads of the group lists are newest cards of their groups. */
  lemma GroupsCover(rows: seq<Card>, v: View) returns (newest: map<Group, string>)
    requires Lists(rows, v, Selected(v, "", Some(PENDING), "", false))
    ensures var groups := Grouped(rows, |rows|);
            && groups.Keys == newest.Keys
            && (forall g :: g in groups ==> GroupListed(groups[g], v, g) && newest[g] == groups[g][0].id)
    ensures NewestOf(v, newest)
  {
    var groups := Grouped(rows, |rows|);
    forall g | g in groups ensures GroupListed(groups[g], v, g) {
      GroupedLists(rows, v, g);
    }
    newest := map g | g in groups :: groups[g][0].id;
    forall id | id in v && Decision(v[id])
      ensures GroupOf(v[id]) in groups && v[id].created.order <= v[newest[GroupOf(v[id])]].created.order
    {
      OpenCardGrouped(rows, v, id);
      HeadIsNewest(groups[GroupOf(v[id])], v, GroupOf(v[id]), id);
    }
    forall g | g in newest ensures newest[g] in v && Decision(v[newest[g]]) && GroupOf(v[newest[g]]) == g {
      assert groups[g][0].id in IdSet(groups[g]);
    }
  }

  lemma OpenCardGrouped(rows: seq<Card>, v: View, id: string)
    requires Lists(rows, v, Selected(v, "", Some(PENDING), "", false))
    requires id in v && Decision(v[id])
    ensures GroupOf(v[id]) in Grouped(rows, |rows|)
  {
    assert id in IdSet(rows);
    var k :| 0 <= k < |rows| && rows[k].id == id;
    var g := GroupOf(v[id]);
    GroupedUpTo(rows, |rows|, g);
    RowIsCopy(rows, v, k);
    assert rows[..|rows|] == rows && rows[k] in rows;
    assert rows[k] in ListOf(Grouped(rows, |rows|), g);
  }

  lemma HeadIsNewest(recs: seq<Card>, v: View, g: Group, id: string)
    requires GroupListed(recs, v, g) && id in GroupIds(v, g)
    ensures recs[0].id in v && v[id].created.order <= v[recs[0].id].created.order
  {
    var k :| 0 <= k < |recs| && recs[k].id == id;
  }

  /** Outdated cards of the groups already dealt with. */
  ghost function OutdatedOutside(v: View, newest: map<Group, string>, todo: set<Group>): set<string>
    requires NewestOf(v, newest)
  {
    set id | id in OutdatedIds(v, newest) && GroupOf(v[id]) !in todo
  }

  lemma GroupOutdated(recs: seq<Card>, v: View, newest: map<Group, string>, g: Group, todo: set<Group>)
    requires NewestOf(v, newest) && g in todo && g in newest
    requires GroupListed(recs, v, g) && newest[g] == recs[0].id
    ensures DistinctIds(recs) && IdSet(recs) <= v.Keys
    ensures IdSet(recs) !! OutdatedOutside(v, newest, todo)
    ensures OutdatedOutside(v, newest, todo - {g}) == OutdatedOutside(v, newest, todo) + (IdSet(recs) - KeepIds(recs))
  {
    forall id | id in IdSet(recs) ensures id in KeepIds(recs) <==> KeptWith(v[id], v[newest[g]]) {
      KeepTest(recs, v, id);
    }
  }

  lemma KeepTest(recs: seq<Card>, v: View, id: string)
    requires recs != [] && DistinctIds(recs) && CopiesOf(recs, v) && id in IdSet(recs)
    ensures id in KeepIds(recs) <==> KeptWith(v[id], v[recs[0].id])
  {
    var k :| 0 <= k < |recs| && recs[k].id == id;
    assert v[id] == Untag(recs[k]) && v[recs[0].id] == Untag(recs[0]);
  }
}
