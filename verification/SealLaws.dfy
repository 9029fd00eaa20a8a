/** Sealing a roster twice: when it equals sealing it once, and what a sealed roster
    promises (src/masova_agent/core/ops_contract.py). */
module SealLaws {
  import opened Outcomes
  import opened Texts
  import opened ToolArgs
  import opened Sealing
  import opened Dedupe

  // ---- strings ----

  lemma {:induction false} StripLeftEnds(s: string)
    ensures StripLeft(s) == "" || !IsSpace(StripLeft(s)[0])
    ensures StripLeft(s) != "" && s != "" ==> StripLeft(s)[|StripLeft(s)| - 1] == s[|s| - 1]
  {
    if s != "" && IsSpace(s[0]) {
      StripLeftEnds(s[1..]);
    }
  }

  lemma {:induction false} StripRightEnds(s: string)
    ensures StripRight(s) == "" || !IsSpace(StripRight(s)[|StripRight(s)| - 1])
    ensures StripRight(s) != "" ==> s != "" && StripRight(s)[0] == s[0]
  {
    if s != "" && IsSpace(s[|s| - 1]) {
      StripRightEnds(s[..|s| - 1]);
    }
  }

  lemma BareIsStripped(s: string)
    requires s == "" || (!IsSpace(s[0]) && !IsSpace(s[|s| - 1]))
    ensures Strip(s) == s
  {
  }

  lemma StripTwice(s: string)
    ensures Strip(Strip(s)) == Strip(s)
  {
    StripLeftEnds(s);
    StripRightEnds(StripLeft(s));
    BareIsStripped(Strip(s));
  }

  lemma {:induction false} NoT(s: string)
    requires forall i :: 0 <= i < |s| ==> s[i] != 'T'
    ensures AfterT(s) == None
  {
    if s != "" {
      NoT(s[1..]);
    }
  }

  lemma {:induction false} NoDashes(s: string)
    requires forall i :: 0 <= i < |s| ==> s[i] != '-'
    ensures Dashes(s) == 0
  {
    if s != "" {
      NoDashes(s[..|s| - 1]);
    }
  }

  predicate Digit(c: char) {
    '0' <= c <= '9'
  }

  predicate StartsWithClock(s: string) {
    |s| >= 5 && Digit(s[0]) && Digit(s[1]) && s[2] == ':' && Digit(s[3]) && Digit(s[4])
  }

  /** HH:MM. */
  predicate Clock(h: string) {
    |h| == 5 && StartsWithClock(h)
  }

  /** A time text as forms and services send it: none, HH:MM and what follows it, or an ISO
      date-time. */
  predicate TimeText(text: string) {
    var s := Strip(text);
    s == "" || match AfterT(s) { case None => StartsWithClock(s) case Some(tail) => StartsWithClock(tail) }
  }

  lemma ClockIsSettled(h: string)
    requires Clock(h)
    ensures ClockOf(h) == h && Dashes(Head(h, 10)) == 0
  {
    assert forall i :: 0 <= i < 5 ==> h[i] == h[0] || h[i] == h[1] || h[i] == h[2] || h[i] == h[3] || h[i] == h[4];
    BareIsStripped(h);
    NoT(h);
    NoDashes(h);
  }

  lemma TimeTextGivesClock(text: string)
    requires TimeText(text)
    ensures ClockOf(text) == "" || Clock(ClockOf(text))
  {
  }

  // ---- times of a row ----

  lemma {:induction false} WindowsHaveClocks(slot: string, from: nat)
    requires from <= 5
    ensures var w := WindowIn(slot, from); w.Some? ==> Clock(w.value.start) && Clock(w.value.end)
    decreases 5 - from
  {
    if from < 5 {
      WindowsHaveClocks(slot, from + 1);
    }
  }

  lemma {:induction false} StartsHaveClocks(start: string, upTo: nat)
    requires upTo <= 5
    ensures var w := WindowAt(start, upTo); w.Some? ==> Clock(w.value.end) && w.value.title != ""
  {
    if upTo > 0 {
      StartsHaveClocks(start, upTo - 1);
    }
  }

  /** A time is the one given, else it is of the form HH:MM. */
  predicate Chosen(given: string, now: string) {
    now != "" && if given != "" then now == given else Clock(now)
  }

  lemma WindowChosen(g: Times, slot: string)
    ensures var t := FromWindow(g, slot);
            && (t.start == "" || Chosen(g.start, t.start)) && (t.end == "" || Chosen(g.end, t.end))
  {
    WindowsHaveClocks(slot, 0);
  }

  lemma DefaultsChosen(t: Times)
    ensures var u := WithDefaults(t);
            && Chosen(t.start, u.start) && Chosen(t.end, u.end) && u.title == t.title
  {
    StartsHaveClocks(t.start, 5);
  }

  /** Both times of a sealed row are present: the one given, or one of the form HH:MM. */
  lemma TimesOutcome(g: Times, slot: string)
    ensures var t := Labelled(WithDefaults(FromWindow(g, slot)));
            && Chosen(g.start, t.start) && Chosen(g.end, t.end)
            && (t.title == "" ==> WindowAt(t.start, 5) == None)
  {
    WindowChosen(g, slot);
    DefaultsChosen(FromWindow(g, slot));
    StartsHaveClocks(WithDefaults(FromWindow(g, slot)).start, 5);
  }

  /** Settled times and titles pass through unchanged. */
  lemma SettledTimesStay(t: Times, slot: string)
    requires t.start != "" && t.end != "" && (t.title == "" ==> WindowAt(t.start, 5) == None)
    ensures Labelled(WithDefaults(FromWindow(t, slot))) == t
  {
  }

  // ---- sealing a row twice ----

  /** What may be checked of a sealed row: its times read as themselves, and its start is
      not taken for a date where the row has none. */
  predicate Steady(reader: Reader, row: ShiftRow) {
    var start, end := Text(reader, row.startTime), Text(reader, row.endTime);
    ClockOf(start) == start && ClockOf(end) == end
    && (Text(reader, row.date) != "" || Dashes(Head(start, 10)) != 2)
  }

  /** A time as given, or none, reads as itself. */
  predicate Reads(time: string) {
    time == "" || ClockOf(time) == time
  }

  /** What may be checked of a row before it is sealed: the clock parts of its times read as
      themselves, and its start is not taken for a date where it has none. */
  predicate Rereads(reader: Reader, row: ShiftRow) {
    var g := GivenTimes(reader, row);
    Reads(g.start) && Reads(g.end) && (SealedDate(reader, row) != "" || Dashes(Head(g.start, 10)) != 2)
  }

  lemma TextStays(reader: Reader, s: string)
    requires PlainText(reader)
    ensures Text(reader, Str(s)) == s && TextOf(reader, Str(s)) == s
  {
  }

  /** Times are sealed twice as once exactly if they read as themselves. */
  lemma TimesTwice(reader: Reader, row: ShiftRow, n: ShiftRow)
    requires PlainText(reader)
    requires var t := SealedTimes(reader, row);
             n.startTime == Str(t.start) && n.endTime == Str(t.end) && n.slotName == Str(t.title)
    ensures var t := SealedTimes(reader, row);
            && t.start != "" && t.end != ""
            && (SealedTimes(reader, n) == t <==> ClockOf(t.start) == t.start && ClockOf(t.end) == t.end)
  {
    var t := SealedTimes(reader, row);
    TimesOutcome(GivenTimes(reader, row), SlotText(reader, row));
    TextStays(reader, t.start);
    TextStays(reader, t.end);
    TextStays(reader, t.title);
    var g := GivenTimes(reader, n);
    assert g == Times(ClockOf(t.start), ClockOf(t.end), t.title);
    if ClockOf(t.start) == t.start && ClockOf(t.end) == t.end {
      SettledTimesStay(t, SlotText(reader, n));
    } else {
      TimesOutcome(g, SlotText(reader, n));
      UnsettledIsNoClock(t.start);
      UnsettledIsNoClock(t.end);
    }
  }

  lemma UnsettledIsNoClock(h: string)
    ensures Clock(h) ==> ClockOf(h) == h
  {
    if Clock(h) {
      ClockIsSettled(h);
    }
  }

  lemma NameTwice(reader: Reader, row: ShiftRow, n: ShiftRow)
    requires PlainText(reader)
    requires n.name == n.staffName == Str(FirstName(reader, row)) && n.altStaffName == row.altStaffName
    ensures FirstName(reader, n) == FirstName(reader, row)
  {
    TextStays(reader, FirstName(reader, row));
    StripTwice(TextOf(reader, row.name));
    StripTwice(TextOf(reader, row.staffName));
    StripTwice(TextOf(reader, row.altStaffName));
    StaffIsName();
  }

  lemma StaffIsName()
    ensures Strip("Staff") == "Staff" && LowerCase("Staff") !in BLANK_NAMES
  {
    BareIsStripped("Staff");
    assert LowerCase("Staff")[0] == 's' && |LowerCase("Staff")| == 5;
  }

  lemma DateTwice(reader: Reader, row: ShiftRow, n: ShiftRow)
    requires PlainText(reader) && n.date == Str(SealedDate(reader, row)) && n.startAt == row.startAt
    requires n.startTime.Str? && n.startTime.text != ""
    ensures SealedDate(reader, n) == SealedDate(reader, row)
            <==> SealedDate(reader, row) != "" || Dashes(Head(n.startTime.text, 10)) != 2
  {
    TextStays(reader, SealedDate(reader, row));
    TextStays(reader, n.startTime.text);
  }

  lemma StoreTwice(reader: Reader, payloadStore: Json, row: ShiftRow, n: ShiftRow)
    requires PlainText(reader) && n.storeId == Or(row.storeId, Str(StoreFor(reader, payloadStore, row)))
    ensures Or(n.storeId, Str(StoreFor(reader, payloadStore, n))) == n.storeId
  {
    TextStays(reader, StoreFor(reader, payloadStore, row));
  }

  function Again(reader: Reader, payloadStore: Json, row: ShiftRow): ShiftRow {
    NormalizeRow(reader, row, StoreFor(reader, payloadStore, row))
  }

  /** A sealed row is steady exactly if the row given rereads. */
  lemma SteadyExactly(reader: Reader, payloadStore: Json, row: ShiftRow)
    requires PlainText(reader)
    ensures Steady(reader, Again(reader, payloadStore, row)) <==> Rereads(reader, row)
  {
    var g, t := GivenTimes(reader, row), SealedTimes(reader, row);
    TimesOutcome(g, SlotText(reader, row));
    TextStays(reader, t.start);
    TextStays(reader, t.end);
    TextStays(reader, SealedDate(reader, row));
    ChosenReads(g.start, t.start);
    ChosenReads(g.end, t.end);
    assert Dashes("") == 0;
  }

  lemma ChosenReads(given: string, now: string)
    requires Chosen(given, now)
    ensures ClockOf(now) == now <==> Reads(given)
    ensures given == "" ==> Dashes(Head(now, 10)) == 0
  {
    if given == "" {
      ClockIsSettled(now);
    }
  }

  lemma SealedAgain(reader: Reader, payloadStore: Json, row: ShiftRow)
    requires PlainText(reader)
    ensures var n := Again(reader, payloadStore, row); Again(reader, payloadStore, n) == n <==> Steady(reader, n)
  {
    var n := Again(reader, payloadStore, row);
    var t := SealedTimes(reader, row);
    TimesTwice(reader, row, n);
    NameTwice(reader, row, n);
    DateTwice(reader, row, n);
    StoreTwice(reader, payloadStore, row, n);
    TextStays(reader, t.start);
    TextStays(reader, t.end);
    TextStays(reader, SealedDate(reader, row));
  }

  /** A row is sealed twice as once exactly if it rereads. */
  lemma RowTwiceExactly(reader: Reader, payloadStore: Json, row: ShiftRow)
    requires PlainText(reader)
    ensures var n := Again(reader, payloadStore, row); Again(reader, payloadStore, n) == n <==> Rereads(reader, row)
  {
    SealedAgain(reader, payloadStore, row);
    SteadyExactly(reader, payloadStore, row);
  }

  // ---- sealing a roster ----

  lemma MapLast<A, B>(rows: seq<A>, f: A -> B, n: nat)
    requires |rows| == n + 1
    ensures MapObjects(Objects(rows), f) == MapObjects(Objects(rows[..n]), f) + [f(rows[n])]
  {
    assert Objects(rows)[..n] == Objects(rows[..n]);
    assert Objects(rows)[n] == Some(rows[n]);
  }

  lemma {:induction false} MapLength<A, B>(rows: seq<A>, f: A -> B)
    ensures |MapObjects(Objects(rows), f)| == |rows|
  {
    if rows != [] {
      MapLength(rows[..|rows| - 1], f);
      MapLast(rows, f, |rows| - 1);
    }
  }

  lemma {:induction false} MapAt<A, B>(rows: seq<A>, f: A -> B, i: nat)
    requires i < |rows| == |MapObjects(Objects(rows), f)|
    ensures MapObjects(Objects(rows), f)[i] == f(rows[i])
  {
    var n := |rows| - 1;
    MapLast(rows, f, n);
    if i < n {
      MapLength(rows[..n], f);
      MapAt(rows[..n], f, i);
    }
  }

  lemma {:induction false} MapOrigin<A, B>(items: seq<Option<A>>, f: A -> B, b: B)
    requires b in MapObjects(items, f)
    ensures exists a :: Some(a) in items && b == f(a)
  {
    var last := items[|items| - 1];
    if b in MapObjects(items[..|items| - 1], f) {
      MapOrigin(items[..|items| - 1], f, b);
    } else {
      assert Some(last.value) in items;
    }
  }

  /** Every row of a sealed roster is some item's row, sealed. */
  lemma SealedOrigin(reader: Reader, p: Payload, n: ShiftRow)
    requires n in SealedRows(reader, p)
    ensures exists row :: Some(row) in p.items && n == Again(reader, p.storeId, row)
  {
    Shrinks(NormalizedRows(reader, p), KeyBy(reader));
    MapOrigin(p.items, RowSealer(reader, p.storeId), n);
  }

  /** A sealed roster has no two rows with one date, person and start; each row has both
      times; and the count is the number of rows. */
  lemma SealedRosterIsSound(reader: Reader, p: Payload)
    requires PlainText(reader)
    ensures DistinctKeys(SealedRows(reader, p), KeyBy(reader))
    ensures forall n :: n in SealedRows(reader, p) ==> Text(reader, n.startTime) != "" && Text(reader, n.endTime) != ""
    ensures Sealed(reader, p).shiftCount == |Sealed(reader, p).items|
  {
    ResultDistinct(NormalizedRows(reader, p), KeyBy(reader));
    forall n | n in SealedRows(reader, p) ensures Text(reader, n.startTime) != "" && Text(reader, n.endTime) != "" {
      SealedOrigin(reader, p, n);
      var row :| Some(row) in p.items && n == Again(reader, p.storeId, row);
      TimesTwice(reader, row, n);
      TextStays(reader, n.startTime.text);
      TextStays(reader, n.endTime.text);
    }
  }

  /** Nothing is lost but repetitions: every item's key is the key of some kept row. */
  lemma EveryShiftKept(reader: Reader, p: Payload, k: Key)
    ensures HasKey(SealedRows(reader, p), KeyBy(reader), k)
            <==> HasKey(NormalizedRows(reader, p), KeyBy(reader), k)
  {
    KeepsEveryKey(NormalizedRows(reader, p), KeyBy(reader), k);
  }

  /** Object `i` is one, and no earlier object's image has the key of its image. */
  ghost predicate FirstObject<A, B, K>(items: seq<Option<A>>, f: A -> B, key: B -> K, i: nat) {
    i < |items| && items[i].Some? &&
    forall j :: 0 <= j < i && items[j].Some? ==> key(f(items[j].value)) != key(f(items[i].value))
  }

  /** Among the first `n` objects there is one whose image has the key. */
  ghost predicate ObjectHasKey<A, B, K>(items: seq<Option<A>>, f: A -> B, key: B -> K, n: nat, k: K)
    requires n <= |items|
  {
    exists j :: 0 <= j < n && items[j].Some? && key(f(items[j].value)) == k
  }

  lemma {:induction false} ImagesHaveKey<A, B, K>(items: seq<Option<A>>, f: A -> B, key: B -> K, n: nat, k: K)
    requires n <= |items|
    ensures HasKey(MapObjects(items[..n], f), key, k) <==> ObjectHasKey(items, f, key, n, k)
  {
    if n > 0 {
      ImagesHaveKey(items, f, key, n - 1, k);
      ImagesGrow(items, f, n - 1);
      KeyOfLonger(MapObjects(items[..n - 1], f), Image(items[n - 1], f), key, k);
    }
  }

  function Image<A, B>(item: Option<A>, f: A -> B): seq<B> {
    if item.Some? then [f(item.value)] else []
  }

  lemma ImagesGrow<A, B>(items: seq<Option<A>>, f: A -> B, n: nat)
    requires n < |items|
    ensures MapObjects(items[..n + 1], f) == MapObjects(items[..n], f) + Image(items[n], f)
  {
    assert items[..n + 1][..n] == items[..n];
  }

  lemma KeyOfLonger<R, K>(rows: seq<R>, more: seq<R>, key: R -> K, k: K)
    requires |more| <= 1
    ensures HasKey(rows + more, key, k) <==> HasKey(rows, key, k) || (more != [] && key(more[0]) == k)
  {
    if HasKey(rows, key, k) {
      var i :| 0 <= i < |rows| && key(rows[i]) == k;
      assert key((rows + more)[i]) == k;
    }
    if more != [] {
      assert (rows + more)[|rows|] == more[0];
    }
    if HasKey(rows + more, key, k) {
      var i :| 0 <= i < |rows + more| && key((rows + more)[i]) == k;
      assert i < |rows| ==> key(rows[i]) == k;
    }
  }

  lemma OneRowMore<R, K>(rows: seq<R>, r: R, key: R -> K)
    ensures FirstOccurrences(rows + [r], key)
            == FirstOccurrences(rows, key) + if HasKey(rows, key, key(r)) then [] else [r]
  {
    var more, n := rows + [r], |rows|;
    assert more[..n] == rows;
    assert forall i :: 0 <= i < n ==> more[i] == rows[i];
    if HasKey(rows, key, key(r)) {
      var i :| 0 <= i < n && key(rows[i]) == key(r);
      assert key(more[i]) == key(more[n]);
    }
  }

  /** What is kept of the images are those of the objects that come first with their key. */
  lemma {:induction false} KeptExactly<A, B, K>(items: seq<Option<A>>, f: A -> B, key: B -> K, n: nat, b: B)
    requires n <= |items|
    ensures b in FirstOccurrences(MapObjects(items[..n], f), key)
            <==> exists i: nat :: i < n && FirstObject(items, f, key, i) && b == f(items[i].value)
  {
    if n > 0 {
      KeptExactly(items, f, key, n - 1, b);
      ImagesGrow(items, f, n - 1);
      var before := MapObjects(items[..n - 1], f);
      if items[n - 1].Some? {
        var last := f(items[n - 1].value);
        OneRowMore(before, last, key);
        ImagesHaveKey(items, f, key, n - 1, key(last));
        assert FirstObject(items, f, key, n - 1) <==> !HasKey(before, key, key(last));
      } else {
        assert before + [] == before;
      }
    }
  }

  /** Item `i` is a row, and no earlier one has its date, person and start once sealed. */
  ghost predicate FirstOfKey(reader: Reader, p: Payload, i: nat) {
    FirstObject(p.items, RowSealer(reader, p.storeId), KeyBy(reader), i)
  }

  /** The sealed rows are those of the items that come first with their key. */
  lemma SealedExactly(reader: Reader, p: Payload, row: ShiftRow)
    ensures row in SealedRows(reader, p)
            <==> exists i: nat :: FirstOfKey(reader, p, i) && row == Again(reader, p.storeId, p.items[i].value)
  {
    var f := RowSealer(reader, p.storeId);
    assert p.items[..|p.items|] == p.items;
    KeptExactly(p.items, f, KeyBy(reader), |p.items|, row);
    forall i: nat | FirstOfKey(reader, p, i) ensures f(p.items[i].value) == Again(reader, p.storeId, p.items[i].value) {
    }
  }

  /** Every row that is kept rereads. */
  ghost predicate KeptReread(reader: Reader, p: Payload) {
    forall i: nat :: FirstOfKey(reader, p, i) ==> Rereads(reader, p.items[i].value)
  }

  lemma KeptIsSteady(reader: Reader, p: Payload)
    requires PlainText(reader)
    ensures KeptReread(reader, p) <==> forall n :: n in SealedRows(reader, p) ==> Steady(reader, n)
  {
    forall i: nat | FirstOfKey(reader, p, i)
      ensures Again(reader, p.storeId, p.items[i].value) in SealedRows(reader, p)
      ensures Steady(reader, Again(reader, p.storeId, p.items[i].value)) <==> Rereads(reader, p.items[i].value)
    {
      SealedExactly(reader, p, Again(reader, p.storeId, p.items[i].value));
      SteadyExactly(reader, p.storeId, p.items[i].value);
    }
    forall n | n in SealedRows(reader, p)
      ensures exists i: nat :: FirstOfKey(reader, p, i) && n == Again(reader, p.storeId, p.items[i].value)
    {
      SealedExactly(reader, p, n);
    }
  }

  lemma SteadyRowsStay(reader: Reader, p: Payload)
    requires PlainText(reader) && forall n :: n in SealedRows(reader, p) ==> Steady(reader, n)
    ensures Sealed(reader, Sealed(reader, p)) == Sealed(reader, p)
  {
    var rows := SealedRows(reader, p);
    var again := MapObjects(Objects(rows), RowSealer(reader, p.storeId));
    MapLength(rows, RowSealer(reader, p.storeId));
    forall i | 0 <= i < |rows| ensures again[i] == rows[i] {
      MapAt(rows, RowSealer(reader, p.storeId), i);
      SealedOrigin(reader, p, rows[i]);
      var row :| Some(row) in p.items && rows[i] == Again(reader, p.storeId, row);
      SealedAgain(reader, p.storeId, row);
    }
    assert again == rows;
    ResultDistinct(NormalizedRows(reader, p), KeyBy(reader));
    UnchangedExactly(rows, KeyBy(reader));
  }

  lemma {:induction false} NothingDropped<R, K>(rows: seq<R>, key: R -> K)
    requires |FirstOccurrences(rows, key)| == |rows|
    ensures FirstOccurrences(rows, key) == rows
  {
    if rows != [] {
      var n := |rows| - 1;
      Shrinks(rows[..n], key);
      NothingDropped(rows[..n], key);
    }
  }

  lemma StayingRowsAreSteady(reader: Reader, p: Payload, i: nat)
    requires PlainText(reader) && i < |SealedRows(reader, p)|
    ensures Sealed(reader, Sealed(reader, p)) == Sealed(reader, p) ==> Steady(reader, SealedRows(reader, p)[i])
  {
    if Sealed(reader, Sealed(reader, p)) == Sealed(reader, p) {
      var rows := SealedRows(reader, p);
      MapLength(rows, RowSealer(reader, p.storeId));
      var again := MapObjects(Objects(rows), RowSealer(reader, p.storeId));
      var kept := FirstOccurrences(again, KeyBy(reader));
      assert Objects(kept) == Objects(rows);
      assert |kept| == |Objects(kept)| == |rows|;
      NothingDropped(again, KeyBy(reader));
      MapAt(rows, RowSealer(reader, p.storeId), i);
      assert Objects(kept)[i] == Objects(rows)[i];
      SealedOrigin(reader, p, rows[i]);
      var row :| Some(row) in p.items && rows[i] == Again(reader, p.storeId, row);
      SealedAgain(reader, p.storeId, row);
    }
  }

  lemma SealedTwice(reader: Reader, p: Payload)
    requires PlainText(reader)
    ensures Sealed(reader, Sealed(reader, p)) == Sealed(reader, p)
            <==> forall n :: n in SealedRows(reader, p) ==> Steady(reader, n)
  {
    if Sealed(reader, Sealed(reader, p)) == Sealed(reader, p) {
      forall n | n in SealedRows(reader, p) ensures Steady(reader, n) {
        var i :| 0 <= i < |SealedRows(reader, p)| && SealedRows(reader, p)[i] == n;
        StayingRowsAreSteady(reader, p, i);
      }
    } else if forall n :: n in SealedRows(reader, p) ==> Steady(reader, n) {
      SteadyRowsStay(reader, p);
    }
  }

  /** Sealing twice equals sealing once exactly if every row of the payload rereads, those
      aside that an earlier row with their date, person and start pushes out. */
  lemma SealTwiceExactly(reader: Reader, p: Payload)
    requires PlainText(reader)
    ensures Sealed(reader, Sealed(reader, p)) == Sealed(reader, p)
            <==> forall i: nat :: FirstOfKey(reader, p, i) ==> Rereads(reader, p.items[i].value)
  {
    SealedTwice(reader, p);
    KeptIsSteady(reader, p);
  }

  // ---- payloads with well-formed times ----

  predicate TimesWellFormed(reader: Reader, row: ShiftRow) {
    && TimeText(Text(reader, Or(row.startTime, Or(row.altStart, row.startAt))))
    && TimeText(Text(reader, Or(row.endTime, Or(row.altEnd, row.endAt))))
  }

  lemma WellFormedRowRereads(reader: Reader, row: ShiftRow)
    requires TimesWellFormed(reader, row)
    ensures Rereads(reader, row)
  {
    var g := GivenTimes(reader, row);
    TimeTextGivesClock(Text(reader, Or(row.startTime, Or(row.altStart, row.startAt))));
    TimeTextGivesClock(Text(reader, Or(row.endTime, Or(row.altEnd, row.endAt))));
    if g.start != "" {
      ClockIsSettled(g.start);
    }
    if g.end != "" {
      ClockIsSettled(g.end);
    }
    assert Dashes("") == 0;
  }

  /** With times that are absent, HH:MM with anything after it, or ISO date-times, sealing at
      creation, at extraction and at saving is the same as sealing once. */
  lemma SealingIsIdempotent(reader: Reader, p: Payload)
    requires PlainText(reader)
    requires forall row :: Some(row) in p.items ==> TimesWellFormed(reader, row)
    ensures Sealed(reader, Sealed(reader, p)) == Sealed(reader, p)
  {
    forall i: nat | FirstOfKey(reader, p, i) ensures Rereads(reader, p.items[i].value) {
      assert Some(p.items[i].value) in p.items;
      WellFormedRowRereads(reader, p.items[i].value);
    }
    SealTwiceExactly(reader, p);
  }

  /** A start of "9:00 am" is cut to five characters with a blank, which the next sealing
      strips: a payload with such a row changes when it is sealed again. */
  lemma LooseTimeIsNotSteady(reader: Reader, p: Payload, i: nat)
    requires PlainText(reader) && FirstOfKey(reader, p, i) && p.items[i].value.startTime == Str("9:00 am")
    ensures !Steady(reader, Again(reader, p.storeId, p.items[i].value))
    ensures Sealed(reader, Sealed(reader, p)) != Sealed(reader, p)
  {
    LooseTimeIsCut();
    TextStays(reader, "9:00 am");
    assert GivenTimes(reader, p.items[i].value).start == "9:00 ";
    SteadyExactly(reader, p.storeId, p.items[i].value);
    SealTwiceExactly(reader, p);
  }

  lemma LooseTimeIsCut()
    ensures ClockOf("9:00 am") == "9:00 " && ClockOf("9:00 ") == "9:00"
  {
    var raw, cut := "9:00 am", "9:00 ";
    BareIsStripped(raw);
    NoT(raw);
    assert StripRight(cut) == StripRight(cut[..4]) && cut[..4] == "9:00";
    BareIsStripped("9:00");
    NoT("9:00");
  }

  // ---- what a sealed row says ----

  /** Start, end and title of the shift a slot's text names; the first of the four names that
      occurs in it decides. */
  function NamedShift(slot: string): Option<Times> {
    if Contains(slot, "morning") then Some(Times("09:00", "16:00", "Morning"))
    else if Contains(slot, "mid") then Some(Times("11:00", "19:00", "Mid"))
    else if Contains(slot, "afternoon") then Some(Times("16:00", "23:00", "Afternoon"))
    else if Contains(slot, "evening") then Some(Times("16:00", "23:00", "Evening"))
    else None
  }

  /** End and title that go with a start. */
  function ShiftFrom(start: string): Option<Times> {
    if start == "09:00" then Some(Times("09:00", "16:00", "Morning"))
    else if start == "11:00" then Some(Times("11:00", "19:00", "Mid"))
    else if start == "16:00" then Some(Times("16:00", "23:00", "Evening"))
    else None
  }

  lemma MiddayIsMid(slot: string)
    ensures Contains(slot, "midday") ==> Contains(slot, "mid")
  {
    if Contains(slot, "midday") {
      var i :| 0 <= i <= |slot| && PartAt(slot, "midday", i);
      assert slot[i..i + 3] == slot[i..i + 6][..3] == "mid";
      assert PartAt(slot, "mid", i);
    }
  }

  lemma WindowIsNamed(slot: string)
    ensures match WindowIn(slot, 0)
            case None => NamedShift(slot) == None
            case Some(w) => NamedShift(slot) == Some(Times(w.start, w.end, w.title))
  {
    MiddayIsMid(slot);
    assert WindowIn(slot, 5) == None;
    assert WindowIn(slot, 4) == if Contains(slot, "evening") then Some(SHIFT_WINDOWS[4]) else None;
    assert WindowIn(slot, 3) == if Contains(slot, "afternoon") then Some(SHIFT_WINDOWS[3]) else WindowIn(slot, 4);
    assert WindowIn(slot, 2) == if Contains(slot, "midday") then Some(SHIFT_WINDOWS[2]) else WindowIn(slot, 3);
    assert WindowIn(slot, 1) == if Contains(slot, "mid") then Some(SHIFT_WINDOWS[1]) else WindowIn(slot, 2);
  }

  lemma WindowIsFrom(start: string)
    ensures match WindowAt(start, 5)
            case None => ShiftFrom(start) == None
            case Some(w) => ShiftFrom(start) == Some(Times(w.start, w.end, w.title))
  {
    assert WindowAt(start, 0) == None;
    assert WindowAt(start, 1) == if start == "09:00" then Some(SHIFT_WINDOWS[0]) else None;
    assert WindowAt(start, 2) == if start == "11:00" then Some(SHIFT_WINDOWS[1]) else WindowAt(start, 1);
    assert WindowAt(start, 3) == if start == "11:00" then Some(SHIFT_WINDOWS[2]) else WindowAt(start, 2);
    assert WindowAt(start, 4) == if start == "16:00" then Some(SHIFT_WINDOWS[3]) else WindowAt(start, 3);
  }

  lemma WindowExactly(g: Times, slot: string)
    ensures FromWindow(g, slot)
            == if g.start != "" && g.end != "" then g
               else match NamedShift(slot)
                 case None => g
                 case Some(n) => Times(FirstText(g.start, n.start), FirstText(g.end, n.end), FirstText(g.title, n.title))
  {
    WindowIsNamed(slot);
    assert slot == "" ==> NamedShift(slot) == None;
  }

  function EndFrom(start: string): string {
    if ShiftFrom(start).Some? then ShiftFrom(start).value.end else "16:00"
  }

  lemma DefaultsExactly(t: Times)
    ensures var start := FirstText(t.start, "09:00"); WithDefaults(t) == Times(start, FirstText(t.end, EndFrom(start)), t.title)
  {
    WindowIsFrom(t.start);
  }

  lemma LabelExactly(t: Times)
    ensures Labelled(t).start == t.start && Labelled(t).end == t.end
    ensures Labelled(t).title == FirstText(t.title, if ShiftFrom(t.start).Some? then ShiftFrom(t.start).value.title else "")
  {
    WindowIsFrom(t.start);
  }

  /** From the times and title given and the text of the slot to those sealed. */
  ghost predicate TimesFollow(g: Times, slot: string, t: Times) {
    var named := if g.start != "" && g.end != "" then None else NamedShift(slot);
    && t.start == (if g.start != "" then g.start else if named.Some? then named.value.start else "09:00")
    && t.end == (if g.end != "" then g.end else if named.Some? then named.value.end else EndFrom(t.start))
    && t.title == (if g.title != "" then g.title
                   else if named.Some? then named.value.title
                   else if ShiftFrom(t.start).Some? then ShiftFrom(t.start).value.title else "")
  }

  lemma TimesExactly(g: Times, slot: string)
    ensures TimesFollow(g, slot, Labelled(WithDefaults(FromWindow(g, slot))))
  {
    WindowExactly(g, slot);
    DefaultsExactly(FromWindow(g, slot));
    LabelExactly(WithDefaults(FromWindow(g, slot)));
  }

  /** The hours of a sealed row: those given; what is missing comes from the shift the slot
      names; else the start is nine o'clock, and the end goes with the start, or is four. A
      missing title comes from the shift that was named, else from the start. */
  lemma SealedTimesExactly(reader: Reader, payloadStore: Json, row: ShiftRow)
    ensures var n := Again(reader, payloadStore, row);
            && n.startTime.Str? && n.endTime.Str? && n.slotName.Str?
            && TimesFollow(GivenTimes(reader, row), SlotText(reader, row), Times(n.startTime.text, n.endTime.text, n.slotName.text))
  {
    TimesExactly(GivenTimes(reader, row), SlotText(reader, row));
  }

  /** The person of a row, under whichever of four names the id was given. */
  function PersonOf(row: ShiftRow): Json {
    if Truthy(row.staffId) then row.staffId
    else if Truthy(row.userId) then row.userId
    else if Truthy(row.employeeId) then row.employeeId
    else row.altStaffId
  }

  /** A sealed row has the person's id under three names, if one was given. */
  lemma SealedPerson(reader: Reader, payloadStore: Json, row: ShiftRow)
    ensures var n := Again(reader, payloadStore, row);
            if Truthy(PersonOf(row)) then n.staffId == n.userId == n.employeeId == PersonOf(row)
            else n.staffId == row.staffId && n.userId == row.userId && n.employeeId == row.employeeId
  {
  }

  /** The other fields of a sealed row: it is a draft of its store or the payload's, it has a
      role, its own date if it has one, and all it brought besides. */
  lemma SealedRowSays(reader: Reader, payloadStore: Json, row: ShiftRow)
    ensures var n := Again(reader, payloadStore, row);
            && n.status == Str("DRAFT") && n.name == n.staffName && n.rest == row.rest
            && n.role == (if Truthy(row.role) then row.role else if Truthy(row.kind) then row.kind else Str("KITCHEN_STAFF"))
            && n.storeId == (if Truthy(row.storeId) then row.storeId
                             else Str(if Truthy(payloadStore) then reader.text(payloadStore) else ""))
            && (Truthy(row.date) && reader.text(row.date) != "" ==> n.date == Str(reader.text(row.date)))
  {
  }

  lemma BlankExactly(reader: Reader, j: Json)
    ensures BlankName(reader, j) <==> !Given(reader, j)
  {
  }

  /** The name of a sealed row: the first of the three given that is not blank. */
  lemma SealedName(reader: Reader, payloadStore: Json, row: ShiftRow)
    ensures var n := Again(reader, payloadStore, row);
            n.name == Str(if Given(reader, row.name) then Strip(reader.text(row.name))
                          else if Given(reader, row.staffName) then Strip(reader.text(row.staffName))
                          else if Given(reader, row.altStaffName) then Strip(reader.text(row.altStaffName))
                          else "Staff")
  {
    BlankExactly(reader, row.name);
    BlankExactly(reader, row.staffName);
    BlankExactly(reader, row.altStaffName);
  }

  predicate Given(reader: Reader, j: Json) {
    j != Null && LowerCase(Strip(reader.text(j))) !in {"", "unknown", "item", "none", "null", "?", "n/a"}
  }

  // ---- which rows are one ----

  /** Who works a sealed row: the person's id, or the name if there is none. */
  function Who(reader: Reader, payloadStore: Json, row: ShiftRow): string {
    if Truthy(PersonOf(row)) then reader.text(PersonOf(row)) else FirstName(reader, row)
  }

  lemma SealedKey(reader: Reader, payloadStore: Json, row: ShiftRow)
    requires PlainText(reader)
    ensures var n := Again(reader, payloadStore, row);
            && n.date.Str? && n.startTime.Str?
            && RowKey(reader, n) == (n.date.text, Who(reader, payloadStore, row), n.startTime.text)
  {
    var n := Again(reader, payloadStore, row);
    TimesTwice(reader, row, n);
    TextStays(reader, n.date.text);
    TextStays(reader, n.startTime.text);
    TextStays(reader, FirstName(reader, row));
    NamePresent(reader, row);
  }

  lemma NamePresent(reader: Reader, row: ShiftRow)
    ensures FirstName(reader, row) != ""
  {
    assert LowerCase("") == "";
  }

  /** Two rows count as one shift exactly if, sealed, they have one date, one start and one
      person. */
  lemma SameShiftExactly(reader: Reader, payloadStore: Json, a: ShiftRow, b: ShiftRow)
    requires PlainText(reader)
    ensures var n, m := Again(reader, payloadStore, a), Again(reader, payloadStore, b);
            KeyBy(reader)(n) == KeyBy(reader)(m)
            <==> n.date == m.date && n.startTime == m.startTime && Who(reader, payloadStore, a) == Who(reader, payloadStore, b)
  {
    SealedKey(reader, payloadStore, a);
    SealedKey(reader, payloadStore, b);
  }

  // ---- reading a time ----

  lemma {:induction false} FirstT(before: string, after: string)
    requires forall i :: 0 <= i < |before| ==> before[i] != 'T'
    ensures AfterT(before + "T" + after) == Some(after)
  {
    var s := before + "T" + after;
    if before == "" {
      assert s[1..] == after;
    } else {
      assert s[1..] == before[1..] + "T" + after;
      FirstT(before[1..], after);
    }
  }

  /** The clock part of a date-time is what follows its T; of any other text, its beginning.
      What comes after it is cut. */
  lemma ClockIsRead(date: string, clock: string, rest: string)
    requires Clock(clock) && (rest == "" || !IsSpace(rest[|rest| - 1]))
    requires (forall i :: 0 <= i < |date| ==> date[i] != 'T') && (date == "" || !IsSpace(date[0]))
    requires forall i :: 0 <= i < |rest| ==> rest[i] != 'T'
    ensures ClockOf(date + "T" + clock + rest) == clock && ClockOf(clock + rest) == clock
  {
    var stamp := date + "T" + clock + rest;
    assert stamp == date + "T" + (clock + rest);
    BareIsStripped(stamp);
    FirstT(date, clock + rest);
    assert (clock + rest)[..5] == clock;
    BareIsStripped(clock + rest);
    NoT(clock + rest);
  }

  /** Which of a row's times count: start and end under the first of three names that has one. */
  lemma TimesAreGiven(reader: Reader, row: ShiftRow)
    ensures var start := if Truthy(row.startTime) then row.startTime else if Truthy(row.altStart) then row.altStart else row.startAt;
            var end := if Truthy(row.endTime) then row.endTime else if Truthy(row.altEnd) then row.altEnd else row.endAt;
            && GivenTimes(reader, row).start == (if Truthy(start) then ClockOf(reader.text(start)) else "")
            && GivenTimes(reader, row).end == (if Truthy(end) then ClockOf(reader.text(end)) else "")
  {
    assert Strip("") == "" && ClockOf("") == "";
  }
}
