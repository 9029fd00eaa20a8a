/** Sealing of a shift roster before it is shown or saved: `normalize_shift_row`,
    `dedupe_shifts` and the roster branch of `seal_proposal_payload` in
    src/masova_agent/core/ops_contract.py. */
module Sealing {
  import opened Outcomes
  import opened Texts
  import opened ToolArgs
  import Dedupe

  /** The keys of a shift row that sealing looks at or writes; Null stands for an absent one.
      `alt` names are the snake-case spellings. */
  datatype ShiftRow = ShiftRow(
    date: Json, storeId: Json, staffId: Json, userId: Json, employeeId: Json, altStaffId: Json,
    name: Json, staffName: Json, altStaffName: Json, role: Json, kind: Json,
    startTime: Json, altStart: Json, startAt: Json, endTime: Json, altEnd: Json, endAt: Json,
    slotName: Json, slot: Json, window: Json, status: Json, rest: Args)

  /** A roster's payload; items that are no objects are None. */
  datatype Payload = Payload(storeId: Json, items: seq<Option<ShiftRow>>, shiftCount: int, rest: Args)

  function Or(a: Json, b: Json): Json {
    if Truthy(a) then a else b
  }

  /** `str(value or "")`. */
  function Text(reader: Reader, j: Json): string {
    if Truthy(j) then reader.text(j) else ""
  }

  ghost predicate PlainText(reader: Reader) {
    forall s :: reader.text(Str(s)) == s
  }

  function TextOf(reader: Reader, j: Json): string {
    reader.text(j)
  }

  function Head(s: string, n: nat): string {
    if |s| <= n then s else s[..n]
  }

  /** What follows the first T, if there is one. */
  function AfterT(s: string): Option<string> {
    if s == "" then None else if s[0] == 'T' then Some(s[1..]) else AfterT(s[1..])
  }

  /** The clock part of a time or date-time; "" if there is none. */
  function ClockOf(text: string): string {
    var s := Strip(text);
    match AfterT(s)
    case Some(tail) => Head(tail, 5)
    case None => if |s| >= 4 then Head(s, 5) else ""
  }

  datatype Window = Window(key: string, start: string, end: string, title: string)

  const SHIFT_WINDOWS: seq<Window> := [
    Window("morning", "09:00", "16:00", "Morning"),
    Window("mid", "11:00", "19:00", "Mid"),
    Window("midday", "11:00", "19:00", "Mid"),
    Window("afternoon", "16:00", "23:00", "Afternoon"),
    Window("evening", "16:00", "23:00", "Evening")
  ]

  predicate PartAt(s: string, part: string, i: nat) {
    i + |part| <= |s| && s[i..i + |part|] == part
  }

  predicate Contains(s: string, part: string) {
    exists i | 0 <= i <= |s| :: PartAt(s, part, i)
  }

  /** The first window named in the slot. */
  function WindowIn(slot: string, from: nat): Option<Window>
    requires from <= |SHIFT_WINDOWS|
    decreases |SHIFT_WINDOWS| - from
  {
    if from == |SHIFT_WINDOWS| then None
    else if Contains(slot, SHIFT_WINDOWS[from].key) then Some(SHIFT_WINDOWS[from])
    else WindowIn(slot, from + 1)
  }

  /** The last window with the start, as a dictionary built from the windows keeps it. */
  function WindowAt(start: string, upTo: nat): Option<Window>
    requires upTo <= |SHIFT_WINDOWS|
  {
    if upTo == 0 then None
    else if SHIFT_WINDOWS[upTo - 1].start == start then Some(SHIFT_WINDOWS[upTo - 1])
    else WindowAt(start, upTo - 1)
  }

  const BLANK_NAMES: set<string> := {"", "unknown", "item", "none", "null", "?", "n/a"}

  predicate BlankName(reader: Reader, j: Json) {
    j == Null || LowerCase(Strip(TextOf(reader, j))) in BLANK_NAMES
  }

  function FirstName(reader: Reader, row: ShiftRow): string {
    if !BlankName(reader, row.name) then Strip(TextOf(reader, row.name))
    else if !BlankName(reader, row.staffName) then Strip(TextOf(reader, row.staffName))
    else if !BlankName(reader, row.altStaffName) then Strip(TextOf(reader, row.altStaffName))
    else "Staff"
  }

  /** Start, end and title of a shift, before the defaults. */
  datatype Times = Times(start: string, end: string, title: string)

  function GivenTimes(reader: Reader, row: ShiftRow): Times {
    Times(ClockOf(Text(reader, Or(row.startTime, Or(row.altStart, row.startAt)))),
          ClockOf(Text(reader, Or(row.endTime, Or(row.altEnd, row.endAt)))),
          Text(reader, row.slotName))
  }

  function FirstText(a: string, b: string): string {
    if a != "" then a else b
  }

  function FromWindow(t: Times, slot: string): Times {
    if (t.start != "" && t.end != "") || slot == "" then t
    else
      match WindowIn(slot, 0)
      case None => t
      case Some(w) => Times(FirstText(t.start, w.start), FirstText(t.end, w.end), FirstText(t.title, w.title))
  }

  function WithDefaults(t: Times): Times {
    if t.start == "" then Times("09:00", FirstText(t.end, "16:00"), t.title)
    else if t.end == "" then
      (match WindowAt(t.start, |SHIFT_WINDOWS|)
       case None => t.(end := "16:00")
       case Some(w) => t.(end := w.end))
    else t
  }

  function Labelled(t: Times): Times {
    if t.title != "" then t
    else
      match WindowAt(t.start, |SHIFT_WINDOWS|)
      case None => t
      case Some(w) => t.(title := w.title)
  }

  function SlotText(reader: Reader, row: ShiftRow): string {
    LowerCase(Text(reader, Or(row.slotName, Or(row.slot, row.window))))
  }

  function SealedTimes(reader: Reader, row: ShiftRow): Times {
    Labelled(WithDefaults(FromWindow(GivenTimes(reader, row), SlotText(reader, row))))
  }

  function Dashes(s: string): nat {
    if s == "" then 0 else Dashes(s[..|s| - 1]) + if s[|s| - 1] == '-' then 1 else 0
  }

  /** The date part of a date-time, if it has one. */
  function DateIn(reader: Reader, j: Json): string {
    if Truthy(j) && Dashes(Head(TextOf(reader, j), 10)) == 2 then Head(TextOf(reader, j), 10) else ""
  }

  function SealedDate(reader: Reader, row: ShiftRow): string {
    FirstText(Text(reader, row.date), FirstText(DateIn(reader, row.startAt), DateIn(reader, row.startTime)))
  }

  function NormalizeRow(reader: Reader, row: ShiftRow, store: string): ShiftRow {
    var sid := Or(row.staffId, Or(row.userId, Or(row.employeeId, row.altStaffId)));
    var name := Str(FirstName(reader, row));
    var t := SealedTimes(reader, row);
    row.(storeId := Or(row.storeId, Str(store)), staffId := Or(sid, row.staffId), userId := Or(sid, row.userId),
         employeeId := Or(sid, row.employeeId), name := name, staffName := name,
         role := Or(row.role, Or(row.kind, Str("KITCHEN_STAFF"))), date := Str(SealedDate(reader, row)),
         startTime := Str(t.start), endTime := Str(t.end), slotName := Str(t.title), status := Str("DRAFT"))
  }

  function StoreFor(reader: Reader, payloadStore: Json, row: ShiftRow): string {
    Text(reader, Or(payloadStore, row.storeId))
  }

  type Key = (string, string, string)

  /** Date, person and start. */
  function RowKey(reader: Reader, row: ShiftRow): Key {
    (Text(reader, row.date), Text(reader, Or(row.staffId, Or(row.altStaffId, row.staffName))),
     Text(reader, Or(row.startTime, row.altStart)))
  }

  function KeyBy(reader: Reader): ShiftRow -> Key {
    row => RowKey(reader, row)
  }

  function RowSealer(reader: Reader, payloadStore: Json): ShiftRow -> ShiftRow {
    row => NormalizeRow(reader, row, StoreFor(reader, payloadStore, row))
  }

  function MapObjects<A, B>(items: seq<Option<A>>, f: A -> B): seq<B> {
    if items == [] then []
    else
      var last := items[|items| - 1];
      MapObjects(items[..|items| - 1], f) + if last.Some? then [f(last.value)] else []
  }

  function Objects<A>(rows: seq<A>): seq<Option<A>> {
    seq(|rows|, i requires 0 <= i < |rows| => Some(rows[i]))
  }

  function NormalizedRows(reader: Reader, p: Payload): seq<ShiftRow> {
    MapObjects(p.items, RowSealer(reader, p.storeId))
  }

  function SealedRows(reader: Reader, p: Payload): seq<ShiftRow> {
    Dedupe.FirstOccurrences(NormalizedRows(reader, p), KeyBy(reader))
  }

  function Sealed(reader: Reader, p: Payload): Payload {
    p.(items := Objects(SealedRows(reader, p)), shiftCount := |SealedRows(reader, p)|)
  }

  method SealRoster(reader: Reader, p: Payload) returns (sealed: Payload)
    ensures sealed == Sealed(reader, p)
  {
    var normed := [];
    for i := 0 to |p.items|
      invariant normed == MapObjects(p.items[..i], RowSealer(reader, p.storeId))
    {
      assert p.items[..i + 1][..i] == p.items[..i];
      if p.items[i].Some? {
        var row := p.items[i].value;
        normed := normed + [NormalizeRow(reader, row, StoreFor(reader, p.storeId, row))];
      }
    }
    assert p.items[..|p.items|] == p.items;
    var unique := Dedupe.DedupeRows(normed, KeyBy(reader));
    sealed := p.(items := Objects(unique), shiftCount := |unique|);
  }
}
