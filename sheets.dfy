/** The grid-writing part of `generatePartySheets` in lib/generator.js: the
    time-slot index read from the template, the choice of the date and time
    columns, and the cells each booking writes into its day's copy of the
    template. */
module Sheets {
  import opened Options
  import opened Seqs
  import opened Values
  import opened Minutes
  import opened Party
  import opened Grouping
  import opened Info

  /** Cell values by (row, column), both counted from 1 as ExcelJS does. */
  type Grid = map<(int, int), Value>

  /** `ws.getCell(r, c).value`, null for a cell that holds nothing. */
  function At(g: Grid, r: int, c: int): Value {
    if (r, c) in g then g[(r, c)] else Null
  }

  /** A worksheet of the workbook being filled in. */
  class Worksheet {
    var cells: Grid

    /** A fresh copy of the template sheet. */
    constructor (template: Grid)
      ensures cells == template
    {
      cells := template;
    }

    /** `ws.getCell(r, c).value = v`. */
    method SetCell(r: int, c: int, v: Value)
      modifies this
      ensures cells == old(cells)[(r, c) := v]
    {
      cells := cells[(r, c) := v];
    }
  }

  // ----- the time-slot index -----

  /** The template rows that carry slot times, and the column holding them. */
  const FirstSlotRow := 4
  const LastSlotRow := 13
  const TimeColumn := 4

  /** The canonical minutes shown in the time column of row `r`. */
  function SlotMinutes(template: Grid, r: int): Option<nat> {
    CanonicalMinutes(At(template, r, TimeColumn))
  }

  /** The slot index after scanning rows `FirstSlotRow` to `last`. */
  function SlotsThrough(template: Grid, last: int): map<nat, int>
    decreases last
  {
    if last < FirstSlotRow then map[]
    else
      var slots := SlotsThrough(template, last - 1);
      match SlotMinutes(template, last)
      case None => slots
      case Some(m) => slots[m := last]
  }

  /** `timeRows`: canonical minutes to template row. */
  function SlotIndex(template: Grid): map<nat, int> {
    SlotsThrough(template, LastSlotRow)
  }

  /** The loop that fills `timeRows`: each row whose time cell reads as a
      time registers it, a later row replacing an earlier one. */
  method BuildSlotIndex(template: Grid) returns (slots: map<nat, int>)
    ensures slots == SlotIndex(template)
  {
    slots := map[];
    for r := FirstSlotRow to LastSlotRow + 1
      invariant slots == SlotsThrough(template, r - 1)
    {
      var mins := CanonicalMinutes(At(template, r, TimeColumn));
      if mins != None {
        slots := slots[mins.value := r];
      }
    }
  }

  /** The index holds exactly the times shown in the scanned rows, each
      mapped to the last row showing it. */
  lemma {:induction false} SlotsThroughSpec(template: Grid, last: int, m: nat)
    ensures m in SlotsThrough(template, last) <==>
      exists r :: FirstSlotRow <= r <= last && SlotMinutes(template, r) == Some(m)
    ensures m in SlotsThrough(template, last) ==>
      var row := SlotsThrough(template, last)[m];
      && FirstSlotRow <= row <= last && SlotMinutes(template, row) == Some(m)
      && forall r :: row < r <= last ==> SlotMinutes(template, r) != Some(m)
    decreases last
  {
    if last >= FirstSlotRow {
      SlotsThroughSpec(template, last - 1, m);
      if SlotMinutes(template, last) == Some(m) {
        assert FirstSlotRow <= last <= last && SlotMinutes(template, last) == Some(m);
      } else {
        forall r | FirstSlotRow <= r <= last && SlotMinutes(template, r) == Some(m)
          ensures FirstSlotRow <= r <= last - 1
        {
        }
      }
    }
  }

  /** The slot index over the template's rows 4 to 13. */
  lemma SlotIndexSpec(template: Grid, m: nat)
    ensures m in SlotIndex(template) <==>
      exists r :: FirstSlotRow <= r <= LastSlotRow && SlotMinutes(template, r) == Some(m)
    ensures m in SlotIndex(template) ==>
      var row := SlotIndex(template)[m];
      && FirstSlotRow <= row <= LastSlotRow && SlotMinutes(template, row) == Some(m)
      && forall r :: row < r <= LastSlotRow ==> SlotMinutes(template, r) != Some(m)
  {
    SlotsThroughSpec(template, LastSlotRow, m);
  }

  // ----- the date and time columns -----

  /** `rows[0] || {}`: the first row, whose columns decide the key names. */
  function Sample(rows: seq<Row>): Row {
    if rows == [] then map[] else rows[0]
  }

  /** The first of `names` whose column in `sample` is neither null nor
      undefined, or `fallback` when there is none. */
  function ResolveKey(sample: Row, names: seq<string>, fallback: string): (k: string)
    ensures (forall j :: 0 <= j < |names| ==> Get(sample, names[j]) == Null) ==> k == fallback
    ensures forall i ::
      (0 <= i < |names| && Get(sample, names[i]) != Null && forall j :: 0 <= j < i ==> Get(sample, names[j]) == Null)
      ==> k == names[i]
  {
    if names == [] then fallback
    else if Get(sample, names[0]) != Null then names[0]
    else ResolveKey(sample, names[1..], fallback)
  }

  const DateNames: seq<string> := ["Date of Party", "Party Date"]
  const TimeNames: seq<string> := ["Party Start Time", "Party Time"]

  /** `dateKey` and `timeKey`. */
  function DateKey(rows: seq<Row>): string {
    ResolveKey(Sample(rows), DateNames, "Date")
  }

  function TimeKey(rows: seq<Row>): string {
    ResolveKey(Sample(rows), TimeNames, "Time")
  }

  /** The fallback chains of the two column names, spelt out. */
  lemma KeyFallbacks(rows: seq<Row>)
    ensures var s := Sample(rows);
      DateKey(rows) ==
        if Get(s, "Date of Party") != Null then "Date of Party"
        else if Get(s, "Party Date") != Null then "Party Date"
        else "Date"
    ensures var s := Sample(rows);
      TimeKey(rows) ==
        if Get(s, "Party Start Time") != Null then "Party Start Time"
        else if Get(s, "Party Time") != Null then "Party Time"
        else "Time"
  {
    var s := Sample(rows);
    assert DateNames[0] == "Date of Party" && DateNames[1] == "Party Date";
    assert TimeNames[0] == "Party Start Time" && TimeNames[1] == "Party Time";
  }

  // ----- the cells of one booking -----

  /** The columns of a slot row the generator writes. */
  const InfoColumn := 16
  const TypeColumn := 2
  const NameColumn := 5
  const ChildColumn := 6
  const AttendeesColumn := 7
  const LocationColumn := 8
  const MargColumn := 9
  const PepColumn := 10
  const ChipsColumn := 11
  const CansColumn := 12

  function PartyType(row: Row): Value {
    Get(row, "Party Type")
  }

  /** `attendees || ""`: the count when it is a non-zero number. */
  function AttendeeCell(count: Option<nat>): Value {
    if count.Some? && count.value != 0 then Num(count.value) else Str("")
  }

  /** `kind === "tagx" && attendees`: the booking gets catering quantities. */
  predicate Caters(row: Row) {
    var count := AttendeeCount(PartyType(row));
    PartyKind(PartyType(row)) == TagX && count.Some? && count.value != 0
  }

  /** The catering quantities of a booking that caters. */
  function Catering(row: Row): Supplies
    requires Caters(row)
  {
    PizzaSplit(AttendeeCount(PartyType(row))).value
  }

  /** The row of the template a booking goes to: its time read as minutes
      and looked up in the slot index. */
  function Slot(row: Row, slots: map<nat, int>, timeKey: string): Option<int> {
    match CanonicalMinutes(Get(row, timeKey))
    case None => None
    case Some(m) => if m in slots then Some(slots[m]) else None
  }

  /** The six values every matched booking writes, in the order of the source. */
  datatype Details = Details(info: Value, ptype: Value, name: Value, child: Value, attendees: Value, location: Value)

  function DetailsOf(row: Row): Details {
    var ptype := PartyType(row);
    Details(Str(AdditionalInfo(row)), Or(ptype, Str("")), Or(Get(row, "Name"), Str("")),
            Or(Get(row, "Child Details Name/Age"), Str("")), AttendeeCell(AttendeeCount(ptype)),
            Or(Get(row, "PartyLocation"), Str("")))
  }

  function WriteDetails(g: Grid, tr: int, d: Details): Grid {
    g[(tr, InfoColumn) := d.info][(tr, TypeColumn) := d.ptype][(tr, NameColumn) := d.name]
     [(tr, ChildColumn) := d.child][(tr, AttendeesColumn) := d.attendees][(tr, LocationColumn) := d.location]
  }

  /** The four catering cells. */
  function WriteCatering(g: Grid, tr: int, s: Supplies): Grid {
    g[(tr, MargColumn) := Num(s.marg)][(tr, PepColumn) := Num(s.pep)]
     [(tr, ChipsColumn) := Num(s.chips)][(tr, CansColumn) := Num(s.cans)]
  }

  /** The writes of one booking: nothing without a slot, otherwise the
      details and, for a booking that caters, the quantities. */
  function Booked(g: Grid, row: Row, slots: map<nat, int>, timeKey: string): Grid {
    match Slot(row, slots, timeKey)
    case None => g
    case Some(tr) =>
      var g' := WriteDetails(g, tr, DetailsOf(row));
      if Caters(row) then WriteCatering(g', tr, Catering(row)) else g'
  }

  /** The value of a detail column, column by column. */
  function DetailValue(d: Details, c: int): (v: Option<Value>)
    ensures v.Some? <==> c in {InfoColumn, TypeColumn, NameColumn, ChildColumn, AttendeesColumn, LocationColumn}
  {
    if c == InfoColumn then Some(d.info)
    else if c == TypeColumn then Some(d.ptype)
    else if c == NameColumn then Some(d.name)
    else if c == ChildColumn then Some(d.child)
    else if c == AttendeesColumn then Some(d.attendees)
    else if c == LocationColumn then Some(d.location)
    else None
  }

  /** The value of a catering column. */
  function CateringValue(s: Supplies, c: int): (v: Option<Value>)
    ensures v.Some? <==> MargColumn <= c <= CansColumn
  {
    if c == MargColumn then Some(Num(s.marg))
    else if c == PepColumn then Some(Num(s.pep))
    else if c == ChipsColumn then Some(Num(s.chips))
    else if c == CansColumn then Some(Num(s.cans))
    else None
  }

  /** The value a booking puts in column `c` of its slot row, or `None` for
      a column it leaves alone. */
  function Written(row: Row, c: int): (v: Option<Value>)
    ensures v.Some? <==>
      c in {InfoColumn, TypeColumn, NameColumn, ChildColumn, AttendeesColumn, LocationColumn} ||
      (Caters(row) && MargColumn <= c <= CansColumn)
  {
    if DetailValue(DetailsOf(row), c).Some? then DetailValue(DetailsOf(row), c)
    else if Caters(row) then CateringValue(Catering(row), c)
    else None
  }

  /** What a booking writes at cell (r, c), if anything. */
  function Writes(row: Row, slots: map<nat, int>, timeKey: string, r: int, c: int): Option<Value> {
    if Slot(row, slots, timeKey) == Some(r) then Written(row, c) else None
  }

  lemma DetailsCell(g: Grid, tr: int, d: Details, r: int, c: int)
    ensures At(WriteDetails(g, tr, d), r, c) ==
      if r == tr && DetailValue(d, c).Some? then DetailValue(d, c).value else At(g, r, c)
  {
  }

  lemma CateringCell(g: Grid, tr: int, s: Supplies, r: int, c: int)
    ensures At(WriteCatering(g, tr, s), r, c) ==
      if r == tr && CateringValue(s, c).Some? then CateringValue(s, c).value else At(g, r, c)
  {
  }

  /** After a booking, each cell holds what the booking wrote there, and
      every other cell is as it was. */
  lemma BookedCell(g: Grid, row: Row, slots: map<nat, int>, timeKey: string, r: int, c: int)
    ensures At(Booked(g, row, slots, timeKey), r, c) ==
      match Writes(row, slots, timeKey, r, c)
      case Some(v) => v
      case None => At(g, r, c)
  {
    match Slot(row, slots, timeKey)
    case None =>
    case Some(tr) =>
      var g' := WriteDetails(g, tr, DetailsOf(row));
      DetailsCell(g, tr, DetailsOf(row), r, c);
      if Caters(row) {
        CateringCell(g', tr, Catering(row), r, c);
      }
  }

  /** A booking whose time is missing, unreadable or not in the index
      changes no cell. */
  lemma UnmatchedBooking(g: Grid, row: Row, slots: map<nat, int>, timeKey: string)
    requires CanonicalMinutes(Get(row, timeKey)).None? || CanonicalMinutes(Get(row, timeKey)).value !in slots
    ensures Booked(g, row, slots, timeKey) == g
  {
  }

  /** A booking writes only into its slot row, and only there into the
      columns 16, 2, 5, 6, 7 and 8, and 9 to 12 when it caters. */
  lemma BookingFootprint(g: Grid, row: Row, slots: map<nat, int>, timeKey: string, r: int, c: int)
    requires Slot(row, slots, timeKey) != Some(r) ||
      !(c in {InfoColumn, TypeColumn, NameColumn, ChildColumn, AttendeesColumn, LocationColumn} ||
        (Caters(row) && MargColumn <= c <= CansColumn))
    ensures At(Booked(g, row, slots, timeKey), r, c) == At(g, r, c)
  {
    BookedCell(g, row, slots, timeKey, r, c);
  }

  /** Bookings always land between rows 4 and 13. */
  lemma SlotRowInRange(row: Row, template: Grid, timeKey: string)
    requires Slot(row, SlotIndex(template), timeKey).Some?
    ensures FirstSlotRow <= Slot(row, SlotIndex(template), timeKey).value <= LastSlotRow
  {
    SlotIndexSpec(template, CanonicalMinutes(Get(row, timeKey)).value);
  }

  /** The catering cells: the count in column 7, or "" when it is missing or
      zero, and for a Tag X booking with a count the `pizzaSplit` values. */
  lemma CateringCells(row: Row)
    ensures Written(row, AttendeesColumn) == Some(AttendeeCell(AttendeeCount(PartyType(row))))
    ensures Caters(row) ==>
      var s := PizzaSplit(AttendeeCount(PartyType(row))).value;
      && Written(row, MargColumn) == Some(Num(s.marg)) && Written(row, PepColumn) == Some(Num(s.pep))
      && Written(row, ChipsColumn) == Some(Num(s.chips))
      && Written(row, CansColumn) == Some(Num(s.cans)) && s.cans == AttendeeCount(PartyType(row)).value
    ensures !Caters(row) ==> forall c :: MargColumn <= c <= CansColumn ==> Written(row, c).None?
  {
  }

  // ----- one day's sheet -----

  /** The template after the bookings of `rows`, applied in order. */
  function FilledSheet(g: Grid, rows: seq<Row>, slots: map<nat, int>, timeKey: string): Grid {
    if rows == [] then g
    else Booked(FilledSheet(g, rows[..|rows| - 1], slots, timeKey), rows[|rows| - 1], slots, timeKey)
  }

  /** What the last booking of `rows` that writes cell (r, c) writes there,
      or `initial` when none does. */
  function LastWrite(rows: seq<Row>, slots: map<nat, int>, timeKey: string, r: int, c: int, initial: Value): Value {
    if rows == [] then initial
    else
      match Writes(rows[|rows| - 1], slots, timeKey, r, c)
      case Some(v) => v
      case None => LastWrite(rows[..|rows| - 1], slots, timeKey, r, c, initial)
  }

  /** Last write wins: each cell of a filled sheet holds the value of the
      last booking that wrote it, or the template's value. */
  lemma {:induction false} FilledSheetCell(g: Grid, rows: seq<Row>, slots: map<nat, int>, timeKey: string, r: int, c: int)
    ensures At(FilledSheet(g, rows, slots, timeKey), r, c) == LastWrite(rows, slots, timeKey, r, c, At(g, r, c))
    decreases |rows|
  {
    if rows != [] {
      var init := rows[..|rows| - 1];
      FilledSheetCell(g, init, slots, timeKey, r, c);
      BookedCell(FilledSheet(g, init, slots, timeKey), rows[|rows| - 1], slots, timeKey, r, c);
    }
  }

  /** The six detail cells of a slot row, written in the order of the source. */
  method WriteDetailCells(ws: Worksheet, tr: int, d: Details)
    modifies ws
    ensures ws.cells == WriteDetails(old(ws.cells), tr, d)
  {
    ws.SetCell(tr, InfoColumn, d.info);
    ws.SetCell(tr, TypeColumn, d.ptype);
    ws.SetCell(tr, NameColumn, d.name);
    ws.SetCell(tr, ChildColumn, d.child);
    ws.SetCell(tr, AttendeesColumn, d.attendees);
    ws.SetCell(tr, LocationColumn, d.location);
  }

  /** The four catering cells of a slot row. */
  method WriteCateringCells(ws: Worksheet, tr: int, s: Supplies)
    modifies ws
    ensures ws.cells == WriteCatering(old(ws.cells), tr, s)
  {
    ws.SetCell(tr, MargColumn, Num(s.marg));
    ws.SetCell(tr, PepColumn, Num(s.pep));
    ws.SetCell(tr, ChipsColumn, Num(s.chips));
    ws.SetCell(tr, CansColumn, Num(s.cans));
  }

  /** The inner loop of `generatePartySheets`: the cell writes of one booking. */
  method WriteBooking(ws: Worksheet, row: Row, slots: map<nat, int>, timeKey: string)
    modifies ws
    ensures ws.cells == Booked(old(ws.cells), row, slots, timeKey)
  {
    var mins := CanonicalMinutes(Get(row, timeKey));
    if mins == None {
      return;
    }
    if mins.value !in slots {
      return;
    }
    var tr := slots[mins.value];
    var ptype := Get(row, "Party Type");
    var kind := PartyKind(ptype);
    var info := BuildAdditionalInfo(row);
    var attendees := AttendeeCount(ptype);
    var d := Details(Str(info), Or(ptype, Str("")), Or(Get(row, "Name"), Str("")),
                     Or(Get(row, "Child Details Name/Age"), Str("")),
                     if attendees != None && attendees.value != 0 then Num(attendees.value) else Str(""),
                     Or(Get(row, "PartyLocation"), Str("")));
    assert d == DetailsOf(row);
    WriteDetailCells(ws, tr, d);
    if kind == TagX && attendees != None && attendees.value != 0 {
      WriteCateringCells(ws, tr, PizzaSplit(attendees).value);
    }
  }

  /** The bookings of one day, written into a worksheet in input order. */
  method FillSheet(ws: Worksheet, dayRows: seq<Row>, slots: map<nat, int>, timeKey: string)
    modifies ws
    ensures ws.cells == FilledSheet(old(ws.cells), dayRows, slots, timeKey)
  {
    ghost var start := ws.cells;
    for i := 0 to |dayRows|
      invariant ws.cells == FilledSheet(start, dayRows[..i], slots, timeKey)
    {
      assert dayRows[..i + 1][..i] == dayRows[..i];
      WriteBooking(ws, dayRows[i], slots, timeKey);
    }
    assert dayRows[..|dayRows|] == dayRows;
  }

  // ----- all the sheets -----

  /** One generated file. */
  datatype Output = Output(name: string, sheet: Grid)

  function SheetName(day: string): string {
    "PartySheet_" + day + ".xlsx"
  }

  /** The sheet of one day: a fresh copy of the template filled with the
      bookings of that day, under the day's file name. */
  function DaySheet(rows: seq<Row>, template: Grid, parse: DateParser, day: string): Output {
    var dateKey := DateKey(rows);
    Output(SheetName(day), FilledSheet(template, RowsOn(rows, dateKey, parse, day), SlotIndex(template), TimeKey(rows)))
  }

  /** The sheets of `days`, in order. */
  function Sheets(rows: seq<Row>, template: Grid, parse: DateParser, days: seq<string>): (outs: seq<Output>)
    ensures |outs| == |days|
  {
    if days == [] then []
    else Sheets(rows, template, parse, days[..|days| - 1]) + [DaySheet(rows, template, parse, days[|days| - 1])]
  }

  /** One sheet per day key, in key order. */
  function PartySheets(rows: seq<Row>, template: Grid, parse: DateParser): (outs: seq<Output>)
    ensures |outs| == |DayKeys(rows, DateKey(rows), parse)|
  {
    Sheets(rows, template, parse, DayKeys(rows, DateKey(rows), parse))
  }

  lemma SheetsPush(rows: seq<Row>, template: Grid, parse: DateParser, days: seq<string>, i: nat)
    requires i < |days|
    ensures Sheets(rows, template, parse, days[..i + 1]) ==
      Sheets(rows, template, parse, days[..i]) + [DaySheet(rows, template, parse, days[i])]
  {
    assert days[..i + 1][..i] == days[..i];
  }

  /** The sheet at position `i` is the sheet of the `i`-th day. */
  lemma {:induction false} SheetsAt(rows: seq<Row>, template: Grid, parse: DateParser, days: seq<string>, i: nat)
    requires i < |days|
    ensures Sheets(rows, template, parse, days)[i] == DaySheet(rows, template, parse, days[i])
    decreases |days|
  {
    if i < |days| - 1 {
      SheetsAt(rows, template, parse, days[..|days| - 1], i);
    }
  }

  /** The body of the per-day loop of `generatePartySheets`: a fresh
      workbook is read from the template and filled with the day's rows. */
  method BuildDaySheet(rows: seq<Row>, template: Grid, parse: DateParser, slots: map<nat, int>,
                       timeKey: string, day: string, dayRows: seq<Row>) returns (out: Output)
    requires slots == SlotIndex(template) && timeKey == TimeKey(rows)
    requires dayRows == RowsOn(rows, DateKey(rows), parse, day)
    ensures out == DaySheet(rows, template, parse, day)
  {
    var ws := new Worksheet(template);
    FillSheet(ws, dayRows, slots, timeKey);
    out := Output(SheetName(day), ws.cells);
  }

  /** `generatePartySheets` without the file reading and writing: the
      template is given as its grid, each output is its file name and grid. */
  method GeneratePartySheets(rows: seq<Row>, template: Grid, parse: DateParser) returns (outputs: seq<Output>)
    ensures outputs == PartySheets(rows, template, parse)
  {
    var slots := BuildSlotIndex(template);
    var sample := if |rows| > 0 then rows[0] else map[];
    var dateKey := ResolveKey(sample, DateNames, "Date");
    var timeKey := ResolveKey(sample, TimeNames, "Time");
    var keys, byDate := GroupByDate(rows, dateKey, parse);
    outputs := [];
    for i := 0 to |keys|
      invariant outputs == Sheets(rows, template, parse, keys[..i])
    {
      var day := keys[i];
      var out := BuildDaySheet(rows, template, parse, slots, timeKey, day, byDate[day]);
      SheetsPush(rows, template, parse, keys, i);
      outputs := outputs + [out];
    }
    assert keys[..|keys|] == keys;
  }

  /** Distinct days give distinct file names. */
  lemma SheetNameInjective(a: string, b: string)
    requires SheetName(a) == SheetName(b)
    ensures a == b
  {
    var n := |"PartySheet_"|;
    assert |a| == |b|;
    assert a == SheetName(a)[n..n + |a|];
    assert b == SheetName(b)[n..n + |b|];
  }

  /** No two generated sheets share a file name. */
  lemma SheetNamesDistinct(rows: seq<Row>, template: Grid, parse: DateParser, i: nat, j: nat)
    requires i < j < |PartySheets(rows, template, parse)|
    ensures PartySheets(rows, template, parse)[i].name != PartySheets(rows, template, parse)[j].name
  {
    var days := DayKeys(rows, DateKey(rows), parse);
    SheetsAt(rows, template, parse, days, i);
    SheetsAt(rows, template, parse, days, j);
    if SheetName(days[i]) == SheetName(days[j]) {
      SheetNameInjective(days[i], days[j]);
    }
  }
}
