/** The timetable viewer page: it selects one timetable of the list and draws its entries
    in the day-by-slot grid, one cell per day and slot, each showing the first entry on
    that day and slot, or "Free". */
module TimetableViewer {
  import opened Wrappers
  import opened JsText
  import opened Timetables
  import TimetableGenerator

  /** The position of the first element of `s` that satisfies `p`, as `findIndex` finds
      it, or `None` when there is none. `find` and the picker search with an arbitrary
      condition and must tell "absent" apart, hence the `Option`. */
  function FindFirst<T>(s: seq<T>, p: T -> bool): (r: Option<nat>)
    ensures r.Some? ==> r.value < |s| && p(s[r.value])
    ensures r.Some? ==> forall j :: 0 <= j < r.value ==> !p(s[j])
    ensures r.None? <==> forall j :: 0 <= j < |s| ==> !p(s[j])
  {
    if s == [] then None
    else if p(s[0]) then Some(0)
    else
      match FindFirst(s[1..], p)
      case None => None
      case Some(i) => Some(i + 1)
  }

  /** `useState(timetables[0] || null)`: the first timetable, if any. */
  function InitialSelection(ts: seq<Timetable>): (sel: Option<Timetable>)
    ensures sel.None? <==> ts == []
    ensures sel.Some? ==> sel.value == ts[0]
  {
    if ts == [] then None else Some(ts[0])
  }

  /** Whether an entry sits on this day and slot. */
  predicate At(e: Entry, day: string, slot: string) {
    e.day == day && e.slot == slot
  }

  /** `getClassForSlot(day, slot)`: nothing when no timetable is selected or it has no
      entries; otherwise the first entry on that day and slot, if any. */
  function ClassForSlot(sel: Option<Timetable>, day: string, slot: string): (r: Option<Entry>)
    ensures sel.None? || sel.value.entries.None? ==> r.None?
    ensures r.Some? ==> r.value.day == day && r.value.slot == slot
    ensures r.Some? ==> exists i: nat :: FirstAt(sel.value.entries.value, day, slot, i) && r.value == sel.value.entries.value[i]
    ensures sel.Some? && sel.value.entries.Some? ==>
      (r.None? <==> forall i :: 0 <= i < |sel.value.entries.value| ==> !At(sel.value.entries.value[i], day, slot))
  {
    match sel
    case None => None
    case Some(t) =>
      match t.entries
      case None => None
      case Some(es) =>
        var found := FindFirst(es, (e: Entry) => At(e, day, slot));
        if found.None? then None
        else
          assert FirstAt(es, day, slot, found.value);
          Some(es[found.value])
  }

  /** Entry `i` of `es` is on this day and slot and no earlier one is. */
  predicate FirstAt(es: seq<Entry>, day: string, slot: string, i: nat) {
    && i < |es|
    && At(es[i], day, slot)
    && forall j :: 0 <= j < i ==> !At(es[j], day, slot)
  }

  /** The table body: one row per slot, one cell per day in each row, holding what
      `getClassForSlot` returns for that day and slot. */
  function Grid(sel: Option<Timetable>): (rows: seq<seq<Option<Entry>>>)
    ensures |rows| == |Slots|
    ensures forall i :: 0 <= i < |rows| ==> |rows[i]| == |Days|
    ensures forall i, j :: 0 <= i < |Slots| && 0 <= j < |Days| ==>
      rows[i][j] == ClassForSlot(sel, Days[j], Slots[i])
  {
    seq(|Slots|, i requires 0 <= i < |Slots| =>
      seq(|Days|, j requires 0 <= j < |Days| => ClassForSlot(sel, Days[j], Slots[i])))
  }

  /** The `onChange` of the timetable picker: the first timetable whose id equals
      `parseInt(value)`, or none when nothing matches or the value does not parse. */
  function SelectById(ts: seq<Timetable>, value: string): (sel: Option<Timetable>)
    ensures ParseInt(value).None? ==> sel.None?
    ensures sel.Some? ==> ParseInt(value) == Some(sel.value.id)
    ensures sel.Some? ==> exists i: nat :: FirstWithId(ts, sel.value.id, i) && ts[i] == sel.value
    ensures ParseInt(value).Some? ==> (sel.None? <==> !HasId(ts, ParseInt(value).value))
  {
    match ParseInt(value)
    case None => None
    case Some(n) =>
      var found := FindFirst(ts, (t: Timetable) => t.id == n);
      if found.None? then None
      else
        assert FirstWithId(ts, n, found.value);
        Some(ts[found.value])
  }

  /** Record `i` of `ts` has this id and no earlier one has. */
  predicate FirstWithId(ts: seq<Timetable>, id: int, i: nat) {
    && i < |ts|
    && ts[i].id == id
    && forall j :: 0 <= j < i ==> ts[j].id != id
  }

  /** The "Total Classes" figure: `entries?.length || 0`. */
  function TotalClasses(t: Timetable): (n: nat)
    ensures t.entries.None? ==> n == 0
    ensures t.entries.Some? ==> n == |t.entries.value|
  {
    match t.entries
    case None => 0
    case Some(es) => |es|
  }

  /** Choosing a timetable's own option selects it: the option's value is the id written
      in decimal, and ids are distinct. */
  lemma SelectOwnOption(ts: seq<Timetable>, i: nat)
    requires i < |ts| && ts[i].id >= 0 && DistinctIds(ts)
    ensures SelectById(ts, NatToString(ts[i].id)) == Some(ts[i])
  {
    NatToStringRoundTrip(ts[i].id);
    var sel := SelectById(ts, NatToString(ts[i].id));
    assert HasId(ts, ts[i].id);
    var k: nat :| FirstWithId(ts, sel.value.id, k) && ts[k] == sel.value;
    assert k == i;
  }

  /** The grid of a freshly generated timetable shows, in each cell, that cell's entry
      exactly when the cell's draw kept it, and "Free" otherwise. */
  lemma GeneratedGrid(rand: TimetableGenerator.Random, now: int, dateLabel: string, isoNow: string, mode: string,
                      d: nat, s: nat)
    requires d < |Days| && s < |Slots|
    ensures var t := TimetableGenerator.NewTimetable(now, dateLabel, isoNow, mode, TimetableGenerator.SampleEntries(rand));
      Grid(Some(t))[s][d] ==
        if TimetableGenerator.Included(rand, d, s) then Some(TimetableGenerator.CellEntry(rand, d, s)) else None
  {
    var es := TimetableGenerator.SampleEntries(rand);
    var t := TimetableGenerator.NewTimetable(now, dateLabel, isoNow, mode, es);
    TimetableGenerator.GeneratedCellKept(rand, d, s);
    if TimetableGenerator.Included(rand, d, s) {
      var i :| 0 <= i < |es| && es[i].day == Days[d] && es[i].slot == Slots[s];
      assert At(es[i], Days[d], Slots[s]);
    } else {
      assert forall i :: 0 <= i < |es| ==> !At(es[i], Days[d], Slots[s]);
    }
  }

  /** A freshly generated timetable counts at most 30 classes, one per kept cell. */
  lemma GeneratedTotal(rand: TimetableGenerator.Random, now: int, dateLabel: string, isoNow: string, mode: string)
    ensures TotalClasses(TimetableGenerator.NewTimetable(now, dateLabel, isoNow, mode,
      TimetableGenerator.SampleEntries(rand))) <= TimetableGenerator.CellCount
  {
    TimetableGenerator.GeneratedEntriesOrdered(rand);
  }
}
