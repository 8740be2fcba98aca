/** The timetable generator page. Generation fills the 5 x 6 day/slot grid from
    `Math.random`: each cell is kept when its draw exceeds 0.3, and a kept cell gets a
    subject, a faculty, a room and a batch from four more draws. `Math.random` is an
    oracle here: the k-th call made returns `rand(k)`. */
module TimetableGenerator {
  import opened Wrappers
  import opened JsText
  import opened Timetables

  /** What `Math.random` returns: a number in [0, 1). */
  type UnitReal = r: real | 0.0 <= r < 1.0

  /** The successive results of `Math.random`. */
  type Random = nat -> UnitReal

  const Subjects: seq<string> := ["Mathematics", "Physics", "Chemistry", "Computer Science", "English"]

  /** A cell is kept when its draw is above this. */
  const Threshold: real := 0.3

  /** The number of cells in the grid: five days of six slots. */
  const CellCount: nat := 30

  /** The labels a kept cell can get. */
  const FacultyNames: seq<string> := ["Faculty 1", "Faculty 2", "Faculty 3", "Faculty 4", "Faculty 5"]
  const RoomNames: seq<string> := ["Room 101", "Room 102", "Room 103", "Room 104", "Room 105",
                                   "Room 106", "Room 107", "Room 108", "Room 109", "Room 110"]
  const BatchNames: seq<string> := ["Batch 1", "Batch 2", "Batch 3"]

  /** `Faculty ${f + 1}` for an index `f` below 5 is the `f`-th faculty label. */
  lemma FacultyLabel(f: nat)
    requires f < 5
    ensures "Faculty " + NatToString(f + 1) == FacultyNames[f]
  {
    SingleDigitString(f + 1);
  }

  /** `Room ${r + 101}` for an index `r` below 10 is the `r`-th room label. */
  lemma RoomLabel(r: nat)
    requires r < 10
    ensures "Room " + NatToString(r + 101) == RoomNames[r]
  {
    ThreeDigits(r + 101);
    var text := "Room " + NatToString(r + 101);
    if r < 9 {
      assert text == "Room 10" + [DigitChar(r + 1)];
      assert RoomNames[r] == "Room 10" + [DigitChar(r + 1)];
    } else {
      assert text == "Room 110";
    }
  }

  /** A three-digit number is written with its three digits. */
  lemma ThreeDigits(n: nat)
    requires 100 <= n < 1000
    ensures NatToString(n) == [DigitChar(n / 100), DigitChar(n / 10 % 10), DigitChar(n % 10)]
  {
    assert NatToString(n) == NatToString(n / 10) + [DigitChar(n % 10)];
    assert NatToString(n / 10) == NatToString(n / 100) + [DigitChar(n / 10 % 10)];
    SingleDigitString(n / 100);
  }

  /** `Batch ${b + 1}` for an index `b` below 3 is the `b`-th batch label. */
  lemma BatchLabel(b: nat)
    requires b < 3
    ensures "Batch " + NatToString(b + 1) == BatchNames[b]
  {
    SingleDigitString(b + 1);
  }

  /** `Math.floor(r * n)`: an index below `n`. */
  function Pick(r: UnitReal, n: nat): (i: nat)
    requires n > 0
    ensures i < n
  {
    var x := r * (n as real);
    assert 0.0 <= x < n as real;
    x.Floor
  }

  /** The number of draws made before cell (`d`, `s`) is visited, the cells being visited
      day by day and, within a day, slot by slot: one draw for each dropped cell, five for
      each kept one. Cell (`d`, 6), past the last slot, is cell (`d + 1`, 0). */
  function Cursor(rand: Random, d: nat, s: nat): nat
    requires s <= |Slots|
    decreases d, s
  {
    if s == 0 then (if d == 0 then 0 else Cursor(rand, d - 1, |Slots|))
    else
      var k := Cursor(rand, d, s - 1);
      k + if rand(k) > Threshold then 5 else 1
  }

  /** Whether cell (`d`, `s`) is kept: its own draw is above the threshold. */
  predicate Included(rand: Random, d: nat, s: nat)
    requires s < |Slots|
  {
    rand(Cursor(rand, d, s)) > Threshold
  }

  /** `${dayIndex}-${slotIndex}`. */
  function CellId(dayIndex: nat, slotIndex: nat): string {
    NatToString(dayIndex) + "-" + NatToString(slotIndex)
  }

  /** The object `generateSampleEntries` pushes for the cell (`d`, `s`) whose own draw
      was draw `k`: its subject, faculty, room and batch come from the next four draws,
      in that order. */
  function EntryFor(rand: Random, d: nat, s: nat, k: nat): Entry
    requires d < |Days| && s < |Slots|
  {
    Entry(CellId(d, s), Days[d], Slots[s],
          Subjects[Pick(rand(k + 1), |Subjects|)],
          FacultyNames[Pick(rand(k + 2), |FacultyNames|)],
          RoomNames[Pick(rand(k + 3), |RoomNames|)],
          BatchNames[Pick(rand(k + 4), |BatchNames|)])
  }

  /** The entry of a kept cell. */
  function CellEntry(rand: Random, d: nat, s: nat): Entry
    requires d < |Days| && s < |Slots|
  {
    EntryFor(rand, d, s, Cursor(rand, d, s))
  }

  /** The labels `generateSampleEntries` writes with template literals are the listed
      ones: `Faculty ${Math.floor(r * 5) + 1}`, `Room ${Math.floor(r * 10) + 101}` and
      `Batch ${Math.floor(r * 3) + 1}`. */
  lemma EntryForLabels(rand: Random, d: nat, s: nat, k: nat)
    requires d < |Days| && s < |Slots|
    ensures EntryFor(rand, d, s, k).faculty == "Faculty " + NatToString(Pick(rand(k + 2), 5) + 1)
    ensures EntryFor(rand, d, s, k).room == "Room " + NatToString(Pick(rand(k + 3), 10) + 101)
    ensures EntryFor(rand, d, s, k).batch == "Batch " + NatToString(Pick(rand(k + 4), 3) + 1)
  {
    FacultyLabel(Pick(rand(k + 2), 5));
    RoomLabel(Pick(rand(k + 3), 10));
    BatchLabel(Pick(rand(k + 4), 3));
  }

  /** The entries pushed before cell (`d`, `s`) is visited. */
  function EntriesBefore(rand: Random, d: nat, s: nat): seq<Entry>
    requires d <= |Days| && s <= |Slots| && (d == |Days| ==> s == 0)
    decreases d, s
  {
    if s == 0 then (if d == 0 then [] else EntriesBefore(rand, d - 1, |Slots|))
    else
      var kept := if Included(rand, d, s - 1) then [CellEntry(rand, d, s - 1)] else [];
      EntriesBefore(rand, d, s - 1) + kept
  }

  /** The entries `generateSampleEntries` returns: those pushed over the whole grid. */
  function SampleEntries(rand: Random): seq<Entry> {
    EntriesBefore(rand, |Days|, 0)
  }

  /** `generateSampleEntries()`: the nested `forEach` over days and slots, pushing an
      entry for each kept cell. */
  method GenerateSampleEntries(rand: Random) returns (entries: seq<Entry>)
    ensures entries == SampleEntries(rand)
  {
    entries := [];
    var k: nat := 0;
    for dayIndex := 0 to |Days|
      invariant k == Cursor(rand, dayIndex, 0)
      invariant entries == EntriesBefore(rand, dayIndex, 0)
    {
      entries, k := VisitDay(rand, dayIndex, entries, k);
    }
  }

  /** The inner `forEach` of `generateSampleEntries`, over the slots of day `dayIndex`:
      starting from the entries pushed and the draws made before that day, it pushes the
      day's kept cells and leaves the draw cursor at the next day. */
  method VisitDay(rand: Random, dayIndex: nat, entries0: seq<Entry>, k0: nat) returns (entries: seq<Entry>, k: nat)
    requires dayIndex < |Days|
    requires k0 == Cursor(rand, dayIndex, 0) && entries0 == EntriesBefore(rand, dayIndex, 0)
    ensures k == Cursor(rand, dayIndex + 1, 0) && entries == EntriesBefore(rand, dayIndex + 1, 0)
  {
    entries, k := entries0, k0;
    for slotIndex := 0 to |Slots|
      invariant k == Cursor(rand, dayIndex, slotIndex)
      invariant entries == EntriesBefore(rand, dayIndex, slotIndex)
    {
      if rand(k) > Threshold {
        entries := entries + [EntryFor(rand, dayIndex, slotIndex, k)];
        k := k + 5;
      } else {
        k := k + 1;
      }
    }
  }

  /** A grid cell, by day and slot index. */
  datatype Cell = Cell(day: nat, slot: nat)

  /** The position of cell (`d`, `s`) in visiting order, six slots a day. */
  function CellIndex(d: nat, s: nat): nat {
    6 * d + s
  }

  /** Whether `c` is visited before cell (`d`, `s`). */
  predicate Precedes(c: Cell, d: nat, s: nat) {
    c.slot < |Slots| && (c.day < d || (c.day == d && c.slot < s))
  }

  /** The kept cells visited before cell (`d`, `s`), in visiting order. */
  function KeptBefore(rand: Random, d: nat, s: nat): seq<Cell>
    requires s <= |Slots|
    decreases d, s
  {
    if s == 0 then (if d == 0 then [] else KeptBefore(rand, d - 1, |Slots|))
    else
      var kept := if Included(rand, d, s - 1) then [Cell(d, s - 1)] else [];
      KeptBefore(rand, d, s - 1) + kept
  }

  /** Every cell of `cs` is visited before cell (`d`, `s`). */
  predicate AllPrecede(cs: seq<Cell>, d: nat, s: nat) {
    forall i :: 0 <= i < |cs| ==> Precedes(cs[i], d, s)
  }

  /** The cells of `cs` come in visiting order, each once. */
  predicate InVisitOrder(cs: seq<Cell>) {
    forall i, j :: 0 <= i < j < |cs| ==> CellIndex(cs[i].day, cs[i].slot) < CellIndex(cs[j].day, cs[j].slot)
  }

  /** The kept cells visited before cell (`d`, `s`) are visited before it, in visiting
      order. */
  lemma {:induction false} KeptBeforeOrdered(rand: Random, d: nat, s: nat)
    requires s <= |Slots|
    ensures AllPrecede(KeptBefore(rand, d, s), d, s)
    ensures InVisitOrder(KeptBefore(rand, d, s))
    decreases d, s
  {
    if s == 0 {
      if d > 0 {
        KeptBeforeOrdered(rand, d - 1, |Slots|);
        var cs := KeptBefore(rand, d - 1, |Slots|);
        assert KeptBefore(rand, d, s) == cs;
        assert forall i :: 0 <= i < |cs| ==> Precedes(cs[i], d - 1, |Slots|);
      }
    } else {
      KeptBeforeOrdered(rand, d, s - 1);
      var prev := KeptBefore(rand, d, s - 1);
      assert forall i :: 0 <= i < |prev| ==> Precedes(prev[i], d, s - 1);
      if Included(rand, d, s - 1) {
        var cs := prev + [Cell(d, s - 1)];
        assert KeptBefore(rand, d, s) == cs;
        forall i | 0 <= i < |cs| ensures Precedes(cs[i], d, s) {
          if i < |prev| {
            assert cs[i] == prev[i];
          }
        }
        forall i, j | 0 <= i < j < |cs|
          ensures CellIndex(cs[i].day, cs[i].slot) < CellIndex(cs[j].day, cs[j].slot)
        {
          assert cs[i] == prev[i];
          if j < |prev| {
            assert cs[j] == prev[j];
          } else {
            assert cs[j] == Cell(d, s - 1);
          }
        }
      } else {
        assert KeptBefore(rand, d, s) == prev;
      }
    }
  }

  /** A cell visited before cell (`d`, `s`) is among the kept cells exactly when its own
      draw is above the threshold. */
  lemma {:induction false} KeptBeforeIncluded(rand: Random, d: nat, s: nat)
    requires s <= |Slots|
    ensures forall c: Cell :: Precedes(c, d, s) ==> (c in KeptBefore(rand, d, s) <==> Included(rand, c.day, c.slot))
    decreases d, s
  {
    if s == 0 {
      if d > 0 {
        KeptBeforeIncluded(rand, d - 1, |Slots|);
      }
    } else {
      KeptBeforeIncluded(rand, d, s - 1);
      var prev := KeptBefore(rand, d, s - 1);
      var kept := if Included(rand, d, s - 1) then [Cell(d, s - 1)] else [];
      assert KeptBefore(rand, d, s) == prev + kept;
      forall c: Cell | Precedes(c, d, s)
        ensures c in prev + kept <==> Included(rand, c.day, c.slot)
      {
        assert c in prev + kept <==> c in prev || c in kept;
        if c == Cell(d, s - 1) {
          KeptBeforeOrdered(rand, d, s - 1);
          forall i | 0 <= i < |prev| ensures prev[i] != c {
            assert Precedes(prev[i], d, s - 1);
          }
        }
      }
    }
  }

  /** `es` holds the entries of the cells `cs` of the grid, one for each, in the same
      order. */
  predicate EntriesOf(rand: Random, es: seq<Entry>, cs: seq<Cell>) {
    && |es| == |cs|
    && forall i :: 0 <= i < |cs| ==>
         cs[i].day < |Days| && cs[i].slot < |Slots| && es[i] == CellEntry(rand, cs[i].day, cs[i].slot)
  }

  /** The entries pushed before cell (`d`, `s`) are those of the kept cells visited
      before it. */
  lemma {:induction false} EntriesBeforeKept(rand: Random, d: nat, s: nat)
    requires d <= |Days| && s <= |Slots| && (d == |Days| ==> s == 0)
    ensures EntriesOf(rand, EntriesBefore(rand, d, s), KeptBefore(rand, d, s))
    decreases d, s
  {
    if s == 0 {
      if d > 0 {
        EntriesBeforeKept(rand, d - 1, |Slots|);
        assert EntriesBefore(rand, d, 0) == EntriesBefore(rand, d - 1, |Slots|);
        assert KeptBefore(rand, d, 0) == KeptBefore(rand, d - 1, |Slots|);
      } else {
        assert EntriesBefore(rand, d, 0) == [] && KeptBefore(rand, d, 0) == [];
      }
    } else {
      EntriesBeforeKept(rand, d, s - 1);
      var prevC, prevE := KeptBefore(rand, d, s - 1), EntriesBefore(rand, d, s - 1);
      if Included(rand, d, s - 1) {
        assert KeptBefore(rand, d, s) == prevC + [Cell(d, s - 1)];
        assert EntriesBefore(rand, d, s) == prevE + [CellEntry(rand, d, s - 1)];
        EntriesOfAppend(rand, prevE, prevC, d, s - 1);
      } else {
        assert KeptBefore(rand, d, s) == prevC && EntriesBefore(rand, d, s) == prevE;
      }
    }
  }

  /** Appending a cell and its entry keeps the two lists in step. */
  lemma EntriesOfAppend(rand: Random, es: seq<Entry>, cs: seq<Cell>, d: nat, s: nat)
    requires d < |Days| && s < |Slots| && EntriesOf(rand, es, cs)
    ensures EntriesOf(rand, es + [CellEntry(rand, d, s)], cs + [Cell(d, s)])
  {
    var es', cs' := es + [CellEntry(rand, d, s)], cs + [Cell(d, s)];
    forall i | 0 <= i < |cs'|
      ensures cs'[i].day < |Days| && cs'[i].slot < |Slots| && es'[i] == CellEntry(rand, cs'[i].day, cs'[i].slot)
    {
      if i < |cs| {
        assert cs'[i] == cs[i] && es'[i] == es[i];
      }
    }
  }

  /** The facts about the whole grid that the lemmas below use. */
  lemma GridCells(rand: Random)
    ensures EntriesOf(rand, SampleEntries(rand), KeptBefore(rand, |Days|, 0))
    ensures InVisitOrder(KeptBefore(rand, |Days|, 0))
    ensures forall c: Cell :: Precedes(c, |Days|, 0) ==>
      (c in KeptBefore(rand, |Days|, 0) <==> Included(rand, c.day, c.slot))
  {
    KeptBeforeOrdered(rand, |Days|, 0);
    KeptBeforeIncluded(rand, |Days|, 0);
    EntriesBeforeKept(rand, |Days|, 0);
  }

  /** The first position of `x` in `s`, or `|s|` when it is absent: reads a day or slot
      name back to its index. It searches by equality, without the condition function
      and the `Option` of `TimetableViewer.FindFirst`, so that the grid lemmas, which
      unfold it at every cell, stay small. */
  function IndexOf(s: seq<string>, x: string): (i: nat)
    ensures i <= |s|
    ensures i < |s| ==> s[i] == x
    ensures forall j :: 0 <= j < i ==> s[j] != x
  {
    if s == [] then 0 else if s[0] == x then 0 else 1 + IndexOf(s[1..], x)
  }

  /** The position in visiting order of the cell an entry stands in, read back from its
      day and slot. */
  function CellOf(e: Entry): nat {
    CellIndex(IndexOf(Days, e.day), IndexOf(Slots, e.slot))
  }

  /** The day, slot and id of a cell's entry name that cell and no other. */
  lemma CellEntryPlace(rand: Random, d: nat, s: nat)
    requires d < |Days| && s < |Slots|
    ensures CellEntry(rand, d, s).day == Days[d] && CellEntry(rand, d, s).slot == Slots[s]
    ensures IndexOf(Days, CellEntry(rand, d, s).day) == d && IndexOf(Slots, CellEntry(rand, d, s).slot) == s
    ensures CellEntry(rand, d, s).id == [DigitChar(d), '-', DigitChar(s)]
  {
    DaysDistinct();
    SlotsDistinct();
    SingleDigitString(d);
    SingleDigitString(s);
  }

  /** Every generated entry sits on one of the five days and six slots, carries the id
      of its cell, and has its subject, faculty, room and batch from the fixed lists. */
  lemma GeneratedEntryFields(rand: Random)
    ensures var es := SampleEntries(rand);
      forall i :: 0 <= i < |es| ==>
        && es[i].day in Days && es[i].slot in Slots
        && es[i].id == CellId(IndexOf(Days, es[i].day), IndexOf(Slots, es[i].slot))
        && es[i].subject in Subjects && es[i].faculty in FacultyNames
        && es[i].room in RoomNames && es[i].batch in BatchNames
  {
    var es, cs := SampleEntries(rand), KeptBefore(rand, |Days|, 0);
    GridCells(rand);
    forall i | 0 <= i < |es|
      ensures es[i].day in Days && es[i].slot in Slots
      ensures es[i].id == CellId(IndexOf(Days, es[i].day), IndexOf(Slots, es[i].slot))
      ensures es[i].subject in Subjects && es[i].faculty in FacultyNames
      ensures es[i].room in RoomNames && es[i].batch in BatchNames
    {
      CellEntryPlace(rand, cs[i].day, cs[i].slot);
    }
  }

  /** The generated entries hold at most one entry per cell, so at most 30, in day-major
      then slot order, with distinct ids. */
  lemma GeneratedEntriesOrdered(rand: Random)
    ensures var es := SampleEntries(rand);
      && |es| <= CellCount
      && (forall i, j :: 0 <= i < j < |es| ==> CellOf(es[i]) < CellOf(es[j]) && es[i].id != es[j].id)
  {
    var es, cs := SampleEntries(rand), KeptBefore(rand, |Days|, 0);
    GridCells(rand);
    forall i | 0 <= i < |es|
      ensures CellOf(es[i]) == CellIndex(cs[i].day, cs[i].slot) < CellCount
      ensures es[i].id == [DigitChar(cs[i].day), '-', DigitChar(cs[i].slot)]
    {
      CellEntryPlace(rand, cs[i].day, cs[i].slot);
    }
    forall i, j | 0 <= i < j < |es|
      ensures es[i].id != es[j].id
    {
      assert cs[i] != cs[j];
      assert es[i].id[0] == DigitChar(cs[i].day) && es[j].id[0] == DigitChar(cs[j].day);
      assert es[i].id[2] == DigitChar(cs[i].slot) && es[j].id[2] == DigitChar(cs[j].slot);
    }
    StrictlyIncreasingBound(seq(|es|, i requires 0 <= i < |es| => CellOf(es[i])), CellCount);
  }

  /** A strictly increasing sequence of numbers below `n` has at most `n` elements. */
  lemma {:induction false} StrictlyIncreasingBound(xs: seq<nat>, n: nat)
    requires forall i, j :: 0 <= i < j < |xs| ==> xs[i] < xs[j]
    requires forall i :: 0 <= i < |xs| ==> xs[i] < n
    ensures |xs| <= n
  {
    if |xs| > 0 {
      var init := xs[..|xs| - 1];
      assert forall i :: 0 <= i < |init| ==> init[i] < xs[|xs| - 1];
      StrictlyIncreasingBound(init, xs[|xs| - 1]);
    }
  }

  /** A cell has a generated entry exactly when its own draw is above the threshold,
      and that entry is the cell's. */
  lemma GeneratedCellKept(rand: Random, d: nat, s: nat)
    requires d < |Days| && s < |Slots|
    ensures var es := SampleEntries(rand);
      (exists i :: 0 <= i < |es| && es[i].day == Days[d] && es[i].slot == Slots[s]) <==> Included(rand, d, s)
    ensures var es := SampleEntries(rand);
      forall i :: 0 <= i < |es| && es[i].day == Days[d] && es[i].slot == Slots[s] ==> es[i] == CellEntry(rand, d, s)
  {
    var es, cs := SampleEntries(rand), KeptBefore(rand, |Days|, 0);
    GridCells(rand);
    assert Precedes(Cell(d, s), |Days|, 0);
    DaysDistinct();
    SlotsDistinct();
    forall i | 0 <= i < |es| && es[i].day == Days[d] && es[i].slot == Slots[s]
      ensures cs[i] == Cell(d, s)
    {
      CellEntryPlace(rand, cs[i].day, cs[i].slot);
    }
    if Included(rand, d, s) {
      var i :| 0 <= i < |cs| && cs[i] == Cell(d, s);
      CellEntryPlace(rand, d, s);
      assert es[i].day == Days[d] && es[i].slot == Slots[s];
    }
  }

  // ------------------------------------------------------------------
  // The page state.

  /** `Math.max(1, Math.min(10, prev + amount))`. */
  function ClampMaxClasses(prev: int, amount: int): (r: int)
    ensures 1 <= r <= 10
    ensures 1 <= prev + amount <= 10 ==> r == prev + amount
    ensures prev + amount < 1 ==> r == 1
    ensures prev + amount > 10 ==> r == 10
  {
    var lowered := if 10 < prev + amount then 10 else prev + amount;
    if 1 > lowered then 1 else lowered
  }

  /** The record `generateTimetable(mode)` appends: a draft created by the admin, with the
      given time stamps and entries. */
  function NewTimetable(now: int, dateLabel: string, isoNow: string, mode: string, entries: seq<Entry>): Timetable {
    Timetable(now, "Generated Timetable - " + dateLabel, "Admin User", Draft, isoNow, mode,
              Some(entries), None, None, None, None, None)
  }

  /** The mode `handleAIGenerate` passes on, or `None` when the prompt is blank and no
      generation starts: "AI Prompt: ", then the first (at most) 20 characters of the
      prompt as typed, then "...". */
  function AiMode(prompt: string): (r: Option<string>)
    ensures r.None? <==> AllWhitespace(prompt)
    ensures r.Some? ==>
      var n := if |prompt| < 20 then |prompt| else 20;
      && |r.value| == 14 + n
      && r.value[..11] == "AI Prompt: "
      && r.value[11..11 + n] == prompt[..n]
      && r.value[11 + n..] == "..."
  {
    BlankIffAllWhitespace(prompt);
    if IsBlank(prompt) then None
    else
      var head, middle := "AI Prompt: ", Prefix(prompt, 20);
      var text := head + middle + "...";
      assert text[..11] == head && text[11..11 + |middle|] == middle && text[11 + |middle|..] == "...";
      Some(text)
  }

  /** `s.slice().reverse()`. */
  function Reverse<T>(s: seq<T>): (r: seq<T>)
    ensures |r| == |s|
    ensures forall i :: 0 <= i < |s| ==> r[i] == s[|s| - 1 - i]
  {
    if s == [] then [] else Reverse(s[1..]) + [s[0]]
  }

  /** `timetables.slice(-3).reverse()`: the last three (or fewer), newest first. */
  function Recent<T>(ts: seq<T>): (r: seq<T>)
    ensures |r| == if |ts| < 3 then |ts| else 3
    ensures forall i :: 0 <= i < |r| ==> r[i] == ts[|ts| - 1 - i]
  {
    Reverse(if |ts| < 3 then ts else ts[|ts| - 3..])
  }

  /** After a timetable is appended, it heads the recent list and the older recent ones
      follow it. */
  lemma RecentAfterAppend<T>(ts: seq<T>, t: T)
    ensures Recent(ts + [t])[0] == t
    ensures Recent(ts + [t])[1..] == Recent(ts)[..if |ts| < 2 then |ts| else 2]
  {
    var u := ts + [t];
    var r, q := Recent(u), Recent(ts);
    var m := if |ts| < 2 then |ts| else 2;
    assert r[0] == u[|ts|];
    forall i | 0 <= i < m ensures r[1..][i] == q[..m][i] {
      calc {
        r[1..][i];
        r[i + 1];
        u[|ts| - 1 - i];
        ts[|ts| - 1 - i];
        q[i];
      }
    }
  }

  /** The generator page: the shared timetable list, the max-classes-per-day setting,
      the prompt being typed and the last timetable generated. */
  class GeneratorPage {
    var timetables: seq<Timetable>
    var maxClassesPerDay: int
    var prompt: string
    var lastGenerated: Option<Timetable>

    /** The setting stays within the range the buttons clamp it to. */
    ghost predicate Valid()
      reads this
    {
      1 <= maxClassesPerDay <= 10
    }

    constructor (timetables: seq<Timetable>)
      ensures Valid()
      ensures this.timetables == timetables && maxClassesPerDay == 6
      ensures prompt == "" && lastGenerated == None
    {
      this.timetables := timetables;
      maxClassesPerDay := 6;
      prompt := "";
      lastGenerated := None;
    }

    /** `handleMaxClassesChange(amount)`. */
    method ChangeMaxClasses(amount: int)
      requires Valid()
      modifies this
      ensures Valid()
      ensures maxClassesPerDay == ClampMaxClasses(old(maxClassesPerDay), amount)
      ensures timetables == old(timetables) && prompt == old(prompt) && lastGenerated == old(lastGenerated)
    {
      maxClassesPerDay := ClampMaxClasses(maxClassesPerDay, amount);
    }

    /** `generateTimetable(mode)`, with the three-second delay taken as immediate: the
        new draft goes at the end of the list and becomes the last generated one. */
    method Generate(mode: string, now: int, dateLabel: string, isoNow: string, rand: Random)
      requires Valid()
      modifies this
      ensures Valid()
      ensures timetables == old(timetables) + [NewTimetable(now, dateLabel, isoNow, mode, SampleEntries(rand))]
      ensures lastGenerated == Some(timetables[|timetables| - 1])
      ensures maxClassesPerDay == old(maxClassesPerDay) && prompt == old(prompt)
    {
      lastGenerated := None;
      var entries := GenerateSampleEntries(rand);
      var t := NewTimetable(now, dateLabel, isoNow, mode, entries);
      timetables := timetables + [t];
      lastGenerated := Some(t);
    }

    /** The prompt box's `onChange`: `setPrompt(value)`. */
    method SetPrompt(value: string)
      requires Valid()
      modifies this
      ensures Valid()
      ensures prompt == value
      ensures timetables == old(timetables) && maxClassesPerDay == old(maxClassesPerDay)
      ensures lastGenerated == old(lastGenerated)
    {
      prompt := value;
    }

    /** `handleAIGenerate()`: nothing happens for a blank prompt; otherwise a generation
        with the prompt's mode. */
    method AiGenerate(now: int, dateLabel: string, isoNow: string, rand: Random) returns (started: bool)
      requires Valid()
      modifies this
      ensures Valid()
      ensures started <==> !AllWhitespace(prompt)
      ensures started ==>
        timetables == old(timetables) +
          [NewTimetable(now, dateLabel, isoNow, AiMode(prompt).value, SampleEntries(rand))]
      ensures started ==> lastGenerated == Some(timetables[|timetables| - 1])
      ensures !started ==> timetables == old(timetables) && lastGenerated == old(lastGenerated)
      ensures maxClassesPerDay == old(maxClassesPerDay) && prompt == old(prompt)
    {
      var mode := AiMode(prompt);
      if mode.None? {
        return false;
      }
      Generate(mode.value, now, dateLabel, isoNow, rand);
      return true;
    }
  }
}
