/** The records the pages share through the data store: a generated timetable, its grid
    entries, the signed-in user, and the status strings of the approval lifecycle. */
module Timetables {
  import opened Wrappers

  const Draft: string := "draft"
  const Pending: string := "pending"
  const Approved: string := "approved"
  const Rejected: string := "rejected"

  /** One class in the weekly grid; every field is display text. */
  datatype Entry = Entry(
    id: string,
    day: string,
    slot: string,
    subject: string,
    faculty: string,
    room: string,
    batch: string)

  /** A timetable record. `entries` may be absent in stored data; the optional
      stamps are absent until the matching workflow step sets them. */
  datatype Timetable = Timetable(
    id: int,
    name: string,
    createdBy: string,
    status: string,
    generatedAt: string,
    mode: string,
    entries: Option<seq<Entry>>,
    submittedAt: Option<string>,
    approvedBy: Option<string>,
    approvedAt: Option<string>,
    rejectedBy: Option<string>,
    rejectedAt: Option<string>)

  datatype User = User(name: string, role: string)

  /** The week grid that the generator fills and the viewer draws: five days, six
      one-hour slots. */
  const Days: seq<string> := ["Monday", "Tuesday", "Wednesday", "Thursday", "Friday"]
  const Slots: seq<string> := ["9:00-10:00", "10:00-11:00", "11:00-12:00", "12:00-1:00", "2:00-3:00", "3:00-4:00"]

  /** The day names differ. */
  lemma DaysDistinct()
    ensures forall i, j :: 0 <= i < j < |Days| ==> Days[i] != Days[j]
  {
    assert Days[0][0] == 'M' && Days[1][0] == 'T' && Days[2][0] == 'W' && Days[3][0] == 'T' && Days[4][0] == 'F';
    assert Days[1][1] == 'u' && Days[3][1] == 'h';
  }

  /** The slot names differ. */
  lemma SlotsDistinct()
    ensures forall i, j :: 0 <= i < j < |Slots| ==> Slots[i] != Slots[j]
  {
    assert |Slots[0]| == 10 && |Slots[4]| == 9 && |Slots[5]| == 9;
    assert Slots[1][1] == '0' && Slots[2][1] == '1' && Slots[3][1] == '2';
    assert Slots[4][0] == '2' && Slots[5][0] == '3';
  }

  /** The four statuses differ. */
  lemma StatusesDistinct()
    ensures Draft != Pending && Draft != Approved && Draft != Rejected
    ensures Pending != Approved && Pending != Rejected && Approved != Rejected
  {
    assert Draft[0] == 'd' && Pending[0] == 'p' && Approved[0] == 'a' && Rejected[0] == 'r';
  }

  /** Whether some record of the list has this id. */
  predicate HasId(ts: seq<Timetable>, id: int) {
    exists i :: 0 <= i < |ts| && ts[i].id == id
  }

  /** No two records of the list share an id. */
  predicate DistinctIds(ts: seq<Timetable>) {
    forall i, j :: 0 <= i < j < |ts| ==> ts[i].id != ts[j].id
  }
}
