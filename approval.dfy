/** The approval workflow page. Its three handlers each replace the whole timetable
    list by a copy in which every record with the given id is rewritten and every other
    record is kept; they do not look at the record's current status. Which transition is
    offered for which record is decided separately, when the buttons are rendered. */
module ApprovalWorkflow {
  import opened Wrappers
  import opened JsText
  import opened Timetables

  /** `ts.map(t => t.id === id ? f(t) : t)`. */
  function UpdateById(ts: seq<Timetable>, id: int, f: Timetable -> Timetable): (r: seq<Timetable>)
    ensures |r| == |ts|
    ensures forall i :: 0 <= i < |ts| ==> r[i] == if ts[i].id == id then f(ts[i]) else ts[i]
  {
    if ts == [] then []
    else [if ts[0].id == id then f(ts[0]) else ts[0]] + UpdateById(ts[1..], id, f)
  }

  function ApprovedRecord(user: User, at: string): Timetable -> Timetable {
    (t: Timetable) => t.(status := Approved, approvedBy := Some(user.name), approvedAt := Some(at))
  }

  function RejectedRecord(user: User, at: string): Timetable -> Timetable {
    (t: Timetable) => t.(status := Rejected, rejectedBy := Some(user.name), rejectedAt := Some(at))
  }

  function SubmittedRecord(at: string): Timetable -> Timetable {
    (t: Timetable) => t.(status := Pending, submittedAt := Some(at))
  }

  /** `handleApprove(id)` at time `at`, signed in as `user`. */
  function Approve(ts: seq<Timetable>, id: int, user: User, at: string): (r: seq<Timetable>)
    ensures |r| == |ts|
    ensures forall i :: 0 <= i < |ts| && ts[i].id != id ==> r[i] == ts[i]
    ensures forall i :: 0 <= i < |ts| && ts[i].id == id ==>
      && r[i].status == Approved && r[i].approvedBy == Some(user.name) && r[i].approvedAt == Some(at)
      && r[i].(status := ts[i].status, approvedBy := ts[i].approvedBy, approvedAt := ts[i].approvedAt) == ts[i]
  {
    UpdateById(ts, id, ApprovedRecord(user, at))
  }

  /** `handleReject(id)` at time `at`, signed in as `user`. */
  function Reject(ts: seq<Timetable>, id: int, user: User, at: string): (r: seq<Timetable>)
    ensures |r| == |ts|
    ensures forall i :: 0 <= i < |ts| && ts[i].id != id ==> r[i] == ts[i]
    ensures forall i :: 0 <= i < |ts| && ts[i].id == id ==>
      && r[i].status == Rejected && r[i].rejectedBy == Some(user.name) && r[i].rejectedAt == Some(at)
      && r[i].(status := ts[i].status, rejectedBy := ts[i].rejectedBy, rejectedAt := ts[i].rejectedAt) == ts[i]
  {
    UpdateById(ts, id, RejectedRecord(user, at))
  }

  /** `handleSubmitForApproval(id)` at time `at`. */
  function Submit(ts: seq<Timetable>, id: int, at: string): (r: seq<Timetable>)
    ensures |r| == |ts|
    ensures forall i :: 0 <= i < |ts| && ts[i].id != id ==> r[i] == ts[i]
    ensures forall i :: 0 <= i < |ts| && ts[i].id == id ==>
      && r[i].status == Pending && r[i].submittedAt == Some(at)
      && r[i].(status := ts[i].status, submittedAt := ts[i].submittedAt) == ts[i]
  {
    UpdateById(ts, id, SubmittedRecord(at))
  }

  /** A handler called with an id no record has returns the list as it was. */
  lemma {:induction false} UpdateMissingIdIsIdentity(ts: seq<Timetable>, id: int, f: Timetable -> Timetable)
    requires !HasId(ts, id)
    ensures UpdateById(ts, id, f) == ts
  {
    if ts != [] {
      assert ts[0].id != id;
      UpdateMissingIdIsIdentity(ts[1..], id, f);
    }
  }

  // ------------------------------------------------------------------
  // Which buttons a record shows.

  /** The Submit button is rendered only for a draft. */
  predicate CanSubmit(t: Timetable) {
    t.status == Draft
  }

  /** Approve and Reject are rendered only for a pending record, and only to an admin. */
  predicate CanReview(t: Timetable, user: User) {
    t.status == Pending && user.role == "admin"
  }

  datatype Action = SubmitAction | ApproveAction | RejectAction

  /** One button click: the action, the id of the record it was rendered for, and the time. */
  datatype Step = Step(action: Action, id: int, at: string)

  predicate ShowsButton(t: Timetable, user: User, action: Action) {
    match action
    case SubmitAction => CanSubmit(t)
    case ApproveAction => CanReview(t, user)
    case RejectAction => CanReview(t, user)
  }

  /** Some record with the step's id renders the step's button. */
  predicate Offered(ts: seq<Timetable>, user: User, step: Step) {
    exists i :: 0 <= i < |ts| && ts[i].id == step.id && ShowsButton(ts[i], user, step.action)
  }

  /** What the click does: the handler runs whatever the record's status. */
  function Apply(ts: seq<Timetable>, user: User, step: Step): seq<Timetable> {
    match step.action
    case SubmitAction => Submit(ts, step.id, step.at)
    case ApproveAction => Approve(ts, step.id, user, step.at)
    case RejectAction => Reject(ts, step.id, user, step.at)
  }

  /** The status changes the buttons allow: none, draft to pending, pending to approved
      or rejected. */
  predicate AllowedChange(from: string, to: string) {
    || from == to
    || (from == Draft && to == Pending)
    || (from == Pending && (to == Approved || to == Rejected))
  }

  /** What one offered click may do to one record: keep its id, change its status only
      as the buttons allow, approve or reject it only from pending under an admin and
      with that admin's name and the time, and leave an approved or rejected record
      exactly as it was. */
  predicate StepEffect(before: Timetable, after: Timetable, user: User, step: Step) {
    && after.id == before.id
    && AllowedChange(before.status, after.status)
    && (after.status == Approved && before.status != Approved ==>
          before.status == Pending && user.role == "admin" && step.action == ApproveAction &&
          after.approvedBy == Some(user.name) && after.approvedAt == Some(step.at))
    && (after.status == Rejected && before.status != Rejected ==>
          before.status == Pending && user.role == "admin" && step.action == RejectAction &&
          after.rejectedBy == Some(user.name) && after.rejectedAt == Some(step.at))
    && (before.status == Approved || before.status == Rejected ==> after == before)
  }

  /** One offered click on a list with distinct ids keeps the list's length and has only
      the effect `StepEffect` allows on each record. */
  lemma OfferedStepEffect(ts: seq<Timetable>, user: User, step: Step)
    requires DistinctIds(ts)
    requires Offered(ts, user, step)
    ensures |Apply(ts, user, step)| == |ts|
    ensures forall i :: 0 <= i < |ts| ==> StepEffect(ts[i], Apply(ts, user, step)[i], user, step)
  {
    StatusesDistinct();
    var r := Apply(ts, user, step);
    var j :| 0 <= j < |ts| && ts[j].id == step.id && ShowsButton(ts[j], user, step.action);
    forall i | 0 <= i < |ts|
      ensures StepEffect(ts[i], r[i], user, step)
    {
      if ts[i].id == step.id {
        assert i == j;
      }
    }
  }

  /** Without distinct ids the gating does not protect other records: a Submit offered
      on a draft also rewrites an approved record that shares its id, taking it back to
      pending. */
  lemma SharedIdSubmitReopensApproved(a: Timetable, b: Timetable, user: User, at: string)
    requires a.status == Draft && b.status == Approved && a.id == b.id
    ensures Offered([a, b], user, Step(SubmitAction, a.id, at))
    ensures !AllowedChange(b.status, Apply([a, b], user, Step(SubmitAction, a.id, at))[1].status)
  {
    assert ShowsButton([a, b][0], user, SubmitAction);
  }

  // ------------------------------------------------------------------
  // Sequences of clicks.

  /** The list after the clicks `steps`, one after the other. */
  function Run(ts: seq<Timetable>, user: User, steps: seq<Step>): (r: seq<Timetable>)
    ensures |r| == |ts| && forall i :: 0 <= i < |ts| ==> r[i].id == ts[i].id
    decreases |steps|
  {
    if steps == [] then ts else Run(Apply(ts, user, steps[0]), user, steps[1..])
  }

  /** Every click of the run was on a button that was rendered at that moment. */
  predicate OfferedRun(ts: seq<Timetable>, user: User, steps: seq<Step>)
    decreases |steps|
  {
    steps == [] || (Offered(ts, user, steps[0]) && OfferedRun(Apply(ts, user, steps[0]), user, steps[1..]))
  }

  /** Along a run, the statuses of the record at position `i`, before each click and at
      the end. */
  function History(ts: seq<Timetable>, user: User, steps: seq<Step>, i: nat): (h: seq<string>)
    requires i < |ts|
    ensures |h| == |steps| + 1 && h[0] == ts[i].status
    ensures h[|steps|] == Run(ts, user, steps)[i].status
    decreases |steps|
  {
    if steps == [] then [ts[i].status]
    else [ts[i].status] + History(Apply(ts, user, steps[0]), user, steps[1..], i)
  }

  /** A status sequence each of whose changes the buttons allow. */
  predicate IsChain(h: seq<string>) {
    forall k :: 0 <= k < |h| - 1 ==> AllowedChange(h[k], h[k + 1])
  }

  /** In an offered run on a list with distinct ids, every record's status history is a
      chain of allowed changes. */
  lemma {:induction false} OfferedRunHistory(ts: seq<Timetable>, user: User, steps: seq<Step>, i: nat)
    requires DistinctIds(ts) && OfferedRun(ts, user, steps) && i < |ts|
    ensures IsChain(History(ts, user, steps, i))
    decreases |steps|
  {
    if steps != [] {
      var next := Apply(ts, user, steps[0]);
      OfferedStepEffect(ts, user, steps[0]);
      OfferedRunHistory(next, user, steps[1..], i);
      var h := History(ts, user, steps, i);
      var t := History(next, user, steps[1..], i);
      assert h == [ts[i].status] + t;
      forall k | 0 <= k < |h| - 1
        ensures AllowedChange(h[k], h[k + 1])
      {
        if k > 0 {
          assert h[k] == t[k - 1] && h[k + 1] == t[k];
        }
      }
    }
  }

  /** The history goes from draft to pending at some point and, later, from pending to
      approved. */
  predicate ViaPending(h: seq<string>) {
    exists p, m :: 0 < p < m < |h| && h[p - 1] == Draft && h[p] == Pending &&
                   h[m - 1] == Pending && h[m] == Approved
  }

  /** In a chain, approval is entered only from pending, pending only from draft, and a
      chain that starts at draft and ends approved passes draft, then pending, then
      approved. */
  lemma ChainApprovedViaPending(h: seq<string>)
    requires IsChain(h) && |h| > 0 && h[0] == Draft && h[|h| - 1] == Approved
    ensures ViaPending(h)
  {
    var m := FirstIndexOf(h, Approved);
    assert h[m - 1] == Pending;
    var p := FirstIndexOf(h, Pending);
    assert p < m;
    assert h[p - 1] == Draft by {
      assert AllowedChange(h[p - 1], h[p]);
      assert h[p - 1] != Approved;
    }
  }

  /** The first position of `x` in `h`, which holds it somewhere. It needs no "absent"
      case, since the chain lemmas call it only on a status the history reaches, and like
      `TimetableGenerator.IndexOf` it searches by equality so that those lemmas stay
      cheap. */
  function FirstIndexOf(h: seq<string>, x: string): (k: nat)
    requires exists j :: 0 <= j < |h| && h[j] == x
    ensures k < |h| && h[k] == x
    ensures forall j :: 0 <= j < k ==> h[j] != x
  {
    if h[0] == x then 0
    else
      assert exists j :: 0 <= j < |h[1..]| && h[1..][j] == x by {
        var j :| 0 <= j < |h| && h[j] == x;
        assert h[1..][j - 1] == x;
      }
      1 + FirstIndexOf(h[1..], x)
  }

  /** In a chain, approved and rejected are final. */
  lemma {:induction false} ChainTerminal(h: seq<string>, k: nat)
    requires IsChain(h) && k < |h| && (h[k] == Approved || h[k] == Rejected)
    ensures forall l :: k <= l < |h| ==> h[l] == h[k]
    decreases |h| - k
  {
    if k + 1 < |h| {
      assert AllowedChange(h[k], h[k + 1]);
      ChainTerminal(h, k + 1);
    }
  }

  /** Along offered clicks on a list with distinct ids, a draft that ends up approved was
      submitted (draft to pending) and later approved (pending to approved), by a user who
      is an admin. That it then stays approved is `ChainTerminal`'s. */
  lemma {:induction false} ApprovedOnlyViaPending(ts: seq<Timetable>, user: User, steps: seq<Step>, i: nat)
    requires DistinctIds(ts) && OfferedRun(ts, user, steps) && i < |ts|
    requires ts[i].status == Draft
    requires Run(ts, user, steps)[i].status == Approved
    ensures ViaPending(History(ts, user, steps, i))
    ensures user.role == "admin"
  {
    var h := History(ts, user, steps, i);
    OfferedRunHistory(ts, user, steps, i);
    ChainApprovedViaPending(h);
    StatusesDistinct();
    ApprovedByAdmin(ts, user, steps, i);
  }

  /** Along offered clicks on a list with distinct ids, a record that was not approved and
      ends up approved was approved by an admin: only the Approve button sets the status,
      and it is rendered only to an admin. */
  lemma {:induction false} ApprovedByAdmin(ts: seq<Timetable>, user: User, steps: seq<Step>, i: nat)
    requires DistinctIds(ts) && OfferedRun(ts, user, steps) && i < |ts|
    requires ts[i].status != Approved
    requires Run(ts, user, steps)[i].status == Approved
    ensures user.role == "admin"
    decreases |steps|
  {
    if steps != [] {
      var next := Apply(ts, user, steps[0]);
      OfferedStepEffect(ts, user, steps[0]);
      assert Run(ts, user, steps) == Run(next, user, steps[1..]);
      if next[i].status != Approved {
        assert DistinctIds(next) by {
          forall j, k | 0 <= j < k < |next| ensures next[j].id != next[k].id {
            assert StepEffect(ts[j], next[j], user, steps[0]) && StepEffect(ts[k], next[k], user, steps[0]);
          }
        }
        ApprovedByAdmin(next, user, steps[1..], i);
      } else {
        assert StepEffect(ts[i], next[i], user, steps[0]);
      }
    }
  }

  // ------------------------------------------------------------------
  // The two views and the status badge.

  /** `ts.filter(p)`. */
  function Filter(ts: seq<Timetable>, p: Timetable -> bool): (r: seq<Timetable>)
    ensures |r| <= |ts|
    ensures forall t :: t in r <==> t in ts && p(t)
  {
    if ts == [] then []
    else (if p(ts[0]) then [ts[0]] else []) + Filter(ts[1..], p)
  }

  /** Filtering a concatenation filters each part and keeps them in order, so a view
      lists its records in the order of the list. */
  lemma {:induction false} FilterConcat(a: seq<Timetable>, b: seq<Timetable>, p: Timetable -> bool)
    ensures Filter(a + b, p) == Filter(a, p) + Filter(b, p)
  {
    if a != [] {
      assert (a + b)[0] == a[0];
      assert (a + b)[1..] == a[1..] + b;
      var head := if p(a[0]) then [a[0]] else [];
      assert Filter(a + b, p) == head + Filter(a[1..] + b, p);
      FilterConcat(a[1..], b, p);
      assert Filter(a, p) == head + Filter(a[1..], p);
    } else {
      assert a + b == b;
    }
  }

  predicate InQueue(t: Timetable) {
    t.status == Draft || t.status == Pending
  }

  predicate IsApproved(t: Timetable) {
    t.status == Approved
  }

  /** `pendingTimetables`: the drafts and the pending records. */
  function PendingView(ts: seq<Timetable>): (r: seq<Timetable>)
    ensures forall t :: t in r <==> t in ts && (t.status == Draft || t.status == Pending)
  {
    Filter(ts, InQueue)
  }

  /** `approvedTimetables`: the approved records. */
  function ApprovedView(ts: seq<Timetable>): (r: seq<Timetable>)
    ensures forall t :: t in r <==> t in ts && t.status == Approved
  {
    Filter(ts, IsApproved)
  }

  /** The two counters never add up to more than the total: no record is in both views. */
  lemma {:induction false} ViewCountsBounded(ts: seq<Timetable>)
    ensures |PendingView(ts)| + |ApprovedView(ts)| <= |ts|
  {
    if ts != [] {
      ViewCountsBounded(ts[1..]);
    }
  }

  /** The badge colour (`getStatusColor`): one of four classes, each non-grey one naming
      exactly one status, grey for a draft and for any string that is no known status. */
  function StatusColor(status: string): (c: string)
    ensures c in {"bg-gray-500", "bg-yellow-500", "bg-green-500", "bg-red-500"}
    ensures c == "bg-yellow-500" <==> status == Pending
    ensures c == "bg-green-500" <==> status == Approved
    ensures c == "bg-red-500" <==> status == Rejected
  {
    if status == Draft then "bg-gray-500"
    else if status == Pending then "bg-yellow-500"
    else if status == Approved then "bg-green-500"
    else if status == Rejected then "bg-red-500"
    else "bg-gray-500"
  }

  datatype Icon = Clock | AlertCircle | CheckCircle | XCircle

  /** The badge icon (`getStatusIcon`): a clock for a draft and for any unknown string. */
  function StatusIcon(status: string): (icon: Icon)
    ensures icon == AlertCircle <==> status == Pending
    ensures icon == CheckCircle <==> status == Approved
    ensures icon == XCircle <==> status == Rejected
  {
    if status == Draft then Clock
    else if status == Pending then AlertCircle
    else if status == Approved then CheckCircle
    else if status == Rejected then XCircle
    else Clock
  }

  /** The badge text: the status with its first letter in upper case. */
  function StatusLabel(status: string): (text: string)
    ensures |text| == |status|
    ensures status != [] ==> text[1..] == status[1..] && text[0] == UpperAscii(status[0])
  {
    Capitalize(status)
  }

  lemma StatusLabels()
    ensures StatusLabel(Draft) == "Draft" && StatusLabel(Pending) == "Pending"
    ensures StatusLabel(Approved) == "Approved" && StatusLabel(Rejected) == "Rejected"
  {
  }
}
