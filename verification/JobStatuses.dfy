/** Job statuses, the transition table and the conditional update every writer
    of a job row goes through. */
module JobStatuses {
  import opened Wrappers

  /** A row's `status` column. `Corrupt` is text outside the known statuses, which
      only a damaged database can hold. */
  datatype Status =
    | Queued | Preparing | Running | Postprocessing | CancelRequested
    | Succeeded | Failed | Cancelled
    | Corrupt(text: string)
  {
    predicate Terminal() { Succeeded? || Failed? || Cancelled? }

    predicate Active() { !Terminal() && !Corrupt? }

    /** Both words a worker reads as "stop". */
    predicate Stopping() { CancelRequested? || Cancelled? }

    function Rank(): nat {
      match this
      case Queued => 0
      case Preparing => 1
      case Running => 2
      case Postprocessing => 3
      case CancelRequested => 4
      case Corrupt(_) => 4
      case _ => 5
    }
  }

  const ACTIVE: set<Status> := {Queued, Preparing, Running, Postprocessing, CancelRequested}

  function AllowedTransitions(s: Status): set<Status> {
    match s
    case Queued => {Preparing, Cancelled, Failed}
    case Preparing => {Running, CancelRequested, Failed}
    case Running => {Postprocessing, CancelRequested, Failed}
    case Postprocessing => {Succeeded, CancelRequested, Failed}
    case CancelRequested => {Cancelled, Failed}
    case _ => {}
  }

  predicate IsValidTransition(current: Status, target: Status) {
    target == current || target in AllowedTransitions(current)
  }

  /** A row as a reader finds it. */
  type Row = Option<Status>

  /** The conditional UPDATE matches: the status is expected and the edge is in the
      table, both tested in the one statement that writes. */
  predicate Matches(row: Row, expected: set<Status>, target: Status) {
    && row.Some? && row.value in expected
    && !row.value.Corrupt? && !target.Corrupt? && IsValidTransition(row.value, target)
  }

  function CompareAndSet(row: Row, expected: set<Status>, target: Status): Row {
    if Matches(row, expected, target) then Some(target) else row
  }

  /** The one write outside the table: a corrupt status becomes `failed`. */
  function RepairCorrupt(row: Row): Row {
    if row.Some? && row.value.Corrupt? then Some(Failed) else row
  }

  /** Whatever a caller asks for, an update writes the target on a row whose status it
      expects and the table lets follow, and is refused on every other. */
  lemma UpdateFollowsTable(row: Row, expected: set<Status>, target: Status)
    ensures CompareAndSet(row, expected, target) in {row, Some(target)}
    ensures Matches(row, expected, target) <==>
      && row.Some? && row.value in expected && !row.value.Corrupt? && !target.Corrupt?
      && (row.value == target || target in AllowedTransitions(row.value))
    ensures Matches(row, expected, target) ==> CompareAndSet(row, expected, target) == Some(target) && CanBecome(row.value, target)
    ensures !Matches(row, expected, target) ==> CompareAndSet(row, expected, target) == row
  {
  }

  // ----------------------------------------------------------- reachability

  /** One legal change of a status, or none. */
  predicate Edge(a: Status, b: Status) {
    IsValidTransition(a, b) || (a.Corrupt? && b == Failed)
  }

  /** What a status can ever turn into, in closed form. */
  predicate CanBecome(a: Status, b: Status) {
    || a == b
    || (a.Corrupt? && b == Failed)
    || (!a.Corrupt? && !b.Corrupt? && a.Rank() < b.Rank() && !(a.CancelRequested? && b.Succeeded?))
  }

  ghost predicate Path(p: seq<Status>) {
    p != [] && forall i :: 0 <= i < |p| - 1 ==> Edge(p[i], p[i + 1])
  }

  /** Following the table any number of times reaches exactly `CanBecome`: later
      ranks only, never out of a terminal status, never from `cancel_requested`
      to `succeeded`. */
  lemma ReachableStatuses(a: Status, b: Status)
    ensures CanBecome(a, b) <==> exists p :: Path(p) && p[0] == a && p[|p| - 1] == b
  {
    if CanBecome(a, b) {
      var p := Route(a, b);
      assert Path(p) && p[0] == a && p[|p| - 1] == b;
    }
    if p :| Path(p) && p[0] == a && p[|p| - 1] == b {
      PathBecomes(p);
    }
  }

  lemma {:induction false} PathBecomes(p: seq<Status>)
    requires Path(p)
    ensures CanBecome(p[0], p[|p| - 1])
  {
    if |p| > 1 {
      var q := p[1..];
      forall i | 0 <= i < |q| - 1 ensures Edge(q[i], q[i + 1]) {
        assert Edge(p[i + 1], p[i + 2]);
      }
      PathBecomes(q);
      BecomesTransitively(p[0], p[1], p[|p| - 1]);
    }
  }

  lemma BecomesTransitively(a: Status, b: Status, c: Status)
    requires CanBecome(a, b) && CanBecome(b, c)
    ensures CanBecome(a, c)
  {
  }

  /** A path of table edges from `a` to `b`. */
  ghost function Route(a: Status, b: Status): (p: seq<Status>)
    requires CanBecome(a, b)
    ensures Path(p) && p[0] == a && p[|p| - 1] == b
    decreases 5 - a.Rank()
  {
    if Edge(a, b) then (if a == b then [a] else [a, b])
    else
      var next := match a
        case Queued => Preparing
        case Preparing => if b == Cancelled then CancelRequested else Running
        case Running => if b == Cancelled then CancelRequested else Postprocessing
        case _ => CancelRequested;
      [a] + Route(next, b)
  }

  /** What the table is for, in the terms of its documentation. */
  lemma TableContract(a: Status, b: Status)
    requires CanBecome(a, b)
    ensures a.Terminal() ==> b == a
    ensures a.CancelRequested? ==> b in {CancelRequested, Cancelled, Failed}
    ensures a.Stopping() ==> b != Succeeded
    ensures b.Queued? ==> a.Queued?
    ensures a != b ==> a.Rank() < b.Rank()
  {
  }
}
