/**
 Where a submission stands: one notion of stage written three times (in code, as a database filter, as
 an SQL expression), the tracker's buckets, and the pipeline counts.

 Columns may be null, and conditions on them are evaluated in SQL's three-valued logic. The schema
 forbids null for the outcome and the first round; what that rule is needed for is proved too.
*/
module DeliveryPipeline {
  import opened Prelude

  datatype Outcome =
    | PENDING_APPROVAL | SUBMITTED | REJECTED | NOT_SELECTED | WITHDRAWN | SELECTED | OFFER | JOIN
    | OtherOutcome(name: string)

  datatype Status = PENDING | SCHEDULED | AWAITING_FEEDBACK | CLEARED | CANCELLED | OtherStatus(text: string)

  datatype Row = Row(final_status: Option<Outcome>, l1: Option<Status>, l2: Option<Status>, l3: Option<Status>)

  /** The columns the schema declares NOT NULL. */
  predicate Complete(row: Row) {
    row.final_status.Some? && row.l1.Some?
  }

  // ---- Three-valued logic ----

  datatype Truth = True | False | Unknown

  function Known(b: bool): Truth {
    if b then True else False
  }

  function Not(a: Truth): Truth {
    match a case True => False case False => True case Unknown => Unknown
  }

  function And(a: Truth, b: Truth): Truth {
    if a == False || b == False then False else if a == True && b == True then True else Unknown
  }

  function Or(a: Truth, b: Truth): Truth {
    Not(And(Not(a), Not(b)))
  }

  function Equals<T(==)>(column: Option<T>, value: T): Truth {
    if column.None? then Unknown else Known(column.value == value)
  }

  function In<T(==)>(column: Option<T>, values: set<T>): Truth {
    if column.None? then Unknown else Known(column.value in values)
  }

  function IsNull<T>(column: Option<T>): Truth {
    Known(column.None?)
  }

  function IsDistinctFrom<T(==)>(column: Option<T>, value: T): Truth {
    Known(column != Some(value))
  }

  // ---- The stage, three times ----

  datatype Stage = Review | L1 | L2 | L3 | Final | Closed

  function CurrentTrackerRound(row: Row): Option<Stage> {
    if row.l1 != Some(CLEARED) then Some(L1)
    else if row.l2 != Some(CLEARED) then Some(L2)
    else if row.l3 != Some(CLEARED) then Some(L3)
    else None
  }

  function DeliveryStage(row: Row): Stage {
    if row.final_status == Some(PENDING_APPROVAL) then Review
    else if row.final_status.Some? && row.final_status.value in {REJECTED, NOT_SELECTED, WITHDRAWN} then Closed
    else if row.final_status.Some? && row.final_status.value in {SELECTED, OFFER, JOIN} then Final
    else
      var round := CurrentTrackerRound(row);
      if round.Some? then round.value else Final
  }

  const EXPLICIT := {PENDING_APPROVAL, REJECTED, NOT_SELECTED, WITHDRAWN, SELECTED, OFFER, JOIN}

  function NullOrNot(column: Option<Status>): Truth {
    Or(IsNull(column), Not(Equals(column, CLEARED)))
  }

  /** The database filter for a stage. */
  function StageWhere(stage: Stage, row: Row): Truth {
    var active := Not(In(row.final_status, EXPLICIT));
    match stage
    case Review => Equals(row.final_status, PENDING_APPROVAL)
    case Closed => In(row.final_status, {REJECTED, NOT_SELECTED, WITHDRAWN})
    case L1 => And(active, Not(Equals(row.l1, CLEARED)))
    case L2 => And(And(active, Equals(row.l1, CLEARED)), NullOrNot(row.l2))
    case L3 => And(And(active, And(Equals(row.l1, CLEARED), Equals(row.l2, CLEARED))), NullOrNot(row.l3))
    case Final =>
      Or(In(row.final_status, {SELECTED, OFFER, JOIN}),
        And(active, And(Equals(row.l1, CLEARED), And(Equals(row.l2, CLEARED), Equals(row.l3, CLEARED)))))
  }

  /** The filter behind the offers count. */
  function OffersWhere(row: Row): Truth {
    Equals(row.final_status, OFFER)
  }

  /** The tracker's stage expression; its `final` covers closed submissions. */
  function TrackerStageSql(row: Row): Stage {
    if Equals(row.final_status, PENDING_APPROVAL) == True then Review
    else if In(row.final_status, {SELECTED, OFFER, JOIN, REJECTED, NOT_SELECTED, WITHDRAWN}) == True then Final
    else if IsDistinctFrom(row.l1, CLEARED) == True then L1
    else if IsDistinctFrom(row.l2, CLEARED) == True then L2
    else if IsDistinctFrom(row.l3, CLEARED) == True then L3
    else Final
  }

  /** Code and filter agree: a row passes the filter of a stage exactly when it is in that stage. */
  lemma FilterAgrees(row: Row, stage: Stage)
    requires Complete(row)
    ensures StageWhere(stage, row) == True <==> DeliveryStage(row) == stage
  {
  }

  /** Every row passes exactly one stage filter, unless it lacks an outcome, or a first round it is judged by. */
  lemma FiltersPartition(row: Row)
    ensures forall a, b :: StageWhere(a, row) == True && StageWhere(b, row) == True ==> a == b
    ensures (exists s :: StageWhere(s, row) == True)
       <==> row.final_status.Some? && (row.l1.Some? || row.final_status.value in EXPLICIT)
    ensures forall s :: StageWhere(s, row) == True ==> DeliveryStage(row) == s
  {
    if row.final_status.Some? && (row.l1.Some? || row.final_status.value in EXPLICIT) {
      assert StageWhere(DeliveryStage(row), row) == True;
    }
  }

  function Folded(stage: Stage): Stage {
    if stage == Closed then Final else stage
  }

  /** The SQL expression agrees on every row, null or not, once closed is folded into final. */
  lemma TrackerStageAgrees(row: Row)
    ensures TrackerStageSql(row) == Folded(DeliveryStage(row))
  {
  }

  // ---- Tracker buckets ----

  datatype Bucket = ReviewBucket | Interviews | Offers | Closures | ClosedBucket

  /**
   The row's job, when the query has one: whether its upper-cased status is CLOSED or CLOSE, and whether
   it keeps its submissions open.
  */
  datatype Job = NoJob | Job(closed: bool, keepOpen: Option<bool>)

  function Paused(row: Row, job: Job): Truth {
    match job
    case NoJob => False
    case Job(closed, keepOpen) =>
      And(And(Known(closed), Not(Known(keepOpen == Some(true)))), In(row.final_status, {PENDING_APPROVAL, SUBMITTED}))
  }

  function Waiting(column: Option<Status>): Truth {
    In(column, {SCHEDULED, AWAITING_FEEDBACK})
  }

  function BucketWhere(bucket: Bucket, row: Row, job: Job): Truth {
    match bucket
    case ReviewBucket => And(Not(Paused(row, job)), Equals(row.final_status, PENDING_APPROVAL))
    case Interviews =>
      And(And(Not(Paused(row, job)), Equals(row.final_status, SUBMITTED)),
        Or(Or(Waiting(row.l1), Waiting(row.l2)), Waiting(row.l3)))
    case Offers => In(row.final_status, {SELECTED, OFFER})
    case Closures => Equals(row.final_status, JOIN)
    case ClosedBucket => Or(In(row.final_status, {REJECTED, NOT_SELECTED, WITHDRAWN}), Paused(row, job))
  }

  predicate PausedJob(job: Job) {
    job.Job? && job.closed && job.keepOpen != Some(true)
  }

  predicate HasInterview(row: Row) {
    exists stage :: IsRound(stage) && InterviewOf(RoundStatus(row, stage)) in {Booked, AwaitingFeedback}
  }

  /** No row is in two buckets, whatever is null. */
  lemma BucketsAreDisjoint(row: Row, job: Job, a: Bucket, b: Bucket)
    ensures BucketWhere(a, row, job) == True && BucketWhere(b, row, job) == True ==> a == b
  {
  }

  lemma HasInterviewIsWaiting(row: Row)
    ensures HasInterview(row) <==> Or(Or(Waiting(row.l1), Waiting(row.l2)), Waiting(row.l3)) == True
  {
    assert RoundStatus(row, L1) == row.l1 && RoundStatus(row, L2) == row.l2 && RoundStatus(row, L3) == row.l3;
  }

  /** The rows in no bucket: without an outcome, with an unknown one, or submitted and waiting for no interview. */
  lemma InNoBucketExactlyWhen(row: Row, job: Job)
    ensures (forall b :: BucketWhere(b, row, job) != True)
       <==> (row.final_status.None? || row.final_status.value.OtherOutcome?
             || (row.final_status == Some(SUBMITTED) && !PausedJob(job) && !HasInterview(row)))
  {
    HasInterviewIsWaiting(row);
    var b := if row.final_status == Some(PENDING_APPROVAL) && !PausedJob(job) then ReviewBucket
      else if row.final_status == Some(SUBMITTED) && !PausedJob(job) then Interviews
      else if row.final_status in {Some(SELECTED), Some(OFFER)} then Offers
      else if row.final_status == Some(JOIN) then Closures
      else ClosedBucket;
    hide HasInterview;
    if row.final_status.Some? && !row.final_status.value.OtherOutcome?
       && !(row.final_status == Some(SUBMITTED) && !PausedJob(job) && !HasInterview(row)) {
      assert BucketWhere(b, row, job) == True;
    }
  }

  /** While its job is not paused, a row's bucket is consistent with its stage. */
  lemma BucketsRefineStages(row: Row, job: Job)
    requires !PausedJob(job)
    ensures BucketWhere(ReviewBucket, row, job) == True <==> DeliveryStage(row) == Review
    ensures BucketWhere(ClosedBucket, row, job) == True <==> DeliveryStage(row) == Closed
    ensures BucketWhere(Offers, row, job) == True || BucketWhere(Closures, row, job) == True ==>
      DeliveryStage(row) == Final
  {
  }

  // ---- Counts ----

  datatype RoundTally = RoundTally(pending: nat, scheduled: nat, feedback: nat, cancelled: nat)

  datatype Tally = Tally(
    total: nat, review: nat, l1: nat, l2: nat, l3: nat, final: nat, closed: nat,
    decision: nat, selected: nat, offers: nat, joined: nat, scheduled: nat,
    round1: RoundTally, round2: RoundTally, round3: RoundTally)

  datatype Decision = Undecided | WasSelected | WasOffered | HasJoined

  datatype Interview = ToSchedule | Booked | AwaitingFeedback | WasCancelled

  function DecisionOf(row: Row): Decision {
    if row.final_status == Some(JOIN) then HasJoined
    else if row.final_status == Some(OFFER) then WasOffered
    else if row.final_status == Some(SELECTED) then WasSelected
    else Undecided
  }

  function InterviewOf(status: Option<Status>): Interview {
    if status == Some(SCHEDULED) then Booked
    else if status == Some(AWAITING_FEEDBACK) then AwaitingFeedback
    else if status == Some(CANCELLED) then WasCancelled
    else ToSchedule
  }

  function RoundStatus(row: Row, stage: Stage): Option<Status> {
    match stage case L1 => row.l1 case L2 => row.l2 case L3 => row.l3 case _ => None
  }

  predicate IsRound(stage: Stage) {
    stage in {L1, L2, L3}
  }

  /** What one of the counters counts. */
  datatype Slice = All | InStage(s: Stage) | Decided(d: Decision) | InRound(r: Stage, i: Interview) | Scheduled

  predicate Holds(slice: Slice, row: Row) {
    match slice
    case All => true
    case InStage(s) => DeliveryStage(row) == s
    case Decided(d) => DeliveryStage(row) == Final && DecisionOf(row) == d
    case InRound(r, i) => IsRound(r) && DeliveryStage(row) == r && InterviewOf(RoundStatus(row, r)) == i
    case Scheduled => IsRound(DeliveryStage(row)) && InterviewOf(RoundStatus(row, DeliveryStage(row))) == Booked
  }

  /** Final rows are counted by their outcome, and rows that are not in any are undecided. */
  lemma DecidedExactly(row: Row, d: Decision)
    ensures Holds(Decided(d), row) <==> DeliveryStage(row) == Final && match d
      case HasJoined => row.final_status == Some(JOIN)
      case WasOffered => row.final_status == Some(OFFER)
      case WasSelected => row.final_status == Some(SELECTED)
      case Undecided => row.final_status !in {Some(SELECTED), Some(OFFER), Some(JOIN)}
  {
  }

  /** Rows of a round are counted by its status: waiting for an appointment unless it says otherwise. */
  lemma InterviewedExactly(row: Row, r: Stage, i: Interview)
    ensures Holds(InRound(r, i), row) <==>
      && ((r == L1 && DeliveryStage(row) == L1) || (r == L2 && DeliveryStage(row) == L2)
          || (r == L3 && DeliveryStage(row) == L3))
      && var status := if r == L1 then row.l1 else if r == L2 then row.l2 else row.l3;
         match i
         case Booked => status == Some(SCHEDULED)
         case AwaitingFeedback => status == Some(AWAITING_FEEDBACK)
         case WasCancelled => status == Some(CANCELLED)
         case ToSchedule => status !in {Some(SCHEDULED), Some(AWAITING_FEEDBACK), Some(CANCELLED)}
  {
  }

  /** The tracker's round status: the round's own, `DECISION`, or the outcome. */
  datatype RoundText = OfRound(status: Status) | AwaitsDecision | OfOutcome(outcome: Option<Outcome>)

  function OrPending(column: Option<Status>): Status {
    if column.Some? then column.value else PENDING
  }

  function TrackerRoundStatusSql(row: Row): RoundText {
    match TrackerStageSql(row)
    case L1 => OfRound(OrPending(row.l1))
    case L2 => OfRound(OrPending(row.l2))
    case L3 => OfRound(OrPending(row.l3))
    case _ => if Equals(row.final_status, SUBMITTED) == True then AwaitsDecision else OfOutcome(row.final_status)
  }

  /** The tracker shows a round's state exactly for the rows that the pipeline counts under that round and state. */
  lemma RoundStatusAgrees(row: Row, r: Stage, i: Interview)
    requires IsRound(r)
    ensures Holds(InRound(r, i), row) <==>
      TrackerStageSql(row) == r && TrackerRoundStatusSql(row).OfRound?
        && InterviewOf(Some(TrackerRoundStatusSql(row).status)) == i
  {
    TrackerStageAgrees(row);
  }

  /** It asks for a decision exactly for the undecided rows whose outcome is still submitted. */
  lemma AwaitsDecisionExactlyWhen(row: Row)
    ensures TrackerRoundStatusSql(row).AwaitsDecision?
       <==> Holds(Decided(Undecided), row) && row.final_status == Some(SUBMITTED)
  {
    TrackerStageAgrees(row);
  }

  /** One group of a GROUP BY: the columns and how many rows have them. */
  datatype Group = Group(row: Row, count: nat)

  function Count(groups: seq<Group>, slice: Slice): nat {
    if groups == [] then 0
    else
      Count(groups[..|groups| - 1], slice)
        + if Holds(slice, groups[|groups| - 1].row) then groups[|groups| - 1].count else 0
  }

  function Interviewed(r: RoundTally, i: Interview): nat {
    match i
    case ToSchedule => r.pending
    case Booked => r.scheduled
    case AwaitingFeedback => r.feedback
    case WasCancelled => r.cancelled
  }

  /** The counter for a slice. */
  function Counter(t: Tally, slice: Slice): nat {
    match slice
    case All => t.total
    case InStage(s) => (match s
      case Review => t.review case L1 => t.l1 case L2 => t.l2 case L3 => t.l3 case Final => t.final
      case Closed => t.closed)
    case Decided(d) => (match d
      case Undecided => t.decision case WasSelected => t.selected case WasOffered => t.offers
      case HasJoined => t.joined)
    case InRound(r, i) => (match r
      case L1 => Interviewed(t.round1, i) case L2 => Interviewed(t.round2, i) case L3 => Interviewed(t.round3, i)
      case _ => 0)
    case Scheduled => t.scheduled
  }

  const NONE := RoundTally(0, 0, 0, 0)

  function AddInterview(r: RoundTally, i: Interview, count: nat): RoundTally {
    match i
    case ToSchedule => r.(pending := r.pending + count)
    case Booked => r.(scheduled := r.scheduled + count)
    case AwaitingFeedback => r.(feedback := r.feedback + count)
    case WasCancelled => r.(cancelled := r.cancelled + count)
  }

  /** Every counter of the result counts its slice of the rows. */
  method AggregateDeliveryPipeline(groups: seq<Group>) returns (result: Tally)
    ensures forall slice :: Counter(result, slice) == Count(groups, slice)
  {
    hide DeliveryStage, DecisionOf, InterviewOf, RoundStatus;
    result := Tally(0, 0, 0, 0, 0, 0, 0, 0, 0, 0, 0, 0, NONE, NONE, NONE);
    for k := 0 to |groups|
      invariant forall slice :: Counter(result, slice) == Count(groups[..k], slice)
    {
      ghost var before := result;
      var row, count := groups[k].row, groups[k].count;
      result := result.(total := result.total + count);
      var stage := DeliveryStage(row);
      match stage {
        case Review => result := result.(review := result.review + count);
        case L1 => result := result.(l1 := result.l1 + count);
        case L2 => result := result.(l2 := result.l2 + count);
        case L3 => result := result.(l3 := result.l3 + count);
        case Final => result := result.(final := result.final + count);
        case Closed => result := result.(closed := result.closed + count);
      }
      if stage == Final {
        match DecisionOf(row) {
          case Undecided => result := result.(decision := result.decision + count);
          case WasSelected => result := result.(selected := result.selected + count);
          case WasOffered => result := result.(offers := result.offers + count);
          case HasJoined => result := result.(joined := result.joined + count);
        }
      }
      if IsRound(stage) {
        var interview := InterviewOf(RoundStatus(row, stage));
        match stage {
          case L1 => result := result.(round1 := AddInterview(result.round1, interview, count));
          case L2 => result := result.(round2 := AddInterview(result.round2, interview, count));
          case _ => result := result.(round3 := AddInterview(result.round3, interview, count));
        }
        if interview == Booked {
          result := result.(scheduled := result.scheduled + count);
        }
      }
      assert groups[..k + 1][..k] == groups[..k];
      forall slice
        ensures Counter(result, slice) == Counter(before, slice) + if Holds(slice, row) then count else 0
      {
      }
    }
    assert groups[..|groups|] == groups;
  }

  // ---- Grouping does not matter ----

  function CountRows(rows: seq<Row>, slice: Slice): nat {
    if rows == [] then 0
    else CountRows(rows[..|rows| - 1], slice) + if Holds(slice, rows[|rows| - 1]) then 1 else 0
  }

  function Repeated(row: Row, n: nat): seq<Row> {
    seq(n, _ => row)
  }

  /** The rows behind the groups. */
  function Expanded(groups: seq<Group>): seq<Row> {
    if groups == [] then []
    else Expanded(groups[..|groups| - 1]) + Repeated(groups[|groups| - 1].row, groups[|groups| - 1].count)
  }

  lemma {:induction false} CountRowsConcat(a: seq<Row>, b: seq<Row>, slice: Slice)
    ensures CountRows(a + b, slice) == CountRows(a, slice) + CountRows(b, slice)
  {
    hide Holds;
    if b == [] {
      assert a + b == a;
    } else {
      assert (a + b)[..|a + b| - 1] == a + b[..|b| - 1];
      CountRowsConcat(a, b[..|b| - 1], slice);
    }
  }

  lemma {:induction false} CountRepeated(row: Row, n: nat, slice: Slice)
    ensures CountRows(Repeated(row, n), slice) == if Holds(slice, row) then n else 0
  {
    hide Holds;
    if n > 0 {
      assert Repeated(row, n)[..n - 1] == Repeated(row, n - 1);
      CountRepeated(row, n - 1, slice);
    }
  }

  lemma {:induction false} CountIsOfRows(groups: seq<Group>, slice: Slice)
    ensures Count(groups, slice) == CountRows(Expanded(groups), slice)
  {
    hide Holds;
    if groups != [] {
      var init, last := groups[..|groups| - 1], groups[|groups| - 1];
      CountIsOfRows(init, slice);
      CountRepeated(last.row, last.count, slice);
      CountRowsConcat(Expanded(init), Repeated(last.row, last.count), slice);
    }
  }

  /** Taking out one row takes out its count. */
  lemma {:induction false} CountWithout(b: seq<Row>, k: nat, slice: Slice)
    requires k < |b|
    ensures CountRows(b, slice) == CountRows(b[..k] + b[k + 1..], slice) + if Holds(slice, b[k]) then 1 else 0
  {
    hide Holds;
    assert b == b[..k] + ([b[k]] + b[k + 1..]);
    CountRowsConcat(b[..k], [b[k]] + b[k + 1..], slice);
    CountRowsConcat([b[k]], b[k + 1..], slice);
    CountRowsConcat(b[..k], b[k + 1..], slice);
    CountOne(b[k], slice);
  }

  lemma {:induction false} CountOne(row: Row, slice: Slice)
    ensures CountRows([row], slice) == if Holds(slice, row) then 1 else 0
  {
    hide Holds;
    assert [row][..0] == [];
  }

  lemma BagWithout(b: seq<Row>, k: nat)
    requires k < |b|
    ensures multiset(b[..k] + b[k + 1..]) == multiset(b) - multiset{b[k]}
  {
    assert b == b[..k] + ([b[k]] + b[k + 1..]);
  }

  lemma {:induction false} CountPermuted(a: seq<Row>, b: seq<Row>, slice: Slice)
    requires multiset(a) == multiset(b)
    ensures CountRows(a, slice) == CountRows(b, slice)
  {
    hide Holds, CountRows;
    if a == [] {
      assert |multiset(b)| == 0;
    } else {
      var last := |a| - 1;
      assert a[last] in multiset(b);
      var k :| 0 <= k < |b| && b[k] == a[last];
      BagWithout(a, last);
      BagWithout(b, k);
      CountWithout(a, last, slice);
      CountWithout(b, k, slice);
      CountPermuted(a[..last] + a[last + 1..], b[..k] + b[k + 1..], slice);
    }
  }

  /** Any grouping of the rows gives the counts of counting the rows one by one. */
  lemma {:induction false} GroupingDoesNotMatter(groups: seq<Group>, rows: seq<Row>, slice: Slice)
    requires multiset(Expanded(groups)) == multiset(rows)
    ensures Count(groups, slice) == CountRows(rows, slice)
  {
    CountIsOfRows(groups, slice);
    CountPermuted(Expanded(groups), rows, slice);
  }

  // ---- Conservation ----

  /** The total is the sum of the six stages. */
  lemma {:induction false} StagesAddUp(groups: seq<Group>)
    ensures Count(groups, All)
      == Count(groups, InStage(Review)) + Count(groups, InStage(L1)) + Count(groups, InStage(L2))
      + Count(groups, InStage(L3)) + Count(groups, InStage(Final)) + Count(groups, InStage(Closed))
  {
    hide DeliveryStage;
    if groups != [] {
      StagesAddUp(groups[..|groups| - 1]);
    }
  }

  /** The final stage is the sum of its four outcomes. */
  lemma {:induction false} DecisionsAddUp(groups: seq<Group>)
    ensures Count(groups, InStage(Final)) == Count(groups, Decided(Undecided)) + Count(groups, Decided(WasSelected))
      + Count(groups, Decided(WasOffered)) + Count(groups, Decided(HasJoined))
  {
    hide DeliveryStage, DecisionOf;
    if groups != [] {
      DecisionsAddUp(groups[..|groups| - 1]);
    }
  }

  /** Each round's stage is the sum of its four states. */
  lemma {:induction false} InterviewsAddUp(groups: seq<Group>, r: Stage)
    requires IsRound(r)
    ensures Count(groups, InStage(r)) == Count(groups, InRound(r, ToSchedule)) + Count(groups, InRound(r, Booked))
      + Count(groups, InRound(r, AwaitingFeedback)) + Count(groups, InRound(r, WasCancelled))
  {
    hide DeliveryStage, InterviewOf, RoundStatus;
    if groups != [] {
      InterviewsAddUp(groups[..|groups| - 1], r);
    }
  }

  /** The scheduled count is the sum of the rounds' bookings. */
  lemma {:induction false} BookingsAddUp(groups: seq<Group>)
    ensures Count(groups, Scheduled)
      == Count(groups, InRound(L1, Booked)) + Count(groups, InRound(L2, Booked)) + Count(groups, InRound(L3, Booked))
  {
    hide DeliveryStage, InterviewOf, RoundStatus;
    if groups != [] {
      BookingsAddUp(groups[..|groups| - 1]);
    }
  }

  function CountWhere(rows: seq<Row>, stage: Stage): nat {
    if rows == [] then 0
    else CountWhere(rows[..|rows| - 1], stage) + if StageWhere(stage, rows[|rows| - 1]) == True then 1 else 0
  }

  /** The number on a stage's card is the number of rows its filter lists. */
  lemma {:induction false} CardMatchesList(rows: seq<Row>, stage: Stage)
    requires forall i :: 0 <= i < |rows| ==> Complete(rows[i])
    ensures CountWhere(rows, stage) == CountRows(rows, InStage(stage))
  {
    hide StageWhere, DeliveryStage;
    if rows != [] {
      CardMatchesList(rows[..|rows| - 1], stage);
      FilterAgrees(rows[|rows| - 1], stage);
    }
  }

  function CountOffers(rows: seq<Row>): nat {
    if rows == [] then 0
    else CountOffers(rows[..|rows| - 1]) + if OffersWhere(rows[|rows| - 1]) == True then 1 else 0
  }

  lemma {:induction false} OffersMatchList(rows: seq<Row>)
    ensures CountOffers(rows) == CountRows(rows, Decided(WasOffered))
  {
    if rows != [] {
      OffersMatchList(rows[..|rows| - 1]);
    }
  }
}
