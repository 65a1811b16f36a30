/**
 Interview rounds of a submission. A save carries, field by field, either nothing, an explicit null or
 a value; the update computes the fields to write, the validator checks the merged rounds, and the
 service lets a rejected round reset the ones after it.

 Everything is stated for any number of rounds; the service has three.
*/
module RoundUpdate {
  import opened Prelude
  import opened Text

  datatype Status = PENDING | CLEARED | REJECTED | Other(name: string)

  /** Stored round. Dates are ISO texts; a missing status is null. */
  datatype Round = Round(
    status: Option<Status>, date: Option<string>, remarks: Option<string>,
    interviewer: Option<string>, color: Option<string>)

  datatype Change = Change(
    status: Field<Status>, date: Field<string>, remarks: Field<string>,
    interviewer: Field<string>, color: Field<string>)

  datatype Request = Request(rounds: seq<Change>, resetFollowingRounds: bool, correctionReason: Option<string>)

  datatype Error = NotConfirmed | LaterNotPending | OutOfOrder

  const UNTOUCHED := Change(Absent, Absent, Absent, Absent, Absent)
  const CLEARED_OUT := Change(Given(Some(PENDING)), Given(None), Given(None), Given(None), Given(None))

  /** JavaScript truth of a stored text. */
  predicate Truthy(text: Option<string>) {
    text.Some? && text.value != ""
  }

  predicate Started(status: Option<Status>) {
    status.Some? && status.value != PENDING
  }

  predicate Progressed(r: Round) {
    Started(r.status) || Truthy(r.date) || Truthy(r.remarks) || Truthy(r.interviewer)
  }

  predicate Corrected(req: Request) {
    req.correctionReason.Some? && Trim(req.correctionReason.value) != ""
  }

  predicate Confirmed(req: Request) {
    req.resetFollowingRounds && Corrected(req)
  }

  /** A null status in a request means pending. */
  function Entered(c: Change): Change {
    if c.status == Given(None) then c.(status := Given(Some(PENDING))) else c
  }

  function CurrentStatus(was: Round, c: Change): Status {
    if c.status.Given? && c.status.value.Some? then c.status.value.value
    else if was.status.Some? then was.status.value
    else PENDING
  }

  /** Setting a round to pending removes its appointment, and keeps its remarks. */
  function Tidied(was: Round, c: Change): Change {
    var e := Entered(c);
    if CurrentStatus(was, e) == PENDING && e.status.Given?
    then e.(date := Given(None), interviewer := Given(None), color := Given(None))
    else e
  }

  predicate LaterProgressed(existing: seq<Round>, i: int) {
    exists j :: 0 <= i < j < |existing| && Progressed(existing[j])
  }

  /** The request takes back the clearance of round `i` although a later round has progressed. */
  predicate Withdraws(existing: seq<Round>, req: Request, i: nat)
    requires |req.rounds| == |existing| && i < |existing|
  {
    && existing[i].status == Some(CLEARED)
    && CurrentStatus(existing[i], Entered(req.rounds[i])) != CLEARED
    && LaterProgressed(existing, i)
  }

  /** The first such round from `i` on, or the number of rounds. */
  function FirstWithdrawn(existing: seq<Round>, req: Request, i: nat): (w: nat)
    requires |req.rounds| == |existing| && i <= |existing|
    ensures i <= w <= |existing|
    ensures w < |existing| ==> Withdraws(existing, req, w)
    ensures forall k :: i <= k < w ==> !Withdraws(existing, req, k)
    decreases |existing| - i
  {
    if i == |existing| || Withdraws(existing, req, i) then i else FirstWithdrawn(existing, req, i + 1)
  }

  predicate AsksForMore(c: Change) {
    c.status.Given? && c.status.value.Some? && c.status.value.value != PENDING
  }

  predicate SomeLaterAsks(req: Request, w: nat) {
    exists j :: w < j < |req.rounds| && AsksForMore(req.rounds[j])
  }

  /** The fields an update writes. */
  function Update(existing: seq<Round>, req: Request): (r: Result<seq<Change>, Error>)
    requires |req.rounds| == |existing|
    ensures r.Ok? ==> |r.value| == |existing|
  {
    var w := FirstWithdrawn(existing, req, 0);
    if w < |existing| && !Confirmed(req) then Err(NotConfirmed)
    else if w < |existing| && SomeLaterAsks(req, w) then Err(LaterNotPending)
    else Ok(seq(|existing|, i requires 0 <= i < |existing| =>
              if i <= w then Tidied(existing[i], req.rounds[i]) else CLEARED_OUT))
  }

  method RoundUpdate(existing: seq<Round>, req: Request) returns (result: Result<seq<Change>, Error>)
    requires |req.rounds| == |existing|
    ensures result == Update(existing, req)
  {
    hide LaterProgressed, Confirmed, AsksForMore;
    var n := |existing|;
    var data := seq(n, i requires 0 <= i < n => UNTOUCHED);
    for i := 0 to n
      invariant |data| == n
      invariant forall k :: 0 <= k < i ==> data[k] == Entered(req.rounds[k])
    {
      data := data[i := if req.rounds[i].status == Given(None)
                        then req.rounds[i].(status := Given(Some(PENDING))) else req.rounds[i]];
    }
    ghost var w := FirstWithdrawn(existing, req, 0);
    var resetFrom := -1;
    for i := 0 to n
      invariant |data| == n && resetFrom == -1 && i <= w
      invariant forall k :: 0 <= k < i ==> data[k] == Tidied(existing[k], req.rounds[k])
      invariant forall k :: i <= k < n ==> data[k] == Entered(req.rounds[k])
    {
      var status := CurrentStatus(existing[i], data[i]);
      if status == PENDING && data[i].status.Given? {
        data := data[i := data[i].(date := Given(None), interviewer := Given(None), color := Given(None))];
      }
      if existing[i].status == Some(CLEARED) && status != CLEARED && LaterProgressed(existing, i) {
        assert Withdraws(existing, req, i);
        if !Confirmed(req) {
          return Err(NotConfirmed);
        }
        resetFrom := i;
        break;
      }
    }
    if resetFrom >= 0 {
      for j := resetFrom + 1 to n
        invariant |data| == n && resetFrom == w
        invariant forall k :: resetFrom < k < j ==> !AsksForMore(req.rounds[k]) && data[k] == CLEARED_OUT
        invariant forall k :: 0 <= k <= resetFrom ==> data[k] == Tidied(existing[k], req.rounds[k])
      {
        if AsksForMore(req.rounds[j]) {
          return Err(LaterNotPending);
        }
        data := data[j := CLEARED_OUT];
      }
    }
    assert w < n ==> resetFrom == w && Confirmed(req) && !SomeLaterAsks(req, w);
    assert Update(existing, req).Ok?;
    assert data == Update(existing, req).value;
    return Ok(data);
  }

  // ---- Writing the fields ----

  function Written<T>(was: Option<T>, f: Field<T>): Option<T> {
    if f.Given? then f.value else was
  }

  function Merged(was: Round, c: Change): Round {
    Round(Written(was.status, c.status), Written(was.date, c.date), Written(was.remarks, c.remarks),
      Written(was.interviewer, c.interviewer), Written(was.color, c.color))
  }

  function Apply(existing: seq<Round>, data: seq<Change>): seq<Round>
    requires |data| == |existing|
  {
    seq(|existing|, i requires 0 <= i < |existing| => Merged(existing[i], data[i]))
  }

  /** Progress in a round implies that every earlier round is cleared. */
  predicate Gated(rounds: seq<Round>) {
    forall i, j :: 0 <= i < j < |rounds| && Progressed(rounds[j]) ==> rounds[i].status == Some(CLEARED)
  }

  /** Some round before `j` is not cleared. */
  predicate Locked(rounds: seq<Round>, j: int) {
    exists i :: 0 <= i < j < |rounds| && rounds[i].status != Some(CLEARED)
  }

  predicate WritesProgress(c: Change) {
    || (c.status.Given? && Started(c.status.value))
    || (c.date.Given? && Truthy(c.date.value))
    || (c.remarks.Given? && Truthy(c.remarks.value))
    || (c.interviewer.Given? && Truthy(c.interviewer.value))
  }

  predicate WritesIntoLocked(rounds: seq<Round>, data: seq<Change>) {
    exists j :: 0 <= j < |data| && Locked(rounds, j) && WritesProgress(data[j])
  }

  // ---- Gating ----

  /** What an update makes of a round up to the first withdrawn one, or after it. */
  lemma {:induction false} UpdateShape(existing: seq<Round>, req: Request, j: nat)
    requires |req.rounds| == |existing| && j < |existing|
    requires Update(existing, req).Ok?
    ensures Update(existing, req).value[j]
      == if j <= FirstWithdrawn(existing, req, 0) then Tidied(existing[j], req.rounds[j]) else CLEARED_OUT
  {
  }

  /** A round left with progress the update did not write had all earlier rounds cleared and keeps them. */
  lemma OldProgressStaysUnlocked(existing: seq<Round>, req: Request, j: nat)
    requires |req.rounds| == |existing| && j < |existing|
    requires Gated(existing) && Update(existing, req).Ok?
    requires Progressed(Apply(existing, Update(existing, req).value)[j])
      && !WritesProgress(Update(existing, req).value[j])
    ensures !Locked(Apply(existing, Update(existing, req).value), j)
  {
    var w := FirstWithdrawn(existing, req, 0);
    UpdateShape(existing, req, j);
    hide Update, FirstWithdrawn, Confirmed;
    assert Progressed(existing[j]) && j <= w;
    forall i | 0 <= i < j
      ensures Apply(existing, Update(existing, req).value)[i].status == Some(CLEARED)
    {
      UpdateShape(existing, req, i);
      assert existing[i].status == Some(CLEARED) && LaterProgressed(existing, i);
      assert !Withdraws(existing, req, i);
    }
  }

  /** An update of gated rounds keeps them gated exactly when it writes no progress into a locked round. */
  lemma GateKeptExactlyWhen(existing: seq<Round>, req: Request)
    requires |req.rounds| == |existing|
    requires Gated(existing) && Update(existing, req).Ok?
    ensures var data := Update(existing, req).value;
      Gated(Apply(existing, data)) <==> !WritesIntoLocked(Apply(existing, data), data)
  {
    var data := Update(existing, req).value;
    var after := Apply(existing, data);
    hide Update, Confirmed;
    forall j | 0 <= j < |after| && Progressed(after[j]) && !WritesProgress(data[j])
      ensures !Locked(after, j)
    {
      OldProgressStaysUnlocked(existing, req, j);
    }
    if !WritesIntoLocked(after, data) {
      forall i, j | 0 <= i < j < |after| && Progressed(after[j])
        ensures after[i].status == Some(CLEARED)
      {
        assert !Locked(after, j);
      }
    }
  }

  /** Something has happened in the round: a result, or a date, remarks or an interviewer that are not empty. */
  predicate Happened(r: Round) {
    || r.status !in {None, Some(PENDING)}
    || r.date !in {None, Some("")} || r.remarks !in {None, Some("")} || r.interviewer !in {None, Some("")}
  }

  /** A cleared round is given another status, although something has happened in a later one. */
  predicate TakesBack(existing: seq<Round>, req: Request, i: int)
    requires |req.rounds| == |existing|
  {
    && 0 <= i < |existing| && existing[i].status == Some(CLEARED)
    && req.rounds[i].status != Absent && req.rounds[i].status != Given(Some(CLEARED))
    && exists j :: i < j < |existing| && Happened(existing[j])
  }

  /** The request says that later rounds are to be reset, and its reason is more than white space. */
  predicate ConfirmsReset(req: Request) {
    && req.resetFollowingRounds && req.correctionReason.Some?
    && exists k :: 0 <= k < |req.correctionReason.value| && !IsSpace(req.correctionReason.value[k])
  }

  /** A result other than pending is asked for after round i. */
  predicate AsksAfter(req: Request, i: int) {
    exists j :: 0 <= i < j < |req.rounds| && req.rounds[j].status.Given?
      && req.rounds[j].status.value !in {None, Some(PENDING)}
  }

  lemma HappenedExactly(r: Round)
    ensures Progressed(r) <==> Happened(r)
  {
  }

  lemma StartedExactly(r: Round)
    ensures Started(r.status) <==> r.status !in {None, Some(PENDING)}
    ensures Truthy(r.date) <==> r.date !in {None, Some("")}
  {
  }

  lemma WithdrawsExactly(existing: seq<Round>, req: Request, i: nat)
    requires |req.rounds| == |existing| && i < |existing|
    ensures Withdraws(existing, req, i) <==> TakesBack(existing, req, i)
  {
    forall r: Round
      ensures Progressed(r) <==> Happened(r)
    {
      HappenedExactly(r);
    }
    hide Progressed, Happened;
  }

  lemma {:induction false} TrimIsEmptyExactly(s: string)
    ensures Trim(s) == "" <==> forall k :: 0 <= k < |s| ==> IsSpace(s[k])
  {
    var front, back := TrimShape(s);
    hide IsSpace, TrimLeft, TrimRight;
    if Trim(s) != "" {
      assert s[|front|] == Trim(s)[0];
    } else {
      assert s == front + back;
    }
  }

  lemma ConfirmedExactly(req: Request)
    ensures Confirmed(req) <==> ConfirmsReset(req)
  {
    if req.correctionReason.Some? {
      TrimIsEmptyExactly(req.correctionReason.value);
    }
    hide Trim, IsSpace;
  }

  /** Exactly which updates are refused: taking back a clearance without confirmation, or asking for more behind it. */
  lemma RefusedExactly(existing: seq<Round>, req: Request)
    requires |req.rounds| == |existing|
    ensures Update(existing, req) == Err(NotConfirmed) <==>
      !ConfirmsReset(req) && exists i :: TakesBack(existing, req, i)
    ensures Update(existing, req) == Err(LaterNotPending) <==>
      ConfirmsReset(req) && (exists i ::
        TakesBack(existing, req, i) && (forall k :: k < i ==> !TakesBack(existing, req, k)) && AsksAfter(req, i))
    ensures Update(existing, req).Err? ==> Update(existing, req).error in {NotConfirmed, LaterNotPending}
  {
    var w := FirstWithdrawn(existing, req, 0);
    ConfirmedExactly(req);
    forall i | 0 <= i < |existing|
      ensures Withdraws(existing, req, i) <==> TakesBack(existing, req, i)
    {
      WithdrawsExactly(existing, req, i);
    }
    assert forall i :: TakesBack(existing, req, i) ==> 0 <= i < |existing|;
    assert SomeLaterAsks(req, w) <==> AsksAfter(req, w);
    hide Withdraws, TakesBack, Confirmed, ConfirmsReset, SomeLaterAsks, AsksAfter;
  }

  /** What a field holds after a request that may give it. */
  function GivenOr<T>(f: Field<T>, was: Option<T>): Option<T> {
    match f case Given(v) => v case Absent => was
  }

  /**
   A round that no withdrawal resets: given fields are written, the others stay, a null status means pending,
   and giving the status pending removes the appointment but not the remarks.
  */
  lemma WritesExactly(existing: seq<Round>, req: Request, j: nat)
    requires |req.rounds| == |existing| && j < |existing| && Update(existing, req).Ok?
    requires forall i :: i < j ==> !TakesBack(existing, req, i)
    ensures var was, c, now := existing[j], req.rounds[j], Apply(existing, Update(existing, req).value)[j];
      var pending := c.status in {Given(None), Given(Some(PENDING))};
      && now.status == (if pending then Some(PENDING) else GivenOr(c.status, was.status))
      && now.remarks == GivenOr(c.remarks, was.remarks)
      && now.date == (if pending then None else GivenOr(c.date, was.date))
      && now.interviewer == (if pending then None else GivenOr(c.interviewer, was.interviewer))
      && now.color == if pending then None else GivenOr(c.color, was.color)
  {
    UpdateShape(existing, req, j);
    var w := FirstWithdrawn(existing, req, 0);
    if w < j {
      WithdrawsExactly(existing, req, w);
    }
    hide Update, FirstWithdrawn, TakesBack, Withdraws;
  }

  /** An accepted withdrawal leaves every later round empty and pending. */
  lemma WithdrawalResetsLater(existing: seq<Round>, req: Request, i: nat, j: nat)
    requires |req.rounds| == |existing| && i < j < |existing|
    requires Update(existing, req).Ok? && TakesBack(existing, req, i)
    ensures Apply(existing, Update(existing, req).value)[j] == Round(Some(PENDING), None, None, None, None)
  {
    WithdrawsExactly(existing, req, i);
    UpdateShape(existing, req, j);
    assert FirstWithdrawn(existing, req, 0) <= i;
  }

  // ---- The validator's order checks ----

  predicate TouchesField<T(==)>(was: Option<T>, f: Field<T>) {
    f.Given? && f.value != was
  }

  predicate Touches(was: Round, c: Change) {
    || TouchesField(was.status, c.status) || TouchesField(was.date, c.date) || TouchesField(was.remarks, c.remarks)
    || TouchesField(was.interviewer, c.interviewer) || TouchesField(was.color, c.color)
  }

  /** The round is reset by a confirmed correction of an earlier clearance. */
  predicate ResetByCorrection(existing: seq<Round>, req: Request, data: seq<Change>, j: int)
    requires |data| == |existing|
  {
    && Confirmed(req) && 0 <= j < |data|
    && (exists i ::
      && 0 <= i < j && existing[i].status == Some(CLEARED)
      && data[i].status.Given? && data[i].status != Given(Some(CLEARED)))
    && data[j].status == Given(Some(PENDING)) && data[j].date == Given(None)
    && data[j].remarks == Given(None) && data[j].interviewer == Given(None)
  }

  /** No touched round comes after one that is not cleared, unless it is being reset. */
  predicate InOrder(existing: seq<Round>, req: Request, data: seq<Change>)
    requires |req.rounds| == |existing| == |data|
  {
    forall j :: 0 <= j < |existing| && Touches(existing[j], req.rounds[j]) && Locked(Apply(existing, data), j)
      ==> ResetByCorrection(existing, req, data, j)
  }

  /** If any round is touched, no round with a result or a date comes after one that is not cleared. */
  predicate WholeSequence(existing: seq<Round>, req: Request, data: seq<Change>)
    requires |req.rounds| == |existing| == |data|
  {
    (exists j :: 0 <= j < |existing| && Touches(existing[j], req.rounds[j])) ==>
      var after := Apply(existing, data);
      forall j :: 0 <= j < |after| && (Started(after[j].status) || Truthy(after[j].date)) ==> !Locked(after, j)
  }

  function Validated(existing: seq<Round>, req: Request): (r: Result<seq<Change>, Error>)
    requires |req.rounds| == |existing|
    ensures r.Ok? ==> |r.value| == |existing|
  {
    var update := Update(existing, req);
    if update.Ok? && !(InOrder(existing, req, update.value) && WholeSequence(existing, req, update.value))
    then Err(OutOfOrder) else update
  }

  /** The request gives the round something it does not hold. */
  predicate Changes(was: Round, c: Change) {
    || (c.status != Absent && c.status != Given(was.status)) || (c.date != Absent && c.date != Given(was.date))
    || (c.remarks != Absent && c.remarks != Given(was.remarks))
    || (c.interviewer != Absent && c.interviewer != Given(was.interviewer))
    || (c.color != Absent && c.color != Given(was.color))
  }

  lemma ChangesExactly(was: Round, c: Change)
    ensures Touches(was, c) <==> Changes(was, c)
  {
  }

  /** A save that changes only the first round that is not cleared, of gated rounds, is never refused. */
  lemma CurrentRoundMayChange(existing: seq<Round>, req: Request, r: nat)
    requires |req.rounds| == |existing| && Gated(existing) && r < |existing|
    requires existing[r].status != Some(CLEARED)
    requires forall i :: 0 <= i < |existing| && i != r ==> req.rounds[i] == UNTOUCHED
    requires forall i :: 0 <= i < r ==> existing[i].status == Some(CLEARED)
    ensures Validated(existing, req).Ok?
  {
    forall i: nat | i < |existing|
      ensures !Withdraws(existing, req, i)
    {
    }
    var w := FirstWithdrawn(existing, req, 0);
    assert w == |existing|;
    var data := Update(existing, req).value;
    var after := Apply(existing, data);
    forall j: nat | j < |existing|
      ensures j != r ==> after[j] == existing[j]
    {
      UpdateShape(existing, req, j);
    }
    hide Update, FirstWithdrawn, Withdraws, Apply;
    forall j | 0 <= j < |after| && (Started(after[j].status) || Truthy(after[j].date))
      ensures !Locked(after, j)
    {
      assert j != r ==> after[j] == existing[j];
      assert j <= r;
    }
  }

  /** A confirmed correction of one clearance, which asks for nothing later, is never refused on gated rounds. */
  lemma CorrectionIsAccepted(existing: seq<Round>, req: Request, r: nat)
    requires |req.rounds| == |existing| && Gated(existing) && r < |existing|
    requires TakesBack(existing, req, r) && ConfirmsReset(req)
    requires forall i :: 0 <= i < r ==> req.rounds[i] == UNTOUCHED
    requires forall i :: r < i < |existing| ==> req.rounds[i].status in {Absent, Given(None), Given(Some(PENDING))}
    ensures Validated(existing, req).Ok?
  {
    ConfirmedExactly(req);
    ClearedBefore(existing, req, r);
    hide ConfirmsReset, Confirmed;
    var w := FirstWithdrawn(existing, req, 0);
    WithdrawsExactly(existing, req, r);
    assert w <= r;
    if w < r {
      WithdrawsExactly(existing, req, w);
    }
    assert !SomeLaterAsks(req, r);
    var data := Update(existing, req).value;
    forall j: nat | j < |existing|
      ensures data[j] == if j <= r then Tidied(existing[j], req.rounds[j]) else CLEARED_OUT
    {
      UpdateShape(existing, req, j);
    }
    hide Update, FirstWithdrawn, Withdraws, SomeLaterAsks;
    CorrectionInOrder(existing, req, data, r);
  }

  lemma ClearedBefore(existing: seq<Round>, req: Request, r: nat)
    requires |req.rounds| == |existing| && Gated(existing) && r < |existing| && TakesBack(existing, req, r)
    ensures forall i :: 0 <= i < r ==> existing[i].status == Some(CLEARED)
  {
    var j :| r < j < |existing| && Happened(existing[j]);
    HappenedExactly(existing[j]);
  }

  lemma CorrectionInOrder(existing: seq<Round>, req: Request, data: seq<Change>, r: nat)
    requires |req.rounds| == |existing| == |data| && r < |existing| && Confirmed(req)
    requires existing[r].status == Some(CLEARED)
    requires req.rounds[r].status != Absent && req.rounds[r].status != Given(Some(CLEARED))
    requires forall i :: 0 <= i < r ==> req.rounds[i] == UNTOUCHED && existing[i].status == Some(CLEARED)
    requires forall j :: 0 <= j < |existing| ==>
      data[j] == if j <= r then Tidied(existing[j], req.rounds[j]) else CLEARED_OUT
    ensures InOrder(existing, req, data) && WholeSequence(existing, req, data)
  {
    hide Confirmed, Touches;
    var after := Apply(existing, data);
    forall i | 0 <= i < r
      ensures after[i].status == Some(CLEARED)
    {
      assert data[i] == UNTOUCHED;
    }
    forall j | r < j < |existing|
      ensures ResetByCorrection(existing, req, data, j) && !Started(after[j].status) && !Truthy(after[j].date)
    {
      assert 0 <= r < j && data[r].status.Given? && data[r].status != Given(Some(CLEARED));
    }
  }

  /** A later result or date behind a round that is not cleared is refused as soon as anything changes. */
  lemma OutOfOrderIsRefused(existing: seq<Round>, req: Request, i: nat, j: nat, k: nat)
    requires |req.rounds| == |existing| && i < j < |existing| && k < |existing| && Update(existing, req).Ok?
    requires Changes(existing[k], req.rounds[k])
    requires var after := Apply(existing, Update(existing, req).value);
      && after[i].status != Some(CLEARED)
      && (after[j].status !in {None, Some(PENDING)} || after[j].date !in {None, Some("")})
    ensures Validated(existing, req) == Err(OutOfOrder)
  {
    ChangesExactly(existing[k], req.rounds[k]);
    var data := Update(existing, req).value;
    StartedExactly(Apply(existing, data)[j]);
    hide Update, Apply, InOrder, Touches, Started, Truthy;
    assert Locked(Apply(existing, data), j);
    assert Started(Apply(existing, data)[j].status) || Truthy(Apply(existing, data)[j].date);
    assert !WholeSequence(existing, req, data);
  }

  /** Progress the update writes into an untouched round was there before. */
  lemma UntouchedWriteIsOld(was: Round, c: Change)
    requires !Touches(was, c) && WritesProgress(Tidied(was, c))
    ensures Progressed(was)
  {
  }

  lemma ValidatedWritesNothingLocked(existing: seq<Round>, req: Request, j: nat)
    requires |req.rounds| == |existing| && j < |existing|
    requires Gated(existing) && Update(existing, req).Ok? && InOrder(existing, req, Update(existing, req).value)
    ensures var data := Update(existing, req).value;
      Locked(Apply(existing, data), j) ==> !WritesProgress(data[j])
  {
    var data := Update(existing, req).value;
    var after := Apply(existing, data);
    UpdateShape(existing, req, j);
    var w := FirstWithdrawn(existing, req, 0);
    hide Update, FirstWithdrawn, Confirmed;
    if WritesProgress(data[j]) && !Touches(existing[j], req.rounds[j]) {
      UntouchedWriteIsOld(existing[j], req.rounds[j]);
      forall i | 0 <= i < j
        ensures after[i].status == Some(CLEARED)
      {
        UpdateShape(existing, req, i);
        assert existing[i].status == Some(CLEARED) && LaterProgressed(existing, i);
        assert !Withdraws(existing, req, i);
      }
    }
  }

  /** What the validator accepts keeps the rounds gated, with no further condition. */
  lemma ValidatedKeepsGate(existing: seq<Round>, req: Request)
    requires |req.rounds| == |existing|
    requires Gated(existing) && Validated(existing, req).Ok?
    ensures Gated(Apply(existing, Validated(existing, req).value))
  {
    var data := Update(existing, req).value;
    hide Update, InOrder, WholeSequence, Gated;
    GateKeptExactlyWhen(existing, req);
    forall j | 0 <= j < |data|
      ensures Locked(Apply(existing, data), j) ==> !WritesProgress(data[j])
    {
      ValidatedWritesNothingLocked(existing, req, j);
    }
  }

  // ---- Saving ----

  /** The first rejected round, or the number of rounds. */
  function FirstRejected(rounds: seq<Round>, i: nat): (r: nat)
    requires i <= |rounds|
    ensures i <= r <= |rounds|
    ensures r < |rounds| ==> rounds[r].status == Some(REJECTED)
    ensures forall k :: i <= k < r ==> rounds[k].status != Some(REJECTED)
    decreases |rounds| - i
  {
    if i == |rounds| || rounds[i].status == Some(REJECTED) then i else FirstRejected(rounds, i + 1)
  }

  /** An empty date text is stored as null. */
  function Stored(r: Round): Round {
    r.(date := if Truthy(r.date) then r.date else None)
  }

  /** Rounds after a rejected one are emptied; their color stays. */
  function Cascaded(rounds: seq<Round>): seq<Round> {
    var r := FirstRejected(rounds, 0);
    seq(|rounds|, i requires 0 <= i < |rounds| =>
      if i > r then Round(Some(PENDING), None, None, None, rounds[i].color) else Stored(rounds[i]))
  }

  datatype Submission = Submission(rounds: seq<Round>, outcome: string)

  const NOT_SELECTED := "NOT_SELECTED"

  /** One save: refused saves change nothing. */
  function Save(s: Submission, req: Request, outcome: Option<string>): (r: Submission)
    requires |req.rounds| == |s.rounds|
    ensures |r.rounds| == |s.rounds|
  {
    var v := Validated(s.rounds, req);
    if v.Err? then s
    else
      var merged := Apply(s.rounds, v.value);
      Submission(Cascaded(merged),
        if FirstRejected(merged, 0) < |merged| then NOT_SELECTED
        else if outcome.Some? then outcome.value
        else s.outcome)
  }

  function Run(s: Submission, saves: seq<(Request, Option<string>)>): (r: Submission)
    requires forall i :: 0 <= i < |saves| ==> |saves[i].0.rounds| == |s.rounds|
    ensures |r.rounds| == |s.rounds|
  {
    if saves == [] then s
    else Save(Run(s, saves[..|saves| - 1]), saves[|saves| - 1].0, saves[|saves| - 1].1)
  }

  lemma CascadeKeepsGate(rounds: seq<Round>)
    requires Gated(rounds)
    ensures Gated(Cascaded(rounds))
  {
    var after := Cascaded(rounds);
    forall i, j | 0 <= i < j < |after| && Progressed(after[j])
      ensures after[i].status == Some(CLEARED)
    {
      assert Progressed(rounds[j]);
    }
  }

  /** Gated rounds stay gated over any run of saves. */
  lemma {:induction false} RunKeepsGate(s: Submission, saves: seq<(Request, Option<string>)>)
    requires forall i :: 0 <= i < |saves| ==> |saves[i].0.rounds| == |s.rounds|
    requires Gated(s.rounds)
    ensures Gated(Run(s, saves).rounds)
  {
    if saves != [] {
      var before := Run(s, saves[..|saves| - 1]);
      RunKeepsGate(s, saves[..|saves| - 1]);
      var req := saves[|saves| - 1].0;
      hide Gated, Cascaded, Validated, Apply;
      if Validated(before.rounds, req).Ok? {
        ValidatedKeepsGate(before.rounds, req);
        CascadeKeepsGate(Apply(before.rounds, Validated(before.rounds, req).value));
      }
    }
  }

  /** The first round that is not cleared, or the number of rounds. */
  function CurrentRound(rounds: seq<Round>, i: nat): (r: nat)
    requires i <= |rounds|
    ensures i <= r <= |rounds|
    ensures r < |rounds| ==> rounds[r].status != Some(CLEARED)
    ensures forall k :: i <= k < r ==> rounds[k].status == Some(CLEARED)
    decreases |rounds| - i
  {
    if i == |rounds| || rounds[i].status != Some(CLEARED) then i else CurrentRound(rounds, i + 1)
  }

  /** Gated means: nothing has happened after the current round. */
  lemma {:induction false} GatedExactlyWhen(rounds: seq<Round>)
    ensures Gated(rounds) <==> forall j :: CurrentRound(rounds, 0) < j < |rounds| ==> !Progressed(rounds[j])
  {
    hide Progressed;
    var c := CurrentRound(rounds, 0);
    if Gated(rounds) && c < |rounds| {
      assert rounds[c].status != Some(CLEARED);
    }
  }

  /** A save writes the merged rounds; behind a rejected one they are emptied, all but the color. */
  lemma SavedExactly(s: Submission, req: Request, outcome: Option<string>, j: nat)
    requires |req.rounds| == |s.rounds| && j < |s.rounds| && Validated(s.rounds, req).Ok?
    ensures var merged := Apply(s.rounds, Validated(s.rounds, req).value);
      var after := Save(s, req, outcome);
      && (if exists i :: 0 <= i < j && merged[i].status == Some(REJECTED)
          then after.rounds[j] == Round(Some(PENDING), None, None, None, merged[j].color)
          else after.rounds[j] == merged[j].(date := if merged[j].date == Some("") then None else merged[j].date))
      && after.outcome == (if exists i :: 0 <= i < |merged| && merged[i].status == Some(REJECTED) then "NOT_SELECTED"
                           else if outcome.Some? then outcome.value else s.outcome)
  {
    hide Validated, Merged;
    var merged := Apply(s.rounds, Validated(s.rounds, req).value);
    var r := FirstRejected(merged, 0);
    assert r < j ==> merged[r].status == Some(REJECTED);
    assert r < |merged| ==> merged[r].status == Some(REJECTED);
  }

  /** A refused save changes nothing. */
  lemma RefusedSavesNothing(s: Submission, req: Request, outcome: Option<string>)
    requires |req.rounds| == |s.rounds| && Validated(s.rounds, req).Err?
    ensures Save(s, req, outcome) == s
  {
  }

  /** After a save that leaves a round rejected, later rounds hold nothing and the outcome says so. */
  lemma RejectionEndsThePipeline(s: Submission, req: Request, outcome: Option<string>, i: nat)
    requires |req.rounds| == |s.rounds| && i < |s.rounds|
    requires Validated(s.rounds, req).Ok?
    requires Save(s, req, outcome).rounds[i].status == Some(REJECTED)
    ensures Save(s, req, outcome).outcome == NOT_SELECTED
    ensures forall j :: i < j < |s.rounds| ==> !Progressed(Save(s, req, outcome).rounds[j])
  {
    hide Validated, Apply;
    var merged := Apply(s.rounds, Validated(s.rounds, req).value);
    assert i <= FirstRejected(merged, 0);
  }
}
