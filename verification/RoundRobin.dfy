/**
 Automatic pod allocation: a cycle of availability flags, flipped under the lock of the unit row.

 `Allocate` is the transaction's effect as a function; `PodTable.AllocateAutomaticPod` is the
 step-by-step transaction. The second half interleaves publications, cycle resets and the creation and
 removal of pods step by step and shows that, with the row lock, every interleaving is some sequence of
 whole operations.
 */
module RoundRobin {
  import opened Prelude

  type PodId = nat

  /** `isAvailableForAssignment` of every pod of the unit, eligible or not. */
  type Flags = map<PodId, bool>

  /** `findMany` returns the eligible pods oldest first: pods that exist, without repetition. */
  predicate Eligible(flags: Flags, pods: seq<PodId>) {
    && (forall i :: 0 <= i < |pods| ==> pods[i] in flags)
    && (forall i, j :: 0 <= i < j < |pods| ==> pods[i] != pods[j])
  }

  datatype Error = PolicyChanged | NoEligiblePod

  // ---- One allocation ----

  function FirstAvailable(flags: Flags, pods: seq<PodId>): (i: nat)
    requires Eligible(flags, pods)
    ensures i <= |pods|
    ensures i < |pods| ==> flags[pods[i]]
    ensures forall j :: 0 <= j < i ==> !flags[pods[j]]
  {
    FirstFrom(flags, pods, 0)
  }

  function FirstFrom(flags: Flags, pods: seq<PodId>, from: nat): (i: nat)
    requires Eligible(flags, pods) && from <= |pods|
    requires forall j :: 0 <= j < from ==> !flags[pods[j]]
    ensures from <= i <= |pods|
    ensures i < |pods| ==> flags[pods[i]]
    ensures forall j :: 0 <= j < i ==> !flags[pods[j]]
    decreases |pods| - from
  {
    if from == |pods| || flags[pods[from]] then from else FirstFrom(flags, pods, from + 1)
  }

  /** The index of the pod that the next allocation picks. */
  function Choice(flags: Flags, pods: seq<PodId>): (i: nat)
    requires Eligible(flags, pods) && pods != []
    ensures i < |pods|
  {
    var i := FirstAvailable(flags, pods);
    if i < |pods| then i else 0
  }

  /** The flags after it: a full cycle first opens every eligible pod, then the pick is closed. */
  function Allocate(flags: Flags, pods: seq<PodId>): (r: Flags)
    requires Eligible(flags, pods) && pods != []
    ensures Eligible(r, pods) && r.Keys == flags.Keys
  {
    var pick := pods[Choice(flags, pods)];
    map p | p in flags ::
      if p == pick then false else flags[p] || (FirstAvailable(flags, pods) == |pods| && p in pods)
  }

  class PodTable {
    var flags: Flags

    constructor (flags: Flags)
      ensures this.flags == flags
    {
      this.flags := flags;
    }

    /** The body of the transaction, once the unit row is locked and the policy read. */
    method AllocateAutomaticPod(automatic: bool, allowUnassigned: bool, pods: seq<PodId>)
      returns (result: Result<Option<PodId>, Error>)
      requires Eligible(flags, pods)
      modifies this
      ensures !automatic ==> result == Err(PolicyChanged)
      ensures automatic && pods == [] ==> result == if allowUnassigned then Ok(None) else Err(NoEligiblePod)
      ensures automatic && pods != [] ==> result == Ok(Some(pods[Choice(old(flags), pods)]))
      ensures flags == if automatic && pods != [] then Allocate(old(flags), pods) else old(flags)
    {
      if !automatic {
        return Err(PolicyChanged);
      }
      if pods == [] {
        return if allowUnassigned then Ok(None) else Err(NoEligiblePod);
      }
      ghost var was := flags;
      var i := 0;
      while i < |pods| && !flags[pods[i]]
        invariant i <= |pods|
        invariant forall j :: 0 <= j < i ==> !flags[pods[j]]
      {
        i := i + 1;
      }
      FirstIsUnique(flags, pods, i);
      if i == |pods| {
        UpdateMany(pods);
        i := 0;
      }
      flags := flags[pods[i] := false];
      assert flags.Keys == was.Keys;
      return Ok(Some(pods[i]));
    }

    /** `updateMany` over the eligible pods. */
    method UpdateMany(pods: seq<PodId>)
      modifies this
      ensures flags == map p | p in old(flags) :: old(flags)[p] || p in pods
    {
      flags := map p | p in flags :: flags[p] || p in pods;
    }
  }

  lemma FirstIsUnique(flags: Flags, pods: seq<PodId>, i: nat)
    requires Eligible(flags, pods) && i <= |pods|
    requires i < |pods| ==> flags[pods[i]]
    requires forall j :: 0 <= j < i ==> !flags[pods[j]]
    ensures i == FirstAvailable(flags, pods)
  {
    var f := FirstAvailable(flags, pods);
  }

  // ---- Runs of one unit with a fixed eligible list ----

  function After(flags: Flags, pods: seq<PodId>, k: nat): (r: Flags)
    requires Eligible(flags, pods) && pods != []
    ensures Eligible(r, pods) && r.Keys == flags.Keys
  {
    if k == 0 then flags else Allocate(After(flags, pods, k - 1), pods)
  }

  /** The index of allocation k, counting from zero. */
  function Pick(flags: Flags, pods: seq<PodId>, k: nat): (i: nat)
    requires Eligible(flags, pods) && pods != []
    ensures i < |pods|
  {
    Choice(After(flags, pods, k), pods)
  }

  predicate AllAvailable(flags: Flags, pods: seq<PodId>)
    requires Eligible(flags, pods)
  {
    forall i :: 0 <= i < |pods| ==> flags[pods[i]]
  }

  /** The first m pods taken, the rest open. */
  predicate TakenUpTo(flags: Flags, pods: seq<PodId>, m: nat)
    requires Eligible(flags, pods)
  {
    forall i :: 0 <= i < |pods| ==> (flags[pods[i]] <==> i >= m)
  }

  lemma TakesNext(flags: Flags, pods: seq<PodId>, m: nat)
    requires Eligible(flags, pods) && pods != [] && m <= |pods| && TakenUpTo(flags, pods, m)
    ensures var m' := if m == |pods| then 0 else m;
      Choice(flags, pods) == m' && TakenUpTo(Allocate(flags, pods), pods, m' + 1)
  {
    FirstIsUnique(flags, pods, m);
  }

  /** How many pods are taken after k allocations, if m were taken before them. */
  function Level(m: nat, k: nat, size: nat): (r: nat)
    requires 0 < size && m <= size
    ensures r <= size
  {
    if k == 0 then m
    else
      var before := Level(m, k - 1, size);
      if before == size then 1 else before + 1
  }

  lemma {:induction false} LevelIsModulo(m: nat, k: nat, size: nat)
    requires 0 < size && m <= size
    ensures (if Level(m, k, size) == size then 0 else Level(m, k, size)) == (m + k) % size
  {
    if k == 0 {
      if m == size {
        ModuloOf(m, size, 1, 0);
      } else {
        ModuloOf(m, size, 0, m);
      }
    } else {
      LevelIsModulo(m, k - 1, size);
      NextModulo(m + k - 1, size, m + k);
    }
  }

  lemma NextModulo(a: nat, size: nat, b: nat)
    requires 0 < size && b == a + 1
    ensures b % size == if a % size + 1 == size then 0 else a % size + 1
  {
    var q, r := a / size, a % size;
    if r + 1 == size {
      assert b == size * (q + 1);
      ModuloOf(b, size, q + 1, 0);
    } else {
      ModuloOf(b, size, q, r + 1);
    }
  }

  lemma Grows(size: nat, q: nat, q': nat)
    requires q <= q'
    ensures size * q <= size * q'
  {
  }

  lemma ModuloOf(a: nat, size: nat, q: nat, r: nat)
    requires 0 < size && a == size * q + r && r < size
    ensures a % size == r
  {
    var q', r' := a / size, a % size;
    assert a == size * q' + r';
    if q < q' {
      Grows(size, q + 1, q');
    } else if q' < q {
      Grows(size, q' + 1, q);
    }
  }

  /** From a cycle whose first m pods are taken, allocation k takes pod m + k modulo their number. */
  lemma {:induction false} RoundRobinFrom(flags: Flags, pods: seq<PodId>, m: nat, k: nat)
    requires Eligible(flags, pods) && pods != [] && m <= |pods| && TakenUpTo(flags, pods, m)
    ensures TakenUpTo(After(flags, pods, k), pods, Level(m, k, |pods|))
    ensures Pick(flags, pods, k) == (m + k) % |pods|
  {
    hide Allocate;
    if k > 0 {
      RoundRobinFrom(flags, pods, m, k - 1);
      TakesNext(After(flags, pods, k - 1), pods, Level(m, k - 1, |pods|));
    }
    LevelIsModulo(m, k, |pods|);
    TakesNext(After(flags, pods, k), pods, Level(m, k, |pods|));
  }

  /** Round robin: from an open cycle, allocation k takes pod k modulo the number of pods. */
  lemma RoundRobin(flags: Flags, pods: seq<PodId>, k: nat)
    requires Eligible(flags, pods) && pods != [] && AllAvailable(flags, pods)
    ensures Pick(flags, pods, k) == k % |pods|
  {
    RoundRobinFrom(flags, pods, 0, k);
  }

  /** Pods outside the eligible list keep their flag, whatever it was. */
  lemma OthersUntouched(flags: Flags, pods: seq<PodId>, p: PodId)
    requires Eligible(flags, pods) && pods != [] && p in flags && p !in pods
    ensures Allocate(flags, pods)[p] == flags[p]
  {
  }

  // ---- Fairness from arbitrary flags ----

  function Open(flags: Flags, pods: seq<PodId>, n: nat): (count: nat)
    requires Eligible(flags, pods) && n <= |pods|
    ensures count <= n
  {
    if n == 0 then 0 else Open(flags, pods, n - 1) + (if flags[pods[n - 1]] then 1 else 0)
  }

  lemma {:induction false} OpenAfterPick(flags: Flags, after: Flags, pods: seq<PodId>, pick: nat, n: nat)
    requires Eligible(flags, pods) && Eligible(after, pods) && n <= |pods| && pick < |pods|
    requires flags[pods[pick]] && !after[pods[pick]]
    requires forall i :: 0 <= i < |pods| && i != pick ==> after[pods[i]] == flags[pods[i]]
    ensures Open(after, pods, n) == if pick < n then Open(flags, pods, n) - 1 else Open(flags, pods, n)
  {
    if n > 0 {
      OpenAfterPick(flags, after, pods, pick, n - 1);
    }
  }

  lemma {:induction false} OpenBounds(flags: Flags, pods: seq<PodId>, n: nat, i: nat)
    requires Eligible(flags, pods) && i < n <= |pods|
    ensures flags[pods[i]] ==> Open(flags, pods, n) > 0
    ensures !flags[pods[i]] ==> Open(flags, pods, n) < n
  {
    if i < n - 1 {
      OpenBounds(flags, pods, n - 1, i);
    }
  }

  lemma {:induction false} SomeOpen(flags: Flags, pods: seq<PodId>, n: nat)
    requires Eligible(flags, pods) && n <= |pods|
    requires Open(flags, pods, n) > 0
    ensures exists i :: 0 <= i < n && flags[pods[i]]
  {
    if !flags[pods[n - 1]] {
      SomeOpen(flags, pods, n - 1);
    }
  }

  /** While a pod is open, an allocation closes exactly the first open one. */
  lemma {:induction false} TakesOne(flags: Flags, pods: seq<PodId>)
    requires Eligible(flags, pods) && pods != [] && Open(flags, pods, |pods|) > 0
    ensures var i, after := Choice(flags, pods), Allocate(flags, pods);
      flags[pods[i]] && !after[pods[i]] && Open(after, pods, |pods|) == Open(flags, pods, |pods|) - 1 &&
      forall j :: 0 <= j < |pods| && j != i ==> after[pods[j]] == flags[pods[j]]
  {
    SomeOpen(flags, pods, |pods|);
    OpenAfterPick(flags, Allocate(flags, pods), pods, Choice(flags, pods), |pods|);
  }

  lemma {:induction false} AfterShifts(flags: Flags, pods: seq<PodId>, k: nat)
    requires Eligible(flags, pods) && pods != []
    ensures After(flags, pods, k + 1) == After(Allocate(flags, pods), pods, k)
  {
    hide Allocate;
    if k > 0 {
      AfterShifts(flags, pods, k - 1);
    } else {
      assert After(flags, pods, 0) == flags;
    }
  }

  /** Allocations until pod i comes up: at once if it is open and first, after the open ones if not. */
  lemma {:induction false} ComesUp(flags: Flags, pods: seq<PodId>, i: nat) returns (k: nat)
    requires Eligible(flags, pods) && i < |pods|
    ensures Pick(flags, pods, k) == i
    ensures flags[pods[i]] ==> k < Open(flags, pods, |pods|)
    ensures !flags[pods[i]] ==> k == Open(flags, pods, |pods|) + i
    decreases Open(flags, pods, |pods|)
  {
    hide Allocate;
    if Open(flags, pods, |pods|) == 0 {
      AllTaken(flags, pods);
      OpenBounds(flags, pods, |pods|, i);
      RoundRobinFrom(flags, pods, |pods|, i);
      ModuloOf(|pods| + i, |pods|, 1, i);
      k := i;
    } else if Choice(flags, pods) == i {
      TakesOne(flags, pods);
      k := 0;
    } else {
      TakesOne(flags, pods);
      var k' := ComesUp(Allocate(flags, pods), pods, i);
      AfterShifts(flags, pods, k');
      k := k' + 1;
    }
  }

  lemma {:induction false} AllTaken(flags: Flags, pods: seq<PodId>)
    requires Eligible(flags, pods) && Open(flags, pods, |pods|) == 0
    ensures TakenUpTo(flags, pods, |pods|)
  {
    forall i | 0 <= i < |pods|
      ensures !flags[pods[i]]
    {
      OpenBounds(flags, pods, |pods|, i);
    }
  }

  /** Whatever the flags, every eligible pod is chosen within 2n - 1 allocations. */
  lemma EveryPodIsServed(flags: Flags, pods: seq<PodId>, i: nat)
    requires Eligible(flags, pods) && i < |pods|
    ensures exists k :: 0 <= k < 2 * |pods| - 1 && Pick(flags, pods, k) == i
  {
    var k := ComesUp(flags, pods, i);
    OpenBounds(flags, pods, |pods|, i);
    assert k < 2 * |pods| - 1 && Pick(flags, pods, k) == i;
  }

  // ---- Interleaved publications under the row lock ----

  type Proc = nat

  /** Where a transaction stands. It holds the unit row from `Locked` until it commits or rolls back. */
  datatype Stage =
    | Locked
    | HasRead(pods: seq<PodId>, seen: Flags)
    | HasWritten(pods: seq<PodId>, seen: Flags, kept: set<PodId>, pick: PodId, writes: map<PodId, bool>)

  /** What has been committed, in commit order. */
  datatype Entry =
    | Published(pods: seq<PodId>, pick: PodId)
    | CycleReset
    | PodCreated(pod: PodId)
    | PodRemoved(pod: PodId)

  /** The committed table, every identifier it ever used, the lock, and the transactions under way. */
  datatype State =
    State(flags: Flags, known: set<PodId>, lock: Option<Proc>, stages: map<Proc, Stage>, log: seq<Entry>)

  datatype Event =
    | TakeLock(p: Proc)
    | Read(p: Proc, pods: seq<PodId>)
    | Write(p: Proc, eligible: set<PodId>)
    | Commit(p: Proc)
    | Rollback(p: Proc)
    | Reset(p: Proc)
    | Create(pod: PodId)
    | Remove(pod: PodId)

  /** The pods of a list that are kept, in order. */
  function Still(pods: seq<PodId>, keep: set<PodId>): seq<PodId> {
    if pods == [] then []
    else
      var last := pods[|pods| - 1];
      Still(pods[..|pods| - 1], keep) + if last in keep then [last] else []
  }

  /**
   The rows one allocation writes, computed from what the transaction read. `updateMany` asks for
   eligible pods again, so it reaches only the kept ones; the pick is written by its identifier.
  */
  function Writes(seen: Flags, pods: seq<PodId>, kept: set<PodId>): map<PodId, bool>
    requires Eligible(seen, pods) && pods != []
  {
    var pick := pods[Choice(seen, pods)];
    map p | p in pods && p in kept && (p == pick || FirstAvailable(seen, pods) == |pods|) :: p != pick
  }

  /** A transaction has changed this row and holds it until it ends. */
  predicate RowHeld(s: State, pod: PodId) {
    exists p :: p in s.stages && s.stages[p].HasWritten? && pod in s.stages[p].writes
  }

  function Apply(flags: Flags, writes: map<PodId, bool>): Flags {
    map p | p in flags :: if p in writes then writes[p] else flags[p]
  }

  function OpenAll(flags: Flags): Flags {
    map p | p in flags :: true
  }

  function Next(s: State, e: Event): State {
    match e
    case TakeLock(p) =>
      if s.lock.None? && p !in s.stages then s.(lock := Some(p), stages := s.stages[p := Locked]) else s
    case Read(p, pods) =>
      if p in s.stages && s.stages[p].Locked? && Eligible(s.flags, pods) && pods != [] then
        s.(stages := s.stages[p := HasRead(pods, s.flags)])
      else s
    case Write(p, eligible) =>
      if p in s.stages && s.stages[p].HasRead? && Eligible(s.stages[p].seen, s.stages[p].pods)
        && s.stages[p].pods != [] then
        var t := s.stages[p];
        var pick := t.pods[Choice(t.seen, t.pods)];
        // Writing a row that is gone fails, and the transaction with it.
        if pick !in s.flags then s.(lock := None, stages := s.stages - {p})
        else
          var kept := eligible * s.flags.Keys + {pick};
          s.(stages := s.stages[p := HasWritten(t.pods, t.seen, kept, pick, Writes(t.seen, t.pods, kept))])
      else s
    case Commit(p) =>
      if p in s.stages && s.stages[p].HasWritten? then
        var t := s.stages[p];
        State(Apply(s.flags, t.writes), s.known, None, s.stages - {p},
          s.log + [Published(Still(t.pods, t.kept * s.flags.Keys), t.pick)])
      else s
    case Rollback(p) =>
      if p in s.stages then s.(lock := None, stages := s.stages - {p}) else s
    case Reset(p) =>
      if p in s.stages && s.stages[p].Locked? then
        State(OpenAll(s.flags), s.known, None, s.stages - {p}, s.log + [CycleReset])
      else s
    case Create(pod) =>
      // A new pod has a new identifier and starts available; creation does not take the unit lock.
      if pod !in s.known then
        s.(flags := s.flags[pod := true], known := s.known + {pod}, log := s.log + [PodCreated(pod)])
      else s
    case Remove(pod) =>
      // Nor does removal; it waits for a transaction that has changed the pod's row.
      if pod in s.flags && !RowHeld(s, pod) then
        s.(flags := s.flags - {pod}, log := s.log + [PodRemoved(pod)])
      else s
  }

  function Run(initial: Flags, events: seq<Event>): State {
    if events == [] then State(initial, initial.Keys, None, map[], [])
    else Next(Run(initial, events[..|events| - 1]), events[|events| - 1])
  }

  /** The log carried out as whole, uninterrupted operations; `None` if some pick was not its turn. */
  function Replay(initial: Flags, log: seq<Entry>): Option<Flags> {
    if log == [] then Some(initial)
    else match Replay(initial, log[..|log| - 1])
      case None => None
      case Some(flags) => Perform(flags, Known(initial, log[..|log| - 1]), log[|log| - 1])
  }

  /** Every identifier in use at the start or created since. */
  function Known(initial: Flags, log: seq<Entry>): set<PodId> {
    if log == [] then initial.Keys
    else
      var last := log[|log| - 1];
      Known(initial, log[..|log| - 1]) + if last.PodCreated? then {last.pod} else {}
  }

  function Perform(flags: Flags, known: set<PodId>, e: Entry): Option<Flags> {
    match e
    case Published(pods, pick) =>
      if Eligible(flags, pods) && pods != [] && pick == pods[Choice(flags, pods)]
      then Some(Allocate(flags, pods))
      else None
    case CycleReset => Some(OpenAll(flags))
    case PodCreated(p) => if p in known then None else Some(flags[p := true])
    case PodRemoved(p) => if p in flags then Some(flags - {p}) else None
  }

  /** A transaction past its lock holds the row, and what it read is still what the table says. */
  predicate StageOk(s: State, p: Proc)
    requires p in s.stages
  {
    var t := s.stages[p];
    && s.lock == Some(p)
    && (!t.Locked? ==>
          t.pods != [] && Eligible(t.seen, t.pods) && t.seen.Keys <= s.known &&
          forall q :: q in t.seen && q in s.flags ==> s.flags[q] == t.seen[q])
    && (t.HasWritten? ==>
          t.pick == t.pods[Choice(t.seen, t.pods)] && t.pick in t.kept && t.pick in s.flags &&
          t.writes == Writes(t.seen, t.pods, t.kept))
  }

  predicate Inv(s: State, initial: Flags) {
    && (s.lock.Some? ==> s.lock.value in s.stages)
    && (forall p :: p in s.stages ==> StageOk(s, p))
    && Replay(initial, s.log) == Some(s.flags)
    && s.known == Known(initial, s.log) && s.flags.Keys <= s.known
  }

  lemma {:induction false} ReplayMore(initial: Flags, log: seq<Entry>, e: Entry)
    requires Replay(initial, log).Some?
    ensures Replay(initial, log + [e]) == Perform(Replay(initial, log).value, Known(initial, log), e)
    ensures Known(initial, log + [e]) == Known(initial, log) + if e.PodCreated? then {e.pod} else {}
  {
    assert (log + [e])[..|log|] == log;
  }

  lemma {:induction false} StillMembers(pods: seq<PodId>, keep: set<PodId>)
    ensures forall x :: x in Still(pods, keep) <==> x in pods && x in keep
  {
    if pods != [] {
      StillMembers(pods[..|pods| - 1], keep);
      assert pods == pods[..|pods| - 1] + [pods[|pods| - 1]];
    }
  }

  lemma {:induction false} StillEligible(seen: Flags, flags: Flags, pods: seq<PodId>, keep: set<PodId>)
    requires Eligible(seen, pods) && keep <= flags.Keys
    ensures Eligible(flags, Still(pods, keep))
  {
    if pods != [] {
      StillEligible(seen, flags, pods[..|pods| - 1], keep);
      StillMembers(pods[..|pods| - 1], keep);
    }
  }

  /** The first pod of a list stays first. */
  lemma {:induction false} StillFirst(pods: seq<PodId>, keep: set<PodId>)
    requires pods != [] && pods[0] in keep
    ensures Still(pods, keep) != [] && Still(pods, keep)[0] == pods[0]
  {
    if |pods| > 1 {
      StillFirst(pods[..|pods| - 1], keep);
    } else {
      assert Still(pods[..0], keep) == [];
    }
  }

  /** What was read still holds for the kept pods. */
  predicate Agree(seen: Flags, flags: Flags, keep: set<PodId>) {
    keep <= flags.Keys && forall q :: q in seen && q in keep ==> flags[q] == seen[q]
  }

  /** Dropping other pods does not move the first available one. */
  lemma {:induction false} StillFirstAvailable(seen: Flags, flags: Flags, pods: seq<PodId>, keep: set<PodId>)
    requires Eligible(seen, pods) && Agree(seen, flags, keep)
    requires FirstAvailable(seen, pods) < |pods| && pods[FirstAvailable(seen, pods)] in keep
    ensures var live := Still(pods, keep);
      && Eligible(flags, live) && FirstAvailable(flags, live) < |live|
      && live[FirstAvailable(flags, live)] == pods[FirstAvailable(seen, pods)]
  {
    StillEligible(seen, flags, pods, keep);
    var init, first := pods[..|pods| - 1], FirstAvailable(seen, pods);
    StillEligible(seen, flags, init, keep);
    if first < |init| {
      FirstIsUnique(seen, init, first);
      StillFirstAvailable(seen, flags, init, keep);
      FirstIsUnique(flags, Still(pods, keep), FirstAvailable(flags, Still(init, keep)));
    } else {
      StillMembers(init, keep);
      var before := Still(init, keep);
      assert forall x :: x in init ==> !seen[x];
      assert forall j :: 0 <= j < |before| ==> Still(pods, keep)[j] == before[j] && before[j] in before;
      FirstIsUnique(flags, Still(pods, keep), |before|);
    }
  }

  /** Among the kept pods the choice is the same, and a full cycle stays full. */
  lemma {:induction false} SameChoice(seen: Flags, flags: Flags, pods: seq<PodId>, keep: set<PodId>)
    requires Eligible(seen, pods) && pods != [] && Agree(seen, flags, keep) && pods[Choice(seen, pods)] in keep
    ensures var live := Still(pods, keep);
      && Eligible(flags, live) && live != [] && live[Choice(flags, live)] == pods[Choice(seen, pods)]
      && (FirstAvailable(flags, live) == |live| <==> FirstAvailable(seen, pods) == |pods|)
  {
    StillEligible(seen, flags, pods, keep);
    if FirstAvailable(seen, pods) < |pods| {
      StillFirstAvailable(seen, flags, pods, keep);
    } else {
      StillFirst(pods, keep);
      StillMembers(pods, keep);
      var live := Still(pods, keep);
      assert forall j :: 0 <= j < |live| ==> live[j] in live;
      FirstIsUnique(flags, live, |live|);
    }
  }

  /** Committing rows computed from an older read is one whole allocation on the current table, over the pods kept. */
  lemma {:induction false} CommitIsAllocate(flags: Flags, seen: Flags, pods: seq<PodId>, kept: set<PodId>)
    requires pods != [] && Eligible(seen, pods) && pods[Choice(seen, pods)] in kept * flags.Keys
    requires forall q :: q in seen && q in flags ==> flags[q] == seen[q]
    ensures var live := Still(pods, kept * flags.Keys);
      && Eligible(flags, live) && live != [] && live[Choice(flags, live)] == pods[Choice(seen, pods)]
      && Apply(flags, Writes(seen, pods, kept)) == Allocate(flags, live)
  {
    SameChoice(seen, flags, pods, kept * flags.Keys);
    StillMembers(pods, kept * flags.Keys);
    hide Still, Choice, FirstAvailable, Eligible;
  }

  /** What a transaction that holds its rows commits is an allocation whose turn it is. */
  lemma CommitPerforms(s: State, initial: Flags, p: Proc)
    requires Inv(s, initial) && p in s.stages && s.stages[p].HasWritten?
    ensures var t := s.stages[p];
      Perform(s.flags, s.known, Published(Still(t.pods, t.kept * s.flags.Keys), t.pick))
        == Some(Apply(s.flags, t.writes))
  {
    assert StageOk(s, p);
    hide Inv, Apply, Allocate, Still, Writes, FirstAvailable;
    var t := s.stages[p];
    CommitIsAllocate(s.flags, t.seen, t.pods, t.kept);
  }

  lemma CommitKeepsInv(s: State, initial: Flags, p: Proc)
    requires Inv(s, initial) && p in s.stages && s.stages[p].HasWritten?
    ensures Inv(Next(s, Commit(p)), initial)
  {
    hide Perform, Still, Replay, Known, Eligible, Choice, Writes;
    CommitPerforms(s, initial, p);
    var t := s.stages[p];
    ReplayMore(initial, s.log, Published(Still(t.pods, t.kept * s.flags.Keys), t.pick));
    OnlyHolder(s, initial, p);
  }

  lemma OnlyHolder(s: State, initial: Flags, p: Proc)
    requires Inv(s, initial) && p in s.stages
    ensures s.stages - {p} == map[]
  {
    assert StageOk(s, p);
    forall q | q in s.stages
      ensures q == p
    {
      assert StageOk(s, q);
    }
  }

  lemma CreateKeepsInv(s: State, initial: Flags, pod: PodId)
    requires Inv(s, initial)
    ensures Inv(Next(s, Create(pod)), initial)
  {
    hide Replay, Known, Choice, Writes, Eligible;
    var s' := Next(s, Create(pod));
    if pod !in s.known {
      ReplayMore(initial, s.log, PodCreated(pod));
      forall p | p in s'.stages
        ensures StageOk(s', p)
      {
        assert StageOk(s, p);
      }
    }
  }

  lemma PickIsWritten(seen: Flags, pods: seq<PodId>, kept: set<PodId>)
    requires Eligible(seen, pods) && pods != [] && pods[Choice(seen, pods)] in kept
    ensures pods[Choice(seen, pods)] in Writes(seen, pods, kept)
  {
  }

  lemma RemoveKeepsInv(s: State, initial: Flags, pod: PodId)
    requires Inv(s, initial)
    ensures Inv(Next(s, Remove(pod)), initial)
  {
    hide Replay, Known, Choice, Writes, Eligible;
    var s' := Next(s, Remove(pod));
    if pod in s.flags && !RowHeld(s, pod) {
      ReplayMore(initial, s.log, PodRemoved(pod));
      forall p | p in s'.stages
        ensures StageOk(s', p)
      {
        assert StageOk(s, p);
        if s.stages[p].HasWritten? {
          PickIsWritten(s.stages[p].seen, s.stages[p].pods, s.stages[p].kept);
        }
      }
    }
  }

  lemma LockAndReadKeepInv(s: State, initial: Flags, e: Event)
    requires Inv(s, initial) && (e.TakeLock? || e.Read? || e.Rollback?)
    ensures Inv(Next(s, e), initial)
  {
    hide Replay, Known, Choice, Writes;
    if e.p in s.stages {
      OnlyHolder(s, initial, e.p);
      assert StageOk(s, e.p);
    }
    assert forall q :: q in s.stages ==> StageOk(s, q);
  }

  lemma WriteKeepsInv(s: State, initial: Flags, p: Proc, eligible: set<PodId>)
    requires Inv(s, initial)
    ensures Inv(Next(s, Write(p, eligible)), initial)
  {
    hide Replay, Known, Choice, Writes;
    if p in s.stages {
      OnlyHolder(s, initial, p);
      assert StageOk(s, p);
    }
  }

  lemma ResetKeepsInv(s: State, initial: Flags, p: Proc)
    requires Inv(s, initial)
    ensures Inv(Next(s, Reset(p)), initial)
  {
    hide Replay, Known, Choice, Writes, Eligible;
    if p in s.stages {
      OnlyHolder(s, initial, p);
      ReplayMore(initial, s.log, CycleReset);
    }
  }

  lemma NextKeepsInv(s: State, initial: Flags, e: Event)
    requires Inv(s, initial)
    ensures Inv(Next(s, e), initial)
  {
    match e
    case TakeLock(_) => LockAndReadKeepInv(s, initial, e);
    case Read(_, _) => LockAndReadKeepInv(s, initial, e);
    case Rollback(_) => LockAndReadKeepInv(s, initial, e);
    case Write(p, eligible) => WriteKeepsInv(s, initial, p, eligible);
    case Commit(p) =>
      if p in s.stages && s.stages[p].HasWritten? { CommitKeepsInv(s, initial, p); }
    case Reset(p) => ResetKeepsInv(s, initial, p);
    case Create(pod) => CreateKeepsInv(s, initial, pod);
    case Remove(pod) => RemoveKeepsInv(s, initial, pod);
  }

  /**
   With the row lock, every interleaving of publications, resets, pod creations and pod removals leaves
   the table exactly as the committed operations, carried out one after the other, would leave it. A
   publication that pods drop out of is one over the pods that stay.
   */
  lemma {:induction false} InterleavingIsSerial(initial: Flags, events: seq<Event>)
    ensures Inv(Run(initial, events), initial)
  {
    if events != [] {
      InterleavingIsSerial(initial, events[..|events| - 1]);
      NextKeepsInv(Run(initial, events[..|events| - 1]), initial, events[|events| - 1]);
    }
  }

  // ---- Transactions that run to their end ----

  lemma {:induction false} StillAll(pods: seq<PodId>, keep: set<PodId>)
    requires forall p :: p in pods ==> p in keep
    ensures Still(pods, keep) == pods
  {
    if pods != [] {
      StillAll(pods[..|pods| - 1], keep);
      assert pods == pods[..|pods| - 1] + [pods[|pods| - 1]];
    }
  }

  /** The states of an undisturbed publication up to its writes. */
  function AfterWrite(s: State, p: Proc, pods: seq<PodId>, eligible: set<PodId>): State {
    Next(Next(Next(s, TakeLock(p)), Read(p, pods)), Write(p, eligible))
  }

  lemma WriteReached(s: State, p: Proc, pods: seq<PodId>, eligible: set<PodId>)
    requires s.lock.None? && p !in s.stages && Eligible(s.flags, pods) && pods != []
    ensures var pick := pods[Choice(s.flags, pods)];
      var kept := eligible * s.flags.Keys + {pick};
      AfterWrite(s, p, pods, eligible) == State(s.flags, s.known, Some(p),
        s.stages[p := HasWritten(pods, s.flags, kept, pick, Writes(s.flags, pods, kept))], s.log)
  {
    hide Eligible, Choice, Writes;
    var s1 := Next(s, TakeLock(p));
    assert s1 == State(s.flags, s.known, Some(p), s.stages[p := Locked], s.log);
    var s2 := Next(s1, Read(p, pods));
    assert s2 == State(s.flags, s.known, Some(p), s.stages[p := HasRead(pods, s.flags)], s.log);
    PickIsListed(s.flags, pods);
  }

  lemma PickIsListed(flags: Flags, pods: seq<PodId>)
    requires Eligible(flags, pods) && pods != []
    ensures pods[Choice(flags, pods)] in flags && pods[Choice(flags, pods)] in pods
  {
  }

  lemma CommitEffect(s: State, p: Proc)
    requires p in s.stages && s.stages[p].HasWritten?
    ensures var t := s.stages[p];
      Next(s, Commit(p)) == State(Apply(s.flags, t.writes), s.known, None, s.stages - {p},
        s.log + [Published(Still(t.pods, t.kept * s.flags.Keys), t.pick)])
  {
    hide Apply, Still;
  }

  /** Rows computed from the table as it stands, committed at once, are one allocation over all the pods. */
  lemma {:induction false} CommitNow(flags: Flags, pods: seq<PodId>, eligible: set<PodId>)
    requires Eligible(flags, pods) && pods != [] && forall q :: q in pods ==> q in eligible
    ensures var kept := eligible * flags.Keys + {pods[Choice(flags, pods)]};
      Still(pods, kept * flags.Keys) == pods && Apply(flags, Writes(flags, pods, kept)) == Allocate(flags, pods)
  {
    var kept := eligible * flags.Keys + {pods[Choice(flags, pods)]};
    PickIsListed(flags, pods);
    AllListed(flags, pods);
    StillAll(pods, kept * flags.Keys);
    CommitIsAllocate(flags, flags, pods, kept);
    hide Apply, Allocate, Writes, Eligible, Choice, Still;
  }

  /** A publication that nothing disturbs commits one allocation, and frees the row. */
  lemma PublicationCommits(s: State, p: Proc, pods: seq<PodId>, eligible: set<PodId>)
    requires s.lock.None? && p !in s.stages && Eligible(s.flags, pods) && pods != []
    requires forall q :: q in pods ==> q in eligible
    ensures Next(AfterWrite(s, p, pods, eligible), Commit(p))
      == s.(flags := Allocate(s.flags, pods), log := s.log + [Published(pods, pods[Choice(s.flags, pods)])])
  {
    hide Next, AfterWrite, Apply, Allocate, Writes, Eligible, Choice, Still;
    WriteReached(s, p, pods, eligible);
    CommitEffect(AfterWrite(s, p, pods, eligible), p);
    CommitNow(s.flags, pods, eligible);
    assert AfterWrite(s, p, pods, eligible).stages - {p} == s.stages;
  }

  lemma AllListed(flags: Flags, pods: seq<PodId>)
    requires Eligible(flags, pods)
    ensures forall q :: q in pods ==> q in flags
  {
  }

  /** One that is rolled back leaves everything as it was. */
  lemma RollbackRestores(s: State, p: Proc, pods: seq<PodId>, eligible: set<PodId>)
    requires s.lock.None? && p !in s.stages && Eligible(s.flags, pods) && pods != []
    ensures Next(AfterWrite(s, p, pods, eligible), Rollback(p)) == s
  {
    WriteReached(s, p, pods, eligible);
    hide AfterWrite, Writes, Eligible, Choice;
    var pick := pods[Choice(s.flags, pods)];
    var kept := eligible * s.flags.Keys + {pick};
    assert s.stages[p := HasWritten(pods, s.flags, kept, pick, Writes(s.flags, pods, kept))] - {p} == s.stages;
  }

  /** A reset opens every pod; a new pod is open; a removed one is gone, unless its row is held. */
  lemma TableChanges(s: State, p: Proc, pod: PodId)
    requires s.lock.None? && p !in s.stages
    ensures var reset := Next(Next(s, TakeLock(p)), Reset(p));
      && reset.flags.Keys == s.flags.Keys && (forall q :: q in reset.flags ==> reset.flags[q])
      && reset.lock == None && reset.stages == s.stages && reset.log == s.log + [CycleReset]
    ensures pod !in s.known ==>
      Next(s, Create(pod)).flags == s.flags[pod := true] && Next(s, Create(pod)).log == s.log + [PodCreated(pod)]
    ensures pod in s.flags && (forall q :: q in s.stages ==> !s.stages[q].HasWritten?) ==>
      Next(s, Remove(pod)).flags == s.flags - {pod} && Next(s, Remove(pod)).log == s.log + [PodRemoved(pod)]
  {
    assert s.stages[p := Locked] - {p} == s.stages;
  }

  /** While one transaction holds the row, no other gets it. */
  lemma LockExcludes(s: State, p: Proc)
    requires s.lock.Some?
    ensures Next(s, TakeLock(p)) == s
  {
  }

  /** This operation puts pod p back into the cycle: a reset, or a publication that found none open. */
  predicate Reopens(flags: Flags, e: Entry, p: PodId) {
    e.CycleReset? || (e.Published? && Eligible(flags, e.pods) && p in e.pods
      && FirstAvailable(flags, e.pods) == |e.pods|)
  }

  predicate Picks(e: Entry, p: PodId) {
    e.Published? && e.pick == p
  }

  /** The table before entry k of the log. */
  function Before(initial: Flags, log: seq<Entry>, k: nat): Option<Flags>
    requires k <= |log|
  {
    Replay(initial, log[..k])
  }

  lemma {:induction false} PrefixReplays(initial: Flags, log: seq<Entry>, k: nat)
    requires k <= |log| && Replay(initial, log).Some?
    ensures Before(initial, log, k).Some?
    ensures k < |log| ==>
      Perform(Before(initial, log, k).value, Known(initial, log[..k]), log[k]) == Before(initial, log, k + 1)
    decreases |log|
  {
    if k == |log| {
      assert log[..k] == log;
    } else if k == |log| - 1 {
      assert log[..k + 1] == log;
    } else {
      var init := log[..|log| - 1];
      PrefixReplays(initial, init, k);
      assert init[..k] == log[..k] && init[..k + 1] == log[..k + 1];
    }
  }

  /** Entry k puts pod p back into the cycle. */
  predicate ReopensAt(initial: Flags, log: seq<Entry>, k: nat, p: PodId)
    requires k < |log|
  {
    Before(initial, log, k).Some? && Reopens(Before(initial, log, k).value, log[k], p)
  }

  lemma {:induction false} FlagsAreKnown(initial: Flags, log: seq<Entry>)
    requires Replay(initial, log).Some?
    ensures Replay(initial, log).value.Keys <= Known(initial, log)
  {
    if log != [] {
      FlagsAreKnown(initial, log[..|log| - 1]);
    }
  }

  lemma PickCloses(flags: Flags, known: set<PodId>, e: Entry, p: PodId)
    requires Perform(flags, known, e).Some? && Picks(e, p)
    ensures p in flags && p in Perform(flags, known, e).value && !Perform(flags, known, e).value[p]
  {
  }

  lemma ClosedStep(flags: Flags, known: set<PodId>, e: Entry, p: PodId)
    requires Perform(flags, known, e).Some? && p in known && !Reopens(flags, e, p)
    requires p in flags ==> !flags[p]
    ensures p in Perform(flags, known, e).value ==> !Perform(flags, known, e).value[p]
  {
  }

  /** A closed pod stays closed, or is gone, until something reopens it. */
  lemma {:induction false} StaysClosed(initial: Flags, log: seq<Entry>, i: nat, j: nat, p: PodId)
    requires i < j <= |log| && Replay(initial, log).Some? && Picks(log[i], p)
    requires forall k :: i < k < j ==> !ReopensAt(initial, log, k, p)
    ensures Before(initial, log, j).Some? && p in Known(initial, log[..j])
    ensures p in Before(initial, log, j).value ==> !Before(initial, log, j).value[p]
    decreases j
  {
    hide Perform, Reopens, Replay;
    PrefixReplays(initial, log, j);
    PrefixReplays(initial, log, j - 1);
    assert log[..j][..j - 1] == log[..j - 1];
    if j > i + 1 {
      StaysClosed(initial, log, i, j - 1, p);
      assert !ReopensAt(initial, log, j - 1, p);
      ClosedStep(Before(initial, log, j - 1).value, Known(initial, log[..j - 1]), log[j - 1], p);
    } else {
      FlagsAreKnown(initial, log[..i]);
      PickCloses(Before(initial, log, i).value, Known(initial, log[..i]), log[i], p);
    }
  }

  /** A closed pod can only be picked by the publication that reopens it. */
  lemma {:induction false} PickOfClosedReopens(initial: Flags, log: seq<Entry>, j: nat, p: PodId)
    requires j < |log| && Replay(initial, log).Some? && Picks(log[j], p)
    requires Before(initial, log, j).Some?
    requires p in Before(initial, log, j).value ==> !Before(initial, log, j).value[p]
    ensures ReopensAt(initial, log, j, p)
  {
    PrefixReplays(initial, log, j);
    PrefixReplays(initial, log, j + 1);
  }

  /** Between two picks of the same pod, its cycle was reopened. */
  lemma {:induction false} OncePerCycle(initial: Flags, log: seq<Entry>, i: nat, j: nat, p: PodId)
    requires i < j < |log| && Replay(initial, log).Some? && Picks(log[i], p) && Picks(log[j], p)
    ensures exists k :: i < k <= j && ReopensAt(initial, log, k, p)
  {
    hide Before, Reopens;
    if forall k :: i < k < j ==> !ReopensAt(initial, log, k, p) {
      StaysClosed(initial, log, i, j, p);
      PickOfClosedReopens(initial, log, j, p);
    }
  }

  /** Concurrent publications never pick a pod twice in one cycle, in any interleaving. */
  lemma {:induction false} ConcurrentPicksAreFair(initial: Flags, events: seq<Event>, i: nat, j: nat, p: PodId)
    requires i < j < |Run(initial, events).log|
    requires Picks(Run(initial, events).log[i], p) && Picks(Run(initial, events).log[j], p)
    ensures exists k :: i < k <= j && ReopensAt(initial, Run(initial, events).log, k, p)
  {
    InterleavingIsSerial(initial, events);
    OncePerCycle(initial, Run(initial, events).log, i, j, p);
  }
}
