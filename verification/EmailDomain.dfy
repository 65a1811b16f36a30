/**
 The custom email domain of one tenant: save, verify, choose the custom mode, send.

 Each call is a chain of awaits, and calls of the same tenant interleave between them. A step of the
 machine below is what runs between two awaits; what DNS, the provider and the other workspaces
 answer is part of the event, so every answer is possible.
 */
module EmailDomain {
  import opened Prelude

  type Domain = string
  type Proc = nat

  datatype Mode = DefaultSubdomain | DirectAccount | CustomDomain

  datatype Tenant = Tenant(mode: Mode, domain: Option<Domain>, verified: bool)

  /** Where a call stands between two awaits, with what it has read so far. */
  datatype Stage =
    | SaveRead(domain: Domain, keep: bool)
    | SaveUnclaimed(domain: Domain, keep: bool)
    | SaveRegistered(domain: Domain, keep: bool)
    | VerifyRead(domain: Domain)
    | VerifyOwned(domain: Domain)
    | VerifyRequested(domain: Domain)
    | VerifyAnswered(domain: Domain, passed: bool)
    | SendRead(domain: Domain)
    | SendOwned(domain: Domain)
    | SendChecked(domain: Domain)
    | ModeRead(domain: Domain)
    | ModeOwned(domain: Domain)
    | ModeChecked(domain: Domain)

  /** What a call checks a domain for: to set the flag, or to use the domain at once. */
  datatype Check = ToVerify | ToUse

  /** What happened, oldest first: each answer that a check was given, and each use of a domain. */
  datatype Fact =
    | OwnershipShown(proc: Proc, check: Check, domain: Domain)
    | ProviderPassed(proc: Proc, check: Check, domain: Domain)
    | Sent(proc: Proc, domain: Domain)
    | ModeChosen(proc: Proc, domain: Domain)

  /** `used` holds the calls so far; `outcomes` what the last finished verification of each domain wrote. */
  datatype State = State(
    tenant: Tenant, stages: map<Proc, Stage>, used: set<Proc>, facts: seq<Fact>, outcomes: map<Domain, bool>)

  datatype Event =
    | SaveStart(p: Proc, domain: Option<Domain>, platform: bool)
    | SaveClaimCheck(p: Proc, claimedElsewhere: bool)
    | SaveRegister(p: Proc, accepted: bool)
    | SaveWrite(p: Proc)
    | VerifyStart(p: Proc)
    | VerifyOwnership(p: Proc, owned: bool)
    | VerifyRequest(p: Proc, accepted: bool)
    | VerifyConfig(p: Proc, available: bool, verified: bool, authenticated: bool)
    | VerifyWrite(p: Proc)
    | SendStart(p: Proc)
    | SendOwnership(p: Proc, owned: bool)
    | SendConfig(p: Proc, available: bool, verified: bool, authenticated: bool)
    | SendPost(p: Proc)
    | ModeStart(p: Proc, mode: Mode, accountReady: bool)
    | ModeOwnership(p: Proc, owned: bool)
    | ModeConfig(p: Proc, available: bool, verified: bool, authenticated: bool)
    | ModeWrite(p: Proc)

  function Stop(s: State, p: Proc): State {
    s.(stages := s.stages - {p})
  }

  function Go(s: State, p: Proc, stage: Stage): State {
    s.(stages := s.stages[p := stage])
  }

  /** The first step of a call, which has an identity of its own. */
  function Start(s: State, p: Proc, stage: Stage): State {
    Go(s, p, stage).(used := s.used + {p})
  }

  function Note(s: State, f: Fact): State {
    s.(facts := s.facts + [f])
  }

  /** `keep` is decided when a save reads the row, and carried to its write. */
  function Keeps(t: Tenant, d: Domain): bool {
    t.domain == Some(d) && t.verified
  }

  /** The row after a save's write: the domain, and the flag carried from the read. */
  function Saved(t: Tenant, d: Domain, keep: bool): Tenant {
    t.(domain := Some(d), verified := keep)
  }

  /** The conditional update of a verification: it only touches the row of that very domain. */
  function Marked(t: Tenant, d: Domain, passed: bool): Tenant {
    if t.domain == Some(d) then t.(verified := passed) else t
  }

  function Next(s: State, e: Event): State {
    match e
    case SaveStart(p, domain, platform) =>
      if p in s.used || domain.None? || platform then s
      else Start(s, p, SaveRead(domain.value, Keeps(s.tenant, domain.value)))
    case SaveClaimCheck(p, claimed) =>
      if p in s.stages && s.stages[p].SaveRead? then
        if claimed then Stop(s, p) else Go(s, p, SaveUnclaimed(s.stages[p].domain, s.stages[p].keep))
      else s
    case SaveRegister(p, accepted) =>
      if p in s.stages && s.stages[p].SaveUnclaimed? then
        if accepted then Go(s, p, SaveRegistered(s.stages[p].domain, s.stages[p].keep)) else Stop(s, p)
      else s
    case SaveWrite(p) =>
      if p in s.stages && s.stages[p].SaveRegistered? then
        Stop(s, p).(tenant := Saved(s.tenant, s.stages[p].domain, s.stages[p].keep))
      else s
    case VerifyStart(p) =>
      if p in s.used || s.tenant.domain.None? then s else Start(s, p, VerifyRead(s.tenant.domain.value))
    case VerifyOwnership(p, owned) =>
      if p in s.stages && s.stages[p].VerifyRead? then
        var d := s.stages[p].domain;
        if owned then Note(Go(s, p, VerifyOwned(d)), OwnershipShown(p, ToVerify, d)) else Stop(s, p)
      else s
    case VerifyRequest(p, accepted) =>
      if p in s.stages && s.stages[p].VerifyOwned? then
        if accepted then Go(s, p, VerifyRequested(s.stages[p].domain)) else Stop(s, p)
      else s
    case VerifyConfig(p, available, verified, authenticated) =>
      if p in s.stages && s.stages[p].VerifyRequested? then
        var d, passed := s.stages[p].domain, verified && authenticated;
        if !available then Stop(s, p)
        else if passed then Note(Go(s, p, VerifyAnswered(d, true)), ProviderPassed(p, ToVerify, d))
        else Go(s, p, VerifyAnswered(d, false))
      else s
    case VerifyWrite(p) =>
      if p in s.stages && s.stages[p].VerifyAnswered? then
        var d, passed := s.stages[p].domain, s.stages[p].passed;
        Stop(s, p).(tenant := Marked(s.tenant, d, passed),
                    outcomes := if s.tenant.domain == Some(d) then s.outcomes[d := passed] else s.outcomes)
      else s
    case SendStart(p) =>
      // Only the custom mode uses the domain; the other modes send from elsewhere.
      if p in s.used || s.tenant.mode != CustomDomain || s.tenant.domain.None? || !s.tenant.verified then s
      else Start(s, p, SendRead(s.tenant.domain.value))
    case SendOwnership(p, owned) =>
      if p in s.stages && s.stages[p].SendRead? then
        var d := s.stages[p].domain;
        if owned then Note(Go(s, p, SendOwned(d)), OwnershipShown(p, ToUse, d)) else Stop(s, p)
      else s
    case SendConfig(p, available, verified, authenticated) =>
      if p in s.stages && s.stages[p].SendOwned? then
        var d := s.stages[p].domain;
        if available && verified && authenticated then Note(Go(s, p, SendChecked(d)), ProviderPassed(p, ToUse, d))
        else Stop(s, p)
      else s
    case SendPost(p) =>
      if p in s.stages && s.stages[p].SendChecked? then Note(Stop(s, p), Sent(p, s.stages[p].domain)) else s
    case ModeStart(p, mode, accountReady) =>
      if p in s.used then s
      else (match mode
        case DefaultSubdomain => s.(tenant := s.tenant.(mode := DefaultSubdomain))
        case DirectAccount => if accountReady then s.(tenant := s.tenant.(mode := DirectAccount)) else s
        case CustomDomain =>
          if s.tenant.domain.None? || !s.tenant.verified then s else Start(s, p, ModeRead(s.tenant.domain.value)))
    case ModeOwnership(p, owned) =>
      if p in s.stages && s.stages[p].ModeRead? then
        var d := s.stages[p].domain;
        if owned then Note(Go(s, p, ModeOwned(d)), OwnershipShown(p, ToUse, d)) else Stop(s, p)
      else s
    case ModeConfig(p, available, verified, authenticated) =>
      if p in s.stages && s.stages[p].ModeOwned? then
        var d := s.stages[p].domain;
        if available && verified && authenticated then Note(Go(s, p, ModeChecked(d)), ProviderPassed(p, ToUse, d))
        else Stop(s, p)
      else s
    case ModeWrite(p) =>
      if p in s.stages && s.stages[p].ModeChecked? then
        Note(Stop(s, p), ModeChosen(p, s.stages[p].domain)).(tenant := s.tenant.(mode := CustomDomain))
      else s
  }

  /** A tenant that has never verified a domain starts with the flag down. */
  predicate Initial(s: State) {
    !s.tenant.verified && s.stages == map[] && s.used == {} && s.facts == [] && s.outcomes == map[]
  }

  function Run(initial: State, events: seq<Event>): State {
    if events == [] then initial else Next(Run(initial, events[..|events| - 1]), events[|events| - 1])
  }

  // ---- Safety ----

  /** Before position n some verification was shown to own the domain, and then passed by the provider. */
  predicate HasPassed(facts: seq<Fact>, n: nat, d: Domain)
    requires n <= |facts|
  {
    exists j, k :: 0 <= j < k < n && facts[j].OwnershipShown? && facts[j] == OwnershipShown(facts[j].proc, ToVerify, d)
      && facts[k] == ProviderPassed(facts[j].proc, ToVerify, d)
  }

  /** Call p was shown to own the domain, to use it, after some verification had passed it. */
  predicate Rechecking(facts: seq<Fact>, p: Proc, d: Domain) {
    exists j :: 0 <= j < |facts| && facts[j] == OwnershipShown(p, ToUse, d) && HasPassed(facts, j, d)
  }

  /** The use at position i comes after a passed verification and then after both of the call's own checks. */
  predicate Earned(facts: seq<Fact>, i: nat, p: Proc, d: Domain)
    requires i <= |facts|
  {
    exists j, k :: 0 <= j < k < i && facts[j] == OwnershipShown(p, ToUse, d) && facts[k] == ProviderPassed(p, ToUse, d)
      && HasPassed(facts, j, d)
  }

  predicate Passed(facts: seq<Fact>, d: Domain) {
    HasPassed(facts, |facts|, d)
  }

  /** What a call in progress may rely on. */
  predicate StageOk(s: State, p: Proc)
    requires p in s.stages
  {
    match s.stages[p]
    case SaveRead(d, keep) => keep ==> Passed(s.facts, d)
    case SaveUnclaimed(d, keep) => keep ==> Passed(s.facts, d)
    case SaveRegistered(d, keep) => keep ==> Passed(s.facts, d)
    case VerifyOwned(d) => OwnershipShown(p, ToVerify, d) in s.facts
    case VerifyRequested(d) => OwnershipShown(p, ToVerify, d) in s.facts
    case VerifyAnswered(d, passed) => passed ==> Passed(s.facts, d)
    case SendRead(d) => Passed(s.facts, d)
    case SendOwned(d) => Rechecking(s.facts, p, d)
    case SendChecked(d) => Earned(s.facts, |s.facts|, p, d)
    case ModeRead(d) => Passed(s.facts, d)
    case ModeOwned(d) => Rechecking(s.facts, p, d)
    case ModeChecked(d) => Earned(s.facts, |s.facts|, p, d)
    case _ => true
  }

  /** The flag is up only for a stored domain that itself passed both checks. */
  predicate FlagOk(s: State) {
    s.tenant.verified ==> s.tenant.domain.Some? && Passed(s.facts, s.tenant.domain.value)
  }

  predicate UsesOk(facts: seq<Fact>) {
    forall i :: 0 <= i < |facts| && (facts[i].Sent? || facts[i].ModeChosen?) ==>
      Earned(facts, i, facts[i].proc, facts[i].domain)
  }

  predicate Safe(s: State) {
    FlagOk(s) && UsesOk(s.facts) && forall p :: p in s.stages ==> StageOk(s, p)
  }

  lemma PassedEarlier(facts: seq<Fact>, f: Fact, n: nat, d: Domain)
    requires n <= |facts| && HasPassed(facts, n, d)
    ensures HasPassed(facts + [f], n, d) && Passed(facts + [f], d)
  {
    var more := facts + [f];
    var j, k :| 0 <= j < k < n && facts[j].OwnershipShown? && facts[j] == OwnershipShown(facts[j].proc, ToVerify, d)
      && facts[k] == ProviderPassed(facts[j].proc, ToVerify, d);
    assert more[j] == facts[j] && more[k] == facts[k];
  }

  lemma EarnedEarlier(facts: seq<Fact>, f: Fact, i: nat, p: Proc, d: Domain)
    requires i <= |facts| && Earned(facts, i, p, d)
    ensures Earned(facts + [f], i, p, d) && Earned(facts + [f], |facts| + 1, p, d)
  {
    var more := facts + [f];
    var j, k :| 0 <= j < k < i && facts[j] == OwnershipShown(p, ToUse, d) && facts[k] == ProviderPassed(p, ToUse, d)
      && HasPassed(facts, j, d);
    PassedEarlier(facts, f, j, d);
    hide HasPassed;
    assert more[j] == facts[j] && more[k] == facts[k];
  }

  lemma RecheckingEarlier(facts: seq<Fact>, f: Fact, p: Proc, d: Domain)
    requires Rechecking(facts, p, d)
    ensures Rechecking(facts + [f], p, d)
  {
    var j :| 0 <= j < |facts| && facts[j] == OwnershipShown(p, ToUse, d) && HasPassed(facts, j, d);
    PassedEarlier(facts, f, j, d);
    hide HasPassed;
    assert (facts + [f])[j] == facts[j];
  }

  lemma FactsOnlyGrow(facts: seq<Fact>, f: Fact)
    ensures forall d :: Passed(facts, d) ==> Passed(facts + [f], d)
    ensures forall p, d :: Rechecking(facts, p, d) ==> Rechecking(facts + [f], p, d)
    ensures forall i, p, d :: 0 <= i <= |facts| && Earned(facts, i, p, d) ==>
              Earned(facts + [f], i, p, d) && Earned(facts + [f], |facts| + 1, p, d)
    ensures forall g :: g in facts ==> g in facts + [f]
  {
    forall d | Passed(facts, d)
      ensures Passed(facts + [f], d)
    {
      PassedEarlier(facts, f, |facts|, d);
    }
    forall p, d | Rechecking(facts, p, d)
      ensures Rechecking(facts + [f], p, d)
    {
      RecheckingEarlier(facts, f, p, d);
    }
    forall i, p, d | 0 <= i <= |facts| && Earned(facts, i, p, d)
      ensures Earned(facts + [f], i, p, d) && Earned(facts + [f], |facts| + 1, p, d)
    {
      EarnedEarlier(facts, f, i, p, d);
    }
  }

  lemma UsesStayOk(facts: seq<Fact>, f: Fact)
    requires UsesOk(facts)
    requires f.Sent? || f.ModeChosen? ==> Earned(facts, |facts|, f.proc, f.domain)
    ensures UsesOk(facts + [f])
  {
    FactsOnlyGrow(facts, f);
    forall i | 0 <= i < |facts + [f]| && ((facts + [f])[i].Sent? || (facts + [f])[i].ModeChosen?)
      ensures Earned(facts + [f], i, (facts + [f])[i].proc, (facts + [f])[i].domain)
    {
      if i < |facts| {
        assert Earned(facts, i, facts[i].proc, facts[i].domain);
      } else {
        assert Earned(facts, |facts|, f.proc, f.domain);
      }
    }
  }

  /** Being shown to own a passed domain starts a recheck, and the provider's pass completes it. */
  lemma OwnershipRechecks(facts: seq<Fact>, p: Proc, d: Domain)
    requires Passed(facts, d)
    ensures Rechecking(facts + [OwnershipShown(p, ToUse, d)], p, d)
  {
    var f := OwnershipShown(p, ToUse, d);
    PassedEarlier(facts, f, |facts|, d);
    hide HasPassed;
    assert (facts + [f])[|facts|] == f;
  }

  lemma RecheckEarns(facts: seq<Fact>, p: Proc, d: Domain)
    requires Rechecking(facts, p, d)
    ensures Earned(facts + [ProviderPassed(p, ToUse, d)], |facts| + 1, p, d)
  {
    var f := ProviderPassed(p, ToUse, d);
    var j :| 0 <= j < |facts| && facts[j] == OwnershipShown(p, ToUse, d) && HasPassed(facts, j, d);
    PassedEarlier(facts, f, j, d);
    hide HasPassed;
    assert (facts + [f])[j] == facts[j] && (facts + [f])[|facts|] == f;
  }

  /** A verification's own two checks pass its domain. */
  lemma VerificationPasses(facts: seq<Fact>, p: Proc, d: Domain)
    requires OwnershipShown(p, ToVerify, d) in facts
    ensures Passed(facts + [ProviderPassed(p, ToVerify, d)], d)
  {
    var more := facts + [ProviderPassed(p, ToVerify, d)];
    var j :| 0 <= j < |facts| && facts[j] == OwnershipShown(p, ToVerify, d);
    assert more[j] == facts[j] && more[|facts|] == ProviderPassed(p, ToVerify, d);
  }

  /** Noting a fact, moving or stopping one call, and changing the row keep every other call's footing. */
  lemma StagesStayOk(s: State, s': State, p: Proc)
    requires forall q :: q in s.stages ==> StageOk(s, q)
    requires forall q :: q in s'.stages && q != p ==> q in s.stages && s'.stages[q] == s.stages[q]
    requires s'.facts == s.facts || exists f :: s'.facts == s.facts + [f]
    ensures forall q :: q in s'.stages && q != p ==> StageOk(s', q)
  {
    if s'.facts != s.facts {
      var f :| s'.facts == s.facts + [f];
      FactsOnlyGrow(s.facts, f);
    }
    forall q | q in s'.stages && q != p
      ensures StageOk(s', q)
    {
      assert StageOk(s, q);
    }
  }

  /** At most one fact more, and a use only if it is earned. */
  ghost predicate Extends(facts: seq<Fact>, more: seq<Fact>) {
    || more == facts
    || (exists f :: more == facts + [f] && (f.Sent? || f.ModeChosen? ==> Earned(facts, |facts|, f.proc, f.domain)))
  }

  /** One event of call p: enough that the row, the new fact and p's own next stage are in order. */
  lemma EventIsSafe(s: State, s': State, p: Proc)
    requires Safe(s)
    requires forall q :: q in s'.stages && q != p ==> q in s.stages && s'.stages[q] == s.stages[q]
    requires Extends(s.facts, s'.facts)
    requires FlagOk(s'.(facts := s.facts)) || FlagOk(s')
    requires p in s'.stages ==> StageOk(s', p)
    ensures Safe(s')
  {
    hide Earned, Passed, StageOk;
    if s'.facts != s.facts {
      var f :| s'.facts == s.facts + [f] && (f.Sent? || f.ModeChosen? ==> Earned(s.facts, |s.facts|, f.proc, f.domain));
      FactsOnlyGrow(s.facts, f);
      UsesStayOk(s.facts, f);
    }
    StagesStayOk(s, s', p);
  }

  lemma SaveIsSafe(s: State, e: Event)
    requires Safe(s) && (e.SaveStart? || e.SaveClaimCheck? || e.SaveRegister? || e.SaveWrite?)
    ensures Safe(Next(s, e))
  {
    hide Earned, Passed, Rechecking, UsesOk;
    assert e.p in s.stages ==> StageOk(s, e.p);
    EventIsSafe(s, Next(s, e), e.p);
  }

  lemma VerifyIsSafe(s: State, e: Event)
    requires Safe(s)
    requires e.VerifyStart? || e.VerifyOwnership? || e.VerifyRequest? || e.VerifyConfig? || e.VerifyWrite?
    ensures Safe(Next(s, e))
  {
    hide Earned, Passed, Rechecking, UsesOk;
    assert e.p in s.stages ==> StageOk(s, e.p);
    if Next(s, e).facts != s.facts {
      var d := s.stages[e.p].domain;
      if e.VerifyOwnership? {
        FactsOnlyGrow(s.facts, OwnershipShown(e.p, ToVerify, d));
        assert Next(s, e).facts == s.facts + [OwnershipShown(e.p, ToVerify, d)];
      } else {
        VerificationPasses(s.facts, e.p, d);
        FactsOnlyGrow(s.facts, ProviderPassed(e.p, ToVerify, d));
        assert Next(s, e).facts == s.facts + [ProviderPassed(e.p, ToVerify, d)];
      }
    }
    EventIsSafe(s, Next(s, e), e.p);
  }

  lemma SendIsSafe(s: State, e: Event)
    requires Safe(s) && (e.SendStart? || e.SendOwnership? || e.SendConfig? || e.SendPost?)
    ensures Safe(Next(s, e))
  {
    hide Earned, Passed, Rechecking, UsesOk;
    assert e.p in s.stages ==> StageOk(s, e.p);
    if Next(s, e).facts != s.facts {
      var d := s.stages[e.p].domain;
      if e.SendOwnership? {
        OwnershipRechecks(s.facts, e.p, d);
        FactsOnlyGrow(s.facts, OwnershipShown(e.p, ToUse, d));
        assert Next(s, e).facts == s.facts + [OwnershipShown(e.p, ToUse, d)];
      } else if e.SendConfig? {
        RecheckEarns(s.facts, e.p, d);
        FactsOnlyGrow(s.facts, ProviderPassed(e.p, ToUse, d));
        assert Next(s, e).facts == s.facts + [ProviderPassed(e.p, ToUse, d)];
      } else {
        FactsOnlyGrow(s.facts, Sent(e.p, d));
        assert Next(s, e).facts == s.facts + [Sent(e.p, d)];
      }
    }
    EventIsSafe(s, Next(s, e), e.p);
  }

  lemma ModeBeginIsSafe(s: State, e: Event)
    requires Safe(s) && (e.ModeStart? || e.ModeOwnership?)
    ensures Safe(Next(s, e))
  {
    hide Earned, Passed, Rechecking, UsesOk;
    assert e.p in s.stages ==> StageOk(s, e.p);
    if Next(s, e).facts != s.facts {
      var d := s.stages[e.p].domain;
      OwnershipRechecks(s.facts, e.p, d);
      FactsOnlyGrow(s.facts, OwnershipShown(e.p, ToUse, d));
      assert Next(s, e).facts == s.facts + [OwnershipShown(e.p, ToUse, d)];
    }
    EventIsSafe(s, Next(s, e), e.p);
  }

  lemma ModeEndIsSafe(s: State, e: Event)
    requires Safe(s) && (e.ModeConfig? || e.ModeWrite?)
    ensures Safe(Next(s, e))
  {
    hide Earned, Passed, Rechecking, UsesOk;
    assert e.p in s.stages ==> StageOk(s, e.p);
    if Next(s, e).facts != s.facts {
      var d := s.stages[e.p].domain;
      if e.ModeConfig? {
        RecheckEarns(s.facts, e.p, d);
        FactsOnlyGrow(s.facts, ProviderPassed(e.p, ToUse, d));
        assert Next(s, e).facts == s.facts + [ProviderPassed(e.p, ToUse, d)];
      } else {
        FactsOnlyGrow(s.facts, ModeChosen(e.p, d));
        assert Next(s, e).facts == s.facts + [ModeChosen(e.p, d)];
      }
    }
    EventIsSafe(s, Next(s, e), e.p);
  }

  lemma NextIsSafe(s: State, e: Event)
    requires Safe(s)
    ensures Safe(Next(s, e))
  {
    hide Safe, Next;
    if e.SaveStart? || e.SaveClaimCheck? || e.SaveRegister? || e.SaveWrite? {
      SaveIsSafe(s, e);
    } else if e.SendStart? || e.SendOwnership? || e.SendConfig? || e.SendPost? {
      SendIsSafe(s, e);
    } else if e.ModeStart? || e.ModeOwnership? {
      ModeBeginIsSafe(s, e);
    } else if e.ModeConfig? || e.ModeWrite? {
      ModeEndIsSafe(s, e);
    } else {
      VerifyIsSafe(s, e);
    }
  }

  /**
   Under every interleaving of saves, verifications, mode changes and sends, with any answers: the
   verified flag is up only if the stored domain itself passed the ownership and the provider check
   in an earlier verification, and every custom-domain send or mode change uses such a domain and
   rechecked it itself after that pass.
   */
  lemma {:induction false} RunIsSafe(initial: State, events: seq<Event>)
    requires Initial(initial)
    ensures Safe(Run(initial, events))
  {
    if events != [] {
      RunIsSafe(initial, events[..|events| - 1]);
      NextIsSafe(Run(initial, events[..|events| - 1]), events[|events| - 1]);
    }
  }

  /** Read off for one send: a passed verification of its domain, then both checks of that send itself. */
  lemma SendsAreEarned(initial: State, events: seq<Event>, i: nat) returns (a: nat, b: nat, j: nat, k: nat)
    requires Initial(initial) && i < |Run(initial, events).facts| && Run(initial, events).facts[i].Sent?
    ensures var facts := Run(initial, events).facts;
      && a < b < j < k < i
      && facts[a].OwnershipShown? && facts[a] == OwnershipShown(facts[a].proc, ToVerify, facts[i].domain)
      && facts[b] == ProviderPassed(facts[a].proc, ToVerify, facts[i].domain)
      && facts[j] == OwnershipShown(facts[i].proc, ToUse, facts[i].domain)
      && facts[k] == ProviderPassed(facts[i].proc, ToUse, facts[i].domain)
  {
    RunIsSafe(initial, events);
    var facts := Run(initial, events).facts;
    hide Run;
    j, k := ChecksOfUse(facts, i, facts[i].proc, facts[i].domain);
    a, b := ChecksOfPass(facts, j, facts[i].domain);
  }

  lemma ChecksOfUse(facts: seq<Fact>, i: nat, p: Proc, d: Domain) returns (j: nat, k: nat)
    requires i <= |facts| && Earned(facts, i, p, d)
    ensures j < k < i && facts[j] == OwnershipShown(p, ToUse, d) && facts[k] == ProviderPassed(p, ToUse, d)
      && HasPassed(facts, j, d)
  {
    hide HasPassed;
    j, k :| 0 <= j < k < i && facts[j] == OwnershipShown(p, ToUse, d) && facts[k] == ProviderPassed(p, ToUse, d)
      && HasPassed(facts, j, d);
  }

  lemma ChecksOfPass(facts: seq<Fact>, n: nat, d: Domain) returns (j: nat, k: nat)
    requires n <= |facts| && HasPassed(facts, n, d)
    ensures j < k < n && facts[j].OwnershipShown? && facts[j] == OwnershipShown(facts[j].proc, ToVerify, d)
      && facts[k] == ProviderPassed(facts[j].proc, ToVerify, d)
  {
    j, k :| 0 <= j < k < n && facts[j].OwnershipShown? && facts[j] == OwnershipShown(facts[j].proc, ToVerify, d)
      && facts[k] == ProviderPassed(facts[j].proc, ToVerify, d);
  }

  // ---- What the protocol does not give ----

  /** The stronger reading of the flag: the last finished verification of the stored domain succeeded. */
  predicate Fresh(s: State) {
    s.tenant.verified ==>
      s.tenant.domain.Some? && s.tenant.domain.value in s.outcomes && s.outcomes[s.tenant.domain.value]
  }

  /** A save in flight that will put the flag back up. */
  predicate Carries(stage: Stage) {
    (stage.SaveRead? || stage.SaveUnclaimed? || stage.SaveRegistered?) && stage.keep
  }

  predicate CarriersFresh(s: State) {
    forall p :: p in s.stages && Carries(s.stages[p]) ==>
      s.stages[p].domain in s.outcomes && s.outcomes[s.stages[p].domain]
  }

  /** The events of one uninterrupted stretch. */
  function Exec(s: State, events: seq<Event>): State
    decreases |events|
  {
    if events == [] then s else Exec(Next(s, events[0]), events[1..])
  }

  lemma {:induction false} ExecRuns(initial: State, before: seq<Event>, events: seq<Event>)
    ensures Exec(Run(initial, before), events) == Run(initial, before + events)
    decreases |events|
  {
    if events == [] {
      assert before + events == before;
    } else {
      var more := before + [events[0]];
      assert more[..|more| - 1] == before;
      ExecRuns(initial, more, events[1..]);
      assert more + events[1..] == before + events;
    }
  }

  // Exactly which events break it.

  /** A save puts the flag back up although the last verification of its domain did not pass. */
  predicate RaisesStaleFlag(s: State, e: Event) {
    && e.SaveWrite? && e.p in s.stages && s.stages[e.p].SaveRegistered? && s.stages[e.p].keep
    && !(s.stages[e.p].domain in s.outcomes && s.outcomes[s.stages[e.p].domain])
  }

  /** A verification lowers the flag of the stored domain while a save of it is carrying the flag. */
  predicate Undermines(s: State, e: Event) {
    && e.VerifyWrite? && e.p in s.stages && s.stages[e.p].VerifyAnswered? && !s.stages[e.p].passed
    && s.tenant.domain == Some(s.stages[e.p].domain)
    && exists q :: q in s.stages && Carries(s.stages[q]) && s.stages[q].domain == s.stages[e.p].domain
  }

  /** One event keeps the stronger reading exactly when it is not a save raising a stale flag. */
  lemma FreshnessIsKeptExactly(s: State, e: Event)
    requires Safe(s) && Fresh(s)
    ensures Fresh(Next(s, e)) <==> !RaisesStaleFlag(s, e)
  {
    hide Safe;
  }

  /** Only a verification's write changes what the outcomes say, and only a save's start adds a carrier. */
  lemma CarriersChange(s: State, e: Event, q: Proc)
    requires q in Next(s, e).stages && Carries(Next(s, e).stages[q])
    ensures (q in s.stages && Carries(s.stages[q]) && s.stages[q].domain == Next(s, e).stages[q].domain)
         || (e.SaveStart? && Keeps(s.tenant, Next(s, e).stages[q].domain))
  {
  }

  lemma OutcomesChange(s: State, e: Event)
    ensures Next(s, e).outcomes == s.outcomes
      || (e.VerifyWrite? && e.p in s.stages && s.stages[e.p].VerifyAnswered?
        && s.tenant.domain == Some(s.stages[e.p].domain)
          && Next(s, e).outcomes == s.outcomes[s.stages[e.p].domain := s.stages[e.p].passed])
  {
  }

  lemma UnderminedCarrier(s: State, e: Event)
    requires Undermines(s, e)
    ensures !CarriersFresh(Next(s, e))
  {
    var q :| q in s.stages && Carries(s.stages[q]) && s.stages[q].domain == s.stages[e.p].domain;
    var s' := Next(s, e);
    assert q in s'.stages && s'.stages[q] == s.stages[q] && !s'.outcomes[s.stages[q].domain];
  }

  /** No carried flag becomes stale exactly when the event does not undermine one. */
  lemma CarriersStayFreshExactly(s: State, e: Event)
    requires Fresh(s) && CarriersFresh(s)
    ensures CarriersFresh(Next(s, e)) <==> !Undermines(s, e)
  {
    if Undermines(s, e) {
      UnderminedCarrier(s, e);
    } else {
      OutcomesChange(s, e);
      var s' := Next(s, e);
      forall q | q in s'.stages && Carries(s'.stages[q])
        ensures s'.stages[q].domain in s'.outcomes && s'.outcomes[s'.stages[q].domain]
      {
        CarriersChange(s, e, q);
        hide Next;
      }
    }
  }

  /** The stronger reading holds at the start of a run and after each of its events. */
  predicate FreshThroughout(initial: State, events: seq<Event>) {
    forall k :: 0 <= k <= |events| ==> Fresh(Run(initial, events[..k]))
  }

  predicate NeverRaisesStaleFlag(initial: State, events: seq<Event>) {
    forall k :: 0 <= k < |events| ==> !RaisesStaleFlag(Run(initial, events[..k]), events[k])
  }

  lemma {:induction false} FreshThroughoutMore(initial: State, init: seq<Event>, last: Event)
    ensures FreshThroughout(initial, init + [last])
      <==> FreshThroughout(initial, init) && Fresh(Run(initial, init + [last]))
    ensures NeverRaisesStaleFlag(initial, init + [last])
       <==> NeverRaisesStaleFlag(initial, init) && !RaisesStaleFlag(Run(initial, init), last)
  {
    hide Fresh, Run, RaisesStaleFlag;
    var events := init + [last];
    assert events[..|events|] == events && events[..|init|] == init && events[|init|] == last;
    assert forall k :: 0 <= k <= |init| ==> init[..k] == events[..k];
    if FreshThroughout(initial, events) {
      forall k | 0 <= k <= |init|
        ensures Fresh(Run(initial, init[..k]))
      {
        assert Fresh(Run(initial, events[..k]));
      }
      assert Fresh(Run(initial, events[..|events|]));
    }
    if NeverRaisesStaleFlag(initial, events) {
      forall k | 0 <= k < |init|
        ensures !RaisesStaleFlag(Run(initial, init[..k]), init[k])
      {
        assert !RaisesStaleFlag(Run(initial, events[..k]), events[k]);
      }
      assert !RaisesStaleFlag(Run(initial, events[..|init|]), events[|init|]);
    }
  }

  /** Over a run: the stronger reading holds throughout exactly when no event raises a stale flag. */
  lemma {:induction false} FreshThroughoutExactly(initial: State, events: seq<Event>)
    requires Initial(initial)
    ensures FreshThroughout(initial, events) <==> NeverRaisesStaleFlag(initial, events)
  {
    if events == [] {
      assert Run(initial, events[..0]) == initial;
    } else {
      hide Next, Fresh, RaisesStaleFlag, Initial, Safe, FreshThroughout, NeverRaisesStaleFlag;
      var init, last := events[..|events| - 1], events[|events| - 1];
      assert events == init + [last];
      FreshThroughoutExactly(initial, init);
      FreshThroughoutMore(initial, init, last);
      RunIsSafe(initial, init);
      if FreshThroughout(initial, init) {
        LastOfFresh(initial, init);
        FreshnessIsKeptExactly(Run(initial, init), last);
      }
    }
  }

  lemma {:induction false} LastOfFresh(initial: State, events: seq<Event>)
    requires FreshThroughout(initial, events)
    ensures Fresh(Run(initial, events))
  {
    hide Fresh, Run;
    assert events[..|events|] == events;
  }

  /** A run in which no verification undermines a save in flight keeps the stronger reading. */
  lemma {:induction false} FreshUnlessUndermined(initial: State, events: seq<Event>)
    requires Initial(initial)
    requires forall k :: 0 <= k < |events| ==> !Undermines(Run(initial, events[..k]), events[k])
    ensures Fresh(Run(initial, events)) && CarriersFresh(Run(initial, events))
  {
    if events != [] {
      hide Next, Fresh, Undermines, Initial, Safe, CarriersFresh;
      var init, last := events[..|events| - 1], events[|events| - 1];
      assert forall k :: 0 <= k < |init| ==> init[..k] == events[..k] && init[k] == events[k];
      FreshUnlessUndermined(initial, init);
      RunIsSafe(initial, init);
      CarriersStayFreshExactly(Run(initial, init), last);
      CarriersAreNotStale(Run(initial, init), last);
      FreshnessIsKeptExactly(Run(initial, init), last);
    }
  }

  lemma CarriersAreNotStale(s: State, e: Event)
    requires CarriersFresh(s)
    ensures !RaisesStaleFlag(s, e)
  {
    if e.SaveWrite? && e.p in s.stages && s.stages[e.p].SaveRegistered? && s.stages[e.p].keep {
      assert Carries(s.stages[e.p]);
    }
  }

  /** The remaining answers and the write of a save that nothing stops. */
  function FinishSave(p: Proc): seq<Event> {
    [SaveClaimCheck(p, false), SaveRegister(p, true), SaveWrite(p)]
  }

  /** Once a carried flag is stale, letting its save finish raises it. */
  lemma {:induction false} StaleCarrierRaisesFlag(s: State, p: Proc)
    requires p in s.stages && Carries(s.stages[p])
    requires !(s.stages[p].domain in s.outcomes && s.outcomes[s.stages[p].domain])
    ensures !Fresh(Exec(s, FinishSave(p)))
  {
    Unroll(s, FinishSave(p));
    var d := s.stages[p].domain;
    var s1 := Next(s, SaveClaimCheck(p, false));
    var s2 := Next(s1, SaveRegister(p, true));
    assert s2.stages[p] == SaveRegistered(d, true) && s2.outcomes == s.outcomes;
    LateSaveEffect(s2, p, d, true);
    hide Next;
    assert Exec(s, FinishSave(p)) == Next(s2, SaveWrite(p));
  }

  // The failing case.

  /** A verification of the stored domain that answers `passed`, run to its end by call p. */
  function Verification(p: Proc, passed: bool): seq<Event> {
    [VerifyStart(p), VerifyOwnership(p, true), VerifyRequest(p, true), VerifyConfig(p, true, passed, true),
      VerifyWrite(p)]
  }

  function EarlySave(p: Proc, d: Domain): seq<Event> {
    [SaveStart(p, Some(d), false), SaveClaimCheck(p, false), SaveRegister(p, true)]
  }

  lemma {:induction false} VerificationEffect(s: State, p: Proc, passed: bool)
    requires p !in s.used && p !in s.stages && s.tenant.domain.Some?
    ensures var s' := Exec(s, Verification(p, passed));
      s'.tenant == s.tenant.(verified := passed) && s'.stages == s.stages && s'.used == s.used + {p} &&
      s'.outcomes == s.outcomes[s.tenant.domain.value := passed]
  {
    Unroll(s, Verification(p, passed));
    var d := s.tenant.domain.value;
    var s1 := Next(s, VerifyStart(p));
    assert s1.stages[p] == VerifyRead(d);
    var s2 := Next(s1, VerifyOwnership(p, true));
    assert s2.stages[p] == VerifyOwned(d);
    var s3 := Next(s2, VerifyRequest(p, true));
    assert s3.stages[p] == VerifyRequested(d);
    var s4 := Next(s3, VerifyConfig(p, true, passed, true));
    AnswerEffect(s3, p, d, passed);
    WriteEffect(s4, p, d, passed);
    hide Next;
    assert Exec(s, Verification(p, passed)) == Next(s4, VerifyWrite(p));
  }

  lemma AnswerEffect(s: State, p: Proc, d: Domain, passed: bool)
    requires p in s.stages && s.stages[p] == VerifyRequested(d)
    ensures var s' := Next(s, VerifyConfig(p, true, passed, true));
      s'.stages == s.stages[p := VerifyAnswered(d, passed)] && s'.tenant == s.tenant && s'.outcomes == s.outcomes
        && s'.used == s.used
  {
  }

  lemma WriteEffect(s: State, p: Proc, d: Domain, passed: bool)
    requires p in s.stages && s.stages[p] == VerifyAnswered(d, passed) && s.tenant.domain == Some(d)
    ensures var s' := Next(s, VerifyWrite(p));
      s'.stages == s.stages - {p} && s'.tenant == s.tenant.(verified := passed) && s'.used == s.used
      && s'.outcomes == s.outcomes[d := passed]
  {
  }

  lemma {:induction false} EarlySaveEffect(s: State, p: Proc, d: Domain)
    requires p !in s.used
    ensures var s' := Exec(s, EarlySave(p, d));
      s'.tenant == s.tenant && s'.outcomes == s.outcomes && s'.used == s.used + {p}
      && s'.stages == s.stages[p := SaveRegistered(d, Keeps(s.tenant, d))]
  {
    Unroll(s, EarlySave(p, d));
  }

  lemma LateSaveEffect(s: State, p: Proc, d: Domain, keep: bool)
    requires p in s.stages && s.stages[p] == SaveRegistered(d, keep)
    ensures Next(s, SaveWrite(p)).tenant == Saved(s.tenant, d, keep)
    ensures Next(s, SaveWrite(p)).outcomes == s.outcomes
  {
  }

  /** A verification passes, a save of the domain begins, a second verification fails. */
  function UnderminedSave(d: Domain): seq<Event> {
    Verification(0, true) + EarlySave(1, d) + Verification(2, false)
  }

  lemma {:induction false} UnderminedSaveEffect(initial: State, d: Domain)
    requires Initial(initial) && initial.tenant.domain == Some(d)
    ensures var s := Run(initial, UnderminedSave(d));
      s.tenant == initial.tenant && s.outcomes == map[d := false] && s.stages == map[1 := SaveRegistered(d, true)]
  {
    hide Next, Exec, Verification, EarlySave, UnderminedSave, Run;
    UnderminedSaveRuns(initial, d);
    var s1 := Exec(initial, Verification(0, true));
    VerificationEffect(initial, 0, true);
    assert s1.tenant == initial.tenant.(verified := true) && s1.stages == map[] && s1.used == {0};
    var s2 := Exec(s1, EarlySave(1, d));
    EarlySaveEffect(s1, 1, d);
    assert s2.tenant == s1.tenant && s2.stages == map[1 := SaveRegistered(d, true)] && s2.used == {0, 1};
    VerificationEffect(s2, 2, false);
  }

  lemma {:induction false} UnderminedSaveRuns(initial: State, d: Domain)
    ensures Run(initial, UnderminedSave(d))
      == Exec(Exec(Exec(initial, Verification(0, true)), EarlySave(1, d)), Verification(2, false))
  {
    hide Next, Exec, Verification, EarlySave;
    ExecRuns(initial, [], Verification(0, true));
    assert [] + Verification(0, true) == Verification(0, true);
    ExecRuns(initial, Verification(0, true), EarlySave(1, d));
    ExecRuns(initial, Verification(0, true) + EarlySave(1, d), Verification(2, false));
  }

  /**
   Saving the verified domain again while a verification of it fails: the save read the flag before
   the failure and writes it back afterwards.
   */
  lemma {:induction false} SaveRestoresALoweredFlag(initial: State, d: Domain)
    requires Initial(initial) && initial.tenant.domain == Some(d)
    ensures var s := Run(initial, UnderminedSave(d) + [SaveWrite(1)]);
      s.tenant.domain == Some(d) && s.tenant.verified && s.outcomes == map[d := false] && !Fresh(s)
  {
    UnderminedSaveEffect(initial, d);
    hide Next, UnderminedSave;
    var before := UnderminedSave(d);
    assert (before + [SaveWrite(1)])[..|before|] == before;
    assert Run(initial, before + [SaveWrite(1)]) == Next(Run(initial, before), SaveWrite(1));
    LateSaveEffect(Run(initial, before), 1, d, true);
  }

  // ---- Where a use of the domain begins ----

  /** Call p is sending from the domain, or has sent from it. */
  predicate Sending(s: State, p: Proc, d: Domain) {
    || (p in s.stages && s.stages[p] in {SendRead(d), SendOwned(d), SendChecked(d)})
    || Sent(p, d) in s.facts
  }

  /** Call p is choosing the custom mode on the strength of the domain, or has chosen it. */
  predicate Choosing(s: State, p: Proc, d: Domain) {
    || (p in s.stages && s.stages[p] in {ModeRead(d), ModeOwned(d), ModeChecked(d)})
    || ModeChosen(p, d) in s.facts
  }

  lemma SendingBegins(s: State, e: Event, p: Proc, d: Domain)
    requires Sending(Next(s, e), p, d)
    ensures Sending(s, p, d) || (e == SendStart(p) && s.tenant == Tenant(CustomDomain, Some(d), true))
  {
  }

  lemma ChoosingBegins(s: State, e: Event, p: Proc, d: Domain)
    requires Choosing(Next(s, e), p, d)
    ensures Choosing(s, p, d)
      || (e.ModeStart? && e.p == p && e.mode == CustomDomain && s.tenant.domain == Some(d) && s.tenant.verified)
  {
  }

  /** Some event began this send while the row asked for the custom domain, had this one, and its flag was up. */
  predicate SendBegan(initial: State, events: seq<Event>, p: Proc, d: Domain) {
    exists k :: 0 <= k < |events| && events[k] == SendStart(p)
      && Run(initial, events[..k]).tenant == Tenant(CustomDomain, Some(d), true)
  }

  /** Some event asked for the custom mode while the row had this domain and its flag was up. */
  predicate ChoiceBegan(initial: State, events: seq<Event>, p: Proc, d: Domain) {
    exists k :: 0 <= k < |events| && events[k].ModeStart? && events[k].p == p && events[k].mode == CustomDomain
      && Run(initial, events[..k]).tenant.domain == Some(d) && Run(initial, events[..k]).tenant.verified
  }

  lemma {:induction false} SendsBegin(initial: State, events: seq<Event>, p: Proc, d: Domain)
    requires Initial(initial) && Sending(Run(initial, events), p, d)
    ensures SendBegan(initial, events, p, d)
  {
    if events != [] {
      var k := |events| - 1;
      var init, last := events[..k], events[k];
      SendingBegins(Run(initial, init), last, p, d);
      hide Next, Sending, Initial;
      if Sending(Run(initial, init), p, d) {
        SendsBegin(initial, init, p, d);
        var j :| 0 <= j < |init| && init[j] == SendStart(p)
          && Run(initial, init[..j]).tenant == Tenant(CustomDomain, Some(d), true);
        assert init[..j] == events[..j] && events[j] == SendStart(p);
      } else {
        assert events[k] == SendStart(p) && Run(initial, events[..k]).tenant == Tenant(CustomDomain, Some(d), true);
      }
    }
  }

  lemma {:induction false} ChoicesBegin(initial: State, events: seq<Event>, p: Proc, d: Domain)
    requires Initial(initial) && Choosing(Run(initial, events), p, d)
    ensures ChoiceBegan(initial, events, p, d)
  {
    if events != [] {
      var k := |events| - 1;
      var init, last := events[..k], events[k];
      ChoosingBegins(Run(initial, init), last, p, d);
      hide Next, Choosing, Initial;
      if Choosing(Run(initial, init), p, d) {
        ChoicesBegin(initial, init, p, d);
        var j :| 0 <= j < |init| && init[j].ModeStart? && init[j].p == p && init[j].mode == CustomDomain
          && Run(initial, init[..j]).tenant.domain == Some(d) && Run(initial, init[..j]).tenant.verified;
        assert init[..j] == events[..j] && events[j] == init[j];
      } else {
        assert events[k].ModeStart? && events[k].p == p && events[k].mode == CustomDomain;
        assert Run(initial, events[..k]).tenant.domain == Some(d) && Run(initial, events[..k]).tenant.verified;
      }
    }
  }

  /** Every use of the domain began with a row that asked for it, had it, and had its flag up. */
  lemma {:induction false} UsesBegin(initial: State, events: seq<Event>, p: Proc, d: Domain)
    requires Initial(initial)
    ensures Sent(p, d) in Run(initial, events).facts ==> SendBegan(initial, events, p, d)
    ensures ModeChosen(p, d) in Run(initial, events).facts ==> ChoiceBegan(initial, events, p, d)
  {
    hide SendBegan, ChoiceBegan, Run;
    if Sent(p, d) in Run(initial, events).facts {
      SendsBegin(initial, events, p, d);
    }
    if ModeChosen(p, d) in Run(initial, events).facts {
      ChoicesBegin(initial, events, p, d);
    }
  }

  /** The custom mode is on only if it was to begin with, or some call chose it. */
  lemma {:induction false} CustomModeWasChosen(initial: State, events: seq<Event>)
    ensures Run(initial, events).tenant.mode == CustomDomain ==>
      initial.tenant.mode == CustomDomain || exists f :: f in Run(initial, events).facts && f.ModeChosen?
  {
    if events != [] {
      var init, last := events[..|events| - 1], events[|events| - 1];
      CustomModeWasChosen(initial, init);
      ModeStep(Run(initial, init), last);
      hide Next;
    }
  }

  lemma ModeStep(s: State, e: Event)
    ensures Next(s, e).tenant.mode == CustomDomain && s.tenant.mode != CustomDomain ==>
      exists f :: f in Next(s, e).facts && f.ModeChosen?
    ensures forall f :: f in s.facts ==> f in Next(s, e).facts
  {
    if e.ModeWrite? && e.p in s.stages && s.stages[e.p].ModeChecked? {
      assert ModeChosen(e.p, s.stages[e.p].domain) in Next(s, e).facts;
    }
  }

  // ---- Whole calls, uninterrupted ----

  /** The service's calls on the tenant row, each running all its steps without interference. */
  class SystemMail {
    var tenant: Tenant

    constructor (tenant: Tenant)
      ensures this.tenant == tenant
    {
      this.tenant := tenant;
    }

    method SaveDomain(domain: Option<Domain>, platform: bool, claimed: bool, accepted: bool, ghost s: State,
        ghost p: Proc)
      returns (ok: bool)
      requires s.tenant == tenant && p !in s.used && p !in s.stages
      modifies this
      ensures ok <==> domain.Some? && !platform && !claimed && accepted
      ensures ok ==> tenant == Tenant(old(tenant).mode, domain, old(tenant).domain == domain && old(tenant).verified)
      ensures !ok ==> tenant == old(tenant)
      ensures tenant == Exec(s,
        [SaveStart(p, domain, platform), SaveClaimCheck(p, claimed), SaveRegister(p, accepted), SaveWrite(p)]).tenant
    {
      ghost var events := [SaveStart(p, domain, platform), SaveClaimCheck(p, claimed), SaveRegister(p, accepted),
        SaveWrite(p)];
      Unroll(s, events);
      var was := tenant;
      if domain.None? || platform || claimed || !accepted {
        return false;
      }
      tenant := was.(domain := domain, verified := was.domain == domain && was.verified);
      return true;
    }

    /** Returns whether the domain is now verified, or nothing when the call failed. */
    method VerifyDomain(owned: bool, accepted: bool, available: bool, verified: bool, authenticated: bool,
        ghost s: State, ghost p: Proc)
      returns (result: Option<bool>)
      requires s.tenant == tenant && p !in s.used && p !in s.stages
      modifies this
      ensures result.Some? <==> tenant.domain.Some? && owned && accepted && available
      ensures result.Some? ==>
        && result == Some(verified && authenticated)
        && tenant == Tenant(old(tenant).mode, old(tenant).domain, verified && authenticated)
      ensures result.None? ==> tenant == old(tenant)
      ensures tenant == Exec(s, [VerifyStart(p), VerifyOwnership(p, owned), VerifyRequest(p, accepted),
                                 VerifyConfig(p, available, verified, authenticated), VerifyWrite(p)]).tenant
    {
      ghost var events := [VerifyStart(p), VerifyOwnership(p, owned), VerifyRequest(p, accepted),
                           VerifyConfig(p, available, verified, authenticated), VerifyWrite(p)];
      Unroll(s, events);
      if tenant.domain.None? || !owned || !accepted || !available {
        return None;
      }
      tenant := tenant.(verified := verified && authenticated);
      return Some(verified && authenticated);
    }

    /** `requireDomain`: the ownership record, then the provider's two answers. */
    method RequireDomain(owned: bool, available: bool, verified: bool, authenticated: bool) returns (ok: bool)
      ensures ok <==> owned && available && verified && authenticated
    {
      if !owned {
        return false;
      }
      if !available {
        return false;
      }
      return verified && authenticated;
    }

    /** Whom a mail goes out from, or nothing when it is refused. */
    method Send(accountReady: bool, owned: bool, available: bool, verified: bool, authenticated: bool,
        ghost s: State, ghost p: Proc)
      returns (sender: Option<Sender>)
      requires s.tenant == tenant && p !in s.used && p !in s.stages
      ensures tenant.mode == DefaultSubdomain ==> sender == Some(Platform)
      ensures tenant.mode == DirectAccount ==> sender == if accountReady then Some(Account) else None
      ensures tenant.mode == CustomDomain && sender.Some? ==>
        tenant.domain.Some? && sender == Some(Custom(tenant.domain.value))
      ensures tenant.mode == CustomDomain ==>
        (sender.Some? <==> tenant.domain.Some? && tenant.verified && owned && available && verified && authenticated)
      ensures var after := Exec(s, SendCall(p, owned, available, verified, authenticated));
        && after.tenant == tenant && after.stages == s.stages
        && (forall d :: sender == Some(Custom(d)) ==>
              after.facts == s.facts + [OwnershipShown(p, ToUse, d), ProviderPassed(p, ToUse, d), Sent(p, d)])
        && ((sender.None? || !sender.value.Custom?) ==> forall f :: f in after.facts && f.Sent? ==> f in s.facts)
    {
      if tenant.mode == CustomDomain && tenant.domain.Some? && tenant.verified
        && owned && available && verified && authenticated {
        SendGoesOut(s, p, tenant.domain.value);
      } else {
        SendStops(s, p, owned, available, verified, authenticated);
      }
      hide Exec, SendCall;
      if tenant.mode == DirectAccount {
        return if accountReady then Some(Account) else None;
      }
      if tenant.mode == CustomDomain {
        if tenant.domain.None? || !tenant.verified {
          return None;
        }
        var ok := RequireDomain(owned, available, verified, authenticated);
        return if ok then Some(Custom(tenant.domain.value)) else None;
      }
      return Some(Platform);
    }

    /** `setMode`: the two other modes at once, the custom one only after the checks. */
    method SetMode(mode: Mode, accountReady: bool, owned: bool, available: bool, verified: bool, authenticated: bool,
        ghost s: State, ghost p: Proc)
      returns (ok: bool)
      requires s.tenant == tenant && p !in s.used && p !in s.stages
      modifies this
      ensures mode == DefaultSubdomain ==> ok
      ensures mode == DirectAccount ==> (ok <==> accountReady)
      ensures mode == CustomDomain ==> (ok <==>
        old(tenant).domain.Some? && old(tenant).verified && owned && available && verified && authenticated)
      ensures tenant == if ok then Tenant(mode, old(tenant).domain, old(tenant).verified) else old(tenant)
      ensures tenant == Exec(s, ModeCall(p, mode, accountReady, owned, available, verified, authenticated)).tenant
    {
      ModeCallEffect(s, p, mode, accountReady, owned, available, verified, authenticated);
      hide Exec, ModeCall;
      if mode == DirectAccount && !accountReady {
        return false;
      }
      if mode == CustomDomain {
        if tenant.domain.None? || !tenant.verified {
          return false;
        }
        ok := RequireDomain(owned, available, verified, authenticated);
        if !ok {
          return;
        }
      }
      tenant := tenant.(mode := mode);
      return true;
    }
  }

  datatype Sender = Account | Platform | Custom(domain: Domain)

  function SendCall(p: Proc, owned: bool, available: bool, verified: bool, authenticated: bool): seq<Event> {
    [SendStart(p), SendOwnership(p, owned), SendConfig(p, available, verified, authenticated), SendPost(p)]
  }

  function ModeCall(p: Proc, mode: Mode, accountReady: bool, owned: bool, available: bool, verified: bool,
      authenticated: bool): seq<Event> {
    [ModeStart(p, mode, accountReady), ModeOwnership(p, owned), ModeConfig(p, available, verified, authenticated),
      ModeWrite(p)]
  }

  lemma SendSteps(s: State, p: Proc, d: Domain)
    requires p in s.stages
    ensures s.stages[p] == SendRead(d) ==>
      Next(s, SendOwnership(p, true)) == Note(Go(s, p, SendOwned(d)), OwnershipShown(p, ToUse, d))
    ensures s.stages[p] == SendOwned(d) ==>
      Next(s, SendConfig(p, true, true, true)) == Note(Go(s, p, SendChecked(d)), ProviderPassed(p, ToUse, d))
    ensures s.stages[p] == SendChecked(d) ==> Next(s, SendPost(p)) == Note(Stop(s, p), Sent(p, d))
  {
  }

  lemma SendBegins(s: State, p: Proc, d: Domain)
    requires p !in s.used && s.tenant == Tenant(CustomDomain, Some(d), true)
    ensures Next(s, SendStart(p)) == Start(s, p, SendRead(d))
  {
  }

  /** A send from a row that asks for the domain, whose checks all pass, goes out from it. */
  lemma {:induction false} SendGoesOut(s: State, p: Proc, d: Domain)
    requires p !in s.used && p !in s.stages && s.tenant == Tenant(CustomDomain, Some(d), true)
    ensures var after := Exec(s, SendCall(p, true, true, true, true));
      && after.tenant == s.tenant && after.stages == s.stages
      && after.facts == s.facts + [OwnershipShown(p, ToUse, d), ProviderPassed(p, ToUse, d), Sent(p, d)]
  {
    hide Next;
    Unroll(s, SendCall(p, true, true, true, true));
    hide Exec;
    SendBegins(s, p, d);
    var s1 := Start(s, p, SendRead(d));
    SendSteps(s1, p, d);
    var s2 := Note(Go(s1, p, SendOwned(d)), OwnershipShown(p, ToUse, d));
    SendSteps(s2, p, d);
    var s3 := Note(Go(s2, p, SendChecked(d)), ProviderPassed(p, ToUse, d));
    SendSteps(s3, p, d);
    assert s3.stages - {p} == s.stages;
  }

  /** Any other send does not go out from a domain. */
  lemma {:induction false} SendStops(s: State, p: Proc, owned: bool, available: bool, verified: bool,
      authenticated: bool)
    requires p !in s.used && p !in s.stages
    requires s.tenant.mode != CustomDomain || s.tenant.domain.None? || !s.tenant.verified
      || !(owned && available && verified && authenticated)
    ensures var after := Exec(s, SendCall(p, owned, available, verified, authenticated));
      after.tenant == s.tenant && after.stages == s.stages && forall f :: f in after.facts && f.Sent? ==> f in s.facts
  {
    Unroll(s, SendCall(p, owned, available, verified, authenticated));
    var s1 := Next(s, SendStart(p));
    if s1 != s {
      var d := s.tenant.domain.value;
      assert s1.stages == s.stages[p := SendRead(d)] && s1.facts == s.facts && s1.tenant == s.tenant;
      var s2 := Next(s1, SendOwnership(p, owned));
      assert owned ==> s2.stages == s.stages[p := SendOwned(d)];
      assert s.stages[p := SendRead(d)] - {p} == s.stages && s.stages[p := SendOwned(d)] - {p} == s.stages;
    }
  }

  lemma {:induction false} ModeCallEffect(s: State, p: Proc, mode: Mode, accountReady: bool, owned: bool,
      available: bool, verified: bool, authenticated: bool)
    requires p !in s.used && p !in s.stages
    ensures var after := Exec(s, ModeCall(p, mode, accountReady, owned, available, verified, authenticated)).tenant;
      var checked := s.tenant.domain.Some? && s.tenant.verified && owned && available && verified && authenticated;
      var allowed := match mode
        case DefaultSubdomain => true
        case DirectAccount => accountReady
        case CustomDomain => checked;
      after == if allowed then s.tenant.(mode := mode) else s.tenant
  {
    Unroll(s, ModeCall(p, mode, accountReady, owned, available, verified, authenticated));
    var s1 := Next(s, ModeStart(p, mode, accountReady));
    var s2 := Next(s1, ModeOwnership(p, owned));
    var s3 := Next(s2, ModeConfig(p, available, verified, authenticated));
    hide Exec;
    if mode != CustomDomain || s.tenant.domain.None? || !s.tenant.verified {
      assert p !in s1.stages && s2 == s1 && s3 == s1;
    } else {
      assert s1.stages[p] == ModeRead(s.tenant.domain.value) && s1.tenant == s.tenant;
      assert s2.tenant == s.tenant && (owned <==> p in s2.stages);
      assert s3.tenant == s.tenant;
    }
  }

  /** A short stretch, one event at a time. */
  lemma {:induction false} Unroll(s: State, events: seq<Event>)
    requires 3 <= |events| <= 5
    ensures var three := Next(Next(Next(s, events[0]), events[1]), events[2]);
      Exec(s, events) == if |events| == 3 then three
                         else if |events| == 4 then Next(three, events[3])
                         else Next(Next(three, events[3]), events[4])
  {
    hide Next;
    assert events[1..][1..] == events[2..] && events[2..][1..] == events[3..];
    var three := Next(Next(Next(s, events[0]), events[1]), events[2]);
    assert Exec(s, events) == Exec(Next(s, events[0]), events[1..]) == Exec(three, events[3..]);
    if |events| >= 4 {
      var four := Next(three, events[3]);
      assert events[3..][1..] == events[4..];
      assert Exec(three, events[3..]) == Exec(four, events[4..]);
      if |events| == 5 {
        assert Exec(four, events[4..]) == Exec(Next(four, events[4]), events[4..][1..]);
      }
    }
  }
}
