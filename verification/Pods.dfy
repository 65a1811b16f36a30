/**
 Recruitment pods: membership, leadership and the Pod Lead roles that go with it.

 The rows are those of one tenant. Each call of the service is one transaction; a throw anywhere
 inside it restores the rows it started from. `CreateRows`, `UpdateRows` and `RemoveRows` say what
 a successful call leaves behind, `PodsService` carries the calls out step by step. `Steps` lets an update
 read, and a creation check, before other calls write.
 */
module Pods {
  import opened Prelude

  type UserId = nat
  type PodId = nat
  type RoleId = nat
  type UnitId = nat
  type BranchId = nat

  /** A role: `lead` says its system key is POD_LEAD, `recruiter` that its key or name is eligible. */
  datatype Role = Role(id: RoleId, lead: bool, recruiter: bool, isSystem: bool, unit: Option<UnitId>,
    branch: Option<BranchId>)

  datatype User = User(
    podId: Option<PodId>, roleId: Option<RoleId>, assignedRoles: seq<RoleId>,
    active: bool, approved: bool, unit: Option<UnitId>)

  datatype Pod = Pod(name: string, unit: Option<UnitId>, branch: Option<BranchId>, head: Option<UserId>, jobs: nat)

  /** Tables the service only reads: roles in the order the database returns them, units with their branch. */
  datatype Config = Config(roles: seq<Role>, units: map<UnitId, Option<BranchId>>)

  datatype Rows = Rows(users: map<UserId, User>, pods: map<PodId, Pod>)

  datatype Error =
    | NoUnit | UnitNotFound | NoBranch | NameTaken | UserNotFound | Inactive | OtherUnit | NotRecruiter
    | InAnotherPod | LeadsAnotherPod | ManyLeadRoles | NoLeadRole | PodNotFound | HasJobs

  /** A tenant with one unit, the system's Pod Lead role and a recruiter role. */
  const LEAD_ROLE := 0
  const RECRUITER_ROLE := 1
  const TABLES := Config(
    [Role(LEAD_ROLE, true, false, true, None, None), Role(RECRUITER_ROLE, false, true, true, None, None)],
    map[5 := Some(3)])

  // ---- Role lists ----

  predicate IsLead(c: Config, id: RoleId) {
    exists i :: 0 <= i < |c.roles| && c.roles[i].id == id && c.roles[i].lead
  }

  predicate IsRecruiterRole(c: Config, id: RoleId) {
    exists i :: 0 <= i < |c.roles| && c.roles[i].id == id && c.roles[i].recruiter
  }

  /** `Array.from(new Set(ids))`: first occurrences, in order. */
  function Dedupe(ids: seq<RoleId>): seq<RoleId> {
    if ids == [] then []
    else
      var d, last := Dedupe(ids[..|ids| - 1]), ids[|ids| - 1];
      if last in d then d else d + [last]
  }

  function NonLead(c: Config, ids: seq<RoleId>): seq<RoleId> {
    if ids == [] then []
    else
      var last := ids[|ids| - 1];
      NonLead(c, ids[..|ids| - 1]) + (if IsLead(c, last) then [] else [last])
  }

  function Listed(role: Option<RoleId>): seq<RoleId> {
    match role case Some(id) => [id] case None => []
  }

  /** The user update of `promoteToPodHead`. */
  function Promote(c: Config, u: User, lead: RoleId): User {
    u.(roleId := Some(lead), assignedRoles := Dedupe(NonLead(c, Listed(u.roleId) + u.assignedRoles) + [lead]))
  }

  /** The user update of `demoteFromPodHead`. */
  function Demote(c: Config, u: User): User {
    var kept := Dedupe(NonLead(c, u.assignedRoles + Listed(u.roleId)));
    u.(roleId := if u.roleId.Some? && !IsLead(c, u.roleId.value) then u.roleId
                 else if kept != [] then Some(kept[0]) else None,
       assignedRoles := kept)
  }

  /** Every role a user holds, as primary or assigned role. */
  function Held(u: User): set<RoleId> {
    (set x | x in u.assignedRoles) + (set x | x in Listed(u.roleId))
  }

  function LeadHeld(c: Config, u: User): set<RoleId> {
    set x | x in Held(u) && IsLead(c, x)
  }

  function OtherHeld(c: Config, u: User): set<RoleId> {
    Held(u) - LeadHeld(c, u)
  }

  // ---- Promotion and demotion ----

  predicate NoRepeats(ids: seq<RoleId>) {
    forall i, j :: 0 <= i < j < |ids| ==> ids[i] != ids[j]
  }

  lemma {:induction false} DedupeMembers(ids: seq<RoleId>)
    ensures forall x :: x in Dedupe(ids) <==> x in ids
  {
    if ids != [] {
      DedupeMembers(ids[..|ids| - 1]);
      assert ids == ids[..|ids| - 1] + [ids[|ids| - 1]];
    }
  }

  lemma {:induction false} NonLeadMembers(c: Config, ids: seq<RoleId>)
    ensures forall x :: x in NonLead(c, ids) <==> x in ids && !IsLead(c, x)
  {
    hide IsLead;
    if ids != [] {
      NonLeadMembers(c, ids[..|ids| - 1]);
      assert ids == ids[..|ids| - 1] + [ids[|ids| - 1]];
    }
  }

  lemma {:induction false} DedupeHasNoRepeats(ids: seq<RoleId>)
    ensures NoRepeats(Dedupe(ids))
  {
    if ids != [] {
      DedupeHasNoRepeats(ids[..|ids| - 1]);
    }
  }

  lemma {:induction false} DedupeOfDistinct(ids: seq<RoleId>)
    requires NoRepeats(ids)
    ensures Dedupe(ids) == ids
  {
    if ids != [] {
      var init, last := ids[..|ids| - 1], ids[|ids| - 1];
      DedupeOfDistinct(init);
      assert ids == init + [last];
    }
  }

  /** Listing the first element once more in front changes nothing. */
  lemma {:induction false} DedupeOfHeaded(ids: seq<RoleId>)
    requires ids != [] && NoRepeats(ids)
    ensures Dedupe([ids[0]] + ids) == ids
  {
    var all := [ids[0]] + ids;
    if |ids| == 1 {
      assert all[..1] == [ids[0]];
      DedupeOfDistinct([ids[0]]);
    } else {
      var init, last := ids[..|ids| - 1], ids[|ids| - 1];
      assert all[..|all| - 1] == [init[0]] + init;
      DedupeOfHeaded(init);
      assert ids == init + [last];
    }
  }

  lemma {:induction false} DedupeOfMore(ids: seq<RoleId>, x: RoleId)
    requires x !in ids
    ensures Dedupe(ids + [x]) == Dedupe(ids) + [x]
  {
    DedupeMembers(ids);
    assert (ids + [x])[..|ids|] == ids;
  }

  lemma {:induction false} DedupeStarts(ids: seq<RoleId>)
    requires ids != []
    ensures Dedupe(ids) != [] && Dedupe(ids)[0] == ids[0]
  {
    if |ids| == 1 {
      DedupeOfDistinct(ids);
    } else {
      DedupeStarts(ids[..|ids| - 1]);
    }
  }

  lemma {:induction false} NonLeadMore(c: Config, ids: seq<RoleId>, x: RoleId)
    ensures NonLead(c, ids + [x]) == NonLead(c, ids) + if IsLead(c, x) then [] else [x]
  {
    hide IsLead;
    assert (ids + [x])[..|ids|] == ids;
  }

  lemma {:induction false} NonLeadConcat(c: Config, a: seq<RoleId>, b: seq<RoleId>)
    ensures NonLead(c, a + b) == NonLead(c, a) + NonLead(c, b)
  {
    hide IsLead, NonLead;
    if b == [] {
      assert a + b == a;
      NonLeadOfNone(c);
    } else {
      var init, last := b[..|b| - 1], b[|b| - 1];
      NonLeadConcat(c, a, init);
      NonLeadMore(c, a + init, last);
      NonLeadMore(c, init, last);
      assert b == init + [last] && a + b == a + init + [last];
    }
  }

  lemma {:induction false} NonLeadOfNone(c: Config)
    ensures NonLead(c, []) == []
  {
  }

  lemma {:induction false} NonLeadOfNonLead(c: Config, ids: seq<RoleId>)
    requires forall x :: x in ids ==> !IsLead(c, x)
    ensures NonLead(c, ids) == ids
  {
    hide IsLead, NonLead;
    if ids == [] {
      NonLeadOfNone(c);
    } else {
      var init, last := ids[..|ids| - 1], ids[|ids| - 1];
      NonLeadOfNonLead(c, init);
      NonLeadMore(c, init, last);
      assert ids == init + [last];
    }
  }

  lemma {:induction false} NonLeadOfLead(c: Config, id: RoleId)
    requires IsLead(c, id)
    ensures NonLead(c, [id]) == []
  {
    assert [id][..0] == [];
  }

  /** The user's non-lead roles in promotion order, primary first. */
  function Kept(c: Config, u: User): seq<RoleId> {
    Dedupe(NonLead(c, Listed(u.roleId) + u.assignedRoles))
  }

  lemma KeptMembers(c: Config, u: User)
    ensures forall x :: x in Kept(c, u) <==> x in OtherHeld(c, u)
    ensures forall x :: x in Kept(c, u) ==> !IsLead(c, x)
  {
    hide IsLead;
    NonLeadMembers(c, Listed(u.roleId) + u.assignedRoles);
    DedupeMembers(NonLead(c, Listed(u.roleId) + u.assignedRoles));
  }

  lemma PromotedShape(c: Config, u: User, lead: RoleId)
    requires IsLead(c, lead)
    ensures Promote(c, u, lead) == u.(roleId := Some(lead), assignedRoles := Kept(c, u) + [lead])
  {
    NonLeadMembers(c, Listed(u.roleId) + u.assignedRoles);
    DedupeOfMore(NonLead(c, Listed(u.roleId) + u.assignedRoles), lead);
  }

  /** Promotion followed by demotion leaves the non-lead roles, primary first. */
  lemma CycleShape(c: Config, u: User, lead: RoleId)
    requires IsLead(c, lead)
    ensures var kept := Kept(c, u);
      Demote(c, Promote(c, u, lead)) == u.(roleId := if kept == [] then None else Some(kept[0]), assignedRoles := kept)
  {
    var kept := Kept(c, u);
    PromotedShape(c, u, lead);
    NonLeadConcat(c, kept + [lead], [lead]);
    NonLeadConcat(c, kept, [lead]);
    NonLeadOfLead(c, lead);
    KeptMembers(c, u);
    NonLeadOfNonLead(c, kept);
    DedupeHasNoRepeats(NonLead(c, Listed(u.roleId) + u.assignedRoles));
    DedupeOfDistinct(kept);
    assert NonLead(c, kept + [lead] + [lead]) == kept;
  }

  /**
   Promote then demote gives back the exact primary role when, and only when, that role was not a
   lead role: a user without a primary role gets one as soon as a non-lead role is assigned.
   */
  lemma PromoteThenDemote(c: Config, u: User, lead: RoleId)
    requires IsLead(c, lead)
    ensures Demote(c, Promote(c, u, lead)).roleId == u.roleId
        <==> if u.roleId.Some? then !IsLead(c, u.roleId.value) else OtherHeld(c, u) == {}
  {
    CycleShape(c, u, lead);
    var all := Listed(u.roleId) + u.assignedRoles;
    var kept := Kept(c, u);
    KeptMembers(c, u);
    if u.roleId.Some? && !IsLead(c, u.roleId.value) {
      NonLeadConcat(c, Listed(u.roleId), u.assignedRoles);
      NonLeadOfNonLead(c, Listed(u.roleId));
      DedupeStarts(NonLead(c, all));
    } else if kept != [] {
      assert kept[0] in kept;
    }
  }

  /** The failing case: a user with a role but no primary one comes back with that role as primary. */
  lemma AssignedRoleBecomesPrimary(u: User)
    requires u.roleId == None && u.assignedRoles == [RECRUITER_ROLE]
    ensures Demote(TABLES, Promote(TABLES, u, LEAD_ROLE)) == u.(roleId := Some(RECRUITER_ROLE))
  {
    assert TABLES.roles[0].id == LEAD_ROLE && TABLES.roles[0].lead;
    assert !IsLead(TABLES, RECRUITER_ROLE);
    CycleShape(TABLES, u, LEAD_ROLE);
    KeptRecruiter(u);
  }

  lemma KeptRecruiter(u: User)
    requires u.roleId == None && u.assignedRoles == [RECRUITER_ROLE] && !IsLead(TABLES, RECRUITER_ROLE)
    ensures Kept(TABLES, u) == [RECRUITER_ROLE]
  {
    hide IsLead;
    var ids := [RECRUITER_ROLE];
    assert ids[..0] == [];
    assert Listed(u.roleId) + ids == ids;
    assert NonLead(TABLES, []) == [] && Dedupe([]) == [];
    assert NonLead(TABLES, ids) == ids && Dedupe(ids) == ids;
  }

  lemma RolesOfList(c: Config, u: User, kept: seq<RoleId>, lead: RoleId)
    requires u.roleId == Some(lead) && u.assignedRoles == kept + [lead]
    requires IsLead(c, lead) && forall x :: x in kept ==> !IsLead(c, x)
    ensures LeadHeld(c, u) == {lead}
    ensures forall x :: x in OtherHeld(c, u) <==> x in kept
  {
    hide IsLead;
    assert Listed(u.roleId) == [lead];
    assert forall x :: x in Held(u) <==> x in kept || x == lead;
  }

  /** Promotion keeps every other role and leaves exactly one lead role. */
  lemma PromotionRoles(c: Config, u: User, lead: RoleId)
    requires IsLead(c, lead)
    ensures OtherHeld(c, Promote(c, u, lead)) == OtherHeld(c, u)
    ensures LeadHeld(c, Promote(c, u, lead)) == {lead}
  {
    hide IsLead, Promote, Kept, LeadHeld, OtherHeld;
    PromotedShape(c, u, lead);
    KeptMembers(c, u);
    RolesOfList(c, Promote(c, u, lead), Kept(c, u), lead);
  }

  lemma DemotedMembers(c: Config, u: User)
    ensures forall x :: x in Demote(c, u).assignedRoles <==> x in OtherHeld(c, u)
  {
    hide IsLead, NonLead, Dedupe;
    NonLeadMembers(c, u.assignedRoles + Listed(u.roleId));
    DedupeMembers(NonLead(c, u.assignedRoles + Listed(u.roleId)));
  }

  lemma DemotedPrimary(c: Config, u: User)
    ensures Demote(c, u).roleId.Some? ==> Demote(c, u).roleId.value in Demote(c, u).assignedRoles
  {
    DemotedMembers(c, u);
    hide IsLead, NonLead, Dedupe;
  }

  /** Demotion keeps every other role and leaves no lead role. */
  lemma DemotionRoles(c: Config, u: User)
    ensures OtherHeld(c, Demote(c, u)) == OtherHeld(c, u)
    ensures LeadHeld(c, Demote(c, u)) == {}
  {
    hide IsLead, Demote;
    var d := Demote(c, u);
    DemotedMembers(c, u);
    DemotedPrimary(c, u);
    assert forall x :: x in Held(d) <==> x in d.assignedRoles;
  }

  /** Demotion keeps a primary role that is no lead role; otherwise the first other role held becomes primary. */
  lemma DemotionKeepsPrimary(c: Config, u: User)
    ensures var d := Demote(c, u);
      && (u.roleId.Some? && !IsLead(c, u.roleId.value) ==> d.roleId == u.roleId)
      && (u.roleId.None? || IsLead(c, u.roleId.value) ==>
            (d.roleId.None? <==> OtherHeld(c, u) == {}) && (d.roleId.Some? ==> d.roleId == Some(d.assignedRoles[0])))
      && (forall x :: x in d.assignedRoles <==> x in OtherHeld(c, u)) && NoRepeats(d.assignedRoles)
  {
    DemotedMembers(c, u);
    DedupeHasNoRepeats(NonLead(c, u.assignedRoles + Listed(u.roleId)));
    hide IsLead, Dedupe, NonLead, OtherHeld;
    if Demote(c, u).assignedRoles != [] {
      assert Demote(c, u).assignedRoles[0] in Demote(c, u).assignedRoles;
    }
  }

  /** Going round again changes nothing further. */
  lemma CycleSettles(c: Config, u: User, lead: RoleId, again: RoleId)
    requires IsLead(c, lead) && IsLead(c, again)
    ensures var once := Demote(c, Promote(c, u, lead));
      Demote(c, Promote(c, once, again)) == once
  {
    hide IsLead, Promote, Demote;
    CycleShape(c, u, lead);
    var once, kept := Demote(c, Promote(c, u, lead)), Kept(c, u);
    CycleShape(c, once, again);
    DedupeHasNoRepeats(NonLead(c, Listed(u.roleId) + u.assignedRoles));
    KeptMembers(c, u);
    assert forall x :: x in Listed(once.roleId) + kept ==> x in kept;
    NonLeadOfNonLead(c, Listed(once.roleId) + kept);
    if kept == [] {
      assert Listed(once.roleId) + kept == [];
    } else {
      DedupeOfHeaded(kept);
    }
  }

  // ---- What the calls check ----

  /** The roles `findMany` returns for the unit's own Pod Lead role, in order. */
  function UnitLeads(c: Config, unit: UnitId, n: nat): (ids: seq<RoleId>)
    requires n <= |c.roles|
    ensures forall x :: x in ids ==> IsLead(c, x)
  {
    if n == 0 then []
    else
      var role := c.roles[n - 1];
      UnitLeads(c, unit, n - 1) + (if role.lead && !role.isSystem && role.unit == Some(unit) then [role.id] else [])
  }

  /** The first tenant-wide system Pod Lead role at or after position n. */
  function SystemLead(c: Config, n: nat): (id: Option<RoleId>)
    requires n <= |c.roles|
    ensures id.Some? ==> IsLead(c, id.value)
    decreases |c.roles| - n
  {
    if n == |c.roles| then None
    else if c.roles[n].lead && c.roles[n].isSystem && c.roles[n].branch.None? then Some(c.roles[n].id)
    else SystemLead(c, n + 1)
  }

  /** The Pod Lead role of a unit: its one custom role, else the system template. */
  function LeadRole(c: Config, unit: UnitId): (r: Result<RoleId, Error>)
    ensures r.Ok? ==> IsLead(c, r.value)
  {
    var custom := UnitLeads(c, unit, |c.roles|);
    if |custom| > 1 then Err(ManyLeadRoles)
    else if |custom| == 1 then Ok(custom[0])
    else match SystemLead(c, 0)
      case Some(id) => Ok(id)
      case None => Err(NoLeadRole)
  }

  /** Role i is a Pod Lead role that the unit has of its own. */
  predicate IsCustomLead(c: Config, unit: UnitId, i: int) {
    0 <= i < |c.roles| && c.roles[i].lead && !c.roles[i].isSystem && c.roles[i].unit == Some(unit)
  }

  /** Role i is a Pod Lead role of the system that belongs to no branch. */
  predicate IsTemplate(c: Config, i: int) {
    0 <= i < |c.roles| && c.roles[i].lead && c.roles[i].isSystem && c.roles[i].branch == None
  }

  /** Role i is the only one of the unit's own among the first n. */
  ghost predicate OnlyCustomLead(c: Config, unit: UnitId, i: int, n: int) {
    i < n && IsCustomLead(c, unit, i) && forall j :: j < n && IsCustomLead(c, unit, j) ==> j == i
  }

  predicate TwoCustomLeads(c: Config, unit: UnitId, i: int, j: int, n: int) {
    i < j < n && IsCustomLead(c, unit, i) && IsCustomLead(c, unit, j)
  }

  lemma {:induction false} UnitLeadsExactly(c: Config, unit: UnitId, n: nat)
    requires n <= |c.roles|
    ensures UnitLeads(c, unit, n) == [] ==> forall i :: IsCustomLead(c, unit, i) ==> i >= n
    ensures |UnitLeads(c, unit, n)| == 1 ==>
      exists i :: OnlyCustomLead(c, unit, i, n) && UnitLeads(c, unit, n)[0] == c.roles[i].id
    ensures |UnitLeads(c, unit, n)| > 1 ==> exists i, j :: TwoCustomLeads(c, unit, i, j, n)
  {
    if n > 0 {
      UnitLeadsExactly(c, unit, n - 1);
      var before := UnitLeads(c, unit, n - 1);
      if before == [] {
        assert IsCustomLead(c, unit, n - 1) ==> OnlyCustomLead(c, unit, n - 1, n);
      } else if |before| == 1 {
        var i :| OnlyCustomLead(c, unit, i, n - 1) && before[0] == c.roles[i].id;
        if IsCustomLead(c, unit, n - 1) {
          assert TwoCustomLeads(c, unit, i, n - 1, n);
        } else {
          assert OnlyCustomLead(c, unit, i, n);
        }
      } else {
        var i, j :| TwoCustomLeads(c, unit, i, j, n - 1);
        assert TwoCustomLeads(c, unit, i, j, n);
      }
    }
  }

  predicate FirstTemplate(c: Config, i: int, n: int) {
    n <= i && IsTemplate(c, i) && forall j :: n <= j < i ==> !IsTemplate(c, j)
  }

  lemma {:induction false} SystemLeadExactly(c: Config, n: nat)
    requires n <= |c.roles|
    ensures SystemLead(c, n).None? ==> forall i :: IsTemplate(c, i) ==> i < n
    ensures SystemLead(c, n).Some? ==> exists i :: FirstTemplate(c, i, n) && SystemLead(c, n).value == c.roles[i].id
    decreases |c.roles| - n
  {
    if n < |c.roles| {
      if IsTemplate(c, n) {
        assert FirstTemplate(c, n, n);
      } else {
        SystemLeadExactly(c, n + 1);
        if SystemLead(c, n + 1).Some? {
          var i :| FirstTemplate(c, i, n + 1) && SystemLead(c, n + 1).value == c.roles[i].id;
          assert FirstTemplate(c, i, n);
        }
      }
    }
  }

  /** The unit's one own role; more than one is an error; without one the first template, and without that an error. */
  lemma LeadRoleExactly(c: Config, unit: UnitId)
    ensures var n, r := |c.roles|, LeadRole(c, unit);
      && (r == Err(ManyLeadRoles) <==> exists i, j :: TwoCustomLeads(c, unit, i, j, n))
      && (forall i :: OnlyCustomLead(c, unit, i, n) ==> r == Ok(c.roles[i].id))
      && (forall i :: FirstTemplate(c, i, 0) && (forall j :: !IsCustomLead(c, unit, j)) ==> r == Ok(c.roles[i].id))
      && (r == Err(NoLeadRole) <==> forall i :: !IsCustomLead(c, unit, i) && !IsTemplate(c, i))
  {
    var n := |c.roles|;
    UnitLeadsExactly(c, unit, n);
    SystemLeadExactly(c, 0);
    var custom := UnitLeads(c, unit, n);
    hide UnitLeads, SystemLead;
    assert forall i, j :: TwoCustomLeads(c, unit, i, j, n) ==>
      !OnlyCustomLead(c, unit, i, n) && IsCustomLead(c, unit, i);
    if |custom| == 1 {
      var only :| OnlyCustomLead(c, unit, only, n) && custom[0] == c.roles[only].id;
    } else if custom == [] && SystemLead(c, 0).Some? {
      var first :| FirstTemplate(c, first, 0) && SystemLead(c, 0).value == c.roles[first].id;
      assert forall i :: FirstTemplate(c, i, 0) ==> i == first;
    }
  }

  /** What disqualifies one existing user for a pod of this unit. */
  function Objection(c: Config, u: User, unit: UnitId, current: Option<PodId>): Option<Error> {
    if !u.active || !u.approved then Some(Inactive)
    else if u.unit.Some? && u.unit != Some(unit) then Some(OtherUnit)
    else if !exists x :: x in Held(u) && IsRecruiterRole(c, x) then Some(NotRecruiter)
    else if u.podId.Some? && u.podId != current then Some(InAnotherPod)
    else None
  }

  /** `validateRecruiters`: all users exist, then none is disqualified. */
  function Validate(c: Config, users: map<UserId, User>, ids: seq<UserId>, unit: UnitId, current: Option<PodId>)
    : (r: Option<Error>)
    ensures r.None? <==> forall id :: id in ids ==> id in users && Objection(c, users[id], unit, current).None?
  {
    if exists id :: id in ids && id !in users then Some(UserNotFound)
    else FirstObjection(c, users, ids, unit, current)
  }

  function FirstObjection(c: Config, users: map<UserId, User>, ids: seq<UserId>, unit: UnitId, current: Option<PodId>)
    : (r: Option<Error>)
    requires forall id :: id in ids ==> id in users
    ensures r.None? <==> forall id :: id in ids ==> Objection(c, users[id], unit, current).None?
  {
    if ids == [] then None
    else
      var first := Objection(c, users[ids[0]], unit, current);
      if first.Some? then first else FirstObjection(c, users, ids[1..], unit, current)
  }

  /** The order in which the rows are looked at only decides which of several objections is reported. */
  lemma {:induction false} OrderOnlyPicksTheError(c: Config, users: map<UserId, User>, ids: seq<UserId>,
      rows: seq<UserId>, unit: UnitId, current: Option<PodId>)
    requires forall id :: id in ids <==> id in rows
    requires forall id :: id in ids ==> id in users
    ensures FirstObjection(c, users, rows, unit, current).None? <==> FirstObjection(c, users, ids, unit, current).None?
    ensures FirstObjection(c, users, rows, unit, current).Some? ==>
      exists id :: id in ids && FirstObjection(c, users, rows, unit, current) == Objection(c, users[id], unit, current)
  {
    hide Objection;
    if FirstObjection(c, users, rows, unit, current).Some? {
      var id := Objector(c, users, rows, unit, current);
    }
  }

  lemma {:induction false} Objector(c: Config, users: map<UserId, User>, rows: seq<UserId>, unit: UnitId,
      current: Option<PodId>)
    returns (id: UserId)
    requires forall id :: id in rows ==> id in users
    requires FirstObjection(c, users, rows, unit, current).Some?
    ensures id in rows && FirstObjection(c, users, rows, unit, current) == Objection(c, users[id], unit, current)
  {
    hide Objection;
    if Objection(c, users[rows[0]], unit, current).Some? {
      id := rows[0];
    } else {
      id := Objector(c, users, rows[1..], unit, current);
    }
  }

  predicate Leads(pods: map<PodId, Pod>, user: UserId, except: Option<PodId>) {
    exists p :: p in pods && Some(p) != except && pods[p].head == Some(user)
  }

  /** Letters compare without case. */
  function Upper(ch: char): char {
    if 'a' <= ch <= 'z' then (ch as int - 32) as char else ch
  }

  predicate SameName(a: string, b: string) {
    |a| == |b| && forall i :: 0 <= i < |a| ==> Upper(a[i]) == Upper(b[i])
  }

  /** The same letter, or its two cases. */
  predicate SameLetter(x: char, y: char) {
    || x == y
    || (x in "abcdefghijklm" + "nopqrstuvwxyz" && y as int == x as int - 32)
    || (y in "abcdefghijklm" + "nopqrstuvwxyz" && x as int == y as int - 32)
  }

  lemma SmallLetters(ch: char)
    ensures ch in "abcdefghijklm" + "nopqrstuvwxyz" <==> 'a' <= ch <= 'z'
  {
    assert ch in "abcdefghijklm" <==> 'a' <= ch <= 'm';
    assert ch in "nopqrstuvwxyz" <==> 'n' <= ch <= 'z';
  }

  lemma SameLetterExactly(x: char, y: char)
    ensures Upper(x) == Upper(y) <==> SameLetter(x, y)
  {
    SmallLetters(x);
    SmallLetters(y);
  }

  /** Names are the same when they agree letter by letter, whatever the case. */
  lemma SameNameExactly(a: string, b: string)
    ensures SameName(a, b) <==> |a| == |b| && forall i :: 0 <= i < |a| ==> SameLetter(a[i], b[i])
  {
    forall i | 0 <= i < |a| && i < |b|
      ensures Upper(a[i]) == Upper(b[i]) <==> SameLetter(a[i], b[i])
    {
      SameLetterExactly(a[i], b[i]);
    }
    hide Upper, SameLetter;
  }

  predicate NameUsed(pods: map<PodId, Pod>, name: string, unit: UnitId, except: Option<PodId>) {
    exists p :: p in pods && Some(p) != except && pods[p].unit == Some(unit) && SameName(pods[p].name, name)
  }

  function HeadAndMembers(head: Option<UserId>, recruiters: seq<UserId>): seq<UserId> {
    Dedupe((match head case Some(id) => [id] case None => []) + recruiters)
  }

  // ---- The three calls ----

  datatype CreateDto = CreateDto(name: string, unit: Option<UnitId>, branch: Option<BranchId>, head: Option<UserId>,
    recruiters: seq<UserId>)

  /** An absent field keeps what is there; `head: Some(None)` clears the head. Names come trimmed. */
  datatype UpdateDto = UpdateDto(
    name: Option<string>, unit: Option<Option<UnitId>>, branch: Option<Option<BranchId>>,
    head: Option<Option<UserId>>, recruiters: Option<seq<UserId>>)

  function GetOr<T>(o: Option<T>, default: T): T {
    match o case Some(v) => v case None => default
  }

  function CreatedBranch(c: Config, dto: CreateDto): Option<BranchId> {
    if dto.unit.Some? && dto.unit.value in c.units && c.units[dto.unit.value].Some?
    then c.units[dto.unit.value] else dto.branch
  }

  /** Everything a creation checks before its first write. */
  function CreateChecks(c: Config, s: Rows, dto: CreateDto): Option<Error> {
    if dto.unit.None? then Some(NoUnit)
    else if dto.unit.value !in c.units then Some(UnitNotFound)
    else if CreatedBranch(c, dto).None? then Some(NoBranch)
    else if NameUsed(s.pods, dto.name, dto.unit.value, None) then Some(NameTaken)
    else
      var invalid := Validate(c, s.users, HeadAndMembers(dto.head, dto.recruiters), dto.unit.value, None);
      if invalid.Some? then invalid
      else if dto.head.Some? && Leads(s.pods, dto.head.value, None) then Some(LeadsAnotherPod)
      else None
  }

  /** One user's row after a successful creation: members join, the head is promoted. */
  function Enrolled(c: Config, id: PodId, unit: UnitId, head: Option<UserId>, members: seq<UserId>, user: UserId,
      row: User): User
    requires head == Some(user) ==> LeadRole(c, unit).Ok?
  {
    var joined := if user in members then row.(podId := Some(id)) else row;
    if head == Some(user) then Promote(c, joined, LeadRole(c, unit).value) else joined
  }

  /** The writes of a creation, whose checks may have been made on earlier rows. */
  function CreateWrites(c: Config, s: Rows, id: PodId, dto: CreateDto): Result<Rows, Error>
    requires dto.unit.Some?
  {
    var unit, members := dto.unit.value, HeadAndMembers(dto.head, dto.recruiters);
    if dto.head.Some? && LeadRole(c, unit).Err? then Err(LeadRole(c, unit).error)
    else Ok(Rows(
      map u | u in s.users :: Enrolled(c, id, unit, dto.head, members, u, s.users[u]),
      s.pods[id := Pod(dto.name, Some(unit), CreatedBranch(c, dto), dto.head, 0)]))
  }

  function CreateRows(c: Config, s: Rows, id: PodId, dto: CreateDto): Result<Rows, Error> {
    var checks := CreateChecks(c, s, dto);
    if checks.Some? then Err(checks.value) else CreateWrites(c, s, id, dto)
  }

  // An update reads the pod's row before its transaction and checks and writes against that read,
  // `was`, which another call may have overtaken; everything else it reads inside the transaction.

  /** The pod row an update writes over the current one. */
  function Updated(current: Pod, was: Pod, dto: UpdateDto, branch: Option<BranchId>): Pod {
    current.(name := GetOr(dto.name, was.name), unit := GetOr(dto.unit, was.unit), branch := branch,
             head := GetOr(dto.head, was.head))
  }

  function UpdatedBranch(c: Config, was: Pod, dto: UpdateDto): Option<BranchId> {
    var unit, branch := GetOr(dto.unit, was.unit), GetOr(dto.branch, was.branch);
    if unit.Some? && unit != was.unit && unit.value in c.units && c.units[unit.value].Some?
    then c.units[unit.value] else branch
  }

  /** Everything an update checks before its first write. */
  function UpdateChecks(c: Config, s: Rows, id: PodId, dto: UpdateDto, was: Pod): Option<Error> {
    var unit, head := GetOr(dto.unit, was.unit), GetOr(dto.head, was.head);
    if unit.None? then Some(NoUnit)
    else if unit != was.unit && unit.value !in c.units then Some(UnitNotFound)
    else if UpdatedBranch(c, was, dto).None? then Some(NoBranch)
    else if dto.name.Some? && dto.name.value != "" && !SameName(dto.name.value, was.name)
      && NameUsed(s.pods, dto.name.value, unit.value, Some(id)) then Some(NameTaken)
    else if dto.head.Some? && dto.head.value.Some? && dto.head.value != was.head
      && Leads(s.pods, dto.head.value.value, Some(id)) then Some(LeadsAnotherPod)
    else Validate(c, s.users, HeadAndMembers(head, GetOr(dto.recruiters, [])), unit.value, Some(id))
  }

  /** The checks, the row that may be gone, then the lead role that a new head or a new unit calls for. */
  function UpdateError(c: Config, s: Rows, id: PodId, dto: UpdateDto, was: Pod): Option<Error> {
    var checks := UpdateChecks(c, s, id, dto, was);
    if checks.Some? then checks
    else if id !in s.pods then Some(PodNotFound)
    else
      var unit, head := GetOr(dto.unit, was.unit), GetOr(dto.head, was.head);
      if head.Some? && (head != was.head || unit != was.unit) && LeadRole(c, unit.value).Err?
      then Some(LeadRole(c, unit.value).error)
      else None
  }

  /** The role changes of an update on one row; `elsewhere` says whether the user leads another pod. */
  function RolesChanged(c: Config, id: PodId, was: Pod, unit: UnitId, head: Option<UserId>, elsewhere: bool,
      user: UserId, row: User): User
    requires head == Some(user) && (head != was.head || Some(unit) != was.unit) ==> LeadRole(c, unit).Ok?
  {
    var row := if head != was.head && was.head == Some(user) && !elsewhere then Demote(c, row) else row;
    if head == Some(user) && (head != was.head || Some(unit) != was.unit)
    then Promote(c, row, LeadRole(c, unit).value).(podId := Some(id))
    else row
  }

  /** The membership changes of an update on one row. */
  function Enlisted(id: PodId, head: Option<UserId>, recruiters: Option<seq<UserId>>, user: UserId, row: User): User {
    if recruiters.None? then row
    else if user in HeadAndMembers(head, recruiters.value) then row.(podId := Some(id))
    else if row.podId == Some(id) then row.(podId := None)
    else row
  }

  /** One user's row after a successful update. */
  function UpdatedUser(c: Config, s: Rows, id: PodId, dto: UpdateDto, was: Pod, user: UserId): User
    requires UpdateError(c, s, id, dto, was).None? && user in s.users
  {
    var unit, head := GetOr(dto.unit, was.unit), GetOr(dto.head, was.head);
    Enlisted(id, head, dto.recruiters, user,
      RolesChanged(c, id, was, unit.value, head, Leads(s.pods, user, Some(id)), user, s.users[user]))
  }

  /** The transaction of an update whose earlier read of the pod was `was`. */
  function UpdateFrom(c: Config, s: Rows, id: PodId, dto: UpdateDto, was: Pod): Result<Rows, Error> {
    var error := UpdateError(c, s, id, dto, was);
    if error.Some? then Err(error.value)
    else Ok(Rows(
      map u | u in s.users :: UpdatedUser(c, s, id, dto, was, u),
      s.pods[id := Updated(s.pods[id], was, dto, UpdatedBranch(c, was, dto))]))
  }

  /** An update that nothing overtakes. */
  function UpdateRows(c: Config, s: Rows, id: PodId, dto: UpdateDto): Result<Rows, Error> {
    if id !in s.pods then Err(PodNotFound) else UpdateFrom(c, s, id, dto, s.pods[id])
  }

  function RemoveRows(c: Config, s: Rows, id: PodId): Result<Rows, Error> {
    if id !in s.pods then Err(PodNotFound)
    else if s.pods[id].jobs > 0 then Err(HasJobs)
    else Ok(Rows(
      map u | u in s.users ::
        var demoted := s.pods[id].head == Some(u) && !Leads(s.pods, u, Some(id));
        var row := if demoted then Demote(c, s.users[u]) else s.users[u];
        if row.podId == Some(id) then row.(podId := None) else row,
      s.pods - {id}))
  }

  // ---- What every run keeps ----

  predicate HeadsAreMembers(s: Rows) {
    forall p :: p in s.pods && s.pods[p].head.Some? ==>
      s.pods[p].head.value in s.users && s.users[s.pods[p].head.value].podId == Some(p)
  }

  predicate MembersHavePods(s: Rows) {
    forall u :: u in s.users && s.users[u].podId.Some? ==> s.users[u].podId.value in s.pods
  }

  /** A user holds a Pod Lead role exactly when heading a pod, and then exactly one. */
  predicate LeadRolesMatch(c: Config, s: Rows) {
    forall u :: u in s.users ==>
      |LeadHeld(c, s.users[u])| == (if Leads(s.pods, u, None) then 1 else 0)
  }

  predicate Inv(c: Config, s: Rows) {
    HeadsAreMembers(s) && MembersHavePods(s) && LeadRolesMatch(c, s)
  }

  /** No user goes straight from one pod to another. */
  predicate NoDirectMove(before: Rows, after: Rows) {
    forall u :: u in before.users && u in after.users && before.users[u].podId.Some? && after.users[u].podId.Some? ==>
      before.users[u].podId == after.users[u].podId
  }

  lemma HeadsOnePod(c: Config, s: Rows, p: PodId, q: PodId)
    requires Inv(c, s) && p in s.pods && q in s.pods
    requires s.pods[p].head.Some? && s.pods[p].head == s.pods[q].head
    ensures p == q
  {
  }

  /** Roles decide `LeadHeld`; the pod a user is in does not. */
  lemma LeadHeldIgnoresPod(c: Config, u: User, pod: Option<PodId>)
    ensures LeadHeld(c, u.(podId := pod)) == LeadHeld(c, u)
  {
  }

  lemma MembersListed(head: Option<UserId>, recruiters: seq<UserId>)
    ensures forall u :: u in HeadAndMembers(head, recruiters) <==> head == Some(u) || u in recruiters
  {
    DedupeMembers((match head case Some(id) => [id] case None => []) + recruiters);
  }

  lemma FreeOfOtherPods(c: Config, u: User, unit: UnitId, current: Option<PodId>)
    requires Objection(c, u, unit, current).None?
    ensures u.podId.None? || u.podId == current
  {
  }

  lemma PromoteKeepsPod(c: Config, u: User, lead: RoleId)
    ensures Promote(c, u, lead).podId == u.podId
  {
  }

  lemma LeadsAfterCreate(s: Rows, id: PodId, pod: Pod, u: UserId)
    requires id !in s.pods
    ensures Leads(s.pods[id := pod], u, None) <==> Leads(s.pods, u, None) || pod.head == Some(u)
  {
    var pods := s.pods[id := pod];
    if Leads(s.pods, u, None) {
      var p :| p in s.pods && s.pods[p].head == Some(u);
      assert p in pods && pods[p].head == Some(u);
    }
    if pod.head == Some(u) {
      assert id in pods && pods[id].head == Some(u);
    }
  }

  /** All users a creation names are there. */
  predicate MembersKnown(s: Rows, dto: CreateDto) {
    dto.unit.Some? && forall u :: u in HeadAndMembers(dto.head, dto.recruiters) ==> u in s.users
  }

  /** One of the users a creation names has become the head of a pod. */
  predicate TakesAHead(s: Rows, dto: CreateDto) {
    exists u :: u in HeadAndMembers(dto.head, dto.recruiters) && Leads(s.pods, u, None)
  }

  /** A user row and the pods after the writes of a creation. */
  lemma WrittenUser(c: Config, s: Rows, id: PodId, dto: CreateDto, u: UserId)
    requires MembersKnown(s, dto) && CreateWrites(c, s, id, dto).Ok? && u in s.users
    ensures var s' := CreateWrites(c, s, id, dto).value;
      && u in s'.users
      && s'.users[u].podId == (if u in HeadAndMembers(dto.head, dto.recruiters) then Some(id) else s.users[u].podId)
      && |LeadHeld(c, s'.users[u])| == if dto.head == Some(u) then 1 else |LeadHeld(c, s.users[u])|
  {
    hide IsLead, Promote, LeadHeld;
    MembersListed(dto.head, dto.recruiters);
    LeadHeldIgnoresPod(c, s.users[u], Some(id));
    if dto.head == Some(u) {
      var lead := LeadRole(c, dto.unit.value).value;
      PromotionRoles(c, s.users[u].(podId := Some(id)), lead);
      PromoteKeepsPod(c, s.users[u].(podId := Some(id)), lead);
    }
  }

  lemma WrittenPods(c: Config, s: Rows, id: PodId, dto: CreateDto)
    requires MembersKnown(s, dto) && CreateWrites(c, s, id, dto).Ok?
    ensures var s' := CreateWrites(c, s, id, dto).value;
      s'.users.Keys == s.users.Keys && id in s'.pods && s'.pods == s.pods[id := s'.pods[id]]
        && s'.pods[id].head == dto.head
  {
    hide Promote, Leads, LeadRole;
  }

  lemma LateCreateKeepsRoles(c: Config, s: Rows, id: PodId, dto: CreateDto)
    requires Inv(c, s) && id !in s.pods && MembersKnown(s, dto) && CreateWrites(c, s, id, dto).Ok?
    ensures LeadRolesMatch(c, CreateWrites(c, s, id, dto).value) && MembersHavePods(CreateWrites(c, s, id, dto).value)
  {
    WrittenPods(c, s, id, dto);
    hide CreateWrites, LeadHeld, Leads;
    var s' := CreateWrites(c, s, id, dto).value;
    forall u | u in s'.users
      ensures |LeadHeld(c, s'.users[u])| == (if Leads(s'.pods, u, None) then 1 else 0)
      ensures s'.users[u].podId.Some? ==> s'.users[u].podId.value in s'.pods
    {
      WrittenUser(c, s, id, dto, u);
      LeadsAfterCreate(s, id, s'.pods[id], u);
    }
  }

  /** Those a creation names are in the new pod after its writes, and nobody else moves. */
  lemma WrittenMembers(c: Config, s: Rows, id: PodId, dto: CreateDto)
    requires MembersKnown(s, dto) && CreateWrites(c, s, id, dto).Ok?
    ensures var s', members := CreateWrites(c, s, id, dto).value, HeadAndMembers(dto.head, dto.recruiters);
      && s'.users.Keys == s.users.Keys
      && forall u :: u in s.users ==> s'.users[u].podId == if u in members then Some(id) else s.users[u].podId
  {
    WrittenPods(c, s, id, dto);
    hide CreateWrites, HeadAndMembers;
    var s', members := CreateWrites(c, s, id, dto).value, HeadAndMembers(dto.head, dto.recruiters);
    forall u | u in s.users
      ensures s'.users[u].podId == if u in members then Some(id) else s.users[u].podId
    {
      WrittenUser(c, s, id, dto, u);
    }
  }

  lemma TakenHeadBreaksInv(c: Config, s: Rows, id: PodId, dto: CreateDto)
    requires id !in s.pods && MembersKnown(s, dto) && CreateWrites(c, s, id, dto).Ok? && TakesAHead(s, dto)
    ensures !HeadsAreMembers(CreateWrites(c, s, id, dto).value)
  {
    WrittenPods(c, s, id, dto);
    WrittenMembers(c, s, id, dto);
    hide CreateWrites, HeadAndMembers;
    var s' := CreateWrites(c, s, id, dto).value;
    var u :| u in HeadAndMembers(dto.head, dto.recruiters) && Leads(s.pods, u, None);
    var p :| p in s.pods && s.pods[p].head == Some(u);
    assert p in s'.pods && s'.pods[p].head == Some(u) && s'.users[u].podId == Some(id) && p != id;
  }

  lemma FreshHeadsAreMembers(c: Config, s: Rows, id: PodId, dto: CreateDto)
    requires HeadsAreMembers(s) && id !in s.pods
    requires MembersKnown(s, dto) && CreateWrites(c, s, id, dto).Ok? && !TakesAHead(s, dto)
    ensures HeadsAreMembers(CreateWrites(c, s, id, dto).value)
  {
    WrittenPods(c, s, id, dto);
    WrittenMembers(c, s, id, dto);
    MembersListed(dto.head, dto.recruiters);
    hide CreateWrites, HeadAndMembers;
    var s' := CreateWrites(c, s, id, dto).value;
    forall p | p in s'.pods && s'.pods[p].head.Some?
      ensures s'.pods[p].head.value in s'.users && s'.users[s'.pods[p].head.value].podId == Some(p)
    {
      if p != id {
        assert Leads(s.pods, s.pods[p].head.value, None);
      }
    }
  }

  /** The writes of a creation keep the invariant exactly when they take no pod's head. */
  lemma LateCreateKeepsInvExactly(c: Config, s: Rows, id: PodId, dto: CreateDto)
    requires Inv(c, s) && id !in s.pods && MembersKnown(s, dto) && CreateWrites(c, s, id, dto).Ok?
    ensures Inv(c, CreateWrites(c, s, id, dto).value) <==> !TakesAHead(s, dto)
  {
    hide CreateWrites, HeadsAreMembers, LeadRolesMatch, MembersHavePods, MembersKnown, TakesAHead;
    LateCreateKeepsRoles(c, s, id, dto);
    if TakesAHead(s, dto) {
      TakenHeadBreaksInv(c, s, id, dto);
    } else {
      FreshHeadsAreMembers(c, s, id, dto);
    }
  }

  /** They move nobody from one pod to another exactly when all users they name are free. */
  lemma LateCreateMovesNobodyExactly(c: Config, s: Rows, id: PodId, dto: CreateDto)
    requires Inv(c, s) && id !in s.pods && MembersKnown(s, dto) && CreateWrites(c, s, id, dto).Ok?
    ensures NoDirectMove(s, CreateWrites(c, s, id, dto).value)
       <==> forall u :: u in HeadAndMembers(dto.head, dto.recruiters) ==> s.users[u].podId.None?
  {
    WrittenPods(c, s, id, dto);
    WrittenMembers(c, s, id, dto);
    hide CreateWrites, HeadAndMembers, LeadRolesMatch, HeadsAreMembers;
  }

  /** What the checks of a creation establish for its writes. */
  lemma ChecksAllow(c: Config, s: Rows, dto: CreateDto)
    requires Inv(c, s) && CreateChecks(c, s, dto).None?
    ensures MembersKnown(s, dto) && !TakesAHead(s, dto)
    ensures forall u :: u in HeadAndMembers(dto.head, dto.recruiters) ==> s.users[u].podId.None?
  {
    ChecksKnowMembers(c, s, dto);
    hide HeadAndMembers, NameUsed, LeadHeld;
    forall u | u in HeadAndMembers(dto.head, dto.recruiters)
      ensures s.users[u].podId.None?
    {
      FreeOfOtherPods(c, s.users[u], dto.unit.value, None);
    }
  }

  lemma ChecksKnowMembers(c: Config, s: Rows, dto: CreateDto)
    requires CreateChecks(c, s, dto).None?
    ensures MembersKnown(s, dto)
  {
    hide Objection, NameUsed, Leads;
  }

  lemma CreateKeepsInv(c: Config, s: Rows, id: PodId, dto: CreateDto)
    requires Inv(c, s) && id !in s.pods && CreateRows(c, s, id, dto).Ok?
    ensures Inv(c, CreateRows(c, s, id, dto).value)
    ensures NoDirectMove(s, CreateRows(c, s, id, dto).value)
  {
    hide CreateWrites, CreateChecks, Inv, MembersKnown, TakesAHead, HeadAndMembers, NoDirectMove;
    ChecksAllow(c, s, dto);
    LateCreateKeepsInvExactly(c, s, id, dto);
    LateCreateMovesNobodyExactly(c, s, id, dto);
  }

  /** Leading some pod is leading pod `id` or leading another one. */
  lemma LeadsSplits(pods: map<PodId, Pod>, id: PodId, u: UserId)
    requires id in pods
    ensures Leads(pods, u, None) <==> pods[id].head == Some(u) || Leads(pods, u, Some(id))
  {
    if pods[id].head == Some(u) {
      assert Some(id) != None && id in pods;
    }
    if Leads(pods, u, Some(id)) {
      var p :| p in pods && Some(p) != Some(id) && pods[p].head == Some(u);
      assert p in pods && Some(p) != None;
    }
  }

  lemma LeadsElsewhere(pods: map<PodId, Pod>, id: PodId, pod: Pod, u: UserId)
    ensures Leads(pods[id := pod], u, Some(id)) <==> Leads(pods, u, Some(id))
    ensures Leads(pods - {id}, u, None) <==> Leads(pods, u, Some(id))
  {
    var with, without := pods[id := pod], pods - {id};
    if Leads(pods, u, Some(id)) {
      var p :| p in pods && Some(p) != Some(id) && pods[p].head == Some(u);
      assert p in with && with[p].head == Some(u);
      assert p in without && without[p].head == Some(u);
    }
    if Leads(with, u, Some(id)) {
      var p :| p in with && Some(p) != Some(id) && with[p].head == Some(u);
      assert p in pods && pods[p].head == Some(u);
    }
    if Leads(without, u, None) {
      var p :| p in without && without[p].head == Some(u);
      assert p in pods && Some(p) != Some(id);
    }
  }

  lemma DemoteKeepsPod(c: Config, u: User)
    ensures Demote(c, u).podId == u.podId
  {
  }

  /** A pod's head leads no other pod. */
  lemma HeadLeadsNoOther(s: Rows, id: PodId, u: UserId)
    requires HeadsAreMembers(s) && id in s.pods && s.pods[id].head == Some(u)
    ensures !Leads(s.pods, u, Some(id))
  {
  }

  /** A user row after a removal: the members are free, and the head has stepped down. */
  lemma RemovedUser(c: Config, s: Rows, id: PodId, u: UserId)
    requires Inv(c, s) && RemoveRows(c, s, id).Ok? && u in s.users
    ensures var s' := RemoveRows(c, s, id).value;
      u in s'.users && |LeadHeld(c, s'.users[u])| == (if Leads(s'.pods, u, None) then 1 else 0)
      && s'.users[u].podId == if s.users[u].podId == Some(id) then None else s.users[u].podId
  {
    hide IsLead, Demote, LeadHeld, Leads;
    LeadsSplits(s.pods, id, u);
    LeadsElsewhere(s.pods, id, s.pods[id], u);
    DemoteKeepsPod(c, s.users[u]);
    DemotionRoles(c, s.users[u]);
    LeadHeldIgnoresPod(c, s.users[u], None);
    LeadHeldIgnoresPod(c, Demote(c, s.users[u]), None);
    if s.pods[id].head == Some(u) {
      HeadLeadsNoOther(s, id, u);
    }
  }

  lemma RemovedPods(c: Config, s: Rows, id: PodId)
    requires RemoveRows(c, s, id).Ok?
    ensures var s' := RemoveRows(c, s, id).value; s'.pods == s.pods - {id} && s'.users.Keys == s.users.Keys
  {
    hide Demote, Leads;
  }

  lemma RemoveKeepsInv(c: Config, s: Rows, id: PodId)
    requires Inv(c, s) && RemoveRows(c, s, id).Ok?
    ensures Inv(c, RemoveRows(c, s, id).value)
    ensures NoDirectMove(s, RemoveRows(c, s, id).value)
  {
    hide RemoveRows, LeadHeld, Leads;
    RemovedPods(c, s, id);
    forall u | u in s.users
      ensures var s' := RemoveRows(c, s, id).value;
        |LeadHeld(c, s'.users[u])| == (if Leads(s'.pods, u, None) then 1 else 0)
        && s'.users[u].podId == if s.users[u].podId == Some(id) then None else s.users[u].podId
    {
      RemovedUser(c, s, id, u);
    }
  }

  // An update, seen from one user.

  /** The update gives its head the lead role, rather than leaving it to the one who has it. */
  predicate Promotes(dto: UpdateDto, was: Pod) {
    GetOr(dto.head, was.head).Some? && (GetOr(dto.head, was.head) != was.head || GetOr(dto.unit, was.unit) != was.unit)
  }

  /** The lead roles of a user row after an update: the new head has one, the old one it saw none. */
  lemma UpdateRoles(c: Config, s: Rows, id: PodId, dto: UpdateDto, was: Pod, user: UserId)
    requires Inv(c, s) && UpdateError(c, s, id, dto, was).None? && user in s.users
    ensures var head := GetOr(dto.head, was.head);
      |LeadHeld(c, UpdatedUser(c, s, id, dto, was, user))|
      == if head == Some(user) && Promotes(dto, was) then 1
         else if head != was.head && was.head == Some(user) && !Leads(s.pods, user, Some(id)) then 0
         else if s.pods[id].head == Some(user) || Leads(s.pods, user, Some(id)) then 1
         else 0
  {
    hide IsLead, Demote, Promote, LeadHeld, Objection, Leads, SameName, NameUsed;
    var unit, head := GetOr(dto.unit, was.unit), GetOr(dto.head, was.head);
    LeadsSplits(s.pods, id, user);
    var demoted := head != was.head && was.head == Some(user) && !Leads(s.pods, user, Some(id));
    var u1 := if demoted then Demote(c, s.users[user]) else s.users[user];
    DemotionRoles(c, s.users[user]);
    var promoted := head == Some(user) && (head != was.head || unit != was.unit);
    var u2 := if promoted then Promote(c, u1, LeadRole(c, unit.value).value).(podId := Some(id)) else u1;
    if promoted {
      var lead := LeadRole(c, unit.value).value;
      PromotionRoles(c, u1, lead);
      LeadHeldIgnoresPod(c, Promote(c, u1, lead), Some(id));
    }
    LeadHeldIgnoresPod(c, u2, Some(id));
    LeadHeldIgnoresPod(c, u2, None);
  }

  /** The pod of a user row after an update. */
  lemma UpdateMembership(c: Config, s: Rows, id: PodId, dto: UpdateDto, was: Pod, user: UserId)
    requires Inv(c, s) && UpdateError(c, s, id, dto, was).None? && user in s.users
    ensures var before, now := s.users[user].podId, UpdatedUser(c, s, id, dto, was, user).podId;
      (now == before || now == Some(id) || (before == Some(id) && now == None)) &&
      (now == Some(id) && before.Some? ==> before == Some(id)) &&
      (GetOr(dto.head, was.head) == Some(user) ==> before.None? || before == Some(id)) &&
      (GetOr(dto.head, was.head) == Some(user) && (Promotes(dto, was) || before == Some(id)) ==> now == Some(id))
  {
    hide IsLead, Demote, Promote, Objection, Leads, SameName, NameUsed, LeadRolesMatch, Dedupe;
    var unit, head := GetOr(dto.unit, was.unit), GetOr(dto.head, was.head);
    var members := HeadAndMembers(head, GetOr(dto.recruiters, []));
    MembersListed(head, GetOr(dto.recruiters, []));
    if user in members {
      FreeOfOtherPods(c, s.users[user], unit.value, Some(id));
    }
    var demoted := head != was.head && was.head == Some(user) && !Leads(s.pods, user, Some(id));
    var u1 := if demoted then Demote(c, s.users[user]) else s.users[user];
    DemoteKeepsPod(c, s.users[user]);
  }

  /**
   What an update's earlier read of the pod may have missed: the head is still the one it saw, or the
   pod has no head or already the new one, and the update does promote the head it names.
  */
  predicate HeadStillFits(s: Rows, id: PodId, dto: UpdateDto, was: Pod)
    requires id in s.pods
  {
    var current, head := s.pods[id].head, GetOr(dto.head, was.head);
    current == was.head || ((current == None || current == head) && (head == None || Promotes(dto, was)))
  }

  /** A head whose membership the update checked leads no other pod. */
  lemma CheckedHeadLeadsNoOther(c: Config, s: Rows, id: PodId, dto: UpdateDto, was: Pod, user: UserId)
    requires Inv(c, s) && UpdateError(c, s, id, dto, was).None? && user in s.users
    requires GetOr(dto.head, was.head) == Some(user)
    ensures !Leads(s.pods, user, Some(id))
  {
    UpdateMembership(c, s, id, dto, was, user);
    hide UpdateError, UpdatedUser, LeadRolesMatch;
  }

  lemma UpdatedPods(c: Config, s: Rows, id: PodId, dto: UpdateDto, was: Pod)
    requires UpdateFrom(c, s, id, dto, was).Ok?
    ensures id in s.pods && UpdateError(c, s, id, dto, was).None?
    ensures var s' := UpdateFrom(c, s, id, dto, was).value;
      s'.users.Keys == s.users.Keys && id in s'.pods && s'.pods == s.pods[id := s'.pods[id]]
      && s'.pods[id].head == GetOr(dto.head, was.head)
      && forall u :: u in s.users ==> s'.users[u] == UpdatedUser(c, s, id, dto, was, u)
  {
    hide UpdatedUser, UpdateChecks;
  }

  lemma FittingUpdateKeepsRoles(c: Config, s: Rows, id: PodId, dto: UpdateDto, was: Pod)
    requires Inv(c, s) && UpdateFrom(c, s, id, dto, was).Ok? && id in s.pods && HeadStillFits(s, id, dto, was)
    ensures LeadRolesMatch(c, UpdateFrom(c, s, id, dto, was).value)
  {
    UpdatedPods(c, s, id, dto, was);
    hide UpdateFrom, UpdateError, UpdatedUser, LeadHeld, Leads, Inv;
    var s' := UpdateFrom(c, s, id, dto, was).value;
    forall u | u in s'.users
      ensures |LeadHeld(c, s'.users[u])| == (if Leads(s'.pods, u, None) then 1 else 0)
    {
      UpdateRoles(c, s, id, dto, was, u);
      LeadsSplits(s'.pods, id, u);
      LeadsElsewhere(s.pods, id, s'.pods[id], u);
    }
  }

  lemma FittingUpdateKeepsMembers(c: Config, s: Rows, id: PodId, dto: UpdateDto, was: Pod)
    requires Inv(c, s) && UpdateFrom(c, s, id, dto, was).Ok? && id in s.pods && HeadStillFits(s, id, dto, was)
    ensures HeadsAreMembers(UpdateFrom(c, s, id, dto, was).value)
  {
    UpdatedPods(c, s, id, dto, was);
    hide UpdateFrom, UpdateError, UpdatedUser, LeadRolesMatch;
    var s' := UpdateFrom(c, s, id, dto, was).value;
    forall p | p in s'.pods && s'.pods[p].head.Some?
      ensures s'.pods[p].head.value in s'.users && s'.users[s'.pods[p].head.value].podId == Some(p)
    {
      var h := s'.pods[p].head.value;
      if p == id {
        HeadIsKnown(c, s, id, dto, was);
      }
      UpdateMembership(c, s, id, dto, was, h);
    }
  }

  /** Whatever it read, an accepted update moves nobody from one pod to another. */
  lemma UpdateMovesNobody(c: Config, s: Rows, id: PodId, dto: UpdateDto, was: Pod)
    requires Inv(c, s) && UpdateFrom(c, s, id, dto, was).Ok?
    ensures NoDirectMove(s, UpdateFrom(c, s, id, dto, was).value)
      && MembersHavePods(UpdateFrom(c, s, id, dto, was).value)
  {
    UpdatedPods(c, s, id, dto, was);
    hide UpdateFrom, UpdateError, UpdatedUser, LeadRolesMatch, HeadsAreMembers;
    var s' := UpdateFrom(c, s, id, dto, was).value;
    forall u | u in s'.users
      ensures s'.users[u].podId.Some? ==> s'.users[u].podId.value in s'.pods
      ensures s.users[u].podId.Some? && s'.users[u].podId.Some? ==> s.users[u].podId == s'.users[u].podId
    {
      UpdateMembership(c, s, id, dto, was, u);
    }
  }

  /** A head the update does not know of keeps a lead role; one it does not promote lacks it. */
  lemma UnfitUpdateBreaksRoles(c: Config, s: Rows, id: PodId, dto: UpdateDto, was: Pod)
    requires Inv(c, s) && UpdateFrom(c, s, id, dto, was).Ok? && id in s.pods && !HeadStillFits(s, id, dto, was)
    ensures !LeadRolesMatch(c, UpdateFrom(c, s, id, dto, was).value)
  {
    UpdatedPods(c, s, id, dto, was);
    hide UpdateFrom, UpdateError, UpdatedUser, LeadHeld, Leads, LeadRole;
    var s' := UpdateFrom(c, s, id, dto, was).value;
    var head, current := GetOr(dto.head, was.head), s.pods[id].head;
    var u;
    if current.Some? && current != head {
      u := current.value;
      HeadLeadsNoOther(s, id, u);
    } else {
      u := head.value;
      HeadIsKnown(c, s, id, dto, was);
      CheckedHeadLeadsNoOther(c, s, id, dto, was, u);
    }
    UpdateRoles(c, s, id, dto, was, u);
    LeadsSplits(s'.pods, id, u);
    LeadsElsewhere(s.pods, id, s'.pods[id], u);
    assert |LeadHeld(c, s'.users[u])| != (if Leads(s'.pods, u, None) then 1 else 0);
  }

  /** An accepted update keeps the invariant exactly when the head it read still fits. */
  lemma UpdateKeepsInvExactly(c: Config, s: Rows, id: PodId, dto: UpdateDto, was: Pod)
    requires Inv(c, s) && UpdateFrom(c, s, id, dto, was).Ok?
    ensures id in s.pods && (Inv(c, UpdateFrom(c, s, id, dto, was).value) <==> HeadStillFits(s, id, dto, was))
  {
    UpdatedPods(c, s, id, dto, was);
    hide UpdateFrom, HeadStillFits, HeadsAreMembers, MembersHavePods, LeadRolesMatch;
    UpdateMovesNobody(c, s, id, dto, was);
    if HeadStillFits(s, id, dto, was) {
      FittingUpdateKeepsRoles(c, s, id, dto, was);
      FittingUpdateKeepsMembers(c, s, id, dto, was);
    } else {
      UnfitUpdateBreaksRoles(c, s, id, dto, was);
    }
  }

  /** An update that nothing overtakes keeps the invariant. */
  lemma UpdateKeepsInv(c: Config, s: Rows, id: PodId, dto: UpdateDto)
    requires Inv(c, s) && UpdateRows(c, s, id, dto).Ok?
    ensures Inv(c, UpdateRows(c, s, id, dto).value)
    ensures NoDirectMove(s, UpdateRows(c, s, id, dto).value)
  {
    hide UpdateFrom, Inv, NoDirectMove;
    UpdateKeepsInvExactly(c, s, id, dto, s.pods[id]);
    UpdateMovesNobody(c, s, id, dto, s.pods[id]);
  }

  lemma ChecksKnowHead(c: Config, s: Rows, id: PodId, dto: UpdateDto, was: Pod)
    requires UpdateChecks(c, s, id, dto, was).None?
    requires GetOr(dto.head, was.head).Some?
    ensures GetOr(dto.head, was.head).value in s.users
  {
    hide Objection, Leads, NameUsed, SameName;
    MembersListed(GetOr(dto.head, was.head), GetOr(dto.recruiters, []));
  }

  lemma ChecksKnowUnit(c: Config, s: Rows, id: PodId, dto: UpdateDto, was: Pod)
    requires UpdateChecks(c, s, id, dto, was).None?
    ensures GetOr(dto.unit, was.unit).Some?
  {
  }

  lemma SameLeadsElsewhere(pods: map<PodId, Pod>, id: PodId, pod: Pod)
    ensures forall u :: Leads(pods[id := pod], u, Some(id)) == Leads(pods, u, Some(id))
  {
    forall u
      ensures Leads(pods[id := pod], u, Some(id)) == Leads(pods, u, Some(id))
    {
      LeadsElsewhere(pods, id, pod, u);
    }
  }

  lemma HeadIsKnown(c: Config, s: Rows, id: PodId, dto: UpdateDto, was: Pod)
    requires UpdateError(c, s, id, dto, was).None?
    requires GetOr(dto.head, was.head).Some?
    ensures GetOr(dto.head, was.head).value in s.users
  {
    hide UpdateChecks;
    ChecksKnowHead(c, s, id, dto, was);
  }

  // ---- Runs ----

  datatype Call =
    | Create(id: PodId, createDto: CreateDto)
    | Update(id: PodId, updateDto: UpdateDto)
    | Remove(id: PodId)

  /** What a call leaves behind; a failing call leaves everything as it was. */
  function Outcome(c: Config, s: Rows, call: Call): Result<Rows, Error> {
    match call
    case Create(id, dto) => CreateRows(c, s, id, dto)
    case Update(id, dto) => UpdateRows(c, s, id, dto)
    case Remove(id) => RemoveRows(c, s, id)
  }

  function After(c: Config, s: Rows, call: Call): Rows {
    // New pods get identifiers of their own.
    if call.Create? && call.id in s.pods then s
    else match Outcome(c, s, call)
      case Ok(s') => s'
      case Err(_) => s
  }

  function Run(c: Config, initial: Rows, calls: seq<Call>): Rows {
    if calls == [] then initial else After(c, Run(c, initial, calls[..|calls| - 1]), calls[|calls| - 1])
  }

  lemma CallKeepsInv(c: Config, s: Rows, call: Call)
    requires Inv(c, s)
    ensures Inv(c, After(c, s, call)) && NoDirectMove(s, After(c, s, call))
  {
    hide Inv, CreateRows, UpdateRows, RemoveRows;
    if (call.Create? && call.id in s.pods) || Outcome(c, s, call).Err? {
    } else {
      match call
      case Create(id, dto) => CreateKeepsInv(c, s, id, dto);
      case Update(id, dto) => UpdateKeepsInv(c, s, id, dto);
      case Remove(id) => RemoveKeepsInv(c, s, id);
    }
  }

  /**
   After any run of calls, failed ones included: a user heads at most one pod, every head is a member
   of that pod, and a user holds a Pod Lead role exactly when heading a pod, then exactly one. And no
   call of the run moved a user straight from one pod to another.
   */
  lemma {:induction false} RunKeepsInv(c: Config, initial: Rows, calls: seq<Call>)
    requires Inv(c, initial)
    ensures Inv(c, Run(c, initial, calls))
    ensures forall k :: 0 <= k < |calls| ==>
              NoDirectMove(Run(c, initial, calls[..k]), After(c, Run(c, initial, calls[..k]), calls[k]))
  {
    hide Inv, After, NoDirectMove;
    if calls != [] {
      var init := calls[..|calls| - 1];
      RunKeepsInv(c, initial, init);
      CallKeepsInv(c, Run(c, initial, init), calls[|calls| - 1]);
      forall k | 0 <= k < |calls|
        ensures NoDirectMove(Run(c, initial, calls[..k]), After(c, Run(c, initial, calls[..k]), calls[k]))
      {
        if k < |calls| - 1 {
          assert init[..k] == calls[..k] && init[k] == calls[k];
        }
      }
    }
  }

  // ---- What each call accepts and writes, row by row ----

  /** An active, approved user of this unit or of none, with an eligible role. */
  predicate Acceptable(c: Config, s: Rows, u: UserId, unit: UnitId) {
    && u in s.users && s.users[u].active && s.users[u].approved
    && (s.users[u].unit == None || s.users[u].unit == Some(unit))
    && exists i :: 0 <= i < |c.roles| && c.roles[i].recruiter && Holds(s.users[u], c.roles[i].id)
  }

  predicate Holds(u: User, role: RoleId) {
    u.roleId == Some(role) || role in u.assignedRoles
  }

  lemma NoObjectionExactly(c: Config, s: Rows, u: UserId, unit: UnitId, current: Option<PodId>)
    requires u in s.users
    ensures Objection(c, s.users[u], unit, current).None?
       <==> Acceptable(c, s, u, unit) && (s.users[u].podId == None || s.users[u].podId == current)
  {
    var row := s.users[u];
    if x: RoleId :| x in Held(row) && IsRecruiterRole(c, x) {
      var i :| 0 <= i < |c.roles| && c.roles[i].id == x && c.roles[i].recruiter;
      assert Holds(row, c.roles[i].id);
    }
    if i :| 0 <= i < |c.roles| && c.roles[i].recruiter && Holds(row, c.roles[i].id) {
      assert c.roles[i].id in Held(row) && IsRecruiterRole(c, c.roles[i].id);
    }
  }

  lemma ValidExactly(c: Config, s: Rows, ids: seq<UserId>, unit: UnitId, current: Option<PodId>)
    ensures Validate(c, s.users, ids, unit, current).None?
       <==> forall u :: u in ids ==>
              Acceptable(c, s, u, unit) && (s.users[u].podId == None || s.users[u].podId == current)
  {
    hide Objection, Held, IsRecruiterRole;
    forall u | u in ids && u in s.users
      ensures Objection(c, s.users[u], unit, current).None?
         <==> Acceptable(c, s, u, unit) && (s.users[u].podId == None || s.users[u].podId == current)
    {
      NoObjectionExactly(c, s, u, unit, current);
    }
  }

  /** A creation is accepted exactly when all of this holds. */
  ghost predicate Creatable(c: Config, s: Rows, dto: CreateDto) {
    && dto.unit.Some? && dto.unit.value in c.units && (c.units[dto.unit.value].Some? || dto.branch.Some?)
    && (forall p :: p in s.pods && s.pods[p].unit == dto.unit ==> !SameName(s.pods[p].name, dto.name))
    && (forall u :: dto.head == Some(u) || u in dto.recruiters ==>
          Acceptable(c, s, u, dto.unit.value) && s.users[u].podId == None)
    && (dto.head.Some? ==> LeadRole(c, dto.unit.value).Ok? && forall p :: p in s.pods ==> s.pods[p].head != dto.head)
  }

  lemma CreateAcceptedExactly(c: Config, s: Rows, id: PodId, dto: CreateDto)
    ensures CreateRows(c, s, id, dto).Ok? <==> Creatable(c, s, dto)
  {
    hide LeadRole, Objection, SameName, HeadAndMembers, Acceptable, Validate, Enrolled;
    MembersListed(dto.head, dto.recruiters);
    if dto.unit.Some? {
      ValidExactly(c, s, HeadAndMembers(dto.head, dto.recruiters), dto.unit.value, None);
    }
  }

  /** An update is accepted exactly when all of this holds; `was` is the row it read before. */
  ghost predicate Updatable(c: Config, s: Rows, id: PodId, dto: UpdateDto, was: Pod) {
    var unit, head := GetOr(dto.unit, was.unit), GetOr(dto.head, was.head);
    && id in s.pods && unit.Some? && (unit == was.unit || unit.value in c.units)
    && ((unit != was.unit && c.units[unit.value].Some?) || GetOr(dto.branch, was.branch).Some?)
    && (dto.name.Some? && dto.name.value != "" && !SameName(dto.name.value, was.name) ==>
          forall p :: p in s.pods && p != id && s.pods[p].unit == unit ==> !SameName(s.pods[p].name, dto.name.value))
    && (head.Some? && head != was.head ==> forall p :: p in s.pods && p != id ==> s.pods[p].head != head)
    && (forall u :: head == Some(u) || (dto.recruiters.Some? && u in dto.recruiters.value) ==>
          Acceptable(c, s, u, unit.value) && (s.users[u].podId == None || s.users[u].podId == Some(id)))
    && (head.Some? && (head != was.head || unit != was.unit) ==> LeadRole(c, unit.value).Ok?)
  }

  lemma UpdateAcceptedExactly(c: Config, s: Rows, id: PodId, dto: UpdateDto, was: Pod)
    ensures UpdateFrom(c, s, id, dto, was).Ok? <==> Updatable(c, s, id, dto, was)
  {
    hide LeadRole, Objection, SameName, HeadAndMembers, Acceptable, Validate, UpdatedUser;
    var unit, head := GetOr(dto.unit, was.unit), GetOr(dto.head, was.head);
    MembersListed(head, GetOr(dto.recruiters, []));
    if unit.Some? {
      ValidExactly(c, s, HeadAndMembers(head, GetOr(dto.recruiters, [])), unit.value, Some(id));
    }
  }

  /** An update that nothing overtakes is accepted exactly when it is for the row as it stands. */
  lemma WholeUpdateAcceptedExactly(c: Config, s: Rows, id: PodId, dto: UpdateDto)
    ensures UpdateRows(c, s, id, dto).Ok? <==> id in s.pods && Updatable(c, s, id, dto, s.pods[id])
    ensures UpdateRows(c, s, id, dto).Ok? ==> UpdateRows(c, s, id, dto) == UpdateFrom(c, s, id, dto, s.pods[id])
  {
    if id in s.pods {
      UpdateAcceptedExactly(c, s, id, dto, s.pods[id]);
    }
    hide UpdateFrom, Updatable;
  }

  /** Each accepted call of a run takes effect, and a refused one changes no row. */
  lemma CallTakesEffect(c: Config, s: Rows, call: Call)
    ensures call.Create? ==>
      if call.id !in s.pods && Creatable(c, s, call.createDto)
      then CreateRows(c, s, call.id, call.createDto) == Ok(After(c, s, call))
      else After(c, s, call) == s
    ensures call.Update? ==>
      if call.id in s.pods && Updatable(c, s, call.id, call.updateDto, s.pods[call.id])
      then UpdateFrom(c, s, call.id, call.updateDto, s.pods[call.id]) == Ok(After(c, s, call))
      else After(c, s, call) == s
    ensures call.Remove? ==>
      if call.id in s.pods && s.pods[call.id].jobs == 0
      then RemoveRows(c, s, call.id) == Ok(After(c, s, call))
      else After(c, s, call) == s
  {
    match call
    case Create(id, dto) => CreateAcceptedExactly(c, s, id, dto);
    case Update(id, dto) => WholeUpdateAcceptedExactly(c, s, id, dto);
    case Remove(id) => RemoveAcceptedExactly(c, s, id);
    hide CreateRows, UpdateFrom, RemoveRows, Creatable, Updatable;
  }

  lemma RemoveAcceptedExactly(c: Config, s: Rows, id: PodId)
    ensures RemoveRows(c, s, id).Ok? <==> id in s.pods && s.pods[id].jobs == 0
  {
  }

  /** The user's lead roles are exactly the primary one, which is the unit's. */
  predicate LeadsUnit(c: Config, now: User, unit: UnitId) {
    now.roleId.Some? && LeadRole(c, unit) == Ok(now.roleId.value) && LeadHeld(c, now) == {now.roleId.value}
  }

  predicate SameRoles(before: User, now: User) {
    now.roleId == before.roleId && now.assignedRoles == before.assignedRoles
  }

  /** What no call changes. */
  predicate SamePerson(c: Config, before: User, now: User) {
    now.active == before.active && now.approved == before.approved && now.unit == before.unit
    && OtherHeld(c, now) == OtherHeld(c, before)
  }

  lemma PromotedUser(c: Config, u: User, unit: UnitId, pod: Option<PodId>)
    requires LeadRole(c, unit).Ok?
    ensures var now := Promote(c, u, LeadRole(c, unit).value).(podId := pod);
      LeadsUnit(c, now, unit) && SamePerson(c, u, now)
    ensures Promote(c, u.(podId := pod), LeadRole(c, unit).value)
      == Promote(c, u, LeadRole(c, unit).value).(podId := pod)
  {
    PromotionRoles(c, u, LeadRole(c, unit).value);
    LeadHeldIgnoresPod(c, Promote(c, u, LeadRole(c, unit).value), pod);
    OtherHeldIgnoresPod(c, Promote(c, u, LeadRole(c, unit).value), pod);
    hide LeadRole, LeadHeld, OtherHeld;
  }

  lemma OtherHeldIgnoresPod(c: Config, u: User, pod: Option<PodId>)
    ensures OtherHeld(c, u.(podId := pod)) == OtherHeld(c, u)
  {
  }

  lemma DemotedUser(c: Config, u: User, pod: Option<PodId>)
    ensures var now := Demote(c, u).(podId := pod); LeadHeld(c, now) == {} && SamePerson(c, u, now)
  {
    DemotionRoles(c, u);
    LeadHeldIgnoresPod(c, Demote(c, u), pod);
    OtherHeldIgnoresPod(c, Demote(c, u), pod);
    hide LeadHeld, OtherHeld;
  }

  /** A creation writes the pod it was given, moves its head and recruiters there, and promotes the head. */
  lemma CreateWritesExactly(c: Config, s: Rows, id: PodId, dto: CreateDto, u: UserId)
    requires CreateRows(c, s, id, dto).Ok? && u in s.users
    ensures var s' := CreateRows(c, s, id, dto).value;
      && s'.users.Keys == s.users.Keys
      && s'.users[u].podId == (if dto.head == Some(u) || u in dto.recruiters then Some(id) else s.users[u].podId)
      && SamePerson(c, s.users[u], s'.users[u])
      && (if dto.head == Some(u) then LeadsUnit(c, s'.users[u], dto.unit.value) else SameRoles(s.users[u], s'.users[u]))
  {
    hide LeadRole, Promote, LeadHeld, OtherHeld, HeadAndMembers, Validate, NameUsed, Leads, LeadsUnit;
    MembersListed(dto.head, dto.recruiters);
    OtherHeldIgnoresPod(c, s.users[u], Some(id));
    if dto.head == Some(u) {
      PromotedUser(c, s.users[u], dto.unit.value, Some(id));
    }
  }

  lemma CreateWritesPod(c: Config, s: Rows, id: PodId, dto: CreateDto)
    requires CreateRows(c, s, id, dto).Ok?
    ensures var s' := CreateRows(c, s, id, dto).value;
      && s'.pods.Keys == s.pods.Keys + {id} && (forall p :: p in s.pods && p != id ==> s'.pods[p] == s.pods[p])
      && s'.pods[id].name == dto.name && s'.pods[id].unit == dto.unit && s'.pods[id].head == dto.head
      && s'.pods[id].jobs == 0 && s'.pods[id].branch.Some?
      && s'.pods[id].branch == if c.units[dto.unit.value].Some? then c.units[dto.unit.value] else dto.branch
  {
    hide Promote, Validate, NameUsed, Leads, LeadRole;
  }

  /** The pod of a user row once the roles are settled, and once the recruiters are listed. */
  lemma RolesChangedPod(c: Config, id: PodId, was: Pod, unit: UnitId, head: Option<UserId>, elsewhere: bool, u: UserId,
      row: User)
    requires head == Some(u) && (head != was.head || Some(unit) != was.unit) ==> LeadRole(c, unit).Ok?
    ensures RolesChanged(c, id, was, unit, head, elsewhere, u, row).podId
      == if head == Some(u) && (head != was.head || Some(unit) != was.unit) then Some(id) else row.podId
  {
    hide Promote, Demote, LeadRole;
    DemoteKeepsPod(c, row);
  }

  lemma EnlistedPod(id: PodId, head: Option<UserId>, recruiters: seq<UserId>, u: UserId, row: User)
    ensures Enlisted(id, head, Some(recruiters), u, row).podId
      == if head == Some(u) || u in recruiters then Some(id) else if row.podId == Some(id) then None else row.podId
  {
    MembersListed(head, recruiters);
    hide HeadAndMembers;
  }

  /**
   With a list of recruiters, the members afterwards are the head and those listed, and everyone else keeps
   the pod unless it was this one. Without one, only a newly promoted head moves.
  */
  lemma UpdateMembersExactly(c: Config, s: Rows, id: PodId, dto: UpdateDto, was: Pod, u: UserId)
    requires UpdateFrom(c, s, id, dto, was).Ok? && u in s.users
    ensures u in UpdateFrom(c, s, id, dto, was).value.users
    ensures var before, now := s.users[u].podId, UpdateFrom(c, s, id, dto, was).value.users[u].podId;
      var unit, head := GetOr(dto.unit, was.unit), GetOr(dto.head, was.head);
      && (dto.recruiters.Some? ==>
            (now == Some(id) <==> head == Some(u) || u in dto.recruiters.value)
            && (now != Some(id) ==> now == if before == Some(id) then None else before))
      && (dto.recruiters.None? ==>
            now == if head == Some(u) && (head != was.head || unit != was.unit) then Some(id) else before)
  {
    UpdatedPods(c, s, id, dto, was);
    UpdateKnowsUnit(c, s, id, dto, was);
    hide UpdateFrom, RolesChanged, Enlisted, Leads, LeadRole, UpdateError;
    var unit, head := GetOr(dto.unit, was.unit), GetOr(dto.head, was.head);
    var row := RolesChanged(c, id, was, unit.value, head, Leads(s.pods, u, Some(id)), u, s.users[u]);
    RolesChangedPod(c, id, was, unit.value, head, Leads(s.pods, u, Some(id)), u, s.users[u]);
    match dto.recruiters
    case Some(list) => EnlistedPod(id, head, list, u, row);
    case None => NobodyEnlisted(id, head, u, row);
  }

  lemma NobodyEnlisted(id: PodId, head: Option<UserId>, u: UserId, row: User)
    ensures Enlisted(id, head, None, u, row) == row
  {
  }

  lemma UpdateKnowsUnit(c: Config, s: Rows, id: PodId, dto: UpdateDto, was: Pod)
    requires UpdateError(c, s, id, dto, was).None?
    ensures var unit, head := GetOr(dto.unit, was.unit), GetOr(dto.head, was.head);
      unit.Some? && (head.Some? && (head != was.head || unit != was.unit) ==> LeadRole(c, unit.value).Ok?)
  {
    hide Validate, NameUsed, Leads, SameName, LeadRole;
  }

  /** The roles of a user row once they are settled. */
  lemma RolesSettled(c: Config, id: PodId, was: Pod, unit: UnitId, head: Option<UserId>, elsewhere: bool, u: UserId,
      row: User)
    requires head == Some(u) && (head != was.head || Some(unit) != was.unit) ==> LeadRole(c, unit).Ok?
    ensures var now := RolesChanged(c, id, was, unit, head, elsewhere, u, row);
      && SamePerson(c, row, now)
      && (if head == Some(u) && (head != was.head || Some(unit) != was.unit) then LeadsUnit(c, now, unit)
          else if was.head == Some(u) && head != was.head && !elsewhere then LeadHeld(c, now) == {}
          else SameRoles(row, now))
  {
    hide Promote, Demote, LeadRole, LeadHeld, OtherHeld, LeadsUnit;
    if head == Some(u) && (head != was.head || Some(unit) != was.unit) {
      PromotedUser(c, row, unit, Some(id));
    }
    DemotedUser(c, row, row.podId);
    DemoteKeepsPod(c, row);
  }

  lemma EnlistedRoles(c: Config, id: PodId, head: Option<UserId>, recruiters: Option<seq<UserId>>, u: UserId, row: User)
    ensures var now := Enlisted(id, head, recruiters, u, row);
      SameRoles(row, now) && SamePerson(c, row, now) && LeadHeld(c, now) == LeadHeld(c, row)
  {
    hide HeadAndMembers, LeadHeld, OtherHeld;
    var now := Enlisted(id, head, recruiters, u, row);
    OtherHeldIgnoresPod(c, row, now.podId);
    LeadHeldIgnoresPod(c, row, now.podId);
    assert now == row.(podId := now.podId);
  }

  /** No other pod has this head. */
  predicate LeadsNoOther(pods: map<PodId, Pod>, id: PodId, u: UserId) {
    forall p :: p in pods && p != id ==> pods[p].head != Some(u)
  }

  /** The head that an update names leads the unit it ends in; the one it replaces leads nothing more. */
  lemma UpdateRolesExactly(c: Config, s: Rows, id: PodId, dto: UpdateDto, was: Pod, u: UserId)
    requires UpdateFrom(c, s, id, dto, was).Ok? && u in s.users
    ensures u in UpdateFrom(c, s, id, dto, was).value.users
    ensures var before, now := s.users[u], UpdateFrom(c, s, id, dto, was).value.users[u];
      var unit, head := GetOr(dto.unit, was.unit), GetOr(dto.head, was.head);
      && SamePerson(c, before, now)
      && (if head == Some(u) && (head != was.head || unit != was.unit) then unit.Some? && LeadsUnit(c, now, unit.value)
          else if was.head == Some(u) && head != was.head && LeadsNoOther(s.pods, id, u) then LeadHeld(c, now) == {}
          else SameRoles(before, now))
  {
    UpdatedPods(c, s, id, dto, was);
    UpdateKnowsUnit(c, s, id, dto, was);
    hide UpdateFrom, RolesChanged, Enlisted, LeadRole, UpdateError, LeadHeld, OtherHeld;
    var unit, head := GetOr(dto.unit, was.unit), GetOr(dto.head, was.head);
    var row := RolesChanged(c, id, was, unit.value, head, Leads(s.pods, u, Some(id)), u, s.users[u]);
    RolesSettled(c, id, was, unit.value, head, Leads(s.pods, u, Some(id)), u, s.users[u]);
    EnlistedRoles(c, id, head, dto.recruiters, u, row);
    assert Leads(s.pods, u, Some(id)) <==> !LeadsNoOther(s.pods, id, u);
  }

  /** Fields that are given are written, the others go back as they were read; the branch follows a new unit. */
  lemma UpdateWritesPod(c: Config, s: Rows, id: PodId, dto: UpdateDto, was: Pod)
    requires UpdateFrom(c, s, id, dto, was).Ok?
    ensures var pods := UpdateFrom(c, s, id, dto, was).value.pods;
      && id in s.pods && pods.Keys == s.pods.Keys && (forall p :: p in s.pods && p != id ==> pods[p] == s.pods[p])
      && pods[id].name == (if dto.name.Some? then dto.name.value else was.name)
      && pods[id].unit == (if dto.unit.Some? then dto.unit.value else was.unit)
      && pods[id].head == (if dto.head.Some? then dto.head.value else was.head)
      && pods[id].jobs == s.pods[id].jobs && pods[id].unit.Some? && pods[id].branch.Some?
      && (if pods[id].unit != was.unit && c.units[pods[id].unit.value].Some?
          then pods[id].branch == c.units[pods[id].unit.value]
          else pods[id].branch == if dto.branch.Some? then dto.branch.value else was.branch)
  {
    hide UpdatedUser, Validate, NameUsed, Leads, SameName, LeadRole;
  }

  /** A removal frees the members, and its head leads nothing more unless heading another pod. */
  lemma RemoveWritesExactly(c: Config, s: Rows, id: PodId, u: UserId)
    requires RemoveRows(c, s, id).Ok? && u in s.users
    ensures var s' := RemoveRows(c, s, id).value;
      && s'.users.Keys == s.users.Keys && s'.pods == s.pods - {id}
      && s'.users[u].podId == (if s.users[u].podId == Some(id) then None else s.users[u].podId)
      && SamePerson(c, s.users[u], s'.users[u])
      && (if s.pods[id].head == Some(u) && LeadsNoOther(s.pods, id, u) then LeadHeld(c, s'.users[u]) == {}
          else SameRoles(s.users[u], s'.users[u]))
  {
    hide Demote, LeadHeld, OtherHeld;
    var pod := if s.users[u].podId == Some(id) then None else s.users[u].podId;
    OtherHeldIgnoresPod(c, s.users[u], None);
    DemotedUser(c, s.users[u], pod);
    DemoteKeepsPod(c, s.users[u]);
  }

  // ---- Calls that overlap ----

  /**
   What callers have read of a pod before an update's transaction, and the creations that have passed
   their checks.
  */
  datatype Overlap = Overlap(rows: Rows, readings: map<nat, (PodId, Pod)>, checked: map<nat, (PodId, CreateDto)>)

  /** A whole call, the read and the transaction of an update, or the checks and the writes of a creation. */
  datatype Step =
    | Whole(call: Call)
    | Read(caller: nat, id: PodId)
    | Write(caller: nat, dto: UpdateDto)
    | CheckNew(caller: nat, id: PodId, createDto: CreateDto)
    | WriteNew(caller: nat)

  function OrUnchanged(result: Result<Rows, Error>, rows: Rows): Rows {
    match result case Ok(s') => s' case Err(_) => rows
  }

  function NextStep(c: Config, o: Overlap, step: Step): Overlap {
    match step
    case Whole(call) => o.(rows := After(c, o.rows, call))
    case Read(caller, id) =>
      if id in o.rows.pods then o.(readings := o.readings[caller := (id, o.rows.pods[id])]) else o
    case Write(caller, dto) =>
      if caller !in o.readings then o
      else
        var (id, was) := o.readings[caller];
        o.(rows := OrUnchanged(UpdateFrom(c, o.rows, id, dto, was), o.rows), readings := o.readings - {caller})
    case CheckNew(caller, id, dto) =>
      if CreateChecks(c, o.rows, dto).None? then o.(checked := o.checked[caller := (id, dto)]) else o
    case WriteNew(caller) =>
      // New pods get identifiers of their own.
      if caller !in o.checked || o.checked[caller].0 in o.rows.pods || o.checked[caller].1.unit.None? then o
      else
        var (id, dto) := o.checked[caller];
        o.(rows := OrUnchanged(CreateWrites(c, o.rows, id, dto), o.rows), checked := o.checked - {caller})
  }

  function Steps(c: Config, initial: Rows, steps: seq<Step>): Overlap {
    if steps == [] then Overlap(initial, map[], map[])
    else NextStep(c, Steps(c, initial, steps[..|steps| - 1]), steps[|steps| - 1])
  }

  /** An update goes through against another head than the one it read, and does not fit it. */
  predicate OvertakenUpdate(c: Config, o: Overlap, caller: nat, dto: UpdateDto) {
    && caller in o.readings && o.readings[caller].0 in o.rows.pods
    && UpdateFrom(c, o.rows, o.readings[caller].0, dto, o.readings[caller].1).Ok?
    && !HeadStillFits(o.rows, o.readings[caller].0, dto, o.readings[caller].1)
  }

  /** The writes of a creation go through although one of its users heads a pod by now. */
  predicate OvertakenCreation(c: Config, o: Overlap, caller: nat) {
    && caller in o.checked && o.checked[caller].0 !in o.rows.pods && o.checked[caller].1.unit.Some?
    && CreateWrites(c, o.rows, o.checked[caller].0, o.checked[caller].1).Ok?
    && TakesAHead(o.rows, o.checked[caller].1)
  }

  predicate Overtaken(c: Config, o: Overlap, step: Step) {
    match step
    case Write(caller, dto) => OvertakenUpdate(c, o, caller, dto)
    case WriteNew(caller) => OvertakenCreation(c, o, caller)
    case Whole(_) => false
    case Read(_, _) => false
    case CheckNew(_, _, _) => false
  }

  predicate CheckedKnown(o: Overlap) {
    forall caller :: caller in o.checked ==> MembersKnown(o.rows, o.checked[caller].1)
  }

  /** No call adds or removes a user. */
  lemma CallKeepsUsers(c: Config, s: Rows, call: Call)
    ensures After(c, s, call).users.Keys == s.users.Keys
  {
    hide Enrolled, UpdatedUser, Demote, CreateChecks, UpdateError, LeadRole;
  }

  lemma StepKeepsUsers(c: Config, o: Overlap, step: Step)
    ensures NextStep(c, o, step).rows.users.Keys == o.rows.users.Keys
  {
    hide After, Enrolled, UpdatedUser, CreateChecks, UpdateError, LeadRole;
    if step.Whole? {
      CallKeepsUsers(c, o.rows, step.call);
    }
  }

  lemma StepKeepsChecked(c: Config, o: Overlap, step: Step)
    requires CheckedKnown(o)
    ensures CheckedKnown(NextStep(c, o, step))
  {
    StepKeepsUsers(c, o, step);
    if step.CheckNew? && CreateChecks(c, o.rows, step.createDto).None? {
      ChecksKnowMembers(c, o.rows, step.createDto);
    }
    hide After, UpdateFrom, CreateWrites, CreateChecks, HeadAndMembers;
  }

  lemma WriteKeepsInvExactly(c: Config, o: Overlap, caller: nat, dto: UpdateDto)
    requires Inv(c, o.rows)
    ensures Inv(c, NextStep(c, o, Write(caller, dto)).rows) <==> !OvertakenUpdate(c, o, caller, dto)
    ensures NoDirectMove(o.rows, NextStep(c, o, Write(caller, dto)).rows)
  {
    hide Inv, UpdateFrom, HeadStillFits;
    if caller in o.readings {
      var (id, was) := o.readings[caller];
      if UpdateFrom(c, o.rows, id, dto, was).Ok? {
        UpdateKeepsInvExactly(c, o.rows, id, dto, was);
        UpdateMovesNobody(c, o.rows, id, dto, was);
      }
    }
  }

  lemma WriteNewKeepsInvExactly(c: Config, o: Overlap, caller: nat)
    requires Inv(c, o.rows) && CheckedKnown(o)
    ensures Inv(c, NextStep(c, o, WriteNew(caller)).rows) <==> !OvertakenCreation(c, o, caller)
  {
    hide Inv, CreateWrites, TakesAHead;
    if caller in o.checked && o.checked[caller].0 !in o.rows.pods && o.checked[caller].1.unit.Some? {
      var (id, dto) := o.checked[caller];
      if CreateWrites(c, o.rows, id, dto).Ok? {
        LateCreateKeepsInvExactly(c, o.rows, id, dto);
      }
    }
  }

  lemma StepKeepsInvExactly(c: Config, o: Overlap, step: Step)
    requires Inv(c, o.rows) && CheckedKnown(o)
    ensures Inv(c, NextStep(c, o, step).rows) <==> !Overtaken(c, o, step)
    ensures !step.WriteNew? ==> NoDirectMove(o.rows, NextStep(c, o, step).rows)
  {
    hide Inv, UpdateFrom, CreateWrites, After, OvertakenUpdate, OvertakenCreation;
    match step
    case Whole(call) => CallKeepsInv(c, o.rows, call);
    case Read(_, _) =>
    case Write(caller, dto) => WriteKeepsInvExactly(c, o, caller, dto);
    case CheckNew(_, _, _) =>
    case WriteNew(caller) => WriteNewKeepsInvExactly(c, o, caller);
  }

  lemma {:induction false} StepsAt(c: Config, initial: Rows, steps: seq<Step>, k: nat)
    requires k < |steps|
    ensures Steps(c, initial, steps[..k + 1]) == NextStep(c, Steps(c, initial, steps[..k]), steps[k])
  {
    hide NextStep;
    assert steps[..k + 1][..k] == steps[..k] && steps[..k + 1][k] == steps[k];
  }

  lemma {:induction false} StepsKnowChecked(c: Config, initial: Rows, steps: seq<Step>, k: nat)
    requires k <= |steps|
    ensures CheckedKnown(Steps(c, initial, steps[..k]))
  {
    hide NextStep, CheckedKnown;
    if k > 0 {
      StepsKnowChecked(c, initial, steps, k - 1);
      StepsAt(c, initial, steps, k - 1);
      StepKeepsChecked(c, Steps(c, initial, steps[..k - 1]), steps[k - 1]);
    } else {
      NothingChecked(c, initial, steps[..k]);
    }
  }

  lemma {:induction false} NothingChecked(c: Config, initial: Rows, steps: seq<Step>)
    requires steps == []
    ensures CheckedKnown(Steps(c, initial, steps))
  {
    hide NextStep;
  }

  lemma {:induction false} SoundUpTo(c: Config, initial: Rows, steps: seq<Step>, k: nat)
    requires Inv(c, initial) && k <= |steps|
    requires forall j :: 0 <= j < k ==> !Overtaken(c, Steps(c, initial, steps[..j]), steps[j])
    ensures Inv(c, Steps(c, initial, steps[..k]).rows)
  {
    hide Inv, Overtaken, NextStep, CheckedKnown;
    if k > 0 {
      SoundUpTo(c, initial, steps, k - 1);
      StepsKnowChecked(c, initial, steps, k - 1);
      StepsAt(c, initial, steps, k - 1);
      StepKeepsInvExactly(c, Steps(c, initial, steps[..k - 1]), steps[k - 1]);
    }
  }

  lemma {:induction false} SoundStepIsInTime(c: Config, initial: Rows, steps: seq<Step>, k: nat)
    requires k < |steps|
    requires Inv(c, Steps(c, initial, steps[..k]).rows) && Inv(c, Steps(c, initial, steps[..k + 1]).rows)
    ensures !Overtaken(c, Steps(c, initial, steps[..k]), steps[k])
  {
    hide Inv, Overtaken, NextStep, CheckedKnown, Steps;
    StepsKnowChecked(c, initial, steps, k);
    StepsAt(c, initial, steps, k);
    StepKeepsInvExactly(c, Steps(c, initial, steps[..k]), steps[k]);
  }

  /** All rows of a run of overlapping calls are sound. */
  predicate AlwaysSound(c: Config, initial: Rows, steps: seq<Step>) {
    forall k :: 0 <= k <= |steps| ==> Inv(c, Steps(c, initial, steps[..k]).rows)
  }

  /** No transaction of a run of overlapping calls comes too late. */
  predicate NeverOvertaken(c: Config, initial: Rows, steps: seq<Step>) {
    forall k :: 0 <= k < |steps| ==> !Overtaken(c, Steps(c, initial, steps[..k]), steps[k])
  }

  /** Overlapping calls keep the invariant throughout exactly when no transaction is overtaken. */
  lemma OverlappingRunKeepsInvExactly(c: Config, initial: Rows, steps: seq<Step>)
    requires Inv(c, initial)
    ensures AlwaysSound(c, initial, steps) <==> NeverOvertaken(c, initial, steps)
  {
    hide Inv, Overtaken, Steps;
    if NeverOvertaken(c, initial, steps) {
      forall k | 0 <= k <= |steps|
        ensures Inv(c, Steps(c, initial, steps[..k]).rows)
      {
        SoundUpTo(c, initial, steps, k);
      }
    }
    if AlwaysSound(c, initial, steps) {
      forall k | 0 <= k < |steps|
        ensures !Overtaken(c, Steps(c, initial, steps[..k]), steps[k])
      {
        SoundStepIsInTime(c, initial, steps, k);
      }
    }
  }

  /**
   Two updates that read a pod before either writes and name different new heads leave the first one
   a Pod Lead of nothing.
  */
  lemma SecondHeadChangeBreaksInv(c: Config, s: Rows, id: PodId, first: UpdateDto, second: UpdateDto)
    requires Inv(c, s) && id in s.pods
    requires first.head.Some? && first.head.value.Some? && second.head.Some? && second.head.value != first.head.value
    requires s.pods[id].head != first.head.value
    requires UpdateFrom(c, s, id, first, s.pods[id]).Ok?
    requires UpdateFrom(c, UpdateFrom(c, s, id, first, s.pods[id]).value, id, second, s.pods[id]).Ok?
    ensures !Inv(c, UpdateFrom(c, UpdateFrom(c, s, id, first, s.pods[id]).value, id, second, s.pods[id]).value)
  {
    hide UpdateFrom, Inv;
    var was := s.pods[id];
    UpdateKeepsInvExactly(c, s, id, first, was);
    UpdatedPods(c, s, id, first, was);
    UpdateKeepsInvExactly(c, UpdateFrom(c, s, id, first, was).value, id, second, was);
  }

  // Two free recruiters and a pod without a head.

  const RECRUITER := User(None, Some(RECRUITER_ROLE), [], true, true, Some(5))
  const HEADLESS := Pod("A", Some(5), Some(3), None, 0)
  const START := Rows(map[1 := RECRUITER, 2 := RECRUITER], map[7 := HEADLESS])

  function NewHead(user: UserId): UpdateDto {
    UpdateDto(None, None, None, Some(Some(user)), None)
  }

  lemma RecruiterIsFree()
    ensures !IsLead(TABLES, 1) && LeadHeld(TABLES, RECRUITER) == {}
    ensures Objection(TABLES, RECRUITER, 5, Some(7)).None?
    ensures LeadRole(TABLES, 5) == Ok(0)
  {
    assert TABLES.roles[1].recruiter && TABLES.roles[1].id == 1;
    assert 1 in Held(RECRUITER) && IsRecruiterRole(TABLES, 1);
    assert UnitLeads(TABLES, 5, 0) == [];
    assert UnitLeads(TABLES, 5, 1) == [];
    assert UnitLeads(TABLES, 5, 2) == [];
  }

  lemma StartIsSound()
    ensures Inv(TABLES, START)
  {
    RecruiterIsFree();
    hide LeadHeld;
  }

  lemma NewHeadIsAccepted(s: Rows, user: UserId, other: UserId)
    requires s.pods.Keys == {7} && user in s.users && s.users[user] == RECRUITER && other in s.users && other != user
    ensures UpdateFrom(TABLES, s, 7, NewHead(user), HEADLESS).Ok?
    ensures UpdateFrom(TABLES, s, 7, NewHead(user), HEADLESS).value.users.Keys == s.users.Keys
    ensures UpdateFrom(TABLES, s, 7, NewHead(user), HEADLESS).value.users[other] == s.users[other]
    ensures UpdateFrom(TABLES, s, 7, NewHead(user), HEADLESS).value.pods.Keys == {7}
  {
    RecruiterIsFree();
    MembersListed(Some(user), []);
    hide LeadRole, Objection, HeadAndMembers, Promote, Demote, LeadHeld;
    assert Validate(TABLES, s.users, HeadAndMembers(Some(user), []), 5, Some(7)).None?;
    assert UpdateError(TABLES, s, 7, NewHead(user), HEADLESS).None?;
  }

  /** Both transactions against the row that both callers read. */
  lemma {:induction false} OverlappingWrites(c: Config, s: Rows, id: PodId, first: UpdateDto, second: UpdateDto)
    requires id in s.pods && UpdateFrom(c, s, id, first, s.pods[id]).Ok?
    requires UpdateFrom(c, UpdateFrom(c, s, id, first, s.pods[id]).value, id, second, s.pods[id]).Ok?
    ensures Steps(c, s, [Read(0, id), Read(1, id), Write(0, first), Write(1, second)]).rows
      == UpdateFrom(c, UpdateFrom(c, s, id, first, s.pods[id]).value, id, second, s.pods[id]).value
  {
    hide UpdateFrom, Steps;
    var steps := [Read(0, id), Read(1, id), Write(0, first), Write(1, second)];
    FourSteps(c, s, steps);
    var read := NextStep(c, NextStep(c, Overlap(s, map[], map[]), steps[0]), steps[1]);
    assert read == Overlap(s, map[0 := (id, s.pods[id]), 1 := (id, s.pods[id])], map[]);
    assert NextStep(c, read, steps[2]) 
      == Overlap(UpdateFrom(c, s, id, first, s.pods[id]).value, map[1 := (id, s.pods[id])], map[]);
  }

  /** Two overlapping head changes from a sound start end in rows that break the invariant. */
  lemma OverlappingHeadChangesBreakInv()
    ensures Inv(TABLES, START)
      && !Inv(TABLES, Steps(TABLES, START, [Read(0, 7), Read(1, 7), Write(0, NewHead(1)), Write(1, NewHead(2))]).rows)
  {
    hide UpdateFrom, Inv, Steps;
    StartIsSound();
    NewHeadIsAccepted(START, 1, 2);
    NewHeadIsAccepted(UpdateFrom(TABLES, START, 7, NewHead(1), HEADLESS).value, 2, 1);
    SecondHeadChangeBreaksInv(TABLES, START, 7, NewHead(1), NewHead(2));
    OverlappingWrites(TABLES, START, 7, NewHead(1), NewHead(2));
  }

  function NewPod(name: string, head: UserId): CreateDto {
    CreateDto(name, Some(5), None, Some(head), [])
  }

  lemma NewPodIsChecked(name: string)
    requires |name| == 2
    ensures CreateChecks(TABLES, START, NewPod(name, 1)).None?
  {
    RecruiterIsFree();
    MembersListed(Some(1), []);
    hide Objection, HeadAndMembers, IsRecruiterRole;
    assert !NameUsed(START.pods, name, 5, None);
    assert Objection(TABLES, RECRUITER, 5, None).None? by {
      ObjectionOfFree(TABLES, RECRUITER, 5, Some(7));
    }
  }

  lemma NewPodIsWritten(s: Rows, id: PodId, name: string)
    ensures CreateWrites(TABLES, s, id, NewPod(name, 1)).Ok?
  {
    RecruiterIsFree();
    hide LeadRole;
  }

  /** A user without a pod is acceptable for any. */
  lemma ObjectionOfFree(c: Config, u: User, unit: UnitId, current: Option<PodId>)
    requires u.podId.None?
    ensures Objection(c, u, unit, None) == Objection(c, u, unit, current)
  {
  }

  lemma BothHeads(c: Config, s: Rows, p: PodId, first: CreateDto, q: PodId, second: CreateDto)
    requires p != q && first.unit.Some? && CreateWrites(c, s, p, first).Ok?
    requires second.unit.Some? && CreateWrites(c, CreateWrites(c, s, p, first).value, q, second).Ok?
    ensures var end := CreateWrites(c, CreateWrites(c, s, p, first).value, q, second).value;
      p in end.pods && q in end.pods && end.pods[p].head == first.head && end.pods[q].head == second.head
  {
  }

  /** Of two creations with one head, both checked before either writes, the second takes the head of the first. */
  lemma TwoCreationsBreakInv()
    ensures var end := Steps(TABLES, START,
        [CheckNew(0, 8, NewPod("B1", 1)), CheckNew(1, 9, NewPod("C1", 1)), WriteNew(0), WriteNew(1)]).rows;
      && Inv(TABLES, START) && !Inv(TABLES, end)
      && 8 in end.pods && 9 in end.pods && end.pods[8].head == Some(1) && end.pods[9].head == Some(1)
  {
    hide CreateWrites, Inv, Steps, CreateChecks;
    StartIsSound();
    NewPodIsChecked("B1");
    NewPodIsChecked("C1");
    NewPodIsWritten(START, 8, "B1");
    NewPodIsWritten(CreateWrites(TABLES, START, 8, NewPod("B1", 1)).value, 9, "C1");
    MembersListed(Some(1), []);
    BothHeads(TABLES, START, 8, NewPod("B1", 1), 9, NewPod("C1", 1));
    SecondCreationBreaksInv(TABLES, START, 8, NewPod("B1", 1), 9, NewPod("C1", 1));
    OverlappingCreations(TABLES, START, 8, NewPod("B1", 1), 9, NewPod("C1", 1));
  }

  /**
   Two creations that name one head, and whose checks both passed: the second one's writes always
   break the invariant.
  */
  lemma SecondCreationBreaksInv(c: Config, s: Rows, p: PodId, first: CreateDto, q: PodId, second: CreateDto)
    requires Inv(c, s) && p !in s.pods && q !in s.pods && p != q
    requires CreateChecks(c, s, first).None? && CreateChecks(c, s, second).None?
    requires first.head.Some? && first.head.value in HeadAndMembers(second.head, second.recruiters)
    requires CreateWrites(c, s, p, first).Ok? && CreateWrites(c, CreateWrites(c, s, p, first).value, q, second).Ok?
    ensures !Inv(c, CreateWrites(c, CreateWrites(c, s, p, first).value, q, second).value)
  {
    ChecksKnowMembers(c, s, first);
    ChecksKnowMembers(c, s, second);
    hide CreateWrites, CreateChecks, HeadAndMembers, Inv;
    var s1 := CreateWrites(c, s, p, first).value;
    WrittenPods(c, s, p, first);
    assert Leads(s1.pods, first.head.value, None);
    assert TakesAHead(s1, second);
    ChecksAllow(c, s, first);
    LateCreateKeepsInvExactly(c, s, p, first);
    LateCreateKeepsInvExactly(c, s1, q, second);
  }

  lemma BothChecks(c: Config, s: Rows, p: PodId, first: CreateDto, q: PodId, second: CreateDto)
    requires CreateChecks(c, s, first).None? && CreateChecks(c, s, second).None?
    ensures NextStep(c, NextStep(c, Overlap(s, map[], map[]), CheckNew(0, p, first)), CheckNew(1, q, second))
      == Overlap(s, map[], map[0 := (p, first), 1 := (q, second)])
  {
    hide CreateChecks;
  }

  lemma BothWrites(c: Config, s: Rows, p: PodId, first: CreateDto, q: PodId, second: CreateDto)
    requires p !in s.pods && q !in s.pods && p != q
    requires first.unit.Some? && CreateWrites(c, s, p, first).Ok?
    requires second.unit.Some? && CreateWrites(c, CreateWrites(c, s, p, first).value, q, second).Ok?
    ensures var checked := Overlap(s, map[], map[0 := (p, first), 1 := (q, second)]);
      NextStep(c, NextStep(c, checked, WriteNew(0)), WriteNew(1)).rows
      == CreateWrites(c, CreateWrites(c, s, p, first).value, q, second).value
  {
    assert q !in CreateWrites(c, s, p, first).value.pods;
    hide CreateWrites;
    assert NextStep(c, Overlap(s, map[], map[0 := (p, first), 1 := (q, second)]), WriteNew(0))
      == Overlap(CreateWrites(c, s, p, first).value, map[], map[1 := (q, second)]);
  }

  /** Both writes after both checks. */
  lemma {:induction false} OverlappingCreations(c: Config, s: Rows, p: PodId, first: CreateDto, q: PodId,
      second: CreateDto)
    requires p !in s.pods && q !in s.pods && p != q
    requires CreateChecks(c, s, first).None? && CreateChecks(c, s, second).None?
    requires first.unit.Some? && CreateWrites(c, s, p, first).Ok?
    requires second.unit.Some? && CreateWrites(c, CreateWrites(c, s, p, first).value, q, second).Ok?
    ensures Steps(c, s, [CheckNew(0, p, first), CheckNew(1, q, second), WriteNew(0), WriteNew(1)]).rows
      == CreateWrites(c, CreateWrites(c, s, p, first).value, q, second).value
  {
    hide CreateWrites, CreateChecks, Steps, NextStep;
    FourSteps(c, s, [CheckNew(0, p, first), CheckNew(1, q, second), WriteNew(0), WriteNew(1)]);
    BothChecks(c, s, p, first, q, second);
    BothWrites(c, s, p, first, q, second);
  }

  lemma {:induction false} FourSteps(c: Config, initial: Rows, steps: seq<Step>)
    requires |steps| == 4
    ensures var second := NextStep(c, NextStep(c, Overlap(initial, map[], map[]), steps[0]), steps[1]);
      Steps(c, initial, steps) == NextStep(c, NextStep(c, second, steps[2]), steps[3])
  {
    hide NextStep;
    assert steps[..3][..2] == steps[..2] && steps[..2][..1] == steps[..1] && steps[..1][..0] == [];
    assert steps[..1][0] == steps[0] && steps[..2][1] == steps[1] && steps[..3][2] == steps[2];
    assert Steps(c, initial, steps[..1]) == NextStep(c, Overlap(initial, map[], map[]), steps[0]);
    assert Steps(c, initial, steps[..2]) == NextStep(c, Steps(c, initial, steps[..1]), steps[1]);
    assert Steps(c, initial, steps[..3]) == NextStep(c, Steps(c, initial, steps[..2]), steps[2]);
  }

  // ---- The service, step by step ----

  class PodsService {
    const c: Config
    var users: map<UserId, User>
    var pods: map<PodId, Pod>

    constructor (c: Config, rows: Rows)
      ensures this.c == c && Contents() == rows
    {
      this.c, users, pods := c, rows.users, rows.pods;
    }

    ghost function Contents(): Rows
      reads this
    {
      Rows(users, pods)
    }

    method ValidateRecruiters(ids: seq<UserId>, unit: UnitId, current: Option<PodId>) returns (error: Option<Error>)
      ensures error == Validate(c, users, ids, unit, current)
    {
      var missing := exists id :: id in ids && id !in users;
      if missing {
        return Some(UserNotFound);
      }
      var i := 0;
      while i < |ids|
        invariant i <= |ids|
        invariant FirstObjection(c, users, ids, unit, current) == FirstObjection(c, users, ids[i..], unit, current)
      {
        var objection := Objection(c, users[ids[i]], unit, current);
        if objection.Some? {
          return objection;
        }
        assert ids[i..][1..] == ids[i + 1..];
        i := i + 1;
      }
      return None;
    }

    method PromoteToPodHead(user: UserId, unit: UnitId) returns (error: Option<Error>)
      requires user in users
      modifies `users
      ensures LeadRole(c, unit).Err? ==> error == Some(LeadRole(c, unit).error) && users == old(users)
      ensures LeadRole(c, unit).Ok? ==>
        error == None && users == old(users)[user := Promote(c, old(users)[user], LeadRole(c, unit).value)]
      ensures error.None? ==>
        users[user].roleId == Some(LeadRole(c, unit).value) && LeadHeld(c, users[user]) == {LeadRole(c, unit).value}
        && OtherHeld(c, users[user]) == OtherHeld(c, old(users)[user])
    {
      var role := LeadRole(c, unit);
      if role.Err? {
        return Some(role.error);
      }
      PromotionRoles(c, users[user], role.value);
      PromotedShape(c, users[user], role.value);
      users := users[user := Promote(c, users[user], role.value)];
      return None;
    }

    method DemoteFromPodHead(user: UserId, except: Option<PodId>)
      modifies `users
      ensures users == if Leads(pods, user, except) || user !in old(users) then old(users)
                       else old(users)[user := Demote(c, old(users)[user])]
      ensures user in old(users) ==>
        LeadHeld(c, users[user]) == (if Leads(pods, user, except) then LeadHeld(c, old(users)[user]) else {})
        && OtherHeld(c, users[user]) == OtherHeld(c, old(users)[user])
    {
      if Leads(pods, user, except) || user !in users {
        return;
      }
      DemotionRoles(c, users[user]);
      users := users[user := Demote(c, users[user])];
    }

    /** `updateMany` setting the pod of the listed users. */
    method AssignAll(ids: seq<UserId>, pod: Option<PodId>)
      modifies `users
      ensures users == map u | u in old(users) :: if u in ids then old(users)[u].(podId := pod) else old(users)[u]
    {
      users := map u | u in users :: if u in ids then users[u].(podId := pod) else users[u];
    }

    /** `updateMany` clearing the pod of its members outside the list. */
    method ReleaseOthers(pod: PodId, ids: seq<UserId>)
      modifies `users
      ensures users == map u | u in old(users) ::
        if old(users)[u].podId == Some(pod) && u !in ids then old(users)[u].(podId := None) else old(users)[u]
    {
      users := map u | u in users ::
        if users[u].podId == Some(pod) && u !in ids then users[u].(podId := None) else users[u];
    }

    /** The checks of `create`, in the order it makes them. */
    method CheckCreate(dto: CreateDto) returns (error: Option<Error>)
      ensures error == CreateChecks(c, Contents(), dto)
    {
      if dto.unit.None? { return Some(NoUnit); }
      var unit := dto.unit.value;
      if unit !in c.units { return Some(UnitNotFound); }
      if CreatedBranch(c, dto).None? { return Some(NoBranch); }
      if NameUsed(pods, dto.name, unit, None) { return Some(NameTaken); }
      error := ValidateRecruiters(HeadAndMembers(dto.head, dto.recruiters), unit, None);
      if error.Some? { return; }
      if dto.head.Some? && Leads(pods, dto.head.value, None) { return Some(LeadsAnotherPod); }
    }

    /** Members join the new pod, then the head is promoted. */
    method Enroll(id: PodId, unit: UnitId, head: Option<UserId>, members: seq<UserId>) returns (error: Option<Error>)
      requires head.Some? ==> head.value in users
      modifies `users
      ensures error == if head.Some? && LeadRole(c, unit).Err? then Some(LeadRole(c, unit).error) else None
      ensures error.None? ==>
        (users == map u | u in old(users) :: Enrolled(c, id, unit, head, members, u, old(users)[u]))
    {
      hide Promote, LeadRole;
      AssignAll(members, Some(id));
      if head.Some? {
        error := PromoteToPodHead(head.value, unit);
        return;
      }
      return None;
    }

    /** The writes of a creation: the pod, its members, its head's role. */
    method WriteCreate(id: PodId, dto: CreateDto) returns (error: Option<Error>)
      requires MembersKnown(Contents(), dto) && id !in pods
      modifies this
      ensures CreateWrites(c, old(Contents()), id, dto).Ok? ==>
        error == None && Contents() == CreateWrites(c, old(Contents()), id, dto).value
      ensures CreateWrites(c, old(Contents()), id, dto).Err? ==>
        error == Some(CreateWrites(c, old(Contents()), id, dto).error) && Contents() == old(Contents())
    {
      MembersListed(dto.head, dto.recruiters);
      hide Enrolled, LeadRole, HeadAndMembers;
      var users0, pods0 := users, pods;
      var members := HeadAndMembers(dto.head, dto.recruiters);
      pods := pods[id := Pod(dto.name, dto.unit, CreatedBranch(c, dto), dto.head, 0)];
      error := Enroll(id, dto.unit.value, dto.head, members);
      if error.Some? {
        users, pods := users0, pods0;
      }
    }

    method CreatePod(id: PodId, dto: CreateDto) returns (error: Option<Error>)
      requires id !in pods
      modifies this
      ensures CreateRows(c, old(Contents()), id, dto).Ok? ==>
        error == None && Contents() == CreateRows(c, old(Contents()), id, dto).value
      ensures CreateRows(c, old(Contents()), id, dto).Err? ==>
        error == Some(CreateRows(c, old(Contents()), id, dto).error) && Contents() == old(Contents())
    {
      hide CreateChecks, CreateWrites;
      error := CheckCreate(dto);
      if error.Some? { return; }
      ChecksKnowMembers(c, Contents(), dto);
      error := WriteCreate(id, dto);
    }

    method RemovePod(id: PodId) returns (error: Option<Error>)
      modifies this
      ensures RemoveRows(c, old(Contents()), id).Ok? ==>
        error == None && Contents() == RemoveRows(c, old(Contents()), id).value
      ensures RemoveRows(c, old(Contents()), id).Err? ==>
        error == Some(RemoveRows(c, old(Contents()), id).error) && Contents() == old(Contents())
    {
      hide Demote, Leads, LeadHeld, OtherHeld;
      if id !in pods { return Some(PodNotFound); }
      if pods[id].jobs > 0 { return Some(HasJobs); }
      ghost var users0 := users;
      if pods[id].head.Some? {
        DemoteFromPodHead(pods[id].head.value, Some(id));
      }
      ReleaseOthers(id, []);
      ghost var rows := RemoveRows(c, Rows(users0, pods), id);
      pods := pods - {id};
      assert users == rows.value.users;
      return None;
    }

    /** The checks of `update`, in the order it makes them. */
    method CheckUpdate(id: PodId, dto: UpdateDto, was: Pod) returns (error: Option<Error>)
      ensures error == UpdateChecks(c, Contents(), id, dto, was)
    {
      var unit := GetOr(dto.unit, was.unit);
      if unit.None? { return Some(NoUnit); }
      if unit != was.unit && unit.value !in c.units { return Some(UnitNotFound); }
      if UpdatedBranch(c, was, dto).None? { return Some(NoBranch); }
      if dto.name.Some? && dto.name.value != "" && !SameName(dto.name.value, was.name) {
        if NameUsed(pods, dto.name.value, unit.value, Some(id)) { return Some(NameTaken); }
      }
      var head := GetOr(dto.head, was.head);
      if dto.head.Some? && dto.head.value.Some? && dto.head.value != was.head {
        if Leads(pods, dto.head.value.value, Some(id)) { return Some(LeadsAnotherPod); }
      }
      error := ValidateRecruiters(HeadAndMembers(head, GetOr(dto.recruiters, [])), unit.value, Some(id));
    }

    /** The role changes of `update`: the old head steps down before the new one steps up. */
    method ChangeHead(id: PodId, was: Pod, unit: UnitId, head: Option<UserId>) returns (error: Option<Error>)
      requires id in pods && (head.Some? ==> head.value in users)
      modifies `users
      ensures error == if head.Some? && (head != was.head || Some(unit) != was.unit) && LeadRole(c, unit).Err?
                       then Some(LeadRole(c, unit).error) else None
      ensures error == None ==> (users ==
        map u | u in old(users) :: RolesChanged(c, id, was, unit, head, Leads(pods, u, Some(id)), u, old(users)[u]))
    {
      hide Promote, Demote, LeadRole, Leads;
      var leadChanged := head != was.head;
      if leadChanged && was.head.Some? {
        DemoteFromPodHead(was.head.value, Some(id));
      }
      if head.Some? && (leadChanged || Some(unit) != was.unit) {
        error := PromoteToPodHead(head.value, unit);
        if error.Some? {
          return;
        }
        users := users[head.value := users[head.value].(podId := Some(id))];
      }
      return None;
    }

    /** The writes of `update`, or the error that undoes them. */
    method WriteUpdate(id: PodId, dto: UpdateDto, was: Pod, unit: UnitId, head: Option<UserId>)
        returns (error: Option<Error>)
      requires id in pods && (head.Some? ==> head.value in users)
      modifies `users
      ensures error == if head.Some? && (head != was.head || Some(unit) != was.unit) && LeadRole(c, unit).Err?
                       then Some(LeadRole(c, unit).error) else None
      ensures error.None? ==> (users == map u | u in old(users) ::
        Enlisted(id, head, dto.recruiters, u,
          RolesChanged(c, id, was, unit, head, Leads(pods, u, Some(id)), u, old(users)[u])))
    {
      hide RolesChanged, HeadAndMembers, LeadRole, Leads;
      error := ChangeHead(id, was, unit, head);
      if error.None? && dto.recruiters.Some? {
        var members := HeadAndMembers(head, dto.recruiters.value);
        ReleaseOthers(id, members);
        AssignAll(members, Some(id));
      }
    }

    /** The transaction of `update`, for the pod row read before it. */
    method CommitUpdate(id: PodId, dto: UpdateDto, was: Pod) returns (error: Option<Error>)
      modifies this
      ensures UpdateFrom(c, old(Contents()), id, dto, was).Ok? ==>
        error == None && Contents() == UpdateFrom(c, old(Contents()), id, dto, was).value
      ensures UpdateFrom(c, old(Contents()), id, dto, was).Err? ==>
        error == Some(UpdateFrom(c, old(Contents()), id, dto, was).error) && Contents() == old(Contents())
    {
      hide UpdateChecks, RolesChanged, Enlisted, LeadRole, Leads, Updated, UpdatedBranch;
      error := CheckUpdate(id, dto, was);
      if error.Some? { return; }
      if id !in pods { return Some(PodNotFound); }
      var users0, pods0 := users, pods;
      var head := GetOr(dto.head, was.head);
      if head.Some? {
        ChecksKnowHead(c, Contents(), id, dto, was);
      }
      ChecksKnowUnit(c, Contents(), id, dto, was);
      var unit := GetOr(dto.unit, was.unit).value;
      pods := pods[id := Updated(pods[id], was, dto, UpdatedBranch(c, was, dto))];
      SameLeadsElsewhere(pods0, id, pods[id]);
      error := WriteUpdate(id, dto, was, unit, head);
      if error.Some? {
        users, pods := users0, pods0;
      }
    }

    method UpdatePod(id: PodId, dto: UpdateDto) returns (error: Option<Error>)
      modifies this
      ensures UpdateRows(c, old(Contents()), id, dto).Ok? ==>
        error == None && Contents() == UpdateRows(c, old(Contents()), id, dto).value
      ensures UpdateRows(c, old(Contents()), id, dto).Err? ==>
        error == Some(UpdateRows(c, old(Contents()), id, dto).error) && Contents() == old(Contents())
    {
      if id !in pods { return Some(PodNotFound); }
      hide UpdateFrom;
      error := CommitUpdate(id, dto, pods[id]);
    }
  }
}
