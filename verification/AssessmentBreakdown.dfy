/**
 What the parts of an assessment and its score are, said without the functions that compute them:
 shares of evident skills as sizes of sets, rounding as the nearest integer, and the score as the
 weighted mean of the parts that could be measured.
 */
module AssessmentBreakdown {
  import opened Prelude
  import opened SkillIndex
  import opened AssessmentScore

  // ---- Rounding ----

  /** r is the integer nearest to a / b, the greater one of two. */
  predicate Nearest(r: int, a: int, b: int) {
    2 * r * b <= 2 * a + b < 2 * (r + 1) * b
  }

  lemma Between(x: nat, d: nat)
    requires d > 0
    ensures d * (x / d) <= x < d * (x / d) + d
  {
  }

  lemma TwiceTimes(r: int, b: int)
    ensures 2 * r * b == (2 * b) * r && 2 * (r + 1) * b == (2 * b) * r + 2 * b
  {
    assert r * b == b * r && (r + 1) * b == r * b + b;
  }

  lemma RoundRatioIsNearest(a: nat, b: nat)
    requires b > 0
    ensures Nearest(RoundRatio(a, b), a, b)
  {
    var x, d := 2 * a + b, 2 * b;
    Between(x, d);
    TwiceTimes(x / d, b);
  }

  // ---- Shares of skills ----

  /** The positions of the skills that the text mentions or the candidate lists. */
  function EvidentAt(dictionary: seq<Skill>, values: seq<string>, listed: set<Identity>, mentioned: string -> bool)
    : set<int>
  {
    set i | 0 <= i < |values| && (mentioned(values[i]) || Resolve(dictionary, values[i]) in listed)
  }

  lemma {:induction false} FoundAreEvident(dictionary: seq<Skill>, values: seq<string>, listed: set<Identity>,
      mentioned: string -> bool)
    ensures CountFound(dictionary, values, listed, mentioned) == |EvidentAt(dictionary, values, listed, mentioned)|
  {
    hide Resolve;
    if values != [] {
      var n := |values| - 1;
      var init, last := values[..n], values[n];
      FoundAreEvident(dictionary, init, listed, mentioned);
      var before := EvidentAt(dictionary, init, listed, mentioned);
      var now := EvidentAt(dictionary, values, listed, mentioned);
      assert forall i :: i in before <==> i in now && i != n;
      if n in now {
        assert now == before + {n};
      } else {
        assert now == before;
      }
    }
  }

  /** What the candidate lists, by identity. */
  function ListedBy(dictionary: seq<Skill>, c: Candidate): set<Identity> {
    set v | v in Unique(c.skills + c.parsed) :: Resolve(dictionary, v)
  }

  predicate SomethingKnown(c: Candidate) {
    c.hasText || Unique(c.skills + c.parsed) != []
  }

  /** The score of a kind of part: none when the part is missing or could not be measured. */
  function ScoreOf(parts: seq<Part>, kind: Kind): Option<int> {
    if parts == [] then None
    else if parts[0].kind == kind then parts[0].score
    else ScoreOf(parts[1..], kind)
  }

  predicate HasKind(parts: seq<Part>, kind: Kind) {
    exists i :: 0 <= i < |parts| && parts[i].kind == kind
  }

  /** At most one part, of this kind and weight. */
  predicate Group(a: seq<Part>, kind: Kind, weight: nat) {
    a == [] || (|a| == 1 && a[0].kind == kind && a[0].weight == weight)
  }

  lemma {:induction false} ScoreOfConcat(a: seq<Part>, b: seq<Part>, kind: Kind)
    requires |a| <= 1
    ensures ScoreOf(a + b, kind) == if a != [] && a[0].kind == kind then a[0].score else ScoreOf(b, kind)
  {
    if a != [] {
      assert (a + b)[1..] == b;
    } else {
      assert a + b == b;
    }
  }

  /** The five groups that a breakdown consists of. */
  datatype Groups = Groups(
    required: seq<Part>, additional: seq<Part>, experience: seq<Part>, location: seq<Part>, notice: seq<Part>)
  {
    predicate Valid() {
      && |required| == 1 && Group(required, Required, 45) && Group(additional, Additional, 10)
      && Group(experience, Experience, 15) && Group(location, Location, 15) && Group(notice, Notice, 10)
    }

    function All(): seq<Part> {
      required + (additional + (experience + (location + notice)))
    }
  }

  function GroupsOf(dictionary: seq<Skill>, primary: seq<string>, secondary: seq<string>, listed: set<Identity>,
      mentioned: string -> bool, known: bool, f: Facts): Groups
  {
    Groups(
      if primary == [] then [Part(Required, 45, None)]
      else SkillPart(Required, 45, CountFound(dictionary, primary, listed, mentioned), |primary|, known),
      SkillPart(Additional, 10, CountFound(dictionary, secondary, listed, mentioned), |secondary|, known),
      ExperiencePart(f), LocationPart(f), NoticePart(f))
  }

  lemma OtherGroups(f: Facts)
    ensures Group(ExperiencePart(f), Experience, 15) && Group(LocationPart(f), Location, 15)
    ensures Group(NoticePart(f), Notice, 10)
  {
    hide Share, Round;
  }

  lemma GroupsAreValid(dictionary: seq<Skill>, primary: seq<string>, secondary: seq<string>, listed: set<Identity>,
      mentioned: string -> bool, known: bool, f: Facts)
    ensures GroupsOf(dictionary, primary, secondary, listed, mentioned, known, f).Valid()
  {
    OtherGroups(f);
    hide CountFound, ExperiencePart, LocationPart, NoticePart, RoundRatio;
  }

  lemma Reassociate(a: seq<Part>, b: seq<Part>, c: seq<Part>, d: seq<Part>, e: seq<Part>)
    ensures [] + a == a && a + [] == a
    ensures a + b + (c + d + e) == a + (b + (c + (d + e)))
  {
  }

  lemma PartsAreGroups(dictionary: seq<Skill>, primary: seq<string>, secondary: seq<string>, listed: set<Identity>,
      mentioned: string -> bool, known: bool, f: Facts)
    ensures Parts(dictionary, primary, secondary, listed, mentioned, known, f)
      == GroupsOf(dictionary, primary, secondary, listed, mentioned, known, f).All()
  {
    hide CountFound, ExperiencePart, LocationPart, NoticePart, RoundRatio;
    var g := GroupsOf(dictionary, primary, secondary, listed, mentioned, known, f);
    Reassociate(g.required, g.additional, g.experience, g.location, g.notice);
  }

  /** The groups of a whole assessment. */
  function GroupsFor(dictionary: seq<Skill>, required: seq<string>, additional: seq<string>, c: Candidate,
      mentioned: string -> bool, f: Facts): Groups
  {
    GroupsOf(dictionary, Primary(dictionary, required), Secondary(dictionary, required, additional),
      ListedBy(dictionary, c), mentioned, SomethingKnown(c), f)
  }

  lemma BreakdownIsGroups(dictionary: seq<Skill>, required: seq<string>, additional: seq<string>, c: Candidate,
      mentioned: string -> bool, f: Facts)
    ensures GroupsFor(dictionary, required, additional, c, mentioned, f).Valid()
    ensures Breakdown(dictionary, required, additional, c, mentioned, f)
      == GroupsFor(dictionary, required, additional, c, mentioned, f).All()
  {
    hide Primary, Secondary, Unique, Resolve, Parts, GroupsOf, Groups.Valid, Groups.All;
    var primary, secondary := Primary(dictionary, required), Secondary(dictionary, required, additional);
    ListedIsSkillSet(dictionary, c);
    PartsAreGroups(dictionary, primary, secondary, ListedBy(dictionary, c), mentioned, SomethingKnown(c), f);
    GroupsAreValid(dictionary, primary, secondary, ListedBy(dictionary, c), mentioned, SomethingKnown(c), f);
  }

  lemma ListedIsSkillSet(dictionary: seq<Skill>, c: Candidate)
    ensures ListedBy(dictionary, c) == SkillSet(dictionary, AllSkills(c))
  {
    hide Unique, Resolve;
  }

  /** What one group says about a kind. */
  function Said(a: seq<Part>, kind: Kind, rest: Option<int>): Option<int> {
    if a != [] && a[0].kind == kind then a[0].score else rest
  }

  lemma {:induction false} ScoreOfGroups(g: Groups, kind: Kind)
    requires g.Valid()
    ensures ScoreOf(g.All(), kind) == Said(g.required, kind, Said(g.additional, kind, Said(g.experience, kind,
      Said(g.location, kind, Said(g.notice, kind, None)))))
  {
    hide ScoreOf;
    ScoreOfConcat(g.required, g.additional + (g.experience + (g.location + g.notice)), kind);
    ScoreOfConcat(g.additional, g.experience + (g.location + g.notice), kind);
    ScoreOfConcat(g.experience, g.location + g.notice, kind);
    ScoreOfConcat(g.location, g.notice, kind);
    ScoreOfConcat(g.notice, [], kind);
    ScoreOfNone(kind);
    assert g.notice + [] == g.notice;
  }

  lemma {:induction false} ScoreOfNone(kind: Kind)
    ensures ScoreOf([], kind) == None
  {
  }

  // ---- The score of each kind of part ----

  /** A skill group is measured when it has skills and there is something to look at, by its share of evident ones. */
  predicate IsShare(score: Option<int>, dictionary: seq<Skill>, values: seq<string>, c: Candidate,
      mentioned: string -> bool)
  {
    && (score.Some? <==> values != [] && (c.hasText || Unique(c.skills + c.parsed) != []))
    && (score.Some? ==>
          Nearest(score.value, 100 * |EvidentAt(dictionary, values, ListedBy(dictionary, c), mentioned)|, |values|))
  }

  lemma {:induction false} SkillPartIsShare(kind: Kind, weight: nat, dictionary: seq<Skill>, values: seq<string>,
      c: Candidate, mentioned: string -> bool)
    ensures CountFound(dictionary, values, ListedBy(dictionary, c), mentioned) <= |values|
    ensures var part := SkillPart(kind, weight, CountFound(dictionary, values, ListedBy(dictionary, c), mentioned),
        |values|, SomethingKnown(c));
      && (part == [] <==> values == [])
      && IsShare(if part == [] then None else part[0].score, dictionary, values, c, mentioned)
  {
    hide CountFound, EvidentAt, Unique, ListedBy, RoundRatio, Nearest;
    FoundAreEvident(dictionary, values, ListedBy(dictionary, c), mentioned);
    if values != [] {
      RoundRatioIsNearest(100 * CountFound(dictionary, values, ListedBy(dictionary, c), mentioned), |values|);
    }
  }

  /** The skill parts score the share of their skills that the text mentions or the candidate lists. */
  lemma SkillScores(dictionary: seq<Skill>, required: seq<string>, additional: seq<string>, c: Candidate,
      mentioned: string -> bool, f: Facts)
    ensures var parts := Assess(dictionary, required, additional, c, mentioned, f).breakdown;
      && IsShare(ScoreOf(parts, Required), dictionary, Primary(dictionary, required), c, mentioned)
      && IsShare(ScoreOf(parts, Additional), dictionary, Secondary(dictionary, required, additional), c, mentioned)
  {
    BreakdownIsGroups(dictionary, required, additional, c, mentioned, f);
    var g := GroupsFor(dictionary, required, additional, c, mentioned, f);
    ScoreOfGroups(g, Required);
    ScoreOfGroups(g, Additional);
    SkillPartIsShare(Required, 45, dictionary, Primary(dictionary, required), c, mentioned);
    SkillPartIsShare(Additional, 10, dictionary, Secondary(dictionary, required, additional), c, mentioned);
    AssessBreakdown(dictionary, required, additional, c, mentioned, f);
    hide Assess, Breakdown, Primary, Secondary, Unique, ListedBy, SomethingKnown, ScoreOf, Groups.All, SkillPart;
    hide CountFound, ExperiencePart, LocationPart, NoticePart;
  }

  lemma AssessBreakdown(dictionary: seq<Skill>, required: seq<string>, additional: seq<string>, c: Candidate,
      mentioned: string -> bool, f: Facts)
    ensures var r := Assess(dictionary, required, additional, c, mentioned, f);
      && r.breakdown == Breakdown(dictionary, required, additional, c, mentioned, f)
      && r.score == Score(r.breakdown) && r.coverage == Coverage(r.breakdown)
  {
    hide Breakdown, Score, Coverage;
  }

  /** r is the integer nearest to x, the greater one of two. */
  predicate NearestTo(r: int, x: real) {
    r as real - 0.5 <= x < r as real + 0.5
  }

  /** Above the minimum counts in full, below it by its share; without usable years it is not measured. */
  predicate IsExperience(score: Option<int>, f: Facts) {
    if (f.expMin.None? && f.expMax.None?) || f.years.None? || f.years.value < 0.0 then score == None
    else if f.expMin.None? || f.years.value >= f.expMin.value then score == Some(100)
    else score.Some? && NearestTo(score.value, f.years.value / f.expMin.value * 100.0)
  }

  /** Remote-only for a job on site scores nothing, remote work or the same city in full, a wish for the city 90. */
  predicate IsLocation(score: Option<int>, f: Facts) {
    if !f.placed then score == None
    else if f.preference == Some(RemoteOnly) && !f.jobRemote then score == Some(0)
    else if f.local || (f.jobRemote && f.preference != Some(Specific)) then score == Some(100)
    else if f.preferred then score == Some(90)
    else score == None
  }

  /** A notice period within the longest accepted one scores in full, a longer one nothing. */
  predicate IsNotice(score: Option<int>, f: Facts) {
    if f.asksNotice && f.maximum.Some? && f.days.Some? && 0 <= f.days.value
    then score == Some(if f.days.value <= f.maximum.value then 100 else 0)
    else score == None
  }

  /** The score in a group, if it has one. */
  function Only(a: seq<Part>): Option<int> {
    if a == [] then None else a[0].score
  }

  lemma ExperienceScored(f: Facts)
    ensures IsExperience(Only(ExperiencePart(f)), f) && (ExperiencePart(f) == [] <==> f.expMin.None? && f.expMax.None?)
  {
    if f.years.Some? && f.expMin.Some? && 0.0 <= f.years.value < f.expMin.value {
      ShareIsNearest(f.years.value, f.expMin.value);
    }
    hide Share, Round, NearestTo;
  }

  lemma OtherPartScores(f: Facts)
    ensures IsExperience(Only(ExperiencePart(f)), f) && (ExperiencePart(f) == [] <==> f.expMin.None? && f.expMax.None?)
    ensures IsLocation(Only(LocationPart(f)), f) && (LocationPart(f) == [] <==> !f.placed)
    ensures IsNotice(Only(NoticePart(f)), f) && (NoticePart(f) == [] <==> !f.asksNotice)
  {
    ExperienceScored(f);
    assert f.preference.Some? ==>
      f.preference.value.Specific? || f.preference.value.RemoteOnly? || f.preference.value.RemoteOrLocations?;
    hide IsExperience, ExperiencePart;
  }

  lemma ShareIsNearest(years: real, expMin: real)
    requires 0.0 <= years < expMin
    ensures NearestTo(Round(Share(years, expMin)), years / expMin * 100.0)
  {
    DivideSmaller(years, expMin);
    assert Share(years, expMin) == years / expMin * 100.0;
  }

  lemma OtherScores(dictionary: seq<Skill>, required: seq<string>, additional: seq<string>, c: Candidate,
      mentioned: string -> bool, f: Facts)
    ensures var parts := Assess(dictionary, required, additional, c, mentioned, f).breakdown;
      && IsExperience(ScoreOf(parts, Experience), f)
      && IsLocation(ScoreOf(parts, Location), f)
      && IsNotice(ScoreOf(parts, Notice), f)
  {
    BreakdownIsGroups(dictionary, required, additional, c, mentioned, f);
    var g := GroupsFor(dictionary, required, additional, c, mentioned, f);
    ScoreOfGroups(g, Experience);
    ScoreOfGroups(g, Location);
    ScoreOfGroups(g, Notice);
    OtherPartScores(f);
    AssessBreakdown(dictionary, required, additional, c, mentioned, f);
    hide Assess, Breakdown, Primary, Secondary, ListedBy, SomethingKnown, ScoreOf, Groups.All, SkillPart, CountFound;
    hide ExperiencePart, LocationPart, NoticePart, IsExperience, IsLocation, IsNotice;
  }

  // ---- The mean ----

  /** What a part adds to the sum, and to the weight, of the measured ones. */
  function Term(score: Option<int>, weight: nat): int {
    if score.Some? then weight * score.value else 0
  }

  function Size(score: Option<int>, weight: nat): nat {
    if score.Some? then weight else 0
  }

  lemma {:induction false} SumsOfGroup(a: seq<Part>, b: seq<Part>, kind: Kind, weight: nat)
    requires Group(a, kind, weight) && InRange(a + b)
    ensures InRange(b) && WeightedSum(a + b) == Term(Only(a), weight) + WeightedSum(b)
    ensures MeasuredWeight(a + b) == Size(Only(a), weight) + MeasuredWeight(b)
    ensures Weight(a + b) == (if a == [] then 0 else weight) + Weight(b)
  {
    if a != [] {
      assert (a + b)[1..] == b;
      RestInRange(a + b);
    } else {
      assert a + b == b;
    }
  }

  /** The sums over five groups with these scores. */
  function SumOf(required: Option<int>, additional: Option<int>, experience: Option<int>, location: Option<int>,
      notice: Option<int>): int {
    Term(required, 45) + Term(additional, 10) + Term(experience, 15) + Term(location, 15) + Term(notice, 10)
  }

  function SizeOf(required: Option<int>, additional: Option<int>, experience: Option<int>, location: Option<int>,
      notice: Option<int>): nat {
    Size(required, 45) + Size(additional, 10) + Size(experience, 15) + Size(location, 15) + Size(notice, 10)
  }

  lemma SumsOfNone()
    ensures InRange([]) && WeightedSum([]) == 0 && MeasuredWeight([]) == 0 && Weight([]) == 0
  {
  }

  lemma SumsOfGroups(g: Groups)
    requires g.Valid() && InRange(g.All())
    ensures WeightedSum(g.All())
      == SumOf(Only(g.required), Only(g.additional), Only(g.experience), Only(g.location), Only(g.notice))
    ensures MeasuredWeight(g.All())
      == SizeOf(Only(g.required), Only(g.additional), Only(g.experience), Only(g.location), Only(g.notice))
    ensures Weight(g.All()) == 45 + (if g.additional == [] then 0 else 10) + (if g.experience == [] then 0 else 15)
      + (if g.location == [] then 0 else 15) + (if g.notice == [] then 0 else 10)
  {
    hide WeightedSum, MeasuredWeight, Weight, InRange, Term, Size, Only;
    SumsOfGroup(g.required, g.additional + (g.experience + (g.location + g.notice)), Required, 45);
    SumsOfGroup(g.additional, g.experience + (g.location + g.notice), Additional, 10);
    SumsOfGroup(g.experience, g.location + g.notice, Experience, 15);
    SumsOfGroup(g.location, g.notice, Location, 15);
    assert g.notice + [] == g.notice;
    SumsOfGroup(g.notice, [], Notice, 10);
    SumsOfNone();
  }

  lemma RequiredFirst(g: Groups)
    requires g.Valid()
    ensures RequiredUnscored(g.All()) <==> g.required[0].score.None?
  {
    assert g.All()[0] == g.required[0];
  }

  /** The scores by kind are those of the groups. */
  lemma ScoresByKind(g: Groups)
    requires g.Valid()
    ensures ScoreOf(g.All(), Required) == Only(g.required) && ScoreOf(g.All(), Additional) == Only(g.additional)
    ensures ScoreOf(g.All(), Experience) == Only(g.experience) && ScoreOf(g.All(), Location) == Only(g.location)
    ensures ScoreOf(g.All(), Notice) == Only(g.notice)
  {
    ScoreOfGroups(g, Required);
    ScoreOfGroups(g, Additional);
    ScoreOfGroups(g, Experience);
    ScoreOfGroups(g, Location);
    ScoreOfGroups(g, Notice);
    hide ScoreOf, Groups.All;
  }

  lemma {:induction false} ScoreIsNearest(parts: seq<Part>)
    requires InRange(parts)
    ensures Score(parts).Some? <==> !RequiredUnscored(parts) && MeasuredWeight(parts) > 0
    ensures Score(parts).Some? ==> Nearest(Score(parts).value, WeightedSum(parts), MeasuredWeight(parts))
    ensures Weight(parts) > 0 ==> Nearest(Coverage(parts), 100 * MeasuredWeight(parts), Weight(parts))
  {
    hide RequiredUnscored, RoundRatio, Nearest;
    if MeasuredWeight(parts) > 0 {
      RoundRatioIsNearest(WeightedSum(parts), MeasuredWeight(parts));
    }
    if Weight(parts) > 0 {
      RoundRatioIsNearest(100 * MeasuredWeight(parts), Weight(parts));
    }
  }

  /**
   There is a score exactly when the required skills could be measured. It is the mean of the measured
   parts, weighted 45, 10, 15, 15 and 10; the coverage is the measured share of the weights that apply.
  */
  lemma ScoreIsMean(dictionary: seq<Skill>, required: seq<string>, additional: seq<string>, c: Candidate,
      mentioned: string -> bool, f: Facts)
    ensures var r := Assess(dictionary, required, additional, c, mentioned, f);
      var req, add := ScoreOf(r.breakdown, Required), ScoreOf(r.breakdown, Additional);
      var exp, loc, notice :=
        ScoreOf(r.breakdown, Experience), ScoreOf(r.breakdown, Location), ScoreOf(r.breakdown, Notice);
      var possible := 45 + (if Secondary(dictionary, required, additional) == [] then 0 else 10)
        + (if f.expMin.None? && f.expMax.None? then 0 else 15) + (if f.placed then 15 else 0)
        + (if f.asksNotice then 10 else 0);
      && (r.score.Some? <==> req.Some?)
      && (r.score.Some? ==>
            Nearest(r.score.value, SumOf(req, add, exp, loc, notice), SizeOf(req, add, exp, loc, notice)))
      && Nearest(r.coverage, 100 * SizeOf(req, add, exp, loc, notice), possible)
  {
    BreakdownIsGroups(dictionary, required, additional, c, mentioned, f);
    AssessBreakdown(dictionary, required, additional, c, mentioned, f);
    var g := GroupsFor(dictionary, required, additional, c, mentioned, f);
    AdditionalGroup(dictionary, required, additional, c, mentioned, f);
    OtherPartScores(f);
    hide Breakdown, Primary, Secondary, ListedBy, SomethingKnown, ScoreOf, Groups.All, GroupsOf, Score, Coverage;
    hide InRange, Nearest, WeightedSum, MeasuredWeight, Weight, RequiredUnscored, Assess;
    ScoresByKind(g);
    AllInRange(dictionary, required, additional, c, mentioned, f);
    SumsOfGroups(g);
    RequiredFirst(g);
    ScoreIsNearest(g.All());
  }

  lemma AllInRange(dictionary: seq<Skill>, required: seq<string>, additional: seq<string>, c: Candidate,
      mentioned: string -> bool, f: Facts)
    ensures InRange(Assess(dictionary, required, additional, c, mentioned, f).breakdown)
  {
  }

  lemma AdditionalGroup(dictionary: seq<Skill>, required: seq<string>, additional: seq<string>, c: Candidate,
      mentioned: string -> bool, f: Facts)
    ensures var g := GroupsFor(dictionary, required, additional, c, mentioned, f);
      && (g.additional == [] <==> Secondary(dictionary, required, additional) == [])
      && g.experience == ExperiencePart(f) && g.location == LocationPart(f) && g.notice == NoticePart(f)
  {
    hide Primary, Secondary, ListedBy, SomethingKnown, CountFound, ExperiencePart, LocationPart, NoticePart;
  }

  /** A text that mentions every required skill scores them in full, whatever the candidate lists. */
  lemma AllMentionedScoresFull(dictionary: seq<Skill>, required: seq<string>, additional: seq<string>, c: Candidate,
      mentioned: string -> bool, f: Facts)
    requires c.hasText && Primary(dictionary, required) != []
    requires forall v :: v in Primary(dictionary, required) ==> mentioned(v)
    ensures ScoreOf(Assess(dictionary, required, additional, c, mentioned, f).breakdown, Required) == Some(100)
  {
    SkillScores(dictionary, required, additional, c, mentioned, f);
    hide Assess, Primary, ScoreOf, ListedBy, Unique;
    var primary := Primary(dictionary, required);
    AllEvident(dictionary, primary, ListedBy(dictionary, c), mentioned);
    FullShare(|primary|, ScoreOf(Assess(dictionary, required, additional, c, mentioned, f).breakdown, Required).value);
  }

  lemma {:induction false} AllEvident(dictionary: seq<Skill>, values: seq<string>, listed: set<Identity>,
      mentioned: string -> bool)
    requires forall v :: v in values ==> mentioned(v)
    ensures |EvidentAt(dictionary, values, listed, mentioned)| == |values|
  {
    FoundAreEvident(dictionary, values, listed, mentioned);
    if values != [] {
      AllEvident(dictionary, values[..|values| - 1], listed, mentioned);
      FoundAreEvident(dictionary, values[..|values| - 1], listed, mentioned);
      hide EvidentAt, Resolve;
    }
  }

  lemma FullShare(n: nat, r: int)
    requires n > 0 && Nearest(r, 100 * n, n)
    ensures r == 100
  {
    assert 2 * r * n == n * (2 * r) && 2 * (r + 1) * n == n * (2 * r + 2) && 2 * (100 * n) + n == n * 201;
    if 2 * r > 201 {
      TimesGrows(n, 201, 2 * r);
    }
    if 2 * r + 2 <= 201 {
      TimesGrows(n, 2 * r + 2, 202);
    }
  }

  lemma TimesGrows(n: nat, x: int, y: int)
    requires n > 0 && x < y
    ensures n * x + n <= n * y
  {
    assert n * y == n * x + n * (y - x);
    assert n * (y - x) == n + n * (y - x - 1);
  }
}
