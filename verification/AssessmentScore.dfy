/**
 The assessment score: which job skills a candidate shows evidence for, the weighted parts, and the
 rounded score and coverage computed from them.

 Whether the résumé text mentions one of a skill's terms is a predicate on skills, and the yes/no
 facts about location come in as such. Numbers are exact; `Math.round` rounds halves up.
 */
module AssessmentScore {
  import opened Prelude
  import opened Text
  import opened JsMap
  import opened SkillIndex
  import AssessmentJob

  // ---- Skill lists ----

  function KeepTermChar(ch: char): char {
    if 'a' <= ch <= 'z' || '0' <= ch <= '9' || ch in "+#. " then ch else ' '
  }

  /** Letters, digits, plus, number sign, point and blank stay; anything else becomes a blank. */
  lemma KeptCharacters(ch: char)
    ensures KeepTermChar(ch) ==
      if ch in "abcdefghijklm" || ch in "nopqrstuvwxyz" || ch in "0123456789" || ch in "+#. " then ch else ' '
  {
    SmallLetters(ch);
    assert ch in "0123456789" <==> '0' <= ch <= '9';
  }

  lemma SmallLetters(ch: char)
    ensures ch in "abcdefghijklm" <==> 'a' <= ch <= 'm'
    ensures ch in "nopqrstuvwxyz" <==> 'n' <= ch <= 'z'
  {
  }

  function KeepTermChars(s: string): string {
    seq(|s|, i requires 0 <= i < |s| => KeepTermChar(s[i]))
  }

  function NormalizeTerm(value: string): string {
    Trim(Collapse(KeepTermChars(Lower(value))))
  }

  function NormEntries(values: seq<string>): seq<(string, string)> {
    seq(|values|, i requires 0 <= i < |values| => (NormalizeTerm(values[i]), values[i]))
  }

  function IdEntries(dictionary: seq<Skill>, values: seq<string>): seq<(Identity, string)> {
    seq(|values|, i requires 0 <= i < |values| => (Resolve(dictionary, values[i]), values[i]))
  }

  function Filter(values: seq<string>, keep: string -> bool): (r: seq<string>)
    ensures forall v :: v in r <==> v in values && keep(v)
  {
    if values == [] then []
    else
      assert values == [values[0]] + values[1..];
      (if keep(values[0]) then [values[0]] else []) + Filter(values[1..], keep)
  }

  /** `unique`: one value per normalized term, the last one given, in first-seen order. */
  function Unique(values: seq<string>): seq<string> {
    Filter(FromEntries(NormEntries(values)).Values(), v => NormalizeTerm(v) != "")
  }

  function CanonicalUnique(dictionary: seq<Skill>, values: seq<string>): seq<string> {
    FromEntries(IdEntries(dictionary, values)).Values()
  }

  /** The required skills that count. */
  function Primary(dictionary: seq<Skill>, skillsRequired: seq<string>): seq<string> {
    CanonicalUnique(dictionary, Unique(Filter(skillsRequired, v => Trim(v) != "")))
  }

  /** The additional skills that count: those not already required. */
  function Secondary(dictionary: seq<Skill>, skillsRequired: seq<string>, secondarySkills: seq<string>): seq<string> {
    var primary := Primary(dictionary, skillsRequired);
    Filter(Primary(dictionary, secondarySkills), v => !Covers(dictionary, primary, Resolve(dictionary, v)))
  }

  predicate DistinctIdentities(dictionary: seq<Skill>, values: seq<string>) {
    forall i, j :: 0 <= i < j < |values| ==> Resolve(dictionary, values[i]) != Resolve(dictionary, values[j])
  }

  lemma {:induction false} EntriesResolve(dictionary: seq<Skill>, entries: seq<(Identity, string)>)
    requires forall i :: 0 <= i < |entries| ==> entries[i].0 == Resolve(dictionary, entries[i].1)
    ensures forall k :: k in LastOf(entries) ==> Resolve(dictionary, LastOf(entries)[k]) == k
  {
    hide Resolve;
    if entries != [] {
      EntriesResolve(dictionary, entries[..|entries| - 1]);
    }
  }

  lemma CanonicalIsDistinct(dictionary: seq<Skill>, values: seq<string>)
    ensures DistinctIdentities(dictionary, CanonicalUnique(dictionary, values))
  {
    hide Resolve, SetAll, LastOf;
    var entries := IdEntries(dictionary, values);
    EntriesResolve(dictionary, entries);
    LastWins(Empty<Identity, string>(), entries);
    var m := FromEntries(entries);
    assert m.vals == LastOf(entries);
    KeyedIsDistinct(dictionary, m);
  }

  lemma KeyedIsDistinct(dictionary: seq<Skill>, m: JsMap<Identity, string>)
    requires m.Valid() && forall k :: k in m.vals ==> Resolve(dictionary, m.vals[k]) == k
    ensures DistinctIdentities(dictionary, m.Values())
  {
    hide Resolve;
    forall i, j | 0 <= i < j < |m.Values()|
      ensures Resolve(dictionary, m.Values()[i]) != Resolve(dictionary, m.Values()[j])
    {
      assert m.keys[i] in m.vals && m.keys[j] in m.vals;
    }
  }

  lemma {:induction false} FilterKeepsDistinct(dictionary: seq<Skill>, values: seq<string>, keep: string -> bool)
    requires DistinctIdentities(dictionary, values)
    ensures DistinctIdentities(dictionary, Filter(values, keep))
  {
    hide Resolve;
    if values != [] {
      assert DistinctIdentities(dictionary, values[1..]) by {
        forall i, j | 0 <= i < j < |values[1..]|
          ensures Resolve(dictionary, values[1..][i]) != Resolve(dictionary, values[1..][j])
        {
          assert values[i + 1] == values[1..][i] && values[j + 1] == values[1..][j];
        }
      }
      FilterKeepsDistinct(dictionary, values[1..], keep);
      forall v | v in Filter(values[1..], keep)
        ensures Resolve(dictionary, v) != Resolve(dictionary, values[0])
      {
        var i :| 0 <= i < |values[1..]| && values[1..][i] == v;
        assert values[i + 1] == v;
      }
    }
  }

  /** Within each list no skill counts twice, and no skill counts in both. */
  lemma ListsAreDisjoint(dictionary: seq<Skill>, skillsRequired: seq<string>, secondarySkills: seq<string>)
    ensures DistinctIdentities(dictionary, Primary(dictionary, skillsRequired))
    ensures DistinctIdentities(dictionary, Secondary(dictionary, skillsRequired, secondarySkills))
    ensures forall p, s :: p in Primary(dictionary, skillsRequired)
                           && s in Secondary(dictionary, skillsRequired, secondarySkills)
                           ==> Resolve(dictionary, p) != Resolve(dictionary, s)
  {
    hide Resolve, Unique;
    CanonicalIsDistinct(dictionary, Unique(Filter(skillsRequired, v => Trim(v) != "")));
    CanonicalIsDistinct(dictionary, Unique(Filter(secondarySkills, v => Trim(v) != "")));
    var primary := Primary(dictionary, skillsRequired);
    FilterKeepsDistinct(dictionary, Primary(dictionary, secondarySkills),
      v => !Covers(dictionary, primary, Resolve(dictionary, v)));
  }

  // ---- Parts ----

  datatype Kind = Required | Additional | Experience | Location | Notice

  datatype Part = Part(kind: Kind, weight: nat, score: Option<int>)

  datatype Preference = Specific | RemoteOnly | RemoteOrLocations

  /** What the job and the profile say besides skills. `maximum` is the longest notice accepted. */
  datatype Facts = Facts(
    expMin: Option<real>, expMax: Option<real>, years: Option<real>,
    placed: bool, jobRemote: bool, preference: Option<Preference>, local: bool, preferred: bool,
    asksNotice: bool, maximum: Option<int>, days: Option<int>)

  /** `Math.round(x)`. */
  function Round(x: real): int {
    (x + 0.5).Floor
  }

  /** `Math.round(a / b)` for a ratio of naturals. */
  function RoundRatio(a: nat, b: nat): nat
    requires b > 0
  {
    (2 * a + b) / (2 * b)
  }

  /** The identities the candidate lists. */
  function SkillSet(dictionary: seq<Skill>, skills: seq<string>): set<Identity> {
    set v | v in Unique(skills) :: Resolve(dictionary, v)
  }

  predicate Evident(dictionary: seq<Skill>, skill: string, listed: set<Identity>, mentioned: string -> bool) {
    mentioned(skill) || Resolve(dictionary, skill) in listed
  }

  function CountFound(dictionary: seq<Skill>, values: seq<string>, listed: set<Identity>,
      mentioned: string -> bool): (n: nat)
    ensures n <= |values|
  {
    if values == [] then 0
    else
      var before := CountFound(dictionary, values[..|values| - 1], listed, mentioned);
      if Evident(dictionary, values[|values| - 1], listed, mentioned) then before + 1 else before
  }

  /** The part of one group of skills: none for an empty group, unscored without text and skills. */
  function SkillPart(kind: Kind, weight: nat, found: nat, size: nat, known: bool): seq<Part>
    requires found <= size
  {
    if size == 0 then []
    else [Part(kind, weight, if known then Some(RoundRatio(100 * found, size)) else None)]
  }

  function ExperiencePart(f: Facts): seq<Part> {
    if f.expMin.None? && f.expMax.None? then []
    else
      var known := f.years.Some? && f.years.value >= 0.0;
      var meets := known && (f.expMin.None? || f.years.value >= f.expMin.value);
      [Part(Experience, 15,
        if !known then None
        else if meets then Some(100)
        else Some(Round(Share(f.years.value, f.expMin.value))))]
  }

  /** `Math.max(0, years / (expMin || 1)) * 100`. */
  function Share(years: real, expMin: real): real {
    var share := years / (if expMin == 0.0 then 1.0 else expMin);
    (if share < 0.0 then 0.0 else share) * 100.0
  }

  function LocationPart(f: Facts): seq<Part> {
    if !f.placed then []
    else
      var remoteOnly := f.preference == Some(RemoteOnly);
      var remoteOk := f.preference.None? || remoteOnly || f.preference == Some(RemoteOrLocations);
      [Part(Location, 15,
        if remoteOnly && !f.jobRemote then Some(0)
        else if (f.jobRemote && remoteOk) || f.local then Some(100)
        else if f.preferred then Some(90)
        else None)]
  }

  function NoticePart(f: Facts): seq<Part> {
    if !f.asksNotice then []
    else
      var known := f.maximum.Some? && f.days.Some? && f.days.value >= 0;
      [Part(Notice, 10, if known then Some(if f.days.value <= f.maximum.value then 100 else 0) else None)]
  }

  function OtherParts(f: Facts): seq<Part> {
    ExperiencePart(f) + LocationPart(f) + NoticePart(f)
  }

  function Parts(dictionary: seq<Skill>, primary: seq<string>, secondary: seq<string>, listed: set<Identity>,
                 mentioned: string -> bool, known: bool, f: Facts): seq<Part>
  {
    (if primary == [] then [Part(Required, 45, None)] else [])
    + SkillPart(Required, 45, CountFound(dictionary, primary, listed, mentioned), |primary|, known)
    + SkillPart(Additional, 10, CountFound(dictionary, secondary, listed, mentioned), |secondary|, known)
    + OtherParts(f)
  }

  function Weight(parts: seq<Part>): nat {
    if parts == [] then 0 else parts[0].weight + Weight(parts[1..])
  }

  function MeasuredWeight(parts: seq<Part>): nat {
    if parts == [] then 0 else (if parts[0].score.Some? then parts[0].weight else 0) + MeasuredWeight(parts[1..])
  }

  predicate InRange(parts: seq<Part>) {
    forall i :: 0 <= i < |parts| && parts[i].score.Some? ==> 0 <= parts[i].score.value <= 100
  }

  function WeightedSum(parts: seq<Part>): nat
    requires InRange(parts)
  {
    if parts == [] then 0
    else
      assert InRange(parts[1..]) by { RestInRange(parts); }
      (if parts[0].score.Some? then parts[0].score.value * parts[0].weight else 0) + WeightedSum(parts[1..])
  }

  lemma RestInRange(parts: seq<Part>)
    requires InRange(parts) && parts != []
    ensures InRange(parts[1..])
  {
    forall i | 0 <= i < |parts[1..]| && parts[1..][i].score.Some?
      ensures 0 <= parts[1..][i].score.value <= 100
    {
      assert parts[i + 1] == parts[1..][i];
    }
  }

  /** The first part with the required-skills kind exists and has no score. */
  function RequiredUnscored(parts: seq<Part>): bool {
    if parts == [] then false
    else if parts[0].kind == Required then parts[0].score.None?
    else RequiredUnscored(parts[1..])
  }

  function Score(parts: seq<Part>): Option<nat>
    requires InRange(parts)
  {
    if !RequiredUnscored(parts) && MeasuredWeight(parts) > 0
    then Some(RoundRatio(WeightedSum(parts), MeasuredWeight(parts)))
    else None
  }

  function Coverage(parts: seq<Part>): nat {
    if Weight(parts) > 0 then RoundRatio(100 * MeasuredWeight(parts), Weight(parts)) else 0
  }

  // ---- Ranges ----

  lemma ShareInRange(years: real, expMin: real)
    requires 0.0 <= years < expMin
    ensures 0 <= Round(Share(years, expMin)) <= 100
  {
    assert 0.0 <= years / expMin < 1.0 by {
      DivideSmaller(years, expMin);
    }
  }

  lemma DivideSmaller(a: real, b: real)
    requires 0.0 <= a < b
    ensures 0.0 <= a / b < 1.0
  {
    var q := a / b;
    assert q * b == a;
    assert (1.0 - q) * b == b - a;
  }

  lemma RatioInRange(a: nat, b: nat)
    requires b > 0 && a <= 100 * b
    ensures RoundRatio(a, b) <= 100
  {
    DivideAtMost(2 * a + b, 2 * b, 100);
  }

  lemma DivideAtMost(a: nat, d: nat, q: nat)
    requires d > 0 && a < d * (q + 1)
    ensures a / d <= q
  {
    var p := a / d;
    assert d * p <= a;
    if p > q {
      MultiplyMonotone(d, q + 1, p);
    }
  }

  lemma MultiplyMonotone(d: nat, a: nat, b: nat)
    requires a <= b
    ensures d * a <= d * b
  {
  }

  lemma InRangeConcat(a: seq<Part>, b: seq<Part>)
    requires InRange(a) && InRange(b)
    ensures InRange(a + b)
  {
  }

  lemma SkillPartInRange(kind: Kind, weight: nat, found: nat, size: nat, known: bool)
    requires found <= size
    ensures InRange(SkillPart(kind, weight, found, size, known))
  {
    if size > 0 {
      RatioInRange(100 * found, size);
    }
  }

  lemma ExperienceInRange(f: Facts)
    ensures InRange(ExperiencePart(f))
  {
    hide Share, Round;
    if f.years.Some? && f.expMin.Some? && 0.0 <= f.years.value < f.expMin.value {
      ShareInRange(f.years.value, f.expMin.value);
    }
  }

  lemma OtherPartsInRange(f: Facts)
    ensures InRange(OtherParts(f))
  {
    ExperienceInRange(f);
    assert InRange(LocationPart(f)) && InRange(NoticePart(f));
    hide ExperiencePart, LocationPart, NoticePart, InRange;
    InRangeConcat(ExperiencePart(f), LocationPart(f));
    InRangeConcat(ExperiencePart(f) + LocationPart(f), NoticePart(f));
  }

  /** Every part's score is a percentage. */
  lemma PartsInRange(dictionary: seq<Skill>, primary: seq<string>, secondary: seq<string>, listed: set<Identity>,
                     mentioned: string -> bool, known: bool, f: Facts)
    ensures InRange(Parts(dictionary, primary, secondary, listed, mentioned, known, f))
  {
    hide SkillPart, OtherParts, CountFound;
    var none := if primary == [] then [Part(Required, 45, None)] else [];
    var p := SkillPart(Required, 45, CountFound(dictionary, primary, listed, mentioned), |primary|, known);
    var s := SkillPart(Additional, 10, CountFound(dictionary, secondary, listed, mentioned), |secondary|, known);
    SkillPartInRange(Required, 45, CountFound(dictionary, primary, listed, mentioned), |primary|, known);
    SkillPartInRange(Additional, 10, CountFound(dictionary, secondary, listed, mentioned), |secondary|, known);
    OtherPartsInRange(f);
    InRangeConcat(none, p);
    InRangeConcat(none + p, s);
    InRangeConcat(none + p + s, OtherParts(f));
  }

  lemma {:induction false} SumsInRange(parts: seq<Part>)
    requires InRange(parts)
    ensures WeightedSum(parts) <= 100 * MeasuredWeight(parts)
    ensures MeasuredWeight(parts) <= Weight(parts)
  {
    if parts != [] {
      RestInRange(parts);
      SumsInRange(parts[1..]);
      if parts[0].score.Some? {
        MultiplyMonotone(parts[0].weight, parts[0].score.value, 100);
      }
    }
  }

  /** The score is a percentage when there is one, and the coverage always is. */
  lemma ScoreInRange(parts: seq<Part>)
    requires InRange(parts)
    ensures Score(parts).Some? ==> Score(parts).value <= 100
    ensures Coverage(parts) <= 100
  {
    SumsInRange(parts);
    if MeasuredWeight(parts) > 0 {
      RatioInRange(WeightedSum(parts), MeasuredWeight(parts));
    }
    if Weight(parts) > 0 {
      RatioInRange(100 * MeasuredWeight(parts), Weight(parts));
    }
  }

  // ---- The whole assessment ----

  datatype Candidate = Candidate(skills: seq<string>, parsed: seq<string>, hasText: bool)

  datatype Assessment = Assessment(score: Option<nat>, coverage: nat, breakdown: seq<Part>)

  function AllSkills(c: Candidate): seq<string> {
    c.skills + c.parsed
  }

  function Breakdown(dictionary: seq<Skill>, required: seq<string>, additional: seq<string>, c: Candidate,
                     mentioned: string -> bool, f: Facts): seq<Part>
  {
    Parts(dictionary, Primary(dictionary, required), Secondary(dictionary, required, additional),
      SkillSet(dictionary, AllSkills(c)), mentioned, c.hasText || Unique(AllSkills(c)) != [], f)
  }

  function Assess(dictionary: seq<Skill>, required: seq<string>, additional: seq<string>, c: Candidate,
                  mentioned: string -> bool, f: Facts): (r: Assessment)
    ensures InRange(r.breakdown)
    ensures r.score.Some? ==> r.score.value <= 100
    ensures r.coverage <= 100
  {
    var parts := Breakdown(dictionary, required, additional, c, mentioned, f);
    assert InRange(parts) by {
      PartsInRange(dictionary, Primary(dictionary, required), Secondary(dictionary, required, additional),
        SkillSet(dictionary, AllSkills(c)), mentioned, c.hasText || Unique(AllSkills(c)) != [], f);
    }
    ScoreInRange(parts);
    Assessment(Score(parts), Coverage(parts), parts)
  }

  /** The evidence count of one group, as the loop over its criteria makes it. */
  method CountEvidence(dictionary: seq<Skill>, values: seq<string>, listed: set<Identity>, mentioned: string -> bool)
      returns (found: nat)
    ensures found == CountFound(dictionary, values, listed, mentioned)
  {
    found := 0;
    for i := 0 to |values|
      invariant found == CountFound(dictionary, values[..i], listed, mentioned)
    {
      assert values[..i + 1][..i] == values[..i];
      if Evident(dictionary, values[i], listed, mentioned) {
        found := found + 1;
      }
    }
    assert values[..|values|] == values;
  }

  /** The assessment of a job as it is stored: its skill lists are completed first. `job.other` is what else it says. */
  function AssessJob(dictionary: seq<Skill>, d: AssessmentJob.Description, job: AssessmentJob.Job<Facts>, c: Candidate,
                     mentioned: string -> bool): Assessment
  {
    var complete := AssessmentJob.CompleteJob(dictionary, d, job);
    Assess(dictionary, AssessmentJob.OrEmpty(complete.skillsRequired),
      AssessmentJob.OrEmpty(complete.secondarySkills), c, mentioned, complete.other)
  }

  /** Whatever the job and the candidate, the score is none or a percentage, and so are the coverage and every part. */
  lemma AssessmentInRange(dictionary: seq<Skill>, d: AssessmentJob.Description, job: AssessmentJob.Job<Facts>,
      c: Candidate, mentioned: string -> bool)
    ensures var r := AssessJob(dictionary, d, job, c, mentioned);
      InRange(r.breakdown) && (r.score.Some? ==> r.score.value <= 100) && r.coverage <= 100
  {
    hide Assess, AssessmentJob.CompleteJob, InRange;
  }

  method AssessCandidate(dictionary: seq<Skill>, d: AssessmentJob.Description, job: AssessmentJob.Job<Facts>,
      c: Candidate, mentioned: string -> bool) returns (result: Assessment)
    ensures result == AssessJob(dictionary, d, job, c, mentioned)
  {
    hide Resolve, Primary, Secondary, SkillSet, Unique, CountFound, RoundRatio, OtherParts, AssessmentJob.CompleteJob;
    var complete := AssessmentJob.ResolveAssessmentJob(dictionary, d, job);
    var required, additional := AssessmentJob.OrEmpty(complete.skillsRequired),
      AssessmentJob.OrEmpty(complete.secondarySkills);
    var skills := Unique(AllSkills(c));
    var listed := SkillSet(dictionary, AllSkills(c));
    var primary := Primary(dictionary, required);
    var secondary := Secondary(dictionary, required, additional);
    var parts: seq<Part> := [];
    if primary == [] {
      parts := parts + [Part(Required, 45, None)];
    }
    var known := c.hasText || skills != [];
    var found := CountEvidence(dictionary, primary, listed, mentioned);
    if primary != [] {
      parts := parts + [Part(Required, 45, if known then Some(RoundRatio(100 * found, |primary|)) else None)];
    }
    found := CountEvidence(dictionary, secondary, listed, mentioned);
    if secondary != [] {
      parts := parts + [Part(Additional, 10, if known then Some(RoundRatio(100 * found, |secondary|)) else None)];
    }
    parts := parts + OtherParts(complete.other);
    assert parts == Breakdown(dictionary, required, additional, c, mentioned, complete.other);
    PartsInRange(dictionary, primary, secondary, listed, mentioned, known, complete.other);
    result := Assessment(Score(parts), Coverage(parts), parts);
  }

  /** There is a score exactly when a required skill counts and there is something to look at. */
  lemma ScoredExactlyWhen(dictionary: seq<Skill>, required: seq<string>, additional: seq<string>, c: Candidate,
                          mentioned: string -> bool, f: Facts)
    ensures Assess(dictionary, required, additional, c, mentioned, f).score.Some?
       <==> Primary(dictionary, required) != [] && (c.hasText || Unique(AllSkills(c)) != [])
  {
    hide Resolve, Primary, Secondary, SkillSet, Unique, CountFound, RoundRatio, OtherParts;
    var parts := Breakdown(dictionary, required, additional, c, mentioned, f);
    assert parts[0].kind == Required && parts[0].weight == 45;
  }

  // ---- One more skill ----

  /** Same parts, same ones scored, no score lower. */
  predicate NoLower(a: seq<Part>, b: seq<Part>) {
    |a| == |b| && forall i :: 0 <= i < |a| ==>
      a[i].kind == b[i].kind && a[i].weight == b[i].weight && a[i].score.Some? == b[i].score.Some? &&
      (a[i].score.Some? ==> a[i].score.value <= b[i].score.value)
  }

  lemma {:induction false} SumsGrow(a: seq<Part>, b: seq<Part>)
    requires InRange(a) && InRange(b) && NoLower(a, b)
    ensures WeightedSum(a) <= WeightedSum(b)
    ensures MeasuredWeight(a) == MeasuredWeight(b) && RequiredUnscored(a) == RequiredUnscored(b)
  {
    if a != [] {
      RestInRange(a);
      RestInRange(b);
      assert NoLower(a[1..], b[1..]) by {
        forall i | 0 <= i < |a[1..]|
          ensures a[1..][i] == a[i + 1] && b[1..][i] == b[i + 1]
        {
        }
      }
      SumsGrow(a[1..], b[1..]);
      if a[0].score.Some? {
        MultiplyMonotone(a[0].weight, a[0].score.value, b[0].score.value);
      }
    }
  }

  lemma RatioGrows(a: nat, a': nat, b: nat)
    requires b > 0 && a <= a'
    ensures RoundRatio(a, b) <= RoundRatio(a', b)
  {
    var q := (2 * a' + b) / (2 * b);
    assert 2 * a' + b < 2 * b * (q + 1);
    DivideAtMost(2 * a + b, 2 * b, q);
  }

  lemma {:induction false} MoreEvidence(dictionary: seq<Skill>, values: seq<string>, listed: set<Identity>,
      more: set<Identity>, mentioned: string -> bool)
    requires listed <= more
    ensures CountFound(dictionary, values, listed, mentioned) <= CountFound(dictionary, values, more, mentioned)
  {
    hide Resolve;
    if values != [] {
      MoreEvidence(dictionary, values[..|values| - 1], listed, more, mentioned);
    }
  }

  /** The normalized term is not listed yet. */
  predicate Unlisted(values: seq<string>, x: string) {
    forall v :: v in values ==> NormalizeTerm(v) != NormalizeTerm(x)
  }

  lemma {:induction false} LastOfKeys(values: seq<string>)
    ensures forall k :: k in LastOf(NormEntries(values)) ==>
      LastOf(NormEntries(values))[k] in values && NormalizeTerm(LastOf(NormEntries(values))[k]) == k
  {
    hide NormalizeTerm;
    if values != [] {
      var init, last := values[..|values| - 1], values[|values| - 1];
      LastOfKeys(init);
      assert NormEntries(values)[..|values| - 1] == NormEntries(init);
      assert values == init + [last];
    }
  }

  /** What `unique` keeps: for each normalized term, the last value given. */
  ghost predicate Kept(last: map<string, string>, v: string) {
    NormalizeTerm(v) != "" && NormalizeTerm(v) in last && last[NormalizeTerm(v)] == v
  }

  /** The values of a map whose keys are computed from its values. */
  lemma KeyedValues(m: JsMap<string, string>, v: string)
    requires m.Valid()
    requires forall k :: k in m.vals ==> NormalizeTerm(m.vals[k]) == k
    ensures v in m.Values() <==> NormalizeTerm(v) in m.vals && m.vals[NormalizeTerm(v)] == v
  {
    hide NormalizeTerm;
    ValuesAreLast(m);
  }

  lemma UniqueMembers(values: seq<string>, v: string)
    ensures v in Unique(values) <==> Kept(LastOf(NormEntries(values)), v)
  {
    hide NormalizeTerm, NormEntries, LastOf, SetAll;
    var entries := NormEntries(values);
    var m := FromEntries(entries);
    assert m.vals == LastOf(entries) by {
      LastWins(Empty<string, string>(), entries);
    }
    LastOfKeys(values);
    KeyedValues(m, v);
  }

  /** Listing `x` replaces a value with the same normalized term. */
  ghost predicate Displaces(a: seq<string>, x: string, b: seq<string>) {
    var term := NormalizeTerm(x);
    term != "" && term in LastOf(NormEntries(a)) && term !in LastOf(NormEntries(b))
  }

  ghost function Displaced(a: seq<string>, x: string, b: seq<string>): string
    requires Displaces(a, x, b)
  {
    LastOf(NormEntries(a))[NormalizeTerm(x)]
  }

  /** Whatever `x` replaces, its identity is that of `x` or of another listed skill. */
  ghost predicate Harmless(dictionary: seq<Skill>, a: seq<string>, x: string, b: seq<string>) {
    Displaces(a, x, b) ==>
      var gone := Resolve(dictionary, Displaced(a, x, b));
      gone == Resolve(dictionary, x)
      || exists v :: v in Unique(a + b) && NormalizeTerm(v) != NormalizeTerm(x) && Resolve(dictionary, v) == gone
  }

  lemma NormEntriesConcat(a: seq<string>, b: seq<string>)
    ensures LastOf(NormEntries(a + b)) == LastOf(NormEntries(a)) + LastOf(NormEntries(b))
  {
    hide NormalizeTerm;
    assert NormEntries(a + b) == NormEntries(a) + NormEntries(b);
    LastOfConcat(NormEntries(a), NormEntries(b));
  }

  lemma NormEntriesInserted(a: seq<string>, x: string, b: seq<string>)
    ensures LastOf(NormEntries(a + [x] + b)) == LastOf(NormEntries(a))[NormalizeTerm(x) := x] + LastOf(NormEntries(b))
  {
    hide NormalizeTerm, NormEntries;
    NormEntriesConcat(a + [x], b);
    NormEntriesConcat(a, [x]);
    NormEntriesOne(x);
  }

  lemma NormEntriesOne(x: string)
    ensures LastOf(NormEntries([x])) == map[NormalizeTerm(x) := x]
  {
    hide NormalizeTerm;
    assert NormEntries([x]) == [(NormalizeTerm(x), x)];
    assert [(NormalizeTerm(x), x)][..0] == [];
  }

  /** A kept value stays kept unless it is the displaced one. */
  lemma KeptUnlessDisplaced(a: seq<string>, x: string, b: seq<string>, v: string)
    requires v in Unique(a + b)
    ensures v in Unique(a + [x] + b) || (Displaces(a, x, b) && v == Displaced(a, x, b))
  {
    hide NormalizeTerm, NormEntries, LastOf, Unique;
    UniqueMembers(a + b, v);
    UniqueMembers(a + [x] + b, v);
    NormEntriesConcat(a, b);
    NormEntriesInserted(a, x, b);
  }

  /** Besides `x` nothing new is kept, and the displaced value goes. */
  lemma KeptAfter(a: seq<string>, x: string, b: seq<string>, v: string)
    ensures v in Unique(a + [x] + b) && v != x ==> v in Unique(a + b)
    ensures v in Unique(a + [x] + b) && Displaces(a, x, b) && NormalizeTerm(v) == NormalizeTerm(x) ==> v == x
    ensures Displaces(a, x, b) ==> x in Unique(a + [x] + b) && Displaced(a, x, b) in Unique(a + b)
    ensures Displaces(a, x, b) ==> NormalizeTerm(Displaced(a, x, b)) == NormalizeTerm(x)
  {
    hide NormalizeTerm, NormEntries, LastOf, Unique;
    UniqueMembers(a + b, v);
    UniqueMembers(a + [x] + b, v);
    UniqueMembers(a + [x] + b, x);
    NormEntriesConcat(a, b);
    NormEntriesInserted(a, x, b);
    LastOfKeys(a);
    if Displaces(a, x, b) {
      UniqueMembers(a + b, Displaced(a, x, b));
    }
  }

  lemma HarmlessKeepsIdentities(dictionary: seq<Skill>, a: seq<string>, x: string, b: seq<string>)
    requires Harmless(dictionary, a, x, b)
    ensures SkillSet(dictionary, a + b) <= SkillSet(dictionary, a + [x] + b)
    ensures Unique(a + b) != [] ==> Unique(a + [x] + b) != []
  {
    hide Resolve, Unique, Displaces, Displaced, NormalizeTerm;
    forall v | v in Unique(a + b)
      ensures Resolve(dictionary, v) in SkillSet(dictionary, a + [x] + b)
    {
      KeptUnlessDisplaced(a, x, b, v);
      if v !in Unique(a + [x] + b) {
        KeptAfter(a, x, b, x);
        if Resolve(dictionary, v) != Resolve(dictionary, x) {
          var w :| w in Unique(a + b) && NormalizeTerm(w) != NormalizeTerm(x)
            && Resolve(dictionary, w) == Resolve(dictionary, v);
          KeptUnlessDisplaced(a, x, b, w);
        }
      }
    }
    if Unique(a + b) != [] {
      assert Resolve(dictionary, Unique(a + b)[0]) in SkillSet(dictionary, a + [x] + b);
    }
  }

  lemma HarmfulLosesIdentity(dictionary: seq<Skill>, a: seq<string>, x: string, b: seq<string>)
    requires !Harmless(dictionary, a, x, b)
    ensures Displaces(a, x, b)
    ensures Displaced(a, x, b) in Unique(a + b) && NormalizeTerm(Displaced(a, x, b)) != ""
    ensures Resolve(dictionary, Displaced(a, x, b)) !in SkillSet(dictionary, a + [x] + b)
    ensures x in Unique(a + [x] + b)
    ensures Resolve(dictionary, Displaced(a, x, b)) in SkillSet(dictionary, a + b)
  {
    assert NormalizeTerm(x) != "";
    hide Resolve, Unique, Displaces, Displaced, NormalizeTerm;
    KeptAfter(a, x, b, x);
    forall w | w in Unique(a + [x] + b)
      ensures Resolve(dictionary, w) != Resolve(dictionary, Displaced(a, x, b))
    {
      KeptAfter(a, x, b, w);
    }
  }

  lemma UnlistedIsHarmless(dictionary: seq<Skill>, a: seq<string>, x: string, b: seq<string>)
    requires Unlisted(a + b, x)
    ensures Harmless(dictionary, a, x, b)
  {
    hide NormalizeTerm, NormEntries, LastOf, Unique, Resolve;
    LastOfKeys(a);
    assert forall v :: v in a ==> v in a + b;
  }

  lemma PartsGrow(dictionary: seq<Skill>, primary: seq<string>, secondary: seq<string>, listed: set<Identity>,
      more: set<Identity>, mentioned: string -> bool, f: Facts)
    requires listed <= more
    ensures NoLower(Parts(dictionary, primary, secondary, listed, mentioned, true, f),
                    Parts(dictionary, primary, secondary, more, mentioned, true, f))
  {
    hide CountFound, RoundRatio, OtherParts;
    MoreEvidence(dictionary, primary, listed, more, mentioned);
    MoreEvidence(dictionary, secondary, listed, more, mentioned);
    if primary != [] {
      RatioGrows(100 * CountFound(dictionary, primary, listed, mentioned),
        100 * CountFound(dictionary, primary, more, mentioned), |primary|);
    }
    if secondary != [] {
      RatioGrows(100 * CountFound(dictionary, secondary, listed, mentioned),
        100 * CountFound(dictionary, secondary, more, mentioned), |secondary|);
    }
  }

  lemma ScoresCompare(a: seq<Part>, b: seq<Part>)
    requires InRange(a) && InRange(b) && NoLower(a, b) && Score(a).Some?
    ensures Score(b).Some? && Score(a).value <= Score(b).value
  {
    SumsGrow(a, b);
    RatioGrows(WeightedSum(a), WeightedSum(b), MeasuredWeight(a));
  }

  /** Listing a skill that displaces no identity never lowers a score. */
  lemma HarmlessNeverLowers(dictionary: seq<Skill>, required: seq<string>, additional: seq<string>, c: Candidate,
      x: string, mentioned: string -> bool, f: Facts)
    requires Harmless(dictionary, c.skills, x, c.parsed)
    ensures NotLower(Assess(dictionary, required, additional, c, mentioned, f).score,
                     Assess(dictionary, required, additional, c.(skills := c.skills + [x]), mentioned, f).score)
  {
    hide Resolve, Primary, Secondary, SkillSet, Unique, CountFound, RoundRatio, OtherParts, Parts, Score, Coverage,
      InRange, NoLower, Harmless;
    var c' := c.(skills := c.skills + [x]);
    var before, after := Assess(dictionary, required, additional, c, mentioned, f),
      Assess(dictionary, required, additional, c', mentioned, f);
    ScoredExactlyWhen(dictionary, required, additional, c, mentioned, f);
    if before.score.Some? {
      HarmlessKeepsIdentities(dictionary, c.skills, x, c.parsed);
      var primary, secondary := Primary(dictionary, required), Secondary(dictionary, required, additional);
      PartsGrow(dictionary, primary, secondary, SkillSet(dictionary, AllSkills(c)),
        SkillSet(dictionary, AllSkills(c')), mentioned, f);
      assert NoLower(before.breakdown, after.breakdown);
      assert before.score == Score(before.breakdown) && after.score == Score(after.breakdown);
      ScoresCompare(before.breakdown, after.breakdown);
    }
  }

  /** A score that exists stays and does not fall. */
  predicate NotLower(before: Option<nat>, after: Option<nat>) {
    before.Some? ==> after.Some? && before.value <= after.value
  }

  /** Listing a skill whose normalized term is not listed yet never lowers the score for any job. */
  lemma MoreSkillsNeverLower(dictionary: seq<Skill>, d: AssessmentJob.Description, job: AssessmentJob.Job<Facts>,
      c: Candidate, x: string, mentioned: string -> bool)
    requires Unlisted(AllSkills(c), x)
    ensures NotLower(AssessJob(dictionary, d, job, c, mentioned).score,
                     AssessJob(dictionary, d, job, c.(skills := c.skills + [x]), mentioned).score)
  {
    hide Assess, Harmless, AssessmentJob.CompleteJob;
    UnlistedIsHarmless(dictionary, c.skills, x, c.parsed);
    HarmlessForJob(dictionary, d, job, c, x, mentioned);
  }

  lemma HarmlessForJob(dictionary: seq<Skill>, d: AssessmentJob.Description, job: AssessmentJob.Job<Facts>,
      c: Candidate, x: string, mentioned: string -> bool)
    requires Harmless(dictionary, c.skills, x, c.parsed)
    ensures NotLower(AssessJob(dictionary, d, job, c, mentioned).score,
                     AssessJob(dictionary, d, job, c.(skills := c.skills + [x]), mentioned).score)
  {
    hide Assess, Harmless, AssessmentJob.CompleteJob;
    var complete := AssessmentJob.CompleteJob(dictionary, d, job);
    HarmlessNeverLowers(dictionary, AssessmentJob.OrEmpty(complete.skillsRequired),
      AssessmentJob.OrEmpty(complete.secondarySkills), c, x, mentioned, complete.other);
  }

  // ---- When one more skill does lower a score ----

  /** A blank value has no normalized term. */
  lemma BlankTerm(value: string)
    requires Trim(value) == ""
    ensures NormalizeTerm(value) == ""
  {
    var front, back := TrimShape(value);
    assert value == front + back;
    var kept := KeepTermChars(Lower(value));
    assert AllSpace(kept);
    assert kept + "" + "" == kept;
    CollapseOfPadded(kept, "", "");
  }

  lemma FilterSingle(value: string, keep: string -> bool)
    requires keep(value)
    ensures Filter([value], keep) == [value]
  {
    assert [value][1..] == [];
  }

  lemma SingleEntry<K(!new)>(k: K, v: string)
    ensures FromEntries([(k, v)]).Values() == [v]
  {
    assert [(k, v)][..0] == [];
    assert SetAll(Empty<K, string>(), [(k, v)]) == Empty<K, string>().Set(k, v);
    assert FromEntries([(k, v)]).keys == [k];
  }

  lemma UniqueSingle(skill: string)
    requires NormalizeTerm(skill) != ""
    ensures Unique([skill]) == [skill]
  {
    hide NormalizeTerm;
    SingleEntry(NormalizeTerm(skill), skill);
    assert NormEntries([skill]) == [(NormalizeTerm(skill), skill)];
    FilterSingle(skill, v => NormalizeTerm(v) != "");
  }

  lemma CanonicalSingle(dictionary: seq<Skill>, skill: string)
    ensures CanonicalUnique(dictionary, [skill]) == [skill]
  {
    hide Resolve;
    SingleEntry(Resolve(dictionary, skill), skill);
    assert IdEntries(dictionary, [skill]) == [(Resolve(dictionary, skill), skill)];
  }

  lemma PrimarySingle(dictionary: seq<Skill>, skill: string)
    requires NormalizeTerm(skill) != ""
    ensures Primary(dictionary, [skill]) == [skill]
  {
    if Trim(skill) == "" {
      BlankTerm(skill);
    }
    UniqueSingle(skill);
    CanonicalSingle(dictionary, skill);
    hide NormalizeTerm, Trim, Unique, CanonicalUnique;
    FilterSingle(skill, v => Trim(v) != "");
  }

  lemma NoSecondary(dictionary: seq<Skill>, required: seq<string>)
    ensures Secondary(dictionary, required, []) == []
  {
    hide NormalizeTerm, Trim, Resolve;
    assert IdEntries(dictionary, []) == [] && NormEntries([]) == [];
    assert Primary(dictionary, []) == [];
  }

  /** A résumé without text mentions nothing. */
  predicate NoMention(skill: string) {
    false
  }

  const NO_FACTS := Facts(None, None, None, false, false, None, false, false, false, None, None)

  lemma OnePartScore(score: nat)
    requires score <= 100
    ensures Score([Part(Required, 45, Some(score))]) == Some(score)
  {
    var parts := [Part(Required, 45, Some(score))];
    assert parts[1..] == [];
    assert WeightedSum(parts[1..]) == 0 && MeasuredWeight(parts[1..]) == 0;
    assert WeightedSum(parts) == score * 45;
    assert MeasuredWeight(parts) == 45;
  }

  lemma SingleSkillParts(dictionary: seq<Skill>, skill: string, listed: set<Identity>)
    ensures Parts(dictionary, [skill], [], listed, NoMention, true, NO_FACTS)
      == [Part(Required, 45, Some(if Resolve(dictionary, skill) in listed then 100 else 0))]
  {
    hide Resolve;
    assert [skill][..0] == [];
    assert CountFound(dictionary, [skill], listed, NoMention) == if Resolve(dictionary, skill) in listed then 1 else 0;
  }

  /** The score of a job that asks for one skill and says nothing else, on a résumé without text. */
  lemma SingleSkillScore(dictionary: seq<Skill>, skill: string, c: Candidate)
    requires NormalizeTerm(skill) != "" && Unique(AllSkills(c)) != []
    ensures Assess(dictionary, [skill], [], c, NoMention, NO_FACTS).score
      == Some(if Resolve(dictionary, skill) in SkillSet(dictionary, AllSkills(c)) then 100 else 0)
  {
    hide NormalizeTerm, Resolve, Primary, Secondary, SkillSet, Unique, Score, Coverage, InRange, Parts;
    PrimarySingle(dictionary, skill);
    NoSecondary(dictionary, [skill]);
    var listed := SkillSet(dictionary, AllSkills(c));
    SingleSkillParts(dictionary, skill, listed);
    OnePartScore(if Resolve(dictionary, skill) in listed then 100 else 0);
    assert c.hasText || Unique(AllSkills(c)) != [];
  }

  /** White space around a value does not show in its normalized term. */
  lemma TermOfTrimmed(value: string)
    ensures NormalizeTerm(Trim(value)) == NormalizeTerm(value)
  {
    var front, back := TrimShape(value);
    var core := Trim(value);
    var f, k, b := KeepTermChars(Lower(front)), KeepTermChars(Lower(core)), KeepTermChars(Lower(back));
    assert AllSpace(f) && AllSpace(b);
    assert KeepTermChars(Lower(value)) == f + k + b;
    CollapseOfPadded(f, k, b);
  }

  // A job that asks for one skill and says nothing else.

  function NothingHeaded(line: string): AssessmentJob.Heading {
    AssessmentJob.NoHeading
  }

  function NothingMentioned(term: string, text: string): bool {
    false
  }

  const BLANK := AssessmentJob.Description([], NothingHeaded, NothingMentioned)

  function AskingFor(skill: string): AssessmentJob.Job<Facts> {
    AssessmentJob.Job(Some([skill]), None, NO_FACTS)
  }

  lemma {:induction false} NothingFound(dictionary: seq<Skill>, required: string -> bool, preferred: string -> bool)
    requires forall term :: !required(term) && !preferred(term)
    ensures AssessmentJob.FoundRequired(dictionary, required) == []
      && AssessmentJob.FoundPreferred(dictionary, required, preferred) == []
  {
    if dictionary != [] {
      NothingFound(dictionary[..|dictionary| - 1], required, preferred);
    }
  }

  lemma DedupeSingle(dictionary: seq<Skill>, skill: string)
    requires Trim(skill) != ""
    ensures AssessmentJob.Dedupe(dictionary, [skill]) == [Trim(skill)] && AssessmentJob.Dedupe(dictionary, []) == []
  {
    hide Trim, Resolve, SetAll;
    assert [skill][..0] == [];
    assert AssessmentJob.EntriesOf(dictionary, []) == [];
    assert AssessmentJob.EntriesOf(dictionary, [skill]) == [(Resolve(dictionary, skill), Trim(skill))];
    SingleEntry(Resolve(dictionary, skill), Trim(skill));
    NoEntries(Empty<Identity, string>());
  }

  /** Completing that job trims the skill and adds nothing. */
  lemma AskingForOne(dictionary: seq<Skill>, skill: string)
    requires NormalizeTerm(skill) != ""
    ensures AssessmentJob.CompleteJob(dictionary, BLANK, AskingFor(skill))
      == AssessmentJob.Job(Some([Trim(skill)]), Some([]), NO_FACTS)
  {
    if Trim(skill) == "" {
      BlankTerm(skill);
    }
    hide Trim, NormalizeTerm, AssessmentJob.MentionedIn, AssessmentJob.SectionText, AssessmentJob.ResolveJob;
    BlankMentionsNothing();
    var none := AssessmentJob.MentionedIn(BLANK, "");
    ResolvingOne(dictionary, none, none, skill);
    assert AssessmentJob.CompleteJob(dictionary, BLANK, AskingFor(skill))
      == AssessmentJob.ResolveJob(dictionary, none, none, AskingFor(skill));
  }

  lemma ResolvingOne(dictionary: seq<Skill>, required: string -> bool, preferred: string -> bool, skill: string)
    requires Trim(skill) != "" && forall term :: !required(term) && !preferred(term)
    ensures AssessmentJob.ResolveJob(dictionary, required, preferred, AskingFor(skill))
      == AssessmentJob.Job(Some([Trim(skill)]), Some([]), NO_FACTS)
  {
    hide Trim, AssessmentJob.Dedupe, AssessmentJob.FoundRequired, AssessmentJob.FoundPreferred;
    DedupeSingle(dictionary, skill);
    AssessmentJob.TrimTwice(skill);
    DedupeSingle(dictionary, Trim(skill));
    NothingFound(dictionary, required, preferred);
    var empty: seq<string> := [];
    assert AssessmentJob.OrEmpty(AskingFor(skill).skillsRequired) == [skill];
    assert AssessmentJob.OrEmpty(AskingFor(skill).secondarySkills) == empty;
    assert [Trim(skill)] + [] == [Trim(skill)] && empty + empty == empty;
    assert AssessmentJob.Dedupe(dictionary, [Trim(skill)] + AssessmentJob.FoundRequired(dictionary, required))
      == [Trim(skill)];
    assert AssessmentJob.Dedupe(dictionary, empty + AssessmentJob.FoundPreferred(dictionary, required, preferred))
      == empty;
    assert AssessmentJob.Without(dictionary, empty, [Trim(skill)]) == empty;
  }

  lemma BlankMentionsNothing()
    ensures forall term :: !AssessmentJob.MentionedIn(BLANK, "")(term)
    ensures AssessmentJob.SectionText(BLANK, AssessmentJob.InRequired, |BLANK.lines|) == ""
    ensures AssessmentJob.SectionText(BLANK, AssessmentJob.InPreferred, |BLANK.lines|) == ""
  {
    forall term
      ensures !AssessmentJob.MentionedIn(BLANK, "")(term)
    {
      assert AssessmentJob.MentionedIn(BLANK, "")(term) == BLANK.mentions(term, "") == NothingMentioned(term, "");
    }
  }

  lemma AskingForOneScore(dictionary: seq<Skill>, skill: string, c: Candidate)
    requires NormalizeTerm(skill) != "" && Unique(AllSkills(c)) != []
    ensures AssessJob(dictionary, BLANK, AskingFor(skill), c, NoMention).score
      == Some(if Resolve(dictionary, skill) in SkillSet(dictionary, AllSkills(c)) then 100 else 0)
  {
    hide NormalizeTerm, Trim, Resolve, Unique, SkillSet, Assess, AssessmentJob.CompleteJob;
    AskingForOne(dictionary, skill);
    TermOfTrimmed(skill);
    ResolveIgnoresPadding(dictionary, skill);
    SingleSkillScore(dictionary, Trim(skill), c);
  }

  /** A harmful skill lowers the score for the job that asks for the displaced one, from 100 to 0. */
  lemma HarmfulLowers(dictionary: seq<Skill>, c: Candidate, x: string)
    requires !Harmless(dictionary, c.skills, x, c.parsed)
    ensures Displaces(c.skills, x, c.parsed)
    ensures var job := AskingFor(Displaced(c.skills, x, c.parsed));
      AssessJob(dictionary, BLANK, job, c, NoMention).score == Some(100)
      && AssessJob(dictionary, BLANK, job, c.(skills := c.skills + [x]), NoMention).score == Some(0)
  {
    hide AssessJob, Harmless, Resolve, Unique, SkillSet, NormalizeTerm, Displaces, Displaced;
    HarmfulLosesIdentity(dictionary, c.skills, x, c.parsed);
    var skill := Displaced(c.skills, x, c.parsed);
    AskingForOneScore(dictionary, skill, c);
    AskingForOneScore(dictionary, skill, c.(skills := c.skills + [x]));
  }

  /**
   Listing one more skill lowers the score for no stored job exactly when it is harmless. It can be harmful
   because a skill's normalized term is coarser than its identity: "c!" replaces "c" and is a different skill.
  */
  lemma NeverLowersExactlyWhen(dictionary: seq<Skill>, c: Candidate, x: string)
    ensures Harmless(dictionary, c.skills, x, c.parsed)
       <==> forall d: AssessmentJob.Description, job: AssessmentJob.Job<Facts>, mentioned: string -> bool ::
              NotLower(AssessJob(dictionary, d, job, c, mentioned).score,
                       AssessJob(dictionary, d, job, c.(skills := c.skills + [x]), mentioned).score)
  {
    hide AssessJob, Harmless, Resolve, Unique, SkillSet, NormalizeTerm, Displaces, Displaced;
    if Harmless(dictionary, c.skills, x, c.parsed) {
      forall d: AssessmentJob.Description, job: AssessmentJob.Job<Facts>, mentioned: string -> bool
        ensures NotLower(AssessJob(dictionary, d, job, c, mentioned).score,
                         AssessJob(dictionary, d, job, c.(skills := c.skills + [x]), mentioned).score)
      {
        HarmlessForJob(dictionary, d, job, c, x, mentioned);
      }
    } else {
      HarmfulLowers(dictionary, c, x);
      assert !NotLower(AssessJob(dictionary, BLANK, AskingFor(Displaced(c.skills, x, c.parsed)), c, NoMention).score,
        AssessJob(dictionary, BLANK, AskingFor(Displaced(c.skills, x, c.parsed)), c.(skills := c.skills + [x]),
          NoMention).score);
    }
  }

  // ---- The case that shows it ----

  lemma {:induction false} ShortHasNoLevel(s: string)
    requires |s| <= 2
    ensures FirstPrefix(Levels(), s).None?
  {
    hide FirstPrefix;
    assert forall w :: w in Levels() ==> |w| > 2;
  }

  lemma {:induction false} ShortStripsNothing(s: string)
    requires |s| <= 2
    ensures StripLevels(s) == s
  {
    hide Levels, FirstPrefix;
    if s != "" {
      ShortHasNoLevel(s);
      ShortStripsNothing(s[1..]);
    }
  }

  lemma {:induction false} CollapseNoSpace(s: string)
    requires NoSpace(s)
    ensures Collapse(s) == s
  {
    if s != "" {
      CollapseNoSpace(s[1..]);
    }
  }

  lemma ShortHasNoCategory(s: string)
    requires 0 < |s| <= 2 && NoSpace(s)
    ensures StripCategory(s) == s
  {
    assert TrimLeft(s) == s;
    assert forall w :: w in Categories() ==> |w| > 2;
    hide TrimLeft, AfterCategory;
  }

  lemma ShortSkillTerm(s: string)
    requires 0 < |s| <= 2 && NoSpace(s) && Lower(s) == s
    ensures SkillTerm(s) == s
  {
    hide StripCategory, StripLevels, Collapse, Trim, Lower;
    ShortHasNoCategory(s);
    ShortStripsNothing(s);
    CollapseNoSpace(s);
    TrimOfTrimmed(s);
  }

  lemma CollapseLetterBlank(ch: char)
    requires 'a' <= ch <= 'z'
    ensures Trim(Collapse([ch, ' '])) == [ch]
  {
    CollapseNoSpace([ch]);
    CollapseOfPadded("", [ch], " ");
    assert "" + [ch] + " " == [ch, ' '];
    TrimOfTrimmed([ch]);
  }

  /** Punctuation is blank in a normalized term, so "c!" has the term of "c"... */
  lemma PunctuationHasNoTerm(ch: char)
    requires 'a' <= ch <= 'z'
    ensures NormalizeTerm([ch]) == [ch] && NormalizeTerm([ch, '!']) == [ch]
  {
    hide Collapse, Trim;
    CollapseNoSpace([ch]);
    TrimOfTrimmed([ch]);
    CollapseLetterBlank(ch);
    var one, two := Lower([ch]), Lower([ch, '!']);
    assert KeepTermChars(one) == [ch];
    assert KeepTermChars(two) == [ch, ' '];
  }

  lemma NothingListed()
    ensures LastOf(NormEntries([])) == map[]
  {
    assert NormEntries([]) == [];
  }

  /** ...but is another skill: listing "c!" after "c" takes "c" away. */
  lemma PunctuationIsHarmful(ch: char)
    requires 'a' <= ch <= 'z'
    ensures !Harmless([], [[ch]], [ch, '!'], [])
  {
    hide SkillTerm, NormalizeTerm, Unique, NormEntries, LastOf;
    PunctuationHasNoTerm(ch);
    ShortSkillTerm([ch]);
    ShortSkillTerm([ch, '!']);
    NormEntriesOne([ch]);
    NothingListed();
    assert [[ch]] + [] == [[ch]];
    UniqueSingle([ch]);
    var a := [[ch]];
    assert Displaces(a, [ch, '!'], []) && Displaced(a, [ch, '!'], []) == [ch];
    assert Resolve([], [ch]) == Literal([ch]) && Resolve([], [ch, '!']) == Literal([ch, '!']);
  }

  /** ...and lowers the score for a job that asks for it. */
  lemma PunctuationLowersScore(ch: char)
    requires 'a' <= ch <= 'z'
    ensures var c := Candidate([[ch]], [], false);
      AssessJob([], BLANK, AskingFor([ch]), c, NoMention).score == Some(100)
      && AssessJob([], BLANK, AskingFor([ch]), c.(skills := [[ch], [ch, '!']]), NoMention).score == Some(0)
  {
    hide AssessJob, Harmless, NormEntries, LastOf;
    PunctuationIsHarmful(ch);
    PunctuationHasNoTerm(ch);
    NormEntriesOne([ch]);
    var c := Candidate([[ch]], [], false);
    assert c.skills + [[ch, '!']] == [[ch], [ch, '!']];
    HarmfulLowers([], c, [ch, '!']);
    hide NormalizeTerm;
    assert Displaced([[ch]], [ch, '!'], []) == [ch];
  }
}
