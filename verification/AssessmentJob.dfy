/**
 Completing a job's skill lists before an assessment: the stored lists deduplicated, and, when fewer
 than three required skills are stored, the dictionary skills that the description mentions.

 The description comes as its lines. Which lines are headings, and whether a text mentions a term, are
 questions for regular expressions; here they are functions of the line and of the text.
 */
module AssessmentJob {
  import opened Prelude
  import opened Text
  import opened JsMap
  import opened SkillIndex

  /** Only the two skill lists change; `other` stands for the remaining fields. */
  datatype Job<T> = Job(skillsRequired: Option<seq<string>>, secondarySkills: Option<seq<string>>, other: T)

  datatype Heading = NoHeading | PreferredHeading | RequiredHeading | OtherHeading

  datatype Section = InRequired | InPreferred | InOther

  datatype Description = Description(lines: seq<string>, heading: string -> Heading, mentions: (string, string) -> bool)

  type Entries = seq<(Identity, string)>

  // ---- The two parts of a description ----

  /** The section after the first k lines: the last heading's, and the required one before any heading. */
  function SectionAfter(d: Description, k: nat): Section
    requires k <= |d.lines|
  {
    if k == 0 then InRequired
    else match d.heading(d.lines[k - 1])
      case PreferredHeading => InPreferred
      case RequiredHeading => InRequired
      case OtherHeading => InOther
      case NoHeading => SectionAfter(d, k - 1)
  }

  /** The lines of a section among the first k, each after a line feed. */
  function SectionText(d: Description, section: Section, k: nat): string
    requires k <= |d.lines|
  {
    if k == 0 then ""
    else
      SectionText(d, section, k - 1)
      + if d.heading(d.lines[k - 1]).NoHeading? && SectionAfter(d, k - 1) == section then "\n" + d.lines[k - 1] else ""
  }

  method ReadSections(d: Description) returns (requiredText: string, preferredText: string)
    ensures requiredText == SectionText(d, InRequired, |d.lines|)
    ensures preferredText == SectionText(d, InPreferred, |d.lines|)
  {
    var section := InRequired;
    requiredText, preferredText := "", "";
    for k := 0 to |d.lines|
      invariant section == SectionAfter(d, k)
      invariant requiredText == SectionText(d, InRequired, k) && preferredText == SectionText(d, InPreferred, k)
    {
      var line := d.lines[k];
      match d.heading(line) {
        case PreferredHeading => section := InPreferred;
        case RequiredHeading => section := InRequired;
        case OtherHeading => section := InOther;
        case NoHeading =>
          if section == InPreferred {
            preferredText := preferredText + ("\n" + line);
          }
          if section == InRequired {
            requiredText := requiredText + ("\n" + line);
          }
      }
    }
  }

  /** Every line that is no heading counts for exactly one section, and a heading for none. */
  lemma {:induction false} SectionsPartition(d: Description, k: nat)
    requires k <= |d.lines|
    ensures |SectionText(d, InRequired, k)| + |SectionText(d, InPreferred, k)| + |SectionText(d, InOther, k)|
      == TextLength(d, k)
    ensures forall s :: |SectionText(d, s, k)| == SectionLength(d, s, k)
  {
    if k > 0 {
      SectionsPartition(d, k - 1);
    }
  }

  /** Where line k is counted: a heading nowhere, another line in the section of the last heading before it. */
  predicate Counted(d: Description, section: Section, k: nat)
    requires k < |d.lines|
  {
    d.heading(d.lines[k]).NoHeading? && SectionAfter(d, k) == section
  }

  function SectionLength(d: Description, section: Section, k: nat): nat
    requires k <= |d.lines|
  {
    if k == 0 then 0
    else SectionLength(d, section, k - 1) + if Counted(d, section, k - 1) then 1 + |d.lines[k - 1]| else 0
  }

  /** Length of the lines that are no headings, line feeds included. */
  function TextLength(d: Description, k: nat): nat
    requires k <= |d.lines|
  {
    if k == 0 then 0
    else TextLength(d, k - 1) + if d.heading(d.lines[k - 1]).NoHeading? then 1 + |d.lines[k - 1]| else 0
  }

  // ---- Deduplication and completion ----

  function OrEmpty(values: Option<seq<string>>): seq<string> {
    match values case Some(v) => v case None => []
  }

  /** The entries `[resolve(value), value.trim()]` of the values that are not blank. */
  function EntriesOf(dictionary: seq<Skill>, values: seq<string>): Entries {
    if values == [] then []
    else
      var last := values[|values| - 1];
      EntriesOf(dictionary, values[..|values| - 1])
        + (if Trim(last) == "" then [] else [(Resolve(dictionary, last), Trim(last))])
  }

  function ByIdentity(dictionary: seq<Skill>, values: seq<string>): (m: JsMap<Identity, string>)
    ensures m.Valid()
  {
    FromEntries(EntriesOf(dictionary, values))
  }

  function Dedupe(dictionary: seq<Skill>, values: seq<string>): seq<string> {
    ByIdentity(dictionary, values).Values()
  }

  predicate Mentions(row: Skill, evidence: string -> bool) {
    exists i :: 0 <= i < |Terms(row)| && evidence(Terms(row)[i])
  }

  /** Canonical names found in the required part of the description. */
  function FoundRequired(dictionary: seq<Skill>, required: string -> bool): seq<string> {
    if dictionary == [] then []
    else
      var last := dictionary[|dictionary| - 1];
      FoundRequired(dictionary[..|dictionary| - 1], required)
        + (if Mentions(last, required) then [last.canonicalName] else [])
  }

  /** Canonical names found in the preferred part only. */
  function FoundPreferred(dictionary: seq<Skill>, required: string -> bool, preferred: string -> bool): seq<string> {
    if dictionary == [] then []
    else
      var last := dictionary[|dictionary| - 1];
      FoundPreferred(dictionary[..|dictionary| - 1], required, preferred)
      + (if !Mentions(last, required) && Mentions(last, preferred) then [last.canonicalName] else [])
  }

  /** The values whose identity is not among the given ones. */
  function Without(dictionary: seq<Skill>, values: seq<string>, resolved: seq<string>): seq<string> {
    if values == [] then []
    else
      var last := values[|values| - 1];
      Without(dictionary, values[..|values| - 1], resolved)
      + (if Covers(dictionary, resolved, Resolve(dictionary, last)) then [] else [last])
  }

  function ResolveJob<T>(dictionary: seq<Skill>, required: string -> bool, preferred: string -> bool,
      job: Job<T>): Job<T> {
    var primary := Dedupe(dictionary, OrEmpty(job.skillsRequired));
    var secondary := Dedupe(dictionary, OrEmpty(job.secondarySkills));
    if |primary| >= 3 then job.(skillsRequired := Some(primary), secondarySkills := Some(secondary))
    else
      var resolved := Dedupe(dictionary, primary + FoundRequired(dictionary, required));
      var more := Dedupe(dictionary, secondary + FoundPreferred(dictionary, required, preferred));
      job.(skillsRequired := Some(resolved), secondarySkills := Some(Without(dictionary, more, resolved)))
  }

  /** Whether a text of the description mentions a term. */
  function MentionedIn(d: Description, text: string): string -> bool {
    term => d.mentions(term, text)
  }

  /** The completed job, from the description's two parts. */
  function CompleteJob<T>(dictionary: seq<Skill>, d: Description, job: Job<T>): Job<T> {
    var requiredText, preferredText := SectionText(d, InRequired, |d.lines|), SectionText(d, InPreferred, |d.lines|);
    ResolveJob(dictionary, MentionedIn(d, requiredText), MentionedIn(d, preferredText), job)
  }

  method ResolveAssessmentJob<T>(dictionary: seq<Skill>, d: Description, job: Job<T>) returns (result: Job<T>)
    ensures result == CompleteJob(dictionary, d, job)
  {
    hide Dedupe, Without, Mentions;
    var primary := Dedupe(dictionary, OrEmpty(job.skillsRequired));
    var secondary := Dedupe(dictionary, OrEmpty(job.secondarySkills));
    if |primary| >= 3 {
      return job.(skillsRequired := Some(primary), secondarySkills := Some(secondary));
    }
    var requiredText, preferredText := ReadSections(d);
    var required, preferred := MentionedIn(d, requiredText), MentionedIn(d, preferredText);
    ghost var primary0, secondary0 := primary, secondary;
    for i := 0 to |dictionary|
      invariant primary == primary0 + FoundRequired(dictionary[..i], required)
      invariant secondary == secondary0 + FoundPreferred(dictionary[..i], required, preferred)
    {
      var row := dictionary[i];
      assert dictionary[..i + 1][..i] == dictionary[..i];
      if Mentions(row, required) {
        primary := primary + [row.canonicalName];
      } else if Mentions(row, preferred) {
        secondary := secondary + [row.canonicalName];
      }
    }
    assert dictionary[..|dictionary|] == dictionary;
    var resolved := Dedupe(dictionary, primary);
    result := job.(skillsRequired := Some(resolved),
                   secondarySkills := Some(Without(dictionary, Dedupe(dictionary, secondary), resolved)));
  }

  // ---- Deduplicated lists ----

  /** Entries whose values are trimmed, not blank, and resolve to their key. */
  predicate Proper(dictionary: seq<Skill>, entries: Entries) {
    forall i :: 0 <= i < |entries| ==>
      entries[i].1 != "" && Trim(entries[i].1) == entries[i].1 && Resolve(dictionary, entries[i].1) == entries[i].0
  }

  ghost predicate ProperMap(dictionary: seq<Skill>, m: JsMap<Identity, string>) {
    && m.Valid()
    && forall k :: k in m.vals ==>
      m.vals[k] != "" && Trim(m.vals[k]) == m.vals[k] && Resolve(dictionary, m.vals[k]) == k
  }

  lemma {:induction false} EntriesAreProper(dictionary: seq<Skill>, values: seq<string>)
    ensures Proper(dictionary, EntriesOf(dictionary, values))
  {
    hide Resolve, Trim;
    if values != [] {
      EntriesAreProper(dictionary, values[..|values| - 1]);
      var last := values[|values| - 1];
      TrimTwice(last);
      ResolveIgnoresPadding(dictionary, last);
    }
  }

  lemma TrimTwice(s: string)
    ensures Trim(Trim(s)) == Trim(s)
  {
    var _, _ := TrimShape(s);
    TrimOfTrimmed(Trim(s));
  }

  lemma {:induction false} ProperEntriesMakeProperMaps(dictionary: seq<Skill>, m: JsMap<Identity, string>,
      entries: Entries)
    requires ProperMap(dictionary, m) && Proper(dictionary, entries)
    ensures ProperMap(dictionary, SetAll(m, entries))
  {
    hide Resolve, Trim;
    if entries != [] {
      ProperEntriesMakeProperMaps(dictionary, m, entries[..|entries| - 1]);
    }
  }

  lemma MapsAreProper(dictionary: seq<Skill>, values: seq<string>)
    ensures ProperMap(dictionary, ByIdentity(dictionary, values))
  {
    EntriesAreProper(dictionary, values);
    ProperEntriesMakeProperMaps(dictionary, Empty(), EntriesOf(dictionary, values));
  }

  lemma {:induction false} EntriesConcat(dictionary: seq<Skill>, a: seq<string>, b: seq<string>)
    ensures EntriesOf(dictionary, a + b) == EntriesOf(dictionary, a) + EntriesOf(dictionary, b)
  {
    hide Resolve, Trim;
    if b == [] {
      assert a + b == a;
    } else {
      EntriesConcat(dictionary, a, b[..|b| - 1]);
      assert (a + b)[..|a + b| - 1] == a + b[..|b| - 1];
    }
  }

  /** The values of a proper map, read again, give its own entries. */
  lemma {:induction false} EntriesOfValues(dictionary: seq<Skill>, m: JsMap<Identity, string>, n: nat)
    requires ProperMap(dictionary, m) && n <= |m.keys|
    ensures EntriesOf(dictionary, m.Values()[..n]) == m.Items()[..n]
  {
    hide Resolve, Trim;
    if n > 0 {
      EntriesOfValues(dictionary, m, n - 1);
      assert m.Values()[..n][..n - 1] == m.Values()[..n - 1];
      assert m.Items()[..n] == m.Items()[..n - 1] + [m.Items()[n - 1]];
      assert m.keys[n - 1] in m.vals;
    }
  }

  lemma {:induction false} ValuesRebuild(dictionary: seq<Skill>, m: JsMap<Identity, string>)
    requires ProperMap(dictionary, m)
    ensures EntriesOf(dictionary, m.Values()) == m.Items()
    ensures ByIdentity(dictionary, m.Values()) == m
  {
    EntriesOfValues(dictionary, m, |m.keys|);
    assert m.Values()[..|m.keys|] == m.Values() && m.Items()[..|m.keys|] == m.Items();
    RebuildIsIdentity(m);
  }

  /** More values read after the values of a proper map. */
  lemma {:induction false} ReadMore(dictionary: seq<Skill>, m: JsMap<Identity, string>, more: seq<string>)
    requires ProperMap(dictionary, m)
    ensures ByIdentity(dictionary, m.Values() + more) == SetAll(m, EntriesOf(dictionary, more))
  {
    ValuesRebuild(dictionary, m);
    EntriesConcat(dictionary, m.Values(), more);
    SetAllConcat(Empty<Identity, string>(), m.Items(), EntriesOf(dictionary, more));
    RebuildIsIdentity(m);
  }

  // ---- The filtered list as a map ----

  /** The map without some keys. */
  function Drop(m: JsMap<Identity, string>, gone: set<Identity>): JsMap<Identity, string> {
    JsMap(Rest(m.keys, gone), m.vals - gone)
  }

  function Rest(keys: seq<Identity>, gone: set<Identity>): (r: seq<Identity>)
    ensures forall k :: k in r <==> k in keys && k !in gone
  {
    if keys == [] then []
    else
      var last := keys[|keys| - 1];
      assert keys == keys[..|keys| - 1] + [last];
      Rest(keys[..|keys| - 1], gone) + (if last in gone then [] else [last])
  }

  lemma {:induction false} RestKeepsDistinct(keys: seq<Identity>, gone: set<Identity>)
    requires forall i, j :: 0 <= i < j < |keys| ==> keys[i] != keys[j]
    ensures forall i, j :: 0 <= i < j < |Rest(keys, gone)| ==> Rest(keys, gone)[i] != Rest(keys, gone)[j]
  {
    if keys != [] {
      RestKeepsDistinct(keys[..|keys| - 1], gone);
    }
  }

  lemma DropIsProper(dictionary: seq<Skill>, m: JsMap<Identity, string>, gone: set<Identity>)
    requires ProperMap(dictionary, m)
    ensures ProperMap(dictionary, Drop(m, gone))
  {
    hide Resolve, Trim;
    RestKeepsDistinct(m.keys, gone);
  }

  lemma PrefixGrows(m: JsMap<Identity, string>, n: nat)
    requires m.Valid() && 0 < n <= |m.keys|
    ensures m.keys[n - 1] in m.vals
    ensures m.Values()[..n] == m.Values()[..n - 1] + [m.vals[m.keys[n - 1]]]
    ensures m.keys[..n] == m.keys[..n - 1] + [m.keys[n - 1]]
  {
  }

  lemma {:induction false} WithoutMore(dictionary: seq<Skill>, values: seq<string>, x: string, resolved: seq<string>)
    ensures Without(dictionary, values + [x], resolved) == Without(dictionary, values, resolved)
      + (if Covers(dictionary, resolved, Resolve(dictionary, x)) then [] else [x])
  {
    hide Resolve, Covers;
    assert (values + [x])[..|values|] == values;
  }

  /** The values a map gives to a list of its keys. */
  predicate ValuesOf(m: JsMap<Identity, string>, keys: seq<Identity>, values: seq<string>) {
    |keys| == |values| && forall i :: 0 <= i < |keys| ==> keys[i] in m.vals && values[i] == m.vals[keys[i]]
  }

  /** `Without` drops exactly the keys of the resolved list. */
  lemma {:induction false} WithoutDrops(dictionary: seq<Skill>, m: JsMap<Identity, string>, resolved: seq<string>,
      gone: set<Identity>, n: nat)
    requires ProperMap(dictionary, m) && n <= |m.keys|
    requires forall k :: k in gone <==> Covers(dictionary, resolved, k)
    ensures ValuesOf(m, Rest(m.keys[..n], gone), Without(dictionary, m.Values()[..n], resolved))
  {
    hide Resolve, Trim, Covers, Without, Rest, ValuesOf;
    if n == 0 {
      NothingDropped(dictionary, m, resolved, gone);
    } else {
      WithoutDrops(dictionary, m, resolved, gone, n - 1);
      PrefixGrows(m, n);
      var k := m.keys[n - 1];
      assert Resolve(dictionary, m.vals[k]) == k;
      RestConcat(m.keys[..n - 1], k, gone);
      WithoutMore(dictionary, m.Values()[..n - 1], m.vals[k], resolved);
      ValuesOfMore(m, Rest(m.keys[..n - 1], gone), Without(dictionary, m.Values()[..n - 1], resolved), k);
      assert Rest(m.keys[..n - 1], gone) + [] == Rest(m.keys[..n - 1], gone);
    }
  }

  lemma {:induction false} NothingDropped(dictionary: seq<Skill>, m: JsMap<Identity, string>, resolved: seq<string>,
      gone: set<Identity>)
    requires m.Valid()
    ensures ValuesOf(m, Rest(m.keys[..0], gone), Without(dictionary, m.Values()[..0], resolved))
  {
    hide Resolve;
  }

  lemma ValuesOfMore(m: JsMap<Identity, string>, keys: seq<Identity>, values: seq<string>, k: Identity)
    requires ValuesOf(m, keys, values) && k in m.vals
    ensures ValuesOf(m, keys + [k], values + [m.vals[k]]) && values + [] == values
  {
  }

  /** The keys decide the values. */
  lemma SameValues(m: JsMap<Identity, string>, keys: seq<Identity>, a: seq<string>, b: seq<string>)
    requires ValuesOf(m, keys, a) && ValuesOf(m, keys, b)
    ensures a == b
  {
  }

  lemma {:induction false} DroppedValues(m: JsMap<Identity, string>, gone: set<Identity>)
    requires m.Valid() && Drop(m, gone).Valid()
    ensures ValuesOf(m, Rest(m.keys, gone), Drop(m, gone).Values())
  {
  }

  lemma {:induction false} WithoutIsDrop(dictionary: seq<Skill>, m: JsMap<Identity, string>,
      resolved: JsMap<Identity, string>)
    requires ProperMap(dictionary, m) && ProperMap(dictionary, resolved)
    ensures Drop(m, resolved.vals.Keys).Valid()
    ensures Without(dictionary, m.Values(), resolved.Values()) == Drop(m, resolved.vals.Keys).Values()
  {
    hide Resolve, Trim, Without, Covers, Rest, ValuesOf;
    var gone := resolved.vals.Keys;
    forall k
      ensures k in gone <==> Covers(dictionary, resolved.Values(), k)
    {
      KeysOfValues(dictionary, resolved, k);
    }
    WithoutDrops(dictionary, m, resolved.Values(), gone, |m.keys|);
    assert m.Values()[..|m.keys|] == m.Values() && m.keys[..|m.keys|] == m.keys;
    DropIsProper(dictionary, m, gone);
    DroppedValues(m, gone);
    SameValues(m, Rest(m.keys, gone), Without(dictionary, m.Values(), resolved.Values()), Drop(m, gone).Values());
  }

  lemma KeysOfValues(dictionary: seq<Skill>, m: JsMap<Identity, string>, k: Identity)
    requires ProperMap(dictionary, m)
    ensures k in m.vals <==> Covers(dictionary, m.Values(), k)
  {
    hide Resolve, Trim;
    if k in m.vals {
      var i :| 0 <= i < |m.keys| && m.keys[i] == k;
      assert m.Values()[i] == m.vals[k];
    }
    if r :| r in m.Values() && Resolve(dictionary, r) == k {
      var i :| 0 <= i < |m.Values()| && m.Values()[i] == r;
      assert m.keys[i] in m.vals;
    }
  }

  // ---- Idempotence ----

  /** Reading the preferred entries again into the filtered map, and filtering again, gives the same map. */
  lemma {:induction false} DropAbsorbs(m: JsMap<Identity, string>, entries: Entries, gone: set<Identity>)
    requires m.Valid() && Drop(m, gone).Valid()
    requires forall k :: k in LastOf(entries) ==> k in m.vals && m.vals[k] == LastOf(entries)[k]
    ensures Drop(SetAll(Drop(m, gone), entries), gone) == Drop(m, gone)
  {
    hide Rest, SetAll;
    var d := Drop(m, gone);
    LastWins(d, entries);
    assert forall k :: k in LastOf(entries) && k !in d.vals ==> k in gone;
    NewKeysAreGone(d, entries, gone);
    RestOfRest(m.keys, gone);
    ValuesAbsorb(m.vals, LastOf(entries), gone);
  }

  lemma ValuesAbsorb(vals: map<Identity, string>, last: map<Identity, string>, gone: set<Identity>)
    requires forall k :: k in last ==> k in vals && vals[k] == last[k]
    ensures ((vals - gone) + last) - gone == vals - gone
  {
  }

  lemma {:induction false} RestOfRest(keys: seq<Identity>, gone: set<Identity>)
    ensures Rest(Rest(keys, gone), gone) == Rest(keys, gone)
  {
    if keys != [] {
      var init := keys[..|keys| - 1];
      RestOfRest(init, gone);
      RestConcat(Rest(init, gone), keys[|keys| - 1], gone);
    }
  }

  lemma {:induction false} RestConcat(keys: seq<Identity>, k: Identity, gone: set<Identity>)
    ensures Rest(keys + [k], gone) == Rest(keys, gone) + (if k in gone then [] else [k])
    ensures keys + [] == keys
  {
    assert (keys + [k])[..|keys|] == keys;
  }

  /** Keys that are new to a map and all among the gone ones do not show after filtering. */
  lemma {:induction false} NewKeysAreGone(d: JsMap<Identity, string>, entries: Entries, gone: set<Identity>)
    requires d.Valid()
    requires forall k :: k in LastOf(entries) && k !in d.vals ==> k in gone
    ensures Rest(SetAll(d, entries).keys, gone) == Rest(d.keys, gone)
  {
    if entries != [] {
      var init, last := entries[..|entries| - 1], entries[|entries| - 1];
      NewKeysAreGone(d, init, gone);
      LastWins(d, init);
      RestConcat(SetAll(d, init).keys, last.0, gone);
    }
  }

  /** Completing a completed job changes nothing, whatever the job, the dictionary and the description. */
  lemma ResolvingTwice<T>(dictionary: seq<Skill>, required: string -> bool, preferred: string -> bool, job: Job<T>)
    ensures var once := ResolveJob(dictionary, required, preferred, job);
      ResolveJob(dictionary, required, preferred, once) == once
  {
    hide Resolve, Trim, FoundRequired, FoundPreferred, Without, ProperMap;
    var m := ByIdentity(dictionary, OrEmpty(job.skillsRequired));
    var n := ByIdentity(dictionary, OrEmpty(job.secondarySkills));
    MapsAreProper(dictionary, OrEmpty(job.skillsRequired));
    MapsAreProper(dictionary, OrEmpty(job.secondarySkills));
    if |m.Values()| >= 3 {
      ValuesRebuild(dictionary, m);
      ValuesRebuild(dictionary, n);
    } else {
      ResolvingTextTwice(dictionary, m, n, FoundRequired(dictionary, required),
        FoundPreferred(dictionary, required, preferred));
    }
  }

  /** The same for a description: completing a completed job changes nothing. */
  lemma CompletingTwice<T>(dictionary: seq<Skill>, d: Description, job: Job<T>)
    ensures CompleteJob(dictionary, d, CompleteJob(dictionary, d, job)) == CompleteJob(dictionary, d, job)
  {
    hide ResolveJob;
    var requiredText, preferredText := SectionText(d, InRequired, |d.lines|), SectionText(d, InPreferred, |d.lines|);
    ResolvingTwice(dictionary, MentionedIn(d, requiredText), MentionedIn(d, preferredText), job);
  }

  /** The text-derived branch, on the maps behind the two lists. */
  lemma {:induction false} ResolvingTextTwice(dictionary: seq<Skill>, m: JsMap<Identity, string>,
      n: JsMap<Identity, string>, f: seq<string>, g: seq<string>)
    requires ProperMap(dictionary, m) && ProperMap(dictionary, n)
    ensures var r := Dedupe(dictionary, m.Values() + f);
      var s := Without(dictionary, Dedupe(dictionary, n.Values() + g), r);
      Dedupe(dictionary, r) == r && Dedupe(dictionary, s) == s &&
      Dedupe(dictionary, r + f) == r && Without(dictionary, Dedupe(dictionary, s + g), r) == s
  {
    hide Resolve, Trim, Without, EntriesOf;
    var ef, eg := EntriesOf(dictionary, f), EntriesOf(dictionary, g);
    EntriesAreProper(dictionary, f);
    EntriesAreProper(dictionary, g);
    var rm, sm := SetAll(m, ef), SetAll(n, eg);
    ReadMore(dictionary, m, f);
    ReadMore(dictionary, n, g);
    ProperEntriesMakeProperMaps(dictionary, m, ef);
    ProperEntriesMakeProperMaps(dictionary, n, eg);
    hide ProperMap;
    ValuesRebuild(dictionary, rm);
    ReadMore(dictionary, rm, f);
    SetAllTwice(m, ef);
    var gone := rm.vals.Keys;
    WithoutIsDrop(dictionary, sm, rm);
    DropIsProper(dictionary, sm, gone);
    var d := Drop(sm, gone);
    ValuesRebuild(dictionary, d);
    ReadMore(dictionary, d, g);
    ProperEntriesMakeProperMaps(dictionary, d, eg);
    WithoutIsDrop(dictionary, SetAll(d, eg), rm);
    LastWins(n, eg);
    DropAbsorbs(sm, eg, gone);
  }

  // ---- What completion finds ----

  /** What a section's heading is. */
  function HeadingOf(section: Section): Heading {
    match section case InRequired => RequiredHeading case InPreferred => PreferredHeading case InOther => OtherHeading
  }

  /** Line j is the last heading among the first k lines. */
  predicate LastHeading(d: Description, j: int, k: int) {
    0 <= j < k <= |d.lines| && !d.heading(d.lines[j]).NoHeading?
    && forall i :: j < i < k ==> d.heading(d.lines[i]).NoHeading?
  }

  /** A line is in the section of the last heading before it; without one it is in the required part. */
  lemma {:induction false} SectionAfterExactly(d: Description, k: nat, section: Section)
    requires k <= |d.lines|
    ensures SectionAfter(d, k) == section <==>
      (exists j :: LastHeading(d, j, k) && d.heading(d.lines[j]) == HeadingOf(section))
      || (section == InRequired && forall i :: 0 <= i < k ==> d.heading(d.lines[i]).NoHeading?)
  {
    if k > 0 {
      SectionAfterExactly(d, k - 1, section);
      if d.heading(d.lines[k - 1]).NoHeading? {
        forall j
          ensures LastHeading(d, j, k) <==> LastHeading(d, j, k - 1)
        {
        }
      } else {
        assert LastHeading(d, k - 1, k);
        forall j | LastHeading(d, j, k)
          ensures j == k - 1
        {
        }
      }
    }
  }

  /** Some value that is not blank has this identity. */
  predicate Names(dictionary: seq<Skill>, values: seq<string>, x: Identity) {
    exists i :: 0 <= i < |values| && Trim(values[i]) != "" && Resolve(dictionary, values[i]) == x
  }

  lemma NamesConcat(dictionary: seq<Skill>, a: seq<string>, b: seq<string>, x: Identity)
    ensures Names(dictionary, a + b, x) <==> Names(dictionary, a, x) || Names(dictionary, b, x)
  {
    hide Resolve, Trim;
    var c := a + b;
    forall i | 0 <= i < |a|
      ensures c[i] == a[i]
    {
    }
    forall i | 0 <= i < |b|
      ensures c[|a| + i] == b[i]
    {
    }
    if i :| 0 <= i < |c| && Trim(c[i]) != "" && Resolve(dictionary, c[i]) == x {
      if i < |a| {
        assert c[i] == a[i];
      } else {
        assert c[i] == b[i - |a|];
      }
    }
    if i :| 0 <= i < |b| && Trim(b[i]) != "" && Resolve(dictionary, b[i]) == x {
      assert c[|a| + i] == b[i];
    }
  }

  lemma {:induction false} KeysAreNames(dictionary: seq<Skill>, values: seq<string>, x: Identity)
    ensures x in LastOf(EntriesOf(dictionary, values)) <==> Names(dictionary, values, x)
  {
    hide Resolve, Trim;
    if values != [] {
      var init, last := values[..|values| - 1], values[|values| - 1];
      assert values == init + [last];
      KeysAreNames(dictionary, init, x);
      NamesConcat(dictionary, init, [last], x);
      EntriesConcat(dictionary, init, [last]);
      LastOfConcat(EntriesOf(dictionary, init), EntriesOf(dictionary, [last]));
      KeysOfOne(dictionary, last, x);
    }
  }

  lemma {:induction false} KeysOfOne(dictionary: seq<Skill>, value: string, x: Identity)
    ensures x in LastOf(EntriesOf(dictionary, [value])) <==> Names(dictionary, [value], x)
  {
    hide Resolve, Trim;
    assert [value][..0] == [];
    if Trim(value) != "" {
      var e := [(Resolve(dictionary, value), Trim(value))];
      assert EntriesOf(dictionary, [value]) == e && e[..0] == [];
      assert [value][0] == value;
    } else {
      assert EntriesOf(dictionary, [value]) == [];
    }
  }

  lemma KeysOfDeduped(dictionary: seq<Skill>, values: seq<string>, x: Identity)
    ensures x in ByIdentity(dictionary, values).vals <==> Names(dictionary, values, x)
  {
    hide EntriesOf, Names;
    var entries := EntriesOf(dictionary, values);
    KeysAreNames(dictionary, values, x);
    LastWins(Empty(), entries);
    hide LastOf, SetAll;
    assert map[] + LastOf(entries) == LastOf(entries);
    FromEntriesSets(entries);
  }

  lemma {:induction false} FromEntriesSets(entries: Entries)
    ensures FromEntries(entries) == SetAll(Empty(), entries)
  {
    hide SetAll;
  }

  /** Deduplication keeps exactly the identities of the values that are not blank. */
  lemma DedupeKeepsIdentities(dictionary: seq<Skill>, values: seq<string>, x: Identity)
    ensures Covers(dictionary, Dedupe(dictionary, values), x) <==> Names(dictionary, values, x)
    ensures Names(dictionary, Dedupe(dictionary, values), x) <==> Names(dictionary, values, x)
  {
    hide ByIdentity, ProperMap, Covers, Names, JsMap.Valid, JsMap.Values;
    MapsAreProper(dictionary, values);
    var m := ByIdentity(dictionary, values);
    KeysOfValues(dictionary, m, x);
    KeysOfDeduped(dictionary, values, x);
    ProperValuesAreNamed(dictionary, m, x);
  }

  lemma ProperValuesAreNamed(dictionary: seq<Skill>, m: JsMap<Identity, string>, x: Identity)
    requires ProperMap(dictionary, m)
    ensures Covers(dictionary, m.Values(), x) <==> Names(dictionary, m.Values(), x)
  {
    hide Resolve, Trim;
    forall i | 0 <= i < |m.Values()|
      ensures Trim(m.Values()[i]) != ""
    {
      assert m.keys[i] in m.vals && m.Values()[i] == m.vals[m.keys[i]];
    }
  }

  /** One of the row's names, canonical or alias, is mentioned. */
  predicate Mentioned(row: Skill, evidence: string -> bool) {
    evidence(row.canonicalName) || exists i :: 0 <= i < |row.aliases| && evidence(row.aliases[i])
  }

  lemma MentionsExactly(row: Skill, evidence: string -> bool)
    ensures Mentions(row, evidence) <==> Mentioned(row, evidence)
  {
    var terms := Terms(row);
    assert terms[0] == row.canonicalName && forall i :: 0 <= i < |row.aliases| ==> terms[i + 1] == row.aliases[i];
    if i :| 0 <= i < |terms| && evidence(terms[i]) {
      if i > 0 {
        assert terms[i] == row.aliases[i - 1];
      }
    }
    if i :| 0 <= i < |row.aliases| && evidence(row.aliases[i]) {
      assert terms[i + 1] == row.aliases[i];
    }
  }

  /** A dictionary row of this identity that the required part mentions. */
  predicate InRequiredPart(dictionary: seq<Skill>, required: string -> bool, x: Identity) {
    exists i :: 0 <= i < |dictionary| && Mentioned(dictionary[i], required)
      && Trim(dictionary[i].canonicalName) != "" && Resolve(dictionary, dictionary[i].canonicalName) == x
  }

  /** One that only the preferred part mentions. */
  predicate InPreferredPart(dictionary: seq<Skill>, required: string -> bool, preferred: string -> bool, x: Identity) {
    exists i :: 0 <= i < |dictionary| && !Mentioned(dictionary[i], required) && Mentioned(dictionary[i], preferred)
      && Trim(dictionary[i].canonicalName) != "" && Resolve(dictionary, dictionary[i].canonicalName) == x
  }

  lemma {:induction false} FoundRequiredMembers(dictionary: seq<Skill>, required: string -> bool)
    ensures forall v :: v in FoundRequired(dictionary, required) <==>
      exists i :: 0 <= i < |dictionary| && Mentioned(dictionary[i], required) && dictionary[i].canonicalName == v
  {
    hide Mentions, Mentioned;
    if dictionary != [] {
      var init, last := dictionary[..|dictionary| - 1], dictionary[|dictionary| - 1];
      FoundRequiredMembers(init, required);
      MentionsExactly(last, required);
      assert dictionary == init + [last];
    }
  }

  lemma {:induction false} FoundPreferredMembers(dictionary: seq<Skill>, required: string -> bool,
      preferred: string -> bool)
    ensures forall v :: v in FoundPreferred(dictionary, required, preferred) <==>
      exists i :: 0 <= i < |dictionary| && !Mentioned(dictionary[i], required) && Mentioned(dictionary[i], preferred)
        && dictionary[i].canonicalName == v
  {
    hide Mentions, Mentioned;
    if dictionary != [] {
      var init, last := dictionary[..|dictionary| - 1], dictionary[|dictionary| - 1];
      FoundPreferredMembers(init, required, preferred);
      MentionsExactly(last, required);
      MentionsExactly(last, preferred);
      assert dictionary == init + [last];
    }
  }

  lemma {:induction false} FoundNames(dictionary: seq<Skill>, required: string -> bool, preferred: string -> bool,
      x: Identity)
    ensures Names(dictionary, FoundRequired(dictionary, required), x) <==> InRequiredPart(dictionary, required, x)
    ensures Names(dictionary, FoundPreferred(dictionary, required, preferred), x)
       <==> InPreferredPart(dictionary, required, preferred, x)
  {
    FoundRequiredMembers(dictionary, required);
    FoundPreferredMembers(dictionary, required, preferred);
    hide FoundRequired, FoundPreferred, Mentioned, Resolve, Trim;
    NamesByMember(dictionary, FoundRequired(dictionary, required), x);
    NamesByMember(dictionary, FoundPreferred(dictionary, required, preferred), x);
  }

  lemma NamesByMember(dictionary: seq<Skill>, values: seq<string>, x: Identity)
    ensures Names(dictionary, values, x) <==>
      exists v :: v in values && Trim(v) != "" && Resolve(dictionary, v) == x
  {
    hide Resolve, Trim;
  }

  lemma {:induction false} WithoutMembers(dictionary: seq<Skill>, values: seq<string>, resolved: seq<string>)
    ensures forall v :: v in Without(dictionary, values, resolved) <==>
      v in values && !Covers(dictionary, resolved, Resolve(dictionary, v))
  {
    hide Resolve, Covers;
    if values != [] {
      var init, last := values[..|values| - 1], values[|values| - 1];
      WithoutMembers(dictionary, init, resolved);
      assert values == init + [last];
    }
  }

  lemma {:induction false} WithoutCovers(dictionary: seq<Skill>, values: seq<string>, resolved: seq<string>,
      x: Identity)
    ensures Covers(dictionary, Without(dictionary, values, resolved), x)
       <==> Covers(dictionary, values, x) && !Covers(dictionary, resolved, x)
  {
    WithoutMembers(dictionary, values, resolved);
    hide Without, Resolve;
  }

  /** How an identity gets into the completed lists, from the stored ones and the two parts of the description. */
  predicate Completes(dictionary: seq<Skill>, stored: seq<string>, also: seq<string>, required: string -> bool,
      preferred: string -> bool, skills: seq<string>, others: seq<string>, x: Identity) {
    var isRequired, isAdditional := Covers(dictionary, skills, x), Covers(dictionary, others, x);
    if |Dedupe(dictionary, stored)| >= 3 then
      isRequired == Names(dictionary, stored, x) && isAdditional == Names(dictionary, also, x)
    else
      && isRequired == (Names(dictionary, stored, x) || InRequiredPart(dictionary, required, x))
      && isAdditional ==
           (!isRequired && (Names(dictionary, also, x) || InPreferredPart(dictionary, required, preferred, x)))
  }

  /**
   Three stored required skills are enough. With fewer, those that the required part mentions are added, and to the
   additional ones those that only the preferred part mentions, unless they are required. Nothing else changes.
  */
  lemma {:induction false} CompletionExactly<T>(dictionary: seq<Skill>, d: Description, job: Job<T>, x: Identity)
    ensures var r := CompleteJob(dictionary, d, job);
      var stored, also := OrEmpty(job.skillsRequired), OrEmpty(job.secondarySkills);
      var required := (t: string) => d.mentions(t, SectionText(d, InRequired, |d.lines|));
      var preferred := (t: string) => d.mentions(t, SectionText(d, InPreferred, |d.lines|));
      && r.skillsRequired.Some? && r.secondarySkills.Some? && r.other == job.other
      && Completes(dictionary, stored, also, required, preferred, r.skillsRequired.value, r.secondarySkills.value, x)
  {
    var required := MentionedIn(d, SectionText(d, InRequired, |d.lines|));
    var preferred := MentionedIn(d, SectionText(d, InPreferred, |d.lines|));
    ResolutionExactly(dictionary, required, preferred, job, x);
    var required' := (t: string) => d.mentions(t, SectionText(d, InRequired, |d.lines|));
    var preferred' := (t: string) => d.mentions(t, SectionText(d, InPreferred, |d.lines|));
    SameParts(dictionary, required, required', preferred, preferred', x);
    hide ResolveJob, Covers, Names, InRequiredPart, InPreferredPart, Dedupe;
  }

  lemma SameParts(dictionary: seq<Skill>, a: string -> bool, a': string -> bool, b: string -> bool, b': string -> bool,
      x: Identity)
    requires forall t :: a(t) == a'(t) && b(t) == b'(t)
    ensures InRequiredPart(dictionary, a, x) == InRequiredPart(dictionary, a', x)
    ensures InPreferredPart(dictionary, a, b, x) == InPreferredPart(dictionary, a', b', x)
  {
    hide Resolve, Trim;
    forall row: Skill
      ensures Mentioned(row, a) == Mentioned(row, a') && Mentioned(row, b) == Mentioned(row, b')
    {
    }
    hide Mentioned;
  }

  lemma ResolutionExactly<T>(dictionary: seq<Skill>, required: string -> bool, preferred: string -> bool, job: Job<T>,
      x: Identity)
    ensures var r := ResolveJob(dictionary, required, preferred, job);
      var stored, also := OrEmpty(job.skillsRequired), OrEmpty(job.secondarySkills);
      && r.skillsRequired.Some? && r.secondarySkills.Some? && r.other == job.other
      && Completes(dictionary, stored, also, required, preferred, r.skillsRequired.value, r.secondarySkills.value, x)
  {
    var stored, also := OrEmpty(job.skillsRequired), OrEmpty(job.secondarySkills);
    var primary, secondary := Dedupe(dictionary, stored), Dedupe(dictionary, also);
    var found, more := FoundRequired(dictionary, required), FoundPreferred(dictionary, required, preferred);
    hide Dedupe, Covers, Names, InRequiredPart, InPreferredPart, FoundRequired, FoundPreferred, Without;
    DedupeKeepsIdentities(dictionary, stored, x);
    DedupeKeepsIdentities(dictionary, also, x);
    DedupeKeepsIdentities(dictionary, primary + found, x);
    DedupeKeepsIdentities(dictionary, secondary + more, x);
    NamesConcat(dictionary, primary, found, x);
    NamesConcat(dictionary, secondary, more, x);
    FoundNames(dictionary, required, preferred, x);
    WithoutCovers(dictionary, Dedupe(dictionary, secondary + more), Dedupe(dictionary, primary + found), x);
  }
}
