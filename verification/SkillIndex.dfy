/** The skill dictionary: normalized terms, the term-to-id index, and how a skill is identified. */
module SkillIndex {
  import opened Prelude
  import opened Text

  datatype Skill = Skill(id: nat, canonicalName: string, aliases: seq<string>)

  /** `skill:<id>` for the one row a term belongs to, `literal:<term>` otherwise. */
  datatype Identity = Known(id: nat) | Literal(term: string)

  // ---- skillTerm ----

  function Categories(): seq<string> {
    ["programming", "frontend", "backend", "database", "tools"]
  }

  function Levels(): seq<string> {
    ["(basic)", "(basics)", "(advanced)", "(intermediate)", "(beginner)"]
  }

  function FirstPrefix(words: seq<string>, s: string): (r: Option<string>)
    ensures r.Some? ==> r.value in words && r.value <= s
    ensures r.None? ==> forall w :: w in words ==> !(w <= s)
  {
    if words == [] then None
    else if words[0] <= s then Some(words[0])
    else
      assert words == [words[0]] + words[1..];
      FirstPrefix(words[1..], s)
  }

  /** What follows a category word: after a colon the rest, without one the whole string. */
  function AfterCategory(s: string, tail: string): string {
    var rest := TrimLeft(tail);
    if rest != "" && rest[0] == ':' then TrimLeft(rest[1..]) else s
  }

  /** Drops one leading category label such as `tools :`. */
  function StripCategory(s: string): string {
    var t := TrimLeft(s);
    match FirstPrefix(Categories(), t)
    case None => s
    case Some(word) => AfterCategory(s, t[|word|..])
  }

  /** Drops every proficiency decorator, scanning left to right. */
  function StripLevels(s: string): string {
    if s == "" then ""
    else match FirstPrefix(Levels(), s)
      case Some(word) => if word == "" then "" else StripLevels(s[|word|..])
      case None => [s[0]] + StripLevels(s[1..])
  }

  function SkillTerm(value: string): string {
    Trim(Collapse(StripLevels(StripCategory(Lower(value)))))
  }

  // ---- The index ----

  function Terms(row: Skill): seq<string> {
    [row.canonicalName] + row.aliases
  }

  /** The row carries this normalized term. */
  predicate Carries(row: Skill, key: string) {
    exists i :: 0 <= i < |Terms(row)| && SkillTerm(Terms(row)[i]) == key
  }

  /** The ids a linear scan of the dictionary finds for a term. */
  function Scan(dictionary: seq<Skill>, key: string): set<nat> {
    set i | 0 <= i < |dictionary| && Carries(dictionary[i], key) :: dictionary[i].id
  }

  /** The index built by the two loops agrees with the scan on every non-empty term. */
  ghost predicate IndexOf(ids: map<string, set<nat>>, dictionary: seq<Skill>) {
    forall key :: (key in ids <==> key != "" && Scan(dictionary, key) != {})
      && (key in ids ==> ids[key] == Scan(dictionary, key))
  }

  function Insert(ids: map<string, set<nat>>, key: string, id: nat): map<string, set<nat>> {
    ids[key := (if key in ids then ids[key] else {}) + {id}]
  }

  /** What the inner loop has added after the first n terms of a row. */
  function RowTerms(row: Skill, n: nat): set<string>
    requires n <= |Terms(row)|
  {
    set i | 0 <= i < n :: SkillTerm(Terms(row)[i])
  }

  /** The scan of the rows before, extended by some terms of one more row. */
  ghost predicate PartialIndex(ids: map<string, set<nat>>, dictionary: seq<Skill>, row: Skill, terms: set<string>) {
    forall key ::
      var found := Scan(dictionary, key) + (if key in terms then {row.id} else {});
      (key in ids <==> key != "" && found != {}) && (key in ids ==> ids[key] == found)
  }

  /** The inner loop: one row's terms. */
  method AddRow(before: map<string, set<nat>>, row: Skill, ghost dictionary: seq<Skill>)
      returns (ids: map<string, set<nat>>)
    requires IndexOf(before, dictionary)
    ensures PartialIndex(ids, dictionary, row, RowTerms(row, |Terms(row)|))
  {
    hide SkillTerm, Scan;
    ids := before;
    var terms := Terms(row);
    assert RowTerms(row, 0) == {};
    for j := 0 to |terms|
      invariant PartialIndex(ids, dictionary, row, RowTerms(row, j))
    {
      var key := SkillTerm(terms[j]);
      assert RowTerms(row, j + 1) == RowTerms(row, j) + {key};
      AddTerm(ids, dictionary, row, RowTerms(row, j), key);
      if key != "" {
        ids := Insert(ids, key, row.id);
      }
    }
  }

  lemma AddTerm(ids: map<string, set<nat>>, dictionary: seq<Skill>, row: Skill, terms: set<string>, key: string)
    requires PartialIndex(ids, dictionary, row, terms)
    ensures PartialIndex(if key != "" then Insert(ids, key, row.id) else ids, dictionary, row, terms + {key})
  {
    hide Scan;
  }

  method BuildIndex(dictionary: seq<Skill>) returns (ids: map<string, set<nat>>)
    ensures IndexOf(ids, dictionary)
  {
    ids := map[];
    for i := 0 to |dictionary|
      invariant IndexOf(ids, dictionary[..i])
    {
      ids := AddRow(ids, dictionary[i], dictionary[..i]);
      ScanMore(dictionary[..i], dictionary[i]);
      hide Scan;
      assert dictionary[..i + 1] == dictionary[..i] + [dictionary[i]];
    }
    assert dictionary[..|dictionary|] == dictionary;
  }

  lemma ScanMore(dictionary: seq<Skill>, row: Skill)
    ensures forall key ::
      Scan(dictionary + [row], key)
        == Scan(dictionary, key) + (if key in RowTerms(row, |Terms(row)|) then {row.id} else {})
  {
    hide Scan, Carries, RowTerms;
    forall key
      ensures Scan(dictionary + [row], key)
        == Scan(dictionary, key) + (if key in RowTerms(row, |Terms(row)|) then {row.id} else {})
    {
      TermsCarried(row, key);
      ScanOneMore(dictionary, row, key);
    }
  }

  lemma TermsCarried(row: Skill, key: string)
    ensures key in RowTerms(row, |Terms(row)|) <==> Carries(row, key)
  {
    hide SkillTerm;
  }

  lemma ScanOneMore(dictionary: seq<Skill>, row: Skill, key: string)
    ensures Scan(dictionary + [row], key) == Scan(dictionary, key) + (if Carries(row, key) then {row.id} else {})
  {
    hide Carries;
    var more := dictionary + [row];
    forall id | id in Scan(dictionary, key)
      ensures id in Scan(more, key)
    {
      var i :| 0 <= i < |dictionary| && Carries(dictionary[i], key) && dictionary[i].id == id;
      assert more[i] == dictionary[i];
    }
    if Carries(row, key) {
      assert more[|dictionary|] == row;
    }
    forall id | id in Scan(more, key)
      ensures id in Scan(dictionary, key) || (id == row.id && Carries(row, key))
    {
      var i :| 0 <= i < |more| && Carries(more[i], key) && more[i].id == id;
      if i < |dictionary| {
        assert more[i] == dictionary[i];
      }
    }
  }

  // ---- resolve ----

  /** The only element of a one-element set of ids. */
  function TheOnly(ids: set<nat>): (id: nat)
    requires |ids| == 1
    ensures ids == {id}
  {
    OnlyElement(ids);
    var id :| id in ids;
    id
  }

  lemma OnlyElement(ids: set<nat>)
    requires |ids| == 1
    ensures exists id :: ids == {id}
    ensures forall a, b :: a in ids && b in ids ==> a == b
  {
    var id :| id in ids;
    assert |ids - {id}| == 0;
    assert ids == {id};
  }

  function Resolve(dictionary: seq<Skill>, value: string): Identity {
    var key := SkillTerm(value);
    var matches := Scan(dictionary, key);
    if key != "" && |matches| == 1 then Known(TheOnly(matches)) else Literal(key)
  }

  /** The service's `resolve`: a look-up in the index. */
  method ResolveByIndex(ids: map<string, set<nat>>, value: string, ghost dictionary: seq<Skill>)
      returns (identity: Identity)
    requires IndexOf(ids, dictionary)
    ensures identity == Resolve(dictionary, value)
  {
    var key := SkillTerm(value);
    if key in ids && |ids[key]| == 1 {
      identity := Known(TheOnly(ids[key]));
    } else {
      identity := Literal(key);
    }
  }

  /** Some of the values has this identity. */
  predicate Covers(dictionary: seq<Skill>, values: seq<string>, id: Identity) {
    exists v :: v in values && Resolve(dictionary, v) == id
  }

  /** Row ids are unique: they are the table's primary key. */
  predicate DistinctIds(dictionary: seq<Skill>) {
    forall i, j :: 0 <= i < j < |dictionary| ==> dictionary[i].id != dictionary[j].id
  }

  /** A skill gets the identity of row i exactly when row i is the only row with a matching term. */
  lemma ResolvesToOnlyRow(dictionary: seq<Skill>, value: string, i: nat)
    requires DistinctIds(dictionary) && i < |dictionary|
    ensures Resolve(dictionary, value) == Known(dictionary[i].id)
       <==> SkillTerm(value) != "" && forall j :: 0 <= j < |dictionary| ==>
         (Carries(dictionary[j], SkillTerm(value)) <==> j == i)
  {
    var key := SkillTerm(value);
    hide SkillTerm, Carries;
    var matches := Scan(dictionary, key);
    if forall j :: 0 <= j < |dictionary| ==> (Carries(dictionary[j], key) <==> j == i) {
      assert matches == {dictionary[i].id} by {
        assert dictionary[i].id in matches;
      }
    }
    if Resolve(dictionary, value) == Known(dictionary[i].id) {
      assert matches == {dictionary[i].id};
      forall j | 0 <= j < |dictionary|
        ensures Carries(dictionary[j], key) <==> j == i
      {
        if Carries(dictionary[j], key) {
          assert dictionary[j].id in matches;
        }
      }
    }
  }

  // ---- resolve ignores surrounding white space ----

  lemma LowerOfPadded(front: string, s: string, back: string)
    requires AllSpace(front) && AllSpace(back)
    ensures Lower(front + s + back) == Lower(front) + Lower(s) + Lower(back)
    ensures AllSpace(Lower(front)) && AllSpace(Lower(back))
  {
  }

  predicate PlainWords(words: seq<string>) {
    forall i :: 0 <= i < |words| ==> words[i] != "" && NoSpace(words[i])
  }

  /** Letters and parentheses. */
  predicate Printed(w: string) {
    w != "" && forall i :: 0 <= i < |w| ==> 'a' <= w[i] <= 'z' || w[i] == '(' || w[i] == ')'
  }

  lemma PrintedIsPlain(w: string)
    requires Printed(w)
    ensures w != "" && NoSpace(w)
  {
  }

  lemma CategoriesArePrinted()
    ensures Printed("programming") && Printed("frontend") && Printed("backend") && Printed("database")
      && Printed("tools")
  {
  }

  lemma LevelsArePrinted()
    ensures Printed("(basic)") && Printed("(basics)") && Printed("(advanced)") && Printed("(intermediate)")
      && Printed("(beginner)")
  {
  }

  lemma WordsArePlain()
    ensures PlainWords(Categories()) && PlainWords(Levels())
  {
    hide Printed, NoSpace;
    CategoriesArePrinted();
    LevelsArePrinted();
    forall w: string | Printed(w)
      ensures w != "" && NoSpace(w)
    {
      PrintedIsPlain(w);
    }
  }

  lemma StartsAlike(w: string, s: string, back: string)
    requires NoSpace(w) && AllSpace(back)
    ensures w <= s + back <==> w <= s
  {
    if |w| <= |s| {
      assert (s + back)[..|w|] == s[..|w|];
    } else if back != "" {
      assert IsSpace((s + back)[|s|]) && !IsSpace(w[|s|]);
    }
  }

  /** A word without white space starts `s + back` exactly when it starts `s`. */
  lemma {:induction false} PrefixOfPadded(words: seq<string>, s: string, back: string)
    requires PlainWords(words) && AllSpace(back)
    ensures FirstPrefix(words, s + back) == FirstPrefix(words, s)
  {
    if words != [] {
      var w := words[0];
      StartsAlike(w, s, back);
      assert PlainWords(words[1..]) by {
        forall i | 0 <= i < |words[1..]| ensures words[1..][i] != "" && NoSpace(words[1..][i]) {
          assert words[1..][i] == words[i + 1];
        }
      }
      PrefixOfPadded(words[1..], s, back);
    }
  }

  /** Same core: the two strings differ only in white space at their ends. */
  ghost predicate SamePadding(a: string, b: string) {
    exists front, back :: AllSpace(front) && AllSpace(back) && a == front + b + back
  }

  lemma MakePadding(a: string, front: string, b: string, back: string)
    requires AllSpace(front) && AllSpace(back) && a == front + b + back
    ensures SamePadding(a, b)
  {
  }

  lemma {:induction false} TrimLeftPads(s: string, back: string)
    requires AllSpace(back)
    ensures SamePadding(TrimLeft(s + back), TrimLeft(s))
  {
    hide TrimLeft, IsSpace, SamePadding;
    TrimLeftPadRight(s, back);
    var t := TrimLeft(s);
    if t != "" || TrimLeft(s + back) == back {
      assert "" + t + back == t + back;
      MakePadding(TrimLeft(s + back), "", t, back);
    } else {
      MakePadding("", "", "", "");
    }
  }

  lemma AfterCategoryOfPadded(s: string, s': string, tail: string, back: string)
    requires SamePadding(s', s) && AllSpace(back)
    ensures SamePadding(AfterCategory(s', tail + back), AfterCategory(s, tail))
  {
    hide SamePadding;
    var rest := TrimLeft(tail);
    TrimLeftPadRight(tail, back);
    if rest != "" {
      assert (rest + back)[0] == rest[0] && (rest + back)[1..] == rest[1..] + back;
      TrimLeftPads(rest[1..], back);
    }
  }

  /** Stripping the category from a padded string is a padded strip of the string itself. */
  lemma StripCategoryOfPadded(front: string, s: string, back: string)
    requires AllSpace(front) && AllSpace(back) && Trimmed(s)
    ensures SamePadding(StripCategory(front + s + back), StripCategory(s))
  {
    hide SamePadding, AfterCategory, Categories, Levels, PlainWords;
    WordsArePlain();
    var s' := front + s + back;
    MakePadding(s', front, s, back);
    assert s' == front + (s + back);
    TrimLeftOfPadded(front, s + back);
    if s == "" {
      assert s + back == back && back + "" == back;
      TrimLeftOfPadded(back, "");
      BlankHasNoCategory(s');
      BlankHasNoCategory(s);
    } else {
      assert TrimLeft(s) == s && TrimLeft(s') == s + back;
      PrefixOfPadded(Categories(), s, back);
      var word := FirstPrefix(Categories(), s);
      if word.Some? {
        var tail := s[|word.value|..];
        assert (s + back)[|word.value|..] == tail + back;
        AfterCategoryOfPadded(s, s', tail, back);
      }
    }
  }

  lemma {:induction false} BlankHasNoCategory(s: string)
    requires TrimLeft(s) == "" || IsSpace(TrimLeft(s)[0])
    ensures StripCategory(s) == s
  {
    hide Categories, Levels, PlainWords;
    WordsArePlain();
    NoWordAtSpace(Categories(), TrimLeft(s));
  }

  lemma {:induction false} NoWordAtSpace(words: seq<string>, s: string)
    requires PlainWords(words) && (s == "" || IsSpace(s[0]))
    ensures FirstPrefix(words, s).None?
  {
    if words != [] {
      assert PlainWords(words[1..]) by {
        forall i | 0 <= i < |words[1..]| ensures words[1..][i] != "" && NoSpace(words[1..][i]) {
          assert words[1..][i] == words[i + 1];
        }
      }
      NoWordAtSpace(words[1..], s);
    }
  }

  lemma {:induction false} StripLevelsFront(front: string, s: string)
    requires AllSpace(front)
    ensures StripLevels(front + s) == front + StripLevels(s)
  {
    hide Categories, Levels, PlainWords, FirstPrefix, IsSpace;
    if front == "" {
      assert front + s == s;
    } else {
      WordsArePlain();
      var all := front + s;
      NoWordAtSpace(Levels(), all);
      assert all[1..] == front[1..] + s;
      StripLevelsFront(front[1..], s);
      assert [front[0]] + (front[1..] + StripLevels(s)) == front + StripLevels(s);
    }
  }

  lemma WordIsNotEmpty(w: string)
    requires w in Levels()
    ensures w != ""
  {
  }

  lemma {:induction false} StripLevelsBack(s: string, back: string)
    requires AllSpace(back)
    ensures StripLevels(s + back) == StripLevels(s) + back
    decreases |s|
  {
    hide Categories, Levels, PlainWords;
    if s == "" {
      assert s + back == back;
      StripLevelsFront(back, "");
      assert back + "" == back;
    } else {
      WordsArePlain();
      PrefixOfPadded(Levels(), s, back);
      var word := FirstPrefix(Levels(), s);
      if word.Some? {
        WordIsNotEmpty(word.value);
        assert (s + back)[|word.value|..] == s[|word.value|..] + back;
        StripLevelsBack(s[|word.value|..], back);
      } else {
        assert (s + back)[1..] == s[1..] + back;
        StripLevelsBack(s[1..], back);
        assert [s[0]] + (StripLevels(s[1..]) + back) == ([s[0]] + StripLevels(s[1..])) + back;
      }
    }
  }

  /** `skillTerm` does not see white space around a value. */
  lemma TermIgnoresPadding(value: string)
    ensures SkillTerm(Trim(value)) == SkillTerm(value)
  {
    var front, back := TrimShape(value);
    var core := Trim(value);
    LowerOfPadded(front, core, back);
    assert Trimmed(Lower(core)) by {
      LowerKeepsTrimmed(core);
    }
    StripCategoryOfPadded(Lower(front), Lower(core), Lower(back));
    var a, b := StripCategory(Lower(value)), StripCategory(Lower(core));
    var f, k :| AllSpace(f) && AllSpace(k) && a == f + b + k;
    StripLevelsBack(f + b, k);
    StripLevelsFront(f, b);
    CollapseOfPadded(f, StripLevels(b), k);
  }

  lemma LowerKeepsTrimmed(s: string)
    requires Trimmed(s)
    ensures Trimmed(Lower(s))
  {
  }

  lemma ResolveIgnoresPadding(dictionary: seq<Skill>, value: string)
    ensures Resolve(dictionary, Trim(value)) == Resolve(dictionary, value)
  {
    TermIgnoresPadding(value);
  }

  // ---- What a normalized term drops ----

  lemma {:induction false} FirstPrefixAt(words: seq<string>, i: nat, s: string)
    requires i < |words| && words[i] <= s && forall j :: 0 <= j < i ==> !(words[j] <= s)
    ensures FirstPrefix(words, s) == Some(words[i])
  {
    if i > 0 {
      assert !(words[0] <= s);
      FirstPrefixAt(words[1..], i - 1, s);
    }
  }

  /** The category labels, and the letter each begins with. */
  predicate IsCategory(word: string, letter: char) {
    || (word == "programming" && letter == 'p') || (word == "frontend" && letter == 'f')
    || (word == "backend" && letter == 'b') || (word == "database" && letter == 'd')
    || (word == "tools" && letter == 't')
  }

  lemma CategoryLetters()
    ensures |Categories()| == 5
    ensures forall i :: 0 <= i < 5 ==> IsCategory(Categories()[i], "pfbdt"[i])
    ensures forall word, letter :: IsCategory(word, letter) ==> word != "" && word[0] == letter
  {
  }

  lemma {:induction false} CategoryFound(i: nat, tail: string)
    requires i < 5
    ensures |Categories()| == 5 && FirstPrefix(Categories(), Categories()[i] + tail) == Some(Categories()[i])
  {
    CategoryLetters();
    hide Categories, IsCategory;
    var s := Categories()[i] + tail;
    assert IsCategory(Categories()[i], "pfbdt"[i]) && s[0] == "pfbdt"[i];
    forall j | 0 <= j < i
      ensures !(Categories()[j] <= s)
    {
      assert IsCategory(Categories()[j], "pfbdt"[j]) && Categories()[j][0] != s[0];
    }
    FirstPrefixAt(Categories(), i, s);
  }

  /** A leading label with a colon goes, with the white space around it. */
  lemma CategoryIsDropped(lead: string, word: string, letter: char, before: string, after: string, rest: string)
    requires IsCategory(word, letter) && AllSpace(lead) && AllSpace(before) && AllSpace(after)
    requires rest == "" || !IsSpace(rest[0])
    ensures StripCategory(lead + (word + (before + (":" + (after + rest))))) == rest
  {
    var tail := before + (":" + (after + rest));
    var i := CategoryAt(word, letter);
    CategoryFound(i, tail);
    WordsArePlain();
    hide Categories, IsCategory, FirstPrefix;
    TrimLeftOfPadded(lead, word + tail);
    assert TrimLeft(word + tail) == word + tail;
    assert (word + tail)[|word|..] == tail;
    TrimLeftOfPadded(before, ":" + (after + rest));
    assert TrimLeft(":" + (after + rest)) == ":" + (after + rest);
    assert (":" + (after + rest))[1..] == after + rest;
    TrimLeftOfPadded(after, rest);
    assert TrimLeft(rest) == rest;
  }

  lemma CategoryAt(word: string, letter: char) returns (i: nat)
    requires IsCategory(word, letter)
    ensures i < 5 && |Categories()| == 5 && Categories()[i] == word && word != "" && !IsSpace(word[0])
  {
    i := if letter == 'p' then 0 else if letter == 'f' then 1 else if letter == 'b' then 2
         else if letter == 'd' then 3 else 4;
  }

  /** Without such a label nothing goes. */
  lemma {:induction false} NoCategoryStays(value: string)
    requires forall word, letter :: IsCategory(word, letter) ==> !(word <= TrimLeft(value))
    ensures StripCategory(value) == value
  {
    CategoryLetters();
    hide Categories, IsCategory, TrimLeft;
  }

  /** The decorators of proficiency. */
  predicate IsLevel(word: string) {
    || word == "(basic)" || word == "(basics)" || word == "(advanced)" || word == "(intermediate)"
    || word == "(beginner)"
  }

  lemma LevelWords(word: string)
    ensures word in Levels() <==> IsLevel(word)
  {
    var levels := Levels();
    assert levels[0] == "(basic)" && levels[1] == "(basics)" && levels[2] == "(advanced)";
    assert levels[3] == "(intermediate)" && levels[4] == "(beginner)";
  }

  lemma {:induction false} LevelsExactly(s: string)
    ensures FirstPrefix(Levels(), s).Some? ==> IsLevel(FirstPrefix(Levels(), s).value)
    ensures FirstPrefix(Levels(), s).None? ==> forall word :: IsLevel(word) ==> !(word <= s)
  {
    forall word: string
      ensures word in Levels() <==> IsLevel(word)
    {
      LevelWords(word);
    }
    hide FirstPrefix, Levels, IsLevel;
  }

  lemma LevelsAreLong(word: string)
    requires IsLevel(word)
    ensures |word| >= 7
  {
  }

  /** At most one decorator begins a text. */
  lemma OneLevel(a: string, b: string, s: string)
    requires IsLevel(a) && IsLevel(b) && a <= s && b <= s
    ensures a == b
  {
    LevelsAreLong(a);
    LevelsAreLong(b);
    assert forall i :: 0 <= i < 7 ==> a[i] == s[i] && b[i] == s[i];
    assert a[1] == b[1] && a[2] == b[2] && a[6] == b[6];
  }

  /** Each decorator goes wherever it stands. */
  lemma {:induction false} LevelIsDropped(word: string, rest: string)
    requires IsLevel(word)
    ensures StripLevels(word + rest) == StripLevels(rest)
  {
    var s := word + rest;
    LevelsExactly(s);
    assert word <= s;
    OneLevel(word, FirstPrefix(Levels(), s).value, s);
    hide Levels, FirstPrefix, IsLevel;
    assert s[|word|..] == rest;
    LevelIsNotEmpty(word);
  }

  lemma LevelIsNotEmpty(word: string)
    requires IsLevel(word)
    ensures word != ""
  {
  }

  /** Any other character stays. */
  lemma {:induction false} OtherCharacterStays(s: string)
    requires s != "" && forall word :: IsLevel(word) ==> !(word <= s)
    ensures StripLevels(s) == [s[0]] + StripLevels(s[1..])
  {
    LevelsExactly(s);
    hide Levels, FirstPrefix, IsLevel;
  }

  /** Row i, and no other, carries the term. */
  predicate OnlyRow(dictionary: seq<Skill>, key: string, i: int) {
    0 <= i < |dictionary| && forall j :: 0 <= j < |dictionary| ==> (Carries(dictionary[j], key) <==> j == i)
  }

  /** A skill that not exactly one row carries is known by its term. */
  lemma ResolvesLiterally(dictionary: seq<Skill>, value: string)
    requires DistinctIds(dictionary)
    requires SkillTerm(value) == "" || forall i :: !OnlyRow(dictionary, SkillTerm(value), i)
    ensures Resolve(dictionary, value) == Literal(SkillTerm(value))
  {
    hide SkillTerm, Carries;
    var r := Resolve(dictionary, value);
    if r.Known? {
      var i :| 0 <= i < |dictionary| && dictionary[i].id == r.id;
      var only := OnlyRow(dictionary, SkillTerm(value), i);
      ResolvesToOnlyRow(dictionary, value, i);
    }
  }
}
