/**
 * `skill_extraction`: the skill vocabulary (`SKILL_MAPPING`), the flat lookup
 * built from it (`SKILL_LOOKUP`), and the normaliser and extractor built on
 * that lookup.
 */
module SkillExtraction {
  import opened Text

  /** `SKILL_MAPPING`, in its declaration order: each canonical name with its variations. */
  const SkillMapping: seq<(string, seq<string>)> := [
    ("python", ["python", "py"]),
    ("javascript", ["javascript", "js", "es6"]),
    ("typescript", ["typescript", "ts"]),
    ("react", ["react", "reactjs", "react.js"]),
    ("node.js", ["node.js", "nodejs", "node"]),
    ("express", ["express", "expressjs", "express.js"]),
    ("fastapi", ["fastapi"]),
    ("flask", ["flask"]),
    ("django", ["django"]),
    ("sql", ["sql", "mysql", "postgresql", "postgres", "sqlite"]),
    ("nosql", ["nosql", "mongodb", "mongo", "cassandra", "dynamodb"]),
    ("aws", ["aws", "amazon web services", "ec2", "s3", "lambda"]),
    ("docker", ["docker", "containerization"]),
    ("kubernetes", ["kubernetes", "k8s"]),
    ("git", ["git", "github", "gitlab"]),
    ("ci/cd", ["ci/cd", "cicd", "jenkins", "github actions"]),
    ("html", ["html", "html5"]),
    ("css", ["css", "css3", "tailwind", "bootstrap", "sass", "less"]),
    ("java", ["java"]),
    ("c++", ["c++", "cpp"]),
    ("c#", ["c#", "csharp"]),
    ("go", ["go", "golang"]),
    ("rust", ["rust"]),
    ("kafka", ["kafka"]),
    ("redis", ["redis"]),
    ("graphql", ["graphql"]),
    ("rest api", ["rest api", "restful api", "rest"]),
    ("machine learning", ["machine learning", "ml", "tensorflow", "pytorch", "scikit-learn"]),
    ("data science", ["data science", "pandas", "numpy"]),
    ("linux", ["linux", "bash", "shell"]),
    ("agile", ["agile", "scrum", "kanban"])
  ]

  /** The number of canonical names. */
  const SkillCount: nat := 31

  // ---------------------------------------------------------------------------
  // The lookup

  /** The assignments one canonical name makes: every lowercased variation maps to it. */
  function EntryMap(canonical: string, variations: seq<string>): (m: map<string, string>)
    ensures m.Keys == set v | v in variations :: Lower(v)
  {
    map v | v in variations :: Lower(v) := canonical
  }

  /** The dictionary after the assignments of `mapping`, in order; a later entry overwrites an earlier one. */
  function LookupOf(mapping: seq<(string, seq<string>)>): map<string, string> {
    if mapping == [] then map[]
    else LookupOf(mapping[..|mapping| - 1]) + EntryMap(mapping[|mapping| - 1].0, mapping[|mapping| - 1].1)
  }

  /** `SKILL_LOOKUP`. */
  function SkillLookup(): map<string, string> {
    LookupOf(SkillMapping)
  }

  lemma EntryMapSnoc(canonical: string, variations: seq<string>, j: nat)
    requires j < |variations|
    ensures EntryMap(canonical, variations[..j + 1]) == EntryMap(canonical, variations[..j])[Lower(variations[j]) := canonical]
  {
    assert variations[..j + 1] == variations[..j] + [variations[j]];
  }

  lemma UnionUpdate(a: map<string, string>, b: map<string, string>, k: string, v: string)
    ensures (a + b)[k := v] == a + b[k := v]
  {
  }

  lemma LookupOfPrefix(mapping: seq<(string, seq<string>)>, i: nat)
    requires i < |mapping|
    ensures LookupOf(mapping[..i + 1]) == LookupOf(mapping[..i]) + EntryMap(mapping[i].0, mapping[i].1)
  {
    assert mapping[..i + 1][..i] == mapping[..i];
  }

  /** The nested loop that fills `SKILL_LOOKUP`. */
  method BuildSkillLookup(mapping: seq<(string, seq<string>)>) returns (lookup: map<string, string>)
    ensures lookup == LookupOf(mapping)
  {
    lookup := map[];
    for i := 0 to |mapping|
      invariant lookup == LookupOf(mapping[..i])
    {
      var (normalized, variations) := mapping[i];
      var done := LookupOf(mapping[..i]);
      for j := 0 to |variations|
        invariant lookup == done + EntryMap(normalized, variations[..j])
      {
        EntryMapSnoc(normalized, variations, j);
        UnionUpdate(done, EntryMap(normalized, variations[..j]), Lower(variations[j]), normalized);
        lookup := lookup[Lower(variations[j]) := normalized];
      }
      assert variations[..|variations|] == variations;
      LookupOfPrefix(mapping, i);
    }
    assert mapping[..|mapping|] == mapping;
  }

  /** The characters the vocabulary is written in. */
  predicate VocabChar(c: char) {
    IsLower(c) || IsDigit(c) || c == ' ' || c == '.' || c == '/' || c == '+' || c == '#' || c == '-'
  }

  /** A name as the lookup stores it: non-empty, lowercase, and with no space at either end. */
  predicate CleanName(s: string) {
    s != [] && (forall i :: 0 <= i < |s| ==> VocabChar(s[i])) && s[0] != ' ' && s[|s| - 1] != ' '
  }

  /** A clean name is its own lowercase and its own strip. */
  lemma CleanNameFixed(s: string)
    requires CleanName(s)
    ensures Lower(s) == s && Strip(s) == s
  {
    LowerOfLowered(s);
    TrimUntouched(s, IsSpace);
  }

  /**
   * Entry `i` lists its own canonical name, its variations are clean, and no later
   * entry lists that canonical name again.
   */
  predicate EntryWellFormed(mapping: seq<(string, seq<string>)>, i: nat)
    requires i < |mapping|
  {
    && mapping[i].0 in mapping[i].1
    && (forall v :: v in mapping[i].1 ==> CleanName(v))
    && forall j :: i < j < |mapping| ==> mapping[i].0 !in mapping[j].1
  }

  predicate WellFormed(mapping: seq<(string, seq<string>)>) {
    forall i :: 0 <= i < |mapping| ==> EntryWellFormed(mapping, i)
  }

  /** One entry's assignments: its lowercased variations, each mapped to its canonical name. */
  lemma EntryMapSpec(canonical: string, variations: seq<string>, k: string)
    ensures k in EntryMap(canonical, variations) <==> exists w :: w in variations && Lower(w) == k
    ensures k in EntryMap(canonical, variations) ==> EntryMap(canonical, variations)[k] == canonical
  {
  }

  /** The dictionary after one more entry: that entry's assignments win. */
  lemma LookupOfStep(mapping: seq<(string, seq<string>)>, k: string)
    requires mapping != []
    ensures var n := |mapping| - 1;
      var last := EntryMap(mapping[n].0, mapping[n].1);
      && (k in LookupOf(mapping) <==> k in LookupOf(mapping[..n]) || k in last)
      && (k in last ==> LookupOf(mapping)[k] == mapping[n].0)
      && (k in LookupOf(mapping[..n]) && k !in last ==> LookupOf(mapping)[k] == LookupOf(mapping[..n])[k])
  {
    var n := |mapping| - 1;
    EntryMapSpec(mapping[n].0, mapping[n].1, k);
  }

  /** In a well-formed mapping every variation is a key. */
  lemma VariationsAreKeys(mapping: seq<(string, seq<string>)>, i: nat, v: string)
    requires WellFormed(mapping) && i < |mapping| && v in mapping[i].1
    ensures v in LookupOf(mapping)
  {
    assert EntryWellFormed(mapping, i);
    CleanNameFixed(v);
    ListedIsKey(mapping, i, v);
  }

  /** A listed variation that is its own lowercase is a key. */
  lemma {:induction false} ListedIsKey(mapping: seq<(string, seq<string>)>, i: nat, v: string)
    requires i < |mapping| && v in mapping[i].1 && Lower(v) == v
    ensures v in LookupOf(mapping)
  {
    var n := |mapping| - 1;
    LookupOfStep(mapping, v);
    if i < n {
      assert mapping[..n][i] == mapping[i];
      ListedIsKey(mapping[..n], i, v);
    } else {
      EntryMapSpec(mapping[n].0, mapping[n].1, v);
    }
  }

  lemma PrefixWellFormed(mapping: seq<(string, seq<string>)>)
    requires WellFormed(mapping) && mapping != []
    ensures WellFormed(mapping[..|mapping| - 1])
  {
    var prefix := mapping[..|mapping| - 1];
    forall i | 0 <= i < |prefix| ensures EntryWellFormed(prefix, i) {
      assert EntryWellFormed(mapping, i);
    }
  }

  /** In a well-formed mapping every canonical name maps to itself. */
  lemma CanonicalFixed(mapping: seq<(string, seq<string>)>, i: nat)
    requires WellFormed(mapping) && i < |mapping|
    ensures mapping[i].0 in LookupOf(mapping) && LookupOf(mapping)[mapping[i].0] == mapping[i].0
  {
    var c := mapping[i].0;
    assert EntryWellFormed(mapping, i);
    CleanNameFixed(c);
    forall j, x | i < j < |mapping| && x in mapping[j].1 ensures Lower(x) != Lower(c) {
      assert EntryWellFormed(mapping, j);
      CleanNameFixed(x);
    }
    LastListingWins(mapping, i, c);
  }

  /** A variation no later entry lists again, up to case, maps to its own entry's canonical name. */
  lemma {:induction false} LastListingWins(mapping: seq<(string, seq<string>)>, i: nat, w: string)
    requires i < |mapping| && w in mapping[i].1
    requires forall j, x :: i < j < |mapping| && x in mapping[j].1 ==> Lower(x) != Lower(w)
    ensures Lower(w) in LookupOf(mapping) && LookupOf(mapping)[Lower(w)] == mapping[i].0
  {
    var n := |mapping| - 1;
    var k := Lower(w);
    LookupOfStep(mapping, k);
    EntryMapSpec(mapping[n].0, mapping[n].1, k);
    if i < n {
      assert mapping[..n][i] == mapping[i];
      LastListingWins(mapping[..n], i, w);
    }
  }

  /** Every key maps to the canonical name of an entry that lists it. */
  lemma {:induction false} KeysMapToCanonical(mapping: seq<(string, seq<string>)>, k: string)
    requires WellFormed(mapping) && k in LookupOf(mapping)
    ensures exists i :: 0 <= i < |mapping| && k in mapping[i].1 && LookupOf(mapping)[k] == mapping[i].0
  {
    var n := |mapping| - 1;
    var last := EntryMap(mapping[n].0, mapping[n].1);
    LookupOfStep(mapping, k);
    EntryMapSpec(mapping[n].0, mapping[n].1, k);
    if k in last {
      var w :| w in mapping[n].1 && Lower(w) == k;
      assert EntryWellFormed(mapping, n);
      CleanNameFixed(w);
    } else {
      PrefixWellFormed(mapping);
      KeysMapToCanonical(mapping[..n], k);
      var i :| 0 <= i < n && k in mapping[..n][i].1 && LookupOf(mapping[..n])[k] == mapping[..n][i].0;
      assert mapping[i] == mapping[..n][i];
    }
  }

  // ---------------------------------------------------------------------------
  // normalize_skill

  /**
   * `normalize_skill(skill)` against a lookup: lowercase and strip, then map a
   * listed variation to its canonical name.
   */
  function NormalizeWith(lookup: map<string, string>, skill: string): string {
    var cleaned := Strip(Lower(skill));
    if cleaned in lookup then lookup[cleaned] else cleaned
  }

  /** `normalize_skill(skill)` against `SKILL_LOOKUP`. */
  function NormalizeSkill(skill: string): string {
    NormalizeWith(SkillLookup(), skill)
  }

  /**
   * Against a well-formed mapping, a cleaned variation becomes the canonical name of
   * an entry listing it; anything else stays as cleaned.
   */
  lemma NormalizeWithSpec(mapping: seq<(string, seq<string>)>, skill: string)
    requires WellFormed(mapping)
    ensures var cleaned := Strip(Lower(skill));
      && (cleaned in LookupOf(mapping) ==>
            exists i :: 0 <= i < |mapping| && cleaned in mapping[i].1 && NormalizeWith(LookupOf(mapping), skill) == mapping[i].0)
      && (cleaned !in LookupOf(mapping) ==> NormalizeWith(LookupOf(mapping), skill) == cleaned)
  {
    var cleaned := Strip(Lower(skill));
    if cleaned in LookupOf(mapping) {
      KeysMapToCanonical(mapping, cleaned);
    }
  }

  /** Every canonical name normalises to itself. */
  lemma CanonicalNormalizes(mapping: seq<(string, seq<string>)>, i: nat)
    requires WellFormed(mapping) && i < |mapping|
    ensures NormalizeWith(LookupOf(mapping), mapping[i].0) == mapping[i].0
  {
    assert EntryWellFormed(mapping, i);
    CleanNameFixed(mapping[i].0);
    CanonicalFixed(mapping, i);
  }

  /** Cleaning is idempotent: lowercased, stripped text is its own lowercase and strip. */
  lemma CleanTwice(s: string)
    ensures Strip(Lower(Strip(Lower(s)))) == Strip(Lower(s))
  {
    StripLower(s);
    LowerIsLowered(Strip(s));
    LowerOfLowered(Lower(Strip(s)));
    TrimIdempotent(Lower(s), IsSpace);
  }

  /** Normalisation against a well-formed mapping is idempotent. */
  lemma NormalizeWithIdempotent(mapping: seq<(string, seq<string>)>, skill: string)
    requires WellFormed(mapping)
    ensures var once := NormalizeWith(LookupOf(mapping), skill);
      NormalizeWith(LookupOf(mapping), once) == once
  {
    var cleaned := Strip(Lower(skill));
    NormalizeWithSpec(mapping, skill);
    if cleaned in LookupOf(mapping) {
      var i :| 0 <= i < |mapping| && cleaned in mapping[i].1 && NormalizeWith(LookupOf(mapping), skill) == mapping[i].0;
      CanonicalNormalizes(mapping, i);
    } else {
      CleanTwice(skill);
    }
  }

  /** `normalize_skill` is idempotent. */
  lemma NormalizeSkillIdempotent(skill: string)
    ensures NormalizeSkill(NormalizeSkill(skill)) == NormalizeSkill(skill)
  {
    SkillMappingWellFormed();
    NormalizeWithIdempotent(SkillMapping, skill);
  }

  /** Every canonical name of the vocabulary normalises to itself. */
  lemma CanonicalNamesFixed(i: nat)
    requires i < SkillCount
    ensures NormalizeSkill(SkillMapping[i].0) == SkillMapping[i].0
  {
    SkillMappingWellFormed();
    assert |SkillMapping| == SkillCount;
    CanonicalNormalizes(SkillMapping, i);
  }

  /** A variation listed by exactly one entry normalises to that entry's canonical name. */
  lemma NormalizeListedOnce(mapping: seq<(string, seq<string>)>, skill: string, i: nat)
    requires WellFormed(mapping) && i < |mapping| && Strip(Lower(skill)) in mapping[i].1
    requires forall j :: 0 <= j < |mapping| && j != i ==> Strip(Lower(skill)) !in mapping[j].1
    ensures NormalizeWith(LookupOf(mapping), skill) == mapping[i].0
  {
    VariationsAreKeys(mapping, i, Strip(Lower(skill)));
    NormalizeWithSpec(mapping, skill);
  }

  /** The repository's normalisation test: "React.js" becomes "react". */
  lemma NormalizeReactJs()
    ensures NormalizeSkill("React.js") == "react"
  {
    ReactJsToEntry3();
    Entry3Canonical();
  }

  lemma ReactJsToEntry3()
    ensures NormalizeSkill("React.js") == SkillMapping[3].0
  {
    ReactJsCleaned();
    SkillMappingWellFormed();
    ReactJsOnlyInEntry3();
    assert |SkillMapping| == SkillCount;
    NormalizeListedOnce(SkillMapping, "React.js", 3);
  }

  lemma Entry3Canonical()
    ensures SkillMapping[3].0 == "react"
  {
  }

  /** Normalisation only looks at the cleaned text. */
  lemma SameCleaned(lookup: map<string, string>, a: string, b: string)
    requires Strip(Lower(a)) == Strip(Lower(b))
    ensures NormalizeWith(lookup, a) == NormalizeWith(lookup, b)
  {
  }

  /** A name whose lowercase is a canonical name of the vocabulary normalises to that name. */
  lemma NormalizesLikeCanonical(raw: string, i: nat)
    requires i < SkillCount && Lower(raw) == SkillMapping[i].0
    ensures NormalizeSkill(raw) == SkillMapping[i].0
  {
    var c := SkillMapping[i].0;
    SkillMappingWellFormed();
    assert |SkillMapping| == SkillCount;
    assert EntryWellFormed(SkillMapping, i);
    CleanNameFixed(c);
    SameCleaned(SkillLookup(), raw, c);
    CanonicalNamesFixed(i);
  }

  /** The repository's normalisation test: "Node.js" stays "node.js". */
  lemma NormalizeNodeJs()
    ensures NormalizeSkill("Node.js") == "node.js"
  {
    Entry4Canonical();
    assert Lower("Node.js") == "node.js";
    NormalizesLikeCanonical("Node.js", 4);
  }

  lemma Entry4Canonical()
    ensures SkillMapping[4].0 == "node.js"
  {
  }

  /** The repository's normalisation test: "C++" stays "c++". */
  lemma NormalizeCpp()
    ensures NormalizeSkill("C++") == "c++"
  {
    Entry19Canonical();
    assert Lower("C++") == "c++";
    NormalizesLikeCanonical("C++", 19);
  }

  lemma Entry19Canonical()
    ensures SkillMapping[19].0 == "c++"
  {
  }

  lemma ReactJsCleaned()
    ensures Strip(Lower("React.js")) == "react.js"
  {
    assert Lower("React.js") == "react.js";
    TrimUntouched("react.js", IsSpace);
  }

  lemma ReactJsOnlyInEntry3()
    ensures "react.js" in SkillMapping[3].1
    ensures forall j :: 0 <= j < SkillCount && j != 3 ==> "react.js" !in SkillMapping[j].1
  {
    assert |SkillMapping| == SkillCount;
    AbsentBelow16("react.js", 3);
    AbsentFrom16("react.js");
  }

  // ---------------------------------------------------------------------------
  // extract_skills_from_text

  /** The pattern searched for `variation` matches the lowercased text; "java" may not be followed by "script". */
  predicate VariationFound(textLower: string, variation: string) {
    if variation == "java" then HasJava(textLower) else HasWord(textLower, variation)
  }

  /** What `extract_skills_from_text(text)` returns against a lookup, as a set. */
  function ExtractedWith(lookup: map<string, string>, text: string): set<string> {
    if text == "" then {}
    else set k | k in lookup && VariationFound(Lower(text), k) :: lookup[k]
  }

  /** What `extract_skills_from_text(text)` returns against `SKILL_LOOKUP`. */
  function ExtractedSkills(text: string): set<string> {
    ExtractedWith(SkillLookup(), text)
  }

  /**
   * `extract_skills_from_text(text)`: one pass over the lookup's variations,
   * collecting the canonical names of those found.
   */
  method ExtractSkillsFromText(lookup: map<string, string>, text: string) returns (foundSkills: set<string>)
    ensures foundSkills == ExtractedWith(lookup, text)
  {
    if text == "" {
      return {};
    }
    foundSkills := {};
    var textLower := Lower(text);
    var remaining := lookup.Keys;
    while remaining != {}
      invariant remaining <= lookup.Keys
      invariant foundSkills == set k | k in lookup && k !in remaining && VariationFound(textLower, k) :: lookup[k]
      decreases |remaining|
    {
      var variation :| variation in remaining;
      if VariationFound(textLower, variation) {
        foundSkills := foundSkills + {lookup[variation]};
      }
      remaining := remaining - {variation};
    }
  }

  /**
   * Against a well-formed mapping, a name is extracted iff the text is not empty and
   * some variation listed under that canonical name, and assigned to it by the
   * lookup, is found.
   */
  lemma ExtractedWithSpec(mapping: seq<(string, seq<string>)>, text: string, c: string)
    requires WellFormed(mapping)
    ensures c in ExtractedWith(LookupOf(mapping), text) <==>
      text != "" && exists i, v :: (0 <= i < |mapping| && c == mapping[i].0 && v in mapping[i].1
        && v in LookupOf(mapping) && LookupOf(mapping)[v] == c && VariationFound(Lower(text), v))
  {
    if c in ExtractedWith(LookupOf(mapping), text) {
      var k :| k in LookupOf(mapping) && VariationFound(Lower(text), k) && LookupOf(mapping)[k] == c;
      KeysMapToCanonical(mapping, k);
    }
  }

  /** Every extracted name is canonical: normalising it changes nothing. */
  lemma ExtractedAreCanonical(mapping: seq<(string, seq<string>)>, text: string)
    requires WellFormed(mapping)
    ensures forall c :: c in ExtractedWith(LookupOf(mapping), text) ==> NormalizeWith(LookupOf(mapping), c) == c
  {
    forall c | c in ExtractedWith(LookupOf(mapping), text) ensures NormalizeWith(LookupOf(mapping), c) == c {
      ExtractedWithSpec(mapping, text, c);
      var i, v :| 0 <= i < |mapping| && c == mapping[i].0 && v in mapping[i].1
        && v in LookupOf(mapping) && LookupOf(mapping)[v] == c && VariationFound(Lower(text), v);
      CanonicalNormalizes(mapping, i);
    }
  }

  /** The vocabulary's skills: every extracted name is a canonical name that normalises to itself. */
  lemma ExtractedSkillsCanonical(text: string)
    ensures forall c :: c in ExtractedSkills(text) ==> NormalizeSkill(c) == c
  {
    SkillMappingWellFormed();
    ExtractedAreCanonical(SkillMapping, text);
  }

  /** A variation listed by exactly one entry is a key mapped to that entry's canonical name. */
  lemma LookupListedOnce(mapping: seq<(string, seq<string>)>, v: string, i: nat)
    requires WellFormed(mapping) && i < |mapping| && v in mapping[i].1
    requires forall j :: 0 <= j < |mapping| && j != i ==> v !in mapping[j].1
    ensures v in LookupOf(mapping) && LookupOf(mapping)[v] == mapping[i].0
  {
    VariationsAreKeys(mapping, i, v);
    KeysMapToCanonical(mapping, v);
  }

  /** `word` lowers to `w` and sits between two characters that are not word characters. */
  lemma WordBetween(pre: string, word: string, post: string, w: string)
    requires pre != [] && post != [] && Lower(word) == w
    requires w != [] && IsWordChar(w[0]) && IsWordChar(w[|w| - 1])
    requires !IsWordChar(LowerChar(pre[|pre| - 1])) && !IsWordChar(LowerChar(post[0]))
    ensures HasWord(Lower(pre + word + post), w)
  {
    var text := pre + word + post;
    var s := Lower(text);
    var i := |pre|;
    var j := i + |w|;
    assert |word| == |w| && |s| == |pre| + |w| + |post|;
    forall k | 0 <= k < |w| ensures s[i + k] == w[k] {
      assert text[i + k] == word[k];
    }
    assert s[i..j] == w;
    assert s[i - 1] == LowerChar(pre[|pre| - 1]) by { assert text[i - 1] == pre[|pre| - 1]; }
    assert s[j] == LowerChar(post[0]) by { assert text[j] == post[0]; }
    assert s[i] == w[0] && s[j - 1] == w[|w| - 1];
    assert WordAt(s, w, i);
    HasWordAt(s, w, i);
  }

  /** The sentence of the repository's extraction test, in pieces around the words it mentions. */
  const ExampleHead := "We are looking for a Software Engineer with experience in "
  const ExampleTail := ". Knowledge of "
  const ExtractionExample: string :=
    ExampleHead + "Python" + ", " + "React" + "." + "js" + ", and " + "AWS" + ExampleTail + "Docker" + " is a plus."

  lemma ExamplePython()
    ensures HasWord(Lower(ExtractionExample), "python")
  {
    var h := ExampleHead;
    var rest := ", " + "React" + "." + "js" + ", and " + "AWS" + ExampleTail + "Docker" + " is a plus.";
    assert h[|h| - 1] == ' ';
    assert Lower("Python") == "python";
    assert ExtractionExample == h + "Python" + rest;
    WordBetween(h, "Python", rest, "python");
  }

  lemma ExampleReact()
    ensures HasWord(Lower(ExtractionExample), "react")
  {
    var pre := ExampleHead + "Python" + ", ";
    var rest := "." + "js" + ", and " + "AWS" + ExampleTail + "Docker" + " is a plus.";
    assert Lower("React") == "react";
    assert ExtractionExample == pre + "React" + rest;
    WordBetween(pre, "React", rest, "react");
  }

  lemma ExampleJs()
    ensures HasWord(Lower(ExtractionExample), "js")
  {
    var pre := ExampleHead + "Python" + ", " + "React" + ".";
    var rest := ", and " + "AWS" + ExampleTail + "Docker" + " is a plus.";
    assert Lower("js") == "js";
    assert ExtractionExample == pre + "js" + rest;
    WordBetween(pre, "js", rest, "js");
  }

  lemma ExampleAws()
    ensures HasWord(Lower(ExtractionExample), "aws")
  {
    var pre := ExampleHead + "Python" + ", " + "React" + "." + "js" + ", and ";
    var rest := ExampleTail + "Docker" + " is a plus.";
    assert Lower("AWS") == "aws";
    assert ExtractionExample == pre + "AWS" + rest;
    WordBetween(pre, "AWS", rest, "aws");
  }

  lemma ExampleDocker()
    ensures HasWord(Lower(ExtractionExample), "docker")
  {
    var l := ExampleTail;
    var pre := ExampleHead + "Python" + ", " + "React" + "." + "js" + ", and " + "AWS" + l;
    assert l[|l| - 1] == ' ';
    assert Lower("Docker") == "docker";
    assert ExtractionExample == pre + "Docker" + " is a plus.";
    WordBetween(pre, "Docker", " is a plus.", "docker");
  }

  /** A canonical name found as a word in the text is extracted. */
  lemma CanonicalFound(text: string, i: nat)
    requires text != "" && i < SkillCount && SkillMapping[i].0 != "java"
    requires HasWord(Lower(text), SkillMapping[i].0)
    ensures SkillMapping[i].0 in ExtractedSkills(text)
  {
    SkillMappingWellFormed();
    assert |SkillMapping| == SkillCount;
    CanonicalFixed(SkillMapping, i);
  }

  lemma JsOnlyInEntry1()
    ensures "js" in SkillMapping[1].1 && SkillMapping[1].0 == "javascript"
    ensures forall j :: 0 <= j < SkillCount && j != 1 ==> "js" !in SkillMapping[j].1
  {
    assert |SkillMapping| == SkillCount;
    AbsentBelow16("js", 1);
    AbsentFrom16("js");
  }

  /** "react.js" and "js" are listed by no entry below 16 other than their own. */
  lemma AbsentBelow16(v: string, own: nat)
    requires (v, own) == ("react.js", 3) || (v, own) == ("js", 1)
    ensures forall j :: 0 <= j < 16 && j != own ==> v !in SkillMapping[j].1
  {
    assert |SkillMapping| == SkillCount;
  }

  /** "react.js" and "js" are listed by no entry from 16 on. */
  lemma AbsentFrom16(v: string)
    requires v == "react.js" || v == "js"
    ensures forall j :: 16 <= j < SkillCount ==> v !in SkillMapping[j].1
  {
    assert |SkillMapping| == SkillCount;
  }

  lemma JsFound(text: string)
    requires text != "" && HasWord(Lower(text), "js")
    ensures "javascript" in ExtractedSkills(text)
  {
    SkillMappingWellFormed();
    JsOnlyInEntry1();
    assert |SkillMapping| == SkillCount;
    LookupListedOnce(SkillMapping, "js", 1);
    assert VariationFound(Lower(text), "js");
  }

  lemma ExampleCanonicals()
    ensures SkillMapping[0].0 == "python" && SkillMapping[3].0 == "react"
    ensures SkillMapping[11].0 == "aws" && SkillMapping[12].0 == "docker"
  {
  }

  /**
   * The repository's extraction test: the five expected names are extracted from
   * its sentence ("js" in "React.js" stands for "javascript").
   */
  lemma ExtractionExampleFinds()
    ensures {"python", "react", "aws", "docker", "javascript"} <= ExtractedSkills(ExtractionExample)
  {
    ExamplePython();
    ExampleReact();
    ExampleJs();
    ExampleAws();
    ExampleDocker();
    ExampleCanonicals();
    CanonicalFound(ExtractionExample, 0);
    CanonicalFound(ExtractionExample, 3);
    CanonicalFound(ExtractionExample, 11);
    CanonicalFound(ExtractionExample, 12);
    JsFound(ExtractionExample);
  }

  // ---------------------------------------------------------------------------
  // normalize_skill_list

  /** `normalize_skill_list(skills)` against a lookup, as the set it returns as a list. */
  method NormalizeSkillList(lookup: map<string, string>, skills: seq<string>) returns (normalizedSet: set<string>)
    ensures normalizedSet == set s | s in skills :: NormalizeWith(lookup, s)
  {
    normalizedSet := {};
    for i := 0 to |skills|
      invariant normalizedSet == set s | s in skills[..i] :: NormalizeWith(lookup, s)
    {
      assert skills[..i + 1] == skills[..i] + [skills[i]];
      normalizedSet := normalizedSet + {NormalizeWith(lookup, skills[i])};
    }
    assert skills[..|skills|] == skills;
  }

  /**
   * Against a well-formed mapping, a normalised list is already normalised, and it
   * never has more names than the input.
   */
  lemma NormalizedSetSpec(mapping: seq<(string, seq<string>)>, skills: seq<string>)
    requires WellFormed(mapping)
    ensures var r := set s | s in skills :: NormalizeWith(LookupOf(mapping), s);
      && (forall c :: c in r ==> NormalizeWith(LookupOf(mapping), c) == c)
      && |r| <= |skills|
  {
    var lookup := LookupOf(mapping);
    var r := set s | s in skills :: NormalizeWith(lookup, s);
    forall c | c in r ensures NormalizeWith(lookup, c) == c {
      var s :| s in skills && NormalizeWith(lookup, s) == c;
      NormalizeWithIdempotent(mapping, s);
    }
    ImageSize(lookup, skills);
  }

  lemma {:induction false} ImageSize(lookup: map<string, string>, skills: seq<string>)
    ensures |set s | s in skills :: NormalizeWith(lookup, s)| <= |skills|
  {
    if skills != [] {
      var t := skills[1..];
      ImageSize(lookup, t);
      assert (set s | s in skills :: NormalizeWith(lookup, s))
          == (set s | s in t :: NormalizeWith(lookup, s)) + {NormalizeWith(lookup, skills[0])} by {
        forall s | s in skills ensures s == skills[0] || s in t {
        }
      }
    }
  }

  /** The vocabulary is well formed. */
  lemma SkillMappingWellFormed()
    ensures WellFormed(SkillMapping)
  {
    forall i | 0 <= i < SkillCount ensures EntryWellFormed(SkillMapping, i) {
      if i == 0 { Entry0WellFormed(); }
      else if i == 1 { Entry1WellFormed(); }
      else if i == 2 { Entry2WellFormed(); }
      else if i == 3 { Entry3WellFormed(); }
      else if i == 4 { Entry4WellFormed(); }
      else if i == 5 { Entry5WellFormed(); }
      else if i == 6 { Entry6WellFormed(); }
      else if i == 7 { Entry7WellFormed(); }
      else if i == 8 { Entry8WellFormed(); }
      else if i == 9 { Entry9WellFormed(); }
      else if i == 10 { Entry10WellFormed(); }
      else if i == 11 { Entry11WellFormed(); }
      else if i == 12 { Entry12WellFormed(); }
      else if i == 13 { Entry13WellFormed(); }
      else if i == 14 { Entry14WellFormed(); }
      else if i == 15 { Entry15WellFormed(); }
      else if i == 16 { Entry16WellFormed(); }
      else if i == 17 { Entry17WellFormed(); }
      else if i == 18 { Entry18WellFormed(); }
      else if i == 19 { Entry19WellFormed(); }
      else if i == 20 { Entry20WellFormed(); }
      else if i == 21 { Entry21WellFormed(); }
      else if i == 22 { Entry22WellFormed(); }
      else if i == 23 { Entry23WellFormed(); }
      else if i == 24 { Entry24WellFormed(); }
      else if i == 25 { Entry25WellFormed(); }
      else if i == 26 { Entry26WellFormed(); }
      else if i == 27 { Entry27WellFormed(); }
      else if i == 28 { Entry28WellFormed(); }
      else if i == 29 { Entry29WellFormed(); }
      else if i == 30 { Entry30WellFormed(); }
    }
  }

  lemma Entry0WellFormed()
    ensures EntryWellFormed(SkillMapping, 0)
  {
    assert |SkillMapping| == SkillCount;
    assert SkillMapping[0].0 in SkillMapping[0].1;
    Entry0Clean();
    Entry0Unshadowed();
  }

  lemma Entry0Clean()
    ensures forall v :: v in SkillMapping[0].1 ==> CleanName(v)
  {
    assert |SkillMapping| == SkillCount;
  }

  lemma Entry0Unshadowed()
    ensures forall j :: 0 < j < SkillCount ==> SkillMapping[0].0 !in SkillMapping[j].1
  {
    assert |SkillMapping| == SkillCount;
  }

  lemma Entry1WellFormed()
    ensures EntryWellFormed(SkillMapping, 1)
  {
    assert |SkillMapping| == SkillCount;
    assert SkillMapping[1].0 in SkillMapping[1].1;
    Entry1Clean();
    Entry1Unshadowed();
  }

  lemma Entry1Clean()
    ensures forall v :: v in SkillMapping[1].1 ==> CleanName(v)
  {
    assert |SkillMapping| == SkillCount;
  }

  lemma Entry1Unshadowed()
    ensures forall j :: 1 < j < SkillCount ==> SkillMapping[1].0 !in SkillMapping[j].1
  {
    assert |SkillMapping| == SkillCount;
  }

  lemma Entry2WellFormed()
    ensures EntryWellFormed(SkillMapping, 2)
  {
    assert |SkillMapping| == SkillCount;
    assert SkillMapping[2].0 in SkillMapping[2].1;
    Entry2Clean();
    Entry2Unshadowed();
  }

  lemma Entry2Clean()
    ensures forall v :: v in SkillMapping[2].1 ==> CleanName(v)
  {
    assert |SkillMapping| == SkillCount;
  }

  lemma Entry2Unshadowed()
    ensures forall j :: 2 < j < SkillCount ==> SkillMapping[2].0 !in SkillMapping[j].1
  {
    assert |SkillMapping| == SkillCount;
  }

  lemma Entry3WellFormed()
    ensures EntryWellFormed(SkillMapping, 3)
  {
    assert |SkillMapping| == SkillCount;
    assert SkillMapping[3].0 in SkillMapping[3].1;
    Entry3Clean();
    Entry3Unshadowed();
  }

  lemma Entry3Clean()
    ensures forall v :: v in SkillMapping[3].1 ==> CleanName(v)
  {
    assert |SkillMapping| == SkillCount;
  }

  lemma Entry3Unshadowed()
    ensures forall j :: 3 < j < SkillCount ==> SkillMapping[3].0 !in SkillMapping[j].1
  {
    assert |SkillMapping| == SkillCount;
  }

  lemma Entry4WellFormed()
    ensures EntryWellFormed(SkillMapping, 4)
  {
    assert |SkillMapping| == SkillCount;
    assert SkillMapping[4].0 in SkillMapping[4].1;
    Entry4Clean();
    Entry4Unshadowed();
  }

  lemma Entry4Clean()
    ensures forall v :: v in SkillMapping[4].1 ==> CleanName(v)
  {
    assert |SkillMapping| == SkillCount;
  }

  lemma Entry4Unshadowed()
    ensures forall j :: 4 < j < SkillCount ==> SkillMapping[4].0 !in SkillMapping[j].1
  {
    assert |SkillMapping| == SkillCount;
  }

  lemma Entry5WellFormed()
    ensures EntryWellFormed(SkillMapping, 5)
  {
    assert |SkillMapping| == SkillCount;
    assert SkillMapping[5].0 in SkillMapping[5].1;
    Entry5Clean();
    Entry5Unshadowed();
  }

  lemma Entry5Clean()
    ensures forall v :: v in SkillMapping[5].1 ==> CleanName(v)
  {
    assert |SkillMapping| == SkillCount;
  }

  lemma Entry5Unshadowed()
    ensures forall j :: 5 < j < SkillCount ==> SkillMapping[5].0 !in SkillMapping[j].1
  {
    assert |SkillMapping| == SkillCount;
  }

  lemma Entry6WellFormed()
    ensures EntryWellFormed(SkillMapping, 6)
  {
    assert |SkillMapping| == SkillCount;
    assert SkillMapping[6].0 in SkillMapping[6].1;
    Entry6Clean();
    Entry6Unshadowed();
  }

  lemma Entry6Clean()
    ensures forall v :: v in SkillMapping[6].1 ==> CleanName(v)
  {
    assert |SkillMapping| == SkillCount;
  }

  lemma Entry6Unshadowed()
    ensures forall j :: 6 < j < SkillCount ==> SkillMapping[6].0 !in SkillMapping[j].1
  {
    assert |SkillMapping| == SkillCount;
  }

  lemma Entry7WellFormed()
    ensures EntryWellFormed(SkillMapping, 7)
  {
    assert |SkillMapping| == SkillCount;
    assert SkillMapping[7].0 in SkillMapping[7].1;
    Entry7Clean();
    Entry7Unshadowed();
  }

  lemma Entry7Clean()
    ensures forall v :: v in SkillMapping[7].1 ==> CleanName(v)
  {
    assert |SkillMapping| == SkillCount;
  }

  lemma Entry7Unshadowed()
    ensures forall j :: 7 < j < SkillCount ==> SkillMapping[7].0 !in SkillMapping[j].1
  {
    assert |SkillMapping| == SkillCount;
  }

  lemma Entry8WellFormed()
    ensures EntryWellFormed(SkillMapping, 8)
  {
    assert |SkillMapping| == SkillCount;
    assert SkillMapping[8].0 in SkillMapping[8].1;
    Entry8Clean();
    Entry8Unshadowed();
  }

  lemma Entry8Clean()
    ensures forall v :: v in SkillMapping[8].1 ==> CleanName(v)
  {
    assert |SkillMapping| == SkillCount;
  }

  lemma Entry8Unshadowed()
    ensures forall j :: 8 < j < SkillCount ==> SkillMapping[8].0 !in SkillMapping[j].1
  {
    assert |SkillMapping| == SkillCount;
  }

  lemma Entry9WellFormed()
    ensures EntryWellFormed(SkillMapping, 9)
  {
    assert |SkillMapping| == SkillCount;
    assert SkillMapping[9].0 in SkillMapping[9].1;
    Entry9Clean();
    Entry9Unshadowed();
  }

  lemma Entry9Clean()
    ensures forall v :: v in SkillMapping[9].1 ==> CleanName(v)
  {
    assert |SkillMapping| == SkillCount;
  }

  lemma Entry9Unshadowed()
    ensures forall j :: 9 < j < SkillCount ==> SkillMapping[9].0 !in SkillMapping[j].1
  {
    assert |SkillMapping| == SkillCount;
  }

  lemma Entry10WellFormed()
    ensures EntryWellFormed(SkillMapping, 10)
  {
    assert |SkillMapping| == SkillCount;
    assert SkillMapping[10].0 in SkillMapping[10].1;
    Entry10Clean();
    Entry10Unshadowed();
  }

  lemma Entry10Clean()
    ensures forall v :: v in SkillMapping[10].1 ==> CleanName(v)
  {
    assert |SkillMapping| == SkillCount;
  }

  lemma Entry10Unshadowed()
    ensures forall j :: 10 < j < SkillCount ==> SkillMapping[10].0 !in SkillMapping[j].1
  {
    assert |SkillMapping| == SkillCount;
  }

  lemma Entry11WellFormed()
    ensures EntryWellFormed(SkillMapping, 11)
  {
    assert |SkillMapping| == SkillCount;
    assert SkillMapping[11].0 in SkillMapping[11].1;
    Entry11Clean();
    Entry11Unshadowed();
  }

  lemma Entry11Clean()
    ensures forall v :: v in SkillMapping[11].1 ==> CleanName(v)
  {
    assert |SkillMapping| == SkillCount;
  }

  lemma Entry11Unshadowed()
    ensures forall j :: 11 < j < SkillCount ==> SkillMapping[11].0 !in SkillMapping[j].1
  {
    assert |SkillMapping| == SkillCount;
  }

  lemma Entry12WellFormed()
    ensures EntryWellFormed(SkillMapping, 12)
  {
    assert |SkillMapping| == SkillCount;
    assert SkillMapping[12].0 in SkillMapping[12].1;
    Entry12Clean();
    Entry12Unshadowed();
  }

  lemma Entry12Clean()
    ensures forall v :: v in SkillMapping[12].1 ==> CleanName(v)
  {
    assert |SkillMapping| == SkillCount;
  }

  lemma Entry12Unshadowed()
    ensures forall j :: 12 < j < SkillCount ==> SkillMapping[12].0 !in SkillMapping[j].1
  {
    assert |SkillMapping| == SkillCount;
  }

  lemma Entry13WellFormed()
    ensures EntryWellFormed(SkillMapping, 13)
  {
    assert |SkillMapping| == SkillCount;
    assert SkillMapping[13].0 in SkillMapping[13].1;
    Entry13Clean();
    Entry13Unshadowed();
  }

  lemma Entry13Clean()
    ensures forall v :: v in SkillMapping[13].1 ==> CleanName(v)
  {
    assert |SkillMapping| == SkillCount;
  }

  lemma Entry13Unshadowed()
    ensures forall j :: 13 < j < SkillCount ==> SkillMapping[13].0 !in SkillMapping[j].1
  {
    assert |SkillMapping| == SkillCount;
  }

  lemma Entry14WellFormed()
    ensures EntryWellFormed(SkillMapping, 14)
  {
    assert |SkillMapping| == SkillCount;
    assert SkillMapping[14].0 in SkillMapping[14].1;
    Entry14Clean();
    Entry14Unshadowed();
  }

  lemma Entry14Clean()
    ensures forall v :: v in SkillMapping[14].1 ==> CleanName(v)
  {
    assert |SkillMapping| == SkillCount;
  }

  lemma Entry14Unshadowed()
    ensures forall j :: 14 < j < SkillCount ==> SkillMapping[14].0 !in SkillMapping[j].1
  {
    assert |SkillMapping| == SkillCount;
  }

  lemma Entry15WellFormed()
    ensures EntryWellFormed(SkillMapping, 15)
  {
    assert |SkillMapping| == SkillCount;
    assert SkillMapping[15].0 in SkillMapping[15].1;
    Entry15Clean();
    Entry15Unshadowed();
  }

  lemma Entry15Clean()
    ensures forall v :: v in SkillMapping[15].1 ==> CleanName(v)
  {
    assert |SkillMapping| == SkillCount;
  }

  lemma Entry15Unshadowed()
    ensures forall j :: 15 < j < SkillCount ==> SkillMapping[15].0 !in SkillMapping[j].1
  {
    assert |SkillMapping| == SkillCount;
  }

  lemma Entry16WellFormed()
    ensures EntryWellFormed(SkillMapping, 16)
  {
    assert |SkillMapping| == SkillCount;
    assert SkillMapping[16].0 in SkillMapping[16].1;
    Entry16Clean();
    Entry16Unshadowed();
  }

  lemma Entry16Clean()
    ensures forall v :: v in SkillMapping[16].1 ==> CleanName(v)
  {
    assert |SkillMapping| == SkillCount;
  }

  lemma Entry16Unshadowed()
    ensures forall j :: 16 < j < SkillCount ==> SkillMapping[16].0 !in SkillMapping[j].1
  {
    assert |SkillMapping| == SkillCount;
  }

  lemma Entry17WellFormed()
    ensures EntryWellFormed(SkillMapping, 17)
  {
    assert |SkillMapping| == SkillCount;
    assert SkillMapping[17].0 in SkillMapping[17].1;
    Entry17Clean();
    Entry17Unshadowed();
  }

  lemma Entry17Clean()
    ensures forall v :: v in SkillMapping[17].1 ==> CleanName(v)
  {
    assert |SkillMapping| == SkillCount;
  }

  lemma Entry17Unshadowed()
    ensures forall j :: 17 < j < SkillCount ==> SkillMapping[17].0 !in SkillMapping[j].1
  {
    assert |SkillMapping| == SkillCount;
  }

  lemma Entry18WellFormed()
    ensures EntryWellFormed(SkillMapping, 18)
  {
    assert |SkillMapping| == SkillCount;
    assert SkillMapping[18].0 in SkillMapping[18].1;
    Entry18Clean();
    Entry18Unshadowed();
  }

  lemma Entry18Clean()
    ensures forall v :: v in SkillMapping[18].1 ==> CleanName(v)
  {
    assert |SkillMapping| == SkillCount;
  }

  lemma Entry18Unshadowed()
    ensures forall j :: 18 < j < SkillCount ==> SkillMapping[18].0 !in SkillMapping[j].1
  {
    assert |SkillMapping| == SkillCount;
  }

  lemma Entry19WellFormed()
    ensures EntryWellFormed(SkillMapping, 19)
  {
    assert |SkillMapping| == SkillCount;
    assert SkillMapping[19].0 in SkillMapping[19].1;
    Entry19Clean();
    Entry19Unshadowed();
  }

  lemma Entry19Clean()
    ensures forall v :: v in SkillMapping[19].1 ==> CleanName(v)
  {
    assert |SkillMapping| == SkillCount;
  }

  lemma Entry19Unshadowed()
    ensures forall j :: 19 < j < SkillCount ==> SkillMapping[19].0 !in SkillMapping[j].1
  {
    assert |SkillMapping| == SkillCount;
  }

  lemma Entry20WellFormed()
    ensures EntryWellFormed(SkillMapping, 20)
  {
    assert |SkillMapping| == SkillCount;
    assert SkillMapping[20].0 in SkillMapping[20].1;
    Entry20Clean();
    Entry20Unshadowed();
  }

  lemma Entry20Clean()
    ensures forall v :: v in SkillMapping[20].1 ==> CleanName(v)
  {
    assert |SkillMapping| == SkillCount;
  }

  lemma Entry20Unshadowed()
    ensures forall j :: 20 < j < SkillCount ==> SkillMapping[20].0 !in SkillMapping[j].1
  {
    assert |SkillMapping| == SkillCount;
  }

  lemma Entry21WellFormed()
    ensures EntryWellFormed(SkillMapping, 21)
  {
    assert |SkillMapping| == SkillCount;
    assert SkillMapping[21].0 in SkillMapping[21].1;
    Entry21Clean();
    Entry21Unshadowed();
  }

  lemma Entry21Clean()
    ensures forall v :: v in SkillMapping[21].1 ==> CleanName(v)
  {
    assert |SkillMapping| == SkillCount;
  }

  lemma Entry21Unshadowed()
    ensures forall j :: 21 < j < SkillCount ==> SkillMapping[21].0 !in SkillMapping[j].1
  {
    assert |SkillMapping| == SkillCount;
  }

  lemma Entry22WellFormed()
    ensures EntryWellFormed(SkillMapping, 22)
  {
    assert |SkillMapping| == SkillCount;
    assert SkillMapping[22].0 in SkillMapping[22].1;
    Entry22Clean();
    Entry22Unshadowed();
  }

  lemma Entry22Clean()
    ensures forall v :: v in SkillMapping[22].1 ==> CleanName(v)
  {
    assert |SkillMapping| == SkillCount;
  }

  lemma Entry22Unshadowed()
    ensures forall j :: 22 < j < SkillCount ==> SkillMapping[22].0 !in SkillMapping[j].1
  {
    assert |SkillMapping| == SkillCount;
  }

  lemma Entry23WellFormed()
    ensures EntryWellFormed(SkillMapping, 23)
  {
    assert |SkillMapping| == SkillCount;
    assert SkillMapping[23].0 in SkillMapping[23].1;
    Entry23Clean();
    Entry23Unshadowed();
  }

  lemma Entry23Clean()
    ensures forall v :: v in SkillMapping[23].1 ==> CleanName(v)
  {
    assert |SkillMapping| == SkillCount;
  }

  lemma Entry23Unshadowed()
    ensures forall j :: 23 < j < SkillCount ==> SkillMapping[23].0 !in SkillMapping[j].1
  {
    assert |SkillMapping| == SkillCount;
  }

  lemma Entry24WellFormed()
    ensures EntryWellFormed(SkillMapping, 24)
  {
    assert |SkillMapping| == SkillCount;
    assert SkillMapping[24].0 in SkillMapping[24].1;
    Entry24Clean();
    Entry24Unshadowed();
  }

  lemma Entry24Clean()
    ensures forall v :: v in SkillMapping[24].1 ==> CleanName(v)
  {
    assert |SkillMapping| == SkillCount;
  }

  lemma Entry24Unshadowed()
    ensures forall j :: 24 < j < SkillCount ==> SkillMapping[24].0 !in SkillMapping[j].1
  {
    assert |SkillMapping| == SkillCount;
  }

  lemma Entry25WellFormed()
    ensures EntryWellFormed(SkillMapping, 25)
  {
    assert |SkillMapping| == SkillCount;
    assert SkillMapping[25].0 in SkillMapping[25].1;
    Entry25Clean();
    Entry25Unshadowed();
  }

  lemma Entry25Clean()
    ensures forall v :: v in SkillMapping[25].1 ==> CleanName(v)
  {
    assert |SkillMapping| == SkillCount;
  }

  lemma Entry25Unshadowed()
    ensures forall j :: 25 < j < SkillCount ==> SkillMapping[25].0 !in SkillMapping[j].1
  {
    assert |SkillMapping| == SkillCount;
  }

  lemma Entry26WellFormed()
    ensures EntryWellFormed(SkillMapping, 26)
  {
    assert |SkillMapping| == SkillCount;
    assert SkillMapping[26].0 in SkillMapping[26].1;
    Entry26Clean();
    Entry26Unshadowed();
  }

  lemma Entry26Clean()
    ensures forall v :: v in SkillMapping[26].1 ==> CleanName(v)
  {
    assert |SkillMapping| == SkillCount;
  }

  lemma Entry26Unshadowed()
    ensures forall j :: 26 < j < SkillCount ==> SkillMapping[26].0 !in SkillMapping[j].1
  {
    assert |SkillMapping| == SkillCount;
  }

  lemma Entry27WellFormed()
    ensures EntryWellFormed(SkillMapping, 27)
  {
    assert |SkillMapping| == SkillCount;
    assert SkillMapping[27].0 in SkillMapping[27].1;
    Entry27Clean();
    Entry27Unshadowed();
  }

  lemma Entry27Clean()
    ensures forall v :: v in SkillMapping[27].1 ==> CleanName(v)
  {
    assert |SkillMapping| == SkillCount;
  }

  lemma Entry27Unshadowed()
    ensures forall j :: 27 < j < SkillCount ==> SkillMapping[27].0 !in SkillMapping[j].1
  {
    assert |SkillMapping| == SkillCount;
  }

  lemma Entry28WellFormed()
    ensures EntryWellFormed(SkillMapping, 28)
  {
    assert |SkillMapping| == SkillCount;
    assert SkillMapping[28].0 in SkillMapping[28].1;
    Entry28Clean();
    Entry28Unshadowed();
  }

  lemma Entry28Clean()
    ensures forall v :: v in SkillMapping[28].1 ==> CleanName(v)
  {
    assert |SkillMapping| == SkillCount;
  }

  lemma Entry28Unshadowed()
    ensures forall j :: 28 < j < SkillCount ==> SkillMapping[28].0 !in SkillMapping[j].1
  {
    assert |SkillMapping| == SkillCount;
  }

  lemma Entry29WellFormed()
    ensures EntryWellFormed(SkillMapping, 29)
  {
    assert |SkillMapping| == SkillCount;
    assert SkillMapping[29].0 in SkillMapping[29].1;
    Entry29Clean();
    Entry29Unshadowed();
  }

  lemma Entry29Clean()
    ensures forall v :: v in SkillMapping[29].1 ==> CleanName(v)
  {
    assert |SkillMapping| == SkillCount;
  }

  lemma Entry29Unshadowed()
    ensures forall j :: 29 < j < SkillCount ==> SkillMapping[29].0 !in SkillMapping[j].1
  {
    assert |SkillMapping| == SkillCount;
  }

  lemma Entry30WellFormed()
    ensures EntryWellFormed(SkillMapping, 30)
  {
    assert |SkillMapping| == SkillCount;
    assert SkillMapping[30].0 in SkillMapping[30].1;
    Entry30Clean();
  }

  lemma Entry30Clean()
    ensures forall v :: v in SkillMapping[30].1 ==> CleanName(v)
  {
    assert |SkillMapping| == SkillCount;
  }
}
