/** The skill extractor: known spellings, searched for as delimited tokens of a job description. */
module SkillParser {
  import opened Text
  import opened StringOrder
  import opened Matcher

  // ---- Case folding, as the regular expressions and `EqualFold` use it -------------------------

  /** What the results use of the Unicode fold relation: on ASCII it is case, and only k and s fold further. */
  ghost predicate FoldsCase(f: (char, char) -> bool) {
    && (forall a: char, b: char | a < '\U{0080}' && b < '\U{0080}' :: f(a, b) <==> AsciiLower(a) == AsciiLower(b))
    && (forall a: char, b: char | f(a, b) && b < '\U{0080}' && b !in "kKsS" :: a < '\U{0080}')
  }

  type FoldRelation = f: (char, char) -> bool | FoldsCase(f)
    witness (a, b) => a < '\U{0080}' && b < '\U{0080}' && AsciiLower(a) == AsciiLower(b)

  // The relation itself stays unspecified: every result holds for any relation of the type.
  const Folds: FoldRelation

  predicate EqualFold(s: string, t: string) {
    |s| == |t| && forall i | 0 <= i < |s| :: Folds(s[i], t[i])
  }

  const TOKEN_CHARS := "abcdefghijklmnopqrstuvwxyz0123456789+#."

  predicate IsDelimiter(c: char) {
    forall x | x in TOKEN_CHARS :: !Folds(c, x)
  }

  /** The spelling stands at `i`, with a delimiter or the end of the text on both sides. */
  predicate OccursAt(text: string, spelling: string, i: nat) {
    && i + |spelling| <= |text| && EqualFold(text[i..i + |spelling|], spelling)
    && (i == 0 || IsDelimiter(text[i - 1]))
    && (i + |spelling| == |text| || IsDelimiter(text[i + |spelling|]))
  }

  predicate Matches(text: string, skill: string) {
    exists i: nat | i <= |text| :: OccursAt(ToLower(text), ToLower(skill), i)
  }

  // ---- Known spellings ------------------------------------------------------------------------

  const SKILLS_1 := ["aws", "azure", "gcp", "go", "golang", "python", "typescript", "javascript"]
  const SKILLS_2 := ["react", "node.js", "node", "sql", "sqlite", "postgresql", "mysql"]
  const SKILLS_3 := ["redis", "nats", "kafka", "docker", "kubernetes", "terraform", "linux"]
  const SKILLS_4 := ["graphql", "rest", "grpc", "ci/cd", "git", "github", "playwright"]
  const DEFAULT_SKILLS := SKILLS_1 + SKILLS_2 + SKILLS_3 + SKILLS_4

  const CANONICAL_1 := map["aws" := "AWS", "gcp" := "GCP", "go" := "Go", "sql" := "SQL"]
  const CANONICAL_2 := map["sqlite" := "SQLite", "mysql" := "MySQL", "github" := "GitHub"]
  const CANONICAL_3 := map["redis" := "Redis", "nats" := "NATS", "kafka" := "Kafka", "linux" := "Linux"]
  const CANONICAL_4 := map["graphql" := "GraphQL", "rest" := "REST", "grpc" := "gRPC"]
  const CANONICAL_5 := map["typescript" := "TypeScript", "javascript" := "JavaScript", "docker" := "Docker"]
  const CANONICAL_6 := map["postgresql" := "PostgreSQL", "kubernetes" := "Kubernetes", "terraform" := "Terraform"]
  const ALIASES := map["golang" := "Go", "node" := "Node.js"]
  const CANONICAL := CANONICAL_1 + CANONICAL_2 + CANONICAL_3 + CANONICAL_4 + CANONICAL_5 + CANONICAL_6 + ALIASES

  function Canonical(skill: string): string {
    var key := Normalize(skill);
    if key in CANONICAL then CANONICAL[key] else TrimSpace(skill)
  }

  /** The spellings that are not blank and repeat no earlier one, padding and case aside. */
  function Fresh(skills: seq<string>, seen: set<string>): seq<string> {
    if skills == [] then []
    else
      var key := Normalize(skills[0]);
      if key == "" || key in seen then Fresh(skills[1..], seen) else [skills[0]] + Fresh(skills[1..], seen + {key})
  }

  method New(extraSkills: seq<string>) returns (skills: seq<string>)
    ensures skills == Fresh(DEFAULT_SKILLS + extraSkills, {})
  {
    hide Normalize;
    var all := DEFAULT_SKILLS + extraSkills;
    skills := [];
    var seen: set<string> := {};
    assert all[0..] == all;
    for i := 0 to |all|
      invariant skills + Fresh(all[i..], seen) == Fresh(all, {})
    {
      assert all[i..][1..] == all[i + 1..];
      var normalized := Normalize(all[i]);
      if normalized == "" {
        continue;
      }
      if normalized in seen {
        continue;
      }
      seen := seen + {normalized};
      skills := skills + [all[i]];
    }
    assert all[|all|..] == [] && skills + [] == skills;
  }

  // ---- Extraction -----------------------------------------------------------------------------

  /** The key a spelling is collected under. */
  function KeyOf(skill: string): string {
    if EqualFold(skill, "node") then "node.js" else if EqualFold(skill, "golang") then "go" else Normalize(skill)
  }

  function DisplayOf(skill: string): string {
    Canonical(if EqualFold(skill, "node") then "Node.js" else if EqualFold(skill, "golang") then "Go" else skill)
  }

  /** The spelling counts for the text. */
  predicate Counts(text: string, skill: string) {
    Normalize(skill) != "" && Matches(text, skill)
  }

  function Found(skills: seq<string>, text: string): map<string, string> {
    if skills == [] then map[]
    else
      var n := |skills| - 1;
      var before := Found(skills[..n], text);
      if Counts(text, skills[n]) then before[KeyOf(skills[n]) := DisplayOf(skills[n])] else before
  }

  method FindSkills(skills: seq<string>, text: string) returns (found: map<string, string>)
    ensures found == Found(skills, text)
  {
    hide Normalize, Matches, Canonical;
    found := map[];
    for i := 0 to |skills|
      invariant found == Found(skills[..i], text)
    {
      assert skills[..i + 1][..i] == skills[..i];
      var skill := skills[i];
      var normalized := Normalize(skill);
      if normalized == "" {
        continue;
      }
      if Matches(text, skill) {
        var display := skill;
        if EqualFold(skill, "golang") {
          display, normalized := "Go", "go";
        }
        if EqualFold(skill, "node") {
          display, normalized := "Node.js", "node.js";
        }
        found := found[normalized := Canonical(display)];
      }
    }
    assert skills[..|skills|] == skills;
  }

  /** The values of the map, one for each key, sorted. */
  ghost predicate SortedValues(found: map<string, string>, values: seq<string>) {
    Sorted(values) && |values| == |found| && forall v :: v in values <==> v in found.Values
  }

  lemma SortKeepsValues(values: seq<string>)
    ensures |SortStrings(values)| == |values| && forall v :: v in SortStrings(values) <==> v in values
  {
    SortStringsSpec(values);
    var sorted := SortStrings(values);
    hide SortStrings;
    assert |multiset(sorted)| == |sorted| && |multiset(values)| == |values|;
    forall v ensures v in sorted <==> v in values {
      assert v in sorted <==> v in multiset(sorted);
      assert v in values <==> v in multiset(values);
    }
  }

  method ExtractSkills(skills: seq<string>, text: string) returns (extracted: seq<string>)
    ensures SortedValues(Found(skills, text), extracted)
  {
    var found := FindSkills(skills, text);
    hide Found;
    var values: seq<string> := [];
    var rest := found.Keys;
    while rest != {}
      invariant rest <= found.Keys && |values| + |rest| == |found.Keys|
      invariant forall v :: v in values <==> exists k | k in found && k !in rest :: found[k] == v
      decreases |rest|
    {
      var key :| key in rest;
      rest := rest - {key};
      forall v ensures v in values + [found[key]] <==> exists k | k in found && k !in rest :: found[k] == v {
        if v == found[key] { assert key in found && key !in rest; }
      }
      values := values + [found[key]];
    }
    assert forall v :: v in values <==> v in found.Values;
    SortKeepsValues(values);
    SortStringsSpec(values);
    extracted := SortStrings(values);
  }

  // ---- Keys of the known spellings ------------------------------------------------------------

  /** `t` is the trimmed, non-empty ASCII text `s` in lower case. */
  predicate Plain(s: string, t: string) {
    && |s| == |t| && s != "" && !IsSpace(Go, s[0]) && !IsSpace(Go, s[|s| - 1])
    && forall i | 0 <= i < |s| :: s[i] < '\U{0080}' && AsciiLower(s[i]) == t[i]
  }

  lemma PlainNormal(s: string, t: string)
    requires Plain(s, t)
    ensures Normalize(s) == t
  {
    TrimIdentity(Go, s);
    forall i | 0 <= i < |s| ensures ToLower(s)[i] == t[i] {
      FoldProperties(Go, s[i]);
    }
  }

  lemma Defaults1()
    ensures forall d | d in SKILLS_1 :: Plain(d, d)
  {
  }

  lemma Defaults2()
    ensures forall d | d in SKILLS_2 :: Plain(d, d)
  {
  }

  lemma Defaults3()
    ensures forall d | d in SKILLS_3 :: Plain(d, d)
  {
  }

  lemma Defaults4()
    ensures forall d | d in SKILLS_4 :: Plain(d, d)
  {
  }

  lemma Canonical1()
    ensures forall d | d in CANONICAL_1 :: Plain(CANONICAL_1[d], d)
  {
  }

  lemma Canonical2()
    ensures forall d | d in CANONICAL_2 :: Plain(CANONICAL_2[d], d)
  {
  }

  lemma Canonical3()
    ensures forall d | d in CANONICAL_3 :: Plain(CANONICAL_3[d], d)
  {
  }

  lemma Canonical4()
    ensures forall d | d in CANONICAL_4 :: Plain(CANONICAL_4[d], d)
  {
  }

  lemma Canonical5()
    ensures forall d | d in CANONICAL_5 :: Plain(CANONICAL_5[d], d)
  {
  }

  lemma Canonical6()
    ensures forall d | d in CANONICAL_6 :: Plain(CANONICAL_6[d], d)
  {
  }

  lemma DefaultsPlain()
    ensures forall d | d in DEFAULT_SKILLS :: Plain(d, d)
  {
    Defaults1();
    Defaults2();
    Defaults3();
    Defaults4();
    hide Plain;
  }

  lemma CanonicalPlain(d: string)
    requires d in CANONICAL && d != "golang" && d != "node"
    ensures Plain(CANONICAL[d], d)
  {
    Canonical1();
    Canonical2();
    Canonical3();
    Canonical4();
    Canonical5();
    Canonical6();
    hide Plain;
  }

  /** On plain ASCII words without k and s, folding is lower-casing. */
  lemma FoldIsLower(s: string, t: string)
    requires Plain(t, t) && forall c | c in t :: c !in "kKsS"
    ensures EqualFold(s, t) ==> Normalize(s) == t
    ensures s == t ==> EqualFold(s, t)
  {
    assert FoldsCase(Folds);
    if EqualFold(s, t) {
      forall i | 0 <= i < |s| ensures s[i] < '\U{0080}' && AsciiLower(s[i]) == t[i] {
        assert t[i] in t;
      }
      SpaceIsItsOwnLower(s[0]);
      SpaceIsItsOwnLower(s[|s| - 1]);
      PlainNormal(s, t);
    }
  }

  lemma SpaceIsItsOwnLower(c: char)
    requires c < '\U{0080}'
    ensures IsSpace(Go, c) ==> AsciiLower(c) == c
  {
  }

  lemma SpecialWords(s: string)
    ensures EqualFold(s, "golang") ==> Normalize(s) == "golang"
    ensures EqualFold(s, "node") ==> Normalize(s) == "node"
    ensures EqualFold("golang", "golang") && EqualFold("node", "node")
  {
    FoldIsLower(s, "golang");
    FoldIsLower(s, "node");
    FoldIsLower("golang", "golang");
    FoldIsLower("node", "node");
  }

  /** The key a display is read back under: the aliases end up under the names they stand for. */
  function Resolved(key: string): string {
    if key == "golang" then "go" else if key == "node" then "node.js" else key
  }

  lemma AliasDisplays()
    ensures Normalize("Go") == "go" && Normalize("Node.js") == "node.js"
  {
    hide Normalize;
    PlainNormal("Go", "go");
    PlainNormal("Node.js", "node.js");
  }

  lemma AliasEntries()
    ensures "golang" in CANONICAL && CANONICAL["golang"] == "Go" && "node" in CANONICAL
        && CANONICAL["node"] == "Node.js"
  {
    assert "golang" in ALIASES && "node" in ALIASES;
  }

  lemma CanonicalAliases()
    ensures "golang" in CANONICAL && CANONICAL["golang"] == "Go" && "node" in CANONICAL
        && CANONICAL["node"] == "Node.js"
    ensures Normalize("Go") == "go" && Normalize("Node.js") == "node.js"
  {
    hide Normalize;
    AliasDisplays();
    AliasEntries();
  }

  lemma CanonicalResolves(s: string)
    ensures Normalize(Canonical(s)) == Resolved(Normalize(s))
  {
    CanonicalAliases();
    TrimIdentity(Go, s);
    TrimIdentity(Go, TrimSpace(s));
    var key := Normalize(s);
    assert Normalize(TrimSpace(s)) == key;
    hide Normalize;
    if key in CANONICAL && key != "golang" && key != "node" {
      CanonicalPlain(key);
      PlainNormal(CANONICAL[key], key);
    }
  }

  /**
   What is shown for a spelling has, trimmed and in lower case, the key it is collected under, unless
   the spelling is "golang" or "node" in padding.
   */
  lemma DisplayHasItsKey(s: string)
    ensures Normalize(DisplayOf(s)) == KeyOf(s)
       <==> (Normalize(s) == "golang" ==> EqualFold(s, "golang")) && (Normalize(s) == "node" ==> EqualFold(s, "node"))
  {
    SpecialWords(s);
    CanonicalAliases();
    CanonicalResolves(s);
    CanonicalResolves("Go");
    CanonicalResolves("Node.js");
    hide EqualFold, Canonical, Normalize;
  }

  /** A spelling `New` may keep: a default one, or one that no default one covers. */
  ghost predicate Known(s: string) {
    s in DEFAULT_SKILLS || Normalize(s) !in DEFAULT_SKILLS
  }

  lemma KnownHasItsKey(s: string)
    requires Known(s)
    ensures Normalize(DisplayOf(s)) == KeyOf(s)
  {
    DisplayHasItsKey(s);
    SpecialWords(s);
    DefaultsPlain();
    if s in DEFAULT_SKILLS { PlainNormal(s, s); }
    assert "golang" in SKILLS_1 && "node" in SKILLS_2;
    hide Normalize, EqualFold, Plain;
  }

  lemma {:induction false} FreshSpec(skills: seq<string>, seen: set<string>)
    ensures forall s | s in Fresh(skills, seen) :: s in skills && Normalize(s) != "" && Normalize(s) !in seen
    ensures forall s | s in skills && Normalize(s) != "" && Normalize(s) !in seen ::
        Normalize(s) in Keys(Fresh(skills, seen))
    ensures DistinctKeys(Fresh(skills, seen))
  {
    if skills == [] {
    } else {
      hide Normalize;
      var key := Normalize(skills[0]);
      FreshSpec(skills[1..], seen);
      FreshSpec(skills[1..], seen + {key});
      assert skills == [skills[0]] + skills[1..];
    }
  }

  lemma Appended(a: seq<string>, b: seq<string>, seen: set<string>, s: string)
    requires s in Fresh(a + b, seen)
    ensures s in a || Normalize(s) !in Keys(a)
    decreases |a|
  {
    hide Normalize;
    if a == [] {
      assert a + b == b;
    } else {
      var key := Normalize(a[0]);
      assert (a + b)[1..] == a[1..] + b && a == [a[0]] + a[1..];
      KeysOneMore(a);
      if s != a[0] {
        FreshSpec(a[1..] + b, seen + {key});
        FreshSpec(a[1..] + b, seen);
        if key == "" || key in seen { Appended(a[1..], b, seen, s); } else { Appended(a[1..], b, seen + {key}, s); }
        FreshSpec(a + b, seen);
        hide Keys;
        assert Normalize(s) != "";
      }
    }
  }

  // ---- What extraction promises ---------------------------------------------------------------

  /** The known spelling `s` is collected under `key`. */
  ghost predicate CollectedAs(skills: seq<string>, text: string, s: string, key: string) {
    s in skills && Counts(text, s) && KeyOf(s) == key
  }

  lemma CollectedOneMore(before: seq<string>, last: string, text: string, key: string)
    ensures (exists s :: CollectedAs(before + [last], text, s, key))
       <==> (exists s :: CollectedAs(before, text, s, key)) || (Counts(text, last) && KeyOf(last) == key)
  {
    hide Counts, KeyOf;
    var skills := before + [last];
    if s :| CollectedAs(before, text, s, key) {
      assert CollectedAs(skills, text, s, key);
    }
    if Counts(text, last) && KeyOf(last) == key {
      assert CollectedAs(skills, text, last, key);
    }
    if s :| CollectedAs(skills, text, s, key) {
      assert s != last ==> CollectedAs(before, text, s, key);
    }
  }

  lemma {:induction false} FoundSpec(skills: seq<string>, text: string)
    requires forall s | s in skills :: Normalize(DisplayOf(s)) == KeyOf(s)
    ensures forall k | k in Found(skills, text) :: Normalize(Found(skills, text)[k]) == k
    ensures forall k :: k in Found(skills, text) <==> exists s :: CollectedAs(skills, text, s, k)
  {
    hide Counts, KeyOf, DisplayOf, Normalize;
    if skills == [] {
    } else {
      var n := |skills| - 1;
      var before, last := skills[..n], skills[n];
      assert skills == before + [last];
      FoundSpec(before, text);
      forall k ensures k in Found(skills, text) <==> exists s :: CollectedAs(skills, text, s, k) {
        CollectedOneMore(before, last, text, k);
        hide CollectedAs;
      }
    }
  }

  /** Of the spellings found under one key the last known one decides how the skill is shown. */
  lemma {:induction false} LastFoundShown(skills: seq<string>, text: string, k: string) returns (i: nat)
    requires k in Found(skills, text)
    ensures i < |skills| && CollectedAs(skills, text, skills[i], k) && Found(skills, text)[k] == DisplayOf(skills[i])
    ensures forall j | i < j < |skills| :: !CollectedAs(skills, text, skills[j], k)
  {
    hide Counts, KeyOf, DisplayOf;
    var n := |skills| - 1;
    if Counts(text, skills[n]) && KeyOf(skills[n]) == k {
      i := n;
    } else {
      i := LastFoundShown(skills[..n], text, k);
      assert forall j | 0 <= j < n :: skills[..n][j] == skills[j];
    }
  }

  lemma {:induction false} AsManyKeys(s: seq<string>)
    requires |Keys(s)| == |s|
    ensures DistinctKeys(s)
  {
    hide Normalize, Keys;
    if s == [] {
    } else {
      var rest := s[1..];
      KeysOneMore(s);
      KeysAreFew(rest);
      KeysAt(rest);
      assert s == [s[0]] + rest;
      assert Normalize(s[0]) in Keys(rest) ==> Keys(s) == Keys(rest);
      AsManyKeys(rest);
    }
  }

  lemma ValuesHaveTheirKeys(found: map<string, string>, values: seq<string>)
    requires SortedValues(found, values) && forall k | k in found :: Normalize(found[k]) == k
    ensures Keys(values) == found.Keys && DistinctKeys(values)
  {
    hide Normalize;
    forall k ensures k in Keys(values) <==> k in found {
      if k in found {
        assert found[k] in found.Values;
      }
      if k in Keys(values) {
        var v :| v in values && Normalize(v) == k;
        assert v in found.Values;
      }
    }
    assert Keys(values) == found.Keys;
    assert |found.Keys| == |found|;
    AsManyKeys(values);
  }

  /**
   Whatever spellings are added, the extracted skills are sorted and pairwise different ignoring
   case, and a skill is among them exactly when one of its known spellings stands in the text
   between delimiters.
   */
  lemma ExtractedExactly(extraSkills: seq<string>, text: string, extracted: seq<string>)
    requires SortedValues(Found(Fresh(DEFAULT_SKILLS + extraSkills, {}), text), extracted)
    ensures Sorted(extracted) && DistinctKeys(extracted)
    ensures forall key :: key in Keys(extracted)
              <==> exists s :: CollectedAs(Fresh(DEFAULT_SKILLS + extraSkills, {}), text, s, key)
  {
    var skills := Fresh(DEFAULT_SKILLS + extraSkills, {});
    forall s | s in skills ensures Normalize(DisplayOf(s)) == KeyOf(s) {
      Appended(DEFAULT_SKILLS, extraSkills, {}, s);
      DefaultsAreKeys(s);
      KnownHasItsKey(s);
    }
    hide Fresh, Normalize, DisplayOf, KeyOf, Counts;
    FoundSpec(skills, text);
    ValuesHaveTheirKeys(Found(skills, text), extracted);
  }

  lemma DefaultsAreKeys(s: string)
    requires s in DEFAULT_SKILLS || Normalize(s) !in Keys(DEFAULT_SKILLS)
    ensures Known(s)
  {
    DefaultsPlain();
    var key := Normalize(s);
    if key in DEFAULT_SKILLS {
      PlainNormal(key, key);
      hide Normalize, Plain;
      assert Normalize(key) in Keys(DEFAULT_SKILLS);
    }
  }

  /** Every known spelling but repeats and blanks is kept, so an added skill is looked for. */
  lemma AddedSkillsKept(extraSkills: seq<string>)
    ensures var skills := Fresh(DEFAULT_SKILLS + extraSkills, {});
            && DistinctKeys(skills) && Keys(skills) == Keys(DEFAULT_SKILLS + extraSkills) - {""}
  {
    var all := DEFAULT_SKILLS + extraSkills;
    FreshSpec(all, {});
    hide Normalize, Fresh;
    assert forall s | s in all && Normalize(s) != "" :: Normalize(s) in Keys(Fresh(all, {}));
  }
}
