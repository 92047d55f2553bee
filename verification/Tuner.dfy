/**
 How the résumé tuner chooses what to show: case-insensitive deduplication, the skill order, the
 skill score of a text, and the selection of highlights.
 */
module Tuner {
  import opened Text
  import opened StableOrder
  import ProfileTables

  // ---- Deduplication -------------------------------------------------------------------------

  /** The values kept when the keys in `seen` are already taken. */
  function Unseen(values: seq<string>, seen: set<string>): seq<string> {
    if values == [] then []
    else
      var value := TrimSpace(values[0]);
      var key := ToLower(value);
      if value == "" || key in seen then Unseen(values[1..], seen)
      else [value] + Unseen(values[1..], seen + {key})
  }

  function Distinct(values: seq<string>): seq<string> {
    Unseen(values, {})
  }

  method OrderedUnique(values: seq<string>) returns (out: seq<string>)
    ensures out == Distinct(values)
  {
    hide Trim, ToLower;
    var seen: set<string> := {};
    out := [];
    for i := 0 to |values|
      invariant out + Unseen(values[i..], seen) == Distinct(values)
    {
      var value := TrimSpace(values[i]);
      assert values[i..][1..] == values[i + 1..];
      if value != "" {
        var key := ToLower(value);
        if key !in seen {
          assert out + ([value] + Unseen(values[i + 1..], seen + {key}))
            == (out + [value]) + Unseen(values[i + 1..], seen + {key});
          seen := seen + {key};
          out := out + [value];
        }
      }
    }
  }

  /** Trimmed, non-empty and pairwise different ignoring case. */
  ghost predicate DistinctKeys(s: seq<string>) {
    && (forall i | 0 <= i < |s| :: s[i] != "" && Trimmed(Go, s[i]))
    && (forall i, j | 0 <= i < j < |s| :: ToLower(s[i]) != ToLower(s[j]))
  }

  ghost predicate HasKey(s: seq<string>, key: string) {
    exists i | 0 <= i < |s| :: Normalize(s[i]) == key
  }

  /** Value `r` is the trimmed form of the first value with its key. */
  ghost predicate FirstSpelling(values: seq<string>, r: string) {
    exists i | 0 <= i < |values| :: TrimSpace(values[i]) == r && !HasKey(values[..i], ToLower(r))
  }

  lemma DistinctPrepend(x: string, s: seq<string>)
    requires DistinctKeys(s) && x != "" && Trimmed(Go, x) && forall r | r in s :: ToLower(r) != ToLower(x)
    ensures DistinctKeys([x] + s)
  {
    hide ToLower, Trimmed;
    forall i | 0 <= i < |s| ensures ToLower(s[i]) != ToLower(x) {
      assert s[i] in s;
    }
  }

  lemma {:induction false} UnseenDistinct(values: seq<string>, seen: set<string>)
    ensures DistinctKeys(Unseen(values, seen))
    ensures forall r | r in Unseen(values, seen) :: ToLower(r) !in seen
  {
    hide Trim, ToLower, DistinctKeys;
    if values == [] {
      NothingDistinct();
    } else {
      var value, key, rest := TrimSpace(values[0]), ToLower(TrimSpace(values[0])), values[1..];
      TrimIdentity(Go, values[0]);
      hide TrimSpace;
      if value == "" || key in seen {
        UnseenDistinct(rest, seen);
      } else {
        UnseenDistinct(rest, seen + {key});
        DistinctPrepend(value, Unseen(rest, seen + {key}));
      }
    }
  }

  lemma NothingDistinct()
    ensures DistinctKeys([])
  {
  }

  lemma {:induction false} UnseenFirst(values: seq<string>, seen: set<string>, r: string)
    requires r in Unseen(values, seen)
    ensures FirstSpelling(values, r)
  {
    var value, key := TrimSpace(values[0]), Normalize(values[0]);
    var rest := values[1..];
    UnseenDistinct(values, seen);
    if value != "" && key !in seen && r == value {
      assert !HasKey(values[..0], key);
    } else {
      var seen' := if value == "" || key in seen then seen else seen + {key};
      UnseenFirst(rest, seen', r);
      UnseenDistinct(rest, seen');
      var i :| 0 <= i < |rest| && TrimSpace(rest[i]) == r && !HasKey(rest[..i], ToLower(r));
      assert key != ToLower(r);
      var before := values[..i + 1];
      forall m | 0 <= m < |before| ensures Normalize(before[m]) != ToLower(r) {
        if m > 0 { assert before[m] == rest[..i][m - 1]; }
      }
      assert TrimSpace(values[i + 1]) == r && !HasKey(before, ToLower(r));
    }
  }

  lemma {:induction false} UnseenCovers(values: seq<string>, seen: set<string>, v: string)
    requires v in values && TrimSpace(v) != "" && Normalize(v) !in seen
    ensures HasKey(Unseen(values, seen), Normalize(v))
  {
    hide Trim, TrimSpace, ToLower, Normalize;
    var value, key := TrimSpace(values[0]), Normalize(values[0]);
    var out := Unseen(values, seen);
    NormalizeTrimmed(values[0]);
    NormalizeTrimmed(v);
    if value == "" || key in seen {
      UnseenCovers(values[1..], seen, v);
    } else if key == Normalize(v) {
      assert Normalize(out[0]) == key;
    } else {
      UnseenCovers(values[1..], seen + {key}, v);
      var tail := Unseen(values[1..], seen + {key});
      var i :| 0 <= i < |tail| && Normalize(tail[i]) == Normalize(v);
      assert out[i + 1] == tail[i];
    }
  }

  lemma {:induction false} UnseenOfDistinct(s: seq<string>, seen: set<string>)
    requires DistinctKeys(s)
    requires forall r | r in s :: ToLower(r) !in seen
    ensures Unseen(s, seen) == s
  {
    if s == [] {
    } else {
      TrimIdentity(Go, s[0]);
      hide Trim, ToLower;
      var rest := s[1..];
      forall r | r in rest ensures ToLower(r) != ToLower(s[0]) && ToLower(r) !in seen {
        var j :| 0 <= j < |rest| && rest[j] == r;
        assert s[j + 1] == r;
      }
      UnseenOfDistinct(s[1..], seen + {ToLower(s[0])});
    }
  }

  /** Deduplication keeps the first spelling of every non-blank key, once, in order; and does nothing twice. */
  lemma DistinctSpec(values: seq<string>)
    ensures DistinctKeys(Distinct(values))
    ensures forall r | r in Distinct(values) :: FirstSpelling(values, r)
    ensures forall v | v in values && TrimSpace(v) != "" :: HasKey(Distinct(values), Normalize(v))
    ensures Distinct(Distinct(values)) == Distinct(values)
  {
    UnseenDistinct(values, {});
    UnseenOfDistinct(Distinct(values), {});
    forall r | r in Distinct(values) ensures FirstSpelling(values, r) { UnseenFirst(values, {}, r); }
    forall v | v in values && TrimSpace(v) != ""
      ensures HasKey(Distinct(values), Normalize(v)) { UnseenCovers(values, {}, v); }
  }

  /** Whether the first value is kept, and what is kept of the others. */
  ghost function KeptOfRest(values: seq<string>, seen: set<string>): (bool, set<string>)
    requires values != []
  {
    var key := ToLower(TrimSpace(values[0]));
    if TrimSpace(values[0]) == "" || key in seen then (false, seen) else (true, seen + {key})
  }

  lemma UnseenStep(values: seq<string>, seen: set<string>)
    requires values != []
    ensures var (kept, seen') := KeptOfRest(values, seen);
            Unseen(values, seen) == (if kept then [TrimSpace(values[0])] else []) + Unseen(values[1..], seen')
  {
  }

  /** Each kept value is the trimmed value at its place, and the places ascend. */
  ghost predicate KeptFrom(out: seq<string>, values: seq<string>, places: seq<nat>) {
    && |places| == |out| && (forall i, j | 0 <= i < j < |places| :: places[i] < places[j])
    && forall i | 0 <= i < |places| :: places[i] < |values| && TrimSpace(values[places[i]]) == out[i]
  }

  lemma KeptLater(out: seq<string>, values: seq<string>, places: seq<nat>) returns (later: seq<nat>)
    requires values != [] && KeptFrom(out, values[1..], places)
    ensures KeptFrom(out, values, later) && forall i | 0 <= i < |later| :: later[i] > 0
  {
    hide TrimSpace;
    later := seq(|places|, i requires 0 <= i < |places| => places[i] + 1);
  }

  lemma KeptFirst(x: string, out: seq<string>, values: seq<string>, places: seq<nat>)
    requires values != [] && TrimSpace(values[0]) == x
    requires KeptFrom(out, values, places) && forall i | 0 <= i < |places| :: places[i] > 0
    ensures KeptFrom([x] + out, values, [0] + places)
  {
    hide TrimSpace;
  }

  /** What is kept stands in the order of the values it was kept from. */
  lemma {:induction false} UnseenKeepsOrder(values: seq<string>, seen: set<string>) returns (places: seq<nat>)
    ensures KeptFrom(Unseen(values, seen), values, places)
  {
    if values == [] {
      places := [];
    } else {
      UnseenStep(values, seen);
      hide Unseen, TrimSpace, KeptOfRest, KeptFrom;
      var (kept, seen') := KeptOfRest(values, seen);
      var out := Unseen(values[1..], seen');
      places := UnseenKeepsOrder(values[1..], seen');
      places := KeptLater(out, values, places);
      if kept {
        KeptFirst(TrimSpace(values[0]), out, values, places);
        places := [0] + places;
      } else {
        assert [] + out == out;
      }
    }
  }

  // ---- Deduplication and sorting commute ------------------------------------------------------

  /** A score that sees neither padding nor case. */
  ghost predicate IgnoresPaddingAndCase(score: string -> int) {
    forall u, v | Normalize(u) == Normalize(v) :: score(u) == score(v)
  }

  lemma {:induction false} UnusedKey(values: seq<string>, seen: set<string>, key: string)
    requires forall v | v in values :: Normalize(v) != key
    ensures Unseen(values, seen + {key}) == Unseen(values, seen)
  {
    if values == [] {
    } else {
      var k := Normalize(values[0]);
      assert seen + {key} + {k} == seen + {k} + {key};
      UnusedKey(values[1..], seen, key);
      UnusedKey(values[1..], seen + {k}, key);
    }
  }

  lemma {:induction false} LevelUnseen(score: string -> int, k: int, values: seq<string>, seen: set<string>)
    requires IgnoresPaddingAndCase(score)
    ensures Level(score, k, Unseen(values, seen)) == Unseen(Level(score, k, values), seen)
  {
    if values == [] {
    } else {
      var value, key := TrimSpace(values[0]), Normalize(values[0]);
      LevelUnseen(score, k, values[1..], seen);
      LevelUnseen(score, k, values[1..], seen + {key});
      NormalizeTrimmed(values[0]);
      hide Trim, TrimSpace, ToLower, Normalize;
      assert score(value) == score(values[0]);
      if score(value) != k {
        LevelMembers(score, k, values[1..]);
        UnusedKey(Level(score, k, values[1..]), seen, key);
      }
    }
  }

  lemma DescendingPrepend(score: string -> int, x: string, s: seq<string>)
    requires Descending(score, s) && forall r | r in s :: score(r) <= score(x)
    ensures Descending(score, [x] + s)
  {
    forall i | 0 <= i < |s| ensures score(s[i]) <= score(x) {
      assert s[i] in s;
    }
  }

  lemma {:induction false} UnseenDescending(score: string -> int, values: seq<string>, seen: set<string>)
    requires IgnoresPaddingAndCase(score) && Descending(score, values)
    ensures Descending(score, Unseen(values, seen))
    ensures values != [] ==> forall r | r in Unseen(values, seen) :: score(r) <= score(values[0])
  {
    if values == [] {
    } else {
      var value, key, rest := TrimSpace(values[0]), ToLower(TrimSpace(values[0])), values[1..];
      assert score(value) == score(values[0]) by { NormalizeTrimmed(values[0]); }
      assert Descending(score, rest) && (rest != [] ==> score(rest[0]) <= score(values[0]));
      hide TrimSpace, ToLower, Normalize, Descending, IgnoresPaddingAndCase;
      if value == "" || key in seen {
        UnseenDescending(score, rest, seen);
      } else {
        UnseenDescending(score, rest, seen + {key});
        DescendingPrepend(score, value, Unseen(rest, seen + {key}));
      }
    }
  }

  /** Sorting first and deduplicating after gives what deduplicating first and sorting after gives. */
  lemma SortThenDistinct(score: string -> int, values: seq<string>)
    requires IgnoresPaddingAndCase(score)
    ensures Distinct(StableSort(score, values)) == StableSort(score, Distinct(values))
  {
    var sorted := StableSort(score, values);
    StableSortSpec(score, values);
    UnseenDescending(score, sorted, {});
    forall k ensures Level(score, k, Distinct(sorted)) == Level(score, k, Distinct(values)) {
      LevelUnseen(score, k, sorted, {});
      LevelUnseen(score, k, values, {});
      assert Level(score, k, sorted) == Level(score, k, values);
    }
    SortIsTheStableOrder(score, Distinct(sorted), Distinct(values));
  }

  // ---- Skill score ----------------------------------------------------------------------------

  function SkillScore(value: string, skills: seq<string>): nat {
    if skills == [] then 0
    else (if Contains(ToLower(value), ToLower(skills[0])) then 1 else 0) + SkillScore(value, skills[1..])
  }

  function ScoreBy(skills: seq<string>): string -> int {
    value => SkillScore(value, skills)
  }

  method ScoreText(value: string, skills: seq<string>) returns (score: nat)
    ensures score == SkillScore(value, skills)
  {
    var lower := ToLower(value);
    score := 0;
    for i := 0 to |skills|
      invariant score + SkillScore(value, skills[i..]) == SkillScore(value, skills)
    {
      if Contains(lower, ToLower(skills[i])) {
        score := score + 1;
      }
    }
  }

  ghost predicate TrimmedSkills(skills: seq<string>) {
    forall i | 0 <= i < |skills| :: skills[i] != "" && Trimmed(Go, skills[i])
  }

  /** Trimming the text never changes its score when the skills are trimmed and non-empty. */
  lemma {:induction false} TrimKeepsScore(value: string, skills: seq<string>)
    requires TrimmedSkills(skills)
    ensures SkillScore(TrimSpace(value), skills) == SkillScore(value, skills)
  {
    if skills == [] {
    } else {
      TrimKeepsScore(value, skills[1..]);
      LowerKeepsShape(Go, skills[0]);
      TrimLower(Go, value);
      ContainsTrim(Go, ToLower(value), ToLower(skills[0]));
    }
  }

  lemma {:induction false} CaseKeepsScore(u: string, v: string, skills: seq<string>)
    requires ToLower(u) == ToLower(v)
    ensures SkillScore(u, skills) == SkillScore(v, skills)
  {
    if skills == [] {
    } else {
      CaseKeepsScore(u, v, skills[1..]);
    }
  }

  lemma ScoreIgnoresPaddingAndCase(skills: seq<string>)
    requires TrimmedSkills(skills)
    ensures IgnoresPaddingAndCase(ScoreBy(skills))
  {
    forall u, v | Normalize(u) == Normalize(v) ensures ScoreBy(skills)(u) == ScoreBy(skills)(v) {
      TrimKeepsScore(u, skills);
      TrimKeepsScore(v, skills);
      CaseKeepsScore(TrimSpace(u), TrimSpace(v), skills);
    }
  }

  /** The trimming lemma needs its premise: a padded skill is found in a padded text only. */
  lemma PaddedSkillBreaksScore()
    ensures SkillScore(" Go ", [" go"]) == 1 && SkillScore(TrimSpace(" Go "), [" go"]) == 0
  {
    TrimPadded(Go, " ", "Go", " ");
    assert " " + "Go" + " " == " Go ";
    FoldProperties(Go, ' ');
    FoldProperties(Go, 'G');
    FoldProperties(Go, 'g');
    FoldProperties(Go, 'o');
    assert ToLower(" Go ") == " go " && ToLower(" go") == " go" && ToLower("Go") == "go";
    assert " go "[0..][..3] == " go";
  }

  // ---- Skill priority -------------------------------------------------------------------------

  function MatchScore(matched: set<string>): string -> int {
    skill => if ToLower(skill) in matched then 1 else 0
  }

  function MatchedKeys(values: seq<string>): set<string> {
    set i | 0 <= i < |values| :: Normalize(values[i])
  }

  function Prioritized(jobSkills: seq<string>, matched: set<string>): seq<string> {
    StableSort(MatchScore(matched), Distinct(jobSkills))
  }

  method Set(values: seq<string>) returns (out: set<string>)
    ensures out == MatchedKeys(values)
  {
    out := {};
    for i := 0 to |values|
      invariant out == MatchedKeys(values[..i])
    {
      assert values[..i + 1] == values[..i] + [values[i]];
      assert MatchedKeys(values[..i + 1]) == MatchedKeys(values[..i]) + {Normalize(values[i])} by {
        assert forall x | x in MatchedKeys(values[..i]) :: exists j | 0 <= j < i ::
          values[..i + 1][j] == values[j] && x == Normalize(values[j]);
        assert values[..i + 1][i] == values[i];
      }
      out := out + {Normalize(values[i])};
    }
    assert values[..|values|] == values;
  }

  /** Every matched skill stands before every other one. */
  ghost predicate MatchedFirst(skills: seq<string>, matched: set<string>) {
    forall i, j | 0 <= i < j < |skills| && ToLower(skills[j]) in matched :: ToLower(skills[i]) in matched
  }

  /** In the other list `a` stands before `b`. */
  ghost predicate StandsBefore(skills: seq<string>, a: string, b: string) {
    exists p, q | 0 <= p < q < |skills| :: skills[p] == a && skills[q] == b
  }

  /** Among the matched skills, and among the others, the order is that of the job. */
  ghost predicate KeepsJobOrder(skills: seq<string>, jobSkills: seq<string>, matched: set<string>) {
    forall i, j | 0 <= i < j < |skills| && (ToLower(skills[i]) in matched <==> ToLower(skills[j]) in matched) ::
      StandsBefore(jobSkills, skills[i], skills[j])
  }

  /** The same skills, matched ones first, each group in the order of the job. */
  lemma PriorityOrder(jobSkills: seq<string>, matched: set<string>)
    ensures var out := StableSort(MatchScore(matched), jobSkills);
            && multiset(out) == multiset(jobSkills) && MatchedFirst(out, matched)
            && KeepsJobOrder(out, jobSkills, matched)
  {
    var score, out := MatchScore(matched), StableSort(MatchScore(matched), jobSkills);
    StableSortSpec(score, jobSkills);
    hide StableSort;
    forall i, j | 0 <= i < j < |out| && (ToLower(out[i]) in matched <==> ToLower(out[j]) in matched)
      ensures StandsBefore(jobSkills, out[i], out[j])
    {
      var p, q := TiesKeepTheirOrder(score, jobSkills, i, j);
    }
    forall i, j | 0 <= i < j < |out| && ToLower(out[j]) in matched ensures ToLower(out[i]) in matched {
      assert score(out[i]) >= score(out[j]);
    }
  }

  /** Two passes over the job's skills, matched ones first, then a deduplication that changes nothing. */
  method PrioritizeSkills(jobSkills: seq<string>, matched: set<string>) returns (out: seq<string>)
    requires DistinctKeys(jobSkills)
    ensures out == StableSort(MatchScore(matched), jobSkills)
    ensures out == Level(MatchScore(matched), 1, jobSkills) + Level(MatchScore(matched), 0, jobSkills)
    ensures multiset(out) == multiset(jobSkills) && MatchedFirst(out, matched)
    ensures KeepsJobOrder(out, jobSkills, matched) && DistinctKeys(out)
  {
    PriorityOrder(jobSkills, matched);
    PartitionIsStableSort(jobSkills, matched);
    DistinctSurvivesSorting(MatchScore(matched), jobSkills);
    hide MatchedFirst, KeepsJobOrder, DistinctKeys, StableSort;
    assert Level(MatchScore(matched), 1, []) == [] && Level(MatchScore(matched), 0, []) == [];
    hide Level;
    ghost var score := MatchScore(matched);
    var skills: seq<string> := [];
    for i := 0 to |jobSkills|
      invariant skills == Level(score, 1, jobSkills[..i])
    {
      LevelOneMore(score, 1, jobSkills, i);
      if ToLower(jobSkills[i]) in matched {
        skills := skills + [jobSkills[i]];
      }
    }
    assert jobSkills[..|jobSkills|] == jobSkills;
    ghost var first := skills;
    for i := 0 to |jobSkills|
      invariant skills == first + Level(score, 0, jobSkills[..i])
    {
      LevelOneMore(score, 0, jobSkills, i);
      if ToLower(jobSkills[i]) !in matched {
        skills := skills + [jobSkills[i]];
      }
    }
    assert jobSkills[..|jobSkills|] == jobSkills;
    UnseenOfDistinct(skills, {});
    out := OrderedUnique(skills);
  }

  lemma PartitionIsStableSort(s: seq<string>, matched: set<string>)
    ensures Level(MatchScore(matched), 1, s) + Level(MatchScore(matched), 0, s) == StableSort(MatchScore(matched), s)
  {
    var score := MatchScore(matched);
    var one, zero := Level(score, 1, s), Level(score, 0, s);
    LevelMembers(score, 1, s);
    LevelMembers(score, 0, s);
    assert Descending(score, one + zero);
    forall k ensures Level(score, k, one + zero) == Level(score, k, s) {
      LevelConcat(score, k, one, zero);
      LevelOfLevel(score, k, 1, s);
      LevelOfLevel(score, k, 0, s);
      if k != 0 && k != 1 {
        LevelNone(score, k, s);
      }
    }
    SortIsTheStableOrder(score, one + zero, s);
  }

  lemma {:induction false} LevelNone(score: string -> int, k: int, s: seq<string>)
    requires forall x | x in s :: score(x) != k
    ensures Level(score, k, s) == []
  {
    if s == [] {
    } else {
      LevelNone(score, k, s[1..]);
    }
  }

  lemma {:induction false} LevelOfLevel(score: string -> int, k: int, k': int, s: seq<string>)
    ensures Level(score, k, Level(score, k', s)) == if k == k' then Level(score, k, s) else []
  {
    if s == [] {
    } else {
      LevelOfLevel(score, k, k', s[1..]);
    }
  }

  lemma {:induction false} DistinctSurvivesSorting(score: string -> int, s: seq<string>)
    requires DistinctKeys(s)
    ensures DistinctKeys(StableSort(score, s))
  {
    if s == [] {
    } else {
      DistinctSurvivesSorting(score, s[1..]);
      StableSortSpec(score, s[1..]);
      var sorted := StableSort(score, s[1..]);
      forall y | y in sorted ensures ToLower(y) != ToLower(s[0]) { assert y in multiset(sorted); }
      InsertKeepsDistinct(score, s[0], sorted);
    }
  }

  lemma {:induction false} InsertKeepsDistinct(score: string -> int, x: string, s: seq<string>)
    requires DistinctKeys(s) && x != "" && Trimmed(Go, x)
    requires forall y | y in s :: ToLower(y) != ToLower(x)
    ensures DistinctKeys(Insert(score, x, s))
  {
    hide ToLower, Trimmed;
    if s != [] && score(s[0]) > score(x) {
      var tail := s[1..];
      var rest := Insert(score, x, tail);
      InsertKeepsDistinct(score, x, tail);
      InsertMembers(score, x, tail);
      hide Insert;
      forall i | 0 <= i < |rest| ensures ToLower(rest[i]) != ToLower(s[0]) {
        assert rest[i] in multiset(rest);
        assert rest[i] == x || rest[i] in tail;
      }
      assert Insert(score, x, s) == [s[0]] + rest;
    }
  }

  // ---- Highlights -----------------------------------------------------------------------------

  function WorkHighlights(items: seq<ProfileTables.WorkHistory>): seq<string> {
    if items == [] then [] else items[0].highlights + WorkHighlights(items[1..])
  }

  function ProjectHighlights(items: seq<ProfileTables.Project>): seq<string> {
    if items == [] then [] else items[0].highlights + ProjectHighlights(items[1..])
  }

  /** The stored highlights in the order of work history, then projects. */
  function Stored(work: seq<ProfileTables.WorkHistory>, projects: seq<ProfileTables.Project>): seq<string> {
    WorkHighlights(work) + ProjectHighlights(projects)
  }

  /** The stored highlights, ranked and deduplicated. */
  function Ranking(
    work: seq<ProfileTables.WorkHistory>, projects: seq<ProfileTables.Project>, skills: seq<string>): seq<string>
  {
    Distinct(StableSort(ScoreBy(skills), Stored(work, projects)))
  }

  function Min(a: nat, b: nat): nat {
    if a < b then a else b
  }

  method CollectHighlights(work: seq<ProfileTables.WorkHistory>, projects: seq<ProfileTables.Project>)
    returns (candidates: seq<string>)
    ensures candidates == Stored(work, projects)
  {
    candidates := [];
    for i := 0 to |work|
      invariant candidates + WorkHighlights(work[i..]) == WorkHighlights(work)
    {
      assert work[i..][1..] == work[i + 1..];
      assert candidates + (work[i].highlights + WorkHighlights(work[i + 1..]))
        == (candidates + work[i].highlights) + WorkHighlights(work[i + 1..]);
      candidates := candidates + work[i].highlights;
    }
    assert candidates == WorkHighlights(work);
    for i := 0 to |projects|
      invariant candidates + ProjectHighlights(projects[i..]) == Stored(work, projects)
    {
      assert projects[i..][1..] == projects[i + 1..];
      assert candidates + (projects[i].highlights + ProjectHighlights(projects[i + 1..]))
        == (candidates + projects[i].highlights) + ProjectHighlights(projects[i + 1..]);
      candidates := candidates + projects[i].highlights;
    }
  }

  method SelectHighlights(
    work: seq<ProfileTables.WorkHistory>, projects: seq<ProfileTables.Project>, skills: seq<string>, max: nat)
    returns (out: seq<string>)
    ensures var ranked := Ranking(work, projects, skills); out == ranked[..Min(|ranked|, max)]
  {
    hide Distinct, StableSort, Stored;
    var candidates := CollectHighlights(work, projects);
    var slice := new string[|candidates|](i requires 0 <= i < |candidates| => candidates[i]);
    assert slice[..] == candidates;
    SliceStable(slice, ScoreBy(skills));
    var unique := OrderedUnique(slice[..]);
    out := unique[..Min(|unique|, max)];
  }

  /** No value left out of the first `n` distinct keys scores above one kept. */
  ghost predicate NoneBetterLeftOut(all: seq<string>, score: string -> int, out: seq<string>, n: nat) {
    forall v | v in all && TrimSpace(v) != "" && !HasKey(out, Normalize(v)) ::
      |out| == n && forall r | r in out :: score(v) <= score(r)
  }

  lemma LeftOutIsNoBetter(score: string -> int, best: seq<string>, n: nat, d: string)
    requires Descending(score, best) && d in best && d !in best[..Min(|best|, n)]
    ensures |best| > n && forall r | r in best[..n] :: score(d) <= score(r)
  {
    var out := best[..Min(|best|, n)];
    assert forall q | 0 <= q < |out| :: out[q] == best[q];
    var p :| 0 <= p < |best| && best[p] == d;
  }

  lemma CutKeepsTheBest(score: string -> int, all: seq<string>, n: nat)
    requires IgnoresPaddingAndCase(score)
    ensures var best := StableSort(score, Distinct(all)); NoneBetterLeftOut(all, score, best[..Min(|best|, n)], n)
  {
    var distinct := Distinct(all);
    var best := StableSort(score, distinct);
    var out := best[..Min(|best|, n)];
    StableSortSpec(score, distinct);
    DistinctSpec(all);
    forall v | v in all && TrimSpace(v) != "" && !HasKey(out, Normalize(v))
      ensures |out| == n && forall r | r in out :: score(v) <= score(r)
    {
      var i :| 0 <= i < |distinct| && Normalize(distinct[i]) == Normalize(v);
      assert distinct[i] in multiset(distinct);
      assert multiset(best)[distinct[i]] > 0;
      LeftOutIsNoBetter(score, best, n, distinct[i]);
      assert score(v) == score(distinct[i]);
    }
  }

  /**
   The selection is a true top-k: the stored highlights, each in its first stored spelling and
   once, stably sorted by score and cut at `max`; and no highlight left out scores above one kept.
   */
  lemma TopHighlights(
    work: seq<ProfileTables.WorkHistory>, projects: seq<ProfileTables.Project>, skills: seq<string>, max: nat,
    out: seq<string>)
    requires TrimmedSkills(skills)
    requires var ranked := Ranking(work, projects, skills); out == ranked[..Min(|ranked|, max)]
    ensures var all := Stored(work, projects);
            var best := StableSort(ScoreBy(skills), Distinct(all));
            && out == best[..Min(|best|, max)]
            && DistinctKeys(out)
            && Descending(ScoreBy(skills), out)
            && (forall r | r in out :: FirstSpelling(all, r))
            && NoneBetterLeftOut(all, ScoreBy(skills), out, max)
  {
    var all := Stored(work, projects);
    var score := ScoreBy(skills);
    ScoreIgnoresPaddingAndCase(skills);
    SortThenDistinct(score, all);
    CutKeepsTheBest(score, all, max);
    BestAreFirstSpellings(score, all);
  }

  lemma BestAreFirstSpellings(score: string -> int, all: seq<string>)
    ensures var best := StableSort(score, Distinct(all));
            DistinctKeys(best) && Descending(score, best) && forall r | r in best :: FirstSpelling(all, r)
  {
    var best := StableSort(score, Distinct(all));
    DistinctSpec(all);
    DistinctSurvivesSorting(score, Distinct(all));
    StableSortSpec(score, Distinct(all));
    forall r | r in best ensures FirstSpelling(all, r) {
      assert r in multiset(best);
    }
  }

  /** A sorted copy of the stored items. */
  method Ranked<T>(items: seq<T>, score: T -> int) returns (out: seq<T>)
    ensures out == StableSort(score, items)
    ensures Descending(score, out) && multiset(out) == multiset(items)
  {
    var copy := new T[|items|](i requires 0 <= i < |items| => items[i]);
    assert copy[..] == items;
    SliceStable(copy, score);
    StableSortSpec(score, items);
    out := copy[..];
  }

  /** `strings.Join(parts, " ")`. */
  function Spaced(parts: seq<string>): string {
    if parts == [] then "" else if |parts| == 1 then parts[0] else parts[0] + " " + Spaced(parts[1..])
  }

  function WorkText(item: ProfileTables.WorkHistory): string {
    Spaced([item.company, item.title, item.location, item.summary] + item.highlights + item.technologies)
  }

  function ProjectText(item: ProfileTables.Project): string {
    Spaced([item.name, item.role, item.url, item.summary] + item.highlights + item.technologies)
  }

  function CertificationText(item: ProfileTables.Certification): string {
    Spaced([item.name, item.issuer, item.url])
  }

  method RankedWorkHistory(items: seq<ProfileTables.WorkHistory>, skills: seq<string>)
    returns (out: seq<ProfileTables.WorkHistory>)
    ensures forall i, j | 0 <= i < j < |out| ::
        SkillScore(WorkText(out[i]), skills) >= SkillScore(WorkText(out[j]), skills)
    ensures multiset(out) == multiset(items)
    ensures out == StableSort(item => SkillScore(WorkText(item), skills), items)
  {
    out := Ranked(items, item => SkillScore(WorkText(item), skills));
  }

  method RankedProjects(items: seq<ProfileTables.Project>, skills: seq<string>)
    returns (out: seq<ProfileTables.Project>)
    ensures forall i, j | 0 <= i < j < |out| ::
        SkillScore(ProjectText(out[i]), skills) >= SkillScore(ProjectText(out[j]), skills)
    ensures multiset(out) == multiset(items)
    ensures out == StableSort(item => SkillScore(ProjectText(item), skills), items)
  {
    out := Ranked(items, item => SkillScore(ProjectText(item), skills));
  }

  method RankedCertifications(items: seq<ProfileTables.Certification>, skills: seq<string>)
    returns (out: seq<ProfileTables.Certification>)
    ensures forall i, j | 0 <= i < j < |out| ::
              SkillScore(CertificationText(out[i]), skills) >= SkillScore(CertificationText(out[j]), skills)
    ensures multiset(out) == multiset(items)
    ensures out == StableSort(item => SkillScore(CertificationText(item), skills), items)
  {
    out := Ranked(items, item => SkillScore(CertificationText(item), skills));
  }
}
