/** How well a candidate profile matches a job: the skill split, four bonus tests and the score. */
module Matcher {
  import opened Wrappers
  import opened Sets
  import opened Text
  import opened StringOrder

  datatype Candidate = Candidate(
    skills: seq<string>, titles: seq<string>, locations: seq<string>, remotePreference: string, minSalary: Option<int>)
  datatype Job = Job(
    title: string, location: string, skills: seq<string>,
    salaryMin: Option<int>, salaryMax: Option<int>, remotePolicy: string)
  datatype Match = Match(score: int, matched: seq<string>, missing: seq<string>, notes: seq<Note>)

  // ---- Floating point -------------------------------------------------------------------------

  /** What the results use of float64 rounding: it is monotone, exact on 0, 1 and 55, and close between them. */
  ghost predicate RoundsToNearest(f: real -> real) {
    && (forall x, y | x <= y :: f(x) <= f(y)) && f(0.0) == 0.0 && f(1.0) == 1.0 && f(55.0) == 55.0
    && forall x | 0.0 <= x <= 55.0 :: x - 0.00001 <= f(x) <= x + 0.00001
  }

  type Rounding = f: real -> real | RoundsToNearest(f) witness x => x

  // The rounding stays unspecified: every result holds for any function of the type.
  const Round: Rounding

  /** `int(float64(m) / float64(n) * 55)`. */
  function SkillPoints(m: nat, n: nat): int
    requires n > 0
  {
    Round(Round(m as real / n as real) * 55.0).Floor
  }

  lemma SkillPointsSpec(m: nat, k: nat, n: nat)
    requires m <= k <= n && n > 0
    ensures 0 <= SkillPoints(m, n) <= SkillPoints(k, n) <= 55
    ensures SkillPoints(0, n) == 0 && SkillPoints(n, n) == 55
  {
    assert RoundsToNearest(Round);
    Ratios(0.0, m as real, n as real);
    Ratios(m as real, k as real, n as real);
    Ratios(n as real, n as real, n as real);
    var x, y := Round(m as real / n as real), Round(k as real / n as real);
    assert 0.0 <= x <= y <= 1.0;
    assert 0.0 <= Round(x * 55.0) <= Round(y * 55.0) <= 55.0;
    assert Round(0.0 * 55.0) == 0.0 && Round(1.0 * 55.0) == 55.0;
  }

  /** The points are 55 times the share of the skills matched, cut to a whole number. */
  lemma SkillPointsShare(m: nat, n: nat)
    requires m <= n && n > 0
    ensures SkillPoints(m, n) as real <= 55.0 * (m as real / n as real) + 0.001
    ensures 55.0 * (m as real / n as real) - 1.001 < SkillPoints(m, n) as real
  {
    assert RoundsToNearest(Round);
    Ratios(0.0, m as real, n as real);
    Ratios(m as real, m as real, n as real);
    var share := m as real / n as real;
    var x := Round(share);
    assert 0.0 <= x <= 1.0 && share - 0.00001 <= x <= share + 0.00001;
    var y := Round(x * 55.0);
    assert x * 55.0 - 0.00001 <= y <= x * 55.0 + 0.00001;
  }

  lemma Ratios(x: real, y: real, d: real)
    requires 0.0 <= x <= y <= d && d > 0.0
    ensures 0.0 <= x / d <= y / d <= 1.0
    ensures x == 0.0 ==> x / d == 0.0
    ensures y == d ==> y / d == 1.0
  {
  }

  // ---- Skills ---------------------------------------------------------------------------------

  function CandidateMap(skills: seq<string>): map<string, string> {
    if skills == [] then map[]
    else
      var n := |skills| - 1;
      CandidateMap(skills[..n])[Normalize(skills[n]) := skills[n]]
  }

  /** The spellings matched and the job skills missing, of the keys not seen yet. */
  function Split(jobSkills: seq<string>, candidate: map<string, string>, seen: set<string>)
    : (seq<string>, seq<string>)
  {
    if jobSkills == [] then ([], [])
    else
      var skill := jobSkills[0];
      var key := Normalize(skill);
      if key == "" || key in seen then Split(jobSkills[1..], candidate, seen)
      else
        var (matched, missing) := Split(jobSkills[1..], candidate, seen + {key});
        if key in candidate then ([candidate[key]] + matched, missing) else (matched, [skill] + missing)
  }

  method MapCandidate(skills: seq<string>) returns (candidate: map<string, string>)
    ensures candidate == CandidateMap(skills)
  {
    candidate := map[];
    for i := 0 to |skills|
      invariant candidate == CandidateMap(skills[..i])
    {
      assert skills[..i + 1][..i] == skills[..i];
      candidate := candidate[Normalize(skills[i]) := skills[i]];
    }
    assert skills[..|skills|] == skills;
  }

  method MatchSkills(candidateSkills: seq<string>, jobSkills: seq<string>)
    returns (matched: seq<string>, missing: seq<string>)
    ensures (matched, missing) == Split(jobSkills, CandidateMap(candidateSkills), {})
  {
    hide Normalize;
    var candidate := MapCandidate(candidateSkills);
    matched, missing := [], [];
    var seen: set<string> := {};
    ghost var all := Split(jobSkills, candidate, {});
    assert jobSkills[0..] == jobSkills;
    for i := 0 to |jobSkills|
      invariant matched + Split(jobSkills[i..], candidate, seen).0 == all.0
      invariant missing + Split(jobSkills[i..], candidate, seen).1 == all.1
    {
      assert jobSkills[i..][1..] == jobSkills[i + 1..];
      var skill := jobSkills[i];
      var key := Normalize(skill);
      if key == "" {
        continue;
      }
      if key in seen {
        continue;
      }
      seen := seen + {key};
      if key in candidate {
        matched := matched + [candidate[key]];
      } else {
        missing := missing + [skill];
      }
    }
    assert jobSkills[|jobSkills|..] == [] && matched + [] == matched && missing + [] == missing;
  }

  /** The distinct keys of a list of skills. */
  function Keys(skills: seq<string>): set<string> {
    set s | s in skills :: Normalize(s)
  }

  function JobKeys(skills: seq<string>): set<string> {
    Keys(skills) - {""}
  }

  lemma KeysOneMore(skills: seq<string>)
    requires skills != []
    ensures Keys(skills) == Keys(skills[1..]) + {Normalize(skills[0])}
    ensures var n := |skills| - 1; Keys(skills) == Keys(skills[..n]) + {Normalize(skills[n])}
  {
    var n := |skills| - 1;
    assert skills == [skills[0]] + skills[1..] && skills == skills[..n] + [skills[n]];
  }

  lemma {:induction false} CandidateMapSpec(skills: seq<string>)
    ensures CandidateMap(skills).Keys == Keys(skills)
    ensures forall k | k in CandidateMap(skills) ::
        CandidateMap(skills)[k] in skills && Normalize(CandidateMap(skills)[k]) == k
  {
    if skills == [] {
    } else {
      var n := |skills| - 1;
      assert skills == skills[..n] + [skills[n]];
      CandidateMapSpec(skills[..n]);
      KeysOneMore(skills);
    }
  }

  /** Of several spellings of one key the candidate's last one is kept. */
  lemma {:induction false} LastSpellingKept(skills: seq<string>, k: string) returns (i: nat)
    requires k in CandidateMap(skills)
    ensures i < |skills| && CandidateMap(skills)[k] == skills[i] && Normalize(skills[i]) == k
    ensures forall j | i < j < |skills| :: Normalize(skills[j]) != k
  {
    hide Normalize;
    var n := |skills| - 1;
    if Normalize(skills[n]) == k {
      i := n;
    } else {
      i := LastSpellingKept(skills[..n], k);
      assert forall j | 0 <= j < n :: skills[..n][j] == skills[j];
    }
  }

  ghost predicate DistinctKeys(s: seq<string>) {
    forall i, j | 0 <= i < j < |s| :: Normalize(s[i]) != Normalize(s[j])
  }

  /** The list holds one skill for every key of the set, and no other. */
  ghost predicate Lists(s: seq<string>, keys: set<string>) {
    DistinctKeys(s) && Keys(s) == keys && |s| == |keys|
  }

  lemma Prepended(s: seq<string>, x: string, keys: set<string>)
    requires Lists(s, keys) && Normalize(x) !in keys
    ensures Lists([x] + s, keys + {Normalize(x)})
  {
    hide Normalize, Keys;
    KeysOneMore([x] + s);
    KeysAt(s);
    assert ([x] + s)[1..] == s;
  }

  lemma KeysAt(s: seq<string>)
    ensures forall i | 0 <= i < |s| :: Normalize(s[i]) in Keys(s)
  {
    hide Normalize;
  }

  lemma KeysLeft(jobSkills: seq<string>, have: set<string>, seen: set<string>)
    requires jobSkills != []
    ensures var (key, rest) := (Normalize(jobSkills[0]), jobSkills[1..]);
            var keys := JobKeys(jobSkills) - seen;
            if key == "" || key in seen then keys == JobKeys(rest) - seen
            else
              var before := JobKeys(rest) - (seen + {key});
              key !in before && keys * have == (if key in have then before * have + {key} else before * have)
              && keys - have == if key in have then before - have else before - have + {key}
  {
    KeysOneMore(jobSkills);
    hide Normalize, Keys;
    var key, rest := Normalize(jobSkills[0]), jobSkills[1..];
    if key != "" && key !in seen {
      OneMoreKey(JobKeys(rest) - (seen + {key}), key, have);
      assert JobKeys(jobSkills) - seen == JobKeys(rest) - (seen + {key}) + {key};
    }
  }

  lemma OneMoreKey(before: set<string>, key: string, have: set<string>)
    requires key !in before
    ensures (before + {key}) * have == if key in have then before * have + {key} else before * have
    ensures before + {key} - have == if key in have then before - have else before - have + {key}
  {
  }

  lemma NoneLeft(seen: set<string>, have: set<string>)
    ensures Lists([], (JobKeys([]) - seen) * have) && Lists([], JobKeys([]) - seen - have)
  {
  }

  lemma {:induction false} SplitSpec(jobSkills: seq<string>, candidate: map<string, string>, seen: set<string>)
    requires forall k | k in candidate :: Normalize(candidate[k]) == k
    ensures var keys := JobKeys(jobSkills) - seen;
            && Lists(Split(jobSkills, candidate, seen).0, keys * candidate.Keys)
            && Lists(Split(jobSkills, candidate, seen).1, keys - candidate.Keys)
  {
    hide Normalize, JobKeys, Lists;
    if jobSkills == [] {
      NoneLeft(seen, candidate.Keys);
    } else {
      var skill, rest := jobSkills[0], jobSkills[1..];
      var key := Normalize(skill);
      KeysLeft(jobSkills, candidate.Keys, seen);
      if key == "" || key in seen {
        SplitSpec(rest, candidate, seen);
      } else {
        SplitSpec(rest, candidate, seen + {key});
        var (matched, missing) := Split(rest, candidate, seen + {key});
        var before := JobKeys(rest) - (seen + {key});
        if key in candidate {
          Prepended(matched, candidate[key], before * candidate.Keys);
        } else {
          Prepended(missing, skill, before - candidate.Keys);
        }
      }
    }
  }

  /** What is matched is spelled as in the candidate's skills, what is missing as in the job's. */
  lemma {:induction false} SplitSpellings(jobSkills: seq<string>, candidate: map<string, string>, seen: set<string>)
    ensures forall s | s in Split(jobSkills, candidate, seen).0 :: exists k | k in candidate :: candidate[k] == s
    ensures forall s | s in Split(jobSkills, candidate, seen).1 :: s in jobSkills
  {
    if jobSkills == [] {
    } else {
      var key := Normalize(jobSkills[0]);
      SplitSpellings(jobSkills[1..], candidate, seen);
      SplitSpellings(jobSkills[1..], candidate, seen + {key});
    }
  }

  /** A missing skill is spelled as the job's first one with its key. */
  lemma {:induction false} MissingIsFirst(jobSkills: seq<string>, candidate: map<string, string>, seen: set<string>,
    s: string) returns (i: nat)
    requires s in Split(jobSkills, candidate, seen).1
    ensures i < |jobSkills| && jobSkills[i] == s
    ensures Normalize(s) != "" && Normalize(s) !in seen && Normalize(s) !in candidate
    ensures forall j | 0 <= j < i :: Normalize(jobSkills[j]) != Normalize(s)
  {
    hide Normalize;
    var key, rest := Normalize(jobSkills[0]), jobSkills[1..];
    if key == "" || key in seen {
      i := MissingIsFirst(rest, candidate, seen, s);
    } else if key !in candidate && s == jobSkills[0] {
      i := 0;
      return;
    } else {
      i := MissingIsFirst(rest, candidate, seen + {key}, s);
    }
    assert forall j | 0 < j <= i :: jobSkills[j] == rest[j - 1];
    i := i + 1;
  }

  /**
   Matched and missing skills split the distinct non-blank job keys: the matched list has, once each
   and in one of the candidate's spellings, those the candidate has, the missing list the others.
   */
  lemma SkillsSplitExactly(candidateSkills: seq<string>, jobSkills: seq<string>)
    ensures var (matched, missing) := Split(jobSkills, CandidateMap(candidateSkills), {});
            && Keys(matched) == JobKeys(jobSkills) * Keys(candidateSkills) && |matched| == |Keys(matched)|
            && Keys(missing) == JobKeys(jobSkills) - Keys(candidateSkills) && |missing| == |Keys(missing)|
            && (forall s | s in matched :: s in candidateSkills) && (forall s | s in missing :: s in jobSkills)
  {
    CandidateMapSpec(candidateSkills);
    SplitSpec(jobSkills, CandidateMap(candidateSkills), {});
    SplitSpellings(jobSkills, CandidateMap(candidateSkills), {});
    assert JobKeys(jobSkills) - {} == JobKeys(jobSkills);
    hide Split, Keys, JobKeys, CandidateMap;
  }

  lemma MatchedCount(candidateSkills: seq<string>, jobSkills: seq<string>)
    ensures |Split(jobSkills, CandidateMap(candidateSkills), {}).0| == |JobKeys(jobSkills) * Keys(candidateSkills)|
  {
    hide Split, Keys, JobKeys, CandidateMap;
    SkillsSplitExactly(candidateSkills, jobSkills);
  }

  // ---- The other tests ------------------------------------------------------------------------

  /** Some preferred value that is not blank is found in the text. */
  predicate Prefers(preferred: seq<string>, text: string) {
    exists i | 0 <= i < |preferred| ::
      Normalize(preferred[i]) != "" && Contains(Normalize(text), Normalize(preferred[i]))
  }

  method TitleMatches(preferred: seq<string>, title: string) returns (matches: bool)
    ensures matches == Prefers(preferred, title)
  {
    var text := Normalize(title);
    hide Normalize;
    if text == "" || preferred == [] {
      return false;
    }
    for i := 0 to |preferred|
      invariant forall j | 0 <= j < i :: Normalize(preferred[j]) == "" || !Contains(text, Normalize(preferred[j]))
    {
      var value := Normalize(preferred[i]);
      if value != "" && Contains(text, value) {
        return true;
      }
    }
    matches := false;
  }

  /** The extra test for remote jobs adds nothing: it is an instance of the general one. */
  method LocationMatches(preferred: seq<string>, location: string) returns (matches: bool)
    ensures matches == Prefers(preferred, location)
  {
    var text := Normalize(location);
    hide Normalize;
    if preferred == [] {
      return false;
    }
    for i := 0 to |preferred|
      invariant forall j | 0 <= j < i :: Normalize(preferred[j]) == "" || !Contains(text, Normalize(preferred[j]))
    {
      var value := Normalize(preferred[i]);
      if value == "" {
        continue;
      }
      if value == "remote" && Contains(text, "remote") {
        return true;
      }
      if Contains(text, value) {
        return true;
      }
    }
    matches := false;
  }

  predicate RemoteMatches(preference: string, policy: string) {
    var (wanted, offered) := (Normalize(preference), Normalize(policy));
    wanted != "" && offered != "" && (wanted == offered || (wanted == "remote" && offered == "hybrid"))
  }

  predicate SalaryMatches(minSalary: Option<int>, jobMin: Option<int>, jobMax: Option<int>) {
    minSalary.Some?
    && if jobMax.Some? then jobMax.value >= minSalary.value else jobMin.Some? && jobMin.value >= minSalary.value
  }

  // ---- The score ------------------------------------------------------------------------------

  function Bonus(points: int, granted: bool): int {
    if granted then points else 0
  }

  /** The points of the job's side tests, which the candidate's skills play no part in. */
  function Bonuses(c: Candidate, job: Job): int {
    Bonus(15, Prefers(c.titles, job.title)) + Bonus(10, Prefers(c.locations, job.location))
    + Bonus(10, RemoteMatches(c.remotePreference, job.remotePolicy))
    + Bonus(10, SalaryMatches(c.minSalary, job.salaryMin, job.salaryMax))
  }

  function SkillScore(candidateSkills: seq<string>, jobSkills: seq<string>): int {
    if jobSkills == [] then 35
    else
      var matched := |JobKeys(jobSkills) * Keys(candidateSkills)|;
      SkillPoints(matched, |jobSkills|)
  }

  /** The score before the clamp at 100. */
  function Points(c: Candidate, job: Job): int {
    SkillScore(c.skills, job.skills) + Bonuses(c, job)
  }

  datatype Note = SkillsNeutral | TitleNote | LocationNote | RemoteNote | SalaryNote

  function Noted(granted: bool, note: Note): seq<Note> {
    if granted then [note] else []
  }

  /** The notes of the side tests. */
  function BonusNotes(c: Candidate, job: Job): seq<Note> {
    Noted(Prefers(c.titles, job.title), TitleNote)
    + Noted(Prefers(c.locations, job.location), LocationNote)
    + Noted(RemoteMatches(c.remotePreference, job.remotePolicy), RemoteNote)
    + Noted(SalaryMatches(c.minSalary, job.salaryMin, job.salaryMax), SalaryNote)
  }

  method AddBonuses(c: Candidate, job: Job) returns (points: int, notes: seq<Note>)
    ensures points == Bonuses(c, job) && notes == BonusNotes(c, job)
  {
    hide Prefers, RemoteMatches, SalaryMatches;
    points, notes := 0, [];
    var title := TitleMatches(c.titles, job.title);
    if title {
      points, notes := points + 15, notes + [TitleNote];
    }
    var location := LocationMatches(c.locations, job.location);
    if location {
      points, notes := points + 10, notes + [LocationNote];
    }
    if RemoteMatches(c.remotePreference, job.remotePolicy) {
      points, notes := points + 10, notes + [RemoteNote];
    }
    if SalaryMatches(c.minSalary, job.salaryMin, job.salaryMax) {
      points, notes := points + 10, notes + [SalaryNote];
    }
  }

  method Score(c: Candidate, job: Job) returns (result: Match)
    ensures result.score == Points(c, job)
    ensures result.matched == SortStrings(Split(job.skills, CandidateMap(c.skills), {}).0)
    ensures result.missing == SortStrings(Split(job.skills, CandidateMap(c.skills), {}).1)
    ensures result.notes == Noted(job.skills == [], SkillsNeutral) + BonusNotes(c, job)
  {
    hide BonusNotes, Bonuses, SkillPoints, SortStrings, Split, CandidateMap, Keys, JobKeys;
    var score, notes: seq<Note> := 0, [];
    var matched, missing := MatchSkills(c.skills, job.skills);
    MatchedCount(c.skills, job.skills);
    if |job.skills| == 0 {
      score, notes := score + 35, notes + [SkillsNeutral];
    } else {
      score := score + SkillPoints(|matched|, |job.skills|);
    }
    var points, noted := AddBonuses(c, job);
    score, notes := score + points, notes + noted;
    PointsInRange(c, job);
    if score > 100 {
      score := 100;
    }
    result := Match(score, SortStrings(matched), SortStrings(missing), notes);
  }

  lemma {:induction false} KeysAreFew(skills: seq<string>)
    ensures |Keys(skills)| <= |skills|
  {
    hide Normalize;
    if skills == [] {
      assert Keys(skills) == {};
    } else {
      KeysOneMore(skills);
      KeysAreFew(skills[1..]);
    }
  }

  /** The skill points grow with the candidate's keys, from 0 up to 55. */
  lemma MoreKeysMorePoints(a: seq<string>, b: seq<string>, jobSkills: seq<string>)
    requires Keys(a) <= Keys(b)
    ensures 0 <= SkillScore(a, jobSkills) <= SkillScore(b, jobSkills) <= 55
  {
    if jobSkills != [] {
      KeysAreFew(jobSkills);
      var mine, more := JobKeys(jobSkills) * Keys(a), JobKeys(jobSkills) * Keys(b);
      SmallerIsFewer(mine, more);
      SmallerIsFewer(more, Keys(jobSkills));
      SkillPointsSpec(|mine|, |more|, |jobSkills|);
    }
  }

  /** The clamp at 100 never takes effect. */
  lemma PointsInRange(c: Candidate, job: Job)
    ensures 0 <= Points(c, job) <= 100
  {
    MoreKeysMorePoints(c.skills, c.skills, job.skills);
  }

  /**
   The score depends on the set of the candidate's skill keys only, so neither order, repetition,
   case nor padding of the skills changes it, and it never drops when a skill is added.
   */
  lemma ScoreFollowsSkillKeys(c: Candidate, skills: seq<string>, job: Job)
    ensures Keys(c.skills) == Keys(skills) ==> Points(c, job) == Points(c.(skills := skills), job)
    ensures Keys(c.skills) <= Keys(skills) ==> Points(c, job) <= Points(c.(skills := skills), job)
  {
    assert Bonuses(c.(skills := skills), job) == Bonuses(c, job);
    hide Bonuses, SkillScore;
    if Keys(c.skills) <= Keys(skills) { MoreKeysMorePoints(c.skills, skills, job.skills); }
    if Keys(skills) <= Keys(c.skills) { MoreKeysMorePoints(skills, c.skills, job.skills); }
  }

  /** A candidate with every skill of a job that repeats and blanks none scores all 55 skill points. */
  lemma FullSkillScore(candidateSkills: seq<string>, jobSkills: seq<string>)
    requires jobSkills != [] && JobKeys(jobSkills) <= Keys(candidateSkills) && |JobKeys(jobSkills)| == |jobSkills|
    ensures SkillScore(candidateSkills, jobSkills) == 55
  {
    assert JobKeys(jobSkills) * Keys(candidateSkills) == JobKeys(jobSkills);
    SkillPointsSpec(|jobSkills|, |jobSkills|, |jobSkills|);
  }
}
