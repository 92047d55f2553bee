/** The matcher's tests and weights, spelled out. */
module MatchRules {
  import opened Wrappers
  import Sets
  import opened Text
  import opened Matcher

  // ---- The tests ------------------------------------------------------------------------------

  /**
   The policy suits the preference when both are given and read the same, padding and case aside;
   otherwise only a hybrid job suits somebody who prefers to work remotely.
   */
  lemma RemoteRule(preference: string, policy: string)
    ensures AllSpace(Go, preference) || AllSpace(Go, policy) ==> !RemoteMatches(preference, policy)
    ensures Normalize(preference) == Normalize(policy) ==>
              (RemoteMatches(preference, policy) <==> !AllSpace(Go, policy))
    ensures Normalize(preference) != Normalize(policy) ==>
              (RemoteMatches(preference, policy) <==>
               Normalize(preference) == "remote" && Normalize(policy) == "hybrid")
  {
    BlankNormalizes(preference);
    BlankNormalizes(policy);
    hide AllSpace, Normalize;
  }

  lemma BlankNormalizes(s: string)
    ensures Normalize(s) == "" <==> AllSpace(Go, s)
  {
    NormalizeShape(s);
    TrimIdentity(Go, s);
  }

  /** What a job is known to pay at best. */
  function BestPay(jobMin: Option<int>, jobMax: Option<int>): Option<int> {
    if jobMax.Some? then jobMax else jobMin
  }

  /** The salary suits when both sides name one and the job pays at best what is asked at least, or more. */
  lemma SalaryRule(asked: Option<int>, jobMin: Option<int>, jobMax: Option<int>)
    ensures asked.None? || BestPay(jobMin, jobMax).None? ==> !SalaryMatches(asked, jobMin, jobMax)
    ensures asked.Some? && BestPay(jobMin, jobMax).Some? ==>
              (SalaryMatches(asked, jobMin, jobMax) <==> asked.value <= BestPay(jobMin, jobMax).value)
  {
  }

  /** Asking for less, or being paid more at best, never loses the points. */
  lemma SalaryIsMonotone(asked: int, less: int, jobMin: Option<int>, jobMax: int, more: int)
    requires less <= asked && jobMax <= more && SalaryMatches(Some(asked), jobMin, Some(jobMax))
    ensures SalaryMatches(Some(less), jobMin, Some(more))
  {
  }

  /** Some preference that is not blank stands in the text, padding and case aside. */
  lemma PreferenceRule(preferred: seq<string>, text: string)
    ensures Prefers(preferred, text) <==>
            exists v, i: nat :: v in preferred && !AllSpace(Go, v) && StandsAt(Normalize(text), Normalize(v), i)
  {
    forall v | v in preferred ensures Normalize(v) == "" <==> AllSpace(Go, v) { BlankNormalizes(v); }
    forall v | v in preferred
      ensures Contains(Normalize(text), Normalize(v)) <==> exists i: nat :: StandsAt(Normalize(text), Normalize(v), i)
    {
      ContainsStands(Normalize(text), Normalize(v));
    }
    hide AllSpace, Normalize, Contains, StandsAt;
    if Prefers(preferred, text) {
      var k :| 0 <= k < |preferred| && Normalize(preferred[k]) != ""
        && Contains(Normalize(text), Normalize(preferred[k]));
      assert preferred[k] in preferred;
    }
    if v, i: nat :| v in preferred && !AllSpace(Go, v) && StandsAt(Normalize(text), Normalize(v), i) {
      var k :| 0 <= k < |preferred| && preferred[k] == v;
      assert Contains(Normalize(text), Normalize(preferred[k]));
    }
  }

  // ---- The score ------------------------------------------------------------------------------

  /** The tests that a job passes. */
  datatype Tests = Tests(title: bool, location: bool, remote: bool, salary: bool)

  function TestsOf(c: Candidate, job: Job): Tests {
    Tests(Prefers(c.titles, job.title), Prefers(c.locations, job.location),
          RemoteMatches(c.remotePreference, job.remotePolicy), SalaryMatches(c.minSalary, job.salaryMin, job.salaryMax))
  }

  /**
   The weights: up to 55 points for the skills, 35 when the job names none, 15 for the title and 10 for
   each of the other tests; and a note for each test passed, and for no other.
   */
  lemma Weights(c: Candidate, job: Job)
    ensures var (t, points) := (TestsOf(c, job), Points(c, job));
            && points == SkillScore(c.skills, job.skills) + (if t.title then 15 else 0) + (if t.location then 10 else 0)
                         + (if t.remote then 10 else 0) + (if t.salary then 10 else 0)
            && (job.skills == [] ==> SkillScore(c.skills, job.skills) == 35)
            && 0 <= SkillScore(c.skills, job.skills) <= 55
            && (TitleNote in BonusNotes(c, job) <==> t.title) && (LocationNote in BonusNotes(c, job) <==> t.location)
            && (RemoteNote in BonusNotes(c, job) <==> t.remote) && (SalaryNote in BonusNotes(c, job) <==> t.salary)
            && SkillsNeutral !in BonusNotes(c, job)
  {
    MoreKeysMorePoints(c.skills, c.skills, job.skills);
    NotesTell(c, job);
    hide Prefers, RemoteMatches, SalaryMatches, BonusNotes;
    assert job.skills == [] ==> SkillScore(c.skills, job.skills) == 35;
    hide SkillScore;
  }

  lemma NotesTell(c: Candidate, job: Job)
    ensures var (t, notes) := (TestsOf(c, job), BonusNotes(c, job));
            && (TitleNote in notes <==> t.title) && (LocationNote in notes <==> t.location)
            && (RemoteNote in notes <==> t.remote) && (SalaryNote in notes <==> t.salary) && SkillsNeutral !in notes
  {
    hide Prefers, RemoteMatches, SalaryMatches;
    var t := TestsOf(c, job);
    FourNotes(t.title, t.location, t.remote, t.salary);
  }

  lemma FourNotes(a: bool, b: bool, c: bool, d: bool)
    ensures var notes := Noted(a, TitleNote) + Noted(b, LocationNote) + Noted(c, RemoteNote) + Noted(d, SalaryNote);
            && (TitleNote in notes <==> a) && (LocationNote in notes <==> b) && (RemoteNote in notes <==> c)
            && (SalaryNote in notes <==> d) && SkillsNeutral !in notes
  {
  }

  /** All 100 points are reached exactly with all the skill points and every test passed. */
  lemma FullScoreIff(c: Candidate, job: Job)
    ensures Points(c, job) == 100 <==>
            SkillScore(c.skills, job.skills) == 55 && TestsOf(c, job) == Tests(true, true, true, true)
  {
    Weights(c, job);
    hide Points, SkillScore, TestsOf, BonusNotes;
  }

  /** The skill points are 55 times the share of the job's listed skills that the candidate has,
    cut to a whole number. */
  lemma SkillShare(c: Candidate, job: Job)
    requires job.skills != []
    ensures var share := |JobKeys(job.skills) * Keys(c.skills)| as real / |job.skills| as real;
            55.0 * share - 1.001 < SkillScore(c.skills, job.skills) as real <= 55.0 * share + 0.001
  {
    KeysAreFew(job.skills);
    Sets.SmallerIsFewer(JobKeys(job.skills) * Keys(c.skills), Keys(job.skills));
    SkillPointsShare(|JobKeys(job.skills) * Keys(c.skills)|, |job.skills|);
    hide Keys, JobKeys, SkillPoints;
  }
}
