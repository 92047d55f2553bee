/** What the printed résumé says: its target, its skills in order, and its highlights. */
module ResumeLines {
  import opened Text
  import opened Tuner
  import opened Resume
  import StableOrder
  import ProfileTables

  // ---- Numbers and links ----------------------------------------------------------------------

  /** The number a text of digits stands for. */
  function NumberIn(digits: string): int {
    if digits == "" then 0
    else NumberIn(digits[..|digits| - 1]) * 10 + (digits[|digits| - 1] as int - '0' as int)
  }

  /** A printed number reads back as that number. */
  lemma {:induction false} DigitsReadBack(n: nat)
    ensures NumberIn(Digits(n)) == n
    ensures Digits(n) != "" && forall i | 0 <= i < |Digits(n)| :: '0' <= Digits(n)[i] <= '9'
  {
    var digit := [('0' as int + n % 10) as char];
    if n < 10 {
      assert digit[..0] == "";
      assert NumberIn(digit) == NumberIn("") * 10 + n;
    } else {
      DigitsReadBack(n / 10);
      assert Digits(n)[..|Digits(n)| - 1] == Digits(n / 10);
    }
  }

  function LinkShape(l: ProfileTables.Link): string {
    "[" + l.caption + "](" + l.url + ")"
  }

  /** Every link stands in the links line as Markdown, its caption and then its address. */
  lemma {:induction false} LinkShown(links: seq<ProfileTables.Link>, k: nat) returns (i: nat)
    requires k < |links|
    ensures StandsAt(LinkText(links), LinkShape(links[k]), i)
  {
    var one, shown := LinkShape(links[0]), LinkShape(links[k]);
    if k == 0 {
      i := 0;
      assert LinkText(links)[..|one|] == one;
    } else {
      var n := LinkShown(links[1..], k - 1);
      var rest, before := LinkText(links[1..]), one + " | ";
      i := |before| + n;
      assert LinkText(links) == before + rest;
      hide LinkText;
      assert (before + rest)[i..i + |shown|] == rest[n..n + |shown|];
    }
  }

  // ---- The opening lines ----------------------------------------------------------------------

  /** Line `i` of the printed résumé. */
  ghost predicate Prints(input: Input, i: nat, line: string) {
    i < |Document(input)| && Document(input)[i] == line
  }

  ghost predicate PrintsSome(input: Input, line: string) {
    line in Document(input)
  }

  lemma Opens(input: Input) returns (later: seq<string>)
    ensures Document(input) == Identity(input) + Target(input) + later
  {
    later := ["", SKILLS_HEADING, ""] + Bullets(PrintedSkills(input)) + [""] + [HIGHLIGHTS_HEADING]
      + HighlightLines(Highlights(input));
    hide Identity, Target, PrintedSkills, HighlightLines, Highlights;
  }

  /** The résumé opens with the name, and prints the headline and the links when there are any. */
  lemma IdentityLines(input: Input)
    ensures Prints(input, 0, "# " + input.name)
    ensures input.headline != "" ==> Prints(input, 1, "") && Prints(input, 2, input.headline)
    ensures input.links != [] ==> PrintsSome(input, LinkText(input.links))
  {
    var later := Opens(input);
    hide Document, Target, LinkText;
    var identity := Identity(input);
    assert Document(input) == identity + (Target(input) + later);
    assert input.links != [] ==> identity[|identity| - 1] == LinkText(input.links);
  }

  /** It names the job and its company, its location when it has one, and the match score. */
  lemma TargetLines(input: Input)
    ensures PrintsSome(input, "## Target Role") && PrintsSome(input, "- " + input.jobTitle + " at " + input.company)
    ensures input.location != "" ==> PrintsSome(input, "- Location: " + input.location)
    ensures PrintsSome(input, "- Match score: " + Decimal(input.matchScore) + "%")
  {
    var later := Opens(input);
    hide Document, Identity, Decimal;
    var target := Target(input);
    assert forall line | line in target :: PrintsSome(input, line);
    assert target[1] == "## Target Role" && target[3] == "- " + input.jobTitle + " at " + input.company;
    assert input.location != "" ==> target[4] == "- Location: " + input.location;
    assert target[|target| - 1] == "- Match score: " + Decimal(input.matchScore) + "%";
  }

  // ---- The skills -----------------------------------------------------------------------------

  /** The candidate has the skill: a matched skill reads the same, padding and case aside. */
  ghost predicate Has(input: Input, skill: string) {
    exists v :: v in input.matchedSkills && Normalize(v) == ToLower(skill)
  }

  lemma HasIsMatched(input: Input, skill: string)
    ensures ToLower(skill) in MatchedKeys(input.matchedSkills) <==> Has(input, skill)
  {
    hide Normalize, ToLower;
    var values := input.matchedSkills;
    if i :| 0 <= i < |values| && Normalize(values[i]) == ToLower(skill) { assert values[i] in values; }
  }

  lemma SomethingKept(values: seq<string>)
    ensures Distinct(values) == [] <==> forall v | v in values :: AllSpace(Go, v)
  {
    DistinctSpec(values);
    hide Distinct, Normalize;
    forall v | v in values ensures TrimSpace(v) == "" <==> AllSpace(Go, v) { TrimIdentity(Go, v); }
    if Distinct(values) != [] {
      var r := Distinct(values)[0];
      assert r in Distinct(values) && r != "";
      var i :| 0 <= i < |values| && TrimSpace(values[i]) == r;
      assert values[i] in values;
    }
  }

  /**
   The skills printed are the job's, each once, those the candidate has first and both groups in the
   order of the job; the profile's own skills stand there exactly when the job names none.
   */
  lemma PrintedInOrder(input: Input)
    ensures var (out, job) := (PrintedSkills(input), Distinct(input.jobSkills));
            if forall v | v in input.jobSkills :: AllSpace(Go, v) then out == input.profileSkills
            else
              && multiset(out) == multiset(job)
              && (forall i, j | 0 <= i < j < |out| && Has(input, out[j]) :: Has(input, out[i]))
              && (forall i, j | 0 <= i < j < |out| && (Has(input, out[i]) <==> Has(input, out[j])) ::
                    StandsBefore(job, out[i], out[j]))
  {
    var keys, job := MatchedKeys(input.matchedSkills), Distinct(input.jobSkills);
    SomethingKept(input.jobSkills);
    PriorityOrder(job, keys);
    var out := PrioritySkills(input);
    hide MatchedKeys, StableOrder.StableSort, Distinct;
    assert |multiset(out)| == |out| && |multiset(job)| == |job|;
    forall skill: string ensures ToLower(skill) in keys <==> Has(input, skill) { HasIsMatched(input, skill); }
    hide Has, StandsBefore;
  }

  // ---- The highlights -------------------------------------------------------------------------

  /** How many highlights are wanted: six unless a positive number was given. */
  function Wanted(input: Input): nat {
    if input.maxHighlights > 0 then input.maxHighlights else 6
  }

  /**
   Each highlight printed is a stored one, each once and best first, at most the wanted number; and
   no stored highlight that is left out scores above one that is printed.
   */
  lemma PrintedHighlights(input: Input)
    ensures var (out, all) := (Highlights(input), Stored(input.work, input.projects));
            && |out| <= Wanted(input) && (input.maxHighlights <= 0 ==> |out| <= 6)
            && DistinctKeys(out) && StableOrder.Descending(ScoreBy(PrioritySkills(input)), out)
            && (forall r | r in out :: FirstSpelling(all, r))
            && NoneBetterLeftOut(all, ScoreBy(PrioritySkills(input)), out, Wanted(input))
            && (forall r | r in out :: PrintsSome(input, "- " + r))
            && (out == [] ==> forall v | v in all :: AllSpace(Go, v))
            && (out == [] ==> PrintsSome(input,
                 "- Review the base resume and add role-specific truthful highlights before applying."))
  {
    var out, all := Highlights(input), Stored(input.work, input.projects);
    TrimmedPriorities(input);
    TopHighlights(input.work, input.projects, PrioritySkills(input), Wanted(input), out);
    HighlightsPrinted(input);
    hide Stored, PrioritySkills, Ranking, StableOrder.Descending, DistinctKeys, FirstSpelling;
    if out == [] {
      forall v | v in all ensures AllSpace(Go, v) {
        TrimIdentity(Go, v);
        assert TrimSpace(v) == "" || !HasKey(out, Normalize(v));
      }
    }
  }

  lemma HighlightsPrinted(input: Input)
    ensures forall r | r in Highlights(input) :: PrintsSome(input, "- " + r)
    ensures Highlights(input) == [] ==> PrintsSome(input,
        "- Review the base resume and add role-specific truthful highlights before applying.")
  {
    var out := Highlights(input);
    hide Highlights, Front;
    assert out == [] ==> NO_HIGHLIGHTS[0] in HighlightLines(out);
    forall r | r in out ensures "- " + r in Document(input) {
      var i :| 0 <= i < |out| && out[i] == r;
      assert Bullets(out)[i] == "- " + r;
      assert "- " + r in HighlightLines(out);
    }
  }

  lemma TrimmedPriorities(input: Input)
    ensures TrimmedSkills(PrioritySkills(input))
  {
    DistinctSpec(input.jobSkills);
    DistinctSurvivesSorting(MatchScore(MatchedKeys(input.matchedSkills)), Distinct(input.jobSkills));
    hide Distinct, StableOrder.StableSort;
  }
}
