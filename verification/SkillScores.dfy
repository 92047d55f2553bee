/** What a score counts: the job's skills named in a text, and in any part of a stored item. */
module SkillScores {
  import opened Text
  import opened Tuner
  import ProfileTables

  // ---- The score of a text --------------------------------------------------------------------

  /** The text names the skill, ignoring case. */
  ghost predicate Names(text: string, skill: string) {
    exists i: nat :: StandsAt(ToLower(text), ToLower(skill), i)
  }

  /** The places of the skills that the text names. */
  ghost function Named(text: string, skills: seq<string>): set<nat> {
    set i: nat | i < |skills| && Names(text, skills[i])
  }

  lemma {:induction false} ScoreOneMore(text: string, skills: seq<string>, last: string)
    ensures SkillScore(text, skills + [last])
         == SkillScore(text, skills) + if Contains(ToLower(text), ToLower(last)) then 1 else 0
  {
    if skills == [] {
      assert [last][1..] == [] && [] + [last] == [last];
    } else {
      assert (skills + [last])[1..] == skills[1..] + [last];
      hide ToLower, Contains;
      ScoreOneMore(text, skills[1..], last);
    }
  }

  /** A text scores one point for each of the skills it names. */
  lemma {:induction false} ScoreCountsNamed(text: string, skills: seq<string>)
    ensures SkillScore(text, skills) == |Named(text, skills)|
    decreases |skills|
  {
    if skills == [] {
      assert Named(text, skills) == {};
    } else {
      var n := |skills| - 1;
      var before := skills[..n];
      assert skills == before + [skills[n]];
      ScoreOneMore(text, before, skills[n]);
      ContainsStands(ToLower(text), ToLower(skills[n]));
      ScoreCountsNamed(text, before);
      hide Names, SkillScore;
      assert Named(text, skills) == Named(text, before) + if Names(text, skills[n]) then {n} else {} by {
        assert forall i: nat | i < n :: skills[i] == before[i];
      }
    }
  }

  // ---- The highlights -------------------------------------------------------------------------

  /** The stored highlights are all those of the work history, item by item, and then all those of the projects. */
  lemma StoredItemByItem(
    work: seq<ProfileTables.WorkHistory>, projects: seq<ProfileTables.Project>, w: ProfileTables.WorkHistory,
    p: ProfileTables.Project)
    ensures Stored([], []) == []
    ensures Stored([], projects + [p]) == Stored([], projects) + p.highlights
    ensures Stored(work + [w], []) == Stored(work, []) + w.highlights
    ensures Stored(work, projects) == Stored(work, []) + Stored([], projects)
  {
    WorkOneMore(work, w);
    ProjectsOneMore(projects, p);
  }

  lemma {:induction false} WorkOneMore(work: seq<ProfileTables.WorkHistory>, w: ProfileTables.WorkHistory)
    ensures WorkHighlights(work + [w]) == WorkHighlights(work) + w.highlights
  {
    if work == [] {
      assert work + [w] == [w] && [w][1..] == [];
    } else {
      WorkOneMore(work[1..], w);
      assert (work + [w])[1..] == work[1..] + [w];
    }
  }

  lemma {:induction false} ProjectsOneMore(projects: seq<ProfileTables.Project>, p: ProfileTables.Project)
    ensures ProjectHighlights(projects + [p]) == ProjectHighlights(projects) + p.highlights
  {
    if projects == [] {
      assert projects + [p] == [p] && [p][1..] == [];
    } else {
      ProjectsOneMore(projects[1..], p);
      assert (projects + [p])[1..] == projects[1..] + [p];
    }
  }

  // ---- The score of a stored item -------------------------------------------------------------

  ghost predicate NamedInSome(parts: seq<string>, skill: string) {
    exists i | 0 <= i < |parts| :: Names(parts[i], skill)
  }

  lemma InFirst(a: string, b: string, t: string, i: nat)
    requires i + |t| <= |a|
    ensures StandsAt(a + b, t, i) <==> StandsAt(a, t, i)
  {
    assert (a + b)[i..i + |t|] == a[i..i + |t|];
  }

  lemma InSecond(a: string, b: string, t: string, i: nat)
    ensures StandsAt(a + b, t, |a| + i) <==> StandsAt(b, t, i)
  {
    if i + |t| <= |b| { assert (a + b)[|a| + i..|a| + i + |t|] == b[i..i + |t|]; }
  }

  lemma NotAcross(s: string, p: nat, t: string, i: nat)
    requires p < |s| && s[p] == ' ' && ' ' !in t && StandsAt(s, t, i)
    ensures i + |t| <= p || p < i
  {
    assert forall k | i <= k < i + |t| :: s[k] == t[k - i] && t[k - i] in t;
  }

  /** A word stands in two texts joined by a space exactly when it stands in one of them. */
  lemma StandsInJoin(a: string, b: string, t: string)
    requires t != "" && ' ' !in t
    ensures (exists i: nat :: StandsAt(a + " " + b, t, i))
        <==> (exists i: nat :: StandsAt(a, t, i)) || (exists i: nat :: StandsAt(b, t, i))
  {
    var s := a + " " + b;
    assert s == a + (" " + b) && s[|a|] == ' ' && |a + " "| == |a| + 1;
    if i: nat :| StandsAt(s, t, i) {
      NotAcross(s, |a|, t, i);
      if i + |t| <= |a| {
        InFirst(a, " " + b, t, i);
      } else {
        InSecond(a + " ", b, t, i - |a| - 1);
      }
    }
    if i: nat :| StandsAt(a, t, i) {
      InFirst(a, " " + b, t, i);
      assert StandsAt(s, t, i);
    }
    if i: nat :| StandsAt(b, t, i) {
      InSecond(a + " ", b, t, i);
      assert StandsAt(s, t, |a| + 1 + i);
    }
  }

  lemma NothingNamed(skill: string)
    requires skill != ""
    ensures !Names("", skill)
  {
  }

  lemma JoinNames(a: string, b: string, skill: string)
    requires skill != "" && ' ' !in ToLower(skill)
    ensures Names(a + " " + b, skill) <==> Names(a, skill) || Names(b, skill)
  {
    LowerConcat(Go, a + " ", b);
    LowerConcat(Go, a, " ");
    FoldProperties(Go, ' ');
    assert Lower(Go, " ") == " ";
    var t := ToLower(skill);
    hide Lower, StandsAt;
    StandsInJoin(ToLower(a), ToLower(b), t);
    assert ToLower(a + " " + b) == ToLower(a) + " " + ToLower(b);
  }

  lemma {:induction false} SpacedNames(parts: seq<string>, skill: string)
    requires skill != "" && ' ' !in ToLower(skill)
    ensures Names(Spaced(parts), skill) <==> NamedInSome(parts, skill)
  {
    if parts == [] {
      NothingNamed(skill);
    } else if |parts| == 1 {
      assert NamedInSome(parts, skill) <==> Names(parts[0], skill);
    } else {
      var first, rest := parts[0], parts[1..];
      SpacedNames(rest, skill);
      JoinNames(first, Spaced(rest), skill);
      assert Spaced(parts) == first + " " + Spaced(rest);
      hide Names, Spaced;
      assert parts == [first] + rest;
      assert NamedInSome(parts, skill) <==> Names(first, skill) || NamedInSome(rest, skill) by {
        if i :| 0 <= i < |rest| && Names(rest[i], skill) { assert parts[i + 1] == rest[i]; }
        if i :| 0 <= i < |parts| && Names(parts[i], skill) && i > 0 { assert parts[i] == rest[i - 1]; }
        if Names(first, skill) { assert parts[0] == first; }
      }
    }
  }

  lemma NamedInEither(a: seq<string>, b: seq<string>, skill: string)
    ensures NamedInSome(a + b, skill) <==> NamedInSome(a, skill) || NamedInSome(b, skill)
  {
    hide Names;
    if i :| 0 <= i < |a| && Names(a[i], skill) { assert (a + b)[i] == a[i]; }
    if i :| 0 <= i < |b| && Names(b[i], skill) { assert (a + b)[|a| + i] == b[i]; }
    if i :| 0 <= i < |a + b| && Names((a + b)[i], skill) {
      assert (a + b)[i] == if i < |a| then a[i] else b[i - |a|];
    }
  }

  /** A skill of one word counts for work history exactly when one of its texts names it,
    highlights and technologies included. */
  lemma WorkNames(item: ProfileTables.WorkHistory, skill: string)
    requires skill != "" && ' ' !in ToLower(skill)
    ensures Names(WorkText(item), skill) <==>
            || Names(item.company, skill) || Names(item.title, skill) || Names(item.location, skill)
            || Names(item.summary, skill)
            || NamedInSome(item.highlights, skill) || NamedInSome(item.technologies, skill)
  {
    var head := [item.company, item.title, item.location, item.summary];
    SpacedNames(head + item.highlights + item.technologies, skill);
    NamedInEither(head + item.highlights, item.technologies, skill);
    NamedInEither(head, item.highlights, skill);
    FourNamed(item.company, item.title, item.location, item.summary, skill);
    hide Names, NamedInSome, Spaced;
  }

  lemma FourNamed(a: string, b: string, c: string, d: string, skill: string)
    ensures NamedInSome([a, b, c, d], skill) <==>
            Names(a, skill) || Names(b, skill) || Names(c, skill) || Names(d, skill)
  {
    hide Names;
    var s := [a, b, c, d];
    assert s[0] == a && s[1] == b && s[2] == c && s[3] == d;
  }

  lemma ProjectNames(item: ProfileTables.Project, skill: string)
    requires skill != "" && ' ' !in ToLower(skill)
    ensures Names(ProjectText(item), skill) <==>
            || Names(item.name, skill) || Names(item.role, skill) || Names(item.url, skill) || Names(item.summary,
              skill)
            || NamedInSome(item.highlights, skill) || NamedInSome(item.technologies, skill)
  {
    var head := [item.name, item.role, item.url, item.summary];
    SpacedNames(head + item.highlights + item.technologies, skill);
    NamedInEither(head + item.highlights, item.technologies, skill);
    NamedInEither(head, item.highlights, skill);
    FourNamed(item.name, item.role, item.url, item.summary, skill);
    hide Names, NamedInSome, Spaced;
  }

  lemma CertificationNames(item: ProfileTables.Certification, skill: string)
    requires skill != "" && ' ' !in ToLower(skill)
    ensures Names(CertificationText(item), skill)
        <==> Names(item.name, skill) || Names(item.issuer, skill) || Names(item.url, skill)
  {
    var parts := [item.name, item.issuer, item.url];
    SpacedNames(parts, skill);
    hide Names, Spaced;
    assert parts[0] == item.name && parts[1] == item.issuer && parts[2] == item.url;
  }
}
