/** Loads while other calls save: a load makes six queries, and saves may commit between any two of them. */
module ProfileHistory {
  import opened Wrappers
  import opened Text
  import opened ProfileTables
  import opened ProfileStore

  /** A full save, or a save of the profile's row alone, as matching makes for a missing default profile. */
  datatype Write = SaveAll(p: Profile) | SaveRow(p: Profile)

  function After(writes: seq<Write>): Db {
    if writes == [] then EMPTY
    else
      var before, w := After(writes[..|writes| - 1]), writes[|writes| - 1];
      if w.SaveAll? then Save(before, w.p).0 else RowSaved(before, w.p)
  }

  /** The write commits a row for the profile. */
  predicate Touches(db: Db, w: Write, id: nat) {
    IdFor(db, w.p) == id && (w.SaveAll? ==> IsValid(w.p))
  }

  /** The columns of `p` with the sections of the profile kept so far. */
  function WithColumns(kept: Option<Profile>, p: Profile, id: nat): Profile {
    var columns := p.(id := id, remotePreference := ReadBack(p.remotePreference));
    if kept.None? then columns.(work := [], projects := [], education := [], certifications := [], links := [])
    else columns.(work := kept.value.work, projects := kept.value.projects, education := kept.value.education,
                  certifications := kept.value.certifications, links := kept.value.links)
  }

  function ReadBack(preference: string): string {
    var column := NullIfEmpty(preference);
    if column.Some? then column.value else ""
  }

  /** The profile the writes leave under the id: its last full save, with the columns of any later row save. */
  function Kept(writes: seq<Write>, id: nat): Option<Profile> {
    if writes == [] then None
    else
      var before, w := writes[..|writes| - 1], writes[|writes| - 1];
      if !Touches(After(before), w, id) then Kept(before, id)
      else if w.SaveAll? then Some(w.p.(id := id))
      else Some(WithColumns(Kept(before, id), w.p, id))
  }

  lemma {:induction false} AlwaysIssued(writes: seq<Write>)
    ensures AllIssued(After(writes))
  {
    if writes == [] {
    } else {
      var before, w := writes[..|writes| - 1], writes[|writes| - 1];
      AlwaysIssued(before);
      SaveKeepsIds(After(before), w.p);
      hide IsValid;
    }
  }

  ghost predicate NoSections(s: Sections) {
    s.work == [] && s.projects == [] && s.education == [] && s.certifications == [] && s.links == []
  }

  lemma EmptyAnswers<T(!new)>(t: Table<T>, id: nat, answer: seq<Row<T>>)
    requires Answers(t, id, answer) && t.rows == []
    ensures answer == []
  {
    AnswerUnique(answer, []);
  }

  lemma NothingStored(id: nat, s: Sections)
    requires AnswersAll(EMPTY, id, s)
    ensures NoSections(s)
  {
    EmptyAnswers(EMPTY.work, id, s.work);
    EmptyAnswers(EMPTY.projects, id, s.projects);
    EmptyAnswers(EMPTY.education, id, s.education);
    EmptyAnswers(EMPTY.certifications, id, s.certifications);
    EmptyAnswers(EMPTY.links, id, s.links);
  }

  /** A load answered from one state gives the profile kept. */
  lemma {:induction false} LoadGivesTheKept(writes: seq<Write>, id: nat, s: Sections)
    requires AnswersAll(After(writes), id, s)
    ensures var kept := Kept(writes, id);
            && Loaded(After(writes), id, s) == (if kept.Some? then Ok(kept.value) else Err(NotFound))
            && (kept.None? ==> NoSections(s))
  {
    if writes == [] {
      NothingStored(id, s);
    } else {
      var before, w := writes[..|writes| - 1], writes[|writes| - 1];
      var db := After(before);
      hide Answers, IsValid;
      assert w.SaveRow? ==> AnswersAll(db, id, s);
      if !Touches(db, w, id) {
        if IdFor(db, w.p) != id && w.SaveAll? { SaveLeavesOthers(db, w.p, id, s); }
        LoadGivesTheKept(before, id, s);
      } else if w.SaveAll? {
        SaveThenLoad(db, w.p, s);
      } else {
        LoadGivesTheKept(before, id, s);
        assert NoSections(s) ==>
          && Items(s.work) == [] && Items(s.projects) == [] && Items(s.education) == [] && Items(s.certifications) == []
          && Items(s.links) == [];
      }
    }
  }

  // ---- Six queries at six moments -------------------------------------------------------------

  /** How many writes have committed when each query of a load runs. */
  datatype Moments = Moments(row: nat, work: nat, projects: nat, education: nat, certifications: nat, links: nat)

  predicate InOrder(at: Moments, end: nat) {
    at.row <= at.work <= at.projects <= at.education <= at.certifications <= at.links <= end
  }

  ghost predicate AnsweredAt(writes: seq<Write>, at: Moments, id: nat, s: Sections)
    requires InOrder(at, |writes|)
  {
    && Answers(After(writes[..at.work]).work, id, s.work)
    && Answers(After(writes[..at.projects]).projects, id, s.projects)
    && Answers(After(writes[..at.education]).education, id, s.education)
    && Answers(After(writes[..at.certifications]).certifications, id, s.certifications)
    && Answers(After(writes[..at.links]).links, id, s.links)
  }

  /** What a load at one moment would answer, and give. */
  lemma AtOneMoment(writes: seq<Write>, id: nat) returns (s: Sections)
    ensures AnswersAll(After(writes), id, s)
    ensures var kept := Kept(writes, id);
            && Loaded(After(writes), id, s) == (if kept.Some? then Ok(kept.value) else Err(NotFound))
  {
    AlwaysIssued(writes);
    var db := After(writes);
    hide After, Answers;
    var work := AnswerExists(db.work, id);
    var projects := AnswerExists(db.projects, id);
    var education := AnswerExists(db.education, id);
    var certifications := AnswerExists(db.certifications, id);
    var links := AnswerExists(db.links, id);
    s := Sections(work, projects, education, certifications, links);
    LoadGivesTheKept(writes, id, s);
  }

  lemma {:induction false} KeptStays(writes: seq<Write>, k: nat, id: nat)
    requires k <= |writes| && Kept(writes[..k], id).Some?
    ensures Kept(writes, id).Some?
  {
    if k == |writes| {
      assert writes[..k] == writes;
    } else {
      assert writes[..|writes| - 1][..k] == writes[..k];
      KeptStays(writes[..|writes| - 1], k, id);
    }
  }

  /** Each section of a load is the one the profile has when that section's query runs,
    and the columns are the first. */
  lemma LoadTakesEachPart(writes: seq<Write>, at: Moments, id: nat, s: Sections)
    requires InOrder(at, |writes|) && AnsweredAt(writes, at, id, s)
    ensures var (row, loaded) := (Kept(writes[..at.row], id), Loaded(After(writes[..at.row]), id, s));
            if row.None? then loaded == Err(NotFound)
            else
              var (a, b, c) := (Kept(writes[..at.work], id), Kept(writes[..at.projects], id),
                Kept(writes[..at.education], id));
              var (d, e) := (Kept(writes[..at.certifications], id), Kept(writes[..at.links], id));
              && a.Some? && b.Some? && c.Some? && d.Some? && e.Some?
              && loaded == Ok(row.value.(work := a.value.work, projects := b.value.projects,
                                         education := c.value.education, certifications := d.value.certifications,
                                         links := e.value.links))
  {
    var row := AtOneMoment(writes[..at.row], id);
    var work := AtOneMoment(writes[..at.work], id);
    var projects := AtOneMoment(writes[..at.projects], id);
    var education := AtOneMoment(writes[..at.education], id);
    var certifications := AtOneMoment(writes[..at.certifications], id);
    var links := AtOneMoment(writes[..at.links], id);
    AnswerUnique(s.work, work.work);
    AnswerUnique(s.projects, projects.projects);
    AnswerUnique(s.education, education.education);
    AnswerUnique(s.certifications, certifications.certifications);
    AnswerUnique(s.links, links.links);
    hide After, Kept, Answers, Items;
    if Kept(writes[..at.row], id).Some? {
      LaterKept(writes, at.row, at.work, id);
      LaterKept(writes, at.row, at.projects, id);
      LaterKept(writes, at.row, at.education, id);
      LaterKept(writes, at.row, at.certifications, id);
      LaterKept(writes, at.row, at.links, id);
    }
  }

  lemma LaterKept(writes: seq<Write>, k: nat, j: nat, id: nat)
    requires k <= j <= |writes| && Kept(writes[..k], id).Some?
    ensures Kept(writes[..j], id).Some?
  {
    assert writes[..j][..k] == writes[..k];
    KeptStays(writes[..j], k, id);
  }

  /** No write for the profile commits while the load runs. */
  ghost predicate Undisturbed(writes: seq<Write>, at: Moments, id: nat)
    requires InOrder(at, |writes|)
  {
    forall i | at.row <= i < at.links :: !Touches(After(writes[..i]), writes[i], id)
  }

  lemma {:induction false} KeptUntouched(writes: seq<Write>, k: nat, j: nat, id: nat)
    requires k <= j <= |writes| && forall i | k <= i < j :: !Touches(After(writes[..i]), writes[i], id)
    ensures Kept(writes[..j], id) == Kept(writes[..k], id)
    decreases j - k
  {
    if k < j {
      assert writes[..j][..j - 1] == writes[..j - 1];
      KeptUntouched(writes, k, j - 1, id);
    }
  }

  /** Then the load gives the profile as it was kept all along, whatever is saved for others. */
  lemma UndisturbedLoad(writes: seq<Write>, at: Moments, id: nat, s: Sections)
    requires InOrder(at, |writes|) && AnsweredAt(writes, at, id, s) && Undisturbed(writes, at, id)
    ensures var kept := Kept(writes[..at.row], id);
            Loaded(After(writes[..at.row]), id, s) == if kept.Some? then Ok(kept.value) else Err(NotFound)
  {
    hide After, Kept, AnsweredAt;
    KeptUntouched(writes, at.row, at.work, id);
    KeptUntouched(writes, at.row, at.projects, id);
    KeptUntouched(writes, at.row, at.education, id);
    KeptUntouched(writes, at.row, at.certifications, id);
    KeptUntouched(writes, at.row, at.links, id);
    LoadTakesEachPart(writes, at, id, s);
  }

  /** The load gives a profile that was never kept. */
  ghost predicate Torn(writes: seq<Write>, at: Moments, id: nat, s: Sections) {
    && InOrder(at, |writes|) && AnsweredAt(writes, at, id, s)
    && Loaded(After(writes[..at.row]), id, s).Ok?
    && forall n | 0 <= n <= |writes| :: Kept(writes[..n], id) != Some(Loaded(After(writes[..at.row]), id, s).value)
  }

  const NAMED := Profile(1, "A", "", ["x"], [], [], "", None, [], [], [], [], [])
  const RENAMED := NAMED.(name := "B", links := [Link("x", "y")])

  lemma BothValid()
    ensures IsValid(NAMED) && IsValid(RENAMED)
  {
    TrimPadded(Go, "", "A", "");
    TrimPadded(Go, "", "B", "");
    TrimPadded(Go, "", "x", "");
    TrimPadded(Go, "", "y", "");
    assert "" + "A" + "" == "A" && "" + "B" + "" == "B" && "" + "x" + "" == "x" && "" + "y" + "" == "y";
  }

  const SAVES := [SaveAll(NAMED), SaveAll(RENAMED)]
  const BETWEEN := Moments(1, 2, 2, 2, 2, 2)

  lemma TwoSaves()
    ensures Kept(SAVES[..0], 1).None? && Kept(SAVES[..1], 1) == Some(NAMED) && Kept(SAVES[..2], 1) == Some(RENAMED)
  {
    BothValid();
    hide IsValid, Save, RowSaved;
    assert SAVES[..2] == SAVES && SAVES[..1] == [SaveAll(NAMED)] && [SaveAll(NAMED)][..0] == [];
  }

  lemma LoadBetween() returns (s: Sections)
    ensures AnsweredAt(SAVES, BETWEEN, 1, s)
    ensures Loaded(After(SAVES[..1]), 1, s) == Ok(NAMED.(links := RENAMED.links))
  {
    TwoSaves();
    hide After, Kept, Answers, Loaded;
    s := AtOneMoment(SAVES[..2], 1);
    LoadTakesEachPart(SAVES, BETWEEN, 1, s);
  }

  /** A save between the first query and the last gives the old name with the new links. */
  lemma LoadMayBeTorn()
    ensures exists writes, at, id, s :: Torn(writes, at, id, s)
  {
    TwoSaves();
    var s := LoadBetween();
    hide After, Kept, AnsweredAt, Loaded;
    assert Torn(SAVES, BETWEEN, 1, s);
  }
}
