/** Saving a whole profile, loading it back, and what a save leaves alone. */
module ProfileStore {
  import opened Wrappers
  import opened Text
  import opened ProfileTables

  datatype ProfileRow = ProfileRow(
    name: string, headline: string, skills: seq<string>, titles: seq<string>, locations: seq<string>,
    remotePreference: Option<string>, minSalary: Option<int>)

  datatype Db = Db(
    profiles: map<nat, ProfileRow>, next: nat,
    work: Table<WorkHistory>, projects: Table<Project>, education: Table<Education>,
    certifications: Table<Certification>, links: Table<Link>)

  const EMPTY := Db(map[], 1, Table([], 1), Table([], 1), Table([], 1), Table([], 1), Table([], 1))

  datatype Failure = Invalid | NotFound

  function RowFor(p: Profile): ProfileRow {
    ProfileRow(p.name, p.headline, p.skills, p.titles, p.locations, NullIfEmpty(p.remotePreference), p.minSalary)
  }

  function IdFor(db: Db, p: Profile): nat {
    if p.id > 0 then p.id else db.next
  }

  function Save(db: Db, p: Profile): (Db, Result<nat, Failure>) {
    if !IsValid(p) then (db, Err(Invalid))
    else
      var id := IdFor(db, p);
      (Db(db.profiles[id := RowFor(p)], if db.next <= id then id + 1 else db.next,
          Replaced(db.work, id, p.work), Replaced(db.projects, id, p.projects), Replaced(db.education, id, p.education),
          Replaced(db.certifications, id, p.certifications), Replaced(db.links, id, p.links)), Ok(id))
  }

  /** A save of the profile's row alone: its sections are not read, and nothing is checked. */
  function RowSaved(db: Db, p: Profile): Db {
    var id := IdFor(db, p);
    db.(profiles := db.profiles[id := RowFor(p)], next := if db.next <= id then id + 1 else db.next)
  }

  /** The answers of the five section queries of one load. */
  datatype Sections = Sections(
    work: seq<Row<WorkHistory>>, projects: seq<Row<Project>>, education: seq<Row<Education>>,
    certifications: seq<Row<Certification>>, links: seq<Row<Link>>)

  ghost predicate AnswersAll(db: Db, id: nat, s: Sections) {
    && Answers(db.work, id, s.work) && Answers(db.projects, id, s.projects) && Answers(db.education, id, s.education)
    && Answers(db.certifications, id, s.certifications) && Answers(db.links, id, s.links)
  }

  function Loaded(db: Db, id: nat, s: Sections): Result<Profile, Failure> {
    if id !in db.profiles then Err(NotFound)
    else
      var row := db.profiles[id];
      Ok(Profile(id, row.name, row.headline, row.skills, row.titles, row.locations,
                 if row.remotePreference.Some? then row.remotePreference.value else "", row.minSalary,
                 Items(s.work), Items(s.projects), Items(s.education), Items(s.certifications), Items(s.links)))
  }

  // ---- The store, changed in place ------------------------------------------------------------

  /** Clears a profile's rows and inserts the items again, numbering them from 0. */
  method ReplaceSection<T(!new)>(t: Table<T>, profile: nat, items: seq<T>) returns (after: Table<T>)
    ensures after == Replaced(t, profile, items)
  {
    after := Table(Without(t.rows, profile), t.next);
    for i := 0 to |items|
      invariant after == Table(Without(t.rows, profile) + NewRows(profile, items, t.next)[..i], t.next + i)
    {
      after := Table(after.rows + [Row(after.next, profile, i, items[i])], after.next + 1);
    }
  }

  /** Appends the items of a query's rows one by one. */
  method LoadSection<T>(rows: seq<Row<T>>) returns (items: seq<T>)
    ensures items == Items(rows)
  {
    items := [];
    for i := 0 to |rows|
      invariant items == Items(rows)[..i]
    {
      items := items + [rows[i].item];
    }
  }

  class Store {
    var db: Db

    constructor ()
      ensures db == EMPTY
    {
      db := EMPTY;
    }

    method UpsertFullCandidateProfile(p: Profile) returns (result: Result<nat, Failure>)
      modifies this
      ensures (db, result) == Save(old(db), p)
    {
      if !IsValid(p) {
        return Err(Invalid);
      }
      var id: nat := if p.id > 0 then p.id else db.next;
      var profiles, next := db.profiles[id := RowFor(p)], if db.next <= id then id + 1 else db.next;
      var work := ReplaceSection(db.work, id, p.work);
      var projects := ReplaceSection(db.projects, id, p.projects);
      var education := ReplaceSection(db.education, id, p.education);
      var certifications := ReplaceSection(db.certifications, id, p.certifications);
      var links := ReplaceSection(db.links, id, p.links);
      db := Db(profiles, next, work, projects, education, certifications, links);
      result := Ok(id);
    }

    method UpsertCandidateProfile(p: Profile) returns (id: nat)
      modifies this
      ensures id == IdFor(old(db), p) && db == RowSaved(old(db), p)
    {
      id := if p.id > 0 then p.id else db.next;
      db := db.(profiles := db.profiles[id := RowFor(p)], next := if db.next <= id then id + 1 else db.next);
    }

    method LoadFullCandidateProfile(id: nat, answers: Sections) returns (result: Result<Profile, Failure>)
      requires AnswersAll(db, id, answers)
      ensures result == Loaded(db, id, answers)
    {
      if id !in db.profiles {
        return Err(NotFound);
      }
      var row := db.profiles[id];
      var remote := if row.remotePreference.Some? then row.remotePreference.value else "";
      var work := LoadSection(answers.work);
      var projects := LoadSection(answers.projects);
      var education := LoadSection(answers.education);
      var certifications := LoadSection(answers.certifications);
      var links := LoadSection(answers.links);
      result := Ok(Profile(id, row.name, row.headline, row.skills, row.titles, row.locations, remote, row.minSalary,
                           work, projects, education, certifications, links));
    }
  }

  // ---- Which profiles are refused -------------------------------------------------------------

  /** Nothing but white space where a text is required, in the profile's own columns or in one of its items. */
  ghost predicate LacksText(p: Profile) {
    || AllSpace(Go, p.name)
    || (exists w | w in p.work :: AllSpace(Go, w.company) || AllSpace(Go, w.title))
    || (exists x | x in p.projects :: AllSpace(Go, x.name))
    || (exists e | e in p.education :: AllSpace(Go, e.institution))
    || (exists c | c in p.certifications :: AllSpace(Go, c.name))
    || (exists l | l in p.links :: AllSpace(Go, l.caption) || AllSpace(Go, l.url))
  }

  lemma BlankIsAllSpace()
    ensures forall s: string :: Blank(s) <==> AllSpace(Go, s)
  {
    forall s: string ensures Blank(s) <==> AllSpace(Go, s) { TrimIdentity(Go, s); }
  }

  /**
   A full save is refused exactly for a missing text, no skill, a negative salary, or a preference other
   than remote, hybrid and onsite; a refused save changes nothing.
   */
  lemma RefusedIff(db: Db, p: Profile)
    ensures Save(db, p).1.Err? <==>
            || LacksText(p) || p.skills == [] || (p.minSalary.Some? && p.minSalary.value < 0)
            || (p.remotePreference != "" && p.remotePreference != "remote" && p.remotePreference != "hybrid"
                && p.remotePreference != "onsite")
    ensures Save(db, p).1.Err? ==> Save(db, p).0 == db
  {
    BlankIsAllSpace();
    hide Blank, AllSpace, Replaced;
  }

  // ---- What saving and loading promise --------------------------------------------------------

  ghost predicate AllIssued(db: Db) {
    && (forall id | id in db.profiles :: id < db.next)
    && IdsIssued(db.work) && IdsIssued(db.projects) && IdsIssued(db.education) && IdsIssued(db.certifications)
    && IdsIssued(db.links)
  }

  lemma SaveKeepsIds(db: Db, p: Profile)
    requires AllIssued(db)
    ensures AllIssued(Save(db, p).0)
  {
    var id := IdFor(db, p);
    ReplacedIssued(db.work, id, p.work);
    ReplacedIssued(db.projects, id, p.projects);
    ReplacedIssued(db.education, id, p.education);
    ReplacedIssued(db.certifications, id, p.certifications);
    ReplacedIssued(db.links, id, p.links);
  }

  /** The supported preferences and the empty one come back from their nullable column. */
  lemma PreferenceComesBack(preference: string)
    requires preference in {"", "remote", "hybrid", "onsite"}
    ensures NullIfEmpty(preference) == if preference == "" then None else Some(preference)
  {
    TrimIdentity(Go, preference);
  }

  /**
   A valid profile loads back as it was saved, with its id, every section in its original order; an
   invalid one is refused and changes nothing.
   */
  lemma SaveThenLoad(db: Db, p: Profile, answers: Sections)
    requires IsValid(p) ==> AnswersAll(Save(db, p).0, IdFor(db, p), answers)
    ensures if IsValid(p)
            then Save(db, p).1 == Ok(IdFor(db, p))
              && Loaded(Save(db, p).0, IdFor(db, p), answers) == Ok(p.(id := IdFor(db, p)))
            else Save(db, p) == (db, Err(Invalid))
  {
    if IsValid(p) {
      var id := IdFor(db, p);
      hide Answers, Replaced, IsValid, Items;
      PreferenceComesBack(p.remotePreference) by { assert p.remotePreference in {"", "remote", "hybrid", "onsite"}; }
      ReplacedAnswers(db.work, id, p.work, answers.work);
      ReplacedAnswers(db.projects, id, p.projects, answers.projects);
      ReplacedAnswers(db.education, id, p.education, answers.education);
      ReplacedAnswers(db.certifications, id, p.certifications, answers.certifications);
      ReplacedAnswers(db.links, id, p.links, answers.links);
    }
  }

  /** Saving one profile changes nothing that loading another one reads. */
  lemma SaveLeavesOthers(db: Db, p: Profile, other: nat, answers: Sections)
    requires other != IdFor(db, p)
    ensures AnswersAll(Save(db, p).0, other, answers) <==> AnswersAll(db, other, answers)
    ensures Loaded(Save(db, p).0, other, answers) == Loaded(db, other, answers)
  {
    var id := IdFor(db, p);
    hide Answers, Replaced, IsValid, Items;
    ReplacedFrames(db.work, id, p.work, other, answers.work);
    ReplacedFrames(db.projects, id, p.projects, other, answers.projects);
    ReplacedFrames(db.education, id, p.education, other, answers.education);
    ReplacedFrames(db.certifications, id, p.certifications, other, answers.certifications);
    ReplacedFrames(db.links, id, p.links, other, answers.links);
  }

  /** A profile without an id never lands on another one. */
  lemma NewProfileIsNew(db: Db, p: Profile)
    requires AllIssued(db) && p.id <= 0
    ensures IdFor(db, p) !in db.profiles
  {
  }

  /** A profile with an id is saved under it, and one without under the next id. */
  lemma SavedUnder(db: Db, p: Profile)
    requires Save(db, p).1.Ok?
    ensures Save(db, p).1.value == if p.id > 0 then p.id else db.next
    ensures Save(db, p).0.profiles.Keys == db.profiles.Keys + {Save(db, p).1.value}
    ensures Save(db, p).0.next > Save(db, p).1.value && Save(db, p).0.next >= db.next
  {
  }

  lemma LoadIsDetermined(db: Db, id: nat, a: Sections, b: Sections)
    requires AnswersAll(db, id, a) && AnswersAll(db, id, b)
    ensures a == b
  {
    AnswerUnique(a.work, b.work);
    AnswerUnique(a.projects, b.projects);
    AnswerUnique(a.education, b.education);
    AnswerUnique(a.certifications, b.certifications);
    AnswerUnique(a.links, b.links);
  }
}
