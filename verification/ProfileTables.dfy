/**
 The profile store: one row per profile and five section tables whose rows are deleted and inserted
 again on every save. A JSON column is taken to give back the list that was written to it.
 */
module ProfileTables {
  import opened Wrappers
  import opened Text

  datatype WorkHistory = WorkHistory(
    company: string, title: string, location: string, startDate: string, endDate: string, current: bool,
    summary: string, highlights: seq<string>, technologies: seq<string>)
  datatype Project = Project(
    name: string, role: string, url: string, summary: string, highlights: seq<string>, technologies: seq<string>)
  datatype Education = Education(
    institution: string, degree: string, field: string, startDate: string, endDate: string, summary: string)
  datatype Certification = Certification(name: string, issuer: string, issuedAt: string, expiresAt: string, url: string)
  datatype Link = Link(caption: string, url: string)

  datatype Profile = Profile(
    id: int, name: string, headline: string, skills: seq<string>, titles: seq<string>, locations: seq<string>,
    remotePreference: string, minSalary: Option<int>,
    work: seq<WorkHistory>, projects: seq<Project>, education: seq<Education>,
    certifications: seq<Certification>, links: seq<Link>)

  predicate Blank(s: string) {
    TrimSpace(s) == ""
  }

  predicate IsValid(p: Profile) {
    && !Blank(p.name) && p.skills != []
    && (p.minSalary.Some? ==> p.minSalary.value >= 0)
    && p.remotePreference in {"", "remote", "hybrid", "onsite"}
    && (forall w | w in p.work :: !Blank(w.company) && !Blank(w.title))
    && (forall x | x in p.projects :: !Blank(x.name))
    && (forall e | e in p.education :: !Blank(e.institution))
    && (forall c | c in p.certifications :: !Blank(c.name))
    && (forall l | l in p.links :: !Blank(l.caption) && !Blank(l.url))
  }

  // ---- A section table ------------------------------------------------------------------------

  datatype Row<+T> = Row(id: nat, profile: nat, order: nat, item: T)
  datatype Table<+T> = Table(rows: seq<Row<T>>, next: nat)

  ghost predicate DistinctIds<T>(rows: seq<Row<T>>) {
    forall i, j | 0 <= i < j < |rows| :: rows[i].id != rows[j].id
  }

  ghost predicate IdsIssued<T>(t: Table<T>) {
    (forall i | 0 <= i < |t.rows| :: t.rows[i].id < t.next) && DistinctIds(t.rows)
  }

  function Without<T(!new)>(rows: seq<Row<T>>, profile: nat): (kept: seq<Row<T>>)
    ensures forall r: Row<T> :: r in kept <==> r in rows && r.profile != profile
  {
    if rows == [] then []
    else if rows[0].profile == profile then Without(rows[1..], profile)
    else [rows[0]] + Without(rows[1..], profile)
  }

  function NewRows<T>(profile: nat, items: seq<T>, next: nat): (rows: seq<Row<T>>)
    ensures |rows| == |items|
  {
    seq(|items|, i requires 0 <= i < |items| => Row(next + i, profile, i, items[i]))
  }

  function Replaced<T(!new)>(t: Table<T>, profile: nat, items: seq<T>): Table<T> {
    Table(Without(t.rows, profile) + NewRows(profile, items, t.next), t.next + |items|)
  }

  predicate Before<T>(a: Row<T>, b: Row<T>) {
    a.order < b.order || (a.order == b.order && a.id < b.id)
  }

  ghost predicate Ascending<T>(rows: seq<Row<T>>) {
    forall i, j | 0 <= i < j < |rows| :: Before(rows[i], rows[j])
  }

  /** The answer of a section query: the profile's rows, by sort order and then by id. */
  ghost predicate Answers<T(!new)>(t: Table<T>, profile: nat, answer: seq<Row<T>>) {
    Ascending(answer) && forall r: Row<T> :: r in answer <==> r in t.rows && r.profile == profile
  }

  function Items<T>(rows: seq<Row<T>>): seq<T> {
    seq(|rows|, i requires 0 <= i < |rows| => rows[i].item)
  }

  /** The order leaves a query only one answer. */
  lemma {:induction false} AnswerUnique<T(!new)>(a: seq<Row<T>>, b: seq<Row<T>>)
    requires Ascending(a) && Ascending(b) && forall r: Row<T> :: r in a <==> r in b
    ensures a == b
  {
    assert forall i | 0 <= i < |a| :: a[i] in b;
    assert forall i | 0 <= i < |b| :: b[i] in a;
    if a == [] {
    } else {
      assert a[0] == b[0];
      var x, y := a[1..], b[1..];
      assert a == [a[0]] + x && b == [b[0]] + y;
      forall r: Row<T> ensures r in x <==> r in y {
        if r in x { assert r in a && r != a[0]; }
        if r in y { assert r in b && r != b[0]; }
      }
      AnswerUnique(x, y);
    }
  }

  function Placed<T>(r: Row<T>, rows: seq<Row<T>>): seq<Row<T>> {
    if rows == [] || Before(r, rows[0]) then [r] + rows else [rows[0]] + Placed(r, rows[1..])
  }

  lemma {:induction false} PlacedAscending<T(!new)>(r: Row<T>, rows: seq<Row<T>>)
    requires Ascending(rows) && forall i | 0 <= i < |rows| :: rows[i].id != r.id
    ensures Ascending(Placed(r, rows)) && forall x: Row<T> :: x in Placed(r, rows) <==> x == r || x in rows
  {
    if rows != [] && !Before(r, rows[0]) {
      var rest := rows[1..];
      assert rows == [rows[0]] + rest;
      PlacedAscending(r, rest);
      var placed := Placed(r, rest);
      forall i | 0 <= i < |placed| ensures Before(rows[0], placed[i]) {
        assert placed[i] in placed;
      }
    }
  }

  /** Every section query has an answer. */
  lemma {:induction false} AnswerExists<T(!new)>(t: Table<T>, profile: nat) returns (answer: seq<Row<T>>)
    requires IdsIssued(t)
    ensures Answers(t, profile, answer)
    decreases |t.rows|
  {
    if t.rows == [] {
      answer := [];
    } else {
      var r, rest := t.rows[0], t.rows[1..];
      assert t.rows == [r] + rest;
      answer := AnswerExists(Table(rest, t.next), profile);
      if r.profile == profile {
        forall i | 0 <= i < |answer| ensures answer[i].id != r.id {
          assert answer[i] in rest;
        }
        PlacedAscending(r, answer);
        answer := Placed(r, answer);
      }
    }
  }

  lemma ReplacedAnswers<T(!new)>(t: Table<T>, profile: nat, items: seq<T>, answer: seq<Row<T>>)
    requires Answers(Replaced(t, profile, items), profile, answer)
    ensures Items(answer) == items
  {
    var rows := NewRows(profile, items, t.next);
    assert Ascending(rows);
    forall r: Row<T> ensures r in rows <==> r in answer {
    }
    AnswerUnique(answer, rows);
  }

  lemma ReplacedFrames<T(!new)>(t: Table<T>, profile: nat, items: seq<T>, other: nat, answer: seq<Row<T>>)
    requires other != profile
    ensures Answers(Replaced(t, profile, items), other, answer) <==> Answers(t, other, answer)
  {
    var after := Replaced(t, profile, items);
    assert forall r: Row<T> | r in NewRows(profile, items, t.next) :: r.profile == profile;
    assert forall r: Row<T> | r.profile == other :: r in after.rows <==> r in t.rows;
  }

  lemma {:induction false} WithoutDistinct<T(!new)>(rows: seq<Row<T>>, profile: nat)
    requires DistinctIds(rows)
    ensures DistinctIds(Without(rows, profile))
  {
    if rows == [] {
    } else {
      var rest := rows[1..];
      assert rows == [rows[0]] + rest;
      WithoutDistinct(rest, profile);
      var kept := Without(rest, profile);
      forall i | 0 <= i < |kept| ensures kept[i].id != rows[0].id {
        assert kept[i] in rest;
      }
    }
  }

  lemma ReplacedIssued<T(!new)>(t: Table<T>, profile: nat, items: seq<T>)
    requires IdsIssued(t)
    ensures IdsIssued(Replaced(t, profile, items))
  {
    WithoutDistinct(t.rows, profile);
    var kept, added := Without(t.rows, profile), NewRows(profile, items, t.next);
    forall i | 0 <= i < |kept| ensures kept[i].id < t.next {
      assert kept[i] in t.rows;
    }
    var rows := kept + added;
    forall i | 0 <= i < |rows| ensures rows[i].id < t.next + |items| && (i >= |kept| ==> rows[i].id >= t.next) {
    }
    hide Without;
    assert DistinctIds(rows);
  }
}
