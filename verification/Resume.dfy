/**
 The Markdown résumé the tuner prints and the bullet parser of the review screen that reads it back.
 */
module Resume {
  import opened Text
  import opened Tuner
  import StableOrder
  import ProfileTables

  datatype Input = Input(
    name: string, headline: string, links: seq<ProfileTables.Link>, profileSkills: seq<string>,
    work: seq<ProfileTables.WorkHistory>, projects: seq<ProfileTables.Project>,
    jobTitle: string, company: string, location: string, matchScore: int,
    jobSkills: seq<string>, matchedSkills: seq<string>, maxHighlights: int)

  // ---- The printed document -------------------------------------------------------------------

  function Join(lines: seq<string>): string {
    if lines == [] then "" else lines[0] + "\n" + Join(lines[1..])
  }

  function Digits(n: nat): string {
    var digit := [('0' as int + n % 10) as char];
    if n < 10 then digit else Digits(n / 10) + digit
  }

  function Decimal(n: int): string {
    if n < 0 then "-" + Digits(-n) else Digits(n)
  }

  function LinkText(links: seq<ProfileTables.Link>): string {
    if links == [] then ""
    else
      var one := "[" + links[0].caption + "](" + links[0].url + ")";
      if |links| == 1 then one else one + " | " + LinkText(links[1..])
  }

  function Bullets(items: seq<string>): seq<string> {
    seq(|items|, i requires 0 <= i < |items| => "- " + items[i])
  }

  function Identity(input: Input): seq<string> {
    ["# " + input.name]
    + (if input.headline == "" then [] else ["", input.headline])
    + (if input.links == [] then [] else ["", LinkText(input.links)])
  }

  function Target(input: Input): seq<string> {
    ["", "## Target Role", "", "- " + input.jobTitle + " at " + input.company]
    + (if input.location == "" then [] else ["- Location: " + input.location])
    + ["- Match score: " + Decimal(input.matchScore) + "%"]
  }

  function PrioritySkills(input: Input): seq<string> {
    Prioritized(input.jobSkills, MatchedKeys(input.matchedSkills))
  }

  /** The skills the section lists: the prioritized job skills, or the profile's when there are none. */
  function PrintedSkills(input: Input): seq<string> {
    if PrioritySkills(input) == [] then input.profileSkills else PrioritySkills(input)
  }

  function Highlights(input: Input): seq<string> {
    var ranked := Ranking(input.work, input.projects, PrioritySkills(input));
    ranked[..Min(|ranked|, if input.maxHighlights <= 0 then 6 else input.maxHighlights)]
  }

  const NO_HIGHLIGHTS := ["- Review the base resume and add role-specific truthful highlights before applying."]

  const SKILLS_HEADING := "## Relevant Skills"
  const HIGHLIGHTS_HEADING := "## Selected Highlights"

  function SkillsAfter(before: seq<string>, skills: seq<string>): seq<string> {
    before + ["", SKILLS_HEADING, ""] + Bullets(skills) + [""]
  }

  function HighlightLines(highlights: seq<string>): seq<string> {
    [""] + (if highlights == [] then NO_HIGHLIGHTS else Bullets(highlights))
  }

  function Front(input: Input): seq<string> {
    SkillsAfter(Identity(input) + Target(input), PrintedSkills(input))
  }

  function Document(input: Input): seq<string> {
    Front(input) + [HIGHLIGHTS_HEADING] + HighlightLines(Highlights(input))
  }

  lemma {:induction false} JoinConcat(a: seq<string>, b: seq<string>)
    ensures Join(a + b) == Join(a) + Join(b)
  {
    if a == [] {
      assert a + b == b;
    } else {
      JoinConcat(a[1..], b);
      assert (a + b)[1..] == a[1..] + b;
    }
  }

  /** The output buffer; `lines` is what has been written so far. */
  class Buffer {
    var text: string
    ghost var lines: seq<string>

    ghost predicate Valid() reads this { text == Join(lines) }

    constructor ()
      ensures Valid() && lines == []
    {
      text, lines := "", [];
    }

    method WriteLine(line: string)
      requires Valid()
      modifies this
      ensures Valid() && lines == old(lines) + [line]
    {
      JoinConcat(lines, [line]);
      text := text + line + "\n";
      lines := lines + [line];
      assert Join([line]) == line + "\n";
    }

    method WriteBullets(items: seq<string>)
      requires Valid()
      modifies this
      ensures Valid() && lines == old(lines) + Bullets(items)
    {
      for i := 0 to |items|
        invariant Valid() && lines == old(lines) + Bullets(items)[..i]
      {
        WriteLine("- " + items[i]);
      }
    }
  }

  method RenderLinks(links: seq<ProfileTables.Link>) returns (text: string)
    ensures text == LinkText(links)
  {
    text := "";
    var i := |links|;
    while 0 < i
      invariant 0 <= i <= |links|
      invariant text == LinkText(links[i..])
    {
      i := i - 1;
      var one := "[" + links[i].caption + "](" + links[i].url + ")";
      text := if i + 1 == |links| then one else one + " | " + text;
      assert links[i..][1..] == links[i + 1..];
    }
  }

  method WriteIdentity(resume: Buffer, input: Input)
    requires resume.Valid() && resume.lines == []
    modifies resume
    ensures resume.Valid() && resume.lines == Identity(input)
  {
    resume.WriteLine("# " + input.name);
    if input.headline != "" {
      resume.WriteLine("");
      resume.WriteLine(input.headline);
    }
    if |input.links| > 0 {
      var links := RenderLinks(input.links);
      resume.WriteLine("");
      resume.WriteLine(links);
    }
  }

  method WriteTarget(resume: Buffer, input: Input)
    requires resume.Valid()
    modifies resume
    ensures resume.Valid() && resume.lines == old(resume.lines) + Target(input)
  {
    resume.WriteLine("");
    resume.WriteLine("## Target Role");
    resume.WriteLine("");
    resume.WriteLine("- " + input.jobTitle + " at " + input.company);
    if input.location != "" {
      resume.WriteLine("- Location: " + input.location);
    }
    resume.WriteLine("- Match score: " + Decimal(input.matchScore) + "%");
  }

  method WriteSkills(resume: Buffer, input: Input, prioritySkills: seq<string>)
    requires resume.Valid() && resume.lines == Identity(input) + Target(input)
        && prioritySkills == PrioritySkills(input)
    modifies resume
    ensures resume.Valid() && resume.lines == Front(input)
  {
    resume.WriteLine("");
    resume.WriteLine(SKILLS_HEADING);
    resume.WriteLine("");
    resume.WriteBullets(prioritySkills);
    if |prioritySkills| == 0 {
      resume.WriteBullets(input.profileSkills);
    }
    resume.WriteLine("");
  }

  method WriteHighlights(resume: Buffer, highlights: seq<string>)
    requires resume.Valid()
    modifies resume
    ensures resume.Valid() && resume.lines == old(resume.lines) + [HIGHLIGHTS_HEADING] + HighlightLines(highlights)
  {
    resume.WriteLine(HIGHLIGHTS_HEADING);
    resume.WriteLine("");
    resume.WriteBullets(highlights);
    if |highlights| == 0 {
      resume.WriteLine("- Review the base resume and add role-specific truthful highlights before applying.");
    }
  }

  /** `Tune`'s résumé; `rest` is whatever the later sections print after the highlights. */
  method Tune(input: Input, rest: string) returns (markdown: string)
    ensures markdown == TrimSpace(Join(Document(input)) + rest) + "\n"
  {
    var max := if input.maxHighlights <= 0 then 6 else input.maxHighlights;
    var matched := Set(input.matchedSkills);
    var jobSkills := OrderedUnique(input.jobSkills);
    DistinctSpec(input.jobSkills);
    var prioritySkills := PrioritizeSkills(jobSkills, matched);
    var highlights := SelectHighlights(input.work, input.projects, prioritySkills, max);

    var resume := new Buffer();
    WriteIdentity(resume, input);
    WriteTarget(resume, input);
    WriteSkills(resume, input, prioritySkills);
    WriteHighlights(resume, highlights);
    markdown := TrimSpace(resume.text + rest) + "\n";
  }

  // ---- The parser of the review screen --------------------------------------------------------

  function Newline(s: string): (i: nat)
    ensures i <= |s| && (i < |s| ==> s[i] == '\n') && forall j | 0 <= j < i :: s[j] != '\n'
  {
    if s == "" || s[0] == '\n' then 0 else 1 + Newline(s[1..])
  }

  function DropReturn(line: string): string {
    if line != "" && line[|line| - 1] == '\r' then line[..|line| - 1] else line
  }

  /** Splitting at `\r?\n`. */
  function SplitLines(s: string): seq<string> {
    var i := Newline(s);
    if i == |s| then [s] else [DropReturn(s[..i])] + SplitLines(s[i + 1..])
  }

  predicate StartsWith(s: string, prefix: string) {
    |prefix| <= |s| && s[..|prefix|] == prefix
  }

  predicate IsHeading(line: string, section: string) {
    Lower(Browser, Trim(Browser, line)) == Lower(Browser, "## " + section)
  }

  /** What one line of a section contributes. */
  function BulletOf(line: string): seq<string> {
    var trimmed := Trim(Browser, line);
    if StartsWith(trimmed, "- ") then [TrimLeft(Browser, trimmed[1..])] else []
  }

  function BulletsUntilHeading(lines: seq<string>): seq<string> {
    if lines == [] || StartsWith(lines[0], "## ") then []
    else BulletOf(lines[0]) + BulletsUntilHeading(lines[1..])
  }

  function SectionBullets(lines: seq<string>, section: string): seq<string> {
    if lines == [] then []
    else if IsHeading(lines[0], section) then BulletsUntilHeading(lines[1..])
    else SectionBullets(lines[1..], section)
  }

  /** The index of the first line that is the section's heading, or the number of lines. */
  method FindHeading(lines: seq<string>, section: string) returns (start: nat)
    ensures start <= |lines|
    ensures start < |lines| ==> IsHeading(lines[start], section)
    ensures forall i | 0 <= i < start :: !IsHeading(lines[i], section)
    ensures start == |lines| ==> SectionBullets(lines, section) == []
    ensures start < |lines| ==> SectionBullets(lines, section) == BulletsUntilHeading(lines[start + 1..])
  {
    hide IsHeading;
    start := 0;
    while start < |lines| && !IsHeading(lines[start], section)
      invariant 0 <= start <= |lines|
      invariant forall i | 0 <= i < start :: !IsHeading(lines[i], section)
      invariant SectionBullets(lines[start..], section) == SectionBullets(lines, section)
    {
      assert lines[start..][1..] == lines[start + 1..];
      start := start + 1;
    }
  }

  method ReadBullet(line: string) returns (bullet: seq<string>)
    ensures bullet == BulletOf(line)
  {
    var trimmed := Trim(Browser, line);
    bullet := [];
    if StartsWith(trimmed, "- ") {
      bullet := [TrimLeft(Browser, trimmed[1..])];
    }
  }

  method CollectBullets(lines: seq<string>) returns (values: seq<string>)
    ensures values == BulletsUntilHeading(lines)
  {
    hide BulletOf, StartsWith;
    values := [];
    var i := 0;
    while i < |lines|
      invariant 0 <= i <= |lines|
      invariant values + BulletsUntilHeading(lines[i..]) == BulletsUntilHeading(lines)
    {
      SectionStep(lines, i);
      if StartsWith(lines[i], "## ") {
        break;
      }
      ghost var rest := BulletsUntilHeading(lines[i + 1..]);
      var bullet := ReadBullet(lines[i]);
      assert values + (bullet + rest) == (values + bullet) + rest;
      values := values + bullet;
      i := i + 1;
    }
  }

  method ExtractSectionBullets(lines: seq<string>, section: string) returns (values: seq<string>)
    ensures values == SectionBullets(lines, section)
  {
    var start := FindHeading(lines, section);
    if start < |lines| {
      values := CollectBullets(lines[start + 1..]);
    } else {
      values := [];
    }
  }

  lemma SectionStep(lines: seq<string>, i: nat)
    requires i < |lines|
    ensures StartsWith(lines[i], "## ") ==> BulletsUntilHeading(lines[i..]) == []
    ensures !StartsWith(lines[i], "## ") ==>
        BulletsUntilHeading(lines[i..]) == BulletOf(lines[i]) + BulletsUntilHeading(lines[i + 1..])
  {
    hide BulletOf, StartsWith;
    assert lines[i..][1..] == lines[i + 1..];
  }

  // ---- Lines of the printed document ----------------------------------------------------------

  predicate OneLine(s: string) {
    forall i | 0 <= i < |s| :: s[i] != '\n'
  }

  predicate OneLiners(lines: seq<string>) {
    forall i | 0 <= i < |lines| :: OneLine(lines[i])
  }

  function DropReturns(lines: seq<string>): seq<string> {
    if lines == [] then [] else [DropReturn(lines[0])] + DropReturns(lines[1..])
  }

  lemma SplitFirst(line: string, t: string)
    requires OneLine(line)
    ensures SplitLines(line + "\n" + t) == [DropReturn(line)] + SplitLines(t)
  {
    var s := line + "\n" + t;
    assert s[|line|] == '\n';
    assert Newline(s) == |line| by {
      assert forall j | 0 <= j < |line| :: s[j] == line[j];
    }
    assert s[..|line|] == line && s[|line| + 1..] == t;
  }

  lemma Regrouped<T>(a: seq<T>, b: seq<T>, c: seq<T>)
    ensures a + (b + c) == a + b + c
  {
  }

  lemma {:induction false} SplitJoined(lines: seq<string>, t: string)
    requires OneLiners(lines)
    ensures SplitLines(Join(lines) + t) == DropReturns(lines) + SplitLines(t)
  {
    hide SplitLines, DropReturn, OneLine;
    if lines == [] {
      assert Join(lines) + t == t;
    } else {
      var first, rest := lines[0], lines[1..];
      SplitJoined(rest, t);
      SplitFirst(first, Join(rest) + t);
      Regrouped([DropReturn(first)], DropReturns(rest), SplitLines(t));
      assert Join(lines) + t == first + "\n" + (Join(rest) + t);
    }
  }

  lemma {:induction false} SplitIsOneLiners(s: string)
    ensures OneLiners(SplitLines(s))
    decreases |s|
  {
    var i := Newline(s);
    if i < |s| {
      SplitIsOneLiners(s[i + 1..]);
    }
  }

  lemma ReturnIsSpace(post: string)
    requires AllSpace(Browser, post)
    ensures AllSpace(Browser, post + "\r")
  {
  }

  lemma DropReturnKeepsTrim(line: string)
    ensures Trim(Browser, DropReturn(line)) == Trim(Browser, line)
  {
    hide Trim, IsSpace;
    var kept := DropReturn(line);
    if kept != line {
      var a, b := TrimWindow(Browser, kept);
      var pre, t, post := kept[..a], kept[a..b], kept[b..];
      BeforeWindow(Browser, kept, a);
      AfterWindow(Browser, kept, b);
      TrimIdentity(Browser, kept);
      hide AllSpace, Trimmed;
      ReturnIsSpace(post);
      TrimPadded(Browser, pre, t, post + "\r");
      assert line == pre + t + (post + "\r");
    }
  }

  lemma BeforeWindow(d: Dialect, s: string, a: nat)
    requires a <= |s| && forall i | 0 <= i < a :: IsSpace(d, s[i])
    ensures AllSpace(d, s[..a])
  {
    hide IsSpace;
  }

  lemma AfterWindow(d: Dialect, s: string, b: nat)
    requires b <= |s| && forall i | b <= i < |s| :: IsSpace(d, s[i])
    ensures AllSpace(d, s[b..])
  {
    hide IsSpace;
  }

  lemma {:induction false} TrimLeftPadded(d: Dialect, pre: string, t: string)
    requires AllSpace(d, pre) && t != "" && !IsSpace(d, t[0])
    ensures TrimLeft(d, pre + t) == t
    decreases |pre|
  {
    hide IsSpace;
    if pre == "" {
      assert pre + t == t;
    } else {
      TrimLeftPadded(d, pre[1..], t);
      assert (pre + t)[1..] == pre[1..] + t;
    }
  }

  /** A printed bullet is read back as its text without browser white space around it; a blank one vanishes. */
  lemma BulletReadBack(item: string)
    ensures BulletOf("- " + item) == if AllSpace(Browser, item) then [] else [Trim(Browser, item)]
  {
    hide Trim, IsSpace, BulletOf;
    TrimIdentity(Browser, item);
    if AllSpace(Browser, item) {
      BlankBullet(item);
    } else {
      var a, b := TrimWindow(Browser, item);
      BeforeWindow(Browser, item, a);
      AfterWindow(Browser, item, b);
      hide AllSpace, Trimmed;
      var pre, t, post := item[..a], item[a..b], item[b..];
      PaddedBullet(pre, t, post);
      assert "- " + item == "- " + pre + t + post;
    }
  }

  lemma BlankBullet(item: string)
    requires AllSpace(Browser, item)
    ensures BulletOf("- " + item) == []
  {
    TrimPadded(Browser, "", "-", " " + item);
    assert "- " + item == "" + "-" + (" " + item);
  }

  /** Trimming a printed bullet takes away what stands after its text only. */
  lemma PaddedLine(pre: string, t: string, post: string)
    requires AllSpace(Browser, post) && t != "" && Trimmed(Browser, t)
    ensures Trim(Browser, "- " + pre + t + post) == "- " + pre + t
  {
    var kept := "- " + pre + t;
    assert kept[0] == '-' && kept[|kept| - 1] == t[|t| - 1];
    assert Trimmed(Browser, kept);
    NothingIsSpace(Browser);
    hide Trim, IsSpace, AllSpace, Trimmed;
    TrimPadded(Browser, "", kept, post);
    assert "" + kept + post == "- " + pre + t + post;
  }

  lemma PaddedBullet(pre: string, t: string, post: string)
    requires AllSpace(Browser, pre) && AllSpace(Browser, post) && t != "" && Trimmed(Browser, t)
    ensures BulletOf("- " + pre + t + post) == [t]
  {
    PaddedLine(pre, t, post);
    assert AllSpace(Browser, " " + pre);
    hide Trim, TrimLeft, IsSpace, AllSpace;
    TrimLeftPadded(Browser, " " + pre, t);
    var kept := "- " + pre + t;
    assert kept[1..] == " " + pre + t;
    assert kept[..2] == "- ";
  }

  lemma NothingIsSpace(d: Dialect)
    ensures AllSpace(d, "")
  {
  }

  /** The bullets a reader gets back for printed items. */
  function ReadBack(items: seq<string>): seq<string> {
    if items == [] then []
    else (if AllSpace(Browser, items[0]) then [] else [Trim(Browser, items[0])]) + ReadBack(items[1..])
  }

  lemma BulletLine(line: string, rest: seq<string>)
    requires line != "" && line[0] == '-'
    ensures BulletsUntilHeading([line] + rest) == BulletOf(line) + BulletsUntilHeading(rest)
  {
    hide BulletOf;
    assert ([line] + rest)[1..] == rest;
  }

  lemma BulletsOneMore(items: seq<string>)
    requires items != []
    ensures DropReturns(Bullets(items)) == [DropReturn("- " + items[0])] + DropReturns(Bullets(items[1..]))
  {
    hide DropReturn;
    var lines, rest := Bullets(items), Bullets(items[1..]);
    assert lines == ["- " + items[0]] + rest;
    assert lines[1..] == rest;
  }

  lemma {:induction false} BulletsReadBack(items: seq<string>, stop: string, more: seq<string>)
    requires StartsWith(stop, "## ")
    ensures BulletsUntilHeading(DropReturns(Bullets(items)) + (["", stop] + more)) == ReadBack(items)
  {
    var tail := ["", stop] + more;
    if items == [] {
      assert DropReturns(Bullets(items)) + tail == tail;
      BulletsStop(stop, more);
    } else {
      var line := "- " + items[0];
      var kept, rest := DropReturn(line), DropReturns(Bullets(items[1..]));
      assert kept[0] == '-';
      hide DropReturn, DropReturns, Bullets, BulletsUntilHeading, BulletOf, Trim, AllSpace, StartsWith;
      BulletsOneMore(items);
      BulletsReadBack(items[1..], stop, more);
      Regrouped([kept], rest, tail);
      BulletLine(kept, rest + tail);
      BulletReadBack(items[0]);
      ReturnedBullet(line);
    }
  }

  lemma ReturnedBullet(line: string)
    ensures BulletOf(DropReturn(line)) == BulletOf(line)
  {
    hide Trim;
    DropReturnKeepsTrim(line);
  }

  lemma BulletsStop(stop: string, more: seq<string>)
    requires StartsWith(stop, "## ")
    ensures BulletsUntilHeading(["", stop] + more) == []
  {
    var lines := ["", stop] + more;
    assert lines[1..][0] == stop;
    assert BulletOf("") == [];
  }

  // ---- Headings before the section ------------------------------------------------------------

  const SKILLS := "Relevant Skills"

  lemma SkillsHeading()
    ensures IsHeading(SKILLS_HEADING, SKILLS)
    ensures var h := Lower(Browser, "## " + SKILLS); |h| > 4 && h[0] == h[1] == '#' && h[3] == 'r'
  {
    SkillsHeadingTrimmed();
    assert "## " + SKILLS == SKILLS_HEADING;
    LowerHeading(SKILLS_HEADING);
    hide Trim, IsSpace, Lower;
  }

  lemma LowerHeading(s: string)
    requires |s| > 4 && s[0] == s[1] == '#' && s[3] == 'R'
    ensures var h := Lower(Browser, s); |h| > 4 && h[0] == h[1] == '#' && h[3] == 'r'
  {
    FoldProperties(Browser, '#');
    FoldProperties(Browser, 'R');
  }

  lemma SkillsHeadingTrimmed()
    ensures Trim(Browser, SKILLS_HEADING) == SKILLS_HEADING
  {
    TrimIdentity(Browser, SKILLS_HEADING);
  }

  /** A line whose text does not begin "##" is not the section's heading. */
  lemma NotHeading(line: string)
    requires var t := Trim(Browser, line);
             |t| < 2 || (t[0] < '\U{0080}' && AsciiLower(t[0]) != '#') || (t[1] < '\U{0080}' && AsciiLower(t[1]) != '#')
    ensures !IsHeading(line, SKILLS)
  {
    SkillsHeading();
    var t := Trim(Browser, line);
    if |t| >= 2 {
      FoldProperties(Browser, t[0]);
      FoldProperties(Browser, t[1]);
      assert Lower(Browser, t)[0] == Fold(Browser, t[0]) && Lower(Browser, t)[1] == Fold(Browser, t[1]);
    }
  }

  /** A line that starts with a non-space keeps that character, and its second one if that is kept at all. */
  lemma TrimKeepsStart(line: string)
    requires line != "" && !IsSpace(Browser, line[0])
    ensures var t := Trim(Browser, line); 0 < |t| <= |line| && t == line[..|t|]
  {
    var a, b := TrimWindow(Browser, line);
  }

  lemma PlainLineIsNotHeading(line: string)
    requires line == "" || line[0] in {'-', '['} || StartsWith(line, "# ") || StartsWith(line, "## T")
    ensures !IsHeading(DropReturn(line), SKILLS)
  {
    DropReturnKeepsTrim(line);
    if line == "" {
      NotHeading("");
    } else {
      TrimKeepsStart(line);
      if StartsWith(line, "## T") {
        TargetRoleLine(line);
      } else {
        NotHeading(line);
      }
      assert Trim(Browser, DropReturn(line)) == Trim(Browser, line);
    }
  }

  lemma TargetRoleLine(line: string)
    requires StartsWith(line, "## T")
    ensures !IsHeading(line, SKILLS)
  {
    SkillsHeading();
    TrimKeepsStart(line);
    var t := Trim(Browser, line);
    if |t| >= 4 {
      FoldProperties(Browser, 'T');
      assert t[3] == line[..4][3] == 'T';
    }
  }

  lemma {:induction false} SkipNonHeadings(lines: seq<string>, more: seq<string>)
    requires forall i | 0 <= i < |lines| :: !IsHeading(lines[i], SKILLS)
    ensures SectionBullets(lines + more, SKILLS) == SectionBullets(more, SKILLS)
  {
    if lines == [] {
      assert lines + more == more;
    } else {
      SkipNonHeadings(lines[1..], more);
      assert (lines + more)[1..] == lines[1..] + more;
    }
  }

  // ---- Printing and parsing -------------------------------------------------------------------

  predicate OneLineFields(input: Input) {
    && OneLine(input.name) && OneLine(input.headline)
    && (forall i | 0 <= i < |input.links| :: OneLine(input.links[i].caption) && OneLine(input.links[i].url))
    && OneLine(input.jobTitle) && OneLine(input.company) && OneLine(input.location)
  }

  lemma {:induction false} DecimalOneLine(n: nat)
    ensures OneLine(Digits(n))
  {
    if n >= 10 {
      DecimalOneLine(n / 10);
    }
  }

  lemma {:induction false} LinkTextOneLine(links: seq<ProfileTables.Link>)
    requires forall i | 0 <= i < |links| :: OneLine(links[i].caption) && OneLine(links[i].url)
    ensures OneLine(LinkText(links))
    ensures links != [] ==> LinkText(links) != "" && LinkText(links)[0] == '['
  {
    if links == [] {
    } else {
      LinkTextOneLine(links[1..]);
    }
  }

  lemma IdentityOneLiners(input: Input)
    requires OneLineFields(input)
    ensures OneLiners(Identity(input))
  {
    LinkTextOneLine(input.links);
  }

  lemma TargetOneLiners(input: Input)
    requires OneLineFields(input)
    ensures OneLiners(Target(input))
  {
    DecimalOneLine(if input.matchScore < 0 then -input.matchScore else input.matchScore);
    var role, place := "- " + input.jobTitle + " at " + input.company, "- Location: " + input.location;
    var score := "- Match score: " + Decimal(input.matchScore) + "%";
    assert OneLine(role) && OneLine(place) && OneLine(score);
    assert forall i | 0 <= i < |Target(input)| :: Target(input)[i] in {"", "## Target Role", role, place, score};
  }

  lemma BulletsOneLiners(items: seq<string>)
    requires OneLiners(items)
    ensures OneLiners(Bullets(items))
  {
  }

  lemma FrontOneLiners(before: seq<string>, skills: seq<string>)
    requires OneLiners(before) && OneLiners(skills)
    ensures OneLiners(SkillsAfter(before, skills))
  {
    BulletsOneLiners(skills);
    assert OneLiners(before + ["", SKILLS_HEADING, ""]);
    assert OneLiners(before + ["", SKILLS_HEADING, ""] + Bullets(skills));
  }

  lemma TrimKeepsFront(front: string, tail: string) returns (kept: string)
    requires front != "" && !IsSpace(Go, front[0]) && !IsSpace(Go, front[|front| - 1])
    ensures TrimSpace(front + tail) == front + kept && kept <= tail
  {
    var text := front + tail;
    var a, b := TrimWindow(Go, text);
    assert text[0] == front[0] && text[|front| - 1] == front[|front| - 1];
    kept := tail[..b - |front|];
    assert text[..b] == front + kept;
  }

  /** The printed text is the front lines, the highlights heading, and something after it. */
  lemma MarkdownShape(front: seq<string>, heading: string, later: seq<string>, rest: string) returns (z: string)
    requires front != [] && StartsWith(front[0], "# ")
    requires heading != "" && !IsSpace(Go, heading[|heading| - 1])
    ensures TrimSpace(Join(front + [heading] + later) + rest) + "\n" == Join(front) + (heading + "\n" + z)
  {
    assert !IsSpace(Go, '#');
    hide Trim, IsSpace;
    JoinConcat(front + [heading], later);
    JoinConcat(front, [heading]);
    assert Join([heading]) == heading + "\n";
    assert Join(front)[0] == front[0][0] == '#';
    assert Join(front + [heading] + later) + rest == (Join(front) + heading) + ("\n" + (Join(later) + rest));
    z := TrimAfterHeading(Join(front), heading, Join(later) + rest);
  }

  lemma TrimAfterHeading(front: string, heading: string, tail: string) returns (z: string)
    requires front != "" && !IsSpace(Go, front[0])
    requires heading != "" && !IsSpace(Go, heading[|heading| - 1])
    ensures TrimSpace((front + heading) + ("\n" + tail)) + "\n" == front + (heading + "\n" + z)
  {
    var text := front + heading;
    assert text[0] == front[0] && text[|text| - 1] == heading[|heading| - 1];
    var kept := TrimKeepsFront(text, "\n" + tail);
    if kept == "" {
      z := "";
    } else {
      assert kept[0] == ("\n" + tail)[0] == '\n';
      z := kept[1..] + "\n";
      assert kept == "\n" + kept[1..];
    }
  }

  lemma {:induction false} DropReturnsConcat(a: seq<string>, b: seq<string>)
    ensures DropReturns(a + b) == DropReturns(a) + DropReturns(b)
  {
    if a == [] {
      assert a + b == b;
    } else {
      DropReturnsConcat(a[1..], b);
      assert (a + b)[1..] == a[1..] + b;
    }
  }

  lemma DropReturnsPair(a: string, b: string)
    ensures DropReturns([a, b]) == [DropReturn(a), DropReturn(b)]
    ensures DropReturns([a]) == [DropReturn(a)]
  {
    assert [a, b] == [a] + [b];
    DropReturnsConcat([a], [b]);
  }

  lemma {:induction false} DropReturnsNotHeadings(lines: seq<string>)
    requires forall i | 0 <= i < |lines| :: !IsHeading(DropReturn(lines[i]), SKILLS)
    ensures forall i | 0 <= i < |DropReturns(lines)| :: !IsHeading(DropReturns(lines)[i], SKILLS)
  {
    if lines == [] {
    } else {
      DropReturnsNotHeadings(lines[1..]);
    }
  }

  lemma TargetNotHeadings(input: Input)
    ensures forall i | 0 <= i < |Target(input)| :: !IsHeading(DropReturn(Target(input)[i]), SKILLS)
  {
    forall i | 0 <= i < |Target(input)| ensures !IsHeading(DropReturn(Target(input)[i]), SKILLS) {
      PlainLineIsNotHeading(Target(input)[i]);
    }
  }

  lemma IdentityNotHeadings(input: Input)
    requires OneLineFields(input) && !IsHeading(input.headline, SKILLS)
    ensures forall i | 0 <= i < |Identity(input)| :: !IsHeading(DropReturn(Identity(input)[i]), SKILLS)
  {
    LinkTextOneLine(input.links);
    DropReturnKeepsTrim(input.headline);
    forall i | 0 <= i < |Identity(input)| ensures !IsHeading(DropReturn(Identity(input)[i]), SKILLS) {
      var line := Identity(input)[i];
      if line != input.headline || line == "" {
        assert line == "" || line == "# " + input.name || line == LinkText(input.links);
        PlainLineIsNotHeading(line);
      }
    }
  }

  /** A section found after lines that are no headings, read up to the next heading. */
  lemma SectionBetween(before: seq<string>, heading: string, items: seq<string>, stop: string, more: seq<string>)
    requires forall i | 0 <= i < |before| :: !IsHeading(before[i], SKILLS)
    requires IsHeading(heading, SKILLS) && StartsWith(stop, "## ")
    ensures SectionBullets(before + ([heading, ""] + (DropReturns(Bullets(items)) + (["", stop] + more))), SKILLS)
        == ReadBack(items)
  {
    var body := DropReturns(Bullets(items)) + (["", stop] + more);
    SkipNonHeadings(before, [heading, ""] + body);
    AtHeading(heading, [""] + body);
    assert [heading, ""] + body == [heading] + ([""] + body);
    BlankLine(body);
    BulletsReadBack(items, stop, more);
  }

  lemma AtHeading(heading: string, tail: seq<string>)
    requires IsHeading(heading, SKILLS)
    ensures SectionBullets([heading] + tail, SKILLS) == BulletsUntilHeading(tail)
  {
    assert ([heading] + tail)[1..] == tail;
  }

  lemma BlankLine(tail: seq<string>)
    ensures BulletsUntilHeading([""] + tail) == BulletsUntilHeading(tail)
  {
    assert ([""] + tail)[1..] == tail;
    assert BulletOf("") == [];
  }

  /** After lines that are no headings, the section read back is the printed skills, read back one by one. */
  lemma SkillsSection(before: seq<string>, skills: seq<string>, stop: string, more: seq<string>)
    requires forall i | 0 <= i < |before| :: !IsHeading(DropReturn(before[i]), SKILLS)
    requires StartsWith(stop, "## ")
    ensures SectionBullets(DropReturns(SkillsAfter(before, skills)) + ([stop] + more), SKILLS) == ReadBack(skills)
  {
    var opening, heading := before + [""], SKILLS_HEADING;
    assert SkillsAfter(before, skills) == opening + [heading, ""] + Bullets(skills) + [""];
    FrontLines(opening, heading, Bullets(skills), stop, more);
    SkillsHeading();
    PlainLineIsNotHeading("");
    DropReturnsNotHeadings(opening);
    SectionBetween(DropReturns(opening), heading, skills, stop, more);
  }

  lemma FrontLines(before: seq<string>, heading: string, items: seq<string>, stop: string, more: seq<string>)
    requires DropReturn(heading) == heading
    ensures DropReturns(before + [heading, ""] + items + [""]) + ([stop] + more)
         == DropReturns(before) + ([heading, ""] + (DropReturns(items) + (["", stop] + more)))
  {
    assert DropReturn("") == "";
    hide DropReturns, DropReturn;
    var a := [heading, ""];
    DropReturnsConcat(before + a + items, [""]);
    DropReturnsConcat(before + a, items);
    DropReturnsConcat(before, a);
    DropReturnsPair(heading, "");
    DropReturnsPair("", "");
    RegroupedAll(DropReturns(before), a, DropReturns(items), [""], [stop], more);
    Regrouped([""], [stop], more);
    assert ["", stop] == [""] + [stop];
  }

  /** A headline that reads as the section's heading hides every skill. */
  lemma HeadlineHidesSkills(input: Input, skills: seq<string>, more: seq<string>)
    requires OneLineFields(input) && IsHeading(input.headline, SKILLS)
    ensures SectionBullets(DropReturns(SkillsAfter(Identity(input) + Target(input), skills)) + more, SKILLS) == []
  {
    SkillsHeading();
    PlainLineIsNotHeading("");
    PlainLineIsNotHeading("# " + input.name);
    var name, stop := "# " + input.name, "## Target Role";
    var links := if input.links == [] then [] else ["", LinkText(input.links)];
    HeadlineIsPrinted(input);
    assert DropReturn(stop) == stop && StartsWith(stop, "## ");
    hide DropReturns, DropReturn, BulletsUntilHeading, SectionBullets, Trim, IsSpace, StartsWith, SkillsAfter;
    Regroup([name, "", input.headline], links, ["", stop], Target(input)[2..], skills);
    DropReturnKeepsTrim(input.headline);
    LinksAreNoBullets(input);
    HiddenSection(name, input.headline, links, stop, SkillsAfter(Target(input)[2..], skills), more);
  }

  lemma Regroup(a: seq<string>, b: seq<string>, c: seq<string>, d: seq<string>, skills: seq<string>)
    ensures SkillsAfter((a + b) + (c + d), skills) == a + b + c + SkillsAfter(d, skills)
  {
  }

  lemma HeadlineIsPrinted(input: Input)
    requires IsHeading(input.headline, SKILLS)
    ensures Identity(input)
        == ["# " + input.name, "", input.headline] + (if input.links == [] then [] else ["", LinkText(input.links)])
    ensures Target(input) == ["", "## Target Role"] + Target(input)[2..]
  {
    PlainLineIsNotHeading("");
    assert input.headline != "";
  }

  lemma HiddenSection(name: string, headline: string, links: seq<string>, stop: string, after: seq<string>,
    more: seq<string>)
    requires !IsHeading(DropReturn(name), SKILLS) && !IsHeading("", SKILLS) && IsHeading(DropReturn(headline), SKILLS)
    requires StartsWith(stop, "## ") && DropReturn(stop) == stop
    requires forall tail | BulletsUntilHeading(tail) == [] :: BulletsUntilHeading(DropReturns(links) + tail) == []
    ensures SectionBullets(DropReturns([name, "", headline] + links + ["", stop] + after) + more, SKILLS) == []
  {
    hide DropReturns, DropReturn, BulletsUntilHeading, SectionBullets, IsHeading, StartsWith;
    var opening, tail := [DropReturn(name), ""], ["", stop] + (DropReturns(after) + more);
    var section := [DropReturn(headline)] + (DropReturns(links) + tail);
    BulletsStop(stop, DropReturns(after) + more);
    assert BulletsUntilHeading(DropReturns(links) + tail) == [];
    AtHeading(DropReturn(headline), DropReturns(links) + tail);
    SkipNonHeadings(opening, section);
    HiddenLines(name, headline, links, stop, after, more);
  }

  lemma HiddenLines(name: string, headline: string, links: seq<string>, stop: string, after: seq<string>,
    more: seq<string>)
    requires DropReturn(stop) == stop
    ensures DropReturns([name, "", headline] + links + ["", stop] + after) + more
         == [DropReturn(name), ""]
            + ([DropReturn(headline)] + (DropReturns(links) + (["", stop] + (DropReturns(after) + more))))
  {
    assert DropReturn("") == "";
    hide DropReturns, DropReturn;
    var a, b, c := [name, ""], [headline], ["", stop];
    assert [name, "", headline] == a + b;
    DropReturnsConcat(a + b + links + c, after);
    DropReturnsConcat(a + b + links, c);
    DropReturnsConcat(a + b, links);
    DropReturnsConcat(a, b);
    DropReturnsPair(name, "");
    DropReturnsPair(headline, "");
    DropReturnsPair("", stop);
    RegroupedAll(DropReturns(a), DropReturns(b), DropReturns(links), c, DropReturns(after), more);
  }

  lemma RegroupedAll<T>(a: seq<T>, b: seq<T>, c: seq<T>, d: seq<T>, e: seq<T>, f: seq<T>)
    ensures a + b + c + d + e + f == a + (b + (c + (d + (e + f))))
  {
    Regrouped(d, e, f);
    Regrouped(c, d, e + f);
    Regrouped(c + d, e, f);
    Regrouped(b, c, d + (e + f));
    Regrouped(a, b, c + (d + (e + f)));
    Regrouped(a + b, c, d + (e + f));
    Regrouped(a + b + c, d, e + f);
    Regrouped(a + b + c + d, e, f);
  }

  lemma LinksAreNoBullets(input: Input)
    requires OneLineFields(input)
    ensures var links := if input.links == [] then [] else ["", LinkText(input.links)];
            forall tail | BulletsUntilHeading(tail) == [] :: BulletsUntilHeading(DropReturns(links) + tail) == []
  {
    var links := if input.links == [] then [] else ["", LinkText(input.links)];
    forall tail | BulletsUntilHeading(tail) == [] ensures BulletsUntilHeading(DropReturns(links) + tail) == [] {
      if input.links == [] {
        assert DropReturns(links) + tail == tail;
      } else {
        LinkTextOneLine(input.links);
        var text := LinkText(input.links);
        LinkLineIsNoBullet(text);
        DropReturnsPair("", text);
        var line := DropReturn(text);
        BlankLine([line] + tail);
        assert ([line] + tail)[1..] == tail;
        assert ["", line] + tail == [""] + ([line] + tail);
      }
    }
  }

  lemma LinkLineIsNoBullet(text: string)
    requires text != "" && text[0] == '['
    ensures BulletOf(DropReturn(text)) == [] && !StartsWith(DropReturn(text), "## ")
  {
    DropReturnKeepsTrim(text);
    TrimKeepsStart(text);
  }

  /** A skill the screen shows as it was printed. */
  predicate Readable(skill: string) {
    skill != "" && Trimmed(Browser, skill) && OneLine(skill)
  }

  predicate AllReadable(skills: seq<string>) {
    forall i | 0 <= i < |skills| :: Readable(skills[i])
  }

  lemma {:induction false} ReadBackReadable(skills: seq<string>)
    requires AllReadable(skills)
    ensures ReadBack(skills) == skills
  {
    if skills == [] {
    } else {
      TrimIdentity(Browser, skills[0]);
      ReadBackReadable(skills[1..]);
    }
  }

  lemma TrimOneLine(d: Dialect, s: string)
    requires OneLine(s)
    ensures OneLine(Trim(d, s)) && OneLine(TrimLeft(d, s))
  {
    var a, b := TrimWindow(d, s);
    var n := TrimLeftWindow(d, s);
  }

  lemma BulletReadable(line: string)
    requires OneLine(line)
    ensures AllReadable(BulletOf(line))
  {
    var t := Trim(Browser, line);
    TrimIdentity(Browser, line);
    TrimOneLine(Browser, line);
    if StartsWith(t, "- ") {
      var n := TrimLeftWindow(Browser, t[1..]);
      TrimOneLine(Browser, t[1..]);
      assert t[1..][|t| - 2] == t[|t| - 1];
    }
  }

  lemma {:induction false} SectionReadable(lines: seq<string>)
    requires OneLiners(lines)
    ensures AllReadable(BulletsUntilHeading(lines))
    ensures AllReadable(SectionBullets(lines, SKILLS))
  {
    if lines == [] {
    } else {
      BulletReadable(lines[0]);
      SectionReadable(lines[1..]);
    }
  }

  /**
   Printer and parser: for one-line fields and a non-empty skill list, the screen shows exactly the
   printed skills in order, if and only if the headline does not itself read as the heading of the
   section and every skill is one line without white space, as the browser sees it, around it.
   */
  lemma SkillsRoundTrip(input: Input, rest: string, markdown: string)
    requires OneLineFields(input) && PrintedSkills(input) != []
    requires markdown == TrimSpace(Join(Document(input)) + rest) + "\n"
    ensures SectionBullets(SplitLines(markdown), SKILLS) == PrintedSkills(input)
            <==> !IsHeading(input.headline, SKILLS) && AllReadable(PrintedSkills(input))
  {
    var skills := PrintedSkills(input);
    SplitIsOneLiners(markdown);
    SectionReadable(SplitLines(markdown));
    if AllReadable(skills) {
      ShownSkills(input, skills, HighlightLines(Highlights(input)), rest);
      ReadBackReadable(skills);
    }
  }

  /** What the screen shows of one-line skills printed after the input's opening lines. */
  lemma ShownSkills(input: Input, skills: seq<string>, later: seq<string>, rest: string)
    requires OneLineFields(input) && OneLiners(skills)
    ensures var front := SkillsAfter(Identity(input) + Target(input), skills);
            SectionBullets(SplitLines(TrimSpace(Join(front + [HIGHLIGHTS_HEADING] + later) + rest) + "\n"), SKILLS)
            == if IsHeading(input.headline, SKILLS) then [] else ReadBack(skills)
  {
    var before := Identity(input) + Target(input);
    var front := SkillsAfter(before, skills);
    IdentityOneLiners(input);
    TargetOneLiners(input);
    FrontOneLiners(before, skills);
    assert front[0] == Identity(input)[0];
    var more := MarkdownLines(front, HIGHLIGHTS_HEADING, later, rest);
    if IsHeading(input.headline, SKILLS) {
      HeadlineHidesSkills(input, skills, [HIGHLIGHTS_HEADING] + more);
    } else {
      IdentityNotHeadings(input);
      TargetNotHeadings(input);
      SkillsSection(before, skills, HIGHLIGHTS_HEADING, more);
    }
  }

  lemma MarkdownLines(front: seq<string>, heading: string, later: seq<string>, rest: string) returns (more: seq<string>)
    requires OneLiners(front) && front != [] && StartsWith(front[0], "# ")
    requires heading != "" && !IsSpace(Go, heading[|heading| - 1]) && OneLine(heading)
    ensures SplitLines(TrimSpace(Join(front + [heading] + later) + rest) + "\n")
        == DropReturns(front) + ([heading] + more)
  {
    var z := MarkdownShape(front, heading, later, rest);
    more := SplitLines(z);
    SplitJoined(front, heading + "\n" + z);
    SplitFirst(heading, z);
  }

  /** A job skill ending in U+FEFF is trimmed for the printer and not for the parser: the round trip fails. */
  lemma ByteOrderMarkIsLost(input: Input, rest: string)
    requires OneLineFields(input) && input.jobSkills == ["Go\U{FEFF}"] && input.matchedSkills == []
    ensures PrintedSkills(input) == ["Go\U{FEFF}"]
    ensures SectionBullets(SplitLines(TrimSpace(Join(Document(input)) + rest) + "\n"), SKILLS) != PrintedSkills(input)
  {
    var skill := "Go\U{FEFF}";
    TrimIdentity(Go, skill);
    TrimIdentity(Browser, skill);
    OneSkillIsPrinted(skill, {});
    assert MatchedKeys(input.matchedSkills) == {};
    assert !Readable(PrintedSkills(input)[0]);
    SkillsRoundTrip(input, rest, TrimSpace(Join(Document(input)) + rest) + "\n");
  }

  lemma OneSkillIsPrinted(skill: string, matched: set<string>)
    requires skill != "" && TrimSpace(skill) == skill
    ensures Prioritized([skill], matched) == [skill]
  {
    var d := Distinct([skill]);
    assert ToLower(skill) !in {};
    assert d == [skill] + Unseen([skill][1..], {} + {ToLower(skill)});
    assert StableOrder.StableSort(MatchScore(matched), d[1..]) == [];
  }
}
