/**
 Text as the services and the review screen see it: a string is a sequence of characters,
 trimming removes a dialect's white space from both ends, and case mapping works character by
 character. The two dialects differ only in their white space: U+0085 is a space to Go and not to
 the browser, U+FEFF the other way round.
 */
module Text {
  import opened Wrappers

  datatype Dialect = Go | Browser

  predicate IsSpace(d: Dialect, c: char) {
    || '\t' <= c <= '\r'
    || c == ' '
    || c == '\U{00A0}' || c == '\U{1680}' || '\U{2000}' <= c <= '\U{200A}'
    || c == '\U{2028}' || c == '\U{2029}' || c == '\U{202F}' || c == '\U{205F}' || c == '\U{3000}'
    || (d.Go? && c == '\U{0085}')
    || (d.Browser? && c == '\U{FEFF}')
  }

  const SPACES := "\t\n\U{000B}\U{000C}\r \U{00A0}\U{1680}\U{2028}\U{2029}\U{202F}\U{205F}\U{3000}"
  const QUADS := "\U{2000}\U{2001}\U{2002}\U{2003}\U{2004}\U{2005}\U{2006}\U{2007}\U{2008}\U{2009}\U{200A}"

  /** The white space of both dialects, character by character, and the two on which they differ. */
  lemma SpacesListed(c: char)
    ensures IsSpace(Go, c) <==> c in SPACES || c in QUADS || c == '\U{0085}'
    ensures IsSpace(Browser, c) <==> c in SPACES || c in QUADS || c == '\U{FEFF}'
  {
  }

  function AsciiLower(c: char): char {
    if 'A' <= c <= 'Z' then (c as int + 32) as char else c
  }

  /** What the proofs use of a Unicode lower-case table. */
  ghost predicate LowersCase(d: Dialect, f: char -> char) {
    && (forall c :: IsSpace(d, f(c)) <==> IsSpace(d, c))
    && (forall c: char | c < '\U{0080}' :: f(c) == AsciiLower(c))
  }

  type GoCaseMap = f: char -> char | LowersCase(Go, f) witness AsciiLower
  type BrowserCaseMap = f: char -> char | LowersCase(Browser, f) witness AsciiLower

  // The tables themselves stay unspecified: every result holds for any table of the type.
  const GoFold: GoCaseMap
  const BrowserFold: BrowserCaseMap

  function Fold(d: Dialect, c: char): char {
    if d.Go? then GoFold(c) else BrowserFold(c)
  }

  lemma FoldProperties(d: Dialect, c: char)
    ensures IsSpace(d, Fold(d, c)) <==> IsSpace(d, c)
    ensures c < '\U{0080}' ==> Fold(d, c) == AsciiLower(c)
  {
    assert LowersCase(Go, GoFold) && LowersCase(Browser, BrowserFold);
  }

  function Lower(d: Dialect, s: string): (r: string)
    ensures |r| == |s|
  {
    seq(|s|, i requires 0 <= i < |s| => Fold(d, s[i]))
  }

  function ToLower(s: string): string {
    Lower(Go, s)
  }

  function TrimLeft(d: Dialect, s: string): string {
    if s != [] && IsSpace(d, s[0]) then TrimLeft(d, s[1..]) else s
  }

  function TrimRight(d: Dialect, s: string): string {
    if s != [] && IsSpace(d, s[|s| - 1]) then TrimRight(d, s[..|s| - 1]) else s
  }

  function Trim(d: Dialect, s: string): string {
    TrimRight(d, TrimLeft(d, s))
  }

  function TrimSpace(s: string): string {
    Trim(Go, s)
  }

  /** The lower-cased, trimmed form the services compare by. */
  function Normalize(s: string): string {
    ToLower(TrimSpace(s))
  }

  predicate Contains(s: string, t: string) {
    exists i | 0 <= i <= |s| - |t| :: s[i..][..|t|] == t
  }

  predicate AllSpace(d: Dialect, s: string) {
    forall i | 0 <= i < |s| :: IsSpace(d, s[i])
  }

  predicate Trimmed(d: Dialect, s: string) {
    s == "" || (!IsSpace(d, s[0]) && !IsSpace(d, s[|s| - 1]))
  }

  /** Trimming cuts a window out of the text, with nothing but white space outside it. */
  lemma TrimWindow(d: Dialect, s: string) returns (a: nat, b: nat)
    ensures a <= b <= |s| && Trim(d, s) == s[a..b]
    ensures forall i | 0 <= i < a :: IsSpace(d, s[i])
    ensures forall i | b <= i < |s| :: IsSpace(d, s[i])
    ensures a < b ==> !IsSpace(d, s[a]) && !IsSpace(d, s[b - 1])
  {
    a := TrimLeftWindow(d, s);
    var t := s[a..];
    var n := TrimRightWindow(d, t);
    b := a + n;
    assert s[a..b] == t[..n];
    assert forall i | b <= i < |s| :: s[i] == t[i - a];
  }

  lemma {:induction false} TrimLeftWindow(d: Dialect, s: string) returns (a: nat)
    ensures a <= |s| && TrimLeft(d, s) == s[a..]
    ensures forall i | 0 <= i < a :: IsSpace(d, s[i])
    ensures a < |s| ==> !IsSpace(d, s[a])
  {
    if s != [] && IsSpace(d, s[0]) {
      var t := s[1..];
      var n := TrimLeftWindow(d, t);
      a := n + 1;
      assert t[n..] == s[a..];
      assert forall i | 0 < i < a :: s[i] == t[i - 1];
    } else {
      a := 0;
    }
  }

  lemma {:induction false} TrimRightWindow(d: Dialect, s: string) returns (b: nat)
    ensures b <= |s| && TrimRight(d, s) == s[..b]
    ensures forall i | b <= i < |s| :: IsSpace(d, s[i])
    ensures 0 < b ==> !IsSpace(d, s[b - 1])
  {
    if s != [] && IsSpace(d, s[|s| - 1]) {
      var t := s[..|s| - 1];
      b := TrimRightWindow(d, t);
      assert t[..b] == s[..b];
      assert forall i | b <= i < |t| :: s[i] == t[i];
    } else {
      b := |s|;
    }
  }

  /** Trimming is determined by its window: padding of white space around a trimmed text goes away. */
  lemma TrimPadded(d: Dialect, pre: string, t: string, post: string)
    requires AllSpace(d, pre) && AllSpace(d, post) && Trimmed(d, t)
    ensures Trim(d, pre + t + post) == t
  {
    hide Trim, IsSpace;
    var s := pre + t + post;
    var a, b := TrimWindow(d, s);
    var lo, hi := |pre|, |pre| + |t|;
    assert forall i | 0 <= i < lo :: s[i] == pre[i];
    assert forall i | hi <= i < |s| :: s[i] == post[i - hi];
    assert t != "" ==> s[lo] == t[0] && s[hi - 1] == t[|t| - 1];
    assert s[lo..hi] == t;
    assert t == "" ==> a == b;
    assert t != "" ==> a == lo && b == hi;
  }

  lemma TrimIdentity(d: Dialect, s: string)
    ensures Trim(d, s) == s <==> Trimmed(d, s)
    ensures Trimmed(d, Trim(d, s))
    ensures Trim(d, s) == "" <==> AllSpace(d, s)
  {
    hide Trim, IsSpace;
    var a, b := TrimWindow(d, s);
    if Trimmed(d, s) {
      TrimPadded(d, "", s, "");
      assert "" + s + "" == s;
    }
  }

  lemma LowerAt(d: Dialect, s: string)
    ensures forall i | 0 <= i < |s| :: IsSpace(d, Lower(d, s)[i]) <==> IsSpace(d, s[i])
  {
    forall i | 0 <= i < |s| ensures IsSpace(d, Lower(d, s)[i]) <==> IsSpace(d, s[i]) {
      FoldProperties(d, s[i]);
    }
  }

  lemma LowerKeepsShape(d: Dialect, s: string)
    ensures Trimmed(d, Lower(d, s)) <==> Trimmed(d, s)
    ensures AllSpace(d, Lower(d, s)) <==> AllSpace(d, s)
  {
    LowerAt(d, s);
  }

  lemma LowerConcat(d: Dialect, s: string, t: string)
    ensures Lower(d, s + t) == Lower(d, s) + Lower(d, t)
  {
    hide Fold;
  }

  /** Trimming and lower-casing commute. */
  lemma TrimLower(d: Dialect, s: string)
    ensures Trim(d, Lower(d, s)) == Lower(d, Trim(d, s))
  {
    hide Trim, IsSpace, Fold;
    var a, b := TrimWindow(d, s);
    var pre, t, post := s[..a], s[a..b], s[b..];
    assert AllSpace(d, pre) && Trimmed(d, t) && AllSpace(d, post);
    LowerKeepsShape(d, pre);
    LowerKeepsShape(d, t);
    LowerKeepsShape(d, post);
    LowerConcat(d, pre, t);
    LowerConcat(d, pre + t, post);
    assert s == pre + t + post;
    hide Lower, AllSpace, Trimmed;
    TrimPadded(d, Lower(d, pre), Lower(d, t), Lower(d, post));
  }

  /** The needle stands at `i`. */
  predicate StandsAt(s: string, t: string, i: nat) {
    i + |t| <= |s| && s[i..i + |t|] == t
  }

  lemma ContainsStands(s: string, t: string)
    ensures Contains(s, t) <==> exists i: nat :: StandsAt(s, t, i)
  {
    if Contains(s, t) {
      var i :| 0 <= i <= |s| - |t| && s[i..][..|t|] == t;
      assert s[i..][..|t|] == s[i..i + |t|];
      assert StandsAt(s, t, i);
    }
    if i: nat :| StandsAt(s, t, i) {
      assert s[i..][..|t|] == s[i..i + |t|];
    }
  }

  lemma SliceOfSlice(s: string, a: nat, b: nat, i: nat, j: nat)
    requires a <= i <= j <= b <= |s|
    ensures s[a..b][i - a..j - a] == s[i..j]
  {
    var w, x, y := s[a..b], s[a..b][i - a..j - a], s[i..j];
    assert forall k | 0 <= k < |y| :: x[k] == w[i - a + k] == s[i + k] == y[k];
  }

  /** A needle without white space at its ends stands in a window cut free of white space, or not at all. */
  lemma StandsInWindow(d: Dialect, s: string, a: nat, b: nat, t: string, i: nat)
    requires a <= b <= |s| && t != "" && Trimmed(d, t) && StandsAt(s, t, i)
    requires forall j | 0 <= j < a :: IsSpace(d, s[j])
    requires forall j | b <= j < |s| :: IsSpace(d, s[j])
    ensures a <= i && i + |t| <= b && StandsAt(s[a..b], t, i - a)
  {
    hide IsSpace;
    var first, last := i, i + |t| - 1;
    assert t[0] == s[first] && t[|t| - 1] == s[last];
    assert a <= first && last < b;
    SliceOfSlice(s, a, b, i, i + |t|);
  }

  /** A trimmed, non-empty needle is found in a text exactly when it is found in the trimmed text. */
  lemma ContainsTrim(d: Dialect, s: string, t: string)
    requires t != "" && Trimmed(d, t)
    ensures Contains(Trim(d, s), t) <==> Contains(s, t)
  {
    hide Trim, IsSpace, Contains, Trimmed;
    var a, b := TrimWindow(d, s);
    var w := s[a..b];
    ContainsStands(s, t);
    ContainsStands(w, t);
    if i: nat :| StandsAt(w, t, i) {
      SliceOfSlice(s, a, b, a + i, a + i + |t|);
      assert StandsAt(s, t, a + i);
    }
    if i: nat :| StandsAt(s, t, i) {
      StandsInWindow(d, s, a, b, t, i);
      assert StandsAt(w, t, i - a);
    }
  }

  /** Trimming twice is trimming once, also for the compared form. */
  lemma NormalizeTrimmed(s: string)
    ensures TrimSpace(TrimSpace(s)) == TrimSpace(s)
    ensures Normalize(TrimSpace(s)) == Normalize(s) == ToLower(TrimSpace(s))
  {
    TrimIdentity(Go, s);
    TrimIdentity(Go, TrimSpace(s));
  }

  lemma NormalizeShape(s: string)
    ensures Trimmed(Go, Normalize(s))
    ensures Normalize(s) == "" <==> TrimSpace(s) == ""
  {
    TrimIdentity(Go, s);
    LowerKeepsShape(Go, TrimSpace(s));
  }

  /** A nullable column's value: blank text is stored as null, other text trimmed. */
  function NullIfEmpty(value: string): Option<string> {
    var trimmed := TrimSpace(value);
    if trimmed == "" then None else Some(trimmed)
  }
}
