/** What it means that a skill stands in a text as a token, and how a found skill is shown. */
module SkillTokens {
  import opened Text
  import opened SkillParser

  predicate IsLetterOrDigit(c: char) {
    'a' <= c <= 'z' || 'A' <= c <= 'Z' || '0' <= c <= '9'
  }

  /** Among ASCII characters everything delimits but letters, digits, plus, hash and dot. */
  lemma AsciiDelimiters(c: char)
    requires c < '\U{0080}'
    ensures IsDelimiter(c) <==> !IsLetterOrDigit(c) && c != '+' && c != '#' && c != '.'
  {
    TokenChars(c);
    forall x | x in TOKEN_CHARS ensures Folds(c, x) <==> AsciiLower(c) == AsciiLower(x) {
      TokenListed(x);
      AsciiFold(c, x);
    }
    hide AsciiLower, TOKEN_CHARS;
  }

  lemma AsciiFold(a: char, b: char)
    requires a < '\U{0080}' && b < '\U{0080}'
    ensures Folds(a, b) <==> AsciiLower(a) == AsciiLower(b)
  {
    assert FoldsCase(Folds);
    hide AsciiLower;
  }

  lemma TokenChars(c: char)
    requires c < '\U{0080}'
    ensures (exists x | x in TOKEN_CHARS :: AsciiLower(c) == AsciiLower(x))
        <==> IsLetterOrDigit(c) || c == '+' || c == '#' || c == '.'
  {
    TokenListed(AsciiLower(c));
    assert forall x | x in TOKEN_CHARS :: AsciiLower(x) == x;
  }

  lemma TokenListed(c: char)
    ensures c in TOKEN_CHARS <==> 'a' <= c <= 'z' || '0' <= c <= '9' || c == '+' || c == '#' || c == '.'
  {
  }

  /** ASCII words fold to each other exactly when they are the same but for case. */
  lemma AsciiFolds(s: string, t: string)
    requires (forall i | 0 <= i < |s| :: s[i] < '\U{0080}') && (forall i | 0 <= i < |t| :: t[i] < '\U{0080}')
    ensures EqualFold(s, t) <==> |s| == |t| && forall i | 0 <= i < |s| :: AsciiLower(s[i]) == AsciiLower(t[i])
  {
    assert FoldsCase(Folds);
  }

  /** The text is cut in three: the word in the middle, and a delimiter or nothing next to it on both sides. */
  ghost predicate CutAround(text: string, pre: string, word: string, post: string) {
    && text == pre + word + post
    && (pre == "" || IsDelimiter(pre[|pre| - 1])) && (post == "" || IsDelimiter(post[0]))
  }

  lemma OccursCut(s: string, t: string, i: nat)
    requires OccursAt(s, t, i)
    ensures CutAround(s, s[..i], s[i..i + |t|], s[i + |t|..]) && EqualFold(s[i..i + |t|], t)
  {
    hide EqualFold, IsDelimiter;
    var pre, post := s[..i], s[i + |t|..];
    assert pre != "" ==> pre[|pre| - 1] == s[i - 1];
    assert post != "" ==> post[0] == s[i + |t|];
  }

  lemma CutOccurs(s: string, t: string, pre: string, word: string, post: string)
    requires CutAround(s, pre, word, post) && EqualFold(word, t)
    ensures OccursAt(s, t, |pre|)
  {
    FoldLength(word, t);
    hide EqualFold, IsDelimiter;
    var i := |pre|;
    assert s[i..i + |t|] == word;
    assert pre != "" ==> s[i - 1] == pre[|pre| - 1];
    assert post != "" ==> s[i + |t|] == post[0];
  }

  lemma MatchesCut(text: string, skill: string) returns (pre: string, word: string, post: string)
    requires Matches(text, skill)
    ensures CutAround(ToLower(text), pre, word, post) && EqualFold(word, ToLower(skill))
  {
    var s, t := ToLower(text), ToLower(skill);
    hide ToLower, EqualFold, IsDelimiter, CutAround, OccursAt;
    var i: nat :| i <= |text| && OccursAt(s, t, i);
    OccursBounds(s, t, i);
    OccursCut(s, t, i);
    pre, word, post := s[..i], s[i..i + |t|], s[i + |t|..];
  }

  lemma CutMatches(text: string, skill: string, pre: string, word: string, post: string)
    requires CutAround(ToLower(text), pre, word, post) && EqualFold(word, ToLower(skill))
    ensures Matches(text, skill)
  {
    var s, t := ToLower(text), ToLower(skill);
    assert |s| == |text|;
    hide ToLower, EqualFold, IsDelimiter, CutAround, OccursAt;
    CutOccurs(s, t, pre, word, post);
    OccursBounds(s, t, |pre|);
  }

  /** A spelling counts for a text exactly when the text can be cut around a word that folds to it. */
  lemma MatchesIff(text: string, skill: string)
    ensures Matches(text, skill) <==>
            exists pre, word, post :: CutAround(ToLower(text), pre, word, post) && EqualFold(word, ToLower(skill))
  {
    hide Matches, ToLower, EqualFold, CutAround;
    if Matches(text, skill) {
      var pre, word, post := MatchesCut(text, skill);
    }
    if pre, word, post :| CutAround(ToLower(text), pre, word, post) && EqualFold(word, ToLower(skill)) {
      CutMatches(text, skill, pre, word, post);
    }
  }

  lemma OccursBounds(s: string, t: string, i: nat)
    requires OccursAt(s, t, i)
    ensures i + |t| <= |s|
  {
  }

  lemma FoldLength(s: string, t: string)
    ensures EqualFold(s, t) ==> |s| == |t|
  {
  }

  // ---- How a skill is shown -------------------------------------------------------------------

  ghost predicate HasCapital(s: string) {
    exists i | 0 <= i < |s| :: 'A' <= s[i] <= 'Z'
  }

  /** A skill that is not in the table is shown as it was spelled, without the padding. */
  lemma OthersShownAsSpelled(skill: string)
    requires Normalize(skill) !in CANONICAL
    ensures Canonical(skill) == TrimSpace(skill)
  {
  }

  lemma Capitals1()
    ensures forall k | k in CANONICAL_1 :: HasCapital(CANONICAL_1[k])
    ensures forall k | k in CANONICAL_2 :: HasCapital(CANONICAL_2[k])
  {
    assert forall k | k in CANONICAL_1 :: 'A' <= CANONICAL_1[k][0] <= 'Z';
    assert forall k | k in CANONICAL_2 :: 'A' <= CANONICAL_2[k][0] <= 'Z';
  }

  lemma Capitals2()
    ensures forall k | k in CANONICAL_3 :: HasCapital(CANONICAL_3[k])
    ensures forall k | k in CANONICAL_4 :: HasCapital(CANONICAL_4[k])
  {
    assert forall k | k in CANONICAL_3 :: 'A' <= CANONICAL_3[k][0] <= 'Z';
    assert forall k | k in CANONICAL_4 :: 'A' <= CANONICAL_4[k][0] <= 'Z' || 'A' <= CANONICAL_4[k][1] <= 'Z';
  }

  lemma Capitals3()
    ensures forall k | k in CANONICAL_5 :: HasCapital(CANONICAL_5[k])
    ensures forall k | k in CANONICAL_6 :: HasCapital(CANONICAL_6[k])
    ensures forall k | k in ALIASES :: HasCapital(ALIASES[k])
  {
    assert forall k | k in CANONICAL_5 :: 'A' <= CANONICAL_5[k][0] <= 'Z';
    assert forall k | k in CANONICAL_6 :: 'A' <= CANONICAL_6[k][0] <= 'Z';
    assert forall k | k in ALIASES :: 'A' <= ALIASES[k][0] <= 'Z';
  }

  /** A skill of the table is shown with capitals, however it was spelled. */
  lemma TableShowsCapitals(skill: string)
    requires Normalize(skill) in CANONICAL
    ensures HasCapital(Canonical(skill))
  {
    Capitals1();
    Capitals2();
    Capitals3();
    hide HasCapital, Normalize;
  }
}
