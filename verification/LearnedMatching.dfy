/**
  Does a learned pattern match the very description it was learned from? The rule engine looks for the
  pattern inside the normalised description; normalisation drops letterless tokens and squeezes white space,
  so the pattern is found exactly when nothing was dropped or squeezed between two lettered words.
*/
module LearnedMatching {
  import opened MerchantPatterns

  // ----- what the engine does -----

  ghost predicate Contains(text: string, keyword: string) { exists u: string, v: string :: text == u + keyword + v }

  /** The engine normalises keyword and description alike. */
  ghost predicate Matches(a: Alphabet, keyword: string, description: string) {
    Contains(MatchForm(a, description), MatchForm(a, keyword))
  }

  /** Normalising again leaves the character alone. */
  ghost predicate Settled(a: Alphabet, c: char) { a.lower(c) == [c] && Transliterate(c) == [c] }

  /** Blank is white space, no white space is a letter, and lower case transliterated text is stable. */
  ghost predicate Sane(a: Alphabet) {
    && a.isSpace(' ') && Settled(a, ' ')
    && (forall c: char :: a.isSpace(c) ==> !a.isAlpha(c))
    && forall c: char, x: char :: x in Spell(a.lower(c)) ==> Settled(a, x)
  }

  // ----- the condition -----

  /** The white space of a text, in order: what separates its tokens. */
  function Gaps(a: Alphabet, s: string): string {
    if s == [] then [] else (if a.isSpace(s[0]) then [s[0]] else []) + Gaps(a, s[1..])
  }

  /** The first n lettered tokens stand side by side from the k-th token on, one blank between neighbours. */
  ghost predicate SideBySide(a: Alphabet, s: string, k: nat, n: nat) {
    var tokens, words := Split(a, s), Lettered(a, Split(a, s));
    && n <= |words| && k + n <= |tokens| == |Gaps(a, s)| + 1
    && tokens[k..k + n] == words[..n]
    && forall i :: k <= i < k + n - 1 ==> Gaps(a, s)[i] == ' '
  }

  /** All lettered tokens do. */
  ghost predicate Tight(a: Alphabet, s: string) { exists k :: SideBySide(a, s, k, |Lettered(a, Split(a, s))|) }

  /** Those that the length bound leaves in the pattern do. */
  ghost predicate TightToTheCut(a: Alphabet, s: string) {
    exists k: nat, n: nat :: SideBySide(a, s, k, n) && |Join(Lettered(a, Split(a, s))[..n])| >= MAX_PATTERN_LENGTH
  }

  // ----- splitting and weaving back -----

  lemma {:induction false} GapsCount(a: Alphabet, s: string)
    ensures |Split(a, s)| == |Gaps(a, s)| + 1
  {
    if s == [] {
    } else {
      GapsCount(a, s[1..]);
    }
  }

  lemma {:induction false} GapsConcat(a: Alphabet, x: string, y: string)
    ensures Gaps(a, x + y) == Gaps(a, x) + Gaps(a, y)
  {
    if x == [] {
      assert x + y == y;
    } else {
      assert (x + y)[1..] == x[1..] + y;
      GapsConcat(a, x[1..], y);
    }
  }

  lemma {:induction false} WeaveSplit(a: Alphabet, s: string)
    ensures |Split(a, s)| == |Gaps(a, s)| + 1 && Weave(Split(a, s), Gaps(a, s)) == s
  {
    GapsCount(a, s);
    if s == [] {
    } else {
      WeaveSplit(a, s[1..]);
      var tokens, gaps := Split(a, s[1..]), Gaps(a, s[1..]);
      if a.isSpace(s[0]) {
        assert ([[]] + tokens)[1..] == tokens && ([s[0]] + gaps)[1..] == gaps;
      } else {
        assert Gaps(a, s) == gaps;
        PrependToFirst(tokens, gaps, s[0]);
      }
      assert s == [s[0]] + s[1..];
    }
  }

  lemma PrependToFirst(tokens: seq<string>, gaps: string, c: char)
    requires |tokens| == |gaps| + 1
    ensures Weave([[c] + tokens[0]] + tokens[1..], gaps) == [c] + Weave(tokens, gaps)
  {
    assert ([[c] + tokens[0]] + tokens[1..])[1..] == tokens[1..];
  }

  /** Two token lists whose texts are put together share the token at the seam. */
  function Glue(s: seq<string>, t: seq<string>): (r: seq<string>)
    requires s != [] && t != []
    ensures |r| == |s| + |t| - 1
  {
    s[..|s| - 1] + [s[|s| - 1] + t[0]] + t[1..]
  }

  lemma GlueAfterGap(s: seq<string>, t: seq<string>)
    requires s != [] && t != []
    ensures Glue([[]] + s, t) == [[]] + Glue(s, t)
  {
    assert ([[]] + s)[..|s|] == [[]] + s[..|s| - 1];
  }

  lemma GlueIntoFirst(s: seq<string>, t: seq<string>, c: char)
    requires s != [] && t != []
    ensures Glue([[c] + s[0]] + s[1..], t) == [[c] + Glue(s, t)[0]] + Glue(s, t)[1..]
  {
    var s' := [[c] + s[0]] + s[1..];
    if |s| == 1 {
      assert s' == [[c] + s[0]];
      assert [c] + s[0] + t[0] == [c] + (s[0] + t[0]);
    } else {
      assert s'[..|s| - 1] == [[c] + s[0]] + s[1..|s| - 1];
      assert s[..|s| - 1][1..] == s[1..|s| - 1];
    }
  }

  lemma {:induction false} SplitConcat(a: Alphabet, x: string, y: string)
    ensures Split(a, x + y) == Glue(Split(a, x), Split(a, y))
  {
    var t := Split(a, y);
    if x == [] {
      assert x + y == y;
      assert [] + t[0] == t[0];
      assert [t[0]] + t[1..] == t;
    } else {
      assert (x + y)[1..] == x[1..] + y && (x + y)[0] == x[0];
      SplitConcat(a, x[1..], y);
      GlueAfterGap(Split(a, x[1..]), t);
      GlueIntoFirst(Split(a, x[1..]), t, x[0]);
    }
  }

  // ----- tight texts contain their pattern -----

  /** Woven with blanks between its first words, a text begins with their join. */
  lemma {:induction false} WeaveBegins(tokens: seq<string>, gaps: string, n: nat) returns (v: string)
    requires |tokens| == |gaps| + 1 && 1 <= n <= |tokens| && forall i :: 0 <= i < n - 1 ==> gaps[i] == ' '
    ensures Weave(tokens, gaps) == Join(tokens[..n]) + v
  {
    if n == 1 {
      v := if gaps == [] then [] else [gaps[0]] + Weave(tokens[1..], gaps[1..]);
      assert tokens[..1] == [tokens[0]];
    } else {
      v := WeaveBegins(tokens[1..], gaps[1..], n - 1);
      assert tokens[..n][1..] == tokens[1..][..n - 1];
      assert [gaps[0]] == " ";
    }
  }

  lemma {:induction false} WeaveContains(
    tokens: seq<string>, gaps: string, k: nat, n: nat) returns (u: string, v: string)
    requires |tokens| == |gaps| + 1 && 1 <= n && k + n <= |tokens| && forall i :: k <= i < k + n - 1 ==> gaps[i] == ' '
    ensures Weave(tokens, gaps) == u + Join(tokens[k..k + n]) + v
  {
    if k == 0 {
      v := WeaveBegins(tokens, gaps, n);
      u := [];
      assert tokens[0..n] == tokens[..n];
    } else {
      u, v := WeaveContains(tokens[1..], gaps[1..], k - 1, n);
      assert tokens[1..][k - 1..k - 1 + n] == tokens[k..k + n];
      var rest := Join(tokens[k..k + n]);
      assert tokens[0] + [gaps[0]] + (u + rest + v) == (tokens[0] + [gaps[0]] + u) + rest + v;
      u := tokens[0] + [gaps[0]] + u;
    }
  }

  lemma SideBySideContainsJoin(a: Alphabet, s: string, k: nat, n: nat)
    requires SideBySide(a, s, k, n)
    ensures Contains(s, Join(Lettered(a, Split(a, s))[..n]))
  {
    var words := Lettered(a, Split(a, s))[..n];
    if n == 0 {
      assert s == [] + Join(words) + s;
    } else {
      WeaveSplit(a, s);
      var u, v := WeaveContains(Split(a, s), Gaps(a, s), k, n);
      assert s == u + Join(words) + v;
    }
  }

  lemma TightContainsJoin(a: Alphabet, s: string)
    requires Tight(a, s)
    ensures Contains(s, Join(Lettered(a, Split(a, s))))
  {
    var words := Lettered(a, Split(a, s));
    var k :| SideBySide(a, s, k, |words|);
    SideBySideContainsJoin(a, s, k, |words|);
    assert words[..|words|] == words;
  }

  lemma {:induction false} JoinBegins(words: seq<string>, n: nat) returns (v: string)
    requires n <= |words|
    ensures Join(words) == Join(words[..n]) + v
  {
    if n == 0 {
      v := Join(words);
    } else if n == |words| {
      v := [];
      assert words[..n] == words;
    } else if n == 1 {
      v := " " + Join(words[1..]);
      assert words[..1] == [words[0]];
    } else {
      v := JoinBegins(words[1..], n - 1);
      assert words[..n][1..] == words[1..][..n - 1];
    }
  }

  lemma TightToTheCutContains(a: Alphabet, s: string)
    requires TightToTheCut(a, s)
    ensures Contains(s, Truncate(Join(Lettered(a, Split(a, s)))))
  {
    var words := Lettered(a, Split(a, s));
    var k: nat, n: nat :| SideBySide(a, s, k, n) && |Join(words[..n])| >= MAX_PATTERN_LENGTH;
    SideBySideContainsJoin(a, s, k, n);
    var v := JoinBegins(words, n);
    var begin := Join(words[..n]);
    var cut := begin[..MAX_PATTERN_LENGTH];
    assert begin == [] + cut + begin[MAX_PATTERN_LENGTH..];
    ContainsTransitive(s, begin, cut);
    assert Truncate(Join(words)) == cut;
  }

  // ----- and only they do -----

  lemma {:induction false} TokensAreSolid(a: Alphabet, s: string)
    ensures forall t, c :: t in Split(a, s) && c in t ==> c in s && !a.isSpace(c)
  {
    if s == [] {
    } else {
      TokensAreSolid(a, s[1..]);
      var rest := Split(a, s[1..]);
      forall t, c | t in Split(a, s) && c in t ensures c in s && !a.isSpace(c) {
        assert rest[0] in rest && forall x :: x in rest[1..] ==> x in rest;
        assert forall x :: x in s[1..] ==> x in s;
      }
    }
  }

  lemma {:induction false} WordsAreTokens(a: Alphabet, tokens: seq<string>)
    ensures forall t :: t in Lettered(a, tokens) ==> t in tokens && HasLetter(a, t)
    ensures |Lettered(a, tokens)| <= |tokens|
    ensures |Lettered(a, tokens)| == |tokens| ==> Lettered(a, tokens) == tokens
  {
    if tokens == [] {
    } else {
      WordsAreTokens(a, tokens[1..]);
    }
  }

  lemma {:induction false} SolidHasNoGaps(a: Alphabet, s: string)
    requires forall c :: c in s ==> !a.isSpace(c)
    ensures Gaps(a, s) == []
  {
    if s == [] {
    } else {
      SolidHasNoGaps(a, s[1..]);
    }
  }

  lemma {:induction false} JoinGaps(a: Alphabet, words: seq<string>)
    requires a.isSpace(' ') && words != [] && forall t, c :: t in words && c in t ==> !a.isSpace(c)
    ensures |Gaps(a, Join(words))| == |words| - 1 && forall c :: c in Gaps(a, Join(words)) ==> c == ' '
  {
    assert words[0] in words;
    SolidHasNoGaps(a, words[0]);
    if |words| > 1 {
      JoinGaps(a, words[1..]);
      GapsConcat(a, words[0] + " ", Join(words[1..]));
      GapsConcat(a, words[0], " ");
      assert Gaps(a, " ") == " ";
    }
  }

  function Letters(a: Alphabet, s: string): nat {
    if s == [] then 0 else (if a.isAlpha(s[0]) then 1 else 0) + Letters(a, s[1..])
  }

  lemma {:induction false} LettersConcat(a: Alphabet, x: string, y: string)
    ensures Letters(a, x + y) == Letters(a, x) + Letters(a, y)
  {
    if x == [] {
      assert x + y == y;
    } else {
      assert (x + y)[1..] == x[1..] + y;
      LettersConcat(a, x[1..], y);
    }
  }

  lemma {:induction false} LetterlessIff(a: Alphabet, s: string)
    ensures Letters(a, s) == 0 <==> !HasLetter(a, s)
  {
    if s == [] {
    } else {
      LetterlessIff(a, s[1..]);
      if HasLetter(a, s[1..]) {
        var i :| 0 <= i < |s[1..]| && a.isAlpha(s[1..][i]);
        assert a.isAlpha(s[i + 1]);
      }
      if HasLetter(a, s) && !a.isAlpha(s[0]) {
        var i :| 0 <= i < |s| && a.isAlpha(s[i]);
        assert a.isAlpha(s[1..][i - 1]);
      }
    }
  }

  function TokenLetters(a: Alphabet, tokens: seq<string>): nat {
    if tokens == [] then 0 else Letters(a, tokens[0]) + TokenLetters(a, tokens[1..])
  }

  /** No letter is white space, so the tokens hold all letters, and so do the lettered ones. */
  lemma {:induction false} SplitKeepsLetters(a: Alphabet, s: string)
    requires forall c :: c in s && a.isSpace(c) ==> !a.isAlpha(c)
    ensures TokenLetters(a, Split(a, s)) == Letters(a, s)
  {
    if s != [] {
      SplitKeepsLetters(a, s[1..]);
      var rest := Split(a, s[1..]);
      if a.isSpace(s[0]) {
        assert s[0] in s;
        assert ([[]] + rest)[1..] == rest;
      } else {
        assert ([[s[0]] + rest[0]] + rest[1..])[1..] == rest[1..];
        assert ([s[0]] + rest[0])[1..] == rest[0];
      }
    } else {
      var one: seq<string> := [[]];
      assert one[1..] == [];
    }
  }

  lemma {:induction false} WordsKeepLetters(a: Alphabet, tokens: seq<string>)
    ensures TokenLetters(a, Lettered(a, tokens)) == TokenLetters(a, tokens)
  {
    if tokens == [] {
    } else {
      WordsKeepLetters(a, tokens[1..]);
      LetterlessIff(a, tokens[0]);
      var rest := Lettered(a, tokens[1..]);
      if HasLetter(a, tokens[0]) {
        assert Lettered(a, tokens) == [tokens[0]] + rest && ([tokens[0]] + rest)[1..] == rest;
      } else {
        assert Lettered(a, tokens) == rest;
      }
    }
  }

  lemma {:induction false} JoinKeepsLetters(a: Alphabet, words: seq<string>)
    requires !a.isAlpha(' ')
    ensures Letters(a, Join(words)) == TokenLetters(a, words)
  {
    if |words| > 1 {
      JoinKeepsLetters(a, words[1..]);
      LettersConcat(a, words[0] + " ", Join(words[1..]));
      LettersConcat(a, words[0], " ");
      assert " "[1..] == "";
    } else if |words| == 1 {
      assert words[1..] == [];
    }
  }

  /** The words hold every letter of the text, so where their join occurs there is none before or after it. */
  lemma LetterlessAround(a: Alphabet, u: string, p: string, v: string)
    requires Sane(a) && p == Join(Lettered(a, Split(a, u + p + v)))
    ensures !HasLetter(a, u) && !HasLetter(a, v)
  {
    var s := u + p + v;
    SplitKeepsLetters(a, s);
    WordsKeepLetters(a, Split(a, s));
    JoinKeepsLetters(a, Lettered(a, Split(a, s)));
    LettersConcat(a, u + p, v);
    LettersConcat(a, u, p);
    LetterlessIff(a, u);
    LetterlessIff(a, v);
  }

  /** Tokens wholly before or wholly after the middle of three texts are letterless when the outer texts are. */
  lemma OuterTokens(a: Alphabet, u: string, p: string, v: string, n: nat)
    requires !HasLetter(a, u) && !HasLetter(a, v) && n == |Gaps(a, p)| + 1
    ensures
      var tokens, k := Split(a, u + p + v), |Gaps(a, u)|;
      && k + n <= |tokens|
      && Lettered(a, tokens[..k]) == [] && Lettered(a, tokens[k + n..]) == []
  {
    var tokens, k := Split(a, u + p + v), |Gaps(a, u)|;
    GapsCount(a, u);
    GapsCount(a, p);
    GapsCount(a, v);
    SplitConcat(a, u + p, v);
    SplitConcat(a, u, p);
    var front, back := Split(a, u), Split(a, v);
    assert tokens[..k] == front[..k];
    assert tokens[k + n..] == back[1..];
    LetterlessText(a, u);
    LetterlessText(a, v);
    NoneLettered(a, front[..k]);
    NoneLettered(a, back[1..]);
  }

  lemma MiddleIsAllWords(a: Alphabet, tokens: seq<string>, k: nat, n: nat)
    requires k + n <= |tokens| && Lettered(a, tokens[..k]) == [] && Lettered(a, tokens[k + n..]) == []
    ensures Lettered(a, tokens) == Lettered(a, tokens[k..k + n])
  {
    assert tokens == tokens[..k] + tokens[k..k + n] + tokens[k + n..];
    LetteredConcat(a, tokens[..k] + tokens[k..k + n], tokens[k + n..]);
    LetteredConcat(a, tokens[..k], tokens[k..k + n]);
  }

  lemma GapsInTheMiddle(a: Alphabet, u: string, p: string, v: string, i: int)
    requires |Gaps(a, u)| <= i < |Gaps(a, u)| + |Gaps(a, p)|
    ensures i < |Gaps(a, u + p + v)| && Gaps(a, u + p + v)[i] == Gaps(a, p)[i - |Gaps(a, u)|]
  {
    GapsConcat(a, u + p, v);
    GapsConcat(a, u, p);
  }

  lemma WordGaps(a: Alphabet, s: string)
    requires a.isSpace(' ') && Lettered(a, Split(a, s)) != []
    ensures
      var words := Lettered(a, Split(a, s));
      |Gaps(a, Join(words))| == |words| - 1 && forall c :: c in Gaps(a, Join(words)) ==> c == ' '
  {
    TokensAreSolid(a, s);
    WordsAreTokens(a, Split(a, s));
    JoinGaps(a, Lettered(a, Split(a, s)));
  }

  lemma FoundSideBySide(a: Alphabet, u: string, p: string, v: string)
    requires Sane(a) && Lettered(a, Split(a, u + p + v)) != [] && p == Join(Lettered(a, Split(a, u + p + v)))
    ensures SideBySide(a, u + p + v, |Gaps(a, u)|, |Lettered(a, Split(a, u + p + v))|)
  {
    var s := u + p + v;
    var tokens := Split(a, s);
    var words, k := Lettered(a, tokens), |Gaps(a, u)|;
    WordGaps(a, s);
    assert !HasLetter(a, u) && !HasLetter(a, v) by { LetterlessAround(a, u, p, v); }
    WindowIsWords(a, u, p, v, |words|);
    GapsCount(a, s);
    forall i | k <= i < k + |words| - 1 ensures Gaps(a, s)[i] == ' ' {
      GapsInTheMiddle(a, u, p, v, i);
      assert Gaps(a, p)[i - k] in Gaps(a, p);
    }
  }

  lemma OnlyWindowLettered(a: Alphabet, tokens: seq<string>, k: nat, n: nat)
    requires k + n <= |tokens| && Lettered(a, tokens[..k]) == [] && Lettered(a, tokens[k + n..]) == [] &&
        |Lettered(a, tokens)| == n
    ensures tokens[k..k + n] == Lettered(a, tokens)
  {
    MiddleIsAllWords(a, tokens, k, n);
    WordsAreTokens(a, tokens[k..k + n]);
  }

  lemma WindowIsWords(a: Alphabet, u: string, p: string, v: string, n: nat)
    requires !HasLetter(a, u) && !HasLetter(a, v)
    requires n == |Lettered(a, Split(a, u + p + v))| == |Gaps(a, p)| + 1
    ensures
      var tokens, k := Split(a, u + p + v), |Gaps(a, u)|;
      k + n <= |tokens| && tokens[k..k + n] == Lettered(a, tokens)
  {
    OuterTokens(a, u, p, v, n);
    OnlyWindowLettered(a, Split(a, u + p + v), |Gaps(a, u)|, n);
  }

  lemma JoinFoundIsTight(a: Alphabet, s: string)
    requires Sane(a) && Contains(s, Join(Lettered(a, Split(a, s))))
    ensures Tight(a, s)
  {
    var words := Lettered(a, Split(a, s));
    if words == [] {
      GapsCount(a, s);
      assert SideBySide(a, s, 0, 0);
    } else {
      var u: string, v: string :| s == u + Join(words) + v;
      FoundSideBySide(a, u, Join(words), v);
    }
  }

  // ----- from the join to the pattern -----

  lemma {:induction false} StripLeftIsPiece(a: Alphabet, s: string)
    ensures Contains(s, StripLeft(a, s))
  {
    assert s == [] + s + [];
    if s != [] && a.isSpace(s[0]) {
      StripLeftIsPiece(a, s[1..]);
      var u: string, v: string :| s[1..] == u + StripLeft(a, s[1..]) + v;
      assert s == ([s[0]] + u) + StripLeft(a, s) + v;
    }
  }

  lemma {:induction false} StripRightIsPiece(a: Alphabet, s: string)
    ensures Contains(s, StripRight(a, s))
  {
    assert s == [] + s + [];
    if s != [] && a.isSpace(s[|s| - 1]) {
      var n := |s| - 1;
      StripRightIsPiece(a, s[..n]);
      var u: string, v: string :| s[..n] == u + StripRight(a, s[..n]) + v;
      assert s == u + StripRight(a, s) + (v + [s[n]]);
    }
  }

  lemma ContainsTransitive(s: string, t: string, p: string)
    requires Contains(s, t) && Contains(t, p)
    ensures Contains(s, p)
  {
    var u: string, v: string :| s == u + t + v;
    var x: string, y: string :| t == x + p + y;
    assert s == (u + x) + p + (y + v);
  }

  lemma PatternIsPiece(a: Alphabet, description: string)
    ensures Contains(Join(LetteredTokens(a, description)), NormalizeMerchantPattern(a, description))
    ensures Contains(Truncate(Join(LetteredTokens(a, description))), NormalizeMerchantPattern(a, description))
  {
    var joined := Join(LetteredTokens(a, description));
    var cut := Truncate(joined);
    assert joined == [] + cut + joined[|cut|..];
    StripLeftIsPiece(a, cut);
    StripRightIsPiece(a, StripLeft(a, cut));
    ContainsTransitive(cut, StripLeft(a, cut), NormalizeMerchantPattern(a, description));
    ContainsTransitive(joined, cut, NormalizeMerchantPattern(a, description));
  }

  lemma LetteredIsSolid(a: Alphabet, t: string)
    requires HasLetter(a, t) && forall c :: c in t ==> !a.isSpace(c)
    ensures Solid(a, t)
  {
    assert |t| > 0;
    assert t[0] in t && t[|t| - 1] in t;
  }

  ghost predicate Solid(a: Alphabet, s: string) { s != [] && !a.isSpace(s[0]) && !a.isSpace(s[|s| - 1]) }

  lemma {:induction false} JoinIsSolid(a: Alphabet, words: seq<string>)
    requires words != [] && forall t :: t in words ==> Solid(a, t)
    ensures Solid(a, Join(words))
  {
    assert words[0] in words;
    if |words| > 1 { JoinIsSolid(a, words[1..]); }
  }

  /** Nothing is cut or stripped from a pattern within the length bound. */
  lemma ShortPatternIsTheJoin(a: Alphabet, description: string)
    requires |Join(LetteredTokens(a, description))| <= MAX_PATTERN_LENGTH
    ensures NormalizeMerchantPattern(a, description) == Join(LetteredTokens(a, description))
  {
    var s := MatchForm(a, description);
    var words := LetteredTokens(a, description);
    TokensAreSolid(a, s);
    WordsAreTokens(a, Split(a, s));
    forall t | t in words ensures Solid(a, t) {
      assert t in Split(a, s);
      LetteredIsSolid(a, t);
    }
    if words != [] { JoinIsSolid(a, words); }
  }

  // ----- normalising the keyword again -----

  ghost predicate AllSettled(a: Alphabet, s: string) { forall c :: c in s ==> Settled(a, c) }

  lemma {:induction false} FormIsSettled(a: Alphabet, s: string)
    requires Sane(a)
    ensures AllSettled(a, MatchForm(a, s))
  {
    if s == [] {
    } else {
      FormIsSettled(a, s[1..]);
    }
  }

  lemma {:induction false} SettledFormIsItself(a: Alphabet, s: string)
    requires AllSettled(a, s)
    ensures MatchForm(a, s) == s
  {
    if s == [] {
    } else {
      assert s[0] in s;
      SettledFormIsItself(a, s[1..]);
      assert Spell([s[0]]) == Transliterate(s[0]) + Spell([]);
    }
  }

  lemma {:induction false} JoinIsSettled(a: Alphabet, words: seq<string>)
    requires Settled(a, ' ') && forall t :: t in words ==> AllSettled(a, t)
    ensures AllSettled(a, Join(words))
  {
    if words == [] {
    } else {
      assert words[0] in words;
      JoinIsSettled(a, words[1..]);
    }
  }

  lemma PatternFormIsItself(a: Alphabet, description: string)
    requires Sane(a)
    ensures MatchForm(a, NormalizeMerchantPattern(a, description)) == NormalizeMerchantPattern(a, description)
  {
    var s := MatchForm(a, description);
    FormIsSettled(a, description);
    TokensAreSolid(a, s);
    WordsAreTokens(a, Split(a, s));
    JoinIsSettled(a, LetteredTokens(a, description));
    PatternIsPiece(a, description);
    var pattern := NormalizeMerchantPattern(a, description);
    var u: string, v: string :| Join(LetteredTokens(a, description)) == u + pattern + v;
    forall c | c in pattern ensures Settled(a, c) { assert c in u + pattern + v; }
    SettledFormIsItself(a, pattern);
  }

  // ----- theorems -----

  /** The pattern learned from a description matches that description whenever its lettered words, or those the length
      bound leaves, stand side by side; for patterns within the length bound only then. */
  lemma LearnedPatternMatchesItsDescription(a: Alphabet, description: string)
    requires Sane(a)
    ensures
      var pattern := NormalizeMerchantPattern(a, description);
      && (Tight(a, MatchForm(a, description)) || TightToTheCut(a, MatchForm(a, description)) ==>
         Matches(a, pattern, description))
      && (|Join(LetteredTokens(a, description))| <= MAX_PATTERN_LENGTH ==>
            (Matches(a, pattern, description) <==> Tight(a, MatchForm(a, description))))
  {
    var s, joined, pattern := MatchForm(a, description), Join(LetteredTokens(a, description)),
        NormalizeMerchantPattern(a, description);
    PatternFormIsItself(a, description);
    PatternIsPiece(a, description);
    if Tight(a, s) {
      TightContainsJoin(a, s);
      ContainsTransitive(s, joined, pattern);
    }
    if TightToTheCut(a, s) {
      TightToTheCutContains(a, s);
      ContainsTransitive(s, Truncate(joined), pattern);
    }
    if |joined| <= MAX_PATTERN_LENGTH && Matches(a, pattern, description) {
      ShortPatternIsTheJoin(a, description);
      JoinFoundIsTight(a, s);
    }
  }

  /** Lower case ASCII. Everything else reads as a full stop. */
  const PLAIN: Alphabet := Alphabet((c: char) => if c < '~' then [c]
    else ".", (c: char) => 'a' <= c <= 'z', (c: char) => c == ' ')

  lemma PlainIsSane()
    ensures Sane(PLAIN) && forall c: char :: c < '~' ==> Settled(PLAIN, c)
  {
    forall c: char | c < '~' ensures Spell([c]) == [c] && Transliterate(c) == [c] {
      assert Spell([c]) == Transliterate(c) + Spell([]);
    }
  }

  ghost predicate IsToken(a: Alphabet, t: string) { AllSettled(a, t) && forall c :: c in t ==> !a.isSpace(c) }

  /** A number between two words: the pattern is the two words, and it is not found in its own description. */
  lemma NumberInTheMiddleIsNeverFound(a: Alphabet, x: string, n: string, y: string)
    requires Sane(a) && IsToken(a, x) && IsToken(a, n) && IsToken(a, y)
    requires HasLetter(a, x) && !HasLetter(a, n) && HasLetter(a, y) && |x| + 1 + |y| <= MAX_PATTERN_LENGTH
    ensures
      var description := x + " " + (n + " " + y);
      var pattern := NormalizeMerchantPattern(a, description);
      pattern == x + " " + y && !Matches(a, pattern, description)
  {
    var description := x + " " + (n + " " + y);
    SettledFormIsItself(a, description);
    ThreeWords(a, x, n, y);
    ThreeTokens(a, x, n, y);
    NumberIsAGap(a, description, x, n, y);
    JoinTwo(x, y);
    ShortPatternIsTheJoin(a, description);
    LearnedPatternMatchesItsDescription(a, description);
  }

  /** The shop name "rema 1000 valby" teaches "rema valby", which is not found in it. */
  lemma RemaValby(x: string, n: string, y: string)
    requires x == "rema" && n == "1000" && y == "valby"
    ensures !Matches(PLAIN, NormalizeMerchantPattern(PLAIN, x + " " + (n + " " + y)), x + " " + (n + " " + y))
  {
    PlainIsSane();
    LetterInside(x, n, y);
    NumberInTheMiddleIsNeverFound(PLAIN, x, n, y);
  }

  lemma LetterInside(x: string, n: string, y: string)
    requires x == "rema" && n == "1000" && y == "valby"
    ensures HasLetter(PLAIN, x) && !HasLetter(PLAIN, n) && HasLetter(PLAIN, y)
  {
    assert PLAIN.isAlpha(x[0]) && PLAIN.isAlpha(y[0]);
  }

  lemma NumberIsAGap(a: Alphabet, s: string, x: string, n: string, y: string)
    requires Split(a, s) == [x, n, y] && Lettered(a, [x, n, y]) == [x, y] && n != y && n != x
    ensures !Tight(a, s)
  {
    var tokens := Split(a, s);
    assert tokens[0..2] == [x, n] && tokens[1..3] == [n, y];
    assert tokens[0..2][1] == n && tokens[1..3][0] == n;
  }

  lemma ThreeWords(a: Alphabet, x: string, n: string, y: string)
    requires a.isSpace(' ') && forall c :: c in x || c in n || c in y ==> !a.isSpace(c)
    ensures Split(a, x + " " + (n + " " + y)) == [x, n, y]
  {
    SplitAtSpace(a, x, ' ', n + " " + y);
    SplitAtSpace(a, n, ' ', y);
    OneToken(a, x);
    OneToken(a, n);
    OneToken(a, y);
  }

  lemma JoinTwo(x: string, y: string)
    ensures Join([x, y]) == x + " " + y
  {
    assert [x, y][1..] == [y];
  }

  lemma {:induction false} OneToken(a: Alphabet, s: string)
    requires forall c :: c in s ==> !a.isSpace(c)
    ensures Split(a, s) == [s]
  {
    if s == [] {
    } else {
      OneToken(a, s[1..]);
      assert [s[0]] + s[1..] == s;
    }
  }

  lemma ThreeTokens(a: Alphabet, x: string, n: string, y: string)
    requires HasLetter(a, x) && !HasLetter(a, n) && HasLetter(a, y)
    ensures Lettered(a, [x, n, y]) == [x, y]
  {
    assert [x, n, y][1..] == [n, y] && [n, y][1..] == [y] && [y][1..] == [];
    assert Lettered(a, [y]) == [y];
    assert Lettered(a, [n, y]) == [y];
  }
}
