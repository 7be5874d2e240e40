/** Normalisation of a transaction description into the pattern of a learned rule. */
module MerchantPatterns {

  const MAX_PATTERN_LENGTH: nat := 200

  /** The character classes normalisation relies on, left to the platform. */
  datatype Alphabet = Alphabet(lower: char -> string, isAlpha: char -> bool, isSpace: char -> bool)

  function Transliterate(c: char): string {
    match c
    case 'ø' => "oe"
    case 'æ' => "ae"
    case 'å' => "aa"
    case _ => [c]
  }

  function Spell(s: string): string {
    if s == [] then [] else Transliterate(s[0]) + Spell(s[1..])
  }

  /** Lower case and Danish transliteration, character by character. */
  function MatchForm(a: Alphabet, s: string): string {
    if s == [] then [] else Spell(a.lower(s[0])) + MatchForm(a, s[1..])
  }

  /** Cut at every white space character; empty pieces fall to the letter filter. */
  function Split(a: Alphabet, s: string): (r: seq<string>)
    ensures |r| >= 1
  {
    if s == [] then [[]]
    else
      var rest := Split(a, s[1..]);
      if a.isSpace(s[0]) then [[]] + rest else [[s[0]] + rest[0]] + rest[1..]
  }

  predicate HasLetter(a: Alphabet, s: string) { exists i :: 0 <= i < |s| && a.isAlpha(s[i]) }

  function Lettered(a: Alphabet, tokens: seq<string>): seq<string> {
    if tokens == [] then []
    else (if HasLetter(a, tokens[0]) then [tokens[0]] else []) + Lettered(a, tokens[1..])
  }

  function Join(tokens: seq<string>): string {
    if tokens == [] then [] else if |tokens| == 1 then tokens[0] else tokens[0] + " " + Join(tokens[1..])
  }

  function StripLeft(a: Alphabet, s: string): string {
    if s != [] && a.isSpace(s[0]) then StripLeft(a, s[1..]) else s
  }

  function StripRight(a: Alphabet, s: string): string {
    if s != [] && a.isSpace(s[|s| - 1]) then StripRight(a, s[..|s| - 1]) else s
  }

  function LetteredTokens(a: Alphabet, description: string): seq<string> {
    Lettered(a, Split(a, MatchForm(a, description)))
  }

  function Truncate(s: string): string { if |s| <= MAX_PATTERN_LENGTH then s else s[..MAX_PATTERN_LENGTH] }

  /** Raw description to pattern; an empty pattern means nothing can be learned. */
  function NormalizeMerchantPattern(a: Alphabet, description: string): string {
    StripRight(a, StripLeft(a, Truncate(Join(LetteredTokens(a, description)))))
  }

  // ----- spelling -----

  /** The three Danish letters become two each, and nothing else is respelled. */
  lemma DanishLettersAreSpelledOut(c: char)
    ensures Spell("ø") == "oe" && Spell("æ") == "ae" && Spell("å") == "aa"
    ensures c != 'ø' && c != 'æ' && c != 'å' ==> Spell([c]) == [c]
  {
    forall x: char ensures Spell([x]) == Transliterate(x) {
      assert Spell([x]) == Transliterate([x][0]) + Spell([x][1..]);
      assert [x][1..] == [];
    }
  }

  lemma {:induction false} SpellingHasNoDanishLetter(s: string)
    ensures forall c :: c in Spell(s) ==> c != 'ø' && c != 'æ' && c != 'å'
  {
    if s == [] {
    } else {
      SpellingHasNoDanishLetter(s[1..]);
    }
  }

  /** Respelling goes letter by letter: a description with a Danish letter is matched as if it were written out. */
  lemma SpelledOutInPlace(a: Alphabet, x: string, c: char, y: string)
    requires a.lower(c) == [c]
    ensures MatchForm(a, x + [c] + y) == MatchForm(a, x) + Spell([c]) + MatchForm(a, y)
  {
    MatchFormConcat(a, x + [c], y);
    MatchFormConcat(a, x, [c]);
    assert [c][1..] == [];
    assert MatchForm(a, [c]) == Spell(a.lower(c)) + MatchForm(a, []);
  }

  lemma {:induction false} StripsShorten(a: Alphabet, s: string)
    ensures |StripLeft(a, s)| <= |s| && |StripRight(a, s)| <= |s|
    decreases |s|
  {
    if s == [] {
    } else {
      StripsShorten(a, s[1..]);
      StripsShorten(a, s[..|s| - 1]);
    }
  }

  /** A pattern fits the rules table. */
  lemma PatternsFit(a: Alphabet, description: string)
    ensures |NormalizeMerchantPattern(a, description)| <= 200
  {
    var cut := Truncate(Join(LetteredTokens(a, description)));
    StripsShorten(a, cut);
    StripsShorten(a, StripLeft(a, cut));
  }

  // ----- letterless tokens do not matter -----

  lemma {:induction false} MatchFormConcat(a: Alphabet, x: string, y: string)
    ensures MatchForm(a, x + y) == MatchForm(a, x) + MatchForm(a, y)
  {
    if x == [] {
      assert x + y == y;
    } else {
      assert (x + y)[1..] == x[1..] + y;
      MatchFormConcat(a, x[1..], y);
    }
  }

  lemma {:induction false} SplitAtSpace(a: Alphabet, x: string, sp: char, y: string)
    requires a.isSpace(sp)
    ensures Split(a, x + [sp] + y) == Split(a, x) + Split(a, y)
  {
    if x == [] {
      assert x + [sp] + y == [sp] + y;
      assert ([sp] + y)[1..] == y;
    } else {
      assert (x + [sp] + y)[1..] == x[1..] + [sp] + y;
      SplitAtSpace(a, x[1..], sp, y);
    }
  }

  lemma {:induction false} LetteredConcat(a: Alphabet, s: seq<string>, t: seq<string>)
    ensures Lettered(a, s + t) == Lettered(a, s) + Lettered(a, t)
  {
    if s == [] {
      assert s + t == t;
    } else {
      assert (s + t)[1..] == s[1..] + t;
      LetteredConcat(a, s[1..], t);
    }
  }

  lemma {:induction false} LetterlessText(a: Alphabet, s: string)
    requires !HasLetter(a, s)
    ensures Lettered(a, Split(a, s)) == []
    ensures forall i :: 0 <= i < |Split(a, s)| ==> !HasLetter(a, Split(a, s)[i])
  {
    if s == [] {
    } else {
      forall i | 0 <= i < |s[1..]| ensures !a.isAlpha(s[1..][i]) { assert s[i + 1] == s[1..][i]; }
      LetterlessText(a, s[1..]);
      var rest := Split(a, s[1..]);
      var r := Split(a, s);
      assert forall i :: 0 <= i < |r| ==> !HasLetter(a, r[i]);
      NoneLettered(a, r);
    }
  }

  lemma {:induction false} NoneLettered(a: Alphabet, tokens: seq<string>)
    requires forall i :: 0 <= i < |tokens| ==> !HasLetter(a, tokens[i])
    ensures Lettered(a, tokens) == []
  {
    if tokens == [] {
    } else {
      NoneLettered(a, tokens[1..]);
    }
  }

  /** Words with white space between them. */
  function Weave(words: seq<string>, gaps: string): string
    requires |words| == |gaps| + 1
  {
    if gaps == [] then words[0] else words[0] + [gaps[0]] + Weave(words[1..], gaps[1..])
  }

  ghost predicate IsGap(a: Alphabet, c: char) { a.isSpace(c) && a.lower(c) == [c] && Transliterate(c) == [c] }

  ghost predicate AreGaps(a: Alphabet, gaps: string) { forall c :: c in gaps ==> IsGap(a, c) }

  /** The words that have a letter, in order. */
  function KeepLettered(a: Alphabet, words: seq<string>): seq<string> {
    if words == [] then []
    else (if HasLetter(a, MatchForm(a, words[0])) then [words[0]] else []) + KeepLettered(a, words[1..])
  }

  /** The tokens of several texts, one after the other. */
  function TokensOf(a: Alphabet, words: seq<string>): seq<string> {
    if words == [] then [] else LetteredTokens(a, words[0]) + TokensOf(a, words[1..])
  }

  lemma TokensAtGap(a: Alphabet, x: string, sp: char, y: string)
    requires IsGap(a, sp)
    ensures LetteredTokens(a, x + [sp] + y) == LetteredTokens(a, x) + LetteredTokens(a, y)
  {
    SpaceForm(a, sp);
    MatchFormConcat(a, x + [sp], y);
    MatchFormConcat(a, x, [sp]);
    SplitAtSpace(a, MatchForm(a, x), sp, MatchForm(a, y));
    LetteredConcat(a, Split(a, MatchForm(a, x)), Split(a, MatchForm(a, y)));
  }

  lemma {:induction false} WovenTokens(a: Alphabet, words: seq<string>, gaps: string)
    requires |words| == |gaps| + 1 && AreGaps(a, gaps)
    ensures LetteredTokens(a, Weave(words, gaps)) == TokensOf(a, words)
  {
    if gaps == [] {
      assert words[1..] == [];
    } else {
      WovenTokens(a, words[1..], gaps[1..]);
      TokensAtGap(a, words[0], gaps[0], Weave(words[1..], gaps[1..]));
    }
  }

  lemma {:induction false} LetterlessWordsHaveNoTokens(a: Alphabet, words: seq<string>)
    ensures TokensOf(a, words) == TokensOf(a, KeepLettered(a, words))
  {
    if words == [] {
    } else {
      LetterlessWordsHaveNoTokens(a, words[1..]);
      var rest := KeepLettered(a, words[1..]);
      if HasLetter(a, MatchForm(a, words[0])) {
        assert ([words[0]] + rest)[1..] == rest;
      } else {
        LetterlessText(a, MatchForm(a, words[0]));
        assert KeepLettered(a, words) == rest;
      }
    }
  }

  /** Descriptions that differ only in letterless words, such as card numbers and dates, wherever they stand, and in
      white space have the same pattern. */
  lemma OnlyLetteredWordsMatter(a: Alphabet, words: seq<string>, gaps: string, words': seq<string>, gaps': string)
    requires |words| == |gaps| + 1 && |words'| == |gaps'| + 1 && AreGaps(a, gaps) && AreGaps(a, gaps')
    requires KeepLettered(a, words) == KeepLettered(a, words')
    ensures NormalizeMerchantPattern(a, Weave(words, gaps)) == NormalizeMerchantPattern(a, Weave(words', gaps'))
  {
    WovenTokens(a, words, gaps);
    WovenTokens(a, words', gaps');
    LetterlessWordsHaveNoTokens(a, words);
    LetterlessWordsHaveNoTokens(a, words');
  }

  lemma SpaceForm(a: Alphabet, sp: char)
    requires a.lower(sp) == [sp] && Transliterate(sp) == [sp]
    ensures MatchForm(a, [sp]) == [sp]
  {
    assert [sp][1..] == [];
    assert Spell([sp]) == Transliterate(sp) + Spell([]);
  }

  /** A description without any letter is unlearnable. */
  lemma LetterlessIsUnlearnable(a: Alphabet, description: string)
    requires !HasLetter(a, MatchForm(a, description))
    ensures NormalizeMerchantPattern(a, description) == ""
  {
    LetterlessText(a, MatchForm(a, description));
  }
}
