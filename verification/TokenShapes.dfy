/** What counts as one token, in any context: a whole word, one Han character, one other visible character. */
module TokenShapes {
  import opened Characters
  import opened Tokenizer

  /** The whitespace characters, one by one. */
  const BLANKS :=
    "\U{9}\U{A}\U{B}\U{C}\U{D}\U{1C}\U{1D}\U{1E}\U{1F}\U{20}\U{85}\U{A0}\U{1680}\U{2000}\U{2001}\U{2002}\U{2003}" +
    "\U{2004}\U{2005}\U{2006}\U{2007}\U{2008}\U{2009}\U{200A}\U{2028}\U{2029}\U{202F}\U{205F}\U{3000}"

  predicate IsWordChar(c: char) { c == '_' || 'a' <= c <= 'z' || 'A' <= c <= 'Z' || '0' <= c <= '9' }

  predicate IsWord(s: string) { s != "" && forall i | 0 <= i < |s| :: IsWordChar(s[i]) }

  lemma Classes(c: char)
    ensures KindOf(c) == Word <==> IsWordChar(c)
    ensures KindOf(c) == Space <==> c in BLANKS
    ensures KindOf(c) == Han <==> '\U{4E00}' <= c <= '\U{9FFF}'
  {}

  lemma {:induction false} RunOfWord(w: string)
    requires forall i | 0 <= i < |w| :: KindOf(w[i]) == Word
    ensures WordRun(w) == |w|
  {
    hide KindOf;
    if w != "" {
      RunOfWord(w[1..]);
    }
  }

  lemma {:induction false} TokensOfWord(w: string)
    requires IsWord(w)
    ensures Tokens(w) == [w]
  {
    forall i | 0 <= i < |w|
      ensures KindOf(w[i]) == Word
    {
      Classes(w[i]);
    }
    hide KindOf, IsWord;
    RunOfWord(w);
    TokensOfEmpty();
    assert w[..|w|] == w && w[|w|..] == "";
  }

  /** No character of the same word follows. */
  predicate NotInWord(before: string, after: string) {
    (before == "" || !IsWordChar(before[|before| - 1])) && (after == "" || !IsWordChar(after[0]))
  }

  lemma {:induction false} TokensAround(a: string, s: string, b: string)
    requires Separable(a, s) && Separable(s, b) && s != ""
    ensures Tokens(a + s + b) == Tokens(a) + Tokens(s) + Tokens(b)
  {
    hide Tokens, KindOf;
    TokensConcat(a, s);
    assert (a + s)[|a + s| - 1] == s[|s| - 1];
    TokensConcat(a + s, b);
  }

  /** A maximal run of word characters is one token, whatever stands around it. */
  lemma {:induction false} WordIsToken(a: string, w: string, b: string)
    requires IsWord(w) && NotInWord(a, b)
    ensures Tokens(a + w + b) == Tokens(a) + [w] + Tokens(b)
  {
    if a != "" {
      Classes(a[|a| - 1]);
    }
    if b != "" {
      Classes(b[0]);
    }
    hide Tokens, KindOf;
    TokensOfWord(w);
    TokensAround(a, w, b);
  }

  lemma {:induction false} TokensOfChar(c: char)
    requires !IsWordChar(c)
    ensures Tokens([c]) == if c in BLANKS then [] else [[c]]
  {
    Classes(c);
    hide IsWordChar, KindOf;
    TokensOfEmpty();
    assert [c][1..] == "" && [c][..1] == [c];
  }

  /** Every other character is a token by itself, a Han character like any other sign, except that whitespace is
      none. */
  lemma {:induction false} SignIsToken(a: string, c: char, b: string)
    requires !IsWordChar(c)
    ensures Tokens(a + [c] + b) == Tokens(a) + (if c in BLANKS then [] else [[c]]) + Tokens(b)
  {
    Classes(c);
    hide Tokens, KindOf, IsWordChar;
    TokensOfChar(c);
    TokensAround(a, [c], b);
  }
}
