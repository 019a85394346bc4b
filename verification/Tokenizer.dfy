/**
  The token scanner behind every token count and every token window: one token
  per Han character, one per maximal run of ASCII word characters, one per other
  non-space character.
  */
module Tokenizer {
  import opened Characters

  /** Length of the run of word characters at the head of `s`. */
  function WordRun(s: string): (n: nat)
    ensures n <= |s|
    ensures forall i | 0 <= i < n :: KindOf(s[i]) == Word
    ensures n < |s| ==> KindOf(s[n]) != Word
  {
    if s != "" && KindOf(s[0]) == Word then 1 + WordRun(s[1..]) else 0
  }

  /** Length of the first token of a text that starts with a token. */
  function Munch(s: string): (n: nat)
    requires s != "" && KindOf(s[0]) != Space
    ensures 1 <= n <= |s|
  {
    if KindOf(s[0]) == Word then WordRun(s) else 1
  }

  /** The token texts, in order. */
  function Tokens(s: string): seq<string> {
    if s == "" then []
    else if KindOf(s[0]) == Space then Tokens(s[1..])
    else [s[..Munch(s)]] + Tokens(s[Munch(s)..])
  }

  function TokenCount(s: string): nat { |Tokens(s)| }

  /** Tokens of a list of texts, concatenated. */
  function TokensAll(parts: seq<string>): seq<string> {
    if |parts| == 0 then [] else Tokens(parts[0]) + TokensAll(parts[1..])
  }

  /** A match of the token pattern: the half-open range it occupies. */
  datatype Match = Match(start: nat, end: nat)

  /** The matches in `s[from..]`, as positions in `s`. */
  function Matches(s: string, from: nat): seq<Match>
    requires from <= |s|
    decreases |s| - from
  {
    if from == |s| then []
    else if KindOf(s[from]) == Space then Matches(s, from + 1)
    else
      var end := from + Munch(s[from..]);
      [Match(from, end)] + Matches(s, end)
  }

  // --- Cutting a text between tokens ---------------------------------------

  /** True when cutting between `a` and `b` does not cut a word in two. */
  predicate Separable(a: string, b: string) {
    a == "" || b == "" || KindOf(a[|a| - 1]) != Word || KindOf(b[0]) != Word
  }

  lemma {:induction false} WordRunConcat(a: string, b: string)
    requires Separable(a, b)
    ensures WordRun(a + b) == if a == "" then WordRun(b) else WordRun(a)
  {
    if a == "" {
      assert a + b == b;
    } else {
      assert (a + b)[1..] == a[1..] + b;
      if KindOf(a[0]) == Word {
        WordRunConcat(a[1..], b);
      }
    }
  }

  /** Cutting behind the first token of a text is cutting behind the first token of what it is the head of. */
  lemma {:induction false} MunchConcat(a: string, b: string)
    requires Separable(a, b) && a != "" && KindOf(a[0]) != Space
    ensures Munch(a + b) == Munch(a)
    ensures (a + b)[..Munch(a)] == a[..Munch(a)] && (a + b)[Munch(a)..] == a[Munch(a)..] + b
  {
    hide KindOf, WordRun;
    WordRunConcat(a, b);
  }

  lemma {:induction false} SeparableTail(a: string, b: string, n: nat)
    requires Separable(a, b) && n <= |a|
    ensures Separable(a[n..], b)
  {
    hide KindOf;
    assert n < |a| ==> a[n..][|a| - n - 1] == a[|a| - 1];
  }

  lemma {:induction false} TokensStep(s: string)
    requires s != ""
    ensures Tokens(s) == if KindOf(s[0]) == Space then Tokens(s[1..]) else [s[..Munch(s)]] + Tokens(s[Munch(s)..])
  {
    hide KindOf, Munch;
  }

  /** Tokenizing distributes over a cut that does not split a word. */
  lemma {:induction false} TokensConcat(a: string, b: string)
    requires Separable(a, b)
    ensures Tokens(a + b) == Tokens(a) + Tokens(b)
    decreases |a|
  {
    TokensOfEmpty();
    hide *;
    if a == "" {
      assert a + b == b;
    } else {
      TokensStep(a);
      TokensStep(a + b);
      assert (a + b)[0] == a[0];
      if KindOf(a[0]) == Space {
        assert (a + b)[1..] == a[1..] + b;
        SeparableTail(a, b, 1);
        TokensConcat(a[1..], b);
      } else {
        MunchConcat(a, b);
        SeparableTail(a, b, Munch(a));
        TokensConcat(a[Munch(a)..], b);
      }
    }
  }

  lemma {:induction false} TokensOfEmpty()
    ensures Tokens("") == []
  {}

  lemma {:induction false} TokensOfSpace(s: string)
    ensures AllSpace(s) <==> Tokens(s) == []
  {
    if s != "" && IsSpace(s[0]) {
      TokensOfSpace(s[1..]);
      assert AllSpace(s[1..]) ==> AllSpace(s) by {
        assert forall i | 0 < i < |s| :: s[i] == s[1..][i - 1];
      }
    }
  }

  lemma {:induction false} TokensOfStrip(s: string)
    ensures Tokens(Strip(s)) == Tokens(s)
  {
    hide Tokens, Lstrip, Rstrip;
    var l := Lstrip(s);
    TokensOfSpace(s[..|s| - |l|]);
    assert s == s[..|s| - |l|] + l;
    SpaceSeparable(s[..|s| - |l|], l);
    TokensConcat(s[..|s| - |l|], l);
    TokensOfRstrip(l);
  }

  lemma {:induction false} SpaceSeparable(a: string, b: string)
    requires AllSpace(a) || AllSpace(b)
    ensures Separable(a, b)
  {
    hide KindOf, IsSpace;
    if a != "" && b != "" {
      SpaceKind(a[|a| - 1]);
      SpaceKind(b[0]);
    }
  }

  lemma {:induction false} TokensOfRstrip(s: string)
    ensures Tokens(Rstrip(s)) == Tokens(s)
  {
    hide Tokens, Rstrip;
    var r := Rstrip(s);
    TokensOfSpace(s[|r|..]);
    assert s == r + s[|r|..];
    SpaceSeparable(r, s[|r|..]);
    TokensConcat(r, s[|r|..]);
  }

  /** Joining with whitespace adds token sequences, hence token counts. */
  lemma {:induction false} TokensOfJoin(sep: string, parts: seq<string>)
    requires sep != "" && AllSpace(sep)
    ensures Tokens(Join(sep, parts)) == TokensAll(parts)
  {
    hide Tokens, KindOf, IsSpace;
    if |parts| == 0 {
      TokensOfEmpty();
    } else if |parts| == 1 {
      assert TokensAll(parts[1..]) == [];
    } else {
      var tail := Join(sep, parts[1..]);
      TokensOfJoin(sep, parts[1..]);
      TokensOfSpace(sep);
      SpaceSeparable(parts[0], sep);
      SpaceSeparable(sep, tail);
      assert (parts[0] + sep)[|parts[0] + sep| - 1] == sep[|sep| - 1];
      TokensConcat(parts[0], sep);
      TokensConcat(parts[0] + sep, tail);
    }
  }

  lemma {:induction false} TokensAllConcat(a: seq<string>, b: seq<string>)
    ensures TokensAll(a + b) == TokensAll(a) + TokensAll(b)
  {
    if |a| == 0 {
      assert a + b == b;
    } else {
      assert (a + b)[1..] == a[1..] + b;
      TokensAllConcat(a[1..], b);
    }
  }

  // --- Replacing whitespace by whitespace ----------------------------------

  predicate StartsWithWord(s: string) { s != "" && KindOf(s[0]) == Word }

  /** Prefixing the same character to two texts that tokenize alike, and start alike, keeps them alike. */
  lemma {:induction false} TokensOfCons(c: char, s: string, t: string)
    requires Tokens(s) == Tokens(t) && StartsWithWord(s) == StartsWithWord(t)
    ensures Tokens([c] + s) == Tokens([c] + t)
  {
    if KindOf(c) == Word && StartsWithWord(s) {
      TokensOfWordCons(c, s);
      TokensOfWordCons(c, t);
    } else {
      assert Tokens([c] + s) == Tokens([c]) + Tokens(s) by { TokensConcat([c], s); }
      assert Tokens([c] + t) == Tokens([c]) + Tokens(t) by { TokensConcat([c], t); }
    }
  }

  lemma {:induction false} TokensOfWordCons(c: char, s: string)
    requires KindOf(c) == Word && StartsWithWord(s)
    ensures Tokens(s) != []
    ensures Tokens([c] + s) == [[c] + Tokens(s)[0]] + Tokens(s)[1..]
  {
    var cs := [c] + s;
    assert cs[1..] == s;
    var m := Munch(s);
    assert Munch(cs) == m + 1;
    assert cs[..m + 1] == [c] + s[..m] && cs[m + 1..] == s[m..];
  }

  // --- Lexer locality -------------------------------------------------------

  /** `m` is a match whose suffix of the text has the tokens `tail`, and which ends between two tokens. */
  ghost predicate HeadsTokens(s: string, from: nat, m: Match, tail: seq<string>) {
    && from <= m.start < m.end <= |s|
    && !IsSpace(s[m.start]) && !IsSpace(s[m.end - 1])
    && Separable(s[..m.end], s[m.end..])
    && tail != []
    && Tokens(s[m.start..]) == tail
    && Tokens(s[m.end..]) == tail[1..]
  }

  lemma {:induction false} FirstMatch(s: string, from: nat)
    requires from < |s| && KindOf(s[from]) != Space
    ensures var end := from + Munch(s[from..]);
            && end <= |s|
            && Tokens(s[from..]) == [s[from..end]] + Tokens(s[end..])
            && HeadsTokens(s, from, Match(from, end), Tokens(s[from..]))
  {
    hide Tokens, Munch, KindOf, IsSpace;
    var tail := s[from..];
    var m := Munch(tail);
    var end := from + m;
    TokensStep(tail);
    MunchEnds(tail);
    SpaceKind(s[from]);
    SpaceKind(s[end - 1]);
    assert tail[m..] == s[end..] && tail[..m] == s[from..end];
    assert s[end - 1] == tail[m - 1] == s[..end][end - 1];
    assert end < |s| ==> s[end] == tail[m] == s[end..][0];
  }

  /** A token starts and ends with something other than space, and no word goes on behind it. */
  lemma {:induction false} MunchEnds(s: string)
    requires s != "" && KindOf(s[0]) != Space
    ensures KindOf(s[Munch(s) - 1]) != Space
    ensures Munch(s) < |s| ==> KindOf(s[Munch(s) - 1]) != Word || KindOf(s[Munch(s)]) != Word
  {
    hide KindOf, WordRun;
  }

  lemma SpaceKind(c: char)
    ensures IsSpace(c) <==> KindOf(c) == Space
  {}

  lemma {:induction false} MatchesStep(s: string, from: nat)
    requires from <= |s|
    ensures Matches(s, from) ==
            if from == |s| then []
            else if KindOf(s[from]) == Space then Matches(s, from + 1)
            else [Match(from, from + Munch(s[from..]))] + Matches(s, from + Munch(s[from..]))
  {
    hide KindOf, Munch;
  }

  lemma {:induction false} HeadsEarlier(s: string, from: nat, next: nat, m: Match, tail: seq<string>)
    requires HeadsTokens(s, next, m, tail) && from <= next
    ensures HeadsTokens(s, from, m, tail)
  {
    hide IsSpace, Separable, Tokens;
  }

  /** What the scanner promises about its matches: one per token, in order, each where its token is. */
  lemma {:induction false} MatchesAreTokens(s: string, from: nat)
    requires from <= |s|
    ensures |Matches(s, from)| == |Tokens(s[from..])|
    ensures forall k | 0 <= k < |Matches(s, from)| :: HeadsTokens(s, from, Matches(s, from)[k], Tokens(s[from..])[k..])
    decreases |s| - from
  {
    hide *;
    MatchesStep(s, from);
    if from == |s| {
      assert s[from..] == "";
      TokensOfEmpty();
    } else {
      var space := KindOf(s[from]) == Space;
      var next := if space then from + 1 else from + Munch(s[from..]);
      if space {
        TokensStep(s[from..]);
        assert s[from..][1..] == s[next..];
      } else {
        FirstMatch(s, from);
      }
      MatchesAreTokens(s, next);
      var ms, rest := Matches(s, from), Matches(s, next);
      var ts, tr := Tokens(s[from..]), Tokens(s[next..]);
      var skip := if space then 0 else 1;
      forall k | 0 <= k < |ms|
        ensures HeadsTokens(s, from, ms[k], ts[k..])
      {
        if k < skip {
          assert ts[0..] == ts;
        } else {
          assert ms[k] == rest[k - skip] && ts[k..] == tr[k - skip..];
          HeadsEarlier(s, from, next, rest[k - skip], tr[k - skip..]);
        }
      }
    }
  }

  lemma {:induction false} MatchesAscend(s: string, from: nat, j: nat, k: nat)
    requires from <= |s| && j < k < |Matches(s, from)|
    ensures Matches(s, from)[j].end <= Matches(s, from)[k].start
    decreases |s| - from
  {
    hide *;
    MatchesStep(s, from);
    if KindOf(s[from]) == Space {
      MatchesAscend(s, from + 1, j, k);
    } else {
      var end := from + Munch(s[from..]);
      if j == 0 {
        MatchesAreTokens(s, end);
        HeadsRange(s, end, Matches(s, end)[k - 1], Tokens(s[end..])[k - 1..]);
      } else {
        MatchesAscend(s, end, j - 1, k - 1);
      }
    }
  }

  lemma {:induction false} HeadsRange(s: string, from: nat, m: Match, tail: seq<string>)
    requires HeadsTokens(s, from, m, tail)
    ensures from <= m.start < m.end <= |s|
  {
    hide IsSpace, Separable, Tokens;
  }

  lemma {:induction false} MatchAt(s: string, k: nat)
    requires k < |Matches(s, 0)|
    ensures |Matches(s, 0)| == TokenCount(s)
    ensures HeadsTokens(s, 0, Matches(s, 0)[k], Tokens(s)[k..])
  {
    MatchesAreTokens(s, 0);
    assert s[0..] == s;
  }

  /** The text from the start of match `i` to the end of match `k` has tokens `i..k + 1` and needs no stripping. */
  lemma {:induction false} Locality(s: string, i: nat, k: nat)
    requires i <= k < |Matches(s, 0)|
    ensures |Matches(s, 0)| == TokenCount(s)
    ensures var a, b := Matches(s, 0)[i].start, Matches(s, 0)[k].end;
            a < b <= |s| && Tokens(s[a..b]) == Tokens(s)[i..k + 1] && Trimmed(s[a..b])
  {
    hide Matches, Tokens, KindOf;
    var first, last, ts := Matches(s, 0)[i], Matches(s, 0)[k], Tokens(s);
    MatchAt(s, i);
    MatchAt(s, k);
    assert first.start < last.end by {
      if i < k {
        MatchesAscend(s, 0, i, k);
      }
    }
    Between(s, first.start, last.end, ts[i..], ts[k..], k - i);
    assert ts[i..][..k - i + 1] == ts[i..k + 1];
  }

  /** `tail` are the tokens from `a` on, `tail'` those from the match that ends at `b` on, `n` tokens later. */
  lemma {:induction false} Between(s: string, a: nat, b: nat, tail: seq<string>, tail': seq<string>, n: nat)
    requires a < b <= |s| && n < |tail| && tail' == tail[n..]
    requires Separable(s[..b], s[b..])
    requires Tokens(s[a..]) == tail && Tokens(s[b..]) == tail'[1..]
    ensures Tokens(s[a..b]) == tail[..n + 1]
  {
    hide Tokens, KindOf;
    var mid, rest := s[a..b], s[b..];
    assert s[a..] == mid + rest;
    assert mid[|mid| - 1] == s[..b][b - 1];
    TokensConcat(mid, rest);
    assert tail'[1..] == tail[n + 1..];
    assert Tokens(mid) == (Tokens(mid) + tail[n + 1..])[..n + 1];
  }
}
