/** Splitting a text into windows of at most `target` tokens, adjacent windows sharing `overlap` tokens. */
module TokenWindows {
  import opened Characters
  import opened Tokenizer

  function Min(a: int, b: int): int { if a <= b then a else b }

  function Max(a: int, b: int): int { if a >= b then a else b }

  /** Tokens `start..end` of a text. */
  datatype Window = Window(start: nat, end: nat)

  predicate InRange(ws: seq<Window>, n: nat) {
    forall k | 0 <= k < |ws| :: ws[k].start < ws[k].end <= n
  }

  /** The windows of `n` tokens that the loop visits from token `start` on. */
  function WindowsFrom(n: nat, target: nat, overlap: nat, start: nat): (ws: seq<Window>)
    requires start < n && target > 0
    ensures InRange(ws, n)
    decreases n - start
  {
    var end := Min(start + target, n);
    if end == n then [Window(start, end)]
    else [Window(start, end)] + WindowsFrom(n, target, overlap, Max(end - overlap, start + 1))
  }

  /** The text from the start of token `i` to the end of token `k`. */
  function Cut(text: string, i: nat, k: nat): (piece: string)
    requires i <= k < |Matches(text, 0)|
    ensures k < |Tokens(text)| && Tokens(piece) == Tokens(text)[i..k + 1]
    ensures Trimmed(piece) && piece != ""
  {
    Locality(text, i, k);
    text[Matches(text, 0)[i].start..Matches(text, 0)[k].end]
  }

  function Cuts(text: string, ws: seq<Window>): (pieces: seq<string>)
    requires InRange(ws, |Matches(text, 0)|)
    ensures |pieces| == |ws|
    ensures forall k | 0 <= k < |ws| :: pieces[k] == Cut(text, ws[k].start, ws[k].end - 1)
  {
    seq(|ws|, k requires 0 <= k < |ws| => Cut(text, ws[k].start, ws[k].end - 1))
  }

  function Split(text: string, target: nat, overlap: nat): seq<string>
    requires target > 0
  {
    var n := |Matches(text, 0)|;
    if n == 0 then (if Strip(text) == "" then [] else [Strip(text)])
    else if n <= target then [Strip(text)]
    else Cuts(text, WindowsFrom(n, target, overlap, 0))
  }

  method SplitTextByTokenLimit(text: string, target: nat, overlap: nat) returns (chunks: seq<string>)
    requires target > 0
    ensures chunks == Split(text, target, overlap)
  {
    hide *;
    SplitCases(text, target, overlap);
    var matches := Matches(text, 0);
    if |matches| == 0 {
      var stripped := Strip(text);
      return if stripped != "" then [stripped] else [];
    }
    if |matches| <= target {
      return [Strip(text)];
    }
    chunks := [];
    var start := 0;
    ghost var visited: seq<Window> := [];
    while start < |matches|
      invariant 0 <= start < |matches|
      invariant Progress(text, target, overlap, start, visited, chunks)
      decreases |matches| - start
    {
      var end := Min(start + target, |matches|);
      ProgressStep(text, target, overlap, start, end, visited, chunks);
      var chunk := Strip(text[matches[start].start..matches[end - 1].end]);
      if chunk != "" {
        chunks := chunks + [chunk];
      }
      if end == |matches| {
        break;
      }
      visited := visited + [Window(start, end)];
      start := Max(end - overlap, start + 1);
    }
  }

  lemma {:induction false} SplitCases(text: string, target: nat, overlap: nat)
    requires target > 0
    ensures Split(text, target, overlap) ==
            var n := |Matches(text, 0)|;
            if n == 0 then (if Strip(text) == "" then [] else [Strip(text)])
            else if n <= target then [Strip(text)]
            else Cuts(text, WindowsFrom(n, target, overlap, 0))
    ensures |Matches(text, 0)| > 0 ==> Progress(text, target, overlap, 0, [], [])
  {}

  /** The windows visited and those ahead are all windows, and `chunks` are the texts of those visited. */
  ghost predicate Progress(
    text: string, target: nat, overlap: nat, start: nat, visited: seq<Window>, chunks: seq<string>)
    requires target > 0
  {
    var n := |Matches(text, 0)|;
    && start < n && InRange(visited, n)
    && visited + WindowsFrom(n, target, overlap, start) == WindowsFrom(n, target, overlap, 0)
    && chunks == Cuts(text, visited)
  }

  lemma {:induction false} ProgressStep(
    text: string, target: nat, overlap: nat, start: nat, end: int, visited: seq<Window>, chunks: seq<string>)
    requires target > 0 && Progress(text, target, overlap, start, visited, chunks)
    requires end == Min(start + target, |Matches(text, 0)|)
    ensures start < end <= |Matches(text, 0)|
    ensures Matches(text, 0)[start].start < Matches(text, 0)[end - 1].end <= |text|
    ensures var n, chunk :=
            |Matches(text, 0)|, Strip(text[Matches(text, 0)[start].start..Matches(text, 0)[end - 1].end]);
            && chunk != ""
            && (end == n ==> chunks + [chunk] == Cuts(text, WindowsFrom(n, target, overlap, 0)))
            && (end < n ==> start < Max(end - overlap, start + 1) < n)
            && (end < n ==> Progress(text, target, overlap, Max(end - overlap, start + 1),
                                     visited + [Window(start, end)], chunks + [chunk]))
  {
    hide Matches, Strip, Cut, Cuts, WindowsFrom, InRange, Min, Max, Tokens, Trimmed;
    var n := |Matches(text, 0)|;
    WindowsStep(n, target, overlap, start, end);
    var w := Window(start, end);
    CutText(text, start, end - 1);
    CutsSnoc(text, visited, w);
    if end < n {
      ConcatAssoc(visited, [w], WindowsFrom(n, target, overlap, Max(end - overlap, start + 1)));
    } else {
      ConcatAssoc(visited, [w], []);
    }
  }

  lemma ConcatAssoc<T>(a: seq<T>, b: seq<T>, c: seq<T>)
    ensures a + (b + c) == (a + b) + c
    ensures c == [] ==> a + (b + c) == a + b
  {}

  lemma ConcatSlices<T>(s: seq<T>, i: nat, j: nat)
    requires i <= j <= |s|
    ensures s[i..] == s[i..j] + s[j..]
  {}

  lemma {:induction false} WindowsStep(n: nat, target: nat, overlap: nat, start: nat, end: int)
    requires target > 0 && start < n && end == Min(start + target, n)
    ensures start < end <= n
    ensures end < n ==> start < Max(end - overlap, start + 1) < n
    ensures WindowsFrom(n, target, overlap, start) == [Window(start, end)] +
            if end == n then [] else WindowsFrom(n, target, overlap, Max(end - overlap, start + 1))
  {}

  lemma {:induction false} CutText(text: string, i: nat, k: nat)
    requires i <= k < |Matches(text, 0)|
    ensures Matches(text, 0)[i].start < Matches(text, 0)[k].end <= |text|
    ensures Strip(text[Matches(text, 0)[i].start..Matches(text, 0)[k].end]) == Cut(text, i, k) != ""
  {
    hide Matches, Strip, Tokens, Trimmed;
    Locality(text, i, k);
    StripOfTrimmed(Cut(text, i, k));
  }

  lemma {:induction false} CutsSnoc(text: string, ws: seq<Window>, w: Window)
    requires InRange(ws, |Matches(text, 0)|) && w.start < w.end <= |Matches(text, 0)|
    ensures InRange(ws + [w], |Matches(text, 0)|)
    ensures Cuts(text, ws + [w]) == Cuts(text, ws) + [Cut(text, w.start, w.end - 1)]
  {
    hide Matches, Cut, Cuts, Tokens, Trimmed;
    var all := ws + [w];
    assert all[|ws|] == w;
    assert forall k | 0 <= k < |ws| :: all[k] == ws[k];
    assert InRange(all, |Matches(text, 0)|);
    assert Cuts(text, all)[|ws|] == Cut(text, w.start, w.end - 1);
    assert forall k | 0 <= k < |ws| :: Cuts(text, all)[k] == Cuts(text, ws)[k];
  }

  // --- Window arithmetic ----------------------------------------------------

  /** How far the start moves from one window to the next. */
  function Step(target: nat, overlap: nat): (step: nat)
    requires target > 0
    ensures step > 0
  {
    Max(target - overlap, 1)
  }

  /** `k * step`, counted up. */
  function Offset(k: nat, step: nat): nat {
    if k == 0 then 0 else Offset(k - 1, step) + step
  }

  lemma {:induction false} OffsetIsProduct(k: nat, step: nat)
    ensures Offset(k, step) == k * step
  {
    if k > 0 {
      OffsetIsProduct(k - 1, step);
      assert (k - 1) * step + step == k * step;
    }
  }

  lemma {:induction false} WindowAt(n: nat, target: nat, overlap: nat, start: nat, k: nat)
    requires start < n && target > 0
    requires k < |WindowsFrom(n, target, overlap, start)|
    ensures WindowsFrom(n, target, overlap, start)[k].start == start + Offset(k, Step(target, overlap)) < n
    ensures WindowsFrom(n, target, overlap, start)[k].end == Min(start + Offset(k, Step(target, overlap)) + target, n)
    ensures k + 1 < |WindowsFrom(n, target, overlap, start)| <==> start + Offset(k, Step(target, overlap)) + target < n
    decreases k
  {
    var end := Min(start + target, n);
    if end < n {
      var next := Max(end - overlap, start + 1);
      var rest := WindowsFrom(n, target, overlap, next);
      assert next == start + Step(target, overlap);
      assert WindowsFrom(n, target, overlap, start) == [Window(start, end)] + rest;
      if k > 0 {
        WindowAt(n, target, overlap, next, k - 1);
      } else {
        assert |rest| > 0;
      }
    }
  }

  /** How many windows: the steps that bring the last one to the end, plus one. */
  function WindowCount(n: nat, target: nat, overlap: nat): nat
    requires target > 0
  {
    var step := Step(target, overlap);
    if n <= target then 1 else (n - target + step - 1) / step + 1
  }

  lemma {:induction false} CeilDiv(x: nat, step: nat, q: nat)
    requires step > 0 && q > 0 && Offset(q - 1, step) < x <= Offset(q, step)
    ensures (x + step - 1) / step == q
  {
    OffsetIsProduct(q, step);
    DivUnique(x + step - 1, step, q);
  }

  lemma {:induction false} DivUnique(y: nat, step: nat, q: nat)
    requires step > 0 && q * step <= y < q * step + step
    ensures y / step == q
  {
    var d := y / step;
    MulMono(d + 1, q, step);
    MulMono(q + 1, d, step);
    assert d * step <= y < d * step + step;
  }

  lemma {:induction false} MulMono(a: nat, b: nat, step: nat)
    ensures a <= b ==> a * step <= b * step
    ensures (a + 1) * step == a * step + step && (b + 1) * step == b * step + step
  {
    if a <= b {
      assert b * step == a * step + (b - a) * step;
    }
  }

  lemma SomeWindow(n: nat, target: nat, overlap: nat, start: nat)
    requires start < n && target > 0
    ensures |WindowsFrom(n, target, overlap, start)| > 0
  {}

  lemma {:induction false} CountWindows(n: nat, target: nat, overlap: nat)
    requires 0 < target < n
    ensures |WindowsFrom(n, target, overlap, 0)| == WindowCount(n, target, overlap) >= 2
  {
    hide WindowsFrom, Min, Step;
    SomeWindow(n, target, overlap, 0);
    var step, last := Step(target, overlap), |WindowsFrom(n, target, overlap, 0)| - 1;
    WindowAt(n, target, overlap, 0, 0);
    WindowAt(n, target, overlap, 0, last);
    WindowAt(n, target, overlap, 0, last - 1);
    CeilDiv(n - target, step, last);
  }

  /** Window `k` where it belongs, sharing `overlap` tokens with the next one. */
  predicate InPlace(ws: seq<Window>, n: nat, target: nat, overlap: nat, k: nat)
    requires k < |ws|
  {
    && ws[k].start == k * (target - overlap) && ws[k].end == Min(ws[k].start + target, n)
    && (k + 1 < |ws| ==> ws[k].end - ws[k + 1].start == overlap)
  }

  /** Windows start `target - overlap` tokens apart, share exactly `overlap` tokens, cover `0..n`, and are as many as
      that needs. */
  lemma {:induction false} WindowArithmetic(n: nat, target: nat, overlap: nat, ws: seq<Window>)
    requires 0 <= overlap < target < n && ws == WindowsFrom(n, target, overlap, 0)
    ensures |ws| == (n - overlap + (target - overlap) - 1) / (target - overlap)
    ensures |ws| > 1 && ws[0].start == 0 && ws[|ws| - 1].end == n
    ensures forall k: nat | k < |ws| :: InPlace(ws, n, target, overlap, k)
  {
    hide WindowsFrom, WindowCount;
    var step, last := target - overlap, |ws| - 1;
    CountWindows(n, target, overlap);
    WindowAt(n, target, overlap, 0, 0);
    WindowAt(n, target, overlap, 0, last);
    WindowAt(n, target, overlap, 0, last - 1);
    assert Offset(last, step) == Offset(last - 1, step) + step;
    CeilDiv(n - overlap, step, last + 1);
    forall k: nat | k < |ws|
      ensures InPlace(ws, n, target, overlap, k)
    {
      WindowInPlace(n, target, overlap, ws, k);
    }
  }

  lemma {:induction false} WindowInPlace(n: nat, target: nat, overlap: nat, ws: seq<Window>, k: nat)
    requires 0 <= overlap < target < n && ws == WindowsFrom(n, target, overlap, 0) && k < |ws|
    ensures InPlace(ws, n, target, overlap, k)
  {
    hide WindowsFrom;
    WindowAt(n, target, overlap, 0, k);
    OffsetIsProduct(k, target - overlap);
    if k + 1 < |ws| {
      WindowAt(n, target, overlap, 0, k + 1);
    }
  }

  // --- What a split keeps ---------------------------------------------------

  lemma {:induction false} SplitSmall(text: string, target: nat, overlap: nat)
    requires target > 0
    ensures |Matches(text, 0)| == TokenCount(text)
    ensures TokenCount(text) == 0 ==> Split(text, target, overlap) == []
    ensures 0 < TokenCount(text) <= target ==> Split(text, target, overlap) == [Strip(text)]
  {
    MatchesAreTokens(text, 0);
    assert text[0..] == text;
    TokensOfSpace(text);
    StripEmpty(text);
  }

  /** `piece` is window `k` of the tokens of `text`: trimmed, not empty and within the budget. */
  predicate IsPiece(text: string, target: nat, overlap: nat, k: nat, piece: string)
    requires target > 0
  {
    var start := Offset(k, Step(target, overlap));
    && start < TokenCount(text)
    && Tokens(piece) == Tokens(text)[start..Min(start + target, TokenCount(text))]
    && Trimmed(piece) && piece != ""
  }

  lemma {:induction false} CutIsPiece(text: string, target: nat, overlap: nat, k: nat, w: Window)
    requires target > 0 && w.start < w.end <= |Matches(text, 0)| == TokenCount(text)
    requires w.start == Offset(k, Step(target, overlap))
    requires w.end == Min(w.start + target, TokenCount(text))
    ensures IsPiece(text, target, overlap, k, Cut(text, w.start, w.end - 1))
  {
    hide Matches, Tokens, Cut, Trimmed;
  }

  lemma {:induction false} WindowsArePieces(text: string, target: nat, overlap: nat, k: nat)
    requires 0 < target < TokenCount(text) == |Matches(text, 0)|
    requires k < |WindowsFrom(TokenCount(text), target, overlap, 0)|
    ensures IsPiece(text, target, overlap, k, Cuts(text, WindowsFrom(TokenCount(text), target, overlap, 0))[k])
  {
    hide WindowsFrom, Tokens, Matches, Cut, Cuts, Offset, Step, IsPiece;
    var w := WindowsFrom(TokenCount(text), target, overlap, 0)[k];
    WindowAt(TokenCount(text), target, overlap, 0, k);
    CutIsPiece(text, target, overlap, k, w);
  }

  lemma {:induction false} WholeIsPiece(text: string, target: nat, overlap: nat)
    requires 0 < TokenCount(text) <= target
    ensures IsPiece(text, target, overlap, 0, Strip(text))
  {
    hide Matches, Tokens, Strip;
    TokensOfStrip(text);
    TokensOfEmpty();
    assert Tokens(text)[0..TokenCount(text)] == Tokens(text);
  }

  /** Splitting yields exactly the windows, as many as the closed form says. */
  lemma {:induction false} SplitPieces(text: string, target: nat, overlap: nat)
    requires target > 0 && TokenCount(text) > 0
    ensures |Split(text, target, overlap)| == WindowCount(TokenCount(text), target, overlap)
    ensures forall k: nat | k < |Split(text, target, overlap)| ::
              IsPiece(text, target, overlap, k, Split(text, target, overlap)[k])
  {
    SplitSmall(text, target, overlap);
    SplitCases(text, target, overlap);
    var n := TokenCount(text);
    if n <= target {
      WholeIsPiece(text, target, overlap);
    } else {
      CountWindows(n, target, overlap);
      hide *;
      forall k: nat | k < |WindowsFrom(n, target, overlap, 0)|
        ensures IsPiece(text, target, overlap, k, Split(text, target, overlap)[k])
      {
        WindowsArePieces(text, target, overlap, k);
      }
    }
  }

  lemma {:induction false} CutsPartition(text: string, n: nat, target: nat, start: nat, ws: seq<Window>)
    requires n == |Matches(text, 0)| == TokenCount(text) && start < n && target > 0
    requires ws == WindowsFrom(n, target, 0, start)
    ensures TokensAll(Cuts(text, ws)) == Tokens(text)[start..]
    decreases n - start
  {
    hide WindowsFrom, Tokens, Matches, Cut, Cuts, TokensAll, InRange;
    var end := Min(start + target, n);
    WindowsStep(n, target, 0, start, end);
    var rest := if end == n then [] else WindowsFrom(n, target, 0, end);
    NoWindows(n);
    CutsCons(text, Window(start, end), rest);
    TokensAllCons(Cut(text, start, end - 1), Cuts(text, rest));
    ConcatSlices(Tokens(text), start, end);
    if end < n {
      CutsPartition(text, n, target, end, rest);
    } else {
      NoCuts(text);
    }
  }

  lemma NoWindows(n: nat)
    ensures InRange([], n)
  {}

  lemma {:induction false} NoCuts(text: string)
    ensures InRange([], |Matches(text, 0)|) && Cuts(text, []) == [] && TokensAll([]) == []
    ensures Tokens(text)[|Tokens(text)|..] == []
  {
    hide Tokens, Matches, Cut;
  }

  lemma {:induction false} CutsCons(text: string, w: Window, rest: seq<Window>)
    requires w.start < w.end <= |Matches(text, 0)| && InRange(rest, |Matches(text, 0)|)
    ensures InRange([w] + rest, |Matches(text, 0)|)
    ensures Cuts(text, [w] + rest) == [Cut(text, w.start, w.end - 1)] + Cuts(text, rest)
  {
    hide Matches, Cut, Cuts, Tokens, Trimmed;
    var all := [w] + rest;
    assert forall k | 0 < k < |all| :: all[k] == rest[k - 1];
    assert InRange(all, |Matches(text, 0)|);
    assert forall k | 0 < k < |all| :: Cuts(text, all)[k] == Cuts(text, rest)[k - 1];
  }

  lemma {:induction false} TokensAllCons(part: string, rest: seq<string>)
    ensures TokensAll([part] + rest) == Tokens(part) + TokensAll(rest)
  {
    assert ([part] + rest)[1..] == rest;
  }

  /** Splitting without overlap cuts only between tokens: the pieces together have the tokens of the text. */
  lemma {:induction false} SplitKeepsTokens(text: string, target: nat)
    requires target > 0
    ensures TokensAll(Split(text, target, 0)) == Tokens(text)
  {
    SplitSmall(text, target, 0);
    TokensOfStrip(text);
    if 0 < TokenCount(text) <= target {
      TokensAllCons(Strip(text), []);
    } else if TokenCount(text) > target {
      CutsPartition(text, TokenCount(text), target, 0, WindowsFrom(TokenCount(text), target, 0, 0));
    }
  }

  // --- Every token has a window ------------------------------------------------

  /** The windows leave no gap: each token lies in one of them. */
  lemma {:induction false} Covered(n: nat, target: nat, overlap: nat, start: nat, r: nat) returns (k: nat)
    requires start <= r < n && target > 0
    ensures k < |WindowsFrom(n, target, overlap, start)|
    ensures WindowsFrom(n, target, overlap, start)[k].start <= r < WindowsFrom(n, target, overlap, start)[k].end
    decreases n - start
  {
    var end := Min(start + target, n);
    if r < end {
      k := 0;
    } else {
      k := Covered(n, target, overlap, Max(end - overlap, start + 1), r);
      k := k + 1;
    }
  }

  /** Each token of a text is a token of one of its pieces, where that piece's window puts it. */
  lemma {:induction false} TokenInPiece(text: string, target: nat, overlap: nat, r: nat) returns (k: nat)
    requires target > 0 && r < TokenCount(text)
    ensures k < |Split(text, target, overlap)|
    ensures var start := Offset(k, Step(target, overlap));
            && start <= r < start + |Tokens(Split(text, target, overlap)[k])|
            && Tokens(Split(text, target, overlap)[k])[r - start] == Tokens(text)[r]
  {
    hide Split, Tokens, WindowsFrom;
    var n := TokenCount(text);
    k := Covered(n, target, overlap, 0, r);
    WindowAt(n, target, overlap, 0, k);
    SplitPieces(text, target, overlap);
    if n > target {
      CountWindows(n, target, overlap);
    } else {
      OneWindow(n, target, overlap);
    }
    assert IsPiece(text, target, overlap, k, Split(text, target, overlap)[k]);
  }

  lemma OneWindow(n: nat, target: nat, overlap: nat)
    requires 0 < n <= target
    ensures |WindowsFrom(n, target, overlap, 0)| == 1
  {}
}
