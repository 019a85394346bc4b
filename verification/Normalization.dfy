/** Text normalization before chunking: it keeps every token, and applying it twice changes nothing. */
module Normalization {
  import opened Characters
  import opened Tokenizer

  /** `s.replace("\r\n", "\n")` */
  function ReplaceCrLf(s: string): string {
    if s == "" then ""
    else if |s| >= 2 && s[0] == '\r' && s[1] == '\n' then "\n" + ReplaceCrLf(s[2..])
    else [s[0]] + ReplaceCrLf(s[1..])
  }

  /** `s.replace(c, by)` for a single character `c` */
  function ReplaceChar(s: string, c: char, repl: string): string {
    if s == "" then ""
    else (if s[0] == c then repl else [s[0]]) + ReplaceChar(s[1..], c, repl)
  }

  function Lines(s: string): (lines: seq<string>)
    ensures |lines| > 0
  {
    SplitOn(s, '\n')
  }

  function RstripEach(lines: seq<string>): seq<string> {
    if |lines| == 0 then [] else [Rstrip(lines[0])] + RstripEach(lines[1..])
  }

  function NewlineRun(s: string): (n: nat)
    ensures n <= |s|
    ensures forall i | 0 <= i < n :: s[i] == '\n'
    ensures n < |s| ==> s[n] != '\n'
  {
    if s != "" && s[0] == '\n' then 1 + NewlineRun(s[1..]) else 0
  }

  /** Every run of three or more newlines becomes two newlines. */
  function CollapseNewlines(s: string): string {
    if s == "" then ""
    else if s[0] == '\n' then
      var n := NewlineRun(s);
      (if n >= 3 then "\n\n" else s[..n]) + CollapseNewlines(s[n..])
    else [s[0]] + CollapseNewlines(s[1..])
  }

  function UnifyWhitespace(content: string): string {
    ReplaceChar(ReplaceChar(ReplaceCrLf(content), '\r', "\n"), '\t', "    ")
  }

  function RstripLines(text: string): string {
    Join("\n", RstripEach(Lines(text)))
  }

  function Normalize(content: string): string {
    CollapseNewlines(Strip(RstripLines(UnifyWhitespace(content))))
  }

  // --- Normalization keeps the tokens ---------------------------------------

  lemma {:induction false} CrLfTokens(s: string)
    ensures Tokens(ReplaceCrLf(s)) == Tokens(s) && StartsWithWord(ReplaceCrLf(s)) == StartsWithWord(s)
  {
    if s == "" {
    } else if |s| >= 2 && s[0] == '\r' && s[1] == '\n' {
      CrLfTokens(s[2..]);
      assert s[1..][1..] == s[2..];
      TokensOfSpaceThen("\n", ReplaceCrLf(s[2..]));
    } else {
      CrLfTokens(s[1..]);
      TokensOfCons(s[0], s[1..], ReplaceCrLf(s[1..]));
      assert s == [s[0]] + s[1..];
    }
  }

  lemma {:induction false} TokensOfSpaceThen(space: string, s: string)
    requires AllSpace(space)
    ensures Tokens(space + s) == Tokens(s)
  {
    TokensOfSpace(space);
    TokensConcat(space, s);
  }

  lemma {:induction false} ReplaceCharTokens(s: string, c: char, repl: string)
    requires IsSpace(c) && repl != "" && AllSpace(repl)
    ensures Tokens(ReplaceChar(s, c, repl)) == Tokens(s)
    ensures StartsWithWord(ReplaceChar(s, c, repl)) == StartsWithWord(s)
  {
    if s != "" {
      ReplaceCharTokens(s[1..], c, repl);
      var rest := ReplaceChar(s[1..], c, repl);
      if s[0] == c {
        TokensOfSpaceThen(repl, rest);
        assert (repl + rest)[0] == repl[0];
      } else {
        TokensOfCons(s[0], s[1..], rest);
        assert s == [s[0]] + s[1..];
      }
    }
  }

  lemma {:induction false} JoinLines(s: string)
    ensures Join("\n", Lines(s)) == s
  {
    if s != "" {
      JoinLines(s[1..]);
      var rest := Lines(s[1..]);
      if s[0] == '\n' {
        assert ([""] + rest)[1..] == rest;
      } else {
        assert ([[s[0]] + rest[0]] + rest[1..])[1..] == rest[1..];
      }
    }
  }

  lemma {:induction false} LinesTokens(s: string)
    ensures TokensAll(Lines(s)) == Tokens(s)
  {
    JoinLines(s);
    TokensOfJoin("\n", Lines(s));
  }

  lemma {:induction false} RstripEachTokens(lines: seq<string>)
    ensures TokensAll(RstripEach(lines)) == TokensAll(lines)
  {
    if |lines| > 0 {
      TokensOfRstrip(lines[0]);
      RstripEachTokens(lines[1..]);
    }
  }

  lemma {:induction false} CollapseTokens(s: string)
    ensures Tokens(CollapseNewlines(s)) == Tokens(s)
    ensures StartsWithWord(CollapseNewlines(s)) == StartsWithWord(s)
    decreases |s|
  {
    if s == "" {
    } else if s[0] == '\n' {
      var n := NewlineRun(s);
      var rest := CollapseNewlines(s[n..]);
      CollapseTokens(s[n..]);
      assert s == s[..n] + s[n..];
      TokensOfSpaceThen(s[..n], s[n..]);
      var kept := if n >= 3 then "\n\n" else s[..n];
      TokensOfSpaceThen(kept, rest);
      assert (kept + rest)[0] == '\n';
    } else {
      CollapseTokens(s[1..]);
      TokensOfCons(s[0], s[1..], CollapseNewlines(s[1..]));
      assert s == [s[0]] + s[1..];
    }
  }

  /** Normalizing changes only whitespace: it keeps the token sequence. */
  lemma {:induction false} NormalizeKeepsTokens(content: string)
    ensures Tokens(Normalize(content)) == Tokens(content)
  {
    var a := ReplaceCrLf(content);
    var b := ReplaceChar(a, '\r', "\n");
    var c := ReplaceChar(b, '\t', "    ");
    CrLfTokens(content);
    ReplaceCharTokens(a, '\r', "\n");
    ReplaceCharTokens(b, '\t', "    ");
    var lines := Lines(c);
    LinesTokens(c);
    RstripEachTokens(lines);
    TokensOfJoin("\n", RstripEach(lines));
    var d := RstripLines(c);
    TokensOfStrip(d);
    CollapseTokens(Strip(d));
  }

  // --- Normalization is idempotent ------------------------------------------

  predicate TidyAt(s: string, i: nat)
    requires i + 1 < |s|
  {
    s[i + 1] == '\n' ==> s[i] == '\n' || !IsSpace(s[i])
  }

  /** No line carries trailing whitespace before its newline. */
  predicate LinesRstripped(s: string) {
    forall i: nat | i + 1 < |s| :: TidyAt(s, i)
  }

  predicate TripleAt(s: string, i: nat)
    requires i + 2 < |s|
  {
    s[i] == '\n' && s[i + 1] == '\n' && s[i + 2] == '\n'
  }

  predicate NoTripleNewline(s: string) {
    forall i: nat | i + 2 < |s| :: !TripleAt(s, i)
  }

  lemma {:induction false} PrefixTidy(s: string, n: nat)
    requires n <= |s|
    ensures LinesRstripped(s) ==> LinesRstripped(s[..n])
  {
    forall i: nat | i + 1 < n
      ensures TidyAt(s, i) ==> TidyAt(s[..n], i)
    {
    }
  }

  lemma {:induction false} SuffixTidy(s: string, n: nat)
    requires n <= |s|
    ensures LinesRstripped(s) ==> LinesRstripped(s[n..])
    ensures NoTripleNewline(s) ==> NoTripleNewline(s[n..])
  {
    var tail := s[n..];
    forall i: nat | i + 1 < |tail|
      ensures TidyAt(s, i + n) ==> TidyAt(tail, i)
    {
    }
    forall i: nat | i + 2 < |tail|
      ensures TripleAt(tail, i) ==> TripleAt(s, i + n)
    {
    }
  }

  predicate IsNormal(s: string) {
    NoChar(s, '\r') && NoChar(s, '\t') && LinesRstripped(s) && NoTripleNewline(s) && Trimmed(s)
  }

  // First half: on a normal text every stage is the identity.

  lemma {:induction false} CrLfIdentity(s: string)
    requires NoChar(s, '\r')
    ensures ReplaceCrLf(s) == s
  {
    if s != "" {
      assert s[0] != '\r';
      CrLfIdentity(s[1..]);
    }
  }

  lemma {:induction false} ReplaceCharIdentity(s: string, c: char, repl: string)
    requires NoChar(s, c)
    ensures ReplaceChar(s, c, repl) == s
  {
    if s != "" {
      assert s[0] != c;
      ReplaceCharIdentity(s[1..], c, repl);
    }
  }

  predicate EndsTidy(line: string) { line == "" || !IsSpace(line[|line| - 1]) }

  lemma {:induction false} HeadTidy(s: string)
    requires LinesRstripped(s) && |s| > 1
    ensures TidyAt(s, 0)
  {}

  /** Cutting a tidy text at its newlines yields lines without trailing whitespace. */
  lemma {:induction false} LinesEndTidy(s: string)
    requires LinesRstripped(s) && EndsTidy(s)
    ensures forall k | 0 <= k < |Lines(s)| :: EndsTidy(Lines(s)[k])
    ensures Lines(s)[0] == "" <==> s == "" || s[0] == '\n'
  {
    hide IsSpace, LinesRstripped, NoTripleNewline;
    if s != "" {
      var tail := s[1..];
      SuffixTidy(s, 1);
      assert tail != "" ==> tail[|tail| - 1] == s[|s| - 1];
      LinesEndTidy(tail);
      var rest := Lines(tail);
      if s[0] == '\n' {
        assert Lines(s) == [""] + rest;
      } else {
        assert Lines(s) == [[s[0]] + rest[0]] + rest[1..];
        if tail != "" {
          HeadTidy(s);
        }
        assert EndsTidy(rest[0]) && EndsTidy([s[0]] + rest[0]);
      }
    }
  }

  lemma {:induction false} RstripOfTidy(line: string)
    requires EndsTidy(line)
    ensures Rstrip(line) == line
  {
    hide IsSpace;
  }

  lemma {:induction false} RstripEachIdentity(lines: seq<string>)
    requires forall k | 0 <= k < |lines| :: EndsTidy(lines[k])
    ensures RstripEach(lines) == lines
  {
    hide EndsTidy;
    if lines != [] {
      RstripOfTidy(lines[0]);
      RstripEachIdentity(lines[1..]);
    }
  }

  lemma {:induction false} ShortRun(s: string)
    ensures NoTripleNewline(s) ==> NewlineRun(s) <= 2
  {
    if NewlineRun(s) >= 3 {
      assert TripleAt(s, 0);
    }
  }

  /** One step of collapsing: `n` is a run of newlines or one other character. */
  lemma {:induction false} CollapseStep(s: string, n: nat)
    requires s != "" && n == if s[0] == '\n' then NewlineRun(s) else 1
    ensures 1 <= n <= |s|
    ensures CollapseNewlines(s) == (if s[0] == '\n' && n >= 3 then "\n\n" else s[..n]) + CollapseNewlines(s[n..])
  {
    assert s[..1] == [s[0]];
  }

  lemma {:induction false} CollapseShort(s: string, n: nat)
    requires s != "" && n == (if s[0] == '\n' then NewlineRun(s) else 1) && NoTripleNewline(s)
    ensures 1 <= n <= |s| && NoTripleNewline(s[n..])
    ensures CollapseNewlines(s[n..]) == s[n..] ==> CollapseNewlines(s) == s
  {
    hide *;
    ShortRun(s);
    CollapseStep(s, n);
    SuffixTidy(s, n);
    Halves(s, n);
  }

  lemma Halves(s: string, n: nat)
    requires n <= |s|
    ensures s[..n] + s[n..] == s
  {}

  lemma {:induction false} CollapseIdentity(s: string)
    requires NoTripleNewline(s)
    ensures CollapseNewlines(s) == s
    decreases |s|
  {
    if s == "" {
      assert CollapseNewlines(s) == "";
    } else {
      hide *;
      var n := if s[0] == '\n' then NewlineRun(s) else 1;
      CollapseShort(s, n);
      CollapseIdentity(s[n..]);
    }
  }

  lemma {:induction false} NormalizeIdentity(s: string)
    requires IsNormal(s)
    ensures Normalize(s) == s
  {
    CrLfIdentity(s);
    ReplaceCharIdentity(s, '\r', "\n");
    ReplaceCharIdentity(s, '\t', "    ");
    LinesEndTidy(s);
    RstripEachIdentity(Lines(s));
    JoinLines(s);
    StripOfTrimmed(s);
    CollapseIdentity(s);
  }

  // Second half: the result of normalizing is normal.

  lemma {:induction false} ReplaceCharChars(s: string, c: char, repl: string, d: char)
    requires (c == d || NoChar(s, d)) && NoChar(repl, d)
    ensures NoChar(ReplaceChar(s, c, repl), d)
  {
    if s != "" {
      ReplaceCharChars(s[1..], c, repl, d);
    }
  }

  lemma {:induction false} LinesChars(s: string, c: char, k: nat)
    requires NoChar(s, c) && k < |Lines(s)|
    ensures NoChar(Lines(s)[k], c) && NoChar(Lines(s)[k], '\n')
  {
    if s != "" {
      LinesChars(s[1..], c, if k == 0 then 0 else if s[0] == '\n' then k - 1 else k);
    }
  }

  lemma {:induction false} RstripEachAt(lines: seq<string>, k: nat)
    requires k < |lines|
    ensures |RstripEach(lines)| == |lines| && RstripEach(lines)[k] == Rstrip(lines[k])
  {
    if k > 0 {
      RstripEachAt(lines[1..], k - 1);
    } else if |lines| > 1 {
      RstripEachAt(lines[1..], 0);
    }
  }

  predicate RstrippedLine(line: string) {
    NoChar(line, '\n') && EndsTidy(line)
  }

  lemma {:induction false} JoinRstripped(lines: seq<string>, c: char)
    requires c != '\n' && forall k | 0 <= k < |lines| :: RstrippedLine(lines[k]) && NoChar(lines[k], c)
    ensures LinesRstripped(Join("\n", lines)) && NoChar(Join("\n", lines), c)
  {
    if |lines| > 1 {
      JoinRstripped(lines[1..], c);
      var line, tail := lines[0], Join("\n", lines[1..]);
      var t := line + "\n" + tail;
      assert RstrippedLine(line) && NoChar(line, c);
      forall i: nat | i + 1 < |t|
        ensures TidyAt(t, i)
      {
        var n := |line|;
        if i > n {
          assert TidyAt(tail, i - n - 1);
        } else if i == n {
          assert t[i] == '\n';
        } else if i == n - 1 {
          assert t[i] == line[n - 1];
        }
      }
    } else if |lines| == 1 {
      assert RstrippedLine(lines[0]) && NoChar(lines[0], c);
    }
  }

  lemma {:induction false} StripPart(s: string, c: char)
    requires LinesRstripped(s) && NoChar(s, c)
    ensures LinesRstripped(Strip(s)) && NoChar(Strip(s), c)
  {
    hide Lstrip, Rstrip, LinesRstripped, NoTripleNewline, NoChar, Trimmed;
    var l := Lstrip(s);
    var r := Rstrip(l);
    SuffixTidy(s, |s| - |l|);
    PrefixTidy(l, |r|);
    PartWithout(s, c, |s| - |l|);
    PartWithout(l, c, |r|);
  }

  lemma {:induction false} PartWithout(s: string, c: char, n: nat)
    requires n <= |s| && NoChar(s, c)
    ensures NoChar(s[..n], c) && NoChar(s[n..], c)
  {}

  predicate SameEnds(s: string, t: string) {
    if s == "" then t == "" else t != "" && t[0] == s[0] && t[|t| - 1] == s[|s| - 1]
  }

  lemma {:induction false} CollapseEnds(s: string)
    ensures SameEnds(s, CollapseNewlines(s))
    decreases |s|
  {
    hide NewlineRun;
    if s != "" {
      var n := if s[0] == '\n' then NewlineRun(s) else 1;
      var tail := s[n..];
      CollapseEnds(tail);
      assert tail == "" ==> s[|s| - 1] == s[n - 1];
      var kept := if s[0] == '\n' && n >= 3 then "\n\n" else s[..n];
      assert s[..1] == [s[0]];
      assert CollapseNewlines(s) == kept + CollapseNewlines(tail);
      assert kept[0] == s[0] && kept[|kept| - 1] == s[n - 1];
    }
  }

  /** Collapsing keeps tidy line ends and absent characters, and leaves no triple newline. */
  lemma {:induction false} CollapseNormal(s: string, c: char)
    requires LinesRstripped(s) && NoChar(s, c) && c != '\n'
    ensures LinesRstripped(CollapseNewlines(s)) && NoChar(CollapseNewlines(s), c)
            && NoTripleNewline(CollapseNewlines(s))
    decreases |s|
  {
    hide IsSpace, NewlineRun, LinesRstripped, NoTripleNewline;
    if s == "" {
      NothingNormal(c);
    } else {
      var n := if s[0] == '\n' then NewlineRun(s) else 1;
      var tail := s[n..];
      SuffixTidy(s, n);
      if |s| > 1 {
        HeadTidy(s);
      }
      PartWithout(s, c, n);
      CollapseNormal(tail, c);
      CollapseEnds(tail);
      var kept := if s[0] == '\n' && n >= 3 then "\n\n" else s[..n];
      var rest := CollapseNewlines(tail);
      if s[0] == '\n' {
        assert |kept| <= 2 && forall i | 0 <= i < |kept| :: kept[i] == '\n';
        assert rest == "" || rest[0] == tail[0] == s[n];
      } else {
        assert kept == [s[0]];
        assert rest != "" && rest[0] == '\n' ==> s[1] == '\n';
      }
      ConsNormal(kept, CollapseNewlines(tail), c);
      assert s[..1] == [s[0]];
      assert CollapseNewlines(s) == kept + CollapseNewlines(tail);
    }
  }

  lemma NothingNormal(c: char)
    ensures LinesRstripped("") && NoChar("", c) && NoTripleNewline("")
  {}

  /** Putting one character, or up to two newlines before a non-newline, in front of a tidy text. */
  lemma {:induction false} ConsNormal(kept: string, t: string, c: char)
    requires LinesRstripped(t) && NoChar(t, c) && NoTripleNewline(t) && NoChar(kept, c)
    requires || (1 <= |kept| <= 2 && (forall i | 0 <= i < |kept| :: kept[i] == '\n') && (t == "" || t[0] != '\n'))
             || (|kept| == 1 && kept[0] != '\n' && (t != "" && t[0] == '\n' ==> !IsSpace(kept[0])))
    ensures LinesRstripped(kept + t) && NoChar(kept + t, c) && NoTripleNewline(kept + t)
  {
    hide IsSpace;
    var u, n := kept + t, |kept|;
    forall i: nat | i + 1 < |u|
      ensures TidyAt(u, i)
    {
      if i >= n {
        assert TidyAt(t, i - n);
      }
    }
    forall i: nat | i + 2 < |u|
      ensures !TripleAt(u, i)
    {
      if i >= n {
        assert !TripleAt(t, i - n);
      } else if i + 1 >= n {
        assert u[i + 1] == t[0];
      } else {
        assert u[i + 2] == t[0];
      }
    }
  }

  lemma {:induction false} NormalizeIsNormal(content: string)
    ensures IsNormal(Normalize(content))
  {
    var text := UnifyWhitespace(content);
    ReplaceCharChars(ReplaceCrLf(content), '\r', "\n", '\r');
    ReplaceCharChars(ReplaceChar(ReplaceCrLf(content), '\r', "\n"), '\t', "    ", '\r');
    ReplaceCharChars(ReplaceChar(ReplaceCrLf(content), '\r', "\n"), '\t', "    ", '\t');
    NormalWithout(text, '\r');
    NormalWithout(text, '\t');
  }

  lemma {:induction false} NormalWithout(text: string, c: char)
    requires NoChar(text, c) && c != '\n'
    ensures NoChar(CollapseNewlines(Strip(RstripLines(text))), c)
    ensures LinesRstripped(CollapseNewlines(Strip(RstripLines(text))))
    ensures NoTripleNewline(CollapseNewlines(Strip(RstripLines(text))))
    ensures Trimmed(CollapseNewlines(Strip(RstripLines(text))))
  {
    var lines := RstripEach(Lines(text));
    RstripEachAt(Lines(text), 0);
    forall k | 0 <= k < |lines|
      ensures RstrippedLine(lines[k]) && NoChar(lines[k], c)
    {
      RstripEachAt(Lines(text), k);
      LinesChars(text, c, k);
    }
    JoinRstripped(lines, c);
    StripPart(Join("\n", lines), c);
    CollapseEnds(Strip(Join("\n", lines)));
    CollapseNormal(Strip(Join("\n", lines)), c);
  }

  /** Normalizing twice is normalizing once. */
  lemma {:induction false} NormalizeIdempotent(content: string)
    ensures Normalize(Normalize(content)) == Normalize(content)
  {
    NormalizeIsNormal(content);
    NormalizeIdentity(Normalize(content));
  }
}
