/** Zero-padded chunk references, and why no two chunks of a document share one. */
module ChunkRefs {

  function Digit(n: nat): char
    requires n < 10
  {
    '0' + n as char
  }

  predicate AllDigits(s: string) { forall i | 0 <= i < |s| :: '0' <= s[i] <= '9' }

  function Decimal(n: nat): (s: string)
    ensures s != "" && AllDigits(s)
  {
    if n < 10 then [Digit(n)] else Decimal(n / 10) + [Digit(n % 10)]
  }

  /** `f"{n:04d}"` */
  function Pad4(n: nat): (s: string)
    ensures |s| >= 4 && AllDigits(s)
  {
    var d := Decimal(n);
    if |d| >= 4 then d else seq(4 - |d|, _ => '0') + d
  }

  function ParentRef(ordinal: nat): string { "parent-" + Pad4(ordinal) }

  function ChildRef(parent: nat, index: nat): string { "child-" + (Pad4(parent) + "-" + Pad4(index)) }

  /** The number a digit string spells. */
  function Value(s: string): nat
    requires AllDigits(s)
  {
    if s == "" then 0 else 10 * Value(s[..|s| - 1]) + (s[|s| - 1] as int - '0' as int)
  }

  lemma {:induction false} ValueOfDecimal(n: nat)
    ensures Value(Decimal(n)) == n
  {
    if n >= 10 {
      ValueOfDecimal(n / 10);
      assert Decimal(n)[..|Decimal(n)| - 1] == Decimal(n / 10);
    }
  }

  lemma {:induction false} ValueOfZeros(k: nat, s: string)
    requires AllDigits(s)
    ensures Value(seq(k, _ => '0') + s) == Value(s)
  {
    var t := seq(k, _ => '0') + s;
    if s == "" {
      if k > 0 {
        assert t[..k - 1] == seq(k - 1, _ => '0') + "";
        ValueOfZeros(k - 1, "");
      }
    } else {
      assert t[..|t| - 1] == seq(k, _ => '0') + s[..|s| - 1];
      ValueOfZeros(k, s[..|s| - 1]);
    }
  }

  lemma {:induction false} ValueOfPad4(n: nat)
    ensures Value(Pad4(n)) == n
  {
    ValueOfDecimal(n);
    if |Decimal(n)| < 4 {
      ValueOfZeros(4 - |Decimal(n)|, Decimal(n));
    }
  }

  lemma {:induction false} DashSplits(a: string, b: string, a': string, b': string)
    requires AllDigits(a) && AllDigits(a') && a + "-" + b == a' + "-" + b'
    ensures a == a' && b == b'
  {
    var s, s' := a + "-" + b, a' + "-" + b';
    assert s[|a|] == '-' && s'[|a'|] == '-';
    assert forall i | 0 <= i < |a| :: s[i] == a[i];
    assert forall i | 0 <= i < |a'| :: s'[i] == a'[i];
    assert a == s[..|a|] && a' == s'[..|a'|];
    assert b == s[|a| + 1..] && b' == s'[|a'| + 1..];
  }

  /** References are distinct for unbounded counts: neither the padding width nor the dash creates a collision. */
  lemma {:induction false} RefsInjective(p: nat, i: nat, p': nat, i': nat)
    ensures ParentRef(p) == ParentRef(p') ==> p == p'
    ensures ChildRef(p, i) == ChildRef(p', i') ==> p == p' && i == i'
    ensures ParentRef(p) != ChildRef(p', i')
  {
    ValueOfPad4(p);
    ValueOfPad4(p');
    ValueOfPad4(i);
    ValueOfPad4(i');
    assert ParentRef(p)[7..] == Pad4(p) && ParentRef(p')[7..] == Pad4(p');
    var body, body' := Pad4(p) + "-" + Pad4(i), Pad4(p') + "-" + Pad4(i');
    assert ChildRef(p, i)[6..] == body && ChildRef(p', i')[6..] == body';
    if body == body' {
      DashSplits(Pad4(p), Pad4(i), Pad4(p'), Pad4(i'));
    }
    assert ParentRef(p)[0] == 'p' && ChildRef(p', i')[0] == 'c';
  }

  /** At least four digits that spell the number, and no leading zero beyond the fourth. */
  predicate Spells(s: string, n: nat) {
    |s| >= 4 && AllDigits(s) && Value(s) == n && (|s| > 4 ==> s[0] != '0')
  }

  lemma {:induction false} DecimalHead(n: nat)
    ensures n > 0 ==> Decimal(n)[0] != '0'
  {
    if n >= 10 {
      DecimalHead(n / 10);
    }
  }

  lemma {:induction false} PadSpells(n: nat)
    ensures Spells(Pad4(n), n)
  {
    ValueOfPad4(n);
    DecimalHead(n);
    assert n == 0 ==> |Decimal(n)| == 1;
  }

  /** References read parent-0001 and child-0001-0001. */
  lemma {:induction false} RefsSpell(p: nat, i: nat)
    ensures exists a :: Spells(a, p) && ParentRef(p) == "parent-" + a
    ensures exists a, b :: Spells(a, p) && Spells(b, i) && ChildRef(p, i) == "child-" + (a + "-" + b)
  {
    hide Spells, Pad4;
    PadSpells(p);
    PadSpells(i);
    assert ParentRef(p) == "parent-" + Pad4(p);
  }
}
