/** Reference lists, their sorted comma-joined form, and when that form determines them. */
module MatchSignature {
  import opened Common
  import opened Characters

  // --- Sorting strings ----------------------------------------------------------

  function Insert(x: string, s: seq<string>): seq<string> {
    if s == [] then [x] else if LexLeq(x, s[0]) then [x] + s else [s[0]] + Insert(x, s[1..])
  }

  function Sort(s: seq<string>): seq<string> {
    if s == [] then [] else Insert(s[0], Sort(s[1..]))
  }

  lemma {:induction false} InsertMultiset(x: string, s: seq<string>)
    ensures multiset(Insert(x, s)) == multiset(s) + multiset{x}
  {
    if s != [] && !LexLeq(x, s[0]) {
      InsertMultiset(x, s[1..]);
      assert s == [s[0]] + s[1..];
    }
  }

  lemma {:induction false} SortMultiset(s: seq<string>)
    ensures multiset(Sort(s)) == multiset(s)
  {
    if s != [] {
      SortMultiset(s[1..]);
      InsertMultiset(s[0], Sort(s[1..]));
      assert s == [s[0]] + s[1..];
    }
  }

  lemma {:induction false} InsertCommutes(x: string, y: string, s: seq<string>)
    ensures Insert(x, Insert(y, s)) == Insert(y, Insert(x, s))
  {
    LexTotal(x, y);
    if s == [] {
    } else {
      LexTotal(x, s[0]);
      LexTotal(y, s[0]);
      if LexLeq(x, s[0]) && LexLeq(y, s[0]) {
      } else if LexLeq(x, s[0]) {
        if LexLeq(y, x) {
          LexTransitive(y, x, s[0]);
        }
        assert ([x] + s)[1..] == s && ([s[0]] + Insert(y, s[1..]))[0] == s[0];
      } else if LexLeq(y, s[0]) {
        if LexLeq(x, y) {
          LexTransitive(x, y, s[0]);
        }
        assert ([y] + s)[1..] == s && ([s[0]] + Insert(x, s[1..]))[0] == s[0];
      } else {
        InsertCommutes(x, y, s[1..]);
        assert ([s[0]] + Insert(y, s[1..]))[1..] == Insert(y, s[1..]);
        assert ([s[0]] + Insert(x, s[1..]))[1..] == Insert(x, s[1..]);
      }
    }
  }

  /** Moving one element to the front does not change the sorted list. */
  lemma {:induction false} SortPull(s: seq<string>, j: nat)
    requires j < |s|
    ensures Sort(s) == Insert(s[j], Sort(s[..j] + s[j + 1..]))
  {
    if j == 0 {
      assert s[..0] + s[1..] == s[1..];
    } else {
      var t := s[..j] + s[j + 1..];
      SortPull(s[1..], j - 1);
      assert s[1..][..j - 1] + s[1..][j..] == t[1..];
      InsertCommutes(s[0], s[j], Sort(t[1..]));
    }
  }

  /** Sorting forgets the order of the list: equal collections sort alike. */
  lemma {:induction false} SortCanonical(s: seq<string>, t: seq<string>)
    requires multiset(s) == multiset(t)
    ensures Sort(s) == Sort(t)
    decreases |s|
  {
    hide Insert, LexLeq;
    if s == [] {
      assert |multiset(t)| == 0 && |t| == 0;
    } else {
      assert s[0] in multiset(t) by {
        assert s[0] in multiset(s);
      }
      var j :| 0 <= j < |t| && t[j] == s[0];
      RemovedAt(s, 0);
      RemovedAt(t, j);
      assert s[..0] + s[0 + 1..] == s[1..];
      SortCanonical(s[1..], t[..j] + t[j + 1..]);
      SortPull(t, j);
    }
  }

  lemma {:induction false} RemovedAt(s: seq<string>, j: nat)
    requires j < |s|
    ensures multiset(s[..j] + s[j + 1..]) == multiset(s) - multiset{s[j]}
  {
    assert s == s[..j] + [s[j]] + s[j + 1..];
  }

  // --- Splitting a joined list ----------------------------------------------------

  lemma {:induction false} SplitPrefix(part: string, rest: string, c: char)
    requires NoChar(part, c)
    ensures SplitOn(part, c) == [part]
    ensures SplitOn(part + [c] + rest, c) == [part] + SplitOn(rest, c)
  {
    var s := part + [c] + rest;
    if part == "" {
      assert s[1..] == rest;
    } else {
      SplitPrefix(part[1..], rest, c);
      assert s[1..] == part[1..] + [c] + rest;
      assert part == [part[0]] + part[1..];
    }
  }

  lemma {:induction false} SplitOfJoin(parts: seq<string>, c: char)
    requires parts != [] && forall i | 0 <= i < |parts| :: NoChar(parts[i], c)
    ensures SplitOn(Join([c], parts), c) == parts
  {
    hide SplitOn, NoChar;
    if |parts| == 1 {
      SplitPrefix(parts[0], "", c);
    } else {
      var rest := parts[1..];
      assert forall i | 0 <= i < |rest| :: rest[i] == parts[i + 1];
      SplitOfJoin(rest, c);
      SplitPrefix(parts[0], Join([c], rest), c);
      assert parts == [parts[0]] + rest;
    }
  }

  // --- Signatures of reference lists ----------------------------------------------

  /** Non-empty references without the separators. */
  predicate Clean(refs: seq<string>) {
    forall i | 0 <= i < |refs| :: refs[i] != "" && NoChar(refs[i], ',') && NoChar(refs[i], '|')
  }

  function Part(refs: seq<string>): string { Join(",", Sort(refs)) }

  function Parts(lists: seq<seq<string>>): seq<string> {
    if lists == [] then [] else [Part(lists[0])] + Parts(lists[1..])
  }

  function Signature(lists: seq<seq<string>>): string { Join("|", Parts(lists)) }

  lemma {:induction false} SortMembers(refs: seq<string>)
    ensures forall x :: x in Sort(refs) <==> x in refs
    ensures |Sort(refs)| == |refs|
  {
    SortMultiset(refs);
    forall x
      ensures x in Sort(refs) <==> x in refs
    {
      assert x in Sort(refs) <==> x in multiset(Sort(refs));
      assert x in refs <==> x in multiset(refs);
    }
    assert |multiset(Sort(refs))| == |Sort(refs)| && |multiset(refs)| == |refs|;
  }

  lemma {:induction false} SortClean(refs: seq<string>)
    requires Clean(refs)
    ensures Clean(Sort(refs))
  {
    SortMembers(refs);
    forall i | 0 <= i < |Sort(refs)|
      ensures Sort(refs)[i] != "" && NoChar(Sort(refs)[i], ',') && NoChar(Sort(refs)[i], '|')
    {
      assert Sort(refs)[i] in Sort(refs);
      var j :| 0 <= j < |refs| && refs[j] == Sort(refs)[i];
    }
  }

  lemma {:induction false} JoinWithout(parts: seq<string>, sep: string, c: char)
    requires NoChar(sep, c) && forall i | 0 <= i < |parts| :: NoChar(parts[i], c)
    ensures NoChar(Join(sep, parts), c)
  {
    if |parts| > 1 {
      JoinWithout(parts[1..], sep, c);
    }
  }

  /** The joined form of a clean list determines its sorted form. */
  lemma {:induction false} PartInjective(a: seq<string>, b: seq<string>)
    requires Clean(a) && Clean(b) && Part(a) == Part(b)
    ensures Sort(a) == Sort(b)
  {
    SortClean(a);
    SortClean(b);
    var s, t := Sort(a), Sort(b);
    if s != [] {
      SplitOfJoin(s, ',');
    }
    if t != [] {
      SplitOfJoin(t, ',');
    }
    assert SplitOn("", ',') == [""];
    assert s != [] ==> s[0] != "";
    assert t != [] ==> t[0] != "";
  }

  lemma {:induction false} PartsWithout(lists: seq<seq<string>>)
    requires forall i | 0 <= i < |lists| :: Clean(lists[i])
    ensures |Parts(lists)| == |lists|
    ensures forall i | 0 <= i < |lists| :: Parts(lists)[i] == Part(lists[i]) && NoChar(Parts(lists)[i], '|')
  {
    if lists != [] {
      PartsWithout(lists[1..]);
      SortClean(lists[0]);
      JoinWithout(Sort(lists[0]), ",", '|');
    }
  }

  /** On clean lists equal signatures mean equal sorted lists, position by position. */
  lemma {:induction false} SignatureInjective(a: seq<seq<string>>, b: seq<seq<string>>)
    requires |a| == |b| > 0 && Signature(a) == Signature(b)
    requires forall i | 0 <= i < |a| :: Clean(a[i]) && Clean(b[i])
    ensures forall i | 0 <= i < |a| :: Sort(a[i]) == Sort(b[i])
  {
    PartsWithout(a);
    PartsWithout(b);
    SplitOfJoin(Parts(a), '|');
    SplitOfJoin(Parts(b), '|');
    forall i | 0 <= i < |a|
      ensures Sort(a[i]) == Sort(b[i])
    {
      assert Parts(a)[i] == Parts(b)[i];
      PartInjective(a[i], b[i]);
    }
  }

  lemma {:induction false} NoRepeatsMultiset(a: seq<string>, b: seq<string>)
    requires Distinct(a) && Distinct(b) && forall x :: x in a <==> x in b
    ensures multiset(a) == multiset(b)
  {
    forall x
      ensures multiset(a)[x] == multiset(b)[x]
    {
      OccursOnce(a, x);
      OccursOnce(b, x);
    }
  }

  lemma {:induction false} OccursOnce(s: seq<string>, x: string)
    requires Distinct(s)
    ensures multiset(s)[x] == if x in s then 1 else 0
  {
    if s != [] {
      OccursOnce(s[1..], x);
      assert s == [s[0]] + s[1..];
      assert s[0] !in s[1..];
    }
  }

  lemma {:induction false} SameListsSameSignature(a: seq<seq<string>>, b: seq<seq<string>>)
    requires |a| == |b| && forall i | 0 <= i < |a| :: Sort(a[i]) == Sort(b[i])
    ensures Signature(a) == Signature(b)
  {
    SameListsSameParts(a, b);
  }

  lemma {:induction false} SameListsSameParts(a: seq<seq<string>>, b: seq<seq<string>>)
    requires |a| == |b| && forall i | 0 <= i < |a| :: Sort(a[i]) == Sort(b[i])
    ensures Parts(a) == Parts(b)
  {
    if a != [] {
      SameListsSameParts(a[1..], b[1..]);
    }
  }

  // --- What a list of references means --------------------------------------------

  /** An empty list puts no constraint; any other admits its members. */
  predicate Admits(refs: seq<string>, x: string) { refs == [] || x in refs }

  function Longest(refs: seq<string>): (n: nat)
    ensures forall i | 0 <= i < |refs| :: |refs[i]| <= n
  {
    if refs == [] then 0
    else
      var n := Longest(refs[1..]);
      assert forall i | 0 < i < |refs| :: refs[i] == refs[1..][i - 1];
      if |refs[0]| > n then |refs[0]| else n
  }

  function Fresh(refs: seq<string>): (x: string)
    ensures x !in refs
  {
    seq(Longest(refs) + 1, _ => 'x')
  }

  function Witness(refs: seq<string>): (x: string)
    ensures Admits(refs, x)
  {
    if refs == [] then "" else refs[0]
  }

  ghost predicate AdmitsAll(lists: seq<seq<string>>, xs: seq<string>)
    requires |xs| == |lists|
  {
    forall i | 0 <= i < |lists| :: Admits(lists[i], xs[i])
  }

  function Witnesses(lists: seq<seq<string>>): seq<string> {
    seq(|lists|, i requires 0 <= i < |lists| => Witness(lists[i]))
  }

  lemma {:induction false} MeaningAt(a: seq<seq<string>>, b: seq<seq<string>>, i: nat, x: string)
    requires |a| == |b| && i < |a|
    requires forall xs: seq<string> | |xs| == |a| :: AdmitsAll(a, xs) <==> AdmitsAll(b, xs)
    ensures Admits(a[i], x) <==> Admits(b[i], x)
  {
    var wa := Witnesses(a);
    assert AdmitsAll(a, wa);
    assert AdmitsAll(b, wa);
    var xs := wa[i := x];
    assert AdmitsAll(a, xs) <==> Admits(a[i], x) by {
      assert xs[i] == x;
      assert forall j | 0 <= j < |a| && j != i :: xs[j] == wa[j];
    }
    assert AdmitsAll(b, xs) <==> Admits(b[i], x) by {
      assert xs[i] == x;
      assert forall j | 0 <= j < |b| && j != i :: xs[j] == wa[j] && Admits(b[j], wa[j]);
    }
  }

  lemma {:induction false} SameMeaningSameMembers(a: seq<string>, b: seq<string>)
    requires forall x :: Admits(a, x) <==> Admits(b, x)
    ensures forall x :: x in a <==> x in b
  {
    var fa, fb := Fresh(a), Fresh(b);
    assert Admits(a, fa) <==> Admits(b, fa);
    assert Admits(a, fb) <==> Admits(b, fb);
    assert a == [] <==> b == [];
    forall x
      ensures x in a <==> x in b
    {
      assert Admits(a, x) <==> Admits(b, x);
    }
  }

  /** On clean lists the signature is exactly the collection: equal signatures if and only if position by position
      the same references occur equally often. */
  lemma {:induction false} SignatureIsMultisets(a: seq<seq<string>>, b: seq<seq<string>>)
    requires |a| == |b| > 0 && forall i | 0 <= i < |a| :: Clean(a[i]) && Clean(b[i])
    ensures Signature(a) == Signature(b) <==> forall i | 0 <= i < |a| :: multiset(a[i]) == multiset(b[i])
  {
    hide Signature, Sort, Clean;
    if Signature(a) == Signature(b) {
      SignatureInjective(a, b);
      forall i | 0 <= i < |a|
        ensures multiset(a[i]) == multiset(b[i])
      {
        SortMultiset(a[i]);
        SortMultiset(b[i]);
      }
    }
    if forall i | 0 <= i < |a| :: multiset(a[i]) == multiset(b[i]) {
      SameMultisetsSameSignature(a, b);
    }
  }

  /** One half needs no cleanliness: the same collections have the same signature. */
  lemma {:induction false} SameMultisetsSameSignature(a: seq<seq<string>>, b: seq<seq<string>>)
    requires |a| == |b| && forall i | 0 <= i < |a| :: multiset(a[i]) == multiset(b[i])
    ensures Signature(a) == Signature(b)
  {
    hide Signature, Sort;
    forall i | 0 <= i < |a|
      ensures Sort(a[i]) == Sort(b[i])
    {
      SortCanonical(a[i], b[i]);
    }
    SameListsSameSignature(a, b);
  }

  ghost predicate SameMembers(a: seq<string>, b: seq<string>) { forall x :: x in a <==> x in b }

  /** For any lists at all, the same values are admitted if and only if position by position the members are the
      same. */
  lemma {:induction false} MeaningIsMembers(a: seq<seq<string>>, b: seq<seq<string>>)
    requires |a| == |b|
    ensures (forall xs: seq<string> | |xs| == |a| :: AdmitsAll(a, xs) <==> AdmitsAll(b, xs)) <==>
            forall i | 0 <= i < |a| :: SameMembers(a[i], b[i])
  {
    if forall xs: seq<string> | |xs| == |a| :: AdmitsAll(a, xs) <==> AdmitsAll(b, xs) {
      forall i | 0 <= i < |a|
        ensures SameMembers(a[i], b[i])
      {
        forall x
          ensures Admits(a[i], x) <==> Admits(b[i], x)
        {
          MeaningAt(a, b, i, x);
        }
        SameMeaningSameMembers(a[i], b[i]);
      }
    }
    if forall i | 0 <= i < |a| :: SameMembers(a[i], b[i]) {
      forall i, x | 0 <= i < |a|
        ensures Admits(a[i], x) <==> Admits(b[i], x)
      {
        SameMembersSameAdmission(a[i], b[i], x);
      }
    }
  }

  lemma SameMembersSameAdmission(a: seq<string>, b: seq<string>, x: string)
    requires SameMembers(a, b)
    ensures Admits(a, x) <==> Admits(b, x)
  {
    assert a != [] ==> a[0] in b;
    assert b != [] ==> b[0] in a;
  }

  /** On clean lists without repeats the signature is exactly the meaning: equal signatures if and only if the same
      values are admitted. */
  lemma {:induction false} SignatureIsMeaning(a: seq<seq<string>>, b: seq<seq<string>>)
    requires |a| == |b| > 0
    requires forall i | 0 <= i < |a| :: Clean(a[i]) && Clean(b[i]) && Distinct(a[i]) && Distinct(b[i])
    ensures Signature(a) == Signature(b) <==>
            forall xs: seq<string> | |xs| == |a| :: AdmitsAll(a, xs) <==> AdmitsAll(b, xs)
  {
    SignatureIsMultisets(a, b);
    MeaningIsMembers(a, b);
    forall i | 0 <= i < |a|
      ensures SameMembers(a[i], b[i]) <==> multiset(a[i]) == multiset(b[i])
    {
      UnrepeatedMembers(a[i], b[i]);
    }
    hide Signature, AdmitsAll, Clean, Distinct, SameMembers;
  }

  lemma {:induction false} UnrepeatedMembers(a: seq<string>, b: seq<string>)
    requires Distinct(a) && Distinct(b)
    ensures SameMembers(a, b) <==> multiset(a) == multiset(b)
  {
    if SameMembers(a, b) {
      NoRepeatsMultiset(a, b);
    }
    if multiset(a) == multiset(b) {
      MultisetMembers(a, b);
    }
  }

  lemma MultisetMembers(a: seq<string>, b: seq<string>)
    requires multiset(a) == multiset(b)
    ensures SameMembers(a, b)
  {
    forall x
      ensures x in a <==> x in b
    {
      assert x in a <==> x in multiset(a);
      assert x in b <==> x in multiset(b);
    }
  }

  // --- Where the separators collide ------------------------------------------------

  lemma PartOfOne(x: string)
    ensures Part([x]) == x
  {
    var none: seq<string> := [];
    assert [x][1..] == none && Sort(none) == none && Insert(x, none) == [x];
  }

  lemma PartOfTwo(u: string, v: string)
    requires LexLeq(u, v)
    ensures Part([u, v]) == u + "," + v
  {
    hide LexLeq;
    var none: seq<string> := [];
    assert [v][1..] == none && Sort(none) == none && Insert(v, none) == [v];
    assert [u, v][1..] == [v] && Insert(u, [v]) == [u] + [v] == [u, v];
    assert Sort([v]) == [v] && Sort([u, v]) == [u, v];
    assert Join(",", [u, v]) == u + "," + Join(",", [v]);
  }

  /** A comma inside a reference: one reference reads like two. */
  lemma CommaCollides(u: string, v: string)
    requires LexLeq(u, v)
    ensures Part([u + "," + v]) == Part([u, v])
    ensures u + "," + v !in [u, v]
  {
    PartOfOne(u + "," + v);
    PartOfTwo(u, v);
    assert |u + "," + v| > |u| && |u + "," + v| > |v|;
  }

  /** The empty reference reads like no reference. */
  lemma EmptyCollides()
    ensures Part([""]) == Part([])
  {
    PartOfOne("");
  }

  /** A bar inside a reference: the border between two lists moves. */
  lemma BarCollides(u: string, v: string, w: string, rest: seq<string>)
    requires rest != []
    ensures Join("|", [u + "|" + v, w] + rest) == Join("|", [u, v + "|" + w] + rest)
    ensures u + "|" + v != u
  {
    JoinTwo(u + "|" + v, w, rest);
    JoinTwo(u, v + "|" + w, rest);
    assert |u + "|" + v| > |u|;
  }

  lemma JoinTwo(x: string, y: string, rest: seq<string>)
    requires rest != []
    ensures Join("|", [x, y] + rest) == x + "|" + y + "|" + Join("|", rest)
  {
    assert ([x, y] + rest)[1..] == [y] + rest && ([y] + rest)[1..] == rest;
  }

  /** A repeated reference reads longer than a single one. */
  lemma RepeatShows(x: string)
    ensures |Part([x, x])| > |Part([x])|
  {
    LexTotal(x, x);
    PartOfOne(x);
    PartOfTwo(x, x);
  }
}
