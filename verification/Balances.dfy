/** `balances_equal`: order-independent comparison of two balance lists. */
module Balances {
  import opened Deposits

  // ---- The order on denoms ----

  predicate LexLe(a: string, b: string) {
    a == [] || (b != [] && (a[0] < b[0] || (a[0] == b[0] && LexLe(a[1..], b[1..]))))
  }

  lemma {:induction false} LexTotal(a: string, b: string)
    ensures LexLe(a, b) || LexLe(b, a)
    ensures LexLe(a, b) && LexLe(b, a) ==> a == b
  {
    if a != [] && b != [] {
      LexTotal(a[1..], b[1..]);
      assert a == [a[0]] + a[1..] && b == [b[0]] + b[1..];
    }
  }

  lemma {:induction false} LexTrans(a: string, b: string, c: string)
    requires LexLe(a, b) && LexLe(b, c)
    ensures LexLe(a, c)
  {
    if a != [] && a[0] == b[0] == c[0] {
      LexTrans(a[1..], b[1..], c[1..]);
    }
  }

  // ---- A stable sort by denom ----

  /** Puts the balance behind every one whose denom is not greater. */
  function Insert(sorted: seq<Balance>, b: Balance): seq<Balance> {
    if sorted == [] then [b]
    else
      var n := |sorted| - 1;
      if LexLe(sorted[n].denom, b.denom) then sorted + [b] else Insert(sorted[..n], b) + [sorted[n]]
  }

  function SortByDenom(s: seq<Balance>): seq<Balance> {
    if s == [] then [] else Insert(SortByDenom(s[..|s| - 1]), s[|s| - 1])
  }

  predicate BalancesEqual(a: seq<Balance>, b: seq<Balance>) {
    |a| == |b| && SortByDenom(a) == SortByDenom(b)
  }

  // ---- What it decides ----

  /** The balances of one denom, in order. */
  function Of(s: seq<Balance>, denom: string): seq<Balance> {
    if s == [] then []
    else Of(s[..|s| - 1], denom) + (if s[|s| - 1].denom == denom then [s[|s| - 1]] else [])
  }

  lemma {:induction false} OfConcat(s: seq<Balance>, t: seq<Balance>, denom: string)
    ensures Of(s + t, denom) == Of(s, denom) + Of(t, denom)
    decreases |t|
  {
    if t == [] {
      assert s + t == s;
    } else {
      var n := |t| - 1;
      assert (s + t)[..|s + t| - 1] == s + t[..n];
      OfConcat(s, t[..n], denom);
    }
  }

  lemma {:induction false} OfOne(b: Balance, denom: string)
    ensures Of([b], denom) == if b.denom == denom then [b] else []
  {
  }

  ghost predicate Sorted(s: seq<Balance>) {
    forall i, j :: 0 <= i < j < |s| ==> LexLe(s[i].denom, s[j].denom)
  }

  lemma {:induction false} InsertKeeps(s: seq<Balance>, b: Balance, denom: string)
    ensures Of(Insert(s, b), denom) == Of(s + [b], denom)
  {
    OfConcat(s, [b], denom);
    if s != [] {
      var n := |s| - 1;
      if !LexLe(s[n].denom, b.denom) {
        InsertKeeps(s[..n], b, denom);
        OfConcat(Insert(s[..n], b), [s[n]], denom);
        OfConcat(s[..n], [b], denom);
        LexTotal(s[n].denom, s[n].denom);
        OfOne(b, denom);
        OfOne(s[n], denom);
      }
    }
  }

  /** Sorting keeps the balances of each denom in their order. */
  lemma {:induction false} SortKeeps(s: seq<Balance>, denom: string)
    ensures Of(SortByDenom(s), denom) == Of(s, denom)
  {
    if s != [] {
      var n := |s| - 1;
      SortKeeps(s[..n], denom);
      InsertKeeps(SortByDenom(s[..n]), s[n], denom);
      OfConcat(SortByDenom(s[..n]), [s[n]], denom);
      OfOne(s[n], denom);
    }
  }

  lemma {:induction false} InsertBag(s: seq<Balance>, b: Balance)
    ensures multiset(Insert(s, b)) == multiset(s) + multiset{b}
  {
    if s != [] && !LexLe(s[|s| - 1].denom, b.denom) {
      InsertBag(s[..|s| - 1], b);
      assert s == s[..|s| - 1] + [s[|s| - 1]];
    }
  }

  lemma BagLast(s: seq<Balance>)
    requires s != []
    ensures multiset(s) == multiset(s[..|s| - 1]) + multiset{s[|s| - 1]}
  {
    assert s == s[..|s| - 1] + [s[|s| - 1]];
  }

  lemma {:induction false} SortBag(s: seq<Balance>)
    ensures multiset(SortByDenom(s)) == multiset(s)
  {
    if s != [] {
      var n := |s| - 1;
      SortBag(s[..n]);
      InsertBag(SortByDenom(s[..n]), s[n]);
      BagLast(s);
    }
  }

  lemma {:induction false} InsertSorts(s: seq<Balance>, b: Balance)
    requires Sorted(s)
    ensures Sorted(Insert(s, b))
  {
    if s != [] {
      var n := |s| - 1;
      LexTotal(s[n].denom, b.denom);
      if LexLe(s[n].denom, b.denom) {
        forall i | 0 <= i < n
          ensures LexLe(s[i].denom, b.denom)
        {
          LexTrans(s[i].denom, s[n].denom, b.denom);
        }
      } else {
        InsertSorts(s[..n], b);
        InsertBag(s[..n], b);
        var front := Insert(s[..n], b);
        forall i | 0 <= i < |front|
          ensures LexLe(front[i].denom, s[n].denom)
        {
          assert front[i] in multiset(front);
          assert front[i] == b || front[i] in s[..n];
        }
      }
    }
  }

  lemma {:induction false} SortSorts(s: seq<Balance>)
    ensures Sorted(SortByDenom(s))
  {
    if s != [] {
      SortSorts(s[..|s| - 1]);
      InsertSorts(SortByDenom(s[..|s| - 1]), s[|s| - 1]);
    }
  }

  ghost predicate SamePerDenom(a: seq<Balance>, b: seq<Balance>) {
    forall denom :: Of(a, denom) == Of(b, denom)
  }

  lemma {:induction false} OfNonEmpty(s: seq<Balance>, i: nat)
    requires i < |s|
    ensures Of(s, s[i].denom) != []
    decreases |s|
  {
    if i < |s| - 1 {
      OfNonEmpty(s[..|s| - 1], i);
    }
  }

  lemma {:induction false} OfMembers(s: seq<Balance>, denom: string)
    ensures forall b :: b in Of(s, denom) ==> b in s && b.denom == denom
  {
    if s != [] {
      OfMembers(s[..|s| - 1], denom);
      assert s == s[..|s| - 1] + [s[|s| - 1]];
    }
  }

  lemma {:induction false} OfWitness(s: seq<Balance>, denom: string) returns (i: nat)
    requires Of(s, denom) != []
    ensures i < |s| && s[i].denom == denom
  {
    var n := |s| - 1;
    if s[n].denom == denom {
      i := n;
    } else {
      i := OfWitness(s[..n], denom);
    }
  }

  /** Where one list has a denom, the other's last denom is not smaller. */
  lemma {:induction false} LastIsGreatest(a: seq<Balance>, b: seq<Balance>, i: nat)
    requires Sorted(b) && SamePerDenom(a, b) && i < |a|
    ensures b != [] && LexLe(a[i].denom, b[|b| - 1].denom)
  {
    OfNonEmpty(a, i);
    assert Of(b, a[i].denom) == Of(a, a[i].denom);
    var j := OfWitness(b, a[i].denom);
    LexTotal(a[i].denom, a[i].denom);
  }

  /** The last balances of two sorted lists that agree per denom are the same. */
  lemma {:induction false} SameLast(a: seq<Balance>, b: seq<Balance>)
    requires Sorted(a) && Sorted(b) && SamePerDenom(a, b) && a != []
    ensures b != [] && a[|a| - 1] == b[|b| - 1]
  {
    var x := a[|a| - 1];
    LastIsGreatest(a, b, |a| - 1);
    var y := b[|b| - 1];
    LastIsGreatest(b, a, |b| - 1);
    LexTotal(x.denom, y.denom);
    var front, back := Of(a[..|a| - 1], x.denom), Of(b[..|b| - 1], x.denom);
    assert front + [x] == Of(a, x.denom) == Of(b, x.denom) == back + [y];
    assert (front + [x])[|front|] == (back + [y])[|back|];
  }

  lemma {:induction false} CancelTail(a: seq<Balance>, b: seq<Balance>, t: seq<Balance>)
    requires a + t == b + t
    ensures a == b
  {
    assert |a| == |b|;
    assert a == (a + t)[..|a|] == (b + t)[..|b|] == b;
  }

  /** Two sorted lists that agree per denom are equal. */
  lemma {:induction false} SortedDetermined(a: seq<Balance>, b: seq<Balance>)
    requires Sorted(a) && Sorted(b) && SamePerDenom(a, b)
    ensures a == b
    decreases |a|
  {
    if a == [] {
      if b != [] {
        OfNonEmpty(b, 0);
      }
    } else {
      SameLast(a, b);
      var m, n := |a| - 1, |b| - 1;
      forall denom
        ensures Of(a[..m], denom) == Of(b[..n], denom)
      {
        assert Of(a, denom) == Of(b, denom);
        CancelTail(Of(a[..m], denom), Of(b[..n], denom), if a[m].denom == denom then [a[m]] else []);
      }
      SortedDetermined(a[..m], b[..n]);
      assert a == a[..m] + [a[m]] && b == b[..n] + [b[n]];
    }
  }

  /** For all lists: they compare equal exactly when each denom's balances are the same, in the
      same order. */
  lemma {:induction false} EqualExactlyPerDenom(a: seq<Balance>, b: seq<Balance>)
    ensures BalancesEqual(a, b) <==> SamePerDenom(a, b)
  {
    var sa, sb := SortByDenom(a), SortByDenom(b);
    forall denom
      ensures Of(sa, denom) == Of(a, denom) && Of(sb, denom) == Of(b, denom)
    {
      SortKeeps(a, denom);
      SortKeeps(b, denom);
    }
    if SamePerDenom(a, b) {
      SortSorts(a);
      SortSorts(b);
      SortedDetermined(sa, sb);
      SortBag(a);
      SortBag(b);
      assert |multiset(a)| == |multiset(b)|;
    }
  }

  /** Comparing equal implies being equal as multisets. */
  lemma {:induction false} EqualImpliesSameBag(a: seq<Balance>, b: seq<Balance>)
    requires BalancesEqual(a, b)
    ensures multiset(a) == multiset(b)
  {
    SortBag(a);
    SortBag(b);
  }

  ghost predicate DistinctDenoms(s: seq<Balance>) {
    forall i, j :: 0 <= i < j < |s| ==> s[i].denom != s[j].denom
  }

  lemma {:induction false} OfDistinct(s: seq<Balance>, denom: string)
    requires DistinctDenoms(s)
    ensures |Of(s, denom)| <= 1
  {
    if s != [] {
      var n := |s| - 1;
      OfDistinct(s[..n], denom);
      if s[n].denom == denom && Of(s[..n], denom) != [] {
        var i := OfWitness(s[..n], denom);
        assert false;
      }
    }
  }

  /** With pairwise distinct denoms, in either list, the comparison is multiset equality. */
  lemma {:induction false} EqualExactlySameBag(a: seq<Balance>, b: seq<Balance>)
    requires DistinctDenoms(a) && DistinctDenoms(b)
    ensures BalancesEqual(a, b) <==> multiset(a) == multiset(b)
  {
    EqualExactlyPerDenom(a, b);
    if BalancesEqual(a, b) {
      EqualImpliesSameBag(a, b);
    } else if multiset(a) == multiset(b) {
      var denom :| Of(a, denom) != Of(b, denom);
      OfDistinct(a, denom);
      OfDistinct(b, denom);
      if Of(a, denom) != [] {
        SameBagSameOf(a, b, denom);
      } else {
        SameBagSameOf(b, a, denom);
      }
    }
  }

  lemma {:induction false} SameBagSameOf(a: seq<Balance>, b: seq<Balance>, denom: string)
    requires multiset(a) == multiset(b) && DistinctDenoms(b) && Of(a, denom) != []
    ensures Of(b, denom) == [Of(a, denom)[0]]
  {
    var x := Of(a, denom)[0];
    OfMembers(a, denom);
    assert x in Of(a, denom);
    assert x in multiset(a);
    assert x in b;
    OnlyOne(b, x);
  }

  lemma {:induction false} OnlyOne(b: seq<Balance>, x: Balance)
    requires DistinctDenoms(b) && x in b
    ensures Of(b, x.denom) == [x]
  {
    var i :| 0 <= i < |b| && b[i] == x;
    OfNonEmpty(b, i);
    OfDistinct(b, x.denom);
    OfMembers(b, x.denom);
    var y := Of(b, x.denom)[0];
    assert y in Of(b, x.denom);
    var j :| 0 <= j < |b| && b[j] == y;
  }

  /** With a repeated denom the order matters: the same coins may compare unequal. */
  lemma RepeatedDenomOrderMatters()
    ensures
      var x, y := Balance("utia", "1"), Balance("utia", "2");
      multiset([x, y]) == multiset([y, x]) && !BalancesEqual([x, y], [y, x])
  {
    var x, y := Balance("utia", "1"), Balance("utia", "2");
    EqualExactlyPerDenom([x, y], [y, x]);
    OfConcat([x], [y], "utia");
    OfConcat([y], [x], "utia");
    OfOne(x, "utia");
    OfOne(y, "utia");
    assert [x] + [y] == [x, y] && [y] + [x] == [y, x];
    assert [x, y][0] != [y, x][0];
  }
}
