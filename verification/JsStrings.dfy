/** JavaScript strings: sequences of 16-bit code units, ordered by code unit as `<` and `sort()` do. */
module JsStrings {
  type CodeUnit = u: int | 0 <= u < 0x10000

  type JsString = seq<CodeUnit>

  predicate LessEq(a: JsString, b: JsString) {
    a == [] || (b != [] && (a[0] < b[0] || (a[0] == b[0] && LessEq(a[1..], b[1..]))))
  }

  lemma {:induction false} LessEqTotal(a: JsString, b: JsString)
    ensures LessEq(a, b) || LessEq(b, a)
  {
    if a != [] && b != [] {
      LessEqTotal(a[1..], b[1..]);
    }
  }

  lemma {:induction false} LessEqAntisymmetric(a: JsString, b: JsString)
    requires LessEq(a, b) && LessEq(b, a)
    ensures a == b
  {
    if a != [] {
      LessEqAntisymmetric(a[1..], b[1..]);
      assert a == [a[0]] + a[1..] && b == [b[0]] + b[1..];
    }
  }

  lemma {:induction false} LessEqTransitive(a: JsString, b: JsString, c: JsString)
    requires LessEq(a, b) && LessEq(b, c)
    ensures LessEq(a, c)
  {
    if a != [] && a[0] == b[0] && b[0] == c[0] {
      LessEqTransitive(a[1..], b[1..], c[1..]);
    }
  }

  // ----- the order, by the first code unit that differs -------------------------

  /** `a` and `b` agree up to place `n`, where `a` has the smaller code unit. */
  predicate SmallerAt(a: JsString, b: JsString, n: nat) {
    n < |a| && n < |b| && a[..n] == b[..n] && a[n] < b[n]
  }

  /** `a` stands before `b` in a dictionary of code units: it is shorter and begins `b`, or is smaller where they first
      differ. */
  ghost predicate StandsBefore(a: JsString, b: JsString) {
    (|a| < |b| && a == b[..|a|]) || exists n :: SmallerAt(a, b, n)
  }

  lemma SmallerCons(u: CodeUnit, a: JsString, b: JsString, n: nat)
    requires SmallerAt(a, b, n)
    ensures SmallerAt([u] + a, [u] + b, n + 1)
  {
    assert ([u] + a)[..n + 1] == [u] + a[..n] && ([u] + b)[..n + 1] == [u] + b[..n];
  }

  lemma SmallerTail(a: JsString, b: JsString, n: nat)
    requires SmallerAt(a, b, n) && n > 0
    ensures a[0] == b[0] && SmallerAt(a[1..], b[1..], n - 1)
  {
    assert a[0] == a[..n][0] && b[0] == b[..n][0];
    assert a[1..][..n - 1] == a[..n][1..] && b[1..][..n - 1] == b[..n][1..];
  }

  lemma {:induction false} LessEqStands(a: JsString, b: JsString)
    requires LessEq(a, b)
    ensures a == b || StandsBefore(a, b)
  {
    if a != [] {
      if a[0] < b[0] {
        assert SmallerAt(a, b, 0);
      } else {
        LessEqStands(a[1..], b[1..]);
        assert a == [a[0]] + a[1..] && b == [a[0]] + b[1..];
        if n :| SmallerAt(a[1..], b[1..], n) {
          SmallerCons(a[0], a[1..], b[1..], n);
        }
      }
    }
  }

  lemma {:induction false} SmallerIsLess(a: JsString, b: JsString, n: nat)
    requires SmallerAt(a, b, n)
    ensures LessEq(a, b) && a != b
    decreases n
  {
    if n > 0 {
      SmallerTail(a, b, n);
      SmallerIsLess(a[1..], b[1..], n - 1);
    }
  }

  lemma {:induction false} PrefixIsLess(a: JsString, b: JsString)
    requires |a| <= |b| && a == b[..|a|]
    ensures LessEq(a, b)
  {
    if a != [] {
      assert a[0] == b[..|a|][0];
      assert a[1..] == b[1..][..|a| - 1];
      PrefixIsLess(a[1..], b[1..]);
    }
  }

  /** The recursion decides the order of code units. */
  lemma LessEqExactly(a: JsString, b: JsString)
    ensures LessEq(a, b) <==> a == b || StandsBefore(a, b)
    ensures StandsBefore(a, b) ==> a != b
  {
    if LessEq(a, b) {
      LessEqStands(a, b);
    }
    if n :| SmallerAt(a, b, n) {
      SmallerIsLess(a, b, n);
    } else if |a| <= |b| && a == b[..|a|] {
      PrefixIsLess(a, b);
    }
  }

  // ----- sorting by a string key ----------------------------------------------

  function Insert<T>(x: T, s: seq<T>, key: T -> JsString): seq<T> {
    if s == [] then [x]
    else if LessEq(key(x), key(s[0])) then [x] + s
    else [s[0]] + Insert(x, s[1..], key)
  }

  function Sort<T>(s: seq<T>, key: T -> JsString): seq<T> {
    if s == [] then [] else Insert(s[0], Sort(s[1..], key), key)
  }

  ghost predicate Sorted<T>(s: seq<T>, key: T -> JsString) {
    forall i, j :: 0 <= i < j < |s| ==> LessEq(key(s[i]), key(s[j]))
  }

  lemma HeadFirst<T>(h: T, s: seq<T>, key: T -> JsString)
    requires Sorted(s, key) && forall x :: x in s ==> LessEq(key(h), key(x))
    ensures Sorted([h] + s, key)
  {
  }

  lemma {:induction false} InsertIs<T>(x: T, s: seq<T>, key: T -> JsString)
    requires Sorted(s, key)
    ensures Sorted(Insert(x, s, key), key)
    ensures multiset(Insert(x, s, key)) == multiset{x} + multiset(s)
  {
    if s != [] {
      assert s == [s[0]] + s[1..];
      if LessEq(key(x), key(s[0])) {
        forall y | y in s ensures LessEq(key(x), key(y)) {
          var j :| 0 <= j < |s| && s[j] == y;
          if j > 0 { LessEqTransitive(key(x), key(s[0]), key(y)); }
        }
        HeadFirst(x, s, key);
      } else {
        InsertIs(x, s[1..], key);
        LessEqTotal(key(x), key(s[0]));
        var rest := Insert(x, s[1..], key);
        forall y | y in rest ensures LessEq(key(s[0]), key(y)) {
          assert y in multiset(rest);
          assert y == x || y in s[1..];
        }
        HeadFirst(s[0], rest, key);
      }
    }
  }

  /** Sorting rearranges and orders. */
  lemma {:induction false} SortIs<T>(s: seq<T>, key: T -> JsString)
    ensures Sorted(Sort(s, key), key) && multiset(Sort(s, key)) == multiset(s)
  {
    if s != [] {
      SortIs(s[1..], key);
      InsertIs(s[0], Sort(s[1..], key), key);
      assert s == [s[0]] + s[1..];
    }
  }

  /** Strictly ascending, each before all that follow. */
  ghost predicate Ascending(s: seq<JsString>) {
    forall i, j :: 0 <= i < j < |s| ==> StandsBefore(s[i], s[j])
  }

  /** Distinct strings are sorted into the ascending order. */
  lemma SortAscends(s: seq<JsString>, key: JsString -> JsString)
    requires (forall x :: key(x) == x) && forall i, j :: 0 <= i < j < |s| ==> s[i] != s[j]
    ensures Ascending(Sort(s, key)) && multiset(Sort(s, key)) == multiset(s)
  {
    SortIs(s, key);
    DistinctCounts(s);
    var t := Sort(s, key);
    forall i, j | 0 <= i < j < |t| ensures StandsBefore(t[i], t[j]) {
      LessEqExactly(t[i], t[j]);
      if t[i] == t[j] {
        TwiceCounts(t, i, j);
        assert false;
      }
    }
  }

  lemma TwiceCounts<T>(s: seq<T>, i: nat, j: nat)
    requires i < j < |s| && s[i] == s[j]
    ensures multiset(s)[s[i]] >= 2
  {
    assert s == s[..j] + s[j..];
    assert s[..j][i] == s[i] && s[j..][0] == s[j];
    assert s[i] in multiset(s[..j]) && s[i] in multiset(s[j..]);
    assert multiset(s) == multiset(s[..j]) + multiset(s[j..]);
  }

  /** An ascending list is sorted, so that there is one ascending arrangement of a list. */
  lemma AscendingIsSorted(s: seq<JsString>, t: seq<JsString>, key: JsString -> JsString)
    requires (forall x :: key(x) == x) && Ascending(s) && multiset(s) == multiset(t)
    ensures Sort(t, key) == s
  {
    SortIs(t, key);
    forall i, j | 0 <= i < j < |s| ensures LessEq(key(s[i]), key(s[j])) {
      LessEqExactly(s[i], s[j]);
    }
    SortedUnique(s, Sort(t, key), key);
  }

  /** Elements are told apart by their keys. */
  ghost predicate KeyedApart<T>(s: seq<T>, key: T -> JsString) {
    forall i, j :: 0 <= i < |s| && 0 <= j < |s| && key(s[i]) == key(s[j]) ==> s[i] == s[j]
  }

  lemma SortedHead<T>(a: seq<T>, b: seq<T>, key: T -> JsString)
    requires a != [] && b != [] && Sorted(a, key) && Sorted(b, key)
    requires a[0] in b && b[0] in a
    ensures key(a[0]) == key(b[0])
  {
    var i :| 0 <= i < |b| && b[i] == a[0];
    var j :| 0 <= j < |a| && a[j] == b[0];
    if i > 0 && j > 0 {
      LessEqAntisymmetric(key(a[0]), key(b[0]));
    }
  }

  lemma SameTails<T>(a: seq<T>, b: seq<T>)
    requires a != [] && b != [] && a[0] == b[0] && multiset(a) == multiset(b)
    ensures multiset(a[1..]) == multiset(b[1..])
  {
    assert a == [a[0]] + a[1..] && b == [b[0]] + b[1..];
    assert multiset(a[1..]) == multiset(a) - multiset{a[0]};
    assert multiset(b[1..]) == multiset(b) - multiset{b[0]};
  }

  lemma {:induction false} SortedUnique<T>(a: seq<T>, b: seq<T>, key: T -> JsString)
    requires Sorted(a, key) && Sorted(b, key) && multiset(a) == multiset(b) && KeyedApart(a, key)
    ensures a == b
  {
    if a == [] || b == [] {
      assert |a| == |multiset(a)| && |b| == |multiset(b)|;
    } else {
      assert a[0] in multiset(a) && b[0] in multiset(b);
      assert a[0] in b && b[0] in a;
      SortedHead(a, b, key);
      SameTails(a, b);
      SortedUnique(a[1..], b[1..], key);
      assert a == [a[0]] + a[1..] && b == [b[0]] + b[1..];
    }
  }

  /** Two lists sort to the same one exactly when one rearranges the other. */
  lemma SortDecidesRearrangement<T>(a: seq<T>, b: seq<T>, key: T -> JsString)
    requires KeyedApart(a, key)
    ensures Sort(a, key) == Sort(b, key) <==> multiset(a) == multiset(b)
  {
    SortIs(a, key);
    SortIs(b, key);
    if multiset(a) == multiset(b) {
      var sa := Sort(a, key);
      forall i, j | 0 <= i < |sa| && 0 <= j < |sa| && key(sa[i]) == key(sa[j]) ensures sa[i] == sa[j] {
        assert sa[i] in multiset(sa) && sa[j] in multiset(sa);
        assert sa[i] in a && sa[j] in a;
      }
      SortedUnique(sa, Sort(b, key), key);
    }
  }

  /** A list without repetition holds each of its elements once. */
  lemma {:induction false} DistinctCounts<T>(s: seq<T>)
    requires forall i, j :: 0 <= i < j < |s| ==> s[i] != s[j]
    ensures forall x :: multiset(s)[x] == if x in s then 1 else 0
  {
    if s != [] {
      DistinctCounts(s[1..]);
      assert s == [s[0]] + s[1..];
    }
  }

  lemma SameElements<T>(a: seq<T>, b: seq<T>)
    requires forall i, j :: 0 <= i < j < |a| ==> a[i] != a[j]
    requires forall i, j :: 0 <= i < j < |b| ==> b[i] != b[j]
    ensures multiset(a) == multiset(b) <==> forall x :: x in a <==> x in b
  {
    DistinctCounts(a);
    DistinctCounts(b);
    if multiset(a) == multiset(b) {
      forall x ensures x in a <==> x in b {
        assert multiset(a)[x] == multiset(b)[x];
      }
    }
  }
}
