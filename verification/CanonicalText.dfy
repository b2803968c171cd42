/** The canonical text laid out: what stands where, in which order, without the recursion that prints it. */
module CanonicalText {
  import opened JsStrings
  import opened CanonicalJson
  import opened CanonicalJsonProofs

  /** Texts with a comma between each two. */
  function Commas(texts: seq<JsString>): JsString {
    if texts == [] then [] else if |texts| == 1 then texts[0] else texts[0] + ([COMMA] + Commas(texts[1..]))
  }

  function Member(f: Field): JsString {
    Quote(f.key) + [COLON] + Canonical(f.value)
  }

  function Members(fields: seq<Field>): seq<JsString> {
    seq(|fields|, i requires 0 <= i < |fields| => Member(fields[i]))
  }

  function Elements(items: seq<Json>): seq<JsString> {
    seq(|items|, i requires 0 <= i < |items| => Canonical(items[i]))
  }

  /** The fields of an object, rearranged by ascending key. */
  ghost predicate InKeyOrder(ordered: seq<Field>, fields: seq<Field>) {
    multiset(ordered) == multiset(fields) && Ascending(Keys(ordered))
  }

  lemma MembersTail(fields: seq<Field>)
    requires fields != []
    ensures Members(fields)[1..] == Members(fields[1..])
  {
  }

  lemma KeysTail(fields: seq<Field>)
    requires fields != []
    ensures Keys(fields)[1..] == Keys(fields[1..])
  {
  }

  lemma MemberIsEntry(fields: seq<Field>, f: Field)
    requires DistinctKeys(fields) && f in fields
    ensures f.key in Keys(fields) && Member(f) == Entry(f.key, Canonical(fields[IndexOf(fields, f.key)].value))
  {
    var i :| 0 <= i < |fields| && fields[i] == f;
    assert Keys(fields)[i] == f.key;
    IndexOfIs(fields, i);
  }

  lemma {:induction false} EntriesAreMembers(fields: seq<Field>, ordered: seq<Field>)
    requires DistinctKeys(fields) && forall f :: f in ordered ==> f in fields
    ensures forall k :: k in Keys(ordered) ==> k in Keys(fields)
    ensures Entries(fields, Keys(ordered)) == Commas(Members(ordered))
    decreases |ordered|
  {
    forall f | f in ordered ensures f.key in Keys(fields) {
      MemberIsEntry(fields, f);
    }
    forall k | k in Keys(ordered) ensures k in Keys(fields) {
      var i :| 0 <= i < |ordered| && Keys(ordered)[i] == k;
      assert ordered[i] in ordered;
    }
    if ordered != [] {
      EntriesAreMembers(fields, ordered[1..]);
      KeysTail(ordered);
      MembersTail(ordered);
      MemberIsEntry(fields, ordered[0]);
    }
  }

  lemma SameKeys(a: seq<Field>, b: seq<Field>)
    requires forall f :: f in a ==> f in b
    ensures forall k :: k in Keys(a) ==> k in Keys(b)
  {
    forall k | k in Keys(a) ensures k in Keys(b) {
      var i :| 0 <= i < |a| && Keys(a)[i] == k;
      assert a[i] in b;
      var j :| 0 <= j < |b| && b[j] == a[i];
      assert Keys(b)[j] == k;
    }
  }

  lemma SameFieldsIn(a: seq<Field>, b: seq<Field>)
    requires multiset(a) == multiset(b)
    ensures forall f :: f in a <==> f in b
  {
    forall f ensures f in a <==> f in b {
      assert f in a <==> f in multiset(a);
      assert f in b <==> f in multiset(b);
    }
  }

  lemma OrderedKeys(ordered: seq<Field>, fields: seq<Field>)
    requires DistinctKeys(fields) && InKeyOrder(ordered, fields)
    ensures SortedKeys(fields) == Keys(ordered)
  {
    SameFieldsIn(ordered, fields);
    SameKeys(ordered, fields);
    SameKeys(fields, ordered);
    forall i, j | 0 <= i < j < |ordered| ensures Keys(ordered)[i] != Keys(ordered)[j] {
      LessEqExactly(Keys(ordered)[i], Keys(ordered)[j]);
    }
    SameElements(Keys(ordered), Keys(fields));
    AscendingIsSorted(Keys(ordered), Keys(fields), Itself);
  }

  /** An object prints its members in ascending order of their keys, comma between, key and value with a colon
      between, inside braces. */
  lemma ObjectIs(fields: seq<Field>, ordered: seq<Field>)
    requires DistinctKeys(fields) && InKeyOrder(ordered, fields)
    ensures Canonical(Obj(fields)) == [OPEN_BRACE] + Commas(Members(ordered)) + [CLOSE_BRACE]
  {
    OrderedKeys(ordered, fields);
    SameFieldsIn(ordered, fields);
    EntriesAreMembers(fields, ordered);
  }

  lemma PickedMembers(fields: seq<Field>, ks: seq<JsString>, ordered: seq<Field>)
    requires DistinctKeys(fields) && forall k :: k in ks <==> k in Keys(fields)
    requires |ordered| == |ks| && forall i :: 0 <= i < |ks| ==> ordered[i] == fields[IndexOf(fields, ks[i])]
    ensures forall f :: f in fields ==> f in ordered
  {
    forall f | f in fields ensures f in ordered {
      var i :| 0 <= i < |fields| && fields[i] == f;
      assert Keys(fields)[i] == f.key;
      IndexOfIs(fields, i);
      var j :| 0 <= j < |ks| && ks[j] == f.key;
      assert ordered[j] == f;
    }
  }

  /** And there is such an order. */
  lemma KeyOrderExists(fields: seq<Field>) returns (ordered: seq<Field>)
    requires DistinctKeys(fields)
    ensures InKeyOrder(ordered, fields)
  {
    var ks := SortedKeys(fields);
    SortAscends(Keys(fields), Itself);
    SortedMembers(fields);
    ordered := seq(|ks|, i requires 0 <= i < |ks| => fields[IndexOf(fields, ks[i])]);
    assert Keys(ordered) == ks;
    forall i, j | 0 <= i < j < |ordered| ensures ordered[i] != ordered[j] {
      LessEqExactly(ks[i], ks[j]);
    }
    PickedMembers(fields, ks, ordered);
    SameElements(ordered, fields);
  }

  /** An array prints its elements in order, comma between, inside brackets. */
  lemma ArrayIs(items: seq<Json>)
    requires forall i :: 0 <= i < |items| ==> !items[i].Undefined?
    ensures Canonical(Arr(items)) == [OPEN_BRACKET] + Commas(Elements(items)) + [CLOSE_BRACKET]
  {
    ItemsAreElements(items);
  }

  lemma {:induction false} ItemsAreElements(items: seq<Json>)
    requires forall i :: 0 <= i < |items| ==> !items[i].Undefined?
    ensures Items(items) == Commas(Elements(items))
  {
    if items != [] {
      ItemsAreElements(items[1..]);
      assert Elements(items)[1..] == Elements(items[1..]);
    }
  }

  // ----- concrete texts ---------------------------------------------------------

  lemma PairText(a: Field, b: Field)
    requires SmallerAt(a.key, b.key, 0)
    ensures Canonical(Obj([b, a])) == [OPEN_BRACE] + (Member(a) + ([COMMA] + Member(b))) + [CLOSE_BRACE]
  {
    assert a.key != b.key;
    assert Keys([a, b]) == [a.key, b.key];
    assert InKeyOrder([a, b], [b, a]);
    ObjectIs([b, a], [a, b]);
    assert Members([a, b]) == [Member(a), Member(b)] && [Member(a), Member(b)][1..] == [Member(b)];
  }

  lemma ShortMember(f: Field, u: CodeUnit, d: nat)
    requires f.key == [u] && 97 <= u <= 122 && f.value == Num(d) && d < 10
    ensures Member(f) == [34, u, 34, 58, 48 + d]
  {
    assert f.key[1..] == [] && Escaped(f.key) == [u];
    assert Canonical(f.value) == [48 + d];
  }

  /** `{"b":2,"a":1}` prints as `{"a":1,"b":2}`. */
  lemma KeysAscend(a: Field, b: Field)
    requires a == Field([97], Num(1)) && b == Field([98], Num(2))
    ensures Canonical(Obj([b, a])) == [123, 34, 97, 34, 58, 49, 44, 34, 98, 34, 58, 50, 125]
  {
    PairText(a, b);
    ShortMember(a, 97, 1);
    ShortMember(b, 98, 2);
  }

  lemma EscapeOne(u: CodeUnit, rest: JsString)
    requires !HighSurrogate(u)
    ensures Escaped([u] + rest) == EscapeUnit(u) + Escaped(rest)
  {
    assert ([u] + rest)[1..] == rest;
  }

  /** What becomes of a quote, a backslash, a tab and a line feed. */
  lemma ShortEscapesAre(rest: JsString)
    ensures Escaped([34] + rest) == [92, 34] + Escaped(rest)
    ensures Escaped([92] + rest) == [92, 92] + Escaped(rest)
    ensures Escaped([9] + rest) == [92, 116] + Escaped(rest)
    ensures Escaped([10] + rest) == [92, 110] + Escaped(rest)
  {
    EscapeOne(34, rest);
    EscapeOne(92, rest);
    EscapeOne(9, rest);
    EscapeOne(10, rest);
  }

  /** What becomes of another control character, a lone surrogate and an accented letter. */
  lemma LongEscapesAre(rest: JsString)
    ensures Escaped([31] + rest) == [92, 117, 48, 48, 49, 102] + Escaped(rest)
    ensures Escaped([0xDC01] + rest) == [92, 117, 100, 99, 48, 49] + Escaped(rest)
    ensures Escaped([233] + rest) == [233] + Escaped(rest)
  {
    EscapeOne(31, rest);
    assert EscapeUnit(31) == [92, 117, 48, 48, 49, 102];
    EscapeOne(0xDC01, rest);
    assert EscapeUnit(0xDC01) == [92, 117, 100, 99, 48, 49];
    EscapeOne(233, rest);
  }
}
