/** `copyBounded`, the defensive copy handed to callers of the audit chain. */
module RecordCopies {
  import opened JsStrings
  import opened CanonicalJson
  import opened CanonicalJsonProofs

  /** Assigning `__proto__` on the fresh object runs the prototype setter and leaves no own key. */
  function Copied(v: Json): Json {
    match v
    case Arr(items) => Arr(CopiedItems(items))
    case Obj(fields) => Obj(CopiedFields(fields))
    case _ => v
  }

  function CopiedItems(items: seq<Json>): seq<Json> {
    if items == [] then [] else [Copied(items[0])] + CopiedItems(items[1..])
  }

  function CopiedFields(fields: seq<Field>): seq<Field> {
    if fields == [] then []
    else if fields[0].key == PROTO_KEY then CopiedFields(fields[1..])
    else [Field(fields[0].key, Copied(fields[0].value))] + CopiedFields(fields[1..])
  }

  method CopyBounded(v: Json) returns (copy: Json)
    ensures copy == Copied(v)
  {
    match v {
      case Arr(items) =>
        var out: seq<Json> := [];
        var i := 0;
        while i < |items|
          invariant 0 <= i <= |items| && out + CopiedItems(items[i..]) == CopiedItems(items)
        {
          assert items[i..][1..] == items[i + 1..];
          var item := CopyBounded(items[i]);
          out := out + [item];
          i := i + 1;
        }
        copy := Arr(out);
      case Obj(fields) =>
        var out: seq<Field> := [];
        var i := 0;
        while i < |fields|
          invariant 0 <= i <= |fields| && out + CopiedFields(fields[i..]) == CopiedFields(fields)
        {
          assert fields[i..][1..] == fields[i + 1..];
          var value := CopyBounded(fields[i].value);
          if fields[i].key != PROTO_KEY {
            out := out + [Field(fields[i].key, value)];
          }
          i := i + 1;
        }
        copy := Obj(out);
      case _ => copy := v;
    }
  }

  ghost predicate NoProtoKey(v: Json) {
    match v
    case Arr(items) => forall i :: 0 <= i < |items| ==> NoProtoKey(items[i])
    case Obj(fields) => forall i :: 0 <= i < |fields| ==> fields[i].key != PROTO_KEY && NoProtoKey(fields[i].value)
    case _ => true
  }

  lemma {:induction false} CopiesItself(v: Json)
    requires NoProtoKey(v)
    ensures Copied(v) == v
    decreases v, 1
  {
    match v
    case Arr(items) => ItemsCopyThemselves(items);
    case Obj(fields) => FieldsCopyThemselves(fields);
    case _ =>
  }

  lemma {:induction false} ItemsCopyThemselves(items: seq<Json>)
    requires forall i :: 0 <= i < |items| ==> NoProtoKey(items[i])
    ensures CopiedItems(items) == items
    decreases items, 0
  {
    if items != [] {
      CopiesItself(items[0]);
      ItemsCopyThemselves(items[1..]);
    }
  }

  lemma {:induction false} FieldsCopyThemselves(fields: seq<Field>)
    requires forall i :: 0 <= i < |fields| ==> fields[i].key != PROTO_KEY && NoProtoKey(fields[i].value)
    ensures CopiedFields(fields) == fields
    decreases fields, 0
  {
    if fields != [] {
      CopiesItself(fields[0].value);
      FieldsCopyThemselves(fields[1..]);
    }
  }

  lemma {:induction false} CopiedItemsAre(items: seq<Json>)
    ensures |CopiedItems(items)| == |items|
    ensures forall i :: 0 <= i < |items| ==> CopiedItems(items)[i] == Copied(items[i])
  {
    if items != [] {
      CopiedItemsAre(items[1..]);
    }
  }

  /** The copy keeps exactly the other fields, each copied. */
  lemma {:induction false} CopiedFieldsAre(fields: seq<Field>)
    ensures forall f :: f in CopiedFields(fields) ==>
              f.key != PROTO_KEY && exists g :: g in fields && g.key == f.key && f.value == Copied(g.value)
    ensures forall g :: g in fields && g.key != PROTO_KEY ==> Field(g.key, Copied(g.value)) in CopiedFields(fields)
  {
    if fields != [] {
      CopiedFieldsAre(fields[1..]);
      assert fields == [fields[0]] + fields[1..];
    }
  }

  lemma LostField(fields: seq<Field>, i: nat)
    requires i < |fields| && fields[i].key == PROTO_KEY
    ensures !Same(Copied(Obj(fields)), Obj(fields))
  {
    CopiedFieldsAre(fields);
    assert Keys(fields)[i] == PROTO_KEY;
    assert PROTO_KEY !in Keys(CopiedFields(fields));
  }

  lemma ChangedField(fields: seq<Field>, i: nat)
    requires i < |fields| && fields[i].key != PROTO_KEY && !Same(Copied(fields[i].value), fields[i].value)
    ensures !Same(Copied(Obj(fields)), Obj(fields))
  {
    var copied := CopiedFields(fields);
    CopiedFieldsAre(fields);
    assert Field(fields[i].key, Copied(fields[i].value)) in copied;
    var j :| 0 <= j < |copied| && copied[j] == Field(fields[i].key, Copied(fields[i].value));
    assert copied[j].key == fields[i].key && !Same(copied[j].value, fields[i].value);
  }

  /** A lost `__proto__` key is a real difference, at whatever depth. */
  lemma {:induction false} LostKeyShows(v: Json)
    requires !NoProtoKey(v)
    ensures !Same(Copied(v), v)
    decreases v
  {
    match v
    case Arr(items) =>
      var i :| 0 <= i < |items| && !NoProtoKey(items[i]);
      LostKeyShows(items[i]);
      CopiedItemsAre(items);
    case Obj(fields) =>
      var i :| 0 <= i < |fields| && !(fields[i].key != PROTO_KEY && NoProtoKey(fields[i].value));
      if fields[i].key == PROTO_KEY {
        LostField(fields, i);
      } else {
        LostKeyShows(fields[i].value);
        ChangedField(fields, i);
      }
    case _ =>
  }

  lemma {:induction false} CopyPrintable(v: Json)
    requires Printable(v)
    ensures Printable(Copied(v))
    decreases v
  {
    match v
    case Arr(items) =>
      CopiedItemsAre(items);
      forall i | 0 <= i < |items| ensures Printable(Copied(items[i])) { CopyPrintable(items[i]); }
    case Obj(fields) =>
      var copied := CopiedFields(fields);
      CopiedFieldsAre(fields);
      CopiedKeysDistinct(fields);
      forall j | 0 <= j < |copied| ensures copied[j].value.Undefined? || Printable(copied[j].value) {
        assert copied[j] in copied;
        var g :| g in fields && g.key == copied[j].key && copied[j].value == Copied(g.value);
        var i :| 0 <= i < |fields| && fields[i] == g;
        if !fields[i].value.Undefined? {
          CopyPrintable(fields[i].value);
        }
      }
    case _ =>
  }

  lemma {:induction false} CopiedKeysDistinct(fields: seq<Field>)
    requires DistinctKeys(fields)
    ensures DistinctKeys(CopiedFields(fields))
  {
    if fields != [] {
      CopiedKeysDistinct(fields[1..]);
      var rest := CopiedFields(fields[1..]);
      CopiedFieldsAre(fields[1..]);
      forall j | 0 <= j < |rest| ensures rest[j].key != fields[0].key {
        assert rest[j] in rest;
        var g :| g in fields[1..] && g.key == rest[j].key;
        var i :| 0 <= i < |fields[1..]| && fields[1..][i] == g;
        assert fields[0].key != fields[i + 1].key;
      }
    }
  }

  /** The copy is hash-faithful exactly when no object in the tree has an own `__proto__` key. */
  lemma CopyFaithfulExactly(v: Json)
    requires Printable(v)
    ensures Canonical(Copied(v)) == Canonical(v) <==> NoProtoKey(v)
  {
    CopyPrintable(v);
    CanonicalDecidesSame(Copied(v), v);
    if NoProtoKey(v) {
      CopiesItself(v);
    } else {
      LostKeyShows(v);
    }
  }

  /** What has been copied once holds no such key, so that later copies of it are faithful. */
  lemma {:induction false} CopyHasNoProtoKey(v: Json)
    ensures NoProtoKey(Copied(v))
    decreases v
  {
    match v
    case Arr(items) =>
      CopiedItemsAre(items);
      forall i | 0 <= i < |items| ensures NoProtoKey(Copied(items[i])) { CopyHasNoProtoKey(items[i]); }
    case Obj(fields) =>
      var copied := CopiedFields(fields);
      CopiedFieldsAre(fields);
      forall j | 0 <= j < |copied| ensures copied[j].key != PROTO_KEY && NoProtoKey(copied[j].value) {
        assert copied[j] in copied;
        var g :| g in fields && g.key == copied[j].key && copied[j].value == Copied(g.value);
        var i :| 0 <= i < |fields| && fields[i] == g;
        CopyHasNoProtoKey(fields[i].value);
      }
    case _ =>
  }

  lemma CopyingAgainIsFaithful(v: Json)
    ensures Copied(Copied(v)) == Copied(v)
  {
    CopyHasNoProtoKey(v);
    CopiesItself(Copied(v));
  }

  lemma OnlyProto(fields: seq<Field>)
    requires |fields| == 1 && fields[0].key == PROTO_KEY
    ensures CopiedFields(fields) == []
  {
    assert fields[1..] == [];
  }

  lemma OnlyFieldPrints(fields: seq<Field>)
    requires |fields| == 1 && Printable(fields[0].value)
    ensures Printable(Obj(fields))
  {
  }

  /** An object whose only field is `__proto__` is copied to one without fields, and so to another text. */
  lemma ProtoFieldIsLost(fields: seq<Field>)
    requires |fields| == 1 && fields[0].key == PROTO_KEY && Printable(fields[0].value)
    ensures Copied(Obj(fields)) == Obj([]) && Canonical(Copied(Obj(fields))) != Canonical(Obj(fields))
  {
    OnlyProto(fields);
    OnlyFieldPrints(fields);
    assert !NoProtoKey(Obj(fields));
    CopyFaithfulExactly(Obj(fields));
  }

  /** `{"__proto__":null}` */
  lemma ProtoNullIsLost(v: Json)
    requires v.Obj? && v.fields == [Field(PROTO_KEY, Null)]
    ensures Copied(v) == Obj([]) && Canonical(Copied(v)) != Canonical(v)
  {
    ProtoFieldIsLost(v.fields);
  }
}
