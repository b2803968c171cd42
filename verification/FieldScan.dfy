/** The scan of remote tool parameters for reserved identity fields: a bounded loop over an explicit stack. */
module FieldScan {
  /** Parsed JSON; the scan looks at structure and keys only. */
  datatype Value = Scalar | Arr(items: seq<Value>) | Obj(fields: seq<Field>)
  datatype Field = Field(key: string, value: Value)

  const RESERVED :=
    {"clientId", "clientType", "deviceId", "sessionId", "authenticated", "spkiPin", "actor", "operatorId"}
  const MAX_NODES := 8192
  const MAX_DEPTH := 32

  /** How a value is reached from the one that holds it. */
  datatype PathStep = Index(i: nat) | Key(key: string)

  datatype Finding = Accepted | Injected(path: string) | OverBudget | OverDepth

  datatype Item = Item(value: Value, path: seq<PathStep>, depth: nat)

  function Decimal(n: nat): string {
    if n < 10 then ["0123456789"[n]] else Decimal(n / 10) + ["0123456789"[n % 10]]
  }

  /** The dotted path that is reported. */
  function Render(path: seq<PathStep>): string {
    if path == [] then ""
    else
      var before := Render(path[..|path| - 1]);
      match path[|path| - 1]
      case Index(i) => before + "[" + Decimal(i) + "]"
      case Key(k) => if before == "" then k else before + "." + k
  }

  /** A path is reported as in `a.b[0].c`. */
  lemma RenderIs(path: seq<PathStep>, k: string, i: nat)
    ensures Render([Key(k)]) == k && Render([Index(i)]) == "[" + Decimal(i) + "]"
    ensures Render(path) != "" ==> Render(path + [Key(k)]) == Render(path) + "." + k
    ensures Render(path + [Index(i)]) == Render(path) + "[" + Decimal(i) + "]"
  {
    assert [Key(k)][..0] == [] && [Index(i)][..0] == [];
    assert (path + [Key(k)])[..|path|] == path && (path + [Index(i)])[..|path|] == path;
    assert "" + "[" == "[";
  }

  // ----- what the scan decides -------------------------------------------------

  /** Some object at any depth has a reserved key. */
  predicate HasReserved(v: Value) {
    match v
    case Scalar => false
    case Arr(items) => exists i :: 0 <= i < |items| && HasReserved(items[i])
    case Obj(fields) => exists i :: 0 <= i < |fields| && (fields[i].key in RESERVED || HasReserved(fields[i].value))
  }

  /** A value at the given depth, or one inside it, lies too deep. */
  predicate TooDeep(v: Value, depth: nat) {
    depth > MAX_DEPTH ||
    match v
    case Scalar => false
    case Arr(items) => exists i :: 0 <= i < |items| && TooDeep(items[i], depth + 1)
    case Obj(fields) => exists i :: 0 <= i < |fields| && TooDeep(fields[i].value, depth + 1)
  }

  /** How many values there are. */
  function Nodes(v: Value): nat
    decreases v, 1
  {
    match v
    case Scalar => 1
    case Arr(items) => 1 + ItemNodes(items)
    case Obj(fields) => 1 + FieldNodes(fields)
  }

  function ItemNodes(items: seq<Value>): nat
    decreases items, 0
  {
    if items == [] then 0 else Nodes(items[0]) + ItemNodes(items[1..])
  }

  function FieldNodes(fields: seq<Field>): nat
    decreases fields, 0
  {
    if fields == [] then 0 else Nodes(fields[0].value) + FieldNodes(fields[1..])
  }

  ghost predicate Acceptable(v: Value) {
    !HasReserved(v) && Nodes(v) <= MAX_NODES && !TooDeep(v, 0)
  }

  /** Following the path from `v` leads to `target`. */
  ghost predicate Leads(v: Value, path: seq<PathStep>, target: Value) {
    if path == [] then v == target
    else match path[0]
      case Index(i) => v.Arr? && i < |v.items| && Leads(v.items[i], path[1..], target)
      case Key(k) =>
        v.Obj? && exists j :: 0 <= j < |v.fields| && v.fields[j].key == k && Leads(v.fields[j].value, path[1..], target)
  }

  /** The path leads to an object and then names a reserved key of it. */
  ghost predicate LeadsToReserved(v: Value, path: seq<PathStep>, k: string) {
    && k in RESERVED
    && exists o: Value :: Leads(v, path, o) && o.Obj? && exists j :: 0 <= j < |o.fields| && o.fields[j].key == k
  }

  // ----- the recursion and the paths -------------------------------------------

  lemma LeadsItem(v: Value, i: nat, path: seq<PathStep>, target: Value)
    requires v.Arr? && i < |v.items| && Leads(v.items[i], path, target)
    ensures Leads(v, [Index(i)] + path, target)
  {
    assert ([Index(i)] + path)[1..] == path;
  }

  lemma LeadsField(v: Value, j: nat, path: seq<PathStep>, target: Value)
    requires v.Obj? && j < |v.fields| && Leads(v.fields[j].value, path, target)
    ensures Leads(v, [Key(v.fields[j].key)] + path, target)
  {
    assert ([Key(v.fields[j].key)] + path)[1..] == path;
  }

  lemma {:induction false} ReservedHasPath(v: Value) returns (path: seq<PathStep>, k: string, o: Value)
    requires HasReserved(v)
    ensures k in RESERVED && Leads(v, path, o) && o.Obj? && exists j :: 0 <= j < |o.fields| && o.fields[j].key == k
    decreases v
  {
    match v
    case Arr(items) =>
      var i :| 0 <= i < |items| && HasReserved(items[i]);
      path, k, o := ReservedHasPath(items[i]);
      LeadsItem(v, i, path, o);
      path := [Index(i)] + path;
    case Obj(fields) =>
      var i :| 0 <= i < |fields| && (fields[i].key in RESERVED || HasReserved(fields[i].value));
      if fields[i].key in RESERVED {
        path, k, o := [], fields[i].key, v;
      } else {
        path, k, o := ReservedHasPath(fields[i].value);
        LeadsField(v, i, path, o);
        path := [Key(fields[i].key)] + path;
      }
  }

  lemma {:induction false} PathHasReserved(v: Value, path: seq<PathStep>, k: string, o: Value)
    requires k in RESERVED && Leads(v, path, o) && o.Obj? && exists j :: 0 <= j < |o.fields| && o.fields[j].key == k
    ensures HasReserved(v)
    decreases |path|
  {
    if path != [] {
      match path[0]
      case Index(i) => PathHasReserved(v.items[i], path[1..], k, o);
      case Key(name) =>
        var j :| 0 <= j < |v.fields| && v.fields[j].key == name && Leads(v.fields[j].value, path[1..], o);
        PathHasReserved(v.fields[j].value, path[1..], k, o);
    }
  }

  /** Some object has a reserved key exactly when a path leads to one that has. */
  lemma ReservedExactly(v: Value)
    ensures HasReserved(v) <==> exists path, k :: LeadsToReserved(v, path, k)
  {
    if HasReserved(v) {
      var path, k, o := ReservedHasPath(v);
      assert LeadsToReserved(v, path, k);
    }
    if path, k :| LeadsToReserved(v, path, k) {
      var o: Value :| Leads(v, path, o) && o.Obj? && exists j :: 0 <= j < |o.fields| && o.fields[j].key == k;
      PathHasReserved(v, path, k, o);
    }
  }

  lemma {:induction false} DeepHasPath(v: Value, depth: nat) returns (path: seq<PathStep>, o: Value)
    requires TooDeep(v, depth)
    ensures Leads(v, path, o) && depth + |path| > MAX_DEPTH
    decreases v
  {
    if depth > MAX_DEPTH {
      path, o := [], v;
    } else {
      match v
      case Arr(items) =>
        var i :| 0 <= i < |items| && TooDeep(items[i], depth + 1);
        path, o := DeepHasPath(items[i], depth + 1);
        LeadsItem(v, i, path, o);
        path := [Index(i)] + path;
      case Obj(fields) =>
        var i :| 0 <= i < |fields| && TooDeep(fields[i].value, depth + 1);
        path, o := DeepHasPath(fields[i].value, depth + 1);
        LeadsField(v, i, path, o);
        path := [Key(fields[i].key)] + path;
    }
  }

  lemma {:induction false} PathIsDeep(v: Value, depth: nat, path: seq<PathStep>, o: Value)
    requires Leads(v, path, o) && depth + |path| > MAX_DEPTH
    ensures TooDeep(v, depth)
    decreases |path|
  {
    if path != [] && depth <= MAX_DEPTH {
      match path[0]
      case Index(i) => PathIsDeep(v.items[i], depth + 1, path[1..], o);
      case Key(name) =>
        var j :| 0 <= j < |v.fields| && v.fields[j].key == name && Leads(v.fields[j].value, path[1..], o);
        PathIsDeep(v.fields[j].value, depth + 1, path[1..], o);
    }
  }

  ghost predicate LeadsDeep(v: Value, path: seq<PathStep>) {
    |path| > 32 && exists o: Value :: Leads(v, path, o)
  }

  /** A value lies too deep exactly when a path of more than 32 steps leads to one. */
  lemma DeepExactly(v: Value)
    ensures TooDeep(v, 0) <==> exists path :: LeadsDeep(v, path)
  {
    if TooDeep(v, 0) {
      var path, o := DeepHasPath(v, 0);
      assert LeadsDeep(v, path);
    }
    if path :| LeadsDeep(v, path) {
      var o: Value :| Leads(v, path, o);
      PathIsDeep(v, 0, path, o);
    }
  }

  lemma {:induction false} LeadsOn(v: Value, path: seq<PathStep>, target: Value, step: PathStep, next: Value)
    requires Leads(v, path, target) && Leads(target, [step], next)
    ensures Leads(v, path + [step], next)
  {
    if path == [] {
      assert path + [step] == [step];
    } else {
      assert (path + [step])[0] == path[0] && (path + [step])[1..] == path[1..] + [step];
      match path[0]
      case Index(i) => LeadsOn(v.items[i], path[1..], target, step, next);
      case Key(k) =>
        var j :| 0 <= j < |v.fields| && v.fields[j].key == k && Leads(v.fields[j].value, path[1..], target);
        LeadsOn(v.fields[j].value, path[1..], target, step, next);
    }
  }

  // ----- the stack -------------------------------------------------------------

  function StackNodes(stack: seq<Item>): nat {
    if stack == [] then 0 else StackNodes(stack[..|stack| - 1]) + Nodes(stack[|stack| - 1].value)
  }

  lemma Push(stack: seq<Item>, x: Item)
    ensures StackNodes(stack + [x]) == StackNodes(stack) + Nodes(x.value)
  {
    assert (stack + [x])[..|stack|] == stack;
  }

  ghost predicate AllLead(v: Value, stack: seq<Item>) {
    forall i :: 0 <= i < |stack| ==> Leads(v, stack[i].path, stack[i].value)
  }

  ghost predicate SomeReserved(stack: seq<Item>) {
    exists i :: 0 <= i < |stack| && HasReserved(stack[i].value)
  }

  ghost predicate SomeDeep(stack: seq<Item>) {
    exists i :: 0 <= i < |stack| && TooDeep(stack[i].value, stack[i].depth)
  }

  /** The elements of an array, as they are pushed. */
  function ItemKids(x: Item, items: seq<Value>, n: nat): seq<Item>
    requires n <= |items|
  {
    seq(n, i requires 0 <= i < n => Item(items[i], x.path + [Index(i)], x.depth + 1))
  }

  function FieldKids(x: Item, fields: seq<Field>, n: nat): seq<Item>
    requires n <= |fields|
  {
    seq(n, i requires 0 <= i < n => Item(fields[i].value, x.path + [Key(fields[i].key)], x.depth + 1))
  }

  lemma {:induction false} ItemNodesSplit(items: seq<Value>, n: nat)
    requires n < |items|
    ensures ItemNodes(items[..n + 1]) == ItemNodes(items[..n]) + Nodes(items[n])
  {
    if n > 0 {
      ItemNodesSplit(items[1..], n - 1);
      assert items[..n + 1][1..] == items[1..][..n] && items[..n][1..] == items[1..][..n - 1];
    }
  }

  lemma {:induction false} FieldNodesSplit(fields: seq<Field>, n: nat)
    requires n < |fields|
    ensures FieldNodes(fields[..n + 1]) == FieldNodes(fields[..n]) + Nodes(fields[n].value)
  {
    if n > 0 {
      FieldNodesSplit(fields[1..], n - 1);
      assert fields[..n + 1][1..] == fields[1..][..n] && fields[..n][1..] == fields[1..][..n - 1];
    }
  }

  method PushItems(stack: seq<Item>, x: Item, items: seq<Value>) returns (after: seq<Item>)
    ensures after == stack + ItemKids(x, items, |items|)
    ensures StackNodes(after) == StackNodes(stack) + ItemNodes(items)
  {
    after := stack;
    var i := 0;
    while i < |items|
      invariant 0 <= i <= |items|
      invariant after == stack + ItemKids(x, items, i)
      invariant StackNodes(after) == StackNodes(stack) + ItemNodes(items[..i])
    {
      var kid := Item(items[i], x.path + [Index(i)], x.depth + 1);
      Push(after, kid);
      ItemNodesSplit(items, i);
      after := after + [kid];
      i := i + 1;
    }
    assert items[..i] == items;
  }

  /** Stops at the first reserved key. */
  method PushFields(stack: seq<Item>, x: Item, fields: seq<Field>) returns (after: seq<Item>, reserved: seq<string>)
    ensures |reserved| <= 1
    ensures reserved == [] <==> forall i :: 0 <= i < |fields| ==> fields[i].key !in RESERVED
    ensures reserved != [] ==> reserved[0] in RESERVED && exists i :: 0 <= i < |fields| && fields[i].key == reserved[0]
    ensures reserved == [] ==> after == stack + FieldKids(x, fields, |fields|)
    ensures reserved == [] ==> StackNodes(after) == StackNodes(stack) + FieldNodes(fields)
  {
    after := stack;
    var i := 0;
    while i < |fields|
      invariant 0 <= i <= |fields|
      invariant forall j :: 0 <= j < i ==> fields[j].key !in RESERVED
      invariant after == stack + FieldKids(x, fields, i)
      invariant StackNodes(after) == StackNodes(stack) + FieldNodes(fields[..i])
    {
      if fields[i].key in RESERVED {
        return after, [fields[i].key];
      }
      var kid := Item(fields[i].value, x.path + [Key(fields[i].key)], x.depth + 1);
      Push(after, kid);
      FieldNodesSplit(fields, i);
      after := after + [kid];
      i := i + 1;
    }
    assert fields[..i] == fields;
    return after, [];
  }

  // ----- one value popped ------------------------------------------------------

  /** What a popped value leaves to decide is decided by its kids. */
  ghost predicate Replaces(x: Item, kids: seq<Item>) {
    && (SomeReserved(kids) <==> HasReserved(x.value))
    && (SomeDeep(kids) <==> TooDeep(x.value, x.depth))
  }

  lemma ItemKidsReplace(v: Value, x: Item)
    requires x.value.Arr? && x.depth <= MAX_DEPTH && Leads(v, x.path, x.value)
    ensures Replaces(x, ItemKids(x, x.value.items, |x.value.items|))
    ensures AllLead(v, ItemKids(x, x.value.items, |x.value.items|))
  {
    var items := x.value.items;
    var kids := ItemKids(x, items, |items|);
    forall i | 0 <= i < |kids| ensures Leads(v, kids[i].path, kids[i].value) {
      assert [Index(i)][1..] == [];
      LeadsOn(v, x.path, x.value, Index(i), items[i]);
    }
    assert forall i :: 0 <= i < |items| ==> kids[i].value == items[i] && kids[i].depth == x.depth + 1;
  }

  lemma FieldKidsReplace(v: Value, x: Item)
    requires x.value.Obj? && x.depth <= MAX_DEPTH && Leads(v, x.path, x.value)
    requires forall i :: 0 <= i < |x.value.fields| ==> x.value.fields[i].key !in RESERVED
    ensures Replaces(x, FieldKids(x, x.value.fields, |x.value.fields|))
    ensures AllLead(v, FieldKids(x, x.value.fields, |x.value.fields|))
  {
    var fields := x.value.fields;
    var kids := FieldKids(x, fields, |fields|);
    forall i | 0 <= i < |kids| ensures Leads(v, kids[i].path, kids[i].value) {
      assert [Key(fields[i].key)][1..] == [];
      LeadsOn(v, x.path, x.value, Key(fields[i].key), fields[i].value);
    }
    assert forall i :: 0 <= i < |fields| ==> kids[i].value == fields[i].value && kids[i].depth == x.depth + 1;
  }

  /** The loop's bookkeeping: nothing seen is forgotten, and nothing is counted twice. */
  ghost predicate Pending(v: Value, stack: seq<Item>, visited: nat) {
    && AllLead(v, stack)
    && visited + StackNodes(stack) == Nodes(v) && visited <= MAX_NODES
    && (HasReserved(v) <==> SomeReserved(stack))
    && (TooDeep(v, 0) <==> SomeDeep(stack))
  }

  lemma Popped(stack: seq<Item>)
    requires stack != []
    ensures var rest, x := stack[..|stack| - 1], stack[|stack| - 1];
      && (SomeReserved(stack) <==> SomeReserved(rest) || HasReserved(x.value))
      && (SomeDeep(stack) <==> SomeDeep(rest) || TooDeep(x.value, x.depth))
  {
  }

  lemma Joined(rest: seq<Item>, kids: seq<Item>)
    ensures SomeReserved(rest + kids) <==> SomeReserved(rest) || SomeReserved(kids)
    ensures SomeDeep(rest + kids) <==> SomeDeep(rest) || SomeDeep(kids)
  {
    var all := rest + kids;
    assert forall i :: 0 <= i < |rest| ==> all[i] == rest[i];
    assert forall i :: 0 <= i < |kids| ==> all[|rest| + i] == kids[i];
  }

  lemma Continues(v: Value, stack: seq<Item>, visited: nat, kids: seq<Item>, after: seq<Item>)
    requires Pending(v, stack, visited) && stack != [] && visited < MAX_NODES
    requires var rest, x := stack[..|stack| - 1], stack[|stack| - 1];
      && after == rest + kids && Replaces(x, kids) && AllLead(v, kids)
      && StackNodes(after) + 1 == StackNodes(rest) + Nodes(x.value)
    ensures Pending(v, after, visited + 1)
  {
    var rest := stack[..|stack| - 1];
    Popped(stack);
    Joined(rest, kids);
  }

  method FindActorFieldInjection(parameters: Value) returns (finding: Finding)
    ensures finding.Accepted? <==> Acceptable(parameters)
    ensures finding.OverBudget? ==> Nodes(parameters) > MAX_NODES
    ensures finding.OverDepth? ==> TooDeep(parameters, 0)
    ensures finding.Injected? ==>
      exists path, k :: LeadsToReserved(parameters, path, k) && finding.path == Render(path + [Key(k)])
  {
    var stack := [Item(parameters, [], 0)];
    var visited := 0;
    assert stack[..0] == [];
    while stack != []
      invariant Pending(parameters, stack, visited)
      decreases StackNodes(stack), |stack|
    {
      var x := stack[|stack| - 1];
      var rest := stack[..|stack| - 1];
      Popped(stack);
      visited := visited + 1;
      if visited > MAX_NODES {
        return OverBudget;
      }
      if x.depth > MAX_DEPTH {
        return OverDepth;
      }
      match x.value {
        case Scalar =>
          assert rest == rest + [];
          Continues(parameters, stack, visited - 1, [], rest);
          stack := rest;
        case Arr(items) =>
          var after := PushItems(rest, x, items);
          ItemKidsReplace(parameters, x);
          Continues(parameters, stack, visited - 1, ItemKids(x, items, |items|), after);
          stack := after;
        case Obj(fields) =>
          var after, reserved := PushFields(rest, x, fields);
          if reserved != [] {
            assert LeadsToReserved(parameters, x.path, reserved[0]);
            return Injected(Render(x.path + [Key(reserved[0])]));
          }
          FieldKidsReplace(parameters, x);
          Continues(parameters, stack, visited - 1, FieldKids(x, fields, |fields|), after);
          stack := after;
      }
    }
    return Accepted;
  }
}
