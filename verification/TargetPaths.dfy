/** Target paths for policy matching, on POSIX path semantics. */
module TargetPaths {
  import opened Options
  import opened Texts

  /** What a caller supplied as a path. */
  datatype Candidate = NotSupplied | NotText | Supplied(text: string)

  /** `undefined`, `null`, `''` and a path. */
  datatype Target = NoPath | Unsafe | WorkspaceRoot | Path(text: string)

  /** A name: not empty, not `.` or `..`, and without a separator. */
  predicate Proper(segment: string) {
    segment != "" && segment != "." && segment != ".." && Without(segment, '/')
  }

  predicate AllProper(segments: seq<string>) {
    forall i :: 0 <= i < |segments| ==> Proper(segments[i])
  }

  // ----- path.resolve and path.relative on segments ----------------------------

  function Follow(at: seq<string>, segment: string): seq<string> {
    if segment == "" || segment == "." then at
    else if segment == ".." then (if at == [] then at else at[..|at| - 1])
    else at + [segment]
  }

  function Walk(at: seq<string>, segments: seq<string>): seq<string>
    decreases |segments|
  {
    if segments == [] then at else Walk(Follow(at, segments[0]), segments[1..])
  }

  /** Where a relative path leads from an absolute location, given by its segments. */
  function Resolve(root: seq<string>, path: string): seq<string> {
    Walk(root, Split(path, '/'))
  }

  function Common(a: seq<string>, b: seq<string>): (n: nat)
    ensures n <= |a| && n <= |b| && a[..n] == b[..n]
    ensures n < |a| && n < |b| ==> a[n] != b[n]
  {
    if a == [] || b == [] || a[0] != b[0] then 0
    else
      var n := Common(a[1..], b[1..]);
      assert a[..n + 1] == [a[0]] + a[1..][..n] && b[..n + 1] == [b[0]] + b[1..][..n];
      n + 1
  }

  function Relative(from: seq<string>, to: seq<string>): seq<string> {
    var n := Common(from, to);
    Repeat("..", |from| - n) + to[n..]
  }

  // ----- normalizeTargetPathForPolicy ------------------------------------------

  predicate WindowsAbsolute(s: string) {
    |s| >= 3 && IsLetter(s[0]) && s[1] == ':' && (s[2] == '\\' || s[2] == '/')
  }

  /** What is refused before any resolution. */
  predicate Readable(s: string) {
    s != "" && Without(s, '\0') && Without(s, '\\') && s[0] != '/' && !WindowsAbsolute(s)
  }

  /** `root` is the workspace root's segments, or none when the root is the empty string. */
  function Normalize(root: Option<seq<string>>, candidate: Candidate): Target {
    match candidate
    case NotSupplied => NoPath
    case NotText => Unsafe
    case Supplied(text) =>
      if root.None? || !Readable(text) then Unsafe
      else
        var relative := Join(Relative(root.value, Resolve(root.value, text)), '/');
        if relative == "" then WorkspaceRoot
        else if ".." <= relative then Unsafe
        else Path(relative)
  }

  // ----- what is accepted ------------------------------------------------------

  lemma {:induction false} WalkIsProper(at: seq<string>, segments: seq<string>)
    requires AllProper(at) && AllWithout(segments, '/')
    ensures AllProper(Walk(at, segments))
    decreases |segments|
  {
    if segments != [] {
      var next := Follow(at, segments[0]);
      assert AllProper(next);
      WalkIsProper(next, segments[1..]);
    }
  }

  lemma ResolveIsProper(root: seq<string>, path: string)
    requires AllProper(root)
    ensures AllProper(Resolve(root, path))
  {
    SplitIs(path, '/');
    WalkIsProper(root, Split(path, '/'));
  }

  /** Names lead downwards one by one. */
  lemma {:induction false} WalkDown(at: seq<string>, names: seq<string>)
    requires AllProper(names)
    ensures Walk(at, names) == at + names
    decreases |names|
  {
    if names == [] {
      assert at + names == at;
    } else {
      WalkDown(at + [names[0]], names[1..]);
      assert at + [names[0]] + names[1..] == at + names;
    }
  }

  /** Segments are followed one after the other. */
  lemma {:induction false} WalkConcat(at: seq<string>, a: seq<string>, b: seq<string>)
    ensures Walk(at, a + b) == Walk(Walk(at, a), b)
    decreases |a|
  {
    if a == [] {
      assert a + b == b;
    } else {
      assert (a + b)[1..] == a[1..] + b;
      WalkConcat(Follow(at, a[0]), a[1..], b);
    }
  }

  /** What one segment does: nothing for an empty one or a dot, a level up for two dots, which stay at the top of the
      file system, and a level down for a name. */
  lemma WalkOne(at: seq<string>, name: string)
    requires Proper(name)
    ensures Walk(at, [""]) == at && Walk(at, ["."]) == at
    ensures Walk(at, [name]) == at + [name]
    ensures Walk(at + [name], [".."]) == at && Walk([], [".."]) == []
  {
    assert (at + [name])[..|at|] == at;
  }

  /** A name and then two dots lead nowhere, wherever they stand in a path. */
  lemma NameThenUpCancels(root: seq<string>, a: string, name: string, b: string)
    requires Proper(name)
    ensures Resolve(root, a + "/" + (name + "/" + (".." + "/" + b))) == Resolve(root, a + "/" + b)
  {
    var at := Walk(root, Split(a, '/'));
    SplitConcat(a, '/', name + "/" + (".." + "/" + b));
    SplitConcat(a, '/', b);
    WalkConcat(root, Split(a, '/'), Split(b, '/'));
    WalkConcat(root, Split(a, '/'), Split(name + "/" + (".." + "/" + b), '/'));
    UpAfterName(at, name, b);
  }

  lemma UpAfterName(at: seq<string>, name: string, b: string)
    requires Proper(name)
    ensures Walk(at, Split(name + "/" + (".." + "/" + b), '/')) == Walk(at, Split(b, '/'))
  {
    SplitConcat(name, '/', ".." + "/" + b);
    SplitConcat("..", '/', b);
    SplitPlain(name, '/');
    SplitPlain("..", '/');
    WalkOne(at, name);
    WalkConcat(at, [name], [".."] + Split(b, '/'));
    WalkConcat(at + [name], [".."], Split(b, '/'));
  }

  ghost predicate StrictlyInside(root: seq<string>, location: seq<string>) {
    |root| < |location| && location[..|root|] == root
  }

  lemma RelativeInside(root: seq<string>, to: seq<string>)
    requires root == to || StrictlyInside(root, to)
    ensures Relative(root, to) == to[|root|..]
  {
    assert Common(root, to) == |root|;
  }

  lemma RelativeOutside(root: seq<string>, to: seq<string>)
    requires root != to && !StrictlyInside(root, to)
    ensures Relative(root, to) != [] && Relative(root, to)[0] == ".."
  {
    var n := Common(root, to);
    assert root[..|root|] == root && to[..|to|] == to;
  }

  lemma JoinStarts(parts: seq<string>)
    requires parts != []
    ensures parts[0] <= Join(parts, '/')
  {
  }

  lemma {:induction false} StartsWithDots(names: seq<string>)
    requires names != [] && AllProper(names)
    ensures Join(names, '/') != "" && (".." <= Join(names, '/') <==> ".." <= names[0])
  {
    var text := Join(names, '/');
    JoinStarts(names);
    assert names[0] == text[..|names[0]|];
    if |names[0]| == 1 && |names| > 1 {
      assert text[1] == '/';
    }
  }

  /** The answer in terms of where the candidate leads: a path exactly for a readable candidate that leads strictly
      inside the root, unless the first name below the root starts with two dots; the root for the root itself. */
  lemma NormalizeDecides(root: seq<string>, text: string)
    requires AllProper(root)
    ensures var (target, location) := (Normalize(Some(root), Supplied(text)), Resolve(root, text));
      && (target.WorkspaceRoot? <==> Readable(text) && location == root)
      && (target.Path? <==> Readable(text) && StrictlyInside(root, location) && !(".." <= location[|root|]))
      && (target.Path? ==> target.text == Join(location[|root|..], '/'))
      && !target.NoPath?
  {
    var location := Resolve(root, text);
    ResolveIsProper(root, text);
    if root == location || StrictlyInside(root, location) {
      RelativeInside(root, location);
      if StrictlyInside(root, location) {
        StartsWithDots(location[|root|..]);
      }
    } else {
      RelativeOutside(root, location);
      JoinStarts(Relative(root, location));
    }
  }

  /** An accepted path has only proper names, leads where the candidate leads, and that is strictly inside the root. */
  lemma AcceptedIsFaithful(root: seq<string>, text: string, accepted: string)
    requires AllProper(root) && Normalize(Some(root), Supplied(text)) == Path(accepted)
    ensures AllProper(Split(accepted, '/'))
    ensures Resolve(root, accepted) == Resolve(root, text) && StrictlyInside(root, Resolve(root, text))
  {
    NormalizeDecides(root, text);
    var location := Resolve(root, text);
    ResolveIsProper(root, text);
    var names := location[|root|..];
    SplitJoin(names, '/');
    WalkDown(root, names);
    assert location == root + names;
  }

  /** Two accepted spellings give one path exactly when they lead to one location. */
  lemma SpellingsAgree(root: seq<string>, text: string, text': string)
    requires AllProper(root)
    requires Normalize(Some(root), Supplied(text)).Path? && Normalize(Some(root), Supplied(text')).Path?
    ensures Normalize(Some(root), Supplied(text)) == Normalize(Some(root), Supplied(text'))
       <==> Resolve(root, text) == Resolve(root, text')
  {
    NormalizeDecides(root, text);
    NormalizeDecides(root, text');
    AcceptedIsFaithful(root, text, Normalize(Some(root), Supplied(text)).text);
    AcceptedIsFaithful(root, text', Normalize(Some(root), Supplied(text')).text);
  }

  /** Whatever lies below the root was named by the candidate. */
  lemma {:induction false} WalkNames(at: seq<string>, segments: seq<string>, below: nat, c: char)
    requires AllWithout(segments, c) && forall i :: below <= i < |at| ==> Without(at[i], c)
    ensures forall i :: below <= i < |Walk(at, segments)| ==> Without(Walk(at, segments)[i], c)
    decreases |segments|
  {
    if segments != [] {
      var next := Follow(at, segments[0]);
      WalkNames(next, segments[1..], below, c);
    }
  }

  lemma AcceptedKeeps(root: seq<string>, text: string, c: char)
    requires AllProper(root) && Normalize(Some(root), Supplied(text)).Path? && Without(text, c) && c != '/'
    ensures Without(Normalize(Some(root), Supplied(text)).text, c)
  {
    NormalizeDecides(root, text);
    SplitIs(text, '/');
    JoinKeeps(Split(text, '/'), '/', c);
    WalkNames(root, Split(text, '/'), |root|, c);
    JoinWithout(Resolve(root, text)[|root|..], '/', c);
  }

  lemma UpLeads(root: seq<string>, up: string)
    requires up == ".."
    ensures Resolve(root, up) == if root == [] then [] else root[..|root| - 1]
  {
    SplitPlain(up, '/');
    assert Walk(Follow(root, up), [up][1..]) == Follow(root, up);
  }

  /** Refused before any resolution, whatever the root: nothing, a NUL, a backslash, an absolute path, a drive. */
  lemma UnreadableIsRefused(root: Option<seq<string>>, text: string)
    requires || text == "" || '\0' in text || '\\' in text || "/" <= text
             || (|text| >= 3 && text[1] == ':' && text[2] == '/'
                 && ('a' <= text[0] <= 'z' || 'A' <= text[0] <= 'Z'))
    ensures Normalize(root, Supplied(text)) == Unsafe
  {
  }

  /** Two dots lead out of the workspace, and are refused, unless it is the top of the file system. */
  lemma UpLeavesTheWorkspace(root: seq<string>, up: string)
    requires AllProper(root) && up == ".."
    ensures Normalize(Some(root), Supplied(up)) == if root == [] then WorkspaceRoot else Unsafe
  {
    UpLeads(root, up);
    NormalizeDecides(root, up);
  }

  /** Names with two dots in front are refused even directly below the root. */
  lemma DottedNameIsRefused(root: seq<string>)
    requires AllProper(root)
    ensures StrictlyInside(root, Resolve(root, "..notes")) && Normalize(Some(root), Supplied("..notes")).Unsafe?
  {
    SplitPlain("..notes", '/');
    assert Proper("..notes");
    WalkDown(root, ["..notes"]);
    assert Resolve(root, "..notes")[|root|] == "..notes";
    assert ".." <= "..notes";
    NormalizeDecides(root, "..notes");
  }

  /** Normalizing an accepted path again gives it back exactly when it does not look like a Windows drive path. */
  lemma IdempotentExactly(root: seq<string>, text: string, accepted: string)
    requires AllProper(root) && Normalize(Some(root), Supplied(text)) == Path(accepted)
    ensures Normalize(Some(root), Supplied(accepted)) == Path(accepted) <==> !WindowsAbsolute(accepted)
  {
    NormalizeDecides(root, text);
    AcceptedIsFaithful(root, text, accepted);
    AcceptedKeeps(root, text, '\0');
    AcceptedKeeps(root, text, '\\');
    NormalizeDecides(root, accepted);
    var location := Resolve(root, text);
    ResolveIsProper(root, text);
    StartsWithDots(location[|root|..]);
    JoinStarts(location[|root|..]);
    assert accepted[0] == location[|root|][0];
  }

  lemma DriveSplit(text: string)
    requires text == "./C:/x"
    ensures Split(text, '/') == [".", "C:", "x"]
  {
    SplitAt(".", '/', "C:/x");
    SplitAt("C:", '/', "x");
    SplitPlain("x", '/');
    assert "." + ['/'] + "C:/x" == text && "C:" + ['/'] + "x" == "C:/x";
  }

  lemma DriveLocation(root: seq<string>, text: string, names: seq<string>)
    requires text == "./C:/x" && names == ["C:", "x"]
    ensures Resolve(root, text) == root + names && AllProper(names) && Join(names, '/') == "C:/x"
  {
    DriveSplit(text);
    assert Split(text, '/')[1..] == names && names[1..] == ["x"];
    WalkDown(root, names);
  }

  lemma NamesAreAccepted(root: seq<string>, text: string, names: seq<string>)
    requires AllProper(root) && AllProper(names) && names != [] && !(".." <= names[0])
    requires Resolve(root, text) == root + names && Readable(text)
    ensures Normalize(Some(root), Supplied(text)) == Path(Join(names, '/'))
  {
    var location := root + names;
    assert location[|root|..] == names && location[..|root|] == root && location[|root|] == names[0];
    NormalizeDecides(root, text);
  }

  /** `./C:/x` is accepted as `C:/x`, which is then refused. */
  lemma DrivePathIsNotIdempotent(root: seq<string>, text: string, again: string)
    requires AllProper(root) && text == "./C:/x" && again == "C:/x"
    ensures Normalize(Some(root), Supplied(text)) == Path(again)
    ensures Normalize(Some(root), Supplied(again)) == Unsafe
  {
    var names := ["C:", "x"];
    DriveLocation(root, text, names);
    NamesAreAccepted(root, text, names);
  }
}
