/** Opening and listing the files kept beside the levels (internal/files/files.go). */
module Files {
  import opened Schema

  /** A symlink-free tree of readable files; a directory holds each name once. */
  datatype Node = File(content: string) | Dir(entries: map<string, Node>)

  /** What the base path names: nothing, or a node under its own name. */
  datatype Base = Absent | Present(name: string, node: Node)

  datatype Opening = Opened(content: string) | NotFound | Failed

  /** An element that a slash path may contain. */
  predicate Element(name: string) {
    name != "" && name != "." && name != ".." && '/' !in name
  }

  predicate Hidden(name: string) {
    "." <= name
  }

  ghost predicate Tree(node: Node) {
    node.Dir? ==>
      forall name | name in node.entries :: Element(name) && Tree(node.entries[name])
  }

  function Join(path: seq<string>): string
    requires path != []
  {
    if |path| == 1 then path[0] else path[0] + "/" + Join(path[1..])
  }

  function Split(path: string): (parts: seq<string>)
    ensures parts != []
    ensures forall part | part in parts :: '/' !in part
  {
    if path == "" then [""]
    else
      var rest := Split(path[1..]);
      if path[0] == '/' then [""] + rest else [[path[0]] + rest[0]] + rest[1..]
  }

  predicate ValidPath(path: string) {
    path == "." || forall part | part in Split(path) :: Element(part)
  }

  /** The node reached from `node` along `path`. */
  function Lookup(node: Node, path: seq<string>): Option<Node>
    decreases |path|
  {
    if path == [] then Some(node)
    else if node.Dir? && path[0] in node.entries then Lookup(node.entries[path[0]], path[1..])
    else None
  }

  function Open(base: Base, path: string): Opening {
    if !ValidPath(path) || path == "." then NotFound
    else match base
      case Absent => NotFound
      case Present(_, File(_)) => Failed
      case Present(_, Dir(_)) =>
        match Lookup(base.node, Split(path))
        case Some(File(content)) => Opened(content)
        case _ => NotFound
  }

  ghost predicate RegularFile(node: Node, path: seq<string>) {
    path != [] && Lookup(node, path).Some? && Lookup(node, path).value.File?
  }

  /** A regular file below `node`, none of whose path elements starts with a dot. */
  ghost predicate Visible(node: Node, path: seq<string>) {
    RegularFile(node, path) && forall part | part in path :: !Hidden(part)
  }

  ghost predicate Listed(base: Base, name: string) {
    match base
    case Absent => false
    case Present(own, File(_)) => name == "." && !Hidden(own)
    case Present(_, Dir(_)) => exists path :: Visible(base.node, path) && name == Join(path)
  }

  // ---------- slash paths ----------

  lemma {:induction false} SplitElement(name: string)
    requires '/' !in name
    ensures Split(name) == [name]
  {
    if name != "" {
      SplitElement(name[1..]);
      assert name == [name[0]] + name[1..];
    }
  }

  lemma {:induction false} SplitFirst(name: string, rest: string)
    requires '/' !in name
    ensures Split(name + "/" + rest) == [name] + Split(rest)
  {
    var path := name + "/" + rest;
    if name == "" {
      assert path[1..] == rest;
    } else {
      assert path[1..] == name[1..] + "/" + rest;
      SplitFirst(name[1..], rest);
      assert name == [name[0]] + name[1..];
    }
  }

  lemma {:induction false} SplitJoin(path: seq<string>)
    requires path != [] && forall part | part in path :: '/' !in part
    ensures Split(Join(path)) == path
  {
    if |path| == 1 {
      SplitElement(path[0]);
      assert path == [path[0]];
    } else {
      SplitJoin(path[1..]);
      SplitFirst(path[0], Join(path[1..]));
      assert path == [path[0]] + path[1..];
    }
  }

  lemma {:induction false} JoinSplit(path: string)
    ensures Join(Split(path)) == path
  {
    if path != "" {
      JoinSplit(path[1..]);
      var rest := Split(path[1..]);
      assert path == [path[0]] + path[1..];
      if path[0] == '/' {
        assert ([""] + rest)[1..] == rest;
      } else {
        var parts := [[path[0]] + rest[0]] + rest[1..];
        assert parts[1..] == rest[1..];
      }
    }
  }

  lemma {:induction false} LookupElements(node: Node, path: seq<string>)
    requires Tree(node) && Lookup(node, path).Some?
    ensures forall part | part in path :: Element(part)
    decreases |path|
  {
    if path != [] {
      LookupElements(node.entries[path[0]], path[1..]);
      assert path == [path[0]] + path[1..];
    }
  }

  // ---------- List and Open are inverse views ----------

  lemma FileOpens(base: Base, path: seq<string>)
    requires base.Present? && Tree(base.node) && base.node.Dir? && RegularFile(base.node, path)
    ensures ValidPath(Join(path))
    ensures Split(Join(path)) == path
    ensures Open(base, Join(path)) == Opened(Lookup(base.node, path).value.content)
  {
    LookupElements(base.node, path);
    SplitJoin(path);
    SplitElement(".");
    assert Element(path[0]);
  }

  /** Open succeeds on exactly the slash paths of regular files inside the base
      directory; every other name is not found, and anything but "not found" means
      that the base is a regular file. */
  lemma OpensExactlyFiles(base: Base, name: string)
    requires base.Present? ==> Tree(base.node)
    ensures Open(base, name).Opened? <==>
            && base.Present? && base.node.Dir?
            && exists path :: RegularFile(base.node, path) && name == Join(path)
    ensures Open(base, name).Failed? <==> base.Present? && base.node.File? && ValidPath(name) && name != "."
  {
    if Open(base, name).Opened? {
      JoinSplit(name);
      assert RegularFile(base.node, Split(name));
    }
    if base.Present? && base.node.Dir? && exists path :: RegularFile(base.node, path) && name == Join(path) {
      var path :| RegularFile(base.node, path) && name == Join(path);
      FileOpens(base, path);
    }
  }

  /** Under a directory (or nothing), the listed names are the paths Open accepts
      without a dot at the start of any element. */
  lemma ListedIffOpened(base: Base, name: string)
    requires base.Present? ==> base.node.Dir? && Tree(base.node)
    ensures Listed(base, name) <==>
            Open(base, name).Opened? && forall part | part in Split(name) :: !("." <= part)
  {
    if Listed(base, name) {
      var path :| Visible(base.node, path) && name == Join(path);
      FileOpens(base, path);
    }
    if Open(base, name).Opened? && forall part | part in Split(name) :: !("." <= part) {
      JoinSplit(name);
      assert Visible(base.node, Split(name));
    }
  }

  /** Every listed name opens, unless the base itself is a regular file: that one is
      listed as "." and cannot be opened. */
  lemma EveryListedNameOpensIff(base: Base)
    requires base.Present? ==> Tree(base.node)
    ensures (forall name | Listed(base, name) :: Open(base, name).Opened?) <==>
            !(base.Present? && base.node.File? && !Hidden(base.name))
  {
    if base.Present? && base.node.File? {
      if !Hidden(base.name) {
        assert Listed(base, ".") && !Open(base, ".").Opened?;
      }
    } else {
      forall name | Listed(base, name) ensures Open(base, name).Opened? {
        ListedIffOpened(base, name);
      }
    }
  }

  // ---------- order of names ----------

  predicate Less(a: string, b: string) {
    if b == "" then false
    else if a == "" then true
    else if a[0] != b[0] then a[0] < b[0]
    else Less(a[1..], b[1..])
  }

  lemma {:induction false} LessTransitive(a: string, b: string, c: string)
    requires Less(a, b) && Less(b, c)
    ensures Less(a, c)
  {
    if a != "" && a[0] == b[0] && b[0] == c[0] {
      LessTransitive(a[1..], b[1..], c[1..]);
    }
  }

  lemma {:induction false} LessTotal(a: string, b: string)
    ensures a == b || Less(a, b) || Less(b, a)
  {
    if a != "" && b != "" && a[0] == b[0] {
      LessTotal(a[1..], b[1..]);
      assert a == [a[0]] + a[1..] && b == [b[0]] + b[1..];
    }
  }

  lemma {:induction false} LessIrreflexive(a: string)
    ensures !Less(a, a)
  {
    if a != "" {
      LessIrreflexive(a[1..]);
    }
  }

  /** Less is the order of strings character by character, a prefix first. */
  lemma {:induction false} LessIff(a: string, b: string)
    ensures Less(a, b) <==> exists k: nat :: SmallerAt(a, b, k)
  {
    if a != "" && b != "" && a[0] == b[0] {
      LessIff(a[1..], b[1..]);
      if k: nat :| SmallerAt(a[1..], b[1..], k) {
        assert a[..k + 1] == [a[0]] + a[1..][..k] && b[..k + 1] == [b[0]] + b[1..][..k];
        assert SmallerAt(a, b, k + 1);
      }
      if k: nat :| SmallerAt(a, b, k) && k > 0 {
        assert a[1..][..k - 1] == a[..k][1..] && b[1..][..k - 1] == b[..k][1..];
        assert SmallerAt(a[1..], b[1..], k - 1);
      }
    } else {
      forall k: nat | SmallerAt(a, b, k) ensures k == 0 {
        FirstAgree(a, b, k);
      }
      assert a[..0] == b[..0];
      assert Less(a, b) ==> SmallerAt(a, b, 0);
    }
  }

  lemma FirstAgree(a: string, b: string, k: nat)
    requires SmallerAt(a, b, k)
    ensures k > 0 ==> a != "" && b != "" && a[0] == b[0]
  {
    if k > 0 {
      assert a[..k][0] == a[0] && b[..k][0] == b[0];
    }
  }

  predicate SmallerAt(a: string, b: string, k: nat) {
    && k <= |a| && k < |b| && a[..k] == b[..k]
    && (k < |a| ==> a[k] < b[k])
  }

  ghost predicate Distinct<T(!new)>(items: seq<T>) {
    forall i, j | 0 <= i < j < |items| :: items[i] != items[j]
  }

  ghost predicate SortedNames(names: seq<string>) {
    forall i, j | 0 <= i < j < |names| :: Less(names[i], names[j])
  }

  lemma SortedNamesDistinct(names: seq<string>)
    requires SortedNames(names)
    ensures Distinct(names)
  {
    forall i, j | 0 <= i < j < |names| ensures names[i] != names[j] {
      LessIrreflexive(names[i]);
    }
  }

  method Insert(name: string, names: seq<string>) returns (r: seq<string>)
    requires SortedNames(names) && name !in names
    ensures SortedNames(r)
    ensures forall x :: x in r <==> x == name || x in names
  {
    var i := 0;
    while i < |names| && Less(names[i], name)
      invariant i <= |names|
      invariant forall k | 0 <= k < i :: Less(names[k], name)
    {
      i := i + 1;
    }
    r := names[..i] + [name] + names[i..];
    assert names == names[..i] + names[i..];
    forall k | i <= k < |names| ensures Less(name, names[k]) {
      LessTotal(names[i], name);
      if k != i {
        LessTransitive(name, names[i], names[k]);
      }
    }
  }

  /** Sorting distinct names. */
  method Sort(names: seq<string>) returns (r: seq<string>)
    requires Distinct(names)
    ensures SortedNames(r)
    ensures forall x :: x in r <==> x in names
  {
    r := [];
    for k := 0 to |names|
      invariant SortedNames(r)
      invariant forall x :: x in r <==> x in names[..k]
    {
      assert names[..k + 1] == names[..k] + [names[k]];
      r := Insert(names[k], r);
    }
    assert names[..|names|] == names;
  }

  // ---------- the walk ----------

  lemma VisibleStep(node: Node, path: seq<string>)
    requires node.Dir? && path != []
    ensures Visible(node, path) <==>
            && path[0] in node.entries && !Hidden(path[0])
            && if |path| == 1 then node.entries[path[0]].File?
               else Visible(node.entries[path[0]], path[1..])
  {
    if path[0] in node.entries {
      var child := node.entries[path[0]];
      assert Lookup(node, path) == Lookup(child, path[1..]);
      assert path == [path[0]] + path[1..];
    }
  }

  ghost function Under(name: string, found: seq<seq<string>>): (r: seq<seq<string>>)
    ensures |r| == |found|
    ensures forall i | 0 <= i < |found| :: r[i] == [name] + found[i]
  {
    seq(|found|, i requires 0 <= i < |found| => [name] + found[i])
  }

  lemma UnderMembers(name: string, found: seq<seq<string>>, path: seq<string>)
    ensures path in Under(name, found) <==> path != [] && path[0] == name && path[1..] in found
  {
    if path != [] && path[0] == name && path[1..] in found {
      var i :| 0 <= i < |found| && found[i] == path[1..];
      assert path == Under(name, found)[i];
    }
    if path in Under(name, found) {
      var i :| 0 <= i < |found| && Under(name, found)[i] == path;
      assert path[1..] == found[i];
    }
  }

  lemma UnderDistinct(name: string, found: seq<seq<string>>)
    requires Distinct(found)
    ensures Distinct(Under(name, found))
  {
    forall i, j | 0 <= i < j < |found| ensures Under(name, found)[i] != Under(name, found)[j] {
      assert ([name] + found[i])[1..] == found[i];
      assert ([name] + found[j])[1..] == found[j];
    }
  }

  lemma Appended(found: seq<seq<string>>, more: seq<seq<string>>, done: set<string>, name: string)
    requires Distinct(found) && Distinct(more) && name !in done
    requires forall path | path in found :: path != [] && path[0] in done
    requires forall path | path in more :: path != [] && path[0] == name
    ensures Distinct(found + more)
  {
    forall i, j | 0 <= i < j < |found + more| ensures (found + more)[i] != (found + more)[j] {
      if i < |found| <= j {
        assert found[i] in found && more[j - |found|] in more;
      }
    }
  }

  /** What visiting one directory entry adds to the walk. */
  ghost function Found(node: Node, name: string, below: seq<seq<string>>): seq<seq<string>>
    requires node.Dir? && name in node.entries
  {
    if Hidden(name) then []
    else if node.entries[name].File? then [[name]]
    else Under(name, below)
  }

  lemma FoundFacts(node: Node, name: string, below: seq<seq<string>>)
    requires node.Dir? && name in node.entries && Distinct(below)
    requires node.entries[name].Dir? && !Hidden(name) ==>
               forall path :: path in below <==> Visible(node.entries[name], path)
    ensures Distinct(Found(node, name, below))
    ensures forall path :: path in Found(node, name, below) <==>
                           Visible(node, path) && path[0] == name
  {
    UnderDistinct(name, below);
    forall path ensures path in Found(node, name, below) <==>
                        Visible(node, path) && path[0] == name
    {
      UnderMembers(name, below, path);
      if path != [] {
        VisibleStep(node, path);
        if |path| == 1 {
          assert path == [path[0]];
          assert !Visible(node.entries[name], []);
        }
      }
    }
  }

  /** The names gathered once the entries `done` of `node` have been visited: `found`
      holds the same files as paths below `node`. */
  ghost predicate Walked(node: Node, rel: seq<string>, done: set<string>,
                         names: seq<string>, found: seq<seq<string>>)
  {
    && Distinct(found)
    && (forall path :: path in found <==> Visible(node, path) && path[0] in done)
    && |names| == |found|
    && forall i | 0 <= i < |found| :: found[i] != [] && names[i] == Join(rel + found[i])
  }

  lemma WalkedNone(node: Node, rel: seq<string>)
    ensures Walked(node, rel, {}, [], [])
  {
  }

  lemma WalkedAll(node: Node, rel: seq<string>, names: seq<string>, found: seq<seq<string>>)
    requires node.Dir? && Walked(node, rel, node.entries.Keys, names, found)
    ensures forall path :: path in found <==> Visible(node, path)
  {
    forall path | Visible(node, path) ensures path[0] in node.entries.Keys {
      VisibleStep(node, path);
    }
  }

  lemma WalkedStep(node: Node, rel: seq<string>, done: set<string>, names: seq<string>,
                   found: seq<seq<string>>, name: string, more: seq<string>,
                   below: seq<seq<string>>)
    requires node.Dir? && name in node.entries && name !in done
    requires Walked(node, rel, done, names, found)
    requires var child := node.entries[name];
             if Hidden(name) then more == [] && below == []
             else if child.File? then more == [Join(rel + [name])] && below == []
             else Walked(child, rel + [name], child.entries.Keys, more, below)
    ensures Walked(node, rel, done + {name}, names + more, found + Found(node, name, below))
  {
    hide Lookup;
    hide Join;
    hide Visible;
    var child := node.entries[name];
    if child.Dir? && !Hidden(name) {
      WalkedAll(child, rel + [name], more, below);
      forall i | 0 <= i < |below| ensures more[i] == Join(rel + Under(name, below)[i]) {
        assert rel + [name] + below[i] == rel + Under(name, below)[i];
      }
    }
    FoundFacts(node, name, below);
    Appended(found, Found(node, name, below), done, name);
  }

  /** The directory walk below `rel`: it appends the name of each regular file it
      meets and skips entries whose own name starts with a dot. */
  method WalkDir(node: Node, rel: seq<string>) returns (names: seq<string>)
    requires node.Dir?
    ensures exists found :: Walked(node, rel, node.entries.Keys, names, found)
    decreases node
  {
    hide Walked;
    hide Visible;
    names := [];
    ghost var found: seq<seq<string>> := [];
    ghost var done: set<string> := {};
    WalkedNone(node, rel);
    var left := node.entries.Keys;
    while left != {}
      invariant left !! done && left + done == node.entries.Keys
      invariant Walked(node, rel, done, names, found)
      decreases |left|
    {
      var name :| name in left;
      var child := node.entries[name];
      ghost var below: seq<seq<string>> := [];
      var more: seq<string> := [];
      if child.Dir? {
        if !Hidden(name) {
          more := WalkDir(child, rel + [name]);
          below :| Walked(child, rel + [name], child.entries.Keys, more, below);
        }
      } else if !Hidden(name) {
        more := [Join(rel + [name])];
      }
      WalkedStep(node, rel, done, names, found, name, more, below);
      names, found := names + more, found + Found(node, name, below);
      left, done := left - {name}, done + {name};
    }
    assert done == node.entries.Keys;
  }

  lemma DistinctNames(node: Node, names: seq<string>, found: seq<seq<string>>)
    requires node.Dir? && Tree(node) && Distinct(found) && |names| == |found|
    requires forall path | path in found :: Visible(node, path)
    requires forall i | 0 <= i < |found| :: found[i] != [] && names[i] == Join(found[i])
    ensures Distinct(names)
  {
    forall i, j | 0 <= i < j < |names| ensures names[i] != names[j] {
      assert found[i] in found && found[j] in found;
      LookupElements(node, found[i]);
      LookupElements(node, found[j]);
      SplitJoin(found[i]);
      SplitJoin(found[j]);
    }
  }

  method List(base: Base) returns (names: seq<string>)
    requires base.Present? ==> Tree(base.node)
    ensures SortedNames(names) && Distinct(names)
    ensures forall name :: name in names <==> Listed(base, name)
  {
    match base
    case Absent =>
      names := [];
    case Present(own, File(_)) =>
      names := if Hidden(own) then [] else ["."];
    case Present(_, Dir(_)) =>
      var walked := WalkDir(base.node, []);
      ghost var found :| Walked(base.node, [], base.node.entries.Keys, walked, found);
      WalkedAll(base.node, [], walked, found);
      forall i | 0 <= i < |found| ensures walked[i] == Join(found[i]) {
        assert [] + found[i] == found[i];
      }
      DistinctNames(base.node, walked, found);
      forall name ensures name in walked <==> Listed(base, name) {
        if name in walked {
          var i :| 0 <= i < |walked| && walked[i] == name;
          assert found[i] in found;
        }
        if Listed(base, name) {
          var path :| Visible(base.node, path) && name == Join(path);
          assert path in found;
        }
      }
      names := Sort(walked);
      SortedNamesDistinct(names);
  }
}
