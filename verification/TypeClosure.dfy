/** What a type name stands for: the closure of a name over class heritage, alias
    parts and the views derived from it, and the boundary test built on it. */
module TypeClosure {
  import opened Wrappers

  type Name = string

  datatype Class = Class(name: Name, file: string, extendsType: Option<Name>, implementsTypes: seq<Name>)

  /** The extracted declarations. Alias parts are what an alias is composed of;
      view parts are the types a Pick or Omit narrows. */
  datatype Index = Index(classes: map<Name, Class>, aliasParts: map<Name, seq<Name>>, viewParts: map<Name, seq<Name>>)

  function Listed(m: map<Name, seq<Name>>, key: Name): seq<Name> { if key in m then m[key] else [] }

  // ----- reverse view edges ----------------------------------------------------------

  predicate Views(viewParts: map<Name, seq<Name>>, alias: Name, part: Name) {
    part != alias && part in Listed(viewParts, alias)
  }

  ghost predicate Reverses(reverse: map<Name, seq<Name>>, viewParts: map<Name, seq<Name>>, done: set<Name>) {
    forall alias, part :: alias in Listed(reverse, part) <==> alias in done && Views(viewParts, alias, part)
  }

  /** `reverseViewParts`: the narrower aliases under each part. */
  method ReverseViewParts(viewParts: map<Name, seq<Name>>) returns (reverse: map<Name, seq<Name>>)
    ensures forall alias, part :: alias in Listed(reverse, part) <==> Views(viewParts, alias, part)
  {
    reverse := map[];
    var left := viewParts.Keys;
    while left != {}
      invariant left <= viewParts.Keys && Reverses(reverse, viewParts, viewParts.Keys - left)
      decreases |left|
    {
      var alias :| alias in left;
      ghost var done := viewParts.Keys - left;
      reverse := AddParts(reverse, alias, viewParts[alias]);
      left := left - {alias};
      assert viewParts.Keys - left == done + {alias};
    }
    assert viewParts.Keys - {} == viewParts.Keys;
  }

  method AddParts(reverse: map<Name, seq<Name>>, alias: Name, parts: seq<Name>) returns (r: map<Name, seq<Name>>)
    ensures forall a, p :: a in Listed(r, p) <==> a in Listed(reverse, p) || (a == alias && p != alias && p in parts)
  {
    r := reverse;
    for i := 0 to |parts|
      invariant forall a, p :: a in Listed(r, p) <==> a in Listed(reverse, p) || (a == alias && p != alias && p in parts[..i])
    {
      assert parts[..i + 1] == parts[..i] + [parts[i]];
      if parts[i] != alias {
        r := r[parts[i] := Listed(r, parts[i]) + [alias]];
      }
    }
    assert parts[..|parts|] == parts;
  }

  // ----- the closure ----------------------------------------------------------------------

  function Heritage(index: Index, name: Name): seq<Name> {
    if name !in index.classes then [] else
      var c := index.classes[name];
      (if c.extendsType.Some? then [c.extendsType.value] else []) + c.implementsTypes
  }

  /** One step down a composition or up a view. */
  predicate Edge(index: Index, a: Name, b: Name) {
    b in Heritage(index, a) || b in Listed(index.aliasParts, a) || Views(index.viewParts, b, a)
  }

  /** The edges out of a name, spelled out. */
  lemma {:induction false} EdgeIff(index: Index, a: Name, b: Name)
    ensures Edge(index, a, b) <==>
      || (a in index.classes && (index.classes[a].extendsType == Some(b) || b in index.classes[a].implementsTypes))
      || (a in index.aliasParts && b in index.aliasParts[a])
      || (a != b && b in index.viewParts && a in index.viewParts[b])
  {
  }

  /** A class stands for its superclass and for each type it implements, an alias
      for its parts, and a type for the views that narrow it. */
  lemma {:induction false} PartsReached(index: Index, a: Name)
    ensures a in index.classes && index.classes[a].extendsType.Some? ==> Reachable(index, a, index.classes[a].extendsType.value)
    ensures forall b :: a in index.classes && b in index.classes[a].implementsTypes ==> Reachable(index, a, b)
    ensures forall b :: a in index.aliasParts && b in index.aliasParts[a] ==> Reachable(index, a, b)
    ensures forall b :: a != b && b in index.viewParts && a in index.viewParts[b] ==> Reachable(index, a, b)
  {
    ReachableSelf(index, a);
    forall b | Edge(index, a, b) ensures Reachable(index, a, b) {
      ReachableStep(index, a, a, b);
    }
    forall b ensures Edge(index, a, b) <==>
      || (a in index.classes && (index.classes[a].extendsType == Some(b) || b in index.classes[a].implementsTypes))
      || (a in index.aliasParts && b in index.aliasParts[a])
      || (a != b && b in index.viewParts && a in index.viewParts[b])
    {
      EdgeIff(index, a, b);
    }
  }

  ghost predicate Path(index: Index, path: seq<Name>) {
    path != [] && forall i, j :: 0 <= i && j == i + 1 && j < |path| ==> Edge(index, path[i], path[j])
  }

  ghost predicate PathTo(index: Index, path: seq<Name>, from: Name, to: Name) {
    Path(index, path) && path[0] == from && path[|path| - 1] == to
  }

  ghost predicate Reachable(index: Index, from: Name, to: Name) {
    exists path :: PathTo(index, path, from, to)
  }

  lemma {:induction false} ReachableSelf(index: Index, name: Name)
    ensures Reachable(index, name, name)
  {
    assert PathTo(index, [name], name, name);
  }

  lemma {:induction false} ReachableStep(index: Index, from: Name, mid: Name, to: Name)
    requires Reachable(index, from, mid) && Edge(index, mid, to)
    ensures Reachable(index, from, to)
  {
    var path :| PathTo(index, path, from, mid);
    assert PathTo(index, path + [to], from, to);
  }

  /** A set that holds the start and every edge out of it holds all that is
      reachable. */
  lemma {:induction false} ClosedHoldsPath(index: Index, closed: set<Name>, path: seq<Name>, n: nat)
    requires Path(index, path) && path[0] in closed && n < |path|
    requires forall a, b :: a in closed && Edge(index, a, b) ==> b in closed
    ensures path[n] in closed
  {
    if n > 0 {
      ClosedHoldsPath(index, closed, path, n - 1);
      assert Edge(index, path[n - 1], path[n]);
    }
  }

  ghost predicate IsClosure(index: Index, start: Name, names: set<Name>) {
    forall name :: name in names <==> Reachable(index, start, name)
  }

  function Neighbours(index: Index, reverse: map<Name, seq<Name>>, name: Name): seq<Name> {
    Heritage(index, name) + Listed(index.aliasParts, name) + Listed(reverse, name)
  }

  // All names an edge can lead to, so that the worklist ends.

  ghost function Parts(m: map<Name, seq<Name>>): set<Name> {
    set k, i | k in m && 0 <= i < |m[k]| :: m[k][i]
  }

  ghost function Heirs(index: Index): set<Name> {
    set k, i | k in index.classes && 0 <= i < |Heritage(index, k)| :: Heritage(index, k)[i]
  }

  ghost function Names(index: Index, start: Name): set<Name> {
    {start} + Heirs(index) + Parts(index.aliasParts) + index.viewParts.Keys
  }

  lemma {:induction false} EdgeNamed(index: Index, start: Name, a: Name, b: Name)
    requires Edge(index, a, b)
    ensures b in Names(index, start)
  {
    if b in Heritage(index, a) {
      var i :| 0 <= i < |Heritage(index, a)| && Heritage(index, a)[i] == b;
    } else if b in Listed(index.aliasParts, a) {
      var i :| 0 <= i < |index.aliasParts[a]| && index.aliasParts[a][i] == b;
      assert b in Parts(index.aliasParts);
    }
  }

  ghost predicate Holds(index: Index, names: set<Name>) { forall a, b :: Edge(index, a, b) ==> b in names }

  lemma {:induction false} AllNames(index: Index, start: Name) returns (names: set<Name>)
    ensures start in names && Holds(index, names)
  {
    names := Names(index, start);
    forall a, b | Edge(index, a, b) ensures b in names {
      EdgeNamed(index, start, a, b);
    }
  }

  ghost predicate WorkInv(index: Index, start: Name, names: set<Name>, seen: set<Name>, queue: seq<Name>) {
    (start in seen || start in queue) &&
    (forall name :: name in seen || name in queue ==> Reachable(index, start, name) && name in names) &&
    (forall a, b :: a in seen && Edge(index, a, b) ==> b in seen || b in queue)
  }

  lemma {:induction false} WorkStep(index: Index, start: Name, names: set<Name>, seen: set<Name>, queue: seq<Name>, next: seq<Name>)
    requires WorkInv(index, start, names, seen, queue) && queue != [] && Holds(index, names)
    requires queue[0] in seen ==> next == []
    requires queue[0] !in seen ==> forall b :: b in next <==> Edge(index, queue[0], b)
    ensures WorkInv(index, start, names, seen + {queue[0]}, queue[1..] + next)
  {
    var cur := queue[0];
    assert queue == [cur] + queue[1..];
    forall name | name in next ensures Reachable(index, start, name) {
      ReachableStep(index, start, cur, name);
    }
  }

  lemma {:induction false} NeighboursExact(index: Index, reverse: map<Name, seq<Name>>, name: Name)
    requires ReverseOf(reverse, index)
    ensures forall b :: b in Neighbours(index, reverse, name) <==> Edge(index, name, b)
  {
  }

  lemma {:induction false} FewerNames(names: set<Name>, seen: set<Name>, cur: Name)
    requires cur in names && cur !in seen
    ensures |names - (seen + {cur})| < |names - seen|
  {
    assert names - (seen + {cur}) == (names - seen) - {cur};
  }

  lemma {:induction false} WorkDone(index: Index, start: Name, names: set<Name>, seen: set<Name>)
    requires WorkInv(index, start, names, seen, [])
    ensures IsClosure(index, start, seen)
  {
    forall name | Reachable(index, start, name) ensures name in seen {
      var path :| PathTo(index, path, start, name);
      ClosedHoldsPath(index, seen, path, |path| - 1);
    }
  }

  ghost predicate ReverseOf(reverse: map<Name, seq<Name>>, index: Index) {
    forall alias, part :: alias in Listed(reverse, part) <==> Views(index.viewParts, alias, part)
  }

  /** `typeConstituents`. */
  method TypeConstituents(index: Index, reverse: map<Name, seq<Name>>, start: Name) returns (seen: set<Name>)
    requires ReverseOf(reverse, index)
    ensures IsClosure(index, start, seen)
  {
    seen := {};
    var queue := [start];
    ghost var names := AllNames(index, start);
    ReachableSelf(index, start);
    while queue != []
      invariant WorkInv(index, start, names, seen, queue)
      decreases |names - seen|, |queue|
    {
      var cur := queue[0];
      if cur in seen {
        WorkStep(index, start, names, seen, queue, []);
        assert seen + {cur} == seen && queue[1..] + [] == queue[1..];
        queue := queue[1..];
      } else {
        var next := Neighbours(index, reverse, cur);
        NeighboursExact(index, reverse, cur);
        WorkStep(index, start, names, seen, queue, next);
        FewerNames(names, seen, cur);
        seen := seen + {cur};
        queue := queue[1..] + next;
      }
    }
    WorkDone(index, start, names, seen);
  }

  // ----- who implements a port ----------------------------------------------------------------

  predicate PartAt(text: string, part: string, i: nat) { i + |part| <= |text| && text[i..i + |part|] == part }

  predicate Contains(text: string, part: string) { exists i: nat :: i <= |text| && PartAt(text, part, i) }

  predicate IsTestDouble(c: Class) { Contains(c.file, "-in-memory/") || Contains(c.name, "InMemory") }

  function Supertypes(c: Class): seq<Name> {
    (if c.extendsType.Some? then [c.extendsType.value] else []) + c.implementsTypes
  }

  /** A class implements whatever its named supertypes stand for; an empty type
      name stands for nothing. */
  ghost predicate Implements(index: Index, c: Class, port: Name) {
    !IsTestDouble(c) && exists t :: t in Supertypes(c) && t != "" && Reachable(index, t, port)
  }

  ghost predicate StandsFor(index: Index, types: seq<Name>, port: Name) {
    exists t :: t in types && t != "" && Reachable(index, t, port)
  }

  /** Everything the supertypes of a class stand for. */
  method ClassPorts(index: Index, reverse: map<Name, seq<Name>>, c: Class) returns (ports: set<Name>)
    requires ReverseOf(reverse, index)
    ensures forall port :: port in ports <==> Implements(index, c, port)
  {
    ports := {};
    if IsTestDouble(c) {
      return;
    }
    var types := Supertypes(c);
    for i := 0 to |types|
      invariant forall port :: port in ports <==> StandsFor(index, types[..i], port)
    {
      assert types[..i + 1] == types[..i] + [types[i]];
      if types[i] != "" {
        var names := TypeConstituents(index, reverse, types[i]);
        ports := ports + names;
      }
    }
    assert types[..|types|] == types;
  }

  predicate Registered(impls: map<Name, set<Name>>, port: Name, name: Name) { port in impls && name in impls[port] }

  ghost predicate SomeImplements(index: Index, keys: set<Name>, port: Name, name: Name) {
    exists key :: key in keys && key in index.classes && index.classes[key].name == name && Implements(index, index.classes[key], port)
  }

  /** `computeImplementationIndex`: which production classes implement a port. */
  method ImplementationIndex(index: Index, reverse: map<Name, seq<Name>>) returns (impls: map<Name, set<Name>>)
    requires ReverseOf(reverse, index)
    ensures forall port, name :: Registered(impls, port, name) <==> SomeImplements(index, index.classes.Keys, port, name)
  {
    impls := map[];
    var left := index.classes.Keys;
    ghost var done: set<Name> := {};
    while left != {}
      invariant left + done == index.classes.Keys
      invariant forall port, name :: Registered(impls, port, name) <==> SomeImplements(index, done, port, name)
      decreases |left|
    {
      var key :| key in left;
      var c := index.classes[key];
      var ports := ClassPorts(index, reverse, c);
      ghost var before := impls;
      impls := map p | p in impls.Keys + ports ::
        (if p in impls then impls[p] else {}) + (if p in ports then {c.name} else {});
      forall port, name ensures Registered(impls, port, name) <==> SomeImplements(index, done + {key}, port, name) {
        assert Registered(impls, port, name) <==> Registered(before, port, name) || (port in ports && name == c.name);
      }
      left := left - {key};
      done := done + {key};
    }
    assert done == index.classes.Keys;
  }

  ghost predicate Has(text: string, part: string) { exists before, after :: before + part + after == text }

  lemma {:induction false} ContainsIff(text: string, part: string)
    ensures Contains(text, part) <==> Has(text, part)
  {
    forall before, after | before + part + after == text ensures Contains(text, part) {
      assert PartAt(before + part + after, part, |before|);
    }
    if i: nat :| i <= |text| && PartAt(text, part, i) {
      assert text[..i] + part + text[i + |part|..] == text;
    }
  }

  /** Which class implements a port: one whose file and name do not mark it as a
      test double, and whose superclass or one of whose implemented types, not
      empty, leads to the port. */
  lemma {:induction false} ImplementsIff(index: Index, c: Class, port: Name)
    ensures Implements(index, c, port) <==>
      && !Has(c.file, "-in-memory/") && !Has(c.name, "InMemory")
      && exists t :: t != "" && (c.extendsType == Some(t) || t in c.implementsTypes) && Reachable(index, t, port)
  {
    ContainsIff(c.file, "-in-memory/");
    ContainsIff(c.name, "InMemory");
    assert forall t :: t in Supertypes(c) <==> c.extendsType == Some(t) || t in c.implementsTypes;
  }

  // ----- the boundary test -------------------------------------------------------------------

  /** The two names stand for a common name. */
  ghost predicate Meet(index: Index, a: Name, b: Name) {
    exists c :: Reachable(index, a, c) && Reachable(index, b, c)
  }

  predicate Known(name: Name) { name != "" && name != "unknown" }

  /** `typeNameIsBoundary`: of its three tests the last one, whether the two
      closures meet, is implied by each of the others. */
  method TypeNameIsBoundary(index: Index, reverse: map<Name, seq<Name>>, typeName: Name, boundary: Name) returns (r: bool)
    requires ReverseOf(reverse, index)
    ensures r <==> typeName != "" && typeName != "unknown" && Meet(index, typeName, boundary)
  {
    ReachableSelf(index, boundary);
    if !Known(typeName) {
      return false;
    }
    if typeName == boundary {
      return true;
    }
    var receiver := TypeConstituents(index, reverse, typeName);
    if boundary in receiver {
      return true;
    }
    var names := TypeConstituents(index, reverse, boundary);
    ghost var all := names;
    while names != {}
      invariant names <= all
      invariant forall c :: c in all && c in receiver ==> c in names
      decreases |names|
    {
      var cur :| cur in names;
      if cur in receiver {
        return true;
      }
      names := names - {cur};
    }
    return false;
  }

  /** On known names the test is symmetric, and each name meets itself. */
  lemma {:induction false} MeetSymmetric(index: Index, a: Name, b: Name)
    ensures Meet(index, a, b) <==> Meet(index, b, a)
    ensures Meet(index, a, a)
  {
    ReachableSelf(index, a);
  }

  /** The test holds along every edge: a composite is a boundary for its parts,
      and a broad type for the views that narrow it. */
  lemma {:induction false} MeetAlongEdge(index: Index, a: Name, b: Name, c: Name)
    requires Edge(index, a, b) && Meet(index, b, c)
    ensures Meet(index, a, c)
  {
    var x :| Reachable(index, b, x) && Reachable(index, c, x);
    var path :| PathTo(index, path, b, x);
    assert PathTo(index, [a] + path, a, x);
  }

  /** Two aliases that narrow one reader, and one that narrows the first. */
  const READERS := Index(map[], map[], map["First" := ["Reader"], "Second" := ["Reader"], "Narrower" := ["First"]])

  /** The closure follows views to any depth, so a view of a view stands for the
      first type too; yet two views of one type do not meet: the test is not
      transitive. */
  lemma {:induction false} ViewsClose()
    ensures Reachable(READERS, "Reader", "Narrower")
    ensures Meet(READERS, "First", "Reader") && Meet(READERS, "Reader", "Second") && !Meet(READERS, "First", "Second")
  {
    ReachableSelf(READERS, "Reader");
    ReachableSelf(READERS, "First");
    ReachableSelf(READERS, "Second");
    assert Views(READERS.viewParts, "First", "Reader") && Views(READERS.viewParts, "Second", "Reader");
    assert Views(READERS.viewParts, "Narrower", "First");
    ReachableStep(READERS, "Reader", "Reader", "First");
    ReachableStep(READERS, "Reader", "First", "Narrower");
    ReachableStep(READERS, "Reader", "Reader", "Second");
    forall c ensures !(Reachable(READERS, "First", c) && Reachable(READERS, "Second", c)) {
      if Reachable(READERS, "First", c) {
        var path :| PathTo(READERS, path, "First", c);
        ClosedHoldsPath(READERS, {"First", "Narrower"}, path, |path| - 1);
      }
      if Reachable(READERS, "Second", c) {
        var path :| PathTo(READERS, path, "Second", c);
        ClosedHoldsPath(READERS, {"Second"}, path, |path| - 1);
      }
    }
  }
}
