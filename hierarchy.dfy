/// Binding a bone to an entity of the scene hierarchy (`find_bone` in
/// `src/graph/hierarchy.rs`): starting at the root, each name of the bone's
/// path moves to the first child, in `Children` order, carrying that `Name`.
/// The ECS queries become maps: `Children` from an entity to its ordered
/// children, `Name` from an entity to its name.
module Hierarchy {
  import opened Wrappers

  type Entity = nat
  type ChildrenQuery = map<Entity, seq<Entity>>
  type NameQuery = map<Entity, string>

  /// `child` has a `Name` component and it equals `fragment`.
  predicate Named(names: NameQuery, child: Entity, fragment: string) {
    child in names && names[child] == fragment
  }

  /// The position of the first child named `fragment`; children without a
  /// name never match.
  function FirstNamed(kids: seq<Entity>, names: NameQuery, fragment: string): (r: Option<nat>)
    ensures r.None? <==> forall j :: 0 <= j < |kids| ==> !Named(names, kids[j], fragment)
    ensures r.Some? ==> r.value < |kids| && Named(names, kids[r.value], fragment)
    ensures r.Some? ==> forall j :: 0 <= j < r.value ==> !Named(names, kids[j], fragment)
    decreases |kids|
  {
    if kids == [] then None
    else if Named(names, kids[0], fragment) then Some(0)
    else
      match FirstNamed(kids[1..], names, fragment)
      case None => None
      case Some(i) => Some(i + 1)
  }

  /// Where the walk from `root` along `path` ends: `None` when an entity on
  /// the way has no `Children` or no child carries the next name.
  function Lookup(root: Entity, path: seq<string>, children: ChildrenQuery, names: NameQuery): Option<Entity>
    decreases |path|
  {
    if path == [] then Some(root)
    else if root !in children then None
    else
      match FirstNamed(children[root], names, path[0])
      case None => None
      case Some(i) => Lookup(children[root][i], path[1..], children, names)
  }

  /// `find_bone`: the loop over the path's fragments, with an inner loop
  /// over the current entity's children that stops at the first match.
  method FindBone(root: Entity, path: seq<string>, children: ChildrenQuery, names: NameQuery) returns (r: Option<Entity>)
    ensures r == Lookup(root, path, children, names)
    ensures path == [] ==> r == Some(root)
    ensures path != [] && root !in children ==> r == None
  {
    var current := root;
    var idx := 0;
    while idx < |path|
      invariant 0 <= idx <= |path|
      invariant Lookup(root, path, children, names) == Lookup(current, path[idx..], children, names)
    {
      var fragment := path[idx];
      if current !in children {
        return None;
      }
      var kids := children[current];
      ghost var parent := current;
      var found := false;
      var k := 0;
      while k < |kids|
        invariant 0 <= k <= |kids|
        invariant !found && current == parent
        invariant forall j :: 0 <= j < k ==> !Named(names, kids[j], fragment)
      {
        if kids[k] in names {
          if names[kids[k]] == fragment {
            assert FirstNamed(kids, names, fragment) == Some(k);
            found := true;
            current := kids[k];
            break;
          }
        }
        k := k + 1;
      }
      if !found {
        return None;
      }
      assert path[idx..][1..] == path[idx + 1..];
      idx := idx + 1;
    }
    return Some(current);
  }

  /// `chain` is a walk down the hierarchy from `root`: each entity is a
  /// child of the one before it and is named by the matching fragment.
  ghost predicate Spells(root: Entity, chain: seq<Entity>, path: seq<string>, children: ChildrenQuery, names: NameQuery)
    decreases |path|
  {
    |chain| == |path| &&
    (path == [] ||
     (root in children && chain[0] in children[root] && Named(names, chain[0], path[0]) &&
      Spells(chain[0], chain[1..], path[1..], children, names)))
  }

  /// The entity a walk ends on.
  function End(root: Entity, chain: seq<Entity>): Entity {
    if chain == [] then root else chain[|chain| - 1]
  }

  /// A found bone is reached from the root through children whose names
  /// spell the path.
  lemma {:induction false} LookupSpells(root: Entity, path: seq<string>, children: ChildrenQuery, names: NameQuery)
    requires Lookup(root, path, children, names).Some?
    ensures exists chain ::
      Spells(root, chain, path, children, names) && End(root, chain) == Lookup(root, path, children, names).value
    decreases |path|
  {
    if path == [] {
      assert Spells(root, [], path, children, names);
    } else {
      var kids := children[root];
      var i := FirstNamed(kids, names, path[0]).value;
      LookupSpells(kids[i], path[1..], children, names);
      var rest :| Spells(kids[i], rest, path[1..], children, names) &&
        End(kids[i], rest) == Lookup(kids[i], path[1..], children, names).value;
      var chain := [kids[i]] + rest;
      assert chain[1..] == rest;
      assert Spells(root, chain, path, children, names);
    }
  }

  /// No entity has two children with the same name.
  ghost predicate Unambiguous(children: ChildrenQuery, names: NameQuery) {
    forall p, i, j :: p in children && 0 <= i < j < |children[p]| && children[p][i] in names && children[p][j] in names ==>
      names[children[p][i]] != names[children[p][j]]
  }

  /// When sibling names are distinct, any walk that spells the path is
  /// the one found: the search then finds every bone that exists.
  lemma {:induction false} SpellsLookup(root: Entity, chain: seq<Entity>, path: seq<string>, children: ChildrenQuery, names: NameQuery)
    requires Unambiguous(children, names)
    requires Spells(root, chain, path, children, names)
    ensures Lookup(root, path, children, names) == Some(End(root, chain))
    decreases |path|
  {
    if path != [] {
      var kids := children[root];
      var k :| 0 <= k < |kids| && kids[k] == chain[0];
      var i := FirstNamed(kids, names, path[0]).value;
      assert kids[i] == chain[0];
      SpellsLookup(chain[0], chain[1..], path[1..], children, names);
    }
  }

  /// Without distinct sibling names the first match is kept even when it
  /// leads nowhere: both children of the root are named `a`, only the
  /// second has a child `b`, and the path `a`, `b` is not found.
  lemma FirstMatchNoBacktracking()
    ensures Spells(0, [2, 3], ["a", "b"], map[0 := [1, 2], 2 := [3]], map[1 := "a", 2 := "a", 3 := "b"])
    ensures Lookup(0, ["a", "b"], map[0 := [1, 2], 2 := [3]], map[1 := "a", 2 := "a", 3 := "b"]) == None
  {
    var children: ChildrenQuery := map[0 := [1, 2], 2 := [3]];
    var names: NameQuery := map[1 := "a", 2 := "a", 3 := "b"];
    var path := ["a", "b"];
    assert FirstNamed(children[0], names, "a") == Some(0);
    assert path[1..] == ["b"];
    assert Lookup(1, ["b"], children, names) == None;
    assert [2, 3][1..] == [3];
    assert Spells(3, [], [], children, names);
    assert Spells(2, [3], ["b"], children, names);
  }

  /// Walking a path in two legs: the second leg starts where the first
  /// one ends.
  lemma {:induction false} LookupAppend(root: Entity, p: seq<string>, q: seq<string>, children: ChildrenQuery, names: NameQuery)
    ensures Lookup(root, p + q, children, names) ==
      match Lookup(root, p, children, names)
      case None => None
      case Some(e) => Lookup(e, q, children, names)
    decreases |p|
  {
    if p != [] {
      assert (p + q)[0] == p[0];
      assert (p + q)[1..] == p[1..] + q;
      if root in children {
        match FirstNamed(children[root], names, p[0])
        case None =>
        case Some(i) =>
          LookupAppend(children[root][i], p[1..], q, children, names);
      }
    } else {
      assert p + q == q;
    }
  }

  /// Once the walk is lost, longer paths are lost too.
  lemma LostStaysLost(root: Entity, p: seq<string>, q: seq<string>, children: ChildrenQuery, names: NameQuery)
    requires Lookup(root, p, children, names).None?
    ensures Lookup(root, p + q, children, names).None?
  {
    LookupAppend(root, p, q, children, names);
  }
}
