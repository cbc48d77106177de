/**
 Which texts a paths map holds, in terms of the metadata graph: the columns that
 no relation displaces, the relations that are not followed, and what the maps
 of the followed ones hold.
 */
module PropertyTexts {
  import opened Options
  import opened Sequences
  import opened PropertyMaps
  import opened PropertyLookups

  function PathOf(metadata: Metadata, r: nat): seq<string>
    requires r < |metadata.relations|
  {
    Split(metadata.relations[r].propertyPath, '.')
  }

  /** The relations of one metadata are apart. */
  ghost predicate ApartWithin(metadata: Metadata) {
    forall q, r :: 0 <= q < |metadata.relations| && 0 <= r < |metadata.relations| && q != r ==>
      Apart(PathOf(metadata, q), PathOf(metadata, r))
  }

  /** No relation of a metadata lies within another; columns may lie anywhere. */
  ghost predicate RelationsApart(g: Graph) {
    forall m :: m in g ==> ApartWithin(g[m])
  }

  // ---- columns

  /** Column i is stored under these names, and no later column takes their place. */
  ghost predicate Stands(columns: seq<string>, n: nat, i: nat, names: seq<string>)
    requires n <= |columns|
  {
    && i < n && names == Split(columns[i], '.')
    && forall j :: i < j < n ==> Split(columns[j], '.') == names || Apart(Split(columns[j], '.'), names)
  }

  ghost predicate ColumnShown(columns: seq<string>, n: nat, names: seq<string>)
    requires n <= |columns|
  {
    exists i: nat :: Stands(columns, n, i, names)
  }

  lemma {:induction false} ColumnTexts(columns: seq<string>, prefix: string, n: nat, names: seq<string>)
    requires n <= |columns| && forall i :: 0 <= i < |columns| ==> SafePath(columns[i])
    ensures HasText(Branch(Columns(columns, prefix, n)), names) <==> ColumnShown(columns, n, names)
  {
    hide HasText, SetMapValue, SafePath, Apart;
    if n == 0 {
      NothingInEmpty(names);
    } else {
      ColumnTexts(columns, prefix, n - 1, names);
      SetText(Columns(columns, prefix, n - 1), columns[n - 1], JoinPath(prefix, columns[n - 1]), names);
      OneMoreColumn(columns, n, names);
    }
  }

  lemma OneMoreColumn(columns: seq<string>, n: nat, names: seq<string>)
    requires 0 < n <= |columns|
    ensures var last := Split(columns[n - 1], '.');
            ColumnShown(columns, n, names) <==> names == last || (Apart(last, names) && ColumnShown(columns, n - 1, names))
  {
    hide Apart;
    var last := Split(columns[n - 1], '.');
    if names == last { assert Stands(columns, n, n - 1, names); }
    if Apart(last, names) && ColumnShown(columns, n - 1, names) {
      var i: nat :| Stands(columns, n - 1, i, names);
      assert Stands(columns, n, i, names);
    }
    if names != last && ColumnShown(columns, n, names) {
      var i: nat :| Stands(columns, n, i, names);
      assert Stands(columns, n - 1, i, names) && Apart(last, names);
    }
  }

  lemma NothingInEmpty(names: seq<string>)
    ensures !HasText(Branch(map[]), names)
  {}

  // ---- relations

  /** The map of metadata `m` holds a text under these names. */
  ghost predicate Shown(g: Graph, m: MetadataId, visited: set<MetadataId>, names: seq<string>)
    requires Closed(g) && m in g
    decreases |Unvisited(g, visited)|, if m in visited then 1 else 0, 2
  {
    ShownWith(g, m, visited, |g[m].relations|, names)
  }

  /** So it does with the first n relations: a column that they all spare, or what one of them gives. */
  ghost predicate ShownWith(g: Graph, m: MetadataId, visited: set<MetadataId>, n: nat, names: seq<string>)
    requires Closed(g) && m in g && n <= |g[m].relations|
    decreases |Unvisited(g, visited)|, if m in visited then 1 else 0, 1
  {
    || (ColumnShown(g[m].columns, |g[m].columns|, names) && forall r :: 0 <= r < n ==> Spares(g, m, visited, r, names))
    || exists r :: 0 <= r < n && Gives(g, m, visited, r, names)
  }

  /**
   A relation leaves a column alone that lies apart from it. One that is
   followed also leaves a column below it alone, unless a text of its map is at
   the column's place, above it or below it.
   */
  ghost predicate Spares(g: Graph, m: MetadataId, visited: set<MetadataId>, r: nat, names: seq<string>)
    requires Closed(g) && m in g && r < |g[m].relations|
    decreases |Unvisited(g, visited)|, if m in visited then 1 else 0, 0
  {
    var path, inverse := PathOf(g[m], r), g[m].relations[r].inverse;
    || Apart(path, names)
    || (inverse !in visited && Below(path, names) && (Shrinks(g, m, inverse, visited); LeavesRoom(g, inverse, visited + {m}, names[|path|..])))
  }

  /** Every text of the map is apart from the place. */
  ghost predicate LeavesRoom(g: Graph, m: MetadataId, visited: set<MetadataId>, names: seq<string>)
    requires Closed(g) && m in g
    decreases |Unvisited(g, visited)|, if m in visited then 1 else 0, 3
  {
    forall other :: Shown(g, m, visited, other) ==> Apart(other, names)
  }

  /** A relation that is not followed is a text; one that is followed has its `$path` and the texts of its map. */
  ghost predicate Gives(g: Graph, m: MetadataId, visited: set<MetadataId>, r: nat, names: seq<string>)
    requires Closed(g) && m in g && r < |g[m].relations|
    decreases |Unvisited(g, visited)|, if m in visited then 1 else 0, 0
  {
    var path, inverse := PathOf(g[m], r), g[m].relations[r].inverse;
    if inverse in visited then names == path
    else
      Below(path, names) &&
      (Shrinks(g, m, inverse, visited);
       names[|path|..] == ["$path"] || Shown(g, inverse, visited + {m}, names[|path|..]))
  }

  predicate Below(path: seq<string>, names: seq<string>) {
    Begins(path, names) && path != names
  }

  /** Only names that the program accepts are shown, and a map does not begin with a `$path`. */
  lemma {:induction false} ShownNames(g: Graph, m: MetadataId, visited: set<MetadataId>, n: nat, names: seq<string>)
    requires Closed(g) && SafeNames(g) && m in g && n <= |g[m].relations| && ShownWith(g, m, visited, n, names)
    ensures names != [] && Proper(names) && names[0] != "$path"
    decreases |Unvisited(g, visited)|, if m in visited then 1 else 0
  {
    if r: nat :| r < n && Gives(g, m, visited, r, names) {
      GivenNames(g, m, visited, r, names);
      var inverse, rest := g[m].relations[r].inverse, names[|PathOf(g[m], r)|..];
      if inverse !in visited && rest != ["$path"] {
        Shrinks(g, m, inverse, visited);
        assert Shown(g, inverse, visited + {m}, rest);
        ShownNames(g, inverse, visited + {m}, |g[inverse].relations|, rest);
        assert names == PathOf(g[m], r) + rest;
      }
    } else {
      var i: nat :| Stands(g[m].columns, |g[m].columns|, i, names);
      assert SafePath(g[m].columns[i]);
    }
  }

  lemma GivenNames(g: Graph, m: MetadataId, visited: set<MetadataId>, r: nat, names: seq<string>)
    requires Closed(g) && SafeNames(g) && m in g && r < |g[m].relations| && Gives(g, m, visited, r, names)
    ensures var path := PathOf(g[m], r);
            && Begins(path, names) && SafeSegments(path) && Proper(path) && names[0] != "$path"
            && (g[m].relations[r].inverse in visited || names[|path|..] == ["$path"] ==> Proper(names))
  {
    var path := PathOf(g[m], r);
    assert SafePath(g[m].relations[r].propertyPath);
    assert forall k :: 0 <= k < |path| ==> SafeName(path[k]);
    assert Begins(path, names) ==> names == path + names[|path|..];
  }

  /** One more relation takes away what it does not spare and adds what it gives. */
  lemma ShownWithOneMore(g: Graph, m: MetadataId, visited: set<MetadataId>, n: nat, names: seq<string>)
    requires Closed(g) && RelationsApart(g) && m in g && n < |g[m].relations|
    ensures Gives(g, m, visited, n, names) ==> ShownWith(g, m, visited, n + 1, names)
    ensures Apart(PathOf(g[m], n), names) ==> ShownWith(g, m, visited, n + 1, names) == ShownWith(g, m, visited, n, names)
    ensures !Apart(PathOf(g[m], n), names) && !Gives(g, m, visited, n, names) ==>
              ShownWith(g, m, visited, n + 1, names) == (ShownWith(g, m, visited, n, names) && Spares(g, m, visited, n, names))
  {
    var path := PathOf(g[m], n);
    ApartOrBegins(path, names);
    if Apart(path, names) { assert Spares(g, m, visited, n, names) && !Gives(g, m, visited, n, names); }
    if !Apart(path, names) {
      forall r | 0 <= r < n ensures !Gives(g, m, visited, r, names) {
        if Gives(g, m, visited, r, names) { CommonEnd(path, PathOf(g[m], r), names); }
      }
    }
  }

  // ---- the map holds exactly these texts

  lemma {:induction false} ColumnsAreFull(columns: seq<string>, prefix: string, n: nat)
    requires n <= |columns|
    ensures FullWithin(Columns(columns, prefix, n))
  {
    if n > 0 {
      ColumnsAreFull(columns, prefix, n - 1);
      SetKeepsFull(Columns(columns, prefix, n - 1), columns[n - 1], JoinPath(prefix, columns[n - 1]));
    }
  }

  lemma FollowedKeepsFull(record: Record, path: seq<string>, text: string, inner: Record)
    requires FullWithin(record) && FullWithin(inner)
    ensures FullWithin(Followed(record, path, text, inner))
  {
    var update := (slot: Record) => MergeMap(slot["$path" := Leaf(text)], Branch(inner));
    forall slot | FullWithin(slot) ensures FullWithin(update(slot)) && update(slot) != map[] {
      assert "$path" in slot["$path" := Leaf(text)];
      MergeKeepsFull(slot["$path" := Leaf(text)], Branch(inner));
    }
    UpdateKeepsFull(record, path, update);
  }

  lemma {:induction false} MapsAreFull(
      g: Graph, m: MetadataId, prefix: string, visited: set<MetadataId>, n: nat, chain: seq<MetadataId>)
    requires Closed(g) && m in g && visited == Visited(chain) && IsChain(g, chain + [m]) && n <= |g[m].relations|
    ensures FullWithin(Relations(g, m, prefix, visited, n, chain))
    decreases |Unvisited(g, visited)|, if m in visited then 1 else 0, n
  {
    hide FullWithin, SetMapValue, UpdateSlot, MergeMap, JoinPath, Visited, IsChain, Closed, Follows;
    if n == 0 {
      ColumnsAreFull(g[m].columns, prefix, |g[m].columns|);
    } else {
      MapsAreFull(g, m, prefix, visited, n - 1, chain);
      var record, relation := Relations(g, m, prefix, visited, n - 1, chain), g[m].relations[n - 1];
      var path := JoinPath(prefix, relation.propertyPath);
      if relation.inverse in visited {
        SetKeepsFull(record, relation.propertyPath, path);
      } else {
        ChainGrows(g, chain, m, n - 1);
        Shrinks(g, m, relation.inverse, visited);
        MapsAreFull(g, relation.inverse, path, visited + {m}, |g[relation.inverse].relations|, chain + [m]);
        FollowedKeepsFull(record, Split(relation.propertyPath, '.'), path, Build(g, relation.inverse, path, visited + {m}, chain + [m]));
      }
    }
  }

  /** Whatever the graph, whatever its columns overlap with: the texts of a map are the ones that are shown. */
  lemma {:induction false} MapTexts(
      g: Graph, m: MetadataId, prefix: string, visited: set<MetadataId>, n: nat, chain: seq<MetadataId>, names: seq<string>)
    requires Closed(g) && SafeNames(g) && RelationsApart(g)
    requires m in g && visited == Visited(chain) && IsChain(g, chain + [m]) && n <= |g[m].relations|
    ensures HasText(Branch(Relations(g, m, prefix, visited, n, chain)), names) <==> ShownWith(g, m, visited, n, names)
    decreases |Unvisited(g, visited)|, if m in visited then 1 else 0, n
  {
    hide HasText, SetMapValue, UpdateSlot, MergeMap, JoinPath, SafePath, Visited, IsChain, Closed, Follows, Apart, ShownWith, Gives, Spares;
    if n == 0 {
      ColumnTexts(g[m].columns, prefix, |g[m].columns|, names);
      ShownWithoutRelations(g, m, visited, names);
    } else {
      var record, relation := Relations(g, m, prefix, visited, n - 1, chain), g[m].relations[n - 1];
      var path, text := PathOf(g[m], n - 1), JoinPath(prefix, relation.propertyPath);
      assert SafePath(relation.propertyPath);
      MapTexts(g, m, prefix, visited, n - 1, chain, names);
      ShownWithOneMore(g, m, visited, n - 1, names);
      if relation.inverse in visited {
        SetText(record, relation.propertyPath, text, names);
        UnfollowedRelation(g, m, visited, n - 1, names);
      } else {
        ChainGrows(g, chain, m, n - 1);
        Shrinks(g, m, relation.inverse, visited);
        var inner := Build(g, relation.inverse, text, visited + {m}, chain + [m]);
        assert Relations(g, m, prefix, visited, n, chain) == Followed(record, path, text, inner);
        forall other ensures HasText(Branch(inner), other) <==> Shown(g, relation.inverse, visited + {m}, other) {
          MapTexts(g, relation.inverse, text, visited + {m}, |g[relation.inverse].relations|, chain + [m], other);
        }
        MapsAreFull(g, relation.inverse, text, visited + {m}, |g[relation.inverse].relations|, chain + [m]);
        FollowedTexts(g, m, visited, n - 1, record, text, inner, names);
      }
    }
  }

  lemma ShownWithoutRelations(g: Graph, m: MetadataId, visited: set<MetadataId>, names: seq<string>)
    requires Closed(g) && m in g
    ensures ShownWith(g, m, visited, 0, names) <==> ColumnShown(g[m].columns, |g[m].columns|, names)
  {}

  lemma UnfollowedRelation(g: Graph, m: MetadataId, visited: set<MetadataId>, r: nat, names: seq<string>)
    requires Closed(g) && m in g && r < |g[m].relations| && g[m].relations[r].inverse in visited
    ensures Gives(g, m, visited, r, names) <==> names == PathOf(g[m], r)
    ensures Spares(g, m, visited, r, names) <==> Apart(PathOf(g[m], r), names)
  {}

  lemma FollowedRelation(g: Graph, m: MetadataId, visited: set<MetadataId>, r: nat, names: seq<string>)
    requires Closed(g) && m in g && r < |g[m].relations| && g[m].relations[r].inverse !in visited
    ensures var path, inverse := PathOf(g[m], r), g[m].relations[r].inverse;
            && (Gives(g, m, visited, r, names) <==>
                  Below(path, names) && (names[|path|..] == ["$path"] || Shown(g, inverse, visited + {m}, names[|path|..])))
            && (Spares(g, m, visited, r, names) <==>
                  Apart(path, names) || (Below(path, names) && LeavesRoom(g, inverse, visited + {m}, names[|path|..])))
  {
    Shrinks(g, m, g[m].relations[r].inverse, visited);
  }

  /** Following a relation does to the texts of the map what it does to those that are shown. */
  lemma FollowedTexts(g: Graph, m: MetadataId, visited: set<MetadataId>, r: nat, record: Record, text: string, inner: Record, names: seq<string>)
    requires Closed(g) && SafeNames(g) && RelationsApart(g) && m in g && r < |g[m].relations| && g[m].relations[r].inverse !in visited
    requires HasText(Branch(record), names) <==> ShownWith(g, m, visited, r, names)
    requires FullWithin(inner)
    requires forall other :: HasText(Branch(inner), other) <==> Shown(g, g[m].relations[r].inverse, visited + {m}, other)
    ensures HasText(Branch(Followed(record, PathOf(g[m], r), text, inner)), names) <==> ShownWith(g, m, visited, r + 1, names)
  {
    hide HasText, Apart, ShownWith, Shown, Gives, Spares, Followed, FullWithin;
    var path, inverse := PathOf(g[m], r), g[m].relations[r].inverse;
    assert SafePath(g[m].relations[r].propertyPath) && SafeSegments(path);
    ShownWithOneMore(g, m, visited, r, names);
    FollowedRelation(g, m, visited, r, names);
    ApartOrBegins(path, names);
    if Apart(path, names) {
      FollowedElsewhere(record, path, text, inner, names);
      SameTexts(Branch(Followed(record, path, text, inner)), Branch(record), names);
    } else if Begins(names, path) {
      FollowedAbove(record, path, text, inner, names);
    } else {
      var rest := names[|path|..];
      assert names == path + rest;
      forall other | HasText(Branch(inner), other) ensures other != [] && Proper(other) && other[0] != "$path" {
        ShownIsWith(g, inverse, visited + {m}, other);
        ShownNames(g, inverse, visited + {m}, |g[inverse].relations|, other);
      }
      if ShownWith(g, m, visited, r, names) { NamesBelow(g, m, visited, r, names); }
      FollowedBelow(record, path, text, inner, rest);
    }
  }

  lemma ShownIsWith(g: Graph, m: MetadataId, visited: set<MetadataId>, names: seq<string>)
    requires Closed(g) && m in g
    ensures Shown(g, m, visited, names) == ShownWith(g, m, visited, |g[m].relations|, names)
  {}

  lemma SameTexts(a: Node, b: Node, names: seq<string>)
    requires Find(a, names) == Find(b, names)
    ensures HasText(a, names) == HasText(b, names)
  {}

  /** Below a relation only a column can be shown before the relation is added, and its names are safe. */
  lemma NamesBelow(g: Graph, m: MetadataId, visited: set<MetadataId>, r: nat, names: seq<string>)
    requires Closed(g) && SafeNames(g) && RelationsApart(g) && m in g && r < |g[m].relations|
    requires Below(PathOf(g[m], r), names) && ShownWith(g, m, visited, r, names)
    ensures var rest := names[|PathOf(g[m], r)|..]; Proper(rest) && rest[0] != "$path"
  {
    hide Spares;
    var path := PathOf(g[m], r);
    forall q | 0 <= q < r ensures !Gives(g, m, visited, q, names) {
      if Gives(g, m, visited, q, names) { CommonEnd(path, PathOf(g[m], q), names); }
    }
    var i: nat :| Stands(g[m].columns, |g[m].columns|, i, names);
    assert SafePath(g[m].columns[i]);
  }

  // ---- and each says where it is

  /** The dotted path of a place; that of a `$path` is the one of its record. */
  function TextAt(names: seq<string>): string {
    if names != [] && names[|names| - 1] == "$path" then Join(names[..|names| - 1], '.') else Join(names, '.')
  }

  lemma {:induction false} LocatedText(record: Record, prefix: string, names: seq<string>)
    requires Located(record, prefix) && HasText(Branch(record), names) && forall k :: 0 <= k < |names| ==> names[k] != []
    ensures Find(Branch(record), names) ==
            Some(Leaf(if names == ["$path"] then prefix else JoinPath(prefix, TextAt(names))))
    decreases |names|
  {
    var name, rest := names[0], names[1..];
    assert names == [name] + rest && LocatedNode(record[name], prefix, name);
    assert Find(Branch(record), names) == Find(record[name], rest);
    if rest != [] {
      assert record[name].Branch?;
      LocatedText(record[name].record, JoinPath(prefix, name), rest);
      if rest == ["$path"] {
        assert names[..1] == [name];
      } else if names[|names| - 1] == "$path" {
        assert names[..|names| - 1] == [name] + rest[..|rest| - 1];
        JoinPathSplits(prefix, name, rest[..|rest| - 1]);
      } else {
        JoinPathSplits(prefix, name, rest);
      }
    }
  }

  /**
   On any metadata graph with safe names and relations that do not lie within
   each other, wherever their columns lie, the paths map leads to a text exactly
   where the graph shows one, and the text is the dotted path that leads to it.
   */
  lemma TextsAreExactlyThePaths(g: Graph, m: MetadataId, names: seq<string>, text: string)
    requires Closed(g) && SafeNames(g) && RelationsApart(g) && m in g
    ensures IsChain(g, [] + [m]) && Visited([]) == {}
    ensures Find(Branch(Build(g, m, "", {}, [])), names) == Some(Leaf(text)) <==> Shown(g, m, {}, names) && text == TextAt(names)
  {
    PathsAreWhereTheySay(g, m);
    var record := Build(g, m, "", {}, []);
    MapTexts(g, m, "", {}, |g[m].relations|, [], names);
    if Shown(g, m, {}, names) {
      ShownNames(g, m, {}, |g[m].relations|, names);
      LocatedText(record, "", names);
    }
  }

  // ---- columns under relations

  lemma {:induction false} ApartExtends(a: seq<string>, b: seq<string>, rest: seq<string>)
    requires Apart(a, b)
    ensures Apart(a, b + rest)
    decreases |a|
  {
    assert (b + rest)[1..] == b[1..] + rest;
    if a[0] == b[0] { ApartExtends(a[1..], b[1..], rest); }
  }

  /**
   Below a relation that is not followed there is nothing. Below one that is,
   there are the texts of its map, and a column of the metadata itself exactly
   if that map leaves room for it.
   */
  lemma UnderRelation(g: Graph, m: MetadataId, visited: set<MetadataId>, r: nat, rest: seq<string>)
    requires Closed(g) && RelationsApart(g) && m in g && r < |g[m].relations| && rest != [] && rest != ["$path"]
    ensures var inverse, names := g[m].relations[r].inverse, PathOf(g[m], r) + rest;
            Shown(g, m, visited, names) <==>
            && inverse !in visited
            && (Shown(g, inverse, visited + {m}, rest)
                || (ColumnShown(g[m].columns, |g[m].columns|, names) && LeavesRoom(g, inverse, visited + {m}, rest)))
  {
    hide Apart, Shown, LeavesRoom, Gives, Spares, ColumnShown, Begins;
    var path, names := PathOf(g[m], r), PathOf(g[m], r) + rest;
    forall q: nat | q < |g[m].relations| && q != r ensures Spares(g, m, visited, q, names) && !Gives(g, m, visited, q, names) {
      assert ApartWithin(g[m]);
      ApartExtends(PathOf(g[m], q), path, rest);
      ApartGivesNothing(g, m, visited, q, names);
    }
    BelowIs(path, rest);
    if g[m].relations[r].inverse in visited { UnfollowedRelation(g, m, visited, r, names); } else { FollowedRelation(g, m, visited, r, names); }
    ShownIsWith(g, m, visited, names);
  }

  lemma BelowIs(path: seq<string>, rest: seq<string>)
    requires rest != []
    ensures var names := path + rest;
            Below(path, names) && names[|path|..] == rest && names != path && !Apart(path, names)
  {
    ApartOrBegins(path, path + rest);
  }

  lemma ApartGivesNothing(g: Graph, m: MetadataId, visited: set<MetadataId>, r: nat, names: seq<string>)
    requires Closed(g) && m in g && r < |g[m].relations| && Apart(PathOf(g[m], r), names)
    ensures Spares(g, m, visited, r, names) && !Gives(g, m, visited, r, names)
  {
    ApartOrBegins(PathOf(g[m], r), names);
  }

  // ---- an entity that refers to its own kind

  /** A node with its own key and its parent's, which lies within the relation to the parent. */
  function NodeGraph(id: string, parent: string): Graph {
    map[0 := Metadata([id, parent + "." + id], [Relation(parent, 0)])]
  }

  /** Two different names without dots. */
  predicate NodeNames(id: string, parent: string) {
    '.' !in id && '.' !in parent && id != parent && SafeName(id) && SafeName(parent)
  }

  lemma NodePaths(id: string, parent: string)
    requires NodeNames(id, parent)
    ensures Split(id, '.') == [id] && Split(parent, '.') == [parent] && Split(parent + "." + id, '.') == [parent, id]
    ensures PathOf(NodeGraph(id, parent)[0], 0) == [parent]
  {
    SplitOfWhole(id, '.');
    SplitOfWhole(parent, '.');
    SplitOfJoined(parent, id, '.');
  }

  lemma NodesAreRegular(id: string, parent: string)
    requires NodeNames(id, parent)
    ensures Closed(NodeGraph(id, parent)) && SafeNames(NodeGraph(id, parent)) && RelationsApart(NodeGraph(id, parent))
  {
    hide Split, SafeName;
    NodePaths(id, parent);
  }

  lemma NodeColumns(id: string, parent: string, names: seq<string>)
    requires NodeNames(id, parent)
    ensures ColumnShown([id, parent + "." + id], 2, names) <==> names == [id] || names == [parent, id]
  {
    hide Split;
    NodePaths(id, parent);
    var columns := [id, parent + "." + id];
    if names == [id] { assert Stands(columns, 2, 0, names); }
    if names == [parent, id] { assert Stands(columns, 2, 1, names); }
  }

  lemma OneRelation(g: Graph, m: MetadataId, visited: set<MetadataId>, names: seq<string>)
    requires Closed(g) && m in g && |g[m].relations| == 1
    ensures Shown(g, m, visited, names) <==>
            (ColumnShown(g[m].columns, |g[m].columns|, names) && Spares(g, m, visited, 0, names)) || Gives(g, m, visited, 0, names)
  {
    hide ColumnShown, Spares, Gives;
    ShownIsWith(g, m, visited, names);
  }

  /** In the parent's map the relation is not followed any more, and takes the place of the parent's key of its parent. */
  lemma ParentTexts(id: string, parent: string, names: seq<string>)
    requires NodeNames(id, parent) && Closed(NodeGraph(id, parent))
    ensures Shown(NodeGraph(id, parent), 0, {0}, names) <==> names == [id] || names == [parent]
  {
    hide Split, ColumnShown, Shown, Spares, Gives, SafeName;
    NodePaths(id, parent);
    NodeColumns(id, parent, names);
    OneRelation(NodeGraph(id, parent), 0, {0}, names);
    UnfollowedRelation(NodeGraph(id, parent), 0, {0}, 0, names);
  }

  /**
   So the map of a node has its key, its parent's key and the path of its
   parent's parent, but not the key of that one, to which the graph has a path.
   */
  lemma NodeTexts(id: string, parent: string, names: seq<string>)
    requires NodeNames(id, parent) && Closed(NodeGraph(id, parent))
    ensures Shown(NodeGraph(id, parent), 0, {}, names) <==>
            names == [id] || names == [parent, "$path"] || names == [parent, id] || names == [parent, parent]
  {
    hide Split, ColumnShown, Shown, Spares, Gives, SafeName, LeavesRoom;
    NodePaths(id, parent);
    NodeColumns(id, parent, names);
    OneRelation(NodeGraph(id, parent), 0, {}, names);
    FollowedRelation(NodeGraph(id, parent), 0, {}, 0, names);
    var inner: set<MetadataId> := {0};
    assert {} + inner == inner;
    if Below([parent], names) {
      assert names == [parent] + names[1..];
      ParentTexts(id, parent, names[1..]);
      ParentLeavesNoRoom(id, parent);
    }
  }

  lemma ParentLeavesNoRoom(id: string, parent: string)
    requires NodeNames(id, parent) && Closed(NodeGraph(id, parent))
    ensures !LeavesRoom(NodeGraph(id, parent), 0, {0}, [id])
  {
    hide Shown, Split;
    ParentTexts(id, parent, [id]);
    ApartOrBegins([id], [id]);
  }

  /** A path of the graph that its map does not have. */
  lemma GrandparentKeyIsMissing(id: string, parent: string)
    requires NodeNames(id, parent)
    ensures var g := NodeGraph(id, parent);
            && Closed(g) && SafeNames(g) && RelationsApart(g)
            && Leads(g, 0, {}, [0], 1) && Split(Dotted(g, 0, {}, [0], 1), '.') == [parent, parent, id]
            && IsChain(g, [] + [0]) && Visited([]) == {}
            && !HasText(Branch(Build(g, 0, "", {}, [])), [parent, parent, id])
  {
    hide Split, SafeName, Build, Shown, Find;
    var g, names := NodeGraph(id, parent), [parent, parent, id];
    NodesAreRegular(id, parent);
    NodePaths(id, parent);
    NodeTexts(id, parent, names);
    SplitOfJoined(parent, parent + "." + id, '.');
    PathsAreWhereTheySay(g, 0);
    if HasText(Branch(Build(g, 0, "", {}, [])), names) {
      TextsAreExactlyThePaths(g, 0, names, Find(Branch(Build(g, 0, "", {}, [])), names).value.text);
    }
  }

  // ---- what is found under each relation

  /** The map that the recursion builds for a relation it follows. */
  ghost function Inner(g: Graph, m: MetadataId, prefix: string, visited: set<MetadataId>, chain: seq<MetadataId>, r: nat): Record
    requires Closed(g) && m in g && visited == Visited(chain) && IsChain(g, chain + [m])
    requires r < |g[m].relations| && g[m].relations[r].inverse !in visited
  {
    ChainGrows(g, chain, m, r);
    Build(g, g[m].relations[r].inverse, JoinPath(prefix, g[m].relations[r].propertyPath), visited + {m}, chain + [m])
  }

  /**
   What belongs under a relation: its path, or if it is followed the map of its
   entity with its path, merged into what the columns left there.
   */
  ghost function Expected(g: Graph, m: MetadataId, prefix: string, visited: set<MetadataId>, chain: seq<MetadataId>, r: nat): Node
    requires Closed(g) && m in g && visited == Visited(chain) && IsChain(g, chain + [m]) && r < |g[m].relations|
  {
    var text := JoinPath(prefix, g[m].relations[r].propertyPath);
    var slot := SlotAt(Columns(g[m].columns, prefix, |g[m].columns|), PathOf(g[m], r));
    if g[m].relations[r].inverse in visited then Leaf(text)
    else Branch(MergeMap(slot["$path" := Leaf(text)], Branch(Inner(g, m, prefix, visited, chain, r))))
  }

  lemma SetSlot(record: Record, propertyPath: string, value: string, other: seq<string>)
    requires SafePath(propertyPath) && Apart(Split(propertyPath, '.'), other)
    ensures SlotAt(SetMapValue(record, propertyPath, value), other) == SlotAt(record, other)
  {
    var names := Split(propertyPath, '.');
    var init, leaf := names[..|names| - 1], names[|names| - 1];
    assert names == init + [leaf];
    SlotApartFromEntry(record, init, leaf, Leaf(value), other);
  }

  /**
   Each relation of a metadata, once handled, is found with what belongs to it,
   wherever the columns lie and whatever is handled later; until then its slot
   is as the columns left it.
   */
  lemma {:induction false} RelationsAreFound(
      g: Graph, m: MetadataId, prefix: string, visited: set<MetadataId>, chain: seq<MetadataId>, n: nat, r: nat)
    requires Closed(g) && SafeNames(g) && m in g && ApartWithin(g[m])
    requires visited == Visited(chain) && IsChain(g, chain + [m]) && n <= |g[m].relations| && r < |g[m].relations|
    ensures var record, path := Relations(g, m, prefix, visited, n, chain), PathOf(g[m], r);
            && (r < n ==> Find(Branch(record), path) == Some(Expected(g, m, prefix, visited, chain, r)))
            && (r >= n ==> SlotAt(record, path) == SlotAt(Columns(g[m].columns, prefix, |g[m].columns|), path))
    decreases n
  {
    hide SetMapValue, UpdateSlot, MergeMap, JoinPath, SafePath, Apart, Find, Visited, IsChain, Closed, SlotAt, Columns;
    if n > 0 {
      var record, relation := Relations(g, m, prefix, visited, n - 1, chain), g[m].relations[n - 1];
      var text, path, last := JoinPath(prefix, relation.propertyPath), PathOf(g[m], r), PathOf(g[m], n - 1);
      assert SafePath(relation.propertyPath);
      SafePathIsSafe(relation.propertyPath);
      RelationsAreFound(g, m, prefix, visited, chain, n - 1, r);
      if relation.inverse in visited {
        if r == n - 1 {
          SetIsFound(record, relation.propertyPath, text);
        } else {
          assert Apart(last, path);
          SetElsewhere(record, relation.propertyPath, text, path);
          SetSlot(record, relation.propertyPath, text, path);
        }
      } else {
        var inner := Inner(g, m, prefix, visited, chain, n - 1);
        assert Relations(g, m, prefix, visited, n, chain) == Followed(record, last, text, inner);
        if r == n - 1 {
          FollowedRecord(record, path, text, inner);
        } else {
          assert Apart(last, path);
          FollowedElsewhere(record, last, text, inner, path);
          SlotElsewhere(record, last, slot => MergeMap(slot["$path" := Leaf(text)], Branch(inner)), path);
        }
      }
    }
  }

  lemma SafePathIsSafe(path: string)
    requires SafePath(path)
    ensures SafeSegments(Split(path, '.'))
  {}

  // ---- the `$path` of every relation that is followed

  /** Relations that the recursion follows one after another, at least one. */
  predicate Goes(g: Graph, m: MetadataId, visited: set<MetadataId>, steps: seq<nat>)
    decreases |steps|
  {
    && m in g && steps != [] && steps[0] < |g[m].relations| && g[m].relations[steps[0]].inverse !in visited
    && (|steps| > 1 ==> Goes(g, g[m].relations[steps[0]].inverse, visited + {m}, steps[1..]))
  }

  function Trail(g: Graph, m: MetadataId, visited: set<MetadataId>, steps: seq<nat>): string
    requires Goes(g, m, visited, steps)
    decreases |steps|
  {
    var relation := g[m].relations[steps[0]];
    if |steps| == 1 then relation.propertyPath
    else relation.propertyPath + "." + Trail(g, relation.inverse, visited + {m}, steps[1..])
  }

  /** However deep, the record of a followed relation is shown to have its `$path`. */
  lemma {:induction false} TrailIsShown(g: Graph, m: MetadataId, visited: set<MetadataId>, steps: seq<nat>)
    requires Closed(g) && m in g && Goes(g, m, visited, steps)
    ensures Shown(g, m, visited, Split(Trail(g, m, visited, steps), '.') + ["$path"])
    decreases |steps|
  {
    var relation, path := g[m].relations[steps[0]], PathOf(g[m], steps[0]);
    var rest := ["$path"];
    if |steps| > 1 {
      var trail := Trail(g, relation.inverse, visited + {m}, steps[1..]);
      TrailIsShown(g, relation.inverse, visited + {m}, steps[1..]);
      SplitOfJoined(relation.propertyPath, trail, '.');
      rest := Split(trail, '.') + ["$path"];
    }
    var names := Split(Trail(g, m, visited, steps), '.') + ["$path"];
    assert names == path + rest && names[|path|..] == rest;
    assert Gives(g, m, visited, steps[0], names);
  }

  /** So it is found there, and it is the dotted path of the record. */
  lemma RecordsSayWhereTheyAre(g: Graph, m: MetadataId, steps: seq<nat>)
    requires Closed(g) && SafeNames(g) && RelationsApart(g) && m in g && Goes(g, m, {}, steps)
    ensures IsChain(g, [] + [m]) && Visited([]) == {}
    ensures var path := Trail(g, m, {}, steps);
            Find(Branch(Build(g, m, "", {}, [])), Split(path, '.') + ["$path"]) == Some(Leaf(path))
  {
    var path := Trail(g, m, {}, steps);
    var names := Split(path, '.') + ["$path"];
    TrailIsShown(g, m, {}, steps);
    JoinOfSplit(path, '.');
    assert names[..|names| - 1] == Split(path, '.');
    TextsAreExactlyThePaths(g, m, names, path);
  }

  // ---- walks

  function PathCount(metadata: Metadata): nat {
    |metadata.columns| + |metadata.relations|
  }

  /** Columns first, then relations. */
  function PathAt(metadata: Metadata, i: nat): string
    requires i < PathCount(metadata)
  {
    if i < |metadata.columns| then metadata.columns[i] else metadata.relations[i - |metadata.columns|].propertyPath
  }

  /**
   `steps` follows relations from a metadata, none to what was visited, to one
   whose i-th property is a column or a relation that is not followed.
   */
  predicate Leads(g: Graph, m: MetadataId, visited: set<MetadataId>, steps: seq<nat>, i: nat)
    decreases |steps|
  {
    && m in g
    && if steps == [] then
         i < PathCount(g[m]) && (i >= |g[m].columns| ==> g[m].relations[i - |g[m].columns|].inverse in visited)
       else
         && steps[0] < |g[m].relations| && g[m].relations[steps[0]].inverse !in visited
         && Leads(g, g[m].relations[steps[0]].inverse, visited + {m}, steps[1..], i)
  }

  /** The dotted path of that property. */
  function Dotted(g: Graph, m: MetadataId, visited: set<MetadataId>, steps: seq<nat>, i: nat): string
    requires Leads(g, m, visited, steps, i)
    decreases |steps|
  {
    if steps == [] then PathAt(g[m], i)
    else
      var relation := g[m].relations[steps[0]];
      relation.propertyPath + "." + Dotted(g, relation.inverse, visited + {m}, steps[1..], i)
  }

  lemma WalkGrows(g: Graph, m: MetadataId, visited: set<MetadataId>, r: nat, steps: seq<nat>, i: nat)
    requires m in g && r < |g[m].relations| && g[m].relations[r].inverse !in visited
    requires Leads(g, g[m].relations[r].inverse, visited + {m}, steps, i)
    ensures Leads(g, m, visited, [r] + steps, i)
    ensures Split(Dotted(g, m, visited, [r] + steps, i), '.') ==
            Split(g[m].relations[r].propertyPath, '.') + Split(Dotted(g, g[m].relations[r].inverse, visited + {m}, steps, i), '.')
  {
    assert ([r] + steps)[1..] == steps;
    SplitOfJoined(g[m].relations[r].propertyPath, Dotted(g, g[m].relations[r].inverse, visited + {m}, steps, i), '.');
  }

  /** A text after following a relation was there before, is the `$path`, or comes from the relation's map. */
  lemma TextAfterFollowing(record: Record, path: seq<string>, text: string, inner: Record, names: seq<string>)
    requires SafeSegments(path) && HasText(Branch(Followed(record, path, text, inner)), names)
    ensures HasText(Branch(record), names) || (Below(path, names) && (names[|path|..] == ["$path"] || HasText(Branch(inner), names[|path|..])))
  {
    ApartOrBegins(path, names);
    if Apart(path, names) {
      FollowedElsewhere(record, path, text, inner, names);
    } else if Begins(names, path) {
      FollowedAbove(record, path, text, inner, names);
    } else {
      var slot, rest := SlotAt(record, path), names[|path|..];
      assert names == path + rest;
      FollowedRecord(record, path, text, inner);
      FindThrough(Branch(Followed(record, path, text, inner)), path, rest);
      MergedFrom(slot["$path" := Leaf(text)], Branch(inner), rest);
      TextWithPath(slot, text, rest);
      TextInSlot(record, path, rest);
    }
  }

  /** Every text other than a `$path` is found under the dotted path of some property, even where relations overlap. */
  lemma {:induction false} TextsComeFromPaths(
      g: Graph, m: MetadataId, prefix: string, visited: set<MetadataId>, chain: seq<MetadataId>, n: nat, names: seq<string>)
      returns (steps: seq<nat>, i: nat)
    requires Closed(g) && SafeNames(g) && m in g && visited == Visited(chain) && IsChain(g, chain + [m]) && n <= |g[m].relations|
    requires names != [] && names[|names| - 1] != "$path" && HasText(Branch(Relations(g, m, prefix, visited, n, chain)), names)
    ensures Leads(g, m, visited, steps, i) && names == Split(Dotted(g, m, visited, steps, i), '.')
    decreases |Unvisited(g, visited)|, if m in visited then 1 else 0, n
  {
    hide SetMapValue, UpdateSlot, MergeMap, JoinPath, SafePath, HasText, Visited, IsChain, Closed, Split, Columns, Follows;
    if n == 0 {
      assert forall k :: 0 <= k < |g[m].columns| ==> SafePath(g[m].columns[k]);
      ColumnTexts(g[m].columns, prefix, |g[m].columns|, names);
      var k: nat :| Stands(g[m].columns, |g[m].columns|, k, names);
      steps, i := [], k;
    } else {
      var record, relation := Relations(g, m, prefix, visited, n - 1, chain), g[m].relations[n - 1];
      var text, path := JoinPath(prefix, relation.propertyPath), PathOf(g[m], n - 1);
      assert SafePath(relation.propertyPath);
      SafePathIsSafe(relation.propertyPath);
      if HasText(Branch(record), names) {
        steps, i := TextsComeFromPaths(g, m, prefix, visited, chain, n - 1, names);
      } else if relation.inverse in visited {
        SetText(record, relation.propertyPath, text, names);
        steps, i := [], |g[m].columns| + n - 1;
      } else {
        ChainGrows(g, chain, m, n - 1);
        Shrinks(g, m, relation.inverse, visited);
        var inner := Build(g, relation.inverse, text, visited + {m}, chain + [m]);
        assert Relations(g, m, prefix, visited, n, chain) == Followed(record, path, text, inner);
        TextAfterFollowing(record, path, text, inner, names);
        var innerSteps;
        innerSteps, i := TextsComeFromPaths(g, relation.inverse, text, visited + {m}, chain + [m],
                                            |g[relation.inverse].relations|, names[|path|..]);
        steps := [n - 1] + innerSteps;
        WalkGrows(g, m, visited, n - 1, innerSteps, i);
        assert names == path + names[|path|..];
      }
    }
  }
}
