/**
 Property maps of entity metadata (`AbstractTypeormRepository`): nested records
 of paths, built by recursion over a metadata graph that may be cyclic.
 */
module PropertyMaps {
  import opened Sequences

  type MetadataId = nat

  datatype Relation = Relation(propertyPath: string, inverse: MetadataId)

  /** The property paths of an entity's columns, and its relations. */
  datatype Metadata = Metadata(columns: seq<string>, relations: seq<Relation>)

  type Graph = map<MetadataId, Metadata>

  ghost predicate Closed(g: Graph) {
    forall m, i :: m in g && 0 <= i < |g[m].relations| ==> g[m].relations[i].inverse in g
  }

  datatype Node = Leaf(text: string) | Branch(record: map<string, Node>)

  type Record = map<string, Node>

  predicate Unsafe(name: string) {
    name == "__proto__" || name == "constructor" || name == "prototype"
  }

  function JoinPath(prefix: string, path: string): string {
    if prefix == [] then path else prefix + "." + path
  }

  /** The record found under a name, or an empty one in its place. */
  function ChildRecord(record: Record, name: string): Record {
    if name in record && record[name].Branch? then record[name].record else map[]
  }

  /** Replaces the record at the end of a path by what `update` makes of it; unsafe names are skipped. */
  function UpdateSlot(record: Record, segments: seq<string>, update: Record -> Record): Record
    decreases |segments|
  {
    if segments == [] then update(record)
    else if Unsafe(segments[0]) then UpdateSlot(record, segments[1..], update)
    else record[segments[0] := Branch(UpdateSlot(ChildRecord(record, segments[0]), segments[1..], update))]
  }

  /** setMapValue: the text at the end of a path, unless its last name is unsafe. */
  function SetMapValue(record: Record, propertyPath: string, value: string): Record {
    var segments := Split(propertyPath, '.');
    var leaf := segments[|segments| - 1];
    if Unsafe(leaf) then record
    else UpdateSlot(record, segments[..|segments| - 1], r => r[leaf := Leaf(value)])
  }

  /** mergeMap: records are merged, anything else of the source replaces what the target has. */
  function MergeMap(target: Record, source: Node): Record
    requires source.Branch?
    decreases source
  {
    map k | k in target.Keys + source.record.Keys && (k in target || !Unsafe(k)) ::
      if k in source.record && !Unsafe(k) then
        if k in target && target[k].Branch? && source.record[k].Branch? then Branch(MergeMap(target[k].record, source.record[k]))
        else source.record[k]
      else target[k]
  }

  // ---- the recursion over metadata

  /** Metadata that a chain of calls has been to. */
  function Visited(chain: seq<MetadataId>): set<MetadataId> {
    set i | 0 <= i < |chain| :: chain[i]
  }

  /** Some relation of one metadata leads to the other. */
  predicate Follows(g: Graph, m: MetadataId, next: MetadataId)
    requires m in g
  {
    exists r :: 0 <= r < |g[m].relations| && g[m].relations[r].inverse == next
  }

  /** A chain of recursive calls: each goes to the inverse of a relation, and never to what was visited before its caller. */
  ghost predicate IsChain(g: Graph, chain: seq<MetadataId>) {
    && (forall i :: 0 <= i < |chain| ==> chain[i] in g)
    && forall i :: 0 <= i < |chain| - 1 ==>
         Follows(g, chain[i], chain[i + 1]) && chain[i + 1] !in Visited(chain[..i])
  }

  /** Metadata not yet visited. */
  function Unvisited(g: Graph, visited: set<MetadataId>): set<MetadataId> {
    g.Keys - visited
  }

  /** The paths of columns, the first n of them. */
  function Columns(columns: seq<string>, prefix: string, n: nat): Record
    requires n <= |columns|
  {
    if n == 0 then map[] else SetMapValue(Columns(columns, prefix, n - 1), columns[n - 1], JoinPath(prefix, columns[n - 1]))
  }

  /**
   buildRepositoryPropertyMap with relation paths included. `chain` lists the
   calls that led here; `visited` is what they have been to.
   */
  function Build(g: Graph, m: MetadataId, prefix: string, visited: set<MetadataId>, ghost chain: seq<MetadataId>): Record
    requires Closed(g) && m in g && visited == Visited(chain) && IsChain(g, chain + [m])
    decreases |Unvisited(g, visited)|, if m in visited then 1 else 0, |g[m].relations| + 1
  {
    Relations(g, m, prefix, visited, |g[m].relations|, chain)
  }

  /** The same map with the first n relations followed. */
  function Relations(g: Graph, m: MetadataId, prefix: string, visited: set<MetadataId>, n: nat, ghost chain: seq<MetadataId>): Record
    requires Closed(g) && m in g && visited == Visited(chain) && IsChain(g, chain + [m]) && n <= |g[m].relations|
    decreases |Unvisited(g, visited)|, if m in visited then 1 else 0, n
  {
    if n == 0 then Columns(g[m].columns, prefix, |g[m].columns|)
    else
      var record, relation := Relations(g, m, prefix, visited, n - 1, chain), g[m].relations[n - 1];
      var path := JoinPath(prefix, relation.propertyPath);
      if relation.inverse in visited then SetMapValue(record, relation.propertyPath, path)
      else
        ChainGrows(g, chain, m, n - 1);
        Shrinks(g, m, relation.inverse, visited);
        var inner := Build(g, relation.inverse, path, visited + {m}, chain + [m]);
        UpdateSlot(record, Split(relation.propertyPath, '.'), slot => MergeMap(slot["$path" := Leaf(path)], Branch(inner)))
  }

  /** The recursion with its two loops, over the columns and over the relations of a metadata. */
  method BuildRepositoryPropertyMap(g: Graph, m: MetadataId, prefix: string, visited: set<MetadataId>, ghost chain: seq<MetadataId>)
    returns (record: Record)
    requires Closed(g) && m in g && visited == Visited(chain) && IsChain(g, chain + [m])
    ensures record == Build(g, m, prefix, visited, chain)
    decreases |Unvisited(g, visited)|, if m in visited then 1 else 0
  {
    hide UpdateSlot, MergeMap, SetMapValue, JoinPath, Visited, IsChain, Closed;
    record := map[];
    var nextVisited := visited + {m};
    var i := 0;
    while i < |g[m].columns|
      invariant i <= |g[m].columns| && record == Columns(g[m].columns, prefix, i)
    {
      record := SetMapValue(record, g[m].columns[i], JoinPath(prefix, g[m].columns[i]));
      i := i + 1;
    }
    var r := 0;
    while r < |g[m].relations|
      invariant r <= |g[m].relations| && record == Relations(g, m, prefix, visited, r, chain)
    {
      var relation := g[m].relations[r];
      var relationPath := JoinPath(prefix, relation.propertyPath);
      if relation.inverse in visited {
        record := SetMapValue(record, relation.propertyPath, relationPath);
      } else {
        ChainGrows(g, chain, m, r);
        Shrinks(g, m, relation.inverse, visited);
        var inner := BuildRepositoryPropertyMap(g, relation.inverse, relationPath, nextVisited, chain + [m]);
        record := UpdateSlot(record, Split(relation.propertyPath, '.'),
                             slot => MergeMap(slot["$path" := Leaf(relationPath)], Branch(inner)));
      }
      r := r + 1;
    }
  }

  lemma ChainGrows(g: Graph, chain: seq<MetadataId>, m: MetadataId, r: nat)
    requires Closed(g) && IsChain(g, chain + [m]) && m in g && r < |g[m].relations|
    requires g[m].relations[r].inverse !in Visited(chain)
    ensures g[m].relations[r].inverse in g
    ensures Visited(chain + [m]) == Visited(chain) + {m}
    ensures IsChain(g, chain + [m] + [g[m].relations[r].inverse])
  {
    var inverse := g[m].relations[r].inverse;
    var shorter, longer := chain + [m], chain + [m] + [inverse];
    assert shorter[|chain|] == m;
    assert forall i :: 0 <= i < |chain| ==> shorter[i] == chain[i];
    forall i | 0 <= i < |longer| - 1
      ensures Follows(g, longer[i], longer[i + 1]) && longer[i + 1] !in Visited(longer[..i])
    {
      assert longer[i] == shorter[i];
      if i < |chain| {
        assert longer[..i] == shorter[..i] && longer[i + 1] == shorter[i + 1];
      } else {
        assert longer[..i] == chain && Follows(g, m, inverse);
      }
    }
  }

  /** Each call has less to visit, or as much and leaves a metadata it had been to for one it had not. */
  lemma Shrinks(g: Graph, m: MetadataId, inverse: MetadataId, visited: set<MetadataId>)
    requires m in g && inverse !in visited
    ensures if m in visited then Unvisited(g, visited + {m}) == Unvisited(g, visited) && inverse !in visited + {m}
            else |Unvisited(g, visited + {m})| < |Unvisited(g, visited)|
  {
    if m in visited {
      assert visited + {m} == visited;
    } else {
      assert Unvisited(g, visited + {m}) == Unvisited(g, visited) - {m};
    }
  }

  /** Along a chain a metadata comes at most twice, and then at once. */
  lemma RepetitionsAreConsecutive(g: Graph, chain: seq<MetadataId>, i: nat, j: nat)
    requires IsChain(g, chain) && i < j < |chain| && chain[i] == chain[j]
    ensures j == i + 1
  {
    assert chain[(j - 1) + 1] !in Visited(chain[..j - 1]);
    assert forall k :: 0 <= k < j - 1 ==> chain[..j - 1][k] == chain[k] && chain[k] in Visited(chain[..j - 1]);
  }

  /** Every other metadata of a chain. */
  function EveryOther(chain: seq<MetadataId>): seq<MetadataId> {
    if |chain| <= 1 then chain else [chain[0]] + EveryOther(chain[2..])
  }

  lemma {:induction false} EveryOtherAt(chain: seq<MetadataId>, k: nat)
    requires k < |EveryOther(chain)|
    ensures 2 * k < |chain| && EveryOther(chain)[k] == chain[2 * k]
  {
    if k > 0 && |chain| > 1 { EveryOtherAt(chain[2..], k - 1); }
  }

  lemma {:induction false} EveryOtherLength(chain: seq<MetadataId>)
    ensures 2 * |EveryOther(chain)| >= |chain|
  {
    if |chain| > 1 { EveryOtherLength(chain[2..]); }
  }

  /** The recursion is never deeper than twice the number of metadata. */
  lemma ChainsAreShort(g: Graph, chain: seq<MetadataId>)
    requires IsChain(g, chain)
    ensures |chain| <= 2 * |g.Keys|
  {
    var half := EveryOther(chain);
    forall i, j | 0 <= i < j < |half| ensures half[i] != half[j] {
      EveryOtherAt(chain, i);
      EveryOtherAt(chain, j);
      if chain[2 * i] == chain[2 * j] { RepetitionsAreConsecutive(g, chain, 2 * i, 2 * j); }
    }
    forall m | m in half ensures m in g.Keys {
      var k :| 0 <= k < |half| && half[k] == m;
      EveryOtherAt(chain, k);
    }
    DistinctAtMost(half, g.Keys);
    EveryOtherLength(chain);
  }

  // ---- every text is its own path

  /** Every text of the record is the path at which it is stored, `$path` the path of its record. */
  predicate Located(record: Record, prefix: string) {
    forall k :: k in record ==> LocatedNode(record[k], prefix, k)
  }

  predicate LocatedNode(node: Node, prefix: string, name: string)
    decreases node
  {
    match node
    case Leaf(text) => text == if name == "$path" then prefix else JoinPath(prefix, name)
    case Branch(record) =>
      && name != "$path"
      && forall k :: k in record ==> LocatedNode(record[k], JoinPath(prefix, name), k)
  }

  /** A name that can be a key of its own. */
  predicate SafeName(name: string) {
    name != [] && name != "$path" && !Unsafe(name)
  }

  predicate SafePath(path: string) {
    forall k :: 0 <= k < |Split(path, '.')| ==> SafeName(Split(path, '.')[k])
  }

  ghost predicate SafeNames(g: Graph) {
    forall m :: m in g ==>
      && (forall i :: 0 <= i < |g[m].columns| ==> SafePath(g[m].columns[i]))
      && (forall i :: 0 <= i < |g[m].relations| ==> SafePath(g[m].relations[i].propertyPath))
  }

  lemma JoinPathSplits(prefix: string, name: string, rest: seq<string>)
    requires name != [] && rest != []
    ensures JoinPath(prefix, Join([name] + rest, '.')) == JoinPath(JoinPath(prefix, name), Join(rest, '.'))
  {
    assert ([name] + rest)[1..] == rest;
    if prefix != [] {
      assert prefix + "." + (name + "." + Join(rest, '.')) == (prefix + "." + name) + "." + Join(rest, '.');
    }
  }

  lemma {:induction false} UpdateKeepsLocated(record: Record, segments: seq<string>, update: Record -> Record, prefix: string, end: string)
    requires Located(record, prefix) && (forall k :: 0 <= k < |segments| ==> SafeName(segments[k]))
    requires end == if segments == [] then prefix else JoinPath(prefix, Join(segments, '.'))
    requires forall slot :: Located(slot, end) ==> Located(update(slot), end)
    ensures Located(UpdateSlot(record, segments, update), prefix)
    decreases |segments|
  {
    if segments != [] {
      var name, rest := segments[0], segments[1..];
      var child := ChildRecord(record, name);
      assert Located(child, JoinPath(prefix, name)) by {
        if name in record { assert LocatedNode(record[name], prefix, name); }
      }
      if rest == [] {
        assert segments == [name];
      } else {
        assert segments == [name] + rest;
        JoinPathSplits(prefix, name, rest);
      }
      UpdateKeepsLocated(child, rest, update, JoinPath(prefix, name), end);
    }
  }

  lemma {:induction false} MergeKeepsLocated(target: Record, source: Node, prefix: string)
    requires source.Branch? && Located(target, prefix) && Located(source.record, prefix)
    ensures Located(MergeMap(target, source), prefix)
    decreases source
  {
    var merged := MergeMap(target, source);
    forall k | k in merged
      ensures LocatedNode(merged[k], prefix, k)
    {
      if k in source.record && !Unsafe(k) && k in target && target[k].Branch? && source.record[k].Branch? {
        assert LocatedNode(target[k], prefix, k) && LocatedNode(source.record[k], prefix, k);
        MergeKeepsLocated(target[k].record, source.record[k], JoinPath(prefix, k));
      }
    }
  }

  lemma SetKeepsLocated(record: Record, propertyPath: string, prefix: string)
    requires Located(record, prefix) && SafePath(propertyPath)
    ensures Located(SetMapValue(record, propertyPath, JoinPath(prefix, propertyPath)), prefix)
  {
    var segments := Split(propertyPath, '.');
    JoinOfSplit(propertyPath, '.');
    var init, leaf := segments[..|segments| - 1], segments[|segments| - 1];
    var value := JoinPath(prefix, propertyPath);
    var end := if init == [] then prefix else JoinPath(prefix, Join(init, '.'));
    JoinPathEnds(prefix, init, leaf);
    assert segments == init + [leaf];
    UpdateKeepsLocated(record, init, r => r[leaf := Leaf(value)], prefix, end);
  }

  lemma {:induction false} JoinPathEnds(prefix: string, init: seq<string>, leaf: string)
    requires forall k :: 0 <= k < |init| ==> init[k] != []
    ensures JoinPath(prefix, Join(init + [leaf], '.')) ==
            JoinPath(if init == [] then prefix else JoinPath(prefix, Join(init, '.')), leaf)
    decreases |init|
  {
    if init == [] {
      assert init + [leaf] == [leaf];
    } else {
      var rest := init[1..];
      assert init + [leaf] == [init[0]] + (rest + [leaf]);
      JoinPathSplits(prefix, init[0], rest + [leaf]);
      JoinPathEnds(JoinPath(prefix, init[0]), rest, leaf);
      if rest != [] {
        assert init == [init[0]] + rest;
        JoinPathSplits(prefix, init[0], rest);
      }
    }
  }

  lemma {:induction false} ColumnsAreLocated(columns: seq<string>, prefix: string, n: nat)
    requires n <= |columns| && forall i :: 0 <= i < |columns| ==> SafePath(columns[i])
    ensures Located(Columns(columns, prefix, n), prefix)
  {
    if n > 0 {
      ColumnsAreLocated(columns, prefix, n - 1);
      SetKeepsLocated(Columns(columns, prefix, n - 1), columns[n - 1], prefix);
    }
  }

  lemma {:induction false} RelationsAreLocated(g: Graph, m: MetadataId, prefix: string, visited: set<MetadataId>, n: nat, chain: seq<MetadataId>)
    requires Closed(g) && SafeNames(g) && m in g && visited == Visited(chain) && IsChain(g, chain + [m]) && n <= |g[m].relations|
    ensures Located(Relations(g, m, prefix, visited, n, chain), prefix)
    decreases |Unvisited(g, visited)|, if m in visited then 1 else 0, n
  {
    if n == 0 {
      ColumnsAreLocated(g[m].columns, prefix, |g[m].columns|);
    } else {
      RelationsAreLocated(g, m, prefix, visited, n - 1, chain);
      var record, relation := Relations(g, m, prefix, visited, n - 1, chain), g[m].relations[n - 1];
      var path := JoinPath(prefix, relation.propertyPath);
      if relation.inverse in visited {
        SetKeepsLocated(record, relation.propertyPath, prefix);
      } else {
        ChainGrows(g, chain, m, n - 1);
        Shrinks(g, m, relation.inverse, visited);
        RelationsAreLocated(g, relation.inverse, path, visited + {m}, |g[relation.inverse].relations|, chain + [m]);
        var inner := Build(g, relation.inverse, path, visited + {m}, chain + [m]);
        MergedSlotIsLocated(record, relation.propertyPath, prefix, inner);
      }
    }
  }

  lemma MergedSlotIsLocated(record: Record, propertyPath: string, prefix: string, inner: Record)
    requires Located(record, prefix) && SafePath(propertyPath) && Located(inner, JoinPath(prefix, propertyPath))
    ensures var path := JoinPath(prefix, propertyPath);
            Located(UpdateSlot(record, Split(propertyPath, '.'), slot => MergeMap(slot["$path" := Leaf(path)], Branch(inner))), prefix)
  {
    var path := JoinPath(prefix, propertyPath);
    var update := (slot: Record) => MergeMap(slot["$path" := Leaf(path)], Branch(inner));
    forall slot | Located(slot, path) ensures Located(update(slot), path) {
      MergeKeepsLocated(slot["$path" := Leaf(path)], Branch(inner), path);
    }
    JoinOfSplit(propertyPath, '.');
    UpdateKeepsLocated(record, Split(propertyPath, '.'), update, prefix, path);
  }

  /** On any metadata graph with safe names, every text of the paths map is the dotted path at which it is stored. */
  lemma PathsAreWhereTheySay(g: Graph, m: MetadataId)
    requires Closed(g) && SafeNames(g) && m in g
    ensures IsChain(g, [] + [m]) && Visited([]) == {}
    ensures Located(Build(g, m, "", {}, []), "")
  {
    assert [] + [m] == [m];
    assert IsChain(g, [] + [m]);
    RelationsAreLocated(g, m, "", {}, |g[m].relations|, []);
  }
}
