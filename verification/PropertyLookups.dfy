/**
 What is found in nested records by following names, and what one step of the
 map building changes there.
 */
module PropertyLookups {
  import opened Options
  import opened Sequences
  import opened PropertyMaps

  /** What is found by following names from a node. */
  function Find(node: Node, names: seq<string>): Option<Node> {
    if names == [] then Some(node)
    else if node.Branch? && names[0] in node.record then Find(node.record[names[0]], names[1..])
    else None
  }

  /** Some text is found at the place. */
  predicate HasText(node: Node, names: seq<string>) {
    Find(node, names).Some? && Find(node, names).value.Leaf?
  }

  /** Neither of two lists of names begins with the other. */
  predicate Apart(a: seq<string>, b: seq<string>) {
    a != [] && b != [] && (a[0] != b[0] || Apart(a[1..], b[1..]))
  }

  predicate SafeSegments(names: seq<string>) {
    forall k :: 0 <= k < |names| ==> SafeName(names[k])
  }

  /** No name is empty or one that merging refuses. */
  predicate Proper(names: seq<string>) {
    forall k :: 0 <= k < |names| ==> names[k] != [] && !Unsafe(names[k])
  }

  lemma {:induction false} FindThrough(node: Node, a: seq<string>, b: seq<string>)
    ensures Find(node, a + b) == match Find(node, a) case None => None case Some(inner) => Find(inner, b)
    decreases a
  {
    if a == [] {
      assert a + b == b;
    } else {
      assert (a + b)[1..] == a[1..] + b;
      if node.Branch? && a[0] in node.record { FindThrough(node.record[a[0]], a[1..], b); }
    }
  }

  // ---- what one update changes

  /** The record that an update of a slot starts from. */
  function SlotAt(record: Record, names: seq<string>): Record
    decreases |names|
  {
    if names == [] then record else SlotAt(ChildRecord(record, names[0]), names[1..])
  }

  lemma {:induction false} UpdateIsFound(record: Record, names: seq<string>, update: Record -> Record)
    requires SafeSegments(names)
    ensures Find(Branch(UpdateSlot(record, names, update)), names) == Some(Branch(update(SlotAt(record, names))))
    decreases |names|
  {
    if names != [] { UpdateIsFound(ChildRecord(record, names[0]), names[1..], update); }
  }

  lemma {:induction false} UpdateElsewhere(record: Record, names: seq<string>, update: Record -> Record, other: seq<string>)
    requires SafeSegments(names) && Apart(names, other)
    ensures Find(Branch(UpdateSlot(record, names, update)), other) == Find(Branch(record), other)
    decreases |names|
  {
    if names[0] == other[0] {
      UpdateElsewhere(ChildRecord(record, names[0]), names[1..], update, other[1..]);
    }
  }

  /** A value that is set is found under its path, and what lies apart from it stays as it was. */
  lemma SetIsFound(record: Record, propertyPath: string, value: string)
    requires SafePath(propertyPath)
    ensures Find(Branch(SetMapValue(record, propertyPath, value)), Split(propertyPath, '.')) == Some(Leaf(value))
  {
    var names := Split(propertyPath, '.');
    var init, leaf := names[..|names| - 1], names[|names| - 1];
    var update := (r: Record) => r[leaf := Leaf(value)];
    UpdateIsFound(record, init, update);
    FindThrough(Branch(UpdateSlot(record, init, update)), init, [leaf]);
    assert names == init + [leaf];
  }

  lemma SetElsewhere(record: Record, propertyPath: string, value: string, other: seq<string>)
    requires SafePath(propertyPath) && Apart(Split(propertyPath, '.'), other)
    ensures Find(Branch(SetMapValue(record, propertyPath, value)), other) == Find(Branch(record), other)
  {
    var names := Split(propertyPath, '.');
    var init, leaf := names[..|names| - 1], names[|names| - 1];
    assert names == init + [leaf];
    EntryElsewhere(record, init, leaf, Leaf(value), other);
  }

  lemma {:induction false} EntryElsewhere(record: Record, init: seq<string>, leaf: string, node: Node, other: seq<string>)
    requires SafeSegments(init) && Apart(init + [leaf], other)
    ensures Find(Branch(UpdateSlot(record, init, r => r[leaf := node])), other) == Find(Branch(record), other)
    decreases |init|
  {
    if init != [] {
      assert (init + [leaf])[1..] == init[1..] + [leaf];
      if init[0] == other[0] { EntryElsewhere(ChildRecord(record, init[0]), init[1..], leaf, node, other[1..]); }
    }
  }

  /** One list of names begins another. */
  predicate Begins(a: seq<string>, b: seq<string>) {
    |a| <= |b| && b[..|a|] == a
  }

  lemma {:induction false} ApartOrBegins(a: seq<string>, b: seq<string>)
    ensures !Apart(a, b) <==> Begins(a, b) || Begins(b, a)
    decreases |a|
  {
    if a != [] && b != [] && a[0] == b[0] {
      ApartOrBegins(a[1..], b[1..]);
      assert a == [a[0]] + a[1..] && b == [b[0]] + b[1..];
    }
  }

  lemma {:induction false} ApartIsSymmetric(a: seq<string>, b: seq<string>)
    ensures Apart(a, b) <==> Apart(b, a)
    decreases |a|
  {
    if a != [] && b != [] && a[0] == b[0] { ApartIsSymmetric(a[1..], b[1..]); }
  }

  lemma {:induction false} ApartAfter(prefix: seq<string>, a: seq<string>, b: seq<string>)
    ensures Apart(prefix + a, prefix + b) <==> Apart(a, b)
    decreases |prefix|
  {
    if prefix == [] {
      assert prefix + a == a && prefix + b == b;
    } else {
      assert (prefix + a)[1..] == prefix[1..] + a && (prefix + b)[1..] == prefix[1..] + b;
      ApartAfter(prefix[1..], a, b);
    }
  }

  /** Two lists that begin a third are not apart. */
  lemma CommonEnd(a: seq<string>, b: seq<string>, c: seq<string>)
    requires (Begins(a, c) || Begins(c, a)) && Begins(b, c)
    ensures !Apart(a, b)
  {
    ApartOrBegins(a, b);
    if Begins(a, c) {
      if |a| <= |b| { assert b[..|a|] == c[..|b|][..|a|] == c[..|a|]; } else { assert a[..|b|] == c[..|a|][..|b|] == c[..|b|]; }
    } else {
      assert a[..|b|] == a[..|c|][..|b|];
    }
  }

  /** What is found within a slot is what is found under its path. */
  lemma {:induction false} TextInSlot(record: Record, names: seq<string>, rest: seq<string>)
    ensures HasText(Branch(SlotAt(record, names)), rest) <==> rest != [] && HasText(Branch(record), names + rest)
    decreases |names|
  {
    if names == [] {
      assert names + rest == rest;
    } else {
      assert (names + rest)[1..] == names[1..] + rest;
      var child := ChildRecord(record, names[0]);
      TextInSlot(child, names[1..], rest);
      var node := if names[0] in record then record[names[0]] else Branch(map[]);
      assert Find(Branch(record), names + rest) == if names[0] in record then Find(node, names[1..] + rest) else None;
      if rest != [] { assert names[1..] + rest != []; }
    }
  }

  /** An update of one place leaves a slot apart from it alone. */
  lemma {:induction false} SlotElsewhere(record: Record, names: seq<string>, update: Record -> Record, other: seq<string>)
    requires SafeSegments(names) && Apart(names, other)
    ensures SlotAt(UpdateSlot(record, names, update), other) == SlotAt(record, other)
    decreases |names|
  {
    if names[0] == other[0] { SlotElsewhere(ChildRecord(record, names[0]), names[1..], update, other[1..]); }
  }

  lemma {:induction false} SlotApartFromEntry(record: Record, init: seq<string>, leaf: string, node: Node, other: seq<string>)
    requires SafeSegments(init) && Apart(init + [leaf], other)
    ensures SlotAt(UpdateSlot(record, init, r => r[leaf := node]), other) == SlotAt(record, other)
    decreases |init|
  {
    if init != [] {
      assert (init + [leaf])[1..] == init[1..] + [leaf];
      if init[0] == other[0] { SlotApartFromEntry(ChildRecord(record, init[0]), init[1..], leaf, node, other[1..]); }
    }
  }

  // ---- what a merge keeps

  /** Nothing is stored at a place, above it or below it. */
  predicate Vacant(node: Node, names: seq<string>) {
    names != [] && node.Branch? && (names[0] in node.record ==> Vacant(node.record[names[0]], names[1..]))
  }

  /** Every record within holds something. */
  predicate Full(node: Node)
    decreases node
  {
    node.Branch? ==> node.record != map[] && forall k :: k in node.record ==> Full(node.record[k])
  }

  predicate FullWithin(record: Record) {
    forall k :: k in record ==> Full(record[k])
  }

  /** A text of the source wins; one of the target stays where the source has nothing. */
  lemma {:induction false} MergedText(target: Record, source: Node, names: seq<string>)
    requires source.Branch? && Proper(names)
    ensures HasText(Branch(MergeMap(target, source)), names) <==>
            HasText(source, names) || (HasText(Branch(target), names) && Vacant(source, names))
    decreases source
  {
    if names != [] {
      var k := names[0];
      if k in source.record && k in target && target[k].Branch? && source.record[k].Branch? {
        MergedText(target[k].record, source.record[k], names[1..]);
      }
    }
  }

  /** A merge does not bring names that the program refuses. */
  lemma {:induction false} MergedFrom(target: Record, source: Node, names: seq<string>)
    requires source.Branch? && HasText(Branch(MergeMap(target, source)), names)
    ensures HasText(Branch(target), names) || HasText(source, names)
    decreases source
  {
    var k := names[0];
    if k in source.record && !Unsafe(k) && k in target && target[k].Branch? && source.record[k].Branch? {
      MergedFrom(target[k].record, source.record[k], names[1..]);
    }
  }

  /** In a full record some text is found. */
  lemma {:induction false} FullHasText(node: Node) returns (names: seq<string>)
    requires Full(node)
    ensures HasText(node, names)
    decreases node
  {
    if node.Leaf? {
      names := [];
    } else {
      var k :| k in node.record;
      var rest := FullHasText(node.record[k]);
      names := [k] + rest;
      assert names[1..] == rest;
    }
  }

  /** A place is vacant exactly if every text is apart from it. */
  lemma {:induction false} VacantIsApart(record: Record, names: seq<string>)
    requires FullWithin(record) && names != []
    ensures Vacant(Branch(record), names) <==> forall other :: HasText(Branch(record), other) ==> Apart(other, names)
    decreases |names|
  {
    var k := names[0];
    if Vacant(Branch(record), names) {
      forall other | HasText(Branch(record), other) ensures Apart(other, names) {
        if other[0] == k { VacantTextsApart(record[k], names[1..], other[1..]); }
      }
    } else {
      var other := TextNotApart(record[k], names[1..]);
      assert ([k] + other)[1..] == other;
      assert HasText(Branch(record), [k] + other);
    }
  }

  lemma {:induction false} VacantTextsApart(node: Node, names: seq<string>, other: seq<string>)
    requires Vacant(node, names) && HasText(node, other)
    ensures Apart(other, names)
    decreases |names|
  {
    if other[0] == names[0] {
      assert HasText(node.record[names[0]], other[1..]);
      VacantTextsApart(node.record[names[0]], names[1..], other[1..]);
    }
  }

  lemma {:induction false} TextNotApart(node: Node, names: seq<string>) returns (other: seq<string>)
    requires Full(node) && !Vacant(node, names)
    ensures HasText(node, other) && !Apart(other, names)
    decreases |names|
  {
    if node.Leaf? || names == [] {
      other := FullHasText(node);
    } else {
      var k := names[0];
      var rest := TextNotApart(node.record[k], names[1..]);
      other := [k] + rest;
      assert other[1..] == rest;
    }
  }

  lemma PutKeepsFull(record: Record, name: string, inner: Record)
    requires FullWithin(record) && FullWithin(inner) && inner != map[]
    ensures FullWithin(record[name := Branch(inner)]) && record[name := Branch(inner)] != map[]
  {
    assert name in record[name := Branch(inner)];
    assert Full(Branch(inner));
  }

  lemma ChildIsFull(record: Record, name: string)
    requires FullWithin(record)
    ensures FullWithin(ChildRecord(record, name))
  {
    if name in record { assert Full(record[name]); }
  }

  lemma {:induction false} UpdateKeepsFull(record: Record, names: seq<string>, update: Record -> Record)
    requires FullWithin(record)
    requires forall slot :: FullWithin(slot) ==> FullWithin(update(slot)) && update(slot) != map[]
    ensures FullWithin(UpdateSlot(record, names, update)) && UpdateSlot(record, names, update) != map[]
    decreases |names|
  {
    hide FullWithin, ChildRecord;
    if names != [] {
      if Unsafe(names[0]) {
        UpdateKeepsFull(record, names[1..], update);
      } else {
        ChildIsFull(record, names[0]);
        UpdateKeepsFull(ChildRecord(record, names[0]), names[1..], update);
        PutKeepsFull(record, names[0], UpdateSlot(ChildRecord(record, names[0]), names[1..], update));
      }
    }
  }

  lemma SetKeepsFull(record: Record, propertyPath: string, value: string)
    requires FullWithin(record)
    ensures FullWithin(SetMapValue(record, propertyPath, value))
  {
    var names := Split(propertyPath, '.');
    var leaf := names[|names| - 1];
    var update := (r: Record) => r[leaf := Leaf(value)];
    forall slot | FullWithin(slot) ensures FullWithin(update(slot)) && update(slot) != map[] { assert leaf in update(slot); }
    UpdateKeepsFull(record, names[..|names| - 1], update);
  }

  lemma {:induction false} MergeKeepsFull(target: Record, source: Node)
    requires source.Branch? && FullWithin(target) && FullWithin(source.record)
    ensures FullWithin(MergeMap(target, source)) && (target != map[] ==> MergeMap(target, source) != map[])
    decreases source
  {
    var merged := MergeMap(target, source);
    forall k | k in merged ensures Full(merged[k]) {
      if k in source.record && !Unsafe(k) && k in target && target[k].Branch? && source.record[k].Branch? {
        MergeKeepsFull(target[k].record, source.record[k]);
      }
    }
    if target != map[] {
      var k :| k in target;
      assert k in merged;
    }
  }

  // ---- which texts the steps of the recursion leave

  /** A text is found at the end of a path only if none is found before it, and the other way round. */
  lemma TextsAreApart(node: Node, a: seq<string>, b: seq<string>)
    requires HasText(node, a) && HasText(node, b) && a != b
    ensures Apart(a, b)
  {
    ApartOrBegins(a, b);
    if Begins(a, b) {
      assert b == a + b[|a|..];
      NothingBelowText(node, a, b[|a|..]);
    } else if Begins(b, a) {
      assert a == b + a[|b|..];
      NothingBelowText(node, b, a[|b|..]);
    }
  }

  lemma NothingBelowText(node: Node, names: seq<string>, rest: seq<string>)
    requires HasText(node, names) && rest != []
    ensures !HasText(node, names + rest)
  {
    FindThrough(node, names, rest);
  }

  lemma SetText(record: Record, propertyPath: string, value: string, names: seq<string>)
    requires SafePath(propertyPath)
    ensures var path := Split(propertyPath, '.');
            HasText(Branch(SetMapValue(record, propertyPath, value)), names) <==>
            names == path || (Apart(path, names) && HasText(Branch(record), names))
  {
    var path := Split(propertyPath, '.');
    SetIsFound(record, propertyPath, value);
    if Apart(path, names) {
      SetElsewhere(record, propertyPath, value, names);
    } else if names != path && HasText(Branch(SetMapValue(record, propertyPath, value)), names) {
      TextsAreApart(Branch(SetMapValue(record, propertyPath, value)), path, names);
    }
  }

  /** The record of a followed relation, merged into what its path leads to. */
  function Followed(record: Record, path: seq<string>, text: string, inner: Record): Record {
    UpdateSlot(record, path, slot => MergeMap(slot["$path" := Leaf(text)], Branch(inner)))
  }

  lemma FollowedRecord(record: Record, path: seq<string>, text: string, inner: Record)
    requires SafeSegments(path)
    ensures Find(Branch(Followed(record, path, text, inner)), path) ==
            Some(Branch(MergeMap(SlotAt(record, path)["$path" := Leaf(text)], Branch(inner))))
  {
    UpdateIsFound(record, path, slot => MergeMap(slot["$path" := Leaf(text)], Branch(inner)));
  }

  lemma FollowedElsewhere(record: Record, path: seq<string>, text: string, inner: Record, names: seq<string>)
    requires SafeSegments(path) && Apart(path, names)
    ensures Find(Branch(Followed(record, path, text, inner)), names) == Find(Branch(record), names)
  {
    UpdateElsewhere(record, path, slot => MergeMap(slot["$path" := Leaf(text)], Branch(inner)), names);
  }

  /** On the way to a followed relation there is no text. */
  lemma FollowedAbove(record: Record, path: seq<string>, text: string, inner: Record, names: seq<string>)
    requires SafeSegments(path) && Begins(names, path)
    ensures !HasText(Branch(Followed(record, path, text, inner)), names)
  {
    FollowedRecord(record, path, text, inner);
    FindThrough(Branch(Followed(record, path, text, inner)), names, path[|names|..]);
    assert path == names + path[|names|..];
  }

  /**
   Below a followed relation there are its `$path`, the texts of its map, and
   those that were there before and that its map leaves room for.
   */
  lemma FollowedBelow(record: Record, path: seq<string>, text: string, inner: Record, rest: seq<string>)
    requires SafeSegments(path) && rest != [] && FullWithin(inner)
    requires forall other :: HasText(Branch(inner), other) ==> Proper(other) && other[0] != "$path"
    requires HasText(Branch(record), path + rest) ==> Proper(rest) && rest[0] != "$path"
    ensures HasText(Branch(Followed(record, path, text, inner)), path + rest) <==>
            || rest == ["$path"]
            || HasText(Branch(inner), rest)
            || (HasText(Branch(record), path + rest) && forall other :: HasText(Branch(inner), other) ==> Apart(other, rest))
  {
    hide MergeMap, UpdateSlot;
    var slot := SlotAt(record, path);
    var target := slot["$path" := Leaf(text)];
    var merged := MergeMap(target, Branch(inner));
    FollowedRecord(record, path, text, inner);
    FindThrough(Branch(Followed(record, path, text, inner)), path, rest);
    assert HasText(Branch(Followed(record, path, text, inner)), path + rest) == HasText(Branch(merged), rest);
    TextInSlot(record, path, rest);
    VacantIsApart(inner, rest);
    TextWithPath(slot, text, rest);
    if Proper(rest) {
      MergedText(target, Branch(inner), rest);
      if rest == ["$path"] { NoPathWithin(inner); }
    } else if HasText(Branch(merged), rest) {
      MergedFrom(target, Branch(inner), rest);
    }
  }

  lemma TextWithPath(slot: Record, text: string, rest: seq<string>)
    requires rest != []
    ensures HasText(Branch(slot["$path" := Leaf(text)]), rest) <==>
            rest == ["$path"] || (rest[0] != "$path" && HasText(Branch(slot), rest))
  {
    var target := slot["$path" := Leaf(text)];
    assert rest == [rest[0]] + rest[1..];
    assert Find(Branch(target), rest) == if rest[0] in target then Find(target[rest[0]], rest[1..]) else None;
    assert rest[0] in slot ==> Find(Branch(slot), rest) == Find(slot[rest[0]], rest[1..]);
  }

  lemma NoPathWithin(inner: Record)
    requires FullWithin(inner) && forall other :: HasText(Branch(inner), other) ==> other[0] != "$path"
    ensures "$path" !in inner
  {
    if "$path" in inner {
      var names := FullHasText(inner["$path"]);
      assert (["$path"] + names)[1..] == names;
      assert HasText(Branch(inner), ["$path"] + names);
    }
  }
}
