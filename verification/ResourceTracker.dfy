/**
 Row and byte accounting of procedure results (`ProcedureResourceTracker`):
 a graph walk, a fast path for flat records with a cache of the last row's
 shape, a shared cache of key lengths, and the limits they feed.
 */
module ResourceTracker {
  import opened Options
  import opened TextEncoding

  type ObjectId = nat
  type Text = seq<CodeUnit>
  type SafeInteger = n: int | -0x20_0000_0000_0000 < n < 0x20_0000_0000_0000

  /** A number is a safe integer, or has the text that its String() gives. */
  datatype Number = Integer(n: SafeInteger) | OtherNumber(text: string)

  /** `iso` is the text of toISOString(), which throws on an invalid date. */
  datatype Value =
    | Null
    | Undefined
    | String(text: Text)
    | Numeric(number: Number)
    | BigInt(big: int)
    | Boolean(b: bool)
    | Bytes(byteLength: nat)
    | Date(iso: Option<string>)
    | Object(id: ObjectId)
    | Function

  datatype Property = Property(key: Text, value: Value)

  /** The own enumerable properties of every object, in enumeration order. */
  type Graph = map<ObjectId, seq<Property>>

  ghost predicate Closed(g: Graph) {
    forall id, i :: id in g && 0 <= i < |g[id]| && g[id][i].value.Object? ==> g[id][i].value.id in g
  }

  function NumberText(number: Number): string {
    match number
    case Integer(n) => Decimal(n)
    case OtherNumber(text) => text
  }

  /** Bytes a value contributes by itself; None when measuring it throws. An object contributes through its own walk. */
  function LeafCost(v: Value): Option<nat> {
    match v
    case String(text) => Some(|ToUtf8(text)|)
    case Numeric(number) => Some(|NumberText(number)|)
    case BigInt(big) => Some(|Decimal(big)|)
    case Boolean(_) => Some(1)
    case Bytes(n) => Some(n)
    case Date(None) => None
    case Date(Some(iso)) => Some(|iso|)
    case _ => Some(0)
  }

  function Plus(a: Option<nat>, b: Option<nat>): Option<nat> {
    if a.Some? && b.Some? then Some(a.value + b.value) else None
  }

  /** The local cost of one object: its keys and its leaf values. */
  function LocalCost(props: seq<Property>): Option<nat> {
    if props == [] then Some(0)
    else
      var last := props[|props| - 1];
      Plus(LocalCost(props[..|props| - 1]), Plus(Some(|ToUtf8(last.key)|), LeafCost(last.value)))
  }

  function Children(props: seq<Property>): set<ObjectId> {
    set i | 0 <= i < |props| && props[i].value.Object? :: props[i].value.id
  }

  ghost predicate Path(g: Graph, path: seq<ObjectId>) {
    && |path| > 0
    && forall i :: 0 <= i < |path| - 1 ==> path[i] in g && path[i + 1] in Children(g[path[i]])
  }

  ghost predicate Reaches(g: Graph, root: ObjectId, id: ObjectId) {
    exists path :: Path(g, path) && path[0] == root && path[|path| - 1] == id
  }

  ghost function Reachable(g: Graph, root: ObjectId): set<ObjectId> {
    set id | id in g && Reaches(g, root, id)
  }

  /** Sum of local costs over a set of objects, each counted once. */
  ghost function Total(g: Graph, ids: set<ObjectId>): Option<nat>
    requires ids <= g.Keys
    decreases |ids|
  {
    if ids == {} then Some(0)
    else
      var id :| id in ids;
      Plus(LocalCost(g[id]), Total(g, ids - {id}))
  }

  /** What measuring a value means: its own bytes, or those of everything reachable from it. */
  ghost function Measure(g: Graph, v: Value): Option<nat> {
    if v.Object? then Total(g, Reachable(g, v.id)) else LeafCost(v)
  }

  lemma {:induction false} TotalTakesAny(g: Graph, ids: set<ObjectId>, id: ObjectId)
    requires ids <= g.Keys && id in ids
    ensures Total(g, ids) == Plus(LocalCost(g[id]), Total(g, ids - {id}))
    decreases |ids|
  {
    hide LocalCost, LeafCost;
    var chosen :| chosen in ids && Total(g, ids) == Plus(LocalCost(g[chosen]), Total(g, ids - {chosen}));
    if chosen != id {
      var rest := ids - {chosen} - {id};
      assert ids - {id} - {chosen} == rest;
      TotalTakesAny(g, ids - {chosen}, id);
      TotalTakesAny(g, ids - {id}, chosen);
      assert Total(g, ids) == Plus(LocalCost(g[chosen]), Plus(LocalCost(g[id]), Total(g, rest)));
    }
  }

  lemma TotalExtends(g: Graph, ids: set<ObjectId>, id: ObjectId)
    requires ids <= g.Keys && id in g && id !in ids
    ensures Total(g, ids + {id}) == Plus(LocalCost(g[id]), Total(g, ids))
  {
    TotalTakesAny(g, ids + {id}, id);
    assert ids + {id} - {id} == ids;
  }

  /** One object that cannot be measured makes any set holding it unmeasurable. */
  lemma TotalFails(g: Graph, ids: set<ObjectId>, id: ObjectId)
    requires ids <= g.Keys && id in ids && LocalCost(g[id]).None?
    ensures Total(g, ids).None?
  {
    TotalTakesAny(g, ids, id);
  }

  lemma ReachesChild(g: Graph, root: ObjectId, id: ObjectId, child: ObjectId)
    requires Closed(g) && id in Reachable(g, root) && child in Children(g[id])
    ensures child in Reachable(g, root)
  {
    var path :| Path(g, path) && path[0] == root && path[|path| - 1] == id;
    var longer := path + [child];
    assert Path(g, longer) && longer[0] == root && longer[|longer| - 1] == child;
  }

  lemma ReachesItself(g: Graph, root: ObjectId)
    requires root in g
    ensures root in Reachable(g, root)
  {
    assert Path(g, [root]);
  }

  /** A set holding the root and closed under children holds everything reachable. */
  lemma ClosedSetCovers(g: Graph, root: ObjectId, ids: set<ObjectId>)
    requires root in ids && ids <= g.Keys
    requires forall id, child :: id in ids && child in Children(g[id]) ==> child in ids
    ensures Reachable(g, root) <= ids
  {
    forall id | id in Reachable(g, root)
      ensures id in ids
    {
      var path :| Path(g, path) && path[0] == root && path[|path| - 1] == id;
      PathStays(g, path, ids, |path| - 1);
    }
  }

  lemma {:induction false} PathStays(g: Graph, path: seq<ObjectId>, ids: set<ObjectId>, k: nat)
    requires Path(g, path) && k < |path| && path[0] in ids && ids <= g.Keys
    requires forall id, child :: id in ids && child in Children(g[id]) ==> child in ids
    ensures path[k] in ids
  {
    if k > 0 {
      PathStays(g, path, ids, k - 1);
    }
  }

  lemma RootFails(g: Graph, id: ObjectId)
    requires id in g && LocalCost(g[id]).None?
    ensures Total(g, Reachable(g, id)).None?
  {
    ReachesItself(g, id);
    TotalFails(g, Reachable(g, id), id);
  }

  /** If a prefix cannot be measured, neither can the whole. */
  lemma {:induction false} PrefixFails(props: seq<Property>, n: nat)
    requires n <= |props| && LocalCost(props[..n]).None?
    ensures LocalCost(props).None?
    decreases |props|
  {
    if n < |props| {
      assert props[..|props| - 1][..n] == props[..n];
      PrefixFails(props[..|props| - 1], n);
    } else {
      assert props[..n] == props;
    }
  }

  lemma NothingScanned(props: seq<Property>)
    ensures Children(props[..0]) == {} && LocalCost(props[..0]) == Some(0)
  {}

  lemma LocalCostStep(props: seq<Property>, n: nat)
    requires n < |props|
    ensures LocalCost(props[..n + 1]) ==
            Plus(LocalCost(props[..n]), Plus(Some(|ToUtf8(props[n].key)|), LeafCost(props[n].value)))
    ensures Children(props[..n + 1]) ==
            Children(props[..n]) + if props[n].value.Object? then {props[n].value.id} else {}
  {
    var longer := props[..n + 1];
    assert longer[..n] == props[..n] && longer[n] == props[n];
    forall id | id in Children(props[..n]) ensures id in Children(longer) {
      var i :| 0 <= i < n && props[..n][i].value.Object? && props[..n][i].value.id == id;
      assert longer[i] == props[..n][i];
    }
    if props[n].value.Object? { assert longer[n].value.id in Children(longer); }
    forall id | id in Children(longer) && !(props[n].value.Object? && props[n].value.id == id) ensures id in Children(props[..n]) {
      var i :| 0 <= i < n + 1 && longer[i].value.Object? && longer[i].value.id == id;
      assert props[..n][i] == longer[i];
    }
  }

  /** The first n properties hold leaves only, and cost `bytes`. */
  ghost predicate FlatSoFar(props: seq<Property>, n: nat, bytes: nat) {
    n <= |props| && LocalCost(props[..n]) == Some(bytes) && Children(props[..n]) == {}
  }

  lemma FlatBegins(props: seq<Property>)
    ensures FlatSoFar(props, 0, 0)
  {}

  lemma FlatStep(props: seq<Property>, n: nat, bytes: nat)
    requires n < |props| && FlatSoFar(props, n, bytes)
    ensures !props[n].value.Object? && LeafCost(props[n].value).Some? ==>
              FlatSoFar(props, n + 1, bytes + |ToUtf8(props[n].key)| + LeafCost(props[n].value).value)
    ensures LeafCost(props[n].value).None? ==> LocalCost(props).None?
  {
    hide ToUtf8, LeafCost, Children, LocalCost;
    LocalCostStep(props, n);
    if LeafCost(props[n].value).None? { PrefixFails(props, n + 1); }
  }

  /** A record whose values are all leaves is measured by its local cost alone. */
  lemma FlatRecord(g: Graph, id: ObjectId, bytes: nat)
    requires id in g && FlatSoFar(g[id], |g[id]|, bytes)
    ensures Total(g, Reachable(g, id)) == Some(bytes)
  {
    assert g[id][..|g[id]|] == g[id];
    ReachesItself(g, id);
    ClosedSetCovers(g, id, {id});
    assert Reachable(g, id) == {id};
    TotalExtends(g, {}, id);
    assert {} + {id} == {id};
  }

  /** What holds between rounds of the graph walk: `seen` is counted, `pending` is still to do. */
  ghost predicate Walk(g: Graph, root: ObjectId, seen: set<ObjectId>, pending: seq<ObjectId>, bytes: nat) {
    && root in g
    && seen <= Reachable(g, root)
    && (forall id :: id in pending ==> id in Reachable(g, root))
    && (root in seen || root in pending)
    && (forall id, child :: id in seen && child in Children(g[id]) ==> child in seen || child in pending)
    && Total(g, seen) == Some(bytes)
  }

  lemma WalkBegins(g: Graph, root: ObjectId)
    requires root in g
    ensures Walk(g, root, {}, [root], 0)
  {
    ReachesItself(g, root);
  }

  /** Popping an object already seen loses nothing; one that cannot be measured settles the answer. */
  lemma WalkPops(g: Graph, root: ObjectId, seen: set<ObjectId>, pending: seq<ObjectId>, bytes: nat)
    requires Walk(g, root, seen, pending, bytes) && pending != []
    ensures pending[|pending| - 1] in g
    ensures pending[|pending| - 1] in seen ==> Walk(g, root, seen, pending[..|pending| - 1], bytes)
    ensures LocalCost(g[pending[|pending| - 1]]).None? ==> Total(g, Reachable(g, root)).None?
  {
    hide Total, LocalCost, Children, Reaches;
    var current, rest := pending[|pending| - 1], pending[..|pending| - 1];
    assert pending == rest + [current];
    assert current in pending && current in Reachable(g, root);
    if LocalCost(g[current]).None? {
      TotalFails(g, Reachable(g, root), current);
    }
  }

  lemma WalkScans(g: Graph, root: ObjectId, seen: set<ObjectId>, current: ObjectId, rest: seq<ObjectId>,
                  found: seq<ObjectId>, bytes: nat, cost: nat)
    requires Closed(g) && Walk(g, root, seen, rest + [current], bytes)
    requires current in g && current !in seen && LocalCost(g[current]) == Some(cost)
    requires forall id :: id in found <==> id in rest || id in Children(g[current])
    ensures Walk(g, root, seen + {current}, found, bytes + cost)
    ensures g.Keys - (seen + {current}) < g.Keys - seen
  {
    hide Total, LocalCost, Children, Reaches, Closed;
    assert current in rest + [current];
    assert forall id :: id in rest ==> id in rest + [current];
    TotalExtends(g, seen, current);
    forall id | id in Children(g[current]) ensures id in Reachable(g, root) {
      ReachesChild(g, root, current, id);
    }
  }

  lemma WalkEnds(g: Graph, root: ObjectId, seen: set<ObjectId>, bytes: nat)
    requires Walk(g, root, seen, [], bytes)
    ensures Total(g, Reachable(g, root)) == Some(bytes)
  {
    hide Total, LocalCost, Children, Reaches;
    ClosedSetCovers(g, root, seen);
    assert seen == Reachable(g, root);
  }

  method MeasureUtf8(value: Text) returns (bytes: nat)
    ensures bytes == |ToUtf8(value)|
  {
    bytes := |value|;
    var index := 0;
    assert value[0..] == value;
    while index < |value|
      invariant index <= |value|
      invariant bytes >= |value| - index
      invariant bytes - (|value| - index) + |ToUtf8(value[index..])| == |ToUtf8(value)|
    {
      var code := value[index];
      Utf8Step(value[index..]);
      assert forall k :: 0 <= k < |value| - index ==> value[index..][k] == value[index + k];
      assert value[index..][1..] == value[index + 1..];
      if code <= 0x7f {
      } else if code <= 0x7ff {
        bytes := bytes + 1;
      } else if IsHigh(code) && index + 1 < |value| && IsLow(value[index + 1]) {
        assert value[index..][2..] == value[index + 2..];
        bytes := bytes + 2;
        index := index + 1;
      } else {
        bytes := bytes + 2;
      }
      index := index + 1;
    }
  }

  lemma Utf8Step(units: Text)
    requires units != []
    ensures |units| > 1 && IsHigh(units[0]) && IsLow(units[1]) ==> |ToUtf8(units)| == 4 + |ToUtf8(units[2..])|
    ensures !(|units| > 1 && IsHigh(units[0]) && IsLow(units[1])) ==>
              |ToUtf8(units)| == (if units[0] <= 0x7f then 1 else if units[0] <= 0x7ff then 2 else 3) + |ToUtf8(units[1..])|
  {
    if |units| > 1 && IsHigh(units[0]) && IsLow(units[1]) {
      assert Decode(units)[1..] == Decode(units[2..]);
    } else {
      assert Decode(units)[1..] == Decode(units[1..]);
    }
  }

  function MeasureUnsignedInteger(value: nat): nat {
    if value < 10 then 1
    else if value < 100 then 2
    else if value < 1_000 then 3
    else if value < 10_000 then 4
    else if value < 100_000 then 5
    else if value < 1_000_000 then 6
    else if value < 10_000_000 then 7
    else if value < 100_000_000 then 8
    else if value < 1_000_000_000 then 9
    else if value < 10_000_000_000 then 10
    else if value < 100_000_000_000 then 11
    else if value < 1_000_000_000_000 then 12
    else if value < 10_000_000_000_000 then 13
    else if value < 100_000_000_000_000 then 14
    else if value < 1_000_000_000_000_000 then 15
    else 16
  }

  function MeasureNumber(value: Number): (bytes: nat)
    ensures bytes == |NumberText(value)|
  {
    match value
    case OtherNumber(text) => |text|
    case Integer(n) =>
      UnsignedIntegerLength(if n < 0 then -n else n);
      if n < 0 then MeasureUnsignedInteger(-n) + 1 else MeasureUnsignedInteger(n)
  }

  lemma PowersOfTen()
    ensures Power10(0) == 1 && Power10(1) == 10 && Power10(2) == 100 && Power10(3) == 1_000 && Power10(4) == 10_000
    ensures Power10(5) == 100_000 && Power10(6) == 1_000_000 && Power10(7) == 10_000_000 && Power10(8) == 100_000_000
    ensures Power10(9) == 1_000_000_000 && Power10(10) == 10_000_000_000 && Power10(11) == 100_000_000_000
    ensures Power10(12) == 1_000_000_000_000 && Power10(13) == 10_000_000_000_000
    ensures Power10(14) == 100_000_000_000_000 && Power10(15) == 1_000_000_000_000_000
    ensures Power10(16) == 10_000_000_000_000_000
  {}

  /** The comparison chain is exact up to the largest safe integer. */
  lemma UnsignedIntegerLength(n: nat)
    requires n < 0x20_0000_0000_0000
    ensures MeasureUnsignedInteger(n) == |Digits(n)|
  {
    PowersOfTen();
    DigitCount(n, MeasureUnsignedInteger(n));
  }

  /** The key lengths shared by every tracker. */
  class KeyLengths {
    static const MAX_CACHED_KEYS := 512

    var lengths: map<Text, nat>

    constructor ()
      ensures Valid()
    {
      lengths := map[];
    }

    ghost predicate Valid()
      reads this
    {
      && |lengths| <= MAX_CACHED_KEYS
      && forall key :: key in lengths ==> lengths[key] == |ToUtf8(key)|
    }

    method MeasureKey(key: Text) returns (bytes: nat)
      requires Valid()
      modifies this
      ensures Valid()
      ensures bytes == |ToUtf8(key)|
      ensures forall k :: k in old(lengths) ==> k in lengths
      ensures key in lengths || |lengths| == MAX_CACHED_KEYS
    {
      if key in lengths {
        return lengths[key];
      }
      bytes := MeasureUtf8(key);
      if |lengths| < MAX_CACHED_KEYS {
        lengths := lengths[key := bytes];
      }
    }
  }

  datatype Limits = Limits(maxProcedureRows: nat, maxProcedureBytes: nat)

  datatype Failure = TooManyRows | TooManyBytes | InvalidDate

  /** What a tracker has counted so far. */
  datatype Totals = Totals(rows: nat, bytes: nat)

  /** The keys of the last flat row and their lengths. */
  datatype Shape = Shape(keys: seq<Text>, keyBytes: seq<nat>)
  {
    ghost predicate Valid() {
      && |keys| == |keyBytes|
      && forall i :: 0 <= i < |keys| ==> keyBytes[i] == |ToUtf8(keys[i])|
    }

    function Prefix(n: nat): (s: Shape)
      requires Valid() && n <= |keys|
      ensures s.Valid()
    {
      Shape(keys[..n], keyBytes[..n])
    }

    function Push(key: Text, bytes: nat): (s: Shape)
      requires Valid() && bytes == |ToUtf8(key)|
      ensures s.Valid()
    {
      Shape(keys + [key], keyBytes + [bytes])
    }

    function LengthAt(i: nat): (n: nat)
      requires Valid() && i < |keys|
      ensures n == |ToUtf8(keys[i])|
    {
      keyBytes[i]
    }
  }

  const NO_KEYS := Shape([], [])

  lemma NoKeysIsValid()
    ensures NO_KEYS.Valid()
  {}

  /** How the fast path's loop over a row ends. */
  datatype RowScan = Nested | Unmeasurable | Flat(bytes: nat)

  /** Counting one value: the bytes are added before the limit is looked at. */
  function CountValue(t: Totals, limits: Limits, measured: Option<nat>): (Totals, Option<Failure>) {
    match measured
    case None => (t, Some(InvalidDate))
    case Some(n) =>
      var counted := t.(bytes := t.bytes + n);
      (counted, if counted.bytes > limits.maxProcedureBytes then Some(TooManyBytes) else None)
  }

  /** Counting one row: the row limit is looked at before the row is measured. */
  function CountRow(t: Totals, limits: Limits, measured: Option<nat>): (Totals, Option<Failure>) {
    var counted := t.(rows := t.rows + 1);
    if counted.rows > limits.maxProcedureRows then (counted, Some(TooManyRows))
    else CountValue(counted, limits, measured)
  }

  /** Counting rows one after another, up to the first failure. */
  function CountRows(t: Totals, limits: Limits, measured: seq<Option<nat>>): (Totals, Option<Failure>)
    decreases |measured|
  {
    if measured == [] then (t, None)
    else
      var (counted, failure) := CountRow(t, limits, measured[0]);
      if failure.Some? then (counted, failure) else CountRows(counted, limits, measured[1..])
  }

  function Sum(measured: seq<Option<nat>>): Option<nat> {
    if measured == [] then Some(0) else Plus(measured[0], Sum(measured[1..]))
  }

  /** A sequence of rows is accepted exactly when its number and its bytes fit the limits, and is then counted exactly. */
  lemma {:induction false} RowsAcceptedExactlyWithinLimits(t: Totals, limits: Limits, measured: seq<Option<nat>>)
    requires t.rows <= limits.maxProcedureRows && t.bytes <= limits.maxProcedureBytes
    ensures CountRows(t, limits, measured).1.None? <==>
            && t.rows + |measured| <= limits.maxProcedureRows
            && Sum(measured).Some?
            && t.bytes + Sum(measured).value <= limits.maxProcedureBytes
    ensures CountRows(t, limits, measured).1.None? ==>
              CountRows(t, limits, measured).0 == Totals(t.rows + |measured|, t.bytes + Sum(measured).value)
    decreases |measured|
  {
    if measured != [] {
      var (counted, failure) := CountRow(t, limits, measured[0]);
      if failure.None? {
        RowsAcceptedExactlyWithinLimits(counted, limits, measured[1..]);
      }
    }
  }

  class Tracker {
    const limits: Limits
    const keys: KeyLengths
    var materializedBytes: nat
    var materializedRows: nat
    var rowShape: Option<Shape>

    constructor (limits: Limits, keys: KeyLengths)
      requires keys.Valid()
      ensures this.limits == limits && this.keys == keys
      ensures Valid() && Counted() == Totals(0, 0)
    {
      this.limits := limits;
      this.keys := keys;
      materializedBytes := 0;
      materializedRows := 0;
      rowShape := None;
    }

    ghost predicate Valid()
      reads this, keys
    {
      && keys.Valid()
      && (rowShape.Some? ==> rowShape.value.Valid())
    }

    function Counted(): Totals
      reads this
    {
      Totals(materializedRows, materializedBytes)
    }

    method AddValue(g: Graph, value: Value) returns (failure: Option<Failure>)
      requires Valid() && Closed(g) && (value.Object? ==> value.id in g)
      modifies this, keys
      ensures Valid()
      ensures (Counted(), failure) == CountValue(old(Counted()), limits, Measure(g, value))
    {
      hide Measure, Closed, ToUtf8, KeyLengths.Valid;
      var measured := MeasureValue(g, value);
      if measured.None? {
        return Some(InvalidDate);
      }
      materializedBytes := materializedBytes + measured.value;
      failure := if materializedBytes > limits.maxProcedureBytes then Some(TooManyBytes) else None;
    }

    method AddRow(g: Graph, row: Value) returns (failure: Option<Failure>)
      requires Valid() && Closed(g) && (row.Object? ==> row.id in g)
      modifies this, keys
      ensures Valid()
      ensures (Counted(), failure) == CountRow(old(Counted()), limits, Measure(g, row))
    {
      hide Measure, Closed, ToUtf8, KeyLengths.Valid;
      materializedRows := materializedRows + 1;
      if materializedRows > limits.maxProcedureRows {
        return Some(TooManyRows);
      }
      var measured := MeasureRow(g, row);
      if measured.None? {
        return Some(InvalidDate);
      }
      materializedBytes := materializedBytes + measured.value;
      failure := if materializedBytes > limits.maxProcedureBytes then Some(TooManyBytes) else None;
    }

    method MeasureLeaf(v: Value) returns (bytes: Option<nat>)
      ensures bytes == LeafCost(v)
    {
      match v
      case String(text) =>
        var n := MeasureUtf8(text);
        bytes := Some(n);
      case Numeric(number) => bytes := Some(MeasureNumber(number));
      case BigInt(big) => bytes := Some(|Decimal(big)|);
      case Boolean(_) => bytes := Some(1);
      case Bytes(n) => bytes := Some(n);
      case Date(iso) => bytes := if iso.Some? then Some(|iso.value|) else None;
      case _ => bytes := Some(0);
    }

    /** Walks the graph from `value` with a worklist; every object is counted once. */
    method MeasureValue(g: Graph, value: Value) returns (measured: Option<nat>)
      requires Valid() && Closed(g) && (value.Object? ==> value.id in g)
      modifies keys
      ensures Valid()
      ensures measured == Measure(g, value)
    {
      hide Closed, Walk, Total, Reachable, LocalCost, Children, ToUtf8, KeyLengths.Valid;
      if !value.Object? {
        measured := MeasureLeaf(value);
        return;
      }
      WalkBegins(g, value.id);
      var bytes := 0;
      var seen: set<ObjectId> := {};
      var pending := [value.id];
      while pending != []
        invariant Valid()
        invariant Walk(g, value.id, seen, pending, bytes)
        decreases g.Keys - seen, |pending|
      {
        var current := pending[|pending| - 1];
        WalkPops(g, value.id, seen, pending, bytes);
        assert pending == pending[..|pending| - 1] + [current];
        pending := pending[..|pending| - 1];
        if current !in seen {
          var cost, found := ScanObject(g, current, pending);
          if cost.None? {
            return None;
          }
          WalkScans(g, value.id, seen, current, pending, found, bytes, cost.value);
          bytes := bytes + cost.value;
          seen := seen + {current};
          pending := found;
        }
      }
      WalkEnds(g, value.id, seen, bytes);
      measured := Some(bytes);
    }

    /** The walk's inner loop: one object's keys and leaves are summed, its children pushed. */
    method ScanObject(g: Graph, current: ObjectId, pending: seq<ObjectId>) returns (cost: Option<nat>, found: seq<ObjectId>)
      requires Valid() && current in g
      modifies keys
      ensures Valid()
      ensures cost == LocalCost(g[current])
      ensures cost.Some? ==> (forall id :: id in found <==> id in pending || id in Children(g[current]))
    {
      hide ToUtf8, KeyLengths.Valid, Children;
      var props := g[current];
      NothingScanned(props);
      var bytes := 0;
      found := pending;
      var i := 0;
      while i < |props|
        invariant Valid()
        invariant i <= |props|
        invariant LocalCost(props[..i]) == Some(bytes)
        invariant forall id :: id in found <==> id in pending || id in Children(props[..i])
      {
        LocalCostStep(props, i);
        var keyBytes := keys.MeasureKey(props[i].key);
        bytes := bytes + keyBytes;
        var nested := props[i].value;
        if nested.Object? {
          found := found + [nested.id];
        } else {
          var leaf := MeasureLeaf(nested);
          if leaf.None? {
            PrefixFails(props, i + 1);
            return None, found;
          }
          bytes := bytes + leaf.value;
        }
        i := i + 1;
      }
      assert props[..i] == props;
      cost := Some(bytes);
    }

    /** The key of one round of the fast path: read from the cached shape while the row still follows it. */
    method MeasureRowKey(key: Text, keyIndex: nat, cached: Shape, wasChanged: bool, built: Shape)
      returns (keyBytes: nat, isShapeChanged: bool, next: Shape)
      requires keys.Valid() && cached.Valid() && built.Valid()
      requires wasChanged || keyIndex <= |cached.keys|
      modifies keys
      ensures keys.Valid() && next.Valid()
      ensures keyBytes == |ToUtf8(key)|
      ensures isShapeChanged == (wasChanged || !(keyIndex < |cached.keys| && cached.keys[keyIndex] == key))
    {
      hide ToUtf8, KeyLengths.Valid, Shape.Valid;
      isShapeChanged, next := wasChanged, built;
      if !isShapeChanged && keyIndex < |cached.keys| && cached.keys[keyIndex] == key {
        keyBytes := cached.LengthAt(keyIndex);
      } else {
        if !isShapeChanged {
          isShapeChanged := true;
          next := cached.Prefix(keyIndex);
        }
        keyBytes := keys.MeasureKey(key);
        next := next.Push(key, keyBytes);
      }
    }

    /** The fast path's loop over the properties, which stops at a nested object or an invalid date. */
    method ScanRow(props: seq<Property>, cached: Option<Shape>) returns (scan: RowScan, isShapeChanged: bool, next: Shape)
      requires keys.Valid() && (cached.Some? ==> cached.value.Valid())
      modifies keys
      ensures keys.Valid() && next.Valid()
      ensures scan.Flat? ==> FlatSoFar(props, |props|, scan.bytes) && (isShapeChanged || (cached.Some? && |props| <= |cached.value.keys|))
      ensures scan.Unmeasurable? ==> LocalCost(props).None?
    {
      hide ToUtf8, KeyLengths.Valid, FlatSoFar, LocalCost, LeafCost, Shape.Valid;
      var bytes := 0;
      isShapeChanged, next := cached.None?, NO_KEYS;
      var shape := if cached.Some? then cached.value else NO_KEYS;
      var keyIndex := 0;
      FlatBegins(props);
      NoKeysIsValid();
      while keyIndex < |props|
        invariant keys.Valid() && next.Valid()
        invariant keyIndex <= |props|
        invariant isShapeChanged || (cached.Some? && keyIndex <= |shape.keys|)
        invariant FlatSoFar(props, keyIndex, bytes)
      {
        FlatStep(props, keyIndex, bytes);
        var keyBytes;
        keyBytes, isShapeChanged, next := MeasureRowKey(props[keyIndex].key, keyIndex, shape, isShapeChanged, next);
        var nested := props[keyIndex].value;
        if nested.Object? {
          scan := Nested;
          return;
        }
        var leaf := MeasureLeaf(nested);
        if leaf.None? {
          scan := Unmeasurable;
          return;
        }
        bytes := bytes + keyBytes + leaf.value;
        keyIndex := keyIndex + 1;
      }
      scan := Flat(bytes);
    }

    /** The fast path for flat records; a nested object restarts the generic walk. */
    method MeasureRow(g: Graph, value: Value) returns (measured: Option<nat>)
      requires Valid() && Closed(g) && (value.Object? ==> value.id in g)
      modifies `rowShape, keys
      ensures Valid()
      ensures measured == Measure(g, value)
    {
      hide Closed, ToUtf8, Reachable, Total, KeyLengths.Valid, FlatSoFar, LocalCost, LeafCost, Shape.Valid;
      if !value.Object? {
        measured := MeasureValue(g, value);
        return;
      }
      var props := g[value.id];
      var scan, isShapeChanged, next := ScanRow(props, rowShape);
      match scan
      case Nested =>
        measured := MeasureValue(g, value);
      case Unmeasurable =>
        RootFails(g, value.id);
        measured := None;
      case Flat(bytes) =>
        FlatRecord(g, value.id, bytes);
        if isShapeChanged {
          rowShape := Some(next);
        } else if |props| != |rowShape.value.keys| {
          rowShape := Some(rowShape.value.Prefix(|props|));
        }
        measured := Some(bytes);
    }
  }
}
