/**
 Composite arguments of PostgreSQL procedures: an object keyed by transformed
 names is normalised to attribute names on the way in
 (`normalizeCompositeInput`) and keyed back on the way out
 (`transformCompositeRecord`). Name transformation, lower-casing and JSON are
 whatever functions the caller brings.
 */
module PostgresComposites {
  import opened Options

  /** A property value; JSON writes the last two kinds as texts or objects, and leaves undefined ones out. */
  datatype Value =
    | Null
    | Undefined
    | Text(text: string)
    | Number(text: string)
    | Boolean(b: bool)
    | BigInt(text: string)
    | Bytes(hex: string)

  datatype Field = Field(name: string, isBytea: bool)

  type Record = map<string, Value>

  datatype InputError = AmbiguousMetadata | UnknownField | ConflictingFields

  datatype OutputError = UnknownColumn | ConflictingColumns

  /** The keys under which a caller may supply a field. */
  function KeysOf(transform: string -> string, field: Field): set<string> {
    {field.name, transform(field.name)}
  }

  function AllKeys(transform: string -> string, fields: seq<Field>): set<string> {
    if fields == [] then {} else AllKeys(transform, fields[..|fields| - 1]) + KeysOf(transform, fields[|fields| - 1])
  }

  /** No key of a field is a key of an earlier one. */
  predicate Unambiguous(transform: string -> string, fields: seq<Field>) {
    fields == [] ||
    (var rest := fields[..|fields| - 1];
     Unambiguous(transform, rest) && AllKeys(transform, rest) !! KeysOf(transform, fields[|fields| - 1]))
  }

  /** A field is not supplied under both its names. */
  predicate SuppliedOnce(transform: string -> string, input: Record, field: Field) {
    transform(field.name) == field.name || field.name !in input || transform(field.name) !in input
  }

  function Chosen(transform: string -> string, input: Record, field: Field): Value {
    if field.name in input then input[field.name]
    else if transform(field.name) in input then input[transform(field.name)]
    else Null
  }

  /** What becomes of a value before it is written as JSON. */
  function Prepared(field: Field, value: Value): Value {
    if value.Undefined? then Null
    else if value.Bytes? && field.isBytea then Text("\\x" + value.hex)
    else value
  }

  /** The record of the first n attributes, all present. */
  function Normalized(transform: string -> string, input: Record, fields: seq<Field>, n: nat): Record
    requires n <= |fields|
  {
    if n == 0 then map[]
    else
      Normalized(transform, input, fields, n - 1)[fields[n - 1].name := Prepared(fields[n - 1], Chosen(transform, input, fields[n - 1]))]
  }

  lemma {:induction false} AllKeysMember(transform: string -> string, fields: seq<Field>, i: nat)
    requires i < |fields|
    ensures KeysOf(transform, fields[i]) <= AllKeys(transform, fields)
  {
    if i < |fields| - 1 {
      AllKeysMember(transform, fields[..|fields| - 1], i);
    }
  }

  lemma {:induction false} UnambiguousPairs(transform: string -> string, fields: seq<Field>, i: nat, j: nat)
    requires i < j < |fields| && Unambiguous(transform, fields)
    ensures KeysOf(transform, fields[i]) !! KeysOf(transform, fields[j])
  {
    var rest := fields[..|fields| - 1];
    if j < |fields| - 1 {
      UnambiguousPairs(transform, rest, i, j);
    } else {
      AllKeysMember(transform, rest, i);
    }
  }

  /** A shorter list of fields is unambiguous if a longer one is. */
  lemma {:induction false} UnambiguousPrefix(transform: string -> string, fields: seq<Field>, n: nat)
    requires n <= |fields|
    ensures Unambiguous(transform, fields) ==> Unambiguous(transform, fields[..n])
  {
    if n < |fields| {
      assert fields[..|fields| - 1][..n] == fields[..n];
      UnambiguousPrefix(transform, fields[..|fields| - 1], n);
    } else {
      assert fields[..n] == fields;
    }
  }

  /** Indexing the accepted keys fails exactly for metadata in which two fields share one. */
  method IndexCompositeInputKeys(transform: string -> string, fields: seq<Field>) returns (r: Result<set<string>, InputError>)
    ensures r.Ok? <==> Unambiguous(transform, fields)
    ensures r == if Unambiguous(transform, fields) then Ok(AllKeys(transform, fields)) else Err(AmbiguousMetadata)
  {
    var keys: set<string> := {};
    var i := 0;
    while i < |fields|
      invariant i <= |fields|
      invariant Unambiguous(transform, fields[..i]) && keys == AllKeys(transform, fields[..i])
    {
      assert fields[..i + 1][..i] == fields[..i];
      var name, transformed := fields[i].name, transform(fields[i].name);
      if name in keys || transformed in keys {
        UnambiguousPrefix(transform, fields, i + 1);
        return Err(AmbiguousMetadata);
      }
      keys := keys + {name, transformed};
      i := i + 1;
    }
    assert fields[..i] == fields;
    r := Ok(keys);
  }

  /** What an input must be like to be accepted. */
  predicate Acceptable(transform: string -> string, input: Record, fields: seq<Field>) {
    && Unambiguous(transform, fields)
    && input.Keys <= AllKeys(transform, fields)
    && forall i :: 0 <= i < |fields| ==> SuppliedOnce(transform, input, fields[i])
  }

  /** Accepts exactly the inputs without unknown or doubly supplied fields, and fills in what is missing. */
  method NormalizeCompositeInput(transform: string -> string, input: Record, fields: seq<Field>) returns (r: Result<Record, InputError>)
    ensures r.Ok? <==> Acceptable(transform, input, fields)
    ensures r.Ok? ==> r.value == Normalized(transform, input, fields, |fields|)
  {
    var acceptedKeys := IndexCompositeInputKeys(transform, fields);
    if acceptedKeys.Err? {
      return Err(acceptedKeys.error);
    }
    if !(input.Keys <= acceptedKeys.value) {
      return Err(UnknownField);
    }
    var normalized: Record := map[];
    var i := 0;
    while i < |fields|
      invariant i <= |fields|
      invariant normalized == Normalized(transform, input, fields, i)
      invariant forall k :: 0 <= k < i ==> SuppliedOnce(transform, input, fields[k])
    {
      var field := fields[i];
      var transformedName := transform(field.name);
      if transformedName != field.name && field.name in input && transformedName in input {
        return Err(ConflictingFields);
      }
      var fieldValue := Null;
      if field.name in input {
        fieldValue := input[field.name];
      } else if transformedName in input {
        fieldValue := input[transformedName];
      }
      normalized := normalized[field.name := Prepared(field, fieldValue)];
      i := i + 1;
    }
    r := Ok(normalized);
  }

  // ---- the way out

  /** The columns of a returned object, in the order in which they come. */
  type Columns = seq<(string, Value)>

  /** The first column with a name, whatever its case. */
  function ColumnAt(lower: string -> string, columns: Columns, name: string): Option<Value> {
    if columns == [] then None
    else if lower(columns[0].0) == lower(name) then Some(columns[0].1)
    else ColumnAt(lower, columns[1..], name)
  }

  predicate Known(lower: string -> string, fields: seq<Field>, column: string) {
    exists i :: 0 <= i < |fields| && lower(fields[i].name) == lower(column)
  }

  function OutputName(transform: string -> string, field: Field): string {
    transform(field.name)
  }

  function Settled(value: Option<Value>): Value {
    match value
    case None => Null
    case Some(Undefined) => Null
    case Some(v) => v
  }

  /** The result record of the first n fields. */
  function Materialized(transform: string -> string, lower: string -> string, columns: Columns, fields: seq<Field>, n: nat): Record
    requires n <= |fields|
  {
    if n == 0 then map[]
    else
      Materialized(transform, lower, columns, fields, n - 1)
      [OutputName(transform, fields[n - 1]) := Settled(ColumnAt(lower, columns, fields[n - 1].name))]
  }

  predicate DistinctOutputs(transform: string -> string, fields: seq<Field>) {
    forall i, j :: 0 <= i < j < |fields| ==> OutputName(transform, fields[i]) != OutputName(transform, fields[j])
  }

  predicate AllKnown(lower: string -> string, fields: seq<Field>, columns: Columns) {
    forall k :: 0 <= k < |columns| ==> Known(lower, fields, columns[k].0)
  }

  lemma {:induction false} MaterializedKeys(transform: string -> string, lower: string -> string, columns: Columns, fields: seq<Field>, n: nat, key: string)
    requires n <= |fields|
    ensures key in Materialized(transform, lower, columns, fields, n) <==> exists i :: 0 <= i < n && OutputName(transform, fields[i]) == key
  {
    if n > 0 {
      MaterializedKeys(transform, lower, columns, fields, n - 1, key);
      if OutputName(transform, fields[n - 1]) == key { assert OutputName(transform, fields[n - 1]) == key; }
    }
  }

  lemma NothingMaterialized(transform: string -> string, lower: string -> string, columns: Columns, fields: seq<Field>)
    ensures Materialized(transform, lower, columns, fields, 0) == map[]
  {}

  lemma MaterializedStep(transform: string -> string, lower: string -> string, columns: Columns, fields: seq<Field>, n: nat)
    requires n < |fields|
    ensures Materialized(transform, lower, columns, fields, n + 1) ==
            Materialized(transform, lower, columns, fields, n)
            [OutputName(transform, fields[n]) := Settled(ColumnAt(lower, columns, fields[n].name))]
  {}

  /** Keys a returned object by output names; refuses unknown columns and names that collide. */
  method TransformCompositeRecord(transform: string -> string, lower: string -> string, columns: Columns, fields: seq<Field>)
    returns (r: Result<Record, OutputError>)
    ensures r.Ok? <==> AllKnown(lower, fields, columns) && DistinctOutputs(transform, fields)
    ensures r.Ok? ==> r.value == Materialized(transform, lower, columns, fields, |fields|)
  {
    hide Known, Materialized, ColumnAt, Settled, OutputName;
    var sourceKeys := IndexOutputKeys(lower, columns);
    var k := 0;
    while k < |columns|
      invariant k <= |columns| && forall j :: 0 <= j < k ==> Known(lower, fields, columns[j].0)
    {
      if !Known(lower, fields, columns[k].0) {
        return Err(UnknownColumn);
      }
      k := k + 1;
    }
    var result: Record := map[];
    var i := 0;
    NothingMaterialized(transform, lower, columns, fields);
    while i < |fields|
      invariant i <= |fields|
      invariant result == Materialized(transform, lower, columns, fields, i)
      invariant DistinctOutputs(transform, fields[..i])
    {
      var outputName := OutputName(transform, fields[i]);
      MaterializedKeys(transform, lower, columns, fields, i, outputName);
      if outputName in result {
        return Err(ConflictingColumns);
      }
      var normalized := lower(fields[i].name);
      MaterializedStep(transform, lower, columns, fields, i);
      result := result[outputName := Settled(if normalized in sourceKeys then Some(sourceKeys[normalized]) else None)];
      i := i + 1;
    }
    assert fields[..i] == fields;
    r := Ok(result);
  }

  /** For every lower-case name, the value of the first column that has it. */
  method IndexOutputKeys(lower: string -> string, columns: Columns) returns (keys: map<string, Value>)
    ensures forall name :: ColumnAt(lower, columns, name) == if lower(name) in keys then Some(keys[lower(name)]) else None
  {
    keys := map[];
    var i := 0;
    while i < |columns|
      invariant i <= |columns|
      invariant forall name ::
        ColumnAt(lower, columns, name) == (if lower(name) in keys then Some(keys[lower(name)]) else ColumnAt(lower, columns[i..], name))
    {
      var normalized := lower(columns[i].0);
      assert columns[i..][1..] == columns[i + 1..];
      if normalized !in keys {
        keys := keys[normalized := columns[i].1];
      }
      i := i + 1;
    }
  }

  // ---- there and back

  /** The columns list the attributes of a record, each once, in any order. */
  ghost predicate Lists(columns: Columns, record: Record) {
    && (forall k :: 0 <= k < |columns| ==> columns[k].0 in record && record[columns[k].0] == columns[k].1)
    && (forall name :: name in record ==> exists k :: 0 <= k < |columns| && columns[k].0 == name)
  }

  /** Attribute names differ whatever their case, as the metadata decoder requires. */
  ghost predicate DistinctNames(lower: string -> string, fields: seq<Field>) {
    forall i, j :: 0 <= i < j < |fields| ==> lower(fields[i].name) != lower(fields[j].name)
  }

  /** A value of a kind that JSON does not change into another. */
  predicate Plain(value: Value) {
    !value.BigInt? && !value.Bytes?
  }

  lemma {:induction false} NormalizedKeys(transform: string -> string, input: Record, fields: seq<Field>, n: nat, key: string)
    requires n <= |fields|
    ensures key in Normalized(transform, input, fields, n) <==> exists i :: 0 <= i < n && fields[i].name == key
  {
    if n > 0 {
      NormalizedKeys(transform, input, fields, n - 1, key);
      if fields[n - 1].name == key { assert fields[n - 1].name == key; }
    }
  }

  lemma {:induction false} NormalizedAt(transform: string -> string, lower: string -> string, input: Record, fields: seq<Field>, n: nat, i: nat)
    requires i < n <= |fields| && DistinctNames(lower, fields)
    ensures fields[i].name in Normalized(transform, input, fields, n)
    ensures Normalized(transform, input, fields, n)[fields[i].name] == Prepared(fields[i], Chosen(transform, input, fields[i]))
  {
    if i < n - 1 {
      NormalizedAt(transform, lower, input, fields, n - 1, i);
    }
  }

  /** Looking a name up among columns that list a record finds its attribute. */
  lemma {:induction false} ColumnFound(lower: string -> string, columns: Columns, record: Record, name: string)
    requires forall k :: 0 <= k < |columns| ==> columns[k].0 in record && record[columns[k].0] == columns[k].1
    requires name in record && forall other :: other in record && lower(other) == lower(name) ==> other == name
    requires exists k :: 0 <= k < |columns| && columns[k].0 == name
    ensures ColumnAt(lower, columns, name) == Some(record[name])
  {
    if lower(columns[0].0) != lower(name) {
      var k :| 0 <= k < |columns| && columns[k].0 == name;
      assert columns[1..][k - 1].0 == name;
      ColumnFound(lower, columns[1..], record, name);
    }
  }

  lemma {:induction false} MaterializedAt(transform: string -> string, lower: string -> string, columns: Columns, fields: seq<Field>, n: nat, i: nat)
    requires i < n <= |fields| && DistinctOutputs(transform, fields)
    ensures OutputName(transform, fields[i]) in Materialized(transform, lower, columns, fields, n)
    ensures Materialized(transform, lower, columns, fields, n)[OutputName(transform, fields[i])] ==
            Settled(ColumnAt(lower, columns, fields[i].name))
  {
    if i < n - 1 {
      MaterializedAt(transform, lower, columns, fields, n - 1, i);
    }
  }

  /** What a caller gets back: every field under its transformed name, NULL where none was supplied. */
  ghost predicate Returned(transform: string -> string, input: Record, fields: seq<Field>, output: Record) {
    && output.Keys == (set i | 0 <= i < |fields| :: OutputName(transform, fields[i]))
    && forall key :: key in output ==> output[key] == Settled(if key in input then Some(input[key]) else None)
  }

  /**
   A record keyed by transformed names, any of them missing, survives the trip
   if JSON keeps what is written: it is accepted, and what the server sends back
   for the JSON, its columns in any order, is accepted and gives the same record
   with NULLs.
   */
  lemma CompositeRoundTrip(transform: string -> string, lower: string -> string, encode: Record -> string, decode: string -> Option<Record>,
                           input: Record, fields: seq<Field>, columns: Columns)
    requires Unambiguous(transform, fields) && DistinctNames(lower, fields)
    requires input.Keys <= set i | 0 <= i < |fields| :: OutputName(transform, fields[i])
    requires forall key :: key in input ==> Plain(input[key])
    requires var written := Normalized(transform, input, fields, |fields|);
             decode(encode(written)) == Some(written) && Lists(columns, decode(encode(written)).value)
    ensures Acceptable(transform, input, fields)
    ensures AllKnown(lower, fields, columns) && DistinctOutputs(transform, fields)
    ensures Returned(transform, input, fields, Materialized(transform, lower, columns, fields, |fields|))
  {
    hide Normalized, Materialized, Unambiguous, DistinctNames, Plain, Acceptable, Lists, Known;
    OutputsDiffer(transform, fields);
    InputIsAccepted(transform, input, fields);
    forall k | 0 <= k < |columns| ensures Known(lower, fields, columns[k].0) {
      ColumnIsKnown(transform, lower, input, fields, columns, k);
    }
    var output := Materialized(transform, lower, columns, fields, |fields|);
    forall key ensures key in output <==> exists i :: 0 <= i < |fields| && OutputName(transform, fields[i]) == key {
      MaterializedKeys(transform, lower, columns, fields, |fields|, key);
    }
    forall key | key in output
      ensures output[key] == Settled(if key in input then Some(input[key]) else None)
    {
      var i :| 0 <= i < |fields| && OutputName(transform, fields[i]) == key;
      FieldReturns(transform, lower, input, fields, columns, i);
    }
  }

  lemma ColumnIsKnown(transform: string -> string, lower: string -> string, input: Record, fields: seq<Field>, columns: Columns, k: nat)
    requires Lists(columns, Normalized(transform, input, fields, |fields|)) && k < |columns|
    ensures Known(lower, fields, columns[k].0)
  {
    hide Normalized;
    NormalizedKeys(transform, input, fields, |fields|, columns[k].0);
  }

  /** One field on its way through. */
  lemma FieldReturns(transform: string -> string, lower: string -> string, input: Record, fields: seq<Field>, columns: Columns, i: nat)
    requires Unambiguous(transform, fields) && DistinctNames(lower, fields) && DistinctOutputs(transform, fields)
    requires input.Keys <= set k | 0 <= k < |fields| :: OutputName(transform, fields[k])
    requires forall key :: key in input ==> Plain(input[key])
    requires Lists(columns, Normalized(transform, input, fields, |fields|)) && i < |fields|
    ensures var output, name := Materialized(transform, lower, columns, fields, |fields|), OutputName(transform, fields[i]);
            name in output && output[name] == Settled(if name in input then Some(input[name]) else None)
  {
    hide Normalized, Materialized, Unambiguous;
    var record := Normalized(transform, input, fields, |fields|);
    NormalizedAt(transform, lower, input, fields, |fields|, i);
    MaterializedAt(transform, lower, columns, fields, |fields|, i);
    forall other | other in record && lower(other) == lower(fields[i].name) ensures other == fields[i].name {
      NormalizedKeys(transform, input, fields, |fields|, other);
    }
    ColumnFound(lower, columns, record, fields[i].name);
    ChosenIsSupplied(transform, input, fields, i);
  }

  lemma OutputsDiffer(transform: string -> string, fields: seq<Field>)
    requires Unambiguous(transform, fields)
    ensures DistinctOutputs(transform, fields)
  {
    forall i, j | 0 <= i < j < |fields| ensures OutputName(transform, fields[i]) != OutputName(transform, fields[j]) {
      UnambiguousPairs(transform, fields, i, j);
      assert OutputName(transform, fields[i]) in KeysOf(transform, fields[i]);
    }
  }

  lemma InputIsAccepted(transform: string -> string, input: Record, fields: seq<Field>)
    requires Unambiguous(transform, fields) && input.Keys <= set i | 0 <= i < |fields| :: OutputName(transform, fields[i])
    ensures Acceptable(transform, input, fields)
  {
    forall key | key in input ensures key in AllKeys(transform, fields) {
      var i :| 0 <= i < |fields| && OutputName(transform, fields[i]) == key;
      AllKeysMember(transform, fields, i);
    }
    forall i | 0 <= i < |fields| ensures SuppliedOnce(transform, input, fields[i]) {
      ChosenIsSupplied(transform, input, fields, i);
    }
  }

  /** A field is supplied under its transformed name or not at all. */
  lemma ChosenIsSupplied(transform: string -> string, input: Record, fields: seq<Field>, i: nat)
    requires Unambiguous(transform, fields) && input.Keys <= set k | 0 <= k < |fields| :: OutputName(transform, fields[k])
    requires i < |fields|
    ensures transform(fields[i].name) != fields[i].name ==> fields[i].name !in input
    ensures Chosen(transform, input, fields[i]) ==
            if OutputName(transform, fields[i]) in input then input[OutputName(transform, fields[i])] else Null
  {
    if fields[i].name in input {
      var k :| 0 <= k < |fields| && OutputName(transform, fields[k]) == fields[i].name;
      if k < i { UnambiguousPairs(transform, fields, k, i); }
      if i < k { UnambiguousPairs(transform, fields, i, k); }
    }
  }
}
