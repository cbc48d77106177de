/**
 Oracle RECORD arguments with zoned timestamps (`OracleProcedureBindings`,
 `OracleRecordOutBinding`): the record is split into scalar binds that a DECLARE
 block puts together again. A small semantics of such blocks says what that means.
 */
module OracleRecords {
  import opened Options
  import opened Sequences
  import TextEncoding

  /** A scalar value; None is NULL. */
  type Value = Option<string>

  datatype Mode = In | Out | InOut

  datatype RecordType = RecordType(name: string, fields: seq<string>)

  /** `split` says that the record is passed field by field. */
  datatype Argument = Argument(name: string, mode: Mode, record: Option<RecordType>, split: bool)

  datatype Data = Scalar(value: Value) | Rec(fields: map<string, Value>)

  /** What a procedure does: from what each argument passes in to the value of each argument afterwards. */
  type Procedure = seq<Option<Data>> -> seq<Data>

  function LowerChar(c: char): char {
    if 'A' <= c <= 'Z' then (c as int + 32) as char else c
  }

  function Lower(s: string): (r: string)
    ensures |r| == |s|
  {
    seq(|s|, i requires 0 <= i < |s| => LowerChar(s[i]))
  }

  // ---- blocks and their meaning

  datatype Actual = BindActual(name: string) | VariableActual(name: string)

  datatype Statement =
    | Load(variable: string, field: string, bind: string)     // variable."field" := :bind;
    | Call(actuals: seq<Actual>)
    | Store(bind: string, variable: string, field: string)    // :bind := variable."field";

  datatype Block = Block(declarations: seq<(string, RecordType)>, loads: seq<Statement>, actuals: seq<Actual>, stores: seq<Statement>)

  /** Bind and variable names are the same whatever their case. */
  datatype Memory = Memory(binds: map<string, Data>, variables: map<string, map<string, Value>>) {
    function BindValue(name: string): Data {
      if Lower(name) in binds then binds[Lower(name)] else Scalar(None)
    }

    function Variable(name: string): map<string, Value> {
      if Lower(name) in variables then variables[Lower(name)] else map[]
    }

    function SetBind(name: string, data: Data): Memory {
      this.(binds := binds[Lower(name) := data])
    }

    function SetVariable(name: string, fields: map<string, Value>): Memory {
      this.(variables := variables[Lower(name) := fields])
    }

    function Read(a: Actual): Data {
      match a
      case BindActual(name) => BindValue(name)
      case VariableActual(name) => Rec(Variable(name))
    }

    function Write(a: Actual, data: Data): Memory {
      match a
      case BindActual(name) => SetBind(name, data)
      case VariableActual(name) => if data.Rec? then SetVariable(name, data.fields) else this
    }
  }

  function FieldOf(fields: map<string, Value>, field: string): Value {
    if field in fields then fields[field] else None
  }

  function Declare(declarations: seq<(string, RecordType)>, m: Memory): Memory
    decreases |declarations|
  {
    if declarations == [] then m
    else
      var (name, t) := declarations[0];
      Declare(declarations[1..], m.SetVariable(name, map f | f in t.fields :: None))
  }

  /** An OUT argument passes nothing in. */
  function PassedIn(m: Memory, args: seq<Argument>, actuals: seq<Actual>): seq<Option<Data>>
    requires |actuals| == |args|
  {
    seq(|args|, i requires 0 <= i < |args| => if args[i].mode.Out? then None else Some(m.Read(actuals[i])))
  }

  /** Copies results back, argument by argument. */
  function PassedOut(m: Memory, args: seq<Argument>, actuals: seq<Actual>, results: seq<Data>, i: nat): Memory
    requires |actuals| == |args| == |results| && i <= |args|
    decreases |args| - i
  {
    if i == |args| then m
    else PassedOut(if args[i].mode.In? then m else m.Write(actuals[i], results[i]), args, actuals, results, i + 1)
  }

  function Assign(s: Statement, m: Memory): Memory {
    match s
    case Load(v, f, b) =>
      var data := m.BindValue(b);
      m.SetVariable(v, m.Variable(v)[f := if data.Scalar? then data.value else None])
    case Store(b, v, f) => m.SetBind(b, Scalar(FieldOf(m.Variable(v), f)))
    case Call(_) => m
  }

  function AssignAll(s: seq<Statement>, m: Memory): Memory
    decreases |s|
  {
    if s == [] then m else AssignAll(s[1..], Assign(s[0], m))
  }

  function Execute(block: Block, args: seq<Argument>, procedure: Procedure, m: Memory): Memory
    requires |block.actuals| == |args| && forall ins :: |procedure(ins)| == |args|
  {
    var loaded := AssignAll(block.loads, Declare(block.declarations, m));
    var called := PassedOut(loaded, args, block.actuals, procedure(PassedIn(loaded, args, block.actuals)), 0);
    AssignAll(block.stores, called)
  }

  // ---- the block that is built

  /** How one argument is passed: by its own bind, or by a variable with one bind for each field. */
  datatype Plan = Direct | Split(variable: string, binds: seq<string>)

  ghost predicate Fits(args: seq<Argument>, plans: seq<Plan>) {
    && |plans| <= |args|
    && forall i :: 0 <= i < |plans| ==>
         && (args[i].split <==> plans[i].Split?)
         && (args[i].split ==> args[i].record.Some? && |plans[i].binds| == |args[i].record.value.fields|)
  }

  function ActualOf(arg: Argument, plan: Plan): Actual {
    if plan.Split? then VariableActual(plan.variable) else BindActual(arg.name)
  }

  function LoadsOf(variable: string, fields: seq<string>, binds: seq<string>): seq<Statement>
    requires |binds| == |fields|
  {
    seq(|fields|, k requires 0 <= k < |fields| => Load(variable, fields[k], binds[k]))
  }

  function StoresOf(variable: string, fields: seq<string>, binds: seq<string>): seq<Statement>
    requires |binds| == |fields|
  {
    seq(|fields|, k requires 0 <= k < |fields| => Store(binds[k], variable, fields[k]))
  }

  /** The block for the first n arguments. */
  function Render(args: seq<Argument>, plans: seq<Plan>, n: nat): Block
    requires Fits(args, plans) && n <= |plans|
  {
    if n == 0 then Block([], [], [], [])
    else
      var b, arg, plan := Render(args, plans, n - 1), args[n - 1], plans[n - 1];
      if plan.Direct? then b.(actuals := b.actuals + [BindActual(arg.name)])
      else
        var t := arg.record.value;
        Block(b.declarations + [(plan.variable, t)],
              b.loads + if arg.mode.Out? then [] else LoadsOf(plan.variable, t.fields, plan.binds),
              b.actuals + [VariableActual(plan.variable)],
              b.stores + if arg.mode.In? then [] else StoresOf(plan.variable, t.fields, plan.binds))
  }

  function ArgumentNames(args: seq<Argument>): set<string> {
    set i | 0 <= i < |args| :: Lower(args[i].name)
  }

  // ---- generating names

  function NameAt(index: nat): string {
    "tpk_record_" + TextEncoding.Digits(index)
  }

  lemma {:induction false} DigitsAreLower(n: nat)
    ensures Lower(TextEncoding.Digits(n)) == TextEncoding.Digits(n)
  {
    if n >= 10 { DigitsAreLower(n / 10); }
  }

  lemma NamesDiffer(a: nat, b: nat)
    ensures NameAt(a) == NameAt(b) ==> a == b
    ensures Lower(NameAt(a)) == NameAt(a)
  {
    TextEncoding.DigitsDiffer(a, b);
    DigitsAreLower(a);
    assert NameAt(a)[11..] == TextEncoding.Digits(a) && NameAt(b)[11..] == TextEncoding.Digits(b);
    var n := NameAt(a);
    forall i | 0 <= i < |n| ensures LowerChar(n[i]) == n[i] {
      if i >= 11 { assert n[i] == TextEncoding.Digits(a)[i - 11] && Lower(TextEncoding.Digits(a))[i - 11] == LowerChar(n[i]); }
    }
  }

  /** The names of the first `index` numbers. */
  function NamesBelow(index: nat): set<string> {
    if index == 0 then {} else NamesBelow(index - 1) + {NameAt(index - 1)}
  }

  lemma {:induction false} NextNameIsNew(index: nat, n: nat)
    requires n <= index
    ensures NameAt(index) !in NamesBelow(n)
  {
    if n > 0 {
      NextNameIsNew(index, n - 1);
      NamesDiffer(index, n - 1);
    }
  }

  /** The counter and the reserved names of one build. */
  class NameSource {
    var reservedNames: set<string>
    var generatedNameIndex: nat

    constructor (reserved: set<string>)
      ensures reservedNames == reserved && generatedNameIndex == 0
    {
      reservedNames := reserved;
      generatedNameIndex := 0;
    }

    /** The search ends: every name passed over is one of finitely many reserved names. */
    method CreateName() returns (name: string)
      modifies this
      ensures name !in old(reservedNames) && Lower(name) == name
      ensures reservedNames == old(reservedNames) + {name}
    {
      name := NameAt(generatedNameIndex);
      generatedNameIndex := generatedNameIndex + 1;
      NextNameIsNew(generatedNameIndex - 1, generatedNameIndex - 1);
      NamesDiffer(generatedNameIndex - 1, generatedNameIndex - 1);
      while name in reservedNames
        invariant generatedNameIndex > 0 && name == NameAt(generatedNameIndex - 1)
        invariant name !in NamesBelow(generatedNameIndex - 1) && Lower(name) == name
        invariant reservedNames == old(reservedNames)
        decreases |reservedNames - NamesBelow(generatedNameIndex - 1)|
      {
        ghost var before := reservedNames - NamesBelow(generatedNameIndex - 1);
        name := NameAt(generatedNameIndex);
        generatedNameIndex := generatedNameIndex + 1;
        NextNameIsNew(generatedNameIndex - 1, generatedNameIndex - 1);
        NamesDiffer(generatedNameIndex - 1, generatedNameIndex - 1);
        ghost var after := reservedNames - NamesBelow(generatedNameIndex - 1);
        assert after == before - {NameAt(generatedNameIndex - 2)};
      }
      reservedNames := reservedNames + {name};
    }
  }

  // ---- building

  /** Generated names are lower case, none is an argument's name, and no two of a kind are equal. */
  ghost predicate Apart(args: seq<Argument>, plans: seq<Plan>) {
    && (forall i :: 0 <= i < |plans| && plans[i].Split? ==>
          && Lower(plans[i].variable) == plans[i].variable
          && NoDuplicates(plans[i].binds)
          && forall k :: 0 <= k < |plans[i].binds| ==>
               Lower(plans[i].binds[k]) == plans[i].binds[k] && plans[i].binds[k] !in ArgumentNames(args))
    && (forall i, j :: 0 <= i < j < |plans| && plans[i].Split? && plans[j].Split? ==>
          && plans[i].variable != plans[j].variable
          && forall k, l :: 0 <= k < |plans[i].binds| && 0 <= l < |plans[j].binds| ==> plans[i].binds[k] != plans[j].binds[l])
  }

  /** Every generated name has been reserved. */
  ghost predicate Reserved(plans: seq<Plan>, reserved: set<string>) {
    forall i :: 0 <= i < |plans| && plans[i].Split? ==>
      && plans[i].variable in reserved
      && forall k :: 0 <= k < |plans[i].binds| ==> plans[i].binds[k] in reserved
  }

  lemma {:induction false} RenderPrefix(args: seq<Argument>, plans: seq<Plan>, more: seq<Plan>, n: nat)
    requires Fits(args, plans + more) && n <= |plans|
    ensures Fits(args, plans) && Render(args, plans + more, n) == Render(args, plans, n)
  {
    forall i | 0 <= i < |plans| ensures (plans + more)[i] == plans[i] {}
    if n > 0 { RenderPrefix(args, plans, more, n - 1); }
  }

  lemma ApartExtends(args: seq<Argument>, plans: seq<Plan>, plan: Plan, reserved: set<string>)
    requires Apart(args, plans) && Reserved(plans, reserved)
    requires plan.Split? ==>
      && Lower(plan.variable) == plan.variable && plan.variable !in reserved
      && NoDuplicates(plan.binds)
      && forall k :: 0 <= k < |plan.binds| ==>
           Lower(plan.binds[k]) == plan.binds[k] && plan.binds[k] !in ArgumentNames(args) && plan.binds[k] !in reserved
    ensures Apart(args, plans + [plan])
  {
    var longer := plans + [plan];
    assert forall i :: 0 <= i < |plans| ==> longer[i] == plans[i];
  }

  /** The declarations, assignments and placeholders of a call, filled argument by argument. */
  method Build(args: seq<Argument>, otherNames: set<string>) returns (block: Block, plans: seq<Plan>)
    requires forall i :: 0 <= i < |args| && args[i].split ==> args[i].record.Some?
    ensures |plans| == |args| && Fits(args, plans) && Apart(args, plans)
    ensures block == Render(args, plans, |args|)
    ensures forall i :: 0 <= i < |args| && args[i].split ==> plans[i].variable !in otherNames
  {
    hide Render, Apart, Lower;
    var names := new NameSource(otherNames + ArgumentNames(args));
    var declarations: seq<(string, RecordType)> := [];
    var loads: seq<Statement> := [];
    var placeholders: seq<Actual> := [];
    var stores: seq<Statement> := [];
    plans := [];
    NothingBuilt(args);
    var i := 0;
    while i < |args|
      invariant i <= |args| && |plans| == i
      invariant Fits(args, plans) && Apart(args, plans) && Reserved(plans, names.reservedNames)
      invariant otherNames + ArgumentNames(args) <= names.reservedNames
      invariant Block(declarations, loads, placeholders, stores) == Render(args, plans, i)
      invariant forall k :: 0 <= k < i && args[k].split ==> plans[k].variable !in otherNames
    {
      var argument := args[i];
      ghost var before := names.reservedNames;
      var plan := Direct;
      if argument.split {
        var t := argument.record.value;
        var variable := names.CreateName();
        var binds, newLoads, newStores := SplitFields(names, variable, t.fields);
        plan := Split(variable, binds);
        declarations := declarations + [(variable, t)];
        if !argument.mode.Out? { loads := loads + newLoads; }
        if !argument.mode.In? { stores := stores + newStores; }
        placeholders := placeholders + [VariableActual(variable)];
      } else {
        placeholders := placeholders + [BindActual(argument.name)];
      }
      ApartExtends(args, plans, plan, before);
      BlockGrows(args, plans, plan, i);
      plans := plans + [plan];
      i := i + 1;
    }
    block := Block(declarations, loads, placeholders, stores);
  }

  lemma NothingBuilt(args: seq<Argument>)
    ensures Fits(args, []) && Apart(args, []) && Render(args, [], 0) == Block([], [], [], [])
  {}

  lemma BlockGrows(args: seq<Argument>, plans: seq<Plan>, plan: Plan, i: nat)
    requires Fits(args, plans) && |plans| == i < |args|
    requires args[i].split <==> plan.Split?
    requires args[i].split ==> args[i].record.Some? && |plan.binds| == |args[i].record.value.fields|
    ensures Fits(args, plans + [plan])
    ensures var b, arg := Render(args, plans, i), args[i];
            Render(args, plans + [plan], i + 1) ==
            if plan.Direct? then b.(actuals := b.actuals + [BindActual(arg.name)])
            else Block(b.declarations + [(plan.variable, arg.record.value)],
                       b.loads + (if arg.mode.Out? then [] else LoadsOf(plan.variable, arg.record.value.fields, plan.binds)),
                       b.actuals + [VariableActual(plan.variable)],
                       b.stores + if arg.mode.In? then [] else StoresOf(plan.variable, arg.record.value.fields, plan.binds))
  {
    assert Fits(args, plans + [plan]);
    RenderPrefix(args, plans, [plan], i);
  }

  /** One bind for each field, with the assignments that move its value in and out. */
  method SplitFields(names: NameSource, variable: string, fields: seq<string>)
    returns (binds: seq<string>, loads: seq<Statement>, stores: seq<Statement>)
    modifies names
    ensures |binds| == |fields| && NoDuplicates(binds)
    ensures loads == LoadsOf(variable, fields, binds) && stores == StoresOf(variable, fields, binds)
    ensures forall k :: 0 <= k < |binds| ==>
      Lower(binds[k]) == binds[k] && binds[k] !in old(names.reservedNames) && binds[k] in names.reservedNames
    ensures old(names.reservedNames) <= names.reservedNames
  {
    hide Lower;
    binds, loads, stores := [], [], [];
    var k := 0;
    while k < |fields|
      invariant k <= |fields| && |binds| == k && NoDuplicates(binds)
      invariant |loads| == k && forall j :: 0 <= j < k ==> loads[j] == Load(variable, fields[j], binds[j])
      invariant |stores| == k && forall j :: 0 <= j < k ==> stores[j] == Store(binds[j], variable, fields[j])
      invariant forall j :: 0 <= j < k ==>
        Lower(binds[j]) == binds[j] && binds[j] !in old(names.reservedNames) && binds[j] in names.reservedNames
      invariant old(names.reservedNames) <= names.reservedNames
    {
      var bindName := names.CreateName();
      binds := binds + [bindName];
      loads := loads + [Load(variable, fields[k], bindName)];
      stores := stores + [Store(bindName, variable, fields[k])];
      k := k + 1;
    }
  }

  // ---- the record a caller supplies

  datatype InputError = ConflictingField | UnknownField

  /** The properties of a supplied object, in order. */
  type Entries = seq<(string, Value)>

  /** The value supplied for a name, whatever its case. */
  function Supplied(entries: Entries, name: string): Value {
    if entries == [] then None
    else if Lower(entries[0].0) == Lower(name) then entries[0].1
    else Supplied(entries[1..], name)
  }

  predicate NoConflict(entries: Entries) {
    forall i, j :: 0 <= i < j < |entries| ==> Lower(entries[i].0) != Lower(entries[j].0)
  }

  predicate KnownField(fields: seq<string>, name: string) {
    exists k :: 0 <= k < |fields| && Lower(fields[k]) == Lower(name)
  }

  lemma {:induction false} SuppliedIsEntry(entries: Entries, name: string)
    requires NoConflict(entries)
    ensures (forall i :: 0 <= i < |entries| ==> Lower(entries[i].0) != Lower(name)) ==> Supplied(entries, name) == None
    ensures forall i :: 0 <= i < |entries| && Lower(entries[i].0) == Lower(name) ==> Supplied(entries, name) == entries[i].1
  {
    hide Lower;
    if entries != [] {
      assert forall i :: 1 <= i < |entries| ==> entries[i] == entries[1..][i - 1];
      SuppliedIsEntry(entries[1..], name);
    }
  }

  /**
   Accepts an object exactly when no two of its properties name the same field
   and each names a field of the type, and gives every field its value or NULL.
   */
  method PrepareRecordInput(entries: Entries, fields: seq<string>) returns (r: Result<map<string, Value>, InputError>)
    requires forall i, j :: 0 <= i < j < |fields| ==> Lower(fields[i]) != Lower(fields[j])
    ensures r.Ok? <==> NoConflict(entries) && forall i :: 0 <= i < |entries| ==> KnownField(fields, entries[i].0)
    ensures r.Ok? ==> r.value.Keys == (set f | f in fields) && forall f :: f in fields ==> r.value[f] == Supplied(entries, f)
  {
    hide *;
    var valuesByName := IndexEntries(entries);
    if valuesByName.Err? {
      return Err(valuesByName.error);
    }
    var record, left := FillFields(entries, fields, valuesByName.value);
    LeftOverIsUnknown(entries, fields, valuesByName.value, left);
    if left != map[] {
      return Err(UnknownField);
    }
    r := Ok(record);
  }

  /** The supplied values by lower-case name. */
  ghost predicate Indexes(valuesByName: map<string, Value>, entries: Entries, n: nat)
    requires n <= |entries|
  {
    && (forall name :: name in valuesByName <==> exists k :: 0 <= k < n && Lower(entries[k].0) == name)
    && (forall k :: 0 <= k < n ==> valuesByName[Lower(entries[k].0)] == entries[k].1)
  }

  method IndexEntries(entries: Entries) returns (r: Result<map<string, Value>, InputError>)
    ensures r.Ok? <==> NoConflict(entries)
    ensures r.Ok? ==> Indexes(r.value, entries, |entries|)
    ensures r.Err? ==> r.error == ConflictingField
  {
    hide Lower;
    var valuesByName: map<string, Value> := map[];
    var i := 0;
    while i < |entries|
      invariant i <= |entries| && NoConflict(entries[..i])
      invariant Indexes(valuesByName, entries, i)
    {
      var normalizedName := Lower(entries[i].0);
      if normalizedName in valuesByName {
        return Err(ConflictingField);
      }
      valuesByName := valuesByName[normalizedName := entries[i].1];
      i := i + 1;
    }
    assert entries[..i] == entries;
    r := Ok(valuesByName);
  }

  /** What is left of an index once the first n fields are taken out of it. */
  ghost predicate LeftOf(left: map<string, Value>, all: map<string, Value>, fields: seq<string>, n: nat)
    requires n <= |fields|
  {
    && (forall name :: name in left <==> name in all && forall j :: 0 <= j < n ==> Lower(fields[j]) != name)
    && (forall name :: name in left ==> left[name] == all[name])
  }

  /** Every field in turn takes its value out of the index. */
  method FillFields(entries: Entries, fields: seq<string>, all: map<string, Value>)
    returns (record: map<string, Value>, left: map<string, Value>)
    requires NoConflict(entries) && Indexes(all, entries, |entries|)
    requires forall i, j :: 0 <= i < j < |fields| ==> Lower(fields[i]) != Lower(fields[j])
    ensures record.Keys == (set f | f in fields) && forall f :: f in fields ==> record[f] == Supplied(entries, f)
    ensures LeftOf(left, all, fields, |fields|)
  {
    hide Lower, Supplied, Indexes, NoConflict, LeftOf;
    record, left := map[], all;
    var k := 0;
    NothingTaken(all, fields);
    while k < |fields|
      invariant k <= |fields| && record.Keys == (set f | f in fields[..k])
      invariant forall j :: 0 <= j < k ==> record[fields[j]] == Supplied(entries, fields[j])
      invariant LeftOf(left, all, fields, k)
    {
      var normalizedName := Lower(fields[k]);
      FieldTaken(entries, fields, all, left, k);
      record := record[fields[k] := if normalizedName in left then left[normalizedName] else None];
      left := left - {normalizedName};
      assert fields[..k + 1] == fields[..k] + [fields[k]];
      k := k + 1;
    }
    assert fields[..k] == fields;
  }

  lemma NothingTaken(all: map<string, Value>, fields: seq<string>)
    ensures LeftOf(all, all, fields, 0)
  {}

  lemma FieldTaken(entries: Entries, fields: seq<string>, all: map<string, Value>, left: map<string, Value>, k: nat)
    requires NoConflict(entries) && Indexes(all, entries, |entries|) && k < |fields| && LeftOf(left, all, fields, k)
    requires forall i, j :: 0 <= i < j < |fields| ==> Lower(fields[i]) != Lower(fields[j])
    ensures Supplied(entries, fields[k]) == if Lower(fields[k]) in left then left[Lower(fields[k])] else None
    ensures LeftOf(left - {Lower(fields[k])}, all, fields, k + 1)
    ensures forall j :: 0 <= j < k ==> fields[j] != fields[k]
  {
    hide Lower, Supplied, Indexes, NoConflict;
    SuppliedFromIndex(entries, all, fields[k]);
  }

  lemma SuppliedFromIndex(entries: Entries, all: map<string, Value>, name: string)
    requires NoConflict(entries) && Indexes(all, entries, |entries|)
    ensures Supplied(entries, name) == if Lower(name) in all then all[Lower(name)] else None
  {
    hide Lower, Supplied, NoConflict;
    SuppliedIsEntry(entries, name);
    if Lower(name) in all {
      var i :| 0 <= i < |entries| && Lower(entries[i].0) == Lower(name);
    }
  }

  lemma LeftOverIsUnknown(entries: Entries, fields: seq<string>, all: map<string, Value>, left: map<string, Value>)
    requires Indexes(all, entries, |entries|) && LeftOf(left, all, fields, |fields|)
    ensures left == map[] <==> forall i :: 0 <= i < |entries| ==> KnownField(fields, entries[i].0)
  {
    hide Lower;
    if left == map[] {
      forall i | 0 <= i < |entries| ensures KnownField(fields, entries[i].0) {
        assert Lower(entries[i].0) in all && Lower(entries[i].0) !in left;
      }
    }
    if forall i :: 0 <= i < |entries| ==> KnownField(fields, entries[i].0) {
      forall name ensures name !in left {
        if name in all {
          var i :| 0 <= i < |entries| && Lower(entries[i].0) == name;
          assert KnownField(fields, entries[i].0);
        }
      }
    }
  }
}
