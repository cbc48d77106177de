/**
 Splitting records into scalar binds preserves the meaning of a procedure call:
 whatever the procedure does, it is called with the same arguments, and the out
 values rebuilt from the binds are the ones it leaves.
 */
module OracleRecordMeaning {
  import opened Options
  import opened Sequences
  import opened OracleRecords

  /** A value of the argument's type: a record has exactly the fields of its type. */
  predicate Conforms(arg: Argument, data: Data) {
    if arg.split then arg.record.Some? && data.Rec? && data.fields.Keys == (set f | f in arg.record.value.fields) else true
  }

  predicate AllConform(args: seq<Argument>, data: seq<Data>) {
    |data| == |args| && forall i :: 0 <= i < |args| ==> Conforms(args[i], data[i])
  }

  /** Argument names differ, and so do the field names of a record type. */
  ghost predicate WellFormed(args: seq<Argument>) {
    && (forall i, j :: 0 <= i < j < |args| ==> Lower(args[i].name) != Lower(args[j].name))
    && (forall i :: 0 <= i < |args| && args[i].split ==> args[i].record.Some? && NoDuplicates(args[i].record.value.fields))
  }

  /** The binds carry the inputs: whole for a direct argument, field by field for a split one. */
  ghost predicate Carries(m: Memory, args: seq<Argument>, plans: seq<Plan>, inputs: seq<Data>)
    requires Fits(args, plans) && |plans| == |args| && AllConform(args, inputs)
  {
    forall i :: 0 <= i < |args| && !args[i].mode.Out? ==>
      if plans[i].Direct? then m.BindValue(args[i].name) == inputs[i]
      else forall k :: 0 <= k < |plans[i].binds| ==>
        m.BindValue(plans[i].binds[k]) == Scalar(FieldOf(inputs[i].fields, args[i].record.value.fields[k]))
  }

  /** What the procedure is given when every argument is passed directly. */
  function Given(args: seq<Argument>, inputs: seq<Data>): seq<Option<Data>>
    requires |inputs| == |args|
  {
    seq(|args|, i requires 0 <= i < |args| => if args[i].mode.Out? then None else Some(inputs[i]))
  }

  /** The value of an argument after the call, read from the binds. */
  function Rebuilt(m: Memory, arg: Argument, plan: Plan): Data
    requires plan.Split? ==> arg.record.Some? && |plan.binds| == |arg.record.value.fields|
  {
    if plan.Direct? then m.BindValue(arg.name)
    else Rec(RebuiltFields(m, arg.record.value.fields, plan.binds, |plan.binds|))
  }

  function RebuiltFields(m: Memory, fields: seq<string>, binds: seq<string>, n: nat): map<string, Value>
    requires n <= |binds| == |fields|
  {
    if n == 0 then map[]
    else
      var data := m.BindValue(binds[n - 1]);
      RebuiltFields(m, fields, binds, n - 1)[fields[n - 1] := if data.Scalar? then data.value else None]
  }

  // ---- sequences of assignments

  lemma {:induction false} AssignAppend(a: seq<Statement>, b: seq<Statement>, m: Memory)
    ensures AssignAll(a + b, m) == AssignAll(b, AssignAll(a, m))
    decreases |a|
  {
    if a == [] {
      assert a + b == b;
    } else {
      assert (a + b)[1..] == a[1..] + b;
      AssignAppend(a[1..], b, Assign(a[0], m));
    }
  }

  lemma {:induction false} DeclareAppend(a: seq<(string, RecordType)>, b: seq<(string, RecordType)>, m: Memory)
    ensures Declare(a + b, m) == Declare(b, Declare(a, m))
    decreases |a|
  {
    if a == [] {
      assert a + b == b;
    } else {
      assert (a + b)[1..] == a[1..] + b;
      DeclareAppend(a[1..], b, m.SetVariable(a[0].0, map f | f in a[0].1.fields :: None));
    }
  }

  function Nulls(fields: seq<string>): map<string, Value> {
    map f | f in fields :: None
  }

  /** Declaring sets every field of every record variable to NULL. */
  lemma {:induction false} DeclareSetsNulls(args: seq<Argument>, plans: seq<Plan>, n: nat, m: Memory)
    requires Fits(args, plans) && Apart(args, plans) && n <= |plans|
    ensures var d := Declare(Render(args, plans, n).declarations, m);
            && d.binds == m.binds
            && forall i :: 0 <= i < n && plans[i].Split? ==> d.Variable(plans[i].variable) == Nulls(args[i].record.value.fields)
  {
    hide Lower, Apart, Render, Fits;
    if n == 0 {
      NoBlock(args, plans);
    } else {
      var i := n - 1;
      DeclareSetsNulls(args, plans, i, m);
      RenderStep(args, plans, i);
      if plans[i].Split? {
        VariablesApart(args, plans, i);
        var before := Render(args, plans, i).declarations;
        var t := args[i].record.value;
        DeclareAppend(before, [(plans[i].variable, t)], m);
        assert [(plans[i].variable, t)][1..] == [];
      }
    }
  }

  lemma NoBlock(args: seq<Argument>, plans: seq<Plan>)
    requires Fits(args, plans)
    ensures Render(args, plans, 0) == Block([], [], [], [])
  {}

  /** What one more argument adds to the block. */
  lemma RenderStep(args: seq<Argument>, plans: seq<Plan>, i: nat)
    requires Fits(args, plans) && i < |plans|
    ensures i < |args| && (plans[i].Split? ==> args[i].record.Some? && |plans[i].binds| == |args[i].record.value.fields|)
    ensures var b, c, arg, plan := Render(args, plans, i), Render(args, plans, i + 1), args[i], plans[i];
            && c.actuals == b.actuals + [ActualOf(arg, plan)]
            && c.declarations == (if plan.Split? then b.declarations + [(plan.variable, arg.record.value)] else b.declarations)
            && c.loads == (if plan.Split? && !arg.mode.Out? then b.loads + LoadsOf(plan.variable, arg.record.value.fields, plan.binds) else b.loads)
            && c.stores == (if plan.Split? && !arg.mode.In? then b.stores + StoresOf(plan.variable, arg.record.value.fields, plan.binds) else b.stores)
  {
    var b := Render(args, plans, i);
    assert b.loads + [] == b.loads && b.stores + [] == b.stores;
  }

  lemma VariablesApart(args: seq<Argument>, plans: seq<Plan>, i: nat)
    requires Apart(args, plans) && i < |plans| && plans[i].Split?
    ensures forall j :: 0 <= j < |plans| && j != i && plans[j].Split? ==> Lower(plans[j].variable) != Lower(plans[i].variable)
  {}

  /** The first k loads of one record. */
  lemma {:induction false} LoadsOfOne(v: string, fields: seq<string>, binds: seq<string>, k: nat, m: Memory)
    requires k <= |fields| == |binds| && NoDuplicates(fields)
    ensures var after := AssignAll(LoadsOf(v, fields, binds)[..k], m);
            && after.binds == m.binds
            && (forall name :: Lower(name) != Lower(v) ==> after.Variable(name) == m.Variable(name))
            && (forall j :: 0 <= j < k ==> fields[j] in after.Variable(v) && after.Variable(v)[fields[j]] == ScalarOf(m.BindValue(binds[j])))
            && (forall f :: f !in fields ==> (f in after.Variable(v) <==> f in m.Variable(v)))
            && (forall f :: f in m.Variable(v) ==> f in after.Variable(v))
  {
    var loads := LoadsOf(v, fields, binds);
    if k > 0 {
      LoadsOfOne(v, fields, binds, k - 1, m);
      assert loads[..k] == loads[..k - 1] + [loads[k - 1]];
      AssignAppend(loads[..k - 1], [loads[k - 1]], m);
      assert [loads[k - 1]][1..] == [];
    }
  }

  function ScalarOf(data: Data): Value {
    if data.Scalar? then data.value else None
  }

  /** Loading gives every split argument that passes a value in the record it is given. */
  lemma {:induction false} LoadsGiveInputs(args: seq<Argument>, plans: seq<Plan>, inputs: seq<Data>, n: nat, m: Memory)
    requires Fits(args, plans) && |plans| == |args| && Apart(args, plans) && WellFormed(args) && AllConform(args, inputs)
    requires Carries(m, args, plans, inputs) && n <= |plans|
    requires forall i :: 0 <= i < |plans| && plans[i].Split? ==> m.Variable(plans[i].variable) == Nulls(args[i].record.value.fields)
    ensures var after := AssignAll(Render(args, plans, n).loads, m);
            && after.binds == m.binds
            && (forall i :: 0 <= i < n && plans[i].Split? && !args[i].mode.Out? ==> after.Variable(plans[i].variable) == inputs[i].fields)
            && (forall i :: n <= i < |plans| && plans[i].Split? ==> after.Variable(plans[i].variable) == m.Variable(plans[i].variable))
  {
    hide Lower, Apart, Render, Fits, Carries, WellFormed, AllConform;
    if n == 0 {
      NoBlock(args, plans);
    } else {
      var i := n - 1;
      LoadsGiveInputs(args, plans, inputs, i, m);
      RenderStep(args, plans, i);
      if plans[i].Split? && !args[i].mode.Out? {
        var before := AssignAll(Render(args, plans, i).loads, m);
        var v, fields, binds := plans[i].variable, args[i].record.value.fields, plans[i].binds;
        VariablesApart(args, plans, i);
        InputOfRecord(before, args, plans, inputs, m, i);
        AssignAppend(Render(args, plans, i).loads, LoadsOf(v, fields, binds), m);
        LoadsOfOne(v, fields, binds, |fields|, before);
        WholeSequence(LoadsOf(v, fields, binds), fields);
        OneRecordLoaded(before, AssignAll(LoadsOf(v, fields, binds), before), v, fields, binds, inputs[i].fields);
      }
    }
  }

  lemma WholeSequence(s: seq<Statement>, fields: seq<string>)
    requires |s| == |fields|
    ensures s[..|fields|] == s
  {}

  lemma InputOfRecord(before: Memory, args: seq<Argument>, plans: seq<Plan>, inputs: seq<Data>, m: Memory, i: nat)
    requires Fits(args, plans) && |plans| == |args| && WellFormed(args) && AllConform(args, inputs) && Carries(m, args, plans, inputs)
    requires i < |args| && plans[i].Split? && !args[i].mode.Out? && before.binds == m.binds
    ensures i < |inputs| && args[i].record.Some? && inputs[i].Rec? && NoDuplicates(args[i].record.value.fields)
    ensures inputs[i].fields.Keys == (set f | f in args[i].record.value.fields)
    ensures |plans[i].binds| == |args[i].record.value.fields|
    ensures forall k :: 0 <= k < |plans[i].binds| ==>
      before.BindValue(plans[i].binds[k]) == Scalar(FieldOf(inputs[i].fields, args[i].record.value.fields[k]))
  {}

  lemma OneRecordLoaded(before: Memory, after: Memory, v: string, fields: seq<string>, binds: seq<string>, input: map<string, Value>)
    requires |fields| == |binds| && input.Keys == (set f | f in fields) && before.Variable(v) == Nulls(fields)
    requires forall k :: 0 <= k < |fields| ==> before.BindValue(binds[k]) == Scalar(FieldOf(input, fields[k]))
    requires forall j :: 0 <= j < |fields| ==>
      fields[j] in after.Variable(v) && after.Variable(v)[fields[j]] == ScalarOf(before.BindValue(binds[j]))
    requires forall f :: f !in fields ==> (f in after.Variable(v) <==> f in before.Variable(v))
    ensures after.Variable(v) == input
  {
    forall f ensures (f in after.Variable(v) <==> f in input) && (f in input ==> after.Variable(v)[f] == input[f]) {
      if f in fields {
        var j :| 0 <= j < |fields| && fields[j] == f;
        assert after.Variable(v)[fields[j]] == input[f];
      }
    }
  }

  // ---- the call

  lemma {:induction false} ActualsOfBlock(args: seq<Argument>, plans: seq<Plan>, n: nat)
    requires Fits(args, plans) && n <= |plans|
    ensures |Render(args, plans, n).actuals| == n
    ensures forall i :: 0 <= i < n ==> Render(args, plans, n).actuals[i] == ActualOf(args[i], plans[i])
  {
    if n > 0 { ActualsOfBlock(args, plans, n - 1); }
  }

  /** Two arguments never share a bind or a variable. */
  lemma ActualsApart(args: seq<Argument>, plans: seq<Plan>, i: nat, j: nat)
    requires Fits(args, plans) && |plans| == |args| && Apart(args, plans) && WellFormed(args) && i < j < |args|
    ensures ActualOf(args[i], plans[i]).BindActual? && ActualOf(args[j], plans[j]).BindActual? ==>
              Lower(args[i].name) != Lower(args[j].name)
    ensures plans[i].Split? && plans[j].Split? ==> Lower(plans[i].variable) != Lower(plans[j].variable)
  {}

  lemma {:induction false} CopiedBack(args: seq<Argument>, plans: seq<Plan>, results: seq<Data>, m: Memory, i: nat)
    requires Fits(args, plans) && |plans| == |args| && Apart(args, plans) && WellFormed(args) && AllConform(args, results)
    requires i <= |args|
    ensures var actuals := Render(args, plans, |args|).actuals;
            |actuals| == |args| &&
            var after := PassedOut(m, args, actuals, results, i);
            && (forall j :: i <= j < |args| && !args[j].mode.In? ==> after.Read(actuals[j]) == results[j])
            && (forall j :: 0 <= j < i ==> after.Read(actuals[j]) == m.Read(actuals[j]))
    decreases |args| - i
  {
    hide Lower, Render, Apart;
    ActualsOfBlock(args, plans, |args|);
    var actuals := Render(args, plans, |args|).actuals;
    if i < |args| {
      var written := if args[i].mode.In? then m else m.Write(actuals[i], results[i]);
      CopiedBack(args, plans, results, written, i + 1);
      forall j | 0 <= j < i
        ensures written.Read(actuals[j]) == m.Read(actuals[j])
      {
        ActualsApart(args, plans, j, i);
      }
      if !args[i].mode.In? { WriteReads(m, args[i], plans[i], results[i]); }
    }
  }

  lemma WriteReads(m: Memory, arg: Argument, plan: Plan, result: Data)
    requires (arg.split <==> plan.Split?) && Conforms(arg, result)
    ensures m.Write(ActualOf(arg, plan), result).Read(ActualOf(arg, plan)) == result
  {}

  // ---- the stores

  lemma {:induction false} StoresOfOne(v: string, fields: seq<string>, binds: seq<string>, k: nat, m: Memory)
    requires k <= |fields| == |binds| && NoDuplicates(binds) && forall j :: 0 <= j < |binds| ==> Lower(binds[j]) == binds[j]
    ensures var after := AssignAll(StoresOf(v, fields, binds)[..k], m);
            && after.variables == m.variables
            && (forall name :: Lower(name) !in binds ==> after.BindValue(name) == m.BindValue(name))
            && (forall j :: 0 <= j < k ==> after.BindValue(binds[j]) == Scalar(FieldOf(m.Variable(v), fields[j])))
  {
    var stores := StoresOf(v, fields, binds);
    if k > 0 {
      StoresOfOne(v, fields, binds, k - 1, m);
      assert stores[..k] == stores[..k - 1] + [stores[k - 1]];
      AssignAppend(stores[..k - 1], [stores[k - 1]], m);
      assert [stores[k - 1]][1..] == [];
      var before := AssignAll(stores[..k - 1], m);
      assert forall j :: 0 <= j < k - 1 ==> binds[j] != binds[k - 1];
    }
  }

  /** No bind of a generated name is among the first n arguments' generated binds, unless it belongs to one of them. */
  predicate GeneratedBefore(plans: seq<Plan>, n: nat, name: string)
    requires n <= |plans|
  {
    exists i :: 0 <= i < n && plans[i].Split? && name in plans[i].binds
  }

  /** Storing gives every split argument's binds the fields of its record, and touches no other bind. */
  lemma {:induction false} StoresGiveFields(args: seq<Argument>, plans: seq<Plan>, n: nat, m: Memory)
    requires Fits(args, plans) && |plans| == |args| && Apart(args, plans) && n <= |plans|
    ensures var after := AssignAll(Render(args, plans, n).stores, m);
            && after.variables == m.variables
            && (forall name :: !GeneratedBefore(plans, n, Lower(name)) ==> after.BindValue(name) == m.BindValue(name))
            && (forall i, k :: 0 <= i < n && plans[i].Split? && !args[i].mode.In? && 0 <= k < |plans[i].binds| ==>
                  after.BindValue(plans[i].binds[k]) == Scalar(FieldOf(m.Variable(plans[i].variable), args[i].record.value.fields[k])))
  {
    hide Lower, Apart, Render, Fits, GeneratedBefore;
    if n == 0 {
      NoBlock(args, plans);
    } else {
      var i := n - 1;
      StoresGiveFields(args, plans, i, m);
      RenderStep(args, plans, i);
      BindsApart(args, plans, i);
      if plans[i].Split? && !args[i].mode.In? {
        var before := AssignAll(Render(args, plans, i).stores, m);
        var v, fields, binds := plans[i].variable, args[i].record.value.fields, plans[i].binds;
        AssignAppend(Render(args, plans, i).stores, StoresOf(v, fields, binds), m);
        StoresOfOne(v, fields, binds, |fields|, before);
        WholeSequence(StoresOf(v, fields, binds), fields);
      }
    }
  }

  lemma BindsApart(args: seq<Argument>, plans: seq<Plan>, i: nat)
    requires Apart(args, plans) && i < |plans|
    ensures forall name :: GeneratedBefore(plans, i, name) ==> GeneratedBefore(plans, i + 1, name)
    ensures plans[i].Split? ==>
              && NoDuplicates(plans[i].binds)
              && (forall k :: 0 <= k < |plans[i].binds| ==> Lower(plans[i].binds[k]) == plans[i].binds[k])
              && (forall name :: name in plans[i].binds ==> GeneratedBefore(plans, i + 1, name))
              && (forall h, k :: 0 <= h < i && plans[h].Split? && 0 <= k < |plans[h].binds| ==> Lower(plans[h].binds[k]) !in plans[i].binds)
  {
    if plans[i].Split? {
      forall h, k | 0 <= h < i && plans[h].Split? && 0 <= k < |plans[h].binds|
        ensures Lower(plans[h].binds[k]) !in plans[i].binds
      {
        assert plans[h].binds[k] !in plans[i].binds;
      }
    }
  }

  // ---- the whole block

  /** A record rebuilt field by field from the binds that hold its fields. */
  lemma {:induction false} RebuiltIsRecord(m: Memory, fields: seq<string>, binds: seq<string>, record: map<string, Value>, n: nat)
    requires n <= |binds| == |fields|
    requires forall k :: 0 <= k < n ==> m.BindValue(binds[k]) == Scalar(FieldOf(record, fields[k]))
    ensures RebuiltFields(m, fields, binds, n).Keys == (set f | f in fields[..n])
    ensures forall f :: f in RebuiltFields(m, fields, binds, n) ==> RebuiltFields(m, fields, binds, n)[f] == FieldOf(record, f)
  {
    if n > 0 {
      RebuiltIsRecord(m, fields, binds, record, n - 1);
      assert fields[..n] == fields[..n - 1] + [fields[n - 1]];
    }
  }

  /** The procedure is called with what it would be given directly. */
  lemma CalledWithInputs(args: seq<Argument>, plans: seq<Plan>, inputs: seq<Data>, m: Memory)
    requires Fits(args, plans) && |plans| == |args| && Apart(args, plans) && WellFormed(args) && AllConform(args, inputs)
    requires Carries(m, args, plans, inputs)
    ensures var block := Render(args, plans, |args|);
            |block.actuals| == |args| &&
            PassedIn(AssignAll(block.loads, Declare(block.declarations, m)), args, block.actuals) == Given(args, inputs)
  {
    hide Declare, AssignAll, Apart, Fits;
    var block := Render(args, plans, |args|);
    ActualsOfBlock(args, plans, |args|);
    DeclareSetsNulls(args, plans, |args|, m);
    var declared := Declare(block.declarations, m);
    CarriesBinds(m, declared, args, plans, inputs);
    LoadsGiveInputs(args, plans, inputs, |args|, declared);
    var loaded := AssignAll(block.loads, declared);
    forall i | 0 <= i < |args| && !args[i].mode.Out?
      ensures loaded.Read(block.actuals[i]) == inputs[i]
    {
      InputIsRead(loaded, args, plans, inputs, i);
    }
  }

  lemma CarriesBinds(m: Memory, other: Memory, args: seq<Argument>, plans: seq<Plan>, inputs: seq<Data>)
    requires Fits(args, plans) && |plans| == |args| && AllConform(args, inputs)
    requires Carries(m, args, plans, inputs) && other.binds == m.binds
    ensures Carries(other, args, plans, inputs)
  {}

  lemma InputIsRead(m: Memory, args: seq<Argument>, plans: seq<Plan>, inputs: seq<Data>, i: nat)
    requires Fits(args, plans) && |plans| == |args| && AllConform(args, inputs) && i < |args| && !args[i].mode.Out?
    requires plans[i].Split? ==> m.Variable(plans[i].variable) == inputs[i].fields
    requires plans[i].Direct? ==> m.BindValue(args[i].name) == inputs[i]
    ensures m.Read(ActualOf(args[i], plans[i])) == inputs[i]
  {}

  /**
   For any procedure and any inputs, the values rebuilt after the block are,
   argument by argument, what the procedure leaves when it is called with the
   inputs themselves: splitting a record changes nothing.
   */
  lemma SplittingKeepsMeaning(args: seq<Argument>, plans: seq<Plan>, inputs: seq<Data>, procedure: Procedure, m: Memory)
    requires Fits(args, plans) && |plans| == |args| && Apart(args, plans) && WellFormed(args) && AllConform(args, inputs)
    requires Carries(m, args, plans, inputs)
    requires forall ins :: |procedure(ins)| == |args|
    requires forall ins :: AllConform(args, procedure(ins))
    ensures |Render(args, plans, |args|).actuals| == |args|
    ensures var after := Execute(Render(args, plans, |args|), args, procedure, m);
            forall i :: 0 <= i < |args| && !args[i].mode.In? ==>
              Rebuilt(after, args[i], plans[i]) == procedure(Given(args, inputs))[i]
  {
    hide Declare, AssignAll, PassedOut, PassedIn, Apart, Rebuilt, Conforms;
    var block := Render(args, plans, |args|);
    ActualsOfBlock(args, plans, |args|);
    CalledWithInputs(args, plans, inputs, m);
    var results := procedure(Given(args, inputs));
    var loaded := AssignAll(block.loads, Declare(block.declarations, m));
    CopiedBack(args, plans, results, loaded, 0);
    var called := PassedOut(loaded, args, block.actuals, results, 0);
    StoresGiveFields(args, plans, |args|, called);
    var after := AssignAll(block.stores, called);
    forall i | 0 <= i < |args| && !args[i].mode.In?
      ensures Rebuilt(after, args[i], plans[i]) == results[i]
    {
      assert called.Read(block.actuals[i]) == results[i];
      OneRebuilt(args, plans, results, called, after, i);
    }
  }

  lemma OneRebuilt(args: seq<Argument>, plans: seq<Plan>, results: seq<Data>, called: Memory, after: Memory, i: nat)
    requires Fits(args, plans) && |plans| == |args| && Apart(args, plans) && AllConform(args, results) && i < |args|
    requires !args[i].mode.In? && called.Read(ActualOf(args[i], plans[i])) == results[i]
    requires forall name :: !GeneratedBefore(plans, |plans|, Lower(name)) ==> after.BindValue(name) == called.BindValue(name)
    requires plans[i].Split? ==> forall k :: 0 <= k < |plans[i].binds| ==>
      after.BindValue(plans[i].binds[k]) == Scalar(FieldOf(called.Variable(plans[i].variable), args[i].record.value.fields[k]))
    ensures Rebuilt(after, args[i], plans[i]) == results[i]
  {
    hide Lower, GeneratedBefore, Apart;
    if plans[i].Split? {
      var fields, binds := args[i].record.value.fields, plans[i].binds;
      RebuiltIsRecord(after, fields, binds, results[i].fields, |fields|);
      assert fields[..|fields|] == fields;
    } else {
      DirectBindIsNotGenerated(args, plans, i);
    }
  }

  lemma DirectBindIsNotGenerated(args: seq<Argument>, plans: seq<Plan>, i: nat)
    requires Apart(args, plans) && |plans| == |args| && i < |args|
    ensures !GeneratedBefore(plans, |plans|, Lower(args[i].name))
  {
    assert Lower(args[i].name) in ArgumentNames(args);
  }

  /** The same arguments with no record split. */
  function Unsplit(args: seq<Argument>): seq<Argument> {
    seq(|args|, i requires 0 <= i < |args| => args[i].(split := false))
  }

  function AllDirect(n: nat): seq<Plan> {
    seq(n, i requires 0 <= i < n => Direct)
  }

  /** The generated block and the plain call with the record itself as bind value give the same out values. */
  lemma SplitCallEqualsDirectCall(args: seq<Argument>, plans: seq<Plan>, inputs: seq<Data>, procedure: Procedure, m: Memory, direct: Memory)
    requires Fits(args, plans) && |plans| == |args| && Apart(args, plans) && WellFormed(args) && AllConform(args, inputs)
    requires Carries(m, args, plans, inputs)
    requires forall i :: 0 <= i < |args| && !args[i].mode.Out? ==> direct.BindValue(args[i].name) == inputs[i]
    requires forall ins :: |procedure(ins)| == |args|
    requires forall ins :: AllConform(args, procedure(ins))
    ensures Fits(Unsplit(args), AllDirect(|args|))
    ensures |Render(args, plans, |args|).actuals| == |args| == |Render(Unsplit(args), AllDirect(|args|), |args|).actuals|
    ensures var split := Execute(Render(args, plans, |args|), args, procedure, m);
            var plain := Execute(Render(Unsplit(args), AllDirect(|args|), |args|), Unsplit(args), procedure, direct);
            forall i :: 0 <= i < |args| && !args[i].mode.In? ==>
              Rebuilt(split, args[i], plans[i]) == Rebuilt(plain, Unsplit(args)[i], AllDirect(|args|)[i])
  {
    hide Render, Execute, Apart, Rebuilt, Lower;
    UnsplitFits(args, inputs, direct);
    forall ins ensures AllConform(Unsplit(args), procedure(ins)) { assert AllConform(args, procedure(ins)); }
    SplittingKeepsMeaning(args, plans, inputs, procedure, m);
    SplittingKeepsMeaning(Unsplit(args), AllDirect(|args|), inputs, procedure, direct);
    assert Given(Unsplit(args), inputs) == Given(args, inputs);
  }

  lemma UnsplitFits(args: seq<Argument>, inputs: seq<Data>, direct: Memory)
    requires WellFormed(args) && AllConform(args, inputs)
    requires forall i :: 0 <= i < |args| && !args[i].mode.Out? ==> direct.BindValue(args[i].name) == inputs[i]
    ensures var u, plans := Unsplit(args), AllDirect(|args|);
            Fits(u, plans) && Apart(u, plans) && WellFormed(u) && AllConform(u, inputs) && Carries(direct, u, plans, inputs)
  {
    hide Lower;
  }

  // ---- filling the binds

  /** The binds carry the input of one argument. */
  ghost predicate CarriesOne(m: Memory, arg: Argument, plan: Plan, input: Data) {
    if plan.Direct? then m.BindValue(arg.name) == input
    else (
      && arg.record.Some? && input.Rec? && |plan.binds| == |arg.record.value.fields|
      && forall k :: 0 <= k < |plan.binds| ==>
           m.BindValue(plan.binds[k]) == Scalar(FieldOf(input.fields, arg.record.value.fields[k])))
  }

  /** The name is a bind of the argument. */
  predicate BindOf(arg: Argument, plan: Plan, name: string) {
    if plan.Direct? then name == Lower(arg.name) else name in plan.binds
  }

  lemma OtherBindKeeps(m: Memory, arg: Argument, plan: Plan, input: Data, name: string, data: Data)
    requires CarriesOne(m, arg, plan, input) && !BindOf(arg, plan, Lower(name))
    requires plan.Split? ==> forall k :: 0 <= k < |plan.binds| ==> Lower(plan.binds[k]) == plan.binds[k]
    ensures CarriesOne(m.SetBind(name, data), arg, plan, input)
  {}

  lemma BindsOfTwoDiffer(args: seq<Argument>, plans: seq<Plan>, i: nat, j: nat, name: string)
    requires Fits(args, plans) && |plans| == |args| && Apart(args, plans) && WellFormed(args) && i < j < |args|
    ensures !(BindOf(args[i], plans[i], name) && BindOf(args[j], plans[j], name))
  {
    DirectBindIsNotGenerated(args, plans, i);
    DirectBindIsNotGenerated(args, plans, j);
  }

  /** The bindings object of a call: a value for every argument that passes one in. */
  method FillBindings(args: seq<Argument>, plans: seq<Plan>, inputs: seq<Data>) returns (m: Memory)
    requires Fits(args, plans) && |plans| == |args| && Apart(args, plans) && WellFormed(args) && AllConform(args, inputs)
    ensures Carries(m, args, plans, inputs)
  {
    hide Lower, Apart, Fits, WellFormed, Memory.SetBind, Memory.BindValue, BindOf;
    m := Memory(map[], map[]);
    var i := 0;
    while i < |args|
      invariant i <= |args|
      invariant forall h :: 0 <= h < i && !args[h].mode.Out? ==> CarriesOne(m, args[h], plans[h], inputs[h])
    {
      if !args[i].mode.Out? {
        if plans[i].Direct? {
          OneBindKeepsEarlier(m, args, plans, inputs, i, args[i].name, inputs[i]);
          m := m.SetBind(args[i].name, inputs[i]);
        } else {
          m := FillFields(m, args, plans, inputs, i);
        }
      }
      i := i + 1;
    }
    AllCarried(m, args, plans, inputs);
  }

  lemma AllCarried(m: Memory, args: seq<Argument>, plans: seq<Plan>, inputs: seq<Data>)
    requires Fits(args, plans) && |plans| == |args| && AllConform(args, inputs)
    requires forall h :: 0 <= h < |args| && !args[h].mode.Out? ==> CarriesOne(m, args[h], plans[h], inputs[h])
    ensures Carries(m, args, plans, inputs)
  {}

  /** Setting a bind of argument i leaves the earlier arguments' binds alone, and is read back. */
  lemma OneBindKeepsEarlier(m: Memory, args: seq<Argument>, plans: seq<Plan>, inputs: seq<Data>, i: nat, name: string, data: Data)
    requires Fits(args, plans) && |plans| == |args| && Apart(args, plans) && WellFormed(args) && AllConform(args, inputs)
    requires i < |args| && BindOf(args[i], plans[i], Lower(name))
    ensures forall h :: 0 <= h < i && CarriesOne(m, args[h], plans[h], inputs[h]) ==> CarriesOne(m.SetBind(name, data), args[h], plans[h], inputs[h])
    ensures m.SetBind(name, data).BindValue(name) == data
    ensures plans[i].Direct? && name == args[i].name ==> CarriesOne(m.SetBind(name, data), args[i], plans[i], data)
  {
    forall h | 0 <= h < i && CarriesOne(m, args[h], plans[h], inputs[h])
      ensures CarriesOne(m.SetBind(name, data), args[h], plans[h], inputs[h])
    {
      BindsOfTwoDiffer(args, plans, h, i, Lower(name));
      OtherBindKeeps(m, args[h], plans[h], inputs[h], name, data);
    }
  }

  method FillFields(start: Memory, args: seq<Argument>, plans: seq<Plan>, inputs: seq<Data>, i: nat) returns (m: Memory)
    requires Fits(args, plans) && |plans| == |args| && Apart(args, plans) && WellFormed(args) && AllConform(args, inputs)
    requires i < |args| && plans[i].Split? && !args[i].mode.Out?
    requires forall h :: 0 <= h < i && !args[h].mode.Out? ==> CarriesOne(start, args[h], plans[h], inputs[h])
    ensures forall h :: 0 <= h <= i && !args[h].mode.Out? ==> CarriesOne(m, args[h], plans[h], inputs[h])
  {
    hide Lower, Apart, WellFormed, BindOf;
    var fields, binds := args[i].record.value.fields, plans[i].binds;
    m := start;
    var k := 0;
    while k < |fields|
      invariant k <= |fields| == |binds|
      invariant forall h :: 0 <= h < i && !args[h].mode.Out? ==> CarriesOne(m, args[h], plans[h], inputs[h])
      invariant forall l :: 0 <= l < k ==> m.BindValue(binds[l]) == Scalar(FieldOf(inputs[i].fields, fields[l]))
    {
      var data := Scalar(FieldOf(inputs[i].fields, fields[k]));
      BindIsOwn(args, plans, i, k);
      OneBindKeepsEarlier(m, args, plans, inputs, i, binds[k], data);
      m := m.SetBind(binds[k], data);
      k := k + 1;
    }
  }

  lemma BindIsOwn(args: seq<Argument>, plans: seq<Plan>, i: nat, k: nat)
    requires Apart(args, plans) && |plans| == |args| && i < |args| && plans[i].Split? && k < |plans[i].binds|
    ensures BindOf(args[i], plans[i], Lower(plans[i].binds[k]))
    ensures forall l :: 0 <= l < k ==> Lower(plans[i].binds[l]) != Lower(plans[i].binds[k])
  {}
}
