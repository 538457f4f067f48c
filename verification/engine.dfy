/**
 * The part of the Rive runtime the tester talks to, reduced to data: each
 * state machine of a loaded file exposes an ordered list of named inputs,
 * each holding a value. Everything else the runtime does (rendering,
 * playing, firing triggers) is not part of this model.
 */
module Engine {
  import opened Wrappers
  import opened Seqs

  /** A state-machine input value as JavaScript sees it. */
  datatype Value = Bool(b: bool) | Num(n: real) | Undefined

  /** JavaScript truthiness: `false`, `0` and `undefined` are falsy. */
  predicate Truthy(v: Value) {
    match v
    case Bool(b) => b
    case Num(n) => n != 0.0
    case Undefined => false
  }

  /** JavaScript's `!v`: always a boolean. */
  function Not(v: Value): Value {
    Bool(!Truthy(v))
  }

  lemma NotFlipsTruthiness(v: Value)
    ensures Truthy(Not(v)) == !Truthy(v)
    ensures Not(Not(v)) == Bool(Truthy(v))
  {
  }

  datatype InputKind = BooleanInput | NumberInput | TriggerInput

  datatype Input = Input(name: string, kind: InputKind, value: Value)

  /** A loaded Rive instance: the input list of every state machine, by name. */
  datatype Rive = Rive(machines: map<string, seq<Input>>)

  /** `rive.stateMachineInputs(machine)`; None when the file has no such machine. */
  function MachineInputs(rive: Rive, machine: string): Option<seq<Input>> {
    if machine in rive.machines then Some(rive.machines[machine]) else None
  }

  /** `inputs.find(i => i.name === name)`, as an index. */
  function FindInput(inputs: seq<Input>, name: string): (r: Option<nat>)
    ensures r.Some? ==> r.value < |inputs| && inputs[r.value].name == name
    ensures r.Some? ==> forall j :: 0 <= j < r.value ==> inputs[j].name != name
    ensures r.None? <==> forall j :: 0 <= j < |inputs| ==> inputs[j].name != name
  {
    FindFirst(inputs, (i: Input) => i.name == name)
  }

  /** Conversely, the first input carrying the name is the one `find` returns. */
  lemma FindInputFirstMatch(inputs: seq<Input>, name: string, i: nat)
    requires i < |inputs| && inputs[i].name == name
    requires forall j :: 0 <= j < i ==> inputs[j].name != name
    ensures FindInput(inputs, name) == Some(i)
  {
  }

  /** No two inputs of one state machine share a name. */
  predicate UniqueNames(inputs: seq<Input>) {
    forall i, j :: 0 <= i < j < |inputs| ==> inputs[i].name != inputs[j].name
  }

  /** Every state machine of the instance has uniquely named inputs. */
  predicate WellFormed(rive: Rive) {
    forall m :: m in rive.machines ==> UniqueNames(rive.machines[m])
  }

  /** Two input lists with the same names and kinds in the same order; only values may differ. */
  predicate SameShape(a: seq<Input>, b: seq<Input>) {
    && |a| == |b|
    && forall k :: 0 <= k < |a| ==> a[k].name == b[k].name && a[k].kind == b[k].kind
  }

  /** `find` by name looks only at names, so lists of the same shape give the same index. */
  lemma FindInputSameShape(a: seq<Input>, b: seq<Input>, name: string)
    requires SameShape(a, b)
    ensures FindInput(a, name) == FindInput(b, name)
  {
    match FindInput(a, name)
    case Some(i) => FindInputFirstMatch(b, name, i);
    case None =>
  }

  /** A name found in a prefix is found in the whole list. */
  lemma FindInputExtends(front: seq<Input>, inputs: seq<Input>)
    requires |front| <= |inputs| && forall i :: 0 <= i < |front| ==> front[i] == inputs[i]
    ensures forall n :: FindInput(front, n).Some? ==> FindInput(inputs, n).Some?
  {
    forall n | FindInput(front, n).Some?
      ensures FindInput(inputs, n).Some?
    {
      var k := FindInput(front, n).value;
      assert inputs[k].name == n;
    }
  }

  /**
   * The record built by `inputs.forEach(input => values[input.name] = input.value)`:
   * every name of the list is a key, and a later input overwrites an earlier one.
   */
  function ValueRecord(inputs: seq<Input>): (r: map<string, Value>)
    ensures forall i :: 0 <= i < |inputs| ==> inputs[i].name in r
    ensures forall i :: 0 <= i < |inputs| && (forall j :: i < j < |inputs| ==> inputs[j].name != inputs[i].name)
                        ==> r[inputs[i].name] == inputs[i].value
  {
    if |inputs| == 0 then map[]
    else
      var last := inputs[|inputs| - 1];
      var front := inputs[..|inputs| - 1];
      assert forall i :: 0 <= i < |front| ==> front[i] == inputs[i];
      ValueRecord(front)[last.name := last.value]
  }

  /** The input list with input `i`'s value replaced by `v`. */
  function SetValue(inputs: seq<Input>, i: nat, v: Value): (r: seq<Input>)
    requires i < |inputs|
    ensures |r| == |inputs|
    ensures r[i].name == inputs[i].name && r[i].kind == inputs[i].kind && r[i].value == v
    ensures forall j :: 0 <= j < |r| && j != i ==> r[j] == inputs[j]
    ensures SameShape(inputs, r)
  {
    inputs[i := inputs[i].(value := v)]
  }

  /** A write to input `i` leaves every lookup of another name where it was, and that input untouched. */
  lemma SetValueKeepsOtherLookups(inputs: seq<Input>, i: nat, v: Value)
    requires i < |inputs|
    ensures forall n :: n != inputs[i].name ==> FindInput(SetValue(inputs, i, v), n) == FindInput(inputs, n)
    ensures forall n :: n != inputs[i].name && FindInput(inputs, n).Some? ==> FindInput(inputs, n).value != i
  {
    forall n | n != inputs[i].name
      ensures FindInput(SetValue(inputs, i, v), n) == FindInput(inputs, n)
    {
      FindInputSameShape(inputs, SetValue(inputs, i, v), n);
    }
  }

  /** Writing a value keeps the names, so unique names stay unique. */
  lemma SetValueKeepsNames(inputs: seq<Input>, i: nat, v: Value)
    requires i < |inputs|
    requires UniqueNames(inputs)
    ensures UniqueNames(SetValue(inputs, i, v))
    ensures forall j :: 0 <= j < |inputs| ==> SetValue(inputs, i, v)[j].name == inputs[j].name
  {
  }

  /** The record has no keys besides the input names. */
  lemma {:induction false} ValueRecordKeys(inputs: seq<Input>)
    ensures forall n :: n in ValueRecord(inputs) ==> FindInput(inputs, n).Some?
  {
    if |inputs| > 0 {
      var last := inputs[|inputs| - 1];
      var front := inputs[..|inputs| - 1];
      ValueRecordKeys(front);
      FindInputExtends(front, inputs);
      assert FindInput(inputs, last.name).Some? by {
        assert inputs[|inputs| - 1].name == last.name;
      }
    }
  }

  /** With unique names, the record holds every input's own value. */
  lemma ValueRecordUnique(inputs: seq<Input>)
    requires UniqueNames(inputs)
    ensures forall i :: 0 <= i < |inputs| ==> ValueRecord(inputs)[inputs[i].name] == inputs[i].value
  {
  }

  /** With unique names, `find` returns exactly the input carrying the name. */
  lemma FindInputUnique(inputs: seq<Input>, name: string, i: nat)
    requires UniqueNames(inputs)
    requires i < |inputs|
    ensures FindInput(inputs, name) == Some(i) <==> inputs[i].name == name
  {
  }

  /**
   * With a repeated name, `find` and the record disagree: `find` sees the
   * first input, the record keeps the last one's value.
   */
  lemma DuplicateNamesDisagree()
    ensures var inputs := [Input("MouseRelease", BooleanInput, Bool(false)),
                           Input("MouseRelease", BooleanInput, Bool(true))];
            && FindInput(inputs, "MouseRelease") == Some(0)
            && ValueRecord(inputs)["MouseRelease"] != inputs[0].value
  {
    var inputs := [Input("MouseRelease", BooleanInput, Bool(false)),
                   Input("MouseRelease", BooleanInput, Bool(true))];
    assert inputs[1].name == "MouseRelease";
  }
}
