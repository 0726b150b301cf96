/** Graphed callables: forward and backward passes replayed from captured graphs over static
    buffers. A program that calls them is compared with the same program run eagerly. */
module GraphedCallables {
  import opened Options

  /** What a tensor holds; memory that was never written holds nothing. */
  datatype Value = Uninitialised | Contents(elements: seq<real>)

  /** Device memory: one cell per tensor, named by its data pointer. */
  type Memory = map<nat, Value>

  function Read(m: Memory, a: nat): Value { if a in m then m[a] else Uninitialised }

  function Gather(m: Memory, cells: seq<nat>): (r: seq<Value>)
    ensures |r| == |cells|
    ensures forall i :: 0 <= i < |cells| ==> r[i] == Read(m, cells[i])
  {
    if cells == [] then [] else [Read(m, cells[0])] + Gather(m, cells[1..])
  }

  /** Assigns values to keys, left to right. */
  function Assign<T>(m: map<nat, T>, keys: seq<nat>, values: seq<T>): map<nat, T>
    requires |keys| == |values|
    decreases |keys|
  {
    if keys == [] then m else Assign(m[keys[0] := values[0]], keys[1..], values[1..])
  }

  predicate Distinct(s: seq<nat>) { s == [] || (s[0] !in s[1..] && Distinct(s[1..])) }

  predicate Disjoint(a: seq<nat>, b: seq<nat>) { forall x :: x in a ==> x !in b }

  lemma {:induction false} AssignElsewhere<T>(m: map<nat, T>, keys: seq<nat>, values: seq<T>, a: nat)
    requires |keys| == |values| && a !in keys
    ensures a in Assign(m, keys, values) <==> a in m
    ensures a in m ==> Assign(m, keys, values)[a] == m[a]
    decreases |keys|
  {
    if keys != [] {
      AssignElsewhere(m[keys[0] := values[0]], keys[1..], values[1..], a);
    }
  }

  lemma {:induction false} AssignAt<T>(m: map<nat, T>, keys: seq<nat>, values: seq<T>, i: nat)
    requires |keys| == |values| && Distinct(keys) && i < |keys|
    ensures keys[i] in Assign(m, keys, values) && Assign(m, keys, values)[keys[i]] == values[i]
    decreases |keys|
  {
    var m' := m[keys[0] := values[0]];
    if i == 0 {
      AssignElsewhere(m', keys[1..], values[1..], keys[0]);
    } else {
      AssignAt(m', keys[1..], values[1..], i - 1);
    }
  }

  // ------------------------------------------------------- copy unless same pointer

  /** Copies each input over its static buffer unless the pointers are equal. */
  function CopyIn(m: Memory, statics: seq<nat>, inputs: seq<nat>): Memory
    requires |statics| == |inputs|
    decreases |statics|
  {
    if statics == [] then m
    else CopyIn(CopyOne(m, statics[0], inputs[0]), statics[1..], inputs[1..])
  }

  function CopyOne(m: Memory, target: nat, source: nat): (r: Memory)
    ensures forall b :: Read(r, b) == if b == target then Read(m, source) else Read(m, b)
  {
    if target != source then m[target := Read(m, source)] else m
  }

  /** The buffers a copy overwrites. */
  function Changed(statics: seq<nat>, inputs: seq<nat>): seq<nat>
    requires |statics| == |inputs|
  {
    if statics == [] then []
    else (if statics[0] != inputs[0] then [statics[0]] else []) + Changed(statics[1..], inputs[1..])
  }

  /** A buffer that gets overwritten is not the source of a later copy. */
  predicate NoClobber(statics: seq<nat>, inputs: seq<nat>)
    requires |statics| == |inputs|
  {
    statics == [] ||
    ((statics[0] == inputs[0] || statics[0] !in inputs[1..]) && NoClobber(statics[1..], inputs[1..]))
  }

  /** A buffer that occurs twice is fed from one source. */
  predicate SameSource(statics: seq<nat>, inputs: seq<nat>)
    requires |statics| == |inputs|
  {
    forall i, j :: 0 <= i < |statics| && 0 <= j < |statics| && statics[i] == statics[j] ==> inputs[i] == inputs[j]
  }

  /** Whatever the memory, the buffers end up holding what the inputs held. */
  ghost predicate CopiesExactly(statics: seq<nat>, inputs: seq<nat>)
    requires |statics| == |inputs|
  {
    forall m: Memory :: Gather(CopyIn(m, statics, inputs), statics) == Gather(m, inputs)
  }

  lemma {:induction false} CopyElsewhere(m: Memory, statics: seq<nat>, inputs: seq<nat>, a: nat)
    requires |statics| == |inputs| && a !in Changed(statics, inputs)
    ensures Read(CopyIn(m, statics, inputs), a) == Read(m, a)
    decreases |statics|
  {
    if statics != [] {
      CopyElsewhere(CopyOne(m, statics[0], inputs[0]), statics[1..], inputs[1..], a);
    }
  }

  lemma {:induction false} ChangedIsStatic(statics: seq<nat>, inputs: seq<nat>, a: nat)
    requires |statics| == |inputs| && a in Changed(statics, inputs)
    ensures a in statics
  {
    if a in Changed(statics[1..], inputs[1..]) {
      ChangedIsStatic(statics[1..], inputs[1..], a);
    }
  }

  lemma SameSourceTail(statics: seq<nat>, inputs: seq<nat>)
    requires |statics| == |inputs| && statics != [] && SameSource(statics, inputs)
    ensures SameSource(statics[1..], inputs[1..])
  {
    var s, t := statics[1..], inputs[1..];
    forall i, j | 0 <= i < |s| && 0 <= j < |s| && s[i] == s[j] ensures t[i] == t[j] {
      assert s[i] == statics[i + 1] && s[j] == statics[j + 1] && t[i] == inputs[i + 1] && t[j] == inputs[j + 1];
    }
  }

  /** Sufficient: without clobbering, every buffer holds its input after the loop. */
  lemma {:induction false} CopyExact(m: Memory, statics: seq<nat>, inputs: seq<nat>, i: nat)
    requires |statics| == |inputs| && SameSource(statics, inputs) && NoClobber(statics, inputs) && i < |statics|
    ensures Read(CopyIn(m, statics, inputs), statics[i]) == Read(m, inputs[i])
    decreases |statics|
  {
    var s, t, m' := statics[1..], inputs[1..], CopyOne(m, statics[0], inputs[0]);
    SameSourceTail(statics, inputs);
    if i > 0 {
      CopyExact(m', s, t, i - 1);
    } else if statics[0] in s {
      var j :| 0 <= j < |s| && s[j] == statics[0];
      assert statics[j + 1] == statics[0] && t[j] == inputs[j + 1] == inputs[0];
      CopyExact(m', s, t, j);
    } else {
      if statics[0] in Changed(s, t) {
        ChangedIsStatic(s, t, statics[0]);
      }
      CopyElsewhere(m', s, t, statics[0]);
    }
  }

  /** A cell that is never a source influences only itself. */
  lemma {:induction false} CopyLocal(m1: Memory, m2: Memory, statics: seq<nat>, inputs: seq<nat>, x: nat, a: nat)
    requires |statics| == |inputs| && x !in inputs && forall b :: b != x ==> Read(m1, b) == Read(m2, b)
    requires a != x || a in statics
    ensures Read(CopyIn(m1, statics, inputs), a) == Read(CopyIn(m2, statics, inputs), a)
    decreases |statics|
  {
    if statics != [] {
      var n1, n2 := CopyOne(m1, statics[0], inputs[0]), CopyOne(m2, statics[0], inputs[0]);
      if statics[0] == x {
        SameReads(n1, n2, statics[1..], inputs[1..], a);
      } else {
        CopyLocal(n1, n2, statics[1..], inputs[1..], x, a);
      }
    }
  }

  lemma {:induction false} SameReads(m1: Memory, m2: Memory, statics: seq<nat>, inputs: seq<nat>, a: nat)
    requires |statics| == |inputs| && forall b :: Read(m1, b) == Read(m2, b)
    ensures Read(CopyIn(m1, statics, inputs), a) == Read(CopyIn(m2, statics, inputs), a)
    decreases |statics|
  {
    if statics != [] {
      SameReads(CopyOne(m1, statics[0], inputs[0]), CopyOne(m2, statics[0], inputs[0]), statics[1..], inputs[1..], a);
    }
  }

  /** If nothing is initialised, nothing is after copying. */
  lemma {:induction false} CopyNothing(m: Memory, statics: seq<nat>, inputs: seq<nat>, a: nat)
    requires |statics| == |inputs| && forall b :: Read(m, b) == Uninitialised
    ensures Read(CopyIn(m, statics, inputs), a) == Uninitialised
    decreases |statics|
  {
    if statics != [] {
      CopyNothing(CopyOne(m, statics[0], inputs[0]), statics[1..], inputs[1..], a);
    }
  }

  /** Necessary: clobbering loses an input in some memory. */
  lemma {:induction false} ClobberLoses(statics: seq<nat>, inputs: seq<nat>) returns (m: Memory, i: nat)
    requires |statics| == |inputs| && !NoClobber(statics, inputs)
    ensures i < |statics| && Read(CopyIn(m, statics, inputs), statics[i]) != Read(m, inputs[i])
  {
    var s, t := statics[1..], inputs[1..];
    if statics[0] != inputs[0] && statics[0] in t {
      m := map[statics[0] := Contents([])];
      var j :| 0 <= j < |t| && t[j] == statics[0];
      i := j + 1;
      CopyNothing(CopyOne(m, statics[0], inputs[0]), s, t, statics[i]);
    } else {
      var n, j := ClobberLoses(s, t);
      m, i := n, j + 1;
      if statics[0] != inputs[0] {
        CopyLocal(n, CopyOne(n, statics[0], inputs[0]), s, t, statics[0], s[j]);
      }
    }
  }

  /** The copy loop delivers its inputs in every memory exactly when no overwritten buffer is a
      later source and no buffer has two sources. */
  lemma CopiesExactlyIff(statics: seq<nat>, inputs: seq<nat>)
    requires |statics| == |inputs|
    ensures CopiesExactly(statics, inputs) <==> NoClobber(statics, inputs) && SameSource(statics, inputs)
  {
    if !SameSource(statics, inputs) {
      TwoSourcesLose(statics, inputs);
    } else if !NoClobber(statics, inputs) {
      var m, i := ClobberLoses(statics, inputs);
      assert Gather(CopyIn(m, statics, inputs), statics)[i] != Gather(m, inputs)[i];
    } else {
      forall m: Memory ensures Gather(CopyIn(m, statics, inputs), statics) == Gather(m, inputs) {
        CopyDelivers(m, statics, inputs);
      }
    }
  }

  lemma TwoSourcesLose(statics: seq<nat>, inputs: seq<nat>)
    requires |statics| == |inputs| && !SameSource(statics, inputs)
    ensures !CopiesExactly(statics, inputs)
  {
    var i, j :| 0 <= i < |statics| && 0 <= j < |statics| && statics[i] == statics[j] && inputs[i] != inputs[j];
    var m: Memory := map[inputs[i] := Contents([])];
    var after := Gather(CopyIn(m, statics, inputs), statics);
    assert after[i] == after[j] && Gather(m, inputs)[i] != Gather(m, inputs)[j];
  }

  lemma CopyDelivers(m: Memory, statics: seq<nat>, inputs: seq<nat>)
    requires |statics| == |inputs| && NoClobber(statics, inputs) && SameSource(statics, inputs)
    ensures Gather(CopyIn(m, statics, inputs), statics) == Gather(m, inputs)
  {
    forall i | 0 <= i < |statics| ensures Gather(CopyIn(m, statics, inputs), statics)[i] == Gather(m, inputs)[i] {
      CopyExact(m, statics, inputs, i);
    }
  }

  // ---------------------------------------------------------------- a captured callable

  /** The present entries of a list with gaps. */
  function Defined<T>(list: seq<Option<T>>): (r: seq<T>)
    ensures |r| <= |list|
  {
    if list == [] then []
    else (if list[0].Some? then [list[0].value] else []) + Defined(list[1..])
  }

  /** The items standing where `list` has no gap. */
  function Matching<T, U>(list: seq<Option<T>>, items: seq<U>): (r: seq<U>)
    requires |list| == |items|
    ensures |r| == |Defined(list)|
  {
    if list == [] then []
    else (if list[0].Some? then [items[0]] else []) + Matching(list[1..], items[1..])
  }

  /** A callable after capture. `surface` is the static user arguments followed by the parameter
      tensors; the forward graph fills `outputs` and the intermediates `saved`, the backward graph
      reads the surface, the intermediates and the static output gradients, and fills the defined
      `gradInputs`. `mode` is the training state at capture; `forward` is the original function. */
  datatype Callable = Callable(
    isModule: bool, mode: bool,
    surface: seq<nat>, userArgs: nat, params: seq<nat>,
    outputs: seq<nat>, saved: seq<nat>,
    gradOutputs: seq<Option<nat>>, gradInputs: seq<Option<nat>>,
    forward: (bool, seq<Value>, nat) -> Value,
    save: (seq<Value>, nat) -> Value,
    backward: (seq<Value>, nat) -> Value)
  {
    /** What capture guarantees: graph results live in cells of their own. */
    predicate WellFormed() {
      && |surface| == userArgs + |params|
      && Distinct(outputs + saved) && Disjoint(surface, outputs + saved)
      && |gradOutputs| == |outputs| && |gradInputs| == |surface|
      && Distinct(Defined(gradInputs)) && Disjoint(TapeCells(), Defined(gradOutputs))
    }

    function Statics(): seq<nat> requires userArgs <= |surface| { surface[..userArgs] }

    /** What backward reads besides the output gradients. */
    function TapeCells(): seq<nat> { surface + saved }

    function Results(training: bool, ins: seq<Value>): (r: seq<Value>)
      ensures |r| == |outputs|
    {
      seq(|outputs|, (i: nat) => forward(training, ins, i))
    }

    function Intermediates(ins: seq<Value>): (r: seq<Value>)
      ensures |r| == |saved|
    {
      seq(|saved|, (i: nat) => save(ins, i))
    }

    function Gradients(tape: seq<Value>, grads: seq<Value>): (r: seq<Value>)
      ensures |r| == |Defined(gradInputs)|
    {
      seq(|Defined(gradInputs)|, (i: nat) => backward(tape + grads, i))
    }

    /** The forward graph always reads the static surface. */
    function ReplayForward(m: Memory): Memory {
      var ins := Gather(m, surface);
      Assign(m, outputs + saved, Results(mode, ins) + Intermediates(ins))
    }

    function ReplayBackward(m: Memory): Memory {
      Assign(m, Defined(gradInputs), Gradients(Gather(m, TapeCells()), Gather(m, Defined(gradOutputs))))
    }

    /** What a call on the given arguments records for its backward. */
    function TapeOf(m: Memory, inputs: seq<nat>): seq<Value>
      requires userArgs <= |surface|
    {
      var ins := Gather(m, inputs + surface[userArgs..]);
      ins + Intermediates(ins)
    }

    /** new_fwd: a module in the other training state runs its original forward. */
    predicate RunsGraph(training: bool) { isModule ==> training == mode }
  }

  function ForwardMemory(c: Callable, m: Memory, inputs: seq<nat>): Memory
    requires c.WellFormed() && |inputs| == c.userArgs
  {
    c.ReplayForward(CopyIn(m, c.Statics(), inputs))
  }

  function BackwardMemory(c: Callable, m: Memory, grads: seq<nat>): Memory
    requires c.WellFormed() && |grads| == |c.gradOutputs|
  {
    c.ReplayBackward(CopyIn(m, Defined(c.gradOutputs), Matching(c.gradOutputs, grads)))
  }

  /** The copies of a call deliver its arguments: over the whole surface, where a parameter is its
      own source. */
  predicate Deliverable(statics: seq<nat>, inputs: seq<nat>)
    requires |statics| == |inputs|
  {
    NoClobber(statics, inputs) && SameSource(statics, inputs)
  }

  /** In particular arguments that alias no other argument's static buffer are delivered. */
  lemma {:induction false} NoAliasDelivers(statics: seq<nat>, inputs: seq<nat>)
    requires |statics| == |inputs| && Distinct(statics)
    requires forall i, j :: 0 <= i < |statics| && 0 <= j < |inputs| && statics[i] == inputs[j] ==> i == j
    ensures Deliverable(statics, inputs)
  {
    if statics != [] {
      var s, t := statics[1..], inputs[1..];
      forall i, j | 0 <= i < |s| && 0 <= j < |t| && s[i] == t[j] ensures i == j {
        assert statics[i + 1] == inputs[j + 1];
      }
      NoAliasDelivers(s, t);
      forall j | 0 <= j < |t| ensures t[j] != statics[0] {
        assert t[j] == inputs[j + 1];
      }
      forall i, j | 0 <= i < |statics| && 0 <= j < |statics| && statics[i] == statics[j] ensures inputs[i] == inputs[j] {
        DistinctAt(statics, i, j);
      }
    }
  }

  lemma {:induction false} DistinctAt(s: seq<nat>, i: nat, j: nat)
    requires Distinct(s) && i < |s| && j < |s| && s[i] == s[j]
    ensures i == j
  {
    if i > 0 && j > 0 {
      DistinctAt(s[1..], i - 1, j - 1);
    } else {
      assert forall h :: 0 < h < |s| ==> s[h] == s[1..][h - 1];
    }
  }

  /** Parameters are never copied, so looping over the user arguments is looping over everything. */
  lemma {:induction false} CopyWithParams(m: Memory, statics: seq<nat>, inputs: seq<nat>, params: seq<nat>)
    requires |statics| == |inputs|
    ensures CopyIn(m, statics + params, inputs + params) == CopyIn(m, statics, inputs)
    decreases |statics| + |params|
  {
    if statics != [] {
      assert (statics + params)[1..] == statics[1..] + params && (inputs + params)[1..] == inputs[1..] + params;
      CopyWithParams(CopyOne(m, statics[0], inputs[0]), statics[1..], inputs[1..], params);
    } else if params != [] {
      assert statics + params == params && inputs + params == params;
      CopyWithParams(m, [], [], params[1..]);
      assert [] + params[1..] == params[1..];
    }
  }

  /** The surface the forward graph reads holds the current arguments and parameters. */
  lemma SurfaceHoldsArguments(c: Callable, m: Memory, inputs: seq<nat>)
    requires c.WellFormed() && |inputs| == c.userArgs
    requires Deliverable(c.surface, inputs + c.surface[c.userArgs..])
    ensures Gather(CopyIn(m, c.Statics(), inputs), c.surface) == Gather(m, inputs + c.surface[c.userArgs..])
  {
    var params := c.surface[c.userArgs..];
    assert c.surface == c.Statics() + params;
    CopyWithParams(m, c.Statics(), inputs, params);
    CopiesExactlyIff(c.surface, inputs + params);
  }

  lemma {:induction false} GatherIs(m: Memory, cells: seq<nat>, values: seq<Value>)
    requires |cells| == |values| && forall i :: 0 <= i < |cells| ==> Read(m, cells[i]) == values[i]
    ensures Gather(m, cells) == values
  {
  }

  lemma GatherAssigned(m: Memory, cells: seq<nat>, values: seq<Value>, part: seq<nat>, want: seq<Value>, offset: nat)
    requires |cells| == |values| && Distinct(cells) && offset + |part| <= |cells| && |part| == |want|
    requires forall i :: 0 <= i < |part| ==> part[i] == cells[offset + i] && want[i] == values[offset + i]
    ensures Gather(Assign(m, cells, values), part) == want
  {
    var m' := Assign(m, cells, values);
    forall i | 0 <= i < |part| ensures Read(m', part[i]) == want[i] {
      AssignAt(m, cells, values, offset + i);
    }
    GatherIs(m', part, want);
  }

  lemma GatherElsewhere(m: Memory, cells: seq<nat>, values: seq<Value>, others: seq<nat>)
    requires |cells| == |values| && Disjoint(others, cells)
    ensures Gather(Assign(m, cells, values), others) == Gather(m, others)
  {
    forall i | 0 <= i < |others| ensures Gather(Assign(m, cells, values), others)[i] == Gather(m, others)[i] {
      AssignElsewhere(m, cells, values, others[i]);
    }
  }

  lemma {:induction false} GatherAppend(m: Memory, a: seq<nat>, b: seq<nat>)
    ensures Gather(m, a + b) == Gather(m, a) + Gather(m, b)
  {
  }

  /** One replay: outputs are the original function of the surface, and the tape cells hold the
      surface and its intermediates. */
  lemma ReplayFacts(c: Callable, m: Memory)
    requires c.WellFormed()
    ensures var ins := Gather(m, c.surface);
      && Gather(c.ReplayForward(m), c.outputs) == c.Results(c.mode, ins)
      && Gather(c.ReplayForward(m), c.TapeCells()) == ins + c.Intermediates(ins)
  {
    var ins := Gather(m, c.surface);
    var cells, values := c.outputs + c.saved, c.Results(c.mode, ins) + c.Intermediates(ins);
    var m' := c.ReplayForward(m);
    GatherAssigned(m, cells, values, c.outputs, c.Results(c.mode, ins), 0);
    GatherAssigned(m, cells, values, c.saved, c.Intermediates(ins), |c.outputs|);
    GatherElsewhere(m, cells, values, c.surface);
    GatherAppend(m', c.surface, c.saved);
  }

  /** One call returns the original function's value on the current arguments and parameters,
      whatever earlier calls left behind. */
  lemma ForwardIsOriginal(c: Callable, m: Memory, inputs: seq<nat>)
    requires c.WellFormed() && |inputs| == c.userArgs
    requires Deliverable(c.surface, inputs + c.surface[c.userArgs..])
    ensures var ins := Gather(m, inputs + c.surface[c.userArgs..]);
      && Gather(ForwardMemory(c, m, inputs), c.outputs) == c.Results(c.mode, ins)
      && Gather(ForwardMemory(c, m, inputs), c.TapeCells()) == ins + c.Intermediates(ins)
  {
    SurfaceHoldsArguments(c, m, inputs);
    ReplayFacts(c, CopyIn(m, c.Statics(), inputs));
  }

  lemma BackwardIsOriginal(c: Callable, m: Memory, grads: seq<nat>)
    requires c.WellFormed() && |grads| == |c.gradOutputs|
    requires Deliverable(Defined(c.gradOutputs), Matching(c.gradOutputs, grads))
    ensures Gather(BackwardMemory(c, m, grads), Defined(c.gradInputs)) ==
      c.Gradients(Gather(m, c.TapeCells()), Gather(m, Matching(c.gradOutputs, grads)))
  {
    var statics, sources := Defined(c.gradOutputs), Matching(c.gradOutputs, grads);
    var m1 := CopyIn(m, statics, sources);
    CopiesExactlyIff(statics, sources);
    assert Gather(m1, statics) == Gather(m, sources);
    CopyLeavesCells(m, statics, sources, c.TapeCells());
    var cells, values := Defined(c.gradInputs), c.Gradients(Gather(m, c.TapeCells()), Gather(m, sources));
    assert BackwardMemory(c, m, grads) == Assign(m1, cells, values);
    GatherAssigned(m1, cells, values, cells, values, 0);
  }

  /** Copying into the static buffers leaves cells apart from them as they were. */
  lemma CopyLeavesCells(m: Memory, statics: seq<nat>, inputs: seq<nat>, cells: seq<nat>)
    requires |statics| == |inputs| && Disjoint(cells, statics)
    ensures Gather(CopyIn(m, statics, inputs), cells) == Gather(m, cells)
  {
    var m1 := CopyIn(m, statics, inputs);
    forall i | 0 <= i < |cells| ensures Read(m1, cells[i]) == Gather(m, cells)[i] {
      assert cells[i] in cells;
      if cells[i] in Changed(statics, inputs) {
        ChangedIsStatic(statics, inputs, cells[i]);
      }
      CopyElsewhere(m, statics, inputs, cells[i]);
    }
    GatherIs(m1, cells, Gather(m, cells));
  }

  /** The backward of the call that recorded `tape`, run in memory m, returns its gradients. */
  ghost predicate BackwardRight(c: Callable, m: Memory, grads: seq<nat>, tape: seq<Value>)
    requires c.WellFormed() && |grads| == |c.gradOutputs|
  {
    Gather(BackwardMemory(c, m, grads), Defined(c.gradInputs)) == c.Gradients(tape, Gather(m, Matching(c.gradOutputs, grads)))
  }

  function WithBackward(c: Callable, backward: (seq<Value>, nat) -> Value): Callable { c.(backward := backward) }

  /** Whatever the callable's backward computes, it is right for a call exactly when the tape cells
      still hold what that call recorded. */
  lemma BackwardRightIff(c: Callable, m: Memory, grads: seq<nat>, tape: seq<Value>)
    requires c.WellFormed() && |grads| == |c.gradOutputs| && Defined(c.gradInputs) != [] && |tape| == |c.TapeCells()|
    requires Deliverable(Defined(c.gradOutputs), Matching(c.gradOutputs, grads))
    ensures (forall b :: BackwardRight(WithBackward(c, b), m, grads, tape)) <==> Gather(m, c.TapeCells()) == tape
  {
    var now, given := Gather(m, c.TapeCells()), Gather(m, Matching(c.gradOutputs, grads));
    forall b: (seq<Value>, nat) -> Value
      ensures BackwardRight(WithBackward(c, b), m, grads, tape) <==>
        WithBackward(c, b).Gradients(now, given) == WithBackward(c, b).Gradients(tape, given)
    {
      BackwardIsOriginal(WithBackward(c, b), m, grads);
    }
    if now != tape {
      var tell := (x: seq<Value>, i: nat) => if x == tape + given then Contents([]) else Uninitialised;
      assert (now + given)[..|tape|] == now && (tape + given)[..|tape|] == tape;
      assert WithBackward(c, tell).Gradients(now, given)[0] != WithBackward(c, tell).Gradients(tape, given)[0];
      assert !BackwardRight(WithBackward(c, tell), m, grads, tape);
    }
  }

  /** A second call leaves its own tape in the cells: the backward of the first call is then right,
      whatever it computes, exactly when both calls recorded the same. */
  lemma EarlierBackwardRightIff(c: Callable, m: Memory, first: seq<nat>, second: seq<nat>, grads: seq<nat>)
    requires c.WellFormed() && |first| == |second| == c.userArgs && |grads| == |c.gradOutputs| && Defined(c.gradInputs) != []
    requires Deliverable(c.surface, first + c.surface[c.userArgs..]) && Deliverable(c.surface, second + c.surface[c.userArgs..])
    requires Deliverable(Defined(c.gradOutputs), Matching(c.gradOutputs, grads))
    ensures var m1 := ForwardMemory(c, m, first);
      var m2 := ForwardMemory(c, m1, second);
      (forall b :: BackwardRight(WithBackward(c, b), m2, grads, c.TapeOf(m, first))) <==> c.TapeOf(m, first) == c.TapeOf(m1, second)
  {
    var m1 := ForwardMemory(c, m, first);
    ForwardIsOriginal(c, m1, second);
    BackwardRightIff(c, ForwardMemory(c, m1, second), grads, c.TapeOf(m, first));
  }

  /** The backward of an earlier call can return the later call's gradient: a callable that saves its
      input, called on 1 and then on 2. */
  lemma EarlierBackwardCanFail() returns (c: Callable, m: Memory, first: seq<nat>, second: seq<nat>, grads: seq<nat>)
    ensures c.WellFormed() && |first| == |second| == c.userArgs && |grads| == |c.gradOutputs|
    ensures !BackwardRight(c, ForwardMemory(c, ForwardMemory(c, m, first), second), grads, c.TapeOf(m, first))
    ensures BackwardRight(c, ForwardMemory(c, ForwardMemory(c, m, first), second), grads, c.TapeOf(ForwardMemory(c, m, first), second))
  {
    c, first, second, grads := SavesInput(), [10], [11], [12];
    m := map[10 := Contents([1.0]), 11 := Contents([2.0])];
    SavesInputFacts();
    var m1 := ForwardMemory(c, m, first);
    KeepsOther(c, m);
    ForwardIsOriginal(c, m1, second);
    BackwardIsOriginal(c, ForwardMemory(c, m1, second), grads);
    assert c.TapeOf(m, first)[0] == Contents([1.0]) && c.TapeOf(m1, second)[0] == Contents([2.0]);
  }

  /** A callable of one argument that returns it, saves it, and whose gradient is what it saved. */
  function SavesInput(): Callable {
    var head := (x: seq<Value>, i: nat) => if x == [] then Uninitialised else x[0];
    Callable(false, true, [0], 1, [], [1], [2], [Some(3)], [Some(4)], (b: bool, x: seq<Value>, i: nat) => head(x, i), head, head)
  }

  lemma SavesInputFacts()
    ensures var c := SavesInput();
      && c.WellFormed() && c.surface[1..] == [] && Defined(c.gradInputs) == [4]
      && Defined(c.gradOutputs) == [3] && Matching(c.gradOutputs, [12]) == [12]
    ensures Deliverable([0], [10] + []) && Deliverable([0], [11] + []) && Deliverable([3], [12])
  {
    var c := SavesInput();
    assert Defined(c.gradOutputs[1..]) == [] && Defined(c.gradInputs[1..]) == [];
    assert Defined(c.gradOutputs) == [3] && Defined(c.gradInputs) == [4];
    assert [10] + [] == [10] && [11] + [] == [11];
    assert c.outputs + c.saved == [1, 2] && [1, 2][1..] == [2] && [2][1..] == [] && [4][1..] == [];
  }

  /** The first call leaves the second argument alone. */
  lemma KeepsOther(c: Callable, m: Memory)
    requires c.WellFormed() && c.userArgs == 1 && c.surface == [0] && c.outputs == [1] && c.saved == [2]
    ensures Read(ForwardMemory(c, m, [10]), 11) == Read(m, 11)
  {
    var m1 := CopyIn(m, c.Statics(), [10]);
    CopyElsewhere(m, c.Statics(), [10], 11);
    var ins := Gather(m1, c.surface);
    AssignElsewhere(m1, c.outputs + c.saved, c.Results(c.mode, ins) + c.Intermediates(ins), 11);
  }

  /** The device on which the autograd function runs. */
  class Device {
    var memory: Memory

    constructor (m: Memory)
      ensures memory == m
    {
      memory := m;
    }

    /** Graphed.forward: returns the static output tensors. */
    method Forward(c: Callable, inputs: seq<nat>) returns (r: seq<nat>)
      requires c.WellFormed() && |inputs| == c.userArgs
      modifies this
      ensures r == c.outputs && memory == ForwardMemory(c, old(memory), inputs)
      ensures Deliverable(c.surface, inputs + c.surface[c.userArgs..]) ==>
        Gather(memory, r) == c.Results(c.mode, Gather(old(memory), inputs + c.surface[c.userArgs..]))
    {
      ghost var statics := c.Statics();
      assert statics[0..] == statics && inputs[0..] == inputs;
      for i := 0 to c.userArgs
        invariant CopyIn(memory, statics[i..], inputs[i..]) == CopyIn(old(memory), statics, inputs)
      {
        assert statics[i..][1..] == statics[i + 1..] && inputs[i..][1..] == inputs[i + 1..];
        if c.surface[i] != inputs[i] {
          memory := memory[c.surface[i] := Read(memory, inputs[i])];
        }
      }
      memory := c.ReplayForward(memory);
      r := c.outputs;
      if Deliverable(c.surface, inputs + c.surface[c.userArgs..]) {
        ForwardIsOriginal(c, old(memory), inputs);
      }
    }

    /** Graphed.backward: returns the static input gradients, None where no gradient is due. */
    method Backward(c: Callable, grads: seq<nat>) returns (r: seq<Option<nat>>)
      requires c.WellFormed() && |grads| == |c.gradOutputs|
      modifies this
      ensures r == c.gradInputs && memory == BackwardMemory(c, old(memory), grads)
      ensures Deliverable(Defined(c.gradOutputs), Matching(c.gradOutputs, grads)) ==>
        Gather(memory, Defined(r)) ==
          c.Gradients(Gather(old(memory), c.TapeCells()), Gather(old(memory), Matching(c.gradOutputs, grads)))
    {
      ghost var gs := c.gradOutputs;
      assert gs[0..] == gs && grads[0..] == grads;
      for i := 0 to |grads|
        invariant CopyIn(memory, Defined(gs[i..]), Matching(gs[i..], grads[i..])) ==
          CopyIn(old(memory), Defined(gs), Matching(gs, grads))
      {
        assert gs[i..][1..] == gs[i + 1..] && grads[i..][1..] == grads[i + 1..];
        DropGap(memory, gs[i..], grads[i..]);
        if c.gradOutputs[i].Some? {
          if c.gradOutputs[i].value != grads[i] {
            memory := memory[c.gradOutputs[i].value := Read(memory, grads[i])];
          }
        }
      }
      memory := c.ReplayBackward(memory);
      r := c.gradInputs;
      if Deliverable(Defined(c.gradOutputs), Matching(c.gradOutputs, grads)) {
        BackwardIsOriginal(c, old(memory), grads);
      }
    }
  }

  /** One round of the backward copy loop. */
  lemma DropGap(m: Memory, list: seq<Option<nat>>, grads: seq<nat>)
    requires |list| == |grads| && list != []
    ensures CopyIn(m, Defined(list), Matching(list, grads)) ==
      CopyIn(if list[0].Some? then CopyOne(m, list[0].value, grads[0]) else m, Defined(list[1..]), Matching(list[1..], grads[1..]))
  {
    var d, e := Defined(list[1..]), Matching(list[1..], grads[1..]);
    if list[0].Some? {
      assert ([list[0].value] + d)[1..] == d && ([grads[0]] + e)[1..] == e;
    } else {
      assert Defined(list) == d && Matching(list, grads) == e;
    }
  }

  // ------------------------------------------------- whole programs: drop-in replacement

  /** A program names its tensors and the tapes of its graphed calls by variables. `Call` also covers
      a module in the other training state, whose original forward puts its results at `spare`
      addresses; `Backprop` is the backward of the call that recorded `tape`. */
  datatype Event =
    | Write(v: nat, a: nat, x: Value)
    | Call(k: nat, training: bool, args: seq<nat>, results: seq<nat>, spare: seq<nat>, tape: nat)
    | Backprop(k: nat, tape: nat, grads: seq<nat>, results: seq<nat>)

  /** The reference: every variable has its own value, and every graphed call its own tape. */
  datatype Eager = Eager(env: Memory, tape: map<nat, seq<Value>>)

  /** What the caller can know in advance: where each usable variable lives, and which tapes are
      still intact in the cells of which callable. */
  datatype Layout = Layout(place: map<nat, nat>, tapes: map<nat, nat>)

  datatype Machine = Machine(memory: Memory, layout: Layout)

  predicate Live(l: Layout, vars: seq<nat>) { forall v :: v in vars ==> v in l.place }

  function Places(l: Layout, vars: seq<nat>): (r: seq<nat>)
    requires Live(l, vars)
    ensures |r| == |vars|
    ensures forall i :: 0 <= i < |vars| ==> r[i] == l.place[vars[i]]
  {
    if vars == [] then [] else [l.place[vars[0]]] + Places(l, vars[1..])
  }

  /** Overwriting cells makes the variables there, and the tapes using them, unusable. */
  function Kill(cs: seq<Callable>, l: Layout, cells: seq<nat>): Layout {
    Layout(map v | v in l.place && l.place[v] !in cells :: l.place[v],
           map t | t in l.tapes && l.tapes[t] < |cs| && Disjoint(cs[l.tapes[t]].TapeCells(), cells) :: l.tapes[t])
  }

  function Bind(l: Layout, vars: seq<nat>, cells: seq<nat>): Layout
    requires |vars| == |cells|
  {
    l.(place := Assign(l.place, vars, cells))
  }

  /** Checkable before the event happens: arguments are usable and deliverable, parameters are
      where they were at capture. */
  predicate Allowed(cs: seq<Callable>, l: Layout, e: Event) {
    match e
    case Write(v, a, x) => true
    case Call(k, training, args, results, spare, tape) =>
      && k < |cs| && cs[k].WellFormed() && |args| == cs[k].userArgs
      && |results| == |cs[k].outputs| && Distinct(results)
      && Live(l, args + cs[k].params)
      && (if cs[k].RunsGraph(training) then
            && Places(l, cs[k].params) == cs[k].surface[cs[k].userArgs..]
            && Deliverable(cs[k].surface, Places(l, args + cs[k].params))
          else |spare| == |results| && Distinct(spare))
    case Backprop(k, tape, grads, results) =>
      && k < |cs| && cs[k].WellFormed() && tape in l.tapes && l.tapes[tape] == k
      && |grads| == |cs[k].gradOutputs| && Live(l, grads)
      && |results| == |Defined(cs[k].gradInputs)| && Distinct(results)
      && Deliverable(Defined(cs[k].gradOutputs), Matching(cs[k].gradOutputs, Places(l, grads)))
  }

  function EagerCall(c: Callable, tape: nat, training: bool, args: seq<nat>, results: seq<nat>, s: Eager): Eager
    requires |results| == |c.outputs|
  {
    var ins := Gather(s.env, args + c.params);
    if c.RunsGraph(training) then
      Eager(Assign(s.env, results, c.Results(c.mode, ins)), s.tape[tape := ins + c.Intermediates(ins)])
    else Eager(Assign(s.env, results, c.Results(training, ins)), s.tape)
  }

  function EagerBackprop(c: Callable, tape: nat, grads: seq<nat>, results: seq<nat>, s: Eager): Eager
    requires |results| == |Defined(c.gradInputs)| && |grads| == |c.gradOutputs|
  {
    var recorded := if tape in s.tape then s.tape[tape] else [];
    s.(env := Assign(s.env, results, c.Gradients(recorded, Matching(c.gradOutputs, Gather(s.env, grads)))))
  }

  function EagerStep(cs: seq<Callable>, l: Layout, e: Event, s: Eager): Eager
    requires Allowed(cs, l, e)
  {
    match e
    case Write(v, a, x) => s.(env := s.env[v := x])
    case Call(k, training, args, results, spare, tape) => EagerCall(cs[k], tape, training, args, results, s)
    case Backprop(k, tape, grads, results) => EagerBackprop(cs[k], tape, grads, results, s)
  }

  function GraphCall(cs: seq<Callable>, k: nat, tape: nat, inputs: seq<nat>, results: seq<nat>, g: Machine): Machine
    requires k < |cs| && cs[k].WellFormed() && |inputs| == cs[k].userArgs && |results| == |cs[k].outputs|
  {
    var c := cs[k];
    var l := Kill(cs, g.layout, Changed(c.Statics(), inputs) + (c.outputs + c.saved));
    var bound := Bind(l, results, c.outputs);
    Machine(ForwardMemory(c, g.memory, inputs), bound.(tapes := bound.tapes[tape := k]))
  }

  function OriginalCall(cs: seq<Callable>, k: nat, training: bool, inputs: seq<nat>, results: seq<nat>, spare: seq<nat>, g: Machine): Machine
    requires k < |cs| && |results| == |spare| == |cs[k].outputs|
  {
    Machine(Assign(g.memory, spare, cs[k].Results(training, Gather(g.memory, inputs))),
            Bind(Kill(cs, g.layout, spare), results, spare))
  }

  function GraphBackprop(cs: seq<Callable>, k: nat, grads: seq<nat>, results: seq<nat>, g: Machine): Machine
    requires k < |cs| && cs[k].WellFormed() && |grads| == |cs[k].gradOutputs| && |results| == |Defined(cs[k].gradInputs)|
  {
    var c := cs[k];
    var copied := Changed(Defined(c.gradOutputs), Matching(c.gradOutputs, grads));
    Machine(BackwardMemory(c, g.memory, grads),
            Bind(Kill(cs, g.layout, copied + Defined(c.gradInputs)), results, Defined(c.gradInputs)))
  }

  function GraphStep(cs: seq<Callable>, e: Event, g: Machine): Machine
    requires Allowed(cs, g.layout, e)
  {
    match e
    case Write(v, a, x) => Machine(g.memory[a := x], Bind(Kill(cs, g.layout, [a]), [v], [a]))
    case Call(k, training, args, results, spare, tape) =>
      if cs[k].RunsGraph(training) then GraphCall(cs, k, tape, Places(g.layout, args), results, g)
      else OriginalCall(cs, k, training, Places(g.layout, args + cs[k].params), results, spare, g)
    case Backprop(k, tape, grads, results) => GraphBackprop(cs, k, Places(g.layout, grads), results, g)
  }

  /** Every usable variable holds in memory what the eager program computed for it. */
  predicate Agrees(cs: seq<Callable>, g: Machine, s: Eager) {
    && (forall v :: v in g.layout.place ==> Read(g.memory, g.layout.place[v]) == Read(s.env, v))
    && (forall t :: t in g.layout.tapes ==> TapeAgrees(cs, g.memory, g.layout.tapes[t], s, t))
  }

  /** The cells of callable k hold tape t. */
  predicate TapeAgrees(cs: seq<Callable>, m: Memory, k: nat, s: Eager, t: nat) {
    k < |cs| && t in s.tape && Gather(m, cs[k].TapeCells()) == s.tape[t]
  }

  ghost predicate SameOff(m1: Memory, m2: Memory, cells: seq<nat>) {
    forall a :: a !in cells ==> Read(m1, a) == Read(m2, a)
  }

  lemma GatherSameOff(m1: Memory, m2: Memory, cells: seq<nat>, changed: seq<nat>)
    requires SameOff(m1, m2, changed) && Disjoint(cells, changed)
    ensures Gather(m2, cells) == Gather(m1, cells)
  {
    assert forall i :: 0 <= i < |cells| ==> cells[i] in cells;
  }

  lemma KillAgrees(cs: seq<Callable>, g: Machine, s: Eager, m: Memory, cells: seq<nat>)
    requires Agrees(cs, g, s) && SameOff(g.memory, m, cells)
    ensures Agrees(cs, Machine(m, Kill(cs, g.layout, cells)), s)
  {
    var l := Kill(cs, g.layout, cells);
    forall t | t in l.tapes ensures TapeAgrees(cs, m, l.tapes[t], s, t) {
      assert TapeAgrees(cs, g.memory, g.layout.tapes[t], s, t);
      var cs' := cs[l.tapes[t]].TapeCells();
      GatherSameOff(g.memory, m, cs', cells);
    }
  }

  lemma BindAgrees(cs: seq<Callable>, g: Machine, s: Eager, vars: seq<nat>, cells: seq<nat>)
    requires Agrees(cs, g, s) && |vars| == |cells| && Distinct(vars)
    ensures Agrees(cs, g.(layout := Bind(g.layout, vars, cells)), s.(env := Assign(s.env, vars, Gather(g.memory, cells))))
  {
    var values := Gather(g.memory, cells);
    var l, env := Bind(g.layout, vars, cells), Assign(s.env, vars, values);
    forall v | v in l.place ensures Read(g.memory, l.place[v]) == Read(env, v) {
      if v in vars {
        var i :| 0 <= i < |vars| && vars[i] == v;
        AssignAt(g.layout.place, vars, cells, i);
        AssignAt(s.env, vars, values, i);
      } else {
        AssignElsewhere(g.layout.place, vars, cells, v);
        AssignElsewhere(s.env, vars, values, v);
      }
    }
  }

  lemma ArgumentsAgree(cs: seq<Callable>, g: Machine, s: Eager, vars: seq<nat>)
    requires Agrees(cs, g, s) && Live(g.layout, vars)
    ensures Gather(g.memory, Places(g.layout, vars)) == Gather(s.env, vars)
  {
  }

  lemma AssignSameOff(m: Memory, cells: seq<nat>, values: seq<Value>)
    requires |cells| == |values|
    ensures SameOff(m, Assign(m, cells, values), cells)
  {
    forall a | a !in cells ensures Read(m, a) == Read(Assign(m, cells, values), a) {
      AssignElsewhere(m, cells, values, a);
    }
  }

  /** A copy followed by an assignment changes only the copied buffers and the assigned cells. */
  lemma CopyAssignSameOff(m: Memory, statics: seq<nat>, inputs: seq<nat>, cells: seq<nat>, values: seq<Value>)
    requires |statics| == |inputs| && |cells| == |values|
    ensures SameOff(m, Assign(CopyIn(m, statics, inputs), cells, values), Changed(statics, inputs) + cells)
  {
    var m1 := CopyIn(m, statics, inputs);
    forall a | a !in Changed(statics, inputs) + cells ensures Read(m, a) == Read(Assign(m1, cells, values), a) {
      CopyElsewhere(m, statics, inputs, a);
      AssignElsewhere(m1, cells, values, a);
    }
  }

  lemma PlacesAppend(l: Layout, a: seq<nat>, b: seq<nat>)
    requires Live(l, a + b)
    ensures Live(l, a) && Live(l, b) && Places(l, a + b) == Places(l, a) + Places(l, b)
  {
    assert forall v :: v in a || v in b ==> v in a + b;
  }

  lemma GraphCallAgrees(cs: seq<Callable>, k: nat, tape: nat, inputs: seq<nat>, results: seq<nat>, g: Machine, s: Eager)
    requires k < |cs| && cs[k].WellFormed() && |inputs| == cs[k].userArgs && |results| == |cs[k].outputs| && Distinct(results)
    requires Agrees(cs, g, s) && Deliverable(cs[k].surface, inputs + cs[k].surface[cs[k].userArgs..])
    ensures var ins := Gather(g.memory, inputs + cs[k].surface[cs[k].userArgs..]);
      Agrees(cs, GraphCall(cs, k, tape, inputs, results, g),
             Eager(Assign(s.env, results, cs[k].Results(cs[k].mode, ins)), s.tape[tape := ins + cs[k].Intermediates(ins)]))
  {
    var c := cs[k];
    var ins := Gather(g.memory, inputs + c.surface[c.userArgs..]);
    var m := ForwardMemory(c, g.memory, inputs);
    var written := Changed(c.Statics(), inputs) + (c.outputs + c.saved);
    var l := Kill(cs, g.layout, written);
    assert SameOff(g.memory, m, written) by {
      var read := Gather(CopyIn(g.memory, c.Statics(), inputs), c.surface);
      CopyAssignSameOff(g.memory, c.Statics(), inputs, c.outputs + c.saved, c.Results(c.mode, read) + c.Intermediates(read));
    }
    KillAgrees(cs, g, s, m, written);
    ForwardIsOriginal(c, g.memory, inputs);
    var taped := Machine(m, l.(tapes := l.tapes[tape := k]));
    var s' := s.(tape := s.tape[tape := ins + c.Intermediates(ins)]);
    assert Agrees(cs, taped, s');
    BindAgrees(cs, taped, s', results, c.outputs);
  }

  lemma OriginalCallAgrees(cs: seq<Callable>, k: nat, training: bool, inputs: seq<nat>, results: seq<nat>, spare: seq<nat>, g: Machine, s: Eager)
    requires k < |cs| && |results| == |spare| == |cs[k].outputs| && Distinct(results) && Distinct(spare) && Agrees(cs, g, s)
    ensures Agrees(cs, OriginalCall(cs, k, training, inputs, results, spare, g),
                   s.(env := Assign(s.env, results, cs[k].Results(training, Gather(g.memory, inputs)))))
  {
    var values := cs[k].Results(training, Gather(g.memory, inputs));
    var m := Assign(g.memory, spare, values);
    AssignSameOff(g.memory, spare, values);
    KillAgrees(cs, g, s, m, spare);
    AssignedExactly(g.memory, spare, values);
    BindAgrees(cs, Machine(m, Kill(cs, g.layout, spare)), s, results, spare);
  }

  lemma AssignedExactly(m: Memory, cells: seq<nat>, values: seq<Value>)
    requires |cells| == |values| && Distinct(cells)
    ensures Gather(Assign(m, cells, values), cells) == values
  {
    GatherAssigned(m, cells, values, cells, values, 0);
  }

  lemma BackpropAgrees(cs: seq<Callable>, k: nat, tape: nat, grads: seq<nat>, results: seq<nat>, g: Machine, s: Eager)
    requires k < |cs| && cs[k].WellFormed() && |grads| == |cs[k].gradOutputs|
    requires |results| == |Defined(cs[k].gradInputs)| && Distinct(results)
    requires Agrees(cs, g, s) && tape in g.layout.tapes && g.layout.tapes[tape] == k && Deliverable(Defined(cs[k].gradOutputs), Matching(cs[k].gradOutputs, grads))
    ensures tape in s.tape && Agrees(cs, GraphBackprop(cs, k, grads, results, g),
      s.(env := Assign(s.env, results, cs[k].Gradients(s.tape[tape], Gather(g.memory, Matching(cs[k].gradOutputs, grads))))))
  {
    var c := cs[k];
    var statics, sources, cells := Defined(c.gradOutputs), Matching(c.gradOutputs, grads), Defined(c.gradInputs);
    var m := BackwardMemory(c, g.memory, grads);
    var written := Changed(statics, sources) + cells;
    assert SameOff(g.memory, m, written) by {
      var m1 := CopyIn(g.memory, statics, sources);
      CopyAssignSameOff(g.memory, statics, sources, cells, c.Gradients(Gather(m1, c.TapeCells()), Gather(m1, statics)));
    }
    KillAgrees(cs, g, s, m, written);
    BackwardIsOriginal(c, g.memory, grads);
    BindAgrees(cs, Machine(m, Kill(cs, g.layout, written)), s, results, cells);
  }

  lemma {:induction false} MatchingGather(m: Memory, list: seq<Option<nat>>, cells: seq<nat>)
    requires |list| == |cells|
    ensures Gather(m, Matching(list, cells)) == Matching(list, Gather(m, cells))
  {
    if list != [] {
      MatchingGather(m, list[1..], cells[1..]);
      var rest := Matching(list[1..], cells[1..]);
      if list[0].Some? {
        assert ([cells[0]] + rest)[1..] == rest;
      } else {
        assert Matching(list, cells) == rest;
      }
    }
  }

  /** Every event keeps the graphed program in step with the eager one: replay or original forward
      in either training state, and the backward of any call whose tape is intact. */
  lemma StepAgrees(cs: seq<Callable>, e: Event, g: Machine, s: Eager)
    requires Allowed(cs, g.layout, e) && Agrees(cs, g, s)
    ensures Agrees(cs, GraphStep(cs, e, g), EagerStep(cs, g.layout, e, s))
  {
    match e
    case Write(v, a, x) =>
      var m := g.memory[a := x];
      KillAgrees(cs, g, s, m, [a]);
      BindAgrees(cs, Machine(m, Kill(cs, g.layout, [a])), s, [v], [a]);
      assert Gather(m, [a]) == [x];
      assert Assign(s.env, [v], [x]) == s.env[v := x];
    case Call(k, training, args, results, spare, tape) =>
      ArgumentsAgree(cs, g, s, args + cs[k].params);
      PlacesAppend(g.layout, args, cs[k].params);
      if cs[k].RunsGraph(training) {
        GraphCallAgrees(cs, k, tape, Places(g.layout, args), results, g, s);
      } else {
        OriginalCallAgrees(cs, k, training, Places(g.layout, args + cs[k].params), results, spare, g, s);
      }
    case Backprop(k, tape, grads, results) =>
      ArgumentsAgree(cs, g, s, grads);
      MatchingGather(g.memory, cs[k].gradOutputs, Places(g.layout, grads));
      BackpropAgrees(cs, k, tape, Places(g.layout, grads), results, g, s);
  }

  /** A program whose every event is allowed where it happens. */
  ghost predicate AllowedRun(cs: seq<Callable>, program: seq<Event>, g: Machine) {
    program == [] || (Allowed(cs, g.layout, program[0]) && AllowedRun(cs, program[1..], GraphStep(cs, program[0], g)))
  }

  ghost function GraphRun(cs: seq<Callable>, program: seq<Event>, g: Machine): Machine
    requires AllowedRun(cs, program, g)
    decreases |program|
  {
    if program == [] then g else GraphRun(cs, program[1..], GraphStep(cs, program[0], g))
  }

  ghost function EagerRun(cs: seq<Callable>, program: seq<Event>, g: Machine, s: Eager): Eager
    requires AllowedRun(cs, program, g)
    decreases |program|
  {
    if program == [] then s
    else EagerRun(cs, program[1..], GraphStep(cs, program[0], g), EagerStep(cs, g.layout, program[0], s))
  }

  /** Graphed callables are a drop-in replacement: after any allowed program, started from any
      memory, every usable variable holds the value the eager program gives it. */
  lemma {:induction false} DropInReplacement(cs: seq<Callable>, program: seq<Event>, g: Machine, s: Eager)
    requires AllowedRun(cs, program, g) && Agrees(cs, g, s)
    ensures Agrees(cs, GraphRun(cs, program, g), EagerRun(cs, program, g, s))
    decreases |program|
  {
    if program != [] {
      StepAgrees(cs, program[0], g, s);
      DropInReplacement(cs, program[1..], GraphStep(cs, program[0], g), EagerStep(cs, g.layout, program[0], s));
    }
  }

  // ------------------------------------------------------------------ backward capture

  /** Gradients padded with None at the inputs that need none. Autograd itself gives None for an
      input that was not used, where that is allowed. */
  function Pad<T>(needs: seq<bool>, grads: seq<Option<T>>): (r: seq<Option<T>>)
    requires |grads| == Needed(needs)
    ensures |r| == |needs|
  {
    if needs == [] then []
    else if needs[0] then [grads[0]] + Pad(needs[1..], grads[1..])
    else [None] + Pad(needs[1..], grads)
  }

  function Needed(needs: seq<bool>): nat {
    if needs == [] then 0 else (if needs[0] then 1 else 0) + Needed(needs[1..])
  }

  /** The entries at the inputs that need a gradient. */
  function AtNeeded<T>(needs: seq<bool>, xs: seq<T>): (r: seq<T>)
    requires |needs| == |xs|
    ensures |r| == Needed(needs)
  {
    if needs == [] then [] else (if needs[0] then [xs[0]] else []) + AtNeeded(needs[1..], xs[1..])
  }

  /** Position i is the k-th input that needs a gradient, with k the number of such inputs before. */
  lemma {:induction false} PadAt<T>(needs: seq<bool>, grads: seq<Option<T>>, i: nat)
    requires |grads| == Needed(needs) && i < |needs|
    ensures needs[i] ==> Needed(needs[..i]) < |grads| && Pad(needs, grads)[i] == grads[Needed(needs[..i])]
    ensures !needs[i] ==> Pad(needs, grads)[i].None?
  {
    if i > 0 {
      PadAt(needs[1..], if needs[0] then grads[1..] else grads, i - 1);
      assert needs[..i][1..] == needs[1..][..i - 1] && needs[..i][0] == needs[0];
    } else {
      assert needs[..0] == [];
    }
  }

  /** The entries at the inputs that need a gradient are the computed ones in order, and the padding
      is None exactly where no gradient is needed or autograd gave none; if it gave one for each,
      None marks exactly the inputs that need none. */
  lemma {:induction false} PadFacts<T>(needs: seq<bool>, grads: seq<Option<T>>)
    requires |grads| == Needed(needs)
    ensures AtNeeded(needs, Pad(needs, grads)) == grads
    ensures forall i :: 0 <= i < |needs| ==>
      (Pad(needs, grads)[i].None? <==> !needs[i] || (Needed(needs[..i]) < |grads| && grads[Needed(needs[..i])].None?))
    ensures (forall k :: 0 <= k < |grads| ==> grads[k].Some?) ==> forall i :: 0 <= i < |needs| ==> Pad(needs, grads)[i].Some? == needs[i]
  {
    forall i | 0 <= i < |needs|
      ensures needs[i] ==> Needed(needs[..i]) < |grads| && Pad(needs, grads)[i] == grads[Needed(needs[..i])]
      ensures !needs[i] ==> Pad(needs, grads)[i].None?
    {
      PadAt(needs, grads, i);
    }
    PadKeeps(needs, grads);
  }

  lemma {:induction false} PadKeeps<T>(needs: seq<bool>, grads: seq<Option<T>>)
    requires |grads| == Needed(needs)
    ensures AtNeeded(needs, Pad(needs, grads)) == grads
  {
    if needs != [] {
      var rest := if needs[0] then grads[1..] else grads;
      PadKeeps(needs[1..], rest);
      assert Pad(needs, grads)[1..] == Pad(needs[1..], rest);
    }
  }

  /** Nothing else has these properties, so padding is determined by them. */
  lemma {:induction false} PadUnique<T>(needs: seq<bool>, grads: seq<Option<T>>, p: seq<Option<T>>)
    requires |grads| == Needed(needs) && |p| == |needs| && AtNeeded(needs, p) == grads
    requires forall i :: 0 <= i < |needs| && !needs[i] ==> p[i].None?
    ensures p == Pad(needs, grads)
  {
    if needs != [] {
      forall i | 0 <= i < |needs[1..]| && !needs[1..][i] ensures p[1..][i].None? {
        assert p[1..][i] == p[i + 1] && needs[1..][i] == needs[i + 1];
      }
      var rest := if needs[0] then grads[1..] else grads;
      assert AtNeeded(needs[1..], p[1..]) == rest;
      PadUnique(needs[1..], rest, p[1..]);
      assert p == [p[0]] + p[1..];
    }
  }

  lemma {:induction false} NeededSnoc(needs: seq<bool>, i: nat)
    requires i < |needs|
    ensures Needed(needs[..i + 1]) == Needed(needs[..i]) + (if needs[i] then 1 else 0)
  {
    if i == 0 {
      assert needs[..1][1..] == [] && needs[..0] == [];
    } else {
      NeededSnoc(needs[1..], i - 1);
      assert needs[..i + 1][1..] == needs[1..][..i] && needs[..i][1..] == needs[1..][..i - 1];
    }
  }

  /** The padding loop with its gradient counter. */
  method PadGradients<T>(needs: seq<bool>, grads: seq<Option<T>>) returns (r: seq<Option<T>>)
    requires |grads| == Needed(needs)
    ensures r == Pad(needs, grads)
  {
    r := [];
    var next := 0;
    ghost var goal := Pad(needs, grads);
    for i := 0 to |needs|
      invariant next == Needed(needs[..i])
      invariant r == goal[..i]
    {
      PadAt(needs, grads, i);
      NeededSnoc(needs, i);
      assert goal[..i + 1] == goal[..i] + [goal[i]];
      if needs[i] {
        r := r + [grads[next]];
        next := next + 1;
      } else {
        r := r + [None];
      }
    }
    assert goal[..|needs|] == goal;
  }

  function Reversed<T>(s: seq<T>): (r: seq<T>)
    ensures |r| == |s| && forall i :: 0 <= i < |s| ==> r[i] == s[|s| - 1 - i]
  {
    seq(|s|, i requires 0 <= i < |s| => s[|s| - 1 - i])
  }

  /** Capture of the backward graphs: last callable first, results reversed at the end, so that
      position i belongs to callable i. `computed[i]` are the gradients autograd returns for
      callable i. */
  method CaptureBackward<T>(needs: seq<seq<bool>>, computed: seq<seq<Option<T>>>) returns (order: seq<nat>, r: seq<seq<Option<T>>>)
    requires |needs| == |computed| && forall i :: 0 <= i < |needs| ==> |computed[i]| == Needed(needs[i])
    ensures |order| == |needs| && forall j :: 0 <= j < |order| ==> order[j] == |needs| - 1 - j
    ensures |r| == |needs| && forall i :: 0 <= i < |needs| ==> r[i] == Pad(needs[i], computed[i])
  {
    var n := |needs|;
    var surfaces, gradients := Reversed(needs), Reversed(computed);
    order, r := [], [];
    for j := 0 to n
      invariant |order| == j && forall h :: 0 <= h < j ==> order[h] == n - 1 - h
      invariant |r| == j && forall h :: 0 <= h < j ==> r[h] == Pad(needs[n - 1 - h], computed[n - 1 - h])
    {
      var padded := PadGradients(surfaces[j], gradients[j]);
      order := order + [n - 1 - j];
      r := r + [padded];
    }
    r := Reversed(r);
  }
}
