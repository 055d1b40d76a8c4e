module BlockPe {
  // A basic block decoupled into a predicated processing element (PE).
  //
  // The main kernel keeps the control flow of the loop: per execution of the block it writes
  // the predicate EXECUTE and the block's operand, on a speculated path that misses the block
  // the predicate POISON, and at loop exit RESET or EXIT.  The recurrence lives in the PE: its
  // initial value is written before the loop and its final value is read after it.  With
  // RESET the loop may run many times, and at function exit one dummy value is exchanged so
  // that the PE can terminate.
  //
  // The result: for every number of loop runs, every predicate sequence and every body, all
  // interleavings give the recurrence values of the sequential loops, nothing blocks for
  // ever, and all pipes end empty; and the PE enters its block once for every executed
  // iteration and its poison block once for every poisoned one, in program order.

  datatype Predicate = EXECUTE | RESET | EXIT | POISON

  /** What a loop iteration does about the block. */
  datatype Iteration = Runs | Poisons | Skips

  /** `initial` and `operand` may depend on the results of earlier runs; `body` is what the
      block does to the recurrence. */
  datatype Program = Program(
    runs: seq<seq<Iteration>>,
    initial: (nat, seq<int>) -> int,
    operand: (nat, nat, seq<int>) -> int,
    body: (int, int) -> int,
    reset: bool, exitFirst: bool, dummy: int)

  /** Without RESET the PE exits with the loop, so there is exactly one run. */
  ghost predicate Allowed(p: Program)
  {
    p.reset || |p.runs| == 1
  }

  // --------------------------------------------------------------- sequential reference

  /** The recurrence after iterations `i` and later of run `j`. */
  function LoopFrom(p: Program, j: nat, i: nat, results: seq<int>, v: int): int
    requires j < |p.runs| && i <= |p.runs[j]|
    decreases |p.runs[j]| - i
  {
    if i == |p.runs[j]| then v
    else LoopFrom(p, j, i + 1, results, if p.runs[j][i].Runs? then p.body(v, p.operand(j, i, results)) else v)
  }

  /** The recurrence values of the first `j` loop runs. */
  function Sequential(p: Program, j: nat): (r: seq<int>)
    requires j <= |p.runs|
    ensures |r| == j
  {
    if j == 0 then []
    else
      var earlier := Sequential(p, j - 1);
      earlier + [LoopFrom(p, j - 1, 0, earlier, p.initial(j - 1, earlier))]
  }

  /** The blocks of the PE that can be entered from its header and lead back there. */
  datatype Entry = IntoBody | IntoPoison

  function EntriesOf(iteration: Iteration): seq<Entry>
  {
    match iteration case Runs => [IntoBody] case Poisons => [IntoPoison] case Skips => []
  }

  /** The entries that iterations `i` and later of a run stand for. */
  function EntriesFrom(run: seq<Iteration>, i: nat): seq<Entry>
    requires i <= |run|
    decreases |run| - i
  {
    if i == |run| then [] else EntriesOf(run[i]) + EntriesFrom(run, i + 1)
  }

  /** Those of the first `j` runs. */
  function EntriesUpTo(p: Program, j: nat): seq<Entry>
    requires j <= |p.runs|
  {
    if j == 0 then [] else EntriesUpTo(p, j - 1) + EntriesFrom(p.runs[j - 1], 0)
  }

  // --------------------------------------------------------------------- the main kernel

  datatype Action = WriteInput(value: int) | WritePredicate(code: Predicate) | WriteOperand(value: int) | ReadOutput

  function OneIteration(p: Program, j: nat, i: nat, results: seq<int>): seq<Action>
    requires j < |p.runs| && i < |p.runs[j]|
  {
    match p.runs[j][i]
    case Runs => [WritePredicate(EXECUTE), WriteOperand(p.operand(j, i, results))]
    case Poisons => [WritePredicate(POISON)]
    case Skips => []
  }

  function Iterations(p: Program, j: nat, i: nat, results: seq<int>): seq<Action>
    requires j < |p.runs| && i <= |p.runs[j]|
    decreases |p.runs[j]| - i
  {
    if i == |p.runs[j]| then [] else OneIteration(p, j, i, results) + Iterations(p, j, i + 1, results)
  }

  /** How many stretches of pipe operations there are: the loop runs and, with RESET, the
      exchange at function exit. */
  function Stretches(p: Program): nat
  {
    |p.runs| + if p.reset then 1 else 0
  }

  function Terminator(p: Program, j: nat): Predicate
  {
    if p.reset && j < |p.runs| then RESET else EXIT
  }

  /** The pipe operations of stretch `j`, in the order of the generated code. */
  function Actions(p: Program, j: nat, results: seq<int>): seq<Action>
  {
    if j < |p.runs| then
      [WriteInput(p.initial(j, results))] + Iterations(p, j, 0, results) + [WritePredicate(Terminator(p, j)), ReadOutput]
    else if j < Stretches(p) then
      (if p.exitFirst then [WritePredicate(EXIT), WriteInput(p.dummy)] else [WriteInput(p.dummy), WritePredicate(EXIT)])
      + [ReadOutput]
    else []
  }

  // -------------------------------------------------------------------- the two processes

  datatype Pe = PreHeader | Header(v: int) | Body(v: int) | Exiting(v: int, last: Predicate) | Finished

  datatype Capacity = Capacity(input: nat, predicates: nat, operands: nat, output: nat)

  /** `entered` lists the blocks the PE has entered so far. */
  datatype System = System(
    stretch: nat, todo: seq<Action>, results: seq<int>, pe: Pe,
    input: seq<int>, predicates: seq<Predicate>, operands: seq<int>, output: seq<int>, entered: seq<Entry>)

  predicate MainReady(c: Capacity, y: System)
  {
    y.todo != [] &&
    match y.todo[0]
    case WriteInput(_) => |y.input| < c.input
    case WritePredicate(_) => |y.predicates| < c.predicates
    case WriteOperand(_) => |y.operands| < c.operands
    case ReadOutput => y.output != []
  }

  function MainStep(p: Program, c: Capacity, y: System): System
    requires MainReady(c, y)
  {
    match y.todo[0]
    case WriteInput(v) => y.(todo := y.todo[1..], input := y.input + [v])
    case WritePredicate(e) => y.(todo := y.todo[1..], predicates := y.predicates + [e])
    case WriteOperand(v) => y.(todo := y.todo[1..], operands := y.operands + [v])
    case ReadOutput =>
      var results := if y.stretch < |p.runs| then y.results + [y.output[0]] else y.results;
      y.(stretch := y.stretch + 1, todo := y.todo[1..] + Actions(p, y.stretch + 1, results), results := results,
         output := y.output[1..])
  }

  predicate PeReady(c: Capacity, y: System)
  {
    match y.pe
    case PreHeader => y.input != []
    case Header(_) => y.predicates != []
    case Body(_) => y.operands != []
    case Exiting(_, _) => |y.output| < c.output
    case Finished => false
  }

  function EntryOf(e: Predicate): seq<Entry>
  {
    match e case EXECUTE => [IntoBody] case POISON => [IntoPoison] case _ => []
  }

  function PeStep(p: Program, c: Capacity, y: System): System
    requires PeReady(c, y)
  {
    match y.pe
    case PreHeader => y.(pe := Header(y.input[0]), input := y.input[1..])
    case Header(v) =>
      var e := y.predicates[0];
      y.(predicates := y.predicates[1..], entered := y.entered + EntryOf(e),
         pe := match e case EXECUTE => Body(v) case POISON => Header(v) case RESET => Exiting(v, e) case EXIT => Exiting(v, e))
    case Body(v) => y.(pe := Header(p.body(v, y.operands[0])), operands := y.operands[1..])
    case Exiting(v, last) => y.(pe := if last == RESET then PreHeader else Finished, output := y.output + [v])
  }

  ghost predicate Next(p: Program, c: Capacity, y: System, z: System)
  {
    || (MainReady(c, y) && z == MainStep(p, c, y))
    || (PeReady(c, y) && z == PeStep(p, c, y))
  }

  function Start(p: Program): System
  {
    System(0, Actions(p, 0, []), [], PreHeader, [], [], [], [], [])
  }

  // ------------------------------------------------------------ what the PE will deliver

  function Inputs(todo: seq<Action>): seq<int>
  {
    if todo == [] then [] else (if todo[0].WriteInput? then [todo[0].value] else []) + Inputs(todo[1..])
  }

  function Predicates(todo: seq<Action>): seq<Predicate>
  {
    if todo == [] then [] else (if todo[0].WritePredicate? then [todo[0].code] else []) + Predicates(todo[1..])
  }

  function Operands(todo: seq<Action>): seq<int>
  {
    if todo == [] then [] else (if todo[0].WriteOperand? then [todo[0].value] else []) + Operands(todo[1..])
  }

  /** From header with value `v`, consuming exactly these predicates and operands, the PE
      gets to its exit with value `result` because of predicate `last`. */
  ghost predicate Delivers(p: Program, v: int, predicates: seq<Predicate>, operands: seq<int>, result: int, last: Predicate)
    decreases |predicates|
  {
    predicates != [] &&
    match predicates[0]
    case EXECUTE => operands != [] && Delivers(p, p.body(v, operands[0]), predicates[1..], operands[1..], result, last)
    case POISON => Delivers(p, v, predicates[1..], operands, result, last)
    case _ => |predicates| == 1 && operands == [] && v == result && predicates[0] == last
  }

  /** What stretch `j` must deliver. */
  function Expected(p: Program, j: nat): int
  {
    if j < |p.runs| then Sequential(p, j + 1)[j] else p.dummy
  }

  /** Every EXECUTE is directly followed by its operand, and ReadOutput ends the stretch. */
  ghost predicate WellPaired(todo: seq<Action>)
  {
    todo == [] ||
    if todo[0].ReadOutput? then |todo| == 1
    else if todo[0].WriteOperand? then false
    else if todo[0] == WritePredicate(EXECUTE) then |todo| > 2 && todo[1].WriteOperand? && WellPaired(todo[2..])
    else |todo| > 1 && WellPaired(todo[1..])
  }

  /** The same, allowing for one operand still to be written. */
  ghost predicate InStep(todo: seq<Action>)
  {
    if todo != [] && todo[0].WriteOperand? then |todo| > 1 && WellPaired(todo[1..]) else WellPaired(todo)
  }

  function Executes(predicates: seq<Predicate>): nat
  {
    if predicates == [] then 0 else (if predicates[0].EXECUTE? then 1 else 0) + Executes(predicates[1..])
  }

  lemma {:induction false} ExecutesAppend(s: seq<Predicate>, e: Predicate)
    ensures Executes(s + [e]) == Executes(s) + if e.EXECUTE? then 1 else 0
  {
    if s == [] {
      assert (s + [e])[1..] == [];
    } else {
      assert (s + [e])[1..] == s[1..] + [e];
      ExecutesAppend(s[1..], e);
    }
  }

  /** The PE's share of a stretch: what it has read, plus the inputs, predicates and operands
      it still gets, makes up the expected result. */
  ghost predicate Owes(p: Program, pe: Pe, inputs: seq<int>, predicates: seq<Predicate>, operands: seq<int>,
                       output: seq<int>, result: int, last: Predicate)
  {
    if output != [] then
      && output == [result] && inputs == [] && predicates == [] && operands == []
      && pe == (if last == RESET then PreHeader else Finished)
    else
      match pe
      case PreHeader => |inputs| == 1 && Delivers(p, inputs[0], predicates, operands, result, last)
      case Header(v) => inputs == [] && Delivers(p, v, predicates, operands, result, last)
      case Body(v) =>
        inputs == [] && operands != [] && Delivers(p, p.body(v, operands[0]), predicates, operands[1..], result, last)
      case Exiting(v, l) => inputs == [] && predicates == [] && operands == [] && v == result && l == last
      case Finished => false
  }

  ghost predicate PeConsistent(p: Program, y: System)
  {
    Owes(p, y.pe, y.input + Inputs(y.todo), y.predicates + Predicates(y.todo), y.operands + Operands(y.todo),
      y.output, Expected(p, y.stretch), Terminator(p, y.stretch))
  }

  /** No operand is missing or spare, and the input comes first where the PE waits for it. */
  ghost predicate Aligned(y: System)
  {
    && y.todo != [] && y.todo[|y.todo| - 1] == ReadOutput && InStep(y.todo)
    && Executes(y.predicates) + (if y.pe.Body? then 1 else 0) == |y.operands| + (if y.todo[0].WriteOperand? then 1 else 0)
    && (Inputs(y.todo) != [] && !y.todo[0].WriteInput? ==>
          |y.todo| > 1 && y.todo[1].WriteInput? && y.todo[0].WritePredicate? && y.predicates == [])
  }

  ghost predicate Invariant(p: Program, y: System)
  {
    && y.stretch <= Stretches(p)
    && y.results == Sequential(p, if y.stretch < |p.runs| then y.stretch else |p.runs|)
    && (if y.stretch == Stretches(p) then
          && y.todo == [] && y.pe == Finished
          && y.input == [] && y.predicates == [] && y.operands == [] && y.output == []
        else
          Aligned(y) && PeConsistent(p, y))
  }

  // -------------------------------------------------------------- the start of a stretch

  lemma FirstAction(a: Action, rest: seq<Action>)
    ensures Inputs([a] + rest) == (if a.WriteInput? then [a.value] else []) + Inputs(rest)
    ensures Predicates([a] + rest) == (if a.WritePredicate? then [a.code] else []) + Predicates(rest)
    ensures Operands([a] + rest) == (if a.WriteOperand? then [a.value] else []) + Operands(rest)
    ensures rest != [] && !a.ReadOutput? && !a.WriteOperand? && a != WritePredicate(EXECUTE) && WellPaired(rest) ==>
      WellPaired([a] + rest)
    ensures rest != [] ==> ([a] + rest)[|rest|] == rest[|rest| - 1]
  {
    assert ([a] + rest)[1..] == rest;
  }

  /** The end of a stretch: the terminating predicate, and the read of the result. */
  lemma EndingDelivers(p: Program, e: Predicate, v: int)
    requires e == RESET || e == EXIT
    ensures var ending := [WritePredicate(e), ReadOutput];
      && WellPaired(ending) && Inputs(ending) == [] && Operands(ending) == [] && Predicates(ending) == [e]
      && Delivers(p, v, [e], [], v, e)
  {
    FirstAction(ReadOutput, []);
    assert [ReadOutput] + [] == [ReadOutput];
    FirstAction(WritePredicate(e), [ReadOutput]);
    assert [WritePredicate(e)] + [ReadOutput] == [WritePredicate(e), ReadOutput];
  }

  /** A tail of a stretch that takes the PE from value `v` to the expected result. */
  ghost predicate Tail(p: Program, tail: seq<Action>, v: int, result: int, last: Predicate)
  {
    && tail != [] && tail[|tail| - 1] == ReadOutput && WellPaired(tail) && Inputs(tail) == []
    && Delivers(p, v, Predicates(tail), Operands(tail), result, last)
  }

  lemma {:induction false} ExecuteIsWhole(rest: seq<Action>, x: int)
    requires rest != [] && WellPaired(rest)
    ensures var tail := [WritePredicate(EXECUTE), WriteOperand(x)] + rest;
      && WellPaired(tail) && tail[|tail| - 1] == rest[|rest| - 1] && Inputs(tail) == Inputs(rest)
      && Predicates(tail) == [EXECUTE] + Predicates(rest) && Operands(tail) == [x] + Operands(rest)
  {
    var a, b := WritePredicate(EXECUTE), WriteOperand(x);
    var tail := [a, b] + rest;
    assert tail == [a] + ([b] + rest) && tail[2..] == rest;
    FirstAction(b, rest);
    FirstAction(a, [b] + rest);
  }

  lemma {:induction false} ExecuteTail(p: Program, rest: seq<Action>, v: int, x: int, result: int, last: Predicate)
    requires Tail(p, rest, p.body(v, x), result, last)
    ensures Tail(p, [WritePredicate(EXECUTE), WriteOperand(x)] + rest, v, result, last)
  {
    var tail := [WritePredicate(EXECUTE), WriteOperand(x)] + rest;
    ExecuteIsWhole(rest, x);
    assert Predicates(tail)[1..] == Predicates(rest) && Operands(tail)[1..] == Operands(rest);
  }

  lemma PoisonTail(p: Program, rest: seq<Action>, v: int, result: int, last: Predicate)
    requires Tail(p, rest, v, result, last)
    ensures Tail(p, [WritePredicate(POISON)] + rest, v, result, last)
  {
    var tail := [WritePredicate(POISON)] + rest;
    FirstAction(WritePredicate(POISON), rest);
    assert Predicates(tail) == [POISON] + Predicates(rest) && Predicates(tail)[1..] == Predicates(rest);
    assert Operands(tail) == Operands(rest) && Inputs(tail) == [];
  }

  /** Iterations `i` and later, followed by the terminator, take the PE to the value that
      the sequential loop ends with. */
  lemma {:induction false} IterationsDeliver(p: Program, j: nat, i: nat, results: seq<int>, v: int)
    requires j < |p.runs| && i <= |p.runs[j]|
    ensures Tail(p, Iterations(p, j, i, results) + [WritePredicate(Terminator(p, j)), ReadOutput], v,
      LoopFrom(p, j, i, results, v), Terminator(p, j))
    decreases |p.runs[j]| - i
  {
    var ending := [WritePredicate(Terminator(p, j)), ReadOutput];
    var tail := Iterations(p, j, i, results) + ending;
    if i == |p.runs[j]| {
      assert tail == ending;
      EndingDelivers(p, Terminator(p, j), v);
    } else {
      var rest := Iterations(p, j, i + 1, results) + ending;
      var w := if p.runs[j][i].Runs? then p.body(v, p.operand(j, i, results)) else v;
      IterationsDeliver(p, j, i + 1, results, w);
      OneDelivers(p, j, i, results, rest, v, LoopFrom(p, j, i, results, v), Terminator(p, j));
      assert tail == OneIteration(p, j, i, results) + rest;
    }
  }

  lemma {:induction false} OneDelivers(p: Program, j: nat, i: nat, results: seq<int>, rest: seq<Action>, v: int,
      result: int, last: Predicate)
    requires j < |p.runs| && i < |p.runs[j]|
    requires Tail(p, rest, if p.runs[j][i].Runs? then p.body(v, p.operand(j, i, results)) else v, result, last)
    ensures Tail(p, OneIteration(p, j, i, results) + rest, v, result, last)
  {
    match p.runs[j][i]
    case Runs =>
      ExecuteTail(p, rest, v, p.operand(j, i, results), result, last);
    case Poisons =>
      PoisonTail(p, rest, v, result, last);
    case Skips =>
      assert [] + rest == rest;
  }

  /** What holds of the operations of a whole stretch. */
  ghost predicate Whole(p: Program, todo: seq<Action>, result: int, last: Predicate)
  {
    && todo != [] && todo[|todo| - 1] == ReadOutput && WellPaired(todo)
    && |Inputs(todo)| == 1 && Delivers(p, Inputs(todo)[0], Predicates(todo), Operands(todo), result, last)
  }

  lemma RunIsWhole(p: Program, j: nat)
    requires j < |p.runs|
    ensures Whole(p, Actions(p, j, Sequential(p, j)), Expected(p, j), Terminator(p, j))
  {
    var results := Sequential(p, j);
    var v := p.initial(j, results);
    var tail := Iterations(p, j, 0, results) + [WritePredicate(Terminator(p, j)), ReadOutput];
    IterationsDeliver(p, j, 0, results, v);
    FirstAction(WriteInput(v), tail);
    assert Actions(p, j, results) == [WriteInput(v)] + tail;
    assert Predicates([WriteInput(v)] + tail) == Predicates(tail) && Operands([WriteInput(v)] + tail) == Operands(tail);
  }

  lemma FarewellIsWhole(p: Program, results: seq<int>)
    requires p.reset
    ensures Whole(p, Actions(p, |p.runs|, results), p.dummy, EXIT)
  {
    var input, ending := WriteInput(p.dummy), [WritePredicate(EXIT), ReadOutput];
    EndingDelivers(p, EXIT, p.dummy);
    if p.exitFirst {
      FirstAction(ReadOutput, []);
      assert [ReadOutput] + [] == [ReadOutput];
      FirstAction(input, [ReadOutput]);
      FirstAction(WritePredicate(EXIT), [input] + [ReadOutput]);
      assert Actions(p, |p.runs|, results) == [WritePredicate(EXIT)] + ([input] + [ReadOutput]);
    } else {
      FirstAction(input, ending);
      assert Actions(p, |p.runs|, results) == [input] + ending;
    }
  }

  /** At the start of a stretch, with all pipes empty, the invariant holds. */
  lemma StretchStarts(p: Program, y: System)
    requires y.stretch < Stretches(p) && y.pe == PreHeader
    requires y.input == [] && y.predicates == [] && y.operands == [] && y.output == []
    requires y.results == Sequential(p, if y.stretch < |p.runs| then y.stretch else |p.runs|)
    requires y.todo == Actions(p, y.stretch, y.results)
    ensures Invariant(p, y)
  {
    if y.stretch < |p.runs| {
      RunIsWhole(p, y.stretch);
    } else {
      FarewellIsWhole(p, y.results);
    }
    assert y.input + Inputs(y.todo) == Inputs(y.todo);
    assert y.predicates + Predicates(y.todo) == Predicates(y.todo);
    assert y.operands + Operands(y.todo) == Operands(y.todo);
  }

  // --------------------------------------------------------------- what every step keeps

  lemma WriteKeepsShape(todo: seq<Action>)
    requires todo != [] && InStep(todo) && !todo[0].ReadOutput?
    ensures |todo| > 1 && InStep(todo[1..])
    ensures todo[1].WriteOperand? <==> todo[0] == WritePredicate(EXECUTE)
  {
    var rest := todo[1..];
    if todo[0] == WritePredicate(EXECUTE) {
      assert rest[1..] == todo[2..];
    } else {
      assert WellPaired(rest);
      assert !rest[0].WriteOperand?;
    }
  }

  lemma Handed<T>(pipe: seq<T>, x: T, rest: seq<T>)
    ensures pipe + ([x] + rest) == (pipe + [x]) + rest
  {
  }

  lemma MainWriteOwes(p: Program, c: Capacity, y: System)
    requires MainReady(c, y) && !y.todo[0].ReadOutput? && PeConsistent(p, y)
    ensures PeConsistent(p, MainStep(p, c, y))
  {
    var rest := y.todo[1..];
    assert y.todo == [y.todo[0]] + rest;
    FirstAction(y.todo[0], rest);
    assert [] + Inputs(rest) == Inputs(rest) && [] + Predicates(rest) == Predicates(rest) && [] + Operands(rest) == Operands(rest);
    match y.todo[0]
    case WriteInput(v) => Handed(y.input, v, Inputs(rest));
    case WritePredicate(e) => Handed(y.predicates, e, Predicates(rest));
    case WriteOperand(v) => Handed(y.operands, v, Operands(rest));
  }

  /** After its input has been written, a stretch has no other input. */
  lemma OneInput(p: Program, y: System)
    requires PeConsistent(p, y) && y.todo != [] && y.todo[0].WriteInput?
    ensures y.input == [] && Inputs(y.todo[1..]) == []
  {
    assert |y.input + Inputs(y.todo)| <= 1;
  }

  lemma MainWriteAligned(p: Program, c: Capacity, y: System)
    requires MainReady(c, y) && !y.todo[0].ReadOutput? && Aligned(y) && PeConsistent(p, y)
    ensures Aligned(MainStep(p, c, y))
  {
    var z := MainStep(p, c, y);
    WriteKeepsShape(y.todo);
    assert z.todo[|z.todo| - 1] == y.todo[|y.todo| - 1];
    if y.todo[0].WritePredicate? {
      ExecutesAppend(y.predicates, y.todo[0].code);
    } else if y.todo[0].WriteInput? {
      OneInput(p, y);
    }
  }

  /** With the result read, the stretch is over and the pipes are empty. */
  lemma {:induction false} StretchEnds(p: Program, y: System)
    requires Aligned(y) && PeConsistent(p, y) && y.todo[0].ReadOutput? && y.output != []
    ensures y.todo == [ReadOutput] && y.output == [Expected(p, y.stretch)]
    ensures y.input == [] && y.predicates == [] && y.operands == []
    ensures y.pe == if Terminator(p, y.stretch) == RESET then PreHeader else Finished
  {
    assert y.todo == [ReadOutput];
    assert |y.input + Inputs(y.todo)| == 0 && |y.predicates + Predicates(y.todo)| == 0 && |y.operands + Operands(y.todo)| == 0;
  }

  lemma {:induction false} MainReadKeeps(p: Program, c: Capacity, y: System)
    requires Allowed(p) && Invariant(p, y) && MainReady(c, y) && y.todo[0].ReadOutput?
    ensures Invariant(p, MainStep(p, c, y))
  {
    StretchEnds(p, y);
    StretchFollows(p, y, c);
  }

  /** Reading the result begins the next stretch. */
  lemma {:induction false} ReadBegins(p: Program, c: Capacity, y: System)
    requires y.todo == [ReadOutput] && |y.output| == 1
    ensures var results := if y.stretch < |p.runs| then y.results + y.output else y.results;
      MainStep(p, c, y) ==
        y.(stretch := y.stretch + 1, todo := Actions(p, y.stretch + 1, results), results := results, output := [])
  {
    assert y.todo[1..] == [] && y.output[1..] == [] && [y.output[0]] == y.output;
  }

  lemma {:induction false} StretchFollows(p: Program, y: System, c: Capacity)
    requires Allowed(p) && y.stretch < Stretches(p)
    requires y.results == Sequential(p, if y.stretch < |p.runs| then y.stretch else |p.runs|)
    requires y.todo == [ReadOutput] && y.output == [Expected(p, y.stretch)]
    requires y.input == [] && y.predicates == [] && y.operands == []
    requires y.pe == if Terminator(p, y.stretch) == RESET then PreHeader else Finished
    ensures Invariant(p, MainStep(p, c, y))
  {
    var z := MainStep(p, c, y);
    ReadBegins(p, c, y);
    ResultsFollow(p, y.stretch, y.results);
    AfterStretch(p, y.stretch, z);
  }

  lemma {:induction false} ResultsFollow(p: Program, j: nat, results: seq<int>)
    requires results == Sequential(p, if j < |p.runs| then j else |p.runs|)
    ensures (if j < |p.runs| then results + [Expected(p, j)] else results) ==
      Sequential(p, if j + 1 < |p.runs| then j + 1 else |p.runs|)
  {
  }

  lemma {:induction false} AfterStretch(p: Program, j: nat, z: System)
    requires Allowed(p) && j < Stretches(p) && z.stretch == j + 1
    requires z.pe == if Terminator(p, j) == RESET then PreHeader else Finished
    requires z.input == [] && z.predicates == [] && z.operands == [] && z.output == []
    requires z.results == Sequential(p, if z.stretch < |p.runs| then z.stretch else |p.runs|)
    requires z.todo == Actions(p, z.stretch, z.results)
    ensures Invariant(p, z)
  {
    if z.stretch < Stretches(p) {
      StretchStarts(p, z);
    }
  }

  lemma {:induction false} PeOwes(p: Program, c: Capacity, y: System)
    requires PeReady(c, y) && PeConsistent(p, y)
    ensures PeConsistent(p, PeStep(p, c, y))
  {
    OwesStep(p, c, y, PeStep(p, c, y), Inputs(y.todo), Predicates(y.todo), Operands(y.todo),
      Expected(p, y.stretch), Terminator(p, y.stretch));
  }

  lemma {:induction false} HeaderOwes(p: Program, v: int, e: Predicate, predicates: seq<Predicate>, operands: seq<int>,
      result: int, last: Predicate)
    requires Owes(p, Header(v), [], [e] + predicates, operands, [], result, last)
    ensures match e
      case EXECUTE => Owes(p, Body(v), [], predicates, operands, [], result, last)
      case POISON => Owes(p, Header(v), [], predicates, operands, [], result, last)
      case _ => Owes(p, Exiting(v, e), [], predicates, operands, [], result, last)
  {
    assert ([e] + predicates)[1..] == predicates;
  }

  lemma {:induction false} BodyOwes(p: Program, v: int, x: int, predicates: seq<Predicate>, operands: seq<int>,
      result: int, last: Predicate)
    requires Owes(p, Body(v), [], predicates, [x] + operands, [], result, last)
    ensures Owes(p, Header(p.body(v, x)), [], predicates, operands, [], result, last)
  {
    assert ([x] + operands)[1..] == operands;
  }

  /** What the PE takes from a pipe it is no longer owed. */
  lemma {:induction false} OwesStep(p: Program, c: Capacity, y: System, z: System, inputs: seq<int>, predicates: seq<Predicate>,
      operands: seq<int>, result: int, last: Predicate)
    requires PeReady(c, y) && z == PeStep(p, c, y)
    requires Owes(p, y.pe, y.input + inputs, y.predicates + predicates, y.operands + operands, y.output, result, last)
    ensures Owes(p, z.pe, z.input + inputs, z.predicates + predicates, z.operands + operands, z.output, result, last)
  {
    match y.pe
    case PreHeader =>
      assert y.input + inputs == [y.input[0]] + (z.input + inputs);
    case Header(v) =>
      assert y.predicates + predicates == [y.predicates[0]] + (z.predicates + predicates);
      HeaderOwes(p, v, y.predicates[0], z.predicates + predicates, y.operands + operands, result, last);
    case Body(v) =>
      assert y.operands + operands == [y.operands[0]] + (z.operands + operands);
      BodyOwes(p, v, y.operands[0], y.predicates + predicates, z.operands + operands, result, last);
    case Exiting(v, e) =>
  }

  lemma {:induction false} PeAligned(p: Program, c: Capacity, y: System)
    requires Aligned(y) && PeReady(c, y)
    requires Inputs(y.todo) != [] && !y.todo[0].WriteInput? ==> y.pe == PreHeader
    ensures Aligned(PeStep(p, c, y))
  {
  }

  /** A stretch with its input still to be written has the PE waiting for it. */
  lemma {:induction false} WaitsForInput(p: Program, y: System)
    requires PeConsistent(p, y) && Inputs(y.todo) != []
    ensures y.pe == PreHeader
  {
    assert |y.input + Inputs(y.todo)| > 0;
  }

  lemma {:induction false} PeKeeps(p: Program, c: Capacity, y: System)
    requires Invariant(p, y) && PeReady(c, y)
    ensures Invariant(p, PeStep(p, c, y))
  {
    PeOwes(p, c, y);
    if Inputs(y.todo) != [] {
      WaitsForInput(p, y);
    }
    PeAligned(p, c, y);
  }

  lemma NextKeeps(p: Program, c: Capacity, y: System, z: System)
    requires Allowed(p) && Invariant(p, y) && Next(p, c, y, z)
    ensures Invariant(p, z)
  {
    if MainReady(c, y) && z == MainStep(p, c, y) {
      if y.todo[0].ReadOutput? {
        MainReadKeeps(p, c, y);
      } else {
        MainWriteOwes(p, c, y);
        MainWriteAligned(p, c, y);
      }
    } else {
      PeKeeps(p, c, y);
    }
  }

  // -------------------------------------------------------------- the blocks it enters

  function Entries(predicates: seq<Predicate>): seq<Entry>
  {
    if predicates == [] then [] else EntryOf(predicates[0]) + Entries(predicates[1..])
  }

  function RunsBegun(p: Program, stretch: nat): nat
  {
    if stretch < |p.runs| then stretch + 1 else |p.runs|
  }

  /** What the PE has entered and what it is going to enter make up the iterations of the runs
      begun so far. */
  ghost predicate Logged(p: Program, y: System)
  {
    y.entered + Entries(y.predicates + Predicates(y.todo)) == EntriesUpTo(p, RunsBegun(p, y.stretch))
  }

  lemma EntriesOfWrites(e: Predicate, rest: seq<Action>)
    ensures Entries(Predicates([WritePredicate(e)] + rest)) == EntryOf(e) + Entries(Predicates(rest))
  {
    FirstAction(WritePredicate(e), rest);
    assert ([e] + Predicates(rest))[1..] == Predicates(rest);
  }

  lemma EntriesOfOthers(a: Action, rest: seq<Action>)
    requires !a.WritePredicate?
    ensures Predicates([a] + rest) == Predicates(rest)
  {
    FirstAction(a, rest);
    assert [] + Predicates(rest) == Predicates(rest);
  }

  lemma EndingEnters(e: Predicate)
    requires e == RESET || e == EXIT
    ensures Entries(Predicates([WritePredicate(e), ReadOutput])) == []
  {
    EntriesOfWrites(e, [ReadOutput]);
    EntriesOfOthers(ReadOutput, []);
    assert [WritePredicate(e)] + [ReadOutput] == [WritePredicate(e), ReadOutput] && [ReadOutput] + [] == [ReadOutput];
  }

  lemma ExecuteEnters(x: int, rest: seq<Action>)
    ensures Entries(Predicates([WritePredicate(EXECUTE), WriteOperand(x)] + rest)) == [IntoBody] + Entries(Predicates(rest))
  {
    EntriesOfWrites(EXECUTE, [WriteOperand(x)] + rest);
    EntriesOfOthers(WriteOperand(x), rest);
    assert [WritePredicate(EXECUTE), WriteOperand(x)] + rest == [WritePredicate(EXECUTE)] + ([WriteOperand(x)] + rest);
  }

  lemma {:induction false} OneEnters(p: Program, j: nat, i: nat, results: seq<int>, rest: seq<Action>)
    requires j < |p.runs| && i < |p.runs[j]|
    ensures Entries(Predicates(OneIteration(p, j, i, results) + rest)) == EntriesOf(p.runs[j][i]) + Entries(Predicates(rest))
  {
    match p.runs[j][i]
    case Runs =>
      ExecuteEnters(p.operand(j, i, results), rest);
    case Poisons =>
      EntriesOfWrites(POISON, rest);
    case Skips =>
      assert [] + rest == rest;
  }

  /** One predicate for each iteration that is executed or poisoned. */
  lemma {:induction false} IterationsEnter(p: Program, j: nat, i: nat, results: seq<int>)
    requires j < |p.runs| && i <= |p.runs[j]|
    ensures Entries(Predicates(Iterations(p, j, i, results) + [WritePredicate(Terminator(p, j)), ReadOutput])) ==
      EntriesFrom(p.runs[j], i)
    decreases |p.runs[j]| - i
  {
    var ending := [WritePredicate(Terminator(p, j)), ReadOutput];
    var tail := Iterations(p, j, i, results) + ending;
    if i == |p.runs[j]| {
      assert tail == ending;
      EndingEnters(Terminator(p, j));
    } else {
      var rest := Iterations(p, j, i + 1, results) + ending;
      IterationsEnter(p, j, i + 1, results);
      OneEnters(p, j, i, results, rest);
      assert tail == OneIteration(p, j, i, results) + rest;
    }
  }

  /** The operations of a stretch stand for the iterations of its run. */
  lemma {:induction false} ActionsEnter(p: Program, j: nat, results: seq<int>)
    ensures Entries(Predicates(Actions(p, j, results))) == if j < |p.runs| then EntriesFrom(p.runs[j], 0) else []
  {
    if j < |p.runs| {
      var tail := Iterations(p, j, 0, results) + [WritePredicate(Terminator(p, j)), ReadOutput];
      IterationsEnter(p, j, 0, results);
      EntriesOfOthers(WriteInput(p.initial(j, results)), tail);
      assert Actions(p, j, results) == [WriteInput(p.initial(j, results))] + tail;
    } else if j < Stretches(p) {
      FarewellEnters(p, results);
    }
  }

  lemma {:induction false} FarewellEnters(p: Program, results: seq<int>)
    requires p.reset
    ensures Entries(Predicates(Actions(p, |p.runs|, results))) == []
  {
    var input, ending := WriteInput(p.dummy), [WritePredicate(EXIT), ReadOutput];
    EndingEnters(EXIT);
    if p.exitFirst {
      EntriesOfWrites(EXIT, [input] + [ReadOutput]);
      EntriesOfWrites(EXIT, [ReadOutput]);
      EntriesOfOthers(input, [ReadOutput]);
      assert ending == [WritePredicate(EXIT)] + [ReadOutput];
      assert Actions(p, |p.runs|, results) == [WritePredicate(EXIT)] + ([input] + [ReadOutput]);
    } else {
      EntriesOfOthers(input, ending);
      assert Actions(p, |p.runs|, results) == [input] + ending;
    }
  }

  lemma {:induction false} StartIsLogged(p: Program)
    requires Allowed(p)
    ensures Logged(p, Start(p))
  {
    ActionsEnter(p, 0, []);
    var y := Start(p);
    assert y.predicates + Predicates(y.todo) == Predicates(y.todo);
    assert RunsBegun(p, 0) == 1 ==> EntriesUpTo(p, 1) == EntriesUpTo(p, 0) + EntriesFrom(p.runs[0], 0);
    assert [] + Entries(Predicates(y.todo)) == Entries(Predicates(y.todo));
  }

  lemma {:induction false} WriteKeepsLogged(p: Program, c: Capacity, y: System)
    requires MainReady(c, y) && !y.todo[0].ReadOutput? && Logged(p, y)
    ensures Logged(p, MainStep(p, c, y))
  {
    var rest := y.todo[1..];
    assert y.todo == [y.todo[0]] + rest;
    FirstAction(y.todo[0], rest);
    assert [] + Predicates(rest) == Predicates(rest);
    if y.todo[0].WritePredicate? {
      Handed(y.predicates, y.todo[0].code, Predicates(rest));
    }
  }

  lemma {:induction false} ReadKeepsLogged(p: Program, c: Capacity, y: System)
    requires y.todo == [ReadOutput] && |y.output| == 1 && y.predicates == [] && Logged(p, y)
    ensures Logged(p, MainStep(p, c, y))
  {
    ReadBegins(p, c, y);
    AllEntered(p, y);
    StretchIsLogged(p, MainStep(p, c, y));
  }

  /** At the start of a stretch, with all entries of the earlier ones made. */
  lemma {:induction false} StretchIsLogged(p: Program, z: System)
    requires z.stretch > 0 && z.todo == Actions(p, z.stretch, z.results) && z.predicates == []
    requires z.entered == EntriesUpTo(p, RunsBegun(p, z.stretch - 1))
    ensures Logged(p, z)
  {
    var todo := z.todo;
    ActionsEnter(p, z.stretch, z.results);
    RunBegins(p, z.stretch);
    assert z.predicates + Predicates(todo) == Predicates(todo);
  }

  lemma {:induction false} RunBegins(p: Program, j: nat)
    requires j > 0
    ensures EntriesUpTo(p, RunsBegun(p, j)) ==
      EntriesUpTo(p, RunsBegun(p, j - 1)) + if j < |p.runs| then EntriesFrom(p.runs[j], 0) else []
  {
  }

  /** With nothing left to write and the predicate pipe empty, all entries have been made. */
  lemma {:induction false} AllEntered(p: Program, y: System)
    requires (y.todo == [] || y.todo == [ReadOutput]) && y.predicates == [] && Logged(p, y)
    ensures y.entered == EntriesUpTo(p, RunsBegun(p, y.stretch))
  {
    assert y.predicates + Predicates(y.todo) == [];
    assert y.entered + [] == y.entered;
  }

  lemma {:induction false} PeKeepsLogged(p: Program, c: Capacity, y: System)
    requires PeReady(c, y) && Logged(p, y)
    ensures Logged(p, PeStep(p, c, y))
  {
    var z := PeStep(p, c, y);
    if y.pe.Header? {
      TakeEnters(y.entered, y.predicates, Predicates(y.todo));
    } else {
      assert z.entered == y.entered && z.predicates == y.predicates && z.todo == y.todo;
    }
  }

  lemma TakeEnters(entered: seq<Entry>, pipe: seq<Predicate>, rest: seq<Predicate>)
    requires pipe != []
    ensures entered + EntryOf(pipe[0]) + Entries(pipe[1..] + rest) == entered + Entries(pipe + rest)
  {
    assert (pipe + rest)[1..] == pipe[1..] + rest;
  }

  lemma {:induction false} NextKeepsLogged(p: Program, c: Capacity, y: System, z: System)
    requires Invariant(p, y) && Logged(p, y) && Next(p, c, y, z)
    ensures Logged(p, z)
  {
    if MainReady(c, y) && z == MainStep(p, c, y) {
      if y.todo[0].ReadOutput? {
        StretchEnds(p, y);
        ReadKeepsLogged(p, c, y);
      } else {
        WriteKeepsLogged(p, c, y);
      }
    } else {
      PeKeepsLogged(p, c, y);
    }
  }

  lemma {:induction false} EntriesGrow(p: Program, j: nat, k: nat)
    requires j <= k <= |p.runs|
    ensures EntriesUpTo(p, j) <= EntriesUpTo(p, k)
  {
    if j < k {
      EntriesGrow(p, j, k - 1);
    }
  }

  /** At every moment: the blocks entered are the first of those the iterations stand for. */
  lemma {:induction false} LoggedIsPrefix(p: Program, y: System)
    requires Logged(p, y)
    ensures y.entered <= EntriesUpTo(p, |p.runs|)
  {
    EntriesGrow(p, RunsBegun(p, y.stretch), |p.runs|);
  }

  // ------------------------------------------------------------- progress and termination

  ghost predicate Final(p: Program, y: System)
  {
    y.stretch == Stretches(p)
  }

  /** Neither process blocks for ever: until the end, one of them can move. */
  lemma SomeoneMoves(p: Program, c: Capacity, y: System)
    requires c.input >= 1 && c.predicates >= 1 && c.operands >= 1 && c.output >= 1
    requires Invariant(p, y) && !Final(p, y)
    ensures MainReady(c, y) || PeReady(c, y)
  {
    if !MainReady(c, y) {
      match y.todo[0]
      case WriteInput(_) =>
        OneInput(p, y);
      case WriteOperand(_) =>
      case WritePredicate(_) =>
        ReaderMoves(p, c, y);
      case ReadOutput =>
        assert y.todo[1..] == [];
        ReaderMoves(p, c, y);
    }
  }

  /** With the main kernel waiting for the PE, what the PE waits for has been sent. */
  lemma ReaderMoves(p: Program, c: Capacity, y: System)
    requires c.predicates >= 1 && c.output >= 1 && Aligned(y) && PeConsistent(p, y) && !MainReady(c, y)
    requires y.todo[0].WritePredicate? || y.todo[0].ReadOutput?
    ensures PeReady(c, y)
  {
    if y.todo[0].ReadOutput? {
      assert y.todo[1..] == [];
      assert y.predicates + Predicates(y.todo) == y.predicates;
    }
  }

  /** A bound on the steps left in the current stretch. */
  function Measure(y: System): nat
  {
    3 * |y.todo| + 2 * (|y.input| + |y.predicates| + |y.operands|) + if y.pe.Exiting? then 1 else 0
  }

  /** A bound on the steps of the stretches from `j` on. */
  function Budget(p: Program, j: nat): nat
    decreases Stretches(p) - j
  {
    if j >= Stretches(p) then 0
    else 3 * (if j < |p.runs| then 2 * |p.runs[j]| + 3 else 3) + Budget(p, j + 1)
  }

  lemma {:induction false} IterationsLength(p: Program, j: nat, i: nat, results: seq<int>)
    requires j < |p.runs| && i <= |p.runs[j]|
    ensures |Iterations(p, j, i, results)| <= 2 * (|p.runs[j]| - i)
    decreases |p.runs[j]| - i
  {
    if i < |p.runs[j]| {
      IterationsLength(p, j, i + 1, results);
    }
  }

  function Total(p: Program, y: System): nat
  {
    Measure(y) + Budget(p, y.stretch + 1)
  }

  lemma WriteDecreases(p: Program, c: Capacity, y: System)
    requires MainReady(c, y) && !y.todo[0].ReadOutput?
    ensures Total(p, MainStep(p, c, y)) < Total(p, y)
  {
  }

  lemma PeDecreases(p: Program, c: Capacity, y: System)
    requires PeReady(c, y)
    ensures Total(p, PeStep(p, c, y)) < Total(p, y)
  {
  }

  lemma ActionsFitBudget(p: Program, j: nat, results: seq<int>)
    ensures 3 * |Actions(p, j, results)| + Budget(p, j + 1) <= Budget(p, j)
  {
    if j < |p.runs| {
      IterationsLength(p, j, 0, results);
    }
  }

  lemma ReadDecreases(p: Program, c: Capacity, y: System)
    requires MainReady(c, y) && y.todo == [ReadOutput]
    ensures Total(p, MainStep(p, c, y)) < Total(p, y)
  {
    var z := MainStep(p, c, y);
    assert z.todo == Actions(p, z.stretch, z.results);
    ActionsFitBudget(p, z.stretch, z.results);
  }

  /** Every step uses up a part of a fixed budget. */
  lemma StepsDecrease(p: Program, c: Capacity, y: System, z: System)
    requires Invariant(p, y) && Next(p, c, y, z)
    ensures Total(p, z) < Total(p, y)
  {
    if MainReady(c, y) && z == MainStep(p, c, y) {
      if y.todo[0].ReadOutput? {
        assert y.todo == [ReadOutput];
        ReadDecreases(p, c, y);
      } else {
        WriteDecreases(p, c, y);
      }
    } else {
      PeDecreases(p, c, y);
    }
  }

  ghost predicate Run(p: Program, c: Capacity, run: seq<System>)
  {
    && run != [] && run[0] == Start(p)
    && forall i :: 0 <= i < |run| - 1 ==> Next(p, c, run[i], run[i + 1])
  }

  lemma StartHolds(p: Program)
    requires Allowed(p)
    ensures Invariant(p, Start(p))
  {
    if Stretches(p) > 0 {
      StretchStarts(p, Start(p));
    }
  }

  lemma {:induction false} RunKeeps(p: Program, c: Capacity, run: seq<System>, i: nat)
    requires Allowed(p) && Run(p, c, run) && i < |run|
    ensures Invariant(p, run[i]) && Logged(p, run[i])
  {
    if i == 0 {
      StartHolds(p);
      StartIsLogged(p);
    } else {
      RunKeeps(p, c, run, i - 1);
      assert Next(p, c, run[i - 1], run[i - 1 + 1]);
      NextKeeps(p, c, run[i - 1], run[i]);
      NextKeepsLogged(p, c, run[i - 1], run[i]);
    }
  }

  /** No interleaving goes on for ever. */
  lemma {:induction false} RunsEnd(p: Program, c: Capacity, run: seq<System>)
    requires Allowed(p) && Run(p, c, run)
    ensures |run| + Total(p, run[|run| - 1]) <= 1 + Total(p, Start(p))
    decreases |run|
  {
    var n := |run| - 1;
    if n > 0 {
      RunsEnd(p, c, run[..n]);
      RunKeeps(p, c, run, n - 1);
      assert Next(p, c, run[n - 1], run[n - 1 + 1]);
      StepsDecrease(p, c, run[n - 1], run[n]);
    }
  }

  /** In every interleaving the results read so far are those of the sequential loops, and the
      PE has entered its block and its poison block as the iterations say, in order; a run that
      cannot go on has all results and all entries, the PE has finished, and every pipe is empty. */
  lemma RunsAgree(p: Program, c: Capacity, run: seq<System>)
    requires c.input >= 1 && c.predicates >= 1 && c.operands >= 1 && c.output >= 1
    requires Allowed(p) && Run(p, c, run)
    ensures var y := run[|run| - 1];
      && |y.results| <= |p.runs| && y.results == Sequential(p, |y.results|)
      && y.entered <= EntriesUpTo(p, |p.runs|)
      && (!(exists z :: Next(p, c, y, z)) ==>
            && y.results == Sequential(p, |p.runs|) && y.pe == Finished
            && y.entered == EntriesUpTo(p, |p.runs|)
            && y.input == [] && y.predicates == [] && y.operands == [] && y.output == [])
  {
    var y := run[|run| - 1];
    RunKeeps(p, c, run, |run| - 1);
    LoggedIsPrefix(p, y);
    if !Final(p, y) {
      SomeoneMoves(p, c, y);
      if MainReady(c, y) {
        assert Next(p, c, y, MainStep(p, c, y));
      } else {
        assert Next(p, c, y, PeStep(p, c, y));
      }
    } else {
      FinalIsLogged(p, y);
    }
  }

  lemma {:induction false} FinalIsLogged(p: Program, y: System)
    requires Invariant(p, y) && Logged(p, y) && Final(p, y)
    ensures y.entered == EntriesUpTo(p, |p.runs|)
  {
    AllEntered(p, y);
  }
}
