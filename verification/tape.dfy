/**
 * The instruction tape of a memory layout: a program of read, write,
 * arithmetic and jump instructions over the fields of a layout, run with a
 * program counter under a bound on the number of steps.
 *
 * Fields are referred to by their index in the layout.  A field's current
 * value is an int; a bit or var inside arrays also has a backing memory
 * whose elements hold the low min(width, 31) bits of what was written.
 */
module Tape {
  import opened Wrappers
  import opened Bits
  import Layout

  /** What the machine needs of a field: whether it is a bit or a var, its width, and its dimensions. */
  datatype Cell = Cell(spacer: bool, width: nat, dimReps: seq<nat>)

  /** The machine's view of the fields of a parsed layout. */
  function Cells(fs: seq<Layout.Field>): (r: seq<Cell>)
    requires Layout.DimsValid(fs)
    ensures |r| == |fs|
    ensures forall k :: 0 <= k < |fs| ==>
      r[k].spacer == fs[k].Spacer() && r[k].width == fs[k].RepOf() && |r[k].dimReps| == |fs[k].dimensions|
  {
    seq(|fs|, k requires 0 <= k < |fs| => Cell(fs[k].Spacer(), fs[k].RepOf(), Layout.DimReps(fs, k)))
  }

  datatype Instr =
    | ReadAt(f: nat, index: int)                          // load element `index` of f's memory into f
    | ReadFrom(f: nat, indices: seq<nat>)                 // load the element the index fields select
    | Write(f: nat, value: int)                           // set f's current value only
    | WriteAt(f: nat, value: int, index: int)             // set f and element `index` of its memory
    | WriteFrom(f: nat, source: nat, indices: seq<nat>)   // set f and the selected element from a source field
    | Add(f: nat, sources: seq<nat>)                      // zero, copy or sum into f (a move is an add of one)
    | Inc(f: nat)
    | Dec(f: nat)
    | Goto(target: nat)
    | GoZero(target: nat, cond: nat)
    | GoNotZero(target: nat, cond: nat)
    | Stop(message: string)

  /** The machine state: current values, backing memories, program counter and result code. */
  datatype State = State(values: seq<int>, memory: seq<seq<nat>>, pc: nat, rc: Option<string>)

  /** How a run ends: past the last instruction, out of steps, or halted by a fault. */
  datatype Outcome = Finished(state: State) | OutOfSteps(state: State) | Aborted(reason: string)

  const MaxSteps: nat := 200

  /** Every field an instruction names exists, and the fields it writes are bits or vars. */
  predicate InstrOk(cells: seq<Cell>, ins: Instr)
  {
    match ins
    case ReadAt(f, _) => f < |cells| && cells[f].spacer
    case ReadFrom(f, ix) => f < |cells| && cells[f].spacer && forall i :: 0 <= i < |ix| ==> ix[i] < |cells|
    case Write(f, _) => f < |cells| && cells[f].spacer
    case WriteAt(f, _, _) => f < |cells| && cells[f].spacer
    case WriteFrom(f, src, ix) =>
      f < |cells| && cells[f].spacer && src < |cells| && forall i :: 0 <= i < |ix| ==> ix[i] < |cells|
    case Add(f, srcs) => f < |cells| && cells[f].spacer && forall i :: 0 <= i < |srcs| ==> srcs[i] < |cells|
    case Inc(f) => f < |cells| && cells[f].spacer
    case Dec(f) => f < |cells| && cells[f].spacer
    case Goto(_) => true
    case GoZero(_, c) => c < |cells|
    case GoNotZero(_, c) => c < |cells|
    case Stop(_) => true
  }

  predicate CodeOk(cells: seq<Cell>, code: seq<Instr>)
  {
    forall p :: 0 <= p < |code| ==> InstrOk(cells, code[p])
  }

  predicate Fits(cells: seq<Cell>, s: State)
  {
    |s.values| == |cells| && |s.memory| == |cells|
  }

  // ---------------------------------------------------------------------------
  // One instruction

  /** The current values of the index fields. */
  function IndexValues(s: State, indices: seq<nat>): (r: seq<int>)
    requires forall i :: 0 <= i < |indices| ==> indices[i] < |s.values|
    ensures |r| == |indices|
  {
    seq(|indices|, i requires 0 <= i < |indices| => s.values[indices[i]])
  }

  /** Load element `index` of f's memory into f; a missing element is a fault. */
  function Load(s: State, f: nat, index: int): (r: Result<State, string>)
    requires f < |s.values| && f < |s.memory|
    ensures r.Ok? <==> 0 <= index < |s.memory[f]|
    ensures r.Ok? ==> |r.value.values| == |s.values| && r.value.values[f] == s.memory[f][index]
    ensures r.Ok? ==> forall g :: 0 <= g < |s.values| && g != f ==> r.value.values[g] == s.values[g]
    ensures r.Ok? ==> r.value.memory == s.memory && r.value.rc == s.rc && r.value.pc == s.pc + 1
  {
    if 0 <= index < |s.memory[f]| then Ok(s.(values := s.values[f := s.memory[f][index]], pc := s.pc + 1))
    else Err("Array index out of bounds")
  }

  /** Keep the low bits of a value and put them in f and in element `index` of its memory. */
  function Store(cells: seq<Cell>, s: State, f: nat, value: int, index: int): (r: Result<State, string>)
    requires Fits(cells, s) && f < |cells|
    ensures r.Ok? <==> 0 <= index < |s.memory[f]|
    ensures r.Ok? ==> Fits(cells, r.value) && r.value.rc == s.rc && r.value.pc == s.pc + 1
    ensures r.Ok? ==> |r.value.memory[f]| == |s.memory[f]|
    ensures r.Ok? ==> r.value.values[f] == r.value.memory[f][index] == Truncate(value, cells[f].width)
    ensures r.Ok? ==> forall g :: 0 <= g < |cells| && g != f ==> r.value.values[g] == s.values[g] && r.value.memory[g] == s.memory[g]
    ensures r.Ok? ==> forall j :: 0 <= j < |s.memory[f]| && j != index ==> r.value.memory[f][j] == s.memory[f][j]
  {
    if 0 <= index < |s.memory[f]| then
      var t: nat := Truncate(value, cells[f].width);
      var row: seq<nat> := s.memory[f][index := t];
      Ok(s.(values := s.values[f := t], memory := s.memory[f := row], pc := s.pc + 1))
    else Err("Array index out of bounds")
  }

  /** The sum of three or more sources into an accumulator that starts at zero and is the target itself. */
  function Accumulate(values: seq<int>, f: nat, sources: seq<nat>, acc: int): (r: int)
    requires forall i :: 0 <= i < |sources| ==> sources[i] < |values|
    ensures IsInt(acc) ==> IsInt(r)
    ensures |sources| > 0 ==> IsInt(r)
    decreases |sources|
  {
    if |sources| == 0 then acc
    else
      var v := if sources[0] == f then acc else values[sources[0]];
      Accumulate(values, f, sources[1..], Wrap32(acc + v))
  }

  /** The new value of an add: zero, a copy, a sum of two, or an accumulated sum. */
  function AddValue(values: seq<int>, f: nat, sources: seq<nat>): (r: int)
    requires forall i :: 0 <= i < |sources| ==> sources[i] < |values|
    ensures |sources| != 1 ==> IsInt(r)
    ensures (forall i :: 0 <= i < |values| ==> IsInt(values[i])) ==> IsInt(r)
  {
    if |sources| == 0 then 0
    else if |sources| == 1 then values[sources[0]]
    else if |sources| == 2 then Wrap32(values[sources[0]] + values[sources[1]])
    else Accumulate(values, f, sources, 0)
  }

  /** Execute the instruction at pc; Err is a fault that ends the run. */
  function Step(cells: seq<Cell>, code: seq<Instr>, s: State): (r: Result<State, string>)
    requires CodeOk(cells, code) && Fits(cells, s) && s.pc < |code|
    ensures r.Ok? ==> Fits(cells, r.value)
  {
    var ins := code[s.pc];
    assert InstrOk(cells, ins);
    match ins
    case ReadAt(f, index) => Load(s, f, index)
    case ReadFrom(f, ix) =>
      (match Layout.Convolute(cells[f].dimReps, IndexValues(s, ix))
       case Err(e) => Err(e)
       case Ok(index) => Load(s, f, index))
    case Write(f, v) => Ok(s.(values := s.values[f := Truncate(v, cells[f].width)], pc := s.pc + 1))
    case WriteAt(f, v, index) => Store(cells, s, f, v, index)
    case WriteFrom(f, src, ix) =>
      (match Layout.Convolute(cells[f].dimReps, IndexValues(s, ix))
       case Err(e) => Err(e)
       case Ok(index) => Store(cells, s, f, s.values[src], index))
    case Add(f, srcs) => Ok(s.(values := s.values[f := AddValue(s.values, f, srcs)], pc := s.pc + 1))
    case Inc(f) => Ok(s.(values := s.values[f := Wrap32(s.values[f] + 1)], pc := s.pc + 1))
    case Dec(f) => Ok(s.(values := s.values[f := Wrap32(s.values[f] - 1)], pc := s.pc + 1))
    case Goto(t) => Ok(s.(pc := t))
    case GoZero(t, c) => Ok(s.(pc := if s.values[c] == 0 then t else s.pc + 1))
    case GoNotZero(t, c) => Ok(s.(pc := if s.values[c] > 0 then t else s.pc + 1))
    case Stop(m) => Ok(s.(rc := Some(m), pc := |code|))
  }

  // ---------------------------------------------------------------------------
  // Runs

  /** Run from s until the program counter leaves the code, a fault, or the fuel runs out. */
  function Exec(cells: seq<Cell>, code: seq<Instr>, s: State, fuel: nat): (r: Outcome)
    requires CodeOk(cells, code) && Fits(cells, s)
    ensures r.Finished? ==> r.state.pc >= |code| && Fits(cells, r.state)
    ensures r.OutOfSteps? ==> r.state.pc < |code| && Fits(cells, r.state)
    decreases fuel
  {
    if s.pc >= |code| then Finished(s)
    else if fuel == 0 then OutOfSteps(s)
    else
      match Step(cells, code, s)
      case Err(e) => Aborted(e)
      case Ok(t) => Exec(cells, code, t, fuel - 1)
  }

  /** A run clears the result code and starts at the first instruction. */
  function Run(cells: seq<Cell>, code: seq<Instr>, values: seq<int>, memory: seq<seq<nat>>, maxSteps: nat): (r: Outcome)
    requires CodeOk(cells, code) && |values| == |cells| && |memory| == |cells|
    ensures |code| == 0 ==> r == Finished(State(values, memory, 0, None))
    ensures maxSteps == 0 && |code| > 0 ==> r == OutOfSteps(State(values, memory, 0, None))
    ensures r.Finished? ==> r.state.pc >= |code| && Fits(cells, r.state)
    ensures r.OutOfSteps? ==> r.state.pc < |code| && Fits(cells, r.state)
  {
    Exec(cells, code, State(values, memory, 0, None), maxSteps)
  }

  /** Exactly n steps, each from inside the code. */
  function Iterate(cells: seq<Cell>, code: seq<Instr>, s: State, n: nat): (r: Result<State, string>)
    requires CodeOk(cells, code) && Fits(cells, s)
    ensures r.Ok? ==> Fits(cells, r.value)
    decreases n
  {
    if n == 0 then Ok(s)
    else if s.pc >= |code| then Err("Halted")
    else
      match Step(cells, code, s)
      case Err(e) => Err(e)
      case Ok(t) => Iterate(cells, code, t, n - 1)
  }

  /** n steps that stay inside the code use up n units of fuel of a run. */
  lemma {:induction false} ExecAfter(cells: seq<Cell>, code: seq<Instr>, s: State, n: nat, t: State, fuel: nat)
    requires CodeOk(cells, code) && Fits(cells, s)
    requires Iterate(cells, code, s, n) == Ok(t) && n <= fuel
    ensures Exec(cells, code, s, fuel) == Exec(cells, code, t, fuel - n)
    decreases n
  {
    if n > 0 {
      var u := Step(cells, code, s).value;
      ExecAfter(cells, code, u, n - 1, t, fuel - 1);
    }
  }

  /** Steps compose. */
  lemma {:induction false} IterateAdd(cells: seq<Cell>, code: seq<Instr>, s: State, a: nat, b: nat, m: State)
    requires CodeOk(cells, code) && Fits(cells, s)
    requires Iterate(cells, code, s, a) == Ok(m)
    ensures Iterate(cells, code, s, a + b) == Iterate(cells, code, m, b)
    decreases a
  {
    if a > 0 {
      var u := Step(cells, code, s).value;
      IterateAdd(cells, code, u, a - 1, b, m);
    }
  }

  // ---------------------------------------------------------------------------
  // Properties of single instructions

  /** A write keeps the low min(width, 31) bits: the value lies in [0, 2^min(width, 31)). */
  lemma WriteKeepsLowBits(cells: seq<Cell>, code: seq<Instr>, s: State)
    requires CodeOk(cells, code) && Fits(cells, s) && s.pc < |code|
    requires code[s.pc].Write? || code[s.pc].WriteAt? || code[s.pc].WriteFrom?
    requires Step(cells, code, s).Ok?
    ensures var f := code[s.pc].f; var t := Step(cells, code, s).value;
      0 <= t.values[f] < Pow2(Width(cells[f].width)) &&
      t.values[f] == Truncate(if code[s.pc].WriteFrom? then s.values[code[s.pc].source] else code[s.pc].value, cells[f].width)
  {
    var ins := code[s.pc];
    assert InstrOk(cells, ins);
    var v := if ins.WriteFrom? then s.values[ins.source] else ins.value;
    TruncateBounds(v, cells[ins.f].width);
  }

  /** Writing a constant changes the current value only; the backing memory is untouched. */
  lemma WriteLeavesMemory(cells: seq<Cell>, code: seq<Instr>, s: State)
    requires CodeOk(cells, code) && Fits(cells, s) && s.pc < |code| && code[s.pc].Write?
    ensures Step(cells, code, s).Ok?
    ensures var t := Step(cells, code, s).value; var f := code[s.pc].f;
      t.memory == s.memory && t.pc == s.pc + 1 && t.rc == s.rc &&
      forall g :: 0 <= g < |cells| && g != f ==> t.values[g] == s.values[g]
  {
  }

  /**
   * A write to an element sets exactly that element and the current value
   * to the same truncated number; every other element and every other field
   * is unchanged.  The element is given by a constant index or by the index
   * fields through convolute.
   */
  lemma WriteSetsOneElement(cells: seq<Cell>, code: seq<Instr>, s: State, index: int)
    requires CodeOk(cells, code) && Fits(cells, s) && s.pc < |code|
    requires code[s.pc].WriteAt? || code[s.pc].WriteFrom?
    requires code[s.pc].WriteAt? ==> index == code[s.pc].index
    requires code[s.pc].WriteFrom? ==>
      Layout.Convolute(cells[code[s.pc].f].dimReps, IndexValues(s, code[s.pc].indices)) == Ok(index)
    requires 0 <= index < |s.memory[code[s.pc].f]|
    ensures Step(cells, code, s).Ok?
    ensures var t := Step(cells, code, s).value; var f := code[s.pc].f;
      t.memory[f][index] == t.values[f] &&
      |t.memory[f]| == |s.memory[f]| &&
      (forall e :: 0 <= e < |s.memory[f]| && e != index ==> t.memory[f][e] == s.memory[f][e]) &&
      (forall g :: 0 <= g < |cells| && g != f ==> t.memory[g] == s.memory[g] && t.values[g] == s.values[g])
  {
    assert InstrOk(cells, code[s.pc]);
  }

  /** A write to an element out of range, or a convolute fault, halts the run. */
  lemma WriteOutsideFaults(cells: seq<Cell>, code: seq<Instr>, s: State)
    requires CodeOk(cells, code) && Fits(cells, s) && s.pc < |code| && code[s.pc].WriteAt?
    requires !(0 <= code[s.pc].index < |s.memory[code[s.pc].f]|)
    ensures Step(cells, code, s).Err?
  {
    assert InstrOk(cells, code[s.pc]);
  }

  /**
   * Write then read through the same index fields returns what was
   * written, provided the written field is not one of its own indices.
   */
  lemma WriteThenRead(cells: seq<Cell>, code: seq<Instr>, s: State, f: nat, src: nat, ix: seq<nat>)
    requires CodeOk(cells, code) && Fits(cells, s) && s.pc + 1 < |code|
    requires code[s.pc] == WriteFrom(f, src, ix) && code[s.pc + 1] == ReadFrom(f, ix)
    requires f !in ix
    requires Step(cells, code, s).Ok?
    ensures var t := Step(cells, code, s).value;
      Step(cells, code, t).Ok? &&
      Step(cells, code, t).value.values[f] == Truncate(s.values[src], cells[f].width) &&
      Step(cells, code, t).value.memory == t.memory
  {
    assert InstrOk(cells, code[s.pc]);
    var t := Step(cells, code, s).value;
    assert IndexValues(t, ix) == IndexValues(s, ix);
  }

  /** Zero, copy and sum: an add of no source clears, of one copies, of two adds; it never touches memory. */
  lemma AddMeaning(cells: seq<Cell>, code: seq<Instr>, s: State)
    requires CodeOk(cells, code) && Fits(cells, s) && s.pc < |code| && code[s.pc].Add?
    ensures Step(cells, code, s).Ok?
    ensures var t := Step(cells, code, s).value; var f := code[s.pc].f; var src := code[s.pc].sources;
      t.memory == s.memory && t.pc == s.pc + 1 &&
      (|src| == 0 ==> t.values[f] == 0) &&
      (|src| == 1 ==> t.values[f] == s.values[src[0]]) &&
      (|src| == 2 ==> t.values[f] == Wrap32(s.values[src[0]] + s.values[src[1]])) &&
      (forall g :: 0 <= g < |cells| && g != f ==> t.values[g] == s.values[g])
  {
    assert InstrOk(cells, code[s.pc]);
  }

  /** The exact sum of the source values. */
  function SumOf(values: seq<int>, sources: seq<nat>): int
    requires forall i :: 0 <= i < |sources| ==> sources[i] < |values|
    decreases |sources|
  {
    if |sources| == 0 then 0 else values[sources[0]] + SumOf(values, sources[1..])
  }

  /** When the target is not among them, three or more sources are summed with int wrap-around. */
  lemma {:induction false} AccumulateIsSum(values: seq<int>, f: nat, sources: seq<nat>, acc: int)
    requires forall i :: 0 <= i < |sources| ==> sources[i] < |values|
    requires f !in sources && IsInt(acc)
    ensures Accumulate(values, f, sources, acc) == Wrap32(acc + SumOf(values, sources))
    decreases |sources|
  {
    if |sources| > 0 {
      var v := values[sources[0]];
      assert sources[0] != f;
      AccumulateIsSum(values, f, sources[1..], Wrap32(acc + v));
      WrapAdd(acc + v, SumOf(values, sources[1..]));
    }
  }

  /** Wrapping an intermediate sum does not change the wrapped total. */
  lemma WrapAdd(x: int, y: int)
    ensures Wrap32(Wrap32(x) + y) == Wrap32(x + y)
  {
    var m := 0x1_0000_0000;
    var d := Wrap32(x) - x;
    assert d % m == 0;
    var q := d / m;
    assert d == q * m;
    assert Wrap32(x) + y == (x + y) + q * m;
    WrapPeriodic(x + y, q);
  }

  lemma WrapPeriodic(z: int, q: int)
    ensures Wrap32(z + q * 0x1_0000_0000) == Wrap32(z)
  {
    var m := 0x1_0000_0000;
    var a := z + 0x8000_0000;
    ModOfDecomposition(a, m, a / m, a % m);
    ModOfDecomposition(a + q * m, m, a / m + q, a % m);
  }

  /** test_add: a = 2 - 1, b = 1 + 1, c cleared, d = b, e = a + b, f = a + b + c + d + e. */
  lemma AddSources()
    ensures AddValue([1, 2, 0, 2, 3, 0], 5, [0, 1, 2, 3, 4]) == 8
    ensures AddValue([1, 2, 0, 2, 3, 0], 4, [0, 1]) == 3
  {
    assert Wrap32(1) == 1 && Wrap32(3) == 3 && Wrap32(5) == 5 && Wrap32(8) == 8;
  }

  /** When the target is among the sources, it contributes the running total, not its old value. */
  lemma AddReadsAccumulator()
    ensures AddValue([5, 1, 1], 0, [0, 1, 2]) == 2
  {
    assert Wrap32(1) == 1 && Wrap32(2) == 2;
  }

  /** Increment and decrement add one and subtract one, with int wrap-around and no truncation. */
  lemma IncDecMeaning(cells: seq<Cell>, code: seq<Instr>, s: State)
    requires CodeOk(cells, code) && Fits(cells, s) && s.pc < |code| && (code[s.pc].Inc? || code[s.pc].Dec?)
    requires IsInt(s.values[code[s.pc].f] + 1) && IsInt(s.values[code[s.pc].f] - 1)
    ensures Step(cells, code, s).Ok?
    ensures var t := Step(cells, code, s).value; var f := code[s.pc].f;
      t.memory == s.memory &&
      t.values[f] == s.values[f] + (if code[s.pc].Inc? then 1 else -1) &&
      (forall g :: 0 <= g < |cells| && g != f ==> t.values[g] == s.values[g])
  {
    assert InstrOk(cells, code[s.pc]);
  }

  /** Incrementing the largest int wraps to the smallest. */
  lemma IncWraps()
    ensures Wrap32(IntMax + 1) == IntMin
  {
  }

  /** GoZero jumps on zero only; GoNotZero jumps on a positive value only, so a negative one falls through. */
  lemma ConditionalJumps(cells: seq<Cell>, code: seq<Instr>, s: State)
    requires CodeOk(cells, code) && Fits(cells, s) && s.pc < |code|
    requires code[s.pc].GoZero? || code[s.pc].GoNotZero?
    ensures Step(cells, code, s).Ok?
    ensures var t := Step(cells, code, s).value; var c := s.values[code[s.pc].cond];
      t.values == s.values && t.memory == s.memory &&
      (code[s.pc].GoZero? ==> (t.pc == code[s.pc].target <==> c == 0 || code[s.pc].target == s.pc + 1)) &&
      (code[s.pc].GoNotZero? ==> (t.pc == code[s.pc].target <==> c > 0 || code[s.pc].target == s.pc + 1)) &&
      (t.pc != code[s.pc].target ==> t.pc == s.pc + 1)
  {
    assert InstrOk(cells, code[s.pc]);
  }

  /** A stop records its message and moves past the end, so the run finishes with no further step. */
  lemma StopEndsRun(cells: seq<Cell>, code: seq<Instr>, s: State, fuel: nat)
    requires CodeOk(cells, code) && Fits(cells, s) && s.pc < |code| && code[s.pc].Stop?
    requires fuel > 0
    ensures Step(cells, code, s) == Ok(s.(rc := Some(code[s.pc].message), pc := |code|))
    ensures Exec(cells, code, s, fuel) == Finished(s.(rc := Some(code[s.pc].message), pc := |code|))
  {
    var t := s.(rc := Some(code[s.pc].message), pc := |code|);
    assert Exec(cells, code, t, fuel - 1) == Finished(t);
  }

  // ---------------------------------------------------------------------------
  // If and Block

  /**
   * The code an If places at offset base: jump to Else when the condition
   * is zero, Then, jump to End, Else.  The Else label is at base + 2 + |T|
   * and the End label after the Else code.
   */
  function IfCode(base: nat, c: nat, thenCode: seq<Instr>, elseCode: seq<Instr>): (r: seq<Instr>)
    ensures |r| == |thenCode| + |elseCode| + 2
  {
    var elseAt := base + 2 + |thenCode|;
    [GoZero(elseAt, c)] + thenCode + [Goto(elseAt + |elseCode|)] + elseCode
  }

  /** Code contains a fragment at an offset. */
  predicate Placed(code: seq<Instr>, base: nat, fragment: seq<Instr>)
  {
    base + |fragment| <= |code| && code[base..base + |fragment|] == fragment
  }

  /** The first step of an If enters Then exactly when the condition is non-zero and Else exactly when it is zero. */
  lemma IfBranches(cells: seq<Cell>, code: seq<Instr>, s: State, c: nat, thenCode: seq<Instr>, elseCode: seq<Instr>)
    requires CodeOk(cells, code) && Fits(cells, s) && c < |cells|
    requires Placed(code, s.pc, IfCode(s.pc, c, thenCode, elseCode))
    ensures Step(cells, code, s) ==
      Ok(s.(pc := if s.values[c] != 0 then s.pc + 1 else s.pc + 2 + |thenCode|))
  {
    assert code[s.pc] == IfCode(s.pc, c, thenCode, elseCode)[0];
    assert InstrOk(cells, code[s.pc]);
  }

  /** When the condition is non-zero, Then runs and the If ends at its End label, Else skipped. */
  lemma {:induction false} IfThen(cells: seq<Cell>, code: seq<Instr>, s: State, c: nat,
                                  thenCode: seq<Instr>, elseCode: seq<Instr>, k: nat, t: State)
    requires CodeOk(cells, code) && Fits(cells, s) && c < |cells|
    requires Placed(code, s.pc, IfCode(s.pc, c, thenCode, elseCode))
    requires s.values[c] != 0
    requires Iterate(cells, code, s.(pc := s.pc + 1), k) == Ok(t) && t.pc == s.pc + 1 + |thenCode|
    ensures Iterate(cells, code, s, k + 2) == Ok(t.(pc := s.pc + 2 + |thenCode| + |elseCode|))
  {
    IfBranches(cells, code, s, c, thenCode, elseCode);
    var s1 := s.(pc := s.pc + 1);
    assert Iterate(cells, code, s, 1) == Ok(s1) by {
      assert Iterate(cells, code, s1, 0) == Ok(s1);
    }
    IterateAdd(cells, code, s, 1, k + 1, s1);
    IterateAdd(cells, code, s1, k, 1, t);
    var gotoAt := s.pc + 1 + |thenCode|;
    assert code[gotoAt] == IfCode(s.pc, c, thenCode, elseCode)[1 + |thenCode|];
    var end := t.(pc := s.pc + 2 + |thenCode| + |elseCode|);
    assert Step(cells, code, t) == Ok(end);
    assert Iterate(cells, code, end, 0) == Ok(end);
  }

  /** When the condition is zero, Else runs straight after the jump and ends at the End label. */
  lemma {:induction false} IfElse(cells: seq<Cell>, code: seq<Instr>, s: State, c: nat,
                                  thenCode: seq<Instr>, elseCode: seq<Instr>, k: nat, t: State)
    requires CodeOk(cells, code) && Fits(cells, s) && c < |cells|
    requires Placed(code, s.pc, IfCode(s.pc, c, thenCode, elseCode))
    requires s.values[c] == 0
    requires Iterate(cells, code, s.(pc := s.pc + 2 + |thenCode|), k) == Ok(t)
    ensures Iterate(cells, code, s, k + 1) == Ok(t)
  {
    IfBranches(cells, code, s, c, thenCode, elseCode);
    var s1 := s.(pc := s.pc + 2 + |thenCode|);
    assert Iterate(cells, code, s, 1) == Ok(s1) by {
      assert Iterate(cells, code, s1, 0) == Ok(s1);
    }
    IterateAdd(cells, code, s, 1, k, s1);
  }

  /**
   * A Block places its body between a start label (its first instruction)
   * and an end label (just after its last).  A GoNotZero in the body aimed
   * at the end label, met with a positive condition, leaves the block at
   * once: the run goes on from the end label as if the rest of the body
   * were not there.
   */
  lemma {:induction false} BlockExit(cells: seq<Cell>, code: seq<Instr>, s: State, start: nat, body: seq<Instr>,
                                     c: nat, k: nat, t: State)
    requires CodeOk(cells, code) && Fits(cells, s) && Placed(code, start, body)
    requires start <= s.pc < start + |body| && body[s.pc - start] == GoNotZero(start + |body|, c)
    requires s.values[c] > 0
    requires Iterate(cells, code, s.(pc := start + |body|), k) == Ok(t)
    ensures Iterate(cells, code, s, k + 1) == Ok(t)
  {
    assert code[s.pc] == code[start..start + |body|][s.pc - start];
    assert InstrOk(cells, code[s.pc]);
    var s1 := s.(pc := start + |body|);
    assert Iterate(cells, code, s, 1) == Ok(s1) by {
      assert Iterate(cells, code, s1, 0) == Ok(s1);
    }
    IterateAdd(cells, code, s, 1, k, s1);
  }

  /** A Goto in the body aimed at the start label continues the block: the run goes on from its first instruction. */
  lemma {:induction false} BlockContinue(cells: seq<Cell>, code: seq<Instr>, s: State, start: nat, body: seq<Instr>,
                                         k: nat, t: State)
    requires CodeOk(cells, code) && Fits(cells, s) && Placed(code, start, body)
    requires start <= s.pc < start + |body| && body[s.pc - start] == Goto(start)
    requires Iterate(cells, code, s.(pc := start), k) == Ok(t)
    ensures Iterate(cells, code, s, k + 1) == Ok(t)
  {
    assert code[s.pc] == code[start..start + |body|][s.pc - start];
    var s1 := s.(pc := start);
    assert Iterate(cells, code, s, 1) == Ok(s1) by {
      assert Iterate(cells, code, s1, 0) == Ok(s1);
    }
    IterateAdd(cells, code, s, 1, k, s1);
  }

  // ---------------------------------------------------------------------------
  // Runs of the layout tests

  function Vars(n: nat): seq<Cell>
  {
    seq(n, _ => Cell(true, 4, []))
  }

  function NoMemory(n: nat): seq<seq<nat>>
  {
    seq(n, _ => [])
  }

  lemma StepWrite(cells: seq<Cell>, code: seq<Instr>, s: State, f: nat, v: int, t: State)
    requires CodeOk(cells, code) && Fits(cells, s) && s.pc < |code| && code[s.pc] == Write(f, v)
    requires f < |cells| && t == s.(values := s.values[f := Truncate(v, cells[f].width)], pc := s.pc + 1)
    ensures Step(cells, code, s) == Ok(t)
  {
  }

  /** The code of test_if, with its If instructions expanded. */
  function IfExampleCode(): seq<Instr>
  {
    [Write(0, 1), GoZero(4, 0), Write(2, 2), Goto(5), Write(3, 3),
     GoZero(8, 1), Write(2, 4), Goto(9), Write(3, 5)]
  }

  /** The three writes test_if makes: a = 1, then t = 2 in the first Then, then e = 5 in the second Else. */
  lemma IfExampleWrites(m: seq<seq<nat>>)
    requires m == NoMemory(4)
    ensures CodeOk(Vars(4), IfExampleCode())
    ensures var cells, code := Vars(4), IfExampleCode();
      Step(cells, code, State([0, 0, 0, 0], m, 0, None)) == Ok(State([1, 0, 0, 0], m, 1, None)) &&
      Step(cells, code, State([1, 0, 0, 0], m, 2, None)) == Ok(State([1, 0, 2, 0], m, 3, None)) &&
      Step(cells, code, State([1, 0, 2, 0], m, 8, None)) == Ok(State([1, 0, 2, 5], m, 9, None))
  {
    var cells, code := Vars(4), IfExampleCode();
    assert CodeOk(cells, code);
    assert cells[0].width == 4 && cells[2].width == 4 && cells[3].width == 4;
    assert Truncate(1, 4) == 1 && Truncate(2, 4) == 2 && Truncate(5, 4) == 5;
    StepWrite(cells, code, State([0, 0, 0, 0], m, 0, None), 0, 1, State([1, 0, 0, 0], m, 1, None));
    StepWrite(cells, code, State([1, 0, 0, 0], m, 2, None), 2, 2, State([1, 0, 2, 0], m, 3, None));
    StepWrite(cells, code, State([1, 0, 2, 0], m, 8, None), 3, 5, State([1, 0, 2, 5], m, 9, None));
  }

  /** The three jumps test_if takes: into the first Then, past its Else, and into the second Else. */
  lemma IfExampleJumps(m: seq<seq<nat>>)
    requires m == NoMemory(4) && CodeOk(Vars(4), IfExampleCode())
    ensures var cells, code := Vars(4), IfExampleCode();
      Step(cells, code, State([1, 0, 0, 0], m, 1, None)) == Ok(State([1, 0, 0, 0], m, 2, None)) &&
      Step(cells, code, State([1, 0, 2, 0], m, 3, None)) == Ok(State([1, 0, 2, 0], m, 5, None)) &&
      Step(cells, code, State([1, 0, 2, 0], m, 5, None)) == Ok(State([1, 0, 2, 0], m, 8, None))
  {
  }

  /** test_if: the first If sees a = 1 and runs Then (t = 2); the second sees b = 0 and runs Else (e = 5). */
  lemma RunIfExample()
    ensures var code := [Write(0, 1)] + IfCode(1, 0, [Write(2, 2)], [Write(3, 3)])
                                       + IfCode(5, 1, [Write(2, 4)], [Write(3, 5)]);
      CodeOk(Vars(4), code) &&
      Run(Vars(4), code, [0, 0, 0, 0], NoMemory(4), MaxSteps) ==
        Finished(State([1, 0, 2, 5], NoMemory(4), 9, None))
  {
    var cells := Vars(4);
    var code := IfExampleCode();
    assert [Write(0, 1)] + IfCode(1, 0, [Write(2, 2)], [Write(3, 3)])
                         + IfCode(5, 1, [Write(2, 4)], [Write(3, 5)]) == code;
    var m := NoMemory(4);
    IfExampleWrites(m);
    IfExampleJumps(m);
    var s6 := State([1, 0, 2, 5], m, 9, None);
    assert Exec(cells, code, s6, 194) == Finished(s6);
    assert Exec(cells, code, State([1, 0, 2, 0], m, 8, None), 195) == Finished(s6);
    assert Exec(cells, code, State([1, 0, 2, 0], m, 5, None), 196) == Finished(s6);
    assert Exec(cells, code, State([1, 0, 2, 0], m, 3, None), 197) == Finished(s6);
    assert Exec(cells, code, State([1, 0, 0, 0], m, 2, None), 198) == Finished(s6);
    assert Exec(cells, code, State([1, 0, 0, 0], m, 1, None), 199) == Finished(s6);
  }

  /** test_block: c is set, the GoNotZero on a = 1 leaves the block, and d is never written. */
  lemma RunBlockExample()
    ensures var code := [Write(0, 1), Write(2, 1), GoNotZero(4, 0), Write(3, 2)];
      CodeOk(Vars(4), code) &&
      Run(Vars(4), code, [0, 0, 0, 0], NoMemory(4), MaxSteps) ==
        Finished(State([1, 0, 1, 0], NoMemory(4), 4, None))
  {
    var cells := Vars(4);
    var code := [Write(0, 1), Write(2, 1), GoNotZero(4, 0), Write(3, 2)];
    var m := NoMemory(4);
    assert CodeOk(cells, code);
    assert cells[0].width == 4 && cells[2].width == 4;
    assert Truncate(1, 4) == 1;
    var s0 := State([0, 0, 0, 0], m, 0, None);
    var s1 := State([1, 0, 0, 0], m, 1, None);
    var s2 := State([1, 0, 1, 0], m, 2, None);
    var s3 := State([1, 0, 1, 0], m, 4, None);
    StepWrite(cells, code, s0, 0, 1, s1);
    StepWrite(cells, code, s1, 2, 1, s2);
    assert Step(cells, code, s2) == Ok(s3);
    assert Exec(cells, code, s3, 197) == Finished(s3);
    assert Exec(cells, code, s2, 198) == Finished(s3);
  }

  /** test_stop: the stop records its message and the later write never runs. */
  lemma RunStopExample()
    ensures var code := [Stop("Stopped"), Write(0, 1)];
      CodeOk(Vars(1), code) &&
      Run(Vars(1), code, [0], NoMemory(1), MaxSteps) ==
        Finished(State([0], NoMemory(1), 2, Some("Stopped")))
  {
    var cells := Vars(1);
    var code := [Stop("Stopped"), Write(0, 1)];
    var s0 := State([0], NoMemory(1), 0, None);
    StopEndsRun(cells, code, s0, MaxSteps);
  }

  /** A program that loops forever runs out of steps. */
  lemma RunLoopExample()
    ensures Run(Vars(1), [Goto(0)], [0], NoMemory(1), 3) == OutOfSteps(State([0], NoMemory(1), 0, None))
  {
    var s := State([0], NoMemory(1), 0, None);
    assert Exec(Vars(1), [Goto(0)], s, 0) == OutOfSteps(s);
    assert Exec(Vars(1), [Goto(0)], s, 1) == OutOfSteps(s);
    assert Exec(Vars(1), [Goto(0)], s, 2) == OutOfSteps(s);
  }

  // ---------------------------------------------------------------------------
  // The program object

  /**
   * A program over the fields of one layout: the code built so far, the
   * program counter, the result code, and the fields' current values and
   * backing memories, which the instructions update in place.
   */
  class Program {
    const cells: seq<Cell>
    var values: seq<int>
    var memory: seq<seq<nat>>
    var code: seq<Instr>
    var pc: nat
    var rc: Option<string>
    var maxSteps: nat

    ghost predicate Valid()
      reads this
    {
      CodeOk(cells, code) && |values| == |cells| && |memory| == |cells|
    }

    function Snapshot(): State
      reads this
    {
      State(values, memory, pc, rc)
    }

    /** A new program: no code, every current value zero, memories as allocated. */
    constructor (cells: seq<Cell>, memory: seq<seq<nat>>)
      requires |memory| == |cells|
      ensures this.cells == cells && this.memory == memory && values == seq(|cells|, _ => 0)
      ensures code == [] && pc == 0 && rc == None && maxSteps == MaxSteps
      ensures Valid()
    {
      this.cells := cells;
      this.memory := memory;
      values := seq(|cells|, _ => 0);
      code := [];
      pc := 0;
      rc := None;
      maxSteps := MaxSteps;
    }

    /** The offset a label set now receives: the current end of the code. */
    function Here(): (offset: nat)
      reads this
      ensures offset == |code|
    {
      |code|
    }

    /** Append an instruction; one that writes a field that is not a bit or var is refused. */
    method Emit(ins: Instr) returns (r: Result<(), string>)
      requires Valid()
      modifies this
      ensures Valid()
      ensures r.Ok? <==> InstrOk(cells, ins)
      ensures r.Ok? ==> code == old(code) + [ins]
      ensures r.Err? ==> code == old(code)
      ensures values == old(values) && memory == old(memory) && pc == old(pc) && rc == old(rc)
      ensures maxSteps == old(maxSteps)
    {
      if !InstrOk(cells, ins) {
        return Err("Expected a bit or a var");
      }
      code := code + [ins];
      return Ok(());
    }

    /** Append an If whose Then and Else code are laid out for the offsets they will occupy. */
    method If(c: nat, thenCode: seq<Instr>, elseCode: seq<Instr>)
      requires Valid() && c < |cells| && CodeOk(cells, thenCode) && CodeOk(cells, elseCode)
      modifies this
      ensures Valid()
      ensures code == old(code) + IfCode(old(|code|), c, thenCode, elseCode)
      ensures Placed(code, old(|code|), IfCode(old(|code|), c, thenCode, elseCode))
      ensures values == old(values) && memory == old(memory) && pc == old(pc) && rc == old(rc)
      ensures maxSteps == old(maxSteps)
    {
      var fragment := IfCode(|code|, c, thenCode, elseCode);
      assert forall p :: 0 <= p < |fragment| ==> InstrOk(cells, fragment[p]) by {
        forall p | 0 <= p < |fragment| ensures InstrOk(cells, fragment[p]) {
          if 1 <= p < 1 + |thenCode| {
            assert fragment[p] == thenCode[p - 1];
          } else if 2 + |thenCode| <= p {
            assert fragment[p] == elseCode[p - 2 - |thenCode|];
          }
        }
      }
      var base := |code|;
      code := code + fragment;
      assert code[base..base + |fragment|] == fragment;
    }

    method ClearProgram()
      modifies this
      ensures code == [] && Valid() == (|values| == |cells| && |memory| == |cells|)
      ensures values == old(values) && memory == old(memory) && pc == old(pc) && rc == old(rc)
      ensures maxSteps == old(maxSteps)
    {
      code := [];
    }

    /** Halt the run: record the message as the result code and move past the end of the code. */
    method StopProgram(message: string)
      modifies this
      ensures rc == Some(message) && pc == |code|
      ensures code == old(code) && values == old(values) && memory == old(memory) && maxSteps == old(maxSteps)
    {
      rc := Some(message);
      pc := |code|;
    }

    /** Store the low bits of a value into f and element `index` of its memory. */
    method StoreAt(f: nat, value: int, index: int) returns (r: Result<(), string>)
      requires Valid() && f < |cells|
      modifies this
      ensures Valid() && code == old(code) && rc == old(rc)
      ensures r.Ok? <==> Store(cells, old(Snapshot()), f, value, index).Ok?
      ensures r.Ok? ==> Snapshot() == Store(cells, old(Snapshot()), f, value, index).value
      ensures r.Err? ==> Snapshot() == old(Snapshot()) && r.error == Store(cells, old(Snapshot()), f, value, index).error
      ensures maxSteps == old(maxSteps)
    {
      if !(0 <= index < |memory[f]|) {
        return Err("Array index out of bounds");
      }
      var stored := SetBitsFromInt(value, cells[f].width);
      memory := memory[f := memory[f][index := stored]];
      values := values[f := stored];
      pc := pc + 1;
      return Ok(());
    }

    /** The accumulating add of three or more sources, one source at a time. */
    method AddInto(f: nat, sources: seq<nat>)
      requires Valid() && f < |cells| && forall i :: 0 <= i < |sources| ==> sources[i] < |cells|
      modifies this
      ensures Valid() && values == old(values)[f := Accumulate(old(values), f, sources, 0)]
      ensures memory == old(memory) && code == old(code) && pc == old(pc) && rc == old(rc)
      ensures maxSteps == old(maxSteps)
    {
      ghost var start := values;
      values := values[f := 0];
      for i := 0 to |sources|
        invariant |values| == |cells| && memory == old(memory) && code == old(code)
        invariant pc == old(pc) && rc == old(rc) && maxSteps == old(maxSteps)
        invariant forall g :: 0 <= g < |cells| && g != f ==> values[g] == start[g]
        invariant Accumulate(start, f, sources[i..], values[f]) == Accumulate(start, f, sources, 0)
      {
        assert sources[i..][1..] == sources[i + 1..];
        values := values[f := Wrap32(values[f] + values[sources[i]])];
      }
      assert sources[|sources|..] == [];
    }

    /** Perform the instruction at pc, as Step describes; a fault leaves the state as it was. */
    method Action() returns (r: Result<(), string>)
      requires Valid() && pc < |code|
      modifies this
      ensures Valid() && code == old(code)
      ensures r.Ok? <==> Step(cells, code, old(Snapshot())).Ok?
      ensures r.Ok? ==> Snapshot() == Step(cells, code, old(Snapshot())).value
      ensures r.Err? ==> r.error == Step(cells, code, old(Snapshot())).error && Snapshot() == old(Snapshot())
      ensures maxSteps == old(maxSteps)
    {
      var ins := code[pc];
      assert InstrOk(cells, ins);
      match ins {
        case Goto(t) =>
          pc := t;
        case GoZero(t, c) =>
          if values[c] == 0 { pc := t; } else { pc := pc + 1; }
        case GoNotZero(t, c) =>
          if values[c] > 0 { pc := t; } else { pc := pc + 1; }
        case Stop(m) =>
          StopProgram(m);
        case Add(f, srcs) =>
          if |srcs| == 0 {
            values := values[f := 0];
          } else if |srcs| == 1 {
            values := values[f := values[srcs[0]]];
          } else if |srcs| == 2 {
            values := values[f := Wrap32(values[srcs[0]] + values[srcs[1]])];
          } else {
            AddInto(f, srcs);
          }
          pc := pc + 1;
        case Inc(f) =>
          values := values[f := Wrap32(values[f] + 1)];
          pc := pc + 1;
        case Dec(f) =>
          values := values[f := Wrap32(values[f] - 1)];
          pc := pc + 1;
        case _ =>
          r := MoveAction();
          return;
      }
      return Ok(());
    }

    /** Perform a read or a write at pc, as Step describes. */
    method MoveAction() returns (r: Result<(), string>)
      requires Valid() && pc < |code|
      requires code[pc].ReadAt? || code[pc].ReadFrom? || code[pc].Write? || code[pc].WriteAt? || code[pc].WriteFrom?
      modifies this
      ensures Valid() && code == old(code)
      ensures r.Ok? <==> Step(cells, code, old(Snapshot())).Ok?
      ensures r.Ok? ==> Snapshot() == Step(cells, code, old(Snapshot())).value
      ensures r.Err? ==> r.error == Step(cells, code, old(Snapshot())).error && Snapshot() == old(Snapshot())
      ensures maxSteps == old(maxSteps)
    {
      var ins := code[pc];
      assert InstrOk(cells, ins);
      match ins {
        case ReadAt(f, index) =>
          if !(0 <= index < |memory[f]|) {
            return Err("Array index out of bounds");
          }
          values := values[f := memory[f][index]];
          pc := pc + 1;
        case ReadFrom(f, ix) =>
          var index := Layout.ConvoluteLoop(cells[f].dimReps, IndexValues(Snapshot(), ix));
          if index.Err? {
            return Err(index.error);
          }
          if !(0 <= index.value < |memory[f]|) {
            return Err("Array index out of bounds");
          }
          values := values[f := memory[f][index.value]];
          pc := pc + 1;
        case Write(f, v) =>
          var stored := SetBitsFromInt(v, cells[f].width);
          values := values[f := stored];
          pc := pc + 1;
        case WriteAt(f, v, index) =>
          r := StoreAt(f, v, index);
          return;
        case WriteFrom(f, src, ix) =>
          var index := Layout.ConvoluteLoop(cells[f].dimReps, IndexValues(Snapshot(), ix));
          if index.Err? {
            return Err(index.error);
          }
          r := StoreAt(f, values[src], index.value);
          return;
      }
      return Ok(());
    }

    /**
     * Run the code: clear the result code, start at the first instruction
     * and step until the program counter leaves the code.  Running out of
     * steps first, or a fault, ends the run with an error.
     */
    method RunProgram() returns (r: Result<(), string>)
      requires Valid()
      modifies this
      ensures Valid() && code == old(code) && maxSteps == old(maxSteps)
      ensures r.Ok? <==> Run(cells, code, old(values), old(memory), old(maxSteps)).Finished?
      ensures r.Ok? ==> Run(cells, code, old(values), old(memory), old(maxSteps)) == Finished(Snapshot())
      ensures Run(cells, code, old(values), old(memory), old(maxSteps)).Aborted? ==>
                r == Err(Run(cells, code, old(values), old(memory), old(maxSteps)).reason)
      ensures Run(cells, code, old(values), old(memory), old(maxSteps)).OutOfSteps? ==> r == Err("Out of steps")
    {
      rc := None;
      pc := 0;
      var i := 0;
      while pc < |code| && i < maxSteps
        invariant Valid() && code == old(code) && maxSteps == old(maxSteps)
        invariant 0 <= i <= maxSteps
        invariant Exec(cells, code, Snapshot(), maxSteps - i) == Run(cells, code, old(values), old(memory), maxSteps)
        decreases maxSteps - i
      {
        var a := Action();
        if a.Err? {
          return Err(a.error);
        }
        i := i + 1;
      }
      if pc < |code| {
        return Err("Out of steps");
      }
      return Ok(());
    }
  }
}
