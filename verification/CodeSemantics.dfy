/**
 What the emitted code computes, at the level of operators: operand stacks of 64-bit words, frames
 addressed by slot, calls by register order, external calls as a trace.  Nothing here mentions
 machine code; `Simulation` proves that the machine code does exactly this, and `WasmSemantics`
 says how it relates to the WebAssembly Core Specification.
 */
module CodeSemantics {
  import opened Base
  import opened X86
  import opened Wasm
  import opened CodeGen

  datatype Outcome<+T> = Done(value: T) | Stuck | OutOfFuel

  /** Slot offset to word; a slot nothing was stored to is absent. */
  type Frame = map<nat, int>

  /** `stack[0]` is the top.  `need` is the most stack any call so far used below this frame. */
  datatype Config = Config(frame: Frame, stack: seq<int>, trace: seq<Event>, need: nat)

  /** Results top first, and the frame as the function left it. */
  datatype Answer = Answer(results: seq<int>, trace: seq<Event>, need: nat, frame: Frame)

  type Oracle = seq<Event> -> (int, int)

  function Resolver(m: Module): nat -> Option<FuncType> {
    (f: nat) => Resolved(m, f)
  }

  /** The arguments of a call, first argument first: register k receives argument k. */
  function Arguments(stack: seq<int>, n: nat): (r: seq<int>)
    requires n <= |stack|
    ensures |r| == n
  {
    seq(n, k requires 0 <= k < n => stack[n - 1 - k])
  }

  /** The parameter slots after `k` stores: slot 8k holds the k-th argument from the end. */
  function EntryFrame(args: seq<int>, k: nat): Frame
    requires k <= |args|
  {
    if k == 0 then map[] else EntryFrame(args, k - 1)[8 * k := args[|args| - k]]
  }

  /** Two registers carry results. */
  function Carried(results: nat): nat {
    if results <= 2 then results else 2
  }

  /** The caller pushes rax, then rdx. */
  function PushedBack(results: seq<int>): seq<int>
    requires |results| <= 2
  {
    if |results| == 2 then [results[1], results[0]] else results
  }

  function EvalOp(m: Module, oracle: Oracle, p: nat, op: Op, c: Config, fuel: nat): Outcome<Config>
    decreases fuel, 0, 0
  {
    match op
    case I64Const(v) => Done(c.(stack := [Wrap(v)] + c.stack))
    case I64Add => if |c.stack| < 2 then Stuck else Done(c.(stack := [Wrap(c.stack[0] + c.stack[1])] + c.stack[2..]))
    case I64Sub => if |c.stack| < 2 then Stuck else Done(c.(stack := [Wrap(c.stack[0] - c.stack[1])] + c.stack[2..]))
    case Nop => Done(c)
    case End => Done(c)
    case LocalGet(i) =>
      if LocalOffset(p, i) in c.frame then Done(c.(stack := [c.frame[LocalOffset(p, i)]] + c.stack)) else Stuck
    case LocalSet(i) =>
      if |c.stack| < 1 then Stuck
      else Done(c.(frame := c.frame[LocalOffset(p, i) := c.stack[0]], stack := c.stack[1..]))
    case Call(f) =>
      if Resolved(m, f).None? || |c.stack| < Resolved(m, f).value.params then Stuck
      else
        var t := Resolved(m, f).value;
        var args, rest := Arguments(c.stack, t.params), c.stack[t.params..];
        if f < ImportCount(m) then
          var trace := c.trace + [Event(f, args)];
          var (a, d) := oracle(trace);
          var stack := PushedBack([a, d][..Carried(t.results)]) + rest;
          Done(Config(c.frame, stack, trace, Max(c.need, 8)))
        else if fuel == 0 then OutOfFuel
        else
          match EvalFunc(m, oracle, f - ImportCount(m), args, c.trace, fuel - 1)
          case Done(r) =>
            // A callee that stored over the saved rbp returns with its caller's frame lost.
            if 0 in r.frame then Stuck
            else Done(Config(c.frame, PushedBack(r.results) + rest, r.trace, Max(c.need, 8 + r.need)))
          case Stuck => Stuck
          case OutOfFuel => OutOfFuel
  }

  function EvalOps(m: Module, oracle: Oracle, p: nat, ops: seq<Op>, c: Config, fuel: nat): Outcome<Config>
    decreases fuel, 1, |ops|
  {
    if ops == [] then Done(c)
    else
      match EvalOps(m, oracle, p, ops[..|ops| - 1], c, fuel)
      case Done(d) => EvalOp(m, oracle, p, ops[|ops| - 1], d, fuel)
      case Stuck => Stuck
      case OutOfFuel => OutOfFuel
  }

  /**
   Code entry `j` called with `args`.  Its stack need is its saved rbp, its locals, its operand
   stack at the recorded height, and what its calls need.
   */
  function EvalFunc(
    m: Module, oracle: Oracle, j: nat, args: seq<int>, trace: seq<Event>, fuel: nat): (r: Outcome<Answer>)
    ensures !r.Stuck? ==> j < |m.bodies| && BodyOk(m, j) && |args| == TypeOf(m, j).params
    ensures r.Done? ==> |r.value.results| == Carried(TypeOf(m, j).results)
    decreases fuel, 2, 0
  {
    if j >= |m.bodies| || !BodyOk(m, j) || |args| != TypeOf(m, j).params then Stuck
    else
      var t, b := TypeOf(m, j), m.bodies[j];
      match EvalOps(m, oracle, t.params, b.ops, Config(EntryFrame(args, |args|), [], trace, 0), fuel)
      case Done(c) =>
        var n := Carried(t.results);
        if |c.stack| < n then Stuck
        else Done(Answer(c.stack[..n], c.trace, 8 + LocalsSize(t, b) + 8 * Peak(Resolver(m), b.ops) + c.need, c.frame))
      case Stuck => Stuck
      case OutOfFuel => OutOfFuel
  }
}
