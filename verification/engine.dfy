/**
 * The reconciliation engine of `src/base.py`.
 *
 * A resource operator offers four capabilities (create, delete, exists,
 * absent), each answering `(ok, msg)`.  A resource controller turns one of
 * five target states into a suspend/resume sequence of capability calls,
 * and `execute_generator` drives that sequence recursively, emitting a
 * depth-tagged trace record for every call.  `execute` returns the
 * `(ok, msg)` of the last record.
 *
 * The backend behind an operator is a state `S` and a step function
 * `Backend<S>`: calling a capability may change the state and returns,
 * raises, or lets a `StopIteration` escape.
 */
module Engine {
  import opened Wrappers

  /** The message every capability that an operator does not define answers with. */
  const ErrorNotSupport := "Not Supported Error"

  datatype Capability = CreateCap | DeleteCap | ExistsCap | AbsentCap

  /** The five target states a controller can drive a resource to. */
  datatype Target = Created | Deleted | Exists | Absent | Recreated

  function TargetName(t: Target): string {
    match t
    case Created => "created"
    case Deleted => "deleted"
    case Exists => "exists"
    case Absent => "absent"
    case Recreated => "recreated"
  }

  /** The state names a step may carry. */
  const TargetNames: set<string> := {"created", "deleted", "exists", "absent", "recreated"}

  /** The controller method a state name selects (`getattr(controller, state)`). */
  function ParseTarget(name: string): (r: Option<Target>)
    ensures r.Some? <==> name in TargetNames
    ensures r.Some? ==> TargetName(r.value) == name
  {
    if name == "created" then Some(Created)
    else if name == "deleted" then Some(Deleted)
    else if name == "exists" then Some(Exists)
    else if name == "absent" then Some(Absent)
    else if name == "recreated" then Some(Recreated)
    else None
  }

  /** Every target is reached from its own name. */
  lemma ParseTargetName(t: Target)
    ensures ParseTarget(TargetName(t)) == Some(t)
  {
  }

  /** What one capability call did: returned a pair, raised an exception, or leaked a `StopIteration`. */
  datatype Outcome = Returned(ok: bool, msg: string) | Raised(err: string, tb: string) | StopIter

  /** A backend: calling capability `c` in state `s` yields a new state and an outcome. */
  type Backend<!S> = (S, Capability) -> (S, Outcome)

  /** The pair a controller is resumed with. */
  type Reply = (bool, string)

  /** What a controller yields: a capability to call, or another of its own state methods. */
  datatype Transition = Leaf(cap: Capability) | Composite(target: Target)

  /** The callable a trace record names (`func.__qualname__`). */
  datatype Call = CapCall(cap: Capability) | StateCall(target: Target)

  /** One trace record `(depth, func, ok, err)`; `ok` is `None` for a composite's START record. */
  datatype Record = Record(depth: int, call: Call, ok: Option<bool>, msg: string)

  /** The record every composite emits before running its children. */
  function Start(depth: int, t: Target): Record {
    Record(depth, StateCall(t), None, "START")
  }

  /** A run: the backend's final state, the records emitted, and whether a `RuntimeError` aborted it. */
  datatype Run<S> = Run(state: S, trace: seq<Record>, aborted: bool)

  function Last<T>(s: seq<T>): T
    requires s != []
  {
    s[|s| - 1]
  }

  /** `before` followed by run `r`. */
  function Prefix<S>(before: seq<Record>, r: Run<S>): Run<S> {
    Run(r.state, before + r.trace, r.aborted)
  }

  function Rank(t: Target): nat {
    if t == Recreated then 2 else 1
  }

  function RankOf(tr: Transition): nat {
    match tr
    case Leaf(_) => 0
    case Composite(t) => Rank(t)
  }

  /**
   * The next thing the generator of target `t` yields after having been
   * resumed with `replies`, or `None` once it returns.
   */
  function Yield(t: Target, replies: seq<Reply>): (r: Option<Transition>)
    ensures r.Some? ==> |replies| <= 2 && RankOf(r.value) < Rank(t)
    ensures replies == [] ==> r.Some?
  {
    match t
    case Created =>
      if |replies| == 0 then Some(Leaf(ExistsCap))
      else if replies[0].0 then None
      else if |replies| == 1 then Some(Leaf(CreateCap))
      else if |replies| == 2 then Some(Leaf(ExistsCap))
      else None
    case Deleted =>
      if |replies| == 0 then Some(Leaf(AbsentCap))
      else if replies[0].0 then None
      else if |replies| == 1 then Some(Leaf(DeleteCap))
      else if |replies| == 2 then Some(Leaf(AbsentCap))
      else None
    case Exists =>
      if |replies| == 0 then Some(Leaf(ExistsCap)) else None
    case Absent =>
      if |replies| == 0 then Some(Leaf(AbsentCap)) else None
    case Recreated =>
      if |replies| == 0 then Some(Composite(Deleted))
      else if |replies| == 1 then Some(Composite(Created))
      else None
  }

  /**
   * A leaf call at parent depth `depth`: a raised exception becomes the record
   * `(False, err + "\n" + traceback)`; an escaping `StopIteration` aborts the run.
   */
  function RunLeaf<S>(call: Backend<S>, cap: Capability, depth: int, s: S): (r: Run<S>)
    ensures !r.aborted ==> |r.trace| == 1 && r.trace[0].call == CapCall(cap) && r.trace[0].ok.Some?
    ensures r.aborted ==> r.trace == [] && call(s, cap).1.StopIter?
  {
    var (s', o) := call(s, cap);
    match o
    case Returned(ok, msg) => Run(s', [Record(depth + 1, CapCall(cap), Some(ok), msg)], false)
    case Raised(err, tb) => Run(s', [Record(depth + 1, CapCall(cap), Some(false), err + "\n" + tb)], false)
    case StopIter => Run(s', [], true)
  }

  /** `execute_generator(tr, params, depth)`: every record it emits, in order. */
  function RunTransition<S>(call: Backend<S>, tr: Transition, depth: int, s: S): (r: Run<S>)
    ensures !r.aborted ==> r.trace != [] && Last(r.trace).ok.Some?
    decreases RankOf(tr), 1, 0
  {
    match tr
    case Leaf(cap) => RunLeaf(call, cap, depth, s)
    case Composite(t) => Prefix([Start(depth + 1, t)], Drive(call, t, depth + 1, s, []))
  }

  /**
   * The `while next_func` loop of a composite at depth `depth`, resumed
   * with `replies` so far: each child runs one level deeper and its last
   * record is sent back into the generator.
   */
  function Drive<S>(call: Backend<S>, t: Target, depth: int, s: S, replies: seq<Reply>): (r: Run<S>)
    ensures !r.aborted && r.trace != [] ==> Last(r.trace).ok.Some?
    ensures !r.aborted && Yield(t, replies).Some? ==> r.trace != []
    decreases Rank(t), 0, 3 - |replies|
  {
    match Yield(t, replies)
    case None => Run(s, [], false)
    case Some(tr) =>
      var child := RunTransition(call, tr, depth, s);
      if child.aborted then child
      else
        var last := Last(child.trace);
        Prefix(child.trace, Drive(call, t, depth, child.state, replies + [(last.ok.value, last.msg)]))
  }

  /** One turn of the resume loop. */
  lemma DriveStep<S>(call: Backend<S>, t: Target, depth: int, s: S, replies: seq<Reply>)
    requires Yield(t, replies).Some?
    ensures var child := RunTransition(call, Yield(t, replies).value, depth, s);
            Drive(call, t, depth, s, replies) ==
            if child.aborted then child
            else Prefix(child.trace, Drive(call, t, depth, child.state,
                                           replies + [(Last(child.trace).ok.value, Last(child.trace).msg)]))
  {
  }

  lemma PrefixPrefix<S>(a: seq<Record>, b: seq<Record>, r: Run<S>)
    ensures Prefix(a, Prefix(b, r)) == Prefix(a + b, r)
  {
    assert a + (b + r.trace) == (a + b) + r.trace;
  }

  /** A turn of the resume loop keeps the run so far a prefix of the whole run. */
  lemma DriveRound<S>(call: Backend<S>, t: Target, d: int, s: S, st: S, replies: seq<Reply>,
                      trace: seq<Record>, child: Run<S>)
    requires Yield(t, replies).Some?
    requires child == RunTransition(call, Yield(t, replies).value, d, st)
    requires Drive(call, t, d, s, []) == Prefix(trace, Drive(call, t, d, st, replies))
    ensures child.aborted ==> Drive(call, t, d, s, []) == Run(child.state, trace + child.trace, true)
    ensures !child.aborted ==> child.trace != []
    ensures !child.aborted ==>
              Drive(call, t, d, s, []) ==
              Prefix(trace + child.trace,
                     Drive(call, t, d, child.state, replies + [(Last(child.trace).ok.value, Last(child.trace).msg)]))
  {
    DriveStep(call, t, d, st, replies);
    if !child.aborted {
      var last := Last(child.trace);
      PrefixPrefix(trace, child.trace, Drive(call, t, d, child.state, replies + [(last.ok.value, last.msg)]));
    }
  }

  /** `execute_generator`, as the recursive generator with its resume loop. */
  method ExecuteGenerator<S>(call: Backend<S>, tr: Transition, depth: int, s: S) returns (r: Run<S>)
    ensures r == RunTransition(call, tr, depth, s)
    decreases RankOf(tr), 1
  {
    match tr {
      case Leaf(cap) =>
        r := RunLeaf(call, cap, depth, s);
      case Composite(t) =>
        var inner := DriveGenerator(call, t, depth + 1, s);
        r := Prefix([Start(depth + 1, t)], inner);
    }
  }

  /**
   * The generator branch of `execute_generator` after its START record: pull
   * the first transition, then run each child one level deeper and send its
   * last record back, until the generator returns.
   */
  method DriveGenerator<S>(call: Backend<S>, t: Target, d: int, s: S) returns (r: Run<S>)
    ensures r == Drive(call, t, d, s, [])
    decreases Rank(t), 0
  {
    var trace: seq<Record> := [];
    var st := s;
    var replies: seq<Reply> := [];
    var next := Yield(t, replies);
    while next.Some?
      invariant next == Yield(t, replies)
      invariant Drive(call, t, d, s, []) == Prefix(trace, Drive(call, t, d, st, replies))
      decreases 3 - |replies|
    {
      var child := ExecuteGenerator(call, next.value, d, st);
      DriveRound(call, t, d, s, st, replies, trace, child);
      if child.aborted {
        return Run(child.state, trace + child.trace, true);
      }
      var last := Last(child.trace);
      trace := trace + child.trace;
      st := child.state;
      replies := replies + [(last.ok.value, last.msg)];
      next := Yield(t, replies);
    }
    assert trace + [] == trace;
    r := Run(st, trace, false);
  }

  /** `execute(resource, state, params)`: a target run from the top, at depth 0. */
  function Execution<S>(call: Backend<S>, t: Target, s: S): Run<S> {
    RunTransition(call, Composite(t), 0, s)
  }

  /**
   * What `execute` returns for a run: the `(ok, err)` of its last record, a
   * `RuntimeError` when nothing ran, or the `RuntimeError` an escaping
   * `StopIteration` was turned into.
   */
  function ExecuteResult<S>(r: Run<S>): Result<(Option<bool>, string)> {
    if r.aborted then Raise(RuntimeError, "Unexpected StopIteration")
    else if r.trace == [] then Raise(RuntimeError, "")
    else Ok((Last(r.trace).ok, Last(r.trace).msg))
  }

  /**
   * `execute`: run the target's generator, hand every record to the trace
   * hook in order, and return the last record's `(ok, err)`.
   */
  method Execute<S>(call: Backend<S>, t: Target, s: S) returns (s': S, log: seq<Record>, res: Result<(Option<bool>, string)>)
    ensures s' == Execution(call, t, s).state
    ensures log == Execution(call, t, s).trace
    ensures res == ExecuteResult(Execution(call, t, s))
    ensures res.Ok? ==> res.value.0.Some?
    ensures res.Err? ==> res == Raise(RuntimeError, "Unexpected StopIteration")
  {
    var r := ExecuteGenerator(call, Composite(t), 0, s);
    assert r == Execution(call, t, s);
    var last;
    log, last := Emit(r.trace);
    s' := r.state;
    if r.aborted {
      res := Raise(RuntimeError, "Unexpected StopIteration");
    } else if last.None? {
      res := Raise(RuntimeError, "");
    } else {
      res := Ok((last.value.ok, last.value.msg));
    }
  }

  /** The hook loop of `execute`: every record is handed on in order, and the last one is kept. */
  method Emit(trace: seq<Record>) returns (log: seq<Record>, last: Option<Record>)
    ensures log == trace
    ensures last == if trace == [] then None else Some(Last(trace))
  {
    last := None;
    log := [];
    var i := 0;
    while i < |trace|
      invariant 0 <= i <= |trace|
      invariant log == trace[..i]
      invariant last == if i == 0 then None else Some(trace[i - 1])
    {
      log := log + [trace[i]];
      last := Some(trace[i]);
      i := i + 1;
    }
  }

  /** `Executable.<state>()`: only the boolean half of `execute`'s answer. */
  method Executable<S>(call: Backend<S>, t: Target, s: S) returns (s': S, ok: Result<bool>)
    ensures s' == Execution(call, t, s).state
    ensures ExecuteResult(Execution(call, t, s)).Ok? ==> ok == Ok(ExecuteResult(Execution(call, t, s)).value.0.value)
    ensures ExecuteResult(Execution(call, t, s)).Err? ==> ok == Err(ExecuteResult(Execution(call, t, s)).error)
  {
    var log, res;
    s', log, res := Execute(call, t, s);
    match res {
      case Ok(pair) => ok := Ok(pair.0.value);
      case Err(e) => ok := Err(e);
    }
  }

  /** An operator subclass: the capabilities in `defined` come from `impl`, the others from `Operator`. */
  function WithDefaults<S>(defined: set<Capability>, impl: Backend<S>): Backend<S> {
    (s: S, c: Capability) => if c in defined then impl(s, c) else (s, Returned(false, ErrorNotSupport))
  }

  /** A capability the subclass does not define changes nothing and answers `(False, "Not Supported Error")`. */
  lemma InheritedCapability<S>(defined: set<Capability>, impl: Backend<S>, s: S, c: Capability)
    ensures WithDefaults(defined, impl)(s, c) ==
            if c in defined then impl(s, c) else (s, Returned(false, ErrorNotSupport))
  {
  }

  /** `HasOperator.get_operator`: only the subtype "default" is known, and it is the class itself. */
  function GetOperatorDefault<C>(cls: C, subtype: string): (r: Result<C>)
    ensures r.Ok? <==> subtype == "default"
    ensures r.Ok? ==> r.value == cls
    ensures r.Err? ==> r.Raises(TypeError)
  {
    if subtype == "default" then Ok(cls) else Raise(TypeError, "")
  }
}
