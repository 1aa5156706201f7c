/**
 * What each target state of `src/base.py` is meant to do, written as
 * straight-line code over the backend, and the proof that the generator
 * driver does exactly that: the same capability calls in the same order,
 * the same final backend state and the same final answer.  Also the shape
 * of the trace the driver emits.
 */
module EngineSpec {
  import opened Wrappers
  import opened Engine

  /** The state of a straight-line run: backend state, leaf calls that answered, last answer. */
  datatype Ref<S> = Ref(state: S, calls: seq<Capability>, last: Option<Reply>, aborted: bool)

  function Begin<S>(s: S): Ref<S> {
    Ref(s, [], None, false)
  }

  /** Call capability `c` unless the run has already aborted. */
  function Call1<S>(call: Backend<S>, c: Capability, r: Ref<S>): (r': Ref<S>)
    ensures !r'.aborted ==> r'.last.Some?
  {
    if r.aborted then r
    else
      var (s', o) := call(r.state, c);
      match o
      case Returned(ok, msg) => Ref(s', r.calls + [c], Some((ok, msg)), false)
      case Raised(err, tb) => Ref(s', r.calls + [c], Some((false, err + "\n" + tb)), false)
      case StopIter => Ref(s', r.calls, r.last, true)
  }

  /** Probe; if the probe fails, act and probe again. */
  function Converge<S>(call: Backend<S>, probe: Capability, act: Capability, r: Ref<S>): Ref<S> {
    var r1 := Call1(call, probe, r);
    if r1.aborted || r1.last.value.0 then r1
    else Call1(call, probe, Call1(call, act, r1))
  }

  /**
   * The intended policy: created converges on exists via create, deleted on
   * absent via delete, exists and absent only probe, and recreated is
   * deleted followed by created.
   */
  function Reference<S>(call: Backend<S>, t: Target, r: Ref<S>): Ref<S>
    decreases Rank(t)
  {
    match t
    case Created => Converge(call, ExistsCap, CreateCap, r)
    case Deleted => Converge(call, AbsentCap, DeleteCap, r)
    case Exists => Call1(call, ExistsCap, r)
    case Absent => Call1(call, AbsentCap, r)
    case Recreated => Reference(call, Created, Reference(call, Deleted, r))
  }

  /** The capability a record names, if it is a leaf record. */
  function LeafOf(rec: Record): seq<Capability> {
    if rec.call.CapCall? then [rec.call.cap] else []
  }

  /** The capabilities of the leaf records of a trace, in order. */
  function LeafCalls(trace: seq<Record>): seq<Capability> {
    if trace == [] then [] else LeafOf(trace[0]) + LeafCalls(trace[1..])
  }

  lemma {:induction false} LeafCallsAppend(a: seq<Record>, b: seq<Record>)
    ensures LeafCalls(a + b) == LeafCalls(a) + LeafCalls(b)
  {
    if a == [] {
      assert a + b == b;
    } else {
      var ab := a + b;
      assert ab != [] && ab[0] == a[0] && ab[1..] == a[1..] + b;
      LeafCallsAppend(a[1..], b);
      assert LeafCalls(ab) == LeafOf(a[0]) + (LeafCalls(a[1..]) + LeafCalls(b));
      ConcatAssoc(LeafOf(a[0]), LeafCalls(a[1..]), LeafCalls(b));
    }
  }

  /** The `(ok, err)` pair of a trace's last record. */
  function LastReply(trace: seq<Record>): Reply
    requires trace != [] && Last(trace).ok.Some?
  {
    (Last(trace).ok.value, Last(trace).msg)
  }

  /** A run and a straight-line run that have done the same thing so far. */
  ghost predicate Agrees<S>(r0: Ref<S>, run: Run<S>, ref: Ref<S>) {
    && ref.state == run.state
    && ref.aborted == run.aborted
    && ref.calls == r0.calls + LeafCalls(run.trace)
    && (!run.aborted ==> run.trace != [] && Last(run.trace).ok.Some? && ref.last == Some(LastReply(run.trace)))
  }

  lemma LeafAgrees<S>(call: Backend<S>, cap: Capability, d: int, r: Ref<S>)
    requires !r.aborted
    ensures Agrees(r, RunTransition(call, Leaf(cap), d, r.state), Call1(call, cap, r))
  {
    var run := RunTransition(call, Leaf(cap), d, r.state);
    if !run.aborted {
      assert LeafCalls(run.trace) == [cap] by {
        assert run.trace[1..] == [];
      }
    }
  }

  /** A run that follows `before` agrees with the straight-line policy once its own part does. */
  lemma ChildAgrees<S>(r0: Ref<S>, before: seq<Record>, r1: Ref<S>, child: Run<S>, ref: Ref<S>)
    requires r1.calls == r0.calls + LeafCalls(before)
    requires Agrees(r1, child, ref)
    ensures Agrees(r0, Prefix(before, child), ref)
  {
    LeafCallsAppend(before, child.trace);
    if !child.aborted {
      assert Last(before + child.trace) == Last(child.trace);
    }
  }

  /** The run of a generator that has returned, after its last child. */
  lemma Finished<S>(call: Backend<S>, t: Target, d: int, child: Run<S>, replies: seq<Reply>)
    requires Yield(t, replies).None? && !child.aborted
    ensures Prefix(child.trace, Drive(call, t, d, child.state, replies)) == child
  {
    assert child.trace + [] == child.trace;
  }

  /** created and deleted, driven by the generator, make the calls `Converge` makes. */
  lemma ConvergeAgrees<S>(call: Backend<S>, t: Target, probe: Capability, act: Capability, d: int, r: Ref<S>)
    requires !r.aborted
    requires (t, probe, act) == (Created, ExistsCap, CreateCap) || (t, probe, act) == (Deleted, AbsentCap, DeleteCap)
    ensures Agrees(r, Drive(call, t, d, r.state, []), Converge(call, probe, act, r))
  {
    DriveStep(call, t, d, r.state, []);
    var c1 := RunTransition(call, Leaf(probe), d, r.state);
    LeafAgrees(call, probe, d, r);
    var r1 := Call1(call, probe, r);
    if c1.aborted {
      return;
    }
    var rep1 := LastReply(c1.trace);
    assert [] + [rep1] == [rep1];
    if rep1.0 {
      Finished(call, t, d, c1, [rep1]);
      return;
    }
    assert Drive(call, t, d, r.state, []) == Prefix(c1.trace, Drive(call, t, d, c1.state, [rep1]));
    assert Converge(call, probe, act, r) == Call1(call, probe, Call1(call, act, r1));
    ActAgrees(call, t, probe, act, d, r1, rep1);
    ChildAgrees(r, c1.trace, r1, Drive(call, t, d, c1.state, [rep1]), Call1(call, probe, Call1(call, act, r1)));
  }

  /** After a failed first probe, the generator acts and probes again, as `Converge` does. */
  lemma ActAgrees<S>(call: Backend<S>, t: Target, probe: Capability, act: Capability, d: int, r1: Ref<S>, rep1: Reply)
    requires !r1.aborted && !rep1.0
    requires (t, probe, act) == (Created, ExistsCap, CreateCap) || (t, probe, act) == (Deleted, AbsentCap, DeleteCap)
    ensures Agrees(r1, Drive(call, t, d, r1.state, [rep1]), Call1(call, probe, Call1(call, act, r1)))
  {
    DriveStep(call, t, d, r1.state, [rep1]);
    var c2 := RunTransition(call, Leaf(act), d, r1.state);
    LeafAgrees(call, act, d, r1);
    var r2 := Call1(call, act, r1);
    if c2.aborted {
      return;
    }
    var rep2 := LastReply(c2.trace);
    assert [rep1] + [rep2] == [rep1, rep2];
    DriveStep(call, t, d, c2.state, [rep1, rep2]);
    var c3 := RunTransition(call, Leaf(probe), d, c2.state);
    LeafAgrees(call, probe, d, r2);
    var r3 := Call1(call, probe, r2);
    if !c3.aborted {
      var rep3 := LastReply(c3.trace);
      assert [rep1, rep2] + [rep3] == [rep1, rep2, rep3];
      Finished(call, t, d, c3, [rep1, rep2, rep3]);
    }
    assert Drive(call, t, d, c2.state, [rep1, rep2]) == c3;
    assert Drive(call, t, d, r1.state, [rep1]) == Prefix(c2.trace, c3);
    ChildAgrees(r1, c2.trace, r2, c3, r3);
  }

  /** exists and absent, driven by the generator, make one probe. */
  lemma ProbeAgrees<S>(call: Backend<S>, t: Target, probe: Capability, d: int, r: Ref<S>)
    requires !r.aborted
    requires (t, probe) == (Exists, ExistsCap) || (t, probe) == (Absent, AbsentCap)
    ensures Agrees(r, Drive(call, t, d, r.state, []), Call1(call, probe, r))
  {
    DriveStep(call, t, d, r.state, []);
    var c1 := RunTransition(call, Leaf(probe), d, r.state);
    LeafAgrees(call, probe, d, r);
    if !c1.aborted {
      assert [] + [LastReply(c1.trace)] == [LastReply(c1.trace)];
      Finished(call, t, d, c1, [LastReply(c1.trace)]);
    }
  }

  /** recreated, driven by the generator, runs deleted and then created as children. */
  lemma {:induction false} RecreatedAgrees<S>(call: Backend<S>, d: int, r: Ref<S>)
    requires !r.aborted
    ensures Agrees(r, Drive(call, Recreated, d, r.state, []), Reference(call, Recreated, r))
    decreases Rank(Recreated), 0
  {
    DriveStep(call, Recreated, d, r.state, []);
    var c1 := RunTransition(call, Composite(Deleted), d, r.state);
    DriverAgrees(call, Deleted, d, r);
    var r1 := Reference(call, Deleted, r);
    if c1.aborted {
      assert Reference(call, Created, r1) == r1;
      return;
    }
    var rep1 := LastReply(c1.trace);
    assert [] + [rep1] == [rep1];
    DriveStep(call, Recreated, d, c1.state, [rep1]);
    var c2 := RunTransition(call, Composite(Created), d, c1.state);
    DriverAgrees(call, Created, d, r1);
    if !c2.aborted {
      var rep2 := LastReply(c2.trace);
      assert [rep1] + [rep2] == [rep1, rep2];
      Finished(call, Recreated, d, c2, [rep1, rep2]);
    }
    ChildAgrees(r, c1.trace, r1, c2, Reference(call, Created, r1));
  }

  /**
   * Driving any target state through the generator makes exactly the
   * capability calls of `Reference`, in the same order, and leaves the same
   * backend state and final answer.
   */
  lemma {:induction false} DriverAgrees<S>(call: Backend<S>, t: Target, d: int, r: Ref<S>)
    requires !r.aborted
    ensures Agrees(r, RunTransition(call, Composite(t), d, r.state), Reference(call, t, r))
    decreases Rank(t), 1
  {
    match t {
      case Created => ConvergeAgrees(call, t, ExistsCap, CreateCap, d + 1, r);
      case Deleted => ConvergeAgrees(call, t, AbsentCap, DeleteCap, d + 1, r);
      case Exists => ProbeAgrees(call, t, ExistsCap, d + 1, r);
      case Absent => ProbeAgrees(call, t, AbsentCap, d + 1, r);
      case Recreated => RecreatedAgrees(call, d + 1, r);
    }
    assert LeafCalls([Start(d + 1, t)]) == [];
    ChildAgrees(r, [Start(d + 1, t)], r, Drive(call, t, d + 1, r.state, []), Reference(call, t, r));
  }

  /**
   * `execute` on any backend: its answer is the straight-line policy's last
   * answer, its leaf calls are the policy's calls, and the "nothing was
   * executed" `RuntimeError` never happens; only an escaping `StopIteration`
   * makes it raise.
   */
  lemma ExecuteFollowsReference<S>(call: Backend<S>, t: Target, s: S)
    ensures var run := Execution(call, t, s);
            var ref := Reference(call, t, Begin(s));
            && run.state == ref.state
            && LeafCalls(run.trace) == ref.calls
            && (ref.aborted ==> ExecuteResult(run) == Raise(RuntimeError, "Unexpected StopIteration"))
            && (!ref.aborted ==> ExecuteResult(run) == Ok((Some(ref.last.value.0), ref.last.value.1)))
  {
    DriverAgrees(call, t, 0, Begin(s));
  }

  /** A probe's answer counts as a failure: `(False, …)`, or an exception the engine records as one. */
  predicate Declines(o: Outcome) {
    o.Raised? || (o.Returned? && !o.ok)
  }

  /**
   * A converging target whose first probe fails without changing the state,
   * whose action does not stop the generator and whose second probe succeeds
   * makes exactly those three calls, and succeeds in the state the action left.
   */
  lemma ConvergeOnce<S>(call: Backend<S>, t: Target, probe: Capability, act: Capability, s0: S, s1: S, m2: string)
    requires || (t == Created && probe == ExistsCap && act == CreateCap)
             || (t == Deleted && probe == AbsentCap && act == DeleteCap)
    requires call(s0, probe).0 == s0 && Declines(call(s0, probe).1)
    requires call(s0, act).0 == s1 && !call(s0, act).1.StopIter?
    requires call(s1, probe) == (s1, Returned(true, m2))
    ensures var run := Execution(call, t, s0);
            && ExecuteResult(run) == Ok((Some(true), m2))
            && run.state == s1
            && LeafCalls(run.trace) == [probe, act, probe]
  {
    ExecuteFollowsReference(call, t, s0);
    ConvergeOnceRef(call, probe, act, s0, s1, m2);
  }

  lemma ConvergeOnceRef<S>(call: Backend<S>, probe: Capability, act: Capability, s0: S, s1: S, m2: string)
    requires call(s0, probe).0 == s0 && Declines(call(s0, probe).1)
    requires call(s0, act).0 == s1 && !call(s0, act).1.StopIter?
    requires call(s1, probe) == (s1, Returned(true, m2))
    ensures Converge(call, probe, act, Begin(s0)) == Ref(s1, [probe, act, probe], Some((true, m2)), false)
  {
    var r1 := Call1(call, probe, Begin(s0));
    assert r1.state == s0 && r1.calls == [probe] && !r1.aborted && !r1.last.value.0;
    var r2 := Call1(call, act, r1);
    assert r2.state == s1 && r2.calls == [probe, act] && !r2.aborted;
  }

  /** A probing target makes its one call and answers what the probe answered, in the same state. */
  lemma ProbeOnce<S>(call: Backend<S>, t: Target, probe: Capability, s: S, ok: bool, m: string)
    requires (t == Exists && probe == ExistsCap) || (t == Absent && probe == AbsentCap)
    requires call(s, probe) == (s, Returned(ok, m))
    ensures var run := Execution(call, t, s);
            && ExecuteResult(run) == Ok((Some(ok), m))
            && run.state == s
            && LeafCalls(run.trace) == [probe]
  {
    ExecuteFollowsReference(call, t, s);
  }

  /**
   * recreated is the whole deleted run followed by the whole created run,
   * and answers whatever the created phase answers.
   */
  lemma RecreatedIsDeletedThenCreated<S>(call: Backend<S>, s: S)
    ensures var del := Execution(call, Deleted, s);
            var rec := Execution(call, Recreated, s);
            !del.aborted ==>
              var cre := Execution(call, Created, del.state);
              && LeafCalls(rec.trace) == LeafCalls(del.trace) + LeafCalls(cre.trace)
              && rec.state == cre.state
              && ExecuteResult(rec) == ExecuteResult(cre)
  {
    var del := Execution(call, Deleted, s);
    ExecuteFollowsReference(call, Deleted, s);
    ExecuteFollowsReference(call, Recreated, s);
    if !del.aborted {
      var r1 := Reference(call, Deleted, Begin(s));
      ExecuteFollowsReference(call, Created, del.state);
      DriverAgrees(call, Created, 0, r1);
      DriverAgrees(call, Created, 0, Begin(del.state));
    }
  }

  /** The records of a trace lie between depths `lo` and `hi`, and exactly the composites' START records lack an `ok`. */
  predicate Shaped(trace: seq<Record>, lo: int, hi: int) {
    forall i :: 0 <= i < |trace| ==>
      && lo <= trace[i].depth <= hi
      && (trace[i].ok.None? <==> trace[i].call.StateCall?)
      && (trace[i].call.StateCall? ==> trace[i].msg == "START")
  }

  lemma ShapedAppend(a: seq<Record>, b: seq<Record>, lo: int, hi: int)
    requires Shaped(a, lo, hi) && Shaped(b, lo, hi)
    ensures Shaped(a + b, lo, hi)
  {
  }

  /** A transition run at depth `d` emits records at depths `d + 1` to `d + 1 + rank`. */
  lemma {:induction false} TransitionShape<S>(call: Backend<S>, tr: Transition, d: int, s: S)
    ensures Shaped(RunTransition(call, tr, d, s).trace, d + 1, d + 1 + RankOf(tr))
    ensures tr.Composite? ==> RunTransition(call, tr, d, s).trace[0] == Start(d + 1, tr.target)
    decreases RankOf(tr), 1, 0
  {
    if tr.Composite? {
      DriveShape(call, tr.target, d + 1, s, []);
      ShapedAppend([Start(d + 1, tr.target)], Drive(call, tr.target, d + 1, s, []).trace, d + 1, d + 1 + RankOf(tr));
    }
  }

  lemma {:induction false} DriveShape<S>(call: Backend<S>, t: Target, d: int, s: S, replies: seq<Reply>)
    ensures Shaped(Drive(call, t, d, s, replies).trace, d + 1, d + Rank(t))
    decreases Rank(t), 0, 3 - |replies|
  {
    match Yield(t, replies) {
      case None =>
      case Some(tr) =>
        var child := RunTransition(call, tr, d, s);
        TransitionShape(call, tr, d, s);
        if !child.aborted {
          var next := replies + [LastReply(child.trace)];
          DriveShape(call, t, d, child.state, next);
          ShapedAppend(child.trace, Drive(call, t, d, child.state, next).trace, d + 1, d + Rank(t));
        }
    }
  }

  /**
   * The trace `execute` hands to the hook starts with the target's START at
   * depth 1; capability calls sit at depth 2 (3 inside recreated's phases),
   * and only START records carry no `ok`.
   */
  lemma ExecutionShape<S>(call: Backend<S>, t: Target, s: S)
    ensures Execution(call, t, s).trace[0] == Start(1, t)
    ensures Shaped(Execution(call, t, s).trace, 1, 1 + Rank(t))
  {
    TransitionShape(call, Composite(t), 0, s);
  }

  /** An operator that defines no capability fails every target with "Not Supported Error". */
  lemma BareOperatorFails<S>(impl: Backend<S>, t: Target, s: S)
    ensures ExecuteResult(Execution(WithDefaults({}, impl), t, s)) == Ok((Some(false), ErrorNotSupport))
    ensures Execution(WithDefaults({}, impl), t, s).state == s
  {
    ExecuteFollowsReference(WithDefaults({}, impl), t, s);
  }
}
