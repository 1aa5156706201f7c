/**
 * The constant operators of `src/modules/mock.py` and what the engine does
 * with them.  Their capabilities accept no keyword arguments, so a call
 * with step parameters raises `TypeError` inside the engine.
 */
module Mock {
  import opened Wrappers
  import opened Engine
  import opened EngineSpec

  function CapabilityName(c: Capability): string {
    match c
    case CreateCap => "create"
    case DeleteCap => "delete"
    case ExistsCap => "exists"
    case AbsentCap => "absent"
  }

  function TrueMessage(c: Capability): string {
    match c
    case CreateCap => "a resource created(absolutely True)."
    case DeleteCap => "a resource deleted(absolutely True)."
    case ExistsCap => "a resource exists(absolutely True)."
    case AbsentCap => "a resource absent(absolutely True)."
  }

  function FalseMessage(c: Capability): string {
    match c
    case CreateCap => "a resource cant created(absolutely False)."
    case DeleteCap => "a resource cant deleted(absolutely False)."
    case ExistsCap => "a resource not exists(absolutely False)."
    case AbsentCap => "a resource not absent(absolutely False)."
  }

  /** The `TypeError` Python raises when a method without parameters gets keyword `kw`. */
  function UnexpectedKeyword(cls: string, c: Capability, kw: string): string {
    cls + "." + CapabilityName(c) + "() got an unexpected keyword argument '" + kw + "'"
  }

  /**
   * A mock operator called with the step parameters `kwargs`; `tb` stands
   * for the traceback text of a raised call.
   */
  function Mock<S>(cls: string, ok: bool, kwargs: seq<string>, tb: string): Backend<S> {
    (s: S, c: Capability) =>
      if kwargs == [] then (s, Returned(ok, if ok then TrueMessage(c) else FalseMessage(c)))
      else (s, Raised(UnexpectedKeyword(cls, c, kwargs[0]), tb))
  }

  function TrueResource<S>(kwargs: seq<string>, tb: string): Backend<S> {
    Mock("TrueResource", true, kwargs, tb)
  }

  function FalseResource<S>(kwargs: seq<string>, tb: string): Backend<S> {
    Mock("FalseResource", false, kwargs, tb)
  }

  /** Every capability of `TrueResource` answers `(True, <fixed message>)`. */
  lemma TrueResourceAnswers<S>(tb: string, s: S, c: Capability)
    ensures TrueResource([], tb)(s, c) == (s, Returned(true, TrueMessage(c)))
  {
  }

  /** Every capability of `FalseResource` answers `(False, <fixed message>)`. */
  lemma FalseResourceAnswers<S>(tb: string, s: S, c: Capability)
    ensures FalseResource([], tb)(s, c) == (s, Returned(false, FalseMessage(c)))
  {
  }

  /** The capability whose answer ends a target's run when its first probe succeeds. */
  function Probe(t: Target): Capability {
    match t
    case Created => ExistsCap
    case Exists => ExistsCap
    case Recreated => ExistsCap
    case Deleted => AbsentCap
    case Absent => AbsentCap
  }

  /** The leaf calls against an operator whose every probe succeeds. */
  function SucceedingCalls(t: Target): seq<Capability> {
    if t == Recreated then [AbsentCap, ExistsCap] else [Probe(t)]
  }

  /** The leaf calls against an operator whose every call fails. */
  function FailingCalls(t: Target): seq<Capability> {
    match t
    case Created => [ExistsCap, CreateCap, ExistsCap]
    case Deleted => [AbsentCap, DeleteCap, AbsentCap]
    case Exists => [ExistsCap]
    case Absent => [AbsentCap]
    case Recreated => [AbsentCap, DeleteCap, AbsentCap, ExistsCap, CreateCap, ExistsCap]
  }

  /** What the engine records for one call of a mock. */
  function MockReply(cls: string, ok: bool, kwargs: seq<string>, tb: string, c: Capability): Reply {
    if kwargs == [] then (ok, if ok then TrueMessage(c) else FalseMessage(c))
    else (false, UnexpectedKeyword(cls, c, kwargs[0]) + "\n" + tb)
  }

  lemma MockCall<S>(cls: string, ok: bool, kwargs: seq<string>, tb: string, c: Capability, r: Ref<S>)
    requires !r.aborted
    ensures Call1(Mock(cls, ok, kwargs, tb), c, r) == Ref(r.state, r.calls + [c], Some(MockReply(cls, ok, kwargs, tb, c)), false)
  {
  }

  /** A mock's probe-act-probe: one call when the probe succeeds, three when it fails. */
  lemma MockConverge<S>(cls: string, ok: bool, kwargs: seq<string>, tb: string, probe: Capability, act: Capability, r: Ref<S>)
    requires !r.aborted
    ensures Converge(Mock(cls, ok, kwargs, tb), probe, act, r) ==
            Ref(r.state, r.calls + (if ok && kwargs == [] then [probe] else [probe, act, probe]),
                Some(MockReply(cls, ok, kwargs, tb, probe)), false)
  {
    var m := Mock<S>(cls, ok, kwargs, tb);
    MockCall(cls, ok, kwargs, tb, probe, r);
    var r1 := Call1(m, probe, r);
    if !(ok && kwargs == []) {
      MockCall(cls, ok, kwargs, tb, act, r1);
      var r2 := Call1(m, act, r1);
      MockCall(cls, ok, kwargs, tb, probe, r2);
      assert r.calls + [probe] + [act] + [probe] == r.calls + [probe, act, probe];
    }
  }

  /** A mock's straight-line run: it never aborts and answers its last call's reply. */
  lemma MockReference<S>(cls: string, ok: bool, kwargs: seq<string>, tb: string, t: Target, s: S)
    ensures var calls := if ok && kwargs == [] then SucceedingCalls(t) else FailingCalls(t);
            Reference(Mock(cls, ok, kwargs, tb), t, Begin(s)) ==
            Ref(s, calls, Some(MockReply(cls, ok, kwargs, tb, Probe(t))), false)
  {
    var r0 := Begin(s);
    match t
    case Exists => MockCall(cls, ok, kwargs, tb, ExistsCap, r0);
    case Absent => MockCall(cls, ok, kwargs, tb, AbsentCap, r0);
    case Created => MockConverge(cls, ok, kwargs, tb, ExistsCap, CreateCap, r0);
    case Deleted => MockConverge(cls, ok, kwargs, tb, AbsentCap, DeleteCap, r0);
    case Recreated => MockRecreated(cls, ok, kwargs, tb, s);
  }

  lemma MockRecreated<S>(cls: string, ok: bool, kwargs: seq<string>, tb: string, s: S)
    ensures var calls := if ok && kwargs == [] then SucceedingCalls(Recreated) else FailingCalls(Recreated);
            Reference(Mock(cls, ok, kwargs, tb), Recreated, Begin(s)) ==
            Ref(s, calls, Some(MockReply(cls, ok, kwargs, tb, ExistsCap)), false)
  {
    var pass := ok && kwargs == [];
    var c1: seq<Capability> := if pass then [AbsentCap] else [AbsentCap, DeleteCap, AbsentCap];
    var ra := MockReply(cls, ok, kwargs, tb, AbsentCap);
    MockConverge(cls, ok, kwargs, tb, AbsentCap, DeleteCap, Begin(s));
    assert Begin(s).calls + c1 == c1;
    MockConverge(cls, ok, kwargs, tb, ExistsCap, CreateCap, Ref(s, c1, Some(ra), false));
    RecreatedFixed(Mock(cls, ok, kwargs, tb), s, pass, ra, MockReply(cls, ok, kwargs, tb, ExistsCap));
  }

  /**
   * recreated against an operator that never changes state: the absent
   * phase, then the exists phase from where it left off.
   */
  lemma RecreatedFixed<S>(call: Backend<S>, s: S, pass: bool, ra: Reply, re: Reply)
    requires var c1: seq<Capability> := if pass then [AbsentCap] else [AbsentCap, DeleteCap, AbsentCap];
             && Converge(call, AbsentCap, DeleteCap, Begin(s)) == Ref(s, c1, Some(ra), false)
             && Converge(call, ExistsCap, CreateCap, Ref(s, c1, Some(ra), false)) ==
                Ref(s, c1 + (if pass then [ExistsCap] else [ExistsCap, CreateCap, ExistsCap]), Some(re), false)
    ensures Reference(call, Recreated, Begin(s)) ==
            Ref(s, if pass then SucceedingCalls(Recreated) else FailingCalls(Recreated), Some(re), false)
  {
    if pass {
      assert [AbsentCap] + [ExistsCap] == SucceedingCalls(Recreated);
    } else {
      assert [AbsentCap, DeleteCap, AbsentCap] + [ExistsCap, CreateCap, ExistsCap] == FailingCalls(Recreated);
    }
  }

  /**
   * Under the engine every target succeeds for `TrueResource`: created
   * stops after one exists call, recreated makes exactly absent then exists.
   */
  lemma TrueResourceSucceeds<S>(tb: string, t: Target, s: S)
    ensures var run := Execution(TrueResource([], tb), t, s);
            && run.state == s
            && ExecuteResult(run) == Ok((Some(true), TrueMessage(Probe(t))))
            && LeafCalls(run.trace) == SucceedingCalls(t)
            && |LeafCalls(run.trace)| == (if t == Recreated then 2 else 1)
  {
    ExecuteFollowsReference(TrueResource<S>([], tb), t, s);
    MockReference<S>("TrueResource", true, [], tb, t, s);
  }

  /**
   * Under the engine every target fails for `FalseResource`: created and
   * deleted make three calls, recreated six.
   */
  lemma FalseResourceFails<S>(tb: string, t: Target, s: S)
    ensures var run := Execution(FalseResource([], tb), t, s);
            && run.state == s
            && ExecuteResult(run) == Ok((Some(false), FalseMessage(Probe(t))))
            && LeafCalls(run.trace) == FailingCalls(t)
            && |LeafCalls(run.trace)| == (match t case Recreated => 6 case Exists => 1 case Absent => 1 case _ => 3)
  {
    ExecuteFollowsReference(FalseResource<S>([], tb), t, s);
    MockReference<S>("FalseResource", false, [], tb, t, s);
  }

  /**
   * Given step parameters, either mock fails every target: each call raises
   * `TypeError`, which the engine turns into a failed record.
   */
  lemma MockWithParamsFails<S>(ok: bool, kwargs: seq<string>, tb: string, t: Target, s: S)
    requires kwargs != []
    ensures var cls := if ok then "TrueResource" else "FalseResource";
            var run := Execution(Mock(cls, ok, kwargs, tb), t, s);
            && run.state == s
            && ExecuteResult(run) == Ok((Some(false), UnexpectedKeyword(cls, Probe(t), kwargs[0]) + "\n" + tb))
            && LeafCalls(run.trace) == FailingCalls(t)
  {
    var cls := if ok then "TrueResource" else "FalseResource";
    ExecuteFollowsReference(Mock<S>(cls, ok, kwargs, tb), t, s);
    MockReference<S>(cls, ok, kwargs, tb, t, s);
  }
}
