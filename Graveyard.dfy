/**
 * The graveyard: it receives one raw tombstone hit, turns it into a record
 * (a "vampire": the proof that the tombstone is still alive) and hands that
 * record to every registered handler. A handler that fails is reported to
 * the optional logger; the failure never reaches the instrumented caller.
 *
 * Handlers and the logger are outside collaborators. They are modelled by
 * what they observe: one ordered event log of `Effect`s.
 */
module Graveyards {
  import opened Wrappers
  import opened Paths

  /** One raw stack-trace entry, as the instrumented call site delivers it. */
  datatype Frame = Frame(file: string, line: int, callee: string)

  /**
   * The arguments of one tombstone hit, `logTombstoneCall(type, args, trace, meta)`.
   * The three-argument `tombstone(args, trace, meta)` form carries the same
   * data without the type; it is this call with an empty `kind`.
   * Argument and metadata values are opaque (`V`): only handlers interpret them.
   */
  datatype Call<V> = Call(kind: string, arguments: seq<V>, trace: seq<Frame>, metadata: seq<(string, V)>)

  /** A stack-trace entry of a record: its file is a reference relative to the root directory. */
  datatype StackFrame = StackFrame(file: FileReference, line: int, callee: string)

  /**
   * The record handed to handlers. `position` is the call site (the first raw
   * frame), absent when the raw trace is empty; `stackTrace` holds the frames
   * nearest to the call site, up to the configured depth.
   */
  datatype Vampire<V> = Vampire(
    kind: string,
    arguments: seq<V>,
    position: Option<StackFrame>,
    stackTrace: seq<StackFrame>,
    metadata: seq<(string, V)>)

  /** A handler, known by its name and by how its `log` call ends for each record. */
  datatype Handler<!V> = Handler(name: string, outcome: Vampire<V> -> Outcome<string>)

  /** The error-level sink that hears about failing handlers. */
  datatype Logger = Logger(name: string)

  /** What a graveyard is built with; fixed for its lifetime. `None` depth means unlimited. */
  datatype Config<!V> = Config(
    handlers: seq<Handler<V>>,
    logger: Option<Logger>,
    rootDir: string,
    stackTraceDepth: Option<nat>)

  /** What the outside world observes: a handler's `log(record)`, or the logger's `error` about handler `handler`. */
  datatype Effect<V> = Logged(handler: nat, record: Vampire<V>) | ErrorLogged(handler: nat, error: string)

  /** A call arriving at a graveyard through its public interface. */
  datatype InnerEvent<V> = LogCall(call: Call<V>) | FlushCall

  // ----- Building the record -----

  function RelativeFrame(root: string, f: Frame): (s: StackFrame)
    ensures s.file == Reference(root, f.file) && s.line == f.line && s.callee == f.callee
  {
    StackFrame(Reference(root, f.file), f.line, f.callee)
  }

  /** The first `depth` entries of `s`, or all of them when no depth is set or `s` is shorter. */
  function Truncate<T>(s: seq<T>, depth: Option<nat>): (r: seq<T>)
    ensures |r| == if depth.Some? && depth.value < |s| then depth.value else |s|
    ensures r <= s
  {
    if depth.Some? && depth.value < |s| then s[..depth.value] else s
  }

  /**
   * The record for one hit: the call's kind, arguments and metadata carried
   * unchanged; the nearest `depth` frames, in order, each with its path made
   * relative to the root directory; the call site taken from the first raw frame.
   */
  function MakeVampire<V>(config: Config<V>, call: Call<V>): (v: Vampire<V>)
    ensures v.kind == call.kind && v.arguments == call.arguments && v.metadata == call.metadata
    ensures |v.stackTrace| == if config.stackTraceDepth.Some? && config.stackTraceDepth.value < |call.trace|
                              then config.stackTraceDepth.value else |call.trace|
    ensures v.position == if call.trace == [] then None else Some(RelativeFrame(config.rootDir, call.trace[0]))
  {
    var frames := seq(|call.trace|, i requires 0 <= i < |call.trace| => RelativeFrame(config.rootDir, call.trace[i]));
    Vampire(
      call.kind,
      call.arguments,
      if call.trace == [] then None else Some(frames[0]),
      Truncate(frames, config.stackTraceDepth),
      call.metadata)
  }

  /** The record's frames are the raw frames nearest to the call site, in order, each relativised. */
  lemma RecordKeepsNearestFrames<V>(config: Config<V>, call: Call<V>)
    ensures var v := MakeVampire(config, call);
      forall i :: 0 <= i < |v.stackTrace| ==> v.stackTrace[i] == RelativeFrame(config.rootDir, call.trace[i])
  {
  }

  // ----- Dispatch, as a specification -----

  /** What handler number `i` causes for record `v`: its `log`, then a report if it failed and a logger is there. */
  function HandlerEffects<V>(i: nat, h: Handler<V>, logger: Option<Logger>, v: Vampire<V>): seq<Effect<V>>
  {
    match h.outcome(v)
    case Pass => [Logged(i, v)]
    case Fail(e) => if logger.Some? then [Logged(i, v), ErrorLogged(i, e)] else [Logged(i, v)]
  }

  /** The effects of dispatching `v` to the handlers `hs`, in registration order. */
  function Dispatch<V>(hs: seq<Handler<V>>, logger: Option<Logger>, v: Vampire<V>): seq<Effect<V>>
    decreases |hs|
  {
    if hs == [] then []
    else Dispatch(hs[..|hs| - 1], logger, v) + HandlerEffects(|hs| - 1, hs[|hs| - 1], logger, v)
  }

  /** The effects of a graveyard with configuration `config` receiving `calls` one after another. */
  function CallEffects<V>(config: Config<V>, calls: seq<Call<V>>): seq<Effect<V>>
    decreases |calls|
  {
    if calls == [] then []
    else CallEffects(config, calls[..|calls| - 1])
         + Dispatch(config.handlers, config.logger, MakeVampire(config, calls[|calls| - 1]))
  }

  /** One more call adds exactly that call's dispatch to the effects. */
  lemma CallEffectsSnoc<V>(config: Config<V>, calls: seq<Call<V>>, call: Call<V>)
    ensures CallEffects(config, calls + [call])
            == CallEffects(config, calls) + Dispatch(config.handlers, config.logger, MakeVampire(config, call))
  {
    assert (calls + [call])[..|calls|] == calls;
  }

  // ----- Reading an effect log -----

  /** The handlers whose `log` was called, in call order. */
  function Deliveries<V>(es: seq<Effect<V>>): seq<nat>
    decreases |es|
  {
    if es == [] then []
    else Deliveries(es[..|es| - 1]) + (if es[|es| - 1].Logged? then [es[|es| - 1].handler] else [])
  }

  /** The handlers the logger was told about, in report order. */
  function Reports<V>(es: seq<Effect<V>>): seq<nat>
    decreases |es|
  {
    if es == [] then []
    else Reports(es[..|es| - 1]) + (if es[|es| - 1].ErrorLogged? then [es[|es| - 1].handler] else [])
  }

  /** The tombstone calls among `events`, in the order they arrived. */
  function Forwarded<V>(events: seq<InnerEvent<V>>): seq<Call<V>>
    decreases |events|
  {
    if events == [] then []
    else (if events[0].LogCall? then [events[0].call] else []) + Forwarded(events[1..])
  }

  /** How many `flush` calls are among `events`. */
  function FlushCount<V>(events: seq<InnerEvent<V>>): nat
    decreases |events|
  {
    if events == [] then 0
    else (if events[0].FlushCall? then 1 else 0) + FlushCount(events[1..])
  }

  /** Reading the events of two logs one after the other reads each in turn. */
  lemma {:induction false} ForwardedAppend<V>(a: seq<InnerEvent<V>>, b: seq<InnerEvent<V>>)
    ensures Forwarded(a + b) == Forwarded(a) + Forwarded(b)
    ensures FlushCount(a + b) == FlushCount(a) + FlushCount(b)
    decreases |a|
  {
    if a == [] {
      assert a + b == b;
    } else {
      assert (a + b)[0] == a[0];
      assert (a + b)[1..] == a[1..] + b;
      ForwardedAppend(a[1..], b);
    }
  }

  /** Receiving one more tombstone call adds exactly that call's dispatch to what its calls cause. */
  lemma ReceivingCallDispatchesIt<V>(config: Config<V>, received: seq<InnerEvent<V>>, call: Call<V>)
    ensures CallEffects(config, Forwarded(received + [LogCall(call)]))
            == CallEffects(config, Forwarded(received)) + Dispatch(config.handlers, config.logger, MakeVampire(config, call))
  {
    ForwardedAppend(received, [LogCall(call)]);
    assert Forwarded([LogCall(call)]) == [call];
    CallEffectsSnoc(config, Forwarded(received), call);
  }

  /** `0, 1, ..., n - 1`. */
  function Indices(n: nat): seq<nat>
  {
    if n == 0 then [] else Indices(n - 1) + [n - 1]
  }

  /** `Indices(n)` lists each number below `n` once, at its own position. */
  lemma {:induction false} IndicesAreIdentity(n: nat)
    ensures |Indices(n)| == n && forall i :: 0 <= i < n ==> Indices(n)[i] == i
  {
    if n > 0 {
      IndicesAreIdentity(n - 1);
    }
  }

  predicate StrictlyIncreasing(s: seq<nat>)
  {
    forall i, j :: 0 <= i < j < |s| ==> s[i] < s[j]
  }

  lemma {:induction false} DeliveriesAppend<V>(a: seq<Effect<V>>, b: seq<Effect<V>>)
    ensures Deliveries(a + b) == Deliveries(a) + Deliveries(b)
    ensures Reports(a + b) == Reports(a) + Reports(b)
    decreases |b|
  {
    if b != [] {
      var b' := b[..|b| - 1];
      assert (a + b)[..|a + b| - 1] == a + b';
      DeliveriesAppend(a, b');
    } else {
      assert a + b == a;
    }
  }

  /** One handler's effects: its own `log` call, and a report of it exactly when it failed and a logger is there. */
  lemma HandlerEffectsRead<V>(i: nat, h: Handler<V>, logger: Option<Logger>, v: Vampire<V>)
    ensures Deliveries(HandlerEffects(i, h, logger, v)) == [i]
    ensures Reports(HandlerEffects(i, h, logger, v)) == if logger.Some? && h.outcome(v).Fail? then [i] else []
    ensures forall e :: e in HandlerEffects(i, h, logger, v) && e.Logged? ==> e.record == v
    ensures forall e :: e in HandlerEffects(i, h, logger, v) && e.ErrorLogged? ==> e.handler == i && h.outcome(v) == Fail(e.error)
  {
    var logged: seq<Effect<V>> := [Logged(i, v)];
    assert logged[..0] == [];
    assert Deliveries(logged) == Deliveries(logged[..0]) + [i];
    assert Reports(logged) == Reports(logged[..0]);
    if logger.Some? && h.outcome(v).Fail? {
      var all := logged + [ErrorLogged(i, h.outcome(v).error)];
      assert all[..1] == logged;
      assert HandlerEffects(i, h, logger, v) == all;
    } else {
      assert HandlerEffects(i, h, logger, v) == logged;
    }
  }

  /** Dispatching to one more handler adds exactly that handler's effects. */
  lemma DispatchSnoc<V>(hs: seq<Handler<V>>, logger: Option<Logger>, v: Vampire<V>)
    requires hs != []
    ensures Deliveries(Dispatch(hs, logger, v)) == Deliveries(Dispatch(hs[..|hs| - 1], logger, v)) + [|hs| - 1]
    ensures Reports(Dispatch(hs, logger, v)) == Reports(Dispatch(hs[..|hs| - 1], logger, v))
              + (if logger.Some? && hs[|hs| - 1].outcome(v).Fail? then [|hs| - 1] else [])
  {
    var n := |hs| - 1;
    DeliveriesAppend(Dispatch(hs[..n], logger, v), HandlerEffects(n, hs[n], logger, v));
    HandlerEffectsRead(n, hs[n], logger, v);
  }

  /**
   * Every registered handler is called exactly once, in registration order,
   * and every handler is handed the same record, whatever other handlers do.
   */
  lemma {:induction false} DispatchReachesEveryHandlerOnce<V>(hs: seq<Handler<V>>, logger: Option<Logger>, v: Vampire<V>)
    ensures Deliveries(Dispatch(hs, logger, v)) == Indices(|hs|)
    ensures forall e :: e in Dispatch(hs, logger, v) && e.Logged? ==> e.record == v
    decreases |hs|
  {
    if hs != [] {
      var n := |hs| - 1;
      DispatchReachesEveryHandlerOnce(hs[..n], logger, v);
      DispatchSnoc(hs, logger, v);
      HandlerEffectsRead(n, hs[n], logger, v);
    }
  }

  /** Handler `i` is reported exactly when a logger is configured and that handler's `log` failed. */
  lemma {:induction false} ReportedIffFailed<V>(hs: seq<Handler<V>>, logger: Option<Logger>, v: Vampire<V>, i: nat)
    ensures i in Reports(Dispatch(hs, logger, v)) <==> logger.Some? && i < |hs| && hs[i].outcome(v).Fail?
    decreases |hs|
  {
    if hs != [] {
      var n := |hs| - 1;
      var front := Reports(Dispatch(hs[..n], logger, v));
      var last: seq<nat> := if logger.Some? && hs[n].outcome(v).Fail? then [n] else [];
      ReportedIffFailed(hs[..n], logger, v, i);
      DispatchSnoc(hs, logger, v);
      assert (i in Reports(Dispatch(hs, logger, v))) == (i in front || i in last);
      assert (i in front) == (logger.Some? && i < n && hs[i].outcome(v).Fail?) by {
        if i < n {
          assert hs[..n][i] == hs[i];
        }
      }
      assert (i in last) == (logger.Some? && i == n && hs[n].outcome(v).Fail?);
    }
  }

  /**
   * The logger hears about a handler exactly when a logger is configured and
   * that handler's `log` failed.
   */
  lemma ReportsAreFailures<V>(hs: seq<Handler<V>>, logger: Option<Logger>, v: Vampire<V>)
    ensures forall i: nat :: i in Reports(Dispatch(hs, logger, v)) <==> logger.Some? && i < |hs| && hs[i].outcome(v).Fail?
  {
    forall i: nat
      ensures i in Reports(Dispatch(hs, logger, v)) <==> logger.Some? && i < |hs| && hs[i].outcome(v).Fail?
    {
      ReportedIffFailed(hs, logger, v, i);
    }
  }

  /** The logger hears about each failing handler once, in registration order. */
  lemma {:induction false} ReportsInRegistrationOrder<V>(hs: seq<Handler<V>>, logger: Option<Logger>, v: Vampire<V>)
    ensures StrictlyIncreasing(Reports(Dispatch(hs, logger, v)))
    decreases |hs|
  {
    if hs != [] {
      var n := |hs| - 1;
      var front := Reports(Dispatch(hs[..n], logger, v));
      ReportsInRegistrationOrder(hs[..n], logger, v);
      ReportsAreFailures(hs[..n], logger, v);
      DispatchSnoc(hs, logger, v);
      forall k | 0 <= k < |front|
        ensures front[k] < n
      {
        assert front[k] in front;
      }
    }
  }

  /** Each report carries the error of the handler it names. */
  lemma {:induction false} ReportsCarryHandlerError<V>(hs: seq<Handler<V>>, logger: Option<Logger>, v: Vampire<V>)
    ensures forall e :: e in Dispatch(hs, logger, v) && e.ErrorLogged? ==>
              e.handler < |hs| && hs[e.handler].outcome(v) == Fail(e.error)
    decreases |hs|
  {
    if hs != [] {
      var n := |hs| - 1;
      var front := Dispatch(hs[..n], logger, v);
      var tail := HandlerEffects(n, hs[n], logger, v);
      ReportsCarryHandlerError(hs[..n], logger, v);
      HandlerEffectsRead(n, hs[n], logger, v);
      assert Dispatch(hs, logger, v) == front + tail;
      forall e: Effect<V> | e in front + tail && e.ErrorLogged?
        ensures e.handler < |hs| && hs[e.handler].outcome(v) == Fail(e.error)
      {
        if e in front {
          assert hs[..n][e.handler] == hs[e.handler];
        }
      }
    }
  }

  /**
   * Calls every handler's `log` with `v` in turn and returns what that caused:
   * a failing handler is reported to the logger when there is one, and
   * dispatch goes on with the next handler.
   */
  method Notify<V>(handlers: seq<Handler<V>>, logger: Option<Logger>, v: Vampire<V>) returns (caused: seq<Effect<V>>)
    ensures caused == Dispatch(handlers, logger, v)
  {
    caused := [];
    var i := 0;
    while i < |handlers|
      invariant 0 <= i <= |handlers|
      invariant caused == Dispatch(handlers[..i], logger, v)
      decreases |handlers| - i
    {
      caused := caused + [Logged(i, v)];
      var outcome := handlers[i].outcome(v);
      if outcome.Fail? && logger.Some? {
        caused := caused + [ErrorLogged(i, outcome.error)];
      }
      assert handlers[..i + 1][..i] == handlers[..i];
      i := i + 1;
    }
    assert handlers[..i] == handlers;
  }

  /** A graveyard whose configuration is `config`; it records what it receives and what it causes. */
  class Graveyard<V> {
    const config: Config<V>
    /** What handlers and the logger observed, in order: an observation log, not state the graveyard keeps. */
    ghost var effects: seq<Effect<V>>
    /** The calls that reached this graveyard, in order: what a recording double would see. */
    ghost var received: seq<InnerEvent<V>>

    /** What handlers and the logger observed is the dispatch of every call received, in order. */
    ghost predicate Valid()
      reads this
    {
      effects == CallEffects(config, Forwarded(received))
    }

    constructor (config: Config<V>)
      ensures Valid()
      ensures this.config == config && effects == [] && received == []
    {
      this.config := config;
      effects := [];
      received := [];
    }

    /**
     * Builds the record and calls every handler's `log` in turn; a failing
     * handler is reported to the logger when there is one, and dispatch goes
     * on with the next handler. Nothing is signalled to the caller.
     */
    method LogTombstoneCall(call: Call<V>)
      requires Valid()
      modifies this
      ensures Valid()
      ensures effects == old(effects) + Dispatch(config.handlers, config.logger, MakeVampire(config, call))
      ensures received == old(received) + [LogCall(call)]
    {
      received := received + [LogCall(call)];
      var caused := Notify(config.handlers, config.logger, MakeVampire(config, call));
      effects := effects + caused;
      ReceivingCallDispatchesIt(config, old(received), call);
    }

    /** Flushing a graveyard that does not buffer has no effect beyond being received. */
    method Flush()
      requires Valid()
      modifies this
      ensures Valid()
      ensures effects == old(effects)
      ensures received == old(received) + [FlushCall]
    {
      ghost var flush: seq<InnerEvent<V>> := [FlushCall];
      ghost var before := received;
      received := received + flush;
      assert Forwarded(received) == Forwarded(before) by {
        assert flush[1..] == [];
        ForwardedAppend(before, flush);
        assert Forwarded(before) + [] == Forwarded(before);
      }
    }
  }
}
