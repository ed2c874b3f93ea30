/**
 * The behaviour the graveyard's unit tests pin down, one method per test:
 * each builds the objects the test builds, makes the same calls, and its
 * postcondition is what the test asserts about the outcome.
 */
module GraveyardTests {
  import opened Wrappers
  import opened Paths
  import opened Graveyards
  import opened BufferedGraveyards
  import opened Builders

  /** A graveyard with no handlers and no logger: it only records the calls it receives, as a mock does. */
  function Mock<V>(): Config<V>
  {
    Config([], None, "", None)
  }

  /** With auto-flush off, a tombstone call reaches nothing behind the buffer. */
  method BufferedCallNotForwarded<V>(call: Call<V>) returns (ghost received: seq<InnerEvent<V>>)
    ensures received == []
  {
    var inner := new Graveyard(Mock());
    var graveyard := new BufferedGraveyard(inner);
    assert !graveyard.autoFlush && graveyard.inner == inner && inner.received == [];
    assert graveyard.Valid();
    graveyard.LogTombstoneCall(call);
    assert inner.received == [];
    received := inner.received;
  }

  /** With auto-flush on, one call reaches the inner graveyard once, unchanged. */
  method AutoFlushForwardsAtOnce<V>(call: Call<V>) returns (ghost received: seq<InnerEvent<V>>)
    ensures received == [LogCall(call)]
  {
    var inner := new Graveyard(Mock());
    var graveyard := new BufferedGraveyard(inner);
    graveyard.SetAutoFlush(true);
    graveyard.LogTombstoneCall(call);
    received := inner.received;
  }

  /** One call into an empty buffer, then a flush: the inner graveyard receives that call, then a flush. */
  method BufferThenFlush<V>(graveyard: BufferedGraveyard<V>, call: Call<V>)
    requires graveyard.Valid() && graveyard.buffer == [] && !graveyard.autoFlush
    modifies graveyard, graveyard.inner
    ensures graveyard.Valid() && graveyard.buffer == [] && !graveyard.autoFlush
    ensures graveyard.inner.received == old(graveyard.inner.received) + [LogCall(call), FlushCall]
  {
    ghost var inner := graveyard.inner;
    ghost var before := inner.received;
    graveyard.LogTombstoneCall(call);
    assert graveyard.buffer == [call] && inner.received == before;
    graveyard.Flush();
    ghost var after := inner.received;
    assert after == before + Replay([call]) + [FlushCall];
    OneCallRound(before, call);
  }

  /** One flush round of a single buffered call reads as that call, then a flush. */
  lemma OneCallRound<V>(before: seq<InnerEvent<V>>, call: Call<V>)
    ensures before + Replay([call]) + [FlushCall] == before + [LogCall(call), FlushCall]
  {
    ReplaySnoc([], call);
    assert [] + [call] == [call];
  }

  /**
   * Buffer, flush, buffer, flush: the inner graveyard receives the first
   * call, a flush, the second call, a flush.
   */
  method FlushForwardsBufferedCalls<V>(first: Call<V>, second: Call<V>)
    returns (ghost received: seq<InnerEvent<V>>)
    ensures received == [LogCall(first), FlushCall, LogCall(second), FlushCall]
  {
    var inner := new Graveyard(Mock());
    var graveyard := new BufferedGraveyard(inner);
    BufferThenFlush(graveyard, first);
    BufferThenFlush(graveyard, second);
    received := inner.received;
  }

  /** In that trace each call is forwarded once, unchanged and in order, and there are exactly two flushes. */
  lemma TwoFlushRoundsForwardEachCallOnce<V>(first: Call<V>, second: Call<V>)
    ensures Forwarded([LogCall(first), FlushCall, LogCall(second), FlushCall]) == [first, second]
    ensures FlushCount([LogCall(first), FlushCall, LogCall(second), FlushCall]) == 2
  {
    ReplaySnoc([], first);
    ReplaySnoc([], second);
    assert [] + [first] == [first] && [] + [second] == [second];
    FlushDeliversBufferThenOneFlush([first]);
    FlushDeliversBufferThenOneFlush([second]);
    ForwardedAppend([LogCall(first), FlushCall], [LogCall(second), FlushCall]);
  }

  /** Building without a root directory fails, and the message names `rootDir`. */
  method BuildWithoutRootDirFails<V>() returns (r: Result<Instance<V>, BuilderError>)
    ensures r.Failure? && Contains(r.error.message, "rootDir")
  {
    var registry := new GraveyardRegistry<V>();
    var builder := new GraveyardBuilder<V>();
    r := builder.Build(registry);
    MissingRootDirMessageNamesOption();
  }

  /** A handler that accepts everything, as a test double. */
  function Accepting<V>(name: string): Handler<V>
  {
    Handler(name, (v: Vampire<V>) => Pass)
  }

  /** A handler whose `log` always fails, as a test double. */
  function Throwing<V>(name: string, error: string): Handler<V>
  {
    Handler(name, (v: Vampire<V>) => Fail(error))
  }

  /** The dispatch of one record to a single handler. */
  lemma SingleHandlerDispatch<V>(h: Handler<V>, logger: Option<Logger>, v: Vampire<V>)
    ensures Dispatch([h], logger, v) == HandlerEffects(0, h, logger, v)
    ensures Deliveries(Dispatch([h], logger, v)) == [0]
    ensures Reports(Dispatch([h], logger, v)) == if logger.Some? && h.outcome(v).Fail? then [0] else []
  {
    assert [h][..0] == [];
    HandlerEffectsRead(0, h, logger, v);
  }

  /**
   * `rootDir(dir)`, `withHandler(h)`, then `withLogger` and `stackTraceDepth`
   * when given, then `build()`: the unbuffered graveyard the tests chain together.
   */
  method BuildWithHandler<V>(dir: string, h: Handler<V>, logger: Option<Logger>, depth: Option<nat>)
    returns (graveyard: Graveyard<V>)
    ensures fresh(graveyard) && graveyard.Valid()
    ensures graveyard.config == Config([h], logger, dir, depth) && graveyard.effects == []
  {
    var registry := new GraveyardRegistry<V>();
    var builder := new GraveyardBuilder<V>();
    var chained := builder.RootDir(dir);
    chained := chained.WithHandler(h);
    if logger.Some? {
      chained := chained.WithLogger(logger.value);
    }
    if depth.Some? {
      chained := chained.StackTraceDepth(depth.value);
    }
    assert chained == builder && !builder.buffered;
    var r := chained.Build(registry);
    graveyard := r.value.graveyard;
  }

  /** With one handler registered through the chained setters, one hit calls its `log` once. */
  method HandlerLogsEachTombstone<V>(dir: string, call: Call<V>) returns (ghost effects: seq<Effect<V>>)
    ensures Deliveries(effects) == [0] && Reports(effects) == []
  {
    var graveyard := BuildWithHandler(dir, Accepting("handler"), None, None);
    graveyard.LogTombstoneCall(call);
    effects := graveyard.effects;
    var v := MakeVampire(graveyard.config, call);
    SingleHandlerDispatch(Accepting("handler"), None, v);
  }

  /**
   * A handler whose `log` fails, with a logger configured: the hit returns
   * normally, the handler was called once and the logger's `error` once.
   */
  method FailingHandlerReportedToLogger<V>(dir: string, call: Call<V>) returns (ghost effects: seq<Effect<V>>)
    ensures Deliveries(effects) == [0] && Reports(effects) == [0]
  {
    var graveyard := BuildWithHandler(dir, Throwing("handler", "exception"), Some(Logger("logger")), None);
    graveyard.LogTombstoneCall(call);
    effects := graveyard.effects;
    var v := MakeVampire(graveyard.config, call);
    SingleHandlerDispatch(Throwing("handler", "exception"), Some(Logger("logger")), v);
  }

  /** With depth 2 and a longer raw trace, the record handed to the handler has exactly two frames. */
  method StackTraceDepthTruncates<V>(dir: string, call: Call<V>) returns (ghost record: Vampire<V>)
    requires |call.trace| > 2
    ensures |record.stackTrace| == 2
    ensures record.stackTrace == [RelativeFrame(dir, call.trace[0]), RelativeFrame(dir, call.trace[1])]
  {
    var graveyard := BuildWithHandler(dir, Accepting("handler"), None, Some(2));
    graveyard.LogTombstoneCall(call);
    var config := graveyard.config;
    var v := MakeVampire(config, call);
    SingleHandlerDispatch(Accepting("handler"), None, v);
    assert graveyard.effects == [Logged(0, v)];
    record := graveyard.effects[0].record;
    DepthTwoKeepsTwoFrames(config, call);
  }

  /** With depth 2, a record keeps exactly the call site and its caller. */
  lemma DepthTwoKeepsTwoFrames<V>(config: Config<V>, call: Call<V>)
    requires config.stackTraceDepth == Some(2) && |call.trace| > 2
    ensures MakeVampire(config, call).stackTrace
            == [RelativeFrame(config.rootDir, call.trace[0]), RelativeFrame(config.rootDir, call.trace[1])]
  {
    var v := MakeVampire(config, call);
    RecordKeepsNearestFrames(config, call);
    assert v.stackTrace[0] == RelativeFrame(config.rootDir, call.trace[0]);
    assert v.stackTrace[1] == RelativeFrame(config.rootDir, call.trace[1]);
  }

  /** With the root directory set, the record's file is referred to relative to it. */
  method RootDirMakesPathsRelative<V>(root: string, call: Call<V>) returns (ghost record: Vampire<V>)
    requires call.trace != [] && call.trace[0].file == DirPrefix(root) + "file1.php"
    ensures record.position.Some? && record.position.value.file.referencePath == "file1.php"
  {
    var graveyard := BuildWithHandler(root, Accepting("handler"), None, None);
    graveyard.LogTombstoneCall(call);
    var v := MakeVampire(graveyard.config, call);
    SingleHandlerDispatch(Accepting("handler"), None, v);
    assert graveyard.effects == [Logged(0, v)];
    record := graveyard.effects[0].record;
    RelativePathStripsRoot(root, "file1.php");
  }

  /** Asking for buffering yields the buffering decorator. */
  method BuildBufferedGivesDecorator<V>(dir: string) returns (r: Result<Instance<V>, BuilderError>)
    ensures r.Success? && r.value.Decorated?
  {
    var registry := new GraveyardRegistry<V>();
    var builder := new GraveyardBuilder<V>();
    var chained := builder.RootDir(dir);
    chained := chained.Buffered();
    r := chained.Build(registry);
  }

  /** Asking for registration makes the registry hand out the very instance that was built. */
  method AutoRegisterStoresInstance<V>(dir: string)
    returns (built: Result<Instance<V>, BuilderError>, registered: Result<Instance<V>, RegistryError>)
    ensures built.Success? && registered == Success(built.value)
  {
    var registry := new GraveyardRegistry<V>();
    var builder := new GraveyardBuilder<V>();
    var chained := builder.RootDir(dir);
    chained := chained.AutoRegister();
    built := chained.Build(registry);
    registered := registry.GetGraveyard();
  }
}
