# phptombstone graveyard pipeline, modelled in Dafny

This project models the runtime half of phptombstone. An instrumented call site reports a "tombstone hit" to a
**graveyard**. The graveyard turns the hit into a record, called a *vampire* (proof that the dead-looking code is still alive), and hands that record to every registered
**handler**. A handler that fails is reported to an optional **logger**. The failure never reaches the caller.

The model covers these parts:

- **`Tombstones`** (`Tombstone.dfy`): the immutable `Tombstone` value object and its `file:line` position.
  PHP renders the line with its int-to-string conversion. The model proves that the position string can be read
  back into exactly its file and line, so two tombstones share a position exactly when they share both.
- **`Paths`** (`Paths.dfy`): file references. A path under the configured root directory is shown relative to
  that root.
- **`Graveyards`** (`Graveyard.dfy`): building the record for one hit and dispatching it to handlers.
  - Building keeps the kind, arguments and metadata, truncates the stack trace to the configured depth and relativises paths.
  - Dispatch is specified as a function on values (`Dispatch`, `CallEffects`).
  - The `Graveyard` class keeps two ghost logs: the handler and logger calls it caused (`effects`) and the calls it received (`received`).
  - Its invariant ties the first log to the second.
- **`BufferedGraveyards`** (`BufferedGraveyard.dfy`): the buffering decorator. It is a class with a `seq` buffer,
  an `autoFlush` flag and an inner graveyard.
  - Flushing replays the buffer to the inner graveyard in order, empties it and flushes the inner graveyard once.
  - A ghost invariant counts every call: each accepted call has been forwarded or is still buffered, as often as it was accepted.
  - The same invariant ties the forwarded calls to the inner graveyard: the calls it has received since it was wrapped are
    exactly the forwarded ones, in order. So after a flush the inner graveyard has received every accepted call exactly as
    often as it was accepted.
- **`Builders`** (`GraveyardBuilder.dfy`): the fluent `GraveyardBuilder`, whose setters return the builder itself,
  and `build()`. Building fails without a root directory, wires the handlers, logger, depth and root, and can wrap the
  result in the decorator. It can also store the result in a `GraveyardRegistry`.
- **`GraveyardTests`** (`GraveyardTests.dfy`): one method per PHPUnit test of the builder and the decorator. Each makes
  the test's calls, and its postcondition is what the test asserts.

The PHP code of the classes `Graveyard`, `BufferedGraveyard`, `GraveyardBuilder` and `GraveyardRegistry` is not
modelled line by line. The Dafny classes of the same names rebuild their behaviour from what the two test files,
`GraveyardBuilderTest.php` and `BufferedGraveyardTest.php`, assert. The mocks of those tests become ghost observation logs, which the PHP classes do not keep:
- `received`, a sequence of `LogCall(call)` / `FlushCall` events, is what a mock inner graveyard would see.
- `effects`, a sequence of `Logged(handler, record)` / `ErrorLogged(handler, error)` events, is what mock handlers and a mock logger would see.

A hit is modelled as one opaque tuple `Call(kind, arguments, trace, metadata)`. This fits both entry points the
tests use: `logTombstoneCall(type, args, trace, meta)` and the three-argument `tombstone(args, trace, meta)`. A queue of
`(args, trace, meta)` triples would lose the type that the decorator tests pass and expect forwarded
(tests/Logger/Graveyard/BufferedGraveyardTest.php:51, 66), so the model buffers the whole call.

## Model

| member | source | states |
|---|---|---|
| Tombstones.GettersReturnConstructorArguments | src/Tombstone.php:38-93 | every getter returns exactly the value given to the constructor; the value type cannot be changed afterwards |
| Tombstones.Tombstone.Position | src/Tombstone.php:66-69 | the position, parsed back at its last colon, yields exactly the tombstone's file and line |
| Tombstones.PositionRoundTrip | src/Tombstone.php:68 | `file + ":" + decimal(line)` splits back into that file and line for every file name (colons included) and every int line |
| Tombstones.PositionIdentifiesFileAndLine | src/Tombstone.php:66-69 | two tombstones have equal positions if and only if they have equal file and equal line |
| Tombstones.NatToDecimal | src/Tombstone.php:68 | the rendering of a non-negative line is non-empty, all digits, without a leading zero |
| Tombstones.NatDecimalRoundTrip | src/Tombstone.php:68 | reading the digits back gives the number rendered |
| Tombstones.IntToDecimal | src/Tombstone.php:68 | the line's rendering starts with `-` exactly when it is negative, and is otherwise all digits without a leading zero (after the `-` for negative lines) |
| Tombstones.IntDecimalRoundTrip | src/Tombstone.php:68 | parsing inverts the int rendering for every int, negative ones (leading `-`) included |
| Tombstones.LastColon | src/Tombstone.php:68 | finds the last `:` of a string: a colon at that index and none after it, or none at all |
| Paths.RelativePath | tests/Logger/Graveyard/GraveyardBuilderTest.php:38-45 | a path under the root is the root, one separator, then the result; any other path is returned unchanged |
| Paths.Reference | tests/Logger/Graveyard/GraveyardBuilderTest.php:38-45 | a file reference keeps the absolute path as given, and its reference path is the path relative to the root (for a path under it) or the path unchanged |
| Paths.RelativePathStripsRoot | tests/Logger/Graveyard/GraveyardBuilderTest.php:124-138 | the root plus separator plus `rest` is referred to as exactly `rest` |
| Paths.FileInRootIsBareName | tests/Logger/Graveyard/GraveyardBuilderTest.php:38-45 | `root/file1.php` is referred to as `file1.php` |
| Paths.SiblingDirectoryNotRelativised | tests/Logger/Graveyard/GraveyardBuilderTest.php:124-138 | for every root without a trailing separator, a path that continues the root's name with anything but a separator (`/ab/...` against `/a`) is not treated as inside the root and is kept unchanged |
| Graveyards.Truncate | tests/Logger/Graveyard/GraveyardBuilderTest.php:104-119 | the result is a prefix of the trace whose length is the depth, or the whole trace when shorter or unlimited |
| Graveyards.RelativeFrame | tests/Logger/Graveyard/GraveyardBuilderTest.php:124-138 | a record frame keeps line and callee and refers to its file relative to the root |
| Graveyards.MakeVampire | tests/Logger/Graveyard/GraveyardBuilderTest.php:104-138 | the record keeps kind, arguments and metadata; its trace length is min(depth, raw length); its position is the relativised first frame, absent for an empty trace |
| Graveyards.RecordKeepsNearestFrames | tests/Logger/Graveyard/GraveyardBuilderTest.php:104-119 | frame `i` of the record is raw frame `i` relativised: the frames nearest the call site, in order |
| Graveyards.HandlerEffectsRead | tests/Logger/Graveyard/GraveyardBuilderTest.php:79-99 | one handler's dispatch logs the record to it once and reports it once exactly when it failed and a logger is there, with its error |
| Graveyards.IndicesAreIdentity | tests/Logger/Graveyard/GraveyardBuilderTest.php:61-74 | `Indices(n)`, the handler indexes every dispatch is compared against, is exactly `0, 1, .., n-1` |
| Graveyards.DispatchReachesEveryHandlerOnce | tests/Logger/Graveyard/GraveyardBuilderTest.php:61-74 | the handlers called are exactly `0 .. n-1`, once each and in registration order, all with the same record, whatever other handlers do |
| Graveyards.ReportedIffFailed | tests/Logger/Graveyard/GraveyardBuilderTest.php:79-99 | handler `i` is reported to the logger if and only if a logger is configured and handler `i` failed |
| Graveyards.ReportsAreFailures | tests/Logger/Graveyard/GraveyardBuilderTest.php:79-99 | the same, for all handler indexes at once |
| Graveyards.ReportsInRegistrationOrder | tests/Logger/Graveyard/GraveyardBuilderTest.php:79-99 | reports name strictly increasing handler indexes, so each failing handler is reported once |
| Graveyards.ReportsCarryHandlerError | tests/Logger/Graveyard/GraveyardBuilderTest.php:79-99 | every report names a registered handler and carries the error its `log` failed with |
| Graveyards.Notify | tests/Logger/Graveyard/GraveyardBuilderTest.php:79-99 | the loop over the handlers, catching failures, causes exactly the dispatch specification |
| Graveyards.ForwardedAppend | tests/Logger/Graveyard/BufferedGraveyardTest.php:62-78 | the calls and flushes read from two logs in a row are those of the first, then those of the second |
| Graveyards.ReceivingCallDispatchesIt | tests/Logger/Graveyard/GraveyardBuilderTest.php:73 | receiving one more call adds exactly that call's dispatch to what all received calls cause |
| Graveyards.Graveyard.constructor | tests/Logger/Graveyard/GraveyardBuilderTest.php:64-67 | a new graveyard has the given configuration, has caused nothing and received nothing |
| Graveyards.Graveyard.LogTombstoneCall | tests/Logger/Graveyard/GraveyardBuilderTest.php:61-99 | one hit appends exactly its dispatch to the effects and itself to the received calls; effects stay the dispatch of every call received |
| Graveyards.Graveyard.Flush | tests/Logger/Graveyard/BufferedGraveyardTest.php:70-72 | flushing a non-buffering graveyard causes nothing; it is only recorded as received |
| BufferedGraveyards.ReplayForwardsEachCallInOrder | tests/Logger/Graveyard/BufferedGraveyardTest.php:62-68 | replaying a buffer hands over exactly its calls, unchanged and in order, and no flush |
| BufferedGraveyards.FlushDeliversBufferThenOneFlush | tests/Logger/Graveyard/BufferedGraveyardTest.php:60-79 | what one flush hands over reads back as the buffered calls, with exactly one flush |
| BufferedGraveyards.ConservedByAccept | tests/Logger/Graveyard/BufferedGraveyardTest.php:34-55 | accepting a call and either forwarding or buffering it keeps every call counted once |
| BufferedGraveyards.ConservedByDrain | tests/Logger/Graveyard/BufferedGraveyardTest.php:60-79 | moving the whole buffer to the forwarded calls keeps every call counted once |
| BufferedGraveyards.DrainedForwardsAllAccepted | tests/Logger/Graveyard/BufferedGraveyardTest.php:63-78 | with the buffer empty, the forwarded calls are the accepted calls as a multiset: none lost, none forwarded twice |
| BufferedGraveyards.InnerReceivedAllAccepted | tests/Logger/Graveyard/BufferedGraveyardTest.php:63-78 | with the buffer empty and the inner graveyard's received calls since `start` being the forwarded ones, the inner graveyard has received, beyond `start`, exactly the accepted calls as a multiset |
| BufferedGraveyards.TrackedAfterForward | tests/Logger/Graveyard/BufferedGraveyardTest.php:46-55 | forwarding one call keeps the inner graveyard's received calls since `start` equal to the forwarded calls |
| BufferedGraveyards.TrackedAfterFlush | tests/Logger/Graveyard/BufferedGraveyardTest.php:60-79 | flushing a buffer keeps the inner graveyard's received calls since `start` equal to the forwarded calls |
| BufferedGraveyards.OccurrencesIsMultiplicity | tests/Logger/Graveyard/BufferedGraveyardTest.php:63-78 | the per-call count used by the invariant is the call's multiplicity in the sequence |
| BufferedGraveyards.ForwardAll | tests/Logger/Graveyard/BufferedGraveyardTest.php:62-68 | handing calls over one by one makes the inner graveyard receive exactly their replay |
| BufferedGraveyards.BufferedGraveyard.constructor | tests/Logger/Graveyard/BufferedGraveyardTest.php:25-29 | a new decorator wraps the given inner graveyard, with an empty buffer, auto-flush off and nothing accepted or forwarded; `start` records what the inner graveyard had already received |
| BufferedGraveyards.BufferedGraveyard.SetAutoFlush | tests/Logger/Graveyard/BufferedGraveyardTest.php:53 | switches the flag and nothing else; buffered calls stay buffered |
| BufferedGraveyards.BufferedGraveyard.LogTombstoneCall | tests/Logger/Graveyard/BufferedGraveyardTest.php:34-55 | auto-flush on: the inner graveyard receives the call once and the buffer is unchanged; off: the call is appended to the buffer and the inner graveyard is unchanged; the invariant, including what the inner graveyard received, is kept |
| BufferedGraveyards.BufferedGraveyard.Forward | tests/Logger/Graveyard/BufferedGraveyardTest.php:46-55 | the auto-flush branch: the call is accepted, forwarded and received by the inner graveyard once |
| BufferedGraveyards.BufferedGraveyard.Enqueue | tests/Logger/Graveyard/BufferedGraveyardTest.php:34-41 | the buffering branch: the call is accepted and appended to the buffer |
| BufferedGraveyards.BufferedGraveyard.Flush | tests/Logger/Graveyard/BufferedGraveyardTest.php:60-79 | the inner graveyard receives the buffered calls in order then one flush (also for an empty buffer); the buffer ends empty; the inner graveyard has then received, since it was wrapped, every accepted call exactly as often as it was accepted |
| Builders.MissingRootDirMessageNamesOption | tests/Logger/Graveyard/GraveyardBuilderTest.php:50-56 | the failure message contains `rootDir` |
| Builders.GraveyardRegistry.constructor | tests/Logger/Graveyard/GraveyardBuilderTest.php:156-164 | the registry starts empty |
| Builders.GraveyardRegistry.SetGraveyard | tests/Logger/Graveyard/GraveyardBuilderTest.php:156-164 | the registry holds the instance stored last |
| Builders.GraveyardRegistry.GetGraveyard | tests/Logger/Graveyard/GraveyardBuilderTest.php:163 | returns the very instance held, and an error if and only if none was stored |
| Builders.GraveyardBuilder.constructor | tests/Logger/Graveyard/GraveyardBuilderTest.php:24-27 | a new builder has no root, depth, handlers or logger, and buffering and registration are off |
| Builders.GraveyardBuilder.RootDir | tests/Logger/Graveyard/GraveyardBuilderTest.php:64-67 | returns the builder itself with the root directory set |
| Builders.GraveyardBuilder.WithHandler | tests/Logger/Graveyard/GraveyardBuilderTest.php:64-67 | returns the builder itself with the handler added after those already registered |
| Builders.GraveyardBuilder.WithLogger | tests/Logger/Graveyard/GraveyardBuilderTest.php:88-92 | returns the builder itself with the logger set |
| Builders.GraveyardBuilder.StackTraceDepth | tests/Logger/Graveyard/GraveyardBuilderTest.php:112-116 | returns the builder itself with the depth set |
| Builders.GraveyardBuilder.Buffered | tests/Logger/Graveyard/GraveyardBuilderTest.php:145-148 | returns the builder itself with buffering requested |
| Builders.GraveyardBuilder.AutoRegister | tests/Logger/Graveyard/GraveyardBuilderTest.php:158-161 | returns the builder itself with registration requested |
| Builders.GraveyardBuilder.Build | tests/Logger/Graveyard/GraveyardBuilderTest.php:50-164 | fails with `GraveyardBuilderException` if and only if no root is set, leaving the registry alone; otherwise a fresh graveyard with exactly the configured options, wrapped in a fresh empty decorator if and only if buffering was asked for, and stored in the registry if and only if registration was asked for |
| GraveyardTests.BufferedCallNotForwarded | tests/Logger/Graveyard/BufferedGraveyardTest.php:34-41 | with auto-flush off the inner graveyard receives nothing |
| GraveyardTests.AutoFlushForwardsAtOnce | tests/Logger/Graveyard/BufferedGraveyardTest.php:46-55 | with auto-flush on the inner graveyard receives exactly that one call, unchanged |
| GraveyardTests.BufferThenFlush | tests/Logger/Graveyard/BufferedGraveyardTest.php:74-75 | one buffered call then a flush reach the inner graveyard as that call then one flush |
| GraveyardTests.FlushForwardsBufferedCalls | tests/Logger/Graveyard/BufferedGraveyardTest.php:60-79 | the inner graveyard receives first call, flush, second call, flush, in that order |
| GraveyardTests.TwoFlushRoundsForwardEachCallOnce | tests/Logger/Graveyard/BufferedGraveyardTest.php:62-72 | that trace holds each call once, in order, and exactly two flushes |
| GraveyardTests.BuildWithoutRootDirFails | tests/Logger/Graveyard/GraveyardBuilderTest.php:50-56 | `build()` without a root fails, and the message contains `rootDir` |
| GraveyardTests.SingleHandlerDispatch | tests/Logger/Graveyard/GraveyardBuilderTest.php:61-99 | with one handler, it is logged to once and reported once exactly when it failed and a logger is there |
| GraveyardTests.BuildWithHandler | tests/Logger/Graveyard/GraveyardBuilderTest.php:88-92 | the chained setters and `build()` give a fresh, valid graveyard with exactly those options |
| GraveyardTests.HandlerLogsEachTombstone | tests/Logger/Graveyard/GraveyardBuilderTest.php:61-74 | one hit calls the one handler's `log` exactly once and reports nothing |
| GraveyardTests.FailingHandlerReportedToLogger | tests/Logger/Graveyard/GraveyardBuilderTest.php:79-99 | a failing handler is called once and the logger's `error` once; the hit itself returns normally |
| GraveyardTests.DepthTwoKeepsTwoFrames | tests/Logger/Graveyard/GraveyardBuilderTest.php:29-36 | with depth 2 the record's trace is the first two raw frames, relativised |
| GraveyardTests.StackTraceDepthTruncates | tests/Logger/Graveyard/GraveyardBuilderTest.php:104-119 | the record handed to the handler has exactly two frames, the two nearest the call site |
| GraveyardTests.RootDirMakesPathsRelative | tests/Logger/Graveyard/GraveyardBuilderTest.php:124-138 | the record's file reference path is `file1.php` |
| GraveyardTests.BuildBufferedGivesDecorator | tests/Logger/Graveyard/GraveyardBuilderTest.php:143-151 | `build()` succeeds and returns the buffering decorator |
| GraveyardTests.AutoRegisterStoresInstance | tests/Logger/Graveyard/GraveyardBuilderTest.php:156-164 | the registry afterwards returns the very instance `build()` returned |

## Left out

- The invocation date and the invoking function of a record come from the clock and the call stack at run time. Records do not carry them.
- Concrete handler backends and the PSR logger are not modelled. A handler is its name and the outcome of its `log` for each record (`Pass` or `Fail(error)`). The logger is only its presence, and its `error` calls are entries of the effect log.
- Exceptions are modelled as values. A failing `log` is a `Fail` outcome, and the graveyard's catch is the branch that reports it.
- `GraveyardRegistry` is an explicit object passed to `build()`, not process-wide static state.
- Reading the registry before anything was stored returns `Failure(NotRegistered)`. What the PHP code does in that case is not known.
- Concurrency and the thread-safety of the buffer and the registry are not modelled, because PHP runs them single-threaded.
- Builders.MissingRootDirMessage: its text is `rootDir must be configured`. Only the fact that it contains `rootDir` is known from the tests.
- Paths: only `/` is a separator. Windows paths and path normalisation (`..`, duplicate separators) are not modelled.
- GraveyardTests.RootDirMakesPathsRelative: requires the first raw frame to lie directly in the root as `file1.php`. The stack-trace fixture the PHP test uses is not part of this model.
- GraveyardTests.StackTraceDepthTruncates: requires a raw trace longer than two frames, for the same reason.
- GraveyardTests.Accepting and GraveyardTests.Throwing are the handler test doubles. They have no contract of their own.
- BufferedGraveyards.BufferedGraveyard wraps the concrete `Graveyard` class, not any implementation of `GraveyardInterface`. A decorator around a decorator cannot be expressed, and the mocked inner graveyard of the decorator tests is played by a graveyard with no handlers and no logger (`GraveyardTests.Mock`).
- BufferedGraveyards.BufferedGraveyard.Valid: calls made to the inner graveyard by anyone but the decorator break the invariant; the model assumes the decorator is the inner graveyard's only caller while it is in use.
- Integer width: PHP ints are 64-bit and the model's `int` is unbounded. The decimal rendering agrees on every value a PHP int can hold.
- The static scanner, code generation, annotation parsing and the reporting front end are outside the runtime pipeline modelled here.
