/**
 * Assembling a graveyard from configuration: the fluent builder, the two
 * forms a built graveyard can take, and the registry that holds the active one.
 */
module Builders {
  import opened Wrappers
  import opened Graveyards
  import opened BufferedGraveyards

  /** A built graveyard: the dispatcher itself, or the buffering decorator around one. */
  datatype Instance<V> = Direct(graveyard: Graveyard<V>) | Decorated(decorator: BufferedGraveyard<V>)

  /** The dispatcher at the bottom of a built instance. */
  function Base<V>(i: Instance<V>): Graveyard<V>
  {
    match i
    case Direct(g) => g
    case Decorated(b) => b.inner
  }

  /** `GraveyardBuilderException`, raised by `build()` on incomplete configuration. */
  datatype BuilderError = GraveyardBuilderException(message: string)

  /** Reading the registry before any graveyard was stored in it. */
  datatype RegistryError = NotRegistered

  const MissingRootDirMessage: string := "rootDir must be configured"

  /** `w` occurs in `s` starting at index `i`. */
  predicate OccursAt(s: string, w: string, i: int)
  {
    0 <= i <= |s| - |w| && s[i..i + |w|] == w
  }

  /** `w` occurs in `s`. */
  ghost predicate Contains(s: string, w: string)
  {
    exists i :: OccursAt(s, w, i)
  }

  /** The message of a failed build names the missing option. */
  lemma MissingRootDirMessageNamesOption()
    ensures Contains(MissingRootDirMessage, "rootDir")
  {
    assert OccursAt(MissingRootDirMessage, "rootDir", 0);
  }

  /** The slot holding the active graveyard, so call sites can reach it. */
  class GraveyardRegistry<V> {
    var slot: Option<Instance<V>>

    constructor ()
      ensures slot == None
    {
      slot := None;
    }

    /** Stores `g`; a later call replaces it. */
    method SetGraveyard(g: Instance<V>)
      modifies this
      ensures slot == Some(g)
    {
      slot := Some(g);
    }

    /** The very instance last stored, or an error when none was. */
    method GetGraveyard() returns (r: Result<Instance<V>, RegistryError>)
      ensures slot.None? <==> r.Failure?
      ensures slot.Some? ==> r == Success(slot.value)
    {
      if slot.Some? {
        r := Success(slot.value);
      } else {
        r := Failure(NotRegistered);
      }
    }
  }

  /** The fluent builder: each setter records one option and returns the builder itself. */
  class GraveyardBuilder<V> {
    var rootDir: Option<string>
    var stackTraceDepth: Option<nat>
    var handlers: seq<Handler<V>>
    var logger: Option<Logger>
    var buffered: bool
    var autoRegister: bool

    constructor ()
      ensures rootDir == None && stackTraceDepth == None && handlers == [] && logger == None
      ensures !buffered && !autoRegister
    {
      rootDir := None;
      stackTraceDepth := None;
      handlers := [];
      logger := None;
      buffered := false;
      autoRegister := false;
    }

    method RootDir(dir: string) returns (b: GraveyardBuilder<V>)
      modifies this`rootDir
      ensures b == this && rootDir == Some(dir)
    {
      rootDir := Some(dir);
      b := this;
    }

    method StackTraceDepth(depth: nat) returns (b: GraveyardBuilder<V>)
      modifies this`stackTraceDepth
      ensures b == this && stackTraceDepth == Some(depth)
    {
      stackTraceDepth := Some(depth);
      b := this;
    }

    /** Registers one more handler, after those already registered. */
    method WithHandler(h: Handler<V>) returns (b: GraveyardBuilder<V>)
      modifies this`handlers
      ensures b == this && handlers == old(handlers) + [h]
    {
      handlers := handlers + [h];
      b := this;
    }

    method WithLogger(l: Logger) returns (b: GraveyardBuilder<V>)
      modifies this`logger
      ensures b == this && logger == Some(l)
    {
      logger := Some(l);
      b := this;
    }

    method Buffered() returns (b: GraveyardBuilder<V>)
      modifies this`buffered
      ensures b == this && buffered
    {
      buffered := true;
      b := this;
    }

    method AutoRegister() returns (b: GraveyardBuilder<V>)
      modifies this`autoRegister
      ensures b == this && autoRegister
    {
      autoRegister := true;
      b := this;
    }

    /**
     * Fails when no root directory was set. Otherwise builds a fresh
     * graveyard from the configured options, wraps it in the buffering
     * decorator when asked to, and stores the result in the registry when
     * asked to. The builder itself is left as it was and can build again.
     */
    method Build(registry: GraveyardRegistry<V>) returns (r: Result<Instance<V>, BuilderError>)
      modifies registry
      ensures rootDir.None? <==> r.Failure?
      ensures r.Failure? ==> r.error == GraveyardBuilderException(MissingRootDirMessage) && unchanged(registry)
      ensures r.Success? ==>
        && fresh(Base(r.value))
        && Base(r.value).config == Config(handlers, logger, rootDir.value, stackTraceDepth)
        && Base(r.value).effects == [] && Base(r.value).received == []
        && (r.value.Decorated? <==> buffered)
        && (r.value.Decorated? ==>
              && fresh(r.value.decorator) && r.value.decorator.Valid()
              && r.value.decorator.buffer == [] && !r.value.decorator.autoFlush)
        && registry.slot == if autoRegister then Some(r.value) else old(registry.slot)
    {
      if rootDir.None? {
        return Failure(GraveyardBuilderException(MissingRootDirMessage));
      }
      var graveyard := new Graveyard(Config(handlers, logger, rootDir.value, stackTraceDepth));
      var instance: Instance<V>;
      if buffered {
        var decorator := new BufferedGraveyard(graveyard);
        instance := Decorated(decorator);
      } else {
        instance := Direct(graveyard);
      }
      if autoRegister {
        registry.SetGraveyard(instance);
      }
      r := Success(instance);
    }
  }
}
