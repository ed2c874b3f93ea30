/**
 * The buffering decorator over a graveyard: tombstone calls are queued in
 * memory and handed to the inner graveyard only when flushed, unless
 * auto-flush is on, in which case each call goes through at once.
 */
module BufferedGraveyards {
  import opened Graveyards

  /** What a graveyard receives when the calls `cs` are forwarded to it one after another. */
  function Replay<V>(cs: seq<Call<V>>): seq<InnerEvent<V>>
    decreases |cs|
  {
    if cs == [] then [] else Replay(cs[..|cs| - 1]) + [LogCall(cs[|cs| - 1])]
  }

  lemma ReplaySnoc<V>(cs: seq<Call<V>>, c: Call<V>)
    ensures Replay(cs + [c]) == Replay(cs) + [LogCall(c)]
  {
    assert (cs + [c])[..|cs|] == cs;
  }

  lemma ReplayPrefixStep<V>(cs: seq<Call<V>>, i: nat)
    requires i < |cs|
    ensures Replay(cs[..i + 1]) == Replay(cs[..i]) + [LogCall(cs[i])]
  {
    assert cs[..i + 1] == cs[..i] + [cs[i]];
    ReplaySnoc(cs[..i], cs[i]);
  }

  /** Replaying calls delivers exactly those calls, unchanged and in order, and no flush. */
  lemma {:induction false} ReplayForwardsEachCallInOrder<V>(cs: seq<Call<V>>)
    ensures Forwarded(Replay(cs)) == cs
    ensures FlushCount(Replay(cs)) == 0
    decreases |cs|
  {
    if cs != [] {
      var n := |cs| - 1;
      ReplayForwardsEachCallInOrder(cs[..n]);
      ForwardedAppend(Replay(cs[..n]), [LogCall(cs[n])]);
      assert cs[..n] + [cs[n]] == cs;
    }
  }

  /**
   * What one flush of a buffer holding `cs` hands to the inner graveyard:
   * every buffered call, unchanged and in order, then exactly one flush.
   */
  lemma FlushDeliversBufferThenOneFlush<V>(cs: seq<Call<V>>)
    ensures Forwarded(Replay(cs) + [FlushCall]) == cs
    ensures FlushCount(Replay(cs) + [FlushCall]) == 1
  {
    ReplayForwardsEachCallInOrder(cs);
    ForwardedAppend(Replay(cs), [FlushCall]);
  }

  /** How often `c` occurs in `s`. */
  ghost function Occurrences<V>(s: seq<Call<V>>, c: Call<V>): nat
    decreases |s|
  {
    if s == [] then 0 else Occurrences(s[..|s| - 1], c) + (if s[|s| - 1] == c then 1 else 0)
  }

  lemma {:induction false} OccurrencesAppend<V>(a: seq<Call<V>>, b: seq<Call<V>>, c: Call<V>)
    ensures Occurrences(a + b, c) == Occurrences(a, c) + Occurrences(b, c)
    decreases |b|
  {
    if b == [] {
      assert a + b == a;
    } else {
      var n := |b| - 1;
      assert (a + b)[..|a + b| - 1] == a + b[..n];
      OccurrencesAppend(a, b[..n], c);
    }
  }

  lemma {:induction false} OccurrencesOfAbsent<V>(s: seq<Call<V>>, c: Call<V>)
    requires c !in s
    ensures Occurrences(s, c) == 0
    decreases |s|
  {
    if s != [] {
      OccurrencesOfAbsent(s[..|s| - 1], c);
    }
  }

  /** `Occurrences` is the multiplicity of a call in the multiset of the sequence. */
  lemma {:induction false} OccurrencesIsMultiplicity<V>(s: seq<Call<V>>, c: Call<V>)
    ensures Occurrences(s, c) == multiset(s)[c]
    decreases |s|
  {
    if s != [] {
      var n := |s| - 1;
      OccurrencesIsMultiplicity(s[..n], c);
      assert s == s[..n] + [s[n]];
    }
  }

  /** `c` occurs in `accepted` as often as in `forwarded` and `buffer` together. */
  ghost predicate Balanced<V>(accepted: seq<Call<V>>, forwarded: seq<Call<V>>, buffer: seq<Call<V>>, c: Call<V>)
  {
    Occurrences(accepted, c) == Occurrences(forwarded, c) + Occurrences(buffer, c)
  }

  /** Every call is balanced: the accepted calls are the forwarded and buffered ones, counted with repetition. */
  ghost predicate Conserved<V>(accepted: seq<Call<V>>, forwarded: seq<Call<V>>, buffer: seq<Call<V>>)
  {
    forall c | c in accepted + forwarded + buffer :: Balanced(accepted, forwarded, buffer, c)
  }

  /** Conservation means balance for every call, also those that never occurred. */
  lemma ConservedBalancesAll<V>(accepted: seq<Call<V>>, forwarded: seq<Call<V>>, buffer: seq<Call<V>>, c: Call<V>)
    requires Conserved(accepted, forwarded, buffer)
    ensures Balanced(accepted, forwarded, buffer, c)
  {
    if c !in accepted + forwarded + buffer {
      OccurrencesOfAbsent(accepted, c);
      OccurrencesOfAbsent(forwarded, c);
      OccurrencesOfAbsent(buffer, c);
    }
  }

  /** Accepting a call and either forwarding or buffering it keeps the calls conserved. */
  lemma ConservedByAccept<V>(accepted: seq<Call<V>>, forwarded: seq<Call<V>>, buffer: seq<Call<V>>, call: Call<V>)
    requires Conserved(accepted, forwarded, buffer)
    ensures Conserved(accepted + [call], forwarded + [call], buffer)
    ensures Conserved(accepted + [call], forwarded, buffer + [call])
  {
    forall c ensures Balanced(accepted + [call], forwarded + [call], buffer, c)
                 && Balanced(accepted + [call], forwarded, buffer + [call], c) {
      ConservedBalancesAll(accepted, forwarded, buffer, c);
      OccurrencesAppend(accepted, [call], c);
      OccurrencesAppend(forwarded, [call], c);
      OccurrencesAppend(buffer, [call], c);
    }
  }

  /** Moving the whole buffer to the forwarded calls keeps the calls conserved. */
  lemma ConservedByDrain<V>(accepted: seq<Call<V>>, forwarded: seq<Call<V>>, buffer: seq<Call<V>>)
    requires Conserved(accepted, forwarded, buffer)
    ensures Conserved(accepted, forwarded + buffer, [])
  {
    forall c ensures Balanced(accepted, forwarded + buffer, [], c) {
      ConservedBalancesAll(accepted, forwarded, buffer, c);
      OccurrencesAppend(forwarded, buffer, c);
    }
  }

  /**
   * Once the buffer is empty, the calls forwarded are exactly the calls
   * accepted, each as often as it was accepted.
   */
  lemma DrainedForwardsAllAccepted<V>(accepted: seq<Call<V>>, forwarded: seq<Call<V>>)
    requires Conserved(accepted, forwarded, [])
    ensures multiset(forwarded) == multiset(accepted)
  {
    forall c ensures multiset(forwarded)[c] == multiset(accepted)[c] {
      ConservedBalancesAll(accepted, forwarded, [], c);
      OccurrencesIsMultiplicity(forwarded, c);
      OccurrencesIsMultiplicity(accepted, c);
    }
  }

  /**
   * Once the buffer is empty, the calls a graveyard has received since
   * `start` are exactly the calls accepted, each as often as it was accepted,
   * when what it received beyond `start` is what was forwarded to it.
   */
  lemma InnerReceivedAllAccepted<V>(start: seq<InnerEvent<V>>, received: seq<InnerEvent<V>>,
                                    accepted: seq<Call<V>>, forwarded: seq<Call<V>>)
    requires Conserved(accepted, forwarded, [])
    requires Forwarded(received) == Forwarded(start) + forwarded
    ensures multiset(Forwarded(received)) == multiset(Forwarded(start)) + multiset(accepted)
  {
    DrainedForwardsAllAccepted(accepted, forwarded);
  }

  /** Forwarding one more call keeps what a graveyard received since `start` equal to the calls forwarded. */
  lemma TrackedAfterForward<V>(start: seq<InnerEvent<V>>, received: seq<InnerEvent<V>>,
                               forwarded: seq<Call<V>>, call: Call<V>)
    requires Forwarded(received) == Forwarded(start) + forwarded
    ensures Forwarded(received + [LogCall(call)]) == Forwarded(start) + (forwarded + [call])
  {
    ForwardedAppend(received, [LogCall(call)]);
    assert Forwarded([LogCall(call)]) == [call];
  }

  /** Flushing the calls `cs` keeps what a graveyard received since `start` equal to the calls forwarded. */
  lemma TrackedAfterFlush<V>(start: seq<InnerEvent<V>>, received: seq<InnerEvent<V>>,
                             forwarded: seq<Call<V>>, cs: seq<Call<V>>)
    requires Forwarded(received) == Forwarded(start) + forwarded
    ensures Forwarded(received + Replay(cs) + [FlushCall]) == Forwarded(start) + (forwarded + cs)
  {
    assert received + Replay(cs) + [FlushCall] == received + (Replay(cs) + [FlushCall]);
    ForwardedAppend(received, Replay(cs) + [FlushCall]);
    FlushDeliversBufferThenOneFlush(cs);
  }

  /** Hands the calls `cs` to the graveyard `g`, oldest first. */
  method ForwardAll<V>(g: Graveyard<V>, cs: seq<Call<V>>)
    requires g.Valid()
    modifies g
    ensures g.Valid()
    ensures g.received == old(g.received) + Replay(cs)
  {
    var i := 0;
    while i < |cs|
      invariant 0 <= i <= |cs|
      invariant g.Valid()
      invariant g.received == old(g.received) + Replay(cs[..i])
    {
      g.LogTombstoneCall(cs[i]);
      ReplayPrefixStep(cs, i);
      i := i + 1;
    }
    assert cs[..i] == cs;
  }

  class BufferedGraveyard<V> {
    /** The decorated graveyard. */
    const inner: Graveyard<V>
    /** Calls waiting for the next flush, oldest first. */
    var buffer: seq<Call<V>>
    var autoFlush: bool
    /** Every call this graveyard has been given. */
    ghost var accepted: seq<Call<V>>
    /** Every call this graveyard has passed on to `inner`. */
    ghost var forwarded: seq<Call<V>>
    /** What `inner` had received when it was wrapped. */
    ghost var start: seq<InnerEvent<V>>

    /**
     * No call is lost or passed on twice: each accepted call has been
     * forwarded or is still buffered, and the calls `inner` has received since
     * it was wrapped are exactly the forwarded ones, in order.
     */
    ghost predicate Valid()
      reads this, inner
    {
      && Conserved(accepted, forwarded, buffer)
      && inner.Valid()
      && Forwarded(inner.received) == Forwarded(start) + forwarded
    }

    /** Starts with an empty buffer and auto-flush off; the inner graveyard is not touched. */
    constructor (inner: Graveyard<V>)
      requires inner.Valid()
      ensures Valid()
      ensures this.inner == inner && buffer == [] && !autoFlush
      ensures accepted == [] && forwarded == [] && start == inner.received
    {
      this.inner := inner;
      buffer := [];
      autoFlush := false;
      accepted := [];
      forwarded := [];
      start := inner.received;
    }

    /** Switches auto-flush; calls already buffered stay buffered. */
    method SetAutoFlush(autoFlush: bool)
      requires Valid()
      modifies this`autoFlush
      ensures Valid() && this.autoFlush == autoFlush
    {
      this.autoFlush := autoFlush;
    }

    /**
     * With auto-flush on, passes the call straight to the inner graveyard;
     * otherwise appends it to the buffer and leaves the inner graveyard alone.
     */
    method LogTombstoneCall(call: Call<V>)
      requires Valid()
      modifies this`buffer, this`accepted, this`forwarded, inner
      ensures Valid()
      ensures accepted == old(accepted) + [call]
      ensures autoFlush ==>
        && buffer == old(buffer)
        && forwarded == old(forwarded) + [call]
        && inner.received == old(inner.received) + [LogCall(call)]
      ensures !autoFlush ==>
        && buffer == old(buffer) + [call]
        && forwarded == old(forwarded)
        && unchanged(inner)
    {
      if autoFlush {
        Forward(call);
      } else {
        Enqueue(call);
      }
    }

    /** Accepts the call and passes it to the inner graveyard at once. */
    method Forward(call: Call<V>)
      requires Valid()
      modifies this`accepted, this`forwarded, inner
      ensures Valid()
      ensures accepted == old(accepted) + [call] && forwarded == old(forwarded) + [call]
      ensures inner.received == old(inner.received) + [LogCall(call)]
    {
      ConservedByAccept(accepted, forwarded, buffer, call);
      TrackedAfterForward(start, inner.received, forwarded, call);
      inner.LogTombstoneCall(call);
      accepted := accepted + [call];
      forwarded := forwarded + [call];
    }

    /** Accepts the call and appends it to the buffer. */
    method Enqueue(call: Call<V>)
      requires Valid()
      modifies this`buffer, this`accepted
      ensures Valid()
      ensures accepted == old(accepted) + [call] && buffer == old(buffer) + [call]
    {
      ConservedByAccept(accepted, forwarded, buffer, call);
      accepted := accepted + [call];
      buffer := buffer + [call];
    }

    /**
     * Passes every buffered call to the inner graveyard, oldest first, empties
     * the buffer, then flushes the inner graveyard once, even when the buffer
     * was already empty. Afterwards the inner graveyard has received every
     * accepted call exactly as often as it was accepted.
     */
    method Flush()
      requires Valid()
      modifies this`buffer, this`forwarded, inner
      ensures Valid() && buffer == []
      ensures forwarded == old(forwarded) + old(buffer)
      ensures inner.received == old(inner.received) + Replay(old(buffer)) + [FlushCall]
      ensures multiset(Forwarded(inner.received)) == multiset(Forwarded(start)) + multiset(accepted)
    {
      var pending := buffer;
      TrackedAfterFlush(start, inner.received, forwarded, pending);
      ForwardAll(inner, pending);
      ConservedByDrain(accepted, forwarded, pending);
      forwarded := forwarded + pending;
      buffer := [];
      inner.Flush();
      InnerReceivedAllAccepted(start, inner.received, accepted, forwarded);
    }
  }
}
