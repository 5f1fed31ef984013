/** Write-behind batching: a bounded channel, a buffer and batches, shared by the cache and the query log. */
module WriteBehind {

  datatype Batch<+T> = Batch(items: seq<T>, ok: bool)

  /** Everything accepted since start-up and where it is now. */
  datatype Pipe<+T> = Pipe(offered: seq<T>, batches: seq<Batch<T>>, buf: seq<T>, channel: seq<T>)

  function Sent<T>(bs: seq<Batch<T>>): seq<T> {
    if bs == [] then [] else Sent(bs[..|bs| - 1]) + bs[|bs| - 1].items
  }

  /** The items of the batches that were committed. */
  function Kept<T>(bs: seq<Batch<T>>): seq<T> {
    if bs == [] then []
    else Kept(bs[..|bs| - 1]) + if bs[|bs| - 1].ok then bs[|bs| - 1].items else []
  }

  function Lost<T>(bs: seq<Batch<T>>): seq<T> {
    if bs == [] then []
    else Lost(bs[..|bs| - 1]) + if bs[|bs| - 1].ok then [] else bs[|bs| - 1].items
  }

  /** Accepted items, in order, are the flushed batches, then the buffer, then the channel. */
  predicate Conserved<T(==)>(p: Pipe<T>) {
    p.offered == Sent(p.batches) + p.buf + p.channel
  }

  function Empty<T>(): Pipe<T> { Pipe([], [], [], []) }

  /** `try_send`: refused when the channel is full. */
  function Offer<T>(p: Pipe<T>, x: T, cap: nat): Pipe<T> {
    if |p.channel| < cap then p.(offered := p.offered + [x], channel := p.channel + [x]) else p
  }

  function Receive<T>(p: Pipe<T>): Pipe<T>
    requires p.channel != []
  {
    p.(buf := p.buf + [p.channel[0]], channel := p.channel[1..])
  }

  function Flush<T(==)>(p: Pipe<T>, ok: bool): Pipe<T> {
    if p.buf == [] then p else p.(batches := p.batches + [Batch(p.buf, ok)], buf := [])
  }

  lemma Extend<T>(bs: seq<Batch<T>>, b: Batch<T>)
    ensures Sent(bs + [b]) == Sent(bs) + b.items
    ensures Kept(bs + [b]) == Kept(bs) + if b.ok then b.items else []
    ensures Lost(bs + [b]) == Lost(bs) + if b.ok then [] else b.items
  {
    assert (bs + [b])[..|bs|] == bs;
  }

  lemma OfferConserves<T>(p: Pipe<T>, x: T, cap: nat)
    requires Conserved(p)
    ensures Conserved(Offer(p, x, cap))
  {
    hide Sent;
    assert Sent(p.batches) + p.buf + (p.channel + [x]) == Sent(p.batches) + p.buf + p.channel + [x];
  }

  lemma ReceiveConserves<T>(p: Pipe<T>)
    requires Conserved(p) && p.channel != []
    ensures Conserved(Receive(p))
  {
    hide Sent;
    assert p.channel == [p.channel[0]] + p.channel[1..];
    var sent := Sent(p.batches);
    assert sent + (p.buf + [p.channel[0]]) + p.channel[1..] == sent + p.buf + p.channel;
  }

  lemma FlushConserves<T>(p: Pipe<T>, ok: bool)
    requires Conserved(p)
    ensures Conserved(Flush(p, ok))
  {
    hide Sent;
    Extend(p.batches, Batch(p.buf, ok));
  }

  /** Nothing is duplicated or forged: each accepted item is committed, lost with its batch, or still on its way. */
  lemma {:induction false} Accounted<T(!new)>(p: Pipe<T>)
    requires Conserved(p)
    ensures multiset(p.offered) ==
            multiset(Kept(p.batches)) + multiset(Lost(p.batches)) + multiset(p.buf) + multiset(p.channel)
  {
    SentSplits(p.batches);
  }

  lemma {:induction false} SentSplits<T(!new)>(bs: seq<Batch<T>>)
    ensures multiset(Sent(bs)) == multiset(Kept(bs)) + multiset(Lost(bs))
  {
    if bs != [] {
      SentSplits(bs[..|bs| - 1]);
    }
  }

  /** As long as no flush failed, what is committed is a prefix of what was accepted. */
  lemma {:induction false} KeptIsPrefix<T>(p: Pipe<T>)
    requires Conserved(p) && forall b | b in p.batches :: b.ok
    ensures Kept(p.batches) <= p.offered
    ensures p.buf == [] && p.channel == [] ==> Kept(p.batches) == p.offered
  {
    AllKept(p.batches);
  }

  lemma {:induction false} AllKept<T>(bs: seq<Batch<T>>)
    requires forall b | b in bs :: b.ok
    ensures Kept(bs) == Sent(bs)
  {
    if bs != [] {
      AllKept(bs[..|bs| - 1]);
    }
  }

  // ---- the writer task ----

  /** What the select loop wakes up for; `Closed` is the channel reporting that all senders are gone. */
  datatype Event<+T> = Message(item: T) | Tick | Closed

  function Carried<T>(e: Event<T>): seq<T> {
    if e.Message? then [e.item] else []
  }

  function Messages<T>(events: seq<Event<T>>): seq<T> {
    if events == [] then [] else Messages(events[..|events| - 1]) + Carried(events[|events| - 1])
  }

  lemma MessagesExtend<T>(events: seq<Event<T>>, n: nat)
    requires n < |events|
    ensures Messages(events[..n + 1]) ==
            Messages(events[..n]) + Carried(events[n])
  {
    assert events[..n + 1][..n] == events[..n];
  }

  class Writer<T(==)> {
    const batchMax: nat
    var buf: seq<T>
    /** What the store behind the writer has committed, in order. */
    var stored: seq<T>
    ghost var batches: seq<Batch<T>>

    ghost predicate Valid()
      reads this
    {
      && batchMax >= 1
      && stored == Kept(batches)
      && forall b | b in batches :: 0 < |b.items| <= batchMax
    }

    constructor (batchMax: nat)
      requires batchMax >= 1
      ensures Valid() && this.batchMax == batchMax && buf == [] && stored == [] && batches == []
    {
      this.batchMax := batchMax;
      buf, stored, batches := [], [], [];
    }

    /** Takes the buffer and commits it as one transaction, or loses exactly that batch. */
    method FlushBuffer(ok: bool)
      requires Valid() && |buf| <= batchMax
      modifies this
      ensures Valid() && buf == []
      ensures stored == old(stored) + if ok then old(buf) else []
      ensures batches == if old(buf) == [] then old(batches) else old(batches) + [Batch(old(buf), ok)]
      ensures Sent(batches) == old(Sent(batches) + buf)
    {
      if buf == [] {
        return;
      }
      Extend(batches, Batch(buf, ok));
      batches := batches + [Batch(buf, ok)];
      var batch := buf;
      buf := [];
      if ok {
        stored := stored + batch;
      }
    }

    /** One turn of the select loop: a full buffer, a tick and the close flush it, and nothing else does. */
    method Wake(e: Event<T>, ok: bool)
      requires Valid() && |buf| < batchMax
      modifies this
      ensures Valid() && |buf| < batchMax
      ensures Sent(batches) + buf == old(Sent(batches) + buf) + Carried(e)
      ensures ok ==> stored + buf == old(stored + buf) + Carried(e)
      ensures if e.Message? && |old(buf)| + 1 < batchMax then
                buf == old(buf) + [e.item] && stored == old(stored) && batches == old(batches)
              else
                buf == [] && stored == old(stored) + if ok then old(buf) + Carried(e) else []
    {
      hide Sent, Kept;
      ghost var sent := Sent(batches);
      if e.Message? {
        buf := buf + [e.item];
      }
      assert buf == old(buf) + Carried(e);
      assert sent + buf == sent + old(buf) + Carried(e);
      assert stored + buf == stored + old(buf) + Carried(e);
      if !e.Message? || |buf| >= batchMax {
        FlushBuffer(ok);
      }
    }

    /**
     * The writer loop over the events of one life of the process; `outcome(i)` says whether the
     * i-th wake-up's commit would succeed. Returns how many events it handled. Right after a tick or the
     * close the buffer is empty: everything received so far was committed, or lost with a failed batch.
     */
    method Run(events: seq<Event<T>>, outcome: nat -> bool) returns (handled: nat)
      requires Valid() && buf == [] && batches == []
      modifies this
      ensures Valid()
      ensures handled <= |events|
      ensures handled < |events| ==> handled > 0 && events[handled - 1].Closed?
      ensures Messages(events[..handled]) == Sent(batches) + buf
      ensures |buf| < batchMax
      ensures handled > 0 && !events[handled - 1].Message? ==>
                buf == [] && Messages(events[..handled]) == Sent(batches)
      ensures (forall i :: outcome(i)) ==> stored + buf == Messages(events[..handled])
      ensures (forall i :: outcome(i)) && handled > 0 && !events[handled - 1].Message? ==>
                stored == Messages(events[..handled])
    {
      handled := 0;
      ghost var reliable := forall i :: outcome(i);
      while handled < |events|
        invariant handled <= |events|
        invariant Valid() && |buf| < batchMax
        invariant Messages(events[..handled]) == Sent(batches) + buf
        invariant reliable ==> Messages(events[..handled]) == stored + buf
        invariant handled > 0 ==> !events[handled - 1].Closed?
        invariant handled > 0 && !events[handled - 1].Message? ==> buf == []
        decreases |events| - handled
      {
        MessagesExtend(events, handled);
        handled := handled + 1;
        Wake(events[handled - 1], outcome(handled - 1));
        if events[handled - 1].Closed? {
          break;
        }
      }
    }
  }
}
