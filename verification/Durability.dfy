/** What the disk holds: last committed values, a prefix of what was accepted, nothing live lost to a clean purge. */
module Durability {
  import opened Names
  import opened Wire
  import opened Store
  import BlocklistFile
  import WriteBehind
  import opened Resolver
  import opened Frames
  import opened SingleFlight

  function Perform(t: Table, op: DiskOp): Table {
    match op case Commit(items) => Written(t, items) case Delete(keys) => t - keys
  }

  function ItemsOf(op: DiskOp): seq<Item> {
    match op case Commit(items) => items case Delete(_) => []
  }

  /** The table is the replay of every committed transaction. */
  function Replay(log: seq<DiskOp>): Table {
    if log == [] then map[] else Perform(Replay(log[..|log| - 1]), log[|log| - 1])
  }

  /** All items ever committed, in order. */
  function Commits(log: seq<DiskOp>): seq<Item> {
    if log == [] then [] else Commits(log[..|log| - 1]) + ItemsOf(log[|log| - 1])
  }

  lemma ReplayExtends(log: seq<DiskOp>, op: DiskOp)
    ensures Replay(log + [op]) == Perform(Replay(log), op)
    ensures Commits(log + [op]) == Commits(log) + ItemsOf(op)
  {
    assert (log + [op])[..|log|] == log;
  }

  lemma {:induction false} CommitsSplit(a: seq<DiskOp>, b: seq<DiskOp>)
    ensures Commits(a + b) == Commits(a) + Commits(b)
    decreases |b|
  {
    hide Replay, ItemsOf;
    if b == [] {
      assert a + b == a;
    } else {
      var n := |b| - 1;
      assert a + b == (a + b[..n]) + [b[n]];
      CommitsSplit(a, b[..n]);
      ReplayExtends(a + b[..n], b[n]);
      ReplayExtends(b[..n], b[n]);
      assert b == b[..n] + [b[n]];
    }
  }

  // ---- the invariant ----

  ghost predicate PipeInv(p: WriteBehind.Pipe<Item>) {
    && WriteBehind.Conserved(p)
    && |p.buf| <= BATCH_MAX && |p.channel| <= PERSIST_CHANNEL_CAP
    && forall b | b in p.batches :: 0 < |b.items| <= BATCH_MAX
  }

  ghost predicate DurableInv(s: State) {
    && PipeInv(s.pipe)
    && s.disk.table == Replay(s.disk.log)
    && s.disk.base <= |s.disk.log|
    && (!s.up ==> s.pipe == WriteBehind.Empty())
    && (s.up ==> Commits(s.disk.log[s.disk.base..]) == WriteBehind.Kept(s.pipe.batches))
    && (s.up ==> s.tally.kept == |s.pipe.offered|)
  }

  /** A purge in progress noted exactly the rows that had expired when it looked. */
  ghost predicate PurgeInv(s: State) {
    s.disk.purge.Some? ==>
      var p := s.disk.purge.value;
      && p.sec <= Seconds(s.now) && p.seen <= |s.disk.log|
      && p.keys == ExpiredKeys(Replay(s.disk.log[..p.seen]), p.sec)
  }

  lemma PipeSteps(p: WriteBehind.Pipe<Item>, x: Item, ok: bool)
    requires PipeInv(p)
    ensures PipeInv(WriteBehind.Offer(p, x, PERSIST_CHANNEL_CAP))
    ensures p.channel != [] && |p.buf| < BATCH_MAX ==> PipeInv(WriteBehind.Receive(p))
    ensures PipeInv(WriteBehind.Flush(p, ok))
    ensures WriteBehind.Offer(p, x, PERSIST_CHANNEL_CAP).batches == p.batches
    ensures p.channel != [] ==>
              WriteBehind.Receive(p).batches == p.batches && WriteBehind.Receive(p).offered == p.offered
    ensures WriteBehind.Flush(p, ok).offered == p.offered
    ensures |WriteBehind.Offer(p, x, PERSIST_CHANNEL_CAP).offered| ==
            |p.offered| + if |p.channel| < PERSIST_CHANNEL_CAP then 1 else 0
    ensures p.buf != [] ==>
              WriteBehind.Kept(WriteBehind.Flush(p, ok).batches) ==
              WriteBehind.Kept(p.batches) + if ok then p.buf else []
  {
    hide WriteBehind.Sent, WriteBehind.Kept;
    WriteBehind.OfferConserves(p, x, PERSIST_CHANNEL_CAP);
    WriteBehind.FlushConserves(p, ok);
    WriteBehind.Extend(p.batches, WriteBehind.Batch(p.buf, ok));
    if p.channel != [] {
      WriteBehind.ReceiveConserves(p);
    }
  }

  lemma StepKeepsDurable(c: Config, s: State, a: Action)
    requires c.Valid() && DurableInv(s) && FlightInv(c, s) && Enabled(c, s, a)
    ensures DurableInv(Apply(c, s, a))
  {
    hide Enabled, Apply, FlightInv, PipeInv, Replay, Commits;
    Untouched(c, s, a);
    if TouchesPipe(a) || a.PurgeDelete? || a.Restart? {
      DiskStep(c, s, a);
    }
  }

  lemma DiskStep(c: Config, s: State, a: Action)
    requires c.Valid() && DurableInv(s) && FlightInv(c, s) && Enabled(c, s, a)
    requires TouchesPipe(a) || a.PurgeDelete? || a.Restart?
    ensures DurableInv(Apply(c, s, a))
  {
    hide PipeInv, NetOk, Replay, Commits, Written, ReadRows, KeyOf, TaskKey, BlocklistFile.Loaded,
      WriteBehind.Offer, WriteBehind.Receive, WriteBehind.Flush, WriteBehind.Kept;
    var log, base := s.disk.log, s.disk.base;
    match a {
      case OfferPersist(t) =>
        PipeSteps(s.pipe, (TaskKey(c, s.net.tasks[t].data), PhaseOf(s, t).resp), true);
      case WriterReceive =>
        PipeSteps(s.pipe, s.pipe.channel[0], true);
      case WriterFlush(ok) =>
        PipeSteps(s.pipe, s.pipe.buf[0], ok);
        if ok {
          LogGrows(log, base, Commit(s.pipe.buf));
        } else {
          assert WriteBehind.Kept(s.pipe.batches) + [] == WriteBehind.Kept(s.pipe.batches);
        }
      case PurgeDelete(_) =>
        LogGrows(log, base, Delete(s.disk.purge.value.keys));
        assert Commits(log[base..]) + [] == Commits(log[base..]);
      case Crash => EmptyPipe();
      case Restart(_, _) =>
        assert log[|log|..] == [];
        EmptyPipe();
    }
  }

  lemma LogGrows(log: seq<DiskOp>, base: nat, op: DiskOp)
    requires base <= |log|
    ensures (log + [op])[base..] == log[base..] + [op]
    ensures Commits((log + [op])[base..]) == Commits(log[base..]) + ItemsOf(op)
    ensures Replay(log + [op]) == Perform(Replay(log), op)
  {
    hide Replay, Commits, Written;
    assert (log + [op])[base..] == log[base..] + [op];
    ReplayExtends(log[base..], op);
    ReplayExtends(log, op);
  }

  lemma EmptyPipe()
    ensures PipeInv(WriteBehind.Empty()) && WriteBehind.Kept<Item>([]) == [] && Commits([]) == []
  {
  }

  lemma StepKeepsPurge(c: Config, s: State, a: Action)
    requires c.Valid() && DurableInv(s) && PurgeInv(s) && Enabled(c, s, a)
    ensures PurgeInv(Apply(c, s, a))
  {
    hide Replay, Commits, Enabled, Apply, PipeInv;
    Untouched(c, s, a);
    if a.WriterFlush? || a.PurgeCollect? || a.PurgeDelete? || a.Crash? {
      PurgeStep(c, s, a);
    }
  }

  lemma PurgeStep(c: Config, s: State, a: Action)
    requires c.Valid() && DurableInv(s) && PurgeInv(s) && Enabled(c, s, a)
    requires a.WriterFlush? || a.PurgeCollect? || a.PurgeDelete? || a.Crash?
    ensures PurgeInv(Apply(c, s, a))
  {
    hide Replay, Commits, PipeInv, Written, ExpiredKeys, WriteBehind.Flush;
    var log := s.disk.log;
    if a.WriterFlush? && s.disk.purge.Some? {
      assert (log + [Commit(s.pipe.buf)])[..s.disk.purge.value.seen] == log[..s.disk.purge.value.seen];
    }
    assert log[..|log|] == log;
  }

  // ---- rows ----

  lemma {:induction false} WrittenAt(t: Table, items: seq<Item>, k: CacheKey)
    ensures match LastFor(items, k)
            case Some(v) => EncKey(k) in Written(t, items) && Written(t, items)[EncKey(k)] == EncVal(v)
            case None => (EncKey(k) in Written(t, items) <==> EncKey(k) in t)
                         && (EncKey(k) in t ==> Written(t, items)[EncKey(k)] == t[EncKey(k)])
  {
    hide EncKey, EncVal;
    if items != [] {
      var n := |items| - 1;
      WrittenAt(t, items[..n], k);
      if EncKey(items[n].0) == EncKey(k) {
        KeyRoundTrip(k);
        KeyRoundTrip(items[n].0);
      }
    }
  }

  lemma {:induction false} LastForAppend(a: seq<Item>, b: seq<Item>, k: CacheKey)
    ensures LastFor(a + b, k) == if LastFor(b, k).Some? then LastFor(b, k) else LastFor(a, k)
    decreases |b|
  {
    if b == [] {
      assert a + b == a;
    } else {
      var n := |b| - 1;
      var ab := a + b;
      assert ab[..|ab| - 1] == a + b[..n] && ab[|ab| - 1] == b[n];
      LastForAppend(a, b[..n], k);
    }
  }

  /** Some delete after the last commit of `k` took its row. */
  ghost predicate Purged(log: seq<DiskOp>, k: CacheKey) {
    exists i | 0 <= i < |log| ::
      log[i].Delete? && EncKey(k) in log[i].keys && LastFor(Commits(log[i..]), k).None?
  }

  /**
   * A row that is present is the last committed value for its key; a committed key whose row is
   * missing was deleted by a purge after its last commit.
   */
  lemma {:induction false} RowIsLastCommitted(log: seq<DiskOp>, k: CacheKey)
    ensures EncKey(k) in Replay(log) ==>
              LastFor(Commits(log), k).Some? && Replay(log)[EncKey(k)] == EncVal(LastFor(Commits(log), k).value)
    ensures LastFor(Commits(log), k).Some? && EncKey(k) !in Replay(log) ==> Purged(log, k)
  {
    hide EncKey, EncVal, Written, LastFor;
    NoItems(k);
    if log != [] {
      var n := |log| - 1;
      var init, op := log[..n], log[n];
      RowIsLastCommitted(init, k);
      assert log == init + [op];
      LastForAppend(Commits(init), ItemsOf(op), k);
      match op {
        case Commit(items) =>
          WrittenAt(Replay(init), items, k);
          if LastFor(items, k).None? && Purged(init, k) {
            var i :| 0 <= i < |init| && init[i].Delete? && EncKey(k) in init[i].keys
                     && LastFor(Commits(init[i..]), k).None?;
            StillPurged(init, op, k, i);
          }
        case Delete(keys) =>
          if EncKey(k) in keys {
            JustPurged(init, op, k);
          } else if Purged(init, k) {
            var i :| 0 <= i < |init| && init[i].Delete? && EncKey(k) in init[i].keys
                     && LastFor(Commits(init[i..]), k).None?;
            StillPurged(init, op, k, i);
          }
      }
    }
  }

  lemma NoItems(k: CacheKey)
    ensures LastFor([], k) == None
  {
  }

  lemma JustPurged(init: seq<DiskOp>, op: DiskOp, k: CacheKey)
    requires op.Delete? && EncKey(k) in op.keys
    ensures Purged(init + [op], k)
  {
    hide EncKey;
    var log := init + [op];
    assert log[|init|..] == [op] && [op][..0] == [];
    assert Commits([op]) == [];
    assert log[|init|] == op;
  }

  lemma StillPurged(init: seq<DiskOp>, op: DiskOp, k: CacheKey, i: nat)
    requires i < |init| && init[i].Delete? && EncKey(k) in init[i].keys
    requires LastFor(Commits(init[i..]), k).None? && LastFor(ItemsOf(op), k).None?
    ensures Purged(init + [op], k)
  {
    hide EncKey, LastFor, Commits;
    var log := init + [op];
    assert log[i..] == init[i..] + [op];
    ReplayExtends(init[i..], op);
    LastForAppend(Commits(init[i..]), ItemsOf(op), k);
    assert log[i] == init[i];
  }

  // ---- crashes ----

  lemma {:induction false} CommitsOnly(log: seq<DiskOp>, base: nat)
    requires base <= |log| && forall i | base <= i < |log| :: log[i].Commit?
    ensures Replay(log) == Written(Replay(log[..base]), Commits(log[base..]))
    decreases |log|
  {
    hide Written;
    if base == |log| {
      assert log[..base] == log && log[base..] == [];
      WrittenNothing(Replay(log));
    } else {
      var n := |log| - 1;
      var init := log[..n];
      CommitsOnly(init, base);
      assert log == init + [log[n]] && init[..base] == log[..base];
      LogGrows(init, base, log[n]);
      WrittenAppend(Replay(log[..base]), Commits(init[base..]), log[n].items);
    }
  }

  /**
   * With no failed flush and no purge in this life of the process, a crash leaves exactly the rows the
   * process found, overwritten by a prefix of the accepted items; what is lost was still buffered or queued.
   */
  lemma CrashKeepsPrefix(s: State)
    requires DurableInv(s) && s.up
    requires forall b | b in s.pipe.batches :: b.ok
    requires forall i | s.disk.base <= i < |s.disk.log| :: s.disk.log[i].Commit?
    ensures var lost := |s.pipe.buf| + |s.pipe.channel|;
            && lost <= |s.pipe.offered|
            && s.pipe.offered[|s.pipe.offered| - lost..] == s.pipe.buf + s.pipe.channel
            && s.disk.table == Written(Replay(s.disk.log[..s.disk.base]),
                                       s.pipe.offered[..|s.pipe.offered| - lost])
  {
    hide Written, Replay, Commits;
    CommitsOnly(s.disk.log, s.disk.base);
    WriteBehind.AllKept(s.pipe.batches);
    var kept := WriteBehind.Kept(s.pipe.batches);
    var offered := s.pipe.offered;
    assert offered == kept + (s.pipe.buf + s.pipe.channel);
    assert |kept| == |offered| - |s.pipe.buf| - |s.pipe.channel|;
    assert offered[..|kept|] == kept && offered[|kept|..] == s.pipe.buf + s.pipe.channel;
  }

  // ---- purges ----

  /** What is left of `m` for readers from second `sec` on. */
  ghost function Current(m: map<CacheKey, CachedResponse>, k: CacheKey, sec: nat): Option<CachedResponse> {
    if k in m && m[k].expires > sec then Some(m[k]) else None
  }

  ghost predicate SameFrom(a: map<CacheKey, CachedResponse>, b: map<CacheKey, CachedResponse>, sec: nat) {
    forall k :: Current(a, k, sec) == Current(b, k, sec)
  }

  lemma FoldKeepsSame(a: map<CacheKey, CachedResponse>, b: map<CacheKey, CachedResponse>, items: seq<Item>, sec: nat)
    requires SameFrom(a, b, sec)
    ensures SameFrom(Folded(a, items), Folded(b, items), sec)
  {
    hide Folded, LastFor;
    forall k ensures Current(Folded(a, items), k, sec) == Current(Folded(b, items), k, sec) {
      FoldedIsLastFor(a, items, k);
      FoldedIsLastFor(b, items, k);
      assert Current(a, k, sec) == Current(b, k, sec);
    }
  }

  /** A delete keeps the reading exactly if none of its keys holds an unexpired entry. */
  lemma DeleteKeepsSameIff(t: Table, keys: set<Bytes>, m: map<CacheKey, CachedResponse>, sec: nat)
    requires SameFrom(View(t), m, sec)
    ensures SameFrom(View(t - keys), m, sec) <==> Harmless(t, keys, sec)
  {
    hide EncKey, DecKey, DecVal, View, LiveRow;
    if Harmless(t, keys, sec) {
      forall k ensures Current(View(t - keys), k, sec) == Current(m, k, sec) {
        assert Current(View(t), k, sec) == Current(m, k, sec);
        ViewWithout(t, keys, k);
        if k in View(t) && View(t)[k].expires > sec && EncKey(k) in keys {
          ViewAt(t, k);
          LiveRowIs(t, EncKey(k), sec);
        }
      }
    } else {
      var k := HarmIsVisible(t, keys, sec);
      assert Current(View(t), k, sec) == Current(m, k, sec);
      assert Current(View(t - keys), k, sec) != Current(m, k, sec);
    }
  }

  /** The disk as readers see it from now on: everything ever committed, last writer wins. */
  ghost predicate NothingLiveLost(s: State) {
    SameFrom(View(s.disk.table), Folded(map[], Commits(s.disk.log)), Seconds(s.now))
  }

  /** A purge that deletes no unexpired entry; every other step is clean. */
  ghost predicate CleanStep(s: State, a: Action) {
    a.PurgeDelete? && a.ok && s.disk.purge.Some? ==>
      Harmless(s.disk.table, s.disk.purge.value.keys, Seconds(s.now))
  }

  /** In particular a purge with no commit between its two transactions. */
  lemma QuietPurgeIsClean(s: State, ok: bool)
    requires DurableInv(s) && PurgeInv(s) && s.disk.purge.Some? && s.disk.purge.value.seen == |s.disk.log|
    ensures CleanStep(s, PurgeDelete(ok))
  {
    hide Replay, PipeInv, Commits;
    var p := s.disk.purge.value;
    assert s.disk.log[..|s.disk.log|] == s.disk.log;
    ExpiredLater(s.disk.table, p.sec, Seconds(s.now));
  }

  lemma ExpiredLater(t: Table, early: nat, late: nat)
    requires early <= late
    ensures Harmless(t, ExpiredKeys(t, early), late)
  {
    hide DecKey, DecVal;
  }

  /** Being clean is exactly what it takes for a step to lose nothing. */
  lemma StepLosesNothingIff(c: Config, s: State, a: Action)
    requires c.Valid() && DurableInv(s) && Enabled(c, s, a) && NothingLiveLost(s)
    ensures NothingLiveLost(Apply(c, s, a)) <==> CleanStep(s, a)
  {
    hide Enabled, Apply, View, Commits, PipeInv, Replay, Folded, Harmless, SameFrom;
    Untouched(c, s, a);
    if a.PurgeDelete? {
      DeleteLosesIff(c, s, a.ok);
    } else if a.WriterFlush? {
      FlushLosesNothing(c, s, a.ok);
    } else {
      var s' := Apply(c, s, a);
      Later(View(s.disk.table), Folded(map[], Commits(s.disk.log)), Seconds(s.now), Seconds(s'.now));
    }
  }

  lemma DeleteLosesIff(c: Config, s: State, ok: bool)
    requires c.Valid() && DurableInv(s) && Enabled(c, s, PurgeDelete(ok)) && NothingLiveLost(s)
    ensures NothingLiveLost(Apply(c, s, PurgeDelete(ok))) <==> CleanStep(s, PurgeDelete(ok))
  {
    hide View, Commits, PipeInv, Replay, Folded, SameFrom, LiveRow, WriteBehind.Kept;
    var keys, log := s.disk.purge.value.keys, s.disk.log;
    if ok && keys != {} {
      DeleteKeepsSameIff(s.disk.table, keys, Folded(map[], Commits(log)), Seconds(s.now));
      ReplayExtends(log, Delete(keys));
      assert Commits(log) + [] == Commits(log);
    }
  }

  lemma FlushLosesNothing(c: Config, s: State, ok: bool)
    requires c.Valid() && DurableInv(s) && Enabled(c, s, WriterFlush(ok)) && NothingLiveLost(s)
    ensures NothingLiveLost(Apply(c, s, WriterFlush(ok)))
  {
    hide View, Commits, PipeInv, Replay, Folded, Written, WriteBehind.Flush, SameFrom, WriteBehind.Kept;
    var log, t := s.disk.log, s.disk.table;
    if ok {
      WrittenRefines(t, s.pipe.buf);
      FoldKeepsSame(View(t), Folded(map[], Commits(log)), s.pipe.buf, Seconds(s.now));
      ReplayExtends(log, Commit(s.pipe.buf));
      FoldedAppend(map[], Commits(log), s.pipe.buf);
    }
  }

  /** What the process found at its start read, and still reads, as everything committed before. */
  ghost predicate StartIntact(s: State) {
    s.disk.base <= |s.disk.log| &&
    SameFrom(View(AtStart(s.disk)), Folded(map[], Commits(s.disk.log[..s.disk.base])), Seconds(s.now))
  }

  /** The table when the process started. */
  function AtStart(d: Disk): Table
    requires d.base <= |d.log|
  {
    Replay(d.log[..d.base])
  }

  lemma StepKeepsStart(c: Config, s: State, a: Action)
    requires c.Valid() && DurableInv(s) && Enabled(c, s, a)
    requires NothingLiveLost(s) && StartIntact(s)
    ensures StartIntact(Apply(c, s, a))
  {
    hide Enabled, Apply, View, Commits, PipeInv, Replay, Folded, SameFrom;
    var s' := Apply(c, s, a);
    LogOnlyGrows(c, s, a);
    Later(View(AtStart(s.disk)), Folded(map[], Commits(s.disk.log[..s.disk.base])), Seconds(s.now), Seconds(s'.now));
  }

  lemma LogOnlyGrows(c: Config, s: State, a: Action)
    requires c.Valid() && DurableInv(s) && Enabled(c, s, a)
    ensures var s' := Apply(c, s, a);
            && s'.disk.base <= |s'.disk.log| && s.now <= s'.now
            && (if a.Restart? then s'.disk.log[..s'.disk.base] == s.disk.log && s'.now == s.now
                else s'.disk.base == s.disk.base && s'.disk.log[..s'.disk.base] == s.disk.log[..s.disk.base])
  {
    hide Replay, Commits, PipeInv, Enabled, Apply;
    Untouched(c, s, a);
    if a.WriterFlush? || a.PurgeDelete? || a.Restart? {
      LogStep(c, s, a);
    }
  }

  lemma LogStep(c: Config, s: State, a: Action)
    requires c.Valid() && DurableInv(s) && Enabled(c, s, a) && (a.WriterFlush? || a.PurgeDelete? || a.Restart?)
    ensures var s' := Apply(c, s, a);
            && s'.disk.base <= |s'.disk.log|
            && (if a.Restart? then s'.disk.log[..s'.disk.base] == s.disk.log
                else s'.disk.base == s.disk.base && s'.disk.log[..s'.disk.base] == s.disk.log[..s.disk.base])
  {
    hide Replay, Commits, PipeInv, Written, ReadRows, WriteBehind.Flush, BlocklistFile.Loaded;
  }

  lemma Later(a: map<CacheKey, CachedResponse>, b: map<CacheKey, CachedResponse>, sec: nat, later: nat)
    requires SameFrom(a, b, sec) && sec <= later
    ensures SameFrom(a, b, later)
  {
    forall k ensures Current(a, k, later) == Current(b, k, later) {
      assert Current(a, k, sec) == Current(b, k, sec);
    }
  }

  lemma SameThrough(
    a: map<CacheKey, CachedResponse>, b: map<CacheKey, CachedResponse>, m: map<CacheKey, CachedResponse>, sec: nat)
    requires SameFrom(a, m, sec) && SameFrom(b, m, sec)
    ensures SameFrom(a, b, sec)
  {
    forall k ensures Current(a, k, sec) == Current(b, k, sec) {
      assert Current(a, k, sec) == Current(m, k, sec);
      assert Current(b, k, sec) == Current(m, k, sec);
    }
  }

  /**
   * For every reader from now on, the disk is what the process found at its start, overwritten by the
   * committed batches of its life in order; if no flush failed, by a prefix of the accepted items.
   */
  lemma DiskIsStartAndKept(s: State)
    requires DurableInv(s) && s.up && NothingLiveLost(s) && StartIntact(s)
    ensures SameFrom(View(s.disk.table), Folded(View(AtStart(s.disk)), WriteBehind.Kept(s.pipe.batches)),
                     Seconds(s.now))
    ensures (forall b | b in s.pipe.batches :: b.ok) ==>
              s.pipe.offered == WriteBehind.Kept(s.pipe.batches) + (s.pipe.buf + s.pipe.channel)
  {
    hide View, Commits, Replay, Folded, SameFrom;
    var log, base, sec := s.disk.log, s.disk.base, Seconds(s.now);
    var kept := WriteBehind.Kept(s.pipe.batches);
    assert log == log[..base] + log[base..];
    CommitsSplit(log[..base], log[base..]);
    FoldedAppend(map[], Commits(log[..base]), kept);
    FoldKeepsSame(View(AtStart(s.disk)), Folded(map[], Commits(log[..base])), kept, sec);
    SameThrough(View(s.disk.table), Folded(View(AtStart(s.disk)), kept), Folded(map[], Commits(log)), sec);
    if forall b | b in s.pipe.batches :: b.ok {
      WriteBehind.AllKept(s.pipe.batches);
      assert s.pipe.offered == kept + (s.pipe.buf + s.pipe.channel);
    }
  }

  lemma {:induction false} FoldedAppend(m: map<CacheKey, CachedResponse>, a: seq<Item>, b: seq<Item>)
    ensures Folded(m, a + b) == Folded(Folded(m, a), b)
    decreases |b|
  {
    if b == [] {
      assert a + b == a;
    } else {
      var n := |b| - 1;
      var ab := a + b;
      assert ab[..|ab| - 1] == a + b[..n] && ab[|ab| - 1] == b[n];
      FoldedAppend(m, a, b[..n]);
    }
  }
}
