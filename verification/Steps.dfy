/** What each step of the query path does to the state that tasks share, for the code that takes it. */
module Steps {
  import opened Names
  import opened Wire
  import opened Upstream
  import opened Store
  import opened Blocklist
  import BlocklistFile
  import WriteBehind
  import opened Resolver
  import Accounting
  import Precedence
  import Runs
  import SingleFlight

  lemma ReachableStep(c: Config, s: State, a: Action)
    requires c.Valid() && Reachable(c, s) && Enabled(c, s, a)
    ensures Reachable(c, Apply(c, s, a))
  {
    hide Enabled, Apply, Exec, Init, BlocklistFile.Loaded;
    var now: Millis, text: string, saved: Lists, run: seq<Action> :|
      saved == BlocklistFile.Loaded(text) && Exec(c, Init(c, now, text, saved), run) == Some(s);
    Precedence.ExecOneMore(c, Init(c, now, text, saved), run, a);
  }

  /** The state that tasks share. */
  datatype Shared = Shared(
    now: Millis, lists: Lists, file: string, cache: map<CacheKey, Held>,
    waiters: map<CacheKey, TaskId>, flights: map<TaskId, Flight>,
    persist: seq<Item>, buf: seq<Item>, table: Table,
    inflight: nat, permits: nat, nextId: TaskId, stats: Stats)

  function SharedOf(s: State): Shared {
    Shared(s.now, s.lists, s.files.text, s.ram, s.net.waiters, s.net.flights,
           s.pipe.channel, s.pipe.buf, s.disk.table,
           s.net.freeTasks, s.net.freeResolves, s.net.nextId, s.stats)
  }

  /** Task `t` handles packet `data` and stands at phase `p`. */
  predicate Stands(s: State, t: TaskId, data: Bytes, p: Phase) {
    In(s, t) && s.net.tasks[t].data == data && s.net.tasks[t].phase == p
  }

  /** Other tasks are where they were, and no accepted reply is forgotten. */
  predicate Keeps(s: State, s': State, t: TaskId) {
    s'.net.tasks - {t} == s.net.tasks - {t} && s.past.accepted <= s'.past.accepted
  }

  lemma KeepsThrough(s0: State, s1: State, s2: State, t: TaskId)
    requires Keeps(s0, s1, t) && Keeps(s1, s2, t)
    ensures Keeps(s0, s2, t)
  {
  }

  /** The answer recorded last. */
  predicate Recorded(s: State, data: Bytes, v: Verdict) {
    && s.past.answers != []
    && var a := s.past.answers[|s.past.answers| - 1];
       a.data == data && a.at == SharedOf(s).now && a.verdict == v
  }

  /** `k` has an unexpired entry. */
  predicate LiveIn(h: Shared, k: CacheKey) {
    k in h.cache && h.now < Deadline(h.cache[k])
  }

  lemma CanReceive(c: Config, s: State, data: Bytes)
    requires c.Valid() && s.Serving() && |data| <= MAX_MESSAGE
    ensures Enabled(c, s, Receive(data))
    ensures var s' := Apply(c, s, Receive(data));
            var h := SharedOf(s);
            if h.inflight == 0 then
              && SharedOf(s') == h.(stats := h.stats.(dropped := h.stats.dropped + 1))
              && s'.net.tasks == s.net.tasks && s'.past == s.past && s'.Serving()
            else
              && SharedOf(s') == h.(inflight := h.inflight - 1, nextId := h.nextId + 1)
              && s'.Serving() && Keeps(s, s', h.nextId) && Stands(s', h.nextId, data, Admitted)
  {
  }

  lemma CanParse(c: Config, s: State, t: TaskId, data: Bytes)
    requires c.Valid() && s.Serving() && Stands(s, t, data, Admitted)
    ensures Enabled(c, s, ParseQuery(t))
    ensures var s' := Apply(c, s, ParseQuery(t));
            var h := SharedOf(s);
            && s'.Serving() && Keeps(s, s', t)
            && if KeyOf(c.decode, data).None? then
                 !In(s', t) && SharedOf(s') == h.(inflight := h.inflight + 1)
               else
                 && Stands(s', t, data, Parsed)
                 && SharedOf(s') == h.(stats := h.stats.(queries := h.stats.queries + 1))
  {
    hide KeyOf;
  }

  lemma CanCheck(c: Config, s: State, t: TaskId, data: Bytes, k: CacheKey)
    requires c.Valid() && s.Serving() && Stands(s, t, data, Parsed)
    requires KeyOf(c.decode, data) == Some(k)
    ensures Enabled(c, s, CheckList(t))
    ensures var s' := Apply(c, s, CheckList(t));
            var h := SharedOf(s);
            var sink := Blocks(h.lists, k.name);
            && s'.Serving() && Keeps(s, s', t) && Stands(s', t, data, if sink then Answered else Passed)
            && SharedOf(s') == h.(stats := h.stats.(blocked := h.stats.blocked + if sink then 1 else 0))
  {
    hide KeyOf, Blocks;
    SingleFlight.TaskKeyIs(c, data);
  }

  lemma CanLookup(c: Config, s: State, t: TaskId, data: Bytes, k: CacheKey)
    requires c.Valid() && s.Serving() && Stands(s, t, data, Passed)
    requires KeyOf(c.decode, data) == Some(k)
    ensures Enabled(c, s, Lookup(t))
    ensures var s' := Apply(c, s, Lookup(t));
            var h := SharedOf(s);
            && s'.Serving() && Keeps(s, s', t)
            && if LiveIn(h, k) then
                 && Stands(s', t, data, Answered) && Recorded(s', data, Hit(h.cache[k]))
                 && SharedOf(s') == h.(stats := h.stats.(cacheHits := h.stats.cacheHits + 1))
               else Stands(s', t, data, Missed) && SharedOf(s') == h
  {
    hide KeyOf, Deadline;
    SingleFlight.TaskKeyIs(c, data);
  }

  lemma CanFind(c: Config, s: State, t: TaskId, data: Bytes, k: CacheKey)
    requires c.Valid() && s.Serving() && Stands(s, t, data, Missed)
    requires KeyOf(c.decode, data) == Some(k) && LiveIn(SharedOf(s), k)
    ensures Enabled(c, s, Enter(t))
    ensures var s' := Apply(c, s, Enter(t));
            var h := SharedOf(s);
            && s'.Serving() && Keeps(s, s', t) && Stands(s', t, data, Answered) && Recorded(s', data, Found(h.cache[k]))
            && SharedOf(s') == h.(stats := h.stats.(forwarded := h.stats.forwarded + 1))
  {
    hide KeyOf, Deadline;
    SingleFlight.TaskKeyIs(c, data);
  }

  lemma CanJoin(c: Config, s: State, t: TaskId, data: Bytes, k: CacheKey)
    requires c.Valid() && s.Serving() && Stands(s, t, data, Missed)
    requires KeyOf(c.decode, data) == Some(k) && !LiveIn(SharedOf(s), k)
    requires k in SharedOf(s).waiters
    ensures Enabled(c, s, Enter(t))
    ensures var s' := Apply(c, s, Enter(t));
            var h := SharedOf(s);
            s'.Serving() && Keeps(s, s', t) && Stands(s', t, data, Awaiting(h.waiters[k])) && SharedOf(s') == h
  {
    hide KeyOf, Deadline;
    SingleFlight.TaskKeyIs(c, data);
  }

  lemma CanLead(c: Config, s: State, t: TaskId, data: Bytes, k: CacheKey)
    requires c.Valid() && s.Serving() && Stands(s, t, data, Missed)
    requires KeyOf(c.decode, data) == Some(k) && !LiveIn(SharedOf(s), k)
    requires k !in SharedOf(s).waiters
    ensures Enabled(c, s, Enter(t))
    ensures var s' := Apply(c, s, Enter(t));
            var h := SharedOf(s);
            && s'.Serving() && Keeps(s, s', t) && Stands(s', t, data, Leading)
            && SharedOf(s') == h.(
                 cache := h.cache - {k}, waiters := h.waiters[k := t],
                 flights := h.flights[t := Flight(k, Running)])
  {
    hide KeyOf, Deadline;
    SingleFlight.TaskKeyIs(c, data);
  }

  lemma CanAcquire(c: Config, s: State, t: TaskId, data: Bytes)
    requires c.Valid() && s.Serving() && Stands(s, t, data, Leading) && SharedOf(s).permits > 0
    ensures Enabled(c, s, Acquire(t))
    ensures var s' := Apply(c, s, Acquire(t));
            var h := SharedOf(s);
            && s'.Serving() && Keeps(s, s', t) && Stands(s', t, data, Resolving)
            && SharedOf(s') == h.(permits := h.permits - 1)
  {
  }

  lemma CanAccept(c: Config, s: State, t: TaskId, data: Bytes, attempts: seq<Attempt>, resp: CachedResponse)
    requires c.Valid() && s.Serving() && Stands(s, t, data, Resolving)
    requires Resolution(c.decode, c.limits, data, attempts, SharedOf(s).now) == Some(resp)
    ensures Enabled(c, s, Resolve(t, attempts))
    ensures var s' := Apply(c, s, Resolve(t, attempts));
            var h := SharedOf(s);
            && s'.Serving() && Keeps(s, s', t) && Stands(s', t, data, Resolved(resp, h.now))
            && SharedOf(s') == h.(permits := h.permits + 1)
  {
    hide Resolution, TaskKey;
  }

  lemma CanFail(c: Config, s: State, t: TaskId, data: Bytes, k: CacheKey, attempts: seq<Attempt>)
    requires c.Valid() && s.Serving() && Stands(s, t, data, Resolving)
    requires KeyOf(c.decode, data) == Some(k)
    requires Resolution(c.decode, c.limits, data, attempts, SharedOf(s).now) == None
    ensures Enabled(c, s, Resolve(t, attempts))
    ensures var s' := Apply(c, s, Resolve(t, attempts));
            var h := SharedOf(s);
            && s'.Serving() && Keeps(s, s', t) && Stands(s', t, data, Awaiting(t))
            && SharedOf(s') == h.(
                 permits := h.permits + 1, waiters := h.waiters - {k},
                 flights := h.flights[t := Flight(k, Errored)])
  {
    hide Resolution, KeyOf;
    SingleFlight.TaskKeyIs(c, data);
  }

  lemma CanOffer(c: Config, s: State, t: TaskId, data: Bytes, k: CacheKey, resp: CachedResponse, at: Millis)
    requires c.Valid() && s.Serving() && Stands(s, t, data, Resolved(resp, at))
    requires KeyOf(c.decode, data) == Some(k)
    ensures Enabled(c, s, OfferPersist(t))
    ensures var s' := Apply(c, s, OfferPersist(t));
            var h := SharedOf(s);
            && s'.Serving() && Keeps(s, s', t) && Stands(s', t, data, Offered(resp, at))
            && SharedOf(s') == h.(
                 persist := h.persist + if |h.persist| < PERSIST_CHANNEL_CAP then [(k, resp)] else [])
  {
    hide KeyOf;
    SingleFlight.TaskKeyIs(c, data);
    assert SharedOf(s).persist + [] == SharedOf(s).persist;
  }

  lemma CanPublish(c: Config, s: State, t: TaskId, data: Bytes, k: CacheKey, resp: CachedResponse, at: Millis)
    requires c.Valid() && s.Serving() && Stands(s, t, data, Offered(resp, at))
    requires KeyOf(c.decode, data) == Some(k)
    ensures Enabled(c, s, Publish(t))
    ensures var s' := Apply(c, s, Publish(t));
            var h := SharedOf(s);
            var entry := Held(resp, at, h.now);
            && s'.Serving() && Keeps(s, s', t) && Stands(s', t, data, Awaiting(t))
            && SharedOf(s') == h.(
                 cache := h.cache[k := entry], waiters := h.waiters - {k},
                 flights := h.flights[t := Flight(k, Ready(entry))])
  {
    hide KeyOf;
    SingleFlight.TaskKeyIs(c, data);
  }

  lemma CanWake(c: Config, s: State, t: TaskId, data: Bytes, f: TaskId)
    requires c.Valid() && s.Serving() && Stands(s, t, data, Awaiting(f))
    requires f in SharedOf(s).flights && !SharedOf(s).flights[f].outcome.Running?
    ensures Enabled(c, s, Wake(t))
    ensures var s' := Apply(c, s, Wake(t));
            var h := SharedOf(s);
            && s'.Serving() && Keeps(s, s', t) && Stands(s', t, data, Answered)
            && if h.flights[f].outcome.Ready? then
                 && Recorded(s', data, Flown(h.flights[f].outcome.held))
                 && SharedOf(s') == h.(stats := h.stats.(forwarded := h.stats.forwarded + 1))
               else
                 SharedOf(s') == h.(stats := h.stats.(upstreamErrors := h.stats.upstreamErrors + 1))
  {
  }

  lemma CanFinish(c: Config, s: State, t: TaskId, data: Bytes)
    requires c.Valid() && s.Serving() && Stands(s, t, data, Answered)
    ensures Enabled(c, s, Finish(t))
    ensures var s' := Apply(c, s, Finish(t));
            var h := SharedOf(s);
            && s'.Serving() && Keeps(s, s', t) && !In(s', t) && s'.past == s.past
            && SharedOf(s') == h.(inflight := h.inflight + 1)
  {
  }

  // ---- other tasks ----

  lemma CanReceiveItem(c: Config, s: State)
    requires c.Valid() && s.Serving() && SharedOf(s).persist != [] && |SharedOf(s).buf| < BATCH_MAX
    ensures Enabled(c, s, WriterReceive)
    ensures var s' := Apply(c, s, WriterReceive);
            var h := SharedOf(s);
            && s'.net == s.net && s'.Serving()
            && SharedOf(s') == h.(
                 persist := h.persist[1..], buf := h.buf + [h.persist[0]])
  {
  }

  lemma CanFlush(c: Config, s: State, ok: bool)
    requires c.Valid() && s.Serving() && SharedOf(s).buf != []
    ensures Enabled(c, s, WriterFlush(ok))
    ensures var s' := Apply(c, s, WriterFlush(ok));
            var h := SharedOf(s);
            && s'.net == s.net && s'.Serving()
            && SharedOf(s') == h.(
                 buf := [], table := if ok then Written(h.table, h.buf) else h.table)
  {
    hide Written;
  }

  lemma CanCollect(c: Config, s: State)
    requires c.Valid() && s.Serving() && s.disk.purge.None?
    ensures Enabled(c, s, PurgeCollect)
    ensures var s' := Apply(c, s, PurgeCollect);
            var h := SharedOf(s);
            && s'.net == s.net && s'.Serving() && SharedOf(s') == h
            && s'.disk.purge.Some? && s'.disk.purge.value.keys == ExpiredKeys(h.table, Seconds(h.now))
  {
    hide ExpiredKeys;
  }

  lemma CanDelete(c: Config, s: State, ok: bool)
    requires c.Valid() && s.Serving() && s.disk.purge.Some?
    ensures Enabled(c, s, PurgeDelete(ok))
    ensures var s' := Apply(c, s, PurgeDelete(ok));
            var h := SharedOf(s);
            && s'.net == s.net && s'.Serving() && s'.disk.purge.None?
            && SharedOf(s') == h.(
                 table := if ok then h.table - s.disk.purge.value.keys else h.table)
  {
    assert SharedOf(s).table - {} == SharedOf(s).table;
  }

  lemma CanTick(c: Config, s: State, ms: nat)
    requires c.Valid() && s.Serving() && (SharedOf(s).now + ms) / 1000 < 0xFFFF_FFFF_0000_0000
    ensures Enabled(c, s, Tick(ms))
    ensures var s' := Apply(c, s, Tick(ms));
            var h := SharedOf(s);
            s'.net == s.net && s'.Serving() && SharedOf(s') == h.(now := h.now + ms)
  {
  }

  lemma CanDrop(c: Config, s: State, k: CacheKey)
    requires c.Valid() && s.Serving() && k in SharedOf(s).cache
    ensures Enabled(c, s, DropEntry(k))
    ensures var s' := Apply(c, s, DropEntry(k));
            var h := SharedOf(s);
            s'.net == s.net && s'.Serving() && SharedOf(s') == h.(cache := h.cache - {k})
  {
  }

  lemma CanSave(c: Config, s: State, text: string, v: seq<string>)
    requires c.Valid() && s.Serving() && BlocklistFile.IsListing(BlocklistFile.Loaded(text), v)
    ensures Enabled(c, s, SaveList(text, v))
    ensures var s' := Apply(c, s, SaveList(text, v));
            var h := SharedOf(s);
            && s'.net == s.net && s'.Serving() && SharedOf(s') == h.(file := BlocklistFile.FileText(v))
            && s'.files.saved == BlocklistFile.Loaded(text)
            && s'.files.edits == s.files.edits[s.files.nextEdit := text]
  {
    hide BlocklistFile.Loaded, BlocklistFile.IsListing, BlocklistFile.FileText;
  }

  lemma CanPublishList(c: Config, s: State, edit: nat)
    requires c.Valid() && s.Serving() && edit in s.files.edits
    ensures Enabled(c, s, PublishList(edit))
    ensures var s' := Apply(c, s, PublishList(edit));
            var h := SharedOf(s);
            && s'.net == s.net && s'.Serving() && s'.files == s.files.(edits := s.files.edits - {edit})
            && SharedOf(s') == h.(lists := BlocklistFile.Loaded(s.files.edits[edit]))
  {
    hide BlocklistFile.Loaded;
  }

  lemma IdIsFresh(c: Config, s: State)
    requires c.Valid() && Reachable(c, s)
    ensures s.net.nextId !in s.net.tasks
  {
    hide Reachable;
    Runs.ReachableOk(c, s);
    Accounting.FreshId(c, s.net);
  }

  lemma NoneLeft(before: map<TaskId, Task>, after: map<TaskId, Task>, t: TaskId)
    requires after - {t} == before - {t} && t !in before && t !in after
    ensures after == before
  {
    assert after - {t} == after && before - {t} == before;
  }

  /** With no query under way every permit is free and nobody fetches anything. */
  lemma IdleIsFree(c: Config, s: State)
    requires c.Valid() && Reachable(c, s) && s.net.tasks == map[]
    ensures s.net.freeTasks == c.TaskPermits() && s.net.freeResolves == c.ResolvePermits() && s.net.waiters == map[]
  {
    hide Reachable;
    Runs.LoadIsBounded(c, s);
    Runs.ReachableOk(c, s);
    assert Accounting.ResolvingTasks(s.net) == {};
    SingleFlight.NoWaiters(c, s.net);
  }

  // ---- start-up ----

  /** A fresh installation can be started. */
  lemma InstalledIsReachable(c: Config, now: Millis, text: string)
    requires c.Valid()
    ensures Reachable(c, Init(c, now, text, BlocklistFile.Loaded(text)))
    ensures !Init(c, now, text, BlocklistFile.Loaded(text)).up
  {
    hide BlocklistFile.Loaded;
    var s := Init(c, now, text, BlocklistFile.Loaded(text));
    Precedence.ExecNothing(c, s);
    assert Exec(c, s, []) == Some(s);
  }

  /** And so can one that crashed. */
  lemma CrashedIsReachable(c: Config, s: State)
    requires c.Valid() && Reachable(c, s) && s.up
    ensures Reachable(c, DoCrash(c, s)) && !DoCrash(c, s).up
    ensures DoCrash(c, s).disk.table == s.disk.table && DoCrash(c, s).files.text == s.files.text
  {
    hide Reachable;
    ReachableStep(c, s, Crash);
  }

  /** The RAM cache after inserting loaded rows one by one at a moment. */
  function Warmed(rows: seq<Item>, at: Millis): map<CacheKey, Held> {
    if rows == [] then map[]
    else
      var n := |rows| - 1;
      Warmed(rows[..n], at)[rows[n].0 := Held(rows[n].1, at, at)]
  }

  lemma {:induction false} WarmedHas(rows: seq<Item>, at: Millis, k: CacheKey)
    ensures |Warmed(rows, at)| <= |rows|
    ensures (exists v :: (k, v) in rows) ==> k in Warmed(rows, at)
    ensures k in Warmed(rows, at) ==>
              exists v :: (k, v) in rows && Warmed(rows, at)[k] == Held(v, at, at)
  {
    if rows != [] {
      var n := |rows| - 1;
      WarmedHas(rows[..n], at, k);
      assert forall v :: (k, v) in rows <==> (k, v) in rows[..n] || (k, v) == rows[n];
    }
  }

  /**
   * The warm load: at most `maxEntries` entries, each unexpired on disk and held for what remains of its
   * lifetime; and every unexpired entry, if the table has no more than `maxEntries` rows.
   */
  lemma WarmLoadMeans(c: Config, t: Table, order: seq<Bytes>, at: Millis, k: CacheKey)
    requires KeyOrdered(t, order)
    ensures var warm := WarmRam(c, t, order, at, true);
            && |warm| <= c.maxEntries
            && (k in warm ==> k in View(t) && View(t)[k].expires > Seconds(at)
                              && warm[k] == Held(Remaining(View(t)[k], Seconds(at)), at, at))
            && (|order| <= c.maxEntries && k in View(t) && View(t)[k].expires > Seconds(at) ==> k in warm)
  {
    hide ReadRows, View, Warmed;
    var rows := ReadRows(t, order, Seconds(at));
    var entries := rows[..Min(c.maxEntries, |rows|)];
    WarmedHas(entries, at, k);
    if k in Warmed(entries, at) {
      var v :| (k, v) in entries && Warmed(entries, at)[k] == Held(v, at, at);
      assert (k, v) in rows;
      ReadAllMeans(t, order, Seconds(at), k, v);
    }
    RowsFit(t, order, Seconds(at));
    if |order| <= c.maxEntries && k in View(t) && View(t)[k].expires > Seconds(at) {
      assert entries == rows;
      ReadAllMeans(t, order, Seconds(at), k, Remaining(View(t)[k], Seconds(at)));
    }
  }

  /** What the load leaves in RAM; nothing if the store cannot be read. */
  function WarmRam(c: Config, t: Table, order: seq<Bytes>, at: Millis, ok: bool): map<CacheKey, Held>
    requires forall kb | kb in order :: kb in t
  {
    var rows := if ok then ReadRows(t, order, Seconds(at)) else [];
    Warmed(rows[..Min(c.maxEntries, |rows|)], at)
  }

  lemma {:induction false} RowsFit(t: Table, order: seq<Bytes>, sec: nat)
    requires forall kb | kb in order :: kb in t
    ensures |ReadRows(t, order, sec)| <= |order|
  {
    hide LiveRow;
    if order != [] {
      RowsFit(t, order[..|order| - 1], sec);
    }
  }

  lemma StoppedIsEmpty(c: Config, s: State)
    requires c.Valid() && Reachable(c, s) && !s.up
    ensures s.ram == map[] && s.pipe == WriteBehind.Empty()
  {
    hide Reachable;
    Runs.ReachableOk(c, s);
  }

  lemma CanRestart(c: Config, s: State, order: seq<Bytes>, ok: bool)
    requires c.Valid() && Reachable(c, s) && !s.up && KeyOrdered(s.disk.table, order)
    ensures Enabled(c, s, Restart(order, ok))
    ensures var s' := Apply(c, s, Restart(order, ok));
            var rows := if ok then ReadRows(s.disk.table, order, Seconds(s.now)) else [];
            && SharedOf(s') == Shared(
                 s.now, BlocklistFile.Loaded(s.files.text), s.files.text, map[], map[], map[], [], [], s.disk.table,
                 c.TaskPermits(), c.ResolvePermits(), s.net.nextId, NO_STATS)
            && s'.net.tasks == map[] && s'.up && s'.readAt == SharedOf(s').now
            && s'.loading == rows[..Min(c.maxEntries, |rows|)]
  {
    hide ReadRows, BlocklistFile.Loaded, Reachable;
    StoppedIsEmpty(c, s);
  }

  lemma CanLoad(c: Config, s: State)
    requires c.Valid() && s.up && s.loading != []
    ensures Enabled(c, s, LoadOne)
    ensures var s' := Apply(c, s, LoadOne);
            var h := SharedOf(s);
            var (k, v) := s.loading[0];
            && SharedOf(s') == h.(cache := h.cache[k := Held(v, s.readAt, h.now)])
            && s'.loading == s.loading[1..] && s'.up && s'.readAt == s.readAt && s'.net == s.net
  {
  }
}
