/**
 * `handle` and the state it shares, as the program runs them: the code between two await points of a
 * query is one method, and callers may interleave the methods of any number of queries. Every method
 * follows the step system, so the guarantees of its runs hold for the bytes sent here.
 */
module Service {
  import opened Names
  import opened Wire
  import opened Upstream
  import opened Store
  import opened Blocklist
  import BlocklistFile
  import opened Resolver
  import Runs
  import opened Steps

  /** What is sent back; the two messages the resolver builds itself stay abstract. */
  datatype Response = Silent | Sinkholed | Carrying(bytes: Bytes) | ServerFailure

  /** Where a query goes on after a stretch of code. */
  datatype Progress = Done(response: Response) | Miss | Lead | Join(flight: TaskId)

  /** The parts of the shared state that a query leaves its mark on. */
  datatype Snapshot = Snapshot(
    cache: map<CacheKey, Held>, persist: seq<Item>,
    queries: nat, blocked: nat, cacheHits: nat, forwarded: nat, upstreamErrors: nat)

  /** `r` sends `h` under the client's id. */
  ghost predicate Sends(c: Config, accepted: set<Accept>, now: Millis, r: Response, data: Bytes, h: Held)
    requires c.Valid()
  {
    && Parse(c.decode, data).Some?
    && r == Carrying(Patched(h.resp.wire, Parse(c.decode, data).value.id))
    && Runs.FaithfulAnswer(c, accepted, data, r.bytes, now)
  }

  /** What one query does to the response, the cache, the persist channel and the counters, exactly. */
  ghost predicate Serves(
    c: Config, lists: Lists, attempts: seq<Attempt>, now: Millis, accepted: set<Accept>,
    was: Snapshot, left: Snapshot, data: Bytes, response: Response)
    requires c.Valid()
  {
    match KeyOf(c.decode, data)
    case None => response == Silent && left == was
    case Some(k) =>
      if Blocks(lists, k.name) then
        response == Sinkholed && left == was.(queries := was.queries + 1, blocked := was.blocked + 1)
      else if k in was.cache && now < Deadline(was.cache[k]) then
        && Sends(c, accepted, now, response, data, was.cache[k])
        && left == was.(queries := was.queries + 1, cacheHits := was.cacheHits + 1)
      else
        match Resolution(c.decode, c.limits, data, attempts, now)
        case Some(found) =>
          && Sends(c, accepted, now, response, data, Held(found, now, now))
          && left == was.(
               queries := was.queries + 1, forwarded := was.forwarded + 1,
               cache := was.cache[k := Held(found, now, now)],
               persist := was.persist + if |was.persist| < PERSIST_CHANNEL_CAP then [(k, found)] else [])
        case None =>
          && response == ServerFailure
          && left == was.(
               queries := was.queries + 1, upstreamErrors := was.upstreamErrors + 1, cache := was.cache - {k})
  }

  /**
   * Two queries for one key, whatever happens in between: as long as the entry behind the first answer is
   * still in RAM and alive and the list does not block the name, the second gets the same bytes after the id,
   * whatever upstream would say.
   */
  lemma RepeatIsServedFromRam(
    c: Config, lists: Lists, lists': Lists, attempts: seq<Attempt>, attempts': seq<Attempt>, now: Millis, now': Millis,
    accepted: set<Accept>, accepted': set<Accept>, s0: Snapshot, s1: Snapshot, later: Snapshot, s2: Snapshot,
    k: CacheKey, data: Bytes, data': Bytes, r: Response, r': Response)
    requires c.Valid()
    requires Serves(c, lists, attempts, now, accepted, s0, s1, data, r)
    requires Serves(c, lists', attempts', now', accepted', later, s2, data', r')
    requires KeyOf(c.decode, data) == Some(k) && KeyOf(c.decode, data') == Some(k)
    requires r.Carrying? && !Blocks(lists', k.name)
    ensures k in s1.cache
    ensures k in later.cache && later.cache[k] == s1.cache[k] && now' < Deadline(s1.cache[k]) ==>
              && s2 == later.(queries := later.queries + 1, cacheHits := later.cacheHits + 1)
              && r'.Carrying? && |r'.bytes| == |r.bytes| >= 2 && r'.bytes[2..] == r.bytes[2..]
  {
    hide KeyOf, Blocks, Deadline, Resolution;
    assert |r.bytes| >= HEADER_LEN;
  }

  class AppState {
    const config: Config
    const upstream: Forwarder
    const db: Database
    var now: Millis
    var blocklist: Matcher
    var file: string
    var cache: map<CacheKey, Held>
    /** The part of the cache that knows who is fetching what. */
    var waiters: map<CacheKey, TaskId>
    var flights: map<TaskId, Flight>
    var persist: seq<Item>
    /** The writer's buffer. */
    var buf: seq<Item>
    var inflight: nat
    var permits: nat
    var nextId: TaskId
    var queries: nat
    var blocked: nat
    var cacheHits: nat
    var forwarded: nat
    var upstreamErrors: nat
    var dropped: nat
    ghost var st: State

    ghost predicate Valid()
      reads this, db
    {
      Synced() && |buf| < BATCH_MAX
    }

    /** The fields are a reachable state of the step system. */
    ghost predicate Synced()
      reads this, db
    {
      && config.Valid() && upstream.limits == config.limits
      && Reachable(config, st) && st.Serving()
      && Mirrors()
    }

    ghost predicate Mirrors()
      reads this, db
    {
      Fields() == SharedOf(st)
    }

    function Fields(): Shared
      reads this, db
    {
      Shared(now, blocklist.lists, file, cache, waiters, flights, persist, buf, db.table, inflight, permits, nextId,
             Stats(queries, blocked, cacheHits, forwarded, upstreamErrors, dropped))
    }

    /** Task `t` handles packet `data` and stands at phase `p`. */
    ghost predicate At(t: TaskId, data: Bytes, p: Phase)
      reads this
    {
      Stands(st, t, data, p)
    }

    twostate predicate KeepsOthers(t: TaskId)
      reads this
    {
      Keeps(old(st), st, t)
    }

    /** `p` sends `h` under the client's id. */
    ghost predicate Carries(p: Progress, data: Bytes, h: Held)
      reads this
    {
      config.Valid() && p.Done? && p.response.Carrying? && Sends(config, st.past.accepted, now, p.response, data, h)
    }

    /** The cached message under the client's id; it has just been recorded as the last answer. */
    method Reply(data: Bytes, h: Held, ghost v: Verdict) returns (p: Progress)
      requires config.Valid() && Reachable(config, st) && Mirrors()
      requires Recorded(st, data, v) && Runs.Carried(v) == Some(h)
      ensures Carries(p, data, h)
    {
      hide Reachable, Patched, Runs.FaithfulAnswer, Parse;
      Runs.AnswersAreUpstreamReplies(config, st, |st.past.answers| - 1);
      var out := PatchId(h.resp.wire, Parse(config.decode, data).value.id);
      p := Done(Carrying(out[..]));
    }

    /**
     * `main` on what an installation or a crash left: it sizes the semaphores, reads the blocklist file,
     * and loads the store into the RAM cache in a loop, unless the store cannot be read.
     */
    constructor (config: Config, upstream: Forwarder, db: Database, ghost from: State, order: seq<Bytes>,
                 readable: bool, now: Millis, text: string, nextId: TaskId)
      requires config.Valid() && upstream.limits == config.limits
      requires Reachable(config, from) && !from.up && from.now == now
      requires from.files.text == text && from.net.nextId == nextId
      requires from.disk.table == db.table && KeyOrdered(db.table, order)
      ensures Valid() && Idle() && this.config == config && this.upstream == upstream && this.db == db
      ensures fresh(blocklist) && blocklist.lists == BlocklistFile.Loaded(text) && file == text
      ensures cache == WarmRam(config, db.table, order, now, readable)
      ensures this.now == now && buf == [] && dropped == 0 && Snap() == Snapshot(cache, [], 0, 0, 0, 0, 0)
    {
      hide Reachable, BlocklistFile.Loaded, KeyOrdered, WarmRam, Valid, Written, View;
      this.config, this.upstream, this.db, this.now, this.nextId, file := config, upstream, db, now, nextId, text;
      var lists := BlocklistFile.FromText(text);
      blocklist := new Matcher(lists);
      waiters, flights, persist, buf, cache := map[], map[], [], [], map[];
      inflight, permits := config.TaskPermits(), config.ResolvePermits();
      queries, blocked, cacheHits, forwarded, upstreamErrors, dropped := 0, 0, 0, 0, 0, 0;
      st := from;
      new;
      Boot(order, readable);
    }

    /** The fields of a process that has handled nothing. */
    ghost predicate Blank()
      reads this
    {
      && blocklist.lists == BlocklistFile.Loaded(file)
      && cache == map[] && waiters == map[] && flights == map[] && persist == [] && buf == []
      && inflight == config.TaskPermits() && permits == config.ResolvePermits()
      && Stats(queries, blocked, cacheHits, forwarded, upstreamErrors, dropped) == NO_STATS
    }

    method Boot(order: seq<Bytes>, readable: bool)
      requires config.Valid() && upstream.limits == config.limits && Blank()
      requires Reachable(config, st) && !st.up && st.now == now && st.files.text == file
      requires st.net.nextId == nextId && st.disk.table == db.table && KeyOrdered(db.table, order)
      modifies `st, `cache
      ensures Valid() && Idle() && cache == WarmRam(config, db.table, order, now, readable)
    {
      hide Reachable, Enabled, Apply, BlocklistFile.Loaded, ReadRows, Warmed, SharedOf;
      CanRestart(config, st, order, readable);
      var entries := [];
      if readable {
        entries := db.ReadAllValid(order, now);
      }
      entries := entries[..Min(config.maxEntries, |entries|)];
      Step(Restart(order, readable));
      Load(entries);
    }

    /** The insert loop of the warm load. */
    method Load(entries: seq<Item>)
      requires config.Valid() && Reachable(config, st) && Mirrors() && cache == map[]
      requires st.up && st.loading == entries && st.readAt == now
      modifies `st, `cache
      ensures config.Valid() && Reachable(config, st) && Mirrors() && st.Serving()
      ensures cache == Warmed(entries, now) && st.net == old(st.net)
    {
      hide Reachable, Enabled, Apply, SharedOf, Keeps, Stands, Recorded;
      for i := 0 to |entries|
        invariant Reachable(config, st) && Mirrors() && st.up && st.readAt == now
        invariant st.loading == entries[i..] && cache == Warmed(entries[..i], now)
        invariant st.net == old(st.net)
      {
        var (k, v) := entries[i];
        assert st.loading[0] == entries[i];
        CanLoad(config, st);
        Step(LoadOne);
        cache := cache[k := Held(v, now, now)];
        assert entries[..i + 1][..i] == entries[..i];
      }
      assert entries[..|entries|] == entries;
    }

    /** No query is being handled. */
    ghost predicate Idle()
      reads this
    {
      st.net.tasks == map[]
    }

    ghost method Step(a: Action)
      requires config.Valid() && Reachable(config, st) && Enabled(config, st, a)
      modifies `st
      ensures st == Apply(config, old(st), a) && Reachable(config, st)
    {
      ReachableStep(config, st, a);
      st := Apply(config, st, a);
    }

    /** `udp_worker` takes a permit for a packet or drops the packet. */
    method Admit(data: Bytes) returns (t: Option<TaskId>)
      requires Valid() && |data| <= MAX_MESSAGE
      modifies `st, `inflight, `nextId, `dropped
      ensures Valid() && st == Apply(config, old(st), Receive(data))
      ensures t == if old(inflight) > 0 then Some(old(nextId)) else None
      ensures t.None? ==> dropped == old(dropped) + 1 && inflight == 0
      ensures t.None? ==> st.net.tasks == old(st.net.tasks) && st.past == old(st.past)
      ensures t.Some? ==> At(t.value, data, Admitted) && KeepsOthers(t.value)
      ensures t.Some? ==> inflight == old(inflight) - 1 && dropped == old(dropped)
    {
      hide Reachable, Enabled, Apply, SharedOf, Keeps, Stands, Recorded;
      CanReceive(config, st, data);
      Step(Receive(data));
      if inflight == 0 {
        dropped := dropped + 1;
        return None;
      }
      t := Some(nextId);
      inflight, nextId := inflight - 1, nextId + 1;
    }

    method ParseRequest(t: TaskId, data: Bytes) returns (k: Option<CacheKey>)
      requires Valid() && At(t, data, Admitted)
      modifies `st, `inflight, `queries
      ensures Valid() && KeepsOthers(t) && k == KeyOf(config.decode, data)
      ensures if k.None? then !In(st, t) && inflight == old(inflight) + 1 && unchanged(`queries)
              else At(t, data, Parsed) && queries == old(queries) + 1 && unchanged(`inflight)
    {
      hide Reachable, Enabled, Apply, KeyOf, SharedOf, Keeps, Stands, Recorded;
      k := KeyOf(config.decode, data);
      CanParse(config, st, t, data);
      Step(ParseQuery(t));
      if k.None? {
        inflight := inflight + 1;
      } else {
        queries := queries + 1;
      }
    }

    method CheckName(t: TaskId, data: Bytes, k: CacheKey) returns (sink: bool)
      requires Valid() && At(t, data, Parsed) && KeyOf(config.decode, data) == Some(k)
      modifies `st, `blocked
      ensures Valid() && KeepsOthers(t) && (sink <==> Blocks(blocklist.lists, k.name))
      ensures At(t, data, if sink then Answered else Passed) && blocked == old(blocked) + if sink then 1 else 0
    {
      hide Reachable, Enabled, Apply, Blocks, KeyOf, SharedOf, Keeps, Stands, Recorded;
      ghost var lookups;
      sink, lookups := blocklist.IsBlocked(k.name);
      CanCheck(config, st, t, data, k);
      Step(CheckList(t));
      if sink {
        blocked := blocked + 1;
      }
    }

    method ReadCache(t: TaskId, data: Bytes, k: CacheKey) returns (p: Progress)
      requires Valid() && At(t, data, Passed) && KeyOf(config.decode, data) == Some(k)
      modifies `st, `cacheHits
      ensures Valid() && KeepsOthers(t)
      ensures if k in cache && now < Deadline(cache[k]) then
                At(t, data, Answered) && cacheHits == old(cacheHits) + 1 && Carries(p, data, cache[k])
              else p == Miss && At(t, data, Missed) && unchanged(`cacheHits)
    {
      hide Reachable, Enabled, Apply, KeyOf, Patched, Deadline, SharedOf, Keeps, Stands, Recorded;
      CanLookup(config, st, t, data, k);
      Step(Lookup(t));
      if k in cache && now < Deadline(cache[k]) {
        cacheHits := cacheHits + 1;
        p := Reply(data, cache[k], Hit(cache[k]));
      } else {
        p := Miss;
      }
    }

    /** `handle` from the parse to the cache read. */
    method Begin(t: TaskId, data: Bytes) returns (p: Progress)
      requires Valid() && At(t, data, Admitted)
      modifies `st, `inflight, `queries, `blocked, `cacheHits
      ensures Valid() && KeepsOthers(t)
      ensures var k := KeyOf(config.decode, data);
              if k.None? then
                && p == Done(Silent) && !In(st, t) && inflight == old(inflight) + 1
                && unchanged(`queries, `blocked, `cacheHits)
              else
                && queries == old(queries) + 1 && unchanged(`inflight)
                && if Blocks(blocklist.lists, k.value.name) then
                     p == Done(Sinkholed) && At(t, data, Answered)
                     && blocked == old(blocked) + 1 && unchanged(`cacheHits)
                   else if k.value in cache && now < Deadline(cache[k.value]) then
                     Carries(p, data, cache[k.value]) && At(t, data, Answered)
                     && unchanged(`blocked) && cacheHits == old(cacheHits) + 1
                   else p == Miss && At(t, data, Missed) && unchanged(`blocked, `cacheHits)
    {
      hide Blocks, KeyOf, Deadline, Valid, Carries, Stands, SharedOf;
      var k := ParseRequest(t, data);
      if k.None? {
        return Done(Silent);
      }
      var sink := CheckName(t, data, k.value);
      if sink {
        return Done(Sinkholed);
      }
      p := ReadCache(t, data, k.value);
    }

    method StartFlight(t: TaskId, data: Bytes, k: CacheKey)
      requires Valid() && At(t, data, Missed) && KeyOf(config.decode, data) == Some(k)
      requires k !in waiters && !(k in cache && now < Deadline(cache[k]))
      modifies `st, `cache, `waiters, `flights
      ensures Valid() && KeepsOthers(t) && At(t, data, Leading) && cache == old(cache) - {k}
      ensures waiters == old(waiters)[k := t] && flights == old(flights)[t := Flight(k, Running)]
    {
      hide Reachable, Enabled, Apply, KeyOf, Deadline, SharedOf, Keeps, Stands, Recorded;
      CanLead(config, st, t, data, k);
      Step(Enter(t));
      cache := cache - {k};
      waiters, flights := waiters[k := t], flights[t := Flight(k, Running)];
    }

    method JoinFlight(t: TaskId, data: Bytes, k: CacheKey) returns (f: TaskId)
      requires Valid() && At(t, data, Missed) && KeyOf(config.decode, data) == Some(k)
      requires k in waiters && !(k in cache && now < Deadline(cache[k]))
      modifies `st
      ensures Valid() && KeepsOthers(t) && f == waiters[k] && At(t, data, Awaiting(f))
    {
      hide Reachable, Enabled, Apply, KeyOf, Deadline, SharedOf, Keeps, Stands, Recorded;
      CanJoin(config, st, t, data, k);
      Step(Enter(t));
      f := waiters[k];
    }

    method FindEntry(t: TaskId, data: Bytes, k: CacheKey) returns (p: Progress)
      requires Valid() && At(t, data, Missed) && KeyOf(config.decode, data) == Some(k)
      requires k in cache && now < Deadline(cache[k])
      modifies `st, `forwarded
      ensures Valid() && KeepsOthers(t) && At(t, data, Answered)
      ensures Carries(p, data, cache[k]) && forwarded == old(forwarded) + 1
    {
      hide Reachable, Enabled, Apply, KeyOf, Patched, Deadline, SharedOf, Keeps, Stands, Recorded;
      CanFind(config, st, t, data, k);
      Step(Enter(t));
      forwarded := forwarded + 1;
      p := Reply(data, cache[k], Found(cache[k]));
    }

    /** `try_get_with`: the entry that is there by now, a flight of someone else, or a flight of its own. */
    method JoinOrLead(t: TaskId, data: Bytes, k: CacheKey) returns (p: Progress)
      requires Valid() && At(t, data, Missed) && KeyOf(config.decode, data) == Some(k)
      modifies `st, `forwarded, `cache, `waiters, `flights
      ensures Valid() && KeepsOthers(t)
      ensures if k in old(cache) && now < Deadline(old(cache)[k]) then
                && Carries(p, data, old(cache)[k]) && At(t, data, Answered) && forwarded == old(forwarded) + 1
                && unchanged(`cache, `waiters, `flights)
              else if k in old(waiters) then
                && p == Join(old(waiters)[k]) && At(t, data, Awaiting(old(waiters)[k]))
                && unchanged(`cache, `waiters, `flights, `forwarded)
              else
                && p == Lead && At(t, data, Leading) && unchanged(`forwarded) && cache == old(cache) - {k}
                && waiters == old(waiters)[k := t] && flights == old(flights)[t := Flight(k, Running)]
    {
      hide Valid, KeyOf, Deadline, Carries, Stands, SharedOf;
      if k in cache && now < Deadline(cache[k]) {
        p := FindEntry(t, data, k);
      } else if k in waiters {
        var f := JoinFlight(t, data, k);
        p := Join(f);
      } else {
        StartFlight(t, data, k);
        p := Lead;
      }
    }

    /** The semaphore of `resolve` hands out a permit. */
    method AcquirePermit(t: TaskId, data: Bytes)
      requires Valid() && At(t, data, Leading) && permits > 0
      modifies `st, `permits
      ensures Valid() && KeepsOthers(t) && At(t, data, Resolving) && permits == old(permits) - 1
    {
      hide Reachable, Enabled, Apply, SharedOf, Keeps, Stands, Recorded;
      CanAcquire(config, st, t, data);
      Step(Acquire(t));
      permits := permits - 1;
    }

    method ResolveReturns(t: TaskId, data: Bytes, resp: CachedResponse, ghost attempts: seq<Attempt>)
      requires Valid() && At(t, data, Resolving)
      requires Resolution(config.decode, config.limits, data, attempts, now) == Some(resp)
      modifies `st, `permits
      ensures Valid() && KeepsOthers(t) && At(t, data, Resolved(resp, now)) && permits == old(permits) + 1
    {
      hide Reachable, Enabled, Apply, Resolution, SharedOf, Keeps, Stands, Recorded;
      permits := permits + 1;
      CanAccept(config, st, t, data, attempts, resp);
      Step(Action.Resolve(t, attempts));
    }

    method ResolveFails(t: TaskId, data: Bytes, k: CacheKey, ghost attempts: seq<Attempt>)
      requires Valid() && At(t, data, Resolving) && KeyOf(config.decode, data) == Some(k)
      requires Resolution(config.decode, config.limits, data, attempts, now) == None
      modifies `st, `permits, `waiters, `flights
      ensures Valid() && KeepsOthers(t) && At(t, data, Awaiting(t)) && permits == old(permits) + 1
      ensures waiters == old(waiters) - {k} && flights == old(flights)[t := Flight(k, Errored)]
    {
      hide Reachable, Enabled, Apply, KeyOf, Resolution, SharedOf, Keeps, Stands, Recorded;
      permits := permits + 1;
      waiters, flights := waiters - {k}, flights[t := Flight(k, Errored)];
      CanFail(config, st, t, data, k, attempts);
      Step(Action.Resolve(t, attempts));
    }

    /** The failover loop of `resolve`, ending with its permit dropped. */
    method Resolve(t: TaskId, data: Bytes, k: CacheKey, net: Network) returns (r: Result<CachedResponse>)
      requires Valid() && At(t, data, Resolving) && KeyOf(config.decode, data) == Some(k)
      modifies `st, `permits, `waiters, `flights
      ensures Valid() && KeepsOthers(t) && permits == old(permits) + 1
      ensures var found := Resolution(config.decode, config.limits, data, Attempts(net, upstream.servers), now);
              if found.Some? then
                r == Ok(found.value) && At(t, data, Resolved(found.value, now)) && unchanged(`waiters, `flights)
              else
                && r == Err && At(t, data, Awaiting(t))
                && waiters == old(waiters) - {k} && flights == old(flights)[t := Flight(k, Errored)]
    {
      hide Reachable, Mirrors, KeyOf, Resolution;
      ghost var contacts;
      r, contacts := upstream.Resolve(net, config.decode, data, now);
      ghost var attempts := Attempts(net, upstream.servers);
      if r.Ok? {
        ResolveReturns(t, data, r.value, attempts);
      } else {
        ResolveFails(t, data, k, attempts);
      }
    }

    /** `try_send`: one offer per successful resolution, dropped when the writer is backed up. */
    method TrySend(t: TaskId, data: Bytes, k: CacheKey, resp: CachedResponse, at: Millis)
      requires Valid() && At(t, data, Resolved(resp, at)) && KeyOf(config.decode, data) == Some(k)
      modifies `st, `persist
      ensures Valid() && KeepsOthers(t) && At(t, data, Offered(resp, at))
      ensures persist == old(persist) + if |old(persist)| < PERSIST_CHANNEL_CAP then [(k, resp)] else []
    {
      hide Reachable, Enabled, Apply, KeyOf, SharedOf, Keeps, Stands, Recorded;
      CanOffer(config, st, t, data, k, resp, at);
      Step(OfferPersist(t));
      if |persist| < PERSIST_CHANNEL_CAP {
        persist := persist + [(k, resp)];
      }
    }

    /** The cache takes the closure's value and wakes everyone who waits for it. */
    method Insert(t: TaskId, data: Bytes, k: CacheKey, resp: CachedResponse, at: Millis)
      requires Valid() && At(t, data, Offered(resp, at)) && KeyOf(config.decode, data) == Some(k)
      modifies `st, `cache, `waiters, `flights
      ensures Valid() && KeepsOthers(t) && At(t, data, Awaiting(t))
      ensures cache == old(cache)[k := Held(resp, at, now)] && waiters == old(waiters) - {k}
      ensures flights == old(flights)[t := Flight(k, Ready(Held(resp, at, now)))]
    {
      hide Reachable, Enabled, Apply, KeyOf, SharedOf, Keeps, Stands, Recorded;
      CanPublish(config, st, t, data, k, resp, at);
      Step(Publish(t));
      var h := Held(resp, at, now);
      cache := cache[k := h];
      waiters, flights := waiters - {k}, flights[t := Flight(k, Ready(h))];
    }

    /** `handle` after the flight it waited for has landed. */
    method Complete(t: TaskId, data: Bytes, f: TaskId) returns (p: Progress)
      requires Valid() && At(t, data, Awaiting(f)) && f in flights && !flights[f].outcome.Running?
      modifies `st, `forwarded, `upstreamErrors
      ensures Valid() && KeepsOthers(t) && At(t, data, Answered)
      ensures if flights[f].outcome.Ready? then
                && Carries(p, data, flights[f].outcome.held) && forwarded == old(forwarded) + 1
                && unchanged(`upstreamErrors)
              else
                p == Done(ServerFailure) && upstreamErrors == old(upstreamErrors) + 1 && unchanged(`forwarded)
    {
      hide Reachable, Enabled, Apply, KeyOf, Patched, SharedOf, Keeps, Stands, Recorded;
      CanWake(config, st, t, data, f);
      Step(Wake(t));
      match flights[f].outcome {
        case Ready(h) =>
          forwarded := forwarded + 1;
          p := Reply(data, h, Flown(h));
        case Errored =>
          upstreamErrors := upstreamErrors + 1;
          p := Done(ServerFailure);
      }
    }

    /** The response is sent and the query's permit dropped. */
    method Leave(t: TaskId, data: Bytes)
      requires Valid() && At(t, data, Answered)
      modifies `st, `inflight
      ensures Valid() && KeepsOthers(t) && !In(st, t) && inflight == old(inflight) + 1
      ensures st.past == old(st.past)
    {
      hide Reachable, Enabled, Apply, SharedOf, Keeps, Stands, Recorded;
      CanFinish(config, st, t, data);
      Step(Finish(t));
      inflight := inflight + 1;
    }

    // ---- what else changes the shared state ----

    method Advance(ms: nat)
      requires Valid() && (now + ms) / 1000 < 0xFFFF_FFFF_0000_0000
      modifies `st, `now
      ensures Valid() && now == old(now) + ms && st.net == old(st.net)
    {
      hide Reachable, Enabled, Apply, SharedOf, Keeps, Stands, Recorded;
      CanTick(config, st, ms);
      Step(Tick(ms));
      now := now + ms;
    }

    method Evict(k: CacheKey)
      requires Valid() && k in cache
      modifies `st, `cache
      ensures Valid() && cache == old(cache) - {k} && st.net == old(st.net)
    {
      hide Reachable, Enabled, Apply, SharedOf, Keeps, Stands, Recorded;
      CanDrop(config, st, k);
      Step(DropEntry(k));
      cache := cache - {k};
    }

    /** `flush`: the buffer becomes one transaction, or is lost with it. */
    method FlushBuffer(ok: bool)
      requires Synced() && |buf| <= BATCH_MAX
      modifies `st, `buf, db
      ensures Valid() && buf == [] && st.net == old(st.net)
      ensures db.table == if ok then Written(old(db.table), old(buf)) else old(db.table)
    {
      hide Reachable, Enabled, Apply, Written, SharedOf, Keeps, Stands, Recorded;
      WrittenNothing(db.table);
      if buf == [] {
        return;
      }
      CanFlush(config, st, ok);
      Step(WriterFlush(ok));
      var committed := db.WriteBatch(buf, ok);
      buf := [];
    }

    /** The writer takes the oldest item off the channel, and flushes when its buffer is full. */
    method Drain(ok: bool)
      requires Valid() && persist != []
      modifies `st, `persist, `buf, db
      ensures Valid() && persist == old(persist)[1..] && st.net == old(st.net)
      ensures var taken := old(buf) + [old(persist)[0]];
              if |taken| < BATCH_MAX then buf == taken && db.table == old(db.table)
              else buf == [] && db.table == if ok then Written(old(db.table), taken) else old(db.table)
    {
      hide Reachable, Enabled, Apply, Written, SharedOf, Keeps, Stands, Recorded;
      CanReceiveItem(config, st);
      Step(WriterReceive);
      buf := buf + [persist[0]];
      persist := persist[1..];
      if |buf| >= BATCH_MAX {
        FlushBuffer(ok);
      }
    }

    /** First transaction of a purge. */
    method CollectExpired(order: seq<Bytes>) returns (expired: seq<Bytes>)
      requires Valid() && KeyOrdered(db.table, order) && st.disk.purge.None?
      modifies `st
      ensures Valid() && st.net == old(st.net)
      ensures st.disk.purge.Some? && st.disk.purge.value.keys == (set kb | kb in expired)
      ensures (set kb | kb in expired) == ExpiredKeys(db.table, Seconds(now))
    {
      hide Reachable, Enabled, Apply, ExpiredKeys, KeyOrdered, SharedOf, Keeps, Stands, Recorded;
      expired := db.CollectExpired(order, now);
      CanCollect(config, st);
      Step(PurgeCollect);
    }

    /** Second transaction of a purge, whatever was committed in between; it may fail. */
    method DeleteExpired(expired: seq<Bytes>, ok: bool)
      requires Valid() && st.disk.purge.Some? && st.disk.purge.value.keys == (set kb | kb in expired)
      modifies `st, db
      ensures Valid() && st.net == old(st.net) && st.disk.purge.None?
      ensures db.table == if ok then old(db.table) - (set kb | kb in expired) else old(db.table)
    {
      hide Reachable, Enabled, Apply, SharedOf, Keeps, Stands, Recorded;
      CanDelete(config, st, ok);
      Step(PurgeDelete(ok));
      if expired == [] {
        assert db.table - {} == db.table;
        return;
      }
      assert expired[0] in (set kb | kb in expired);
      var done := db.DeleteAll(expired, ok);
    }

    /** The first half of `set_blocklist`: parse and write the file. */
    method SaveBlocklist(text: string) returns (lists: Lists, ghost edit: nat)
      requires Valid()
      modifies `st, `file
      ensures Valid() && st.net == old(st.net)
      ensures lists == BlocklistFile.Loaded(text) && st.files.saved == lists
      ensures edit in st.files.edits && st.files.edits[edit] == text
      ensures BlocklistFile.Loaded(file) == lists <==> BlocklistFile.Clean(lists)
    {
      hide Reachable, Enabled, Apply, BlocklistFile.Loaded, BlocklistFile.IsListing, BlocklistFile.Clean,
        BlocklistFile.FileText, SharedOf, Keeps, Stands, Recorded;
      lists := BlocklistFile.FromText(text);
      var v := BlocklistFile.ToSortedVec(lists);
      edit := st.files.nextEdit;
      CanSave(config, st, text, v);
      Step(SaveList(text, v));
      file := BlocklistFile.FileText(v);
      BlocklistFile.SaveReloadIff(lists, v);
    }

    /** The second half: publish. */
    method PublishBlocklist(lists: Lists, ghost edit: nat)
      requires Valid() && edit in st.files.edits && lists == BlocklistFile.Loaded(st.files.edits[edit])
      modifies `st, `blocklist
      ensures Valid() && st.net == old(st.net) && fresh(blocklist) && blocklist.lists == lists
      ensures st.files == old(st.files).(edits := old(st.files.edits) - {edit})
    {
      hide Reachable, Enabled, Apply, BlocklistFile.Loaded, SharedOf, Keeps, Stands, Recorded;
      CanPublishList(config, st, edit);
      Step(PublishList(edit));
      blocklist := new Matcher(lists);
    }

    /** `set_blocklist` with nothing in between: the file reads back as the list in force exactly if that is clean. */
    method SetBlocklist(text: string)
      requires Valid()
      modifies `st, `blocklist, `file
      ensures Valid() && st.net == old(st.net)
      ensures fresh(blocklist) && blocklist.lists == BlocklistFile.Loaded(text) == st.files.saved
      ensures BlocklistFile.Loaded(file) == blocklist.lists <==> BlocklistFile.Clean(blocklist.lists)
    {
      hide Valid, BlocklistFile.Loaded, BlocklistFile.Clean;
      ghost var edit;
      var lists;
      lists, edit := SaveBlocklist(text);
      PublishBlocklist(lists, edit);
    }

    // ---- one query with nothing in between ----

    function Snap(): Snapshot
      reads this
    {
      Snapshot(cache, persist, queries, blocked, cacheHits, forwarded, upstreamErrors)
    }

    /** A leader's flight, when its permit is free. */
    method Fly(t: TaskId, data: Bytes, k: CacheKey, net: Network)
      requires Valid() && At(t, data, Missed) && KeyOf(config.decode, data) == Some(k)
      requires !(k in cache && now < Deadline(cache[k])) && k !in waiters && permits > 0
      modifies `st, `cache, `waiters, `flights, `persist, `permits
      ensures Valid() && KeepsOthers(t) && At(t, data, Awaiting(t)) && permits == old(permits)
      ensures waiters == old(waiters) && t in flights
      ensures var found := Resolution(config.decode, config.limits, data, Attempts(net, upstream.servers), now);
              if found.Some? then
                && flights[t].outcome == Ready(Held(found.value, now, now))
                && cache == old(cache)[k := Held(found.value, now, now)]
                && persist == old(persist) +
                              (if |old(persist)| < PERSIST_CHANNEL_CAP then [(k, found.value)] else [])
              else flights[t].outcome == Errored && cache == old(cache) - {k} && persist == old(persist)
    {
      hide Valid, At, KeyOf, Deadline, Resolution, Stands, SharedOf, Keeps;
      ghost var s0 := st;
      StartFlight(t, data, k);
      ghost var s1 := st;
      AcquirePermit(t, data);
      ghost var s2 := st;
      KeepsThrough(s0, s1, s2, t);
      var r := Resolve(t, data, k, net);
      ghost var s3 := st;
      KeepsThrough(s0, s2, s3, t);
      if r.Ok? {
        TrySend(t, data, k, r.value, now);
        KeepsThrough(s0, s3, st, t);
        ghost var s4 := st;
        Insert(t, data, k, r.value, now);
        KeepsThrough(s0, s4, st, t);
      }
    }

    /** The miss path with nothing in between. */
    method Forward(t: TaskId, data: Bytes, k: CacheKey, net: Network) returns (p: Progress)
      requires Valid() && At(t, data, Missed) && KeyOf(config.decode, data) == Some(k)
      requires !(k in cache && now < Deadline(cache[k])) && k !in waiters && permits > 0
      modifies `st, `forwarded, `upstreamErrors, `cache, `waiters, `flights, `persist, `permits
      ensures Valid() && KeepsOthers(t) && At(t, data, Answered) && permits == old(permits)
      ensures waiters == old(waiters)
      ensures var found := Resolution(config.decode, config.limits, data, Attempts(net, upstream.servers), now);
              if found.Some? then
                && Carries(p, data, Held(found.value, now, now))
                && cache == old(cache)[k := Held(found.value, now, now)]
                && persist == old(persist) +
                              (if |old(persist)| < PERSIST_CHANNEL_CAP then [(k, found.value)] else [])
                && forwarded == old(forwarded) + 1 && upstreamErrors == old(upstreamErrors)
              else
                && p == Done(ServerFailure) && cache == old(cache) - {k} && persist == old(persist)
                && forwarded == old(forwarded) && upstreamErrors == old(upstreamErrors) + 1
    {
      hide Valid, KeyOf, Deadline, Carries, Resolution, Stands, SharedOf;
      Fly(t, data, k, net);
      p := Complete(t, data, t);
    }

    /** What one query does here, starting from `was`. */
    ghost predicate Served(was: Snapshot, data: Bytes, net: Network, response: Response)
      reads this, upstream
    {
      && config.Valid()
      && Serves(config, blocklist.lists, Attempts(net, upstream.servers), now, st.past.accepted,
                was, Snap(), data, response)
    }

    /** A query for `data` would not have to wait for another query. */
    ghost predicate Unhindered(data: Bytes)
      reads this
    {
      match KeyOf(config.decode, data)
      case None => true
      case Some(k) =>
        || Blocks(blocklist.lists, k.name)
        || (k in cache && now < Deadline(cache[k]))
        || (k !in waiters && permits > 0)
    }

    /** `handle`, with nothing in between. */
    method Respond(t: TaskId, data: Bytes, net: Network) returns (response: Response)
      requires Valid() && At(t, data, Admitted) && Unhindered(data)
      modifies `st, `inflight, `queries, `blocked, `cacheHits, `forwarded, `upstreamErrors,
        `cache, `waiters, `flights, `persist, `permits
      ensures Valid() && KeepsOthers(t) && Served(old(Snap()), data, net, response)
      ensures waiters == old(waiters) && permits == old(permits)
      ensures if response == Silent then !In(st, t) && inflight == old(inflight) + 1
              else At(t, data, Answered) && inflight == old(inflight)
    {
      hide Valid, KeyOf, Deadline, Resolution, Blocks, Sends, Attempts, Idle, At, Stands, SharedOf, Keeps;
      ConfigOk();
      ghost var before := st;
      var p := Begin(t, data);
      if p.Miss? {
        ghost var between := st;
        p := Forward(t, data, KeyOf(config.decode, data).value, net);
        KeepsThrough(before, between, st, t);
      }
      response := p.response;
    }

    /** And the drop of its permit. */
    method Handle(t: TaskId, data: Bytes, net: Network) returns (response: Response)
      requires Valid() && At(t, data, Admitted) && Unhindered(data)
      modifies `st, `inflight, `queries, `blocked, `cacheHits, `forwarded, `upstreamErrors,
        `cache, `waiters, `flights, `persist, `permits
      ensures Valid() && KeepsOthers(t) && !In(st, t) && Served(old(Snap()), data, net, response)
      ensures waiters == old(waiters) && permits == old(permits) && inflight == old(inflight) + 1
    {
      hide Valid, Serves;
      response := Respond(t, data, net);
      if response != Silent {
        Leave(t, data);
      }
    }

    /** A packet that does not have to wait for other queries, however many there are: dropped or answered. */
    method Serve(data: Bytes, net: Network) returns (admitted: bool, response: Response)
      requires Valid() && Unhindered(data) && |data| <= MAX_MESSAGE
      modifies this
      ensures Valid() && st.net.tasks == old(st.net.tasks) && old(st.past.accepted) <= st.past.accepted
      ensures unchanged(`now, `blocklist, `file, `buf, `inflight, `permits, `waiters)
      ensures admitted <==> inflight > 0
      ensures if admitted then Served(old(Snap()), data, net, response) && dropped == old(dropped)
              else response == Silent && Snap() == old(Snap()) && dropped == old(dropped) + 1
    {
      hide Valid, Serves, KeyOf, Deadline, Blocks, Stands, SharedOf, Recorded, Attempts;
      FreshId();
      var t := Admit(data);
      if t.None? {
        return false, Silent;
      }
      admitted := true;
      response := Handle(t.value, data, net);
      NoneLeft(old(st.net.tasks), st.net.tasks, t.value);
    }

    lemma ConfigOk()
      requires Valid()
      ensures config.Valid()
    {
    }

    lemma FreshId()
      requires Valid()
      ensures nextId !in st.net.tasks
    {
      hide Reachable;
      IdIsFresh(config, st);
    }

    /** On an idle resolver no query has to wait. */
    lemma IdleIsUnhindered(data: Bytes)
      requires Valid() && Idle()
      ensures Unhindered(data) && inflight == config.TaskPermits() > 0
    {
      hide Reachable, KeyOf, Blocks, Deadline;
      IdleIsFree(config, st);
    }
  }
}
