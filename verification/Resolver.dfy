/**
 * The running resolver as a step system: every await point of the query pipeline, the single-flight
 * cache, the persist channel and its writer, the purge task, blocklist edits, crashes and restarts.
 */
module Resolver {
  import opened Names
  import opened Wire
  import opened Upstream
  import opened Store
  import opened Blocklist
  import BlocklistFile
  import WriteBehind

  const PERSIST_CHANNEL_CAP: nat := 100_000
  const BATCH_MAX: nat := 256

  datatype Config = Config(
    decode: Decoder, limits: Limits, maxInflight: nat, maxConcurrent: nat, maxEntries: nat)
  {
    predicate Valid() { limits.Valid() }
    function TaskPermits(): nat { Max(maxInflight, 1) }
    function ResolvePermits(): nat { Max(maxConcurrent, 1) }
  }

  // ---- state ----

  /** A RAM entry: when the clock its lifetime counts from was read, and when it was inserted. */
  datatype Held = Held(resp: CachedResponse, readAt: Millis, storedAt: Millis)

  /** `TtlExpiry`: at least one second after the insert. */
  function Deadline(h: Held): nat { h.storedAt + 1000 * Max(h.resp.ttl, 1) }

  type TaskId = nat

  /** Where a query task stands between two await points. */
  datatype Phase =
    | Admitted
    | Parsed
    | Passed
    | Missed
    | Leading
    | Resolving
    | Resolved(resp: CachedResponse, at: Millis)
    | Offered(resp: CachedResponse, at: Millis)
    | Awaiting(flight: TaskId)
    | Answered

  /** `admitted` and `checked` number the blocklist in force at those moments. */
  datatype Task = Task(data: Bytes, admitted: nat, checked: nat, phase: Phase)

  datatype Outcome = Running | Ready(held: Held) | Errored

  /** One call of the init closure of `try_get_with`, named after the query task that runs it. */
  datatype Flight = Flight(key: CacheKey, outcome: Outcome)

  datatype Net = Net(
    tasks: map<TaskId, Task>, waiters: map<CacheKey, TaskId>, flights: map<TaskId, Flight>,
    freeTasks: nat, freeResolves: nat, nextId: TaskId)

  datatype Stats = Stats(
    queries: nat, blocked: nat, cacheHits: nat, forwarded: nat, upstreamErrors: nat, dropped: nat)

  datatype DiskOp = Commit(items: seq<Item>) | Delete(keys: set<Bytes>)

  /** A purge between its two transactions: keys noted, at which second, after how many disk operations. */
  datatype Purge = Purge(keys: set<Bytes>, sec: nat, seen: nat)

  /** `base` is the length of the log when the process started. */
  datatype Disk = Disk(table: Table, log: seq<DiskOp>, base: nat, purge: Option<Purge>)

  datatype Verdict = Sinkhole | Hit(held: Held) | Found(held: Held) | Flown(held: Held) | ServFail

  /** `started` is the clock reading of the start of the process that gave the answer. */
  datatype Answer = Answer(
    data: Bytes, admitted: nat, checked: nat, started: Millis, at: Millis, verdict: Verdict)

  /** An upstream reply that passed validation. */
  datatype Accept = Accept(query: Bytes, resp: CachedResponse, at: Millis)

  datatype Event = Start(key: CacheKey) | Failure(key: CacheKey) | Gone(key: CacheKey) | Down

  /** Blocklist edits in the order their two halves happened, and starts of the process. */
  datatype EditEvent = Saved(edit: nat, text: string) | Published(edit: nat, text: string) | Started

  /** What happened so far, over all lives of the process; no step depends on it. */
  datatype History = History(
    accepted: set<Accept>, answers: seq<Answer>, events: seq<Event>, lists: seq<Lists>, edits: seq<EditEvent>)

  /** Counts for the current life of the process that the program does not keep itself. */
  datatype Tally = Tally(received: nat, admitted: nat, resolved: nat, kept: nat, lost: nat)

  /** The blocklist file, the list it was printed from, and edits that are saved but not published yet. */
  datatype Files = Files(text: string, saved: Lists, edits: map<nat, string>, nextEdit: nat)

  datatype State = State(
    now: Millis, up: bool, lists: Lists, files: Files, net: Net, stats: Stats, tally: Tally,
    ram: map<CacheKey, Held>, loading: seq<Item>, readAt: Millis,
    pipe: WriteBehind.Pipe<Item>, disk: Disk, past: History)
  {
    predicate Serving() { up && loading == [] }
  }

  const NO_STATS: Stats := Stats(0, 0, 0, 0, 0, 0)
  const NO_TALLY: Tally := Tally(0, 0, 0, 0, 0)

  function Idle(c: Config, nextId: TaskId): Net {
    Net(map[], map[], map[], c.TaskPermits(), c.ResolvePermits(), nextId)
  }

  /** Installed but never started: an empty store and a blocklist file. */
  function Init(c: Config, now: Millis, text: string, saved: Lists): State {
    State(now, false, saved, Files(text, saved, map[], 0), Idle(c, 0), NO_STATS, NO_TALLY, map[], [], now,
          WriteBehind.Empty(), Disk(map[], [], 0, None), History({}, [], [], [saved], []))
  }

  // ---- steps ----

  datatype Action =
    | Tick(ms: nat)
    | Receive(data: Bytes)
    | ParseQuery(t: TaskId)
    | CheckList(t: TaskId)
    | Lookup(t: TaskId)
    | Enter(t: TaskId)
    | Acquire(t: TaskId)
    | Resolve(t: TaskId, attempts: seq<Attempt>)
    | OfferPersist(t: TaskId)
    | Publish(t: TaskId)
    | Wake(t: TaskId)
    | Finish(t: TaskId)
    | WriterReceive
    | WriterFlush(ok: bool)
    | DropEntry(k: CacheKey)
    | PurgeCollect
    | PurgeDelete(ok: bool)
    | SaveList(text: string, listing: seq<string>)
    | PublishList(edit: nat)
    | Crash
    | Restart(order: seq<Bytes>, ok: bool)
    | LoadOne

  predicate Live(s: State, k: CacheKey) {
    k in s.ram && s.now < Deadline(s.ram[k])
  }

  function TaskKey(c: Config, data: Bytes): CacheKey {
    match KeyOf(c.decode, data) case Some(k) => k case None => CacheKey("", 0)
  }

  predicate In(s: State, t: TaskId) { t in s.net.tasks }

  function PhaseOf(s: State, t: TaskId): Phase
    requires In(s, t)
  {
    s.net.tasks[t].phase
  }

  /** Whether a step can happen. */
  ghost predicate Enabled(c: Config, s: State, a: Action) {
    match a
    case Tick(ms) => (s.now + ms) / 1000 < 0xFFFF_FFFF_0000_0000
    case Receive(data) => s.Serving() && |data| <= MAX_MESSAGE
    case ParseQuery(t) => In(s, t) && PhaseOf(s, t).Admitted?
    case CheckList(t) => In(s, t) && PhaseOf(s, t).Parsed?
    case Lookup(t) => In(s, t) && PhaseOf(s, t).Passed?
    case Enter(t) => In(s, t) && PhaseOf(s, t).Missed?
    case Acquire(t) => In(s, t) && PhaseOf(s, t).Leading? && s.net.freeResolves > 0
    case Resolve(t, attempts) => In(s, t) && PhaseOf(s, t).Resolving?
    case OfferPersist(t) => In(s, t) && PhaseOf(s, t).Resolved?
    case Publish(t) => In(s, t) && PhaseOf(s, t).Offered?
    case Wake(t) =>
      && In(s, t) && PhaseOf(s, t).Awaiting?
      && PhaseOf(s, t).flight in s.net.flights
      && !s.net.flights[PhaseOf(s, t).flight].outcome.Running?
    case Finish(t) => In(s, t) && PhaseOf(s, t).Answered?
    case WriterReceive => s.up && s.pipe.channel != [] && |s.pipe.buf| < BATCH_MAX
    case WriterFlush(ok) => s.up && s.pipe.buf != []
    case DropEntry(k) => k in s.ram
    case PurgeCollect => s.Serving() && s.disk.purge.None?
    case PurgeDelete(_) => s.up && s.disk.purge.Some?
    case SaveList(text, listing) =>
      s.Serving() && BlocklistFile.IsListing(BlocklistFile.Loaded(text), listing)
    case PublishList(edit) => s.up && edit in s.files.edits
    case Crash => s.up
    case Restart(order, _) => !s.up && KeyOrdered(s.disk.table, order)
    case LoadOne => s.up && s.loading != []
  }

  function WithPhase(net: Net, t: TaskId, p: Phase): Net
    requires t in net.tasks
  {
    net.(tasks := net.tasks[t := net.tasks[t].(phase := p)])
  }

  /** `handle` has its response: record it; the permit is released later. */
  function Reply(s: State, t: TaskId, v: Verdict, stats: Stats): State
    requires In(s, t)
  {
    var task := s.net.tasks[t];
    s.(net := WithPhase(s.net, t, Answered), stats := stats,
       past := s.past.(answers :=
         s.past.answers + [Answer(task.data, task.admitted, task.checked, s.readAt, s.now, v)]))
  }

  function Release(net: Net, t: TaskId): Net {
    net.(tasks := net.tasks - {t}, freeTasks := net.freeTasks + 1)
  }

  /** `try_acquire_owned`, or drop the packet. */
  function DoReceive(s: State, data: Bytes): State {
    var tally := s.tally.(received := s.tally.received + 1);
    if s.net.freeTasks == 0 then
      s.(stats := s.stats.(dropped := s.stats.dropped + 1), tally := tally)
    else
      var epoch := |s.past.lists|;
      s.(net := s.net.(tasks := s.net.tasks[s.net.nextId := Task(data, epoch, epoch, Admitted)],
                       freeTasks := s.net.freeTasks - 1, nextId := s.net.nextId + 1),
         tally := tally.(admitted := s.tally.admitted + 1))
  }

  /** Unparseable packets and packets without a question end silently. */
  function DoParse(c: Config, s: State, t: TaskId): State
    requires In(s, t)
  {
    if KeyOf(c.decode, s.net.tasks[t].data).None? then s.(net := Release(s.net, t))
    else s.(net := WithPhase(s.net, t, Parsed), stats := s.stats.(queries := s.stats.queries + 1))
  }

  function DoCheck(c: Config, s: State, t: TaskId): State
    requires In(s, t)
  {
    var s1 := s.(net := s.net.(tasks := s.net.tasks[t := s.net.tasks[t].(checked := |s.past.lists|)]));
    if Blocks(s.lists, TaskKey(c, s.net.tasks[t].data).name) then
      Reply(s1, t, Sinkhole, s.stats.(blocked := s.stats.blocked + 1))
    else s1.(net := WithPhase(s1.net, t, Passed))
  }

  function DoLookup(c: Config, s: State, t: TaskId): State
    requires In(s, t)
  {
    var k := TaskKey(c, s.net.tasks[t].data);
    if Live(s, k) then Reply(s, t, Hit(s.ram[k]), s.stats.(cacheHits := s.stats.cacheHits + 1))
    else s.(net := WithPhase(s.net, t, Missed))
  }

  /** `try_get_with`: an entry that appeared meanwhile, or the flight of another task, or a flight of its own. */
  function DoEnter(c: Config, s: State, t: TaskId): State
    requires In(s, t)
  {
    var k := TaskKey(c, s.net.tasks[t].data);
    if Live(s, k) then
      Reply(s, t, Found(s.ram[k]), s.stats.(forwarded := s.stats.forwarded + 1))
    else if k in s.net.waiters then
      s.(net := WithPhase(s.net, t, Awaiting(s.net.waiters[k])))
    else
      s.(ram := s.ram - {k},
         net := WithPhase(s.net, t, Leading).(waiters := s.net.waiters[k := t],
                                              flights := s.net.flights[t := Flight(k, Running)]),
         past := s.past.(events := s.past.events + (if k in s.ram then [Gone(k)] else []) + [Start(k)]))
  }

  function DoAcquire(s: State, t: TaskId): State
    requires In(s, t) && s.net.freeResolves > 0
  {
    s.(net := WithPhase(s.net, t, Resolving).(freeResolves := s.net.freeResolves - 1))
  }

  function Land(net: Net, t: TaskId, k: CacheKey, o: Outcome): Net
    requires t in net.tasks
  {
    WithPhase(net, t, Awaiting(t)).(waiters := net.waiters - {k}, flights := net.flights[t := Flight(k, o)])
  }

  /** `resolve` returns: its permit is free again; an error ends the flight and is not cached. */
  function DoResolve(c: Config, s: State, t: TaskId, attempts: seq<Attempt>): State
    requires c.Valid() && In(s, t)
  {
    var data := s.net.tasks[t].data;
    var k := TaskKey(c, data);
    var net := s.net.(freeResolves := s.net.freeResolves + 1);
    match Resolution(c.decode, c.limits, data, attempts, s.now)
    case Some(resp) =>
      s.(net := WithPhase(net, t, Resolved(resp, s.now)),
         tally := s.tally.(resolved := s.tally.resolved + 1),
         past := s.past.(accepted := s.past.accepted + {Accept(data, resp, s.now)}))
    case None =>
      s.(net := Land(net, t, k, Errored), past := s.past.(events := s.past.events + [Failure(k)]))
  }

  function DoOffer(c: Config, s: State, t: TaskId): State
    requires In(s, t) && PhaseOf(s, t).Resolved?
  {
    var p := PhaseOf(s, t);
    var k := TaskKey(c, s.net.tasks[t].data);
    s.(net := WithPhase(s.net, t, Offered(p.resp, p.at)),
       pipe := WriteBehind.Offer(s.pipe, (k, p.resp), PERSIST_CHANNEL_CAP),
       tally := if |s.pipe.channel| < PERSIST_CHANNEL_CAP then s.tally.(kept := s.tally.kept + 1)
                else s.tally.(lost := s.tally.lost + 1))
  }

  /** The cache stores the value and wakes everyone waiting for the flight, its leader included. */
  function DoPublish(c: Config, s: State, t: TaskId): State
    requires In(s, t) && PhaseOf(s, t).Offered?
  {
    var p := PhaseOf(s, t);
    var k := TaskKey(c, s.net.tasks[t].data);
    var h := Held(p.resp, p.at, s.now);
    s.(ram := s.ram[k := h], net := Land(s.net, t, k, Ready(h)))
  }

  function DoWake(s: State, t: TaskId): State
    requires In(s, t) && PhaseOf(s, t).Awaiting? && PhaseOf(s, t).flight in s.net.flights
  {
    match s.net.flights[PhaseOf(s, t).flight].outcome
    case Ready(h) => Reply(s, t, Flown(h), s.stats.(forwarded := s.stats.forwarded + 1))
    case Errored => Reply(s, t, ServFail, s.stats.(upstreamErrors := s.stats.upstreamErrors + 1))
    case Running => s
  }

  function DoFlush(s: State, ok: bool): State {
    var disk := if !ok then s.disk else
                  s.disk.(table := Written(s.disk.table, s.pipe.buf), log := s.disk.log + [Commit(s.pipe.buf)]);
    s.(pipe := WriteBehind.Flush(s.pipe, ok), disk := disk)
  }

  function DoCollect(s: State): State {
    var sec := Seconds(s.now);
    s.(disk := s.disk.(purge := Some(Purge(ExpiredKeys(s.disk.table, sec), sec, |s.disk.log|))))
  }

  /** There is no transaction for nothing, and a failed one changes nothing. */
  function DoDelete(s: State, ok: bool): State
    requires s.disk.purge.Some?
  {
    var keys := s.disk.purge.value.keys;
    s.(disk := if !ok || keys == {} then s.disk.(purge := None) else
               s.disk.(table := s.disk.table - keys, log := s.disk.log + [Delete(keys)], purge := None))
  }

  /** `set_blocklist` writes the file first and publishes afterwards. */
  function DoSave(s: State, text: string, listing: seq<string>): State {
    var l := BlocklistFile.Loaded(text);
    var e := s.files.nextEdit;
    s.(files := Files(BlocklistFile.FileText(listing), l, s.files.edits[e := text], e + 1),
       past := s.past.(edits := s.past.edits + [Saved(e, text)]))
  }

  function DoPublishList(s: State, edit: nat): State
    requires edit in s.files.edits
  {
    NewList(s.(files := s.files.(edits := s.files.edits - {edit}),
               past := s.past.(edits := s.past.edits + [Published(edit, s.files.edits[edit])])),
            BlocklistFile.Loaded(s.files.edits[edit]))
  }

  function NewList(s: State, l: Lists): State {
    s.(lists := l, past := s.past.(lists := s.past.lists + [l]))
  }

  /** Everything but the disk and the files is gone. */
  function DoCrash(c: Config, s: State): State {
    s.(up := false, net := Idle(c, s.net.nextId), ram := map[], loading := [],
       pipe := WriteBehind.Empty(), disk := s.disk.(purge := None), files := s.files.(edits := map[]),
       past := s.past.(events := s.past.events + [Down]))
  }

  /** Start-up reads the blocklist and, unless that fails, one snapshot of the store, cut to the RAM capacity. */
  function DoRestart(c: Config, s: State, order: seq<Bytes>, ok: bool): State
    requires forall kb | kb in order :: kb in s.disk.table
  {
    var rows := if ok then ReadRows(s.disk.table, order, Seconds(s.now)) else [];
    NewList(s.(up := true, net := Idle(c, s.net.nextId), stats := NO_STATS, tally := NO_TALLY, readAt := s.now,
               loading := rows[..Min(c.maxEntries, |rows|)],
               disk := s.disk.(base := |s.disk.log|), past := s.past.(edits := s.past.edits + [Started])),
            BlocklistFile.Loaded(s.files.text))
  }

  function DoLoad(s: State): State
    requires s.loading != []
  {
    var (k, v) := s.loading[0];
    s.(ram := s.ram[k := Held(v, s.readAt, s.now)], loading := s.loading[1..])
  }

  ghost function Apply(c: Config, s: State, a: Action): State
    requires c.Valid() && Enabled(c, s, a)
  {
    match a
    case Tick(ms) => s.(now := s.now + ms)
    case Receive(data) => DoReceive(s, data)
    case ParseQuery(t) => DoParse(c, s, t)
    case CheckList(t) => DoCheck(c, s, t)
    case Lookup(t) => DoLookup(c, s, t)
    case Enter(t) => DoEnter(c, s, t)
    case Acquire(t) => DoAcquire(s, t)
    case Resolve(t, attempts) => DoResolve(c, s, t, attempts)
    case OfferPersist(t) => DoOffer(c, s, t)
    case Publish(t) => DoPublish(c, s, t)
    case Wake(t) => DoWake(s, t)
    case Finish(t) => s.(net := Release(s.net, t))
    case WriterReceive => s.(pipe := WriteBehind.Receive(s.pipe))
    case WriterFlush(ok) => DoFlush(s, ok)
    case DropEntry(k) =>
      s.(ram := s.ram - {k}, past := s.past.(events := s.past.events + [Gone(k)]))
    case PurgeCollect => DoCollect(s)
    case PurgeDelete(ok) => DoDelete(s, ok)
    case SaveList(text, listing) => DoSave(s, text, listing)
    case PublishList(edit) => DoPublishList(s, edit)
    case Crash => DoCrash(c, s)
    case Restart(order, ok) => DoRestart(c, s, order, ok)
    case LoadOne => DoLoad(s)
  }

  /** The state after a run, or nothing when some step of it cannot happen. */
  ghost function Exec(c: Config, start: State, run: seq<Action>): Option<State>
    requires c.Valid()
  {
    if run == [] then Some(start)
    else
      var n := |run| - 1;
      match Exec(c, start, run[..n])
      case Some(s) => if Enabled(c, s, run[n]) then Some(Apply(c, s, run[n])) else None
      case None => None
  }

  /** Reached by some run of a fresh installation. */
  ghost predicate Reachable(c: Config, s: State)
    requires c.Valid()
  {
    exists now: Millis, text: string, saved: Lists, run: seq<Action> ::
      saved == BlocklistFile.Loaded(text) && Exec(c, Init(c, now, text, saved), run) == Some(s)
  }
}
