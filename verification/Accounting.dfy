/** Permits and counters: nothing leaks and every query is counted once, at every interleaving point. */
module Accounting {
  import opened Wire
  import opened Upstream
  import opened Store
  import opened Blocklist
  import BlocklistFile
  import WriteBehind
  import opened Resolver
  import opened Frames
  import opened SingleFlight

  // ---- groups of tasks ----

  ghost function ResolvingTasks(net: Net): set<TaskId> {
    set t | t in net.tasks && net.tasks[t].phase.Resolving?
  }

  /** Parsed, but without an outcome so far. */
  ghost function UndecidedTasks(net: Net): set<TaskId> {
    set t | t in net.tasks && Undecided(net.tasks[t].phase)
  }

  predicate Undecided(p: Phase) { !p.Admitted? && !p.Answered? }

  /** Resolved, but the persist offer is still to be made. */
  ghost function UnofferedTasks(net: Net): set<TaskId> {
    set t | t in net.tasks && net.tasks[t].phase.Resolved?
  }

  /** Leaders that resolved successfully and are not counted as forwarded yet. */
  ghost function SuccessfulLeaders(net: Net): set<TaskId> {
    set t | t in net.tasks && Successful(net, t)
  }

  predicate Successful(net: Net, t: TaskId)
    requires t in net.tasks
  {
    match net.tasks[t].phase
    case Resolved(_, _) => true
    case Offered(_, _) => true
    case Awaiting(f) => f == t && t in net.flights && net.flights[t].outcome.Ready?
    case _ => false
  }

  // ---- the invariant ----

  ghost predicate PermitInv(c: Config, net: Net) {
    && net.freeTasks + |net.tasks| == c.TaskPermits()
    && net.freeResolves + |ResolvingTasks(net)| == c.ResolvePermits()
  }

  ghost predicate CountInv(s: State) {
    && s.stats.queries == s.stats.blocked + s.stats.cacheHits + s.stats.forwarded + s.stats.upstreamErrors
                          + |UndecidedTasks(s.net)|
    && s.tally.received == s.stats.dropped + s.tally.admitted
    && s.tally.resolved == s.tally.kept + s.tally.lost + |UnofferedTasks(s.net)|
    && s.tally.resolved <= s.stats.forwarded + |SuccessfulLeaders(s.net)|
  }

  ghost predicate AccountInv(c: Config, s: State) {
    PermitInv(c, s.net) && (s.up ==> CountInv(s))
  }

  // ---- how the groups change ----

  function One(b: bool): int { if b then 1 else 0 }

  function Put(s: set<TaskId>, t: TaskId, member: bool): set<TaskId> {
    if member then s + {t} else s - {t}
  }

  lemma PutSize(s: set<TaskId>, t: TaskId, member: bool)
    ensures |Put(s, t, member)| == |s| - One(t in s) + One(member)
  {
    if t in s {
      assert |s - {t}| == |s| - 1;
      assert s + {t} == s;
    } else {
      assert s - {t} == s;
      assert |s + {t}| == |s| + 1;
    }
  }

  /** Only task `t` and its own flight differ. */
  ghost predicate OnlyAt(net: Net, net': Net, t: TaskId) {
    && t in net'.tasks
    && net'.tasks.Keys == net.tasks.Keys + {t}
    && (forall u | u in net.tasks && u != t :: net'.tasks[u] == net.tasks[u])
    && (forall f | f != t :: (f in net'.flights <==> f in net.flights)
                             && (f in net.flights ==> net'.flights[f] == net.flights[f]))
  }

  lemma ResolvingChange(net: Net, net': Net, t: TaskId)
    requires OnlyAt(net, net', t)
    ensures ResolvingTasks(net') == Put(ResolvingTasks(net), t, net'.tasks[t].phase.Resolving?)
  {
  }

  lemma UndecidedChange(net: Net, net': Net, t: TaskId)
    requires OnlyAt(net, net', t)
    ensures UndecidedTasks(net') == Put(UndecidedTasks(net), t, Undecided(net'.tasks[t].phase))
  {
  }

  lemma UnofferedChange(net: Net, net': Net, t: TaskId)
    requires OnlyAt(net, net', t)
    ensures UnofferedTasks(net') == Put(UnofferedTasks(net), t, net'.tasks[t].phase.Resolved?)
  {
  }

  lemma SuccessfulChange(net: Net, net': Net, t: TaskId)
    requires OnlyAt(net, net', t)
    ensures SuccessfulLeaders(net') == Put(SuccessfulLeaders(net), t, Successful(net', t))
  {
    hide Successful;
    forall u | u in net.tasks && u != t ensures Successful(net', u) == Successful(net, u) {
      SuccessfulElsewhere(net, net', t, u);
    }
  }

  lemma SuccessfulElsewhere(net: Net, net': Net, t: TaskId, u: TaskId)
    requires OnlyAt(net, net', t) && u in net.tasks && u != t
    ensures Successful(net', u) == Successful(net, u)
  {
  }

  lemma TasksChange(net: Net, net': Net, t: TaskId)
    requires OnlyAt(net, net', t)
    ensures |net'.tasks| == |net.tasks| + One(t !in net.tasks)
  {
    assert |net'.tasks| == |net'.tasks.Keys| && |net.tasks| == |net.tasks.Keys|;
    if t in net.tasks {
      assert net'.tasks.Keys == net.tasks.Keys;
    }
  }

  lemma GroupsChange(net: Net, net': Net, t: TaskId)
    requires OnlyAt(net, net', t)
    ensures var p := net'.tasks[t].phase;
            && |net'.tasks| == |net.tasks| + One(t !in net.tasks)
            && |ResolvingTasks(net')| == |ResolvingTasks(net)| - One(t in ResolvingTasks(net)) + One(p.Resolving?)
            && |UndecidedTasks(net')| == |UndecidedTasks(net)| - One(t in UndecidedTasks(net)) + One(Undecided(p))
            && |UnofferedTasks(net')| == |UnofferedTasks(net)| - One(t in UnofferedTasks(net)) + One(p.Resolved?)
            && |SuccessfulLeaders(net')| ==
               |SuccessfulLeaders(net)| - One(t in SuccessfulLeaders(net)) + One(Successful(net', t))
  {
    hide Put, ResolvingTasks, UndecidedTasks, UnofferedTasks, SuccessfulLeaders, Successful;
    var p := net'.tasks[t].phase;
    TasksChange(net, net', t);
    ResolvingChange(net, net', t);
    PutSize(ResolvingTasks(net), t, p.Resolving?);
    UndecidedChange(net, net', t);
    PutSize(UndecidedTasks(net), t, Undecided(p));
    UnofferedChange(net, net', t);
    PutSize(UnofferedTasks(net), t, p.Resolved?);
    SuccessfulChange(net, net', t);
    PutSize(SuccessfulLeaders(net), t, Successful(net', t));
  }

  lemma Sizes(net: Net, net': Net, t: TaskId)
    requires OnlyAt(net, net', t) && t in net.tasks
    ensures var p, q := net.tasks[t].phase, net'.tasks[t].phase;
            && |net'.tasks| == |net.tasks|
            && |ResolvingTasks(net')| == |ResolvingTasks(net)| - One(p.Resolving?) + One(q.Resolving?)
            && |UndecidedTasks(net')| == |UndecidedTasks(net)| - One(Undecided(p)) + One(Undecided(q))
            && |UnofferedTasks(net')| == |UnofferedTasks(net)| - One(p.Resolved?) + One(q.Resolved?)
            && |SuccessfulLeaders(net')| ==
               |SuccessfulLeaders(net)| - One(Successful(net, t)) + One(Successful(net', t))
  {
    hide Successful, OnlyAt;
    GroupsChange(net, net', t);
  }

  // ---- steps ----

  /** Steps of an admitted task that does not end. */
  predicate Moves(a: Action) {
    Probes(a) || Fetches(a) || a.Publish? || a.Wake?
  }

  lemma MovesOne(c: Config, s: State, a: Action)
    requires c.Valid() && Enabled(c, s, a) && Moves(a)
    ensures In(s, a.t) && OnlyAt(s.net, Apply(c, s, a).net, a.t)
  {
    hide Apply, OnlyAt;
    if a.Enter? {
      EnterMovesOne(c, s, a);
    } else if Probes(a) {
      ProbeMovesOne(c, s, a);
    } else if a.Resolve? {
      ResolveMovesOne(c, s, a);
    } else if Fetches(a) {
      FetchMovesOne(c, s, a);
    } else {
      CompletionMovesOne(c, s, a);
    }
  }

  lemma EnterMovesOne(c: Config, s: State, a: Action)
    requires c.Valid() && Enabled(c, s, a) && a.Enter?
    ensures In(s, a.t) && OnlyAt(s.net, Apply(c, s, a).net, a.t)
  {
    hide KeyOf, TaskKey, Blocks, Live, Resolution, WriteBehind.Offer;
  }

  lemma PhaseOnlyAt(net: Net, t: TaskId, p: Phase, checked: nat)
    requires t in net.tasks
    ensures OnlyAt(net, WithPhase(net, t, p), t)
    ensures OnlyAt(net, WithPhase(net.(tasks := net.tasks[t := net.tasks[t].(checked := checked)]), t, p), t)
  {
  }

  lemma ProbeMovesOne(c: Config, s: State, a: Action)
    requires c.Valid() && Enabled(c, s, a) && (a.CheckList? || a.Lookup?)
    ensures In(s, a.t) && OnlyAt(s.net, Apply(c, s, a).net, a.t)
  {
    hide KeyOf, TaskKey, Blocks, Live, OnlyAt, WithPhase;
    PhaseOnlyAt(s.net, a.t, Answered, |s.past.lists|);
    PhaseOnlyAt(s.net, a.t, Passed, |s.past.lists|);
    PhaseOnlyAt(s.net, a.t, Missed, |s.past.lists|);
  }

  lemma ResolveMovesOne(c: Config, s: State, a: Action)
    requires c.Valid() && Enabled(c, s, a) && a.Resolve?
    ensures In(s, a.t) && OnlyAt(s.net, Apply(c, s, a).net, a.t)
  {
    hide KeyOf, TaskKey, Blocks, Live, Resolution, WriteBehind.Offer;
  }

  lemma FetchMovesOne(c: Config, s: State, a: Action)
    requires c.Valid() && Enabled(c, s, a) && (a.Acquire? || a.OfferPersist?)
    ensures In(s, a.t) && OnlyAt(s.net, Apply(c, s, a).net, a.t)
  {
    hide KeyOf, TaskKey, Blocks, Live, Resolution, WriteBehind.Offer;
  }

  lemma CompletionMovesOne(c: Config, s: State, a: Action)
    requires c.Valid() && Enabled(c, s, a) && (a.Publish? || a.Wake?)
    ensures In(s, a.t) && OnlyAt(s.net, Apply(c, s, a).net, a.t)
  {
    hide KeyOf, TaskKey, Blocks, Live, Resolution, WriteBehind.Offer;
  }

  lemma StepKeepsAccounts(c: Config, s: State, a: Action)
    requires c.Valid() && FlightInv(c, s) && AccountInv(c, s) && Enabled(c, s, a)
    ensures AccountInv(c, Apply(c, s, a))
  {
    hide Enabled, Apply, NetOk, PermitInv, CountInv;
    if Moves(a) {
      MovesOne(c, s, a);
      Sizes(s.net, Apply(c, s, a).net, a.t);
      Entitled(c, s, a.t);
      if Probes(a) {
        ProbeCounts(c, s, a);
      } else if Fetches(a) {
        FetchCounts(c, s, a);
      } else {
        CompletionCounts(c, s, a);
      }
    } else if QueryStep(a) {
      EdgeCounts(c, s, a);
    } else if a.Crash? || a.Restart? {
      LifeCounts(c, s, a);
    } else {
      Untouched(c, s, a);
      SameCounts(c, s, Apply(c, s, a));
    }
  }

  lemma SameCounts(c: Config, s: State, s': State)
    requires AccountInv(c, s) && s'.net == s.net && s'.stats == s.stats && s'.tally == s.tally && s'.up == s.up
    ensures AccountInv(c, s')
  {
  }

  lemma Entitled(c: Config, s: State, t: TaskId)
    requires FlightInv(c, s) && In(s, t)
    ensures s.up
    ensures InFlight(PhaseOf(s, t)) ==> t in s.net.flights && s.net.flights[t].outcome.Running?
    ensures !Entered(PhaseOf(s, t)) ==> t !in s.net.flights
    ensures !InFlight(PhaseOf(s, t)) ==> forall k | k in s.net.waiters :: s.net.waiters[k] != t
  {
    hide TaskKey, KeyOf;
    assert TaskOk(c, s.net, t);
    assert forall k | k in s.net.waiters :: WaiterOk(c, s.net, k);
  }

  ghost predicate Prepared(c: Config, s: State, a: Action) {
    && c.Valid() && AccountInv(c, s) && Enabled(c, s, a) && s.up && Moves(a) && In(s, a.t)
    && (InFlight(PhaseOf(s, a.t)) ==> a.t in s.net.flights && s.net.flights[a.t].outcome.Running?)
    && (!Entered(PhaseOf(s, a.t)) ==> a.t !in s.net.flights)
    && (!InFlight(PhaseOf(s, a.t)) ==> forall k | k in s.net.waiters :: s.net.waiters[k] != a.t)
    && OnlyAt(s.net, Apply(c, s, a).net, a.t)
  }

  lemma ProbeCounts(c: Config, s: State, a: Action)
    requires Prepared(c, s, a) && Probes(a)
    ensures AccountInv(c, Apply(c, s, a))
  {
    hide Apply, AccountInv;
    if a.Enter? {
      EnterCounts(c, s, a);
    } else {
      CheckCounts(c, s, a);
    }
  }

  lemma CheckCounts(c: Config, s: State, a: Action)
    requires Prepared(c, s, a) && (a.CheckList? || a.Lookup?)
    ensures AccountInv(c, Apply(c, s, a))
  {
    hide KeyOf, TaskKey, Blocks, Live, ResolvingTasks, UndecidedTasks, UnofferedTasks, SuccessfulLeaders, OnlyAt;
    Sizes(s.net, Apply(c, s, a).net, a.t);
  }

  lemma EnterCounts(c: Config, s: State, a: Action)
    requires Prepared(c, s, a) && a.Enter?
    ensures AccountInv(c, Apply(c, s, a))
  {
    hide KeyOf, TaskKey, Blocks, Live, ResolvingTasks, UndecidedTasks, UnofferedTasks, SuccessfulLeaders, OnlyAt;
    Sizes(s.net, Apply(c, s, a).net, a.t);
  }

  lemma FetchCounts(c: Config, s: State, a: Action)
    requires Prepared(c, s, a) && Fetches(a)
    ensures AccountInv(c, Apply(c, s, a))
  {
    hide KeyOf, TaskKey, Resolution, WriteBehind.Offer, ResolvingTasks, UndecidedTasks, UnofferedTasks,
      SuccessfulLeaders, OnlyAt;
    Sizes(s.net, Apply(c, s, a).net, a.t);
  }

  lemma CompletionCounts(c: Config, s: State, a: Action)
    requires Prepared(c, s, a) && (a.Publish? || a.Wake?)
    ensures AccountInv(c, Apply(c, s, a))
  {
    hide KeyOf, TaskKey, ResolvingTasks, UndecidedTasks, UnofferedTasks, SuccessfulLeaders, OnlyAt;
    Sizes(s.net, Apply(c, s, a).net, a.t);
  }

  lemma ReleaseSizes(net: Net, t: TaskId)
    requires t in net.tasks && (!Entered(net.tasks[t].phase) || net.tasks[t].phase.Answered?)
    ensures var p, net' := net.tasks[t].phase, Release(net, t);
            && |net'.tasks| == |net.tasks| - 1
            && |ResolvingTasks(net')| == |ResolvingTasks(net)| - One(p.Resolving?)
            && |UndecidedTasks(net')| == |UndecidedTasks(net)| - One(Undecided(p))
            && |UnofferedTasks(net')| == |UnofferedTasks(net)|
            && |SuccessfulLeaders(net')| == |SuccessfulLeaders(net)|
  {
    hide Successful, SuccessfulLeaders;
    var net' := Release(net, t);
    ReleaseTasks(net, t);
    assert ResolvingTasks(net') == ResolvingTasks(net) - {t};
    assert UndecidedTasks(net') == UndecidedTasks(net) - {t};
    assert UnofferedTasks(net') == UnofferedTasks(net);
    ReleaseSuccessful(net, t);
  }

  lemma ReleaseTasks(net: Net, t: TaskId)
    requires t in net.tasks
    ensures |Release(net, t).tasks| == |net.tasks| - 1
  {
    var rest := net.tasks - {t};
    assert rest.Keys == net.tasks.Keys - {t};
    assert |rest| == |rest.Keys| && |net.tasks| == |net.tasks.Keys|;
  }

  lemma ReleaseSuccessful(net: Net, t: TaskId)
    requires t in net.tasks && (!Entered(net.tasks[t].phase) || net.tasks[t].phase.Answered?)
    ensures SuccessfulLeaders(Release(net, t)) == SuccessfulLeaders(net)
  {
    forall u | u in net.tasks && u != t ensures Successful(Release(net, t), u) == Successful(net, u) {
    }
  }

  lemma AdmitSizes(net: Net, net': Net, t: TaskId)
    requires OnlyAt(net, net', t) && t !in net.tasks && net'.tasks[t].phase.Admitted?
    ensures |net'.tasks| == |net.tasks| + 1
    ensures |ResolvingTasks(net')| == |ResolvingTasks(net)| && |UndecidedTasks(net')| == |UndecidedTasks(net)|
    ensures |UnofferedTasks(net')| == |UnofferedTasks(net)|
    ensures |SuccessfulLeaders(net')| == |SuccessfulLeaders(net)|
  {
    hide OnlyAt;
    GroupsChange(net, net', t);
  }

  lemma EdgeCounts(c: Config, s: State, a: Action)
    requires c.Valid() && FlightInv(c, s) && AccountInv(c, s) && Enabled(c, s, a)
    requires a.Receive? || a.ParseQuery? || a.Finish?
    ensures AccountInv(c, Apply(c, s, a))
  {
    hide FlightInv, AccountInv;
    match a {
      case Receive(data) => ReceiveCounts(c, s, data);
      case ParseQuery(t) => ParseCounts(c, s, t);
      case Finish(t) => FinishCounts(c, s, t);
    }
  }

  lemma ReceiveCounts(c: Config, s: State, data: Bytes)
    requires FlightInv(c, s) && AccountInv(c, s) && s.Serving()
    ensures AccountInv(c, DoReceive(s, data))
  {
    hide KeyOf, TaskKey, NetOk, OnlyAt, ResolvingTasks, UndecidedTasks, UnofferedTasks, SuccessfulLeaders;
    FreshId(c, s.net);
    if s.net.freeTasks > 0 {
      AdmitsOne(s, data);
      AdmitSizes(s.net, DoReceive(s, data).net, s.net.nextId);
    }
  }

  lemma AdmitsOne(s: State, data: Bytes)
    requires s.net.nextId !in s.net.tasks && s.net.freeTasks > 0
    ensures OnlyAt(s.net, DoReceive(s, data).net, s.net.nextId)
  {
  }

  lemma ParseCounts(c: Config, s: State, t: TaskId)
    requires FlightInv(c, s) && AccountInv(c, s) && In(s, t) && PhaseOf(s, t).Admitted?
    ensures AccountInv(c, DoParse(c, s, t))
  {
    hide KeyOf, TaskKey, NetOk, ResolvingTasks, UndecidedTasks, UnofferedTasks, SuccessfulLeaders;
    Entitled(c, s, t);
    if KeyOf(c.decode, s.net.tasks[t].data).None? {
      ReleaseSizes(s.net, t);
    } else {
      Sizes(s.net, DoParse(c, s, t).net, t);
    }
  }

  lemma FinishCounts(c: Config, s: State, t: TaskId)
    requires FlightInv(c, s) && AccountInv(c, s) && In(s, t) && PhaseOf(s, t).Answered?
    ensures AccountInv(c, s.(net := Release(s.net, t)))
  {
    hide KeyOf, TaskKey, NetOk, ResolvingTasks, UndecidedTasks, UnofferedTasks, SuccessfulLeaders;
    Entitled(c, s, t);
    ReleaseSizes(s.net, t);
  }

  lemma FreshId(c: Config, net: Net)
    requires NetOk(c, net)
    ensures net.nextId !in net.tasks && net.nextId !in net.flights
  {
    hide TaskKey, KeyOf;
    assert forall t | t in net.tasks :: TaskOk(c, net, t);
    assert forall f | f in net.flights :: FlightOk(net, f);
  }

  lemma NoTasks(net: Net)
    requires net.tasks == map[]
    ensures ResolvingTasks(net) == {} && UndecidedTasks(net) == {}
    ensures UnofferedTasks(net) == {} && SuccessfulLeaders(net) == {}
  {
  }

  lemma LifeCounts(c: Config, s: State, a: Action)
    requires c.Valid() && FlightInv(c, s) && AccountInv(c, s) && Enabled(c, s, a) && (a.Crash? || a.Restart?)
    ensures AccountInv(c, Apply(c, s, a))
  {
    hide NetOk, ReadRows, BlocklistFile.Loaded, ResolvingTasks, UndecidedTasks, UnofferedTasks, SuccessfulLeaders;
    NoTasks(Apply(c, s, a).net);
  }

  // ---- consequences ----

  lemma {:induction false} ValuesBound(m: map<CacheKey, TaskId>, ts: set<TaskId>)
    requires forall t | t in ts :: exists k | k in m :: m[k] == t
    ensures |ts| <= |m|
    decreases |ts|
  {
    if t :| t in ts {
      var k :| k in m && m[k] == t;
      var rest := m - {k};
      forall u | u in ts - {t} ensures exists j | j in rest :: rest[j] == u {
        var j :| j in m && m[j] == u;
        assert j in rest;
      }
      ValuesBound(rest, ts - {t});
      assert |m| == |m.Keys| && |rest| == |rest.Keys| && rest.Keys == m.Keys - {k};
    }
  }

  /** Concurrent resolutions are bounded by both permit pools and by the number of distinct keys in flight. */
  lemma ConcurrencyBounds(c: Config, s: State)
    requires FlightInv(c, s) && AccountInv(c, s)
    ensures |ResolvingTasks(s.net)| <= c.ResolvePermits()
    ensures |ResolvingTasks(s.net)| <= |s.net.tasks| <= c.TaskPermits()
    ensures |ResolvingTasks(s.net)| <= |s.net.waiters|
  {
    hide NetOk;
    var ts := ResolvingTasks(s.net);
    forall t | t in ts ensures exists k | k in s.net.waiters :: s.net.waiters[k] == t {
      Leads(c, s.net, t);
    }
    ValuesBound(s.net.waiters, ts);
    SubsetSize(ts, s.net.tasks.Keys);
    assert |s.net.tasks| == |s.net.tasks.Keys|;
  }

  lemma Leads(c: Config, net: Net, t: TaskId)
    requires NetOk(c, net) && t in net.tasks && InFlight(net.tasks[t].phase)
    ensures exists k | k in net.waiters :: net.waiters[k] == t
  {
    Keyed(c, net, t);
  }

  lemma SubsetSize(a: set<TaskId>, b: set<TaskId>)
    requires a <= b
    ensures |a| <= |b|
  {
    assert b == a + (b - a);
  }
}
