/** One upstream resolution per key at a time, and never two in a row without a reason. */
module SingleFlight {
  import opened Names
  import opened Wire
  import opened Upstream
  import opened Store
  import BlocklistFile
  import opened Blocklist
  import opened Resolver
  import opened Frames

  predicate InFlight(p: Phase) {
    p.Leading? || p.Resolving? || p.Resolved? || p.Offered?
  }

  predicate Entered(p: Phase) {
    InFlight(p) || p.Awaiting? || p.Answered?
  }

  ghost predicate TaskOk(c: Config, net: Net, t: TaskId)
    requires t in net.tasks
  {
    var task := net.tasks[t];
    var k := TaskKey(c, task.data);
    && t < net.nextId
    && (!task.phase.Admitted? ==> KeyOf(c.decode, task.data) == Some(k))
    && (InFlight(task.phase) ==>
          k in net.waiters && net.waiters[k] == t && t in net.flights && net.flights[t] == Flight(k, Running))
    && (t in net.flights ==> Entered(task.phase))
    && (task.phase.Awaiting? ==>
          task.phase.flight in net.flights && net.flights[task.phase.flight].key == k)
  }

  ghost predicate WaiterOk(c: Config, net: Net, k: CacheKey)
    requires k in net.waiters
  {
    var t := net.waiters[k];
    t in net.tasks && InFlight(net.tasks[t].phase) && TaskKey(c, net.tasks[t].data) == k
  }

  ghost predicate FlightOk(net: Net, f: TaskId)
    requires f in net.flights
  {
    f < net.nextId && (net.flights[f].outcome.Running? ==> f in net.tasks && InFlight(net.tasks[f].phase))
  }

  ghost predicate NetOk(c: Config, net: Net) {
    && (forall t | t in net.tasks :: TaskOk(c, net, t))
    && (forall k | k in net.waiters :: WaiterOk(c, net, k))
    && (forall f | f in net.flights :: FlightOk(net, f))
  }

  /** A key being fetched is not in RAM, and nothing runs before the warm load is over. */
  ghost predicate FlightInv(c: Config, s: State) {
    && NetOk(c, s.net)
    && s.net.waiters.Keys !! s.ram.Keys
    && (!s.Serving() ==> s.net.tasks == map[])
    && (!s.up ==> s.ram == map[])
  }

  lemma TaskKeyIs(c: Config, data: Bytes)
    ensures KeyOf(c.decode, data).Some? ==> KeyOf(c.decode, data) == Some(TaskKey(c, data))
  {
  }

  // How the pieces of a step act on the network of tasks.

  lemma Advances(c: Config, net: Net, t: TaskId, p: Phase)
    requires NetOk(c, net) && t in net.tasks
    requires InFlight(p) == InFlight(net.tasks[t].phase)
    requires Entered(net.tasks[t].phase) ==> Entered(p)
    requires !p.Admitted? && KeyOf(c.decode, net.tasks[t].data).Some?
    requires p.Awaiting? ==> p.flight in net.flights && net.flights[p.flight].key == TaskKey(c, net.tasks[t].data)
    ensures NetOk(c, WithPhase(net, t, p))
  {
    hide TaskKey, KeyOf;
    TaskKeyIs(c, net.tasks[t].data);
    var net' := WithPhase(net, t, p);
    assert TaskOk(c, net, t);
    forall u | u in net'.tasks ensures TaskOk(c, net', u) {
      assert TaskOk(c, net, u);
    }
    forall k | k in net'.waiters ensures WaiterOk(c, net', k) {
      assert WaiterOk(c, net, k);
    }
    forall f | f in net'.flights ensures FlightOk(net', f) {
      assert FlightOk(net, f);
    }
  }

  lemma Launches(c: Config, net: Net, t: TaskId)
    requires NetOk(c, net) && t in net.tasks && net.tasks[t].phase.Missed?
    requires TaskKey(c, net.tasks[t].data) !in net.waiters
    ensures var k := TaskKey(c, net.tasks[t].data);
            NetOk(c, WithPhase(net, t, Leading).(waiters := net.waiters[k := t],
                                                 flights := net.flights[t := Flight(k, Running)]))
  {
    hide TaskKey, KeyOf;
    var k := TaskKey(c, net.tasks[t].data);
    var net' := WithPhase(net, t, Leading).(waiters := net.waiters[k := t],
                                            flights := net.flights[t := Flight(k, Running)]);
    assert TaskOk(c, net, t);
    forall u | u in net'.tasks ensures TaskOk(c, net', u) {
      assert TaskOk(c, net, u);
    }
    forall j | j in net'.waiters ensures WaiterOk(c, net', j) {
      if j != k {
        assert WaiterOk(c, net, j);
      }
    }
    forall f | f in net'.flights ensures FlightOk(net', f) {
      if f != t {
        assert FlightOk(net, f);
      }
    }
  }

  lemma Lands(c: Config, net: Net, t: TaskId, o: Outcome)
    requires NetOk(c, net) && t in net.tasks && InFlight(net.tasks[t].phase) && !o.Running?
    ensures NetOk(c, Land(net, t, TaskKey(c, net.tasks[t].data), o))
  {
    hide TaskKey, KeyOf;
    var k := TaskKey(c, net.tasks[t].data);
    var net' := Land(net, t, k, o);
    assert TaskOk(c, net, t);
    forall u | u in net'.tasks ensures TaskOk(c, net', u) {
      assert TaskOk(c, net, u);
    }
    forall j | j in net'.waiters ensures WaiterOk(c, net', j) {
      assert WaiterOk(c, net, j);
    }
    forall f | f in net'.flights ensures FlightOk(net', f) {
      if f != t {
        assert FlightOk(net, f);
      }
    }
  }

  lemma Releases(c: Config, net: Net, t: TaskId)
    requires NetOk(c, net) && t in net.tasks && !InFlight(net.tasks[t].phase)
    ensures NetOk(c, Release(net, t))
  {
    hide TaskKey, KeyOf;
    var net' := Release(net, t);
    forall u | u in net'.tasks ensures TaskOk(c, net', u) {
      assert TaskOk(c, net, u);
    }
    forall j | j in net'.waiters ensures WaiterOk(c, net', j) {
      assert WaiterOk(c, net, j);
    }
    forall f | f in net'.flights ensures FlightOk(net', f) {
      assert FlightOk(net, f);
    }
  }

  lemma Admits(c: Config, net: Net, data: Bytes, epoch: nat)
    requires NetOk(c, net) && net.freeTasks > 0
    ensures NetOk(c, net.(tasks := net.tasks[net.nextId := Task(data, epoch, epoch, Admitted)],
                          freeTasks := net.freeTasks - 1, nextId := net.nextId + 1))
  {
    hide TaskKey, KeyOf;
    var t := net.nextId;
    var net' := net.(tasks := net.tasks[t := Task(data, epoch, epoch, Admitted)],
                     freeTasks := net.freeTasks - 1, nextId := t + 1);
    forall u | u in net'.tasks ensures TaskOk(c, net', u) {
      if u != t {
        assert TaskOk(c, net, u);
      }
    }
    forall j | j in net'.waiters ensures WaiterOk(c, net', j) {
      assert WaiterOk(c, net, j);
    }
    forall f | f in net'.flights ensures FlightOk(net', f) {
      assert FlightOk(net, f);
    }
  }

  /** Fields that the invariant does not mention. */
  lemma Unmentioned(c: Config, net: Net, t: TaskId, checked: nat, freeResolves: nat)
    requires NetOk(c, net) && t in net.tasks
    ensures NetOk(c, net.(tasks := net.tasks[t := net.tasks[t].(checked := checked)]))
    ensures NetOk(c, net.(freeResolves := freeResolves))
  {
    hide TaskKey, KeyOf;
    var net1 := net.(tasks := net.tasks[t := net.tasks[t].(checked := checked)]);
    var net2 := net.(freeResolves := freeResolves);
    forall u | u in net.tasks ensures TaskOk(c, net1, u) && TaskOk(c, net2, u) {
      assert TaskOk(c, net, u);
    }
    forall j | j in net.waiters ensures WaiterOk(c, net1, j) && WaiterOk(c, net2, j) {
      assert WaiterOk(c, net, j);
    }
    forall f | f in net.flights ensures FlightOk(net1, f) && FlightOk(net2, f) {
      assert FlightOk(net, f);
    }
  }

  lemma StepKeepsNet(c: Config, s: State, a: Action)
    requires c.Valid() && NetOk(c, s.net) && Enabled(c, s, a)
    ensures NetOk(c, Apply(c, s, a).net)
  {
    hide NetOk, Enabled, Apply;
    if BeforeFlight(a) {
      EarlyStepKeepsNet(c, s, a);
    } else {
      LateStepKeepsNet(c, s, a);
    }
  }

  lemma EarlyStepKeepsNet(c: Config, s: State, a: Action)
    requires c.Valid() && NetOk(c, s.net) && Enabled(c, s, a) && BeforeFlight(a)
    ensures NetOk(c, Apply(c, s, a).net)
  {
    hide TaskKey, KeyOf, Blocks, Resolution, ReadRows, ExpiredKeys, BlocklistFile.Loaded, Written, NetOk;
    match a {
      case Receive(data) =>
        if s.net.freeTasks > 0 {
          Admits(c, s.net, data, |s.past.lists|);
        }
      case ParseQuery(t) =>
        if KeyOf(c.decode, s.net.tasks[t].data).Some? {
          Advances(c, s.net, t, Parsed);
        } else {
          Releases(c, s.net, t);
        }
      case CheckList(t) =>
        Keyed(c, s.net, t);
        Unmentioned(c, s.net, t, |s.past.lists|, 0);
        var net := s.net.(tasks := s.net.tasks[t := s.net.tasks[t].(checked := |s.past.lists|)]);
        Advances(c, net, t, Answered);
        Advances(c, net, t, Passed);
      case Lookup(t) =>
        Keyed(c, s.net, t);
        Advances(c, s.net, t, Answered);
        Advances(c, s.net, t, Missed);
      case Enter(t) =>
        Keyed(c, s.net, t);
        Advances(c, s.net, t, Answered);
        var k := TaskKey(c, s.net.tasks[t].data);
        if k in s.net.waiters {
          Joinable(c, s.net, k);
          Advances(c, s.net, t, Awaiting(s.net.waiters[k]));
        } else {
          Launches(c, s.net, t);
        }
    }
  }

  lemma LateStepKeepsNet(c: Config, s: State, a: Action)
    requires c.Valid() && NetOk(c, s.net) && Enabled(c, s, a) && !BeforeFlight(a)
    ensures NetOk(c, Apply(c, s, a).net)
  {
    hide TaskKey, KeyOf, Blocks, Resolution, ReadRows, ExpiredKeys, BlocklistFile.Loaded, Written, NetOk;
    match a {
      case Acquire(t) =>
        Keyed(c, s.net, t);
        Advances(c, s.net, t, Resolving);
        Unmentioned(c, WithPhase(s.net, t, Resolving), t, 0, s.net.freeResolves - 1);
      case Resolve(t, attempts) =>
        Keyed(c, s.net, t);
        var net := s.net.(freeResolves := s.net.freeResolves + 1);
        Unmentioned(c, s.net, t, 0, s.net.freeResolves + 1);
        match Resolution(c.decode, c.limits, s.net.tasks[t].data, attempts, s.now) {
          case Some(resp) => Advances(c, net, t, Resolved(resp, s.now));
          case None => Lands(c, net, t, Errored);
        }
      case OfferPersist(t) =>
        Keyed(c, s.net, t);
        Advances(c, s.net, t, Offered(PhaseOf(s, t).resp, PhaseOf(s, t).at));
      case Publish(t) =>
        Lands(c, s.net, t, Ready(Held(PhaseOf(s, t).resp, PhaseOf(s, t).at, s.now)));
      case Wake(t) =>
        Keyed(c, s.net, t);
        Advances(c, s.net, t, Answered);
      case Finish(t) =>
        Releases(c, s.net, t);
      case Crash =>
        IdleOk(c, s.net.nextId);
      case Restart(_, _) =>
        IdleOk(c, s.net.nextId);
      case _ =>
    }
  }

  lemma IdleOk(c: Config, nextId: TaskId)
    ensures NetOk(c, Idle(c, nextId))
  {
  }

  lemma Keyed(c: Config, net: Net, t: TaskId)
    requires NetOk(c, net) && t in net.tasks && !net.tasks[t].phase.Admitted?
    ensures KeyOf(c.decode, net.tasks[t].data) == Some(TaskKey(c, net.tasks[t].data))
    ensures InFlight(net.tasks[t].phase) ==>
              var k := TaskKey(c, net.tasks[t].data);
              && k in net.waiters && net.waiters[k] == t
              && t in net.flights && net.flights[t] == Flight(k, Running)
    ensures net.tasks[t].phase.Awaiting? ==>
              var f := net.tasks[t].phase.flight;
              f in net.flights && net.flights[f].key == TaskKey(c, net.tasks[t].data)
  {
    hide TaskKey, KeyOf;
    assert TaskOk(c, net, t);
  }

  lemma Joinable(c: Config, net: Net, k: CacheKey)
    requires NetOk(c, net) && k in net.waiters
    ensures net.waiters[k] in net.flights && net.flights[net.waiters[k]].key == k
  {
    hide TaskKey, KeyOf;
    assert WaiterOk(c, net, k);
    assert TaskOk(c, net, net.waiters[k]);
  }

  lemma StepKeepsFlights(c: Config, s: State, a: Action)
    requires c.Valid() && FlightInv(c, s) && Enabled(c, s, a)
    ensures FlightInv(c, Apply(c, s, a))
  {
    hide FlightInv, Enabled, Apply;
    if BeforeFlight(a) {
      EarlyStepKeepsFlights(c, s, a);
    } else if AfterEntry(a) {
      LateStepKeepsFlights(c, s, a);
    } else {
      OtherStepKeepsFlights(c, s, a);
    }
  }

  lemma EarlyStepKeepsFlights(c: Config, s: State, a: Action)
    requires c.Valid() && FlightInv(c, s) && Enabled(c, s, a) && BeforeFlight(a)
    ensures FlightInv(c, Apply(c, s, a))
  {
    hide TaskKey, KeyOf, Blocks, Resolution, ReadRows, ExpiredKeys, BlocklistFile.Loaded, Written, NetOk,
      WriteBehind.Offer;
    StepKeepsNet(c, s, a);
  }

  lemma LateStepKeepsFlights(c: Config, s: State, a: Action)
    requires c.Valid() && FlightInv(c, s) && Enabled(c, s, a) && AfterEntry(a)
    ensures FlightInv(c, Apply(c, s, a))
  {
    hide TaskKey, KeyOf, Blocks, Resolution, ReadRows, ExpiredKeys, BlocklistFile.Loaded, Written, NetOk,
      WriteBehind.Offer;
    StepKeepsNet(c, s, a);
    if a.Publish? {
      Keyed(c, s.net, a.t);
    }
  }

  lemma OtherStepKeepsFlights(c: Config, s: State, a: Action)
    requires c.Valid() && FlightInv(c, s) && Enabled(c, s, a) && !BeforeFlight(a) && !AfterEntry(a)
    ensures FlightInv(c, Apply(c, s, a))
  {
    hide TaskKey, KeyOf, Blocks, Resolution, ReadRows, ExpiredKeys, BlocklistFile.Loaded, Written, NetOk,
      WriteBehind.Offer;
    StepKeepsNet(c, s, a);
    if s.net.tasks == map[] {
      NoWaiters(c, s.net);
    }
  }

  lemma NoWaiters(c: Config, net: Net)
    requires NetOk(c, net) && net.tasks == map[]
    ensures net.waiters == map[]
  {
    assert forall k :: k in net.waiters ==> WaiterOk(c, net, k);
    assert net.waiters.Keys == {};
  }

  /** Two tasks running the resolution of the same key are the same task. */
  lemma OneFlightPerKey(c: Config, s: State, t: TaskId, u: TaskId)
    requires FlightInv(c, s) && In(s, t) && In(s, u)
    requires InFlight(PhaseOf(s, t)) && InFlight(PhaseOf(s, u))
    requires TaskKey(c, s.net.tasks[t].data) == TaskKey(c, s.net.tasks[u].data)
    ensures t == u
  {
    Keyed(c, s.net, t);
    Keyed(c, s.net, u);
  }

  // ---- no second start without a failure, an expiry or eviction, or a restart ----

  predicate Breaks(e: Event, k: CacheKey) {
    e == Failure(k) || e == Gone(k) || e == Down
  }

  /** The last thing that happened to `k` is that a resolution started. */
  predicate Open(events: seq<Event>, k: CacheKey) {
    events != [] &&
    var e := events[|events| - 1];
    e == Start(k) || (!Breaks(e, k) && Open(events[..|events| - 1], k))
  }

  ghost predicate BreakBetween(events: seq<Event>, k: CacheKey, i: int, j: int) {
    exists m | i < m < j && 0 <= m < |events| :: Breaks(events[m], k)
  }

  ghost predicate Separated(events: seq<Event>) {
    forall i, j | 0 <= i < j < |events| && events[i].Start? && events[j] == events[i] ::
      BreakBetween(events, events[i].key, i, j)
  }

  lemma {:induction false} ClosedHasBreak(events: seq<Event>, k: CacheKey, i: nat)
    requires i < |events| && events[i] == Start(k) && !Open(events, k)
    ensures BreakBetween(events, k, i, |events|)
  {
    var n := |events| - 1;
    if Breaks(events[n], k) {
      assert i < n;
    } else {
      ClosedHasBreak(events[..n], k, i);
      var m :| i < m < n && Breaks(events[..n][m], k);
      assert Breaks(events[m], k);
    }
  }

  lemma SeparatedExtends(events: seq<Event>, e: Event)
    requires Separated(events) && (e.Start? ==> !Open(events, e.key))
    ensures Separated(events + [e])
  {
    var all := events + [e];
    forall i, j | 0 <= i < j < |all| && all[i].Start? && all[j] == all[i]
      ensures BreakBetween(all, all[i].key, i, j)
    {
      var k := all[i].key;
      if j < |events| {
        assert BreakBetween(events, k, i, j);
      } else {
        ClosedHasBreak(events, k, i);
      }
      var m :| i < m < j && 0 <= m < |events| && Breaks(events[m], k);
      assert Breaks(all[m], k);
    }
  }

  lemma OpenExtends(events: seq<Event>, e: Event, k: CacheKey)
    ensures Open(events + [e], k) <==> e == Start(k) || (!Breaks(e, k) && Open(events, k))
  {
    assert (events + [e])[..|events|] == events;
  }

  ghost predicate EventInv(s: State) {
    && Separated(s.past.events)
    && forall k | Open(s.past.events, k) :: k in s.net.waiters || k in s.ram
  }

  lemma StepKeepsEvents(c: Config, s: State, a: Action)
    requires c.Valid() && FlightInv(c, s) && EventInv(s) && Enabled(c, s, a)
    ensures EventInv(Apply(c, s, a))
  {
    hide Enabled, Apply, FlightInv, EventInv;
    if BeforeFlight(a) {
      EarlyStepKeepsEvents(c, s, a);
    } else if AfterEntry(a) {
      LateStepKeepsEvents(c, s, a);
    } else {
      OtherStepKeepsEvents(c, s, a);
    }
  }

  lemma EarlyStepKeepsEvents(c: Config, s: State, a: Action)
    requires c.Valid() && FlightInv(c, s) && EventInv(s) && Enabled(c, s, a) && BeforeFlight(a)
    ensures EventInv(Apply(c, s, a))
  {
    hide TaskKey, KeyOf, Blocks, Open, Separated, DoEnter, NetOk, Live;
    if a.Enter? {
      EnterKeepsEvents(c, s, a.t);
    }
  }

  lemma LateStepKeepsEvents(c: Config, s: State, a: Action)
    requires c.Valid() && FlightInv(c, s) && EventInv(s) && Enabled(c, s, a) && AfterEntry(a)
    ensures EventInv(Apply(c, s, a))
  {
    hide TaskKey, KeyOf, Resolution, Open, Separated, NetOk, WriteBehind.Offer;
    if a.Resolve? {
      Extended(s.past.events, Failure(TaskKey(c, s.net.tasks[a.t].data)));
    }
  }

  lemma OtherStepKeepsEvents(c: Config, s: State, a: Action)
    requires c.Valid() && FlightInv(c, s) && EventInv(s) && Enabled(c, s, a) && !QueryStep(a)
    ensures EventInv(Apply(c, s, a))
  {
    hide ReadRows, ExpiredKeys, BlocklistFile.Loaded, BlocklistFile.FileText, Written, Open, Separated, NetOk,
      WriteBehind.Receive, WriteBehind.Flush, KeyOrdered;
    match a {
      case DropEntry(k) =>
        Extended(s.past.events, Gone(k));
      case Crash =>
        Extended(s.past.events, Down);
      case Restart(_, _) =>
        NoWaiters(c, s.net);
      case _ =>
    }
  }

  lemma EnterKeepsEvents(c: Config, s: State, t: TaskId)
    requires FlightInv(c, s) && EventInv(s) && In(s, t) && PhaseOf(s, t).Missed?
    ensures EventInv(DoEnter(c, s, t))
  {
    hide TaskKey, KeyOf, Open, Separated, FlightInv;
    var k := TaskKey(c, s.net.tasks[t].data);
    var events := s.past.events;
    if k in s.ram {
      Extended(events, Gone(k));
      Extended(events + [Gone(k)], Start(k));
      assert events + [Gone(k), Start(k)] == events + [Gone(k)] + [Start(k)];
    } else if k !in s.net.waiters {
      Extended(events, Start(k));
      assert events + [] + [Start(k)] == events + [Start(k)];
    }
  }

  lemma Extended(events: seq<Event>, e: Event)
    requires Separated(events)
    ensures (e.Start? ==> !Open(events, e.key)) ==> Separated(events + [e])
    ensures forall k :: Open(events + [e], k) <==> e == Start(k) || (!Breaks(e, k) && Open(events, k))
  {
    forall k {
      OpenExtends(events, e, k);
    }
    if e.Start? ==> !Open(events, e.key) {
      SeparatedExtends(events, e);
    }
  }
}
