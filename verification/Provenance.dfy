/** Where every cached, stored and served answer comes from, over all runs with crashes and restarts. */
module Provenance {
  import opened Names
  import opened Wire
  import opened Upstream
  import opened Store
  import opened Blocklist
  import BlocklistFile
  import WriteBehind
  import opened Resolver
  import opened Frames
  import opened SingleFlight

  /** A reply on record was validated against its own query, fits a 16-bit length and carries its clamped TTL. */
  ghost predicate Genuine(c: Config, a: Accept)
    requires c.Valid()
  {
    && KeyOf(c.decode, a.query).Some?
    && Acceptable(c.decode, a.query, a.resp.wire)
    && |a.resp.wire| <= MAX_MESSAGE
    && TtlOf(c.decode, c.limits, a.resp.wire, a.resp.ttl)
    && a.resp.expires == Seconds(a.at) + a.resp.ttl
  }

  /** `h`, held under `k`, is the reply `a`, its TTL counted from a clock reading no earlier than the reply. */
  ghost predicate From(c: Config, a: Accept, k: CacheKey, h: Held) {
    && KeyOf(c.decode, a.query) == Some(k)
    && h.resp.wire == a.resp.wire
    && h.resp.expires == a.resp.expires
    && a.at <= h.readAt <= h.storedAt
    && Seconds(h.readAt) + h.resp.ttl == h.resp.expires
  }

  /**
   * `h` is either the reply as it was accepted, its lifetime counting from that moment, or what a start that
   * read the clock at `start` made of it, counting from then.
   */
  ghost predicate Origin(c: Config, a: Accept, k: CacheKey, h: Held, start: Millis) {
    && From(c, a, k, h)
    && ((h.readAt == a.at && h.resp == a.resp) || (h.readAt == start && h.resp.ttl > 0))
  }

  ghost predicate Comes(c: Config, accepted: set<Accept>, k: CacheKey, h: Held, start: Millis) {
    exists a | a in accepted :: Origin(c, a, k, h, start)
  }

  /** The item is exactly what some accepted reply was turned into. */
  ghost predicate Logged(c: Config, accepted: set<Accept>, x: Item) {
    exists a | a in accepted :: KeyOf(c.decode, a.query) == Some(x.0) && a.resp == x.1
  }

  ghost predicate AcceptedOk(c: Config, accepted: set<Accept>, now: Millis)
    requires c.Valid()
  {
    forall a | a in accepted :: Genuine(c, a) && a.at <= now
  }

  ghost predicate RamOk(
    c: Config, accepted: set<Accept>, ram: map<CacheKey, Held>, start: Millis, now: Millis)
  {
    forall k | k in ram :: Comes(c, accepted, k, ram[k], start) && ram[k].storedAt <= now
  }

  ghost predicate PendingOk(accepted: set<Accept>, net: Net) {
    forall t | t in net.tasks :: PendingTaskOk(accepted, net.tasks[t])
  }

  ghost predicate PendingTaskOk(accepted: set<Accept>, task: Task) {
    match task.phase
    case Resolved(resp, at) => Accept(task.data, resp, at) in accepted
    case Offered(resp, at) => Accept(task.data, resp, at) in accepted
    case _ => true
  }

  ghost predicate LandedOk(c: Config, accepted: set<Accept>, net: Net, start: Millis, now: Millis) {
    forall f | f in net.flights && net.flights[f].outcome.Ready? ::
      && Comes(c, accepted, net.flights[f].key, net.flights[f].outcome.held, start)
      && net.flights[f].outcome.held.storedAt <= now
  }

  ghost predicate ItemsOk(c: Config, accepted: set<Accept>, items: seq<Item>) {
    forall x | x in items :: Logged(c, accepted, x)
  }

  ghost predicate RowOk(c: Config, accepted: set<Accept>, kb: Bytes, vb: Bytes) {
    exists x: Item :: Logged(c, accepted, x) && kb == EncKey(x.0) && vb == EncVal(x.1)
  }

  ghost predicate TableOk(c: Config, accepted: set<Accept>, t: Table) {
    forall kb | kb in t :: RowOk(c, accepted, kb, t[kb])
  }

  ghost predicate LoadingOk(c: Config, accepted: set<Accept>, loading: seq<Item>, readAt: Millis, now: Millis) {
    && readAt <= now
    && forall x | x in loading :: Comes(c, accepted, x.0, Held(x.1, readAt, readAt), readAt)
  }

  /** A served answer came from a reply on record under the asker's own key, and if from RAM, before its deadline. */
  ghost predicate AnswerOk(c: Config, accepted: set<Accept>, a: Answer) {
    match a.verdict
    case Hit(h) => AnsweredBy(c, accepted, a, h) && a.at < Deadline(h)
    case Found(h) => AnsweredBy(c, accepted, a, h) && a.at < Deadline(h)
    case Flown(h) => AnsweredBy(c, accepted, a, h)
    case _ => KeyOf(c.decode, a.data).Some?
  }

  ghost predicate AnsweredBy(c: Config, accepted: set<Accept>, a: Answer, h: Held) {
    && KeyOf(c.decode, a.data).Some?
    && Comes(c, accepted, KeyOf(c.decode, a.data).value, h, a.started)
    && h.storedAt <= a.at
  }

  ghost predicate AnswersOk(c: Config, accepted: set<Accept>, answers: seq<Answer>) {
    forall i | 0 <= i < |answers| :: AnswerOk(c, accepted, answers[i])
  }

  ghost predicate SourceInv(c: Config, s: State)
    requires c.Valid()
  {
    && AcceptedOk(c, s.past.accepted, s.now)
    && RamOk(c, s.past.accepted, s.ram, s.readAt, s.now)
    && PendingOk(s.past.accepted, s.net)
    && LandedOk(c, s.past.accepted, s.net, s.readAt, s.now)
    && ItemsOk(c, s.past.accepted, s.pipe.buf) && ItemsOk(c, s.past.accepted, s.pipe.channel)
    && TableOk(c, s.past.accepted, s.disk.table)
    && LoadingOk(c, s.past.accepted, s.loading, s.readAt, s.now)
    && AnswersOk(c, s.past.accepted, s.past.answers)
  }

  // ---- more replies on record never take support away ----

  lemma MoreReplies(c: Config, s: State, s': State)
    requires c.Valid() && SourceInv(c, s) && s.past.accepted <= s'.past.accepted && s.now <= s'.now
    ensures var h := s'.past.accepted;
            && RamOk(c, h, s.ram, s.readAt, s'.now) && PendingOk(h, s.net) && LandedOk(c, h, s.net, s.readAt, s'.now)
            && ItemsOk(c, h, s.pipe.buf) && ItemsOk(c, h, s.pipe.channel) && TableOk(c, h, s.disk.table)
            && LoadingOk(c, h, s.loading, s.readAt, s'.now) && AnswersOk(c, h, s.past.answers)
  {
    hide Origin, EncKey, EncVal, KeyOf;
    var h, h' := s.past.accepted, s'.past.accepted;
    forall k, e, start | Comes(c, h, k, e, start) ensures Comes(c, h', k, e, start) {
    }
    forall x | Logged(c, h, x) ensures Logged(c, h', x) {
    }
    forall kb, vb | RowOk(c, h, kb, vb) ensures RowOk(c, h', kb, vb) {
      var x: Item :| Logged(c, h, x) && kb == EncKey(x.0) && vb == EncVal(x.1);
    }
    forall i | 0 <= i < |s.past.answers| ensures AnswerOk(c, h', s.past.answers[i]) {
      assert AnswerOk(c, h, s.past.answers[i]);
    }
  }

  // ---- the steps that move an entry ----

  lemma ResolveIsGenuine(c: Config, data: Bytes, attempts: seq<Attempt>, now: Millis)
    requires c.Valid() && KeyOf(c.decode, data).Some?
    requires Resolution(c.decode, c.limits, data, attempts, now).Some?
    ensures Genuine(c, Accept(data, Resolution(c.decode, c.limits, data, attempts, now).value, now))
  {
    hide KeyOf, Acceptable, TtlOf, Resolution, FirstReply, Helps;
    ResolutionMeans(c.decode, c.limits, data, attempts, now);
    FirstIsAcceptable(c, data, attempts, Resolution(c.decode, c.limits, data, attempts, now).value.wire);
  }

  lemma FirstIsAcceptable(c: Config, data: Bytes, attempts: seq<Attempt>, wire: Bytes)
    requires exists i :: FirstReply(c.decode, data, attempts, i, wire)
    ensures Acceptable(c.decode, data, wire)
  {
    hide Acceptable, Helps, Delivers;
  }

  lemma PublishedComes(
    c: Config, accepted: set<Accept>, k: CacheKey, a: Accept, start: Millis, now: Millis)
    requires c.Valid() && a in accepted && Genuine(c, a) && KeyOf(c.decode, a.query) == Some(k) && a.at <= now
    ensures Comes(c, accepted, k, Held(a.resp, a.at, now), start)
  {
    assert Origin(c, a, k, Held(a.resp, a.at, now), start);
  }

  lemma {:induction false} WrittenOk(c: Config, accepted: set<Accept>, t: Table, items: seq<Item>)
    requires TableOk(c, accepted, t) && ItemsOk(c, accepted, items)
    ensures TableOk(c, accepted, Written(t, items))
  {
    hide Logged, EncKey, EncVal;
    if items != [] {
      var n := |items| - 1;
      WrittenOk(c, accepted, t, items[..n]);
      assert items[n] in items;
    }
  }

  /**
   * A warm load: the bytes decode to the reply they were written from, and with a monotone clock the
   * 32-bit cast of the remaining lifetime loses nothing.
   */
  lemma LoadedComes(c: Config, accepted: set<Accept>, t: Table, order: seq<Bytes>, now: Millis, x: Item)
    requires c.Valid() && AcceptedOk(c, accepted, now) && TableOk(c, accepted, t)
    requires (forall kb | kb in order :: kb in t) && x in ReadRows(t, order, Seconds(now))
    ensures Comes(c, accepted, x.0, Held(x.1, now, now), now)
  {
    hide KeyOf, ReadRows, TtlOf, Acceptable, EncKey, EncVal, DecKey, DecVal;
    ReadRowsMember(t, order, Seconds(now), x);
    var kb :| kb in order && LiveRow(t, kb, Seconds(now)) == Some(x);
    assert RowOk(c, accepted, kb, t[kb]);
    var y: Item :| Logged(c, accepted, y) && kb == EncKey(y.0) && t[kb] == EncVal(y.1);
    KeyRoundTrip(y.0);
    ValRoundTrip(y.1);
    var a :| a in accepted && KeyOf(c.decode, a.query) == Some(y.0) && a.resp == y.1;
    assert Genuine(c, a);
    SmallMod(y.1.expires - Seconds(now));
    assert Origin(c, a, x.0, Held(x.1, now, now), now);
  }

  lemma SmallMod(n: nat)
    requires n < 0x1_0000_0000
    ensures n % 0x1_0000_0000 == n
  {
  }

  lemma StoredLater(c: Config, accepted: set<Accept>, k: CacheKey, v: CachedResponse, readAt: Millis, now: Millis)
    requires Comes(c, accepted, k, Held(v, readAt, readAt), readAt) && readAt <= now
    ensures Comes(c, accepted, k, Held(v, readAt, now), readAt)
  {
    var a :| a in accepted && Origin(c, a, k, Held(v, readAt, readAt), readAt);
    assert Origin(c, a, k, Held(v, readAt, now), readAt);
  }

  // ---- every step keeps every part ----

  ghost predicate CanStep(c: Config, s: State, a: Action) {
    c.Valid() && FlightInv(c, s) && SourceInv(c, s) && Enabled(c, s, a)
  }

  lemma KeepsAccepted(c: Config, s: State, a: Action)
    requires CanStep(c, s, a)
    ensures AcceptedOk(c, Apply(c, s, a).past.accepted, Apply(c, s, a).now)
  {
    hide Genuine, KeyOf, TaskKey, Resolution, NetOk, ReadRows, Enabled, Apply;
    Untouched(c, s, a);
    if a.Resolve? {
      ResolveAccepts(c, s, a.t, a.attempts);
    }
  }

  lemma ResolveAccepts(c: Config, s: State, t: TaskId, attempts: seq<Attempt>)
    requires CanStep(c, s, Action.Resolve(t, attempts))
    ensures AcceptedOk(c, Apply(c, s, Action.Resolve(t, attempts)).past.accepted, s.now)
  {
    hide Genuine, KeyOf, TaskKey, Resolution, NetOk;
    Keyed(c, s.net, t);
    var data := s.net.tasks[t].data;
    if Resolution(c.decode, c.limits, data, attempts, s.now).Some? {
      ResolveIsGenuine(c, data, attempts, s.now);
    }
  }

  lemma KeepsRam(c: Config, s: State, a: Action)
    requires CanStep(c, s, a)
    ensures RamOk(c, Apply(c, s, a).past.accepted, Apply(c, s, a).ram, Apply(c, s, a).readAt, Apply(c, s, a).now)
  {
    hide Comes, KeyOf, TaskKey, Resolution, NetOk, ReadRows, Enabled, Apply;
    Untouched(c, s, a);
    MoreReplies(c, s, Apply(c, s, a));
    if TouchesRam(a) {
      RamStep(c, s, a);
    } else if a.Restart? {
      RestartFindsNothing(c, s, a);
    }
  }

  lemma RestartFindsNothing(c: Config, s: State, a: Action)
    requires CanStep(c, s, a) && a.Restart?
    ensures s.ram == map[]
  {
    hide NetOk, SourceInv, KeyOrdered;
  }

  lemma RamStep(c: Config, s: State, a: Action)
    requires CanStep(c, s, a) && TouchesRam(a)
    ensures RamOk(c, Apply(c, s, a).past.accepted, Apply(c, s, a).ram, Apply(c, s, a).readAt, Apply(c, s, a).now)
  {
    hide Comes, KeyOf, TaskKey, Genuine, NetOk, Live, PendingOk, LandedOk, TableOk, AnswersOk, ItemsOk, AcceptedOk;
    match a {
      case Publish(t) =>
        Keyed(c, s.net, t);
        PublishComes(c, s, t);
      case LoadOne =>
        var (k, v) := s.loading[0];
        StoredLater(c, s.past.accepted, k, v, s.readAt, s.now);
      case _ =>
    }
  }

  lemma PublishComes(c: Config, s: State, t: TaskId)
    requires CanStep(c, s, Publish(t))
    ensures var p := PhaseOf(s, t);
            Comes(c, s.past.accepted, TaskKey(c, s.net.tasks[t].data), Held(p.resp, p.at, s.now), s.readAt)
  {
    hide KeyOf, TaskKey, Genuine, Comes;
    Keyed(c, s.net, t);
    var p := PhaseOf(s, t);
    assert PendingTaskOk(s.past.accepted, s.net.tasks[t]);
    var a := Accept(s.net.tasks[t].data, p.resp, p.at);
    assert Genuine(c, a);
    PublishedComes(c, s.past.accepted, TaskKey(c, a.query), a, s.readAt, s.now);
  }

  lemma KeepsPending(c: Config, s: State, a: Action)
    requires CanStep(c, s, a)
    ensures PendingOk(Apply(c, s, a).past.accepted, Apply(c, s, a).net)
  {
    hide KeyOf, TaskKey, Resolution, NetOk, ReadRows, Enabled, Apply, PendingTaskOk;
    Untouched(c, s, a);
    MoreReplies(c, s, Apply(c, s, a));
    if Arrives(a) {
      PendingArrives(c, s, a);
    } else if Probes(a) {
      PendingProbes(c, s, a);
    } else if Fetches(a) {
      PendingFetches(c, s, a);
    } else if Completes(a) {
      PendingCompletes(c, s, a);
    } else if a.Crash? || a.Restart? {
      NothingPending(c, s, a);
    }
  }

  lemma PendingArrives(c: Config, s: State, a: Action)
    requires CanStep(c, s, a) && Arrives(a)
    ensures PendingOk(Apply(c, s, a).past.accepted, Apply(c, s, a).net)
  {
    hide KeyOf, TaskKey, NetOk, Blocks, Live, RamOk,
      LandedOk, TableOk, AnswersOk, ItemsOk, LoadingOk, AcceptedOk;
  }

  lemma PendingProbes(c: Config, s: State, a: Action)
    requires CanStep(c, s, a) && Probes(a)
    ensures PendingOk(Apply(c, s, a).past.accepted, Apply(c, s, a).net)
  {
    hide KeyOf, TaskKey, NetOk, Blocks, Live, RamOk, DoCheck, DoLookup, DoEnter,
      LandedOk, TableOk, AnswersOk, ItemsOk, LoadingOk, AcceptedOk, PendingOk;
    match a {
      case CheckList(t) => PendingCheck(c, s, t);
      case Lookup(t) => PendingLookup(c, s, t);
      case Enter(t) => PendingEnter(c, s, t);
    }
  }

  lemma PendingCheck(c: Config, s: State, t: TaskId)
    requires PendingOk(s.past.accepted, s.net) && In(s, t)
    ensures PendingOk(DoCheck(c, s, t).past.accepted, DoCheck(c, s, t).net)
  {
    hide TaskKey, Blocks;
  }

  lemma PendingLookup(c: Config, s: State, t: TaskId)
    requires PendingOk(s.past.accepted, s.net) && In(s, t)
    ensures PendingOk(DoLookup(c, s, t).past.accepted, DoLookup(c, s, t).net)
  {
    hide TaskKey, Live;
  }

  lemma PendingEnter(c: Config, s: State, t: TaskId)
    requires PendingOk(s.past.accepted, s.net) && In(s, t)
    ensures PendingOk(DoEnter(c, s, t).past.accepted, DoEnter(c, s, t).net)
  {
    hide TaskKey, Live;
  }

  lemma PendingFetches(c: Config, s: State, a: Action)
    requires CanStep(c, s, a) && Fetches(a)
    ensures PendingOk(Apply(c, s, a).past.accepted, Apply(c, s, a).net)
  {
    hide KeyOf, TaskKey, NetOk, Blocks, Live, RamOk,
      LandedOk, TableOk, AnswersOk, ItemsOk, LoadingOk, AcceptedOk, WriteBehind.Offer, Resolution;
  }

  lemma PendingCompletes(c: Config, s: State, a: Action)
    requires CanStep(c, s, a) && Completes(a)
    ensures PendingOk(Apply(c, s, a).past.accepted, Apply(c, s, a).net)
  {
    hide KeyOf, TaskKey, NetOk, Blocks, Live, RamOk,
      LandedOk, TableOk, AnswersOk, ItemsOk, LoadingOk, AcceptedOk, WriteBehind.Offer, Resolution;
  }

  lemma NothingPending(c: Config, s: State, a: Action)
    requires c.Valid() && Enabled(c, s, a) && (a.Crash? || a.Restart?)
    ensures PendingOk(Apply(c, s, a).past.accepted, Apply(c, s, a).net)
    ensures LandedOk(c, Apply(c, s, a).past.accepted, Apply(c, s, a).net, Apply(c, s, a).readAt, s.now)
  {
    hide ReadRows, KeyOrdered, BlocklistFile.Loaded;
  }

  lemma KeepsLanded(c: Config, s: State, a: Action)
    requires CanStep(c, s, a)
    ensures LandedOk(c, Apply(c, s, a).past.accepted, Apply(c, s, a).net, Apply(c, s, a).readAt, Apply(c, s, a).now)
  {
    hide KeyOf, TaskKey, Resolution, NetOk, ReadRows, Enabled, Apply, Comes;
    Untouched(c, s, a);
    MoreReplies(c, s, Apply(c, s, a));
    if Arrives(a) {
      LandedArrives(c, s, a);
    } else if Probes(a) {
      LandedProbes(c, s, a);
    } else if Fetches(a) {
      LandedFetches(c, s, a);
    } else if Completes(a) {
      LandedCompletes(c, s, a);
    } else if a.Crash? || a.Restart? {
      NothingPending(c, s, a);
    }
  }

  lemma LandedArrives(c: Config, s: State, a: Action)
    requires CanStep(c, s, a) && Arrives(a)
    ensures LandedOk(c, Apply(c, s, a).past.accepted, Apply(c, s, a).net, Apply(c, s, a).readAt, Apply(c, s, a).now)
  {
    hide KeyOf, TaskKey, NetOk, Blocks, Live, Comes, RamOk,
      PendingOk, TableOk, AnswersOk, ItemsOk, LoadingOk, AcceptedOk;
  }

  lemma LandedProbes(c: Config, s: State, a: Action)
    requires CanStep(c, s, a) && Probes(a)
    ensures LandedOk(c, Apply(c, s, a).past.accepted, Apply(c, s, a).net, Apply(c, s, a).readAt, Apply(c, s, a).now)
  {
    hide KeyOf, TaskKey, NetOk, Blocks, Live, RamOk, DoCheck, DoLookup, DoEnter,
      PendingOk, TableOk, AnswersOk, ItemsOk, LoadingOk, AcceptedOk, LandedOk;
    match a {
      case CheckList(t) =>
        ProbesKeepFlights(c, s, t);
        LandedSame(c, s, DoCheck(c, s, t));
      case Lookup(t) =>
        ProbesKeepFlights(c, s, t);
        LandedSame(c, s, DoLookup(c, s, t));
      case Enter(t) => LandedEnter(c, s, t);
    }
  }

  lemma ProbesKeepFlights(c: Config, s: State, t: TaskId)
    requires In(s, t)
    ensures forall s' | s' == DoCheck(c, s, t) || s' == DoLookup(c, s, t) ::
              && s'.net.flights == s.net.flights && s'.past.accepted == s.past.accepted
              && s'.readAt == s.readAt && s'.now == s.now
  {
    hide TaskKey, Live, Blocks;
  }

  lemma LandedSame(c: Config, s: State, s': State)
    requires LandedOk(c, s.past.accepted, s.net, s.readAt, s.now) && s'.net.flights == s.net.flights
    requires s'.past.accepted == s.past.accepted && s'.readAt == s.readAt && s'.now == s.now
    ensures LandedOk(c, s'.past.accepted, s'.net, s'.readAt, s'.now)
  {
    hide Comes;
  }

  lemma LandedEnter(c: Config, s: State, t: TaskId)
    requires LandedOk(c, s.past.accepted, s.net, s.readAt, s.now) && In(s, t)
    ensures var s' := DoEnter(c, s, t);
            LandedOk(c, s'.past.accepted, s'.net, s'.readAt, s'.now)
  {
    hide Comes, TaskKey, Live;
  }

  lemma LandedFetches(c: Config, s: State, a: Action)
    requires CanStep(c, s, a) && Fetches(a)
    ensures LandedOk(c, Apply(c, s, a).past.accepted, Apply(c, s, a).net, Apply(c, s, a).readAt, Apply(c, s, a).now)
  {
    hide KeyOf, TaskKey, NetOk, Blocks, Live, Comes, RamOk,
      PendingOk, TableOk, AnswersOk, ItemsOk, LoadingOk, AcceptedOk, WriteBehind.Offer, Resolution;
    Untouched(c, s, a);
    MoreReplies(c, s, Apply(c, s, a));
  }

  lemma LandedCompletes(c: Config, s: State, a: Action)
    requires CanStep(c, s, a) && Completes(a)
    ensures LandedOk(c, Apply(c, s, a).past.accepted, Apply(c, s, a).net, Apply(c, s, a).readAt, Apply(c, s, a).now)
  {
    hide KeyOf, TaskKey, NetOk, Blocks, Live, Comes, RamOk,
      PendingOk, TableOk, AnswersOk, ItemsOk, LoadingOk, AcceptedOk, WriteBehind.Offer, Resolution;
    if a.Publish? {
      PublishComes(c, s, a.t);
    }
  }

  lemma KeepsPipe(c: Config, s: State, a: Action)
    requires CanStep(c, s, a)
    ensures var s' := Apply(c, s, a);
            ItemsOk(c, s'.past.accepted, s'.pipe.buf) && ItemsOk(c, s'.past.accepted, s'.pipe.channel)
  {
    hide KeyOf, TaskKey, Resolution, NetOk, ReadRows, Enabled, Apply, Logged;
    Untouched(c, s, a);
    MoreReplies(c, s, Apply(c, s, a));
    if TouchesPipe(a) {
      PipeStep(c, s, a);
    }
  }

  lemma PipeStep(c: Config, s: State, a: Action)
    requires CanStep(c, s, a) && TouchesPipe(a)
    ensures var s' := Apply(c, s, a);
            ItemsOk(c, s'.past.accepted, s'.pipe.buf) && ItemsOk(c, s'.past.accepted, s'.pipe.channel)
  {
    hide KeyOf, TaskKey, NetOk, Written, Genuine, RamOk, LandedOk, TableOk, AnswersOk, LoadingOk;
    match a {
      case OfferPersist(t) =>
        Keyed(c, s.net, t);
        assert PendingTaskOk(s.past.accepted, s.net.tasks[t]);
        assert Logged(c, s.past.accepted, (TaskKey(c, s.net.tasks[t].data), PhaseOf(s, t).resp));
      case _ =>
    }
  }

  lemma KeepsTable(c: Config, s: State, a: Action)
    requires CanStep(c, s, a)
    ensures TableOk(c, Apply(c, s, a).past.accepted, Apply(c, s, a).disk.table)
  {
    hide KeyOf, TaskKey, Resolution, NetOk, ReadRows, Enabled, Apply, RowOk;
    Untouched(c, s, a);
    MoreReplies(c, s, Apply(c, s, a));
    if a.WriterFlush? || a.PurgeDelete? {
      TableStep(c, s, a);
    }
  }

  lemma TableStep(c: Config, s: State, a: Action)
    requires CanStep(c, s, a) && (a.WriterFlush? || a.PurgeDelete?)
    ensures TableOk(c, Apply(c, s, a).past.accepted, Apply(c, s, a).disk.table)
  {
    hide NetOk, RowOk, Written, WriteBehind.Flush, Logged;
    WrittenOk(c, s.past.accepted, s.disk.table, s.pipe.buf);
  }

  lemma KeepsLoading(c: Config, s: State, a: Action)
    requires CanStep(c, s, a)
    ensures var s' := Apply(c, s, a);
            LoadingOk(c, s'.past.accepted, s'.loading, s'.readAt, s'.now)
  {
    hide KeyOf, TaskKey, Resolution, NetOk, ReadRows, Enabled, Apply, Comes;
    Untouched(c, s, a);
    MoreReplies(c, s, Apply(c, s, a));
    if a.Restart? || a.LoadOne? || a.Crash? {
      LoadingStep(c, s, a);
    }
  }

  lemma LoadingStep(c: Config, s: State, a: Action)
    requires CanStep(c, s, a) && (a.Restart? || a.LoadOne? || a.Crash?)
    ensures var s' := Apply(c, s, a);
            LoadingOk(c, s'.past.accepted, s'.loading, s'.readAt, s'.now)
  {
    hide NetOk, Comes, ReadRows, BlocklistFile.Loaded, RowOk, Genuine;
    if a.Restart? {
      var rows := ReadRows(s.disk.table, a.order, Seconds(s.now));
      forall x | x in rows ensures Comes(c, s.past.accepted, x.0, Held(x.1, s.now, s.now), s.now) {
        LoadedComes(c, s.past.accepted, s.disk.table, a.order, s.now, x);
      }
    }
  }

  lemma KeepsAnswers(c: Config, s: State, a: Action)
    requires CanStep(c, s, a)
    ensures AnswersOk(c, Apply(c, s, a).past.accepted, Apply(c, s, a).past.answers)
  {
    hide KeyOf, TaskKey, Resolution, NetOk, ReadRows, Enabled, Apply, AnswerOk;
    Untouched(c, s, a);
    MoreReplies(c, s, Apply(c, s, a));
    if Answers(a) {
      AnswerStep(c, s, a);
    }
  }

  lemma AnswerStep(c: Config, s: State, a: Action)
    requires CanStep(c, s, a) && Answers(a)
    ensures AnswersOk(c, Apply(c, s, a).past.accepted, Apply(c, s, a).past.answers)
  {
    hide KeyOf, TaskKey, NetOk, Blocks, Comes, PendingOk, TableOk, ItemsOk, LoadingOk, AcceptedOk;
    match a {
      case CheckList(t) => Keyed(c, s.net, t);
      case Lookup(t) => Keyed(c, s.net, t);
      case Enter(t) => Keyed(c, s.net, t);
      case Wake(t) => Keyed(c, s.net, t);
    }
  }

  lemma StepKeepsSource(c: Config, s: State, a: Action)
    requires CanStep(c, s, a)
    ensures SourceInv(c, Apply(c, s, a))
  {
    hide Enabled, Apply, AcceptedOk, RamOk, PendingOk, LandedOk, ItemsOk, TableOk, LoadingOk, AnswersOk;
    KeepsAccepted(c, s, a);
    KeepsRam(c, s, a);
    KeepsPending(c, s, a);
    KeepsLanded(c, s, a);
    KeepsPipe(c, s, a);
    KeepsTable(c, s, a);
    KeepsLoading(c, s, a);
    KeepsAnswers(c, s, a);
  }
}
