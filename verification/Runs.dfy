/** The guarantees of every run: any interleaving, any number of crashes and restarts. */
module Runs {
  import opened Names
  import opened Wire
  import opened Upstream
  import opened Store
  import opened Blocklist
  import BlocklistFile
  import WriteBehind
  import opened Resolver
  import SingleFlight
  import Provenance
  import Durability
  import Edits
  import Framing
  import Accounting
  import Precedence

  ghost predicate Invariant(c: Config, s: State)
    requires c.Valid()
  {
    && SingleFlight.FlightInv(c, s) && SingleFlight.EventInv(s)
    && Provenance.SourceInv(c, s)
    && Durability.DurableInv(s) && Durability.PurgeInv(s)
    && Accounting.AccountInv(c, s)
    && Precedence.ListInv(c, s) && Precedence.FileInv(s) && Edits.EditInv(s)
  }

  lemma InitOk(c: Config, now: Millis, text: string)
    requires c.Valid()
    ensures Invariant(c, Init(c, now, text, BlocklistFile.Loaded(text)))
  {
    hide BlocklistFile.Loaded, BlocklistFile.Clean, Blocks;
    Durability.EmptyPipe();
    var s := Init(c, now, text, BlocklistFile.Loaded(text));
    Accounting.NoTasks(s.net);
    SingleFlight.IdleOk(c, 0);
  }

  lemma InitIntact(c: Config, now: Millis, text: string)
    requires c.Valid()
    ensures Durability.NothingLiveLost(Init(c, now, text, BlocklistFile.Loaded(text)))
    ensures Durability.StartIntact(Init(c, now, text, BlocklistFile.Loaded(text)))
  {
    hide BlocklistFile.Loaded;
    assert View(map[]) == map[];
  }

  lemma StepKeepsInvariant(c: Config, s: State, a: Action)
    requires c.Valid() && Invariant(c, s) && Enabled(c, s, a)
    ensures Invariant(c, Apply(c, s, a))
  {
    hide Enabled, Apply, SingleFlight.FlightInv, SingleFlight.EventInv, Provenance.SourceInv, Durability.DurableInv,
      Durability.PurgeInv, Accounting.AccountInv, Precedence.ListInv, Precedence.FileInv,
      Edits.EditInv;
    SingleFlight.StepKeepsFlights(c, s, a);
    SingleFlight.StepKeepsEvents(c, s, a);
    Provenance.StepKeepsSource(c, s, a);
    Durability.StepKeepsDurable(c, s, a);
    Durability.StepKeepsPurge(c, s, a);
    Accounting.StepKeepsAccounts(c, s, a);
    Precedence.StepKeepsLists(c, s, a);
    Precedence.StepKeepsFile(c, s, a);
    Edits.StepKeepsEdits(c, s, a);
  }

  /** Every state of every run satisfies every invariant. */
  lemma {:induction false} RunKeepsInvariant(c: Config, start: State, run: seq<Action>)
    requires c.Valid() && Invariant(c, start)
    ensures match Exec(c, start, run) case Some(s) => Invariant(c, s) case None => true
  {
    hide Invariant, Enabled, Apply;
    if run != [] {
      var n := |run| - 1;
      RunKeepsInvariant(c, start, run[..n]);
      var before := Exec(c, start, run[..n]);
      if before.Some? && Enabled(c, before.value, run[n]) {
        StepKeepsInvariant(c, before.value, run[n]);
      }
    }
  }

  lemma ReachableOk(c: Config, s: State)
    requires c.Valid() && Reachable(c, s)
    ensures Invariant(c, s)
  {
    hide Invariant, Exec, Init, BlocklistFile.Loaded;
    var now: Millis, text: string, saved: Lists, run: seq<Action> :|
      saved == BlocklistFile.Loaded(text) && Exec(c, Init(c, now, text, saved), run) == Some(s);
    InitOk(c, now, text);
    RunKeepsInvariant(c, Init(c, now, text, saved), run);
  }

  // ---- what is served ----

  /** The bytes sent for an answer that carries a cached message. */
  function Sent(c: Config, a: Answer, h: Held): Bytes
    requires Parse(c.decode, a.data).Some?
  {
    Patched(h.resp.wire, Parse(c.decode, a.data).value.id)
  }

  function Carried(v: Verdict): Option<Held> {
    match v
    case Hit(h) => Some(h)
    case Found(h) => Some(h)
    case Flown(h) => Some(h)
    case _ => None
  }

  /**
   * `bytes`, sent at `at` to the client that sent `data`: the client's two id bytes, then all the rest of
   * one validated upstream reply. The client decodes a response to its own id and, by name and
   * type, its own question.
   */
  ghost predicate FaithfulAnswer(c: Config, accepted: set<Accept>, data: Bytes, bytes: Bytes, at: Millis)
    requires c.Valid()
  {
    && (exists r | r in accepted ::
          && Provenance.Genuine(c, r) && r.at <= at
          && KeyOf(c.decode, r.query) == KeyOf(c.decode, data)
          && |r.resp.wire| >= 2 && |data| >= 2 && bytes == data[..2] + r.resp.wire[2..])
    && var m, q := Parse(c.decode, bytes), Parse(c.decode, data);
       && m.Some? && q.Some? && m.value.id == q.value.id && m.value.body.isResponse
       && m.value.body.questions != [] && q.value.body.questions != []
       && SameName(m.value.body.questions[0].name, q.value.body.questions[0].name)
       && m.value.body.questions[0].qtype == q.value.body.questions[0].qtype
  }

  /** Every answer taken from RAM, disk or upstream is faithful, and survives TCP framing byte for byte. */
  lemma AnswersAreUpstreamReplies(c: Config, s: State, i: nat)
    requires c.Valid() && Reachable(c, s) && i < |s.past.answers|
    requires Carried(s.past.answers[i].verdict).Some?
    ensures var a := s.past.answers[i];
            var h := Carried(a.verdict).value;
            && Parse(c.decode, a.data).Some?
            && FaithfulAnswer(c, s.past.accepted, a.data, Sent(c, a, h), a.at)
            && Framing.ReadAll(Framing.Frame(Sent(c, a, h))) == [Sent(c, a, h)]
  {
    hide Reachable, SameName, NameOf, Patched, Framing.ReadAll, Framing.Frame;
    ReachableOk(c, s);
    var a := s.past.answers[i];
    var h := Carried(a.verdict).value;
    assert Provenance.AnswerOk(c, s.past.accepted, a);
    var k := KeyOf(c.decode, a.data).value;
    assert Provenance.Comes(c, s.past.accepted, k, h, a.started);
    var r :| r in s.past.accepted && Provenance.Origin(c, r, k, h, a.started);
    assert Provenance.Genuine(c, r);
    PatchedAnswersClient(c.decode, r.query, r.resp.wire, a.data);
    PatchedBytes(c.decode, r.resp.wire, a.data);
    Framing.FrameSurvivesIff(Sent(c, a, h));
  }

  /** Every RAM entry and every disk row is a validated reply to a query with that very key. */
  lemma StoredIsGenuine(c: Config, s: State)
    requires c.Valid() && Reachable(c, s)
    ensures forall k | k in s.ram ::
              exists r | r in s.past.accepted ::
                Provenance.Genuine(c, r) && Provenance.Origin(c, r, k, s.ram[k], s.readAt)
    ensures forall kb | kb in s.disk.table ::
              exists r | r in s.past.accepted ::
                && Provenance.Genuine(c, r)
                && Row(s.disk.table, kb) == Some((KeyOf(c.decode, r.query).value, r.resp))
  {
    hide Reachable, Provenance.Genuine, Provenance.Origin, EncKey, EncVal, DecKey, DecVal, KeyOf;
    ReachableOk(c, s);
    forall k | k in s.ram
      ensures exists r | r in s.past.accepted ::
                Provenance.Genuine(c, r) && Provenance.Origin(c, r, k, s.ram[k], s.readAt)
    {
      assert Provenance.Comes(c, s.past.accepted, k, s.ram[k], s.readAt);
    }
    forall kb | kb in s.disk.table
      ensures exists r | r in s.past.accepted ::
                && Provenance.Genuine(c, r)
                && KeyOf(c.decode, r.query).Some?
                && Row(s.disk.table, kb) == Some((KeyOf(c.decode, r.query).value, r.resp))
    {
      assert Provenance.RowOk(c, s.past.accepted, kb, s.disk.table[kb]);
      var x: Item :| Provenance.Logged(c, s.past.accepted, x) && kb == EncKey(x.0) && s.disk.table[kb] == EncVal(x.1);
      KeyRoundTrip(x.0);
      ValRoundTrip(x.1);
    }
  }

  // ---- how old it may be ----

  /** Time between reading the clock an entry's lifetime counts from and inserting the entry. */
  function Drift(h: Held): int { h.storedAt - h.readAt }

  /**
   * An answer from RAM comes from one genuine reply under its key, and its entry counts from a known moment.
   * Either that is the reply's own acceptance, and the answer is given before acceptance plus max(TTL, 1)
   * plus the insert drift; or it is the clock reading of the start of the answering process, and the answer
   * is given before the stored expiry second plus the sub-second part of that reading plus the drift. So
   * restarts do not add up.
   */
  lemma RamAnswersAreFresh(c: Config, s: State, i: nat)
    requires c.Valid() && Reachable(c, s) && i < |s.past.answers|
    requires s.past.answers[i].verdict.Hit? || s.past.answers[i].verdict.Found?
    ensures var a := s.past.answers[i];
            var h := a.verdict.held;
            exists r | r in s.past.accepted ::
              && Provenance.Genuine(c, r)
              && KeyOf(c.decode, r.query) == KeyOf(c.decode, a.data) && h.resp.wire == r.resp.wire
              && h.resp.expires == r.resp.expires && h.resp.ttl <= r.resp.ttl
              && r.at <= h.readAt <= h.storedAt <= a.at
              && (FromAcceptance(r, h, a.at) || FromStart(r, h, a.started, a.at))
  {
    hide Reachable, KeyOf, Seconds, Deadline, FromAcceptance, FromStart, Provenance.Genuine;
    ReachableOk(c, s);
    var a := s.past.answers[i];
    var h := a.verdict.held;
    assert Provenance.AnswerOk(c, s.past.accepted, a);
    var k := KeyOf(c.decode, a.data).value;
    assert Provenance.Comes(c, s.past.accepted, k, h, a.started);
    var r :| r in s.past.accepted && Provenance.Origin(c, r, k, h, a.started);
    FreshSince(c, r, k, h, a.started, a.at);
  }

  /** The entry is the reply as accepted, used before its lifetime from that moment, as inserted, is over. */
  predicate FromAcceptance(r: Accept, h: Held, at: Millis) {
    h.readAt == r.at && h.resp == r.resp && at < r.at + 1000 * Max(r.resp.ttl, 1) + Drift(h)
  }

  /** A start that read the clock at `start` loaded the entry, and it is used before its stored expiry, give or take. */
  predicate FromStart(r: Accept, h: Held, start: Millis, at: Millis) {
    && h.readAt == start && Seconds(start) < r.resp.expires
    && at < 1000 * r.resp.expires + start % 1000 + Drift(h)
  }

  lemma FreshSince(c: Config, r: Accept, k: CacheKey, h: Held, start: Millis, at: Millis)
    requires c.Valid() && Provenance.Genuine(c, r) && Provenance.Origin(c, r, k, h, start) && at < Deadline(h)
    ensures FromAcceptance(r, h, at) || FromStart(r, h, start, at)
    ensures h.resp.ttl <= r.resp.ttl
  {
    hide KeyOf, Acceptable, TtlOf;
    DeadlineIs(h);
  }

  lemma DeadlineIs(h: Held)
    requires Seconds(h.readAt) + h.resp.ttl == h.resp.expires
    ensures Deadline(h) == 1000 * Max(h.resp.expires, Seconds(h.readAt) + 1) + h.readAt % 1000 + Drift(h)
  {
  }

  /** On a clock that only shows whole seconds, and with inserts taking no time, nothing outlives its stored expiry. */
  lemma WholeSecondsAreExact(h: Held)
    requires Seconds(h.readAt) + h.resp.ttl == h.resp.expires && h.resp.ttl >= 1
    requires h.readAt % 1000 == 0 && Drift(h) == 0
    ensures Deadline(h) == 1000 * h.resp.expires
  {
  }

  /** The entry a restart at `readAt` makes of a reply that is still valid then. */
  function Reloaded(r: Accept, readAt: Millis, storedAt: Millis): Held
    requires Seconds(readAt) < r.resp.expires
  {
    Held(Remaining(r.resp, Seconds(readAt)), readAt, storedAt)
  }

  /**
   * A restart lengthens an entry's lifetime in RAM exactly when the sub-second part of its clock
   * reading, plus its insert drift, exceeds that of the original.
   */
  lemma RestartLengthensIff(r: Accept, stored: Millis, readAt: Millis, storedAgain: Millis)
    requires r.resp.expires == Seconds(r.at) + r.resp.ttl
    requires r.at <= stored && r.at <= readAt <= storedAgain && Seconds(readAt) < r.resp.expires
    ensures var original, again := Held(r.resp, r.at, stored), Reloaded(r, readAt, storedAgain);
            Deadline(again) > Deadline(original) <==>
            readAt % 1000 + Drift(again) > r.at % 1000 + Drift(original)
  {
    var original, again := Held(r.resp, r.at, stored), Reloaded(r, readAt, storedAgain);
    Provenance.SmallMod(r.resp.expires - Seconds(readAt));
    DeadlineIs(original);
    DeadlineIs(again);
  }

  // ---- single flight ----

  /** At most one resolution per key, and between two starts for a key a failure, a removal or a crash. */
  lemma SingleFlightHolds(c: Config, s: State)
    requires c.Valid() && Reachable(c, s)
    ensures forall t, u | In(s, t) && In(s, u) && t != u
              && SingleFlight.InFlight(PhaseOf(s, t)) && SingleFlight.InFlight(PhaseOf(s, u)) ::
              KeyOf(c.decode, s.net.tasks[t].data) != KeyOf(c.decode, s.net.tasks[u].data)
    ensures SingleFlight.Separated(s.past.events)
  {
    hide Reachable, KeyOf, SingleFlight.Separated;
    ReachableOk(c, s);
    forall t, u | In(s, t) && In(s, u) && t != u
      && SingleFlight.InFlight(PhaseOf(s, t)) && SingleFlight.InFlight(PhaseOf(s, u))
      ensures KeyOf(c.decode, s.net.tasks[t].data) != KeyOf(c.decode, s.net.tasks[u].data)
    {
      if KeyOf(c.decode, s.net.tasks[t].data) == KeyOf(c.decode, s.net.tasks[u].data) {
        SingleFlight.OneFlightPerKey(c, s, t, u);
      }
    }
  }

  // ---- permits and counters ----

  lemma LoadIsBounded(c: Config, s: State)
    requires c.Valid() && Reachable(c, s)
    ensures s.net.freeTasks + |s.net.tasks| == Max(1, c.maxInflight)
    ensures s.net.freeResolves + |Accounting.ResolvingTasks(s.net)| == Max(1, c.maxConcurrent)
    ensures |Accounting.ResolvingTasks(s.net)| <=
            Min(Min(Max(1, c.maxInflight), Max(1, c.maxConcurrent)), |s.net.waiters|)
  {
    hide Reachable, Accounting.ResolvingTasks;
    ReachableOk(c, s);
    Accounting.ConcurrencyBounds(c, s);
  }

  lemma EveryQueryIsCounted(c: Config, s: State)
    requires c.Valid() && Reachable(c, s) && s.up
    ensures s.stats.queries == s.stats.blocked + s.stats.cacheHits + s.stats.forwarded + s.stats.upstreamErrors
                               + |Accounting.UndecidedTasks(s.net)|
    ensures s.tally.received == s.stats.dropped + s.tally.admitted
    ensures s.tally.resolved == s.tally.kept + s.tally.lost + |Accounting.UnofferedTasks(s.net)|
    ensures s.tally.kept == |s.pipe.offered|
    ensures s.tally.resolved <= s.stats.forwarded + |Accounting.SuccessfulLeaders(s.net)|
  {
    hide Reachable, Accounting.UndecidedTasks, Accounting.UnofferedTasks, Accounting.SuccessfulLeaders;
    ReachableOk(c, s);
  }

  // ---- the blocklist ----

  /**
   * The list in force at a query's check decides: if it blocks the name the answer is the sinkhole, whatever
   * RAM and disk hold, and otherwise it is not; and no query whose name it blocks gets past the check, so
   * none reads the cache, resolves or offers anything to the disk.
   */
  lemma LiveBlocklistWins(c: Config, s: State)
    requires c.Valid() && Reachable(c, s)
    ensures forall i | 0 <= i < |s.past.answers| ::
              var a := s.past.answers[i];
              && a.admitted <= a.checked <= |s.past.lists|
              && (a.verdict == Sinkhole <==> Precedence.BlockedAt(c, s.past.lists, a.checked, a.data))
    ensures forall t | In(s, t) && Precedence.PastCheck(PhaseOf(s, t)) ::
              var task := s.net.tasks[t];
              && task.admitted <= task.checked <= |s.past.lists|
              && !Precedence.BlockedAt(c, s.past.lists, task.checked, task.data)
  {
    hide Reachable, Precedence.BlockedAt;
    ReachableOk(c, s);
    Precedence.CheckedListDecides(c, s);
  }

  /**
   * With no edit pending, the list in force is the one saved last if and only if the edit published last
   * stands for the same list as the edit saved last; before anything is published, if and only if nothing was
   * ever saved or the list saved last is clean. In particular it is whenever no edit was saved while
   * another one was pending and one was published since the start.
   */
  lemma EditsAgreeIff(c: Config, s: State)
    requires c.Valid() && Reachable(c, s) && s.up && s.files.edits == map[]
    ensures s.lists == s.files.saved <==> Edits.Agree(s.past.edits)
    ensures Edits.LastChange(s.past.edits).Some?
    ensures Edits.Serial(s.past.edits) && Edits.LastChange(s.past.edits).value.Published? ==>
              s.lists == s.files.saved
  {
    hide Reachable, Edits.Agree, Edits.Serial, Edits.LastChange;
    ReachableOk(c, s);
    Edits.AgreeIff(s);
    if Edits.Serial(s.past.edits) && Edits.LastChange(s.past.edits).value.Published? {
      Edits.SerialEditsAgree(s);
    }
  }

  // ---- durability ----

  /** In every reachable state: conservation of accepted items, and rows equal to the last commit. */
  lemma DiskHoldsLastCommits(c: Config, s: State, k: CacheKey)
    requires c.Valid() && Reachable(c, s)
    ensures WriteBehind.Conserved(s.pipe)
    ensures s.disk.base <= |s.disk.log|
    ensures s.up ==> Durability.Commits(s.disk.log[s.disk.base..]) == WriteBehind.Kept(s.pipe.batches)
    ensures EncKey(k) in s.disk.table ==>
              var last := LastFor(Durability.Commits(s.disk.log), k);
              last.Some? && s.disk.table[EncKey(k)] == EncVal(last.value)
    ensures LastFor(Durability.Commits(s.disk.log), k).Some? && EncKey(k) !in s.disk.table ==>
              Durability.Purged(s.disk.log, k)
  {
    hide Reachable, EncKey, EncVal, LastFor, Durability.Commits, Durability.Purged, Durability.Replay;
    ReachableOk(c, s);
    Durability.RowIsLastCommitted(s.disk.log, k);
  }

  /**
   * Byte for byte, in a life of the process in which no flush failed and no purge deleted anything: a crash
   * leaves the rows found at start-up overwritten by a prefix of the accepted items, all but those still
   * buffered or queued. What readers see is covered by `CrashKeepsPrefixForReaders`, purges included.
   */
  lemma CrashKeepsAcceptedPrefix(c: Config, s: State)
    requires c.Valid() && Reachable(c, s) && s.up
    requires forall b | b in s.pipe.batches :: b.ok
    requires forall i | s.disk.base <= i < |s.disk.log| :: s.disk.log[i].Commit?
    ensures var kept := |s.pipe.offered| - |s.pipe.buf| - |s.pipe.channel|;
            && 0 <= kept && s.disk.base <= |s.disk.log|
            && s.pipe.offered[kept..] == s.pipe.buf + s.pipe.channel
            && DoCrash(c, s).disk.table ==
               Written(Durability.Replay(s.disk.log[..s.disk.base]), s.pipe.offered[..kept])
  {
    hide Reachable, Written, Durability.Replay, Durability.Commits, Invariant, Durability.DurableInv;
    ReachableOk(c, s);
    DurableParts(c, s);
    Durability.CrashKeepsPrefix(s);
  }

  /**
   * A crash in a clean run, purges included: for every reader from then on the disk is what the process
   * found at its start, overwritten by its committed batches in order. If no flush of this life failed, those
   * are a prefix of the accepted items: all but the ones still buffered or queued.
   */
  lemma CrashKeepsPrefixForReaders(c: Config, now: Millis, text: string, run: seq<Action>, s: State)
    requires c.Valid()
    requires var start := Init(c, now, text, BlocklistFile.Loaded(text));
             CleanRun(c, start, run) && Exec(c, start, run) == Some(s) && s.up
    ensures s.disk.base <= |s.disk.log|
    ensures var after := View(DoCrash(c, s).disk.table);
            var found := View(Durability.AtStart(s.disk));
            && Durability.SameFrom(after, Folded(found, WriteBehind.Kept(s.pipe.batches)), Seconds(s.now))
            && ((forall b | b in s.pipe.batches :: b.ok) ==>
                  var kept := |s.pipe.offered| - |s.pipe.buf| - |s.pipe.channel|;
                  && 0 <= kept && s.pipe.offered[kept..] == s.pipe.buf + s.pipe.channel
                  && Durability.SameFrom(after, Folded(found, s.pipe.offered[..kept]), Seconds(s.now)))
  {
    hide Invariant, Exec, CleanRun, View, Folded, Durability.SameFrom, Durability.DurableInv, Init,
      Durability.AtStart, WriteBehind.Kept, BlocklistFile.Loaded, Enabled;
    var start := Init(c, now, text, BlocklistFile.Loaded(text));
    InitOk(c, now, text);
    InitIntact(c, now, text);
    RunKeepsInvariant(c, start, run);
    CleanRunsLoseNothing(c, start, run);
    DurableParts(c, s);
    Durability.DiskIsStartAndKept(s);
    if forall b | b in s.pipe.batches :: b.ok {
      var all := WriteBehind.Kept(s.pipe.batches);
      assert s.pipe.offered[..|all|] == all && s.pipe.offered[|all|..] == s.pipe.buf + s.pipe.channel;
    }
  }

  /** No purge of the run deletes an unexpired entry; with no commit between its two transactions none can. */
  ghost predicate CleanRun(c: Config, start: State, run: seq<Action>)
    requires c.Valid()
  {
    run == [] ||
    (var n := |run| - 1;
     CleanRun(c, start, run[..n]) &&
     match Exec(c, start, run[..n]) case Some(s) => Durability.CleanStep(s, run[n]) case None => true)
  }

  /**
   * In such a run the disk reads, from now on, as everything ever committed: purging is invisible. And so
   * does what the current process found at its start, as everything committed before.
   */
  lemma {:induction false} CleanRunsLoseNothing(c: Config, start: State, run: seq<Action>)
    requires c.Valid() && Invariant(c, start) && CleanRun(c, start, run)
    requires Durability.NothingLiveLost(start) && Durability.StartIntact(start)
    ensures match Exec(c, start, run)
            case Some(s) => Durability.NothingLiveLost(s) && Durability.StartIntact(s)
            case None => true
  {
    hide Invariant, Enabled, Apply, Durability.NothingLiveLost, Durability.StartIntact, Durability.CleanStep;
    if run != [] {
      var n := |run| - 1;
      CleanRunsLoseNothing(c, start, run[..n]);
      var before := Exec(c, start, run[..n]);
      if before.Some? && Enabled(c, before.value, run[n]) {
        RunKeepsInvariant(c, start, run[..n]);
        DurableParts(c, before.value);
        Durability.StepLosesNothingIff(c, before.value, run[n]);
        Durability.StepKeepsStart(c, before.value, run[n]);
      }
    }
  }

  lemma DurableParts(c: Config, s: State)
    requires c.Valid() && Invariant(c, s)
    ensures Durability.DurableInv(s) && Durability.PurgeInv(s) && s.disk.base <= |s.disk.log|
  {
  }
}
