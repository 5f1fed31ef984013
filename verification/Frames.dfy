/** Which parts of the state each kind of step can touch. */
module Frames {
  import opened Wire
  import opened Upstream
  import opened Store
  import opened Blocklist
  import BlocklistFile
  import WriteBehind
  import opened Resolver

  predicate BeforeFlight(a: Action) {
    a.Receive? || a.ParseQuery? || a.CheckList? || a.Lookup? || a.Enter?
  }

  predicate AfterEntry(a: Action) {
    a.Acquire? || a.Resolve? || a.OfferPersist? || a.Publish? || a.Wake? || a.Finish?
  }

  predicate Arrives(a: Action) { a.Receive? || a.ParseQuery? }
  predicate Probes(a: Action) { a.CheckList? || a.Lookup? || a.Enter? }
  predicate Fetches(a: Action) { a.Acquire? || a.Resolve? || a.OfferPersist? }
  predicate Completes(a: Action) { a.Publish? || a.Wake? || a.Finish? }

  predicate QueryStep(a: Action) { BeforeFlight(a) || AfterEntry(a) }

  predicate TouchesRam(a: Action) {
    a.Enter? || a.Publish? || a.DropEntry? || a.Crash? || a.LoadOne?
  }

  predicate TouchesPipe(a: Action) {
    a.OfferPersist? || a.WriterReceive? || a.WriterFlush? || a.Crash?
  }

  predicate Answers(a: Action) {
    a.CheckList? || a.Lookup? || a.Enter? || a.Wake?
  }

  predicate TouchesEdits(a: Action) { a.SaveList? || a.PublishList? || a.Crash? || a.Restart? }

  predicate OnDisk(a: Action) { a.WriterReceive? || a.WriterFlush? || a.PurgeCollect? || a.PurgeDelete? }

  predicate Framed(s: State, a: Action, s': State) {
    && (if a.Tick? then s'.now == s.now + a.ms else s'.now == s.now)
    && (!TouchesRam(a) ==> s'.ram == s.ram)
    && (!TouchesPipe(a) ==> s'.pipe == s.pipe)
    && (!a.WriterFlush? && !a.PurgeDelete? ==> s'.disk.table == s.disk.table && s'.disk.log == s.disk.log)
    && (!a.Restart? ==> s'.disk.base == s.disk.base && s'.readAt == s.readAt)
    && (!a.PurgeCollect? && !a.PurgeDelete? && !a.Crash? ==> s'.disk.purge == s.disk.purge)
    && (!a.Crash? && !a.Restart? && !a.LoadOne? ==> s'.loading == s.loading)
    && (!a.Resolve? ==> s'.past.accepted == s.past.accepted)
    && s.past.accepted <= s'.past.accepted
    && (!Answers(a) ==> s'.past.answers == s.past.answers)
    && (!a.PublishList? && !a.Restart? ==> s'.lists == s.lists && s'.past.lists == s.past.lists)
    && (!a.SaveList? ==> s'.files.text == s.files.text && s'.files.saved == s.files.saved)
    && (!TouchesEdits(a) ==> s'.files.edits == s.files.edits && s'.files.nextEdit == s.files.nextEdit)
    && (!TouchesEdits(a) || a.Crash? ==> s'.past.edits == s.past.edits)
    && (!a.OfferPersist? && !a.Restart? ==> s'.tally.kept == s.tally.kept)
    && (!a.Crash? && !a.Restart? ==> s'.up == s.up)
    && (!QueryStep(a) && !a.Crash? && !a.Restart? ==> s'.net == s.net)
    && (!QueryStep(a) && !a.Restart? ==> s'.stats == s.stats && s'.tally == s.tally)
  }

  lemma Untouched(c: Config, s: State, a: Action)
    requires c.Valid() && Enabled(c, s, a)
    ensures Framed(s, a, Apply(c, s, a))
  {
    hide Enabled, Apply, Framed;
    if a.Enter? {
      UntouchedEnter(c, s, a);
    } else if Arrives(a) {
      UntouchedArrival(c, s, a);
    } else if Probes(a) {
      UntouchedProbe(c, s, a);
    } else if Fetches(a) {
      UntouchedFetch(c, s, a);
    } else if Completes(a) {
      UntouchedCompletion(c, s, a);
    } else if OnDisk(a) {
      UntouchedOnDisk(c, s, a);
    } else {
      UntouchedOther(c, s, a);
    }
  }

  lemma UntouchedEnter(c: Config, s: State, a: Action)
    requires c.Valid() && Enabled(c, s, a) && a.Enter?
    ensures Framed(s, a, Apply(c, s, a))
  {
    hide TaskKey, Live;
  }

  lemma UntouchedArrival(c: Config, s: State, a: Action)
    requires c.Valid() && Enabled(c, s, a) && Arrives(a)
    ensures Framed(s, a, Apply(c, s, a))
  {
    hide KeyOf;
  }

  lemma CheckFramed(c: Config, s: State, t: TaskId)
    requires In(s, t)
    ensures Framed(s, CheckList(t), DoCheck(c, s, t))
  {
    hide TaskKey, Blocks;
  }

  lemma LookupFramed(c: Config, s: State, t: TaskId)
    requires In(s, t)
    ensures Framed(s, Lookup(t), DoLookup(c, s, t))
  {
    hide TaskKey, Live;
  }

  lemma UntouchedProbe(c: Config, s: State, a: Action)
    requires c.Valid() && Enabled(c, s, a) && (a.CheckList? || a.Lookup?)
    ensures Framed(s, a, Apply(c, s, a))
  {
    hide Framed, DoCheck, DoLookup;
    match a {
      case CheckList(t) => CheckFramed(c, s, t);
      case Lookup(t) => LookupFramed(c, s, t);
    }
  }

  lemma UntouchedFetch(c: Config, s: State, a: Action)
    requires c.Valid() && Enabled(c, s, a) && Fetches(a)
    ensures Framed(s, a, Apply(c, s, a))
  {
    hide TaskKey, Resolution, WriteBehind.Offer;
  }

  lemma PublishFramed(c: Config, s: State, t: TaskId)
    requires In(s, t) && PhaseOf(s, t).Offered?
    ensures Framed(s, Publish(t), DoPublish(c, s, t))
  {
    hide TaskKey;
  }

  lemma WakeFramed(s: State, t: TaskId)
    requires In(s, t) && PhaseOf(s, t).Awaiting? && PhaseOf(s, t).flight in s.net.flights
    ensures Framed(s, Wake(t), DoWake(s, t))
  {
  }

  lemma UntouchedCompletion(c: Config, s: State, a: Action)
    requires c.Valid() && Enabled(c, s, a) && Completes(a)
    ensures Framed(s, a, Apply(c, s, a))
  {
    hide DoPublish, DoWake;
    match a {
      case Publish(t) => PublishFramed(c, s, t);
      case Wake(t) => WakeFramed(s, t);
      case Finish(t) =>
    }
  }

  lemma UntouchedOnDisk(c: Config, s: State, a: Action)
    requires c.Valid() && Enabled(c, s, a) && OnDisk(a)
    ensures Framed(s, a, Apply(c, s, a))
  {
    hide ExpiredKeys, Written, WriteBehind.Receive, WriteBehind.Flush;
  }

  lemma UntouchedOther(c: Config, s: State, a: Action)
    requires c.Valid() && Enabled(c, s, a) && !QueryStep(a) && !OnDisk(a)
    ensures Framed(s, a, Apply(c, s, a))
  {
    hide ReadRows, KeyOrdered, BlocklistFile.Loaded;
  }
}
