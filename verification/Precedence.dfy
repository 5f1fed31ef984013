/** The live blocklist decides before anything else, and what a restart makes of the saved one. */
module Precedence {
  import opened Names
  import opened Wire
  import opened Upstream
  import opened Store
  import opened Blocklist
  import BlocklistFile
  import WriteBehind
  import opened Resolver
  import opened Frames

  function NameIn(c: Config, data: Bytes): string { TaskKey(c, data).name }

  /** The list numbered `epoch`, counting from one. */
  predicate BlockedAt(c: Config, lists: seq<Lists>, epoch: nat, data: Bytes) {
    0 < epoch <= |lists| && Blocks(lists[epoch - 1], NameIn(c, data))
  }

  predicate PastCheck(p: Phase) { !p.Admitted? && !p.Parsed? && !p.Answered? }

  /** A task that is past its check was let through by a list in force at or after its admission. */
  ghost predicate TaskCleared(c: Config, lists: seq<Lists>, task: Task) {
    && 0 < task.admitted <= |lists|
    && (PastCheck(task.phase) ==>
          task.admitted <= task.checked <= |lists| && !BlockedAt(c, lists, task.checked, task.data))
  }

  /** The sinkhole answers exactly the names blocked by the list that was consulted. */
  ghost predicate AnswerCleared(c: Config, lists: seq<Lists>, a: Answer) {
    && 0 < a.admitted <= a.checked <= |lists|
    && (a.verdict.Sinkhole? <==> BlockedAt(c, lists, a.checked, a.data))
  }

  ghost predicate AllCleared(c: Config, lists: seq<Lists>, tasks: map<TaskId, Task>) {
    forall t | t in tasks :: TaskCleared(c, lists, tasks[t])
  }

  ghost predicate ListInv(c: Config, s: State) {
    && s.past.lists != [] && s.lists == s.past.lists[|s.past.lists| - 1]
    && AllCleared(c, s.past.lists, s.net.tasks)
    && (forall i | 0 <= i < |s.past.answers| :: AnswerCleared(c, s.past.lists, s.past.answers[i]))
  }

  /** The file holds the list saved last, if that list can be read back at all. */
  ghost predicate FileInv(s: State) {
    BlocklistFile.Clean(s.files.saved) ==> BlocklistFile.Loaded(s.files.text) == s.files.saved
  }

  lemma StepKeepsFile(c: Config, s: State, a: Action)
    requires c.Valid() && FileInv(s) && Enabled(c, s, a)
    ensures FileInv(Apply(c, s, a))
  {
    hide Apply, Enabled, BlocklistFile.Clean, BlocklistFile.Loaded;
    Untouched(c, s, a);
    if a.SaveList? {
      SaveKeepsFile(c, s, a.text, a.listing);
    }
  }

  lemma SaveKeepsFile(c: Config, s: State, text: string, listing: seq<string>)
    requires c.Valid() && Enabled(c, s, SaveList(text, listing))
    ensures FileInv(Apply(c, s, SaveList(text, listing)))
  {
    hide BlocklistFile.Clean, BlocklistFile.Loaded, BlocklistFile.IsListing, BlocklistFile.FileText;
    BlocklistFile.SaveReloadIff(BlocklistFile.Loaded(text), listing);
  }

  lemma StepKeepsLists(c: Config, s: State, a: Action)
    requires c.Valid() && ListInv(c, s) && Enabled(c, s, a)
    ensures ListInv(c, Apply(c, s, a))
  {
    hide Apply, Enabled, AllCleared, AnswerCleared;
    Untouched(c, s, a);
    if Arrives(a) {
      ArrivalKeepsLists(c, s, a);
    } else if Probes(a) {
      ProbeKeepsLists(c, s, a);
    } else if Fetches(a) {
      FetchKeepsLists(c, s, a);
    } else if Completes(a) {
      CompletionKeepsLists(c, s, a);
    } else if a.PublishList? || a.Restart? || a.Crash? {
      NewListKeepsLists(c, s, a);
    }
  }

  /** Moving on keeps a task cleared. */
  lemma Moved(c: Config, lists: seq<Lists>, tasks: map<TaskId, Task>, t: TaskId, p: Phase)
    requires AllCleared(c, lists, tasks) && t in tasks && (PastCheck(p) ==> PastCheck(tasks[t].phase))
    ensures AllCleared(c, lists, tasks[t := tasks[t].(phase := p)])
    ensures AllCleared(c, lists, tasks - {t})
    ensures 0 < tasks[t].admitted <= |lists|
    ensures PastCheck(tasks[t].phase) ==>
              tasks[t].admitted <= tasks[t].checked <= |lists| && !BlockedAt(c, lists, tasks[t].checked, tasks[t].data)
  {
    hide BlockedAt;
    assert TaskCleared(c, lists, tasks[t]);
  }

  lemma ArrivalKeepsLists(c: Config, s: State, a: Action)
    requires c.Valid() && ListInv(c, s) && Enabled(c, s, a) && Arrives(a)
    ensures ListInv(c, Apply(c, s, a))
  {
    hide KeyOf, AllCleared, AnswerCleared;
    if a.ParseQuery? {
      Moved(c, s.past.lists, s.net.tasks, a.t, Parsed);
    } else {
      ArrivalCleared(c, s.past.lists, s.net.tasks, s.net.nextId, a.data);
    }
  }

  lemma ArrivalCleared(c: Config, lists: seq<Lists>, tasks: map<TaskId, Task>, t: TaskId, data: Bytes)
    requires AllCleared(c, lists, tasks) && lists != []
    ensures AllCleared(c, lists, tasks[t := Task(data, |lists|, |lists|, Admitted)])
  {
  }

  lemma CheckKeepsLists(c: Config, s: State, t: TaskId)
    requires ListInv(c, s) && In(s, t) && PhaseOf(s, t).Parsed?
    ensures ListInv(c, DoCheck(c, s, t))
  {
    hide TaskKey, Blocks;
    assert TaskCleared(c, s.past.lists, s.net.tasks[t]);
  }

  lemma ProbeKeepsLists(c: Config, s: State, a: Action)
    requires c.Valid() && ListInv(c, s) && Enabled(c, s, a) && Probes(a)
    ensures ListInv(c, Apply(c, s, a))
  {
    hide TaskKey, KeyOf, Live, BlockedAt, AllCleared, ListInv, DoCheck, DoLookup, DoEnter;
    match a {
      case CheckList(t) => CheckKeepsLists(c, s, t);
      case Lookup(t) => LookupKeepsLists(c, s, t);
      case Enter(t) => EnterKeepsLists(c, s, t);
    }
  }

  lemma LookupKeepsLists(c: Config, s: State, t: TaskId)
    requires ListInv(c, s) && In(s, t) && PhaseOf(s, t).Passed?
    ensures ListInv(c, DoLookup(c, s, t))
  {
    hide TaskKey, Live, BlockedAt, AllCleared;
    Moved(c, s.past.lists, s.net.tasks, t, Answered);
    Moved(c, s.past.lists, s.net.tasks, t, Missed);
  }

  lemma EnterKeepsLists(c: Config, s: State, t: TaskId)
    requires ListInv(c, s) && In(s, t) && PhaseOf(s, t).Missed?
    ensures ListInv(c, DoEnter(c, s, t))
  {
    hide TaskKey, Live, BlockedAt, AllCleared;
    var k := TaskKey(c, s.net.tasks[t].data);
    Moved(c, s.past.lists, s.net.tasks, t, Answered);
    Moved(c, s.past.lists, s.net.tasks, t, Leading);
    if k in s.net.waiters {
      Moved(c, s.past.lists, s.net.tasks, t, Awaiting(s.net.waiters[k]));
    }
  }

  lemma FetchKeepsLists(c: Config, s: State, a: Action)
    requires c.Valid() && ListInv(c, s) && Enabled(c, s, a) && Fetches(a)
    ensures ListInv(c, Apply(c, s, a))
  {
    hide TaskKey, KeyOf, Resolution, WriteBehind.Offer, BlockedAt, AllCleared;
    var lists, tasks := s.past.lists, s.net.tasks;
    var p := PhaseOf(s, a.t);
    match a {
      case Acquire(t) => Moved(c, lists, tasks, t, Resolving);
      case Resolve(t, attempts) =>
        Moved(c, lists, tasks, t, Awaiting(t));
        match Resolution(c.decode, c.limits, tasks[t].data, attempts, s.now) {
          case Some(resp) => Moved(c, lists, tasks, t, Resolved(resp, s.now));
          case None =>
        }
      case OfferPersist(t) => Moved(c, lists, tasks, t, Offered(p.resp, p.at));
    }
  }

  lemma CompletionKeepsLists(c: Config, s: State, a: Action)
    requires c.Valid() && ListInv(c, s) && Enabled(c, s, a) && Completes(a)
    ensures ListInv(c, Apply(c, s, a))
  {
    hide TaskKey, BlockedAt, AllCleared;
    Moved(c, s.past.lists, s.net.tasks, a.t, Answered);
    Moved(c, s.past.lists, s.net.tasks, a.t, if a.Publish? then Awaiting(a.t) else Answered);
  }

  lemma NewListKeepsLists(c: Config, s: State, a: Action)
    requires c.Valid() && ListInv(c, s) && Enabled(c, s, a) && (a.PublishList? || a.Restart? || a.Crash?)
    ensures ListInv(c, Apply(c, s, a))
  {
    hide TaskKey, Blocks, ReadRows, BlocklistFile.Loaded, KeyOrdered;
    var lists' := Apply(c, s, a).past.lists;
    assert s.past.lists <= lists';
    forall data, e: nat | e <= |s.past.lists|
      ensures BlockedAt(c, lists', e, data) == BlockedAt(c, s.past.lists, e, data)
    {
    }
  }

  // ---- consequences ----

  /**
   * The sinkhole answers exactly the queries whose name was blocked by the list in force at their check,
   * whatever RAM and disk hold; and only queries that list lets through ever get past the check.
   */
  lemma CheckedListDecides(c: Config, s: State)
    requires ListInv(c, s)
    ensures forall i | 0 <= i < |s.past.answers| ::
              var a := s.past.answers[i];
              && a.admitted <= a.checked <= |s.past.lists|
              && (a.verdict == Sinkhole <==> BlockedAt(c, s.past.lists, a.checked, a.data))
    ensures forall t | In(s, t) && PastCheck(PhaseOf(s, t)) ::
              var task := s.net.tasks[t];
              task.admitted <= task.checked <= |s.past.lists| && !BlockedAt(c, s.past.lists, task.checked, task.data)
  {
    hide BlockedAt;
    assert AllCleared(c, s.past.lists, s.net.tasks);
    forall i | 0 <= i < |s.past.answers| ensures AnswerCleared(c, s.past.lists, s.past.answers[i]) {
    }
    forall t | In(s, t) ensures TaskCleared(c, s.past.lists, s.net.tasks[t]) {
    }
  }

  /** A restart brings back the list saved last exactly when that list can be read back. */
  lemma RestartRestoresList(c: Config, s: State, order: seq<Bytes>, ok: bool, listing: seq<string>)
    requires c.Valid() && Enabled(c, s, Restart(order, ok))
    requires s.files.text == BlocklistFile.FileText(listing) && BlocklistFile.IsListing(s.files.saved, listing)
    ensures Apply(c, s, Restart(order, ok)).lists == s.files.saved <==> BlocklistFile.Clean(s.files.saved)
  {
    hide BlocklistFile.Clean, BlocklistFile.Loaded, BlocklistFile.IsListing, BlocklistFile.FileText, ReadRows,
      KeyOrdered;
    BlocklistFile.SaveReloadIff(s.files.saved, listing);
  }

  lemma Saves(c: Config, s: State, text: string, v: seq<string>)
    requires c.Valid() && s.Serving() && BlocklistFile.IsListing(BlocklistFile.Loaded(text), v)
    ensures Enabled(c, s, SaveList(text, v)) && Apply(c, s, SaveList(text, v)) == DoSave(s, text, v)
  {
  }

  lemma Publishes(c: Config, s: State, edit: nat)
    requires c.Valid() && s.up && edit in s.files.edits
    ensures Enabled(c, s, PublishList(edit)) && Apply(c, s, PublishList(edit)) == DoPublishList(s, edit)
  {
  }

  lemma ExecNothing(c: Config, s: State)
    requires c.Valid()
    ensures Exec(c, s, []) == Some(s)
  {
  }

  lemma ExecOneMore(c: Config, start: State, run: seq<Action>, a: Action)
    requires c.Valid() && Exec(c, start, run).Some? && Enabled(c, Exec(c, start, run).value, a)
    ensures Exec(c, start, run + [a]) == Some(Apply(c, Exec(c, start, run).value, a))
  {
    hide Enabled, Apply;
    assert (run + [a])[..|run|] == run;
  }
}
