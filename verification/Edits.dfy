/** Blocklist edits are saved first and published later, and not serialized: when file and resolver agree. */
module Edits {
  import opened Names
  import opened Blocklist
  import BlocklistFile
  import opened Resolver
  import opened Frames
  import Precedence

  // ---- reading the log of edits ----

  /** The edits saved, but not published, in the current life of the process. */
  function Pending(log: seq<EditEvent>): map<nat, string> {
    if log == [] then map[] else After(Pending(log[..|log| - 1]), log[|log| - 1])
  }

  function After(pending: map<nat, string>, e: EditEvent): map<nat, string> {
    match e
    case Saved(i, text) => pending[i := text]
    case Published(i, _) => pending - {i}
    case Started => map[]
  }

  function LastSaved(log: seq<EditEvent>): Option<EditEvent> {
    if log == [] then None
    else if log[|log| - 1].Saved? then Some(log[|log| - 1])
    else LastSaved(log[..|log| - 1])
  }

  /** What put the list in force there: a published edit or a start. */
  function LastChange(log: seq<EditEvent>): Option<EditEvent> {
    if log == [] then None
    else if !log[|log| - 1].Saved? then Some(log[|log| - 1])
    else LastChange(log[..|log| - 1])
  }

  /** Only pending edits are published. */
  ghost predicate Sound(log: seq<EditEvent>) {
    log == [] ||
    (var before, last := log[..|log| - 1], log[|log| - 1];
     && Sound(before)
     && (last.Published? ==> last.edit in Pending(before) && Pending(before)[last.edit] == last.text))
  }

  /** No edit is saved while another one is pending. */
  ghost predicate Serial(log: seq<EditEvent>) {
    log == [] ||
    (var before, last := log[..|log| - 1], log[|log| - 1];
     Serial(before) && (last.Saved? ==> Pending(before) == map[]))
  }

  lemma Extends(log: seq<EditEvent>, e: EditEvent)
    ensures Pending(log + [e]) == After(Pending(log), e)
    ensures LastSaved(log + [e]) == if e.Saved? then Some(e) else LastSaved(log)
    ensures LastChange(log + [e]) == if e.Saved? then LastChange(log) else Some(e)
    ensures Sound(log + [e]) <==>
            Sound(log) && (e.Published? ==> e.edit in Pending(log) && Pending(log)[e.edit] == e.text)
  {
    assert (log + [e])[..|log|] == log;
  }

  lemma {:induction false} SerialPending(log: seq<EditEvent>)
    requires Serial(log) && Pending(log) != map[]
    ensures LastSaved(log).Some?
    ensures var last := LastSaved(log).value;
            last.Saved? && Pending(log) == map[last.edit := last.text]
  {
    var before := log[..|log| - 1];
    if Pending(before) != map[] {
      SerialPending(before);
    }
  }

  lemma SavedIsPending(log: seq<EditEvent>)
    requires log != [] && log[|log| - 1].Saved?
    ensures Pending(log) != map[]
  {
    assert log[|log| - 1].edit in Pending(log);
  }

  /** With nothing pending, nothing happened since a start that was the last change. */
  lemma QuietSinceStart(log: seq<EditEvent>)
    requires Pending(log) == map[] && LastChange(log).Some?
    ensures log != [] && LastChange(log) == Some(log[|log| - 1]) && !log[|log| - 1].Saved?
  {
    if log[|log| - 1].Saved? {
      SavedIsPending(log);
    }
  }

  /** After serial edits, none of them pending, the one published last is the one saved last. */
  lemma SerialAgrees(log: seq<EditEvent>)
    requires Serial(log) && Sound(log) && Pending(log) == map[]
    requires LastChange(log).Some? && LastChange(log).value.Published?
    ensures var p := LastChange(log).value;
            LastSaved(log) == Some(Saved(p.edit, p.text))
  {
    var before := log[..|log| - 1];
    match log[|log| - 1] {
      case Saved(_, _) => SavedIsPending(log);
      case Published(e, text) => SerialPending(before);
      case Started =>
    }
  }

  // ---- the invariant ----

  ghost predicate Printed(text: string, l: Lists) {
    exists v :: BlocklistFile.IsListing(l, v) && text == BlocklistFile.FileText(v)
  }

  /** The file is what the edit saved last printed, or the one that was installed. */
  ghost predicate FileIs(files: Files, log: seq<EditEvent>) {
    match LastSaved(log)
    case Some(e) => e.Saved? && files.saved == BlocklistFile.Loaded(e.text) && Printed(files.text, files.saved)
    case None => files.saved == BlocklistFile.Loaded(files.text)
  }

  /** The list in force is that of the edit published last, or what the start read from the file. */
  ghost predicate InForce(s: State, log: seq<EditEvent>) {
    match LastChange(log)
    case Some(Published(_, text)) => s.lists == BlocklistFile.Loaded(text)
    case Some(Started) => log[|log| - 1].Started? ==> s.lists == BlocklistFile.Loaded(s.files.text)
    case _ => false
  }

  ghost predicate EditInv(s: State) {
    var log := s.past.edits;
    && Sound(log) && FileIs(s.files, log)
    && (s.up ==> s.files.edits == Pending(log) && InForce(s, log))
    && (!s.up ==> s.files.edits == map[])
  }

  lemma StepKeepsEdits(c: Config, s: State, a: Action)
    requires c.Valid() && EditInv(s) && Enabled(c, s, a)
    ensures EditInv(Apply(c, s, a))
  {
    hide Apply, Enabled, BlocklistFile.Loaded, Printed, Sound, Pending, LastSaved, LastChange;
    Untouched(c, s, a);
    if TouchesEdits(a) {
      EditStep(c, s, a);
    }
  }

  lemma EditStep(c: Config, s: State, a: Action)
    requires c.Valid() && EditInv(s) && Enabled(c, s, a) && TouchesEdits(a)
    ensures EditInv(Apply(c, s, a))
  {
    hide BlocklistFile.Loaded, BlocklistFile.IsListing, BlocklistFile.FileText, Sound, Pending, LastSaved, LastChange;
    var log := s.past.edits;
    match a {
      case SaveList(text, listing) =>
        Extends(log, Saved(s.files.nextEdit, text));
        assert Printed(BlocklistFile.FileText(listing), BlocklistFile.Loaded(text));
      case PublishList(e) =>
        Extends(log, Published(e, s.files.edits[e]));
      case Restart(_, _) =>
        Extends(log, Started);
      case Crash =>
    }
  }

  // ---- when file and resolver agree ----

  /**
   * With no edit pending, the list in force is the one saved last exactly when: the edit published last
   * stands for the same list as the edit saved last; or, if nothing was published since the start, no edit was ever
   * saved or the list saved last can be read back.
   */
  lemma AgreeIff(s: State)
    requires EditInv(s) && s.up && s.files.edits == map[]
    ensures LastChange(s.past.edits).Some?
    ensures s.lists == s.files.saved <==> Agree(s.past.edits)
  {
    hide BlocklistFile.Loaded, BlocklistFile.IsListing, BlocklistFile.FileText, BlocklistFile.Clean;
    var log := s.past.edits;
    if LastChange(log).value.Published? {
      SomethingSaved(log);
    } else {
      QuietSinceStart(log);
      if LastSaved(log).Some? {
        var v :| BlocklistFile.IsListing(s.files.saved, v) && s.files.text == BlocklistFile.FileText(v);
        BlocklistFile.SaveReloadIff(s.files.saved, v);
      }
    }
  }

  ghost predicate Agree(log: seq<EditEvent>) {
    match (LastChange(log), LastSaved(log))
    case (Some(Published(_, t)), Some(Saved(_, u))) => BlocklistFile.Loaded(t) == BlocklistFile.Loaded(u)
    case (Some(Started), Some(Saved(_, u))) => BlocklistFile.Clean(BlocklistFile.Loaded(u))
    case (Some(Started), None) => true
    case _ => false
  }

  lemma {:induction false} SomethingSaved(log: seq<EditEvent>)
    requires Sound(log) && (Pending(log) != map[] || (LastChange(log).Some? && LastChange(log).value.Published?))
    ensures LastSaved(log).Some? && LastSaved(log).value.Saved?
  {
    var before := log[..|log| - 1];
    match log[|log| - 1] {
      case Saved(_, _) =>
      case Published(e, _) =>
        assert e in Pending(before);
        SomethingSaved(before);
      case Started =>
    }
  }

  /** With serial edits, and none pending, the list published last is the one saved last. */
  lemma SerialEditsAgree(s: State)
    requires EditInv(s) && s.up && s.files.edits == map[] && Serial(s.past.edits)
    requires LastChange(s.past.edits).Some? && LastChange(s.past.edits).value.Published?
    ensures s.lists == s.files.saved
  {
    hide BlocklistFile.Loaded, Pending, Serial, Sound, LastChange, LastSaved;
    SerialAgrees(s.past.edits);
  }

  /**
   * Two edits that overlap, and stand for different lists, can leave the file with one list and the
   * resolver with the other; if the one on file can be read back, a restart then changes the list.
   */
  lemma CrossedEditsDiverge(c: Config, s: State, t1: string, v1: seq<string>, t2: string, v2: seq<string>)
    returns (end: State)
    requires c.Valid() && s.Serving() && s.files.edits == map[]
    requires BlocklistFile.IsListing(BlocklistFile.Loaded(t1), v1)
    requires BlocklistFile.IsListing(BlocklistFile.Loaded(t2), v2)
    requires BlocklistFile.Loaded(t1) != BlocklistFile.Loaded(t2)
    ensures Exec(c, s, [SaveList(t1, v1), SaveList(t2, v2),
                        PublishList(s.files.nextEdit + 1), PublishList(s.files.nextEdit)]) == Some(end)
    ensures end.files.edits == map[]
    ensures end.lists == BlocklistFile.Loaded(t1) && end.files.saved == BlocklistFile.Loaded(t2)
    ensures end.lists != end.files.saved
    ensures BlocklistFile.Clean(end.files.saved) ==> BlocklistFile.Loaded(end.files.text) != end.lists
  {
    hide BlocklistFile.Loaded, BlocklistFile.IsListing, BlocklistFile.FileText, Exec, Enabled, Apply,
      BlocklistFile.Clean;
    var n := s.files.nextEdit;
    var a1, a2, a3, a4 := SaveList(t1, v1), SaveList(t2, v2), PublishList(n + 1), PublishList(n);
    Precedence.ExecNothing(c, s);
    assert [] + [a1] == [a1] && [a1] + [a2] == [a1, a2] && [a1, a2] + [a3] == [a1, a2, a3];
    assert [a1, a2, a3] + [a4] == [a1, a2, a3, a4];
    Precedence.Saves(c, s, t1, v1);
    Precedence.ExecOneMore(c, s, [], a1);
    var s1 := DoSave(s, t1, v1);
    Precedence.Saves(c, s1, t2, v2);
    Precedence.ExecOneMore(c, s, [a1], a2);
    var s2 := DoSave(s1, t2, v2);
    Precedence.Publishes(c, s2, n + 1);
    Precedence.ExecOneMore(c, s, [a1, a2], a3);
    var s3 := DoPublishList(s2, n + 1);
    Precedence.Publishes(c, s3, n);
    Precedence.ExecOneMore(c, s, [a1, a2, a3], a4);
    end := DoPublishList(s3, n);
    assert end.files.edits == map[];
    BlocklistFile.SaveReloadIff(BlocklistFile.Loaded(t2), v2);
  }

  /** Such a pair of texts exists. */
  lemma SuchTextsExist()
    ensures BlocklistFile.Loaded("http://#x") != BlocklistFile.Loaded("http://*.x")
  {
    hide BlocklistFile.Loaded;
    BlocklistFile.UncleanTexts();
    assert "#x" in BlocklistFile.Loaded("http://#x").exact;
    assert "#x"[0] != "*.x"[0];
  }
}
