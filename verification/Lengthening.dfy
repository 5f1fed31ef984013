/** A run in which a restart lengthens the life of an entry. */
module Lengthening {
  import opened Names
  import opened Wire
  import opened Upstream
  import opened Store
  import opened Blocklist
  import BlocklistFile
  import opened Resolver
  import opened Steps
  import Precedence
  import Provenance

  /** What a query meets that is neither blocked nor cached and gets a reply with a TTL of one second. */
  predicate OneSecond(c: Config, text: string, data: Bytes, k: CacheKey, attempts: seq<Attempt>, wire: Bytes) {
    && c.Valid() && c.maxEntries > 0 && |data| <= MAX_MESSAGE
    && KeyOf(c.decode, data) == Some(k) && !Blocks(BlocklistFile.Loaded(text), k.name)
    && Resolution(c.decode, c.limits, data, attempts, 0) == Some(CachedResponse(wire, 1, 1))
  }

  /** First start on an empty store at 0 ms. */
  lemma Started(c: Config, text: string) returns (s: State)
    requires c.Valid()
    ensures Reachable(c, s) && s.Serving() && s.net.tasks == map[] && s.readAt == 0
    ensures SharedOf(s) == Shared(0, BlocklistFile.Loaded(text), text, map[], map[], map[], [], [], map[],
                                  c.TaskPermits(), c.ResolvePermits(), 0, NO_STATS)
  {
    hide Reachable, Enabled, Apply, BlocklistFile.Loaded;
    InstalledIsReachable(c, 0, text);
    var init := Init(c, 0, text, BlocklistFile.Loaded(text));
    CanRestart(c, init, [], true);
    ReachableStep(c, init, Restart([], true));
    s := Apply(c, init, Restart([], true));
  }

  /** The query up to the start of its flight. */
  lemma Led(c: Config, text: string, data: Bytes, k: CacheKey, attempts: seq<Attempt>, wire: Bytes) returns (s: State)
    requires OneSecond(c, text, data, k, attempts, wire)
    ensures Reachable(c, s) && s.Serving() && Stands(s, 0, data, Resolving)
    ensures SharedOf(s).now == 0 && SharedOf(s).cache == map[] && SharedOf(s).table == map[]
    ensures SharedOf(s).persist == [] && SharedOf(s).buf == []
  {
    hide Reachable, Enabled, Apply, BlocklistFile.Loaded, SharedOf, Stands, Keeps, KeyOf, Blocks, Resolution;
    var s0 := Started(c, text);
    CanReceive(c, s0, data);
    var s1 := After(c, s0, Receive(data));
    CanParse(c, s1, 0, data);
    var s2 := After(c, s1, ParseQuery(0));
    CanCheck(c, s2, 0, data, k);
    var s3 := After(c, s2, CheckList(0));
    CanLookup(c, s3, 0, data, k);
    var s4 := After(c, s3, Lookup(0));
    CanLead(c, s4, 0, data, k);
    var s5 := After(c, s4, Enter(0));
    CanAcquire(c, s5, 0, data);
    s := After(c, s5, Acquire(0));
    assert SharedOf(s5).cache == map[];
  }

  lemma After(c: Config, s: State, a: Action) returns (s': State)
    requires c.Valid() && Reachable(c, s) && Enabled(c, s, a)
    ensures s' == Apply(c, s, a) && Reachable(c, s')
  {
    ReachableStep(c, s, a);
    s' := Apply(c, s, a);
  }

  /** Accepted at 0 ms, inserted at once, and flushed. */
  lemma Stored(c: Config, text: string, data: Bytes, k: CacheKey, attempts: seq<Attempt>, wire: Bytes)
    returns (s: State)
    requires OneSecond(c, text, data, k, attempts, wire)
    ensures Reachable(c, s) && s.Serving() && SharedOf(s).now == 0
    ensures SharedOf(s).cache == map[k := Held(CachedResponse(wire, 1, 1), 0, 0)]
    ensures SharedOf(s).table == Written(map[], [(k, CachedResponse(wire, 1, 1))])
  {
    hide Reachable, Enabled, Apply, BlocklistFile.Loaded, SharedOf, Stands, Keeps, KeyOf, Blocks, Resolution, Written;
    var resp := CachedResponse(wire, 1, 1);
    var s0 := Led(c, text, data, k, attempts, wire);
    CanAccept(c, s0, 0, data, attempts, resp);
    var s1 := After(c, s0, Resolve(0, attempts));
    CanOffer(c, s1, 0, data, k, resp, 0);
    var s2 := After(c, s1, OfferPersist(0));
    CanPublish(c, s2, 0, data, k, resp, 0);
    var s3 := After(c, s2, Publish(0));
    CanReceiveItem(c, s3);
    var s4 := After(c, s3, WriterReceive);
    assert SharedOf(s4).buf == [(k, resp)];
    CanFlush(c, s4, true);
    s := After(c, s4, WriterFlush(true));
  }

  /**
   * An entry that lives until 1000 ms in one life of the process lives until 1999 ms in the next one, after a
   * crash and a start at 999 ms.
   */
  lemma RestartCanLengthen(
    c: Config, text: string, data: Bytes, k: CacheKey, attempts: seq<Attempt>, wire: Bytes)
    returns (before: State, after: State)
    requires OneSecond(c, text, data, k, attempts, wire)
    ensures Reachable(c, before) && k in before.ram && Deadline(before.ram[k]) == 1000
    ensures Exec(c, before, [Crash, Tick(999), Restart([EncKey(k)], true), LoadOne]) == Some(after)
    ensures k in after.ram && Deadline(after.ram[k]) == 1999
  {
    hide Reachable, Enabled, Apply, Exec, Written, EncKey;
    before := Stored(c, text, data, k, attempts, wire);
    assert before.ram == SharedOf(before).cache;
    var s1, s2 := Stopped(c, before);
    var s3;
    s3, after := Reloaded(c, s2, k, CachedResponse(wire, 1, 1));
    FourSteps(c, before, Crash, s1, Tick(999), s2, Restart([EncKey(k)], true), s3, LoadOne, after);
  }

  lemma FourSteps(
    c: Config, s: State, a1: Action, s1: State, a2: Action, s2: State, a3: Action, s3: State, a4: Action, s4: State)
    requires c.Valid()
    requires Enabled(c, s, a1) && s1 == Apply(c, s, a1) && Enabled(c, s1, a2) && s2 == Apply(c, s1, a2)
    requires Enabled(c, s2, a3) && s3 == Apply(c, s2, a3) && Enabled(c, s3, a4) && s4 == Apply(c, s3, a4)
    ensures Exec(c, s, [a1, a2, a3, a4]) == Some(s4)
  {
    hide Enabled, Apply, Exec;
    assert [] + [a1] == [a1] && [a1] + [a2] == [a1, a2] && [a1, a2] + [a3] == [a1, a2, a3];
    assert [a1, a2, a3] + [a4] == [a1, a2, a3, a4];
    Precedence.ExecNothing(c, s);
    Precedence.ExecOneMore(c, s, [], a1);
    Precedence.ExecOneMore(c, s, [a1], a2);
    Precedence.ExecOneMore(c, s, [a1, a2], a3);
    Precedence.ExecOneMore(c, s, [a1, a2, a3], a4);
  }

  /** A start at 999 ms that loads one row. */
  lemma Reloaded(c: Config, s: State, k: CacheKey, resp: CachedResponse) returns (s1: State, s2: State)
    requires c.Valid() && c.maxEntries > 0 && Reachable(c, s) && !s.up && s.now == 999
    requires resp.ttl == 1 && resp.expires == 1 && s.disk.table == Written(map[], [(k, resp)])
    ensures Enabled(c, s, Restart([EncKey(k)], true)) && s1 == Apply(c, s, Restart([EncKey(k)], true))
    ensures Enabled(c, s1, LoadOne) && s2 == Apply(c, s1, LoadOne)
    ensures k in s2.ram && Deadline(s2.ram[k]) == 1999
  {
    hide Reachable, Enabled, Apply, Written, EncKey, ReadRows, BlocklistFile.Loaded;
    OneRow(k, resp);
    CanRestart(c, s, [EncKey(k)], true);
    s1 := Apply(c, s, Restart([EncKey(k)], true));
    CanLoad(c, s1);
    s2 := Apply(c, s1, LoadOne);
    assert s2.ram == SharedOf(s2).cache;
  }

  lemma Stopped(c: Config, s: State) returns (s1: State, s2: State)
    requires c.Valid() && Reachable(c, s) && s.Serving() && s.now == 0
    ensures Enabled(c, s, Crash) && s1 == Apply(c, s, Crash)
    ensures Enabled(c, s1, Tick(999)) && s2 == Apply(c, s1, Tick(999)) && Reachable(c, s2)
    ensures !s2.up && s2.now == 999 && s2.disk.table == s.disk.table && s2.files.text == s.files.text
  {
    hide Reachable;
    s1 := After(c, s, Crash);
    s2 := After(c, s1, Tick(999));
  }

  lemma OneRow(k: CacheKey, resp: CachedResponse)
    requires resp.ttl == 1 && resp.expires == 1
    ensures var t := Written(map[], [(k, resp)]);
            KeyOrdered(t, [EncKey(k)]) && ReadRows(t, [EncKey(k)], 0) == [(k, resp)]
  {
    hide EncKey, EncVal, DecKey, DecVal, Written;
    WrittenOne(map[], (k, resp));
    KeyRoundTrip(k);
    ValRoundTrip(resp);
    Provenance.SmallMod(1);
    assert [EncKey(k)][..0] == [];
  }
}
