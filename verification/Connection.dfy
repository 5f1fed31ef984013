/** A TCP connection whose messages need not wait for other queries: frames in, frames out. */
module Connection {
  import opened Names
  import opened Wire
  import opened Upstream
  import opened Resolver
  import opened Framing
  import opened Blocklist
  import opened Service

  /**
   * The messages of the resolver's own: a header, one question and at most one record, each with a name of
   * at most 255 bytes (section 2.3.4 of RFC 1035) and an address of at most 16.
   */
  const OWN_MESSAGE_MAX: nat := HEADER_LEN + (255 + 4) + (255 + 10 + 16)

  type OwnMessage = b: Bytes | |b| <= OWN_MESSAGE_MAX witness []

  /** The bytes of a response; `build` is the wire library writing those messages. */
  function Rendered(build: Response -> OwnMessage, r: Response): Bytes {
    if r.Carrying? then r.bytes else build(r)
  }

  /** What is written for some responses: one message each, nothing for silence. */
  function Output(build: Response -> OwnMessage, rs: seq<Response>): seq<Bytes> {
    if rs == [] then []
    else
      var n := |rs| - 1;
      Output(build, rs[..n]) + if rs[n].Silent? then [] else [Rendered(build, rs[n])]
  }

  /** How many of the responses are sent. */
  function Spoken(rs: seq<Response>): nat {
    if rs == [] then 0 else Spoken(rs[..|rs| - 1]) + if rs[|rs| - 1].Silent? then 0 else 1
  }

  /** Response `i`, unless silent, is message number `Spoken(rs[..i])`: a carried answer as its own bytes. */
  predicate ConveyedAt(build: Response -> OwnMessage, rs: seq<Response>, ms: seq<Bytes>, i: nat)
    requires i < |rs|
  {
    var p := Spoken(rs[..i]);
    match rs[i]
    case Silent => true
    case Carrying(bytes) => p < |ms| && ms[p] == bytes
    case Sinkholed => p < |ms| && ms[p] == build(Sinkholed)
    case ServerFailure => p < |ms| && ms[p] == build(ServerFailure)
  }

  /** `ms` are the responses as messages, one for each that is not silent, in order. */
  ghost predicate Conveys(build: Response -> OwnMessage, rs: seq<Response>, ms: seq<Bytes>) {
    |ms| == Spoken(rs) && forall i | 0 <= i < |rs| :: ConveyedAt(build, rs, ms, i)
  }

  lemma {:induction false} OutputConveys(build: Response -> OwnMessage, rs: seq<Response>)
    ensures Conveys(build, rs, Output(build, rs))
  {
    hide ConveyedAt;
    if rs != [] {
      var n := |rs| - 1;
      OutputConveys(build, rs[..n]);
      forall i | 0 <= i < |rs| ensures ConveyedAt(build, rs, Output(build, rs), i) {
        if i < n {
          assert ConveyedAt(build, rs[..n], Output(build, rs[..n]), i);
          EarlierConveyed(build, rs, i);
        } else {
          LastConveyed(build, rs);
        }
      }
    }
  }

  lemma EarlierConveyed(build: Response -> OwnMessage, rs: seq<Response>, i: nat)
    requires i < |rs| - 1 && ConveyedAt(build, rs[..|rs| - 1], Output(build, rs[..|rs| - 1]), i)
    ensures ConveyedAt(build, rs, Output(build, rs), i)
  {
    assert rs[..|rs| - 1][..i] == rs[..i];
  }

  lemma LastConveyed(build: Response -> OwnMessage, rs: seq<Response>)
    requires rs != [] && |Output(build, rs[..|rs| - 1])| == Spoken(rs[..|rs| - 1])
    ensures ConveyedAt(build, rs, Output(build, rs), |rs| - 1)
  {
  }

  /** `rs` answer `data` one after the other, the shared state going through `snaps`. */
  ghost predicate Answered(
    c: Config, lists: Lists, attempts: nat -> seq<Attempt>, now: Millis, accepted: set<Accept>,
    snaps: seq<Snapshot>, data: seq<Bytes>, rs: seq<Response>)
    requires c.Valid()
  {
    && |data| == |rs| && |snaps| == |rs| + 1
    && forall i | 0 <= i < |rs| :: Serves(c, lists, attempts(i), now, accepted, snaps[i], snaps[i + 1], data[i], rs[i])
  }

  lemma MoreAccepted(
    c: Config, lists: Lists, attempts: seq<Attempt>, now: Millis, accepted: set<Accept>, more: set<Accept>,
    was: Snapshot, left: Snapshot, data: Bytes, r: Response)
    requires c.Valid() && accepted <= more && Serves(c, lists, attempts, now, accepted, was, left, data, r)
    ensures Serves(c, lists, attempts, now, more, was, left, data, r)
  {
    hide KeyOf, Blocks, Deadline, Resolution, Patched, Parse, SameName;
  }

  lemma MoreAnswered(
    c: Config, lists: Lists, attempts: nat -> seq<Attempt>, now: Millis, accepted: set<Accept>, more: set<Accept>,
    snaps: seq<Snapshot>, data: seq<Bytes>, rs: seq<Response>)
    requires c.Valid() && accepted <= more && Answered(c, lists, attempts, now, accepted, snaps, data, rs)
    ensures Answered(c, lists, attempts, now, more, snaps, data, rs)
  {
    hide Serves;
    forall i | 0 <= i < |rs|
      ensures Serves(c, lists, attempts(i), now, more, snaps[i], snaps[i + 1], data[i], rs[i])
    {
      MoreAccepted(c, lists, attempts(i), now, accepted, more, snaps[i], snaps[i + 1], data[i], rs[i]);
    }
  }

  lemma AnsweredExtends(
    c: Config, lists: Lists, attempts: nat -> seq<Attempt>, now: Millis, accepted: set<Accept>, more: set<Accept>,
    snaps: seq<Snapshot>, data: seq<Bytes>, rs: seq<Response>, snap: Snapshot, m: Bytes, r: Response)
    requires c.Valid() && accepted <= more && Answered(c, lists, attempts, now, accepted, snaps, data, rs)
    requires Serves(c, lists, attempts(|rs|), now, more, snaps[|rs|], snap, m, r)
    ensures Answered(c, lists, attempts, now, more, snaps + [snap], data + [m], rs + [r])
  {
    hide Serves;
    MoreAnswered(c, lists, attempts, now, accepted, more, snaps, data, rs);
  }

  lemma OutputExtends(build: Response -> OwnMessage, rs: seq<Response>, r: Response)
    ensures Output(build, rs + [r]) == Output(build, rs) + if r.Silent? then [] else [Rendered(build, r)]
    ensures Stream(Output(build, rs + [r])) ==
            Stream(Output(build, rs)) + if r.Silent? then [] else Frame(Rendered(build, r))
  {
    hide Rendered, Frame;
    assert (rs + [r])[..|rs|] == rs;
    if r.Silent? {
      assert Output(build, rs) + [] == Output(build, rs);
    } else {
      StreamAppend(Output(build, rs), Rendered(build, r));
    }
  }

  /** What the messages of a connection meet upstream, one after the other. */
  function Met(nets: nat -> Network, servers: seq<Server>): nat -> seq<Attempt> {
    (i: nat) => Attempts(nets(i), servers)
  }

  /** No query under way fetches what `data` asks for, and upstream has a permit left. */
  predicate Free(c: Config, waiters: map<CacheKey, TaskId>, permits: nat, data: Bytes) {
    match KeyOf(c.decode, data) case Some(k) => k !in waiters && permits > 0 case None => true
  }

  /**
   * The loop of `tcp_conn`: each message is answered before the next one is read, and the connection ends
   * when the stream does, or at once if its first message finds the pool of permits empty. (Later ones cannot:
   * nothing else runs meanwhile, and each gives its permit back.)
   */
  method ServeConnection(
    state: AppState, stream: Bytes, nets: nat -> Network, build: Response -> OwnMessage)
    returns (out: Bytes, ghost snaps: seq<Snapshot>, ghost rs: seq<Response>)
    requires state.Valid()
    requires forall m | m in ReadAll(stream) :: Free(state.config, state.waiters, state.permits, m)
    modifies state
    ensures state.Valid() && state.config.Valid() && state.inflight == old(state.inflight)
    ensures snaps != [] && snaps[0] == old(state.Snap()) && snaps[|snaps| - 1] == state.Snap()
    ensures |rs| <= |ReadAll(stream)|
    ensures Answered(state.config, state.blocklist.lists, Met(nets, state.upstream.servers), state.now,
                     state.st.past.accepted, snaps, ReadAll(stream)[..|rs|], rs)
    ensures out == Stream(Output(build, rs)) && Conveys(build, rs, ReadAll(out))
    ensures if state.inflight > 0 || ReadAll(stream) == [] then
              |rs| == |ReadAll(stream)| && state.dropped == old(state.dropped)
            else rs == [] && state.dropped == old(state.dropped) + 1
  {
    hide LengthAt, ReadAll, Stream, Frame, Output, Serves, Answered, Rendered, AppState.Valid, Free, Conveys;
    state.ConfigOk();
    out := [];
    rs, snaps := [], [state.Snap()];
    ghost var all := ReadAll(stream);
    StartOfRun(state.config, state.blocklist.lists, Met(nets, state.upstream.servers), state.now,
               state.st.past.accepted, snaps, build);
    ghost var done := [];
    var rest := stream;
    var turn := 0;
    assert done + ReadAll(rest) == all;
    while true
      invariant state.Valid() && turn == |rs| == |done|
      invariant state.now == old(state.now) && state.blocklist == old(state.blocklist)
      invariant state.inflight == old(state.inflight) && state.dropped == old(state.dropped)
      invariant state.waiters == old(state.waiters) && state.permits == old(state.permits)
      invariant turn > 0 ==> state.inflight > 0
      invariant done + ReadAll(rest) == all
      invariant |snaps| == |rs| + 1 && snaps[0] == old(state.Snap()) && snaps[|rs|] == state.Snap()
      invariant Answered(state.config, state.blocklist.lists, Met(nets, state.upstream.servers), state.now,
                         state.st.past.accepted, snaps, done, rs)
      invariant out == Stream(Output(build, rs))
      decreases |rest|
    {
      ReadNext(rest);
      if |rest| < 2 || |rest| < 2 + LengthAt(rest) {
        assert done + [] == done;
        break;
      }
      var len: nat := LengthAt(rest);
      var m := rest[2..2 + len];
      assert all[|done|] == m;
      FreeIsUnhindered(state, m);
      ghost var accepted := state.st.past.accepted;
      var admitted, r := state.Serve(m, nets(turn));
      if !admitted {
        MoreAnswered(state.config, state.blocklist.lists, Met(nets, state.upstream.servers), state.now,
                     accepted, state.st.past.accepted, snaps, done, rs);
        assert all[..0] == done;
        break;
      }
      AnsweredExtends(state.config, state.blocklist.lists, Met(nets, state.upstream.servers), state.now,
                      accepted, state.st.past.accepted, snaps, done, rs, state.Snap(), m, r);
      OutputExtends(build, rs, r);
      if r != Silent {
        out := out + Frame(Rendered(build, r));
      }
      rest := rest[2 + len..];
      assert done + ([m] + ReadAll(rest)) == done + [m] + ReadAll(rest);
      done, rs, snaps := done + [m], rs + [r], snaps + [state.Snap()];
      turn := turn + 1;
    }
    assert all[..|done|] == done;
    ClientReadsResponses(state.config, state.blocklist.lists, Met(nets, state.upstream.servers), state.now,
                         state.st.past.accepted, snaps, done, build, rs);
  }

  lemma FreeIsUnhindered(state: AppState, m: Bytes)
    requires Free(state.config, state.waiters, state.permits, m)
    ensures state.Unhindered(m)
  {
    hide KeyOf, Blocks, Deadline;
  }

  lemma ReadNext(s: Bytes)
    ensures ReadAll(s) == if |s| < 2 || |s| < 2 + LengthAt(s) then []
                          else [s[2..2 + LengthAt(s)]] + ReadAll(s[2 + LengthAt(s)..])
  {
    hide LengthAt;
  }

  lemma StartOfRun(
    c: Config, lists: Lists, attempts: nat -> seq<Attempt>, now: Millis, accepted: set<Accept>,
    snaps: seq<Snapshot>, build: Response -> OwnMessage)
    requires c.Valid() && |snaps| == 1
    ensures Answered(c, lists, attempts, now, accepted, snaps, [], [])
    ensures Stream(Output(build, [])) == []
  {
  }

  /**
   * The client reads back exactly the responses, one per message that got one, in order and byte for byte:
   * nothing that is ever sent exceeds its length prefix.
   */
  lemma ClientReadsResponses(
    c: Config, lists: Lists, attempts: nat -> seq<Attempt>, now: Millis, accepted: set<Accept>,
    snaps: seq<Snapshot>, data: seq<Bytes>, build: Response -> OwnMessage, rs: seq<Response>)
    requires c.Valid() && Answered(c, lists, attempts, now, accepted, snaps, data, rs)
    ensures ReadAll(Stream(Output(build, rs))) == Output(build, rs)
    ensures Conveys(build, rs, ReadAll(Stream(Output(build, rs))))
  {
    hide ReadAll, Stream, Serves, Fits, Conveys;
    OutputConveys(build, rs);
    StreamSurvivesIff(Output(build, rs));
    forall i | 0 <= i < |rs| && rs[i].Carrying? ensures |rs[i].bytes| <= MAX_MESSAGE {
      CarriedFits(c, lists, attempts(i), now, accepted, snaps[i], snaps[i + 1], data[i], rs[i]);
    }
    OutputFits(build, rs);
  }

  lemma CarriedFits(
    c: Config, lists: Lists, attempts: seq<Attempt>, now: Millis, accepted: set<Accept>,
    was: Snapshot, left: Snapshot, data: Bytes, r: Response)
    requires c.Valid() && Serves(c, lists, attempts, now, accepted, was, left, data, r) && r.Carrying?
    ensures |r.bytes| <= MAX_MESSAGE
  {
    hide KeyOf, Blocks, Deadline, Resolution, Patched, Parse, SameName;
  }

  lemma {:induction false} OutputFits(build: Response -> OwnMessage, rs: seq<Response>)
    requires forall r | r in rs && r.Carrying? :: |r.bytes| <= MAX_MESSAGE
    ensures Fits(Output(build, rs))
  {
    if rs != [] {
      OutputFits(build, rs[..|rs| - 1]);
    }
  }
}
