/** Forwarding to the configured servers in order, with TCP retry and TTL clamping. */
module Upstream {
  import opened Names
  import opened Wire

  /** One exchange with a server: an I/O error or timeout, or the bytes it sent. */
  datatype Exchange = Failed | Got(bytes: Bytes)

  type TcpReply = e: Exchange | e.Got? ==> |e.bytes| <= MAX_MESSAGE witness Failed

  /** What a server would do if asked: its datagram, and its reply over TCP. */
  datatype Attempt = Attempt(udp: Exchange, tcp: TcpReply)

  datatype Limits = Limits(minTtl: U32, maxTtl: U32, negativeTtl: U32) {
    /** `clamp` panics on an empty range. */
    predicate Valid() { minTtl <= maxTtl }
  }

  /** The receive buffer keeps the first 4096 bytes of a datagram. */
  function Received(datagram: Bytes): Bytes {
    datagram[..Min(UDP_BUFFER, |datagram|)]
  }

  /** TC bit (section 4.1.1 of RFC 1035). */
  predicate Truncated(wire: Bytes) {
    |wire| >= 3 && (wire[2] / 2) % 2 == 1
  }

  /** `query_udp`: the datagram, or the TCP reply when the datagram is truncated. */
  function Ask(a: Attempt): Exchange {
    if a.udp.Failed? then Failed
    else if Truncated(Received(a.udp.bytes)) then a.tcp
    else Got(Received(a.udp.bytes))
  }

  predicate Usable(decode: Decoder, query: Bytes, a: Attempt) {
    Ask(a).Got? && ValidResponse(decode, query, Ask(a).bytes)
  }

  /** Index of the first server whose reply is usable, or the number of servers. */
  function FirstUsable(decode: Decoder, query: Bytes, attempts: seq<Attempt>): (i: nat)
    ensures i <= |attempts|
    ensures i < |attempts| ==> Usable(decode, query, attempts[i])
    ensures forall j | 0 <= j < i :: !Usable(decode, query, attempts[j])
  {
    if attempts == [] || Usable(decode, query, attempts[0]) then 0
    else 1 + FirstUsable(decode, query, attempts[1..])
  }

  function Least(ttls: seq<U32>): (m: U32)
    requires ttls != []
    ensures m in ttls && forall t | t in ttls :: m <= t
  {
    if |ttls| == 1 then ttls[0]
    else
      var m := Least(ttls[1..]);
      assert forall t | t in ttls :: t == ttls[0] || t in ttls[1..];
      if ttls[0] <= m then ttls[0] else m
  }

  function EffectiveTtl(decode: Decoder, limits: Limits, wire: Bytes): (ttl: U32)
    requires limits.Valid()
    ensures limits.minTtl <= ttl <= limits.maxTtl
  {
    var raw := match Parse(decode, wire)
      case Some(m) =>
        if m.body.rcode == NXDOMAIN || m.body.answerTtls == [] then limits.negativeTtl
        else Least(m.body.answerTtls)
      case None => limits.negativeTtl;
    Clamp(raw, limits.minTtl, limits.maxTtl)
  }

  function ToCached(decode: Decoder, limits: Limits, wire: Bytes, now: Millis): CachedResponse
    requires limits.Valid()
  {
    var ttl := EffectiveTtl(decode, limits, wire);
    CachedResponse(wire, ttl, Seconds(now) + ttl)
  }

  /** The result of `resolve`: the entry made from the first usable reply, if any. */
  function Resolution(decode: Decoder, limits: Limits, query: Bytes, attempts: seq<Attempt>, now: Millis)
    : Option<CachedResponse>
    requires limits.Valid()
  {
    var i := FirstUsable(decode, query, attempts);
    if i == |attempts| then None else Some(ToCached(decode, limits, Ask(attempts[i]).bytes, now))
  }

  // ---- what a resolution means, apart from how it is computed ----

  /** Bit 0x02 of the third byte of a header. */
  predicate TcBit(b: Byte) { (b as bv8) & 0x02 != 0 }

  lemma TruncatedIff(wire: Bytes)
    ensures Truncated(wire) <==> |wire| >= 3 && TcBit(wire[2])
  {
    if |wire| >= 3 {
      BitTwo(wire[2]);
    }
  }

  lemma BitTwo(b: Byte)
    ensures (b / 2) % 2 == 1 <==> (b as bv8) & 0x02 != 0
  {
  }

  /**
   * The server's reply is `wire`: the first 4096 bytes of its datagram if their TC bit is clear (or they are
   * fewer than three), and otherwise what it sent over TCP.
   */
  predicate Delivers(a: Attempt, wire: Bytes) {
    && a.udp.Got?
    && var d := if |a.udp.bytes| <= 4096 then a.udp.bytes else a.udp.bytes[..4096];
       if |d| >= 3 && TcBit(d[2]) then a.tcp == Got(wire) else wire == d
  }

  /** The server has an acceptable reply. */
  ghost predicate Helps(decode: Decoder, query: Bytes, a: Attempt) {
    exists wire :: Delivers(a, wire) && Acceptable(decode, query, wire)
  }

  lemma AskIff(a: Attempt, wire: Bytes)
    ensures Ask(a) == Got(wire) <==> Delivers(a, wire)
  {
    hide TcBit, Truncated;
    if a.udp.Got? {
      TruncatedIff(Received(a.udp.bytes));
      assert a.udp.bytes[..|a.udp.bytes|] == a.udp.bytes;
    }
  }

  lemma UsableIff(decode: Decoder, query: Bytes, a: Attempt)
    ensures Usable(decode, query, a) <==> Helps(decode, query, a)
  {
    hide Ask, Delivers, ValidResponse, Acceptable;
    if Ask(a).Got? {
      AskIff(a, Ask(a).bytes);
      ValidResponseIff(decode, query, Ask(a).bytes);
    }
    forall wire | Delivers(a, wire) ensures Ask(a) == Got(wire) {
      AskIff(a, wire);
    }
  }

  /** Server `i` is the first with an acceptable reply, and `wire` is that reply. */
  ghost predicate FirstReply(decode: Decoder, query: Bytes, attempts: seq<Attempt>, i: int, wire: Bytes) {
    && 0 <= i < |attempts|
    && Delivers(attempts[i], wire) && Acceptable(decode, query, wire)
    && (forall j | 0 <= j < i :: !Helps(decode, query, attempts[j]))
  }

  /**
   * Everything a caller may rely on: `resolve` errs exactly if no server has an acceptable reply, and
   * otherwise its entry is the acceptable reply of the first server that has one. That reply fits a 16-bit
   * length, and its TTL is counted from now.
   */
  lemma ResolutionMeans(decode: Decoder, limits: Limits, query: Bytes, attempts: seq<Attempt>, now: Millis)
    requires limits.Valid()
    ensures var r := Resolution(decode, limits, query, attempts, now);
            && (r.None? <==> forall j | 0 <= j < |attempts| :: !Helps(decode, query, attempts[j]))
            && (r.Some? ==>
                  && (exists i :: FirstReply(decode, query, attempts, i, r.value.wire))
                  && |r.value.wire| <= MAX_MESSAGE
                  && r.value.expires == now / 1000 + r.value.ttl
                  && TtlOf(decode, limits, r.value.wire, r.value.ttl))
  {
    hide Helps, Delivers, Acceptable, TtlOf, Usable;
    var i := FirstUsable(decode, query, attempts);
    forall j | 0 <= j < |attempts| ensures Usable(decode, query, attempts[j]) <==> Helps(decode, query, attempts[j]) {
      UsableIff(decode, query, attempts[j]);
    }
    if i < |attempts| {
      UsableMeans(decode, query, attempts[i]);
      var w := Ask(attempts[i]).bytes;
      TtlMeans(decode, limits, w);
      assert FirstReply(decode, query, attempts, i, w);
    }
  }

  lemma UsableMeans(decode: Decoder, query: Bytes, a: Attempt)
    requires Usable(decode, query, a)
    ensures Ask(a).Got? && Delivers(a, Ask(a).bytes) && Acceptable(decode, query, Ask(a).bytes)
    ensures |Ask(a).bytes| <= MAX_MESSAGE && Parse(decode, Ask(a).bytes).Some?
  {
    hide Delivers, Acceptable;
    AskIff(a, Ask(a).bytes);
    ValidResponseIff(decode, query, Ask(a).bytes);
  }

  /** `raw` held to the limits. */
  predicate Limited(raw: U32, limits: Limits, ttl: U32) {
    && (raw <= limits.minTtl ==> ttl == limits.minTtl)
    && (raw >= limits.maxTtl ==> ttl == limits.maxTtl)
    && (limits.minTtl < raw < limits.maxTtl ==> ttl == raw)
  }

  /**
   * `ttl` is the least answer TTL held to the limits, or for a name error (response code 3, section 4.1.1 of
   * RFC 1035) or a reply without answers the negative TTL held to them.
   */
  ghost predicate TtlOf(decode: Decoder, limits: Limits, wire: Bytes, ttl: U32)
    requires limits.Valid()
  {
    && Parse(decode, wire).Some?
    && var b := Parse(decode, wire).value.body;
       if b.rcode == 3 || b.answerTtls == [] then Limited(limits.negativeTtl, limits, ttl)
       else exists t :: t in b.answerTtls && (forall u | u in b.answerTtls :: t <= u) && Limited(t, limits, ttl)
  }

  lemma TtlMeans(decode: Decoder, limits: Limits, wire: Bytes)
    requires limits.Valid() && Parse(decode, wire).Some?
    ensures TtlOf(decode, limits, wire, EffectiveTtl(decode, limits, wire))
    ensures limits.minTtl <= EffectiveTtl(decode, limits, wire) <= limits.maxTtl
  {
    var b := Parse(decode, wire).value.body;
    if b.rcode != NXDOMAIN && b.answerTtls != [] {
      var t := Least(b.answerTtls);
      assert Limited(t, limits, EffectiveTtl(decode, limits, wire));
    }
  }

  datatype Result<+T> = Ok(value: T) | Err

  type Server = nat

  /** What a server would do when it is asked as the i-th of a resolution. */
  type Network = (nat, Server) -> Attempt

  function Attempts(net: Network, servers: seq<Server>): (r: seq<Attempt>)
    ensures |r| == |servers| && forall i | 0 <= i < |servers| :: r[i] == net(i, servers[i])
  {
    seq(|servers|, i requires 0 <= i < |servers| => net(i, servers[i]))
  }

  class Forwarder {
    const limits: Limits
    var servers: seq<Server>

    constructor (limits: Limits, servers: seq<Server>)
      ensures this.limits == limits && this.servers == servers
    {
      this.limits := limits;
      this.servers := servers;
    }

    method SetServers(servers: seq<Server>)
      modifies this
      ensures this.servers == servers
    {
      this.servers := servers;
    }

    /**
     * The failover loop. `net` is what each server would do at its turn; servers after the one that answered
     * are not contacted, and each contacted server sees at most one datagram and one connection.
     */
    method Resolve(net: Network, decode: Decoder, query: Bytes, now: Millis)
      returns (r: Result<CachedResponse>, ghost contacts: nat)
      requires limits.Valid()
      ensures r == match Resolution(decode, limits, query, Attempts(net, servers), now)
                   case Some(v) => Ok(v) case None => Err
      ensures r.Ok? ==> exists i :: FirstReply(decode, query, Attempts(net, servers), i, r.value.wire)
      ensures r.Err? ==> forall i | 0 <= i < |servers| :: !Helps(decode, query, net(i, servers[i]))
      ensures contacts <= 2 * if r.Ok? then FirstUsable(decode, query, Attempts(net, servers)) + 1 else |servers|
    {
      hide FirstReply, Helps, Acceptable, ValidResponse, TtlOf, Truncated;
      contacts := 0;
      ghost var attempts := Attempts(net, servers);
      ResolutionMeans(decode, limits, query, attempts, now);
      if servers == [] {
        return Err, 0;
      }
      for i := 0 to |servers|
        invariant contacts <= 2 * i
        invariant forall j | 0 <= j < i :: !Usable(decode, query, attempts[j])
      {
        var a := net(i, servers[i]);
        var reply := a.udp;
        contacts := contacts + 1;
        if reply.Got? {
          reply := Got(Received(reply.bytes));
          if Truncated(reply.bytes) {
            reply := a.tcp;
            contacts := contacts + 1;
          }
        }
        if reply.Got? && ValidResponse(decode, query, reply.bytes) {
          assert a == attempts[i] && FirstUsable(decode, query, attempts) == i;
          return Ok(ToCached(decode, limits, reply.bytes, now)), contacts;
        }
      }
      r := Err;
    }
  }
}
