/** DNS messages as bytes: ids, questions, reply validation and TTLs. */
module Wire {
  import opened Names

  type Byte = b: int | 0 <= b < 0x100
  type Bytes = seq<Byte>
  type U16 = n: nat | n < 0x1_0000
  type U32 = n: nat | n < 0x1_0000_0000
  type U64 = n: nat | n < 0x1_0000_0000_0000_0000

  const HEADER_LEN: nat := 12
  const NXDOMAIN: nat := 3
  const MAX_MESSAGE: nat := 0xFFFF
  const UDP_BUFFER: nat := 4096

  datatype Question = Question(name: DnsName, qtype: U16, qclass: U16)

  /** What the resolver reads of a message besides its id. */
  datatype Body = Body(isResponse: bool, rcode: nat, questions: seq<Question>, answerTtls: seq<U32>)

  datatype Message = Message(id: U16, body: Body)

  /** The wire library: decodes everything after the two id bytes. */
  type Decoder = Bytes -> Option<Body>

  function Parse(decode: Decoder, wire: Bytes): Option<Message> {
    if |wire| < HEADER_LEN then None
    else match decode(wire[2..])
      case None => None
      case Some(body) =>
        var hi: int, lo: int := wire[0], wire[1];
        Some(Message(hi * 0x100 + lo, body))
  }

  function FirstQuestion(decode: Decoder, wire: Bytes): Option<Question> {
    match Parse(decode, wire)
    case Some(m) => if m.body.questions == [] then None else Some(m.body.questions[0])
    case None => None
  }

  datatype CacheKey = CacheKey(name: Ascii, rtype: U16)

  /** `name` in `handle`: printed, dots trimmed off the end, lowercased. */
  function NameOf(q: Question): Ascii {
    KeyNameIs(q.name);
    KeyName(q.name)
  }

  function KeyOf(decode: Decoder, data: Bytes): Option<CacheKey> {
    match FirstQuestion(decode, data)
    case Some(q) => Some(CacheKey(NameOf(q), q.qtype))
    case None => None
  }

  predicate SameQuestion(a: Question, b: Question) {
    SameName(a.name, b.name) && a.qtype == b.qtype && a.qclass == b.qclass
  }

  /** The anti-spoofing check on an upstream reply. */
  predicate ValidResponse(decode: Decoder, query: Bytes, resp: Bytes) {
    match (Parse(decode, query), Parse(decode, resp))
    case (Some(q), Some(r)) =>
      && r.body.isResponse
      && r.id == q.id
      && q.body.questions != [] && r.body.questions != []
      && SameQuestion(q.body.questions[0], r.body.questions[0])
    case _ => false
  }

  /**
   * A reply that may be accepted: it echoes the query's two id bytes, is a response, and its first question
   * is the query's, letter by letter up to case, in type and in class.
   */
  predicate Acceptable(decode: Decoder, query: Bytes, reply: Bytes) {
    && |query| >= 12 && |reply| >= 12 && reply[..2] == query[..2]
    && match (decode(query[2..]), decode(reply[2..]))
       case (Some(q), Some(r)) =>
         && r.isResponse && q.questions != [] && r.questions != []
         && SameName(q.questions[0].name, r.questions[0].name)
         && q.questions[0].qtype == r.questions[0].qtype
         && q.questions[0].qclass == r.questions[0].qclass
       case _ => false
  }

  /** The check lets through exactly the acceptable replies. */
  lemma ValidResponseIff(decode: Decoder, query: Bytes, reply: Bytes)
    ensures ValidResponse(decode, query, reply) <==> Acceptable(decode, query, reply)
  {
    hide SameName;
    if |query| >= 12 && |reply| >= 12 {
      assert reply[..2] == [reply[0], reply[1]] && query[..2] == [query[0], query[1]];
      IdsAreBytes(query[0], query[1], reply[0], reply[1]);
    }
  }

  lemma IdsAreBytes(a: Byte, b: Byte, c: Byte, d: Byte)
    ensures a * 0x100 + b == c * 0x100 + d <==> a == c && b == d
  {
  }

  /** Which packets have a key, and what it is. */
  lemma KeyIs(decode: Decoder, data: Bytes)
    ensures KeyOf(decode, data).Some? <==>
            |data| >= 12 && decode(data[2..]).Some? && decode(data[2..]).value.questions != []
    ensures KeyOf(decode, data).Some? ==>
              var q := decode(data[2..]).value.questions[0];
              KeyOf(decode, data) == Some(CacheKey(NameOf(q), q.qtype)) && NameOf(q) == KeyName(q.name)
  {
  }

  // ---- transaction ids ----

  function Patched(wire: Bytes, id: U16): (out: Bytes)
    ensures |out| == |wire| && (|wire| >= 2 ==> out[2..] == wire[2..])
  {
    if |wire| >= 2 then [id / 0x100, id % 0x100] + wire[2..] else wire
  }

  method PatchId(wire: Bytes, id: U16) returns (out: array<Byte>)
    ensures fresh(out) && out[..] == Patched(wire, id)
  {
    out := new Byte[|wire|](i requires 0 <= i < |wire| => wire[i]);
    if out.Length >= 2 {
      out[0] := id / 0x100;
      out[1] := id % 0x100;
    }
  }

  /** Patching changes what a client decodes in the id alone. */
  lemma PatchedParses(decode: Decoder, wire: Bytes, id: U16)
    ensures Parse(decode, Patched(wire, id)) ==
            match Parse(decode, wire) case Some(m) => Some(m.(id := id)) case None => None
  {
  }

  /** Patching with the id of a query copies that query's two id bytes. */
  lemma PatchedBytes(decode: Decoder, wire: Bytes, query: Bytes)
    requires Parse(decode, query).Some? && |wire| >= 2
    ensures Patched(wire, Parse(decode, query).value.id) == query[..2] + wire[2..]
  {
    SplitId(query[0], query[1]);
    assert query[..2] == [query[0], query[1]];
  }

  lemma SplitId(hi: Byte, lo: Byte)
    ensures (hi * 0x100 + lo) / 0x100 == hi && (hi * 0x100 + lo) % 0x100 == lo
  {
  }

  /** Answers to clients: a key match is exactly a question match on name and type. */
  lemma KeyIdentifiesQuestion(decode: Decoder, a: Bytes, b: Bytes)
    requires FirstQuestion(decode, a).Some? && FirstQuestion(decode, b).Some?
    ensures var p, q := FirstQuestion(decode, a).value, FirstQuestion(decode, b).value;
            KeyOf(decode, a) == KeyOf(decode, b) <==> SameName(p.name, q.name) && p.qtype == q.qtype
  {
    KeyNameIdentifies(FirstQuestion(decode, a).value.name, FirstQuestion(decode, b).value.name);
  }

  /**
   * A validated reply to some query, patched for any client whose query has the same key,
   * decodes to a response with that client's id and a first question equal to the client's
   * in name and type.
   */
  lemma PatchedAnswersClient(decode: Decoder, query: Bytes, reply: Bytes, client: Bytes)
    requires Acceptable(decode, query, reply)
    requires KeyOf(decode, client).Some? && KeyOf(decode, client) == KeyOf(decode, query)
    ensures var c := Parse(decode, client).value;
            var served := Parse(decode, Patched(reply, c.id));
            && served.Some? && served.value.id == c.id && served.value.body.isResponse
            && served.value.body.questions != []
            && SameName(served.value.body.questions[0].name, c.body.questions[0].name)
            && served.value.body.questions[0].qtype == c.body.questions[0].qtype
  {
    hide Acceptable, Patched, Parse, NameOf, SameName;
    var c := Parse(decode, client).value;
    ValidResponseIff(decode, query, reply);
    PatchedParses(decode, reply, c.id);
    KeyIdentifiesQuestion(decode, query, client);
    SameNameThrough(Parse(decode, reply).value.body.questions[0].name,
                    Parse(decode, query).value.body.questions[0].name, c.body.questions[0].name);
  }

  // ---- caching ----

  datatype CachedResponse = CachedResponse(wire: Bytes, ttl: U32, expires: U64)

  function Min(a: nat, b: nat): (r: nat)
    ensures r <= a && r <= b && (r == a || r == b)
  {
    if a <= b then a else b
  }

  function Max(a: nat, b: nat): (r: nat)
    ensures r >= a && r >= b && (r == a || r == b)
  {
    if a >= b then a else b
  }

  function Clamp(v: U32, lo: U32, hi: U32): (r: U32)
    requires lo <= hi
    ensures lo <= r <= hi && (lo <= v <= hi ==> r == v) && (v < lo ==> r == lo) && (v > hi ==> r == hi)
  {
    if v < lo then lo else if v > hi then hi else v
  }

  /** Whole seconds of a clock that counts milliseconds. */
  function Seconds(ms: nat): nat { ms / 1000 }

  /** Clock readings at which adding a TTL still fits 64 bits of seconds. */
  type Millis = ms: nat | ms / 1000 < 0xFFFF_FFFF_0000_0000
}
