/** The durable store: byte rows in one redb table, its row codec, warm load and purge. */
module Store {
  import Digits
  import opened Names
  import opened Order
  import opened Wire

  type Item = (CacheKey, CachedResponse)
  type Table = map<Bytes, Bytes>

  // ---- row codec ----

  function Be(v: nat, w: nat): (r: Bytes)
    ensures |r| == w && r == Digits.Encode(0x100, v, w)
  {
    Digits.Encode(0x100, v, w)
  }

  function FromBe(b: Bytes): nat { Digits.Decode(0x100, b) }

  function AsBytes(s: Ascii): (r: Bytes)
    ensures |r| == |s| && r == Codes(s)
  {
    seq(|s|, i requires 0 <= i < |s| => s[i] as int)
  }

  /** `String::from_utf8`, for names that are ASCII. */
  function FromUtf8(b: Bytes): Option<Ascii> {
    if forall i | 0 <= i < |b| :: b[i] < 128 then
      Some(seq(|b|, i requires 0 <= i < |b| => b[i] as char))
    else None
  }

  /** rtype (2 bytes, big-endian) then the name. */
  function EncKey(k: CacheKey): Bytes { Be(k.rtype, 2) + AsBytes(k.name) }

  function DecKey(b: Bytes): Option<CacheKey> {
    if |b| < 2 then None
    else match FromUtf8(b[2..])
      case Some(name) => Some(CacheKey(name, U16Of(b[..2])))
      case None => None
  }

  /** expires (8 bytes) then ttl (4 bytes) then the wire message. */
  function EncVal(v: CachedResponse): Bytes { Be(v.expires, 8) + Be(v.ttl, 4) + v.wire }

  function DecVal(b: Bytes): Option<CachedResponse> {
    if |b| < 12 then None else Some(CachedResponse(b[12..], U32Of(b[8..12]), U64Of(b[..8])))
  }

  lemma BeBounds()
    ensures Digits.Pow(0x100, 2) == 0x1_0000
    ensures Digits.Pow(0x100, 4) == 0x1_0000_0000
    ensures Digits.Pow(0x100, 8) == 0x1_0000_0000_0000_0000
  {
  }

  function U16Of(b: Bytes): U16 requires |b| == 2 { BeBounds(); Digits.EncodeDecode(0x100, b); FromBe(b) }
  function U32Of(b: Bytes): U32 requires |b| == 4 { BeBounds(); Digits.EncodeDecode(0x100, b); FromBe(b) }
  function U64Of(b: Bytes): U64 requires |b| == 8 { BeBounds(); Digits.EncodeDecode(0x100, b); FromBe(b) }

  lemma KeyRoundTrip(k: CacheKey)
    ensures DecKey(EncKey(k)) == Some(k)
  {
    var b := EncKey(k);
    BeBounds();
    Digits.DecodeEncode(0x100, k.rtype, 2);
    assert b[..2] == Be(k.rtype, 2) && b[2..] == AsBytes(k.name);
    var name := FromUtf8(b[2..]).value;
    assert Codes(name) == Codes(k.name);
    CodesInjective(name, k.name);
  }

  /** Every decodable key row is the encoding of what it decodes to, so decoding is injective. */
  lemma KeyRoundTripBack(b: Bytes)
    requires DecKey(b).Some?
    ensures EncKey(DecKey(b).value) == b
  {
    Digits.EncodeDecode(0x100, b[..2]);
    assert AsBytes(DecKey(b).value.name) == b[2..];
    assert b == b[..2] + b[2..];
  }

  lemma ValRoundTrip(v: CachedResponse)
    ensures DecVal(EncVal(v)) == Some(v)
  {
    var b := EncVal(v);
    BeBounds();
    Digits.DecodeEncode(0x100, v.expires, 8);
    Digits.DecodeEncode(0x100, v.ttl, 4);
    assert b[..8] == Be(v.expires, 8) && b[8..12] == Be(v.ttl, 4) && b[12..] == v.wire;
  }

  lemma ValRoundTripBack(b: Bytes)
    requires DecVal(b).Some?
    ensures EncVal(DecVal(b).value) == b
  {
    Digits.EncodeDecode(0x100, b[..8]);
    Digits.EncodeDecode(0x100, b[8..12]);
    assert b == b[..8] + b[8..12] + b[12..];
  }

  /** Rows sort by record type, then by name. */
  lemma KeyOrder(a: CacheKey, b: CacheKey)
    ensures Less(EncKey(a), EncKey(b)) <==>
            a.rtype < b.rtype || (a.rtype == b.rtype && Less(Codes(a.name), Codes(b.name)))
  {
    BeBounds();
    Digits.EncodeOrder(0x100, a.rtype, b.rtype, 2);
    if a.rtype == b.rtype {
      CommonPrefix(Be(a.rtype, 2), Codes(a.name), Codes(b.name));
    } else if a.rtype < b.rtype {
      DecidedEarly(Be(a.rtype, 2), Be(b.rtype, 2), Codes(a.name), Codes(b.name));
    } else {
      Digits.EncodeOrder(0x100, b.rtype, a.rtype, 2);
      DecidedEarly(Be(b.rtype, 2), Be(a.rtype, 2), Codes(b.name), Codes(a.name));
      Trichotomy(EncKey(a), EncKey(b));
    }
  }

  // ---- writing ----

  function Written(t: Table, items: seq<Item>): Table {
    if items == [] then t
    else
      var n := |items| - 1;
      Written(t, items[..n])[EncKey(items[n].0) := EncVal(items[n].1)]
  }

  function Row(t: Table, kb: Bytes): Option<Item>
    requires kb in t
  {
    match (DecKey(kb), DecVal(t[kb]))
    case (Some(k), Some(v)) => Some((k, v))
    case _ => None
  }

  /** The map the bytes stand for. */
  ghost function View(t: Table): map<CacheKey, CachedResponse> {
    map k | k in (set kb | kb in t && Row(t, kb).Some? :: Row(t, kb).value.0)
      :: (KeyRoundTripAt(t, k); DecVal(t[EncKey(k)]).value)
  }

  lemma KeyRoundTripAt(t: Table, k: CacheKey)
    requires exists kb | kb in t :: Row(t, kb).Some? && Row(t, kb).value.0 == k
    ensures EncKey(k) in t && DecVal(t[EncKey(k)]).Some?
  {
    var kb :| kb in t && Row(t, kb).Some? && Row(t, kb).value.0 == k;
    KeyRoundTripBack(kb);
  }

  lemma ViewAt(t: Table, k: CacheKey)
    ensures k in View(t) <==> EncKey(k) in t && DecVal(t[EncKey(k)]).Some?
    ensures k in View(t) ==> View(t)[k] == DecVal(t[EncKey(k)]).value
  {
    hide DecKey, DecVal, EncKey;
    KeyRoundTrip(k);
    if k in View(t) {
      KeyRoundTripAt(t, k);
    }
    if EncKey(k) in t && DecVal(t[EncKey(k)]).Some? {
      assert Row(t, EncKey(k)).value.0 == k;
    }
  }

  /** Last writer wins. */
  function Folded(m: map<CacheKey, CachedResponse>, items: seq<Item>): map<CacheKey, CachedResponse> {
    if items == [] then m
    else Folded(m, items[..|items| - 1])[items[|items| - 1].0 := items[|items| - 1].1]
  }

  /** The last item for a key, if there is one. */
  function LastFor(items: seq<Item>, k: CacheKey): Option<CachedResponse> {
    if items == [] then None
    else if items[|items| - 1].0 == k then Some(items[|items| - 1].1)
    else LastFor(items[..|items| - 1], k)
  }

  lemma {:induction false} FoldedIsLastFor(m: map<CacheKey, CachedResponse>, items: seq<Item>, k: CacheKey)
    ensures match LastFor(items, k)
            case Some(v) => k in Folded(m, items) && Folded(m, items)[k] == v
            case None => (k in Folded(m, items) <==> k in m) && (k in m ==> Folded(m, items)[k] == m[k])
  {
    if items != [] {
      FoldedIsLastFor(m, items[..|items| - 1], k);
    }
  }

  lemma ViewInsert(t: Table, k: CacheKey, v: CachedResponse)
    ensures View(t[EncKey(k) := EncVal(v)]) == View(t)[k := v]
  {
    hide DecKey, DecVal, EncKey, EncVal;
    var u := t[EncKey(k) := EncVal(v)];
    ValRoundTrip(v);
    forall j ensures j in View(u) <==> j in View(t)[k := v]
             ensures j in View(u) ==> View(u)[j] == View(t)[k := v][j] {
      ViewAt(t, j);
      ViewAt(u, j);
      if EncKey(j) == EncKey(k) {
        KeyRoundTrip(j);
        KeyRoundTrip(k);
      }
    }
  }

  /** The byte table refines a map: a batch acts on it as the last-writer-wins fold. */
  lemma {:induction false} WrittenRefines(t: Table, items: seq<Item>)
    ensures View(Written(t, items)) == Folded(View(t), items)
  {
    if items != [] {
      var n := |items| - 1;
      WrittenRefines(t, items[..n]);
      ViewInsert(Written(t, items[..n]), items[n].0, items[n].1);
    }
  }

  lemma WrittenOne(t: Table, x: Item)
    ensures Written(t, [x]) == t[EncKey(x.0) := EncVal(x.1)]
  {
    assert [x][..0] == [];
  }

  lemma {:induction false} WrittenAppend(t: Table, a: seq<Item>, b: seq<Item>)
    ensures Written(t, a + b) == Written(Written(t, a), b)
    decreases |b|
  {
    if b == [] {
      assert a + b == a;
    } else {
      var n := |b| - 1;
      var ab, last := a + b, b[n];
      assert ab[..|ab| - 1] == a + b[..n] && ab[|ab| - 1] == last;
      WrittenAppend(t, a, b[..n]);
      WrittenSnoc(t, ab);
      WrittenSnoc(Written(t, a), b);
    }
  }

  lemma WrittenNothing(t: Table)
    ensures Written(t, []) == t
  {
  }

  lemma WrittenSnoc(t: Table, items: seq<Item>)
    requires items != []
    ensures var n := |items| - 1;
            Written(t, items) == Written(t, items[..n])[EncKey(items[n].0) := EncVal(items[n].1)]
  {
  }

  // ---- reading ----

  /** `ttl_secs` becomes the remaining lifetime, through a 32-bit cast. */
  function Remaining(v: CachedResponse, sec: nat): CachedResponse
    requires sec < v.expires
  {
    v.(ttl := (v.expires - sec) % 0x1_0000_0000)
  }

  function LiveRow(t: Table, kb: Bytes, sec: nat): Option<Item>
    requires kb in t
  {
    match Row(t, kb)
    case Some((k, v)) => if v.expires > sec then Some((k, Remaining(v, sec))) else None
    case None => None
  }

  /** The rows a load at second `sec` returns, visiting keys in the given order. */
  function ReadRows(t: Table, order: seq<Bytes>, sec: nat): seq<Item>
    requires forall kb | kb in order :: kb in t
  {
    if order == [] then []
    else
      var n := |order| - 1;
      ReadRows(t, order[..n], sec) +
      match LiveRow(t, order[n], sec) case Some(item) => [item] case None => []
  }

  /** redb iterates a table in key order. */
  ghost predicate KeyOrdered(t: Table, order: seq<Bytes>) {
    && (forall kb :: kb in order <==> kb in t)
    && (forall i, j | 0 <= i < j < |order| :: Less(order[i], order[j]))
  }

  lemma {:induction false} ReadRowsMember(t: Table, order: seq<Bytes>, sec: nat, x: Item)
    requires forall kb | kb in order :: kb in t
    ensures x in ReadRows(t, order, sec) <==> exists kb | kb in order :: LiveRow(t, kb, sec) == Some(x)
  {
    hide LiveRow;
    if order != [] {
      var n := |order| - 1;
      var init, last := order[..n], order[n];
      assert forall kb :: kb in order <==> kb in init || kb == last by {
        assert order == init + [last];
      }
      ReadRowsMember(t, init, sec, x);
      var tail := match LiveRow(t, last, sec) case Some(item) => [item] case None => [];
      assert ReadRows(t, order, sec) == ReadRows(t, init, sec) + tail;
      assert x in tail <==> LiveRow(t, last, sec) == Some(x);
    }
  }

  /** A load returns exactly the unexpired entries of the map, each with its remaining lifetime. */
  lemma ReadAllMeans(t: Table, order: seq<Bytes>, sec: nat, k: CacheKey, v: CachedResponse)
    requires KeyOrdered(t, order)
    ensures (k, v) in ReadRows(t, order, sec) <==>
            k in View(t) && View(t)[k].expires > sec && v == Remaining(View(t)[k], sec)
  {
    hide DecKey, DecVal, EncKey, ReadRows;
    ReadRowsMember(t, order, sec, (k, v));
    ViewAt(t, k);
    KeyRoundTrip(k);
    if (k, v) in ReadRows(t, order, sec) {
      var kb :| kb in order && LiveRow(t, kb, sec) == Some((k, v));
      KeyRoundTripBack(kb);
    }
    if k in View(t) && View(t)[k].expires > sec && v == Remaining(View(t)[k], sec) {
      assert EncKey(k) in order && LiveRow(t, EncKey(k), sec) == Some((k, v));
    }
  }

  // ---- purging ----

  predicate ExpiredRow(t: Table, kb: Bytes, sec: nat)
    requires kb in t
  {
    DecVal(t[kb]).Some? && DecVal(t[kb]).value.expires <= sec
  }

  function ExpiredKeys(t: Table, sec: nat): set<Bytes> {
    set kb | kb in t && ExpiredRow(t, kb, sec)
  }

  /** Exactly the rows whose stored expiry second is over. */
  lemma ExpiredKeysAre(t: Table, kb: Bytes, sec: nat)
    ensures kb in ExpiredKeys(t, sec) <==> kb in t && exists v :: DecVal(t[kb]) == Some(v) && v.expires <= sec
  {
    hide DecVal;
  }

  /** What a load sees, key by key. */
  ghost function LiveView(t: Table, sec: nat): map<CacheKey, CachedResponse> {
    map k | k in View(t) && View(t)[k].expires > sec :: Remaining(View(t)[k], sec)
  }

  /** None of the keys holds an entry that is unexpired at `sec`. */
  predicate Harmless(t: Table, keys: set<Bytes>, sec: nat) {
    forall kb | kb in keys && kb in t :: LiveRow(t, kb, sec).None?
  }

  lemma LiveRowIs(t: Table, kb: Bytes, sec: nat)
    requires kb in t
    ensures LiveRow(t, kb, sec).Some? <==>
            exists k :: kb == EncKey(k) && k in View(t) && View(t)[k].expires > sec
    ensures LiveRow(t, kb, sec).Some? ==>
              var k := LiveRow(t, kb, sec).value.0;
              kb == EncKey(k) && k in View(t) && View(t)[k].expires > sec
  {
    hide DecKey, DecVal, EncKey, View;
    if LiveRow(t, kb, sec).Some? {
      var k := LiveRow(t, kb, sec).value.0;
      KeyRoundTripBack(kb);
      ViewAt(t, k);
    }
    if k :| kb == EncKey(k) && k in View(t) && View(t)[k].expires > sec {
      ViewAt(t, k);
      KeyRoundTrip(k);
    }
  }

  lemma ViewWithout(t: Table, keys: set<Bytes>, k: CacheKey)
    ensures k in View(t - keys) <==> k in View(t) && EncKey(k) !in keys
    ensures k in View(t - keys) ==> View(t - keys)[k] == View(t)[k]
  {
    hide DecVal, EncKey, View;
    ViewAt(t, k);
    ViewAt(t - keys, k);
  }

  lemma HarmlessIsInvisible(t: Table, keys: set<Bytes>, sec: nat, later: nat)
    requires Harmless(t, keys, sec) && sec <= later
    ensures LiveView(t - keys, later) == LiveView(t, later)
  {
    hide DecKey, DecVal, EncKey, View, LiveRow;
    forall k ensures k in LiveView(t - keys, later) <==> k in LiveView(t, later)
             ensures k in LiveView(t - keys, later) ==> LiveView(t - keys, later)[k] == LiveView(t, later)[k] {
      ViewWithout(t, keys, k);
      if k in LiveView(t, later) && EncKey(k) in keys {
        ViewAt(t, k);
        LiveRowIs(t, EncKey(k), sec);
      }
    }
  }

  lemma HarmIsVisible(t: Table, keys: set<Bytes>, sec: nat) returns (k: CacheKey)
    requires !Harmless(t, keys, sec)
    ensures k in View(t) && View(t)[k].expires > sec && k !in View(t - keys)
  {
    hide DecKey, DecVal, EncKey, View, LiveRow;
    var kb :| kb in keys && kb in t && LiveRow(t, kb, sec).Some?;
    LiveRowIs(t, kb, sec);
    k := LiveRow(t, kb, sec).value.0;
    ViewWithout(t, keys, k);
  }

  /**
   * Deleting a set of keys collected earlier is invisible to every later load exactly when none of
   * the collected keys holds an unexpired entry at the moment of the delete.
   */
  lemma PurgeInvisibleIff(t: Table, collected: set<Bytes>, sec: nat)
    ensures (forall later: nat | later >= sec :: LiveView(t - collected, later) == LiveView(t, later))
            <==> Harmless(t, collected, sec)
  {
    hide View, Harmless;
    if Harmless(t, collected, sec) {
      forall later: nat | later >= sec ensures LiveView(t - collected, later) == LiveView(t, later) {
        HarmlessIsInvisible(t, collected, sec, later);
      }
    } else {
      var k := HarmIsVisible(t, collected, sec);
      assert k in LiveView(t, sec) && k !in LiveView(t - collected, sec);
    }
  }

  lemma ExpiredIsHarmless(t: Table, sec: nat)
    ensures Harmless(t, ExpiredKeys(t, sec), sec)
  {
    hide DecKey, DecVal;
  }

  /** With nothing committed in between, collecting and deleting never loses an unexpired entry. */
  lemma UninterruptedPurge(t: Table, at: nat, later: nat)
    requires at <= later
    ensures LiveView(t - ExpiredKeys(t, at), later) == LiveView(t, later)
  {
    hide Harmless, ExpiredKeys, LiveView;
    ExpiredIsHarmless(t, at);
    HarmlessIsInvisible(t, ExpiredKeys(t, at), at, later);
  }

  /**
   * The two transactions can lose data: a row refreshed between them is deleted with a whole
   * lifetime left.
   */
  lemma InterruptedPurgeLoses(k: CacheKey, wire: Bytes)
    ensures var stale := CachedResponse(wire, 5, 10);
            var refreshed := CachedResponse(wire, 60, 70);
            var t := Written(map[], [(k, stale)]);
            var collected := ExpiredKeys(t, 10);
            var t' := Written(t, [(k, refreshed)]);
            k in LiveView(t', 10) && LiveView(t' - collected, 10) == map[]
  {
    hide EncKey, EncVal, DecVal, Written, DecKey;
    var stale := CachedResponse(wire, 5, 10);
    var refreshed := CachedResponse(wire, 60, 70);
    var t := Written(map[], [(k, stale)]);
    WrittenOne(map[], (k, stale));
    ValRoundTrip(stale);
    ValRoundTrip(refreshed);
    var t' := Written(t, [(k, refreshed)]);
    WrittenOne(t, (k, refreshed));
    ViewAt(t', k);
    assert ExpiredRow(t, EncKey(k), 10);
    assert t' - ExpiredKeys(t, 10) == map[];
  }

  // ---- the store itself ----

  predicate Distinct(s: seq<Bytes>) {
    forall i, j | 0 <= i < j < |s| :: s[i] != s[j]
  }

  lemma ReadNone(t: Table, sec: nat)
    ensures ReadRows(t, [], sec) == []
  {
  }

  function Rows(t: Table, kb: Bytes, sec: nat): seq<Item>
    requires kb in t
  {
    match LiveRow(t, kb, sec) case Some(item) => [item] case None => []
  }

  lemma ReadOneMore(t: Table, order: seq<Bytes>, i: nat, sec: nat)
    requires (forall kb | kb in order :: kb in t) && i < |order|
    ensures ReadRows(t, order[..i + 1], sec) == ReadRows(t, order[..i], sec) + Rows(t, order[i], sec)
  {
    hide LiveRow;
    assert order[..i + 1][..i] == order[..i];
  }

  lemma NoneDistinct()
    ensures Distinct([])
  {
  }

  lemma OneMoreDistinct(s: seq<Bytes>, kb: Bytes)
    requires Distinct(s) && kb !in s
    ensures Distinct(s + [kb])
  {
  }

  lemma {:induction false} DistinctCount(s: seq<Bytes>)
    requires Distinct(s)
    ensures |s| == |set kb | kb in s|
  {
    if s != [] {
      var n := |s| - 1;
      DistinctCount(s[..n]);
      assert s == s[..n] + [s[n]] && s[n] !in s[..n];
      assert (set kb | kb in s) == (set kb | kb in s[..n]) + {s[n]};
    }
  }

  lemma NoneExpired(t: Table, sec: nat)
    ensures forall k | k in View(t - ExpiredKeys(t, sec)) :: View(t - ExpiredKeys(t, sec))[k].expires > sec
  {
    hide DecVal, EncKey, View;
    var u := t - ExpiredKeys(t, sec);
    forall k | k in View(u) ensures View(u)[k].expires > sec {
      ViewAt(u, k);
      assert EncKey(k) in u;
    }
  }

  lemma RemovedCount(t: Table, keys: set<Bytes>)
    requires keys <= t.Keys
    ensures |t| == |t - keys| + |keys|
  {
    assert (t - keys).Keys == t.Keys - keys;
    assert |t| == |t.Keys| && |t - keys| == |(t - keys).Keys|;
  }

  lemma OrderedKeysDiffer(order: seq<Bytes>, i: nat)
    requires i < |order| && forall j, k | 0 <= j < k < |order| :: Less(order[j], order[k])
    ensures order[i] !in order[..i]
  {
    hide Less;
    Trichotomy(order[i], order[i]);
  }

  class Database {
    var table: Table

    constructor ()
      ensures table == map[]
    {
      table := map[];
    }

    /** One transaction: either every item is inserted or, on an error, none. */
    method WriteBatch(items: seq<Item>, commits: bool) returns (ok: bool)
      modifies this
      ensures ok == commits
      ensures table == if ok then Written(old(table), items) else old(table)
    {
      hide EncKey, EncVal, Written;
      var t := table;
      WrittenNothing(t);
      assert items[..0] == [];
      for i := 0 to |items|
        invariant table == old(table) && t == Written(table, items[..i])
      {
        t := t[EncKey(items[i].0) := EncVal(items[i].1)];
        WrittenSnoc(table, items[..i + 1]);
        assert items[..i + 1][..i] == items[..i];
      }
      assert items[..|items|] == items;
      if commits {
        table := t;
      }
      ok := commits;
    }

    method ReadAllValid(order: seq<Bytes>, now: Millis) returns (out: seq<Item>)
      requires KeyOrdered(table, order)
      ensures out == ReadRows(table, order, Seconds(now))
    {
      hide DecKey, DecVal, ReadRows, Less;
      var sec := Seconds(now);
      out := [];
      ReadNone(table, sec);
      assert order[..0] == [];
      for i := 0 to |order|
        invariant out == ReadRows(table, order[..i], sec)
      {
        var kb := order[i];
        assert kb in order;
        ReadOneMore(table, order, i, sec);
        match (DecKey(kb), DecVal(table[kb])) {
          case (Some(key), Some(val)) =>
            if val.expires > sec {
              out := out + [(key, val.(ttl := (val.expires - sec) % 0x1_0000_0000))];
            }
          case _ =>
        }
      }
      assert order[..|order|] == order;
    }

    /** First transaction of a purge: note the keys of expired rows. */
    method CollectExpired(order: seq<Bytes>, now: Millis) returns (expired: seq<Bytes>)
      requires KeyOrdered(table, order)
      ensures (set kb | kb in expired) == ExpiredKeys(table, Seconds(now))
      ensures |expired| == |ExpiredKeys(table, Seconds(now))|
    {
      hide DecVal, Less, Distinct, EncKey, EncVal, DecKey;
      NoneDistinct();
      var sec := Seconds(now);
      expired := [];
      for i := 0 to |order|
        invariant forall kb :: kb in expired <==> kb in order[..i] && ExpiredRow(table, kb, sec)
        invariant Distinct(expired)
      {
        var kb := order[i];
        assert kb in order;
        var val := DecVal(table[kb]);
        if val.Some? && val.value.expires <= sec {
          OrderedKeysDiffer(order, i);
          OneMoreDistinct(expired, kb);
          expired := expired + [kb];
        }
        assert order[..i + 1] == order[..i] + [kb];
      }
      assert order[..|order|] == order;
      assert (set kb | kb in expired) == ExpiredKeys(table, sec);
      DistinctCount(expired);
    }

    /** Second transaction: remove the noted keys, whatever they hold by now, or on an error none. */
    method DeleteAll(expired: seq<Bytes>, commits: bool) returns (ok: bool)
      modifies this
      ensures ok == commits
      ensures table == if ok then old(table) - (set kb | kb in expired) else old(table)
    {
      var t := table;
      for i := 0 to |expired|
        invariant t == old(table) - (set kb | kb in expired[..i])
        invariant table == old(table)
      {
        t := t - {expired[i]};
        assert expired[..i + 1] == expired[..i] + [expired[i]];
      }
      assert expired[..|expired|] == expired;
      if commits {
        table := t;
      }
      ok := commits;
    }

    /** A purge with no commit in between: it removes the expired rows and says how many there were. */
    method PurgeExpired(order: seq<Bytes>, now: Millis, commits: bool) returns (removed: Option<nat>)
      requires KeyOrdered(table, order)
      modifies this
      ensures forall later: nat | later >= Seconds(now) :: LiveView(table, later) == LiveView(old(table), later)
      ensures removed.None? ==> !commits && table == old(table)
      ensures removed.Some? ==>
                && (forall kb :: kb in table <==> kb in old(table) && !ExpiredRow(old(table), kb, Seconds(now)))
                && |old(table)| == |table| + removed.value
                && (forall k | k in View(table) :: View(table)[k].expires > Seconds(now))
                && (forall kb | kb in old(table) && kb !in table ::
                      DecVal(old(table)[kb]).Some? && DecVal(old(table)[kb]).value.expires <= Seconds(now))
    {
      hide LiveView, KeyOrdered, DecVal, View;
      var expired := CollectExpired(order, now);
      ghost var keys := ExpiredKeys(table, Seconds(now));
      forall later: nat | later >= Seconds(now) ensures LiveView(table - keys, later) == LiveView(table, later) {
        UninterruptedPurge(table, Seconds(now), later);
      }
      RemovedCount(table, keys);
      NoneExpired(table, Seconds(now));
      if expired == [] {
        assert table - keys == table;
        return Some(0);
      }
      var ok := DeleteAll(expired, commits);
      removed := if ok then Some(|expired|) else None;
    }
  }
}
