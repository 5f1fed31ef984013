/** Query-log segments: names that sort by creation, and deleting the oldest down to a size cap. */
module QueryLog {
  import Digits
  import opened Names
  import opened Order
  import opened Wire

  // ---- segment names ----

  function DigitCount(v: nat): (n: nat)
    ensures n >= 1 && v < Digits.Pow(10, n)
  {
    if v < 10 then
      assert Digits.Pow(10, 1) == 10;
      1
    else
      var n := DigitCount(v / 10);
      assert v < 10 * Digits.Pow(10, n);
      n + 1
  }

  /** `{:0w}`: decimal, zero-padded to at least `w` characters. */
  function Padded(v: nat, w: nat): (s: string)
    ensures |s| == Max(w, DigitCount(v))
    ensures Codes(s) == Shifted(Digits.Encode(10, v, Max(w, DigitCount(v))))
  {
    var ds := Digits.Encode(10, v, Max(w, DigitCount(v)));
    seq(|ds|, i requires 0 <= i < |ds| => (ds[i] + 48) as char)
  }

  function Shifted(ds: seq<nat>): seq<int> {
    seq(|ds|, i requires 0 <= i < |ds| => ds[i] + 48)
  }

  function SegmentName(ms: nat, seqNo: nat): string {
    "qlog-" + Padded(ms, 14) + "-" + Padded(seqNo, 6) + ".parquet"
  }

  lemma {:induction false} ShiftKeepsOrder(a: seq<nat>, b: seq<nat>)
    ensures Less(Shifted(a), Shifted(b)) <==> Less(a, b)
  {
    if a != [] && b != [] && a[0] == b[0] {
      ShiftKeepsOrder(a[1..], b[1..]);
      assert Shifted(a)[1..] == Shifted(a[1..]) && Shifted(b)[1..] == Shifted(b[1..]);
    }
  }

  lemma {:induction false} FewDigits(v: nat, w: nat)
    requires w >= 1 && v < Digits.Pow(10, w)
    ensures DigitCount(v) <= w
  {
    if v >= 10 {
      assert Digits.Pow(10, 1) == 10;
      Digits.QuotientBound(10, v, Digits.Pow(10, w - 1));
      FewDigits(v / 10, w - 1);
    }
  }

  /** Numbers that fit the width compare as their padded forms do. */
  lemma PaddedOrder(u: nat, v: nat, w: nat)
    requires w >= 1 && u < Digits.Pow(10, w) && v < Digits.Pow(10, w)
    ensures |Padded(u, w)| == |Padded(v, w)| == w
    ensures Less(Codes(Padded(u, w)), Codes(Padded(v, w))) <==> u < v
  {
    FewDigits(u, w);
    FewDigits(v, w);
    Digits.EncodeOrder(10, u, v, w);
    ShiftKeepsOrder(Digits.Encode(10, u, w), Digits.Encode(10, v, w));
  }

  lemma CodesConcat(a: string, b: string)
    ensures Codes(a + b) == Codes(a) + Codes(b)
  {
  }

  function Tail(seqNo: nat): string { "-" + Padded(seqNo, 6) + ".parquet" }

  lemma NameParts(ms: nat, seqNo: nat)
    ensures Codes(SegmentName(ms, seqNo)) == Codes("qlog-") + (Codes(Padded(ms, 14)) + Codes(Tail(seqNo)))
  {
    hide Padded, Codes;
    assert SegmentName(ms, seqNo) == "qlog-" + (Padded(ms, 14) + Tail(seqNo));
    CodesConcat("qlog-", Padded(ms, 14) + Tail(seqNo));
    CodesConcat(Padded(ms, 14), Tail(seqNo));
  }

  /** Segments of different milliseconds sort by time, whatever their sequence numbers. */
  lemma EarlierSortsFirst(ms1: nat, n1: nat, ms2: nat, n2: nat)
    requires ms1 < ms2 < Digits.Pow(10, 14)
    ensures Less(Codes(SegmentName(ms1, n1)), Codes(SegmentName(ms2, n2)))
  {
    hide Padded, SegmentName, Tail, Less, Codes, Digits.Pow;
    NameParts(ms1, n1);
    NameParts(ms2, n2);
    PaddedOrder(ms1, ms2, 14);
    assert |Codes(Padded(ms1, 14))| == |Codes(Padded(ms2, 14))| by {
      CodesLength(Padded(ms1, 14));
      CodesLength(Padded(ms2, 14));
    }
    DecidedEarly(Codes(Padded(ms1, 14)), Codes(Padded(ms2, 14)), Codes(Tail(n1)), Codes(Tail(n2)));
    CommonPrefix(Codes("qlog-"), Codes(Padded(ms1, 14)) + Codes(Tail(n1)), Codes(Padded(ms2, 14)) + Codes(Tail(n2)));
  }

  lemma CodesLength(s: string)
    ensures |Codes(s)| == |s|
  {
  }

  /** Within a millisecond segments sort by sequence number while it has at most six digits. */
  lemma SameMillisecondSortsBySequence(ms: nat, n1: nat, n2: nat)
    requires n1 < 1_000_000 && n2 < 1_000_000
    ensures Less(Codes(SegmentName(ms, n1)), Codes(SegmentName(ms, n2))) <==> n1 < n2
  {
    hide Padded, SegmentName, Less, Codes;
    NameParts(ms, n1);
    NameParts(ms, n2);
    CommonPrefix(Codes("qlog-"), Codes(Padded(ms, 14)) + Codes(Tail(n1)), Codes(Padded(ms, 14)) + Codes(Tail(n2)));
    CommonPrefix(Codes(Padded(ms, 14)), Codes(Tail(n1)), Codes(Tail(n2)));
    TailOrder(n1, n2);
  }

  lemma SixDigits()
    ensures Digits.Pow(10, 6) == 1_000_000
  {
    assert Digits.Pow(10, 3) == 1000;
  }

  lemma TailOrder(n1: nat, n2: nat)
    requires n1 < 1_000_000 && n2 < 1_000_000
    ensures Less(Codes(Tail(n1)), Codes(Tail(n2))) <==> n1 < n2
  {
    hide Padded, Less, Codes, Digits.Pow;
    SixDigits();
    var p1, p2 := Padded(n1, 6), Padded(n2, 6);
    TailParts(n1);
    TailParts(n2);
    CommonPrefix(Codes("-"), Codes(p1) + Codes(".parquet"), Codes(p2) + Codes(".parquet"));
    PaddedOrder(n1, n2, 6);
    PaddedOrder(n2, n1, 6);
    CodesLength(p1);
    CodesLength(p2);
    Trichotomy(Codes(p1), Codes(p2));
    Trichotomy(Codes(p1) + Codes(".parquet"), Codes(p2) + Codes(".parquet"));
    if n1 < n2 {
      DecidedEarly(Codes(p1), Codes(p2), Codes(".parquet"), Codes(".parquet"));
    } else if n2 < n1 {
      DecidedEarly(Codes(p2), Codes(p1), Codes(".parquet"), Codes(".parquet"));
    }
  }

  lemma TailParts(n: nat)
    ensures Codes(Tail(n)) == Codes("-") + (Codes(Padded(n, 6)) + Codes(".parquet"))
  {
    hide Padded, Codes;
    assert Tail(n) == "-" + (Padded(n, 6) + ".parquet");
    CodesConcat("-", Padded(n, 6) + ".parquet");
    CodesConcat(Padded(n, 6), ".parquet");
  }

  lemma {:induction false} LeadingDigit(v: nat, w: nat)
    requires w >= 1 && v < Digits.Pow(10, w)
    ensures Digits.Encode(10, v, w)[0] == v / Digits.Pow(10, w - 1)
    decreases w
  {
    if w == 1 {
      assert Digits.Pow(10, 1) == 10;
    } else {
      Digits.QuotientBound(10, v, Digits.Pow(10, w - 1));
      LeadingDigit(v / 10, w - 1);
      DivideTwice(v, Digits.Pow(10, w - 2));
    }
  }

  lemma DivideTwice(v: nat, p: nat)
    requires p >= 1
    ensures (v / 10) / p == v / (10 * p)
  {
    var q := (v / 10) / p;
    var r := (v / 10) % p;
    Digits.DivMod(10, v);
    assert v / 10 == q * p + r;
    var low := 10 * r + v % 10;
    assert v == q * (10 * p) + low && low < 10 * p;
    Digits.QuotientOf(10 * p, q, low);
  }

  /** The millionth segment of one millisecond sorts before the one written just before it. */
  lemma SeventhDigitBreaksOrder(ms: nat)
    ensures Less(Codes(SegmentName(ms, 1_000_000)), Codes(SegmentName(ms, 999_999)))
  {
    hide Padded, SegmentName, Codes, Digits.Pow, Digits.Encode;
    NameParts(ms, 1_000_000);
    NameParts(ms, 999_999);
    CommonPrefix(Codes("qlog-"), Codes(Padded(ms, 14)) + Codes(Tail(1_000_000)),
                 Codes(Padded(ms, 14)) + Codes(Tail(999_999)));
    CommonPrefix(Codes(Padded(ms, 14)), Codes(Tail(1_000_000)), Codes(Tail(999_999)));
    TailParts(1_000_000);
    TailParts(999_999);
    var p, q := Padded(1_000_000, 6), Padded(999_999, 6);
    CommonPrefix(Codes("-"), Codes(p) + Codes(".parquet"), Codes(q) + Codes(".parquet"));
    Millions();
    assert (Codes(p) + Codes(".parquet"))[0] == 49 && (Codes(q) + Codes(".parquet"))[0] == 57;
  }

  lemma Millions()
    ensures Codes(Padded(1_000_000, 6)) != [] && Codes(Padded(1_000_000, 6))[0] == 49
    ensures Codes(Padded(999_999, 6)) != [] && Codes(Padded(999_999, 6))[0] == 57
  {
    hide Padded, Codes, Digits.Encode;
    SixDigits();
    assert Digits.Pow(10, 7) == 10_000_000 && Digits.Pow(10, 5) == 100_000 by {
      assert Digits.Pow(10, 3) == 1000;
      assert Digits.Pow(10, 5) == 10 * Digits.Pow(10, 4);
    }
    FewDigits(1_000_000, 7);
    FewDigits(999_999, 6);
    LeadingDigit(1_000_000, 7);
    LeadingDigit(999_999, 6);
  }

  function Width(seqNo: nat): nat { Max(6, DigitCount(seqNo)) }

  /** The number that the first `w` characters of the padded sequence number spell. */
  function Leading(seqNo: nat, w: nat): nat
    requires w <= Width(seqNo)
  {
    Cut(seqNo, Width(seqNo) - w)
  }

  /** A number without its last `d` digits. */
  function Cut(v: nat, d: nat): nat { v / Digits.Pow(10, d) }

  lemma {:induction false} WiderIfLarger(u: nat, v: nat)
    requires u <= v
    ensures DigitCount(u) <= DigitCount(v)
  {
    if u >= 10 {
      WiderIfLarger(u / 10, v / 10);
    }
  }

  lemma PaddedIs(n: nat)
    ensures Codes(Padded(n, 6)) == Shifted(Digits.Encode(10, n, Width(n)))
  {
  }

  /** The leading digits of a numeral are the numeral of a quotient. */
  lemma {:induction false} EncodePrefix(v: nat, w: nat, d: nat)
    ensures Digits.Encode(10, v, w + d)[..w] == Digits.Encode(10, v / Digits.Pow(10, d), w)
    ensures v < Digits.Pow(10, w + d) ==> v / Digits.Pow(10, d) < Digits.Pow(10, w)
    decreases d
  {
    if d > 0 {
      EncodePrefix(v / 10, w, d - 1);
      DivideTwice(v, Digits.Pow(10, d - 1));
      assert Digits.Pow(10, w + d) == 10 * Digits.Pow(10, w + d - 1);
      if v < Digits.Pow(10, w + d) {
        Digits.QuotientBound(10, v, Digits.Pow(10, w + d - 1));
      }
      var ds := Digits.Encode(10, v, w + d);
      assert ds[..w] == ds[..w + d - 1][..w];
      assert ds[..w + d - 1] == Digits.Encode(10, v / 10, w + d - 1);
    }
  }

  /** A padded number is its leading characters, which are themselves a padded number, and more digits. */
  lemma PaddedPrefix(v: nat, w: nat) returns (more: seq<int>)
    requires 6 <= w <= Width(v)
    ensures Codes(Padded(v, 6)) == Shifted(Digits.Encode(10, Leading(v, w), w)) + more
    ensures Leading(v, w) < Digits.Pow(10, w)
    ensures |more| == Width(v) - w && (more != [] ==> more[0] >= 48)
  {
    hide Digits.Pow, Digits.Encode, Codes, Padded, Width;
    PaddedIs(v);
    var d := Width(v) - w;
    EncodePrefix(v, w, d);
    FitsWidth(v);
    var ds := Digits.Encode(10, v, Width(v));
    more := Shifted(ds)[w..];
    assert Shifted(ds)[..w] == Shifted(ds[..w]);
    assert Shifted(ds) == Shifted(ds)[..w] + more;
  }

  lemma {:induction false} PowGrows(a: nat, b: nat)
    requires a <= b
    ensures Digits.Pow(10, a) <= Digits.Pow(10, b)
    decreases b
  {
    if a < b {
      PowGrows(a, b - 1);
    }
  }

  lemma FitsWidth(v: nat)
    ensures v < Digits.Pow(10, Width(v))
  {
    PowGrows(DigitCount(v), Width(v));
  }

  /** After equally many digits, the shorter name goes on with a dot and the longer one with a digit. */
  lemma ShorterGoesFirst(x: seq<int>, y: seq<int>, more: seq<int>)
    requires |x| == |y| && (more != [] ==> more[0] >= 48) && (x == y ==> more != [])
    ensures Less(x + Codes(".parquet"), y + more + Codes(".parquet")) <==> x == y || Less(x, y)
    ensures Less(y + more + Codes(".parquet"), x + Codes(".parquet")) <==> Less(y, x)
  {
    hide Less;
    var t := Codes(".parquet");
    var u := more + t;
    assert y + more + t == y + u && t[0] == 46;
    Trichotomy(x, y);
    Trichotomy(x + t, y + u);
    if x == y {
      CommonPrefix(x, t, u);
      assert u[0] >= 48;
      FirstDecides(t, u);
    } else if Less(x, y) {
      DecidedEarly(x, y, t, u);
    } else {
      DecidedEarly(y, x, u, t);
    }
  }

  lemma FirstDecides(a: seq<int>, b: seq<int>)
    requires a != [] && b != [] && a[0] < b[0]
    ensures Less(a, b)
  {
  }

  /**
   * Exactly when the name of a segment sorts before that of a later one of the same millisecond: its
   * number is at most what as many leading digits of the later number say.
   */
  lemma SequenceOrderIff(ms: nat, n1: nat, n2: nat)
    requires n1 < n2
    ensures Width(n1) <= Width(n2)
    ensures Less(Codes(SegmentName(ms, n1)), Codes(SegmentName(ms, n2))) <==>
            n1 <= Leading(n2, Width(n1))
    ensures Less(Codes(SegmentName(ms, n2)), Codes(SegmentName(ms, n1))) <==>
            n1 > Leading(n2, Width(n1))
  {
    hide Padded, SegmentName, Tail, Less, Codes, Digits.Pow, Digits.Encode, Width;
    WiderIfLarger(n1, n2);
    assert 6 <= Width(n1) <= Width(n2) by { WidthGrows(n1, n2); }
    var w := Width(n1);
    var q := Leading(n2, w);
    NameParts(ms, n1);
    NameParts(ms, n2);
    CommonPrefix(Codes("qlog-"), Codes(Padded(ms, 14)) + Codes(Tail(n1)), Codes(Padded(ms, 14)) + Codes(Tail(n2)));
    CommonPrefix(Codes(Padded(ms, 14)), Codes(Tail(n1)), Codes(Tail(n2)));
    TailParts(n1);
    TailParts(n2);
    CommonPrefix(Codes("-"), Codes(Padded(n1, 6)) + Codes(".parquet"), Codes(Padded(n2, 6)) + Codes(".parquet"));
    CommonPrefix(Codes("qlog-"), Codes(Padded(ms, 14)) + Codes(Tail(n2)), Codes(Padded(ms, 14)) + Codes(Tail(n1)));
    CommonPrefix(Codes(Padded(ms, 14)), Codes(Tail(n2)), Codes(Tail(n1)));
    CommonPrefix(Codes("-"), Codes(Padded(n2, 6)) + Codes(".parquet"), Codes(Padded(n1, 6)) + Codes(".parquet"));
    var x := Shifted(Digits.Encode(10, n1, w));
    PaddedIs(n1);
    var more := PaddedPrefix(n2, w);
    var y := Shifted(Digits.Encode(10, q, w));
    FitsWidth(n1);
    SameWidthOrder(n1, q, w);
    if x == y && more == [] {
      WholeNumber(n2);
    }
    ShorterGoesFirst(x, y, more);
  }

  lemma WidthGrows(n1: nat, n2: nat)
    requires n1 <= n2
    ensures 6 <= Width(n1) <= Width(n2)
  {
    WiderIfLarger(n1, n2);
  }

  lemma WholeNumber(n: nat)
    ensures n / Digits.Pow(10, 0) == n
  {
  }

  /** Numbers of one width compare, and are equal, as their digits. */
  lemma SameWidthOrder(u: nat, v: nat, w: nat)
    requires u < Digits.Pow(10, w) && v < Digits.Pow(10, w)
    ensures var x, y := Shifted(Digits.Encode(10, u, w)), Shifted(Digits.Encode(10, v, w));
            |x| == |y| == w && (x == y <==> u == v) && (Less(x, y) <==> u < v) && (Less(y, x) <==> v < u)
  {
    hide Less, Digits.Encode, Digits.Pow;
    var a, b := Digits.Encode(10, u, w), Digits.Encode(10, v, w);
    Digits.EncodeOrder(10, u, v, w);
    Digits.EncodeOrder(10, v, u, w);
    ShiftKeepsOrder(a, b);
    ShiftKeepsOrder(b, a);
    Trichotomy(Shifted(a), Shifted(b));
  }

  // ---- retention ----

  datatype Segment = Segment(name: string, size: nat)

  function Total(files: seq<Segment>): nat {
    if files == [] then 0 else files[0].size + Total(files[1..])
  }

  function ByName(f: Segment): seq<int> { Codes(f.name) }

  /** `created` holds the segments with these stamps, oldest first: by millisecond, then by sequence number. */
  ghost predicate CreatedInOrder(created: seq<Segment>, stamps: seq<(nat, nat)>) {
    && |created| == |stamps|
    && (forall i | 0 <= i < |created| ::
          created[i].name == SegmentName(stamps[i].0, stamps[i].1) && stamps[i].0 < Digits.Pow(10, 14))
    && forall i, j | 0 <= i < j < |stamps| :: WrittenBefore(stamps[i], stamps[j])
  }

  predicate WrittenBefore(a: (nat, nat), b: (nat, nat)) {
    a.0 < b.0 || (a.0 == b.0 && a.1 < b.1)
  }

  /** The names of two segments written in this order sort in this order. */
  predicate SortsInOrder(a: (nat, nat), b: (nat, nat)) {
    a.0 == b.0 && a.1 < b.1 ==> Width(a.1) <= Width(b.1) && a.1 <= Leading(b.1, Width(a.1))
  }

  lemma PairOrder(a: (nat, nat), b: (nat, nat))
    requires WrittenBefore(a, b) && b.0 < Digits.Pow(10, 14)
    ensures SortsInOrder(a, b) <==> Less(Codes(SegmentName(a.0, a.1)), Codes(SegmentName(b.0, b.1)))
    ensures !SortsInOrder(a, b) <==> Less(Codes(SegmentName(b.0, b.1)), Codes(SegmentName(a.0, a.1)))
  {
    hide SegmentName, Digits.Pow, Less, Codes, Leading, Width;
    if a.0 < b.0 {
      EarlierSortsFirst(a.0, a.1, b.0, b.1);
      Trichotomy(Codes(SegmentName(a.0, a.1)), Codes(SegmentName(b.0, b.1)));
    } else {
      SequenceOrderIff(a.0, a.1, b.1);
    }
  }

  /**
   * Whatever order a directory lists its segments in, sorting the names puts the oldest first, exactly
   * when every two segments of one millisecond sort in order.
   */
  lemma ListingSortsIff(created: seq<Segment>, stamps: seq<(nat, nat)>, listing: seq<Segment>)
    requires CreatedInOrder(created, stamps) && multiset(listing) == multiset(created)
    ensures SortBy(listing, ByName) == created <==>
            forall i, j | 0 <= i < j < |stamps| :: SortsInOrder(stamps[i], stamps[j])
  {
    hide SegmentName, Digits.Pow, Less, Codes, SortBy, SortsInOrder;
    SortSorts(listing, ByName);
    if forall i, j | 0 <= i < j < |stamps| :: SortsInOrder(stamps[i], stamps[j]) {
      InOrder(created, stamps);
      SortedUnique(created, SortBy(listing, ByName), ByName);
    }
    if SortBy(listing, ByName) == created {
      forall i, j | 0 <= i < j < |stamps| ensures SortsInOrder(stamps[i], stamps[j]) {
        assert Le(ByName(created[i]), ByName(created[j]));
        assert WrittenBefore(stamps[i], stamps[j]);
        PairOrder(stamps[i], stamps[j]);
        Trichotomy(ByName(created[i]), ByName(created[j]));
      }
    }
  }

  lemma InOrder(created: seq<Segment>, stamps: seq<(nat, nat)>)
    requires CreatedInOrder(created, stamps)
    requires forall i, j | 0 <= i < j < |stamps| :: SortsInOrder(stamps[i], stamps[j])
    ensures SortedBy(created, ByName) && InjectiveOn(created, ByName)
  {
    hide SegmentName, Digits.Pow, Less, Codes, SortsInOrder;
    forall i, j | 0 <= i < j < |created| ensures Less(ByName(created[i]), ByName(created[j])) {
      assert WrittenBefore(stamps[i], stamps[j]);
      PairOrder(stamps[i], stamps[j]);
    }
    forall x, y | x in created && y in created && ByName(x) == ByName(y) ensures x == y {
      var i :| 0 <= i < |created| && created[i] == x;
      var j :| 0 <= j < |created| && created[j] == y;
      Trichotomy(ByName(x), ByName(y));
    }
  }

  /** In particular with sequence numbers below a million. */
  lemma ShortSequencesSort(created: seq<Segment>, stamps: seq<(nat, nat)>, listing: seq<Segment>)
    requires CreatedInOrder(created, stamps) && multiset(listing) == multiset(created)
    requires forall i | 0 <= i < |stamps| :: stamps[i].1 < 1_000_000
    ensures SortBy(listing, ByName) == created
  {
    hide SegmentName, Digits.Pow, Less, Codes, SortBy, SortsInOrder;
    forall i, j | 0 <= i < j < |stamps| ensures SortsInOrder(stamps[i], stamps[j]) {
      assert WrittenBefore(stamps[i], stamps[j]);
      PairOrder(stamps[i], stamps[j]);
      if stamps[i].0 == stamps[j].0 {
        SameMillisecondSortsBySequence(stamps[i].0, stamps[i].1, stamps[j].1);
      } else {
        EarlierSortsFirst(stamps[i].0, stamps[i].1, stamps[j].0, stamps[j].1);
      }
    }
    ListingSortsIff(created, stamps, listing);
  }

  /** The files a retention pass leaves, given which removals succeed, from the first undecided one on. */
  function Survivors(files: seq<Segment>, total: int, maxBytes: nat, removable: Segment -> bool): seq<Segment> {
    if files == [] || total <= maxBytes then files
    else if removable(files[0]) then Survivors(files[1..], total - files[0].size, maxBytes, removable)
    else [files[0]] + Survivors(files[1..], total, maxBytes, removable)
  }

  function TotalFrom(files: seq<Segment>, j: nat): nat
    requires j <= |files|
  {
    Total(files[j..])
  }

  /** With working removals: the longest suffix whose sizes fit. */
  lemma {:induction false} SurvivorsAreLongestSuffix(files: seq<Segment>, maxBytes: nat, removable: Segment -> bool)
    requires forall f :: removable(f)
    ensures var left := Survivors(files, Total(files), maxBytes, removable);
            && |left| <= |files| && left == files[|files| - |left|..]
            && Total(left) <= maxBytes
            && forall j | 0 <= j < |files| - |left| :: TotalFrom(files, j) > maxBytes
  {
    if files != [] && Total(files) > maxBytes {
      var rest := files[1..];
      SurvivorsAreLongestSuffix(rest, maxBytes, removable);
      var left := Survivors(files, Total(files), maxBytes, removable);
      assert left == Survivors(rest, Total(rest), maxBytes, removable);
      assert files[|files| - |left|..] == rest[|rest| - |left|..];
      assert files[0..] == files;
      forall j | 0 <= j < |files| - |left| ensures TotalFrom(files, j) > maxBytes {
        if j > 0 {
          assert files[j..] == rest[j - 1..];
          assert TotalFrom(rest, j - 1) > maxBytes;
        }
      }
    }
  }

  lemma {:induction false} TotalAppend(a: seq<Segment>, b: seq<Segment>)
    ensures Total(a + b) == Total(a) + Total(b)
  {
    if a == [] {
      assert a + b == b;
    } else {
      TotalAppend(a[1..], b);
      assert (a + b)[1..] == a[1..] + b;
    }
  }

  /** The files among these that cannot be removed. */
  function Stuck(files: seq<Segment>, removable: Segment -> bool): seq<Segment> {
    if files == [] then []
    else (if removable(files[0]) then [] else [files[0]]) + Stuck(files[1..], removable)
  }

  /** Size of the directory when a pass has tried the first `j` files. */
  function SizeAfter(files: seq<Segment>, j: nat, removable: Segment -> bool): nat
    requires j <= |files|
  {
    Total(Stuck(files[..j], removable)) + Total(files[j..])
  }

  predicate OverCap(files: seq<Segment>, j: nat, kept: nat, maxBytes: nat, removable: Segment -> bool)
    requires j <= |files|
  {
    kept + SizeAfter(files, j, removable) > maxBytes
  }

  /**
   * A pass tried exactly the `k` oldest files and removed those it could. It was over the cap before
   * each try, and it stopped because it was not any more or because there was nothing left to try.
   */
  ghost predicate PrunedAt(
    files: seq<Segment>, left: seq<Segment>, k: nat, kept: nat, maxBytes: nat, removable: Segment -> bool)
  {
    && k <= |files| && left == Stuck(files[..k], removable) + files[k..]
    && (forall j | 0 <= j < k :: OverCap(files, j, kept, maxBytes, removable))
    && (k < |files| ==> !OverCap(files, k, kept, maxBytes, removable))
  }

  lemma SizeAfterHead(files: seq<Segment>, j: nat, removable: Segment -> bool)
    requires 0 < j <= |files|
    ensures Stuck(files[..j], removable) ==
            (if removable(files[0]) then [] else [files[0]]) + Stuck(files[1..][..j - 1], removable)
    ensures files[j..] == files[1..][j - 1..]
    ensures SizeAfter(files, j, removable) ==
            (if removable(files[0]) then 0 else files[0].size) + SizeAfter(files[1..], j - 1, removable)
  {
    assert files[..j][1..] == files[1..][..j - 1];
    var tail := Stuck(files[1..][..j - 1], removable);
    TotalAppend([files[0]], tail);
    assert [files[0]][1..] == [] && [] + tail == tail;
  }

  lemma NothingTried(files: seq<Segment>, removable: Segment -> bool)
    ensures Stuck(files[..0], removable) + files[0..] == files && SizeAfter(files, 0, removable) == Total(files)
  {
    assert files[0..] == files && files[..0] == [];
  }

  lemma TriedHead(
    files: seq<Segment>, left: seq<Segment>, n: nat, kept: nat, stuck: nat, maxBytes: nat,
    removable: Segment -> bool)
    requires files != [] && kept + Total(files) > maxBytes
    requires stuck == if removable(files[0]) then 0 else files[0].size
    requires PrunedAt(files[1..], left, n, kept + stuck, maxBytes, removable)
    ensures PrunedAt(files, (if removable(files[0]) then [] else [files[0]]) + left, n + 1, kept, maxBytes, removable)
  {
    hide Stuck, OverCap;
    SizeAfterHead(files, n + 1, removable);
    forall j | 0 < j <= n + 1
      ensures OverCap(files, j, kept, maxBytes, removable) ==
              OverCap(files[1..], j - 1, kept + stuck, maxBytes, removable)
    {
      OverCapHead(files, j, kept, stuck, maxBytes, removable);
    }
    OverCapAtStart(files, kept, maxBytes, removable);
    forall j | 0 <= j < n + 1 ensures OverCap(files, j, kept, maxBytes, removable) {
      if j > 0 {
        assert OverCap(files[1..], j - 1, kept + stuck, maxBytes, removable);
      }
    }
  }

  lemma OverCapHead(files: seq<Segment>, j: nat, kept: nat, stuck: nat, maxBytes: nat, removable: Segment -> bool)
    requires 0 < j <= |files| && stuck == if removable(files[0]) then 0 else files[0].size
    ensures OverCap(files, j, kept, maxBytes, removable) ==
            OverCap(files[1..], j - 1, kept + stuck, maxBytes, removable)
  {
    hide Stuck;
    SizeAfterHead(files, j, removable);
  }

  lemma OverCapAtStart(files: seq<Segment>, kept: nat, maxBytes: nat, removable: Segment -> bool)
    ensures OverCap(files, 0, kept, maxBytes, removable) <==> kept + Total(files) > maxBytes
  {
    hide SizeAfter;
    NothingTried(files, removable);
  }

  lemma NoneTried(files: seq<Segment>, kept: nat, maxBytes: nat, removable: Segment -> bool)
    requires files == [] || kept + Total(files) <= maxBytes
    ensures Survivors(files, kept + Total(files), maxBytes, removable) == files
    ensures PrunedAt(files, files, 0, kept, maxBytes, removable)
  {
    hide Stuck, OverCap;
    NothingTried(files, removable);
    OverCapAtStart(files, kept, maxBytes, removable);
  }

  lemma SurvivorsHead(files: seq<Segment>, kept: nat, stuck: nat, maxBytes: nat, removable: Segment -> bool)
    requires files != [] && kept + Total(files) > maxBytes
    requires stuck == if removable(files[0]) then 0 else files[0].size
    ensures Survivors(files, kept + Total(files), maxBytes, removable) ==
            (if removable(files[0]) then [] else [files[0]]) +
            Survivors(files[1..], kept + stuck + Total(files[1..]), maxBytes, removable)
  {
    var left := Survivors(files[1..], kept + stuck + Total(files[1..]), maxBytes, removable);
    assert [] + left == left;
  }

  /** Whatever removals fail, a pass tries the oldest files one by one exactly while it is over the cap. */
  lemma {:induction false} SurvivorsInGeneral(files: seq<Segment>, kept: nat, maxBytes: nat, removable: Segment -> bool)
    returns (k: nat)
    ensures PrunedAt(files, Survivors(files, kept + Total(files), maxBytes, removable), k, kept, maxBytes, removable)
  {
    hide PrunedAt, Survivors, Total;
    if files == [] || kept + Total(files) <= maxBytes {
      k := 0;
      NoneTried(files, kept, maxBytes, removable);
    } else {
      var stuck := if removable(files[0]) then 0 else files[0].size;
      var n := SurvivorsInGeneral(files[1..], kept + stuck, maxBytes, removable);
      var left := Survivors(files[1..], kept + stuck + Total(files[1..]), maxBytes, removable);
      TriedHead(files, left, n, kept, stuck, maxBytes, removable);
      SurvivorsHead(files, kept, stuck, maxBytes, removable);
      k := n + 1;
    }
  }

  /** There is only one such number of tries, so this says all there is to say. */
  lemma PrunedOnce(
    files: seq<Segment>, left: seq<Segment>, k: nat, other: seq<Segment>, n: nat,
    kept: nat, maxBytes: nat, removable: Segment -> bool)
    requires PrunedAt(files, left, k, kept, maxBytes, removable)
    requires PrunedAt(files, other, n, kept, maxBytes, removable)
    ensures k == n && left == other
  {
    hide Stuck, OverCap;
  }

  lemma Stops(files: seq<Segment>, total: int, maxBytes: nat, removable: Segment -> bool)
    ensures files == [] || total <= maxBytes ==> Survivors(files, total, maxBytes, removable) == files
  {
  }

  /**
   * Segments created in order whose names sort in order, listed in any order: if removals work, the pass
   * leaves the newest ones, as many as fit; if some fail, it still goes from the oldest on and stops as
   * soon as the rest fits.
   */
  lemma RetentionKeepsNewest(
    created: seq<Segment>, stamps: seq<(nat, nat)>, listing: seq<Segment>, maxBytes: nat, removable: Segment -> bool)
    returns (k: nat)
    requires CreatedInOrder(created, stamps) && multiset(listing) == multiset(created)
    requires forall i, j | 0 <= i < j < |stamps| :: SortsInOrder(stamps[i], stamps[j])
    ensures var sorted := SortBy(listing, ByName);
            var left := Survivors(sorted, Total(sorted), maxBytes, removable);
            && PrunedAt(created, left, k, 0, maxBytes, removable)
            && ((forall f :: removable(f)) ==>
                  && left == created[k..] && Total(left) <= maxBytes
                  && forall j | 0 <= j < k :: TotalFrom(created, j) > maxBytes)
  {
    hide SortBy, Survivors, CreatedInOrder, Stuck, SortsInOrder;
    ListingSortsIff(created, stamps, listing);
    k := SurvivorsInGeneral(created, 0, maxBytes, removable);
    if forall f :: removable(f) {
      NoneStuck(created[..k], removable);
      assert [] + created[k..] == created[k..];
      forall j | 0 <= j < k ensures TotalFrom(created, j) > maxBytes {
        NoneStuck(created[..j], removable);
        assert OverCap(created, j, 0, maxBytes, removable);
      }
      if k == |created| {
        assert created[k..] == [];
      }
    }
  }

  lemma {:induction false} NoneStuck(files: seq<Segment>, removable: Segment -> bool)
    requires forall f :: removable(f)
    ensures Stuck(files, removable) == []
  {
    if files != [] {
      NoneStuck(files[1..], removable);
    }
  }

  class Directory {
    var files: seq<Segment>

    constructor ()
      ensures files == []
    {
      files := [];
    }

    /**
     * Sort by name, then remove from the front while over the cap. `files` is the directory itself,
     * `total` always the size of what is in it.
     */
    method EnforceRetention(maxBytes: nat, removable: Segment -> bool) returns (total: nat)
      modifies this
      ensures var sorted := SortBy(old(files), ByName);
              files == Survivors(sorted, Total(sorted), maxBytes, removable)
      ensures total == Total(files)
    {
      hide SortBy, Survivors, Total;
      var listing := SortBy(files, ByName);
      files := listing;
      total := Total(listing);
      var kept := [];
      var i := 0;
      while i < |listing| && total > maxBytes
        invariant i <= |listing| && files == kept + listing[i..] && total == Total(files)
        invariant kept + Survivors(listing[i..], total, maxBytes, removable) ==
                  Survivors(listing, Total(listing), maxBytes, removable)
        decreases |listing| - i
      {
        var f := listing[i];
        RemovalStep(kept, listing[i..], total, maxBytes, removable);
        if removable(f) {
          files := kept + listing[i + 1..];
          total := total - f.size;
        } else {
          kept := kept + [f];
        }
        i := i + 1;
      }
      Stops(listing[i..], total, maxBytes, removable);
    }

    /** One file handled: what the size and the final listing become. */
    lemma RemovalStep(kept: seq<Segment>, rest: seq<Segment>, total: nat, maxBytes: nat, removable: Segment -> bool)
      requires rest != [] && total > maxBytes && total == Total(kept + rest)
      ensures rest[0].size <= total && Total(kept + rest[1..]) == total - rest[0].size
      ensures kept + rest == (kept + [rest[0]]) + rest[1..]
      ensures kept + Survivors(rest, total, maxBytes, removable) ==
              if removable(rest[0]) then kept + Survivors(rest[1..], total - rest[0].size, maxBytes, removable)
              else (kept + [rest[0]]) + Survivors(rest[1..], total, maxBytes, removable)
    {
      TotalAppend(kept, rest);
      TotalAppend(kept, rest[1..]);
      assert rest == [rest[0]] + rest[1..];
    }
  }
}
