/** Fixed-width positional numerals: big-endian integers in base 256, zero-padded decimals in base 10. */
module Digits {
  import opened Order

  function Pow(b: nat, n: nat): (p: nat)
    ensures b >= 1 ==> p >= 1
  {
    if n == 0 then 1 else b * Pow(b, n - 1)
  }

  /** The `w` low digits of `v` in base `b`, most significant first. */
  function Encode(b: nat, v: nat, w: nat): (ds: seq<nat>)
    requires b >= 2
    ensures |ds| == w && forall i | 0 <= i < w :: ds[i] < b
    decreases w
  {
    if w == 0 then [] else Encode(b, v / b, w - 1) + [v % b]
  }

  function Decode(b: nat, ds: seq<nat>): nat {
    if ds == [] then 0 else Decode(b, ds[..|ds| - 1]) * b + ds[|ds| - 1]
  }

  lemma MulMonotone(a: nat, b: nat, c: nat)
    ensures a <= b ==> a * c <= b * c
  {
  }

  lemma QuotientBound(b: nat, v: nat, p: nat)
    requires b >= 2 && v < b * p
    ensures v / b < p
  {
    MulMonotone(p, v / b, b);
  }

  lemma DivMod(b: nat, v: nat)
    requires b >= 2
    ensures (v / b) * b + v % b == v && v % b < b
  {
  }

  lemma QuotientOf(b: nat, hi: nat, lo: nat)
    requires b >= 2 && lo < b
    ensures (hi * b + lo) / b == hi && (hi * b + lo) % b == lo
  {
    var v := hi * b + lo;
    DivMod(b, v);
    MulMonotone(v / b + 1, hi, b);
    MulMonotone(hi + 1, v / b, b);
  }

  lemma {:induction false} DecodeEncode(b: nat, v: nat, w: nat)
    requires b >= 2 && v < Pow(b, w)
    ensures Decode(b, Encode(b, v, w)) == v
    decreases w
  {
    if w > 0 {
      QuotientBound(b, v, Pow(b, w - 1));
      DecodeEncode(b, v / b, w - 1);
      DivMod(b, v);
      var ds := Encode(b, v, w);
      assert ds[..|ds| - 1] == Encode(b, v / b, w - 1);
    }
  }

  lemma {:induction false} EncodeDecode(b: nat, ds: seq<nat>)
    requires b >= 2 && forall i | 0 <= i < |ds| :: ds[i] < b
    ensures Decode(b, ds) < Pow(b, |ds|)
    ensures Encode(b, Decode(b, ds), |ds|) == ds
  {
    if ds != [] {
      var n := |ds| - 1;
      var hi, lo := Decode(b, ds[..n]), ds[n];
      EncodeDecode(b, ds[..n]);
      NumeralBound(b, hi, lo, Pow(b, n));
      QuotientOf(b, hi, lo);
      assert ds == ds[..n] + [lo];
    }
  }

  lemma NumeralBound(b: nat, hi: nat, lo: nat, p: nat)
    requires lo < b && hi < p
    ensures hi * b + lo < b * p
  {
    MulMonotone(hi + 1, p, b);
  }

  lemma SplitDigit(b: nat, v: nat, w: nat) returns (hi: nat, lo: nat)
    requires b >= 2 && w > 0 && v < Pow(b, w)
    ensures v == hi * b + lo && lo < b && hi < Pow(b, w - 1)
    ensures Encode(b, v, w) == Encode(b, hi, w - 1) + [lo]
    ensures Decode(b, Encode(b, hi, w - 1)) == hi
  {
    hi, lo := v / b, v % b;
    QuotientBound(b, v, Pow(b, w - 1));
    DivMod(b, v);
    DecodeEncode(b, hi, w - 1);
  }

  /** Equal-width numerals compare byte-wise exactly as the numbers do. */
  lemma {:induction false} EncodeOrder(b: nat, u: nat, v: nat, w: nat)
    requires b >= 2 && u < Pow(b, w) && v < Pow(b, w)
    ensures Less(Encode(b, u, w), Encode(b, v, w)) <==> u < v
    decreases w
  {
    if w > 0 {
      var hu, lu := SplitDigit(b, u, w);
      var hv, lv := SplitDigit(b, v, w);
      EncodeOrder(b, hu, hv, w - 1);
      var x, y := Encode(b, hu, w - 1), Encode(b, hv, w - 1);
      LastDigit(b, x, hu, lu, y, hv, lv);
    }
  }

  lemma LastDigit(b: nat, x: seq<nat>, hx: nat, lx: nat, y: seq<nat>, hy: nat, ly: nat)
    requires |x| == |y| && lx < b && ly < b
    requires Less(x, y) <==> hx < hy
    requires x == y <==> hx == hy
    ensures Less(x + [lx], y + [ly]) <==> hx * b + lx < hy * b + ly
  {
    MulMonotone(hx + 1, hy, b);
    MulMonotone(hy + 1, hx, b);
    Trichotomy(x, y);
    Trichotomy(x + [lx], y + [ly]);
    if hx == hy {
      CommonPrefix(x, [lx], [ly]);
    } else if hx < hy {
      DecidedEarly(x, y, [lx], [ly]);
    } else {
      DecidedEarly(y, x, [ly], [lx]);
    }
  }
}
