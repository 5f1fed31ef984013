/** The blocklist as text: line normalization, parsing, printing, and when saving and reloading is lossless. */
module BlocklistText {
  import opened Names

  // ---- trimming ----

  /** ASCII white space. */
  predicate IsSpace(c: char) {
    c == ' ' || 9 <= c as int <= 13
  }

  predicate AllSpace(s: string) {
    forall i | 0 <= i < |s| :: IsSpace(s[i])
  }

  function TrimEnd(s: string): (r: string)
    ensures r <= s && AllSpace(s[|r|..]) && (r == "" || !IsSpace(r[|r| - 1]))
  {
    if s != [] && IsSpace(s[|s| - 1]) then
      var r := TrimEnd(s[..|s| - 1]);
      assert s[|r|..] == s[..|s| - 1][|r|..] + [s[|s| - 1]];
      r
    else s
  }

  function TrimStart(s: string): (r: string)
    ensures |r| <= |s| && r == s[|s| - |r|..] && AllSpace(s[..|s| - |r|]) && (r == "" || !IsSpace(r[0]))
  {
    if s != [] && IsSpace(s[0]) then
      var r := TrimStart(s[1..]);
      assert s[..|s| - |r|] == [s[0]] + s[1..][..|s| - 1 - |r|];
      r
    else s
  }

  function Trim(s: string): string { TrimEnd(TrimStart(s)) }

  predicate Trimmed(s: string) {
    s == "" || (!IsSpace(s[0]) && !IsSpace(s[|s| - 1]))
  }

  /** The six ASCII characters that are white space. */
  lemma SpacesAre(c: char)
    ensures IsSpace(c) <==> c in [' ', '\t', '\n', 11 as char, 12 as char, '\r']
  {
  }

  lemma TrimShape(s: string)
    ensures |Trim(s)| <= |s| && Trimmed(Trim(s)) && forall c | c in Trim(s) :: c in s
    ensures Trimmed(s) <==> Trim(s) == s
  {
    var a := TrimStart(s);
    assert forall c | c in Trim(s) :: c in a;
    assert forall c | c in a :: c in s;
  }

  // ---- normalization ----

  /** Index of the first occurrence of `pat`, or the length when there is none. */
  function FindStr(s: string, pat: string): (i: nat)
    ensures i <= |s| && (i < |s| && pat != "" ==> pat <= s[i..])
    ensures forall j | 0 <= j < i :: !(pat <= s[j..])
    ensures i == |s| && pat != "" ==> forall j | 0 <= j < |s| :: !(pat <= s[j..])
  {
    if s == "" || pat <= s then 0 else
      var i := 1 + FindStr(s[1..], pat);
      assert forall j | 1 <= j < |s| :: s[j..] == s[1..][j - 1..];
      i
  }

  function AfterScheme(d: string): string {
    var idx := FindStr(d, "://");
    if idx < |d| then d[idx + 3..] else d
  }

  function Before(d: string, c: char): (r: string)
    ensures c !in r && r <= d && (r == d || d[|r|] == c) && (c !in d ==> r == d)
  {
    var i := Find(d, c);
    assert i < |d| ==> d[i] in d;
    d[..i]
  }

  /** What is left of a line once white space, scheme, path and port are cut off. */
  function Host(raw: string): string {
    Before(Before(AfterScheme(Lower(Trim(raw))), '/'), ':')
  }

  function Normalized(raw: string): string { Trim(TrimEndDots(Host(raw))) }

  method Normalize(raw: string) returns (d: string)
    ensures d == Normalized(raw)
  {
    hide Trim, TrimEndDots, Lower, FindStr;
    d := Lower(Trim(raw));
    var idx := FindStr(d, "://");
    if idx < |d| {
      d := d[idx + 3..];
    }
    assert d == AfterScheme(Lower(Trim(raw)));
    idx := Find(d, '/');
    if idx < |d| {
      d := d[..idx];
    }
    idx := Find(d, ':');
    if idx < |d| {
      d := d[..idx];
    }
    d := Trim(TrimEndDots(d));
  }

  predicate IsLower(s: string) {
    forall c | c in s :: LowerChar(c) == c
  }

  /** The shape of every output of `Normalized`. */
  predicate Plain(s: string) {
    Trimmed(s) && IsLower(s) && '/' !in s && ':' !in s
  }

  lemma LowerFixes(s: string)
    ensures IsLower(Lower(s)) && (IsLower(s) ==> Lower(s) == s)
  {
    forall c | c in Lower(s) ensures LowerChar(c) == c {
      var i :| 0 <= i < |s| && Lower(s)[i] == c;
    }
  }

  lemma HostShape(raw: string)
    ensures var h := Host(raw); IsLower(h) && '/' !in h && ':' !in h && |h| <= |raw|
    ensures forall c | c in Host(raw) && IsSpace(c) :: c in Trim(raw)
    ensures '\n' in Host(raw) ==> '\n' in raw
  {
    hide Trim, FindStr, Before;
    var t := Trim(raw);
    var d := Lower(t);
    TrimShape(raw);
    LowerFixes(t);
    var d1 := AfterScheme(d);
    var d2 := Before(d1, '/');
    var h := Before(d2, ':');
    assert h == Host(raw);
    assert forall c | c in d1 :: c in d;
    assert forall c | c in d2 :: c in d1;
    assert forall c | c in h :: c in d2;
    forall c | c in d && IsSpace(c) ensures c in t {
      var i :| 0 <= i < |d| && d[i] == c;
      assert LowerChar(t[i]) == c;
    }
  }

  lemma HostOfPlain(s: string)
    requires Plain(s)
    ensures Host(s) == s
  {
    hide Trim, FindStr, Before;
    TrimShape(s);
    LowerFixes(s);
    NoScheme(s);
  }

  lemma NoScheme(s: string)
    requires ':' !in s
    ensures AfterScheme(s) == s
  {
    hide FindStr;
    assert forall i: nat | i < |s| :: s[i..][0] != ':';
  }

  lemma NormalizedShape(raw: string)
    ensures Plain(Normalized(raw)) && |Normalized(raw)| <= |Host(raw)| <= |raw|
    ensures '\n' in Normalized(raw) ==> '\n' in raw
  {
    hide Host, Trim, TrimEndDots;
    HostShape(raw);
    var t := TrimEndDots(Host(raw));
    assert forall c | c in t :: c in Host(raw);
    TrimShape(t);
  }

  predicate EndsInDot(s: string) {
    s != "" && s[|s| - 1] == '.'
  }

  /** A normal form is a fixed point exactly when it does not end in a dot; otherwise it shrinks. */
  lemma PlainFixedIff(s: string)
    requires Plain(s)
    ensures Normalized(s) == s <==> !EndsInDot(s)
    ensures EndsInDot(s) ==> |Normalized(s)| < |s|
  {
    hide Host, Trim, TrimEndDots;
    HostOfPlain(s);
    TrimShape(TrimEndDots(s));
    if !EndsInDot(s) {
      assert TrimEndDots(s) == s;
      TrimShape(s);
    }
  }

  /** `h` is something ending in a dot at `i`, then blanks up to `j`, then only dots. */
  predicate HiddenDot(h: string, i: int, j: int) {
    && 0 <= i < j - 1 && j <= |h|
    && h[i] == '.'
    && (forall k | i < k < j :: IsSpace(h[k]))
    && (forall k | j <= k < |h| :: h[k] == '.')
  }

  /** The host part ends in a dot, then at least one blank, then only dots. */
  ghost predicate DotBlankDots(h: string) {
    exists i, j :: HiddenDot(h, i, j)
  }

  /** Where `t` sits in `TrimStart(t)` and where it ends. */
  lemma TrimSpan(t: string) returns (lo: nat, hi: nat)
    ensures lo <= hi <= |t| && Trim(t) == t[lo..hi]
    ensures forall k | 0 <= k < lo || hi <= k < |t| :: IsSpace(t[k])
    ensures lo < hi ==> !IsSpace(t[lo]) && !IsSpace(t[hi - 1])
  {
    hide TrimStart, TrimEnd;
    var a := TrimStart(t);
    var o := TrimEnd(a);
    lo := |t| - |a|;
    hi := lo + |o|;
    forall k | 0 <= k < lo || hi <= k < |t| ensures IsSpace(t[k]) {
      if k < lo {
        assert t[k] == t[..lo][k];
      } else {
        assert t[k] == a[|o|..][k - hi];
      }
    }
  }

  lemma DotSurvivesIff(h: string)
    ensures EndsInDot(Trim(TrimEndDots(h))) <==> DotBlankDots(h)
  {
    hide Trim, TrimEndDots;
    var t := TrimEndDots(h);
    var lo, hi := TrimSpan(t);
    if EndsInDot(Trim(t)) {
      assert t[hi - 1] == '.';
      assert HiddenDot(h, hi - 1, |t|);
    }
    if DotBlankDots(h) {
      var i, j :| HiddenDot(h, i, j);
      assert IsSpace(h[j - 1]);
      assert |t| == j && t == h[..j] && t[i] == '.';
      assert hi - 1 == i;
    }
  }

  /** `normalize` is idempotent on a line exactly when its host part hides no dot behind blanks. */
  lemma IdempotentIff(raw: string)
    ensures Normalized(Normalized(raw)) == Normalized(raw) <==> !DotBlankDots(Host(raw))
  {
    hide Host, Trim, TrimEndDots, Plain, DotBlankDots;
    NormalizedShape(raw);
    PlainFixedIff(Normalized(raw));
    DotSurvivesIff(Host(raw));
  }

  /** In particular on every line without inner white space. */
  lemma IdempotentWithoutBlanks(raw: string)
    requires forall c | c in Trim(raw) :: !IsSpace(c)
    ensures Normalized(Normalized(raw)) == Normalized(raw)
  {
    hide Host, Trim, Normalized;
    HostShape(raw);
    IdempotentIff(raw);
    var h := Host(raw);
    forall i, j ensures !HiddenDot(h, i, j) {
      if 0 <= i < |h| - 1 {
        assert h[i + 1] in h;
      }
    }
  }

  /** `"foo. ."` gives `"foo."`, which gives `"foo"`. */
  lemma NormalizeNotIdempotent()
    ensures Normalized(Normalized("foo. .")) != Normalized("foo. .")
  {
    hide Host, Trim, Normalized;
    var s := "foo. .";
    assert Plain(s);
    HostOfPlain(s);
    assert HiddenDot(s, 3, 5);
    IdempotentIff(s);
  }

  /** What `"foo. ."` becomes. */
  lemma FooDot()
    ensures Normalized("foo. .") == "foo."
  {
    hide Host, Trim, TrimEndDots;
    var s := "foo. .";
    assert Plain(s);
    HostOfPlain(s);
    var t := TrimEndDots(s);
    assert s[4] == ' ' && t == s[..5] == "foo. ";
    var lo, hi := TrimSpan(t);
    assert t[0] == 'f' && t[3] == '.' && t[4] == ' ';
    assert t[0..4] == "foo.";
  }

  /** The scheme ends at the first "://". */
  lemma SchemeIsCut(p: string, x: string)
    requires ':' !in p
    ensures AfterScheme(p + "://" + x) == x
  {
    hide FindStr;
    var d := p + "://" + x;
    assert d[|p|..] == "://" + x && "://" <= d[|p|..];
    var idx := FindStr(d, "://");
    assert d[idx..][0] == ':';
    forall i | 0 <= i < |p| ensures d[i] != ':' {
      assert d[i] == p[i];
    }
    assert idx == |p|;
    assert d[|p| + 3..] == x;
  }

  lemma CutAt(h: string, t: string, c: char)
    requires c !in h && (t == "" || t[0] == c)
    ensures Before(h + t, c) == h
  {
    hide Before;
    var d, r := h + t, Before(h + t, c);
    forall i | 0 <= i < |h| ensures d[i] != c {
      assert d[i] == h[i];
    }
    assert r == d[..|r|] && d[..|h|] == h;
    assert forall i | 0 <= i < |r| :: r[i] == d[i] && r[i] != c;
    assert t == "" ==> d == h;
    assert t != "" ==> d[|h|] == c;
  }

  /** Port and path go away, whichever comes first. */
  lemma PortAndPathAreCut(h: string, t: string)
    requires '/' !in h && ':' !in h && (t == "" || t[0] == '/' || t[0] == ':')
    ensures Before(Before(h + t, '/'), ':') == h
  {
    hide Before;
    if t == "" || t[0] == '/' {
      CutAt(h, t, '/');
      CutAt(h, "", ':');
      assert h + "" == h;
    } else {
      var d, r := h + t, Before(h + t, '/');
      forall i | 0 <= i <= |h| ensures d[i] != '/' {
        assert d[i] == if i < |h| then h[i] else t[0];
      }
      assert |r| > |h| && r == d[..|r|];
      assert r == h + r[|h|..] && r[|h|..][0] == t[0];
      CutAt(h, r[|h|..], ':');
    }
  }

  lemma LowerConcat(a: string, b: string)
    ensures Lower(a + b) == Lower(a) + Lower(b)
  {
  }

  lemma LowerHas(s: string, c: char)
    requires !('A' <= c <= 'Z') && !('a' <= c <= 'z')
    ensures c in Lower(s) <==> c in s
    ensures s != "" ==> (Lower(s)[0] == c <==> s[0] == c)
  {
    if c in s {
      var i :| 0 <= i < |s| && s[i] == c;
      assert Lower(s)[i] == c;
    }
    if c in Lower(s) {
      var i :| 0 <= i < |s| && Lower(s)[i] == c;
      assert s[i] == c;
    }
  }

  /** The host of a URL: what stands between "://" and a port, a path or the end, in lower case. */
  lemma HostOfUrl(p: string, h: string, t: string)
    requires ':' !in p && '/' !in h && ':' !in h && (t == "" || t[0] == '/' || t[0] == ':')
    requires Trimmed(p + "://" + (h + t))
    ensures Host(p + "://" + (h + t)) == Lower(h)
  {
    hide Lower, Trim, Before, AfterScheme;
    var line := p + "://" + (h + t);
    TrimShape(line);
    LowerConcat(p + "://", h + t);
    LowerConcat(p, "://");
    LowerConcat(h, t);
    SchemeStaysLower();
    LowerHas(p, ':');
    LowerHas(h, ':');
    LowerHas(h, '/');
    if t != "" {
      LowerHas(t, ':');
      LowerHas(t, '/');
    }
    SchemeIsCut(Lower(p), Lower(h) + Lower(t));
    PortAndPathAreCut(Lower(h), Lower(t));
  }

  lemma SchemeStaysLower()
    ensures Lower("://") == "://" && |Lower("")| == 0
  {
  }

  lemma LowerKeepsScheme(s: string, i: nat)
    requires i < |s|
    ensures "://" <= Lower(s)[i..] <==> "://" <= s[i..]
  {
    var l := Lower(s);
    forall j | 0 <= j < |s| ensures (l[j] == ':' <==> s[j] == ':') && (l[j] == '/' <==> s[j] == '/') {
    }
    SchemeAt(s, i);
    SchemeAt(l, i);
  }

  lemma SchemeAt(s: string, i: nat)
    requires i < |s|
    ensures "://" <= s[i..] <==> i + 3 <= |s| && s[i] == ':' && s[i + 1] == '/' && s[i + 2] == '/'
  {
    if i + 3 <= |s| {
      assert s[i..][..3] == [s[i], s[i + 1], s[i + 2]];
    }
  }

  /** The same without a scheme, if none is written further behind. */
  lemma HostAlone(h: string, t: string)
    requires '/' !in h && ':' !in h && (t == "" || t[0] == '/' || t[0] == ':')
    requires Trimmed(h + t) && forall i | 0 <= i < |h + t| :: !("://" <= (h + t)[i..])
    ensures Host(h + t) == Lower(h)
  {
    hide Trim, Before, FindStr;
    TrimShape(h + t);
    LowerConcat(h, t);
    LowerHas(h, ':');
    LowerHas(h, '/');
    if t != "" {
      LowerHas(t, ':');
      LowerHas(t, '/');
    }
    var d := Lower(h + t);
    forall i | 0 <= i < |d| ensures "://" <= d[i..] <==> "://" <= (h + t)[i..] {
      LowerKeepsScheme(h + t, i);
    }
    PortAndPathAreCut(Lower(h), Lower(t));
  }

  /** A pasted URL stands for its host. */
  lemma PastedUrl(h: string)
    requires Plain(h) && h != "" && !EndsInDot(h)
    ensures Trim("http://" + h) == "http://" + h && Normalized("http://" + h) == h
  {
    hide Trim, TrimEndDots, FindStr, Lower, AfterScheme;
    var d := "http://" + h;
    assert d[0] == 'h' && d[|d| - 1] == h[|h| - 1];
    TrimShape(d);
    forall c | c in d ensures LowerChar(c) == c {
      assert c in "http://" || c in h;
    }
    LowerFixes(d);
    SchemeIsCut("http", h);
    assert "http" + "://" + h == d;
    assert Host(d) == h;
    HostOfPlain(h);
    PlainFixedIff(h);
  }

  function Iterated(n: nat, raw: string): string {
    if n == 0 then raw else Iterated(n - 1, Normalized(raw))
  }

  lemma {:induction false} FixedStays(n: nat, s: string)
    requires Normalized(s) == s
    ensures Iterated(n, s) == s
  {
    hide Normalized;
    if n > 0 {
      FixedStays(n - 1, s);
    }
  }

  lemma {:induction false} PlainConverges(n: nat, s: string)
    requires Plain(s) && |s| <= n
    ensures Normalized(Iterated(n, s)) == Iterated(n, s)
  {
    hide Normalized, Plain, Host;
    PlainFixedIff(s);
    if Normalized(s) == s {
      FixedStays(n, s);
    } else {
      NormalizedShape(s);
      var o := Normalized(s);
      PlainConverges(n - 1, o);
      assert Iterated(n, s) == Iterated(n - 1, o);
    }
  }

  /** As many passes as the line has characters always reach a fixed point. */
  lemma ConvergesWithinLength(raw: string)
    ensures Normalized(Iterated(|raw|, raw)) == Iterated(|raw|, raw)
  {
    hide Normalized, Plain, Host;
    if raw == "" {
      assert Plain("") by { EmptyIsPlain(); }
      PlainFixedIff(raw);
    } else {
      var o := Normalized(raw);
      assert Iterated(|raw|, raw) == Iterated(|raw| - 1, o);
      NormalizedShape(raw);
      PlainFixedIff(o);
      if EndsInDot(o) {
        DottedIsShorter(raw);
        PlainConverges(|raw| - 1, o);
      } else {
        FixedStays(|raw| - 1, o);
      }
    }
  }

  lemma DottedIsShorter(raw: string)
    requires EndsInDot(Normalized(raw))
    ensures |Normalized(raw)| < |raw|
  {
    hide Trim, TrimEndDots, Host;
    HostShape(raw);
    var t := TrimEndDots(Host(raw));
    var lo, hi := TrimSpan(t);
  }

  lemma EmptyIsPlain()
    ensures Plain("")
  {
  }
}
