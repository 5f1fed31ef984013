/** Strings the way the resolver handles them: case folding, splitting, joining, domain names. */
module Names {

  datatype Option<+T> = None | Some(value: T)

  predicate IsAscii(s: string) {
    forall i | 0 <= i < |s| :: s[i] < 128 as char
  }

  type Ascii = s: string | IsAscii(s)

  function Codes(s: string): seq<int> {
    seq(|s|, i requires 0 <= i < |s| => s[i] as int)
  }

  lemma CodesInjective(s: string, t: string)
    requires Codes(s) == Codes(t)
    ensures s == t
  {
    assert |s| == |Codes(s)| == |t|;
    forall i | 0 <= i < |s| ensures s[i] == t[i] {
      assert Codes(s)[i] == Codes(t)[i];
    }
  }

  function LowerChar(c: char): (r: char)
    ensures !('A' <= r <= 'Z')
    ensures r == c || ('A' <= c <= 'Z' && r as int == c as int + 32)
  {
    if 'A' <= c <= 'Z' then (c as int + 32) as char else c
  }

  function Lower(s: string): (r: string)
    ensures |r| == |s| && forall i | 0 <= i < |s| :: r[i] == LowerChar(s[i])
  {
    seq(|s|, i requires 0 <= i < |s| => LowerChar(s[i]))
  }

  /** Index of the first `c`, or the length when there is none. */
  function Find(s: string, c: char): (i: nat)
    ensures i <= |s| && (i < |s| ==> s[i] == c) && c !in s[..i]
  {
    if s == [] || s[0] == c then 0
    else
      var j := Find(s[1..], c);
      assert s[..j + 1] == [s[0]] + s[1..][..j];
      j + 1
  }

  function Split(s: string, c: char): (parts: seq<string>)
    ensures |parts| >= 1 && forall p | p in parts :: c !in p
    decreases |s|
  {
    var i := Find(s, c);
    if i == |s| then [s] else [s[..i]] + Split(s[i + 1..], c)
  }

  function Join(parts: seq<string>, c: char): string {
    if parts == [] then "" else if |parts| == 1 then parts[0] else parts[0] + [c] + Join(parts[1..], c)
  }

  lemma JoinHead(p: string, rest: seq<string>, c: char)
    requires rest != []
    ensures Join([p] + rest, c) == p + [c] + Join(rest, c)
  {
    assert ([p] + rest)[1..] == rest;
  }

  lemma {:induction false} JoinSplit(s: string, c: char)
    ensures Join(Split(s, c), c) == s
    decreases |s|
  {
    hide Join, Find;
    var i := Find(s, c);
    if i == |s| {
      JoinOne(s, c);
    } else {
      JoinSplit(s[i + 1..], c);
      JoinHead(s[..i], Split(s[i + 1..], c), c);
      assert s == s[..i] + [c] + s[i + 1..];
    }
  }

  lemma JoinOne(s: string, c: char)
    ensures Join([s], c) == s
  {
  }

  lemma {:induction false} FindSkips(p: string, c: char, rest: string)
    requires c !in p
    ensures Find(p, c) == |p| && Find(p + [c] + rest, c) == |p|
  {
    if p != [] {
      FindSkips(p[1..], c, rest);
      assert (p + [c] + rest)[1..] == p[1..] + [c] + rest;
    }
  }

  lemma SplitHead(p: string, c: char, rest: string)
    requires c !in p
    ensures Split(p + [c] + rest, c) == [p] + Split(rest, c)
  {
    FindSkips(p, c, rest);
    var s := p + [c] + rest;
    assert s[..|p|] == p && s[|p| + 1..] == rest;
  }

  lemma {:induction false} SplitJoin(parts: seq<string>, c: char)
    requires parts != [] && forall p | p in parts :: c !in p
    ensures Split(Join(parts, c), c) == parts
  {
    if |parts| == 1 {
      FindSkips(parts[0], c, "");
    } else {
      SplitJoin(parts[1..], c);
      SplitHead(parts[0], c, Join(parts[1..], c));
      assert parts == [parts[0]] + parts[1..];
    }
  }

  function TrimEndDots(s: string): (r: string)
    ensures r <= s && (forall i | |r| <= i < |s| :: s[i] == '.') && (r == "" || r[|r| - 1] != '.')
  {
    if s != [] && s[|s| - 1] == '.' then TrimEndDots(s[..|s| - 1]) else s
  }

  // ---- domain names ----

  predicate IsLabel(s: string) {
    s != [] && IsAscii(s) && '.' !in s
  }

  type Label = s: string | IsLabel(s) witness "x"
  type DnsName = seq<Label>

  /** The name as the wire library prints it: every label followed by a dot, the root as one dot. */
  function Display(n: DnsName): string {
    if n == [] then "." else Join(n, '.') + "."
  }

  /** The textual name used for the blocklist, the cache key and the log. */
  function KeyName(n: DnsName): string {
    Lower(TrimEndDots(Display(n)))
  }

  function LowerLabels(n: seq<string>): (r: seq<string>)
    ensures |r| == |n|
  {
    seq(|n|, i requires 0 <= i < |n| => Lower(n[i]))
  }

  /** Equal, or one the capital of the other (section 2.3.3 of RFC 1035). */
  predicate SameLetter(x: char, y: char) {
    || x == y
    || ('A' <= x <= 'Z' && y as int == x as int + 32)
    || ('A' <= y <= 'Z' && x as int == y as int + 32)
  }

  predicate SameText(s: string, t: string) {
    |s| == |t| && forall i | 0 <= i < |s| :: SameLetter(s[i], t[i])
  }

  /** The same labels letter by letter. */
  predicate SameLabels(a: seq<string>, b: seq<string>) {
    |a| == |b| && forall i | 0 <= i < |a| :: SameText(a[i], b[i])
  }

  /** Name equality ignores ASCII case. */
  predicate SameName(a: DnsName, b: DnsName) {
    SameLabels(a, b)
  }

  predicate NoCapitals(s: string) {
    forall i | 0 <= i < |s| :: !('A' <= s[i] <= 'Z')
  }

  lemma LowerIff(s: string, t: string)
    ensures Lower(s) == Lower(t) <==> SameText(s, t)
    ensures NoCapitals(Lower(s)) && SameText(Lower(s), s)
  {
    if Lower(s) == Lower(t) {
      assert |Lower(s)| == |s| && |Lower(t)| == |t|;
      forall i | 0 <= i < |s| ensures SameLetter(s[i], t[i]) {
        assert Lower(s)[i] == LowerChar(s[i]) && Lower(t)[i] == LowerChar(t[i]);
      }
    }
  }

  lemma LowerLabelsIff(a: seq<string>, b: seq<string>)
    ensures LowerLabels(a) == LowerLabels(b) <==> SameLabels(a, b)
  {
    hide SameText, Lower;
    forall i | 0 <= i < |a| && i < |b| ensures Lower(a[i]) == Lower(b[i]) <==> SameText(a[i], b[i]) {
      LowerIff(a[i], b[i]);
    }
    if LowerLabels(a) == LowerLabels(b) {
      assert |a| == |LowerLabels(a)| == |b|;
      forall i | 0 <= i < |a| ensures SameText(a[i], b[i]) {
        assert LowerLabels(a)[i] == Lower(a[i]) && LowerLabels(b)[i] == Lower(b[i]);
      }
    }
  }

  lemma {:induction false} LowerJoin(n: DnsName)
    ensures Lower(Join(n, '.')) == Join(LowerLabels(n), '.')
  {
    if |n| >= 2 {
      LowerJoin(n[1..]);
      assert LowerLabels(n)[1..] == LowerLabels(n[1..]);
      assert Lower(Join(n, '.')) == Lower(n[0]) + ['.'] + Lower(Join(n[1..], '.'));
    }
  }

  lemma {:induction false} JoinedNameEnds(n: DnsName)
    requires n != []
    ensures Join(n, '.') != [] && Join(n, '.')[|Join(n, '.')| - 1] != '.'
    ensures IsAscii(Join(n, '.'))
  {
    if |n| >= 2 {
      JoinedNameEnds(n[1..]);
    }
  }

  lemma TrimsOneDot(j: string)
    requires j == "" || j[|j| - 1] != '.'
    ensures TrimEndDots(j + ".") == j
  {
    assert (j + ".")[..|j|] == j;
  }

  lemma LowerKeepsDots(n: DnsName)
    ensures forall p | p in LowerLabels(n) :: '.' !in p
  {
    forall p | p in LowerLabels(n) ensures '.' !in p {
      var i :| 0 <= i < |n| && p == Lower(n[i]);
    }
  }

  lemma KeyNameIs(n: DnsName)
    ensures KeyName(n) == Join(LowerLabels(n), '.')
    ensures IsAscii(KeyName(n))
    ensures n != [] ==> KeyName(n) != ""
    ensures n != [] ==> Split(KeyName(n), '.') == LowerLabels(n)
  {
    hide TrimEndDots, Split, LowerLabels;
    LowerKeepsDots(n);
    LowerJoin(n);
    if n == [] {
      TrimsOneDot("");
      assert "" + "." == ".";
    } else {
      JoinedNameEnds(n);
      TrimsOneDot(Join(n, '.'));
      SplitJoin(LowerLabels(n), '.');
    }
  }

  /** Two names share a key exactly when they have the same labels letter by letter, and no key has a capital. */
  lemma KeyNameIdentifies(a: DnsName, b: DnsName)
    ensures KeyName(a) == KeyName(b) <==> SameName(a, b)
    ensures NoCapitals(KeyName(a))
  {
    hide LowerLabels, SameLabels;
    KeyNameIs(a);
    KeyNameIs(b);
    LowerLabelsIff(a, b);
    LowerIff(TrimEndDots(Display(a)), "");
    SizesDiffer(a, b);
  }

  lemma SameNameThrough(a: DnsName, b: DnsName, c: DnsName)
    requires SameName(b, a) && SameName(b, c)
    ensures SameName(a, c)
  {
    hide SameName;
    KeyNameIdentifies(b, a);
    KeyNameIdentifies(b, c);
    KeyNameIdentifies(a, c);
  }

  lemma SizesDiffer(a: DnsName, b: DnsName)
    ensures LowerLabels(a) == LowerLabels(b) ==> |a| == |b|
  {
    assert |LowerLabels(a)| == |a| && |LowerLabels(b)| == |b|;
  }
}
