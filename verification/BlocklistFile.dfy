/** The blocklist file: parsing lines, printing them sorted, and exactly which lists survive a save and reload. */
module BlocklistFile {
  import opened Names
  import opened Order
  import opened Blocklist
  import opened BlocklistText

  datatype Entry = Exact(d: string) | Wild(d: string)

  // ---- parsing ----

  function StripCr(s: string): (r: string)
    ensures r <= s && |s| <= |r| + 1 && (r != s <==> s != "" && s[|s| - 1] == '\r')
  {
    if s != "" && s[|s| - 1] == '\r' then s[..|s| - 1] else s
  }

  /** `str::lines`: a carriage return before a newline belongs to the line ending. */
  function Lines(text: string): seq<string> { Ended(Split(text, '\n')) }

  /** All but the last part ended with a newline. */
  function Ended(parts: seq<string>): seq<string>
    requires parts != []
  {
    var n := |parts| - 1;
    seq(n, i requires 0 <= i < n => StripCr(parts[i])) + if parts[n] == "" then [] else [parts[n]]
  }

  lemma EndedHead(p: string, tail: seq<string>)
    requires tail != []
    ensures Ended([p] + tail) == [StripCr(p)] + Ended(tail)
  {
    hide StripCr;
    var parts := [p] + tail;
    var n := |tail| - 1;
    assert parts[n + 1] == tail[n];
    var a := seq(n + 1, i requires 0 <= i < n + 1 => StripCr(parts[i]));
    var b := seq(n, i requires 0 <= i < n => StripCr(tail[i]));
    assert a == [StripCr(p)] + b;
  }

  /** A text is its lines, each up to its newline; what follows the last newline is a line if it is not empty. */
  lemma LinesAre(line: string, rest: string)
    requires '\n' !in line
    ensures Lines(line + ['\n'] + rest) == [StripCr(line)] + Lines(rest)
    ensures Lines(line) == if line == "" then [] else [line]
  {
    hide StripCr, Split, Ended;
    SplitHead(line, '\n', rest);
    EndedHead(line, Split(rest, '\n'));
    OnePart(line);
  }

  lemma OnePart(line: string)
    requires '\n' !in line
    ensures Lines(line) == if line == "" then [] else [line]
  {
    FindSkips(line, '\n', "");
    assert Split(line, '\n') == [line];
  }

  /** The entry a line stands for; blank lines and comments stand for none. */
  function Yield(line: string): Option<Entry> {
    var t := Trim(line);
    if t == "" || t[0] == '#' then None
    else if "*." <= t then
      var d := Normalized(t[2..]);
      if d == "" then None else Some(Wild(d))
    else
      var d := Normalized(t);
      if d == "" then None else Some(Exact(d))
  }

  predicate Has(l: Lists, e: Entry) {
    match e case Exact(d) => d in l.exact case Wild(d) => d in l.wildcard
  }

  function Add(l: Lists, line: string): Lists {
    match Yield(line)
    case Some(Exact(d)) => l.(exact := l.exact + {d})
    case Some(Wild(d)) => l.(wildcard := l.wildcard + {d})
    case None => l
  }

  /** Comments and blank lines add nothing, `*.` makes a wildcard of the rest, everything else is exact. */
  lemma LineMeans(l: Lists, line: string)
    ensures var t := Trim(line);
            if t == "" || t[0] == '#' then Add(l, line) == l
            else if |t| >= 2 && t[0] == '*' && t[1] == '.' then
              Add(l, line) == Lists(l.exact, l.wildcard + ({Normalized(t[2..])} - {""}))
            else Add(l, line) == Lists(l.exact + ({Normalized(t)} - {""}), l.wildcard)
  {
    hide Trim, Normalized;
    var t := Trim(line);
    assert |t| >= 2 ==> t[..2] == [t[0], t[1]];
    assert l.wildcard + {} == l.wildcard && l.exact + {} == l.exact;
    assert forall d :: {d} - {""} == if d == "" then {} else {d};
  }

  function AddAll(l: Lists, lines: seq<string>): Lists {
    if lines == [] then l else Add(AddAll(l, lines[..|lines| - 1]), lines[|lines| - 1])
  }

  function Loaded(text: string): Lists { AddAll(Lists({}, {}), Lines(text)) }

  method FromText(text: string) returns (l: Lists)
    ensures l == Loaded(text)
  {
    hide Trim, Normalized, Lines;
    var lines := Lines(text);
    var exact, wildcard := {}, {};
    for i := 0 to |lines|
      invariant Lists(exact, wildcard) == AddAll(Lists({}, {}), lines[..i])
    {
      assert lines[..i + 1][..i] == lines[..i];
      var line := Trim(lines[i]);
      if line == "" || line[0] == '#' {
        continue;
      }
      if "*." <= line {
        var d := Normalize(line[2..]);
        if d != "" {
          wildcard := wildcard + {d};
        }
      } else {
        var d := Normalize(line);
        if d != "" {
          exact := exact + {d};
        }
      }
    }
    assert lines[..|lines|] == lines;
    l := Lists(exact, wildcard);
  }

  /** Parsing forgets the order and repetition of lines. */
  lemma {:induction false} AddAllHas(lines: seq<string>, e: Entry)
    ensures Has(AddAll(Lists({}, {}), lines), e) <==> exists line | line in lines :: Yield(line) == Some(e)
  {
    hide Yield;
    if lines != [] {
      var n := |lines| - 1;
      AddAllHas(lines[..n], e);
      assert forall line :: line in lines <==> line in lines[..n] || line == lines[n];
    }
  }

  lemma HasAll(a: Lists, b: Lists)
    requires forall e :: Has(a, e) <==> Has(b, e)
    ensures a == b
  {
    assert forall d :: d in a.exact <==> Has(a, Exact(d));
    assert forall d :: d in a.wildcard <==> Has(a, Wild(d));
    assert forall d :: d in b.exact <==> Has(b, Exact(d));
    assert forall d :: d in b.wildcard <==> Has(b, Wild(d));
  }

  // ---- printing ----

  function LineOf(e: Entry): string {
    match e case Exact(d) => d case Wild(d) => "*." + d
  }

  function Starred(wildcard: set<string>): set<string> {
    set d | d in wildcard :: "*." + d
  }

  /** The sorted listing: every exact entry and every starred wildcard entry once, in byte order. */
  ghost predicate IsListing(l: Lists, v: seq<string>) {
    SortedBy(v, Codes) && multiset(v) == multiset(l.exact) + multiset(Starred(l.wildcard))
  }

  /** The listing does not depend on the iteration order of the hash sets. */
  lemma ListingUnique(l: Lists, v: seq<string>, w: seq<string>)
    requires IsListing(l, v) && IsListing(l, w)
    ensures v == w
  {
    forall x, y | Codes(x) == Codes(y) ensures x == y {
      CodesInjective(x, y);
    }
    SortedUnique(v, w, Codes);
  }

  lemma ListingLines(l: Lists, v: seq<string>, line: string)
    requires IsListing(l, v)
    ensures line in v <==> exists e | Has(l, e) :: LineOf(e) == line
  {
    assert line in v <==> line in multiset(v);
    if line in l.exact {
      assert Has(l, Exact(line)) && LineOf(Exact(line)) == line;
    }
    if line in Starred(l.wildcard) {
      var d :| d in l.wildcard && line == "*." + d;
      assert Has(l, Wild(d)) && LineOf(Wild(d)) == line;
    }
  }

  /** Elements of a set in some order. */
  method Enumerate(s: set<string>) returns (v: seq<string>)
    ensures multiset(v) == multiset(s)
  {
    v := [];
    var rest := s;
    while rest != {}
      invariant rest <= s && multiset(v) == multiset(s - rest)
      decreases rest
    {
      var d :| d in rest;
      v := v + [d];
      rest := rest - {d};
      assert s - rest == (s - (rest + {d})) + {d};
    }
    assert s - {} == s;
  }

  method ToSortedVec(l: Lists) returns (v: seq<string>)
    ensures IsListing(l, v)
  {
    hide SortBy;
    v := Enumerate(l.exact);
    var wild := Enumerate(Starred(l.wildcard));
    v := v + wild;
    SortSorts(v, Codes);
    v := SortBy(v, Codes);
  }

  function FileText(v: seq<string>): string { Join(v, '\n') + "\n" }

  /** One entry a line, each line ended; an empty list is one empty line. */
  lemma FileTextIs(e: string, v: seq<string>)
    ensures FileText([]) == "\n" && FileText([e]) == e + "\n"
    ensures v != [] ==> FileText([e] + v) == e + "\n" + FileText(v)
  {
    assert "" + "\n" == "\n";
    if v != [] {
      JoinHead(e, v, '\n');
    }
  }

  // ---- save and reload ----

  /** An exact entry whose line does not read as a comment or as a wildcard. */
  predicate ReadsAsItself(e: Entry) {
    e.Exact? ==> !("#" <= e.d) && !("*." <= e.d)
  }

  /** An entry that its own line stands for again. */
  predicate CleanEntry(e: Entry) {
    && e.d != "" && '\n' !in e.d
    && Normalized(e.d) == e.d
    && ReadsAsItself(e)
  }

  ghost predicate Clean(l: Lists) {
    forall e | Has(l, e) :: CleanEntry(e)
  }

  /** What every parsed entry satisfies. */
  predicate Parsed(e: Entry) {
    e.d != "" && '\n' !in e.d && Plain(e.d)
  }

  lemma YieldParsed(line: string)
    requires Yield(line).Some? && '\n' !in line
    ensures Parsed(Yield(line).value)
  {
    hide Trim, Normalized, Plain, Host;
    TrimShape(line);
    var t := Trim(line);
    NormalizedShape(t);
    if "*." <= t {
      NormalizedShape(t[2..]);
    }
  }

  lemma LinesHaveNoNewline(text: string)
    ensures forall line | line in Lines(text) :: '\n' !in line
  {
    hide Split;
    var parts := Split(text, '\n');
    forall line | line in Lines(text) ensures '\n' !in line {
      var i :| 0 <= i < |Lines(text)| && Lines(text)[i] == line;
      assert parts[i] in parts;
      assert line <= parts[i];
      assert forall c | c in line :: c in parts[i];
    }
  }

  lemma LoadedParsed(text: string, e: Entry)
    requires Has(Loaded(text), e)
    ensures Parsed(e)
  {
    hide Lines, Yield, Parsed;
    AddAllHas(Lines(text), e);
    var line :| line in Lines(text) && Yield(line) == Some(e);
    LinesHaveNoNewline(text);
    YieldParsed(line);
  }

  /** Printed lines read back as themselves. */
  lemma LinesOfFile(v: seq<string>)
    requires forall s | s in v :: '\n' !in s && Trimmed(s)
    ensures Lines(FileText(v)) == if v == [] then [""] else v
  {
    if v == [] {
      FindSkips("", '\n', "");
      assert FileText(v) == "" + ['\n'] + "";
      assert Split("\n", '\n') == ["", ""];
    } else {
      JoinLast(v);
      SplitJoin(v + [""], '\n');
      assert forall s | s in v :: StripCr(s) == s;
      assert forall i | 0 <= i < |v| :: v[i] in v;
    }
  }

  lemma {:induction false} JoinLast(v: seq<string>)
    requires v != []
    ensures Join(v + [""], '\n') == FileText(v)
  {
    if |v| == 1 {
      assert (v + [""])[1..] == [""];
      assert Join([""], '\n') == "";
    } else {
      JoinLast(v[1..]);
      assert (v + [""])[1..] == v[1..] + [""];
      assert Join(v, '\n') == v[0] + ['\n'] + Join(v[1..], '\n');
    }
  }

  /** What the line of a parsed entry yields: itself when clean, otherwise nothing or something lighter. */
  lemma YieldOfEntry(e: Entry)
    requires Parsed(e)
    ensures Trimmed(LineOf(e)) && '\n' !in LineOf(e)
    ensures CleanEntry(e) ==> Yield(LineOf(e)) == Some(e)
    ensures !CleanEntry(e) && Yield(LineOf(e)).Some? ==> Weight(Yield(LineOf(e)).value) < Weight(e)
  {
    hide Trim, Normalized, Host;
    var line := LineOf(e);
    TrimShape(line);
    PlainFixedIff(e.d);
    if e.Wild? {
      assert line[2..] == e.d;
    } else if "*." <= line {
      NormalizedShape(line[2..]);
    }
  }

  function Weight(e: Entry): nat {
    match e case Exact(d) => |d| case Wild(d) => |d| + 1
  }

  lemma YieldOfBlank()
    ensures Yield("") == None
  {
    hide Normalized;
  }

  /** The entries of a reloaded list are what the lines of the saved one yield. */
  lemma ReloadHas(l: Lists, v: seq<string>, e: Entry)
    requires IsListing(l, v)
    requires forall x | Has(l, x) :: Parsed(x)
    ensures Has(Loaded(FileText(v)), e) <==> exists x | Has(l, x) :: Yield(LineOf(x)) == Some(e)
  {
    hide Yield, Parsed, LineOf, Lines, IsListing, Trimmed;
    forall s | s in v ensures '\n' !in s && Trimmed(s) {
      ListingLines(l, v, s);
      var x :| Has(l, x) && LineOf(x) == s;
      YieldOfEntry(x);
    }
    LinesOfFile(v);
    YieldOfBlank();
    AddAllHas(Lines(FileText(v)), e);
    if Has(Loaded(FileText(v)), e) {
      var line :| line in v && Yield(line) == Some(e);
      ListingLines(l, v, line);
    }
    if x :| Has(l, x) && Yield(LineOf(x)) == Some(e) {
      ListingLines(l, v, LineOf(x));
      assert LineOf(x) in v;
    }
  }

  lemma CleanReloads(l: Lists, v: seq<string>)
    requires IsListing(l, v) && Clean(l)
    ensures Loaded(FileText(v)) == l
  {
    hide Yield, LineOf, IsListing, CleanEntry, Loaded, FileText;
    forall x | Has(l, x) ensures Parsed(x) {
      CleanIsParsed(x);
    }
    forall e ensures Has(Loaded(FileText(v)), e) <==> Has(l, e) {
      ReloadHas(l, v, e);
      forall x | Has(l, x) ensures Yield(LineOf(x)) == Some(x) {
        YieldOfEntry(x);
      }
    }
    HasAll(Loaded(FileText(v)), l);
  }

  lemma CleanIsParsed(e: Entry)
    requires CleanEntry(e)
    ensures Parsed(e)
  {
    hide Normalized, Plain, Host;
    NormalizedShape(e.d);
  }

  ghost function Entries(l: Lists): (r: set<Entry>)
    ensures forall e :: e in r <==> Has(l, e)
  {
    (set d | d in l.exact :: Exact(d)) + (set d | d in l.wildcard :: Wild(d))
  }

  lemma Heaviest(s: set<Entry>) returns (top: Entry)
    requires s != {}
    ensures top in s && forall e | e in s :: Weight(e) <= Weight(top)
  {
    top :| top in s;
    if s != {top} {
      var rest := s - {top};
      var other := Heaviest(rest);
      top := if Weight(other) >= Weight(top) then other else top;
      assert forall e | e in s :: e in rest || Weight(e) <= Weight(top);
    }
  }

  /** A list that reloads as itself is clean: an unclean entry would need a heavier unclean one behind it. */
  lemma ReloadsOnlyIfClean(l: Lists, v: seq<string>)
    requires IsListing(l, v) && Loaded(FileText(v)) == l
    ensures Clean(l)
  {
    hide Yield, LineOf, IsListing, CleanEntry, Loaded, FileText, Parsed, Weight;
    forall x | Has(l, x) ensures Parsed(x) {
      LoadedParsed(FileText(v), x);
    }
    var bad := set e | e in Entries(l) && !CleanEntry(e);
    if bad != {} {
      var top := Heaviest(bad);
      ReloadHas(l, v, top);
      var x :| Has(l, x) && Yield(LineOf(x)) == Some(top);
      YieldOfEntry(x);
      assert false;
    }
    forall e | Has(l, e) ensures CleanEntry(e) {
      assert e in Entries(l) && e !in bad;
    }
  }

  /** Saving and reloading gives back the same two sets exactly for clean lists. */
  lemma SaveReloadIff(l: Lists, v: seq<string>)
    requires IsListing(l, v)
    ensures Loaded(FileText(v)) == l <==> Clean(l)
  {
    if Clean(l) {
      CleanReloads(l, v);
    }
    if Loaded(FileText(v)) == l {
      ReloadsOnlyIfClean(l, v);
    }
  }

  /** A list from text can only be unclean by a trailing dot, or an exact entry that reads as a comment or wildcard. */
  lemma ParsedTextCleanIff(text: string)
    ensures Clean(Loaded(text)) <==>
            forall e | Has(Loaded(text), e) ::
              !EndsInDot(e.d) && ReadsAsItself(e)
  {
    hide Normalized, Plain, Loaded, Host;
    forall e | Has(Loaded(text), e)
      ensures CleanEntry(e) <==> !EndsInDot(e.d) && ReadsAsItself(e)
    {
      LoadedParsed(text, e);
      PlainFixedIff(e.d);
    }
  }

  // ---- texts whose lists do not read back ----

  lemma OneLine(line: string)
    requires line != "" && '\n' !in line
    ensures Loaded(line) == Add(Lists({}, {}), line)
  {
    hide Yield, Add;
    FindSkips(line, '\n', "");
    assert Split(line, '\n') == [line];
    assert Lines(line) == [line];
    assert [line][..0] == [];
    assert AddAll(Lists({}, {}), [line]) == Add(AddAll(Lists({}, {}), []), line);
  }

  lemma UrlLoads(h: string)
    requires Plain(h) && h != "" && !EndsInDot(h) && '\n' !in h
    ensures Loaded("http://" + h) == Lists({h}, {})
  {
    hide Trim, Normalized, Plain, Loaded;
    var line := "http://" + h;
    assert forall c | c in line :: c in "http://" || c in h;
    OneLine(line);
    PastedUrl(h);
    assert line[0] == 'h';
  }

  /** Each way of being unclean happens: a trailing dot, and an exact entry that reads as a comment or a wildcard. */
  lemma UncleanTexts()
    ensures Loaded("foo. .") == Lists({"foo."}, {}) && !Clean(Loaded("foo. ."))
    ensures Loaded("http://#x") == Lists({"#x"}, {}) && !Clean(Loaded("http://#x"))
    ensures Loaded("http://*.x") == Lists({"*.x"}, {}) && !Clean(Loaded("http://*.x"))
  {
    hide Loaded, Normalized, CleanEntry;
    FooLoads();
    UrlLoads("#x");
    UrlLoads("*.x");
    assert "http://" + "#x" == "http://#x" && "http://" + "*.x" == "http://*.x";
    Unclean(Exact("foo."));
    Unclean(Exact("#x"));
    Unclean(Exact("*.x"));
    assert Has(Loaded("foo. ."), Exact("foo.")) && Has(Loaded("http://#x"), Exact("#x"));
    assert Has(Loaded("http://*.x"), Exact("*.x"));
  }

  lemma FooLoads()
    ensures Loaded("foo. .") == Lists({"foo."}, {})
  {
    hide Trim, Normalized, Loaded;
    OneLine("foo. .");
    TrimShape("foo. .");
    FooDot();
  }

  lemma Unclean(e: Entry)
    requires Plain(e.d) && (EndsInDot(e.d) || !ReadsAsItself(e))
    ensures !CleanEntry(e)
  {
    hide Normalized, Plain;
    PlainFixedIff(e.d);
  }
}
