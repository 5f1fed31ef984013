/** The filter of the log viewer: user text inlined as SQL string literals. */
module Sql {
  import opened Names

  /** `sql_escape` drops semicolons and backslashes and doubles quotes. */
  function Filtered(s: string): string {
    if s == "" then ""
    else (if s[0] == ';' || s[0] == '\\' then "" else [s[0]]) + Filtered(s[1..])
  }

  /** The filter acts on each character by itself: it drops semicolons and backslashes and keeps the others. */
  lemma FilteredAt(ch: char)
    ensures Filtered([ch]) == if ch == ';' || ch == '\\' then "" else [ch]
    ensures Filtered("") == ""
  {
    assert [ch][1..] == "";
  }

  lemma {:induction false} FilteredAppend(a: string, b: string)
    ensures Filtered(a + b) == Filtered(a) + Filtered(b)
  {
    if a == "" {
      assert a + b == b;
    } else {
      assert (a + b)[1..] == a[1..] + b;
      FilteredAppend(a[1..], b);
    }
  }

  function Doubled(s: string): string {
    if s == "" then ""
    else (if s[0] == '\'' then "''" else [s[0]]) + Doubled(s[1..])
  }

  function Escape(s: string): string { Doubled(Filtered(s)) }

  datatype Scan = Unterminated | Scan(text: string, rest: string)

  /** A string literal after its opening quote: two quotes stand for one, a single quote ends it. */
  function ScanLiteral(s: string): (r: Scan)
    ensures r.Scan? ==> |r.rest| < |s|
  {
    if s == "" then Unterminated
    else if s[0] != '\'' then Extend(s[0], ScanLiteral(s[1..]))
    else if |s| >= 2 && s[1] == '\'' then Extend('\'', ScanLiteral(s[2..]))
    else Scan("", s[1..])
  }

  function Extend(ch: char, r: Scan): (e: Scan)
    ensures r.Scan? ==> e.Scan? && e.rest == r.rest
    ensures r.Unterminated? ==> e.Unterminated?
  {
    match r
    case Unterminated => Unterminated
    case Scan(text, rest) => Scan([ch] + text, rest)
  }

  lemma ScanPlain(ch: char, tail: string)
    requires ch != '\''
    ensures ScanLiteral([ch] + tail) == Extend(ch, ScanLiteral(tail))
  {
    hide Extend;
    assert ([ch] + tail)[1..] == tail;
  }

  lemma ScanDoubleQuote(tail: string)
    ensures ScanLiteral(['\'', '\''] + tail) == Extend('\'', ScanLiteral(tail))
  {
    hide Extend;
    assert (['\'', '\''] + tail)[2..] == tail;
  }

  lemma ScanEnd(rest: string)
    requires !("'" <= rest)
    ensures ScanLiteral("'" + rest) == Scan("", rest)
  {
    var s := "'" + rest;
    assert s[1..] == rest;
    assert |rest| > 0 ==> s[1] == rest[0];
  }

  lemma DoubledHead(ch: char, rest: string)
    ensures Doubled([ch] + rest) == (if ch == '\'' then ['\'', '\''] else [ch]) + Doubled(rest)
  {
    assert ([ch] + rest)[1..] == rest;
  }

  /** The quoted text ends where its own closing quote stands and reads as the text itself. */
  lemma {:induction false} ScanDoubled(s: string, rest: string)
    requires !("'" <= rest)
    ensures ScanLiteral(Doubled(s) + "'" + rest) == Scan(s, rest)
  {
    hide Doubled, ScanLiteral;
    if s == "" {
      NothingDoubled();
      assert "" + "'" + rest == "'" + rest;
      ScanEnd(rest);
    } else {
      var ch, more := s[0], s[1..];
      ScanDoubled(more, rest);
      var tail := Doubled(more) + "'" + rest;
      assert s == [ch] + more;
      DoubledHead(ch, more);
      if ch == '\'' {
        assert Doubled(s) + "'" + rest == ['\'', '\''] + tail;
        ScanDoubleQuote(tail);
      } else {
        assert Doubled(s) + "'" + rest == [ch] + tail;
        ScanPlain(ch, tail);
      }
    }
  }

  lemma NothingDoubled()
    ensures Doubled("") == ""
  {
  }

  lemma {:induction false} DoubledAppend(a: string, b: string)
    ensures Doubled(a + b) == Doubled(a) + Doubled(b)
  {
    if a == "" {
      assert a + b == b;
    } else {
      assert (a + b)[1..] == a[1..] + b;
      DoubledAppend(a[1..], b);
    }
  }

  // ---- the where clause ----

  datatype Column = Domain | Client | Action

  /** `domain` is matched as a LIKE pattern, the others exactly. */
  datatype Condition = Condition(column: Column, literal: string)

  datatype LogQuery = LogQuery(domain: Option<string>, client: Option<string>, action: Option<string>)

  function Head(c: Column): string {
    match c
    case Domain => "domain LIKE '"
    case Client => "client = '"
    case Action => "action = '"
  }

  function Clause(c: Column, value: string): string {
    match c
    case Domain => Head(c) + "%" + Escape(value) + "%'"
    case _ => Head(c) + Escape(value) + "'"
  }

  /** What a clause is meant to say. */
  function Meant(c: Column, value: string): Condition {
    match c
    case Domain => Condition(c, "%" + Filtered(value) + "%")
    case _ => Condition(c, Filtered(value))
  }

  function Given(c: Column, v: Option<string>): seq<(Column, string)> {
    if v.None? || v.value == "" then [] else [(c, v.value)]
  }

  function Wanted(q: LogQuery): seq<(Column, string)> {
    Given(Domain, q.domain) + Given(Client, q.client) + Given(Action, q.action)
  }

  function Clauses(w: seq<(Column, string)>): seq<string> {
    seq(|w|, i requires 0 <= i < |w| => Clause(w[i].0, w[i].1))
  }

  function Conditions(w: seq<(Column, string)>): seq<Condition> {
    seq(|w|, i requires 0 <= i < |w| => Meant(w[i].0, w[i].1))
  }

  function JoinAnd(parts: seq<string>): string {
    if parts == [] then ""
    else if |parts| == 1 then parts[0]
    else parts[0] + " AND " + JoinAnd(parts[1..])
  }

  function WhereSql(q: LogQuery): string {
    if Wanted(q) == [] then "" else "WHERE " + JoinAnd(Clauses(Wanted(q)))
  }

  lemma ClausesExtend(w: seq<(Column, string)>, c: Column, value: string)
    ensures Clauses(w + [(c, value)]) == Clauses(w) + [Clause(c, value)]
  {
    hide Clause;
  }

  method AddClause(clauses: seq<string>, ghost w: seq<(Column, string)>, c: Column, v: Option<string>)
    returns (more: seq<string>)
    requires clauses == Clauses(w)
    ensures more == Clauses(w + Given(c, v))
  {
    hide Clause, Clauses;
    more := clauses;
    if v.Some? && v.value != "" {
      ClausesExtend(w, c, v.value);
      more := more + [Clause(c, v.value)];
    } else {
      assert w + Given(c, v) == w;
    }
  }

  /** The clause builder of `get_logs`. */
  method BuildWhere(q: LogQuery) returns (sql: string)
    ensures sql == WhereSql(q)
  {
    hide Clause, JoinAnd, Given;
    var clauses := AddClause([], [], Domain, q.domain);
    assert [] + Given(Domain, q.domain) == Given(Domain, q.domain);
    clauses := AddClause(clauses, Given(Domain, q.domain), Client, q.client);
    clauses := AddClause(clauses, Given(Domain, q.domain) + Given(Client, q.client), Action, q.action);
    sql := if clauses == [] then "" else "WHERE " + JoinAnd(clauses);
  }

  /** The generated text for each filter alone. */
  lemma SingleFilters(v: string)
    requires v != ""
    ensures WhereSql(LogQuery(Some(v), None, None)) == "WHERE " + ("domain LIKE '" + "%" + Escape(v) + "%'")
    ensures WhereSql(LogQuery(None, Some(v), None)) == "WHERE " + ("client = '" + Escape(v) + "'")
    ensures WhereSql(LogQuery(None, None, Some(v))) == "WHERE " + ("action = '" + Escape(v) + "'")
  {
    hide Escape;
    OneClause(LogQuery(Some(v), None, None), Domain, v);
    OneClause(LogQuery(None, Some(v), None), Client, v);
    OneClause(LogQuery(None, None, Some(v)), Action, v);
  }

  lemma OneClause(q: LogQuery, c: Column, v: string)
    requires Wanted(q) == [(c, v)]
    ensures WhereSql(q) == "WHERE " + Clause(c, v)
  {
    hide Clause, Wanted;
    assert Clauses([(c, v)]) == [Clause(c, v)];
  }

  // ---- reading it back ----

  function ColumnAt(s: string): Option<Column> {
    if Head(Domain) <= s then Some(Domain)
    else if Head(Client) <= s then Some(Client)
    else if Head(Action) <= s then Some(Action)
    else None
  }

  /** A conjunction of conditions, or nothing if the text is anything else. */
  function ReadConjunction(s: string): Option<seq<Condition>>
    decreases |s|
  {
    match ColumnAt(s)
    case None => None
    case Some(c) =>
      var r := ScanLiteral(s[|Head(c)|..]);
      if r.Unterminated? then None
      else if r.rest == "" then Some([Condition(c, r.text)])
      else if " AND " <= r.rest then
        match ReadConjunction(r.rest[5..])
        case Some(more) => Some([Condition(c, r.text)] + more)
        case None => None
      else None
  }

  function ReadWhere(s: string): Option<seq<Condition>> {
    if s == "" then Some([])
    else if "WHERE " <= s then ReadConjunction(s[6..])
    else None
  }

  lemma HeadsDiffer(c: Column, tail: string)
    ensures ColumnAt(Head(c) + tail) == Some(c) && (Head(c) + tail)[|Head(c)|..] == tail
  {
    var s := Head(c) + tail;
    assert s[0] == Head(c)[0] && s[1] == Head(c)[1];
    assert Head(c) <= s;
  }

  lemma PatternDoubled(f: string)
    ensures Doubled("%" + f + "%") + "'" == "%" + Doubled(f) + "%'"
  {
    hide Doubled;
    NothingDoubled();
    DoubledHead('%', "");
    assert ['%'] + "" == "%";
    DoubledAppend("%", f);
    DoubledAppend("%" + f, "%");
  }

  lemma ClauseIsQuoted(c: Column, value: string)
    ensures Clause(c, value) == Head(c) + Doubled(Meant(c, value).literal) + "'"
  {
    hide Head, Filtered, Doubled;
    if c == Domain {
      var h, f := Head(c), Filtered(value);
      PatternDoubled(f);
      assert h + "%" + Doubled(f) + "%'" == h + ("%" + Doubled(f) + "%'");
      assert h + Doubled("%" + f + "%") + "'" == h + (Doubled("%" + f + "%") + "'");
    }
  }

  /** A clause followed by anything that does not start with a quote reads as the intended condition. */
  lemma ReadClause(c: Column, value: string, rest: string)
    requires !("'" <= rest)
    ensures var s := Clause(c, value) + rest;
            && ColumnAt(s) == Some(c) && |s| >= |Head(c)|
            && ScanLiteral(s[|Head(c)|..]) == Scan(Meant(c, value).literal, rest)
  {
    hide ScanLiteral, Clause, Meant, Head, ColumnAt, Doubled;
    var lit := Meant(c, value).literal;
    ClauseIsQuoted(c, value);
    HeadsDiffer(c, Doubled(lit) + "'" + rest);
    assert Clause(c, value) + rest == Head(c) + (Doubled(lit) + "'" + rest);
    ScanDoubled(lit, rest);
  }

  lemma {:induction false} ReadJoined(w: seq<(Column, string)>)
    requires w != []
    ensures ReadConjunction(JoinAnd(Clauses(w))) == Some(Conditions(w))
  {
    hide ColumnAt, ScanLiteral, Clause, Head;
    var (c, value) := w[0];
    var s := JoinAnd(Clauses(w));
    if |w| == 1 {
      ReadClause(c, value, "");
      assert s == Clause(c, value) + "";
      assert Conditions(w) == [Meant(c, value)];
    } else {
      var tail := JoinAnd(Clauses(w[1..]));
      assert Clauses(w)[1..] == Clauses(w[1..]);
      var rest := " AND " + tail;
      assert s == Clause(c, value) + rest;
      assert rest[0] == ' ';
      ReadClause(c, value, rest);
      assert rest[5..] == tail;
      ReadJoined(w[1..]);
      assert Conditions(w) == [Meant(c, value)] + Conditions(w[1..]);
    }
  }

  /**
   * Whatever the three inputs hold, the generated text is one conjunction of exactly the intended
   * conditions, each literal being its input without semicolons and backslashes.
   */
  lemma WhereReadsBack(q: LogQuery)
    ensures ReadWhere(WhereSql(q)) == Some(Conditions(Wanted(q)))
  {
    hide ReadConjunction, JoinAnd, Wanted;
    var w := Wanted(q);
    if w != [] {
      ReadJoined(w);
      assert WhereSql(q) == "WHERE " + JoinAnd(Clauses(w));
      assert WhereSql(q)[6..] == JoinAnd(Clauses(w)) && "WHERE " <= WhereSql(q);
    } else {
      assert Conditions(w) == [];
    }
  }
}
