/** The statistics endpoint of vercel-analytics/api/stats.js.  GET parses
    `page` and `limit` from the query string (1 and 10 when missing, not a
    number or 0), asks the collector for the page at offset
    `(page - 1) * limit`, and adds pagination flags; OPTIONS is answered
    with 200 and any other method with 405. */
module StatsApi {
  import opened Json
  import opened Seqs
  import opened Text
  import opened SupabaseAnalytics

  // ---------------------------------------------------------------------
  // parseInt

  /** The result of JavaScript's `parseInt`: a number or NaN. */
  datatype Parsed = NaN | Int(n: int)

  predicate IsRadixDigit(c: char, hex: bool) {
    IsDigit(c) || (hex && ('a' <= c <= 'f' || 'A' <= c <= 'F'))
  }

  function RadixDigitValue(c: char, hex: bool): (d: nat)
    requires IsRadixDigit(c, hex)
    ensures d < (if hex then 16 else 10)
  {
    if IsDigit(c) then c as int - '0' as int
    else if 'a' <= c <= 'f' then c as int - 'a' as int + 10
    else c as int - 'A' as int + 10
  }

  /** The longest prefix of `s` made of digits of the radix. */
  function DigitRun(s: string, hex: bool): (r: string)
    ensures StartsWith(s, r)
    ensures forall i :: 0 <= i < |r| ==> IsRadixDigit(r[i], hex)
    ensures |r| < |s| ==> !IsRadixDigit(s[|r|], hex)
  {
    if s != [] && IsRadixDigit(s[0], hex) then [s[0]] + DigitRun(s[1..], hex) else []
  }

  /** The number a run of digits denotes in the radix. */
  function RunValue(r: string, hex: bool): nat
    requires forall i :: 0 <= i < |r| ==> IsRadixDigit(r[i], hex)
  {
    if r == [] then 0
    else
      assert IsRadixDigit(r[|r| - 1], hex);
      RunValue(r[..|r| - 1], hex) * (if hex then 16 else 10) + RadixDigitValue(r[|r| - 1], hex)
  }

  /** What follows the sign: a `0x`/`0X` prefix selects hexadecimal, and the
      longest run of digits after it is the magnitude; there must be one. */
  function Magnitude(u: string): Option<nat> {
    var hex := |u| >= 2 && u[0] == '0' && (u[1] == 'x' || u[1] == 'X');
    var run := DigitRun(if hex then u[2..] else u, hex);
    if run == [] then None else Some(RunValue(run, hex))
  }

  /** `parseInt(s)` without a radix: leading white space is skipped, then an
      optional sign, then the magnitude.  A specification helper;
      `ParseIntOfDigitStart`, `ParseIntOfMinus`, `ParseIntReadsDecimal` and
      `ParseIntNaN` state its properties. */
  function ParseInt(s: string): Parsed {
    var t := TrimStart(s);
    var negative := t != [] && t[0] == '-';
    var u := if t != [] && (t[0] == '-' || t[0] == '+') then t[1..] else t;
    match Magnitude(u)
    case None => NaN
    case Some(m) => Int(if negative then -(m as int) else m)
  }

  lemma {:induction false} RunValueIsDecimal(r: string)
    requires forall i :: 0 <= i < |r| ==> IsDigit(r[i])
    ensures RunValue(r, false) == DecimalValue(r)
  {
    if r != [] {
      RunValueIsDecimal(r[..|r| - 1]);
    }
  }

  lemma {:induction false} DigitRunOfDigits(s: string, rest: string)
    requires forall i :: 0 <= i < |s| ==> IsDigit(s[i])
    requires rest == [] || !IsDigit(rest[0])
    ensures DigitRun(s + rest, false) == s
  {
    if s != [] {
      assert (s + rest)[1..] == s[1..] + rest;
      DigitRunOfDigits(s[1..], rest);
    }
  }

  lemma MagnitudeOfDecimal(n: nat, rest: string)
    requires rest == [] || !(IsDigit(rest[0]) || rest[0] == 'x' || rest[0] == 'X')
    ensures Magnitude(Decimal(n) + rest) == Some(n)
  {
    var d := Decimal(n);
    DigitRunOfDigits(d, rest);
    RunValueIsDecimal(d);
    DecimalRoundTrip(n);
    assert (d + rest)[0] == d[0];
    if |d| == 1 {
      assert |d + rest| >= 2 ==> (d + rest)[1] == rest[0];
    } else {
      assert (d + rest)[1] == d[1];
    }
  }

  /** Text starting with a digit is its own magnitude, and after a minus
      sign its negation. */
  lemma ParseIntOfDigitStart(u: string, m: nat)
    requires u != [] && IsDigit(u[0]) && Magnitude(u) == Some(m)
    ensures ParseInt(u) == Int(m)
  {
    assert !IsSpace(u[0]) && u[0] != '-' && u[0] != '+';
    assert TrimStart(u) == u;
  }

  lemma ParseIntOfMinus(u: string, m: nat)
    requires u != [] && IsDigit(u[0]) && Magnitude(u) == Some(m)
    ensures ParseInt("-" + u) == Int(-(m as int))
  {
    var t := "-" + u;
    assert t[0] == '-' && t[1..] == u;
    assert TrimStart(t) == t;
  }

  /** `parseInt` reads back what `String(n)` writes, also when text that does
      not continue the number follows, and with a leading minus sign. */
  lemma ParseIntReadsDecimal(n: nat, rest: string)
    requires rest == [] || !(IsDigit(rest[0]) || rest[0] == 'x' || rest[0] == 'X')
    ensures ParseInt(Decimal(n) + rest) == Int(n)
    ensures ParseInt("-" + (Decimal(n) + rest)) == Int(-(n as int))
  {
    var d := Decimal(n);
    var u := d + rest;
    MagnitudeOfDecimal(n, rest);
    assert IsDigit(d[0]) && u[0] == d[0];
    ParseIntOfDigitStart(u, n);
    ParseIntOfMinus(u, n);
  }

  /** Text that does not start with a digit (after white space and a sign)
      is NaN. */
  lemma ParseIntNaN(s: string)
    requires s == [] || !(IsSpace(s[0]) || IsDigit(s[0]) || s[0] == '-' || s[0] == '+')
    ensures ParseInt(s) == NaN
  {
  }

  // ---------------------------------------------------------------------
  // The handler

  /** `parseInt(q) || d`: the default when the parameter is missing, not a
      number, or 0. */
  function ParamOr(q: Option<string>, d: int): (v: int)
    ensures v != 0 || d == 0
    ensures q.None? ==> v == d
    ensures q.Some? && ParseInt(q.value).Int? && ParseInt(q.value).n != 0 ==> v == ParseInt(q.value).n
    ensures q.Some? && (ParseInt(q.value).NaN? || ParseInt(q.value) == Int(0)) ==> v == d
  {
    if q.None? then d
    else match ParseInt(q.value)
      case NaN => d
      case Int(n) => if n == 0 then d else n
  }

  datatype Pagination = Pagination(currentPage: int, itemsPerPage: int, hasNextPage: bool, hasPrevPage: bool)

  datatype StatsResponse =
    | NoContent
    | Page(stats: CollectorStats, pagination: Pagination)
    | Failed(message: string)
    | NotAllowed
  {
    function Status(): int {
      match this
      case NoContent => 200
      case Page(_, _) => 200
      case Failed(_) => 500
      case NotAllowed => 405
    }
  }

  /** The page and limit a query asks for. */
  function PageOf(page: Option<string>): int { ParamOr(page, 1) }
  function LimitOf(limit: Option<string>): int { ParamOr(limit, 10) }

  /** The offset of a page: the pages before it, each `limit` long, so the
      page ends at `page * limit`. */
  function Offset(page: int, limit: int): (o: int)
    ensures o + limit == page * limit
    ensures page >= 1 && limit >= 1 ==> o >= 0
  {
    (page - 1) * limit
  }

  /** The flags, given the page, the limit and the number of events
      returned: there is a next page exactly when this one came back full,
      and a previous one exactly when this is not the first page. */
  function Paginate(page: int, limit: int, returned: nat): (p: Pagination)
    ensures p.currentPage == page && p.itemsPerPage == limit
    ensures p.hasNextPage <==> returned == limit
    ensures p.hasPrevPage <==> page > 1
  {
    Pagination(page, limit, returned == limit, page > 1)
  }

  /** The handler, given the request method, the `page` and `limit` query
      parameters and the collector's answer for each (limit, offset). */
  function Handle(httpMethod: string, page: Option<string>, limit: Option<string>,
                  getStats: (int, int) -> Attempt<CollectorStats>): (r: StatsResponse)
    ensures httpMethod == "OPTIONS" ==> r == NoContent
    ensures httpMethod != "OPTIONS" && httpMethod != "GET" ==> r == NotAllowed
    ensures httpMethod == "GET" ==> r == GetPage(PageOf(page), LimitOf(limit), getStats)
  {
    if httpMethod == "OPTIONS" then NoContent
    else if httpMethod != "GET" then NotAllowed
    else GetPage(PageOf(page), LimitOf(limit), getStats)
  }

  /** A GET for a parsed page and limit: the collector is asked for the
      page's window; its failure is a 500. */
  function GetPage(p: int, l: int, getStats: (int, int) -> Attempt<CollectorStats>): (r: StatsResponse)
    ensures getStats(l, Offset(p, l)).Threw? ==> r.Failed?
    ensures getStats(l, Offset(p, l)).Returned? ==>
      var s := getStats(l, Offset(p, l)).value;
      r == Page(s, Paginate(p, l, |s.recentEvents|))
  {
    match getStats(l, Offset(p, l))
    case Threw => Failed("Failed to get stats")
    case Returned(s) => Page(s, Paginate(p, l, |s.recentEvents|))
  }

  /** The collector as this endpoint calls it. */
  function Collector(configured: bool, read: StoreRead, now: nat, nowIso: string): (int, int) -> Attempt<CollectorStats> {
    (l: int, o: int) => Returned(GetStats(configured, read, l, o, now, nowIso))
  }

  /** Because the collector catches every error, a GET is never answered
      with 500. */
  lemma GetNeverFails(page: Option<string>, limit: Option<string>, configured: bool,
                      read: StoreRead, now: nat, nowIso: string)
    ensures Handle("GET", page, limit, Collector(configured, read, now, nowIso)).Status() == 200
  {
  }

  /** What the collector answers for one page of a store whose queries all
      succeed. */
  lemma CollectorPage(rows: seq<Row>, l: int, o: int, now: nat, nowIso: string)
    requires l >= 1 && o >= 0
    ensures var r := Collector(true, Read(rows, {}), now, nowIso)(l, o);
      && r.Returned?
      && r.value.recentEvents == Map(Window(SortDesc(rows, CreatedAt), o, l), ProjectJson)
  {
    var s := GetStats(true, Read(rows, {}), l, o, now, nowIso);
    assert s.recentEvents == Map(RecentRows(rows, l, o), ProjectJson);
  }

  /** A window comes back full exactly when the rows reach its end. */
  lemma FullWindow<T>(s: seq<T>, o: nat, l: nat)
    requires l >= 1
    ensures |Window(s, o, l)| == l <==> o + l <= |s|
  {
    var w := Window(s, o, l);
    if |w| == l {
      assert o + (l - 1) < |s|;
    }
  }

  /** With a configured store whose queries all succeed and a positive page
      and limit (as parsed, after the defaults), the events returned are the rows ranked `(page - 1) * limit`
      onward by descending creation time, and the next-page flag holds
      exactly when at least `page * limit` rows exist.  (So a table that
      ends exactly at a page boundary reports a next page that is empty.) */
  lemma PageContents(page: Option<string>, limit: Option<string>, rows: seq<Row>, now: nat, nowIso: string)
    requires PageOf(page) >= 1 && LimitOf(limit) >= 1
    ensures var p := PageOf(page);
      var l := LimitOf(limit);
      var r := Handle("GET", page, limit, Collector(true, Read(rows, {}), now, nowIso));
      && r.Page?
      && r.stats.recentEvents == Map(Window(SortDesc(rows, CreatedAt), Offset(p, l), l), ProjectJson)
      && (r.pagination.hasNextPage <==> p * l <= |rows|)
      && (r.pagination.hasPrevPage <==> p > 1)
  {
    FullPage(PageOf(page), LimitOf(limit), rows, now, nowIso);
  }

  /** One page from the collector comes back full exactly when the rows
      reach the end of the page. */
  lemma FullPage(p: int, l: int, rows: seq<Row>, now: nat, nowIso: string)
    requires p >= 1 && l >= 1
    ensures var r := Collector(true, Read(rows, {}), now, nowIso)(l, Offset(p, l));
      && r.Returned?
      && r.value.recentEvents == Map(Window(SortDesc(rows, CreatedAt), Offset(p, l), l), ProjectJson)
      && (|r.value.recentEvents| == l <==> p * l <= |rows|)
  {
    var o := Offset(p, l);
    CollectorPage(rows, l, o, now, nowIso);
    var sorted := SortDesc(rows, CreatedAt);
    FullWindow(sorted, o, l);
  }

  /** A positive number written in decimal is taken as it is. */
  lemma ParamOfDecimal(n: nat, d: int)
    requires n >= 1
    ensures ParamOr(Some(Decimal(n)), d) == n
  {
    var s := Decimal(n);
    MagnitudeOfDecimal(n, "");
    assert s + "" == s;
    ParseIntOfDigitStart(s, n);
  }

  /** The query text "2", "3" and "10" parse as those numbers. */
  lemma SmallParams()
    ensures PageOf(Some("2")) == 2 && PageOf(Some("3")) == 3 && LimitOf(Some("10")) == 10
  {
    assert Decimal(2) == "2";
    ParamOfDecimal(2, 1);
    assert Decimal(3) == "3";
    ParamOfDecimal(3, 1);
    assert Decimal(10) == "10" by {
      assert Decimal(10) == Decimal(1) + ['0'];
    }
    ParamOfDecimal(10, 10);
  }

  /** Page 2 of 10 over 25 rows starts at offset 10, comes back full, and
      has pages on both sides. */
  lemma SecondPageOfTwentyFive(rows: seq<Row>, now: nat, nowIso: string)
    requires |rows| == 25
    ensures var r := Handle("GET", Some("2"), Some("10"), Collector(true, Read(rows, {}), now, nowIso));
      && r.Page? && |r.stats.recentEvents| == 10
      && r.pagination == Pagination(2, 10, true, true)
  {
    SmallParams();
    PageContents(Some("2"), Some("10"), rows, now, nowIso);
  }

  /** Page 3 of 10 over 25 rows holds the last 5 and has no next page. */
  lemma ThirdPageOfTwentyFive(rows: seq<Row>, now: nat, nowIso: string)
    requires |rows| == 25
    ensures var r := Handle("GET", Some("3"), Some("10"), Collector(true, Read(rows, {}), now, nowIso));
      && r.Page? && |r.stats.recentEvents| == 5
      && r.pagination == Pagination(3, 10, false, true)
  {
    SmallParams();
    PageContents(Some("3"), Some("10"), rows, now, nowIso);
  }
}
