/** What OpenVPN prints for `status 3`, and that the parser reads it back. */
module StatusPrinting {
  import opened Basics
  import opened Text
  import opened Snapshots
  import opened Status
  import Decimal

  /** Separator and column names of the two tables; the names may come in any order. */
  datatype Layout = Layout(sep: char, clientColumns: seq<string>, routeColumns: seq<string>)

  datatype Item =
    | ClientHeader
    | RouteHeader
    | ClientRow(cells: seq<string>, client: StatusClient)
    | RouteRow(cells: seq<string>, route: Route)
    | Noise(line: string)

  /** Cells are free of tabs, and of commas where commas separate. */
  predicate Printable(sep: char, cells: seq<string>) {
    forall j :: 0 <= j < |cells| ==> '\t' !in cells[j] && sep !in cells[j]
  }

  ghost predicate HasColumn(columns: seq<string>, name: string) {
    exists j :: 0 <= j < |columns| && NormalizeHeader(columns[j]) == NormalizeHeader(name)
  }

  predicate DistinctColumns(columns: seq<string>) {
    forall j, k :: 0 <= j < k < |columns| ==> NormalizeHeader(columns[j]) != NormalizeHeader(columns[k])
  }

  ghost predicate ValidLayout(l: Layout) {
    && l.sep in {',', '\t'}
    && Printable(l.sep, l.clientColumns) && Printable(l.sep, l.routeColumns)
    && DistinctColumns(l.clientColumns) && DistinctColumns(l.routeColumns)
    && HasColumn(l.clientColumns, "Client ID") && HasColumn(l.clientColumns, "Common Name")
    && HasColumn(l.clientColumns, "Connected Since (time_t)") && HasColumn(l.clientColumns, "Real Address")
    && HasColumn(l.clientColumns, "Virtual Address")
    && HasColumn(l.routeColumns, "Common Name") && HasColumn(l.routeColumns, "Real Address")
  }

  /** The cell of column `name` holds `value`. */
  ghost predicate Shows(columns: seq<string>, cells: seq<string>, name: string, value: string)
    requires |cells| == |columns|
  {
    forall j :: 0 <= j < |columns| && NormalizeHeader(columns[j]) == NormalizeHeader(name) ==> cells[j] == value
  }

  ghost predicate ShowsClient(columns: seq<string>, cells: seq<string>, c: StatusClient) {
    && |cells| == |columns|
    && Shows(columns, cells, "Client ID", c.cid)
    && Shows(columns, cells, "Common Name", c.cn)
    && Shows(columns, cells, "Connected Since (time_t)", Decimal.PrintInt(c.connectedAt))
    && Shows(columns, cells, "Real Address", c.realAddress)
    && Shows(columns, cells, "Virtual Address", c.virtualAddress)
    && c.cid != "" && c.cn != "" && -Decimal.INT64_LIMIT <= c.connectedAt < Decimal.INT64_LIMIT
    && !c.established && !c.routingConfirmed
  }

  ghost predicate ShowsRoute(columns: seq<string>, cells: seq<string>, r: Route) {
    && |cells| == |columns|
    && Shows(columns, cells, "Common Name", r.cn) && Shows(columns, cells, "Real Address", r.realAddress)
    && r.cn != "" && r.realAddress != ""
  }

  /** Rows come after their header; other lines are anything the parser does not know. */
  ghost predicate ValidItem(l: Layout, item: Item, clients: bool, routes: bool) {
    match item
    case ClientHeader => true
    case RouteHeader => true
    case ClientRow(cells, c) => clients && Printable(l.sep, cells) && ShowsClient(l.clientColumns, cells, c)
    case RouteRow(cells, r) => routes && Printable(l.sep, cells) && ShowsRoute(l.routeColumns, cells, r)
    case Noise(line) => line != "END" && SplitStatusLine(line)[0] !in {"HEADER", "CLIENT_LIST", "ROUTING_TABLE"}
  }

  ghost predicate ValidItems(l: Layout, items: seq<Item>, clients: bool, routes: bool)
    decreases |items|
  {
    items != [] ==>
      && ValidItem(l, items[0], clients, routes)
      && ValidItems(l, items[1..], clients || items[0].ClientHeader?, routes || items[0].RouteHeader?)
  }

  function Line(l: Layout, item: Item): string {
    match item
    case ClientHeader => Join(["HEADER", "CLIENT_LIST"] + l.clientColumns, l.sep)
    case RouteHeader => Join(["HEADER", "ROUTING_TABLE"] + l.routeColumns, l.sep)
    case ClientRow(cells, _) => Join(["CLIENT_LIST"] + cells, l.sep)
    case RouteRow(cells, _) => Join(["ROUTING_TABLE"] + cells, l.sep)
    case Noise(line) => line
  }

  function PrintTable(l: Layout, items: seq<Item>): seq<string> {
    if items == [] then ["END"] else [Line(l, items[0])] + PrintTable(l, items[1..])
  }

  function ClientsOf(items: seq<Item>): seq<StatusClient> {
    if items == [] then []
    else (if items[0].ClientRow? then [items[0].client] else []) + ClientsOf(items[1..])
  }

  function RoutesOf(items: seq<Item>): seq<Route> {
    if items == [] then []
    else (if items[0].RouteRow? then [items[0].route] else []) + RoutesOf(items[1..])
  }

  // ----- header names -----

  lemma {:induction false} StripConcat(a: string, b: string)
    ensures Strip(a + b) == Strip(a) + Strip(b)
  {
    if a == "" {
      assert a + b == b;
    } else {
      assert (a + b)[1..] == a[1..] + b;
      StripConcat(a[1..], b);
    }
  }

  /** Header names compare without case, and without the spaces, dashes, underscores and brackets inside them. */
  lemma HeaderNameVariants(a: string, c: char, b: string)
    requires a != "" && b != "" && !IsSpace(a[0]) && !IsSpace(b[|b| - 1]) && c in {' ', '_', '-', '(', ')'}
    ensures NormalizeHeader(a + [c] + b) == NormalizeHeader(a + b) == NormalizeHeader(ToLower(a) + b)
  {
    hide TrimSpace;
    assert ToLower(a + [c] + b) == ToLower(a) + [c] + ToLower(b);
    assert ToLower(a + b) == ToLower(a) + ToLower(b);
    assert ToLower(ToLower(a) + b) == ToLower(a) + ToLower(b);
    assert Trimmed(a + [c] + b) && Trimmed(a + b) && Trimmed(ToLower(a) + b);
    StripConcat(ToLower(a) + [c], ToLower(b));
    StripConcat(ToLower(a), [c]);
    StripConcat(ToLower(a), ToLower(b));
    assert [c][1..] == "" && Strip([c]) == "";
  }

  // ----- reading one line back -----

  lemma SplitPrinted(sep: char, parts: seq<string>)
    requires sep in {',', '\t'} && |parts| >= 2 && Printable(sep, parts)
    ensures SplitStatusLine(Join(parts, sep)) == parts && Join(parts, sep) != "END"
  {
    SplitJoin(parts, sep);
    JoinContains(parts, sep);
    if sep == ',' {
      JoinLacks(parts, ',', '\t');
    }
  }

  lemma {:induction false} HeaderFinds(columns: seq<string>, j: nat)
    requires DistinctColumns(columns) && j < |columns|
    ensures NormalizeHeader(columns[j]) in HeaderOf(columns) && HeaderOf(columns)[NormalizeHeader(columns[j])] == j + 1
    decreases |columns|
  {
    hide NormalizeHeader;
    if j < |columns| - 1 {
      HeaderFinds(columns[..|columns| - 1], j);
    }
  }

  lemma {:induction false} ValueShown(columns: seq<string>, kind: string, cells: seq<string>, names: seq<string>,
      value: string)
    requires DistinctColumns(columns) && |cells| == |columns| && names != []
    requires HasColumn(columns, names[0]) && Shows(columns, cells, names[0], value)
    ensures StatusValue([kind] + cells, HeaderOf(columns), names) == value
  {
    hide NormalizeHeader, HeaderOf;
    var j :| 0 <= j < |columns| && NormalizeHeader(columns[j]) == NormalizeHeader(names[0]);
    HeaderFinds(columns, j);
    hide DistinctColumns;
    assert ([kind] + cells)[j + 1] == cells[j];
  }

  lemma ClientRowParsed(l: Layout, cells: seq<string>, c: StatusClient)
    requires ValidLayout(l) && ShowsClient(l.clientColumns, cells, c)
    ensures ParseClient(["CLIENT_LIST"] + cells, HeaderOf(l.clientColumns)) == Ok(Some(c))
  {
    hide NormalizeHeader, StatusValue, HeaderOf, DistinctColumns, Shows, HasColumn, Decimal.ParseInt;
    ValueShown(l.clientColumns, "CLIENT_LIST", cells, CID_NAMES, c.cid);
    ValueShown(l.clientColumns, "CLIENT_LIST", cells, CN_NAMES, c.cn);
    ValueShown(l.clientColumns, "CLIENT_LIST", cells, SINCE_NAMES, Decimal.PrintInt(c.connectedAt));
    ValueShown(l.clientColumns, "CLIENT_LIST", cells, REAL_NAMES, c.realAddress);
    ValueShown(l.clientColumns, "CLIENT_LIST", cells, VIRTUAL_NAMES, c.virtualAddress);
    Decimal.ParseIntPrint(c.connectedAt);
  }

  lemma RouteRowParsed(l: Layout, cells: seq<string>, r: Route)
    requires ValidLayout(l) && ShowsRoute(l.routeColumns, cells, r)
    ensures ParseRoute(["ROUTING_TABLE"] + cells, HeaderOf(l.routeColumns)) == Some(r)
  {
    hide NormalizeHeader, StatusValue, HeaderOf, DistinctColumns, Shows, HasColumn;
    ValueShown(l.routeColumns, "ROUTING_TABLE", cells, CN_NAMES, r.cn);
    ValueShown(l.routeColumns, "ROUTING_TABLE", cells, REAL_NAMES, r.realAddress);
  }

  /** The progress after an item. */
  function After(l: Layout, p: Progress, item: Item): Progress {
    match item
    case ClientHeader => p.(clientHeader := HeaderOf(l.clientColumns))
    case RouteHeader => p.(routeHeader := HeaderOf(l.routeColumns))
    case ClientRow(_, c) => p.(clients := p.clients + [c])
    case RouteRow(_, r) => p.(routes := p.routes + [r])
    case Noise(_) => p
  }

  lemma ConsumePrinted(l: Layout, p: Progress, items: seq<Item>, clients: bool, routes: bool)
    requires ValidLayout(l) && items != [] && ValidItems(l, items, clients, routes)
    requires clients ==> p.clientHeader == HeaderOf(l.clientColumns)
    requires routes ==> p.routeHeader == HeaderOf(l.routeColumns)
    ensures Line(l, items[0]) != "END" && Consume(p, Line(l, items[0])) == Ok(After(l, p, items[0]))
  {
    hide NormalizeHeader, DistinctColumns, SplitStatusLine, ParseClient, ParseRoute, Join, HeaderOf, HasColumn;
    ColumnsNonEmpty(l);
    match items[0]
    case ClientHeader => HeaderConsumed(l, "CLIENT_LIST", l.clientColumns);
    case RouteHeader => HeaderConsumed(l, "ROUTING_TABLE", l.routeColumns);
    case ClientRow(cells, c) =>
      assert |cells| == |l.clientColumns|;
      SplitPrinted(l.sep, ["CLIENT_LIST"] + cells);
      ClientRowParsed(l, cells, c);
    case RouteRow(cells, r) =>
      assert |cells| == |l.routeColumns|;
      SplitPrinted(l.sep, ["ROUTING_TABLE"] + cells);
      RouteRowParsed(l, cells, r);
    case Noise(line) =>
  }

  lemma ColumnsNonEmpty(l: Layout)
    requires ValidLayout(l)
    ensures l.clientColumns != [] && l.routeColumns != []
  {
  }

  lemma HeaderConsumed(l: Layout, kind: string, columns: seq<string>)
    requires l.sep in {',', '\t'} && kind in {"CLIENT_LIST", "ROUTING_TABLE"} && columns != []
        && Printable(l.sep, columns)
    ensures var parts := ["HEADER", kind] + columns;
            && SplitStatusLine(Join(parts, l.sep)) == parts && Join(parts, l.sep) != "END" && parts[2..] == columns
  {
    SplitPrinted(l.sep, ["HEADER", kind] + columns);
  }

  /** Parsing the rest of a printed table adds its rows to what was gathered. */
  lemma {:induction false} ParsePrinted(l: Layout, p: Progress, items: seq<Item>, clients: bool, routes: bool)
    requires ValidLayout(l) && ValidItems(l, items, clients, routes)
    requires clients ==> p.clientHeader == HeaderOf(l.clientColumns)
    requires routes ==> p.routeHeader == HeaderOf(l.routeColumns)
    ensures Parse(p, PrintTable(l, items)) ==
              Ok(Finalize(p.(clients := p.clients + ClientsOf(items), routes := p.routes + RoutesOf(items))))
    decreases |items|
  {
    hide ValidLayout, ValidItems, HeaderOf, Finalize, Line, Parse;
    var lines := PrintTable(l, items);
    if items == [] {
      ParseEnd(p, lines);
      assert p.clients + [] == p.clients && p.routes + [] == p.routes;
      assert p.(clients := p.clients + ClientsOf(items), routes := p.routes + RoutesOf(items)) == p;
    } else {
      var q := After(l, p, items[0]);
      ConsumePrinted(l, p, items, clients, routes);
      ValidTail(l, items, clients, routes);
      assert lines[0] == Line(l, items[0]) && lines[1..] == PrintTable(l, items[1..]);
      ParseStep(p, q, lines);
      ParsePrinted(l, q, items[1..], clients || items[0].ClientHeader?, routes || items[0].RouteHeader?);
      AfterGathers(l, p, items);
      SameFinal(p, q, p.clients + ClientsOf(items), p.routes + RoutesOf(items));
    }
  }

  lemma ParseEnd(p: Progress, lines: seq<string>)
    requires lines == ["END"]
    ensures Parse(p, lines) == Ok(Finalize(p))
  {
  }

  lemma ParseStep(p: Progress, q: Progress, lines: seq<string>)
    requires lines != [] && lines[0] != "END" && Consume(p, lines[0]) == Ok(q)
    ensures Parse(p, lines) == Parse(q, lines[1..])
  {
  }

  lemma {:induction false} AfterGathers(l: Layout, p: Progress, items: seq<Item>)
    requires items != []
    ensures var q := After(l, p, items[0]);
            && q.clients + ClientsOf(items[1..]) == p.clients + ClientsOf(items)
            && q.routes + RoutesOf(items[1..]) == p.routes + RoutesOf(items)
  {
    hide HeaderOf;
    var item := items[0];
    var cs: seq<StatusClient>, rs: seq<Route> := if item.ClientRow? then [item.client]
        else [], if item.RouteRow? then [item.route] else [];
    assert p.clients + [] == p.clients && p.routes + [] == p.routes;
    assert After(l, p, item).clients == p.clients + cs && After(l, p, item).routes == p.routes + rs;
    Assoc(p.clients, cs, ClientsOf(items[1..]));
    Assoc(p.routes, rs, RoutesOf(items[1..]));
  }

  lemma Assoc<T>(a: seq<T>, b: seq<T>, c: seq<T>)
    ensures a + b + c == a + (b + c)
  {
  }

  lemma ValidTail(l: Layout, items: seq<Item>, clients: bool, routes: bool)
    requires items != [] && ValidItems(l, items, clients, routes)
    ensures ValidItems(l, items[1..], clients || items[0].ClientHeader?, routes || items[0].RouteHeader?)
  {
  }

  lemma SameFinal(p: Progress, q: Progress, clients: seq<StatusClient>, routes: seq<Route>)
    ensures Finalize(p.(clients := clients, routes := routes)) == Finalize(q.(clients := clients, routes := routes))
  {
  }

  // ----- what else the parser makes of a response -----

  /** Without the numeric column the connect time is read from the plain one. */
  lemma {:induction false} SinceFallsBack(columns: seq<string>, kind: string, cells: seq<string>, value: string)
    requires DistinctColumns(columns) && |cells| == |columns|
    requires !HasColumn(columns, "Connected Since (time_t)") && HasColumn(columns, "Connected Since")
    requires Shows(columns, cells, "Connected Since", value)
    ensures StatusValue([kind] + cells, HeaderOf(columns), SINCE_NAMES) == value
  {
    hide NormalizeHeader, HeaderOf;
    HeaderKnows(columns, "Connected Since (time_t)");
    var rest := SINCE_NAMES[1..];
    assert rest[0] == "Connected Since";
    ValueShown(columns, kind, cells, rest, value);
  }

  lemma {:induction false} HeaderKnows(columns: seq<string>, name: string)
    ensures NormalizeHeader(name) in HeaderOf(columns) <==> HasColumn(columns, name)
    decreases |columns|
  {
    hide NormalizeHeader;
    if columns != [] {
      var init := columns[..|columns| - 1];
      HeaderKnows(init, name);
      if j :| 0 <= j < |init| && NormalizeHeader(init[j]) == NormalizeHeader(name) {
        assert columns[j] == init[j];
      }
      if j :| 0 <= j < |columns| && NormalizeHeader(columns[j]) == NormalizeHeader(name) {
        assert j < |init| ==> init[j] == columns[j];
      }
    }
  }

  /** Of two columns with one name the later counts. */
  lemma {:induction false} LaterColumnWins(columns: seq<string>, name: string)
    ensures NormalizeHeader(name) in HeaderOf(columns + [name])
    ensures HeaderOf(columns + [name])[NormalizeHeader(name)] == |columns| + 1
  {
    hide NormalizeHeader;
  }

  /** A response without END is never a snapshot. */
  lemma {:induction false} NeedsEnd(p: Progress, lines: seq<string>)
    requires "END" !in lines
    ensures Parse(p, lines).Err?
    decreases |lines|
  {
    hide Consume;
    if lines != [] {
      match Consume(p, lines[0])
      case Err(_) =>
      case Ok(q) => NeedsEnd(q, lines[1..]);
    }
  }

  /** A client row whose connect time is no number fails the response; one without CID or name is passed over. */
  lemma OddClientRows(fields: seq<string>, header: map<string, nat>)
    ensures var cid, cn := StatusValue(fields, header, CID_NAMES), StatusValue(fields, header, CN_NAMES);
            var since := StatusValue(fields, header, SINCE_NAMES);
            && (cid == "" || cn == "" || since == "" ==> ParseClient(fields, header) == Ok(None))
            && (cid != "" && cn != "" && since != "" && Decimal.ParseInt(since).None? ==>
                  ParseClient(fields, header) == Err(BadConnectTime(since)))
  {
    hide StatusValue, Decimal.ParseInt;
  }

  // ----- the routing key -----

  /** The first name and a NUL begin the second name, and the rest of the second name begins the first address. */
  predicate Straddles(a: Route, b: Route) {
    && HasPrefix(b.cn, a.cn + "\0")
    && a.realAddress == b.cn[|a.cn| + 1..] + "\0" + b.realAddress
  }

  /** Two routes have the same key exactly when they are the same or one straddles the other. */
  lemma SameKeyIff(a: Route, b: Route)
    ensures RouteKey(a.cn, a.realAddress) == RouteKey(b.cn, b.realAddress) <==>
        a == b || Straddles(a, b) || Straddles(b, a)
  {
    if RouteKey(a.cn, a.realAddress) == RouteKey(b.cn, b.realAddress) {
      if |a.cn| <= |b.cn| {
        SameKeySplits(a, b);
      } else {
        SameKeySplits(b, a);
      }
    }
    if Straddles(a, b) {
      StraddlingKey(a, b);
    }
    if Straddles(b, a) {
      StraddlingKey(b, a);
    }
  }

  lemma StraddlingKey(a: Route, b: Route)
    requires Straddles(a, b)
    ensures RouteKey(a.cn, a.realAddress) == RouteKey(b.cn, b.realAddress)
  {
    assert b.cn == a.cn + "\0" + b.cn[|a.cn| + 1..];
  }

  lemma SameKeySplits(a: Route, b: Route)
    requires |a.cn| <= |b.cn| && RouteKey(a.cn, a.realAddress) == RouteKey(b.cn, b.realAddress)
    ensures a == b || Straddles(a, b)
  {
    var k := RouteKey(a.cn, a.realAddress);
    assert k[..|a.cn|] == a.cn && k[|a.cn|] == '\0' && k[|a.cn| + 1..] == a.realAddress;
    assert k[..|b.cn|] == b.cn && k[|b.cn|] == '\0' && k[|b.cn| + 1..] == b.realAddress;
    if |a.cn| < |b.cn| {
      assert b.cn[..|a.cn| + 1] == a.cn + "\0";
      assert a.realAddress[..|b.cn| - |a.cn| - 1] == b.cn[|a.cn| + 1..];
    }
  }

  /** Different names can share a key exactly when one of them, followed by a NUL, begins the other. */
  lemma NamesCollideIff(cn: string, cn': string)
    requires cn != cn'
    ensures (exists x, y :: RouteKey(cn, x) == RouteKey(cn', y)) <==>
        HasPrefix(cn', cn + "\0") || HasPrefix(cn, cn' + "\0")
  {
    hide RouteKey;
    if x, y :| RouteKey(cn, x) == RouteKey(cn', y) {
      SameKeyIff(Route(cn, x), Route(cn', y));
    }
    if HasPrefix(cn', cn + "\0") {
      StraddlingKey(Route(cn, cn'[|cn| + 1..] + "\0" + ""), Route(cn', ""));
    }
    if HasPrefix(cn, cn' + "\0") {
      StraddlingKey(Route(cn', cn[|cn'| + 1..] + "\0" + ""), Route(cn, ""));
    }
  }

  function RouteOf(c: StatusClient): Route {
    Route(c.cn, c.realAddress)
  }

  /** Some route of another name or address has the client's key. */
  ghost predicate Misled(c: StatusClient, routes: seq<Route>) {
    exists r :: r in routes && (Straddles(r, RouteOf(c)) || Straddles(RouteOf(c), r))
  }

  /** On any input: a client is confirmed exactly when its own route is listed or a foreign one straddles it. */
  lemma RoutingConfirmedExact(c: StatusClient, routes: seq<Route>)
    ensures ClassifyClient(c, routes).routingConfirmed <==> RouteOf(c) in routes || Misled(c, routes)
  {
    hide RouteKey, Straddles;
    forall r | r in routes
      ensures RouteKey(r.cn, r.realAddress) == RouteKey(c.cn, c.realAddress) <==>
                r == RouteOf(c) || Straddles(r, RouteOf(c)) || Straddles(RouteOf(c), r)
    {
      SameKeyIff(r, RouteOf(c));
    }
  }

  /** Without NUL in the names nobody is misled. */
  lemma NulFreeNotMisled(c: StatusClient, routes: seq<Route>)
    requires '\0' !in c.cn && forall r :: r in routes ==> '\0' !in r.cn
    ensures !Misled(c, routes)
  {
    forall r | r in routes
      ensures !Straddles(r, RouteOf(c)) && !Straddles(RouteOf(c), r)
    {
      StraddlingNeedsNul(r, RouteOf(c));
      StraddlingNeedsNul(RouteOf(c), r);
    }
  }

  lemma StraddlingNeedsNul(a: Route, b: Route)
    ensures Straddles(a, b) ==> '\0' in b.cn
  {
    if Straddles(a, b) {
      assert b.cn[|a.cn|] == b.cn[..|a.cn| + 1][|a.cn|] == '\0';
    }
  }

  // ----- the whole table -----

  /** The row as the parser returns it. */
  ghost function Returned(c: StatusClient, routes: seq<Route>): StatusClient {
    c.(established := c.virtualAddress != "", routingConfirmed := RouteOf(c) in routes || Misled(c, routes))
  }

  lemma ClassifiedAsReturned(c: StatusClient, routes: seq<Route>)
    ensures ClassifyClient(c, routes) == Returned(c, routes)
  {
    hide Misled;
    RoutingConfirmedExact(c, routes);
  }

  /**
   For any column order and either separator, parsing a printed table returns exactly its client
   rows in order, established exactly when the virtual address is not empty, and routing-confirmed
   exactly when some printed route has the same name and real address, or straddles them.
   */
  lemma TableRoundTrip(l: Layout, items: seq<Item>)
    requires ValidLayout(l) && ValidItems(l, items, false, false)
    ensures var r := Parse(Start, PrintTable(l, items));
            && r.Ok?
            && |r.value.clients| == |ClientsOf(items)|
            && (forall k :: 0 <= k < |ClientsOf(items)| ==>
                  r.value.clients[k] == Returned(ClientsOf(items)[k], RoutesOf(items)))
            && r.value.established == EstablishedOf(r.value.clients)
  {
    hide ValidLayout, ValidItems, Parse, PrintTable, Returned, ClassifyClient;
    var cs, rs := ClientsOf(items), RoutesOf(items);
    ParsePrinted(l, Start, items, false, false);
    hide ClientsOf, RoutesOf;
    assert [] + cs == cs && [] + rs == rs;
    forall k | 0 <= k < |cs|
      ensures ClassifyClient(cs[k], rs) == Returned(cs[k], rs)
    {
      ClassifiedAsReturned(cs[k], rs);
    }
  }

  // ----- a table with a NUL -----

  lemma {:induction false} StripContains(s: string, x: char)
    requires x !in {' ', '_', '-', '(', ')'}
    ensures x in Strip(s) <==> x in s
    decreases |s|
  {
    if s != "" {
      StripContains(s[1..], x);
      assert s == [s[0]] + s[1..];
    }
  }

  lemma LowerContains(s: string, x: char, upper: char)
    requires 'a' <= x <= 'z' && upper == (x as int - 32) as char
    ensures x in ToLower(s) <==> x in s || upper in s
  {
    var t := ToLower(s);
    assert forall k :: 0 <= k < |s| ==> t[k] == Lower(s[k]);
    assert forall k :: 0 <= k < |s| && (s[k] == x || s[k] == upper) ==> t[k] == x;
  }

  /** Header names with a letter that only one of them has are different. */
  lemma HeadersDiffer(a: string, b: string, x: char, upper: char)
    requires 'a' <= x <= 'z' && upper == (x as int - 32) as char && Trimmed(a) && Trimmed(b)
    requires (x in a || upper in a) && x !in b && upper !in b
    ensures NormalizeHeader(a) != NormalizeHeader(b)
  {
    LowerContains(a, x, upper);
    LowerContains(b, x, upper);
    StripContains(ToLower(a), x);
    StripContains(ToLower(b), x);
  }

  const PlainLayout := Layout(',',
    ["Client ID", "Common Name", "Connected Since (time_t)", "Real Address", "Virtual Address"],
    ["Common Name", "Real Address"])

  lemma AddressHeadersDiffer(other: string)
    requires other in {"Client ID", "Common Name", "Connected Since (time_t)"}
    ensures NormalizeHeader("Real Address") != NormalizeHeader(other)
        && NormalizeHeader("Virtual Address") != NormalizeHeader(other)
  {
    hide NormalizeHeader;
    HeadersDiffer("Real Address", other, 'r', 'R');
    HeadersDiffer("Virtual Address", other, 'r', 'R');
  }

  lemma SinceHeaderDiffers(other: string)
    requires other in {"Client ID", "Common Name"}
    ensures NormalizeHeader("Connected Since (time_t)") != NormalizeHeader(other)
  {
    hide NormalizeHeader;
    HeadersDiffer("Connected Since (time_t)", other, 's', 'S');
  }

  lemma PairHeadersDiffer()
    ensures NormalizeHeader("Client ID") != NormalizeHeader("Common Name")
    ensures NormalizeHeader("Virtual Address") != NormalizeHeader("Real Address")
  {
    hide NormalizeHeader;
    HeadersDiffer("Client ID", "Common Name", 'i', 'I');
    HeadersDiffer("Virtual Address", "Real Address", 'v', 'V');
  }

  lemma PlainColumnsDistinct()
    ensures DistinctColumns(PlainLayout.clientColumns) && DistinctColumns(PlainLayout.routeColumns)
  {
    hide NormalizeHeader;
    PairHeadersDiffer();
    SinceHeaderDiffers("Client ID");
    SinceHeaderDiffers("Common Name");
    AddressHeadersDiffer("Client ID");
    AddressHeadersDiffer("Common Name");
    AddressHeadersDiffer("Connected Since (time_t)");
  }

  lemma PlainLayoutValid()
    ensures ValidLayout(PlainLayout)
  {
    PlainColumnsDistinct();
    hide NormalizeHeader, DistinctColumns, HasColumn;
    var c, r := PlainLayout.clientColumns, PlainLayout.routeColumns;
    OwnColumn(c, 0);
    OwnColumn(c, 1);
    OwnColumn(c, 2);
    OwnColumn(c, 3);
    OwnColumn(c, 4);
    OwnColumn(r, 0);
    OwnColumn(r, 1);
    PlainColumnsPrintable();
    hide Printable;
  }

  lemma OwnColumn(columns: seq<string>, j: nat)
    requires j < |columns|
    ensures HasColumn(columns, columns[j])
  {
    hide NormalizeHeader;
  }

  lemma PlainColumnsPrintable()
    ensures Printable(',', PlainLayout.clientColumns) && Printable(',', PlainLayout.routeColumns)
  {
  }

  /** The cell under a column of a layout shows itself. */
  lemma CellShows(columns: seq<string>, cells: seq<string>, j: nat)
    requires DistinctColumns(columns) && |cells| == |columns| && j < |columns|
    ensures Shows(columns, cells, columns[j], cells[j])
  {
    hide NormalizeHeader;
  }

  /** A client called `cn` at `address`, and a route. */
  function SmallTable(cn: string, address: string, route: Route): seq<Item> {
    [ClientHeader, RouteHeader,
     ClientRow(["7", cn, "5", address, "v"], StatusClient("7", cn, address, "v", 5, false, false)),
     RouteRow([route.cn, route.realAddress], route)]
  }

  lemma SmallRowsShown(cn: string, address: string, route: Route)
    requires cn != "" && route.cn != "" && route.realAddress != ""
    ensures var t := SmallTable(cn, address, route);
            && ShowsClient(PlainLayout.clientColumns, t[2].cells, t[2].client)
            && ShowsRoute(PlainLayout.routeColumns, t[3].cells, t[3].route)
  {
    hide NormalizeHeader, DistinctColumns, Shows;
    var t, l := SmallTable(cn, address, route), PlainLayout;
    PlainColumnsDistinct();
    CellShows(l.clientColumns, t[2].cells, 0);
    CellShows(l.clientColumns, t[2].cells, 1);
    CellShows(l.clientColumns, t[2].cells, 2);
    CellShows(l.clientColumns, t[2].cells, 3);
    CellShows(l.clientColumns, t[2].cells, 4);
    CellShows(l.routeColumns, t[3].cells, 0);
    CellShows(l.routeColumns, t[3].cells, 1);
    assert Decimal.PrintInt(5) == "5";
  }

  lemma HeadersValid(l: Layout)
    ensures ValidItem(l, ClientHeader, false, false) && ValidItem(l, RouteHeader, true, false)
  {
  }

  lemma {:induction false} SmallRowsValid(cn: string, address: string, route: Route)
    requires cn != "" && route.cn != "" && route.realAddress != ""
    requires Plain(cn) && Plain(address) && Plain(route.cn) && Plain(route.realAddress)
    ensures var t := SmallTable(cn, address, route);
            ValidItem(PlainLayout, t[2], true, true) && ValidItem(PlainLayout, t[3], true, true)
  {
    SmallRowsShown(cn, address, route);
    hide ShowsClient, ShowsRoute;
    SmallRowsPrintable(cn, address, route);
    hide Printable;
  }

  lemma {:induction false} SmallRowsPrintable(cn: string, address: string, route: Route)
    requires Plain(cn) && Plain(address) && Plain(route.cn) && Plain(route.realAddress)
    ensures var t := SmallTable(cn, address, route); Printable(',', t[2].cells) && Printable(',', t[3].cells)
  {
    var t := SmallTable(cn, address, route);
    assert Plain("7") && Plain("5") && Plain("v");
    forall j | 0 <= j < 5
      ensures Plain(t[2].cells[j])
    {
    }
  }

  predicate Plain(s: string) {
    ',' !in s && '\t' !in s
  }

  lemma {:induction false} SmallTableValid(cn: string, address: string, route: Route)
    requires cn != "" && route.cn != "" && route.realAddress != ""
    requires Plain(cn) && Plain(address) && Plain(route.cn) && Plain(route.realAddress)
    ensures ValidItems(PlainLayout, SmallTable(cn, address, route), false, false)
  {
    var t, l := SmallTable(cn, address, route), PlainLayout;
    SmallRowsValid(cn, address, route);
    hide ValidItem;
    assert t[1..][1..] == t[2..] && t[2..][1..] == t[3..] && t[3..][1..] == t[4..] == [];
    HeadersValid(l);
    assert ValidItems(l, t[4..], true, true);
    assert ValidItems(l, t[3..], true, true);
    assert ValidItems(l, t[2..], true, true);
    assert ValidItems(l, t[1..], true, false);
  }

  lemma {:induction false} SmallTableRows(cn: string, address: string, route: Route)
    ensures var t := SmallTable(cn, address, route); ClientsOf(t) == [t[2].client] && RoutesOf(t) == [route]
  {
    var t := SmallTable(cn, address, route);
    assert t[1..][1..] == t[2..] && t[2..][1..] == t[3..] && t[3..][1..] == [];
    assert ClientsOf(t[3..]) == [] && RoutesOf(t[3..]) == [route];
    assert ClientsOf(t[2..]) == [t[2].client] && RoutesOf(t[2..]) == [route];
    assert ClientsOf(t[1..]) == [t[2].client] && RoutesOf(t[1..]) == [route];
  }

  /** With a NUL in a name the parser is misled: client "a" counts as routed by the route of another name. */
  lemma ForeignRouteConfirms()
    ensures var r := Parse(Start, PrintTable(PlainLayout, SmallTable("a", "b\0c", Route("a\0b", "c"))));
            && r.Ok? && |r.value.clients| == 1 && r.value.clients[0].cn == "a"
            && r.value.clients[0].realAddress == "b\0c"
            && r.value.clients[0].routingConfirmed
  {
    var foreign := Route("a\0b", "c");
    var t := SmallTable("a", "b\0c", foreign);
    SmallTableValid("a", "b\0c", foreign);
    SmallTableRows("a", "b\0c", foreign);
    PlainLayoutValid();
    ForeignStraddles();
    hide ValidLayout, ValidItems, Parse, PrintTable, Straddles, ClientsOf, RoutesOf;
    TableRoundTrip(PlainLayout, t);
    assert foreign in RoutesOf(t);
  }

  lemma ForeignStraddles()
    ensures Straddles(Route("a", "b\0c"), Route("a\0b", "c"))
  {
    assert "a\0b"[..2] == "a" + "\0" && "a\0b"[2..] == "b";
  }
}
