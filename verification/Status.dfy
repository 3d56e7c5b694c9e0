/** The header-driven parser of OpenVPN's `status 3` response. */
module Status {
  import opened Basics
  import opened Text
  import opened Snapshots
  import Decimal

  datatype Route = Route(cn: string, realAddress: string)

  /** What the parser has gathered so far; client rows are not yet classified. */
  datatype Progress = Progress(
    clientHeader: map<string, nat>,
    routeHeader: map<string, nat>,
    clients: seq<StatusClient>,
    routes: seq<Route>)

  const Start := Progress(map[], map[], [], [])

  datatype StatusError = BadConnectTime(text: string) | MissingEnd

  function Strip(s: string): string {
    if s == "" then ""
    else (if s[0] in {' ', '_', '-', '(', ')'} then "" else [s[0]]) + Strip(s[1..])
  }

  function NormalizeHeader(s: string): string {
    Strip(ToLower(TrimSpace(s)))
  }

  function SplitStatusLine(line: string): seq<string> {
    if '\t' in line then Split(line, '\t') else Split(line, ',')
  }

  /** Column positions by normalized name, counted after the record type; the last duplicate wins. */
  function HeaderOf(names: seq<string>): map<string, nat> {
    if names == [] then map[]
    else HeaderOf(names[..|names| - 1])[NormalizeHeader(names[|names| - 1]) := |names|]
  }

  function StatusValue(fields: seq<string>, header: map<string, nat>, names: seq<string>): string {
    if names == [] then ""
    else
      var k := NormalizeHeader(names[0]);
      if k in header && header[k] < |fields| then fields[header[k]] else StatusValue(fields, header, names[1..])
  }

  const CID_NAMES := ["Client ID", "ClientID"]
  const CN_NAMES := ["Common Name", "CommonName"]
  const SINCE_NAMES := ["Connected Since (time_t)", "Connected Since", "ConnectedSince"]
  const REAL_NAMES := ["Real Address", "RealAddress"]
  const VIRTUAL_NAMES := ["Virtual Address", "VirtualAddress"]

  function ParseClient(fields: seq<string>, header: map<string, nat>): Result<Option<StatusClient>, StatusError> {
    var cid, cn := StatusValue(fields, header, CID_NAMES), StatusValue(fields, header, CN_NAMES);
    var since := StatusValue(fields, header, SINCE_NAMES);
    if cid == "" || cn == "" || since == "" then Ok(None)
    else
      var sec := Decimal.ParseInt(since);
      if sec.None? then Err(BadConnectTime(since))
      else Ok(Some(StatusClient(cid, cn, StatusValue(fields, header, REAL_NAMES),
                                StatusValue(fields, header, VIRTUAL_NAMES), sec.value, false, false)))
  }

  function ParseRoute(fields: seq<string>, header: map<string, nat>): Option<Route> {
    var cn, address := StatusValue(fields, header, CN_NAMES), StatusValue(fields, header, REAL_NAMES);
    if cn == "" || address == "" then None else Some(Route(cn, address))
  }

  function AddHeader(p: Progress, fields: seq<string>): Progress {
    if |fields| < 3 then p
    else if fields[1] == "CLIENT_LIST" then p.(clientHeader := HeaderOf(fields[2..]))
    else if fields[1] == "ROUTING_TABLE" then p.(routeHeader := HeaderOf(fields[2..]))
    else p
  }

  function AddClient(p: Progress, fields: seq<string>): Result<Progress, StatusError> {
    match ParseClient(fields, p.clientHeader)
    case Err(e) => Err(e)
    case Ok(c) => Ok(if c.None? then p else p.(clients := p.clients + [c.value]))
  }

  function AddRoute(p: Progress, fields: seq<string>): Progress {
    var r := ParseRoute(fields, p.routeHeader);
    if r.None? then p else p.(routes := p.routes + [r.value])
  }

  /** One line other than END. */
  function Consume(p: Progress, line: string): Result<Progress, StatusError> {
    var fields := SplitStatusLine(line);
    if fields[0] == "HEADER" then Ok(AddHeader(p, fields))
    else if fields[0] == "CLIENT_LIST" then AddClient(p, fields)
    else if fields[0] == "ROUTING_TABLE" then Ok(AddRoute(p, fields))
    else Ok(p)
  }

  function RouteKey(cn: string, realAddress: string): string {
    cn + "\0" + realAddress
  }

  function RouteKeys(routes: seq<Route>): set<string> {
    set r | r in routes :: RouteKey(r.cn, r.realAddress)
  }

  function ClassifyClient(c: StatusClient, routes: seq<Route>): StatusClient {
    c.(routingConfirmed := RouteKey(c.cn, c.realAddress) in RouteKeys(routes), established := c.virtualAddress != "")
  }

  function ClassifyAll(clients: seq<StatusClient>, routes: seq<Route>): (r: seq<StatusClient>)
    ensures |r| == |clients| && forall k :: 0 <= k < |clients| ==> r[k] == ClassifyClient(clients[k], routes)
  {
    seq(|clients|, k requires 0 <= k < |clients| => ClassifyClient(clients[k], routes))
  }

  function Finalize(p: Progress): (s: StatusSnapshot)
    ensures Consistent(s)
  {
    var clients := ClassifyAll(p.clients, p.routes);
    StatusSnapshot(clients, EstablishedOf(clients))
  }

  function Parse(p: Progress, lines: seq<string>): Result<StatusSnapshot, StatusError>
    decreases |lines|
  {
    if lines == [] then Err(MissingEnd)
    else if lines[0] == "END" then Ok(Finalize(p))
    else match Consume(p, lines[0])
      case Err(e) => Err(e)
      case Ok(p') => Parse(p', lines[1..])
  }

  // ----- the parser object -----

  class StatusParser {
    var clientHeader: map<string, nat>
    var routeHeader: map<string, nat>
    var clients: seq<StatusClient>
    var routes: seq<Route>
    var snapshot: StatusSnapshot
    var finalized: bool

    function View(): Progress
      reads this
    {
      Progress(clientHeader, routeHeader, clients, routes)
    }

    constructor ()
      ensures View() == Start && !finalized && snapshot == StatusSnapshot([], [])
    {
      clientHeader, routeHeader, clients, routes := map[], map[], [], [];
      snapshot, finalized := StatusSnapshot([], []), false;
    }

    method FinalizeOnce()
      requires snapshot == StatusSnapshot([], []) || finalized
      modifies this
      ensures View() == old(View()) && finalized
      ensures !old(finalized) ==> snapshot == Finalize(View())
      ensures old(finalized) ==> snapshot == old(snapshot)
    {
      if finalized {
        return;
      }
      finalized := true;
      var keys: set<string> := {};
      for n := 0 to |routes|
        invariant keys == RouteKeys(routes[..n])
        invariant View() == old(View()) && snapshot == old(snapshot) && finalized
      {
        keys := keys + {RouteKey(routes[n].cn, routes[n].realAddress)};
        assert routes[..n + 1] == routes[..n] + [routes[n]];
      }
      assert routes[..|routes|] == routes;
      var out, established := [], [];
      for n := 0 to |clients|
        invariant out == ClassifyAll(clients[..n], routes)
        invariant established == EstablishedOf(out)
        invariant View() == old(View()) && finalized
      {
        var client := clients[n];
        client := client.(routingConfirmed := RouteKey(client.cn, client.realAddress) in keys);
        client := client.(established := client.virtualAddress != "");
        assert (out + [client])[..|out|] == out;
        out := out + [client];
        if client.established {
          established := established + [EstablishedSession(client.cid, client.cn, client.connectedAt)];
        }
      }
      assert clients[..|clients|] == clients;
      snapshot := StatusSnapshot(out, established);
    }

    method ConsumeLine(line: string) returns (done: bool, err: Option<StatusError>)
      requires snapshot == StatusSnapshot([], []) && !finalized
      modifies this
      ensures line == "END" ==> done && err.None? && snapshot == Finalize(old(View()))
      ensures line != "END" ==>
                && !done && snapshot == old(snapshot) && !finalized
                && (match Consume(old(View()), line)
                    case Ok(p) => err.None? && View() == p
                    case Err(e) => err == Some(e))
    {
      if line == "END" {
        FinalizeOnce();
        return true, None;
      }
      hide ParseClient, ParseRoute, AddHeader, SplitStatusLine, Finalize;
      done, err := false, None;
      var fields := SplitStatusLine(line);
      if fields[0] == "HEADER" {
        ConsumeHeader(fields);
      } else if fields[0] == "CLIENT_LIST" {
        var r := ParseClient(fields, clientHeader);
        if r.Err? {
          return false, Some(r.error);
        }
        if r.value.Some? {
          clients := clients + [r.value.value];
        }
      } else if fields[0] == "ROUTING_TABLE" {
        var r := ParseRoute(fields, routeHeader);
        if r.Some? {
          routes := routes + [r.value];
        }
      }
    }

    method ConsumeHeader(fields: seq<string>)
      modifies this`clientHeader, this`routeHeader
      ensures View() == AddHeader(old(View()), fields)
    {
      hide NormalizeHeader;
      if |fields| < 3 {
        return;
      }
      var header: map<string, nat> := map[];
      for i := 2 to |fields|
        invariant header == HeaderOf(fields[2..i])
        invariant View() == old(View())
      {
        header := header[NormalizeHeader(fields[i]) := i - 1];
        assert fields[2..i + 1][..i - 2] == fields[2..i];
      }
      assert fields[2..|fields|] == fields[2..];
      if fields[1] == "CLIENT_LIST" {
        clientHeader := header;
      } else if fields[1] == "ROUTING_TABLE" {
        routeHeader := header;
      }
    }
  }

  method ParseStatusLines(lines: seq<string>) returns (r: Result<StatusSnapshot, StatusError>)
    ensures r == Parse(Start, lines)
  {
    var parser := new StatusParser();
    for n := 0 to |lines|
      invariant !parser.finalized && parser.snapshot == StatusSnapshot([], [])
      invariant fresh(parser)
      invariant Parse(parser.View(), lines[n..]) == Parse(Start, lines)
    {
      assert lines[n..][1..] == lines[n + 1..];
      var done, err := parser.ConsumeLine(lines[n]);
      if err.Some? {
        return Err(err.value);
      }
      if done {
        return Ok(parser.snapshot);
      }
    }
    return Err(MissingEnd);
  }
}
