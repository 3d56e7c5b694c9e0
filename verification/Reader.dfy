/**
 The reader of the management socket. One stream of lines carries CLIENT event blocks,
 single-line notifications and the response lines of commands.
 */
module Reader {
  import opened Basics
  import opened Text

  datatype EventType = Connect | Reauth | Disconnect | Established | Ignored | Unknown

  datatype Event = Event(typ: EventType, cid: string, kid: string, env: map<string, string>)

  datatype Header = Header(typ: EventType, cid: string, kid: string)

  datatype ReadError = BadHeader(line: string) | UnexpectedEOF | SocketClosed

  const CLIENT := ">CLIENT:"
  const CONNECT := ">CLIENT:CONNECT,"
  const REAUTH := ">CLIENT:REAUTH,"
  const DISCONNECT := ">CLIENT:DISCONNECT,"
  const ESTABLISHED := ">CLIENT:ESTABLISHED,"
  const ADDRESS := ">CLIENT:ADDRESS,"
  const ENV := ">CLIENT:ENV,"
  const ENV_END := ">CLIENT:ENV,END"
  const HOLD := ">HOLD:"

  predicate Named(typ: EventType) {
    typ.Connect? || typ.Reauth? || typ.Disconnect? || typ.Established?
  }

  function ParseCidKid(typ: EventType, payload: string): Option<Header> {
    var parts := Split(payload, ',');
    if |parts| < 2 then None
    else
      var cid, kid := TrimSpace(parts[0]), TrimSpace(parts[1]);
      if cid == "" || kid == "" then None else Some(Header(typ, cid, kid))
  }

  function ParseCid(typ: EventType, payload: string): Option<Header> {
    var cid := TrimSpace(payload[..Index(payload, ',')]);
    if cid == "" then None else Some(Header(typ, cid, ""))
  }

  /** Every named event carries a non-empty, trimmed client ID; CONNECT and REAUTH, and only they, a key ID too. */
  function ParseHeader(line: string): (h: Option<Header>)
    ensures h.Some? && Named(h.value.typ) ==> h.value.cid != "" && Trimmed(h.value.cid)
    ensures h.Some? ==> Trimmed(h.value.kid) && (h.value.kid != "" <==> h.value.typ.Connect? || h.value.typ.Reauth?)
    ensures h.Some? && !Named(h.value.typ) ==> HasPrefix(line, CLIENT)
  {
    if HasPrefix(line, CONNECT) then ParseCidKid(Connect, line[|CONNECT|..])
    else if HasPrefix(line, REAUTH) then ParseCidKid(Reauth, line[|REAUTH|..])
    else if HasPrefix(line, DISCONNECT) then ParseCid(Disconnect, line[|DISCONNECT|..])
    else if HasPrefix(line, ESTABLISHED) then ParseCid(Established, line[|ESTABLISHED|..])
    else if HasPrefix(line, ADDRESS) then
      assert ADDRESS[..|CLIENT|] == CLIENT;
      assert line[..|CLIENT|] == line[..|ADDRESS|][..|CLIENT|];
      Some(Header(Ignored, "", ""))
    else if HasPrefix(line, CLIENT) then Some(Header(Unknown, "", ""))
    else None
  }

  /** One line of an event block added to the environment. */
  function AddEnv(env: map<string, string>, line: string): map<string, string> {
    if !HasPrefix(line, ENV) then env
    else
      var kv := line[|ENV|..];
      var i := Index(kv, '=');
      if i == 0 || i == |kv| then env else env[kv[..i] := kv[i + 1..]]
  }

  datatype Block = Block(env: map<string, string>, rest: seq<string>)

  /** The block up to its end marker, and the lines after it. */
  function ReadBlock(lines: seq<string>, env: map<string, string>): (b: Option<Block>)
    ensures b.Some? ==> |b.value.rest| < |lines|
  {
    if lines == [] then None
    else if lines[0] == ENV_END then Some(Block(env, lines[1..]))
    else ReadBlock(lines[1..], AddEnv(env, lines[0]))
  }

  datatype Notification = EventNote(event: Event) | HoldNote

  datatype Output = Output(notes: seq<Notification>, responses: seq<string>, err: ReadError)

  function Prepend(notes: seq<Notification>, responses: seq<string>, o: Output): Output {
    Output(notes + o.notes, responses + o.responses, o.err)
  }

  lemma PrependTwice(n: seq<Notification>, r: seq<string>, m: seq<Notification>, q: seq<string>, o: Output)
    ensures Prepend(n, r, Prepend(m, q, o)) == Prepend(n + m, r + q, o)
  {
    assert n + (m + o.notes) == (n + m) + o.notes;
    assert r + (q + o.responses) == (r + q) + o.responses;
  }

  lemma PrependNothing(o: Output)
    ensures Prepend([], [], o) == o
  {
  }

  lemma PrependStop(n: seq<Notification>, r: seq<string>, err: ReadError)
    ensures Prepend(n, r, Output([], [], err)) == Output(n, r, err)
  {
  }

  /** Everything the reader hands on until it stops. */
  function Read(lines: seq<string>): Output
    decreases |lines|
  {
    if lines == [] then Output([], [], SocketClosed)
    else
      var line, rest := lines[0], lines[1..];
      if HasPrefix(line, CLIENT) then
        var h := ParseHeader(line);
        if h.None? then Output([], [], BadHeader(line))
        else if h.value.typ.Ignored? then Read(rest)
        else
          var b := ReadBlock(rest, map[]);
          if b.None? then Output([], [], UnexpectedEOF)
          else if h.value.typ.Unknown? then Read(b.value.rest)
          else Prepend([EventNote(Event(h.value.typ, h.value.cid, h.value.kid, b.value.env))], [], Read(b.value.rest))
      else if HasPrefix(line, HOLD) then Prepend([HoldNote], [], Read(rest))
      else if HasPrefix(line, ">") then Read(rest)
      else Prepend([], [line], Read(rest))
  }

  // ----- the loops -----

  /** Reads one event block, advancing the scanner position. */
  method ReadEvent(lines: seq<string>, pos: nat, h: Header) returns (event: Option<Event>, next: nat)
    requires pos <= |lines| && !h.typ.Ignored?
    ensures pos <= next <= |lines|
    ensures var b := ReadBlock(lines[pos..], map[]);
            && (b.None? <==> event.None?)
            && (b.Some? ==>
                  && lines[next..] == b.value.rest && pos < next
                  && event.value == Event(if h.typ.Unknown? then Ignored else h.typ, h.cid, h.kid, b.value.env))
  {
    var env: map<string, string> := map[];
    next := pos;
    while next < |lines|
      invariant pos <= next <= |lines|
      invariant ReadBlock(lines[next..], env) == ReadBlock(lines[pos..], map[])
    {
      var line := lines[next];
      assert lines[next..][1..] == lines[next + 1..];
      next := next + 1;
      if line == ENV_END {
        return Some(Event(if h.typ.Unknown? then Ignored else h.typ, h.cid, h.kid, env)), next;
      }
      if HasPrefix(line, ENV) {
        var kv := line[|ENV|..];
        var idx := Index(kv, '=');
        if 0 < idx < |kv| {
          env := env[kv[..idx] := kv[idx + 1..]];
        }
      }
    }
    event := None;
  }

  /** The reader goroutine, on the lines that arrive before the socket closes. */
  method ReadManagement(lines: seq<string>) returns (notes: seq<Notification>, responses: seq<string>, err: ReadError)
    ensures Output(notes, responses, err) == Read(lines)
  {
    hide ParseHeader, HasPrefix, ReadBlock, Prepend;
    notes, responses := [], [];
    var pos := 0;
    assert lines[0..] == lines;
    PrependNothing(Read(lines));
    while pos < |lines|
      invariant pos <= |lines|
      invariant Prepend(notes, responses, Read(lines[pos..])) == Read(lines)
      decreases |lines| - pos
    {
      var line := lines[pos];
      assert lines[pos..][1..] == lines[pos + 1..];
      pos := pos + 1;
      if HasPrefix(line, CLIENT) {
        var h := ParseHeader(line);
        if h.None? {
          PrependStop(notes, responses, BadHeader(line));
          return notes, responses, BadHeader(line);
        }
        if !h.value.typ.Ignored? {
          var event;
          event, pos := ReadEvent(lines, pos, h.value);
          if event.None? {
            PrependStop(notes, responses, UnexpectedEOF);
            return notes, responses, UnexpectedEOF;
          }
          if !event.value.typ.Ignored? {
            PrependTwice(notes, responses, [EventNote(event.value)], [], Read(lines[pos..]));
            notes := notes + [EventNote(event.value)];
            assert responses + [] == responses;
          }
        }
      } else if HasPrefix(line, HOLD) {
        PrependTwice(notes, responses, [HoldNote], [], Read(lines[pos..]));
        notes := notes + [HoldNote];
        assert responses + [] == responses;
      } else if !HasPrefix(line, ">") {
        PrependTwice(notes, responses, [], [line], Read(lines[pos..]));
        responses := responses + [line];
        assert notes + [] == notes;
      }
    }
    err := SocketClosed;
    PrependStop(notes, responses, err);
  }

  // ----- what OpenVPN prints -----

  datatype Item =
    | ClientEvent(typ: EventType, cid: string, kid: string, env: seq<(string, string)>)
    | UnknownClient(header: string, body: seq<string>)
    | Address(args: string)
    | Hold(args: string)
    | OtherNotice(line: string)
    | Response(line: string)

  predicate Field(s: string) {
    s != "" && Trimmed(s) && ',' !in s
  }

  /** A CLIENT notification of a kind not known yet. */
  predicate UnknownText(header: string) {
    && HasPrefix(header, ">CLIENT:")
    && !HasPrefix(header, ">CLIENT:CONNECT,") && !HasPrefix(header, ">CLIENT:REAUTH,")
    && !HasPrefix(header, ">CLIENT:DISCONNECT,") && !HasPrefix(header, ">CLIENT:ESTABLISHED,")
    && !HasPrefix(header, ">CLIENT:ADDRESS,")
  }

  predicate WellFormed(item: Item) {
    match item
    case ClientEvent(typ, cid, kid, env) =>
      && Named(typ) && Field(cid)
      && (if typ.Connect? || typ.Reauth? then Field(kid) else kid == "")
      && forall k :: 0 <= k < |env| ==> env[k].0 != "" && '=' !in env[k].0
    case UnknownClient(header, body) => UnknownText(header) && ">CLIENT:ENV,END" !in body
    case Address(_) => true
    case Hold(_) => true
    case OtherNotice(line) => HasPrefix(line, ">") && !HasPrefix(line, ">CLIENT:") && !HasPrefix(line, ">HOLD:")
    case Response(line) => !HasPrefix(line, ">")
  }

  function PrintHeader(typ: EventType, cid: string, kid: string): string
    requires Named(typ)
  {
    match typ
    case Connect => ">CLIENT:CONNECT," + cid + "," + kid
    case Reauth => ">CLIENT:REAUTH," + cid + "," + kid
    case Disconnect => ">CLIENT:DISCONNECT," + cid
    case Established => ">CLIENT:ESTABLISHED," + cid
  }

  function PrintEnv(env: seq<(string, string)>): seq<string> {
    if env == [] then [] else [">CLIENT:ENV," + env[0].0 + "=" + env[0].1] + PrintEnv(env[1..])
  }

  function Print(item: Item): seq<string>
    requires WellFormed(item)
  {
    match item
    case ClientEvent(typ, cid, kid, env) => [PrintHeader(typ, cid, kid)] + PrintEnv(env) + [">CLIENT:ENV,END"]
    case UnknownClient(header, body) => [header] + body + [">CLIENT:ENV,END"]
    case Address(args) => [">CLIENT:ADDRESS," + args]
    case Hold(args) => [">HOLD:" + args]
    case OtherNotice(line) => [line]
    case Response(line) => [line]
  }

  function PrintAll(items: seq<Item>): seq<string>
    requires forall k :: 0 <= k < |items| ==> WellFormed(items[k])
  {
    if items == [] then [] else Print(items[0]) + PrintAll(items[1..])
  }

  /** The environment of an event: the last value of a key wins. */
  function EnvOf(env: seq<(string, string)>, m: map<string, string>): map<string, string> {
    if env == [] then m else EnvOf(env[1..], m[env[0].0 := env[0].1])
  }

  /** An event has exactly the printed keys, each with the value printed last for it. */
  lemma {:induction false} EnvLastWins(env: seq<(string, string)>, m: map<string, string>, k: string)
    ensures k in EnvOf(env, m) <==> k in m || exists j :: 0 <= j < |env| && env[j].0 == k
    ensures forall j :: 0 <= j < |env| && env[j].0 == k && (forall l :: j < l < |env| ==> env[l].0 != k) ==>
              k in EnvOf(env, m) && EnvOf(env, m)[k] == env[j].1
    ensures (forall j :: 0 <= j < |env| ==> env[j].0 != k) && k in m ==> k in EnvOf(env, m) && EnvOf(env, m)[k] == m[k]
    decreases |env|
  {
    if env != [] {
      var rest := env[1..];
      EnvLastWins(rest, m[env[0].0 := env[0].1], k);
      assert forall j :: 0 < j < |env| ==> env[j] == rest[j - 1];
      assert forall j :: 0 <= j < |rest| ==> rest[j] == env[j + 1];
    }
  }

  function NotesOf(items: seq<Item>): seq<Notification> {
    if items == [] then []
    else (match items[0]
          case ClientEvent(typ, cid, kid, env) => [EventNote(Event(typ, cid, kid, EnvOf(env, map[])))]
          case Hold(_) => [HoldNote]
          case _ => []) + NotesOf(items[1..])
  }

  function ResponsesOf(items: seq<Item>): seq<string> {
    if items == [] then []
    else (if items[0].Response? then [items[0].line] else []) + ResponsesOf(items[1..])
  }

  // ----- reading undoes printing -----

  lemma PrefixOfConcat(p: string, rest: string, q: string)
    ensures HasPrefix(p + rest, p) && (p + rest)[|p|..] == rest
    ensures |q| <= |p| ==> (HasPrefix(p + rest, q) <==> p[..|q|] == q)
    ensures (exists k :: 0 <= k < |q| && k < |p| && p[k] != q[k]) ==> !HasPrefix(p + rest, q)
  {
    if |q| <= |p| {
      assert (p + rest)[..|q|] == p[..|q|];
    }
    if HasPrefix(p + rest, q) {
      assert forall k :: 0 <= k < |q| ==> (p + rest)[k] == q[k];
    }
  }

  lemma ParsePrintedHeader(typ: EventType, cid: string, kid: string)
    requires WellFormed(ClientEvent(typ, cid, kid, []))
    ensures ParseHeader(PrintHeader(typ, cid, kid)) == Some(Header(typ, cid, kid))
    ensures HasPrefix(PrintHeader(typ, cid, kid), CLIENT)
  {
    if typ.Connect? || typ.Reauth? {
      ParsePairHeader(typ, cid, kid);
    } else {
      ParseSingleHeader(typ, cid);
    }
  }

  lemma ParsePairHeader(typ: EventType, cid: string, kid: string)
    requires (typ.Connect? || typ.Reauth?) && Field(cid) && Field(kid)
    ensures ParseHeader(PrintHeader(typ, cid, kid)) == Some(Header(typ, cid, kid))
    ensures HasPrefix(PrintHeader(typ, cid, kid), CLIENT)
  {
    hide ParseCidKid;
    var p, args := if typ.Connect? then CONNECT else REAUTH, cid + "," + kid;
    assert PrintHeader(typ, cid, kid) == p + args;
    assert REAUTH[8] == 'R' && CONNECT[8] == 'C';
    PrefixOfConcat(p, args, CLIENT);
    PrefixOfConcat(p, args, CONNECT);
    PrefixOfConcat(p, args, REAUTH);
    ParsePair(typ, cid, kid);
  }

  lemma ParseSingleHeader(typ: EventType, cid: string)
    requires (typ.Disconnect? || typ.Established?) && Field(cid)
    ensures ParseHeader(PrintHeader(typ, cid, "")) == Some(Header(typ, cid, ""))
    ensures HasPrefix(PrintHeader(typ, cid, ""), CLIENT)
  {
    hide ParseCidKid, ParseCid, HasPrefix;
    ParseAlone(typ, cid);
    if typ.Disconnect? {
      DisconnectPrefixes(cid);
    } else {
      EstablishedPrefixes(cid);
    }
  }

  lemma DisconnectPrefixes(args: string)
    ensures var s := DISCONNECT + args;
            && HasPrefix(s, CLIENT) && !HasPrefix(s, CONNECT) && !HasPrefix(s, REAUTH)
            && HasPrefix(s, DISCONNECT) && s[|DISCONNECT|..] == args
  {
    assert CONNECT[8] == 'C' && REAUTH[8] == 'R' && DISCONNECT[8] == 'D';
    PrefixOfConcat(DISCONNECT, args, CLIENT);
    PrefixOfConcat(DISCONNECT, args, CONNECT);
    PrefixOfConcat(DISCONNECT, args, REAUTH);
  }

  lemma EstablishedPrefixes(args: string)
    ensures var s := ESTABLISHED + args;
            && HasPrefix(s, CLIENT) && !HasPrefix(s, CONNECT) && !HasPrefix(s, REAUTH) && !HasPrefix(s, DISCONNECT)
            && HasPrefix(s, ESTABLISHED) && s[|ESTABLISHED|..] == args
  {
    assert CONNECT[8] == 'C' && REAUTH[8] == 'R' && DISCONNECT[8] == 'D' && ESTABLISHED[8] == 'E';
    PrefixOfConcat(ESTABLISHED, args, CLIENT);
    PrefixOfConcat(ESTABLISHED, args, CONNECT);
    PrefixOfConcat(ESTABLISHED, args, REAUTH);
    PrefixOfConcat(ESTABLISHED, args, DISCONNECT);
  }

  lemma ParseAlone(typ: EventType, cid: string)
    requires Field(cid)
    ensures ParseCid(typ, cid) == Some(Header(typ, cid, ""))
  {
    IndexUnique(cid, ',', |cid|);
    assert cid[..|cid|] == cid;
  }

  lemma ParsePair(typ: EventType, cid: string, kid: string)
    requires Field(cid) && Field(kid)
    ensures ParseCidKid(typ, cid + "," + kid) == Some(Header(typ, cid, kid))
  {
    assert Join([cid, kid], ',') == cid + "," + kid by {
      assert [cid, kid][1..] == [kid];
    }
    SplitJoin([cid, kid], ',');
  }

  lemma AddPrintedEnv(m: map<string, string>, k: string, v: string)
    requires k != "" && '=' !in k
    ensures AddEnv(m, ENV + k + "=" + v) == m[k := v]
    ensures ENV + k + "=" + v != ENV_END
  {
    var kv := k + "=" + v;
    PrefixOfConcat(ENV, kv, ENV);
    assert ENV + k + "=" + v == ENV + kv;
    assert kv[..|k|] == k && kv[|k|] == '=' && kv[|k| + 1..] == v;
    IndexUnique(kv, '=', |k|);
    assert ENV_END[|ENV|..] == "END";
    assert kv[|k|] !in "END";
  }

  lemma {:induction false} ReadPrintedEnv(env: seq<(string, string)>, m: map<string, string>, rest: seq<string>)
    requires forall k :: 0 <= k < |env| ==> env[k].0 != "" && '=' !in env[k].0
    ensures ReadBlock(PrintEnv(env) + [ENV_END] + rest, m) == Some(Block(EnvOf(env, m), rest))
    decreases |env|
  {
    var lines := PrintEnv(env) + [ENV_END] + rest;
    if env == [] {
      assert lines[0] == ENV_END && lines[1..] == rest;
    } else {
      AddPrintedEnv(m, env[0].0, env[0].1);
      assert lines[0] == ENV + env[0].0 + "=" + env[0].1;
      assert lines[1..] == PrintEnv(env[1..]) + [ENV_END] + rest;
      ReadPrintedEnv(env[1..], m[env[0].0 := env[0].1], rest);
    }
  }

  lemma {:induction false} SkipUnknownBlock(body: seq<string>, m: map<string, string>, rest: seq<string>)
    requires ENV_END !in body
    ensures ReadBlock(body + [ENV_END] + rest, m).Some? && ReadBlock(body + [ENV_END] + rest, m).value.rest == rest
    decreases |body|
  {
    var lines := body + [ENV_END] + rest;
    if body == [] {
      assert lines[0] == ENV_END && lines[1..] == rest;
    } else {
      assert lines[0] == body[0] && lines[1..] == body[1..] + [ENV_END] + rest;
      SkipUnknownBlock(body[1..], AddEnv(m, body[0]), rest);
    }
  }

  lemma ReadOne(item: Item, rest: seq<string>)
    requires WellFormed(item)
    ensures Read(Print(item) + rest) == Prepend(NotesOf([item]), ResponsesOf([item]), Read(rest))
  {
    hide ParseHeader, HasPrefix, Read, Prepend;
    assert [item][1..] == [];
    if item.ClientEvent? {
      ReadClientEvent(item, rest);
      assert NotesOf([item]) == [EventNote(Event(item.typ, item.cid, item.kid, EnvOf(item.env, map[])))];
      assert ResponsesOf([item]) == [];
    } else if item.UnknownClient? {
      ReadUnknownClient(item, rest);
    } else {
      ReadSingleLine(item, rest);
      assert NotesOf([item]) == if item.Hold? then [HoldNote] else [];
      assert ResponsesOf([item]) == if item.Response? then [item.line] else [];
    }
  }

  lemma ReadClientEvent(item: Item, rest: seq<string>)
    requires WellFormed(item) && item.ClientEvent?
    ensures Read(Print(item) + rest) ==
              Prepend([EventNote(Event(item.typ, item.cid, item.kid, EnvOf(item.env, map[])))], [], Read(rest))
  {
    hide ParseHeader, HasPrefix, Prepend, PrintHeader;
    var lines, header := Print(item) + rest, PrintHeader(item.typ, item.cid, item.kid);
    ParsePrintedHeader(item.typ, item.cid, item.kid);
    assert lines[0] == header && lines[1..] == PrintEnv(item.env) + [ENV_END] + rest;
    ReadPrintedEnv(item.env, map[], rest);
  }

  lemma ReadUnknownClient(item: Item, rest: seq<string>)
    requires WellFormed(item) && item.UnknownClient?
    ensures Read(Print(item) + rest) == Prepend([], [], Read(rest))
  {
    hide ParseHeader, HasPrefix;
    var lines := Print(item) + rest;
    UnknownHeader(item.header);
    assert lines[0] == item.header && lines[1..] == item.body + [ENV_END] + rest;
    SkipUnknownBlock(item.body, map[], rest);
  }

  lemma ReadSingleLine(item: Item, rest: seq<string>)
    requires WellFormed(item) && !item.ClientEvent? && !item.UnknownClient?
    ensures Read(Print(item) + rest) ==
              Prepend(if item.Hold? then [HoldNote] else [], if item.Response? then [item.line] else [], Read(rest))
  {
    hide ParseHeader;
    var lines := Print(item) + rest;
    assert lines[1..] == rest;
    match item
    case Address(args) => AddressHeader(args);
    case Hold(args) =>
      PrefixOfConcat(HOLD, args, CLIENT);
      PrefixOfConcat(HOLD, args, HOLD);
      assert HOLD[1] != CLIENT[1];
    case _ =>
  }

  lemma UnknownHeader(header: string)
    requires UnknownText(header)
    ensures HasPrefix(header, CLIENT) && ParseHeader(header) == Some(Header(Unknown, "", ""))
  {
    hide HasPrefix, ParseCid, ParseCidKid;
  }

  lemma AddressHeader(args: string)
    ensures HasPrefix(ADDRESS + args, CLIENT) && ParseHeader(ADDRESS + args) == Some(Header(Ignored, "", ""))
  {
    PrefixOfConcat(ADDRESS, args, CLIENT);
    PrefixOfConcat(ADDRESS, args, CONNECT);
    PrefixOfConcat(ADDRESS, args, REAUTH);
    PrefixOfConcat(ADDRESS, args, DISCONNECT);
    PrefixOfConcat(ADDRESS, args, ESTABLISHED);
    PrefixOfConcat(ADDRESS, args, ADDRESS);
    assert ADDRESS[8] == 'A' && CONNECT[8] == 'C' && REAUTH[8] == 'R' && DISCONNECT[8] == 'D' && ESTABLISHED[8] == 'E';
  }

  /** Reading a printed stream, and then the rest. */
  lemma {:induction false} ReadThen(items: seq<Item>, rest: seq<string>)
    requires forall k :: 0 <= k < |items| ==> WellFormed(items[k])
    ensures Read(PrintAll(items) + rest) == Prepend(NotesOf(items), ResponsesOf(items), Read(rest))
    decreases |items|
  {
    hide WellFormed, Print, Read, Prepend;
    if items == [] {
      assert PrintAll(items) + rest == rest;
      PrependNothing(Read(rest));
    } else {
      var more := PrintAll(items[1..]) + rest;
      assert PrintAll(items) + rest == Print(items[0]) + more;
      ReadThen(items[1..], rest);
      ReadOne(items[0], more);
      PrependTwice(NotesOf([items[0]]), ResponsesOf([items[0]]), NotesOf(items[1..]), ResponsesOf(items[1..]),
                   Read(rest));
      FirstNotes(items);
    }
  }

  lemma {:induction false} FirstNotes(items: seq<Item>)
    requires items != []
    ensures NotesOf(items) == NotesOf([items[0]]) + NotesOf(items[1..])
    ensures ResponsesOf(items) == ResponsesOf([items[0]]) + ResponsesOf(items[1..])
  {
    assert [items[0]][1..] == [] && NotesOf([]) == [] && ResponsesOf([]) == [];
  }

  /**
   For every stream that interleaves event blocks, notifications and responses, the reader hands on
   exactly the printed events, in order, and exactly the response lines, in order.
   */
  lemma ReadUndoesPrint(items: seq<Item>)
    requires forall k :: 0 <= k < |items| ==> WellFormed(items[k])
    ensures Read(PrintAll(items)) == Output(NotesOf(items), ResponsesOf(items), SocketClosed)
  {
    hide WellFormed, PrintAll, NotesOf, ResponsesOf;
    assert PrintAll(items) + [] == PrintAll(items);
    ReadThen(items, []);
    PrependStop(NotesOf(items), ResponsesOf(items), SocketClosed);
  }

  /** A header that names no client ends the reading with an error, after everything before it was handed on. */
  lemma MalformedHeaderStops(items: seq<Item>, line: string, rest: seq<string>)
    requires forall k :: 0 <= k < |items| ==> WellFormed(items[k])
    requires HasPrefix(line, ">CLIENT:") && ParseHeader(line).None?
    ensures Read(PrintAll(items) + ([line] + rest)) == Output(NotesOf(items), ResponsesOf(items), BadHeader(line))
  {
    hide WellFormed, PrintAll, NotesOf, ResponsesOf, ParseHeader, HasPrefix;
    ReadThen(items, [line] + rest);
    PrependStop(NotesOf(items), ResponsesOf(items), BadHeader(line));
  }

  /** A CONNECT or REAUTH without a comma is such a header, and so is an event with a blank client ID. */
  lemma IncompleteHeaders(args: string)
    ensures ',' !in args ==>
              ParseHeader(">CLIENT:CONNECT," + args).None? && ParseHeader(">CLIENT:REAUTH," + args).None?
    ensures Blank(args) ==>
              ParseHeader(">CLIENT:DISCONNECT," + args).None? && ParseHeader(">CLIENT:ESTABLISHED," + args).None?
  {
    if ',' !in args {
      PairPrefixes(args);
      SplitWhole(args, ',');
    }
    if Blank(args) {
      DisconnectPrefixes(args);
      EstablishedPrefixes(args);
      hide HasPrefix;
      assert Blank(args[..Index(args, ',')]);
    }
  }

  lemma PairPrefixes(args: string)
    ensures HasPrefix(">CLIENT:CONNECT," + args, CONNECT) && (">CLIENT:CONNECT," + args)[|CONNECT|..] == args
    ensures var s := ">CLIENT:REAUTH," + args; HasPrefix(s, REAUTH) && !HasPrefix(s, CONNECT) && s[|REAUTH|..] == args
  {
    assert REAUTH[8] == 'R' && CONNECT[8] == 'C';
    PrefixOfConcat(CONNECT, args, CONNECT);
    PrefixOfConcat(REAUTH, args, REAUTH);
    PrefixOfConcat(REAUTH, args, CONNECT);
  }

  /** Lines of a block that are no assignment leave the environment alone. */
  lemma OddEnvLines(m: map<string, string>, kv: string, other: string)
    ensures '=' !in kv || HasPrefix(kv, "=") ==> AddEnv(m, ">CLIENT:ENV," + kv) == m
    ensures !HasPrefix(other, ">CLIENT:ENV,") ==> AddEnv(m, other) == m
  {
    PrefixOfConcat(ENV, kv, ENV);
    if '=' !in kv {
      IndexUnique(kv, '=', |kv|);
    } else if HasPrefix(kv, "=") {
      assert kv[0] == kv[..1][0] == '=';
      IndexUnique(kv, '=', 0);
    }
  }

  /** The client ID may have white space around it, and more fields after it. */
  lemma {:induction false} ClientTolerates(a: string, cid: string, b: string, extra: string)
    requires Blank(a) && Blank(b) && Field(cid) && ',' !in a && ',' !in b
    ensures ParseCid(Disconnect, a + cid + b + [','] + extra) == Some(Header(Disconnect, cid, ""))
    ensures ParseCid(Established, a + cid + b + [','] + extra) == Some(Header(Established, cid, ""))
  {
    hide TrimSpace, Blank, Trimmed;
    TrimSpaceCore(a, cid, b);
    ToleratedFirst(a + cid + b, extra);
  }

  /** And so may the key ID. */
  lemma {:induction false} KeyTolerates(first: string, cid: string, second: string, kid: string, extra: string)
    requires TrimSpace(first) == cid && TrimSpace(second) == kid && cid != "" && kid != ""
    requires ',' !in first && ',' !in second
    ensures ParseCidKid(Connect, first + [','] + (second + [','] + extra)) == Some(Header(Connect, cid, kid))
    ensures ParseCidKid(Reauth, first + [','] + (second + [','] + extra)) == Some(Header(Reauth, cid, kid))
  {
    hide TrimSpace, Split;
    ToleratedPair(first, second, extra);
  }

  lemma ToleratedFirst(first: string, extra: string)
    requires ',' !in first
    ensures var s := first + [','] + extra; s[..Index(s, ',')] == first
  {
    var s := first + [','] + extra;
    assert s[..|first|] == first && s[|first|] == ',';
    IndexUnique(s, ',', |first|);
  }

  lemma ToleratedPair(first: string, second: string, extra: string)
    requires ',' !in first && ',' !in second
    ensures var parts := Split(first + [','] + (second + [','] + extra), ',');
            |parts| >= 2 && parts[0] == first && parts[1] == second
  {
    hide Split;
    SplitHead(first, ',', second + [','] + extra);
    SplitHead(second, ',', extra);
  }

  lemma {:induction false} OpenBlock(env: seq<(string, string)>, m: map<string, string>)
    requires forall k :: 0 <= k < |env| ==> env[k].0 != "" && '=' !in env[k].0
    ensures ReadBlock(PrintEnv(env), m).None?
    decreases |env|
  {
    if env != [] {
      AddPrintedEnv(m, env[0].0, env[0].1);
      assert PrintEnv(env)[0] == ENV + env[0].0 + "=" + env[0].1;
      assert PrintEnv(env)[1..] == PrintEnv(env[1..]);
      OpenBlock(env[1..], AddEnv(m, PrintEnv(env)[0]));
    }
  }

  /** A block that the socket cuts off is an error too. */
  lemma TruncatedBlockStops(items: seq<Item>, item: Item)
    requires forall k :: 0 <= k < |items| ==> WellFormed(items[k])
    requires WellFormed(item) && item.ClientEvent?
    ensures Read(PrintAll(items) + ([PrintHeader(item.typ, item.cid, item.kid)] + PrintEnv(item.env))) ==
              Output(NotesOf(items), ResponsesOf(items), UnexpectedEOF)
  {
    var header := PrintHeader(item.typ, item.cid, item.kid);
    ParsePrintedHeader(item.typ, item.cid, item.kid);
    OpenBlock(item.env, map[]);
    hide PrintAll, NotesOf, ResponsesOf, ParseHeader, HasPrefix, PrintHeader, PrintEnv, ReadBlock;
    var lines := [header] + PrintEnv(item.env);
    assert lines[0] == header && lines[1..] == PrintEnv(item.env);
    ReadThen(items, lines);
    PrependStop(NotesOf(items), ResponsesOf(items), UnexpectedEOF);
  }
}
