/**
 The management command broker. One command is outstanding at a time; the lines that answer it
 arrive on the socket mixed with notifications. The broker pairs each response with its command
 or stops for good.
 */
module Broker {
  import opened Basics
  import opened Text
  import opened Commands
  import Snapshots
  import Reader
  import Status

  datatype Request = Request(id: nat, command: string)

  /** What the requester gets. `Failure` means the connection is lost to the broker. */
  datatype Reply = Accepted | Refused(line: string) | Snapshot(snapshot: Snapshots.StatusSnapshot) | Failure

  datatype Outcome = Waiting(lines: seq<string>) | Finished(reply: Reply)

  /** One response line while a command is outstanding. */
  function OnLine(contract: Contract, lines: seq<string>, line: string): Outcome {
    match contract
    case SingleLineAck =>
      if HasPrefix(line, "SUCCESS:") then Finished(Accepted)
      else if HasPrefix(line, "ERROR:") then Finished(Refused(line))
      else Finished(Failure)
    case MultiLineUntilEnd =>
      if line != "END" then Waiting(lines + [line])
      else
        var r := Status.Parse(Status.Start, lines + [line]);
        if r.Ok? then Finished(Snapshot(r.value)) else Finished(Failure)
  }

  /** What the execute loop selects next. */
  datatype Incoming = ResponseLine(line: string) | Timer | ContextDone

  function ExecuteOn(contract: Contract, lines: seq<string>, incoming: seq<Incoming>): Outcome
    decreases |incoming|
  {
    if incoming == [] then Waiting(lines)
    else if !incoming[0].ResponseLine? then Finished(Failure)
    else
      var o := OnLine(contract, lines, incoming[0].line);
      if o.Finished? then o else ExecuteOn(contract, o.lines, incoming[1..])
  }

  /** The loop of `execute` after the command is written. */
  method Execute(contract: Contract, incoming: seq<Incoming>) returns (o: Outcome)
    ensures o == ExecuteOn(contract, [], incoming)
  {
    var lines: seq<string> := [];
    for n := 0 to |incoming|
      invariant ExecuteOn(contract, lines, incoming[n..]) == ExecuteOn(contract, [], incoming)
    {
      assert incoming[n..][1..] == incoming[n + 1..];
      match incoming[n]
      case Timer => return Finished(Failure);
      case ContextDone => return Finished(Failure);
      case ResponseLine(line) =>
        match contract {
          case SingleLineAck =>
            return Finished(if HasPrefix(line, "SUCCESS:") then Accepted
                            else if HasPrefix(line, "ERROR:") then Refused(line) else Failure);
          case MultiLineUntilEnd =>
            lines := lines + [line];
            if line == "END" {
              var r := Status.ParseStatusLines(lines);
              return Finished(if r.Ok? then Snapshot(r.value) else Failure);
            }
        }
    }
    o := Waiting(lines);
  }

  // ----- broker, socket and OpenVPN -----

  datatype Phase = Idle | Executing(request: Request, contract: Contract, lines: seq<string>) | Stopped

  /**
   `written` are the commands put on the socket and `responses[k]` what OpenVPN produced for the k-th;
   `outgoing` are response lines OpenVPN has yet to send, `wire` is what it sent and nobody read. `queue` are
   the commands that wait with the daemon or with the broker, in no particular order.
   */
  datatype State = State(
    queue: seq<Request>,
    phase: Phase,
    written: seq<Request>,
    responses: seq<seq<string>>,
    outgoing: seq<string>,
    wire: seq<Reader.Item>,
    replies: map<nat, Reply>,
    issued: set<nat>)

  const Init := State([], Idle, [], [], [], [], map[], {})

  datatype Action =
    | Submit(request: Request)       // a requester queues a command
    | Write(k: nat)                  // the broker takes a waiting command and writes it
    | WriteFails(k: nat)
    | Answer(lines: seq<string>)     // OpenVPN answers the oldest unanswered command
    | Emit                           // OpenVPN sends the next response line
    | Notify(item: Reader.Item)      // OpenVPN sends a notification
    | Deliver                        // the reader hands on the next item
    | TimeOut
    | Cancel

  /** The shape of a response: one line, or lines of which at most the last is END. */
  predicate ProperResponse(command: string, lines: seq<string>) {
    && (forall k :: 0 <= k < |lines| ==> !HasPrefix(lines[k], ">"))
    && match ContractOf(command)
       case Some(SingleLineAck) => |lines| == 1
       case Some(MultiLineUntilEnd) => forall k :: 0 <= k < |lines| - 1 ==> lines[k] != "END"
       case None => false
  }

  predicate Enabled(s: State, a: Action) {
    match a
    case Submit(r) => r.id !in s.issued && ContractOf(r.command).Some?
    case Write(k) => s.phase.Idle? && k < |s.queue|
    case WriteFails(k) => s.phase.Idle? && k < |s.queue|
    // OpenVPN answers each command once, in order, and only after it was written
    case Answer(lines) =>
      |s.responses| < |s.written| && ProperResponse(s.written[|s.responses|].command, lines)
    case Emit => s.outgoing != []
    case Notify(item) => Reader.WellFormed(item) && !item.Response?
    case Deliver => s.wire != []
    case TimeOut => s.phase.Executing?
    case Cancel => !s.phase.Stopped?
  }

  function Without(queue: seq<Request>, k: nat): (rest: seq<Request>)
    requires k < |queue|
    ensures |rest| == |queue| - 1
    ensures forall j :: 0 <= j < |rest| ==> rest[j] == queue[if j < k then j else j + 1]
  {
    queue[..k] + queue[k + 1..]
  }

  function Fail(s: State): State {
    s.(phase := Stopped, replies := if s.phase.Executing? then s.replies[s.phase.request.id := Failure] else s.replies)
  }

  function Settle(s: State, r: Request, o: Outcome): State
    requires s.phase.Executing?
  {
    if o.Waiting? then s.(phase := s.phase.(lines := o.lines))
    else s.(phase := if o.reply.Failure? then Stopped else Idle, replies := s.replies[r.id := o.reply])
  }

  function Next(s: State, a: Action): State
    requires Enabled(s, a)
  {
    match a
    case Submit(r) => s.(queue := s.queue + [r], issued := s.issued + {r.id})
    case Write(k) =>
      var r := s.queue[k];
      var c := ContractOf(r.command);
      s.(queue := Without(s.queue, k), written := s.written + [r],
         phase := if c.Some? then Executing(r, c.value, []) else Stopped)
    case WriteFails(k) =>
      s.(queue := Without(s.queue, k), phase := Stopped, replies := s.replies[s.queue[k].id := Failure])
    case Answer(lines) => s.(responses := s.responses + [lines], outgoing := s.outgoing + lines)
    case Emit => s.(outgoing := s.outgoing[1..], wire := s.wire + [Reader.Response(s.outgoing[0])])
    case Notify(item) => s.(wire := s.wire + [item])
    case Deliver =>
      var u := s.(wire := s.wire[1..]);
      if !s.wire[0].Response? then u
      else (match s.phase
            case Idle => u.(phase := Stopped)       // unexpected response line
            case Executing(r, c, lines) => Settle(u, r, OnLine(c, lines, s.wire[0].line))
            case Stopped => u)
    case TimeOut => Fail(s)
    case Cancel => Fail(s)
  }

  ghost predicate Run(s: State, acts: seq<Action>, s': State)
    decreases |acts|
  {
    if acts == [] then s' == s else Enabled(s, acts[0]) && Run(Next(s, acts[0]), acts[1..], s')
  }

  ghost predicate Reachable(s: State) {
    exists acts :: Run(Init, acts, s)
  }

  // ----- the reply that a response deserves -----

  /** Read off the whole response at once, without the broker. */
  function Interpret(command: string, lines: seq<string>): Reply {
    match ContractOf(command)
    case Some(SingleLineAck) =>
      if |lines| == 1 && HasPrefix(lines[0], "SUCCESS:") then Accepted
      else if |lines| == 1 && HasPrefix(lines[0], "ERROR:") then Refused(lines[0])
      else Failure
    case Some(MultiLineUntilEnd) =>
      var r := Status.Parse(Status.Start, lines);
      if r.Ok? then Snapshot(r.value) else Failure
    case None => Failure
  }

  // ----- one command from start to end -----

  function AsIncoming(lines: seq<string>): (r: seq<Incoming>)
    ensures |r| == |lines| && forall k :: 0 <= k < |r| ==> r[k] == ResponseLine(lines[k])
  {
    seq(|lines|, k requires 0 <= k < |lines| => ResponseLine(lines[k]))
  }

  /** A proper response that reaches its end; a one-line response always does. */
  predicate Complete(command: string, lines: seq<string>) {
    && ProperResponse(command, lines)
    && (ContractOf(command) == Some(MultiLineUntilEnd) ==> lines != [] && lines[|lines| - 1] == "END")
  }

  /** Lines without END are gathered. */
  lemma {:induction false} Gathers(gathered: seq<string>, lines: seq<string>, more: seq<Incoming>)
    requires "END" !in lines
    ensures ExecuteOn(MultiLineUntilEnd, gathered, AsIncoming(lines) + more) == ExecuteOn(MultiLineUntilEnd,
        gathered + lines, more)
    decreases |lines|
  {
    var incoming := AsIncoming(lines) + more;
    if lines == [] {
      assert incoming == more && gathered + lines == gathered;
    } else {
      assert incoming[0] == ResponseLine(lines[0]) && incoming[1..] == AsIncoming(lines[1..]) + more;
      assert gathered + [lines[0]] + lines[1..] == gathered + lines;
      Gathers(gathered + [lines[0]], lines[1..], more);
    }
  }

  /** The loop gives a complete response the reply it deserves, whatever comes after it. */
  lemma ExecuteInterprets(command: string, lines: seq<string>, more: seq<Incoming>)
    requires Complete(command, lines)
    ensures ContractOf(command).Some?
    ensures ExecuteOn(ContractOf(command).value, [], AsIncoming(lines) + more) == Finished(Interpret(command, lines))
  {
    hide ContractOf, Status.Parse;
    var incoming := AsIncoming(lines) + more;
    if ContractOf(command) == Some(SingleLineAck) {
      assert incoming[0] == ResponseLine(lines[0]) && lines == [lines[0]];
    } else {
      var init := lines[..|lines| - 1];
      assert lines == init + ["END"];
      assert incoming == AsIncoming(init) + ([ResponseLine("END")] + more);
      Gathers([], init, [ResponseLine("END")] + more);
      assert [] + init == init;
    }
  }

  /** A timer or a cancellation before the last line fails the command, whatever comes after it. */
  lemma ExecuteInterrupted(command: string, lines: seq<string>, n: nat, stop: Incoming, more: seq<Incoming>)
    requires Complete(command, lines) && n < |lines| && !stop.ResponseLine?
    ensures ContractOf(command).Some?
    ensures ExecuteOn(ContractOf(command).value, [], AsIncoming(lines[..n]) + ([stop] + more)) == Finished(Failure)
  {
    hide ContractOf, Status.Parse;
    var incoming := AsIncoming(lines[..n]) + ([stop] + more);
    if ContractOf(command) == Some(SingleLineAck) {
      assert incoming[0] == stop;
    } else {
      Gathers([], lines[..n], [stop] + more);
      assert ([stop] + more)[0] == stop;
    }
  }

  /** While nothing interrupts and the response is not complete, the loop waits. */
  lemma ExecuteWaits(command: string, lines: seq<string>, n: nat)
    requires Complete(command, lines) && n < |lines|
    ensures ContractOf(command).Some?
    ensures ExecuteOn(ContractOf(command).value, [], AsIncoming(lines[..n])) == Waiting(lines[..n])
  {
    hide ContractOf, Status.Parse;
    assert AsIncoming(lines[..n]) + [] == AsIncoming(lines[..n]);
    if ContractOf(command) != Some(SingleLineAck) {
      Gathers([], lines[..n], []);
      assert [] + lines[..n] == lines[..n];
    }
  }

  // ----- the invariant -----

  ghost predicate Distinct(s: State) {
    && (forall j, k :: 0 <= j < k < |s.written| ==> s.written[j].id != s.written[k].id)
    && (forall j, k :: 0 <= j < k < |s.queue| ==> s.queue[j].id != s.queue[k].id)
    && (forall j, k :: 0 <= j < |s.written| && 0 <= k < |s.queue| ==> s.written[j].id != s.queue[k].id)
    && (forall k :: 0 <= k < |s.written| ==> s.written[k].id in s.issued)
    && (forall k :: 0 <= k < |s.queue| ==> s.queue[k].id in s.issued && s.queue[k].id !in s.replies
                                           && ContractOf(s.queue[k].command).Some?)
    && (forall id :: id in s.replies ==> id in s.issued)
  }

  /** The k-th command got exactly the reply its own response deserves. */
  predicate Paired(s: State, k: nat)
    requires k < |s.written|
  {
    var id := s.written[k].id;
    && k < |s.responses| && id in s.replies
    && s.replies[id] == Interpret(s.written[k].command, s.responses[k])
    && !s.replies[id].Failure?
  }

  /** The first `n` commands are paired. */
  ghost predicate AllPaired(s: State, n: nat)
    requires n <= |s.written|
  {
    forall k :: 0 <= k < n ==> Paired(s, k)
  }

  /** What is left of the outstanding command's response is exactly what is still on its way. */
  ghost predicate InStep(s: State) {
    && |s.responses| <= |s.written|
    && (forall k :: 0 <= k < |s.responses| ==> ProperResponse(s.written[k].command, s.responses[k]))
    && match s.phase
       case Stopped => true
       case Idle =>
         |s.responses| == |s.written| && s.outgoing == [] && Reader.ResponsesOf(s.wire) == []
       case Executing(r, c, lines) =>
         && s.written != [] && s.written[|s.written| - 1] == r && ContractOf(r.command) == Some(c) && r.id !in s.replies
         && "END" !in lines && (c.SingleLineAck? ==> lines == [])
         && if |s.responses| == |s.written|
            then lines + Reader.ResponsesOf(s.wire) + s.outgoing == s.responses[|s.responses| - 1]
            else |s.responses| == |s.written| - 1 && lines == [] && s.outgoing == [] && Reader.ResponsesOf(s.wire) == []
  }

  /** How many commands come before the outstanding one. */
  ghost function Completed(s: State): (n: nat)
    ensures n <= |s.written|
  {
    if s.phase.Executing? && s.written != [] then |s.written| - 1 else |s.written|
  }

  /** While the broker runs, every command before the outstanding one is paired. */
  ghost predicate PairedSoFar(s: State) {
    && (s.phase.Executing? ==> s.written != [])
    && (!s.phase.Stopped? ==> AllPaired(s, Completed(s)))
  }

  /** A reply other than Failure is always the right one; Failure is only seen once the broker has stopped. */
  ghost predicate RepliesSound(s: State) {
    forall id :: id in s.replies ==>
      if s.replies[id].Failure? then s.phase.Stopped?
      else exists k :: 0 <= k < |s.written| && s.written[k].id == id && Paired(s, k)
  }

  /** OpenVPN's side of the stream can be printed: responses do not look like notifications. */
  ghost predicate StreamWellFormed(s: State) {
    && (forall k :: 0 <= k < |s.wire| ==> Reader.WellFormed(s.wire[k]))
    && (forall k :: 0 <= k < |s.outgoing| ==> !HasPrefix(s.outgoing[k], ">"))
  }

  ghost predicate Inv(s: State) {
    StreamWellFormed(s) && Distinct(s) && InStep(s) && PairedSoFar(s) && RepliesSound(s)
  }

  lemma {:induction false} ResponsesSnoc(wire: seq<Reader.Item>, item: Reader.Item)
    ensures Reader.ResponsesOf(wire + [item]) == Reader.ResponsesOf(wire) + if item.Response? then [item.line] else []
  {
    if wire == [] {
      assert [item][1..] == [];
      assert wire + [item] == [item];
    } else {
      assert (wire + [item])[1..] == wire[1..] + [item];
      ResponsesSnoc(wire[1..], item);
    }
  }

  /** Pairings survive any step that only appends to the histories. */
  lemma PairedKept(s: State, u: State, k: nat)
    requires k < |s.written| && Paired(s, k)
    requires s.written <= u.written && s.responses <= u.responses
    requires s.written[k].id in u.replies && u.replies[s.written[k].id] == s.replies[s.written[k].id]
    ensures Paired(u, k)
  {
  }

  lemma AllPairedKept(s: State, u: State, n: nat)
    requires n <= |s.written| && AllPaired(s, n)
    requires s.written <= u.written && s.responses <= u.responses
    requires forall k :: 0 <= k < n ==>
      s.written[k].id in u.replies && (s.written[k].id in s.replies ==>
          u.replies[s.written[k].id] == s.replies[s.written[k].id])
    ensures AllPaired(u, n)
  {
    forall k | 0 <= k < n
      ensures Paired(u, k)
    {
      assert Paired(s, k);
      PairedKept(s, u, k);
    }
  }

  lemma DistinctKept(s: State, a: Action)
    requires Inv(s) && Enabled(s, a)
    ensures Distinct(Next(s, a))
  {
    hide ContractOf, Interpret, ProperResponse, OnLine, InStep, PairedSoFar, RepliesSound, StreamWellFormed;
    match a
    case Write(k) => TakenDistinct(s, k, Next(s, a));
    case WriteFails(k) => DroppedDistinct(s, k, Next(s, a));
    case Deliver =>
      if s.phase.Executing? {
        ExecutingIssued(s);
      }
    case TimeOut => ExecutingIssued(s);
    case Cancel =>
      if s.phase.Executing? {
        ExecutingIssued(s);
      }
    case _ =>
  }

  lemma TakenDistinct(s: State, k: nat, u: State)
    requires Distinct(s) && k < |s.queue| && u.queue == Without(s.queue, k) && u.written == s.written + [s.queue[k]]
    requires u.issued == s.issued && u.replies == s.replies
    ensures Distinct(u)
  {
    hide ContractOf;
  }

  lemma DroppedDistinct(s: State, k: nat, u: State)
    requires Distinct(s) && k < |s.queue| && u.queue == Without(s.queue, k) && u.written == s.written
    requires u.issued == s.issued && u.replies == s.replies[s.queue[k].id := Failure]
    ensures Distinct(u)
  {
    hide ContractOf;
  }

  /** The outstanding request has left the queue for good. */
  lemma ExecutingIssued(s: State)
    requires Inv(s) && s.phase.Executing?
    ensures s.phase.request.id in s.issued
    ensures forall k :: 0 <= k < |s.queue| ==> s.queue[k].id != s.phase.request.id
  {
    hide ContractOf, ProperResponse, PairedSoFar, RepliesSound, StreamWellFormed;
  }

  lemma StreamKept(s: State, a: Action)
    requires Inv(s) && Enabled(s, a)
    ensures StreamWellFormed(Next(s, a))
  {
    hide ContractOf, Distinct, InStep, PairedSoFar, RepliesSound, OnLine, HasPrefix;
  }

  /** The line that completes a response leaves nothing of it on the way. */
  lemma LastLine(command: string, resp: seq<string>, lines: seq<string>, line: string, rest: seq<string>)
    requires ProperResponse(command, resp) && resp == lines + [line] + rest
    requires ContractOf(command) == Some(SingleLineAck) || line == "END"
    ensures rest == [] && resp == lines + [line]
  {
    hide ContractOf;
    assert resp[|lines|] == line;
  }

  lemma DeliveredLine(s: State)
    requires Inv(s) && s.phase.Executing? && s.wire != [] && s.wire[0].Response?
    ensures var line := s.wire[0].line;
            && |s.responses| == |s.written|
            && s.responses[|s.responses| - 1] ==
                 s.phase.lines + [line] + (Reader.ResponsesOf(s.wire[1..]) + s.outgoing)
            && (OnLine(s.phase.contract, s.phase.lines, line).Finished? ==>
                  && Reader.ResponsesOf(s.wire[1..]) == [] && s.outgoing == []
                  && OnLine(s.phase.contract, s.phase.lines, line).reply ==
                       Interpret(s.phase.request.command, s.responses[|s.responses| - 1]))
  {
    hide ContractOf, Distinct, RepliesSound, Paired, Status.Parse;
    var line, rest := s.wire[0].line, Reader.ResponsesOf(s.wire[1..]) + s.outgoing;
    var resp := s.responses[|s.responses| - 1];
    assert Reader.ResponsesOf(s.wire) == [line] + Reader.ResponsesOf(s.wire[1..]);
    assert resp == s.phase.lines + [line] + rest;
    if OnLine(s.phase.contract, s.phase.lines, line).Finished? {
      LastLine(s.phase.request.command, resp, s.phase.lines, line, rest);
      assert |rest| == |Reader.ResponsesOf(s.wire[1..])| + |s.outgoing|;
    }
  }

  lemma DeliverKeepsInStep(s: State)
    requires Inv(s) && Enabled(s, Deliver)
    ensures InStep(Next(s, Deliver))
  {
    hide ContractOf, Interpret, ProperResponse, Distinct, RepliesSound, PairedSoFar;
    assert s.wire == [s.wire[0]] + s.wire[1..];
    if !s.wire[0].Response? {
      assert Reader.ResponsesOf(s.wire) == Reader.ResponsesOf(s.wire[1..]);
    } else if s.phase.Executing? {
      DeliveredLine(s);
      var lines, line := s.phase.lines, s.wire[0].line;
      assert lines + [line] + (Reader.ResponsesOf(s.wire[1..]) + s.outgoing)
          == lines + [line] + Reader.ResponsesOf(s.wire[1..]) + s.outgoing;
    }
  }

  lemma RestKeepsInStep(s: State, a: Action)
    requires Inv(s) && Enabled(s, a) && !a.Deliver?
    ensures InStep(Next(s, a))
  {
    hide ContractOf, Interpret, ProperResponse, RepliesSound, PairedSoFar, Reader.ResponsesOf, StreamWellFormed;
    match a
    case Emit => EmitKeepsInStep(s);
    case Notify(item) => ResponsesSnoc(s.wire, item);
    case _ =>
  }

  lemma EmitKeepsInStep(s: State)
    requires Inv(s) && Enabled(s, Emit)
    ensures InStep(Next(s, Emit))
  {
    hide ContractOf, Interpret, ProperResponse, RepliesSound, PairedSoFar, Reader.ResponsesOf, StreamWellFormed,
         Distinct;
    ResponsesSnoc(s.wire, Reader.Response(s.outgoing[0]));
    assert s.outgoing == [s.outgoing[0]] + s.outgoing[1..];
  }

  /** A step after which the broker still runs leaves the pairs made before it alone. */
  lemma PairsKept(s: State, a: Action)
    requires Inv(s) && Enabled(s, a) && !Next(s, a).phase.Stopped?
    ensures s.written <= Next(s, a).written && AllPaired(Next(s, a), Completed(s))
  {
    hide ContractOf, Interpret, ProperResponse, RepliesSound, OnLine, Reader.ResponsesOf, StreamWellFormed;
    var u := Next(s, a);
    var n := Completed(s);
    forall k | 0 <= k < n
      ensures s.written[k].id in u.replies && u.replies[s.written[k].id] == s.replies[s.written[k].id]
    {
      assert Paired(s, k);
    }
    hide Distinct, InStep;
    AllPairedKept(s, u, n);
  }

  /** The line that completes a response without failing pairs the outstanding command. */
  lemma CompletedIsPaired(s: State)
    requires Inv(s) && s.phase.Executing? && Enabled(s, Deliver) && Next(s, Deliver).phase.Idle?
    ensures var u := Next(s, Deliver); |u.written| == |s.written| && Paired(u, |u.written| - 1)
  {
    hide ContractOf, Interpret, ProperResponse, RepliesSound, OnLine, Reader.ResponsesOf, StreamWellFormed, Distinct;
    DeliveredLine(s);
  }

  lemma PairedSoFarKept(s: State, a: Action)
    requires Inv(s) && Enabled(s, a)
    ensures PairedSoFar(Next(s, a))
  {
    hide ContractOf, Interpret, ProperResponse, RepliesSound, OnLine, StreamWellFormed, Distinct, InStep, Paired;
    var u := Next(s, a);
    if !u.phase.Stopped? {
      PairsKept(s, a);
      if s.phase.Executing? && u.phase.Idle? {
        CompletedIsPaired(s);
      }
    }
  }

  lemma RepliesKept(s: State, a: Action)
    requires Inv(s) && Enabled(s, a)
    ensures RepliesSound(Next(s, a))
  {
    hide ContractOf, Interpret, ProperResponse, OnLine, StreamWellFormed, PairedSoFar;
    var u := Next(s, a);
    forall id | id in u.replies && !u.replies[id].Failure?
      ensures exists k :: 0 <= k < |u.written| && u.written[k].id == id && Paired(u, k)
    {
      if id in s.replies && s.replies[id] == u.replies[id] {
        var k :| 0 <= k < |s.written| && s.written[k].id == id && Paired(s, k);
        PairedKept(s, u, k);
      } else {
        CompletedIsPaired(s);
      }
    }
  }

  lemma InvKept(s: State, a: Action)
    requires Inv(s) && Enabled(s, a)
    ensures Inv(Next(s, a))
  {
    hide StreamWellFormed, Distinct, InStep, PairedSoFar, RepliesSound, Next, Enabled;
    StreamKept(s, a);
    DistinctKept(s, a);
    PairedSoFarKept(s, a);
    RepliesKept(s, a);
    if a.Deliver? {
      DeliverKeepsInStep(s);
    } else {
      RestKeepsInStep(s, a);
    }
  }

  lemma {:induction false} RunKeepsInv(s: State, acts: seq<Action>, s': State)
    requires Inv(s) && Run(s, acts, s')
    ensures Inv(s')
    decreases |acts|
  {
    if acts != [] {
      InvKept(s, acts[0]);
      RunKeepsInv(Next(s, acts[0]), acts[1..], s');
    }
  }

  lemma ReachableInv(s: State)
    requires Reachable(s)
    ensures Inv(s)
  {
    var acts :| Run(Init, acts, s);
    RunKeepsInv(Init, acts, s);
  }

  // ----- what requesters may rely on -----

  /**
   For every interleaving of notifications and responses, a command that got a reply other than
   Failure got the one its own response deserves, whatever its place in the order of writing.
   */
  lemma ReplyMatchesResponse(s: State, k: nat)
    requires Reachable(s) && k < |s.written| && s.written[k].id in s.replies && !s.replies[s.written[k].id].Failure?
    ensures k < |s.responses| && s.replies[s.written[k].id] == Interpret(s.written[k].command, s.responses[k])
  {
    hide Interpret, ContractOf;
    ReachableInv(s);
    var j :| 0 <= j < |s.written| && s.written[j].id == s.written[k].id && Paired(s, j);
    assert j == k;
  }

  /** What is on the wire as text, the reader takes apart again: the broker gets those lines and no others. */
  lemma WireReadsBack(s: State)
    requires Reachable(s)
    ensures forall k :: 0 <= k < |s.wire| ==> Reader.WellFormed(s.wire[k])
    ensures Reader.Read(Reader.PrintAll(s.wire)).responses == Reader.ResponsesOf(s.wire)
  {
    hide Reader.WellFormed, Reader.Read, Reader.PrintAll;
    ReachableInv(s);
    Reader.ReadUndoesPrint(s.wire);
  }

  /** While it runs, every command before the outstanding one has its reply. */
  lemma EarlierCommandsAnswered(s: State, k: nat)
    requires Reachable(s) && !s.phase.Stopped? && k < |s.written| && (s.phase.Executing? ==> k < |s.written| - 1)
    ensures Paired(s, k)
  {
    ReachableInv(s);
  }

  /** The desynchronization branch of the idle broker is dead as long as OpenVPN answers in order. */
  lemma NoUnexpectedLine(s: State)
    requires Reachable(s) && s.phase.Idle?
    ensures forall k :: 0 <= k < |s.wire| ==> !s.wire[k].Response?
  {
    ReachableInv(s);
    NoResponses(s.wire);
  }

  lemma {:induction false} NoResponses(wire: seq<Reader.Item>)
    requires Reader.ResponsesOf(wire) == []
    ensures forall k :: 0 <= k < |wire| ==> !wire[k].Response?
  {
    if wire != [] {
      NoResponses(wire[1..]);
      assert forall k :: 0 < k < |wire| ==> wire[k] == wire[1..][k - 1];
    }
  }

  /** The step makes the broker stop. */
  predicate Breaks(s: State, a: Action) {
    || a.WriteFails? || a.TimeOut? || a.Cancel?
    || (a.Deliver? && s.phase.Executing? && s.wire != [] && s.wire[0].Response?
        && OnLine(s.phase.contract, s.phase.lines, s.wire[0].line) == Finished(Failure))
  }

  /**
   The broker stops exactly when a write fails, a response is late, the context ends, or a line breaks the contract
   of the outstanding command; a refused command does not stop it.
   */
  lemma StopsExactly(s: State, a: Action)
    requires Reachable(s) && !s.phase.Stopped? && Enabled(s, a)
    ensures Next(s, a).phase.Stopped? <==> Breaks(s, a)
  {
    hide ContractOf, Interpret, ProperResponse, PairedSoFar, RepliesSound, StreamWellFormed, InStep, OnLine;
    ReachableInv(s);
    if s.phase.Idle? {
      NoUnexpectedLine(s);
    }
  }

  /** The first word of a one-line answer decides: taken, refused, or out of step. */
  lemma LineDecides(line: string)
    ensures OnLine(SingleLineAck, [], line) ==
              Finished(if HasPrefix(line, "SUCCESS:") then Accepted
                       else if HasPrefix(line, "ERROR:") then Refused(line) else Failure)
    ensures HasPrefix(line, "ERROR:") ==> !HasPrefix(line, "SUCCESS:")
  {
    assert HasPrefix(line, "ERROR:") ==> line[0] == "ERROR:"[0] == 'E';
    assert HasPrefix(line, "SUCCESS:") ==> line[0] == "SUCCESS:"[0] == 'S';
  }

  /** Once stopped, the broker writes nothing and answers nobody. */
  lemma {:induction false} StopsForGood(s: State, acts: seq<Action>, s': State)
    requires s.phase.Stopped? && Run(s, acts, s')
    ensures s'.phase.Stopped? && s'.written == s.written && s'.replies == s.replies
    decreases |acts|
  {
    if acts != [] {
      StopsForGood(Next(s, acts[0]), acts[1..], s');
    }
  }

  /** `SendAck`: nil exactly for an accepted command. */
  predicate AckNil(r: Reply) {
    r.Accepted?
  }

  /** A nil acknowledgement of a decision means OpenVPN answered SUCCESS to that very command. */
  lemma AckMeansSuccess(s: State, k: nat, d: Decision)
    requires Reachable(s) && k < |s.written| && s.written[k].command == ToCommand(d)
    requires s.written[k].id in s.replies && AckNil(s.replies[s.written[k].id])
    ensures k < |s.responses| && |s.responses[k]| == 1 && HasPrefix(s.responses[k][0], "SUCCESS:")
  {
    hide ContractOf;
    ReplyMatchesResponse(s, k);
    DecisionContract(d);
  }
}
