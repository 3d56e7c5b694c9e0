/**
 The management connections of a run, one broker each. When a connection is lost its broker has stopped;
 the commands that were still waiting with the daemon go to the broker of the next connection.
 */
module Connections {
  import opened Basics
  import opened Text
  import opened Commands
  import B = Broker

  /** The broker of the live connection and those of earlier ones, as they stopped. */
  datatype State = State(past: seq<B.State>, live: B.State)

  const Init := State([], B.Init)

  datatype Action =
    | Step(b: B.Action)
    | Reconnect(lost: set<nat>)      // these waiting requests are lost with the old connection

  predicate Enabled(s: State, a: Action) {
    match a
    case Step(b) => B.Enabled(s.live, b)
    case Reconnect(_) => s.live.phase.Stopped?
  }

  /** The requests that are not lost. */
  function Kept(queue: seq<B.Request>, lost: set<nat>): (kept: seq<B.Request>)
    ensures forall r :: r in kept <==> r in queue && r.id !in lost
    ensures forall k :: 0 <= k < |kept| ==> kept[k] in queue
  {
    if queue == [] then []
    else (if queue[0].id in lost then [] else [queue[0]]) + Kept(queue[1..], lost)
  }

  function Restart(b: B.State, lost: set<nat>): B.State {
    B.Init.(queue := Kept(b.queue, lost), issued := b.issued)
  }

  function Next(s: State, a: Action): State
    requires Enabled(s, a)
  {
    match a
    case Step(b) => s.(live := B.Next(s.live, b))
    case Reconnect(lost) => State(s.past + [s.live], Restart(s.live, lost))
  }

  function Brokers(s: State): seq<B.State> {
    s.past + [s.live]
  }

  predicate AckedBy(b: B.State, id: nat) {
    id in b.replies && B.AckNil(b.replies[id])
  }

  /** The acknowledgement channel of request `id` has received nil. */
  predicate Acked(s: State, id: nat) {
    exists j :: 0 <= j < |Brokers(s)| && AckedBy(Brokers(s)[j], id)
  }

  ghost predicate Inv(s: State) {
    B.Inv(s.live) && forall j :: 0 <= j < |s.past| ==> B.Inv(s.past[j]) && s.past[j].issued <= s.live.issued
  }

  lemma {:induction false} KeptDistinct(queue: seq<B.Request>, lost: set<nat>)
    requires forall j, k :: 0 <= j < k < |queue| ==> queue[j].id != queue[k].id
    ensures forall j, k :: 0 <= j < k < |Kept(queue, lost)| ==> Kept(queue, lost)[j].id != Kept(queue, lost)[k].id
    decreases |queue|
  {
    if queue != [] {
      var rest := queue[1..];
      assert forall k :: 0 <= k < |rest| ==> rest[k] == queue[k + 1];
      KeptDistinct(rest, lost);
      forall r | r in Kept(rest, lost)
        ensures r.id != queue[0].id
      {
        assert r in rest;
      }
    }
  }

  lemma RestartKeepsInv(b: B.State, lost: set<nat>)
    requires B.Inv(b)
    ensures B.Inv(Restart(b, lost))
  {
    hide ContractOf, B.Interpret, B.ProperResponse, B.RepliesSound, B.StreamWellFormed, Kept;
    var r := Restart(b, lost);
    KeptDistinct(b.queue, lost);
    forall k | 0 <= k < |r.queue|
      ensures r.queue[k].id in b.issued && ContractOf(r.queue[k].command).Some?
    {
      assert r.queue[k] in b.queue;
    }
    EmptyStream(r);
  }

  lemma EmptyStream(r: B.State)
    requires r.wire == [] && r.outgoing == [] && r.replies == map[]
    ensures B.StreamWellFormed(r) && B.RepliesSound(r)
  {
  }

  lemma IssuedGrows(b: B.State, a: B.Action)
    requires B.Enabled(b, a)
    ensures b.issued <= B.Next(b, a).issued
  {
    hide B.OnLine, ContractOf;
  }

  lemma InvKept(s: State, a: Action)
    requires Inv(s) && Enabled(s, a)
    ensures Inv(Next(s, a))
  {
    hide B.Inv, B.Next, B.Enabled;
    match a
    case Step(b) =>
      B.InvKept(s.live, b);
      IssuedGrows(s.live, b);
    case Reconnect(lost) =>
      RestartKeepsInv(s.live, lost);
  }

  // ----- commands that were accepted -----

  /** The k-th command on this connection is request `r`, and OpenVPN answered it with one SUCCESS line. */
  ghost predicate SucceededAt(b: B.State, k: nat, r: B.Request) {
    && k < |b.written| && k < |b.responses| && b.written[k] == r
    && |b.responses[k]| == 1 && HasPrefix(b.responses[k][0], "SUCCESS:")
  }

  /** On some connection OpenVPN answered SUCCESS to this very request. */
  ghost predicate Succeeded(s: State, r: B.Request) {
    exists j, k :: 0 <= j < |Brokers(s)| && SucceededAt(Brokers(s)[j], k, r)
  }

  lemma SucceededStays(b: B.State, a: B.Action, k: nat, r: B.Request)
    requires B.Enabled(b, a) && SucceededAt(b, k, r)
    ensures SucceededAt(B.Next(b, a), k, r)
  {
    hide B.OnLine, ContractOf, B.ProperResponse, HasPrefix;
    var c := B.Next(b, a);
    assert c.written[k] == b.written[k] && c.responses[k] == b.responses[k];
  }

  lemma SucceededKept(s: State, a: Action, r: B.Request)
    requires Enabled(s, a) && Succeeded(s, r)
    ensures Succeeded(Next(s, a), r)
  {
    hide B.Next, B.Enabled, SucceededAt;
    var j, k :| 0 <= j < |Brokers(s)| && SucceededAt(Brokers(s)[j], k, r);
    var u := Next(s, a);
    if a.Step? && j == |s.past| {
      SucceededStays(s.live, a.b, k, r);
      assert Brokers(u)[j] == u.live;
    } else {
      assert Brokers(u)[j] == Brokers(s)[j];
    }
  }

  // ----- requests and the commands they carry -----

  /** If the broker knows request `id` at all, then with this command. */
  ghost predicate KnownAs(b: B.State, id: nat, command: string) {
    && (forall k :: 0 <= k < |b.queue| && b.queue[k].id == id ==> b.queue[k].command == command)
    && (forall k :: 0 <= k < |b.written| && b.written[k].id == id ==> b.written[k].command == command)
  }

  /** Request `id` is out with this command and no other. */
  ghost predicate Carries(s: State, id: nat, command: string) {
    id in s.live.issued && forall j :: 0 <= j < |Brokers(s)| ==> KnownAs(Brokers(s)[j], id, command)
  }

  lemma KnownStays(b: B.State, a: B.Action, id: nat, command: string)
    requires B.Inv(b) && B.Enabled(b, a) && id in b.issued && KnownAs(b, id, command)
    ensures KnownAs(B.Next(b, a), id, command)
  {
    hide B.Distinct, B.InStep, B.PairedSoFar, B.RepliesSound, B.StreamWellFormed, B.OnLine, ContractOf,
         B.ProperResponse;
  }

  lemma CarriesKept(s: State, a: Action, id: nat, command: string)
    requires Inv(s) && Enabled(s, a) && Carries(s, id, command)
    ensures Carries(Next(s, a), id, command)
  {
    hide B.Inv, B.Next, B.Enabled, KnownAs;
    var u := Next(s, a);
    assert Brokers(s)[|s.past|] == s.live;
    match a
    case Step(b) =>
      KnownStays(s.live, b, id, command);
      IssuedGrows(s.live, b);
      assert forall j :: 0 <= j < |s.past| ==> Brokers(u)[j] == Brokers(s)[j];
    case Reconnect(lost) =>
      RestartKnows(s.live, lost, id, command);
      assert forall j :: 0 <= j <= |s.past| ==> Brokers(u)[j] == Brokers(s)[j];
  }

  lemma RestartKnows(b: B.State, lost: set<nat>, id: nat, command: string)
    requires KnownAs(b, id, command)
    ensures KnownAs(Restart(b, lost), id, command)
  {
    var r := Restart(b, lost);
    forall k | 0 <= k < |r.queue| && r.queue[k].id == id
      ensures r.queue[k].command == command
    {
      assert r.queue[k] in b.queue;
    }
  }

  lemma UnknownIsKnownAs(b: B.State, id: nat, command: string)
    requires B.Inv(b) && id !in b.issued
    ensures KnownAs(b, id, command)
  {
    hide B.InStep, B.PairedSoFar, B.RepliesSound, B.StreamWellFormed, ContractOf;
  }

  lemma SubmitKnows(b: B.State, r: B.Request)
    requires B.Inv(b) && B.Enabled(b, B.Submit(r))
    ensures KnownAs(B.Next(b, B.Submit(r)), r.id, r.command)
  {
    hide B.InStep, B.PairedSoFar, B.RepliesSound, B.StreamWellFormed, ContractOf;
  }

  lemma SubmitCarries(s: State, r: B.Request)
    requires Inv(s) && Enabled(s, Step(B.Submit(r)))
    ensures Carries(Next(s, Step(B.Submit(r))), r.id, r.command)
  {
    hide B.Inv, KnownAs, ContractOf;
    SubmitKnows(s.live, r);
    forall j | 0 <= j < |s.past|
      ensures KnownAs(s.past[j], r.id, r.command)
    {
      UnknownIsKnownAs(s.past[j], r.id, r.command);
    }
  }

  /** A nil acknowledgement of a one-line command means SUCCESS for that very request, on whatever connection. */
  lemma AckSucceeded(s: State, r: B.Request)
    requires Inv(s) && Carries(s, r.id, r.command) && Acked(s, r.id) && ContractOf(r.command) == Some(SingleLineAck)
    ensures Succeeded(s, r)
  {
    hide B.Inv, KnownAs, ContractOf, SucceededAt;
    var j :| 0 <= j < |Brokers(s)| && AckedBy(Brokers(s)[j], r.id);
    assert KnownAs(Brokers(s)[j], r.id, r.command);
    AckSucceededOn(Brokers(s)[j], r);
    var k :| SucceededAt(Brokers(s)[j], k, r);
  }

  lemma AckSucceededOn(b: B.State, r: B.Request)
    requires B.Inv(b) && KnownAs(b, r.id, r.command) && AckedBy(b, r.id) && ContractOf(r.command) == Some(SingleLineAck)
    ensures exists k :: SucceededAt(b, k, r)
  {
    hide B.InStep, B.Distinct, B.PairedSoFar, B.StreamWellFormed, ContractOf;
    var k :| 0 <= k < |b.written| && b.written[k].id == r.id && B.Paired(b, k);
    assert SucceededAt(b, k, r);
  }

  // ----- nothing is sent that was not submitted -----

  ghost predicate SentBy(b: B.State, command: string) {
    || (exists k :: 0 <= k < |b.queue| && b.queue[k].command == command)
    || (exists k :: 0 <= k < |b.written| && b.written[k].command == command)
  }

  /** Some broker was given this command. */
  ghost predicate Sent(s: State, command: string) {
    exists j :: 0 <= j < |Brokers(s)| && SentBy(Brokers(s)[j], command)
  }

  predicate Submits(a: Action, command: string) {
    a.Step? && a.b.Submit? && a.b.request.command == command
  }

  lemma SentOn(b: B.State, a: B.Action, command: string)
    requires B.Enabled(b, a) && SentBy(B.Next(b, a), command)
    ensures SentBy(b, command) || Submits(Step(a), command)
  {
    hide B.OnLine, ContractOf, B.ProperResponse;
    var c := B.Next(b, a);
    if k :| 0 <= k < |c.queue| && c.queue[k].command == command {
      assert c.queue[k] in b.queue || (a.Submit? && c.queue[k] == a.request);
    } else {
      var k :| 0 <= k < |c.written| && c.written[k].command == command;
      assert c.written[k] in b.written || (a.Write? && c.written[k] == b.queue[a.k]);
    }
  }

  lemma SentWasSubmitted(s: State, a: Action, command: string)
    requires Enabled(s, a) && Sent(Next(s, a), command)
    ensures Sent(s, command) || Submits(a, command)
  {
    hide B.Next, B.Enabled, SentBy;
    var u := Next(s, a);
    var j :| 0 <= j < |Brokers(u)| && SentBy(Brokers(u)[j], command);
    assert Brokers(s)[|s.past|] == s.live;
    match a
    case Step(b) =>
      if j == |s.past| {
        SentOn(s.live, b, command);
      } else {
        assert Brokers(s)[j] == Brokers(u)[j];
      }
    case Reconnect(lost) =>
      if j == |s.past| + 1 {
        SentAfterRestart(s.live, lost, command);
      } else {
        assert Brokers(s)[j] == Brokers(u)[j];
      }
  }

  lemma SentAfterRestart(b: B.State, lost: set<nat>, command: string)
    requires SentBy(Restart(b, lost), command)
    ensures SentBy(b, command)
  {
    var r := Restart(b, lost);
    var k :| 0 <= k < |r.queue| && r.queue[k].command == command;
    assert r.queue[k] in b.queue;
  }
}
