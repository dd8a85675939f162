/**
 How tracker references travel (zero_franky/zmq_client.py, zero_franky/zmq_server.py): each robot's client
 pushes into a one-slot outgoing buffer shared by its trackers, the server's listener pulls from a
 one-slot incoming buffer, looks the session up and writes to its motion while the RPC thread
 registers and deregisters sessions. Only the listener's writes are modelled: a session's own policy thread
 may write to the same motion at any time.
 */
module ReferenceDelivery {
  import opened Wrappers

  // --- Data --------------------------------------------------------------------------------------

  /** A reference naming a session; `number` is its place among everything sent. */
  datatype Message = Message(number: nat, client: nat, session: nat)

  /** Where the listener thread is: waiting, holding a message, or about to write to the motion it looked up. */
  datatype Listener = Waiting | Holding(message: Message) | Found(message: Message, motion: nat)

  /**
   `outbox` and `inbox` are the buffers, `received` what the listener took in, `sessions` the registry
   (id to motion), `used` the ids ever registered and `written` the references each motion was given.
   */
  datatype Net = Net(
    sent: seq<Message>, outbox: map<nat, Message>, inbox: Option<Message>, listener: Listener, received: seq<Message>,
    sessions: map<nat, nat>, used: seq<nat>, written: map<nat, seq<Message>>)

  /** One step of some thread. `ok` is whether the message has a known kind and its reference can be built. */
  datatype Step =
    | Send(client: nat, session: nat)
    | Transfer(client: nat)
    | Receive
    | LookUp(ok: bool)
    | Write(ok: bool)
    | Register(id: nat)
    | Deregister(id: nat)

  // --- Steps ---------------------------------------------------------------------------------------

  function Start(): Net {
    Net([], map[], None, Waiting, [], map[], [], map[])
  }

  /** The newest message replaces one not yet transferred. */
  function SendStep(n: Net, client: nat, session: nat): Net {
    var m := Message(|n.sent|, client, session);
    n.(sent := n.sent + [m], outbox := n.outbox[client := m])
  }

  /** An arriving message replaces one not yet received, whoever sent it. */
  function TransferStep(n: Net, client: nat): Net {
    if client !in n.outbox then n
    else n.(inbox := Some(n.outbox[client]), outbox := n.outbox - {client})
  }

  function ReceiveStep(n: Net): Net {
    if n.listener.Waiting? && n.inbox.Some? then
      n.(listener := Holding(n.inbox.value), inbox := None, received := n.received + [n.inbox.value])
    else n
  }

  /** An unknown session raises, and the listener swallows it. */
  function LookUpStep(n: Net, ok: bool): Net {
    if !n.listener.Holding? then n
    else if ok && n.listener.message.session in n.sessions then
      n.(listener := Found(n.listener.message, n.sessions[n.listener.message.session]))
    else n.(listener := Waiting)
  }

  function Written(n: Net, motion: nat): seq<Message> {
    if motion in n.written then n.written[motion] else []
  }

  function WriteStep(n: Net, ok: bool): Net {
    if !n.listener.Found? then n
    else if ok then
      n.(listener := Waiting, written := n.written[n.listener.motion := Written(n, n.listener.motion)
          + [n.listener.message]])
    else n.(listener := Waiting)
  }

  /**
   Session ids are random and taken to be new; each session has a motion of its own, numbered in order of
   registration.
   */
  function RegisterStep(n: Net, id: nat): Net {
    if id in n.used then n
    else n.(sessions := n.sessions[id := |n.used|], used := n.used + [id])
  }

  function Apply(n: Net, step: Step): Net {
    match step
    case Send(client, session) => SendStep(n, client, session)
    case Transfer(client) => TransferStep(n, client)
    case Receive => ReceiveStep(n)
    case LookUp(ok) => LookUpStep(n, ok)
    case Write(ok) => WriteStep(n, ok)
    case Register(id) => RegisterStep(n, id)
    case Deregister(id) => n.(sessions := n.sessions - {id})
  }

  function Exec(n: Net, steps: seq<Step>): Net
    decreases |steps|
  {
    if steps == [] then n else Exec(Apply(n, steps[0]), steps[1..])
  }

  // --- Order ---------------------------------------------------------------------------------------

  predicate Sent(n: Net, m: Message) {
    m.number < |n.sent| && n.sent[m.number] == m
  }

  /** The newest message of `m`'s client that has left the client is `m`. */
  predicate Newest(n: Net, m: Message) {
    m.client in n.outbox || forall j :: m.number < j < |n.sent| ==> n.sent[j].client != m.client
  }

  predicate Buffers(n: Net) {
    && (forall c :: c in n.outbox ==> Sent(n, n.outbox[c]) && n.outbox[c].client == c)
    && (n.inbox.Some? ==> Sent(n, n.inbox.value))
    && (forall i :: 0 <= i < |n.received| ==> Sent(n, n.received[i]))
    && (forall i :: 0 <= i < |n.sent| ==> n.sent[i].number == i)
  }

  predicate OutboxIsNewest(n: Net) {
    forall c, j :: c in n.outbox && n.outbox[c].number < j < |n.sent| ==> n.sent[j].client != c
  }

  /** Messages of one client are received, wait in the inbox and wait in the outbox in the order they were sent. */
  predicate Ordered(n: Net) {
    && (forall i, j :: 0 <= i < j < |n.received| && n.received[i].client == n.received[j].client ==>
          n.received[i].number < n.received[j].number)
    && (forall i :: 0 <= i < |n.received| && n.inbox.Some? && n.received[i].client == n.inbox.value.client ==>
          n.received[i].number < n.inbox.value.number)
    && (forall i :: 0 <= i < |n.received| && n.received[i].client in n.outbox ==>
          n.received[i].number < n.outbox[n.received[i].client].number)
    && (n.inbox.Some? && n.inbox.value.client in n.outbox
        ==> n.inbox.value.number < n.outbox[n.inbox.value.client].number)
  }

  /** What arrived last is its client's newest message, unless a newer one still waits to leave. */
  predicate LastArrivalIsNewest(n: Net) {
    if n.inbox.Some? then Newest(n, n.inbox.value)
    else if n.received != [] then Newest(n, n.received[|n.received| - 1])
    else n.sent != [] ==> n.outbox != map[]
  }

  predicate DeliveryInvariant(n: Net) {
    Buffers(n) && OutboxIsNewest(n) && Ordered(n) && LastArrivalIsNewest(n)
  }

  lemma SendKeepsOrder(n: Net, client: nat, session: nat)
    requires Buffers(n) && Ordered(n)
    ensures Buffers(SendStep(n, client, session)) && Ordered(SendStep(n, client, session))
  {
  }

  lemma SendKeeps(n: Net, client: nat, session: nat)
    requires DeliveryInvariant(n)
    ensures DeliveryInvariant(SendStep(n, client, session))
  {
    SendKeepsOrder(n, client, session);
    hide Buffers, Ordered;
    assert client in SendStep(n, client, session).outbox;
  }

  lemma TransferKeeps(n: Net, client: nat)
    requires DeliveryInvariant(n)
    ensures DeliveryInvariant(TransferStep(n, client))
  {
  }

  lemma ReceiveKeepsOrder(n: Net)
    requires Buffers(n) && Ordered(n)
    ensures Buffers(ReceiveStep(n)) && Ordered(ReceiveStep(n))
  {
  }

  lemma ReceiveKeepsNewest(n: Net)
    requires OutboxIsNewest(n) && LastArrivalIsNewest(n)
    ensures OutboxIsNewest(ReceiveStep(n)) && LastArrivalIsNewest(ReceiveStep(n))
  {
  }

  lemma ReceiveKeeps(n: Net)
    requires DeliveryInvariant(n)
    ensures DeliveryInvariant(ReceiveStep(n))
  {
    hide ReceiveStep, Buffers, Ordered, OutboxIsNewest, LastArrivalIsNewest;
    ReceiveKeepsOrder(n);
    ReceiveKeepsNewest(n);
  }

  lemma SameOrder(n: Net, s: Net)
    requires Buffers(n) && Ordered(n)
    requires s.sent == n.sent && s.outbox == n.outbox && s.inbox == n.inbox && s.received == n.received
    ensures Buffers(s) && Ordered(s)
  {
  }

  lemma SameBuffers(n: Net, s: Net)
    requires DeliveryInvariant(n)
    requires s.sent == n.sent && s.outbox == n.outbox && s.inbox == n.inbox && s.received == n.received
    ensures DeliveryInvariant(s)
  {
    SameOrder(n, s);
    hide Buffers, Ordered;
  }

  lemma ApplyKeepsDelivery(n: Net, step: Step)
    requires DeliveryInvariant(n)
    ensures DeliveryInvariant(Apply(n, step))
  {
    hide DeliveryInvariant, SendStep, TransferStep, ReceiveStep;
    match step
    case Send(client, session) => SendKeeps(n, client, session);
    case Transfer(client) => TransferKeeps(n, client);
    case Receive => ReceiveKeeps(n);
    case LookUp(_) => SameBuffers(n, Apply(n, step));
    case Write(_) => SameBuffers(n, Apply(n, step));
    case Register(_) => SameBuffers(n, Apply(n, step));
    case Deregister(_) => SameBuffers(n, Apply(n, step));
  }

  lemma {:induction false} ExecKeepsDelivery(n: Net, steps: seq<Step>)
    requires DeliveryInvariant(n)
    ensures DeliveryInvariant(Exec(n, steps))
    decreases |steps|
  {
    hide Apply, DeliveryInvariant;
    if steps != [] {
      ApplyKeepsDelivery(n, steps[0]);
      ExecKeepsDelivery(Apply(n, steps[0]), steps[1..]);
    }
  }

  lemma DeliveryHolds(steps: seq<Step>)
    ensures DeliveryInvariant(Exec(Start(), steps))
  {
    hide Exec;
    ExecKeepsDelivery(Start(), steps);
  }

  /**
   Main result: of each client's messages the listener takes in a subsequence, in the order sent and each at most
   once.
   */
  lemma ReceivedInOrder(steps: seq<Step>)
    ensures
      var n := Exec(Start(), steps);
      && (forall i :: 0 <= i < |n.received| ==> Sent(n, n.received[i]))
      && (forall i, j :: 0 <= i < j < |n.received| && n.received[i].client == n.received[j].client ==>
            n.received[i].number < n.received[j].number)
  {
    ExecKeepsDelivery(Start(), steps);
  }

  // --- Quiescence ------------------------------------------------------------------------------------

  predicate Quiescent(n: Net) {
    n.outbox == map[] && n.inbox.None? && n.listener.Waiting?
  }

  /** Main result: when nothing is on its way any more, the last message taken in is the last its client sent. */
  lemma QuiescentHandlesNewest(steps: seq<Step>)
    requires Quiescent(Exec(Start(), steps)) && Exec(Start(), steps).sent != []
    ensures
      var n := Exec(Start(), steps);
      && n.received != []
      && var last := n.received[|n.received| - 1];
      Sent(n, last) && forall j :: last.number < j < |n.sent| ==> n.sent[j].client != last.client
  {
    ExecKeepsDelivery(Start(), steps);
  }

  /** What is sent in a run, as the clients and sessions of its sends. */
  function SendsOf(steps: seq<Step>): seq<(nat, nat)>
    decreases |steps|
  {
    if steps == [] then []
    else (if steps[0].Send? then [(steps[0].client, steps[0].session)] else []) + SendsOf(steps[1..])
  }

  function Labels(sent: seq<Message>): (labels: seq<(nat, nat)>)
    ensures |labels| == |sent| && forall i :: 0 <= i < |sent| ==> labels[i] == (sent[i].client, sent[i].session)
  {
    seq(|sent|, i requires 0 <= i < |sent| => (sent[i].client, sent[i].session))
  }

  lemma StepSends(n: Net, step: Step)
    ensures
      Labels(Apply(n, step).sent) == Labels(n.sent) + (if step.Send? then [(step.client, step.session)] else [])
  {
  }

  lemma {:induction false} SentIsSends(n: Net, steps: seq<Step>)
    ensures Labels(Exec(n, steps).sent) == Labels(n.sent) + SendsOf(steps)
    decreases |steps|
  {
    hide Apply;
    if steps != [] {
      StepSends(n, steps[0]);
      SentIsSends(Apply(n, steps[0]), steps[1..]);
    }
  }

  predicate Takes(n: Net, number: nat) {
    exists i :: 0 <= i < |n.received| && n.received[i].number == number
  }

  /** Every run with these sends, each a client and a session, that comes to rest takes in the `k`-th message. */
  ghost predicate AlwaysTaken(script: seq<(nat, nat)>, k: nat) {
    forall steps :: SendsOf(steps) == script && Quiescent(Exec(Start(), steps)) ==> Takes(Exec(Start(), steps), k)
  }

  predicate OneClient(script: seq<(nat, nat)>) {
    forall i, j :: 0 <= i < j < |script| ==> script[i].0 == script[j].0
  }

  /** With one client, its newest message is the last of all. */
  lemma NewestIsLast(n: Net, script: seq<(nat, nat)>, last: Message)
    requires script != [] && OneClient(script) && Labels(n.sent) == script && Sent(n, last)
    requires forall j :: last.number < j < |n.sent| ==> n.sent[j].client != last.client
    ensures last.number == |script| - 1
  {
    assert Labels(n.sent)[last.number] == (last.client, last.session);
    assert Labels(n.sent)[|n.sent| - 1].0 == last.client;
  }

  lemma LastIsTaken(script: seq<(nat, nat)>, steps: seq<Step>)
    requires script != [] && OneClient(script) && SendsOf(steps) == script && Quiescent(Exec(Start(), steps))
    ensures
      var n := Exec(Start(), steps);
      n.received != [] && n.received[|n.received| - 1].number == |script| - 1
  {
    hide Exec, SendsOf, OneClient;
    var n := Exec(Start(), steps);
    SentIsSends(Start(), steps);
    assert Labels(n.sent) == script;
    QuiescentHandlesNewest(steps);
    NewestIsLast(n, script, n.received[|n.received| - 1]);
  }

  /** All the sends of a script, with nothing in between. */
  function Sends(script: seq<(nat, nat)>): seq<Step> {
    if script == [] then [] else [Send(script[0].0, script[0].1)] + Sends(script[1..])
  }

  /** A transfer for every entry of a script; only the first for each client moves anything. */
  function Transfers(script: seq<(nat, nat)>): seq<Step> {
    if script == [] then [] else [Transfer(script[0].0)] + Transfers(script[1..])
  }

  /** Everything is sent first, and client `c`'s newest message arrives before those of the other clients. */
  function ArrivingFirst(script: seq<(nat, nat)>, c: nat): seq<Step> {
    Sends(script) + ([Transfer(c)] + (Transfers(script) + [Receive, LookUp(true)]))
  }

  lemma {:induction false} SendsOfParts(first: seq<Step>, second: seq<Step>)
    ensures SendsOf(first + second) == SendsOf(first) + SendsOf(second)
    decreases |first|
  {
    hide SendsOf;
    if first == [] {
      assert first + second == second;
      SendsOfNothing();
    } else {
      var step, rest := first[0], first[1..];
      assert first == [step] + rest && first + second == [step] + (rest + second);
      SendsOfCons(step, rest + second);
      SendsOfCons(step, rest);
      SendsOfParts(rest, second);
    }
  }

  lemma SendsOfCons(step: Step, rest: seq<Step>)
    ensures SendsOf([step] + rest) == (if step.Send? then [(step.client, step.session)] else []) + SendsOf(rest)
  {
    var steps := [step] + rest;
    assert steps[0] == step && steps[1..] == rest;
  }

  lemma {:induction false} SendsOfSends(script: seq<(nat, nat)>)
    ensures SendsOf(Sends(script)) == script
  {
    hide SendsOf;
    if script == [] {
      SendsOfNothing();
    } else {
      SendsOfSends(script[1..]);
      SendsOfCons(Send(script[0].0, script[0].1), Sends(script[1..]));
    }
  }

  lemma SendsOfNothing()
    ensures SendsOf([]) == []
  {
  }

  lemma {:induction false} TransfersSendNothing(script: seq<(nat, nat)>)
    ensures SendsOf(Transfers(script)) == []
  {
    hide SendsOf;
    if script == [] {
      SendsOfNothing();
    } else {
      TransfersSendNothing(script[1..]);
      SendsOfCons(Transfer(script[0].0), Transfers(script[1..]));
    }
  }

  lemma ScriptOfArrivingFirst(script: seq<(nat, nat)>, c: nat)
    ensures SendsOf(ArrivingFirst(script, c)) == script
  {
    var tail := Transfers(script) + [Receive, LookUp(true)];
    SendsOfSends(script);
    TransfersSendNothing(script);
    assert [Receive, LookUp(true)][1..] == [LookUp(true)] && [LookUp(true)][1..] == [];
    assert SendsOf([LookUp(true)]) == [] && SendsOf([Receive, LookUp(true)]) == [];
    SendsOfParts(Transfers(script), [Receive, LookUp(true)]);
    assert ([Transfer(c)] + tail)[1..] == tail;
    SendsOfParts(Sends(script), [Transfer(c)] + tail);
  }

  /** Nothing has left the clients yet. */
  predicate OnlySent(n: Net) {
    && n.inbox.None? && n.listener.Waiting? && n.received == [] && n.sessions == map[]
    && forall i :: 0 <= i < |n.sent| ==> n.sent[i].client in n.outbox
  }

  lemma {:induction false} SendsOnlySend(n: Net, script: seq<(nat, nat)>)
    requires OnlySent(n)
    ensures OnlySent(Exec(n, Sends(script)))
    ensures forall c :: c in Exec(n, Sends(script)).outbox ==> c in n.outbox || Names(script, c)
    decreases |script|
  {
    if script != [] {
      var t := SendStep(n, script[0].0, script[0].1);
      assert Sends(script)[1..] == Sends(script[1..]);
      SendsOnlySend(t, script[1..]);
      assert Names(script, script[0].0);
      forall c | Names(script[1..], c) ensures Names(script, c) {
        var i :| 0 <= i < |script[1..]| && script[1..][i].0 == c;
        assert script[i + 1].0 == c;
      }
    }
  }

  /** Some entry of the script is by this client. */
  predicate Names(script: seq<(nat, nat)>, c: nat) {
    exists i :: 0 <= i < |script| && script[i].0 == c
  }

  /** `t` is `n` after some transfers: what is in the inbox came out of an outbox, or has not changed. */
  predicate Transferred(n: Net, t: Net) {
    && t == n.(outbox := t.outbox, inbox := t.inbox)
    && (t.inbox == n.inbox || FromOutbox(n, t.inbox))
    && (t.outbox != n.outbox ==> FromOutbox(n, t.inbox))
  }

  predicate FromOutbox(n: Net, inbox: Option<Message>) {
    inbox.Some? && inbox.value.client in n.outbox && inbox.value == n.outbox[inbox.value.client]
  }

  lemma {:induction false} TransfersDrain(n: Net, script: seq<(nat, nat)>)
    requires forall c :: c in n.outbox ==> n.outbox[c].client == c
    ensures Transferred(n, Exec(n, Transfers(script)))
    ensures forall c :: c in Exec(n, Transfers(script)).outbox <==> c in n.outbox && !Names(script, c)
    decreases |script|
  {
    if script != [] {
      var t := TransferStep(n, script[0].0);
      assert Transfers(script)[1..] == Transfers(script[1..]);
      TransfersDrain(t, script[1..]);
      forall c ensures Names(script, c) <==> c == script[0].0 || Names(script[1..], c) {
        if Names(script[1..], c) {
          var i :| 0 <= i < |script[1..]| && script[1..][i].0 == c;
          assert script[i + 1].0 == c;
        }
      }
    }
  }

  /** The listener takes in the one message there is. */
  lemma TakesInbox(n: Net)
    requires n.inbox.Some? && n.listener.Waiting? && n.received == [] && n.sessions == map[] && n.outbox == map[]
    ensures
      var end := Exec(n, [Receive, LookUp(true)]);
      Quiescent(end) && end.received == [n.inbox.value]
  {
    assert [Receive, LookUp(true)][1..] == [LookUp(true)] && [LookUp(true)][1..] == [];
    assert Exec(n, [Receive, LookUp(true)]) == Exec(ReceiveStep(n), [LookUp(true)]);
    assert Exec(ReceiveStep(n), [LookUp(true)]) == LookUpStep(ReceiveStep(n), true);
  }

  lemma LabelOf(n: Net, script: seq<(nat, nat)>, i: nat)
    requires Labels(n.sent) == script && i < |script|
    ensures |n.sent| == |script| && n.sent[i].client == script[i].0
  {
    assert Labels(n.sent)[i] == script[i];
  }

  /** With everything sent and nothing transferred, `c`'s newest message is transferred and then the others'. */
  predicate Staged(script: seq<(nat, nat)>, c: nat, n1: Net, n2: Net, n3: Net) {
    && Labels(n1.sent) == script && OnlySent(n1) && Buffers(n1) && OutboxIsNewest(n1)
    && n2 == TransferStep(n1, c) && Transferred(n2, n3) && n3.outbox == map[]
  }

  lemma OneClientInbox(script: seq<(nat, nat)>, c: nat, n1: Net, n2: Net, n3: Net)
    requires Staged(script, c, n1, n2, n3) && Names(script, c) && OneClient(script)
    ensures n3.inbox.Some? && Sent(n3, n3.inbox.value) && n3.inbox.value.number == |script| - 1
  {
    LabelOf(n1, script, |script| - 1);
    assert forall i, j :: 0 <= i < |script| && 0 <= j < |script| ==> script[i].0 == script[j].0;
    assert n1.sent[|script| - 1].client == c;
    assert c in n1.outbox && n1.outbox[c].number == |script| - 1;
    forall d | d in n1.outbox ensures d == c {
      LabelOf(n1, script, n1.outbox[d].number);
    }
    assert n2.outbox == map[];
  }

  lemma OtherClientInbox(script: seq<(nat, nat)>, c: nat, n1: Net, n2: Net, n3: Net, i: nat)
    requires Staged(script, c, n1, n2, n3) && i < |script| && script[i].0 != c
    ensures n3.inbox.Some? && Sent(n3, n3.inbox.value) && n3.inbox.value.client != c
  {
    LabelOf(n1, script, i);
    assert script[i].0 in n1.outbox && script[i].0 in n2.outbox;
    assert n2.outbox != n3.outbox;
    hide OutboxIsNewest;
  }

  /** The three stages of the run. */
  lemma StagesOf(script: seq<(nat, nat)>, c: nat)
    ensures
      Exec(Start(), ArrivingFirst(script, c))
      == Exec(Exec(TransferStep(Exec(Start(), Sends(script)), c), Transfers(script)), [Receive, LookUp(true)])
  {
    var rest := [Transfer(c)] + (Transfers(script) + [Receive, LookUp(true)]);
    var n1 := Exec(Start(), Sends(script));
    var n2 := TransferStep(n1, c);
    assert rest[1..] == Transfers(script) + [Receive, LookUp(true)];
    assert Exec(n1, rest) == Exec(n2, Transfers(script) + [Receive, LookUp(true)]);
    hide Exec, Sends, Transfers;
    ExecInTwoParts(Start(), Sends(script), rest);
    ExecInTwoParts(n2, Transfers(script), [Receive, LookUp(true)]);
  }

  lemma AfterSends(script: seq<(nat, nat)>)
    ensures
      var n := Exec(Start(), Sends(script));
      && Labels(n.sent) == script && OnlySent(n) && Buffers(n) && OutboxIsNewest(n)
      && forall c :: c in n.outbox ==> Names(script, c)
  {
    SendsOnlySend(Start(), script);
    ExecKeepsDelivery(Start(), Sends(script));
    SendsOfSends(script);
    SentIsSends(Start(), Sends(script));
    hide Exec, OnlySent, OutboxIsNewest, Ordered, LastArrivalIsNewest, Sends, SendsOf, Names;
  }

  lemma ArrivingFirstIsStaged(script: seq<(nat, nat)>, c: nat) returns (n1: Net, n2: Net, n3: Net)
    ensures Staged(script, c, n1, n2, n3)
    ensures Exec(Start(), ArrivingFirst(script, c)) == Exec(n3, [Receive, LookUp(true)])
  {
    hide Exec, Sends, Transfers, ArrivingFirst, OnlySent, OutboxIsNewest;
    StagesOf(script, c);
    AfterSends(script);
    n1 := Exec(Start(), Sends(script));
    n2 := TransferStep(n1, c);
    n3 := Exec(n2, Transfers(script));
    TransfersDrain(n2, script);
    assert n3.outbox == map[];
  }

  /**
   A run that comes to rest having taken in one message only: client `c`'s newest when no other client sent, and
   some other client's newest otherwise.
   */
  lemma ArrivingFirstIsLost(script: seq<(nat, nat)>, c: nat)
    requires Names(script, c)
    ensures
      var end := Exec(Start(), ArrivingFirst(script, c));
      && Quiescent(end) && Labels(end.sent) == script
      && |end.received| == 1 && Sent(end, end.received[0])
      && (if OneClient(script) then end.received[0].number == |script| - 1 else end.received[0].client != c)
  {
    hide Exec, ArrivingFirst, Staged, OneClient;
    var n1, n2, n3 := ArrivingFirstIsStaged(script, c);
    StagedInbox(script, c, n1, n2, n3);
    StagedIsReady(script, c, n1, n2, n3);
    TakesInbox(n3);
    LastStepsSendNothing(n3);
  }

  lemma StagedInbox(script: seq<(nat, nat)>, c: nat, n1: Net, n2: Net, n3: Net)
    requires Staged(script, c, n1, n2, n3) && Names(script, c)
    ensures n3.inbox.Some? && Sent(n3, n3.inbox.value)
    ensures if OneClient(script) then n3.inbox.value.number == |script| - 1 else n3.inbox.value.client != c
  {
    if OneClient(script) {
      OneClientInbox(script, c, n1, n2, n3);
    } else {
      var a, b :| 0 <= a < b < |script| && script[a].0 != script[b].0;
      hide Staged;
      OtherClientInbox(script, c, n1, n2, n3, if script[a].0 != c then a else b);
    }
  }

  lemma StagedIsReady(script: seq<(nat, nat)>, c: nat, n1: Net, n2: Net, n3: Net)
    requires Staged(script, c, n1, n2, n3)
    ensures n3.listener.Waiting? && n3.received == [] && n3.sessions == map[] && n3.outbox == map[]
        && Labels(n3.sent) == script
  {
    hide OutboxIsNewest, Buffers;
  }

  lemma LastStepsSendNothing(n: Net)
    ensures Exec(n, [Receive, LookUp(true)]).sent == n.sent
  {
    assert [Receive, LookUp(true)][1..] == [LookUp(true)] && [LookUp(true)][1..] == [];
    assert Exec(n, [Receive, LookUp(true)]) == Exec(ReceiveStep(n), [LookUp(true)]);
    assert Exec(ReceiveStep(n), [LookUp(true)]) == LookUpStep(ReceiveStep(n), true);
  }

  lemma OthersCanBeLost(script: seq<(nat, nat)>, k: nat)
    requires k < |script| && !(k == |script| - 1 && OneClient(script))
    ensures
      var end := Exec(Start(), ArrivingFirst(script, script[k].0));
      Quiescent(end) && !Takes(end, k)
  {
    hide Exec, ArrivingFirst;
    var c := script[k].0;
    assert Names(script, c);
    ArrivingFirstIsLost(script, c);
    var end := Exec(Start(), ArrivingFirst(script, c));
    assert Labels(end.sent)[k].0 == end.sent[k].client;
  }

  /**
   Main result: whatever clients send, in every run that comes to rest a message is taken in exactly when it is
   the last of all and no other client sent anything. When trackers share a socket, or robots a server, the last
   reference of one can be lost to another's.
   */
  lemma OnlyTheLastIsSure(script: seq<(nat, nat)>, k: nat)
    requires k < |script|
    ensures AlwaysTaken(script, k) <==> k == |script| - 1 && OneClient(script)
  {
    hide Exec, SendsOf, ArrivingFirst, Quiescent, OneClient;
    if k == |script| - 1 && OneClient(script) {
      forall steps | SendsOf(steps) == script && Quiescent(Exec(Start(), steps))
          ensures Takes(Exec(Start(), steps), k) {
        LastIsTaken(script, steps);
      }
    } else {
      OthersCanBeLost(script, k);
      ScriptOfArrivingFirst(script, script[k].0);
    }
  }

  // --- Which motion an update reaches -----------------------------------------------------------------

  /** Motions belong to the id they were registered under, and are given only references naming it. */
  predicate Addressed(n: Net) {
    && (forall id :: id in n.sessions ==> n.sessions[id] < |n.used| && n.used[n.sessions[id]] == id)
    && (n.listener.Found? ==> n.listener.motion < |n.used| && n.used[n.listener.motion] == n.listener.message.session)
    && (forall motion :: motion in n.written ==> motion < |n.used| && AllName(n.written[motion], n.used[motion]))
    && (forall i, j :: 0 <= i < j < |n.used| ==> n.used[i] != n.used[j])
  }

  predicate AllName(written: seq<Message>, id: nat) {
    forall i :: 0 <= i < |written| ==> written[i].session == id
  }

  lemma WriteKeepsAddressed(n: Net, ok: bool)
    requires Addressed(n)
    ensures Addressed(WriteStep(n, ok))
  {
  }

  lemma RegisterKeepsAddressed(n: Net, id: nat)
    requires Addressed(n)
    ensures Addressed(RegisterStep(n, id)) && n.used <= RegisterStep(n, id).used
  {
  }

  lemma ApplyKeepsAddressed(n: Net, step: Step)
    requires Addressed(n)
    ensures Addressed(Apply(n, step)) && n.used <= Apply(n, step).used
  {
    match step
    case Write(ok) => WriteKeepsAddressed(n, ok); hide Addressed;
    case Register(id) => RegisterKeepsAddressed(n, id); hide Addressed, RegisterStep;
    case Send(_, _) => hide AllName;
    case Transfer(_) => hide AllName;
    case Receive => hide AllName;
    case LookUp(_) => hide AllName;
    case Deregister(_) => hide AllName;
  }

  lemma {:induction false} ExecKeepsAddressed(n: Net, steps: seq<Step>)
    requires Addressed(n)
    ensures Addressed(Exec(n, steps)) && n.used <= Exec(n, steps).used
    decreases |steps|
  {
    hide Apply, Addressed;
    if steps != [] {
      ApplyKeepsAddressed(n, steps[0]);
      ExecKeepsAddressed(Apply(n, steps[0]), steps[1..]);
    }
  }

  /** Main result: the listener only ever gives a motion references that name the session it was registered for. */
  lemma UpdatesReachTheNamedSession(steps: seq<Step>, motion: nat)
    ensures
      var n := Exec(Start(), steps);
      motion in n.written ==> motion < |n.used| && AllName(n.written[motion], n.used[motion])
  {
    ExecKeepsAddressed(Start(), steps);
  }

  /** The update the listener has already looked up for this motion, if any. */
  function Pending(n: Net, motion: nat): nat {
    if n.listener.Found? && n.listener.motion == motion then 1 else 0
  }

  predicate Withdrawn(n: Net, motion: nat) {
    motion < |n.used| && n.used[motion] !in n.sessions
  }

  lemma ApplyKeepsWithdrawn(n: Net, step: Step, motion: nat)
    requires Addressed(n) && Withdrawn(n, motion)
    ensures
      var s := Apply(n, step);
      && Withdrawn(s, motion)
      && |Written(n, motion)| <= |Written(s, motion)|
      && |Written(s, motion)| + Pending(s, motion) <= |Written(n, motion)| + Pending(n, motion)
  {
  }

  lemma {:induction false} ExecKeepsWithdrawn(n: Net, steps: seq<Step>, motion: nat)
    requires Addressed(n) && Withdrawn(n, motion)
    ensures
      var s := Exec(n, steps);
      |Written(n, motion)| <= |Written(s, motion)| <= |Written(n, motion)| + Pending(n, motion)
    decreases |steps|
  {
    hide Apply, Addressed, Withdrawn, Written, Pending;
    if steps != [] {
      ApplyKeepsAddressed(n, steps[0]);
      ApplyKeepsWithdrawn(n, steps[0], motion);
      ExecKeepsWithdrawn(Apply(n, steps[0]), steps[1..], motion);
    }
  }

  /**
   Main result: once a session is deregistered at most one more update from the listener reaches its motion, and
   none at all unless the listener had looked it up already; that one still lands if it can be built.
   */
  lemma AtMostOneLateUpdate(before: seq<Step>, id: nat, later: seq<Step>)
    requires id in Exec(Start(), before).sessions
    ensures
      var n := Exec(Start(), before);
      var motion := n.sessions[id];
      var late := |Written(Exec(Apply(n, Deregister(id)), later), motion)| - |Written(n, motion)|;
      && 0 <= late <= Pending(n, motion)
      && (Pending(n, motion) == 1 ==>
            |Written(Apply(Apply(n, Deregister(id)), Write(true)), motion)| == |Written(n, motion)| + 1)
  {
    ExecKeepsAddressed(Start(), before);
    var n := Exec(Start(), before);
    hide Exec;
    ApplyKeepsAddressed(n, Deregister(id));
    ExecKeepsWithdrawn(Apply(n, Deregister(id)), later, n.sessions[id]);
  }

  // --- What a motion is given ---------------------------------------------------------------------------

  /** The listener holds what it received last. */
  predicate HoldsLast(n: Net) {
    n.listener.Waiting? || (n.received != [] && n.listener.message == n.received[|n.received| - 1])
  }

  /** `m` was sent before whatever of its client is still being handled or on its way. */
  predicate Past(n: Net, m: Message) {
    && m.number < |n.sent|
    && (!n.listener.Waiting? && n.listener.message.client == m.client ==> m.number < n.listener.message.number)
    && (n.inbox.Some? && n.inbox.value.client == m.client ==> m.number < n.inbox.value.number)
    && (m.client in n.outbox ==> m.number < n.outbox[m.client].number)
  }

  predicate InOrder(written: seq<Message>) {
    forall i, j :: 0 <= i < j < |written| && written[i].client == written[j].client
        ==> written[i].number < written[j].number
  }

  predicate AllPast(n: Net, written: seq<Message>) {
    forall i :: 0 <= i < |written| ==> Past(n, written[i])
  }

  predicate WritingInvariant(n: Net) {
    && HoldsLast(n)
    && forall motion :: motion in n.written ==> InOrder(n.written[motion]) && AllPast(n, n.written[motion])
  }

  lemma PastAfterReceive(n: Net, m: Message)
    requires Buffers(n) && Ordered(n) && Past(n, m)
    ensures Past(ReceiveStep(n), m)
  {
  }

  lemma PastKept(n: Net, step: Step, m: Message)
    requires DeliveryInvariant(n) && HoldsLast(n) && Past(n, m)
    ensures Past(Apply(n, step), m)
  {
    match step
    case Send(_, _) => hide DeliveryInvariant, HoldsLast;
    case Transfer(_) => hide OutboxIsNewest, LastArrivalIsNewest, HoldsLast, Ordered;
    case Receive => PastAfterReceive(n, m); hide Past, ReceiveStep, Buffers, Ordered, HoldsLast;
    case LookUp(_) => hide DeliveryInvariant, HoldsLast;
    case Write(_) => hide DeliveryInvariant, HoldsLast;
    case Register(_) => hide DeliveryInvariant, HoldsLast;
    case Deregister(_) => hide DeliveryInvariant, HoldsLast;
  }

  /** Once written, the message the listener held is past. */
  lemma HeldBecomesPast(n: Net, ok: bool)
    requires DeliveryInvariant(n) && HoldsLast(n) && n.listener.Found?
    ensures Past(WriteStep(n, ok), n.listener.message)
  {
    hide OutboxIsNewest, LastArrivalIsNewest;
    var last := n.received[|n.received| - 1];
    assert Sent(n, last);
  }

  lemma AllPastKept(n: Net, step: Step, written: seq<Message>)
    requires DeliveryInvariant(n) && HoldsLast(n) && AllPast(n, written)
    ensures AllPast(Apply(n, step), written)
  {
    hide DeliveryInvariant, Past, Apply, HoldsLast;
    forall i | 0 <= i < |written| ensures Past(Apply(n, step), written[i]) {
      PastKept(n, step, written[i]);
    }
  }

  lemma HoldsLastKept(n: Net, step: Step)
    requires HoldsLast(n)
    ensures HoldsLast(Apply(n, step))
  {
  }

  lemma ApplyKeepsWriting(n: Net, step: Step)
    requires DeliveryInvariant(n) && WritingInvariant(n)
    ensures WritingInvariant(Apply(n, step))
  {
    var t := Apply(n, step);
    HoldsLastKept(n, step);
    forall motion | motion in n.written ensures AllPast(t, n.written[motion]) {
      AllPastKept(n, step, n.written[motion]);
    }
    if step.Write? && n.listener.Found? {
      HeldBecomesPast(n, step.ok);
      WriteKeepsOrder(n, step.ok);
    } else {
      SameWritten(n, step);
      hide Apply, AllPast, InOrder, HoldsLast;
    }
  }

  lemma SameWritten(n: Net, step: Step)
    requires !(step.Write? && n.listener.Found?)
    ensures Apply(n, step).written == n.written
  {
  }

  lemma WriteKeepsOrder(n: Net, ok: bool)
    requires n.listener.Found? && WritingInvariant(n) && Past(WriteStep(n, ok), n.listener.message)
    requires forall motion :: motion in n.written ==> AllPast(WriteStep(n, ok), n.written[motion])
    ensures
      forall motion :: motion in WriteStep(n, ok).written ==>
        InOrder(WriteStep(n, ok).written[motion]) && AllPast(WriteStep(n, ok), WriteStep(n, ok).written[motion])
  {
    var t, m := WriteStep(n, ok), n.listener.message;
    AppendInOrder(n, Written(n, n.listener.motion), m);
    forall motion | motion in t.written ensures InOrder(t.written[motion]) && AllPast(t, t.written[motion]) {
      if ok && motion == n.listener.motion {
        assert t.written[motion] == Written(n, motion) + [m];
      } else {
        assert t.written[motion] == n.written[motion];
      }
    }
  }

  lemma AppendInOrder(n: Net, written: seq<Message>, m: Message)
    requires InOrder(written) && AllPast(n, written) && n.listener.Found? && n.listener.message == m
    ensures InOrder(written + [m])
  {
  }

  lemma {:induction false} ExecKeepsWriting(n: Net, steps: seq<Step>)
    requires DeliveryInvariant(n) && WritingInvariant(n)
    ensures WritingInvariant(Exec(n, steps))
    decreases |steps|
  {
    hide Apply, DeliveryInvariant, WritingInvariant;
    if steps != [] {
      ApplyKeepsDelivery(n, steps[0]);
      ApplyKeepsWriting(n, steps[0]);
      ExecKeepsWriting(Apply(n, steps[0]), steps[1..]);
    }
  }

  /** Main result: the listener never gives a motion two references of one client out of order, nor one twice. */
  lemma WrittenInOrder(steps: seq<Step>, motion: nat)
    ensures motion in Exec(Start(), steps).written ==> InOrder(Exec(Start(), steps).written[motion])
  {
    ExecKeepsWriting(Start(), steps);
  }

  // --- The last reference arrives -------------------------------------------------------------------------

  /** Only sends to known sessions and steps that succeed, with the registry left alone. */
  predicate Smooth(n: Net, steps: seq<Step>) {
    forall i :: 0 <= i < |steps| ==>
      && !steps[i].Register? && !steps[i].Deregister?
      && (steps[i].Send? ==> steps[i].session in n.sessions)
      && (steps[i].LookUp? || steps[i].Write? ==> steps[i].ok)
  }

  predicate LastWritten(n: Net, m: Message) {
    && m.session in n.sessions
    && var written := Written(n, n.sessions[m.session]);
    written != [] && written[|written| - 1] == m
  }

  predicate ArrivalInvariant(n: Net) {
    && (forall i :: 0 <= i < |n.sent| ==> n.sent[i].session in n.sessions)
    && HoldsLast(n)
    && (n.listener.Found? ==>
          n.listener.message.session in n.sessions && n.listener.motion == n.sessions[n.listener.message.session])
    && (n.listener.Waiting? && n.received != [] ==> LastWritten(n, n.received[|n.received| - 1]))
  }

  lemma ApplyKeepsArrival(n: Net, step: Step)
    requires Buffers(n) && ArrivalInvariant(n) && Smooth(n, [step])
    ensures ArrivalInvariant(Apply(n, step)) && Apply(n, step).sessions == n.sessions
  {
    assert [step][0] == step;
    if n.listener.Holding? {
      assert Sent(n, n.received[|n.received| - 1]);
    }
  }

  lemma {:induction false} ExecKeepsArrival(n: Net, steps: seq<Step>)
    requires DeliveryInvariant(n) && ArrivalInvariant(n) && Smooth(n, steps)
    ensures ArrivalInvariant(Exec(n, steps))
    decreases |steps|
  {
    hide Apply, ArrivalInvariant, OutboxIsNewest, Ordered, LastArrivalIsNewest, Buffers;
    if steps != [] {
      assert Smooth(n, [steps[0]]);
      ApplyKeepsDelivery(n, steps[0]);
      ApplyKeepsArrival(n, steps[0]);
      ExecKeepsArrival(Apply(n, steps[0]), steps[1..]);
    }
  }

  lemma {:induction false} ExecInTwoParts(n: Net, first: seq<Step>, second: seq<Step>)
    ensures Exec(n, first + second) == Exec(Exec(n, first), second)
    decreases |first|
  {
    if first == [] {
      assert first + second == second;
    } else {
      assert (first + second)[1..] == first[1..] + second;
      ExecInTwoParts(Apply(n, first[0]), first[1..], second);
    }
  }

  /**
   Main result: if sessions are registered first and nothing fails, then whenever all has come to rest the
   last message taken in, which is the last its client sent, is the last thing the listener gave its session's motion.
   */
  lemma LastReferenceArrives(setup: seq<Step>, steps: seq<Step>)
    requires forall i :: 0 <= i < |setup| ==> setup[i].Register?
    requires Smooth(Exec(Start(), setup), steps)
    requires Quiescent(Exec(Start(), setup + steps)) && Exec(Start(), setup + steps).sent != []
    ensures
      var n := Exec(Start(), setup + steps);
      && n.received != []
      && LastWritten(n, n.received[|n.received| - 1])
      && forall j :: n.received[|n.received| - 1].number < j < |n.sent|
          ==> n.sent[j].client != n.received[|n.received| - 1].client
  {
    hide Exec, Smooth, Buffers, OutboxIsNewest, Ordered, LastArrivalIsNewest, LastWritten;
    SetupIsReady(setup);
    ExecKeepsArrival(Exec(Start(), setup), steps);
    ExecInTwoParts(Start(), setup, steps);
    QuiescentHandlesNewest(setup + steps);
  }

  lemma SetupIsReady(setup: seq<Step>)
    requires forall i :: 0 <= i < |setup| ==> setup[i].Register?
    ensures DeliveryInvariant(Exec(Start(), setup)) && ArrivalInvariant(Exec(Start(), setup))
  {
    hide Exec;
    SetupOnlyRegisters(Start(), setup);
    DeliveryHolds(setup);
    hide DeliveryInvariant;
  }

  lemma {:induction false} SetupOnlyRegisters(n: Net, setup: seq<Step>)
    requires forall i :: 0 <= i < |setup| ==> setup[i].Register?
    requires n.sent == [] && n.received == [] && n.listener.Waiting?
    ensures var t := Exec(n, setup); t.sent == [] && t.received == [] && t.listener.Waiting?
    decreases |setup|
  {
    if setup != [] {
      SetupOnlyRegisters(Apply(n, setup[0]), setup[1..]);
    }
  }

  // --- What the listener does with one message ------------------------------------------------------------------

  /** Nothing in these steps is the listener's. */
  predicate NotListener(steps: seq<Step>) {
    forall i :: 0 <= i < |steps| ==> !steps[i].Receive? && !steps[i].LookUp? && !steps[i].Write?
  }

  lemma {:induction false} OthersLeaveListener(n: Net, steps: seq<Step>)
    requires NotListener(steps)
    ensures
      var t := Exec(n, steps);
      t.listener == n.listener && t.written == n.written && t.received == n.received
    decreases |steps|
  {
    if steps != [] {
      assert !steps[0].Receive? && !steps[0].LookUp? && !steps[0].Write?;
      OthersLeaveListener(Apply(n, steps[0]), steps[1..]);
    }
  }

  /** The listener's three steps, with anything that others do in between. */
  function Handling(first: seq<Step>, found: bool, second: seq<Step>, wrote: bool): seq<Step> {
    ([Receive] + first) + ([LookUp(found)] + (second + [Write(wrote)]))
  }

  /**
   Main result: a listener that waits takes in what is in the buffer. It gives it to the motion of the session named,
   last, if the message is in order, the session is registered when it is looked up and the write succeeds; in any
   other case it gives nothing to any motion. Then it waits again.
   */
  lemma HandlesOne(n: Net, first: seq<Step>, found: bool, second: seq<Step>, wrote: bool)
    requires n.listener.Waiting? && n.inbox.Some? && NotListener(first) && NotListener(second)
    ensures
      var (m, sessions) := (n.inbox.value, Exec(n, [Receive] + first).sessions);
      var end := Exec(n, Handling(first, found, second, wrote));
      && end.listener.Waiting? && end.received == n.received + [m]
      && end.written ==
         if found && m.session in sessions && wrote then
           var motion := sessions[m.session];
           n.written[motion := (if motion in n.written then n.written[motion] else []) + [m]]
         else n.written
  {
    var m := n.inbox.value;
    assert ([Receive] + first)[1..] == first;
    assert Exec(n, [Receive] + first) == Exec(ReceiveStep(n), first);
    OthersLeaveListener(ReceiveStep(n), first);
    var n1 := Exec(n, [Receive] + first);
    var tail := second + [Write(wrote)];
    assert ([LookUp(found)] + tail)[1..] == tail;
    var n2 := LookUpStep(n1, found);
    assert Exec(n1, [LookUp(found)] + tail) == Exec(n2, tail);
    OthersLeaveListener(n2, second);
    var n3 := Exec(n2, second);
    assert [Write(wrote)][1..] == [];
    assert Exec(n3, [Write(wrote)]) == WriteStep(n3, wrote);
    hide Exec;
    ExecInTwoParts(n, [Receive] + first, [LookUp(found)] + tail);
    ExecInTwoParts(n2, second, [Write(wrote)]);
  }

  // --- Which sessions are registered ----------------------------------------------------------------------------

  /** The id was registered in these steps and has not been deregistered since. */
  predicate Registered(steps: seq<Step>, id: nat) {
    steps != []
    && var (before, last) := (steps[..|steps| - 1], steps[|steps| - 1]);
    last != Deregister(id) && ((last == Register(id) && Register(id) !in before) || Registered(before, id))
  }

  lemma ExecLast(n: Net, steps: seq<Step>)
    requires steps != []
    ensures Exec(n, steps) == Apply(Exec(n, steps[..|steps| - 1]), steps[|steps| - 1])
  {
    hide Apply;
    var before, last := steps[..|steps| - 1], steps[|steps| - 1];
    assert steps == before + [last] && [last][1..] == [];
    ExecInTwoParts(n, before, [last]);
    var t := Apply(Exec(n, before), last);
    assert Exec(t, []) == t;
  }

  lemma StepRegisters(n: Net, step: Step, id: nat)
    ensures id in Apply(n, step).used <==> id in n.used || step == Register(id)
    ensures
      id in Apply(n, step).sessions
      <==> step != Deregister(id) && ((step == Register(id) && id !in n.used) || id in n.sessions)
  {
  }

  /** Main result: after any run exactly the sessions registered and not deregistered since can be looked up. */
  lemma {:induction false} RegisteredIff(steps: seq<Step>, id: nat)
    ensures id in Exec(Start(), steps).used <==> Register(id) in steps
    ensures id in Exec(Start(), steps).sessions <==> Registered(steps, id)
    decreases |steps|
  {
    hide Exec, Apply;
    if steps == [] {
      NothingRegistered();
    } else {
      var before, last := steps[..|steps| - 1], steps[|steps| - 1];
      RegisteredIff(before, id);
      ExecLast(Start(), steps);
      StepRegisters(Exec(Start(), before), last, id);
      assert steps == before + [last];
    }
  }

  lemma NothingRegistered()
    ensures Exec(Start(), []) == Start()
  {
  }
}
