/**
 How tracker references travel (zero_franky/zmq_client.py, zero_franky/zmq_server.py) when the server's socket
 keeps one slot for each connected client, as libzmq's own pipes do, instead of one for all of them. What is sent
 is given by its client, and named by its place among everything sent.
 */
module PerClientDelivery {

  // --- The network ---------------------------------------------------------------------------------

  /** `sent` holds the client of each message; the slots are by client. */
  datatype Net = Net(sent: seq<nat>, outbox: map<nat, nat>, inbox: map<nat, nat>, received: seq<nat>)

  /** The listener takes from any client's slot that is full. */
  datatype Step = Send(client: nat) | Transfer(client: nat) | Receive(client: nat)

  function Start(): Net {
    Net([], map[], map[], [])
  }

  function Apply(n: Net, step: Step): Net {
    match step
    case Send(c) => n.(sent := n.sent + [c], outbox := n.outbox[c := |n.sent|])
    case Transfer(c) =>
      if c in n.outbox then n.(inbox := n.inbox[c := n.outbox[c]], outbox := n.outbox - {c}) else n
    case Receive(c) =>
      if c in n.inbox then n.(received := n.received + [n.inbox[c]], inbox := n.inbox - {c}) else n
  }

  function Exec(n: Net, steps: seq<Step>): Net
    decreases |steps|
  {
    if steps == [] then n else Exec(Apply(n, steps[0]), steps[1..])
  }

  predicate Quiescent(n: Net) {
    n.outbox == map[] && n.inbox == map[]
  }

  predicate Takes(n: Net, k: nat) {
    k in n.received
  }

  /** Every run that sends these messages and comes to rest takes in the `k`-th. */
  ghost predicate AlwaysTaken(script: seq<nat>, k: nat) {
    forall steps :: Exec(Start(), steps).sent == script && Quiescent(Exec(Start(), steps)) ==>
        Takes(Exec(Start(), steps), k)
  }

  /** The `k`-th message is the last of its own client. */
  predicate LastOfClient(sent: seq<nat>, k: nat) {
    k < |sent| && forall j :: k < j < |sent| ==> sent[j] != sent[k]
  }

  // --- The last of each client is kept -----------------------------------------------------------------

  predicate OutboxHoldsLast(n: Net) {
    forall c :: c in n.outbox ==> LastOfClient(n.sent, n.outbox[c]) && n.sent[n.outbox[c]] == c
  }

  predicate InboxIsAddressed(n: Net) {
    forall c :: c in n.inbox ==> n.inbox[c] < |n.sent| && n.sent[n.inbox[c]] == c
  }

  /** The message waits at its client, or at the server, or was taken in. */
  predicate Kept(n: Net, k: nat)
    requires k < |n.sent|
  {
    var c := n.sent[k];
    || (c in n.outbox && n.outbox[c] == k)
    || (c in n.inbox && n.inbox[c] == k)
    || k in n.received
  }

  predicate LastsAreKept(n: Net) {
    forall k :: 0 <= k < |n.sent| && LastOfClient(n.sent, k) ==> Kept(n, k)
  }

  predicate Delivers(n: Net) {
    OutboxHoldsLast(n) && InboxIsAddressed(n) && LastsAreKept(n)
  }

  lemma LastIsUnique(sent: seq<nat>, j: nat, k: nat)
    requires LastOfClient(sent, j) && LastOfClient(sent, k) && sent[j] == sent[k]
    ensures j == k
  {
  }

  lemma StillLast(sent: seq<nat>, c: nat, k: nat)
    ensures LastOfClient(sent + [c], k) <==> k == |sent| || (LastOfClient(sent, k) && sent[k] != c)
  {
    if LastOfClient(sent + [c], k) && k < |sent| {
      assert (sent + [c])[|sent|] == c;
      forall j | k < j < |sent| ensures sent[j] != sent[k] {
        assert (sent + [c])[j] == sent[j];
      }
    }
  }

  lemma SendDelivers(n: Net, c: nat)
    requires Delivers(n)
    ensures Delivers(Apply(n, Send(c)))
  {
    var t := Apply(n, Send(c));
    forall k: nat ensures LastOfClient(t.sent, k) <==> k == |n.sent| || (LastOfClient(n.sent, k) && n.sent[k] != c) {
      StillLast(n.sent, c, k);
    }
    hide LastOfClient;
  }

  lemma TransferDelivers(n: Net, c: nat)
    requires Delivers(n)
    ensures Delivers(Apply(n, Transfer(c)))
  {
    if c in n.outbox {
      forall k: nat | LastOfClient(n.sent, k) && n.sent[k] == c ensures k == n.outbox[c] {
        LastIsUnique(n.sent, k, n.outbox[c]);
      }
    }
    hide LastOfClient;
  }

  lemma ReceiveDelivers(n: Net, c: nat)
    requires Delivers(n)
    ensures Delivers(Apply(n, Receive(c)))
  {
    hide LastOfClient;
  }

  lemma ApplyDelivers(n: Net, step: Step)
    requires Delivers(n)
    ensures Delivers(Apply(n, step))
  {
    hide Apply, Delivers;
    match step
    case Send(c) => SendDelivers(n, c);
    case Transfer(c) => TransferDelivers(n, c);
    case Receive(c) => ReceiveDelivers(n, c);
  }

  lemma {:induction false} ExecDelivers(n: Net, steps: seq<Step>)
    requires Delivers(n)
    ensures Delivers(Exec(n, steps))
    decreases |steps|
  {
    hide Apply, Delivers;
    if steps != [] {
      ApplyDelivers(n, steps[0]);
      ExecDelivers(Apply(n, steps[0]), steps[1..]);
    }
  }

  lemma LastIsTaken(steps: seq<Step>, k: nat)
    requires Quiescent(Exec(Start(), steps)) && LastOfClient(Exec(Start(), steps).sent, k)
    ensures Takes(Exec(Start(), steps), k)
  {
    hide Exec;
    ExecDelivers(Start(), steps);
  }

  // --- The others can be lost ----------------------------------------------------------------------------

  /** Everything that has left a client, or waits there, is its last. */
  predicate OnlyLasts(n: Net) {
    && OutboxHoldsLast(n)
    && (forall c :: c in n.inbox ==> LastOfClient(n.sent, n.inbox[c]))
    && (forall k :: k in n.received ==> LastOfClient(n.sent, k))
  }

  lemma MovesKeepLasts(n: Net, step: Step)
    requires OnlyLasts(n) && !step.Send?
    ensures OnlyLasts(Apply(n, step)) && Apply(n, step).sent == n.sent
  {
    hide LastOfClient;
  }

  lemma {:induction false} ExecKeepsLasts(n: Net, steps: seq<Step>)
    requires OnlyLasts(n) && forall i :: 0 <= i < |steps| ==> !steps[i].Send?
    ensures OnlyLasts(Exec(n, steps)) && Exec(n, steps).sent == n.sent
    decreases |steps|
  {
    hide Apply, OnlyLasts;
    if steps != [] {
      MovesKeepLasts(n, steps[0]);
      ExecKeepsLasts(Apply(n, steps[0]), steps[1..]);
    }
  }

  function Sends(clients: seq<nat>): (steps: seq<Step>)
    ensures |steps| == |clients| && forall i :: 0 <= i < |steps| ==> steps[i] == Send(clients[i])
  {
    seq(|clients|, i requires 0 <= i < |clients| => Send(clients[i]))
  }

  function Transfers(clients: seq<nat>): (steps: seq<Step>)
    ensures |steps| == |clients| && forall i :: 0 <= i < |steps| ==> steps[i] == Transfer(clients[i])
  {
    seq(|clients|, i requires 0 <= i < |clients| => Transfer(clients[i]))
  }

  function Receives(clients: seq<nat>): (steps: seq<Step>)
    ensures |steps| == |clients| && forall i :: 0 <= i < |steps| ==> steps[i] == Receive(clients[i])
  {
    seq(|clients|, i requires 0 <= i < |clients| => Receive(clients[i]))
  }

  /** Nothing has left the clients, and only clients that have sent hold anything. */
  predicate Unmoved(n: Net) {
    n.inbox == map[] && n.received == [] && OutboxHoldsLast(n)
  }

  lemma {:induction false} SendsOnlySend(n: Net, clients: seq<nat>)
    requires Unmoved(n)
    ensures Unmoved(Exec(n, Sends(clients))) && Exec(n, Sends(clients)).sent == n.sent + clients
    decreases |clients|
  {
    if clients == [] {
      assert n.sent + clients == n.sent;
    } else {
      var c, rest := clients[0], clients[1..];
      var t := Apply(n, Send(c));
      forall k: nat ensures LastOfClient(t.sent, k) <==> k == |n.sent| || (LastOfClient(n.sent, k) && n.sent[k] != c) {
        StillLast(n.sent, c, k);
      }
      hide LastOfClient;
      assert Sends(clients)[1..] == Sends(rest);
      SendsOnlySend(t, rest);
      assert n.sent + clients == t.sent + rest;
    }
  }

  lemma {:induction false} TransfersDrain(n: Net, clients: seq<nat>)
    requires forall c :: c in n.outbox ==> c in clients
    ensures
      var t := Exec(n, Transfers(clients));
      t.outbox == map[] && forall c :: c in t.inbox ==> c in n.inbox || c in n.outbox
    decreases |clients|
  {
    if clients != [] {
      assert Transfers(clients)[1..] == Transfers(clients[1..]);
      TransfersDrain(Apply(n, Transfer(clients[0])), clients[1..]);
    }
  }

  lemma {:induction false} ReceivesDrain(n: Net, clients: seq<nat>)
    requires n.outbox == map[] && forall c :: c in n.inbox ==> c in clients
    ensures Quiescent(Exec(n, Receives(clients)))
    decreases |clients|
  {
    if clients != [] {
      assert Receives(clients)[1..] == Receives(clients[1..]);
      ReceivesDrain(Apply(n, Receive(clients[0])), clients[1..]);
    }
  }

  lemma {:induction false} ExecInTwoParts(n: Net, first: seq<Step>, second: seq<Step>)
    ensures Exec(n, first + second) == Exec(Exec(n, first), second)
    decreases |first|
  {
    hide Apply;
    if first == [] {
      assert first + second == second;
    } else {
      assert (first + second)[1..] == first[1..] + second;
      ExecInTwoParts(Apply(n, first[0]), first[1..], second);
    }
  }

  /** All is sent, then all transferred, then all received. */
  function InTurn(script: seq<nat>): seq<Step> {
    Sends(script) + (Transfers(script) + Receives(script))
  }

  lemma InTurnTakesLasts(script: seq<nat>)
    ensures
      var end := Exec(Start(), InTurn(script));
      end.sent == script && Quiescent(end) && forall k :: k in end.received ==> LastOfClient(script, k)
  {
    hide Exec, LastOfClient;
    var sent := Exec(Start(), Sends(script));
    var moved := Exec(sent, Transfers(script));
    SendsOnlySend(Start(), script);
    assert sent.sent == script;
    forall c | c in sent.outbox ensures c in script {
      OutboxIsSent(sent, c);
    }
    TransfersDrain(sent, script);
    ReceivesDrain(moved, script);
    ExecKeepsLasts(sent, Transfers(script));
    ExecKeepsLasts(moved, Receives(script));
    ExecInTwoParts(Start(), Sends(script), Transfers(script) + Receives(script));
    ExecInTwoParts(sent, Transfers(script), Receives(script));
  }

  lemma OutboxIsSent(n: Net, c: nat)
    requires OutboxHoldsLast(n) && c in n.outbox
    ensures c in n.sent
  {
  }

  /**
   Main result: with a slot for each client at the server, whatever clients send, a message is taken in in every run
   that comes to rest exactly when it is the last of its own client.
   */
  lemma LastOfEachClientIsSure(script: seq<nat>, k: nat)
    ensures AlwaysTaken(script, k) <==> LastOfClient(script, k)
  {
    hide Exec, LastOfClient, InTurn, Quiescent;
    if LastOfClient(script, k) {
      forall steps | Exec(Start(), steps).sent == script && Quiescent(Exec(Start(), steps))
          ensures Takes(Exec(Start(), steps), k) {
        LastIsTaken(steps, k);
      }
    } else {
      InTurnTakesLasts(script);
      assert !Takes(Exec(Start(), InTurn(script)), k);
    }
  }
}
