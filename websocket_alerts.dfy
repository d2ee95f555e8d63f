/** The alert channel: the connection registry (`ConnectionManager`), its broadcast with
 *  clean-up of the sockets whose send failed, and one client's session on `/ws/alerts`.
 *  What a socket accepts is recorded in `ConnectionManager.sent`, the model's view of the
 *  wire; whether a send fails is given to each operation, since it depends on the network. */
module WebsocketAlerts {
  import opened Wrappers
  import opened Store

  /** A client socket. Sockets are told apart by identity. */
  class WebSocket {
    constructor() {}
  }

  /** The JSON messages the channel sends. */
  datatype Message =
    | DepartmentCritical(departmentId: Option<Value>, departmentName: Option<Value>,
                         overallRisk: string, engagementScore: Value, timestamp: string)
    | EmployeeStress(employeeId: Option<Value>, employeeName: Value, department: Value,
                     position: Value, stressRate: real, engagementRate: Value,
                     attritionRate: Value, timestamp: string)
    | Connected(timestamp: string)
    | Pong(timestamp: string)

  /** A message a socket accepted. */
  datatype Delivery = Delivery(socket: WebSocket, message: Message)

  /** The sockets whose send did not fail, in registry order. */
  function Survivors(conns: seq<WebSocket>, failing: set<WebSocket>): seq<WebSocket>
  {
    if conns == [] then []
    else (if conns[0] in failing then [] else [conns[0]]) + Survivors(conns[1..], failing)
  }

  /** The sockets whose send failed, in registry order (the source's `disconnected` list). */
  function Failed(conns: seq<WebSocket>, failing: set<WebSocket>): seq<WebSocket>
  {
    if conns == [] then []
    else (if conns[0] in failing then [conns[0]] else []) + Failed(conns[1..], failing)
  }

  /** The deliveries of one `send_text` per registered socket, skipping the failed ones. */
  function Deliveries(conns: seq<WebSocket>, msg: Message, failing: set<WebSocket>): seq<Delivery>
  {
    if conns == [] then []
    else (if conns[0] in failing then [] else [Delivery(conns[0], msg)]) + Deliveries(conns[1..], msg, failing)
  }

  /** `list.remove(x)` guarded by `x in list`: drops the first occurrence, if any. */
  function RemoveFirst(s: seq<WebSocket>, x: WebSocket): seq<WebSocket>
  {
    if s == [] then []
    else if s[0] == x then s[1..]
    else [s[0]] + RemoveFirst(s[1..], x)
  }

  lemma {:induction false} RemoveFirstAbsent(s: seq<WebSocket>, x: WebSocket)
    requires x !in s
    ensures RemoveFirst(s, x) == s
  {
    if s != [] {
      RemoveFirstAbsent(s[1..], x);
      assert s == [s[0]] + s[1..];
    }
  }

  /** The position of the first registration of `x`. */
  function IndexOf(s: seq<WebSocket>, x: WebSocket): (k: nat)
    requires x in s
    ensures k < |s| && s[k] == x && x !in s[..k]
  {
    if s[0] == x then 0
    else
      var k := IndexOf(s[1..], x);
      assert s[..k + 1] == [s[0]] + s[1..][..k];
      k + 1
  }

  /** `disconnect` takes away exactly one registration of a registered socket: the first one,
   *  and the sockets before and after it stay where they are. */
  lemma {:induction false} RemoveFirstRemovesOne(s: seq<WebSocket>, x: WebSocket)
    requires x in s
    ensures RemoveFirst(s, x) == s[..IndexOf(s, x)] + s[IndexOf(s, x) + 1..]
  {
    if s[0] != x {
      RemoveFirstRemovesOne(s[1..], x);
      var i := IndexOf(s[1..], x);
      assert s[..i + 1] == [s[0]] + s[1..][..i];
      assert s[i + 2..] == s[1..][i + 1..];
    }
  }

  /** As multisets, `disconnect` subtracts one registration of the socket. */
  lemma {:induction false} RemoveFirstMultiset(s: seq<WebSocket>, x: WebSocket)
    ensures multiset(RemoveFirst(s, x)) == multiset(s) - multiset{x}
  {
    if s != [] {
      assert s == [s[0]] + s[1..];
      assert multiset(s) == multiset{s[0]} + multiset(s[1..]);
      if s[0] != x {
        RemoveFirstMultiset(s[1..], x);
        assert multiset(RemoveFirst(s, x)) == multiset{s[0]} + multiset(RemoveFirst(s[1..], x));
      }
    }
  }

  /** The registry after the first `k` entries of the `disconnected` list were removed. */
  function DropFailed(conns: seq<WebSocket>, failing: set<WebSocket>, k: nat): seq<WebSocket>
  {
    if k == 0 || conns == [] then conns
    else if conns[0] in failing then DropFailed(conns[1..], failing, k - 1)
    else [conns[0]] + DropFailed(conns[1..], failing, k)
  }

  lemma {:induction false} FailedSnoc(s: seq<WebSocket>, c: WebSocket, failing: set<WebSocket>)
    ensures Failed(s + [c], failing) == Failed(s, failing) + (if c in failing then [c] else [])
  {
    if s != [] {
      assert (s + [c])[1..] == s[1..] + [c];
      FailedSnoc(s[1..], c, failing);
    }
  }

  lemma {:induction false} DeliveriesSnoc(s: seq<WebSocket>, c: WebSocket, msg: Message, failing: set<WebSocket>)
    ensures Deliveries(s + [c], msg, failing)
      == Deliveries(s, msg, failing) + (if c in failing then [] else [Delivery(c, msg)])
  {
    if s != [] {
      assert (s + [c])[1..] == s[1..] + [c];
      DeliveriesSnoc(s[1..], c, msg, failing);
    }
  }

  /** One more socket of the registry visited by the send loop of `broadcast`. */
  lemma BroadcastStep(registry: seq<WebSocket>, i: nat, msg: Message, failing: set<WebSocket>)
    requires i < |registry|
    ensures Failed(registry[..i + 1], failing)
      == Failed(registry[..i], failing) + (if registry[i] in failing then [registry[i]] else [])
    ensures Deliveries(registry[..i + 1], msg, failing)
      == Deliveries(registry[..i], msg, failing) + (if registry[i] in failing then [] else [Delivery(registry[i], msg)])
  {
    assert registry[..i + 1] == registry[..i] + [registry[i]];
    FailedSnoc(registry[..i], registry[i], failing);
    DeliveriesSnoc(registry[..i], registry[i], msg, failing);
  }

  /** Removing the disconnected sockets one at a time, each time the first occurrence: the
   *  `j`-th failed socket is the first failed one left after `j` removals. */
  lemma {:induction false} RemoveNextFailed(conns: seq<WebSocket>, failing: set<WebSocket>, j: nat)
    requires j < |Failed(conns, failing)|
    ensures RemoveFirst(DropFailed(conns, failing, j), Failed(conns, failing)[j]) == DropFailed(conns, failing, j + 1)
  {
    var x := Failed(conns, failing)[j];
    assert x in Failed(conns, failing);
    if conns[0] in failing {
      if j > 0 {
        RemoveNextFailed(conns[1..], failing, j - 1);
      }
    } else {
      RemoveNextFailed(conns[1..], failing, j);
      SplitMembers(conns[1..], failing);
      assert x != conns[0];
    }
  }

  /** A broadcast splits the registry: the survivors are exactly the registered sockets whose
   *  send did not fail, the `disconnected` list exactly those whose send failed. */
  lemma {:induction false} SplitMembers(conns: seq<WebSocket>, failing: set<WebSocket>)
    ensures forall c :: c in Survivors(conns, failing) <==> c in conns && c !in failing
    ensures forall c :: c in Failed(conns, failing) <==> c in conns && c in failing
    ensures |Survivors(conns, failing)| + |Failed(conns, failing)| == |conns|
  {
    if conns != [] {
      SplitMembers(conns[1..], failing);
      assert conns == [conns[0]] + conns[1..];
    }
  }

  /** Once every failed socket was removed, the registry is the surviving sockets in order. */
  lemma {:induction false} DropAllFailed(conns: seq<WebSocket>, failing: set<WebSocket>)
    ensures DropFailed(conns, failing, |Failed(conns, failing)|) == Survivors(conns, failing)
  {
    if conns != [] {
      DropAllFailed(conns[1..], failing);
    }
  }

  /** Every registered socket either accepted the message or was dropped. */
  lemma {:induction false} BroadcastAccounting(conns: seq<WebSocket>, msg: Message, failing: set<WebSocket>)
    ensures |Deliveries(conns, msg, failing)| + |Failed(conns, failing)| == |conns|
    ensures |Survivors(conns, failing)| == |Deliveries(conns, msg, failing)|
    ensures forall d :: d in Deliveries(conns, msg, failing) ==> d.message == msg && d.socket in Survivors(conns, failing)
  {
    if conns != [] {
      BroadcastAccounting(conns[1..], msg, failing);
    }
  }

  /** The `failing` set of the `k`-th broadcast of a run; none fail beyond the given ones. */
  function FailingAt(failing: seq<set<WebSocket>>, k: nat): set<WebSocket>
  {
    if k < |failing| then failing[k] else {}
  }

  /** The registry and the deliveries after broadcasting `msgs` one after the other, the
   *  `k`-th broadcast failing on the sockets `FailingAt(failing, k)`. */
  function BroadcastAll(conns: seq<WebSocket>, msgs: seq<Message>, failing: seq<set<WebSocket>>)
    : (seq<WebSocket>, seq<Delivery>)
  {
    if msgs == [] then (conns, [])
    else
      var k := |msgs| - 1;
      var before := BroadcastAll(conns, msgs[..k], failing);
      (Survivors(before.0, FailingAt(failing, k)),
       before.1 + Deliveries(before.0, msgs[k], FailingAt(failing, k)))
  }

  /** The messages a socket accepted, in order. */
  function MessagesTo(ds: seq<Delivery>, c: WebSocket): seq<Message>
  {
    if ds == [] then []
    else (if ds[0].socket == c then [ds[0].message] else []) + MessagesTo(ds[1..], c)
  }

  lemma {:induction false} MessagesToConcat(a: seq<Delivery>, b: seq<Delivery>, c: WebSocket)
    ensures MessagesTo(a + b, c) == MessagesTo(a, c) + MessagesTo(b, c)
  {
    if a == [] {
      assert a + b == b;
    } else {
      var t := a[1..];
      assert (a + b)[0] == a[0];
      assert (a + b)[1..] == t + b;
      MessagesToConcat(t, b, c);
      var h := if a[0].socket == c then [a[0].message] else [];
      assert MessagesTo(a + b, c) == h + MessagesTo(t + b, c);
      assert MessagesTo(a, c) == h + MessagesTo(t, c);
    }
  }

  lemma {:induction false} OneDeliveryEach(conns: seq<WebSocket>, msg: Message, failing: set<WebSocket>, c: WebSocket)
    requires multiset(conns)[c] == 1 && c !in failing
    ensures MessagesTo(Deliveries(conns, msg, failing), c) == [msg]
  {
    assert c in conns;
    assert conns == [conns[0]] + conns[1..];
    assert multiset(conns) == multiset{conns[0]} + multiset(conns[1..]);
    var tail := conns[1..];
    var rest := Deliveries(tail, msg, failing);
    var head := if conns[0] in failing then [] else [Delivery(conns[0], msg)];
    assert Deliveries(conns, msg, failing) == head + rest;
    MessagesToConcat(head, rest, c);
    if conns[0] == c {
      assert multiset(conns[1..])[c] == 0;
      NotRegisteredNoDelivery(tail, msg, failing, c);
    } else {
      OneDeliveryEach(tail, msg, failing, c);
    }
  }

  /** A socket that does not fail keeps all its registrations. */
  lemma {:induction false} SurvivorCount(conns: seq<WebSocket>, failing: set<WebSocket>, c: WebSocket)
    requires c !in failing
    ensures multiset(Survivors(conns, failing))[c] == multiset(conns)[c]
  {
    if conns != [] {
      assert conns == [conns[0]] + conns[1..];
      assert multiset(conns) == multiset{conns[0]} + multiset(conns[1..]);
      SurvivorCount(conns[1..], failing, c);
      var hs := if conns[0] in failing then [] else [conns[0]];
      assert multiset(Survivors(conns, failing)) == multiset(hs) + multiset(Survivors(conns[1..], failing));
    }
  }

  lemma {:induction false} NotRegisteredNoDelivery(conns: seq<WebSocket>, msg: Message, failing: set<WebSocket>, c: WebSocket)
    requires c !in conns
    ensures MessagesTo(Deliveries(conns, msg, failing), c) == []
  {
    if conns != [] {
      var head := if conns[0] in failing then [] else [Delivery(conns[0], msg)];
      MessagesToConcat(head, Deliveries(conns[1..], msg, failing), c);
      NotRegisteredNoDelivery(conns[1..], msg, failing, c);
    }
  }

  /** A socket registered once whose sends never fail stays registered once through a run
   *  of broadcasts. */
  lemma {:induction false} HealthySocketStays(conns: seq<WebSocket>, msgs: seq<Message>,
                                              failing: seq<set<WebSocket>>, c: WebSocket)
    requires multiset(conns)[c] == 1
    requires forall k :: 0 <= k < |failing| ==> c !in failing[k]
    ensures multiset(BroadcastAll(conns, msgs, failing).0)[c] == 1
  {
    if msgs != [] {
      var k := |msgs| - 1;
      HealthySocketStays(conns, msgs[..k], failing, c);
      SurvivorCount(BroadcastAll(conns, msgs[..k], failing).0, FailingAt(failing, k), c);
    }
  }

  /** Such a socket receives every broadcast message, once each and in broadcast order. */
  lemma {:induction false} HealthySocketGetsEveryMessage(conns: seq<WebSocket>, msgs: seq<Message>,
                                                         failing: seq<set<WebSocket>>, c: WebSocket)
    requires multiset(conns)[c] == 1
    requires forall k :: 0 <= k < |failing| ==> c !in failing[k]
    ensures MessagesTo(BroadcastAll(conns, msgs, failing).1, c) == msgs
  {
    if msgs != [] {
      var k := |msgs| - 1;
      var before := BroadcastAll(conns, msgs[..k], failing);
      HealthySocketGetsEveryMessage(conns, msgs[..k], failing, c);
      HealthySocketStays(conns, msgs[..k], failing, c);
      assert c !in FailingAt(failing, k);
      HealthyDeliveryStep(before.0, before.1, msgs[..k], msgs[k], FailingAt(failing, k), c);
      assert msgs == msgs[..k] + [msgs[k]];
    }
  }

  /** One more broadcast appends its message to what a registered, healthy socket received. */
  lemma HealthyDeliveryStep(conns: seq<WebSocket>, sent: seq<Delivery>, received: seq<Message>, msg: Message,
                            failing: set<WebSocket>, c: WebSocket)
    requires MessagesTo(sent, c) == received
    requires multiset(conns)[c] == 1 && c !in failing
    ensures MessagesTo(sent + Deliveries(conns, msg, failing), c) == received + [msg]
  {
    OneDeliveryEach(conns, msg, failing, c);
    MessagesToConcat(sent, Deliveries(conns, msg, failing), c);
  }

  /** What a client sends on its socket; `receive_text` either returns text or raises. */
  datatype ClientEvent = Received(text: string) | ClientDisconnected | ReceiveFailed

  /** The index of the event that ends the session, or `|events|` if none does. */
  function SessionEnd(events: seq<ClientEvent>): (k: nat)
    ensures k <= |events|
    ensures forall j :: 0 <= j < k ==> events[j].Received?
    ensures k < |events| ==> !events[k].Received?
  {
    if events == [] then 0
    else if !events[0].Received? then 0
    else 1 + SessionEnd(events[1..])
  }

  /** The replies to the texts of a session: a pong for each "ping", nothing for other text. */
  function PingReplies(texts: seq<ClientEvent>, timestamp: string): seq<Message>
  {
    if texts == [] then []
    else
      PingReplies(texts[..|texts| - 1], timestamp)
        + (if texts[|texts| - 1] == Received("ping") then [Pong(timestamp)] else [])
  }

  /** Only "ping" is answered, and only with a pong: the replies are pongs, and there is one
   *  exactly when some text of the session was "ping". */
  lemma {:induction false} PingRepliesSpec(texts: seq<ClientEvent>, timestamp: string)
    ensures forall k :: 0 <= k < |PingReplies(texts, timestamp)| ==> PingReplies(texts, timestamp)[k] == Pong(timestamp)
    ensures PingReplies(texts, timestamp) == [] <==> Received("ping") !in texts
    ensures |PingReplies(texts, timestamp)| <= |texts|
  {
    if texts != [] {
      var init := texts[..|texts| - 1];
      PingRepliesSpec(init, timestamp);
      assert texts == init + [texts[|texts| - 1]];
    }
  }

  /** The deliveries of personal messages to `ws`; none when the socket cannot be reached
   *  (`send_personal` swallows the error). */
  function Personal(ws: WebSocket, msgs: seq<Message>, reachable: bool): seq<Delivery>
  {
    if !reachable || msgs == [] then [] else [Delivery(ws, msgs[0])] + Personal(ws, msgs[1..], reachable)
  }

  lemma {:induction false} PersonalSnoc(ws: WebSocket, msgs: seq<Message>, m: Message, reachable: bool)
    ensures Personal(ws, msgs + [m], reachable) == Personal(ws, msgs, reachable) + Personal(ws, [m], reachable)
  {
    if reachable && msgs != [] {
      assert (msgs + [m])[1..] == msgs[1..] + [m];
      PersonalSnoc(ws, msgs[1..], m, reachable);
    }
  }

  /** Personal messages reach only their own socket: no other socket sees any of them. */
  lemma {:induction false} PersonalOnlyToItsSocket(ws: WebSocket, msgs: seq<Message>, reachable: bool, other: WebSocket)
    requires other != ws
    ensures MessagesTo(Personal(ws, msgs, reachable), other) == []
    ensures reachable ==> MessagesTo(Personal(ws, msgs, reachable), ws) == msgs
  {
    if reachable && msgs != [] {
      PersonalOnlyToItsSocket(ws, msgs[1..], reachable, other);
      MessagesToConcat([Delivery(ws, msgs[0])], Personal(ws, msgs[1..], reachable), other);
      MessagesToConcat([Delivery(ws, msgs[0])], Personal(ws, msgs[1..], reachable), ws);
    }
  }

  class ConnectionManager {
    var connections: seq<WebSocket>
    var sent: seq<Delivery>

    constructor()
      ensures connections == [] && sent == []
    {
      connections := [];
      sent := [];
    }

    /** `connect`: the accepted socket joins the end of the registry. */
    method Connect(ws: WebSocket)
      modifies this
      ensures connections == old(connections) + [ws]
      ensures sent == old(sent)
    {
      connections := connections + [ws];
    }

    /** `disconnect`: removes the first registration of `ws`, if there is one. */
    method Disconnect(ws: WebSocket)
      modifies this
      ensures connections == RemoveFirst(old(connections), ws)
      ensures sent == old(sent)
    {
      if ws in connections {
        connections := RemoveFirst(connections, ws);
      } else {
        RemoveFirstAbsent(connections, ws);
      }
    }

    /** `broadcast`: one send per registered socket, in registry order; the sockets whose send
     *  fails are collected and removed only after the loop. */
    method Broadcast(msg: Message, failing: set<WebSocket>)
      modifies this
      ensures connections == Survivors(old(connections), failing)
      ensures sent == old(sent) + Deliveries(old(connections), msg, failing)
    {
      if connections == [] {
        return;
      }
      var registry := connections;
      var disconnected := SendAll(msg, failing);
      RemoveDisconnected(registry, disconnected, failing);
    }

    /** The send loop of `broadcast`: every registered socket is sent the message; the ones
     *  whose send fails are returned, in registry order, and the registry is left as it is. */
    method SendAll(msg: Message, failing: set<WebSocket>) returns (disconnected: seq<WebSocket>)
      modifies this
      ensures connections == old(connections)
      ensures disconnected == Failed(old(connections), failing)
      ensures sent == old(sent) + Deliveries(old(connections), msg, failing)
    {
      var registry := connections;
      ghost var sent0 := sent;
      disconnected := [];
      var i := 0;
      while i < |registry|
        invariant 0 <= i <= |registry|
        invariant connections == registry
        invariant disconnected == Failed(registry[..i], failing)
        invariant sent == sent0 + Deliveries(registry[..i], msg, failing)
      {
        var c := registry[i];
        BroadcastStep(registry, i, msg, failing);
        if c in failing {
          disconnected := disconnected + [c];
        } else {
          sent := sent + [Delivery(c, msg)];
        }
        i := i + 1;
      }
      assert registry[..i] == registry;
    }

    /** The clean-up loop of `broadcast`: `disconnect` for each failed socket, in order. */
    method RemoveDisconnected(registry: seq<WebSocket>, disconnected: seq<WebSocket>, failing: set<WebSocket>)
      requires connections == registry
      requires disconnected == Failed(registry, failing)
      modifies this
      ensures connections == Survivors(registry, failing)
      ensures sent == old(sent)
    {
      var j := 0;
      while j < |disconnected|
        invariant 0 <= j <= |disconnected|
        invariant connections == DropFailed(registry, failing, j)
        invariant sent == old(sent)
      {
        var next := disconnected[j];
        var dropped := DropFailed(registry, failing, j);
        RemoveNextFailed(registry, failing, j);
        assert RemoveFirst(dropped, next) == DropFailed(registry, failing, j + 1);
        Disconnect(next);
        assert connections == RemoveFirst(dropped, next);
        j := j + 1;
      }
      DropAllFailed(registry, failing);
    }

    /** `send_personal`: a failed send is swallowed and the socket stays registered. */
    method SendPersonal(msg: Message, ws: WebSocket, reachable: bool)
      modifies this
      ensures connections == old(connections)
      ensures sent == old(sent) + Personal(ws, [msg], reachable)
    {
      if reachable {
        sent := sent + [Delivery(ws, msg)];
      }
    }
  }

  /** `websocket_alerts_endpoint` for one client: register, greet, answer each "ping" with a
   *  pong until the client disconnects or receiving fails, then unregister. A session whose
   *  events run out is still open. */
  method AlertsEndpoint(manager: ConnectionManager, ws: WebSocket, events: seq<ClientEvent>,
                        reachable: bool, timestamp: string)
    modifies manager
    ensures manager.connections ==
      if SessionEnd(events) < |events| then RemoveFirst(old(manager.connections) + [ws], ws)
      else old(manager.connections) + [ws]
    ensures manager.sent == old(manager.sent)
      + Personal(ws, [Connected(timestamp)] + PingReplies(events[..SessionEnd(events)], timestamp), reachable)
  {
    manager.Connect(ws);
    manager.SendPersonal(Connected(timestamp), ws, reachable);
    var i := 0;
    while i < |events| && events[i].Received?
      invariant 0 <= i <= |events|
      invariant forall j :: 0 <= j < i ==> events[j].Received?
      invariant manager.connections == old(manager.connections) + [ws]
      invariant manager.sent == old(manager.sent)
        + Personal(ws, [Connected(timestamp)] + PingReplies(events[..i], timestamp), reachable)
    {
      assert events[..i + 1][..i] == events[..i];
      var before := [Connected(timestamp)] + PingReplies(events[..i], timestamp);
      if events[i].text == "ping" {
        assert events[i] == Received("ping");
        PersonalSnoc(ws, before, Pong(timestamp), reachable);
        assert [Connected(timestamp)] + PingReplies(events[..i + 1], timestamp) == before + [Pong(timestamp)];
        manager.SendPersonal(Pong(timestamp), ws, reachable);
      } else {
        assert events[i] != Received("ping");
        assert PingReplies(events[..i + 1], timestamp) == PingReplies(events[..i], timestamp);
      }
      i := i + 1;
    }
    assert i == SessionEnd(events);
    if i < |events| {
      manager.Disconnect(ws);
    }
  }
}
