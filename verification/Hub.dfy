/** The WebSocket fan-out hub: one event loop, a bounded queue per client, drops
    for slow clients, and channels that must not be used once closed. */
module HubModel {
  const BUFFER: nat := 256

  type ClientId = nat
  type Message = string

  datatype Channel = Channel(queue: seq<Message>, closed: bool)

  // What the event loop and the clients share. `panicked` is the Go runtime's
  // answer to a send on, or a second close of, a closed channel.
  datatype HubState = HubState(running: bool, panicked: bool, inbox: seq<Message>, clients: set<ClientId>,
                               channels: map<ClientId, Channel>, dropped: nat)

  // A client's channel; one that was never used is empty and open.
  function Chan(channels: map<ClientId, Channel>, c: ClientId): Channel {
    if c in channels then channels[c] else Channel([], false)
  }

  function Offer(ch: Channel, msg: Message): Channel {
    if |ch.queue| < BUFFER then ch.(queue := ch.queue + [msg]) else ch
  }

  // The channels after a non-blocking send to, or a close of, one of them.
  function Sent(channels: map<ClientId, Channel>, c: ClientId, msg: Message): map<ClientId, Channel> {
    var ch := Chan(channels, c);
    if |ch.queue| < BUFFER then channels[c := ch.(queue := ch.queue + [msg])] else channels
  }

  function Closed(channels: map<ClientId, Channel>, c: ClientId): map<ClientId, Channel> {
    channels[c := Chan(channels, c).(closed := true)]
  }

  function FullAmong(channels: map<ClientId, Channel>, clients: set<ClientId>): set<ClientId> {
    set c | c in clients && |Chan(channels, c).queue| >= BUFFER
  }

  predicate ClosedAmong(channels: map<ClientId, Channel>, clients: set<ClientId>) {
    exists c :: c in clients && Chan(channels, c).closed
  }

  predicate AnyClosed(s: HubState) {
    ClosedAmong(s.channels, s.clients)
  }

  function OfferAll(channels: map<ClientId, Channel>, clients: set<ClientId>, msg: Message): map<ClientId, Channel> {
    map c | c in channels.Keys + clients :: if c in clients then Offer(Chan(channels, c), msg) else channels[c]
  }

  function CloseAll(channels: map<ClientId, Channel>, clients: set<ClientId>): map<ClientId, Channel> {
    map c | c in channels.Keys + clients :: if c in clients then Chan(channels, c).(closed := true) else channels[c]
  }

  function Deliver(s: HubState): HubState
    requires s.inbox != []
  {
    if AnyClosed(s) then s.(panicked := true)
    else
      s.(inbox := s.inbox[1..],
         channels := OfferAll(s.channels, s.clients, s.inbox[0]),
         dropped := s.dropped + |FullAmong(s.channels, s.clients)|)
  }

  function Unregister(s: HubState, c: ClientId): HubState {
    if c !in s.clients then s
    else if Chan(s.channels, c).closed then s.(panicked := true)
    else s.(clients := s.clients - {c}, channels := Closed(s.channels, c))
  }

  function Stop(s: HubState): HubState {
    if AnyClosed(s) then s.(panicked := true)
    else s.(running := false, clients := {}, channels := CloseAll(s.channels, s.clients))
  }

  // --------------------------------------------------------------- event loop

  class Hub {
    var running: bool
    var panicked: bool
    var inbox: seq<Message>
    var clients: set<ClientId>
    var channels: map<ClientId, Channel>
    var dropped: nat

    constructor ()
      ensures State() == HubState(true, false, [], {}, map[], 0)
    {
      running, panicked, inbox, clients, channels, dropped := true, false, [], {}, map[], 0;
    }

    function State(): HubState
      reads this
    {
      HubState(running, panicked, inbox, clients, channels, dropped)
    }

    // Queues a message for the loop; blocks (here: does nothing) while the queue is full.
    method Broadcast(msg: Message) returns (sent: bool)
      modifies this`inbox
      ensures sent == (|old(inbox)| < BUFFER)
      ensures inbox == if sent then old(inbox) + [msg] else old(inbox)
    {
      sent := |inbox| < BUFFER;
      if sent {
        inbox := inbox + [msg];
      }
    }

    method OnRegister(c: ClientId)
      modifies this`clients
      ensures State() == old(State()).(clients := old(clients) + {c})
    {
      clients := clients + {c};
    }

    // Non-blocking send: dropped and counted when the client's queue is full.
    method TrySend(c: ClientId, msg: Message)
      requires !panicked
      modifies this`channels, this`dropped, this`panicked
      ensures var ch := Chan(old(channels), c);
              if ch.closed then panicked && channels == old(channels) && dropped == old(dropped)
              else
                && !panicked
                && channels == Sent(old(channels), c, msg)
                && dropped == old(dropped) + if |ch.queue| < BUFFER then 0 else 1
    {
      var ch := Chan(channels, c);
      if ch.closed {
        panicked := true;
      } else if |ch.queue| < BUFFER {
        channels := channels[c := ch.(queue := ch.queue + [msg])];
      } else {
        dropped := dropped + 1;
      }
    }

    method Close(c: ClientId)
      requires !panicked
      modifies this`channels, this`panicked
      ensures var ch := Chan(old(channels), c);
              if ch.closed then panicked && channels == old(channels)
              else !panicked && channels == Closed(old(channels), c)
    {
      var ch := Chan(channels, c);
      if ch.closed {
        panicked := true;
      } else {
        channels := channels[c := ch.(closed := true)];
      }
    }

    method OnUnregister(c: ClientId)
      requires !panicked
      modifies this`clients, this`channels, this`panicked
      ensures panicked == Unregister(old(State()), c).panicked
      ensures !panicked ==> State() == Unregister(old(State()), c)
      ensures panicked <==> c in old(clients) && Chan(old(channels), c).closed
      ensures clients == old(clients) - {c}
      ensures forall other :: other != c ==> Chan(channels, other) == Chan(old(channels), other)
      ensures !panicked ==> Chan(channels, c).queue == Chan(old(channels), c).queue
                            && (Chan(channels, c).closed <==> Chan(old(channels), c).closed || c in old(clients))
    {
      if c in clients {
        clients := clients - {c};
        Close(c);
      }
    }

    // Offers a message to every client, in whatever order the set is walked:
    // the outcome does not depend on it.
    method FanOut(msg: Message)
      requires !panicked
      modifies this`channels, this`dropped, this`panicked
      ensures if panicked then ClosedAmong(old(channels), clients)
              else Offered(old(channels), clients, msg, channels, dropped - old(dropped))
    {
      var todo := clients;
      ghost var before := channels;
      NoneOffered(before, clients, msg);
      while todo != {}
        invariant !panicked && Walked(before, clients, todo, msg, channels, dropped - old(dropped))
        decreases |todo|
      {
        var c :| c in todo;
        OfferNext(before, todo, c, msg, dropped - old(dropped));
        if panicked {
          return;
        }
        todo := todo - {c};
      }
      AllOffered(before, clients, msg, channels, dropped - old(dropped));
    }

    // One turn of that walk, with the clients in `todo` still to come.
    method OfferNext(ghost before: map<ClientId, Channel>, ghost todo: set<ClientId>, c: ClientId, msg: Message,
                     ghost drops: int)
      requires !panicked && c in todo && Walked(before, clients, todo, msg, channels, drops)
      modifies this`channels, this`dropped, this`panicked
      ensures panicked ==> ClosedAmong(before, clients)
      ensures !panicked ==> Walked(before, clients, todo - {c}, msg, channels, drops + dropped - old(dropped))
    {
      OneMoreOffered(before, clients - todo, c, msg, channels, drops);
      assert clients - (todo - {c}) == clients - todo + {c};
      TrySend(c, msg);
    }

    method OnBroadcast()
      requires !panicked && inbox != []
      modifies this`inbox, this`channels, this`dropped, this`panicked
      ensures panicked == AnyClosed(old(State()))
      ensures !panicked ==> State() == Deliver(old(State()))
    {
      var msg := inbox[0];
      inbox := inbox[1..];
      FanOut(msg);
    }

    // Closes every channel and ends the loop.
    method OnDone()
      requires !panicked
      modifies this`running, this`clients, this`channels, this`panicked
      ensures panicked == AnyClosed(old(State()))
      ensures !panicked ==> State() == Stop(old(State()))
    {
      CloseClients();
      if !panicked {
        running := false;
      }
    }

    // One turn of the walk below, with the clients in `todo` still to come.
    method CloseNext(ghost before: map<ClientId, Channel>, ghost all: set<ClientId>, ghost todo: set<ClientId>, c: ClientId)
      requires !panicked && c in todo && Closing(before, all, todo, channels)
      modifies this`channels, this`panicked
      ensures panicked ==> ClosedAmong(before, all)
      ensures !panicked ==> Closing(before, all, todo - {c}, channels)
    {
      OneMoreClosed(before, all - todo, c, channels);
      assert all - (todo - {c}) == all - todo + {c};
      Close(c);
    }

    method CloseClients()
      requires !panicked
      modifies this`clients, this`channels, this`panicked
      ensures if panicked then ClosedAmong(old(channels), old(clients))
              else clients == {} && AllClosed(old(channels), old(clients), channels)
    {
      ghost var before, all := channels, clients;
      NoneClosed(before, all);
      while clients != {}
        invariant !panicked && Closing(before, all, clients, channels)
        decreases |clients|
      {
        var c :| c in clients;
        CloseNext(before, all, clients, c);
        if panicked {
          return;
        }
        clients := clients - {c};
      }
      EveryoneClosed(before, all, channels);
    }
  }

  // The clients in `done` had open channels and have been offered the message.
  ghost predicate Offered(before: map<ClientId, Channel>, done: set<ClientId>, msg: Message,
                          channels: map<ClientId, Channel>, drops: int)
  {
    !ClosedAmong(before, done) && channels == OfferAll(before, done, msg) && drops == |FullAmong(before, done)|
  }

  // All clients but those in `todo` have been offered the message.
  ghost predicate Walked(before: map<ClientId, Channel>, clients: set<ClientId>, todo: set<ClientId>, msg: Message,
                         channels: map<ClientId, Channel>, drops: int)
  {
    todo <= clients && Offered(before, clients - todo, msg, channels, drops)
  }

  lemma NoneOffered(channels: map<ClientId, Channel>, clients: set<ClientId>, msg: Message)
    ensures Walked(channels, clients, clients, msg, channels, 0)
  {
    assert clients - clients == {};
  }

  lemma AllOffered(before: map<ClientId, Channel>, clients: set<ClientId>, msg: Message,
                   channels: map<ClientId, Channel>, drops: int)
    requires Walked(before, clients, {}, msg, channels, drops)
    ensures Offered(before, clients, msg, channels, drops)
  {
    assert clients - {} == clients;
  }

  lemma OneMoreOffered(before: map<ClientId, Channel>, done: set<ClientId>, c: ClientId, msg: Message,
                       channels: map<ClientId, Channel>, drops: int)
    requires Offered(before, done, msg, channels, drops) && c !in done
    ensures Chan(channels, c) == Chan(before, c)
    ensures !Chan(channels, c).closed ==>
              Offered(before, done + {c}, msg, Sent(channels, c, msg),
                      drops + if |Chan(channels, c).queue| < BUFFER then 0 else 1)
  {
    OfferOneMore(before, done, c, msg);
    if |Chan(before, c).queue| < BUFFER {
      assert FullAmong(before, done + {c}) == FullAmong(before, done);
    } else {
      assert FullAmong(before, done + {c}) == FullAmong(before, done) + {c};
    }
  }

  lemma OfferOneMore(channels: map<ClientId, Channel>, done: set<ClientId>, c: ClientId, msg: Message)
    requires c !in done
    ensures Chan(OfferAll(channels, done, msg), c) == Chan(channels, c)
    ensures OfferAll(channels, done + {c}, msg) == Sent(OfferAll(channels, done, msg), c, msg)
  {
    var more, so := OfferAll(channels, done + {c}, msg), OfferAll(channels, done, msg);
    if |Chan(channels, c).queue| < BUFFER {
      assert more.Keys == so.Keys + {c};
      assert forall k :: k in more ==> more[k] == so[c := Offer(Chan(channels, c), msg)][k];
    } else {
      assert c in channels;
      assert more.Keys == so.Keys;
      assert forall k :: k in more ==> more[k] == so[k];
    }
  }

  ghost predicate AllClosed(before: map<ClientId, Channel>, done: set<ClientId>, channels: map<ClientId, Channel>) {
    !ClosedAmong(before, done) && channels == CloseAll(before, done)
  }

  // All clients but those in `todo` have been closed.
  ghost predicate Closing(before: map<ClientId, Channel>, clients: set<ClientId>, todo: set<ClientId>,
                          channels: map<ClientId, Channel>)
  {
    todo <= clients && AllClosed(before, clients - todo, channels)
  }

  lemma NoneClosed(channels: map<ClientId, Channel>, clients: set<ClientId>)
    ensures Closing(channels, clients, clients, channels)
  {
    assert clients - clients == {};
  }

  lemma EveryoneClosed(before: map<ClientId, Channel>, clients: set<ClientId>, channels: map<ClientId, Channel>)
    requires Closing(before, clients, {}, channels)
    ensures AllClosed(before, clients, channels)
  {
    assert clients - {} == clients;
  }

  lemma OneMoreClosed(before: map<ClientId, Channel>, done: set<ClientId>, c: ClientId, channels: map<ClientId, Channel>)
    requires AllClosed(before, done, channels) && c !in done
    ensures Chan(channels, c) == Chan(before, c)
    ensures !Chan(channels, c).closed ==> AllClosed(before, done + {c}, Closed(channels, c))
  {
  }

  // ------------------------------------------------- every interleaving, with a ledger

  datatype Action =
    | Submit(msg: Message)
    | Join(c: ClientId)
    | Leave(c: ClientId)
    | Next
    | Receive(c: ClientId)
    | Shutdown

  // The hub, and what an observer has written down: the messages queued and
  // processed so far and, per client, the messages processed while it was
  // registered, the messages it took, and the drops charged to it.
  datatype System = System(hub: HubState, submitted: seq<Message>, processed: seq<Message>,
                           offered: map<ClientId, seq<Message>>, consumed: map<ClientId, seq<Message>>,
                           drops: multiset<ClientId>)

  const START := System(HubState(true, false, [], {}, map[], 0), [], [], map[], map[], multiset{})

  function Of(m: map<ClientId, seq<Message>>, c: ClientId): seq<Message> {
    if c in m then m[c] else []
  }

  function OfferedTo(m: map<ClientId, seq<Message>>, clients: set<ClientId>, msg: Message): map<ClientId, seq<Message>> {
    map c | c in m.Keys + clients :: if c in clients then Of(m, c) + [msg] else m[c]
  }

  // One atomic step; one that cannot be taken changes nothing.
  function Do(s: System, a: Action): System {
    if s.hub.panicked then s
    else
      match a
      case Submit(msg) =>
        if |s.hub.inbox| < BUFFER then s.(hub := s.hub.(inbox := s.hub.inbox + [msg]), submitted := s.submitted + [msg])
        else s
      case Join(c) =>
        if s.hub.running then s.(hub := s.hub.(clients := s.hub.clients + {c})) else s
      case Leave(c) =>
        if s.hub.running then s.(hub := Unregister(s.hub, c)) else s
      case Next =>
        if s.hub.running && s.hub.inbox != [] then NextMessage(s) else s
      case Receive(c) =>
        var ch := Chan(s.hub.channels, c);
        if ch.queue == [] then s
        else s.(hub := s.hub.(channels := s.hub.channels[c := ch.(queue := ch.queue[1..])]),
                consumed := s.consumed[c := Of(s.consumed, c) + [ch.queue[0]]])
      case Shutdown =>
        if s.hub.running then s.(hub := Stop(s.hub)) else s
  }

  function NextMessage(s: System): System
    requires s.hub.inbox != []
  {
    var hub := Deliver(s.hub);
    if hub.panicked then s.(hub := hub)
    else
      var msg := s.hub.inbox[0];
      s.(hub := hub,
         processed := s.processed + [msg],
         offered := OfferedTo(s.offered, s.hub.clients, msg),
         drops := s.drops + multiset(FullAmong(s.hub.channels, s.hub.clients)))
  }

  function After(actions: seq<Action>): System {
    if actions == [] then START else Do(After(actions[..|actions| - 1]), actions[|actions| - 1])
  }

  // ---- what each step changes, client by client

  ghost predicate Live(s: System) {
    s.hub.running && !s.hub.panicked
  }

  lemma JoinChanges(s: System, c: ClientId)
    requires Live(s)
    ensures var s' := Do(s, Join(c));
            s'.hub.clients == s.hub.clients + {c} && s' == s.(hub := s.hub.(clients := s'.hub.clients))
  {
  }

  // Only the client that leaves is taken off the hub, and only its channel is closed.
  lemma LeaveChanges(s: System, c: ClientId)
    requires Live(s) && (c in s.hub.clients ==> !Chan(s.hub.channels, c).closed)
    ensures var s' := Do(s, Leave(c));
            && Live(s') && s'.hub.clients == s.hub.clients - {c}
            && s' == s.(hub := s.hub.(clients := s'.hub.clients, channels := s'.hub.channels))
            && forall other :: Chan(s'.hub.channels, other)
                 == if other == c && c in s.hub.clients then Channel(Chan(s.hub.channels, c).queue, true)
                    else Chan(s.hub.channels, other)
  {
  }

  lemma SubmitChanges(s: System, msg: Message)
    requires Live(s)
    ensures var s' := Do(s, Submit(msg));
            if |s.hub.inbox| >= 256 then s' == s
            else s' == s.(hub := s.hub.(inbox := s.hub.inbox + [msg]), submitted := s.submitted + [msg])
  {
  }

  // The first waiting message goes to every registered client that has room.
  lemma NextChanges(s: System)
    requires Live(s) && s.hub.inbox != [] && forall c :: c in s.hub.clients ==> !Chan(s.hub.channels, c).closed
    ensures var s', msg := Do(s, Next), s.hub.inbox[0];
            && Live(s') && s'.hub.clients == s.hub.clients && s'.hub.inbox == s.hub.inbox[1..]
            && s'.processed == s.processed + [msg] && s'.submitted == s.submitted && s'.consumed == s.consumed
            && s'.hub.dropped == s.hub.dropped + |set c | c in s.hub.clients && |Chan(s.hub.channels, c).queue| >= 256|
            && forall c :: var ch := Chan(s.hub.channels, c);
                 Chan(s'.hub.channels, c)
                 == if c in s.hub.clients && |ch.queue| < 256 then Channel(ch.queue + [msg], ch.closed) else ch
  {
  }

  // A client takes the first message waiting for it, also after its channel was closed.
  lemma ReceiveChanges(s: System, c: ClientId)
    requires !s.hub.panicked && Chan(s.hub.channels, c).queue != []
    ensures var s', ch := Do(s, Receive(c)), Chan(s.hub.channels, c);
            && s'.hub == s.hub.(channels := s'.hub.channels)
            && Of(s'.consumed, c) == Of(s.consumed, c) + [ch.queue[0]]
            && (forall other :: other != c ==> Of(s'.consumed, other) == Of(s.consumed, other))
            && forall other :: Chan(s'.hub.channels, other)
                 == if other == c then Channel(ch.queue[1..], ch.closed) else Chan(s.hub.channels, other)
  {
  }

  // Shutting down closes the channels of all registered clients.
  lemma ShutdownChanges(s: System)
    requires Live(s) && forall c :: c in s.hub.clients ==> !Chan(s.hub.channels, c).closed
    ensures var s' := Do(s, Shutdown);
            && !s'.hub.running && !s'.hub.panicked && s'.hub.clients == {}
            && s' == s.(hub := s.hub.(running := false, clients := {}, channels := s'.hub.channels))
            && forall c :: Chan(s'.hub.channels, c)
                 == if c in s.hub.clients then Channel(Chan(s.hub.channels, c).queue, true) else Chan(s.hub.channels, c)
  {
  }

  // ---- who is registered, from the history alone

  // The client has joined and not left since.
  ghost predicate HasJoined(actions: seq<Action>, c: ClientId) {
    exists i :: 0 <= i < |actions| && actions[i] == Join(c) && forall j :: i < j < |actions| ==> actions[j] != Leave(c)
  }

  ghost predicate Registered(actions: seq<Action>, c: ClientId) {
    Shutdown !in actions && HasJoined(actions, c)
  }

  lemma JoinedNext(actions: seq<Action>, a: Action, c: ClientId)
    ensures HasJoined(actions + [a], c) <==> a == Join(c) || (HasJoined(actions, c) && a != Leave(c))
  {
    var all, n := actions + [a], |actions|;
    assert all[n] == a && forall i :: 0 <= i < n ==> all[i] == actions[i];
    if a == Join(c) { assert all[n] == Join(c); }
    if HasJoined(actions, c) && a != Leave(c) {
      var i :| 0 <= i < n && actions[i] == Join(c) && forall j :: i < j < n ==> actions[j] != Leave(c);
      assert all[i] == Join(c) && forall j :: i < j < |all| ==> all[j] != Leave(c);
    }
    if HasJoined(all, c) && a != Join(c) {
      var i :| 0 <= i < |all| && all[i] == Join(c) && forall j :: i < j < |all| ==> all[j] != Leave(c);
      assert i < n && actions[i] == Join(c) && forall j :: i < j < n ==> actions[j] != Leave(c);
      assert all[n] != Leave(c);
    }
  }

  lemma RegisteredNext(actions: seq<Action>, a: Action, c: ClientId)
    ensures Registered(actions + [a], c)
            <==> !a.Shutdown? && Shutdown !in actions && (a == Join(c) || (HasJoined(actions, c) && a != Leave(c)))
  {
    JoinedNext(actions, a, c);
  }

  lemma MembersNext(s: System, a: Action, c: ClientId)
    requires !s.hub.panicked && !Do(s, a).hub.panicked && (!s.hub.running ==> s.hub.clients == {})
    ensures Do(s, a).hub.running <==> s.hub.running && !a.Shutdown?
    ensures c in Do(s, a).hub.clients
            <==> s.hub.running && !a.Shutdown? && (a == Join(c) || (c in s.hub.clients && a != Leave(c)))
  {
  }

  // As long as nothing has panicked, the hub's clients are exactly those that
  // have joined and not left since, until it is shut down.
  lemma {:induction false} WhoIsRegistered(actions: seq<Action>, c: ClientId)
    ensures !After(actions).hub.panicked ==>
              && (After(actions).hub.running <==> Shutdown !in actions)
              && (c in After(actions).hub.clients <==> Registered(actions, c))
              && (!After(actions).hub.running ==> After(actions).hub.clients == {})
  {
    if actions != [] {
      var front, a := actions[..|actions| - 1], actions[|actions| - 1];
      assert actions == front + [a];
      WhoIsRegistered(front, c);
      RegisteredNext(front, a, c);
      if !After(actions).hub.panicked {
        MembersNext(After(front), a, c);
      }
    }
  }

  // The messages processed while the history says that the client was registered.
  function NewlyProcessed(actions: seq<Action>): seq<Message>
    requires actions != []
  {
    var before, now := After(actions[..|actions| - 1]).processed, After(actions).processed;
    if |before| <= |now| then now[|before|..] else []
  }

  ghost function Heard(actions: seq<Action>, c: ClientId): seq<Message> {
    if actions == [] then []
    else
      var front := actions[..|actions| - 1];
      Heard(front, c) + if Registered(front, c) then NewlyProcessed(actions) else []
  }

  lemma OfferedNext(s: System, a: Action, c: ClientId)
    ensures var s' := Do(s, a);
            && |s.processed| <= |s'.processed|
            && Of(s'.offered, c) == Of(s.offered, c) + (if c in s.hub.clients then s'.processed[|s.processed|..] else [])
            && (s'.processed != s.processed ==> !s.hub.panicked)
  {
    if !a.Next? {
      OtherSteps(s, a, c);
    } else if s.hub.running && s.hub.inbox != [] && !s.hub.panicked && !AnyClosed(s.hub) {
      NextFor(s, c);
    }
  }

  // A client is offered exactly these.
  lemma {:induction false} OfferedIsHeard(actions: seq<Action>, c: ClientId)
    ensures Of(After(actions).offered, c) == Heard(actions, c)
  {
    if actions != [] {
      var front := actions[..|actions| - 1];
      OfferedIsHeard(front, c);
      WhoIsRegistered(front, c);
      OfferedNext(After(front), actions[|actions| - 1], c);
    }
  }

  // ---- order-preserving subsequences

  ghost predicate Within(a: seq<Message>, b: seq<Message>) {
    a == []
    || (b != [] && ((a[|a| - 1] == b[|b| - 1] && Within(a[..|a| - 1], b[..|b| - 1])) || Within(a, b[..|b| - 1])))
  }

  lemma WithinBoth(a: seq<Message>, b: seq<Message>, m: Message)
    requires Within(a, b)
    ensures Within(a + [m], b + [m])
  {
    assert (a + [m])[..|a|] == a && (b + [m])[..|b|] == b;
  }

  lemma WithinLonger(a: seq<Message>, b: seq<Message>, m: Message)
    requires Within(a, b)
    ensures Within(a, b + [m])
  {
    assert (b + [m])[..|b|] == b;
  }

  // ---- accounting

  // What a client took and what waits for it, in order.
  function Got(s: System, c: ClientId): seq<Message> {
    Of(s.consumed, c) + Chan(s.hub.channels, c).queue
  }

  ghost predicate Accounted(s: System, c: ClientId) {
    && |Got(s, c)| + s.drops[c] == |Of(s.offered, c)|
    && Within(Got(s, c), Of(s.offered, c))
    && Within(Of(s.offered, c), s.processed)
    && |Chan(s.hub.channels, c).queue| <= BUFFER
  }

  ghost predicate Ledger(s: System) {
    && (forall c :: Accounted(s, c))
    && s.hub.dropped == |s.drops|
    && s.submitted == s.processed + s.hub.inbox
    && |s.hub.inbox| <= BUFFER
  }

  lemma NextFor(s: System, c: ClientId)
    requires s.hub.inbox != [] && !s.hub.panicked && !AnyClosed(s.hub)
    ensures var s', msg, queue := NextMessage(s), s.hub.inbox[0], Chan(s.hub.channels, c).queue;
            var got := c in s.hub.clients && |queue| < BUFFER;
            && Of(s'.consumed, c) == Of(s.consumed, c)
            && Chan(s'.hub.channels, c).queue == (if got then queue + [msg] else queue)
            && Of(s'.offered, c) == (if c in s.hub.clients then Of(s.offered, c) + [msg] else Of(s.offered, c))
            && s'.drops[c] == s.drops[c] + (if c in s.hub.clients && !got then 1 else 0)
            && s'.processed == s.processed + [msg]
  {
  }

  lemma NextAccounted(s: System, c: ClientId)
    requires s.hub.inbox != [] && !s.hub.panicked && !AnyClosed(s.hub) && Accounted(s, c)
    ensures Accounted(NextMessage(s), c)
  {
    var msg := s.hub.inbox[0];
    var queue := Chan(s.hub.channels, c).queue;
    NextFor(s, c);
    assert Of(s.consumed, c) + (queue + [msg]) == Got(s, c) + [msg];
    if c in s.hub.clients {
      WithinBoth(Of(s.offered, c), s.processed, msg);
      WithinBoth(Got(s, c), Of(s.offered, c), msg);
      WithinLonger(Got(s, c), Of(s.offered, c), msg);
    } else {
      WithinLonger(Of(s.offered, c), s.processed, msg);
    }
  }

  // Every step but the processing of a message leaves a client's account as it is.
  lemma OtherSteps(s: System, a: Action, c: ClientId)
    requires !a.Next?
    ensures var s' := Do(s, a);
            && Got(s', c) == Got(s, c) && s'.drops == s.drops && s'.offered == s.offered && s'.processed == s.processed
            && |Chan(s'.hub.channels, c).queue| <= |Chan(s.hub.channels, c).queue|
  {
  }

  lemma StepAccounted(s: System, a: Action, c: ClientId)
    requires Accounted(s, c)
    ensures Accounted(Do(s, a), c)
  {
    if !a.Next? {
      OtherSteps(s, a, c);
    } else if s.hub.running && s.hub.inbox != [] && !s.hub.panicked && !AnyClosed(s.hub) {
      NextAccounted(s, c);
    }
  }

  lemma StepCounters(s: System, a: Action)
    requires s.hub.dropped == |s.drops| && s.submitted == s.processed + s.hub.inbox && |s.hub.inbox| <= BUFFER
    ensures var s' := Do(s, a);
            s'.hub.dropped == |s'.drops| && s'.submitted == s'.processed + s'.hub.inbox && |s'.hub.inbox| <= BUFFER
  {
    if a.Next? && s.hub.inbox != [] {
      assert s.processed + [s.hub.inbox[0]] + s.hub.inbox[1..] == s.processed + s.hub.inbox;
    }
  }

  lemma StepLedger(s: System, a: Action)
    requires Ledger(s)
    ensures Ledger(Do(s, a))
  {
    forall c ensures Accounted(Do(s, a), c) {
      StepAccounted(s, a, c);
    }
    StepCounters(s, a);
  }

  // Over every interleaving and for every client: messages processed while it
  // was registered, by the history, = taken + waiting + dropped; what it took and what waits is
  // an order-preserving selection of the broadcasts; no queue exceeds its
  // bound; the drop counter is the sum of all drops; nothing is lost on the
  // way to the loop.
  lemma AlwaysAccounted(actions: seq<Action>)
    ensures Ledger(After(actions))
    ensures forall c :: Of(After(actions).offered, c) == Heard(actions, c)
  {
    LedgerKept(actions);
    forall c ensures Of(After(actions).offered, c) == Heard(actions, c) {
      OfferedIsHeard(actions, c);
    }
  }

  lemma {:induction false} LedgerKept(actions: seq<Action>)
    ensures Ledger(After(actions))
  {
    if actions == [] {
    } else {
      LedgerKept(actions[..|actions| - 1]);
      StepLedger(After(actions[..|actions| - 1]), actions[|actions| - 1]);
    }
  }

  // ---- closed channels

  // One step from a state without a registered closed channel leads to such a
  // state again, without a panic, unless it registers a closed channel.
  lemma StepSafe(s: System, a: Action)
    requires !s.hub.panicked && !AnyClosed(s.hub)
    ensures !Do(s, a).hub.panicked
    ensures !AnyClosed(Do(s, a).hub) <==> !(s.hub.running && a.Join? && Chan(s.hub.channels, a.c).closed)
  {
    var hub, hub' := s.hub, Do(s, a).hub;
    match a
    case Join(c) =>
      if s.hub.running && Chan(hub.channels, c).closed {
        assert c in hub'.clients && Chan(hub'.channels, c).closed;
      }
    case _ =>
      forall c | c in hub'.clients ensures !Chan(hub'.channels, c).closed {
        assert c in hub.clients ==> !Chan(hub.channels, c).closed;
      }
  }

  // The channel was closed: the client left, or the hub stopped, while it was registered.
  ghost predicate WasClosed(actions: seq<Action>, c: ClientId) {
    exists i :: 0 <= i < |actions| && ClosesAt(actions, i, c)
  }

  ghost predicate ClosesAt(actions: seq<Action>, i: nat, c: ClientId)
    requires i < |actions|
  {
    (actions[i] == Leave(c) || actions[i] == Shutdown) && Registered(actions[..i], c)
  }

  lemma ClosedNext(s: System, a: Action, c: ClientId)
    requires !s.hub.panicked && !Do(s, a).hub.panicked && (!s.hub.running ==> s.hub.clients == {})
    ensures Chan(Do(s, a).hub.channels, c).closed
            <==> Chan(s.hub.channels, c).closed || (c in s.hub.clients && (a == Leave(c) || a == Shutdown))
  {
  }

  lemma WasClosedNext(actions: seq<Action>, a: Action, c: ClientId)
    ensures WasClosed(actions + [a], c)
            <==> WasClosed(actions, c) || ((a == Leave(c) || a == Shutdown) && Registered(actions, c))
  {
    var all, n := actions + [a], |actions|;
    assert all[..n] == actions && all[n] == a;
    forall i | 0 <= i < n ensures ClosesAt(all, i, c) <==> ClosesAt(actions, i, c) {
      assert all[..i] == actions[..i] && all[i] == actions[i];
    }
    assert ClosesAt(all, n, c) <==> (a == Leave(c) || a == Shutdown) && Registered(actions, c);
  }

  // As long as nothing has panicked, exactly those channels are closed.
  lemma {:induction false} WhoIsClosed(actions: seq<Action>, c: ClientId)
    ensures !After(actions).hub.panicked ==> (Chan(After(actions).hub.channels, c).closed <==> WasClosed(actions, c))
  {
    if actions != [] {
      var front, a := actions[..|actions| - 1], actions[|actions| - 1];
      assert actions == front + [a];
      WhoIsClosed(front, c);
      WhoIsRegistered(front, c);
      WasClosedNext(front, a, c);
      if !After(actions).hub.panicked {
        ClosedNext(After(front), a, c);
      }
    }
  }

  ghost predicate Joined(actions: seq<Action>, c: ClientId) {
    exists i :: 0 <= i < |actions| && actions[i] == Join(c)
  }

  ghost predicate JoinsOnce(actions: seq<Action>) {
    forall i, j :: 0 <= i < j < |actions| && actions[i].Join? ==> actions[i] != actions[j]
  }

  // Only a client that joined is registered, and only its channel can be closed.
  lemma {:induction false} OnlyJoined(actions: seq<Action>, c: ClientId)
    ensures c in After(actions).hub.clients || Chan(After(actions).hub.channels, c).closed ==> Joined(actions, c)
  {
    if actions != [] {
      var front, a := actions[..|actions| - 1], actions[|actions| - 1];
      OnlyJoined(front, c);
      if Joined(front, c) {
        var i :| 0 <= i < |front| && front[i] == Join(c);
        assert actions[i] == Join(c);
      } else if a == Join(c) {
        assert actions[|actions| - 1] == Join(c);
      }
    }
  }

  // If every client registers at most once, no channel is ever used after it
  // was closed, in any interleaving.
  lemma {:induction false} NeverPanics(actions: seq<Action>)
    requires JoinsOnce(actions)
    ensures !After(actions).hub.panicked && !AnyClosed(After(actions).hub)
  {
    if actions != [] {
      var front, a := actions[..|actions| - 1], actions[|actions| - 1];
      NeverPanics(front);
      if a.Join? {
        OnlyJoined(front, a.c);
        assert forall i :: 0 <= i < |front| ==> front[i] == actions[i] && actions[i] != a;
      }
      StepSafe(After(front), a);
    }
  }

  lemma Snoc(actions: seq<Action>, a: Action)
    ensures After(actions + [a]) == Do(After(actions), a)
  {
    assert (actions + [a])[..|actions|] == actions;
  }

  // A client that comes back after it has left, with its old channel, brings
  // the hub down at the next broadcast.
  lemma RejoiningPanics(actions: seq<Action>, c: ClientId, msg: Message)
    requires var hub := After(actions).hub; !hub.panicked && hub.running && hub.inbox == []
    requires Chan(After(actions).hub.channels, c).closed
    ensures After(actions + [Join(c)] + [Submit(msg)] + [Next]).hub.panicked
  {
    Snoc(actions, Join(c));
    Snoc(actions + [Join(c)], Submit(msg));
    Snoc(actions + [Join(c)] + [Submit(msg)], Next);
    var hub := After(actions + [Join(c)] + [Submit(msg)]).hub;
    assert c in hub.clients && Chan(hub.channels, c).closed;
  }

  // Joining and leaving is enough to get there.
  lemma RejoiningHappens(c: ClientId, msg: Message)
    ensures After([Join(c)] + [Leave(c)] + [Join(c)] + [Submit(msg)] + [Next]).hub.panicked
  {
    Snoc([], Join(c));
    Snoc([Join(c)], Leave(c));
    assert [] + [Join(c)] == [Join(c)];
    RejoiningPanics([Join(c)] + [Leave(c)], c, msg);
  }
}
