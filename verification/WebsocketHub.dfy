/** The websocket hub: one goroutine owns the set of connections and closes their send channels, while
    every connection's writer drains its own channel at any time. */
module WebsocketHub {
  type Conn = nat   // a connection's address
  type Message = string

  const CAPACITY := 256

  /** A buffered channel, and what its writer has taken out of it; sending on a closed one, or closing
      it again, is a runtime panic. */
  datatype Channel = Channel(buffer: seq<Message>, closed: bool, received: seq<Message>)

  datatype HubState = HubState(connections: set<Conn>, channels: map<Conn, Channel>, panicked: bool)

  /** All that was ever put in the channel: what was received, then what still waits. */
  function Flow(ch: Channel): seq<Message> {
    ch.received + ch.buffer
  }

  /** A writer has received from the front of the channel. */
  ghost predicate Taken(before: Channel, after: Channel) {
    after.closed == before.closed && before.received <= after.received && Flow(after) == Flow(before)
  }

  ghost predicate Drained(h: HubState, h': HubState) {
    && h'.connections == h.connections && h'.panicked == h.panicked && h'.channels.Keys == h.channels.Keys
    && forall c :: c in h.channels ==> Taken(h.channels[c], h'.channels[c])
  }

  ghost predicate Registered(h: HubState, h': HubState, c: Conn) {
    h' == h.(connections := h.connections + {c})
  }

  ghost predicate Unregistered(h: HubState, h': HubState, c: Conn)
    requires h.connections <= h.channels.Keys
  {
    h' == if c !in h.connections then h
          else HubState(h.connections - {c}, h.channels[c := h.channels[c].(closed := true)],
                        h.panicked || h.channels[c].closed)
  }

  /** c is offered m without waiting: it takes it, or is dropped because its channel is full. */
  function Offered(h: HubState, c: Conn, m: Message): HubState
    requires c in h.channels
  {
    var ch := h.channels[c];
    if ch.closed then h.(panicked := true)
    else if |ch.buffer| < CAPACITY then h.(channels := h.channels[c := ch.(buffer := ch.buffer + [m])])
    else h.(connections := h.connections - {c}, channels := h.channels[c := ch.(closed := true)])
  }

  /** What offering m did to one channel while its writer kept draining it: the message came last, or
      the channel was full, was closed and lost its place among the connections. */
  ghost predicate OfferedTo(h: HubState, h': HubState, m: Message, c: Conn)
    requires c in h.channels && c in h'.channels
  {
    var before, after := h.channels[c], h'.channels[c];
    if c !in h.connections then Taken(before, after) && c !in h'.connections
    else if c in h'.connections
    then Taken(before.(buffer := before.buffer + [m]), after) && !after.closed && |after.buffer| <= CAPACITY
    else |before.buffer| >= CAPACITY && Taken(before.(closed := true), after)
  }

  ghost predicate NotYet(h: HubState, h': HubState, c: Conn)
    requires c in h.channels && c in h'.channels
  {
    c in h.connections && c in h'.connections && Taken(h.channels[c], h'.channels[c])
  }

  /** The range loop over the connections, with todo still to come. */
  ghost predicate Broadcasting(h: HubState, h': HubState, m: Message, todo: set<Conn>) {
    && h'.channels.Keys == h.channels.Keys && !h'.panicked && h'.connections <= h.connections
    && forall c :: c in h.channels ==> if c in todo then NotYet(h, h', c) else OfferedTo(h, h', m, c)
  }

  /** m was offered to every connection, in any order; a closed connection would have been fatal. */
  ghost predicate Broadcasted(h: HubState, h': HubState, m: Message)
    requires h.connections <= h.channels.Keys
  {
    if exists c :: c in h.connections && h.channels[c].closed then h'.panicked
    else Broadcasting(h, h', m, {})
  }

  lemma {:induction false} TakenTrans(a: Channel, b: Channel, c: Channel)
    requires Taken(a, b) && Taken(b, c)
    ensures Taken(a, c) && |c.buffer| <= |b.buffer| <= |a.buffer|
  {
    assert |Flow(a)| == |Flow(b)| == |Flow(c)|;
  }

  function Receive(ch: Channel): Channel
    requires ch.buffer != []
  {
    ch.(buffer := ch.buffer[1..], received := ch.received + [ch.buffer[0]])
  }

  lemma {:induction false} ReceivingTakes(ch: Channel)
    requires ch.buffer != []
    ensures Taken(ch, Receive(ch))
  {
    assert ch.buffer == [ch.buffer[0]] + ch.buffer[1..];
    assert ch.received + [ch.buffer[0]] + ch.buffer[1..] == ch.received + ch.buffer;
  }

  lemma {:induction false} ReceivingKeeps(h: HubState, h': HubState, c: Conn)
    requires Drained(h, h') && c in h'.channels && h'.channels[c].buffer != []
    ensures Drained(h, h'.(channels := h'.channels[c := Receive(h'.channels[c])]))
  {
    ReceivingTakes(h'.channels[c]);
    TakenTrans(h.channels[c], h'.channels[c], Receive(h'.channels[c]));
  }

  lemma {:induction false} DrainingKeeps(h: HubState, h1: HubState, h2: HubState, m: Message, todo: set<Conn>)
    requires Broadcasting(h, h1, m, todo) && Drained(h1, h2)
    ensures Broadcasting(h, h2, m, todo)
  {
    forall c | c in h.channels ensures if c in todo then NotYet(h, h2, c) else OfferedTo(h, h2, m, c) {
      var before, mid, after := h.channels[c], h1.channels[c], h2.channels[c];
      assert if c in todo then NotYet(h, h1, c) else OfferedTo(h, h1, m, c);
      if c in todo || c !in h.connections {
        TakenTrans(before, mid, after);
      } else if c in h1.connections {
        TakenTrans(before.(buffer := before.buffer + [m]), mid, after);
      } else {
        TakenTrans(before.(closed := true), mid, after);
      }
    }
  }

  /** Offering one message to a channel that so far has only been drained. */
  lemma {:induction false} OfferAppends(before: Channel, now: Channel, m: Message)
    requires Taken(before, now)
    ensures Taken(before.(buffer := before.buffer + [m]), now.(buffer := now.buffer + [m]))
    ensures Taken(before.(closed := true), now.(closed := true)) && |now.buffer| <= |before.buffer|
  {
    assert Flow(now.(buffer := now.buffer + [m])) == Flow(now) + [m];
    assert Flow(before.(buffer := before.buffer + [m])) == Flow(before) + [m];
    assert |Flow(now)| == |Flow(before)|;
  }

  lemma {:induction false} OfferingKeeps(h: HubState, h': HubState, m: Message, todo: set<Conn>, c: Conn)
    requires Broadcasting(h, h', m, todo) && c in todo && c in h'.channels && !h'.channels[c].closed
    ensures Broadcasting(h, Offered(h', c, m), m, todo - {c})
  {
    var next := Offered(h', c, m);
    assert NotYet(h, h', c);
    OfferAppends(h.channels[c], h'.channels[c], m);
    forall d | d in h.channels && d != c
      ensures if d in todo - {c} then NotYet(h, next, d) else OfferedTo(h, next, m, d)
    {
      assert if d in todo then NotYet(h, h', d) else OfferedTo(h, h', m, d);
    }
  }

  // ---------- the hub's loop ----------

  class Hub {
    var connections: set<Conn>
    var channels: map<Conn, Channel>
    var panicked: bool

    constructor ()
      ensures Now() == HubState({}, map[], false)
    {
      connections, channels, panicked := {}, map[], false;
    }

    ghost function Now(): HubState
      reads this
    {
      HubState(connections, channels, panicked)
    }

    ghost predicate Valid()
      reads this
    {
      connections <= channels.Keys && forall c :: c in channels ==> |channels[c].buffer| <= CAPACITY
    }

    /** Interference: writers receive from their channels. */
    method Writers()
      requires Valid()
      modifies this`channels
      ensures Valid() && Drained(old(Now()), Now())
    {
      var n: nat :| n >= 0;
      for i := 0 to n
        invariant Valid() && Drained(old(Now()), Now())
      {
        var c: Conn :| c >= 0;
        if c in channels && channels[c].buffer != [] {
          ReceivingKeeps(old(Now()), Now(), c);
          channels := channels[c := Receive(channels[c])];
        }
      }
    }

    method Register(c: Conn)
      requires Valid() && c in channels
      modifies this
      ensures Valid() && Registered(old(Now()), Now(), c)
    {
      connections := connections + {c};
    }

    method Close(c: Conn)
      requires Valid() && c in channels
      modifies this`channels, this`panicked
      ensures channels == old(channels)[c := old(channels)[c].(closed := true)]
      ensures panicked == (old(panicked) || old(channels)[c].closed) && Valid()
    {
      if channels[c].closed {
        panicked := true;
      }
      channels := channels[c := channels[c].(closed := true)];
    }

    method Unregister(c: Conn)
      requires Valid()
      modifies this
      ensures Valid() && Unregistered(old(Now()), Now(), c)
    {
      if c in connections {
        connections := connections - {c};
        Close(c);
      }
    }

    /** Send if the channel has room, without waiting; otherwise drop the connection. */
    method Offer(c: Conn, m: Message)
      requires Valid() && c in channels
      modifies this
      ensures Valid() && Now() == Offered(old(Now()), c, m)
      ensures channels[c].received == old(channels)[c].received
    {
      if channels[c].closed {
        panicked := true;
      } else if |channels[c].buffer| < CAPACITY {
        channels := channels[c := channels[c].(buffer := channels[c].buffer + [m])];
      } else {
        connections := connections - {c};
        Close(c);
      }
    }

    /** The hub ranges over its connections, deleting from the set it ranges over. */
    method Broadcast(m: Message)
      requires Valid() && !panicked
      modifies this
      ensures Valid() && Broadcasted(old(Now()), Now(), m)
    {
      ghost var before := Now();
      var todo := connections;
      while todo != {}
        invariant Valid() && todo <= before.connections
        invariant Broadcasting(before, Now(), m, todo)
        invariant forall c :: c in before.connections - todo ==> !before.channels[c].closed
        decreases |todo|
      {
        ghost var was := Now();
        Writers();
        DrainingKeeps(before, was, Now(), m, todo);
        var c :| c in todo;
        assert NotYet(before, Now(), c);
        ghost var drained := Now();
        Offer(c, m);
        if panicked {
          return;
        }
        OfferingKeeps(before, drained, m, todo, c);
        todo := todo - {c};
      }
    }

    /** One turn of the loop, or what the other goroutines do between two turns. */
    method Turn(e: Event, ghost s: System) returns (ghost s': System)
      requires Valid() && Now() == s.hub && !panicked && s.clients.Keys == channels.Keys && MayCome(PhasesOf(s.clients), e)
      modifies this
      ensures Valid() && Now() == s'.hub && Next(s, e, s')
    {
      match e {
        case Upgrade(c) =>
          channels := channels[c := Channel([], false, [])];
          s' := s.(hub := Now(), clients := s.clients[c := Client(Upgraded, 0)]);
        case Join(c) =>
          Register(c);
          s' := s.(hub := Now(), clients := s.clients[c := Client(Joined, |s.history|)]);
        case Leave(c) =>
          Unregister(c);
          s' := s.(hub := Now(), clients := s.clients[c := s.clients[c].(phase := Left)]);
        case Send(m) =>
          Broadcast(m);
          s' := System(Now(), s.clients, s.history + [m]);
        case Drain =>
          Writers();
          s' := s.(hub := Now());
      }
    }

    /** The loop, for as many turns as come: with every connection registering once and then
        unregistering, it never panics, and it goes through one of the system's runs. */
    method Run(events: seq<Event>) returns (ghost states: seq<System>)
      requires Now() == START.hub && Disciplined(map[], events)
      modifies this
      ensures IsRun(states, events) && Now() == states[|events|].hub && !panicked
    {
      states := [START];
      for i := 0 to |events|
        invariant Valid() && |states| == i + 1 && states[0] == START
        invariant forall j :: 0 <= j < i ==> Next(states[j], events[j], states[j + 1])
        invariant Now() == states[i].hub && Inv(states[i])
        invariant Disciplined(PhasesOf(states[i].clients), events[i..])
      {
        assert events[i..][0] == events[i] && events[i..][1..] == events[i + 1..];
        ghost var next := Turn(events[i], states[i]);
        NextKeepsInv(states[i], events[i], next);
        PhasesFollow(states[i], events[i], next);
        states := states + [next];
      }
    }
  }

  // ---------- whole runs ----------

  /** A connection's handler goroutine: it registers once, and unregisters when its reader ends. */
  datatype Phase = Upgraded | Joined | Left

  /** joinedAt says how much had been broadcast when the client joined. */
  datatype Client = Client(phase: Phase, joinedAt: nat)

  datatype System = System(hub: HubState, clients: map<Conn, Client>, history: seq<Message>)

  datatype Event = Upgrade(c: Conn) | Join(c: Conn) | Leave(c: Conn) | Send(m: Message) | Drain

  const START := System(HubState({}, map[], false), map[], [])

  ghost predicate Next(s: System, e: Event, s': System) {
    && s.hub.connections <= s.hub.channels.Keys
    && match e
       case Upgrade(c) =>
         c !in s.clients && s' == s.(clients := s.clients[c := Client(Upgraded, 0)],
                                     hub := s.hub.(channels := s.hub.channels[c := Channel([], false, [])]))
       case Join(c) =>
         c in s.clients && s.clients[c].phase == Upgraded && Registered(s.hub, s'.hub, c) &&
         s' == s.(hub := s'.hub, clients := s.clients[c := Client(Joined, |s.history|)])
       case Leave(c) =>
         c in s.clients && s.clients[c].phase == Joined && Unregistered(s.hub, s'.hub, c) &&
         s' == s.(hub := s'.hub, clients := s.clients[c := s.clients[c].(phase := Left)])
       case Send(m) =>
         Broadcasted(s.hub, s'.hub, m) &&
         s' == System(s'.hub, s.clients, s.history + [m])
       case Drain => Drained(s.hub, s'.hub) && s' == s.(hub := s'.hub)
  }

  function PhasesOf(clients: map<Conn, Client>): map<Conn, Phase> {
    map c | c in clients :: clients[c].phase
  }

  /** A connection registers once, after it was made, and unregisters once, after it registered. */
  predicate MayCome(phases: map<Conn, Phase>, e: Event) {
    match e
    case Upgrade(c) => c !in phases
    case Join(c) => c in phases && phases[c] == Upgraded
    case Leave(c) => c in phases && phases[c] == Joined
    case _ => true
  }

  function PhasesAfter(phases: map<Conn, Phase>, e: Event): map<Conn, Phase> {
    match e
    case Upgrade(c) => phases[c := Upgraded]
    case Join(c) => phases[c := Joined]
    case Leave(c) => phases[c := Left]
    case _ => phases
  }

  lemma {:induction false} PhasesFollow(s: System, e: Event, s': System)
    requires Next(s, e, s')
    ensures PhasesOf(s'.clients) == PhasesAfter(PhasesOf(s.clients), e)
  {
  }

  predicate Disciplined(phases: map<Conn, Phase>, events: seq<Event>)
    decreases |events|
  {
    events == [] || (MayCome(phases, events[0]) && Disciplined(PhasesAfter(phases, events[0]), events[1..]))
  }

  ghost predicate IsRun(states: seq<System>, events: seq<Event>) {
    |states| == |events| + 1 && states[0] == START &&
    forall i :: 0 <= i < |events| ==> Next(states[i], events[i], states[i + 1])
  }

  /** What went through a client's channel is one stretch of the broadcast history, beginning where it
      joined; while it is connected the stretch reaches the present. */
  ghost predicate Stretch(joinedAt: nat, given: seq<Message>, connected: bool, history: seq<Message>) {
    && joinedAt + |given| <= |history|
    && given == history[joinedAt..joinedAt + |given|]
    && (connected ==> joinedAt + |given| == |history|)
  }

  /** The hub lists a client exactly while it has registered and its channel is open. What its writer has
      received, followed by what waits in the channel, is exactly its stretch: nothing is lost. */
  ghost predicate ClientRight(k: Client, ch: Channel, connected: bool, history: seq<Message>) {
    && (connected <==> k.phase == Joined && !ch.closed)
    && (k.phase == Left ==> ch.closed)
    && (k.phase == Upgraded ==> ch == Channel([], false, []))
    && (k.phase != Upgraded ==> Stretch(k.joinedAt, ch.received + ch.buffer, connected, history))
    && |ch.buffer| <= CAPACITY
  }

  ghost predicate Right(s: System, c: Conn)
    requires c in s.clients && c in s.hub.channels
  {
    ClientRight(s.clients[c], s.hub.channels[c], c in s.hub.connections, s.history)
  }

  ghost predicate Inv(s: System) {
    && !s.hub.panicked && s.clients.Keys == s.hub.channels.Keys && s.hub.connections <= s.hub.channels.Keys
    && forall c :: c in s.clients ==> Right(s, c)
  }

  lemma {:induction false} StretchGrows(joinedAt: nat, given: seq<Message>, history: seq<Message>, m: Message)
    ensures Stretch(joinedAt, given, true, history) ==> Stretch(joinedAt, given + [m], true, history + [m])
    ensures Stretch(joinedAt, given, false, history) ==> Stretch(joinedAt, given, false, history + [m])
  {
    var to := joinedAt + |given|;
    if to <= |history| {
      assert (history + [m])[joinedAt..to] == history[joinedAt..to];
      if to == |history| {
        assert (history + [m])[joinedAt..to + 1] == history[joinedAt..] + [m];
      }
    }
  }

  lemma {:induction false} SendKeepsClient(s: System, m: Message, s': System, c: Conn)
    requires c in s.clients && c in s.hub.channels && c in s'.hub.channels && Right(s, c)
    requires OfferedTo(s.hub, s'.hub, m, c)
    ensures ClientRight(s.clients[c], s'.hub.channels[c], c in s'.hub.connections, s.history + [m])
  {
    var k, before, after := s.clients[c], s.hub.channels[c], s'.hub.channels[c];
    StretchGrows(k.joinedAt, Flow(before), s.history, m);
    if c in s'.hub.connections {
      assert Flow(before.(buffer := before.buffer + [m])) == Flow(before) + [m];
    } else {
      assert Flow(before.(closed := true)) == Flow(before) && Flow(after) == Flow(before);
      assert |after.buffer| <= |before.buffer|;
    }
  }

  lemma {:induction false} ListedAreOpen(s: System)
    requires Inv(s)
    ensures forall c :: c in s.hub.connections ==> !s.hub.channels[c].closed
  {
    forall c | c in s.hub.connections ensures !s.hub.channels[c].closed { assert Right(s, c); }
  }

  lemma {:induction false} SendKeepsInv(s: System, m: Message, s': System)
    requires Inv(s) && Next(s, Send(m), s')
    ensures Inv(s')
  {
    ListedAreOpen(s);
    assert Broadcasting(s.hub, s'.hub, m, {});
    forall c | c in s'.clients ensures Right(s', c) {
      assert Right(s, c);
      assert OfferedTo(s.hub, s'.hub, m, c);
      SendKeepsClient(s, m, s', c);
    }
  }

  lemma {:induction false} DrainKeepsInv(s: System, s': System)
    requires Inv(s) && Next(s, Drain, s')
    ensures Inv(s')
  {
    forall c | c in s'.clients ensures Right(s', c) {
      assert Right(s, c);
      TakenTrans(s.hub.channels[c], s.hub.channels[c], s'.hub.channels[c]);
    }
  }

  /** The other clients: what an event leaves alone stays right. */
  ghost predicate SameBut(s: System, s': System, c: Conn) {
    && s'.history == s.history && s'.clients.Keys == s.clients.Keys + {c} && s'.hub.channels.Keys == s.hub.channels.Keys + {c}
    && s.hub.connections - {c} <= s'.hub.connections <= s.hub.connections + {c}
    && forall d :: d in s.clients && d in s.hub.channels && d != c ==>
         s'.clients[d] == s.clients[d] && s'.hub.channels[d] == s.hub.channels[d]
  }

  lemma {:induction false} OneClientKeepsInv(s: System, c: Conn, s': System)
    requires Inv(s) && SameBut(s, s', c) && !s'.hub.panicked && Right(s', c)
    ensures Inv(s')
  {
    forall d | d in s'.clients && d != c ensures Right(s', d) {
      assert Right(s, d);
      assert d in s.hub.connections ==> d in s.hub.connections - {c};
    }
  }

  lemma {:induction false} UpgradeKeepsInv(s: System, c: Conn, s': System)
    requires Inv(s) && Next(s, Upgrade(c), s')
    ensures Inv(s')
  {
    OneClientKeepsInv(s, c, s');
  }

  lemma {:induction false} JoinIsSameBut(s: System, c: Conn, s': System)
    requires Next(s, Join(c), s') && c in s.hub.channels
    ensures SameBut(s, s', c)
  {
  }

  lemma {:induction false} JoinKeepsInv(s: System, c: Conn, s': System)
    requires Inv(s) && Next(s, Join(c), s')
    ensures Inv(s')
  {
    assert c in s.clients && c in s.hub.channels;
    assert s.hub.channels[c] == Channel([], false, []) by { assert Right(s, c); }
    JoinIsSameBut(s, c, s');
    JoiningIsRight(s.history);
    assert Right(s', c);
    OneClientKeepsInv(s, c, s');
  }

  lemma {:induction false} JoiningIsRight(history: seq<Message>)
    ensures ClientRight(Client(Joined, |history|), Channel([], false, []), true, history)
  {
  }

  lemma {:induction false} LeavingIsRight(k: Client, ch: Channel, connected: bool, history: seq<Message>)
    requires ClientRight(k, ch, connected, history) && k.phase == Joined
    ensures ClientRight(k.(phase := Left), ch.(closed := true), false, history)
  {
  }

  lemma {:induction false} LeaveIsSameBut(s: System, c: Conn, s': System)
    requires Next(s, Leave(c), s') && c in s.hub.channels && c in s.clients
    ensures SameBut(s, s', c)
  {
  }

  /** A channel is open exactly while the hub lists its connection, so this close is the first. */
  lemma {:induction false} LeaveIsRight(s: System, c: Conn, s': System)
    requires Next(s, Leave(c), s') && c in s.hub.channels && Right(s, c) && !s.hub.panicked
    ensures c in s'.clients && c in s'.hub.channels && Right(s', c) && !s'.hub.panicked
  {
    LeavingIsRight(s.clients[c], s.hub.channels[c], c in s.hub.connections, s.history);
    assert c !in s.hub.connections ==> s.hub.channels[c].(closed := true) == s.hub.channels[c];
  }

  lemma {:induction false} LeaveKeepsInv(s: System, c: Conn, s': System)
    requires Inv(s) && Next(s, Leave(c), s')
    ensures Inv(s')
  {
    assert c in s.clients && c in s.hub.channels;
    assert Right(s, c);
    LeaveIsSameBut(s, c, s');
    LeaveIsRight(s, c, s');
    OneClientKeepsInv(s, c, s');
  }

  lemma {:induction false} NextKeepsInv(s: System, e: Event, s': System)
    requires Inv(s) && Next(s, e, s')
    ensures Inv(s')
  {
    match e
    case Send(m) => SendKeepsInv(s, m, s');
    case Drain => DrainKeepsInv(s, s');
    case Upgrade(c) => UpgradeKeepsInv(s, c, s');
    case Join(c) => JoinKeepsInv(s, c, s');
    case Leave(c) => LeaveKeepsInv(s, c, s');
  }

  /** In every run the hub never sends on a closed channel and never closes one twice, and what a client
      has received and what still waits for it are together exactly its stretch of the history. */
  lemma {:induction false} RunsAreSafe(states: seq<System>, events: seq<Event>, i: nat)
    requires IsRun(states, events) && i <= |events|
    ensures Inv(states[i])
  {
    if i > 0 {
      RunsAreSafe(states, events, i - 1);
      assert Next(states[i - 1], events[i - 1], states[i - 1 + 1]);
      NextKeepsInv(states[i - 1], events[i - 1], states[i]);
    }
  }

  lemma {:induction false} DroppedWereFull(h: HubState, h': HubState, m: Message, c: Conn)
    requires Broadcasting(h, h', m, {}) && c in h.channels && c in h.connections && c !in h'.connections
    ensures |h.channels[c].buffer| >= CAPACITY && h'.channels[c].closed
  {
    assert OfferedTo(h, h', m, c);
  }

  /** A client loses its place in a broadcast only with a full channel of messages it has not read. */
  lemma {:induction false} DroppedOnlyWhenFull(s: System, m: Message, s': System, c: Conn)
    requires Inv(s) && Next(s, Send(m), s') && c in s.hub.connections && c !in s'.hub.connections
    ensures |s.hub.channels[c].buffer| == 256 && s'.hub.channels[c].closed
  {
    ListedAreOpen(s);
    DroppedWereFull(s.hub, s'.hub, m, c);
    assert Right(s, c);
  }

  /** Registering once is what this rests on: a connection registered again after its channel was
      closed makes the next broadcast panic, and so does its unregistering. */
  lemma {:induction false} RegisteringTwiceIsFatal(h: HubState, again: HubState, next: HubState, c: Conn, m: Message)
    requires h.connections <= h.channels.Keys && c in h.channels && h.channels[c].closed && Registered(h, again, c)
    requires Broadcasted(again, next, m) || Unregistered(again, next, c)
    ensures next.panicked
  {
    assert c in again.connections && again.channels[c].closed;
  }
}
