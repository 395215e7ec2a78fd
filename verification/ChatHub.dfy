/** The live chat hub of internal/chat/handler.go: one loop serves registrations,
    unregistrations and broadcasts; each client has a bounded outbound channel that its
    write pump drains at its own pace.

    A client is identified by its connection. Each hub iteration is one atomic step. */
module ChatHub {

  type Conn = nat
  type Stream = string

  datatype Message = Message(stream: Stream, user: string, text: string)

  const SEND_BUFFER: nat := 64

  /** A client's channel. `sent` lists all that was ever put in and `received` all that
      the write pump took out; neither is looked at by the hub. */
  datatype Channel = Channel(
    stream: Stream,
    buffer: seq<Message>,
    closed: bool,
    sent: seq<Message>,
    received: seq<Message>)

  /** `panicked` is set by a send on a closed channel and by a second close. */
  datatype State = State(
    rooms: map<Stream, set<Conn>>,
    channels: map<Conn, Channel>,
    panicked: bool)

  datatype Event =
    | Register(conn: Conn, stream: Stream)
    | Unregister(conn: Conn)
    | Broadcast(message: Message)
    | Drain(conn: Conn)

  function Room(rooms: map<Stream, set<Conn>>, stream: Stream): set<Conn> {
    if stream in rooms then rooms[stream] else {}
  }

  /** A send that does not block: a full channel is closed instead. */
  function Offer(ch: Channel, m: Message): Channel {
    if |ch.buffer| < SEND_BUFFER then ch.(buffer := ch.buffer + [m], sent := ch.sent + [m])
    else ch.(closed := true)
  }

  function Take(ch: Channel): Channel {
    if ch.buffer == [] then ch
    else ch.(buffer := ch.buffer[1..], received := ch.received + [ch.buffer[0]])
  }

  function Step(s: State, e: Event): State {
    match e
    case Register(conn, stream) =>
      s.(rooms := s.rooms[stream := Room(s.rooms, stream) + {conn}],
         channels := s.channels[conn := Channel(stream, [], false, [], [])])
    case Unregister(conn) =>
      if conn !in s.channels || conn !in Room(s.rooms, s.channels[conn].stream) then s
      else
        var ch := s.channels[conn];
        var room := s.rooms[ch.stream] - {conn};
        s.(rooms := if room == {} then s.rooms - {ch.stream} else s.rooms[ch.stream := room],
           channels := s.channels[conn := ch.(closed := true)],
           panicked := s.panicked || ch.closed)
    case Broadcast(m) =>
      var room := Room(s.rooms, m.stream);
      s.(rooms := if m.stream in s.rooms
                  then s.rooms[m.stream := set c | c in room && !(c in s.channels && Full(s.channels[c]))]
                  else s.rooms,
         channels := map c | c in s.channels :: if c in room then Offer(s.channels[c], m) else s.channels[c],
         panicked := s.panicked || exists c :: c in room && c in s.channels && s.channels[c].closed)
    case Drain(conn) =>
      if conn in s.channels then s.(channels := s.channels[conn := Take(s.channels[conn])]) else s
  }

  predicate Full(ch: Channel) {
    |ch.buffer| >= SEND_BUFFER
  }

  class Hub {
    var rooms: map<Stream, set<Conn>>
    var channels: map<Conn, Channel>
    var panicked: bool

    constructor ()
      ensures Value() == Empty()
    {
      rooms, channels, panicked := map[], map[], false;
    }

    function Value(): State
      reads this
    {
      State(rooms, channels, panicked)
    }

    method OnRegister(conn: Conn, stream: Stream)
      modifies this
      ensures Value() == Step(old(Value()), Register(conn, stream))
    {
      if stream !in rooms {
        rooms := rooms[stream := {}];
      }
      channels := channels[conn := Channel(stream, [], false, [], [])];
      rooms := rooms[stream := rooms[stream] + {conn}];
      assert rooms == old(rooms)[stream := Room(old(rooms), stream) + {conn}];
    }

    method OnUnregister(conn: Conn)
      modifies this
      ensures Value() == Step(old(Value()), Unregister(conn))
    {
      if conn !in channels {
        return;
      }
      var stream := channels[conn].stream;
      if stream in rooms && conn in rooms[stream] {
        rooms := rooms[stream := rooms[stream] - {conn}];
        Close(conn);
        if rooms[stream] == {} {
          rooms := rooms - {stream};
        }
      }
    }

    method Close(conn: Conn)
      requires conn in channels
      modifies this`channels, this`panicked
      ensures panicked == (old(panicked) || old(channels)[conn].closed)
      ensures channels == old(channels)[conn := old(channels)[conn].(closed := true)]
    {
      if channels[conn].closed {
        panicked := true;
      }
      channels := channels[conn := channels[conn].(closed := true)];
    }

    /** The non-blocking send to one client of a room; a slow one is dropped, even if
        that leaves the room empty. */
    method SendOrDrop(conn: Conn, m: Message)
      requires conn in channels && m.stream in rooms
      modifies this
      ensures channels == old(channels)[conn := Offer(old(channels)[conn], m)]
      ensures |old(channels)[conn].buffer| < 64 ==>
                && rooms == old(rooms) && channels[conn].closed == old(channels)[conn].closed
                && channels[conn].buffer == old(channels)[conn].buffer + [m]
      ensures |old(channels)[conn].buffer| >= 64 ==>
                && m.stream in rooms && conn !in rooms[m.stream] && channels[conn].closed
                && channels[conn].buffer == old(channels)[conn].buffer
      ensures rooms == if Full(old(channels)[conn]) then old(rooms)[m.stream := old(rooms)[m.stream] - {conn}]
                       else old(rooms)
      ensures panicked == (old(panicked) || old(channels)[conn].closed)
    {
      var ch := channels[conn];
      if |ch.buffer| < SEND_BUFFER {
        if ch.closed {
          panicked := true;
        }
        channels := channels[conn := ch.(buffer := ch.buffer + [m], sent := ch.sent + [m])];
      } else {
        Close(conn);
        rooms := rooms[m.stream := rooms[m.stream] - {conn}];
      }
    }

    /** The clients of a room are visited in any order. */
    method OnBroadcast(m: Message)
      requires Room(rooms, m.stream) <= channels.Keys
      modifies this
      ensures Value() == Step(old(Value()), Broadcast(m))
    {
      if m.stream !in rooms {
        return;
      }
      ghost var before := Value();
      var pending := rooms[m.stream];
      while pending != {}
        invariant pending <= Room(before.rooms, m.stream) && m.stream in rooms
        invariant channels.Keys == before.channels.Keys
        invariant PartlySent(before, Value(), m, Room(before.rooms, m.stream) - pending)
        decreases pending
      {
        var c :| c in pending;
        ghost var now, done := Value(), Room(before.rooms, m.stream) - pending;
        pending := pending - {c};
        SendOrDrop(c, m);
        SentToOne(before, now, Value(), m, done, c);
        assert Room(before.rooms, m.stream) - pending == done + {c};
      }
      SentToAll(before, Value(), m, Room(before.rooms, m.stream) - pending);
    }

    method ViewerCount(stream: Stream) returns (n: nat)
      ensures n == |Room(rooms, stream)|
      ensures n > 0 ==> stream in rooms && n == |rooms[stream]|
    {
      return if stream in rooms then |rooms[stream]| else 0;
    }

    /** The hub's loop over any sequence of events, write pumps included. */
    method Run(events: seq<Event>)
      requires Value() == Empty() && RegistersOnce(events)
      modifies this
      ensures Value() == After(events, |events|)
    {
      for n := 0 to |events|
        invariant Value() == After(events, n)
      {
        HubNeverPanics(events, n);
        RoomsAreKnown(Value(), if events[n].Broadcast? then events[n].message.stream else "");
        match events[n]
        case Register(conn, stream) => OnRegister(conn, stream);
        case Unregister(conn) => OnUnregister(conn);
        case Broadcast(m) => OnBroadcast(m);
        case Drain(conn) =>
          if conn in channels && channels[conn].buffer != [] {
            var ch := channels[conn];
            channels := channels[conn := ch.(buffer := ch.buffer[1..], received := ch.received + [ch.buffer[0]])];
          }
      }
    }
  }

  /** Midway through a broadcast: the clients in `done` have been served. */
  ghost predicate PartlySent(before: State, s: State, m: Message, done: set<Conn>) {
    && s.rooms.Keys == before.rooms.Keys && s.channels.Keys == before.channels.Keys
    && (forall r :: r in s.rooms && r != m.stream ==> s.rooms[r] == before.rooms[r])
    && (m.stream in s.rooms ==>
          forall c :: c in s.rooms[m.stream] <==>
                      c in before.rooms[m.stream]
                      && !(c in done && c in before.channels && Full(before.channels[c])))
    && (forall c :: c in s.channels ==>
          s.channels[c] == if c in done then Offer(before.channels[c], m) else before.channels[c])
    && (s.panicked <==> before.panicked || exists c :: c in done && c in before.channels && before.channels[c].closed)
  }

  lemma SentToOne(before: State, s: State, s': State, m: Message, done: set<Conn>, c: Conn)
    requires PartlySent(before, s, m, done) && c !in done && c in s.channels && m.stream in s.rooms
    requires s'.channels == s.channels[c := Offer(s.channels[c], m)]
    requires s'.rooms == if Full(s.channels[c]) then s.rooms[m.stream := s.rooms[m.stream] - {c}] else s.rooms
    requires s'.panicked == (s.panicked || s.channels[c].closed)
    ensures PartlySent(before, s', m, done + {c})
  {
  }

  lemma SentToAll(before: State, s: State, m: Message, done: set<Conn>)
    requires PartlySent(before, s, m, done) && m.stream in before.rooms && done == Room(before.rooms, m.stream)
    ensures s == Step(before, Broadcast(m))
  {
    var after := Step(before, Broadcast(m));
    assert s.rooms[m.stream] == after.rooms[m.stream];
    assert s.rooms == after.rooms;
    assert s.channels == after.channels;
  }

  function Empty(): State {
    State(map[], map[], false)
  }

  function After(events: seq<Event>, n: nat): State
    requires n <= |events|
  {
    if n == 0 then Empty() else Step(After(events, n - 1), events[n-1])
  }

  // ----- What holds in every run -----

  /** handleWSConnection registers each connection once. */
  ghost predicate RegistersOnce(events: seq<Event>) {
    forall i, j :: 0 <= i < j < |events| && events[i].Register? && events[j].Register? ==>
                     events[i].conn != events[j].conn
  }

  ghost predicate Listed(s: State, c: Conn, stream: Stream) {
    c in Room(s.rooms, stream) <==> c in s.channels && s.channels[c].stream == stream && !s.channels[c].closed
  }

  ghost predicate ChannelOk(ch: Channel) {
    |ch.buffer| <= SEND_BUFFER && ch.sent == ch.received + ch.buffer
  }

  /** Rooms list exactly the open channels of their stream; channels are bounded queues. */
  ghost predicate RoomsMatch(s: State) {
    && (forall c, stream :: Listed(s, c, stream))
    && (forall c :: c in s.channels ==> ChannelOk(s.channels[c]))
  }

  ghost predicate Unregistered(events: seq<Event>, n: nat, conn: Conn)
    requires n <= |events|
  {
    forall i :: 0 <= i < n && events[i].Register? ==> events[i].conn != conn
  }

  ghost predicate Inv(events: seq<Event>, n: nat)
    requires n <= |events|
  {
    var s := After(events, n);
    && RoomsMatch(s) && !s.panicked
    && (forall c :: Unregistered(events, n, c) <==> c !in s.channels)
  }

  lemma ListedStep(s: State, e: Event, c: Conn, stream: Stream)
    requires forall r :: Listed(s, c, r)
    requires e.Register? ==> e.conn !in s.channels
    ensures Listed(Step(s, e), c, stream)
  {
    assert Listed(s, c, stream);
    assert e.Broadcast? ==> Listed(s, c, e.message.stream);
    assert c in s.channels ==> Listed(s, c, s.channels[c].stream);
  }

  lemma ChannelOkStep(s: State, e: Event, c: Conn)
    requires c in Step(s, e).channels && (c in s.channels ==> ChannelOk(s.channels[c]))
    ensures ChannelOk(Step(s, e).channels[c])
  {
  }

  lemma NoPanicStep(s: State, e: Event)
    requires RoomsMatch(s) && !s.panicked
    ensures !Step(s, e).panicked
  {
    match e
    case Unregister(conn) =>
      if conn in s.channels {
        assert Listed(s, conn, s.channels[conn].stream);
      }
    case Broadcast(m) =>
      forall c | c in Room(s.rooms, m.stream) && c in s.channels
        ensures !s.channels[c].closed
      {
        assert Listed(s, c, m.stream);
      }
    case _ =>
  }

  lemma StepKeepsRooms(s: State, e: Event)
    requires RoomsMatch(s) && (e.Register? ==> e.conn !in s.channels)
    ensures RoomsMatch(Step(s, e))
  {
    forall c, stream ensures Listed(Step(s, e), c, stream) {
      ListedStep(s, e, c, stream);
    }
    forall c | c in Step(s, e).channels ensures ChannelOk(Step(s, e).channels[c]) {
      ChannelOkStep(s, e, c);
    }
  }

  /** No run of the hub sends on a closed channel or closes one twice, over both removal
      paths, and rooms list exactly the clients that can still be sent to. */
  lemma {:induction false} HubNeverPanics(events: seq<Event>, n: nat)
    requires RegistersOnce(events) && n <= |events|
    ensures Inv(events, n)
  {
    if n > 0 {
      HubNeverPanics(events, n - 1);
      var e := events[n-1];
      if e.Register? {
        assert Unregistered(events, n - 1, e.conn);
      }
      StepKeepsRooms(After(events, n - 1), e);
      NoPanicStep(After(events, n - 1), e);
      forall c ensures Unregistered(events, n, c) <==> c !in After(events, n).channels {
        assert Unregistered(events, n - 1, c) <==> c !in After(events, n - 1).channels;
        assert Unregistered(events, n, c) <==> Unregistered(events, n - 1, c) && !(e.Register? && e.conn == c);
      }
    }
  }

  lemma RoomsAreKnown(s: State, stream: Stream)
    requires RoomsMatch(s)
    ensures Room(s.rooms, stream) <= s.channels.Keys
  {
    forall c | c in Room(s.rooms, stream) ensures c in s.channels {
      assert Listed(s, c, stream);
    }
  }

  /** The messages broadcast to a stream by events [lo, hi), in hub order. */
  function MessagesTo(stream: Stream, events: seq<Event>, lo: nat, hi: nat): seq<Message>
    requires lo <= hi <= |events|
    decreases hi
  {
    if lo == hi then []
    else
      var rest := MessagesTo(stream, events, lo, hi - 1);
      var e := events[hi-1];
      if e.Broadcast? && e.message.stream == stream then rest + [e.message] else rest
  }

  /** The event removes the client: it unregisters, or it is broadcast to while its
      channel holds SEND_BUFFER undelivered messages. */
  predicate RemovesFrom(s: State, e: Event, conn: Conn, stream: Stream) {
    e == Unregister(conn)
    || (e.Broadcast? && e.message.stream == stream && conn in s.channels && |s.channels[conn].buffer| == 64)
  }

  predicate Removes(events: seq<Event>, k: nat, conn: Conn, stream: Stream)
    requires k < |events|
  {
    RemovesFrom(After(events, k), events[k], conn, stream)
  }

  predicate IsFor(e: Event, stream: Stream) {
    e.Broadcast? && e.message.stream == stream
  }

  /** What one event does to one client's channel. */
  lemma ChannelStep(s: State, e: Event, conn: Conn)
    requires RoomsMatch(s) && conn in s.channels && (e.Register? ==> e.conn != conn)
    ensures conn in Step(s, e).channels
    ensures var ch, ch' := s.channels[conn], Step(s, e).channels[conn];
            && ch'.stream == ch.stream
            && (ch'.closed <==> ch.closed || RemovesFrom(s, e, conn, ch.stream))
            && ch'.sent == if IsFor(e, ch.stream) && !ch'.closed then ch.sent + [e.message] else ch.sent
  {
    assert Listed(s, conn, s.channels[conn].stream) && ChannelOk(s.channels[conn]);
    assert e.Broadcast? ==> Listed(s, conn, e.message.stream);
  }

  /** The first event of (r, n) that removes the client registered by event r, or n. */
  ghost function LeftAt(events: seq<Event>, r: nat, n: nat): (k: nat)
    requires r < n <= |events| && events[r].Register?
    ensures r < k <= n
    ensures k < n ==> Removes(events, k, events[r].conn, events[r].stream)
    ensures forall i :: r < i < k ==> !Removes(events, i, events[r].conn, events[r].stream)
    decreases n
  {
    if n == r + 1 then n
    else
      var k := LeftAt(events, r, n - 1);
      if k < n - 1 || Removes(events, n - 1, events[r].conn, events[r].stream) then k else n
  }

  lemma GaplessStep(events: seq<Event>, r: nat, n: nat, ch: Channel, ch': Channel)
    requires r + 1 < n <= |events| && events[r].Register?
    requires var stream := events[r].stream; var removed := Removes(events, n - 1, events[r].conn, stream);
             && ch.sent == MessagesTo(stream, events, r + 1, LeftAt(events, r, n - 1))
             && (ch.closed <==> LeftAt(events, r, n - 1) < n - 1)
             && (ch'.closed <==> ch.closed || removed)
             && ch'.sent == if IsFor(events[n-1], stream) && !ch'.closed then ch.sent + [events[n-1].message]
                            else ch.sent
    ensures ch'.sent == MessagesTo(events[r].stream, events, r + 1, LeftAt(events, r, n))
    ensures ch'.closed <==> LeftAt(events, r, n) < n
  {
  }

  /** Gapless chat: what the hub put into a client's channel is exactly its stream's
      broadcasts, in hub order, from its registration up to its removal; the write pump
      has taken a prefix of that, and the client is listed until it is removed. */
  lemma {:induction false} Gapless(events: seq<Event>, r: nat, n: nat)
    requires RegistersOnce(events) && r < n <= |events| && events[r].Register?
    ensures var s := After(events, n); var conn, stream := events[r].conn, events[r].stream;
            && conn in s.channels && s.channels[conn].stream == stream
            && s.channels[conn].sent == MessagesTo(stream, events, r + 1, LeftAt(events, r, n))
            && (s.channels[conn].closed <==> LeftAt(events, r, n) < n)
    decreases n
  {
    if n > r + 1 {
      Gapless(events, r, n - 1);
      HubNeverPanics(events, n - 1);
      var s, conn := After(events, n - 1), events[r].conn;
      ChannelStep(s, events[n-1], conn);
      GaplessStep(events, r, n, s.channels[conn], After(events, n).channels[conn]);
    }
  }

  /** The write pump has taken a prefix of what was sent, and the hub lists the client
      exactly until it is removed. */
  lemma Delivery(events: seq<Event>, r: nat, n: nat)
    requires RegistersOnce(events) && r < n <= |events| && events[r].Register?
    ensures var s := After(events, n); var conn, stream := events[r].conn, events[r].stream;
            && conn in s.channels
            && s.channels[conn].received <= MessagesTo(stream, events, r + 1, LeftAt(events, r, n))
            && (conn in Room(s.rooms, stream) <==> LeftAt(events, r, n) == n)
  {
    Gapless(events, r, n);
    HubNeverPanics(events, n);
    assert Listed(After(events, n), events[r].conn, events[r].stream);
  }

  /** A stream's viewer count is the number of its clients registered and not removed. */
  lemma ViewersAreListed(events: seq<Event>, n: nat, stream: Stream)
    requires RegistersOnce(events) && n <= |events|
    ensures Room(After(events, n).rooms, stream)
         == set r | 0 <= r < n && events[r].Register? && events[r].stream == stream && LeftAt(events, r, n) == n
                 :: events[r].conn
  {
    HubNeverPanics(events, n);
    var s := After(events, n);
    var listed := set r | 0 <= r < n && events[r].Register? && events[r].stream == stream && LeftAt(events, r, n) == n
                       :: events[r].conn;
    forall c | c in Room(s.rooms, stream) ensures c in listed {
      assert Listed(s, c, stream);
      assert !Unregistered(events, n, c);
      var r :| 0 <= r < n && events[r].Register? && events[r].conn == c;
      Delivery(events, r, n);
      Gapless(events, r, n);
    }
    forall r | 0 <= r < n && events[r].Register? && events[r].stream == stream && LeftAt(events, r, n) == n
      ensures events[r].conn in Room(s.rooms, stream)
    {
      Delivery(events, r, n);
    }
  }
}
