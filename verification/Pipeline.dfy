/**
 The whole path to one player's socket: room, outbox hop, forwarder, socket hop, socket
 writer. Each party steps on its own, and a consumer's poll is two steps: it polls the
 reliable lane, and only when that is empty and open does it look at the snapshot slot,
 after whatever the senders did in between.
 */
module Pipeline {
  import opened Wrappers
  import opened Outbound

  /** A frame remembers how many reliable events had been emitted when it was built. */
  datatype Msg = Event(id: nat) | Frame(reflects: nat, id: nat) | Control(id: nat)

  datatype Forwarder = Idle | Looking | Carrying(kind: Kind, m: Msg) | Stopped

  datatype Path = Path(
    emitted: seq<Msg>,       // every reliable event the room emitted to this player
    room: Hop<Msg>,          // outbox to forwarder
    forwarder: Forwarder,
    wire: Hop<Msg>,          // forwarder and read loop to socket writer
    reading: bool,           // the connection's read loop still holds its sender
    writing: bool,           // the socket writer is up
    peeking: bool,           // the writer has found its lane empty and looks at the slot next
    socket: seq<Msg>)

  datatype Act =
    | Emit(id: nat)          // PlayerOutbox reliable send
    | Publish(id: nat)       // PlayerOutbox snapshot send
    | Retire                 // the outbox entry is removed
    | ForwarderRecv          // the forwarder polls the room's reliable lane
    | ForwarderLook          // and, if that was empty, the room's slot
    | ForwarderRoute
    | Reply(id: nat)         // a control reply of the read loop
    | HangUp                 // the read loop ends
    | WriterRecv(sent: bool) // the writer polls its lane; the socket write succeeds or fails
    | WriterLook(sent: bool) // and, if that was empty, its slot

  const RELIABLE_CHANNEL_CAPACITY: nat := 64

  function Init(): Path {
    Path([], Fresh(RELIABLE_CHANNEL_CAPACITY), Idle, Fresh(64), true, true, false, [])
  }

  predicate CanAct(p: Path, a: Act) {
    match a
    case ForwarderRecv => p.forwarder.Idle?
    case ForwarderLook => p.forwarder.Looking?
    case ForwarderRoute => p.forwarder.Carrying?
    case Reply(_) => p.reading
    case HangUp => p.reading
    case WriterRecv(_) => p.writing && !p.peeking
    case WriterLook(_) => p.writing && p.peeking
    case _ => true
  }

  /** The forwarder drops its receivers and its sender. */
  function StopForwarder(p: Path): Path {
    p.(forwarder := Stopped, room := p.room.Deafen(), wire := if p.reading then p.wire else p.wire.Close())
  }

  function StopWriter(p: Path): Path {
    p.(writing := false, peeking := false, wire := p.wire.Deafen())
  }

  /** What the forwarder does with the outcome of half a poll. */
  function Forward(p: Path, polled: Polled<Msg>, pending: Forwarder): Path {
    match polled
    case Yield(kind, m) => p.(forwarder := Carrying(kind, m))
    case Ended => StopForwarder(p)
    case Pending => p.(forwarder := pending)
  }

  function RecvRoom(p: Path): Path {
    Forward(p.(room := p.room.AfterRecv()), p.room.RecvPoll(), Looking)
  }

  function LookRoom(p: Path): Path {
    Forward(p.(room := p.room.AfterSlot()), p.room.SlotPoll(), Idle)
  }

  /** Routing is by lane; a refused reliable event stops the forwarder for good. */
  function Route(p: Path): Path
    requires p.forwarder.Carrying?
  {
    match p.forwarder.kind
    case Reliable =>
      if p.wire.Accepts() then p.(wire := p.wire.TrySend(p.forwarder.m), forwarder := Idle) else StopForwarder(p)
    case Snapshot =>
      if p.wire.listening then p.(wire := p.wire.Put(p.forwarder.m), forwarder := Idle) else StopForwarder(p)
  }

  /** What the writer does with the outcome of half a poll. */
  function Write(p: Path, polled: Polled<Msg>, sent: bool, pending: bool): Path {
    match polled
    case Yield(_, m) => if sent then p.(socket := p.socket + [m], peeking := false) else StopWriter(p)
    case Ended => StopWriter(p)
    case Pending => p.(peeking := pending)
  }

  function RecvWire(p: Path, sent: bool): Path {
    Write(p.(wire := p.wire.AfterRecv()), p.wire.RecvPoll(), sent, true)
  }

  function LookWire(p: Path, sent: bool): Path {
    Write(p.(wire := p.wire.AfterSlot()), p.wire.SlotPoll(), sent, false)
  }

  function Next(p: Path, a: Act): Path
    requires CanAct(p, a)
  {
    match a
    case Emit(id) => p.(emitted := p.emitted + [Event(id)], room := p.room.Offer(Event(id)))
    case Publish(id) => if p.room.open then p.(room := p.room.Put(Frame(|p.emitted|, id))) else p
    case Retire => p.(room := p.room.Close())
    case ForwarderRecv => RecvRoom(p)
    case ForwarderLook => LookRoom(p)
    case ForwarderRoute => Route(p)
    case Reply(id) => p.(wire := p.wire.TrySend(Control(id)))
    case HangUp => p.(reading := false, wire := if p.forwarder.Stopped? then p.wire.Close() else p.wire)
    case WriterRecv(sent) => RecvWire(p, sent)
    case WriterLook(sent) => LookWire(p, sent)
  }

  // ---- runs ----

  predicate CanRun(p: Path, acts: seq<Act>)
    decreases |acts|, 0
  {
    acts == [] || (CanRun(p, acts[..|acts| - 1]) && CanAct(After(p, acts[..|acts| - 1]), acts[|acts| - 1]))
  }

  function After(p: Path, acts: seq<Act>): Path
    requires CanRun(p, acts)
    decreases |acts|, 1
  {
    if acts == [] then p else Next(After(p, acts[..|acts| - 1]), acts[|acts| - 1])
  }

  lemma RunOn(p: Path, acts: seq<Act>, a: Act)
    requires CanRun(p, acts) && CanAct(After(p, acts), a)
    ensures CanRun(p, acts + [a]) && After(p, acts + [a]) == Next(After(p, acts), a)
  {
  }

  lemma {:induction false} RunsCompose(p: Path, acts: seq<Act>, more: seq<Act>)
    requires CanRun(p, acts) && CanRun(After(p, acts), more)
    ensures CanRun(p, acts + more) && After(p, acts + more) == After(After(p, acts), more)
    decreases |more|
  {
    hide Next, CanAct;
    if more == [] {
      assert acts + more == acts;
    } else {
      var init, last := more[..|more| - 1], more[|more| - 1];
      RunsCompose(p, acts, init);
      assert (acts + more)[..|acts + more| - 1] == acts + init;
    }
  }

  function EventsOf(s: seq<Msg>): seq<Msg> {
    if s == [] then [] else EventsOf(s[..|s| - 1]) + (if s[|s| - 1].Event? then [s[|s| - 1]] else [])
  }

  // ---- where the events are ----

  function Carried(p: Path): seq<Msg> {
    if p.forwarder.Carrying? && p.forwarder.kind == Reliable then [p.forwarder.m] else []
  }

  /** The events that have reached the socket, followed by those still on their way to it. */
  function Reaching(p: Path): seq<Msg> {
    if !p.writing then EventsOf(p.socket)
    else if p.forwarder.Stopped? then EventsOf(p.socket) + EventsOf(p.wire.queue)
    else EventsOf(p.socket) + EventsOf(p.wire.queue) + Carried(p) + p.room.queue
  }

  lemma {:induction false} EventsOfAppend(s: seq<Msg>, m: Msg)
    ensures EventsOf(s + [m]) == EventsOf(s) + (if m.Event? then [m] else [])
  {
  }

  lemma {:induction false} EventsOfPop(s: seq<Msg>)
    requires s != []
    ensures EventsOf(s) == (if s[0].Event? then [s[0]] else []) + EventsOf(s[1..])
  {
    if |s| == 1 {
      assert EventsOf(s[..0]) == [] == EventsOf(s[1..]);
    } else {
      var init, last := s[..|s| - 1], s[|s| - 1];
      EventsOfPop(init);
      EventsOfAppend(init, last);
      EventsOfAppend(init[1..], last);
      assert init + [last] == s && init[1..] + [last] == s[1..] && init[0] == s[0];
      hide EventsOf;
    }
  }

  // ---- what every step keeps ----

  predicate AllEvents(queue: seq<Msg>) {
    forall k | 0 <= k < |queue| :: queue[k].Event?
  }

  predicate NoFrames(queue: seq<Msg>) {
    forall k | 0 <= k < |queue| :: !queue[k].Frame?
  }

  predicate RoomTyped(h: Hop<Msg>) {
    AllEvents(h.queue) && (h.slot.Some? ==> h.slot.value.Frame?)
  }

  predicate WireTyped(h: Hop<Msg>) {
    NoFrames(h.queue) && (h.slot.Some? ==> h.slot.value.Frame?)
  }

  /** What the forwarder carries came from the lane that its kind names. */
  predicate LoadTyped(f: Forwarder) {
    f.Carrying? ==> if f.kind == Reliable then f.m.Event? else f.m.Frame?
  }

  predicate Typed(p: Path) {
    RoomTyped(p.room) && WireTyped(p.wire) && LoadTyped(p.forwarder)
  }

  /** Who still holds an end of each hop. */
  predicate Wired(p: Path) {
    && p.room.listening == !p.forwarder.Stopped?
    && p.wire.listening == p.writing
    && p.wire.open == (p.reading || !p.forwarder.Stopped?)
    && (p.peeking ==> p.writing)
  }

  /** What is on its way is the start of what was emitted, and all of it while nothing has been cut. */
  ghost predicate InOrder(p: Path) {
    && Reaching(p) <= p.emitted
    && (p.room.open && !p.forwarder.Stopped? && p.writing ==> Reaching(p) == p.emitted)
  }

  predicate Within(m: Msg, n: nat) {
    m.Frame? ==> m.reflects <= n
  }

  predicate SocketWithin(socket: seq<Msg>, n: nat) {
    forall k | 0 <= k < |socket| :: Within(socket[k], n)
  }

  /** No frame anywhere reflects more than `n` events. */
  predicate FramesWithin(p: Path, n: nat) {
    && (p.room.slot.Some? ==> Within(p.room.slot.value, n))
    && (p.forwarder.Carrying? ==> Within(p.forwarder.m, n))
    && (p.wire.slot.Some? ==> Within(p.wire.slot.value, n))
    && SocketWithin(p.socket, n)
  }

  ghost predicate Sound(p: Path) {
    Typed(p) && Wired(p) && InOrder(p) && FramesWithin(p, |p.emitted|)
  }

  lemma RoomStaysTyped(h: Hop<Msg>, id: nat, n: nat)
    requires RoomTyped(h)
    ensures RoomTyped(h.Offer(Event(id))) && RoomTyped(h.Put(Frame(n, id)))
    ensures RoomTyped(h.Close()) && RoomTyped(h.Deafen()) && RoomTyped(h.AfterRecv()) && RoomTyped(h.AfterSlot())
    ensures h.RecvPoll().Yield? ==> LoadTyped(Carrying(h.RecvPoll().kind, h.RecvPoll().message))
    ensures h.SlotPoll().Yield? ==> LoadTyped(Carrying(h.SlotPoll().kind, h.SlotPoll().message))
  {
  }

  lemma WireStaysTyped(h: Hop<Msg>)
    requires WireTyped(h)
    ensures WireTyped(h.Close()) && WireTyped(h.Deafen()) && WireTyped(h.AfterRecv()) && WireTyped(h.AfterSlot())
  {
  }

  lemma WireTakes(h: Hop<Msg>, m: Msg)
    requires WireTyped(h)
    ensures !m.Frame? ==> WireTyped(h.TrySend(m))
    ensures m.Frame? ==> WireTyped(h.Put(m))
  {
  }

  lemma TypedForward(p: Path)
    requires Typed(p)
    ensures Typed(RecvRoom(p)) && Typed(LookRoom(p))
  {
    RoomStaysTyped(p.room, 0, 0);
    RoomStaysTyped(p.room.AfterRecv(), 0, 0);
    RoomStaysTyped(p.room.AfterSlot(), 0, 0);
    WireStaysTyped(p.wire);
    hide RoomTyped, WireTyped;
  }

  lemma TypedWrite(p: Path, sent: bool)
    requires Typed(p)
    ensures Typed(RecvWire(p, sent)) && Typed(LookWire(p, sent))
  {
    WireStaysTyped(p.wire);
    WireStaysTyped(p.wire.AfterRecv());
    WireStaysTyped(p.wire.AfterSlot());
    hide RoomTyped, WireTyped, LoadTyped;
  }

  lemma TypedRoute(p: Path)
    requires Typed(p) && p.forwarder.Carrying?
    ensures Typed(Route(p))
  {
    WireStaysTyped(p.wire);
    WireTakes(p.wire, p.forwarder.m);
    RoomStaysTyped(p.room, 0, 0);
    hide RoomTyped, WireTyped;
  }

  lemma TypedStep(p: Path, a: Act)
    requires Typed(p) && CanAct(p, a)
    ensures Typed(Next(p, a))
  {
    RoomStaysTyped(p.room, if a.Emit? || a.Publish? then a.id else 0, |p.emitted|);
    match a {
      case ForwarderRecv => TypedForward(p);
      case ForwarderLook => TypedForward(p);
      case ForwarderRoute => TypedRoute(p);
      case Reply(id) => WireTakes(p.wire, Control(id));
      case HangUp => WireStaysTyped(p.wire);
      case WriterRecv(sent) => TypedWrite(p, sent);
      case WriterLook(sent) => TypedWrite(p, sent);
      case _ =>
    }
    hide RoomTyped, WireTyped, LoadTyped, RecvRoom, LookRoom, RecvWire, LookWire, Route;
  }

  lemma WiredStep(p: Path, a: Act)
    requires Wired(p) && CanAct(p, a)
    ensures Wired(Next(p, a))
  {
  }

  // ---- events in flight ----

  /** Nothing has been cut between the room and the socket. */
  predicate Flowing(p: Path) {
    p.room.open && !p.forwarder.Stopped? && p.writing
  }

  lemma EmitExtends(p: Path, id: nat)
    requires Wired(p)
    ensures Reaching(Next(p, Emit(id)))
         == Reaching(p) + (if Flowing(p) && p.room.Accepts() then [Event(id)] else [])
    ensures Flowing(Next(p, Emit(id))) <==> Flowing(p) && p.room.Accepts()
  {
  }

  lemma Regroup<T>(d: seq<T>, q: seq<T>, m: seq<T>, r: seq<T>)
    ensures d + (q + m) + [] + r == d + q + m + r
    ensures (d + m) + q + r == d + (m + q) + r
    ensures d <= d + q && d + q <= d + q + m + r
  {
  }

  lemma TakeOne<T>(d: seq<T>, r: seq<T>)
    requires r != []
    ensures d + [] + r == d + [r[0]] + r[1..]
  {
  }

  /** The step adds nothing to what is on its way, and takes nothing from it unless it cuts the path. */
  ghost predicate Moves(p: Path, q: Path) {
    && Reaching(q) <= Reaching(p)
    && (Flowing(q) ==> Flowing(p) && Reaching(q) == Reaching(p))
  }

  lemma RecvMoves(p: Path)
    requires Typed(p) && Wired(p) && p.forwarder.Idle?
    ensures Moves(p, RecvRoom(p))
  {
    Regroup(EventsOf(p.socket), EventsOf(p.wire.queue), Carried(p), p.room.queue);
    hide EventsOf, Typed;
    if p.room.queue != [] {
      TakeOne(EventsOf(p.socket) + EventsOf(p.wire.queue), p.room.queue);
    }
  }

  lemma LookMoves(p: Path)
    requires Typed(p) && Wired(p) && p.forwarder.Looking?
    ensures Moves(p, LookRoom(p))
  {
  }

  lemma RouteMoves(p: Path)
    requires Typed(p) && Wired(p) && p.forwarder.Carrying?
    ensures Moves(p, Route(p))
  {
    Regroup(EventsOf(p.socket), EventsOf(p.wire.queue), Carried(p), p.room.queue);
    if p.forwarder.kind == Reliable && p.wire.Accepts() {
      EventsOfAppend(p.wire.queue, p.forwarder.m);
    }
  }

  /** What has reached the socket and what waits in the lane behind it. */
  function Downstream(p: Path): seq<Msg> {
    EventsOf(p.socket) + EventsOf(p.wire.queue)
  }

  /** Writing one message moves it from the lane to the socket. */
  lemma WriteOne(socket: seq<Msg>, queue: seq<Msg>)
    requires queue != []
    ensures EventsOf(socket + [queue[0]]) + EventsOf(queue[1..]) == EventsOf(socket) + EventsOf(queue)
  {
    EventsOfPop(queue);
    EventsOfAppend(socket, queue[0]);
  }

  /** A half of the writer's poll, as long as the writer goes on, keeps the events downstream. */
  ghost predicate Passes(p: Path, q: Path) {
    && q.emitted == p.emitted && q.room == p.room && q.forwarder == p.forwarder
    && (q.writing ==> Downstream(q) == Downstream(p))
    && (!q.writing ==> q.socket == p.socket)
  }

  lemma RecvWirePasses(p: Path, sent: bool)
    requires p.writing
    ensures Passes(p, RecvWire(p, sent))
  {
    if p.wire.queue != [] {
      WriteOne(p.socket, p.wire.queue);
    }
  }

  lemma LookWirePasses(p: Path, sent: bool)
    requires Typed(p) && p.writing
    ensures Passes(p, LookWire(p, sent))
  {
  }

  lemma PassingMoves(p: Path, q: Path)
    requires p.writing && Passes(p, q)
    ensures Moves(p, q)
  {
  }

  lemma ReplyMoves(p: Path, id: nat)
    requires p.reading
    ensures Moves(p, Next(p, Reply(id)))
  {
  }

  lemma SenderMoves(p: Path, a: Act)
    requires Wired(p) && CanAct(p, a) && (a.Publish? || a.Retire? || a.HangUp?)
    ensures Moves(p, Next(p, a))
  {
  }

  /** Only an accepted emission adds to what is on its way; every other step keeps it, or cuts it short for good. */
  lemma OthersOnlyMove(p: Path, a: Act)
    requires Typed(p) && Wired(p) && CanAct(p, a) && !a.Emit?
    ensures Moves(p, Next(p, a))
  {
    match a {
      case ForwarderRecv => RecvMoves(p);
      case ForwarderLook => LookMoves(p);
      case ForwarderRoute => RouteMoves(p);
      case WriterRecv(sent) => RecvWirePasses(p, sent); PassingMoves(p, RecvWire(p, sent));
      case WriterLook(sent) => LookWirePasses(p, sent); PassingMoves(p, LookWire(p, sent));
      case Reply(id) => ReplyMoves(p, id);
      case _ => SenderMoves(p, a);
    }
    hide RecvRoom, LookRoom, RecvWire, LookWire, Route, Moves;
  }

  lemma InOrderStep(p: Path, a: Act)
    requires Typed(p) && Wired(p) && InOrder(p) && CanAct(p, a)
    ensures InOrder(Next(p, a))
  {
    if a.Emit? {
      EmitExtends(p, a.id);
    } else {
      OthersOnlyMove(p, a);
      hide Reaching;
    }
  }

  lemma EmittedGrows(p: Path, a: Act)
    requires CanAct(p, a)
    ensures Next(p, a).emitted == p.emitted + if a.Emit? then [Event(a.id)] else []
  {
  }

  lemma RecvStaysWithin(p: Path, n: nat)
    requires Typed(p) && FramesWithin(p, n)
    ensures FramesWithin(RecvRoom(p), n)
  {
  }

  lemma LookStaysWithin(p: Path, n: nat)
    requires FramesWithin(p, n)
    ensures FramesWithin(LookRoom(p), n)
  {
  }

  lemma RouteStaysWithin(p: Path, n: nat)
    requires p.forwarder.Carrying? && FramesWithin(p, n)
    ensures FramesWithin(Route(p), n)
  {
  }

  lemma SocketGrowsWithin(socket: seq<Msg>, m: Msg, n: nat)
    requires SocketWithin(socket, n) && Within(m, n)
    ensures SocketWithin(socket + [m], n)
  {
  }

  lemma RecvWireStaysWithin(p: Path, sent: bool, n: nat)
    requires Typed(p) && FramesWithin(p, n)
    ensures FramesWithin(RecvWire(p, sent), n)
  {
    if p.wire.queue != [] {
      SocketGrowsWithin(p.socket, p.wire.queue[0], n);
    }
    hide SocketWithin, Typed, Within;
  }

  lemma LookWireStaysWithin(p: Path, sent: bool, n: nat)
    requires FramesWithin(p, n)
    ensures FramesWithin(LookWire(p, sent), n)
  {
  }

  /** A step brings no frame that reflects more, unless the room publishes one. */
  lemma FramesStayWithin(p: Path, a: Act, n: nat)
    requires Typed(p) && CanAct(p, a) && FramesWithin(p, n) && (a.Publish? && p.room.open ==> |p.emitted| <= n)
    ensures FramesWithin(Next(p, a), n)
  {
    match a {
      case ForwarderRecv => RecvStaysWithin(p, n);
      case ForwarderLook => LookStaysWithin(p, n);
      case ForwarderRoute => RouteStaysWithin(p, n);
      case WriterRecv(sent) => RecvWireStaysWithin(p, sent, n);
      case WriterLook(sent) => LookWireStaysWithin(p, sent, n);
      case _ =>
    }
    hide RecvRoom, LookRoom, Route, RecvWire, LookWire, Typed, SocketWithin;
  }

  lemma SoundStep(p: Path, a: Act)
    requires Sound(p) && CanAct(p, a)
    ensures Sound(Next(p, a))
  {
    TypedStep(p, a);
    WiredStep(p, a);
    InOrderStep(p, a);
    EmittedGrows(p, a);
    FramesStayWithin(p, a, |p.emitted|);
    hide Next, Typed, Wired, InOrder;
  }

  lemma {:induction false} RunsAreSound(p: Path, acts: seq<Act>)
    requires Sound(p) && CanRun(p, acts)
    ensures Sound(After(p, acts))
    decreases |acts|
  {
    if acts != [] {
      hide Sound, Next;
      RunsAreSound(p, acts[..|acts| - 1]);
      SoundStep(After(p, acts[..|acts| - 1]), acts[|acts| - 1]);
    }
  }

  /** The events on the socket are always a gap-free prefix of those the room emitted. */
  lemma SocketIsAPrefix(acts: seq<Act>)
    requires CanRun(Init(), acts)
    ensures EventsOf(After(Init(), acts).socket) <= After(Init(), acts).emitted
  {
    RunsAreSound(Init(), acts);
    assert EventsOf(After(Init(), acts).socket) <= Reaching(After(Init(), acts));
  }

  // ---- what is lost ----

  /** A path that has been cut stays cut, and what reaches the socket only shrinks. */
  lemma {:induction false} CutForever(p: Path, acts: seq<Act>)
    requires Sound(p) && !Flowing(p) && CanRun(p, acts)
    ensures !Flowing(After(p, acts)) && Reaching(After(p, acts)) <= Reaching(p)
    decreases |acts|
  {
    if acts != [] {
      var init, last := acts[..|acts| - 1], acts[|acts| - 1];
      CutForever(p, init);
      RunsAreSound(p, init);
      var q := After(p, init);
      if last.Emit? {
        EmitExtends(q, last.id);
      } else {
        OthersOnlyMove(q, last);
      }
      hide Next, Flowing, Reaching;
    }
  }

  /** The outbox lane refuses an event. */
  predicate LosesInRoom(p: Path, a: Act) {
    a.Emit? && Flowing(p) && !p.room.Accepts()
  }

  /** The socket lane refuses an event to the forwarder. */
  predicate LosesOnWire(p: Path, a: Act) {
    && a.ForwarderRoute? && Flowing(p) && p.forwarder.Carrying? && p.forwarder.kind == Reliable
    && !p.wire.Accepts()
  }

  /** How many events come before the one that is lost. */
  function LostIndex(p: Path, a: Act): nat {
    if a.Emit? then |p.emitted| else |Downstream(p)|
  }

  /** After the loss of one event, at either hop, neither that event nor any later one is ever written. */
  lemma LostEventIsTheLast(p: Path, a: Act, acts: seq<Act>)
    requires Sound(p) && CanAct(p, a) && (LosesInRoom(p, a) || LosesOnWire(p, a)) && CanRun(Next(p, a), acts)
    ensures |EventsOf(After(Next(p, a), acts).socket)| <= LostIndex(p, a)
  {
    var q := Next(p, a);
    assert !Flowing(q) && |Reaching(q)| == LostIndex(p, a);
    SoundStep(p, a);
    hide Next, Sound, Flowing, EventsOf;
    CutForever(q, acts);
    assert EventsOf(After(q, acts).socket) <= Reaching(After(q, acts));
  }

  lemma ClosedRoomStaysClosed(p: Path, a: Act)
    requires CanAct(p, a) && !p.room.open
    ensures !Next(p, a).room.open
  {
  }

  lemma {:induction false} ClosedRoomKeepsWithin(p: Path, acts: seq<Act>, n: nat)
    requires Typed(p) && !p.room.open && FramesWithin(p, n) && CanRun(p, acts)
    ensures Typed(After(p, acts)) && !After(p, acts).room.open && FramesWithin(After(p, acts), n)
    decreases |acts|
  {
    if acts != [] {
      var init, last := acts[..|acts| - 1], acts[|acts| - 1];
      ClosedRoomKeepsWithin(p, init, n);
      TypedStep(After(p, init), last);
      FramesStayWithin(After(p, init), last, n);
      ClosedRoomStaysClosed(After(p, init), last);
      hide Next, CanAct, Typed, FramesWithin;
    }
  }

  lemma WithinAtSocket(p: Path, n: nat)
    requires FramesWithin(p, n)
    ensures SocketWithin(p.socket, n)
  {
  }

  /** An event the room's own lane refused is reflected by no frame, ever: the room shows nothing more. */
  lemma LossInRoomHidesItsFrames(p: Path, a: Act, acts: seq<Act>)
    requires Sound(p) && LosesInRoom(p, a) && CanRun(Next(p, a), acts)
    ensures SocketWithin(After(Next(p, a), acts).socket, LostIndex(p, a))
  {
    SoundStep(p, a);
    FramesStayWithin(p, a, |p.emitted|);
    assert !Next(p, a).room.open;
    hide Next, FramesWithin;
    ClosedRoomKeepsWithin(Next(p, a), acts, |p.emitted|);
    WithinAtSocket(After(Next(p, a), acts), |p.emitted|);
  }

  /** With the forwarder gone, the frames on the socket and the one that the writer may still show. */
  predicate ShownWithin(p: Path, n: nat) {
    && SocketWithin(p.socket, n)
    && (p.writing && p.wire.unseen && p.wire.slot.Some? && (p.wire.open || p.peeking) ==> Within(p.wire.slot.value, n))
  }

  lemma ShownStaysWithin(p: Path, a: Act, n: nat)
    requires Typed(p) && Wired(p) && CanAct(p, a) && p.forwarder.Stopped? && ShownWithin(p, n)
    ensures Next(p, a).forwarder.Stopped? && ShownWithin(Next(p, a), n)
  {
    if p.wire.queue != [] {
      SocketGrowsWithin(p.socket, p.wire.queue[0], n);
    }
    if p.wire.slot.Some? && Within(p.wire.slot.value, n) {
      SocketGrowsWithin(p.socket, p.wire.slot.value, n);
    }
    hide SocketWithin, Within;
  }

  lemma {:induction false} ShownWithinForever(p: Path, acts: seq<Act>, n: nat)
    requires Sound(p) && p.forwarder.Stopped? && ShownWithin(p, n) && CanRun(p, acts)
    ensures After(p, acts).forwarder.Stopped? && ShownWithin(After(p, acts), n)
    decreases |acts|
  {
    if acts != [] {
      var init, last := acts[..|acts| - 1], acts[|acts| - 1];
      ShownWithinForever(p, init, n);
      RunsAreSound(p, init);
      hide Next, ShownWithin;
      ShownStaysWithin(After(p, init), last, n);
    }
  }

  predicate OnlyWrites(acts: seq<Act>) {
    forall k | 0 <= k < |acts| :: acts[k] == WriterRecv(true) || acts[k] == WriterLook(true)
  }

  /** The writer writes out its whole lane. */
  lemma {:induction false} Drain(p: Path) returns (acts: seq<Act>)
    requires p.writing && !p.peeking
    ensures CanRun(p, acts) && OnlyWrites(acts)
    ensures After(p, acts) == p.(wire := p.wire.(queue := []), socket := p.socket + p.wire.queue)
    decreases |p.wire.queue|
  {
    if p.wire.queue == [] {
      acts := [];
    } else {
      var first := [WriterRecv(true)];
      RunOn(p, [], first[0]);
      var rest := Drain(After(p, first));
      RunsCompose(p, first, rest);
      acts := first + rest;
      assert p.socket + [p.wire.queue[0]] + p.wire.queue[1..] == p.socket + p.wire.queue;
    }
  }

  /** Left to itself, the writer shows the frame in its slot, after the lane unless it is past that already. */
  lemma ShowSlot(p: Path) returns (acts: seq<Act>)
    requires p.writing && p.wire.unseen && p.wire.slot.Some? && (p.wire.open || p.peeking)
    ensures CanRun(p, acts) && OnlyWrites(acts)
    ensures After(p, acts).socket
         == p.socket + (if p.peeking then [] else p.wire.queue) + [p.wire.slot.value]
  {
    if p.peeking {
      acts := [];
    } else {
      acts := Drain(p);
      RunOn(p, acts, WriterRecv(true));
      acts := acts + [WriterRecv(true)];
    }
    RunOn(p, acts, WriterLook(true));
    acts := acts + [WriterLook(true)];
  }

  /** However the path goes on, no frame is shown that reflects more. */
  ghost predicate NeverShowsBeyond(p: Path, n: nat) {
    forall acts | CanRun(p, acts) :: SocketWithin(After(p, acts).socket, n)
  }

  /**
   After an event is lost on the way to the socket, no frame that reflects it is ever written if and
   only if none is on the socket yet and none is in the slot of a writer that may still look there.
   */
  lemma LossOnWireHidesItsFramesIff(p: Path, a: Act)
    requires Sound(p) && CanAct(p, a) && LosesOnWire(p, a)
    ensures NeverShowsBeyond(Next(p, a), LostIndex(p, a)) <==> ShownWithin(Next(p, a), LostIndex(p, a))
  {
    var q, n := Next(p, a), LostIndex(p, a);
    assert q.forwarder.Stopped?;
    SoundStep(p, a);
    hide Next, Sound, LostIndex;
    if ShownWithin(q, n) {
      forall acts | CanRun(q, acts) ensures SocketWithin(After(q, acts).socket, n) {
        ShownWithinForever(q, acts, n);
      }
    } else if !SocketWithin(q.socket, n) {
      assert CanRun(q, []) && After(q, []) == q;
    } else {
      var acts := ShowSlot(q);
      var shown := After(q, acts).socket;
      assert shown[|shown| - 1] == q.wire.slot.value;
      assert !SocketWithin(shown, n);
    }
  }
}
