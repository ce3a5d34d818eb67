/**
 The order of frames and events on the socket. A frame is in order when every event it reflects was
 written before it. This module says which steps inside the two windows of the path, the forwarder's
 and the writer's, can put a frame out of order: without them every run is in order, and after any
 one of them the path may go on to break the order.
 */
module FrameOrder {
  import opened Wrappers
  import opened Outbound
  import opened Pipeline

  predicate FrameBehindAt(socket: seq<Msg>, j: nat)
    requires j < |socket|
  {
    Within(socket[j], |EventsOf(socket[..j])|)
  }

  predicate Ordered(socket: seq<Msg>) {
    forall j | 0 <= j < |socket| :: FrameBehindAt(socket, j)
  }

  /**
   What disturbs the order: the room shows a frame while the forwarder is between its two looks and
   has missed an event, or the forwarder puts a frame into the slot that the writer is about to read
   although one of its events is still in the writer's lane.
   */
  predicate Disturbs(p: Path, a: Act) {
    || (a.Publish? && p.room.open && p.writing && p.forwarder.Looking? && p.room.queue != [])
    || (a.ForwarderRoute? && p.writing && p.peeking && p.forwarder.Carrying? && p.forwarder.kind == Snapshot
        && !Within(p.forwarder.m, |EventsOf(p.socket)|))
  }

  predicate Calm(p: Path, acts: seq<Act>)
    requires CanRun(p, acts)
    decreases |acts|
  {
    acts == [] || (Calm(p, acts[..|acts| - 1]) && !Disturbs(After(p, acts[..|acts| - 1]), acts[|acts| - 1]))
  }

  /** Every frame in flight is behind the events it reflects, and after a first look, not just in its lane. */
  predicate FramesBehind(p: Path) {
    && (p.writing && p.wire.slot.Some? && p.wire.unseen ==>
          Within(p.wire.slot.value, if p.peeking then |EventsOf(p.socket)| else |Downstream(p)|))
    && (p.writing && p.forwarder.Carrying? && p.forwarder.kind == Snapshot ==> Within(p.forwarder.m, |Downstream(p)|))
    && (p.writing && !p.forwarder.Stopped? && p.room.slot.Some? && p.room.unseen ==>
          Within(p.room.slot.value, if p.forwarder.Looking? then |Downstream(p)| else |Reaching(p)|))
  }

  ghost predicate Good(p: Path) {
    Sound(p) && FramesBehind(p) && Ordered(p.socket)
  }

  lemma DownstreamReaches(p: Path)
    requires p.writing
    ensures |Downstream(p)| <= |Reaching(p)|
    ensures !p.forwarder.Stopped? && Carried(p) == [] && p.room.queue == [] ==> |Downstream(p)| == |Reaching(p)|
  {
  }

  lemma BehindRoom(p: Path, a: Act)
    requires Sound(p) && FramesBehind(p) && CanAct(p, a) && !Disturbs(p, a) && (a.Emit? || a.Publish? || a.Retire?)
    ensures FramesBehind(Next(p, a))
  {
    if p.writing {
      DownstreamReaches(p);
    }
    if a.Emit? {
      EmitExtends(p, a.id);
    }
    assert Downstream(Next(p, a)) == Downstream(p);
    hide EventsOf, Downstream, Typed;
  }

  lemma BehindRecv(p: Path)
    requires Sound(p) && FramesBehind(p) && p.forwarder.Idle?
    ensures FramesBehind(RecvRoom(p))
  {
    var q := RecvRoom(p);
    assert Downstream(q) == Downstream(p);
    assert p.writing && !q.forwarder.Stopped? ==> |Reaching(q)| == |Reaching(p)|;
    if p.writing && p.room.queue == [] {
      DownstreamReaches(p);
    }
    hide EventsOf, Downstream, Reaching, Typed, InOrder;
  }

  lemma BehindLook(p: Path)
    requires Sound(p) && FramesBehind(p) && p.forwarder.Looking?
    ensures FramesBehind(LookRoom(p))
  {
    assert Downstream(LookRoom(p)) == Downstream(p);
    hide EventsOf, Downstream, Reaching, Typed, InOrder;
  }

  lemma BehindRoute(p: Path)
    requires Sound(p) && FramesBehind(p) && p.forwarder.Carrying? && !Disturbs(p, ForwarderRoute)
    ensures FramesBehind(Route(p))
  {
    if p.forwarder.kind == Reliable && p.wire.Accepts() {
      EventsOfAppend(p.wire.queue, p.forwarder.m);
    }
  }

  lemma BehindReading(p: Path, a: Act)
    requires Sound(p) && FramesBehind(p) && CanAct(p, a) && (a.Reply? || a.HangUp?)
    ensures FramesBehind(Next(p, a))
  {
    if a.Reply? {
      EventsOfAppend(p.wire.queue, Control(a.id));
    }
    assert Downstream(Next(p, a)) == Downstream(p);
    hide EventsOf, Downstream;
  }

  lemma BehindRecvWire(p: Path, sent: bool)
    requires Sound(p) && FramesBehind(p) && p.writing && !p.peeking
    ensures FramesBehind(RecvWire(p, sent))
  {
    RecvWirePasses(p, sent);
    assert p.wire.queue == [] ==> Downstream(p) == EventsOf(p.socket);
    hide EventsOf, Downstream, Sound;
  }

  lemma BehindLookWire(p: Path, sent: bool)
    requires Sound(p) && FramesBehind(p) && p.writing && p.peeking
    ensures FramesBehind(LookWire(p, sent))
  {
    LookWirePasses(p, sent);
    hide EventsOf, Downstream, Sound;
  }

  lemma CalmStep(p: Path, a: Act)
    requires Sound(p) && FramesBehind(p) && CanAct(p, a) && !Disturbs(p, a)
    ensures FramesBehind(Next(p, a))
  {
    match a {
      case ForwarderRecv => BehindRecv(p);
      case ForwarderLook => BehindLook(p);
      case ForwarderRoute => BehindRoute(p);
      case WriterRecv(sent) => BehindRecvWire(p, sent);
      case WriterLook(sent) => BehindLookWire(p, sent);
      case Reply(_) => BehindReading(p, a);
      case HangUp => BehindReading(p, a);
      case _ => BehindRoom(p, a);
    }
    hide RecvRoom, LookRoom, Route, RecvWire, LookWire, FramesBehind, Sound;
  }

  lemma WrittenInOrder(socket: seq<Msg>, m: Msg)
    requires Ordered(socket) && Within(m, |EventsOf(socket)|)
    ensures Ordered(socket + [m])
  {
    var s := socket + [m];
    forall j | 0 <= j < |s| ensures FrameBehindAt(s, j) {
      if j < |socket| {
        assert FrameBehindAt(socket, j);
        assert s[..j] == socket[..j];
      } else {
        assert s[..j] == socket;
      }
    }
  }

  lemma OrderedStep(p: Path, a: Act)
    requires Good(p) && CanAct(p, a)
    ensures Ordered(Next(p, a).socket)
  {
    hide Ordered, Downstream, EventsOf, Reaching, InOrder;
    if a.WriterRecv? && p.wire.queue != [] {
      WrittenInOrder(p.socket, p.wire.queue[0]);
    }
    if a.WriterLook? && p.wire.SlotPoll().Yield? {
      WrittenInOrder(p.socket, p.wire.slot.value);
    }
  }

  lemma {:induction false} CalmRunsAreGood(p: Path, acts: seq<Act>)
    requires Good(p) && CanRun(p, acts) && Calm(p, acts)
    ensures Good(After(p, acts))
    decreases |acts|
  {
    if acts != [] {
      var init, last := acts[..|acts| - 1], acts[|acts| - 1];
      CalmRunsAreGood(p, init);
      var q := After(p, init);
      SoundStep(q, last);
      CalmStep(q, last);
      OrderedStep(q, last);
      hide Next, Sound, FramesBehind, Ordered, Disturbs;
    }
  }

  lemma {:induction false} EventsOfTake(s: seq<Msg>, k: nat)
    requires k <= |s|
    ensures EventsOf(s[..k]) <= EventsOf(s)
    decreases |s|
  {
    if k < |s| {
      EventsOfTake(s[..|s| - 1], k);
      assert s[..|s| - 1][..k] == s[..k];
    } else {
      assert s[..k] == s;
    }
  }

  /** In a calm run, no frame is written before every event it reflects has been written. */
  lemma FrameFollowsItsEvents(acts: seq<Act>, j: nat)
    requires CanRun(Init(), acts) && Calm(Init(), acts)
    requires j < |After(Init(), acts).socket| && After(Init(), acts).socket[j].Frame?
    ensures var p := After(Init(), acts);
            var before, k := EventsOf(p.socket[..j]), p.socket[j].reflects;
            k <= |before| && k <= |p.emitted| && before[..k] == p.emitted[..k]
  {
    CalmRunsAreGood(Init(), acts);
    SocketIsAPrefix(acts);
    assert FrameBehindAt(After(Init(), acts).socket, j);
    EventsOfTake(After(Init(), acts).socket, j);
  }

  // ---- every disturbance matters ----

  /** The path may go on, calmly, to write a frame before one of its events. */
  ghost predicate CanBreakOrder(p: Path) {
    exists acts :: CanRun(p, acts) && Calm(p, acts) && !Ordered(After(p, acts).socket)
  }

  lemma {:induction false} CalmCompose(p: Path, acts: seq<Act>, more: seq<Act>)
    requires CanRun(p, acts) && Calm(p, acts) && CanRun(After(p, acts), more) && Calm(After(p, acts), more)
    ensures CanRun(p, acts + more) && Calm(p, acts + more)
    ensures After(p, acts + more) == After(After(p, acts), more)
    decreases |more|
  {
    RunsCompose(p, acts, more);
    if more == [] {
      assert acts + more == acts;
    } else {
      var init, last := more[..|more| - 1], more[|more| - 1];
      hide Next, CanAct, Disturbs;
      CalmCompose(p, acts, init);
      assert (acts + more)[..|acts + more| - 1] == acts + init;
    }
  }

  lemma {:induction false} WritesAreCalm(p: Path, acts: seq<Act>)
    requires CanRun(p, acts) && OnlyWrites(acts)
    ensures Calm(p, acts)
    decreases |acts|
  {
    if acts != [] {
      hide Next, CanAct;
      WritesAreCalm(p, acts[..|acts| - 1]);
    }
  }

  lemma {:induction false} EventsOfConcat(s: seq<Msg>, t: seq<Msg>)
    ensures EventsOf(s + t) == EventsOf(s) + EventsOf(t)
    decreases |t|
  {
    if t == [] {
      assert s + t == s;
    } else {
      var init, last := t[..|t| - 1], t[|t| - 1];
      EventsOfConcat(s, init);
      EventsOfAppend(s + init, last);
      assert s + init + [last] == s + t;
    }
  }

  lemma WrittenTooEarly(socket: seq<Msg>, m: Msg)
    requires !Within(m, |EventsOf(socket)|)
    ensures !Ordered(socket + [m])
  {
    var s := socket + [m];
    assert s[..|socket|] == socket;
    assert !FrameBehindAt(s, |socket|);
  }

  /** A frame in the slot of a writer that goes on is written behind the lane, or at once. */
  lemma SlotBreaksOrder(p: Path)
    requires p.writing && p.wire.unseen && p.wire.slot.Some? && (p.wire.open || p.peeking)
    requires !Within(p.wire.slot.value, if p.peeking then |EventsOf(p.socket)| else |Downstream(p)|)
    ensures CanBreakOrder(p)
  {
    var acts := ShowSlot(p);
    WritesAreCalm(p, acts);
    var before := p.socket + if p.peeking then [] else p.wire.queue;
    EventsOfConcat(p.socket, if p.peeking then [] else p.wire.queue);
    WrittenTooEarly(before, p.wire.slot.value);
    assert After(p, acts).socket == before + [p.wire.slot.value];
  }

  lemma BreaksLater(p: Path, acts: seq<Act>)
    requires CanRun(p, acts) && Calm(p, acts) && CanBreakOrder(After(p, acts))
    ensures CanBreakOrder(p)
  {
    hide Calm, Ordered;
    var more :| CanRun(After(p, acts), more) && Calm(After(p, acts), more)
                && !Ordered(After(After(p, acts), more).socket);
    CalmCompose(p, acts, more);
  }

  lemma OneCalmStep(p: Path, a: Act)
    requires CanAct(p, a) && !Disturbs(p, a)
    ensures CanRun(p, [a]) && Calm(p, [a]) && After(p, [a]) == Next(p, a)
  {
    RunOn(p, [], a);
    assert [] + [a] == [a] && [a][..0] == [];
  }

  /** The forwarder takes the early frame to the slot of a writer that is not looking yet. */
  lemma EarlyFrameBreaksOrder(p: Path)
    requires Wired(p) && p.writing && !p.peeking && p.forwarder.Looking?
    requires p.room.unseen && p.room.slot.Some? && !Within(p.room.slot.value, |Downstream(p)|)
    ensures CanBreakOrder(p)
  {
    hide EventsOf, CanBreakOrder, Calm, CanRun;
    OneCalmStep(p, ForwarderLook);
    var q := LookRoom(p);
    assert q.forwarder == Carrying(Snapshot, p.room.slot.value);
    OneCalmStep(q, ForwarderRoute);
    var r := Route(q);
    assert Downstream(r) == Downstream(p);
    SlotBreaksOrder(r);
    BreaksLater(q, [ForwarderRoute]);
    BreaksLater(p, [ForwarderLook]);
  }

  lemma LookFirst(p: Path)
    requires Typed(p) && Wired(p) && p.writing && p.peeking && p.forwarder.Looking?
    ensures var q := LookWire(p, true);
            && Wired(q) && q.writing && !q.peeking && q.forwarder == p.forwarder && q.room == p.room
            && Downstream(q) == Downstream(p)
  {
    LookWirePasses(p, true);
  }

  /**
   Only disturbances break the order, and each of them can: after any step of a good path, it may
   calmly go on to write a frame before one of its events if and only if that step disturbed it.
   */
  lemma DisturbanceIsExact(p: Path, a: Act)
    requires Good(p) && CanAct(p, a)
    ensures CanBreakOrder(Next(p, a)) <==> Disturbs(p, a)
  {
    var q := Next(p, a);
    if !Disturbs(p, a) {
      CalmStep(p, a);
      SoundStep(p, a);
      OrderedStep(p, a);
      hide Next, Sound, FramesBehind, Ordered, Disturbs;
      forall acts | CanRun(q, acts) && Calm(q, acts) ensures Ordered(After(q, acts).socket) {
        CalmRunsAreGood(q, acts);
      }
    } else if a.ForwarderRoute? {
      hide EventsOf;
      SlotBreaksOrder(q);
    } else {
      PublishBreaksOrder(p, a);
    }
  }

  lemma PublishBreaksOrder(p: Path, a: Act)
    requires Good(p) && CanAct(p, a) && a.Publish? && Disturbs(p, a)
    ensures CanBreakOrder(Next(p, a))
  {
    var q := Next(p, a);
    SoundStep(p, a);
    assert q.room.slot == Some(Frame(|p.emitted|, a.id)) && q.room.unseen && Downstream(q) == Downstream(p);
    assert |p.emitted| > |Downstream(p)|;
    hide EventsOf, Downstream, CanBreakOrder, Calm, CanRun, Reaching;
    if q.peeking {
      LookFirst(q);
      OneCalmStep(q, WriterLook(true));
      EarlyFrameBreaksOrder(LookWire(q, true));
      BreaksLater(q, [WriterLook(true)]);
    } else {
      EarlyFrameBreaksOrder(q);
    }
  }

  // ---- an event lost on the way to the socket ----

  lemma {:induction false} OrderedWithin(socket: seq<Msg>)
    requires Ordered(socket)
    ensures SocketWithin(socket, |EventsOf(socket)|)
  {
    forall k | 0 <= k < |socket| ensures Within(socket[k], |EventsOf(socket)|) {
      assert FrameBehindAt(socket, k);
      EventsOfTake(socket, k);
    }
  }

  /** As long as nothing disturbed the path, an event lost on the way to the socket hides its frames too. */
  lemma CalmLossHidesItsFrames(p: Path, a: Act)
    requires Good(p) && CanAct(p, a) && LosesOnWire(p, a)
    ensures NeverShowsBeyond(Next(p, a), LostIndex(p, a))
  {
    OrderedWithin(p.socket);
    assert |EventsOf(p.socket)| <= |Downstream(p)|;
    assert ShownWithin(Next(p, a), LostIndex(p, a));
    hide Sound, FramesBehind, Ordered, ShownWithin, NeverShowsBeyond, Next, Downstream;
    LossOnWireHidesItsFramesIff(p, a);
  }

  /** The read loop fills the socket lane with replies. */
  lemma {:induction false} FillLane(p: Path, n: nat) returns (acts: seq<Act>, replies: seq<Msg>)
    requires p.reading && p.wire.listening && |p.wire.queue| + n <= p.wire.cap
    ensures CanRun(p, acts) && |replies| == n && EventsOf(p.wire.queue + replies) == EventsOf(p.wire.queue)
    ensures After(p, acts) == p.(wire := p.wire.(queue := p.wire.queue + replies))
  {
    if n == 0 {
      acts, replies := [], [];
      assert p.wire.queue + [] == p.wire.queue;
    } else {
      acts, replies := FillLane(p, n - 1);
      RunOn(p, acts, Reply(0));
      EventsOfAppend(p.wire.queue + replies, Control(0));
      assert p.wire.queue + replies + [Control(0)] == p.wire.queue + (replies + [Control(0)]);
      acts, replies := acts + [Reply(0)], replies + [Control(0)];
    }
  }

  /** An event and a frame inside the forwarder's window: the frame reaches the writer's slot first. */
  lemma EarlyFrame() returns (acts: seq<Act>)
    ensures CanRun(Init(), acts)
    ensures After(Init(), acts) == Init().(emitted := [Event(0)],
                                           room := Init().room.(queue := [Event(0)], slot := Some(Frame(1, 0))),
                                           wire := Init().wire.(slot := Some(Frame(1, 0)), unseen := true))
  {
    var p := Init();
    RunOn(p, [], ForwarderRecv);
    RunOn(p, [] + [ForwarderRecv], Emit(0));
    RunOn(p, [] + [ForwarderRecv] + [Emit(0)], Publish(0));
    RunOn(p, [] + [ForwarderRecv] + [Emit(0)] + [Publish(0)], ForwarderLook);
    acts := [] + [ForwarderRecv] + [Emit(0)] + [Publish(0)] + [ForwarderLook];
    RunOn(p, acts, ForwarderRoute);
    acts := acts + [ForwarderRoute];
  }

  lemma FullLane() returns (acts: seq<Act>)
    ensures CanRun(Init(), acts)
    ensures var p := After(Init(), acts);
            && p.wire.slot == Some(Frame(1, 0)) && p.wire.unseen && p.wire.open && p.writing && p.reading && p.room.open
            && |p.wire.queue| == p.wire.cap && p.forwarder == Carrying(Reliable, Event(0)) && Downstream(p) == []
  {
    var early := EarlyFrame();
    var p := After(Init(), early);
    hide Next, CanAct;
    var fill, replies := FillLane(p, 64);
    RunsCompose(Init(), early, fill);
    acts := early + fill;
    assert CanAct(After(Init(), acts), ForwarderRecv);
    RunOn(Init(), acts, ForwarderRecv);
    acts := acts + [ForwarderRecv];
    assert After(Init(), acts) == RecvRoom(After(Init(), early + fill));
    assert [] + replies == replies;
  }

  lemma FullLaneHasShown(p: Path)
    requires p.wire.slot == Some(Frame(1, 0)) && p.wire.unseen && p.wire.open && p.writing && p.reading && p.room.open
    requires |p.wire.queue| == p.wire.cap && p.forwarder == Carrying(Reliable, Event(0)) && Downstream(p) == []
    ensures LosesOnWire(p, ForwarderRoute) && !ShownWithin(Next(p, ForwarderRoute), LostIndex(p, ForwarderRoute))
  {
  }

  /**
   The window can undo the overflow policy: in some run the socket lane refuses an event whose frame
   has slipped past it, and the writer may still show that frame.
   */
  lemma SomeLossShowsItsFrame() returns (acts: seq<Act>)
    ensures CanRun(Init(), acts) && LosesOnWire(After(Init(), acts), ForwarderRoute)
    ensures var p := After(Init(), acts); !NeverShowsBeyond(Next(p, ForwarderRoute), LostIndex(p, ForwarderRoute))
  {
    acts := FullLane();
    FullLaneHasShown(After(Init(), acts));
    RunsAreSound(Init(), acts);
    hide Next, After, CanRun, Sound, ShownWithin, NeverShowsBeyond, LostIndex;
    LossOnWireHidesItsFramesIff(After(Init(), acts), ForwarderRoute);
  }
}
