/**
 The path delivers: whatever state it is in, as long as nothing has been cut, the forwarder and the
 writer can bring every event emitted so far and the newest frame to the socket.
 */
module Delivery {
  import opened Wrappers
  import opened Outbound
  import opened Pipeline

  /** Steps of the forwarder and of the writer, whose socket accepts what it is given. */
  predicate OnlyDelivers(acts: seq<Act>) {
    forall k | 0 <= k < |acts| ::
      || acts[k].ForwarderRecv? || acts[k].ForwarderLook? || acts[k].ForwarderRoute?
      || acts[k] == WriterRecv(true) || acts[k] == WriterLook(true)
  }

  /** The newest frame is shown once and replaces those not shown before it. */
  lemma SlotShowsTheNewestOnce<T>(h: Hop<T>, m: T, m': T)
    ensures h.Put(m).SlotPoll() == Yield(Snapshot, m) && h.Put(m).Put(m') == h.Put(m')
    ensures !h.AfterSlot().SlotPoll().Yield? && h.AfterSlot().queue == h.queue
    ensures h.AfterRecv().slot == h.slot && h.AfterRecv().unseen == h.unseen
  {
  }

  lemma OneMore(p: Path, acts: seq<Act>, a: Act)
    requires CanRun(p, acts) && OnlyDelivers(acts) && CanAct(After(p, acts), a) && OnlyDelivers([a])
    ensures CanRun(p, acts + [a]) && OnlyDelivers(acts + [a]) && After(p, acts + [a]) == Next(After(p, acts), a)
  {
  }

  // ---- the newest frame ----

  /** The newest frame that is still on its way. */
  function Newest(p: Path): Option<Msg> {
    if p.room.unseen && p.room.slot.Some? then p.room.slot
    else if p.forwarder.Carrying? && p.forwarder.kind == Snapshot then Some(p.forwarder.m)
    else if p.wire.unseen then p.wire.slot
    else None
  }

  /** The frame is still on its way as the newest, or has been written. */
  predicate Kept(p: Path, f: Option<Msg>) {
    f.Some? ==> Newest(p) == f || f.value in p.socket
  }

  /** What every part of a delivery leaves as it was, or moves on. */
  ghost predicate Carries(p: Path, q: Path) {
    && Sound(q) && Flowing(q) && q.emitted == p.emitted && q.wire.cap == p.wire.cap
    && forall f: Option<Msg> | Kept(p, f) :: Kept(q, f)
  }

  lemma StepCarries(p: Path, acts: seq<Act>, a: Act)
    requires CanRun(p, acts) && OnlyDelivers(acts) && Carries(p, After(p, acts))
    requires CanAct(After(p, acts), a) && OnlyDelivers([a]) && Flowing(Next(After(p, acts), a))
    ensures CanRun(p, acts + [a]) && OnlyDelivers(acts + [a]) && After(p, acts + [a]) == Next(After(p, acts), a)
    ensures Carries(p, After(p, acts + [a]))
  {
    OneMore(p, acts, a);
    var q := After(p, acts);
    SoundStep(q, a);
    EmittedGrows(q, a);
    assert [a][0] == a;
    KeptOnStep(q, a);
    hide Sound, Kept, Flowing;
  }

  lemma KeptOnStep(p: Path, a: Act)
    requires Sound(p) && CanAct(p, a) && OnlyDelivers([a]) && Flowing(Next(p, a))
    ensures Next(p, a).wire.cap == p.wire.cap
    ensures forall f: Option<Msg> | Kept(p, f) :: Kept(Next(p, a), f)
  {
    assert [a][0] == a;
  }

  // ---- the parts of a delivery ----

  /** A delivery so far: from `p` by these steps, nothing lost on the way. */
  ghost predicate Underway(p: Path, acts: seq<Act>) {
    CanRun(p, acts) && OnlyDelivers(acts) && Carries(p, After(p, acts))
  }

  /** The writer is done with its lane and starts a new poll. */
  predicate WriterIsFree(p: Path) {
    !p.peeking && p.wire.queue == []
  }

  /** The writer finishes its poll and empties its lane. */
  lemma {:induction false} FreeWriter(p: Path, acts: seq<Act>) returns (acts': seq<Act>)
    requires Underway(p, acts)
    ensures Underway(p, acts') && WriterIsFree(After(p, acts'))
    ensures After(p, acts').room == After(p, acts).room && After(p, acts').forwarder == After(p, acts).forwarder
    decreases |After(p, acts).wire.queue|, After(p, acts).peeking
  {
    var q := After(p, acts);
    acts' := acts;
    if q.peeking {
      StepCarries(p, acts, WriterLook(true));
      acts' := FreeWriter(p, acts + [WriterLook(true)]);
    } else if q.wire.queue != [] {
      StepCarries(p, acts, WriterRecv(true));
      acts' := FreeWriter(p, acts + [WriterRecv(true)]);
    }
  }

  /** What the forwarder carries goes through when the lane behind it is empty. */
  lemma RouteCarries(p: Path, acts: seq<Act>) returns (acts': seq<Act>)
    requires Underway(p, acts) && p.wire.cap > 0 && After(p, acts).wire.queue == []
    requires After(p, acts).forwarder.Carrying?
    ensures Underway(p, acts') && WriterIsFree(After(p, acts')) && After(p, acts').forwarder.Idle?
    ensures After(p, acts').room == After(p, acts).room
  {
    StepCarries(p, acts, ForwarderRoute);
    acts' := acts + [ForwarderRoute];
    assert After(p, acts').forwarder.Idle? && After(p, acts').room == After(p, acts).room;
    hide Next, Carries;
    acts' := FreeWriter(p, acts');
  }

  /** The forwarder finishes what it is at: its poll, and the message it carries. */
  lemma RestForwarder(p: Path, acts: seq<Act>) returns (acts': seq<Act>)
    requires Underway(p, acts) && p.wire.cap > 0
    ensures Underway(p, acts') && WriterIsFree(After(p, acts')) && After(p, acts').forwarder.Idle?
    ensures After(p, acts').room.queue == After(p, acts).room.queue
  {
    acts' := FreeWriter(p, acts);
    if After(p, acts').forwarder.Looking? {
      StepCarries(p, acts', ForwarderLook);
      acts' := acts' + [ForwarderLook];
    }
    if After(p, acts').forwarder.Carrying? {
      acts' := RouteCarries(p, acts');
    }
  }

  /** One event after the other, the forwarder empties the room's lane. */
  lemma {:induction false} EmptyRoom(p: Path, acts: seq<Act>) returns (acts': seq<Act>)
    requires Underway(p, acts) && p.wire.cap > 0
    ensures Underway(p, acts') && WriterIsFree(After(p, acts')) && After(p, acts').forwarder.Idle?
    ensures After(p, acts').room.queue == []
    decreases |After(p, acts).room.queue|
  {
    acts' := RestForwarder(p, acts);
    var q := After(p, acts');
    if q.room.queue != [] {
      StepCarries(p, acts', ForwarderRecv);
      acts' := RouteCarries(p, acts' + [ForwarderRecv]);
      acts' := EmptyRoom(p, acts');
    }
  }

  /** With nothing else to do, the newest frame goes from the room's slot to the writer's, and then to the socket. */
  lemma ShowNewest(p: Path, acts: seq<Act>) returns (acts': seq<Act>)
    requires Underway(p, acts) && p.wire.cap > 0
    requires WriterIsFree(After(p, acts)) && After(p, acts).forwarder.Idle? && After(p, acts).room.queue == []
    ensures Underway(p, acts') && After(p, acts').wire.queue == [] && After(p, acts').room.queue == []
    ensures After(p, acts').forwarder.Idle? && Newest(After(p, acts')).None?
  {
    StepCarries(p, acts, ForwarderRecv);
    acts' := acts + [ForwarderRecv];
    StepCarries(p, acts', ForwarderLook);
    acts' := acts' + [ForwarderLook];
    if After(p, acts').forwarder.Carrying? {
      acts' := RouteCarries(p, acts');
    }
    acts' := WriterShows(p, acts');
  }

  lemma WriterPeeks(p: Path, acts: seq<Act>)
    requires Underway(p, acts) && WriterIsFree(After(p, acts)) && After(p, acts).forwarder.Idle?
    ensures var acts' := acts + [WriterRecv(true)];
            && Underway(p, acts') && After(p, acts').peeking && After(p, acts').wire.queue == []
            && After(p, acts').forwarder.Idle? && After(p, acts').room == After(p, acts).room
  {
  }

  lemma WriterShows(p: Path, acts: seq<Act>) returns (acts': seq<Act>)
    requires Underway(p, acts) && WriterIsFree(After(p, acts)) && After(p, acts).forwarder.Idle?
    requires After(p, acts).room.queue == [] && !After(p, acts).room.unseen
    ensures Underway(p, acts') && After(p, acts').wire.queue == [] && After(p, acts').room.queue == []
    ensures After(p, acts').forwarder.Idle? && Newest(After(p, acts')).None?
  {
    WriterPeeks(p, acts);
    acts' := acts + [WriterRecv(true)];
    StepCarries(p, acts', WriterLook(true));
    acts' := acts' + [WriterLook(true)];
  }

  /**
   Nothing gets stuck: from every state in which the path has been cut nowhere, the forwarder and the
   writer alone can bring all events emitted so far, and the newest frame, to the socket.
   */
  lemma EverythingCanArrive(p: Path) returns (acts: seq<Act>)
    requires Sound(p) && Flowing(p) && p.wire.cap > 0
    ensures CanRun(p, acts) && OnlyDelivers(acts)
    ensures EventsOf(After(p, acts).socket) == p.emitted
    ensures Newest(p).Some? ==> Newest(p).value in After(p, acts).socket
  {
    acts := EmptyRoom(p, []);
    acts := ShowNewest(p, acts);
    var q := After(p, acts);
    assert Carries(p, q) && Kept(p, Newest(p));
    assert Kept(q, Newest(p));
    assert EventsOf(q.wire.queue) == [] && Reaching(q) == q.emitted;
  }
}
