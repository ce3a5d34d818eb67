/**
 The window inside one poll. The reliable lane is polled, found empty, and only then is the slot
 tested and read; the room runs on another thread and may act in between. This module says exactly
 which of its actions in that window put a frame ahead of an event it reflects, and which make the
 stream end with events still queued.
 */
module PollWindow {
  import opened Wrappers
  import opened Outbound
  import opened Pipeline

  /** The room's hop and the number of events emitted into it. */
  datatype Lane = Lane(hop: Hop<Msg>, emitted: nat)

  function LaneOf(p: Path): Lane {
    Lane(p.room, |p.emitted|)
  }

  /** What a step does to the lane while the forwarder is between its two looks. */
  function LaneStep(l: Lane, a: Act): Lane {
    match a
    case Emit(id) => Lane(l.hop.Offer(Event(id)), l.emitted + 1)
    case Publish(id) => if l.hop.open then l.(hop := l.hop.Put(Frame(l.emitted, id))) else l
    case Retire => l.(hop := l.hop.Close())
    case _ => l
  }

  function During(l: Lane, window: seq<Act>): Lane
    decreases |window|
  {
    if window == [] then l else LaneStep(During(l, window[..|window| - 1]), window[|window| - 1])
  }

  /** All that a window does to the hop is what `OutboundSequencer.Next` allows for. */
  lemma {:induction false} WindowMayBecome(l: Lane, window: seq<Act>)
    ensures MayBecome(l.hop, During(l, window).hop)
    decreases |window|
  {
    if window != [] {
      WindowMayBecome(l, window[..|window| - 1]);
    }
  }

  /** The frame read explains itself by an event the consumer has not taken yet. */
  predicate Overtakes(l: Lane, taken: nat) {
    l.hop.SlotPoll().Yield? && !Within(l.hop.SlotPoll().message, taken)
  }

  /** The reliable poll has just found the lane empty and open, with every event so far taken. */
  predicate JustFoundEmpty(l: Lane) {
    && l.hop.queue == [] && l.hop.open && l.hop.listening
    && (l.hop.slot.Some? ==> l.hop.slot.value.Frame? && l.hop.slot.value.reflects <= l.emitted)
  }

  function Sends(window: seq<Act>): nat {
    if window == [] then 0 else Sends(window[..|window| - 1]) + (if window[|window| - 1].Emit? then 1 else 0)
  }

  /** The window leaves a lane of this capacity open: no overflow and no retirement. */
  predicate LeavesOpen(window: seq<Act>, cap: nat) {
    window == [] || (
        && LeavesOpen(window[..|window| - 1], cap) && !window[|window| - 1].Retire?
        && (window[|window| - 1].Emit? ==> Sends(window[..|window| - 1]) < cap))
  }

  predicate ShowsAt(window: seq<Act>, cap: nat, k: int) {
    0 <= k < |window| && window[k].Publish? && LeavesOpen(window[..k], cap)
  }

  predicate SendsAt(window: seq<Act>, cap: nat, k: int) {
    0 <= k < |window| && window[k].Emit? && LeavesOpen(window[..k], cap) && Sends(window[..k]) < cap
  }

  predicate ShowsAfterSendAt(window: seq<Act>, cap: nat, k: int) {
    ShowsAt(window, cap, k) && Sends(window[..k]) > 0
  }

  /** Some frame is shown in the window. */
  ghost predicate Shows(window: seq<Act>, cap: nat) {
    exists k :: ShowsAt(window, cap, k)
  }

  /** Some event is accepted in the window. */
  ghost predicate Accepts(window: seq<Act>, cap: nat) {
    exists k :: SendsAt(window, cap, k)
  }

  /** Some frame is shown in the window after at least one event. */
  ghost predicate ShowsAfterSend(window: seq<Act>, cap: nat) {
    exists k :: ShowsAfterSendAt(window, cap, k)
  }

  /** Whether something happens in a window: in the window without its last act, or at that act. */
  lemma LastAct(window: seq<Act>, cap: nat)
    requires window != []
    ensures var before, last := window[..|window| - 1], |window| - 1;
            && (Shows(window, cap) <==> Shows(before, cap) || ShowsAt(window, cap, last))
            && (Accepts(window, cap) <==> Accepts(before, cap) || SendsAt(window, cap, last))
            && (ShowsAfterSend(window, cap) <==> ShowsAfterSend(before, cap) || ShowsAfterSendAt(window, cap, last))
  {
    var before := window[..|window| - 1];
    forall k | 0 <= k < |before|
      ensures ShowsAt(window, cap, k) <==> ShowsAt(before, cap, k)
      ensures SendsAt(window, cap, k) <==> SendsAt(before, cap, k)
      ensures ShowsAfterSendAt(window, cap, k) <==> ShowsAfterSendAt(before, cap, k)
    {
      assert before[..k] == window[..k];
    }
  }

  /** The lane after the window, in terms of the window alone. */
  lemma {:induction false} LaneAfterWindow(l: Lane, window: seq<Act>)
    requires JustFoundEmpty(l)
    ensures var m := During(l, window);
            && m.emitted == l.emitted + Sends(window) && m.hop.cap == l.hop.cap && m.hop.listening
            && (m.hop.open <==> LeavesOpen(window, l.hop.cap))
            && (m.hop.open ==> |m.hop.queue| == Sends(window))
            && (m.hop.queue != [] <==> Accepts(window, l.hop.cap))
            && (m.hop.unseen <==> l.hop.unseen || Shows(window, l.hop.cap))
            && (m.hop.slot.Some? ==> m.hop.slot.value.Frame?)
            && (Shows(window, l.hop.cap) ==> m.hop.slot.Some?)
            && (!Shows(window, l.hop.cap) ==> m.hop.slot == l.hop.slot)
    decreases |window|
  {
    if window != [] {
      LaneAfterWindow(l, window[..|window| - 1]);
      LastAct(window, l.hop.cap);
      hide Shows, Accepts, ShowsAfterSend;
    }
  }

  /** A window in which nothing is accepted shows nothing after an event. */
  lemma {:induction false} NoSendNoOvertake(window: seq<Act>, cap: nat)
    ensures LeavesOpen(window, cap) && Sends(window) == 0 ==> !ShowsAfterSend(window, cap)
    decreases |window|
  {
    if window != [] {
      NoSendNoOvertake(window[..|window| - 1], cap);
      LastAct(window, cap);
      hide Shows, Accepts, ShowsAfterSend;
    }
  }

  /** Exactly when the frame read at the end of the window overtakes one of its events. */
  lemma {:induction false} WindowOvertakes(l: Lane, window: seq<Act>)
    requires JustFoundEmpty(l)
    ensures Overtakes(During(l, window), l.emitted) <==> ShowsAfterSend(window, l.hop.cap)
    decreases |window|
  {
    if window != [] {
      var before := window[..|window| - 1];
      WindowOvertakes(l, before);
      LaneAfterWindow(l, before);
      LastAct(window, l.hop.cap);
      NoSendNoOvertake(before, l.hop.cap);
      hide Shows, Accepts, ShowsAfterSend;
    }
  }

  /**
   Exactly when the stream ends inside the window with events still queued: some were accepted, then
   the lane was closed, and there was no frame to read.
   */
  lemma WindowLosesEvents(l: Lane, window: seq<Act>)
    requires JustFoundEmpty(l)
    ensures var m, cap := During(l, window).hop, l.hop.cap;
            m.SlotPoll() == Ended && m.queue != [] <==>
              && Accepts(window, cap) && !LeavesOpen(window, cap)
              && !l.hop.unseen && !Shows(window, cap)
  {
    LaneAfterWindow(l, window);
  }

  // ---- the window of the forwarder ----

  /** The forwarder is not back at the slot yet. */
  predicate NotYetLooking(window: seq<Act>) {
    forall k | 0 <= k < |window| :: !window[k].ForwarderLook?
  }

  /** Until it looks again, the forwarder's hop changes as the window says, whatever the others do meanwhile. */
  lemma {:induction false} WindowIsTheRooms(p: Path, window: seq<Act>)
    requires p.forwarder.Looking? && CanRun(p, window) && NotYetLooking(window)
    ensures After(p, window).forwarder.Looking? && LaneOf(After(p, window)) == During(LaneOf(p), window)
    decreases |window|
  {
    if window != [] {
      WindowIsTheRooms(p, window[..|window| - 1]);
      var q, a := After(p, window[..|window| - 1]), window[|window| - 1];
      assert Next(q, a).forwarder.Looking? && LaneOf(Next(q, a)) == LaneStep(LaneOf(q), a);
      hide Next, LaneOf, LaneStep;
    }
  }

  /** A first look that finds nothing leaves every event so far downstream. */
  lemma EmptyLook(p: Path)
    requires Sound(p) && Flowing(p) && p.forwarder.Idle? && p.room.queue == []
    ensures Next(p, ForwarderRecv).forwarder.Looking? && LaneOf(Next(p, ForwarderRecv)) == LaneOf(p)
    ensures JustFoundEmpty(LaneOf(p)) && |Downstream(p)| == |p.emitted|
  {
  }

  /**
   In every run: after a first look that found the lane empty, and whatever happens until the second,
   the forwarder takes up a frame that reflects an event it has not taken if and only if the room
   showed a frame after an event in between.
   */
  lemma ForwarderOvertakesIff(p: Path, window: seq<Act>)
    requires Sound(p) && Flowing(p) && p.forwarder.Idle? && p.room.queue == []
    requires CanRun(Next(p, ForwarderRecv), window) && NotYetLooking(window)
    ensures var q := After(Next(p, ForwarderRecv), window);
            && CanAct(q, ForwarderLook)
            && (var f := Next(q, ForwarderLook).forwarder;
                f.Carrying? && !Within(f.m, |Downstream(p)|) <==> ShowsAfterSend(window, p.room.cap))
  {
    EmptyLook(p);
    WindowIsTheRooms(Next(p, ForwarderRecv), window);
    WindowOvertakes(LaneOf(p), window);
    hide Sound, During, ShowsAfterSend, After, CanRun, Downstream, JustFoundEmpty;
  }

  /** Likewise for the end of the stream: the forwarder stops with events still queued exactly for these windows. */
  lemma ForwarderLosesIff(p: Path, window: seq<Act>)
    requires Sound(p) && Flowing(p) && p.forwarder.Idle? && p.room.queue == []
    requires CanRun(Next(p, ForwarderRecv), window) && NotYetLooking(window)
    ensures var q := After(Next(p, ForwarderRecv), window);
            && CanAct(q, ForwarderLook)
            && (Next(q, ForwarderLook).forwarder.Stopped? && q.room.queue != [] <==>
                  && Accepts(window, p.room.cap) && !LeavesOpen(window, p.room.cap)
                  && !p.room.unseen && !Shows(window, p.room.cap))
  {
    EmptyLook(p);
    WindowIsTheRooms(Next(p, ForwarderRecv), window);
    WindowLosesEvents(LaneOf(p), window);
    hide Sound, During, Accepts, Shows, LeavesOpen, After, CanRun, Downstream, JustFoundEmpty;
  }

  /** The smallest case: one event and one frame of the same tick, both inside the window. */
  lemma SameTickRace(p: Path, event: nat, frame: nat)
    requires Sound(p) && Flowing(p) && p.forwarder.Idle? && p.room.queue == [] && p.room.cap > 0
    ensures var q := Next(p, ForwarderRecv);
            && CanRun(q, [Emit(event), Publish(frame)])
            && (var r := After(q, [Emit(event), Publish(frame)]);
                && r.forwarder.Looking?
                && Next(r, ForwarderLook).forwarder == Carrying(Snapshot, Frame(|p.emitted| + 1, frame)))
  {
    EmptyLook(p);
    var q := Next(p, ForwarderRecv);
    RunOn(q, [], Emit(event));
    RunOn(q, [] + [Emit(event)], Publish(frame));
    assert [] + [Emit(event)] + [Publish(frame)] == [Emit(event), Publish(frame)];
  }

  /** The smallest loss of the other kind: the last event and the removal of the player, both inside the window. */
  lemma LastEventIsLost(p: Path, event: nat)
    requires Sound(p) && Flowing(p) && p.forwarder.Idle? && p.room.queue == [] && p.room.cap > 0 && !p.room.unseen
    ensures var q := Next(p, ForwarderRecv);
            && CanRun(q, [Emit(event), Retire])
            && (var r := After(q, [Emit(event), Retire]);
                && r.room.queue == [Event(event)] && r.forwarder.Looking?
                && Next(r, ForwarderLook).forwarder.Stopped?)
  {
    EmptyLook(p);
    var q := Next(p, ForwarderRecv);
    RunOn(q, [], Emit(event));
    RunOn(q, [] + [Emit(event)], Retire);
    assert [] + [Emit(event)] + [Retire] == [Emit(event), Retire];
  }
}
