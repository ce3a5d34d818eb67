/**
 One hop of the outbound path: a bounded first-in-first-out lane for reliable messages,
 a latest-only slot for snapshots, and the poll that merges them. The same hop is used
 twice, between room and forwarder and between forwarder and socket.
 */
module Outbound {
  import opened Wrappers

  const U64_MAX: nat := 0xFFFF_FFFF_FFFF_FFFF

  type U64 = n: nat | n <= U64_MAX

  function SaturatingAdd(n: U64, k: nat): U64 {
    if n + k >= U64_MAX then U64_MAX else n + k
  }

  function SaturatingInc(n: U64): U64 {
    SaturatingAdd(n, 1)
  }

  /**
   Both lanes of one hop. `open`: a sender is left. `listening`: the receivers are left.
   `unseen`: the slot holds a version the consumer has not looked at.
   */
  datatype Hop<T> = Hop(queue: seq<T>, cap: nat, slot: Option<T>, unseen: bool, open: bool, listening: bool)
  {
    predicate Accepts() {
      listening && |queue| < cap
    }

    /** `try_send`: full and closed both refuse. */
    function TrySend(m: T): Hop<T> {
      if Accepts() then this.(queue := queue + [m]) else this
    }

    /** The room's send: queued, or both lanes are closed at once; a closed hop takes nothing. */
    function Offer(m: T): Hop<T> {
      if !open then this else if Accepts() then TrySend(m) else Close()
    }

    function Put(m: T): Hop<T> {
      this.(slot := Some(m), unseen := true)
    }

    function Close(): Hop<T> {
      this.(open := false)
    }

    function Deafen(): Hop<T> {
      this.(listening := false)
    }

    /** The first half of the biased select: the reliable lane alone. */
    function RecvPoll(): Polled<T> {
      if queue != [] then Yield(Reliable, queue[0]) else if !open then Ended else Pending
    }

    function AfterRecv(): Hop<T> {
      if queue != [] then this.(queue := queue[1..]) else this
    }

    /** The second half: the slot alone. An unseen version is reported even when the senders are gone. */
    function SlotPoll(): Polled<T> {
      if unseen then (if slot.Some? then Yield(Snapshot, slot.value) else Pending)
      else if !open then Ended else Pending
    }

    function AfterSlot(): Hop<T> {
      this.(unseen := false)
    }

    /** Both halves with nothing in between. */
    function Poll(): Polled<T> {
      if RecvPoll().Pending? then SlotPoll() else RecvPoll()
    }
  }

  datatype Kind = Reliable | Snapshot

  datatype Polled<+T> = Yield(kind: Kind, message: T) | Ended | Pending

  function Fresh<T>(cap: nat): Hop<T> {
    Hop([], cap, None, false, true, true)
  }

  /** All a closed hop will ever hand out: with the senders gone, nothing happens between the halves of a poll. */
  function Drained<T>(h: Hop<T>): seq<T>
    requires !h.open
    decreases |h.queue|
  {
    if h.Poll().Yield? then [h.Poll().message] + Drained(h.AfterRecv()) else []
  }

  /** A closed hop hands out exactly the reliable messages already queued, in order, and then ends: never the slot. */
  lemma {:induction false} ClosedHopDrainsAndEnds<T>(h: Hop<T>)
    requires !h.open
    ensures Drained(h) == h.queue
    ensures h.queue == [] ==> h.Poll() == Ended
    decreases |h.queue|
  {
    if h.queue != [] {
      ClosedHopDrainsAndEnds(h.AfterRecv());
    }
  }

  /** What the senders may make of a hop while its consumer is between the two halves of a poll. */
  ghost predicate MayBecome<T>(before: Hop<T>, after: Hop<T>) {
    && before.queue <= after.queue && after.cap == before.cap && after.listening == before.listening
    && (after.open ==> before.open) && (before.unseen ==> after.unseen)
    && (after.slot != before.slot ==> after.unseen) && (!before.open ==> after == before)
  }

  /** The consumer of a hop. `Next` is polled until it yields or ends. */
  class OutboundSequencer<T> {
    var hop: Hop<T>
    var seqNo: nat

    constructor (hop: Hop<T>)
      ensures this.hop == hop && seqNo == 0
    {
      this.hop, seqNo := hop, 0;
    }

    /**
     Reliable first; only if the lane is empty, the slot is read, as the senders have left
     the hop by then (`later`). A change of the slot to nothing is skipped. The sequence
     number counts yields of both kinds.
     */
    method Next(later: Hop<T>) returns (item: Polled<T>)
      requires MayBecome(hop, later)
      modifies this
      ensures !old(hop).RecvPoll().Pending? ==> item == old(hop).RecvPoll() && hop == old(hop).AfterRecv()
      ensures old(hop).RecvPoll().Pending? && !(later.unseen && later.slot.None?) ==>
                item == later.SlotPoll() && hop == later.AfterSlot()
      ensures old(hop).RecvPoll().Pending? && later.unseen && later.slot.None? ==>
                item == later.AfterSlot().Poll()
                && hop == later.AfterSlot().AfterRecv()
      ensures seqNo == old(seqNo) + if item.Yield? then 1 else 0
      ensures item.Yield? && item.kind == Snapshot ==> old(hop).queue == []
    {
      var next := later;
      while true
        invariant seqNo == old(seqNo)
        invariant (hop == old(hop) && next == later)
               || (hop == next == later.AfterSlot() && later.unseen && later.slot.None?
                   && old(hop).RecvPoll().Pending?)
        decreases next.unseen, hop != next
      {
        if hop.queue != [] {
          item := Yield(Reliable, hop.queue[0]);
          hop := hop.(queue := hop.queue[1..]);
          seqNo := seqNo + 1;
          return;
        }
        if !hop.open {
          return Ended;
        }
        hop := next;
        if !hop.unseen {
          return if hop.open then Pending else Ended;
        }
        hop := hop.(unseen := false);
        if hop.slot.Some? {
          item := Yield(Snapshot, hop.slot.value);
          seqNo := seqNo + 1;
          return;
        }
        next := hop;
      }
    }
  }

  /** What is left of an outbox when these players have been cut off. */
  datatype Cutting<T> = Cutting(channels: map<nat, T>, disconnects: set<nat>, drops: U64)
  {
    function Without(cut: set<nat>): Cutting<T> {
      Cutting(channels - cut, disconnects + cut, SaturatingAdd(drops, |cut|))
    }
  }

  lemma CutNone<T>(start: Cutting<T>)
    ensures start.Without({}) == start
  {
  }

  lemma CutOneMore<T>(start: Cutting<T>, cut: set<nat>, p: nat)
    requires p !in cut
    ensures start.Without(cut).Without({p}) == start.Without(cut + {p})
  {
  }

  /** The room's side: one hop per player, and the policy for a reliable lane that refuses. */
  class PlayerOutbox<T> {
    var channels: map<nat, Hop<T>>
    var pendingDisconnects: set<nat>
    var reliableDrops: U64
    var slotOverwrites: U64

    constructor ()
      ensures channels == map[] && pendingDisconnects == {} && reliableDrops == 0 && slotOverwrites == 0
    {
      channels, pendingDisconnects, reliableDrops, slotOverwrites := map[], {}, 0, 0;
    }

    method Insert(p: nat, hop: Hop<T>)
      modifies this`channels
      ensures channels == old(channels)[p := hop]
    {
      channels := channels[p := hop];
    }

    method Remove(p: nat)
      modifies this`channels
      ensures channels == old(channels) - {p}
    {
      channels := channels - {p};
    }

    method TakeDisconnects() returns (taken: set<nat>)
      modifies this`pendingDisconnects
      ensures taken == old(pendingDisconnects) && pendingDisconnects == {}
    {
      taken := pendingDisconnects;
      pendingDisconnects := {};
    }

    /** Overflow closes both lanes at once by dropping the player's senders. */
    method NoteReliableOverflow(p: nat)
      modifies this`channels, this`pendingDisconnects, this`reliableDrops
      ensures channels == old(channels) - {p}
      ensures pendingDisconnects == old(pendingDisconnects) + {p}
      ensures reliableDrops == SaturatingInc(old(reliableDrops))
    {
      reliableDrops := SaturatingInc(reliableDrops);
      pendingDisconnects := pendingDisconnects + {p};
      channels := channels - {p};
    }

    /** Delivered to the lane, or the player is cut off: nothing in between. */
    method SendReliableTo(p: nat, m: T)
      modifies this`channels, this`pendingDisconnects, this`reliableDrops
      ensures p !in old(channels) ==>
                channels == old(channels) && pendingDisconnects == old(pendingDisconnects)
                && reliableDrops == old(reliableDrops)
      ensures p in old(channels) && old(channels)[p].Accepts() ==>
                channels == old(channels)[p := old(channels)[p].TrySend(m)]
                && pendingDisconnects == old(pendingDisconnects) && reliableDrops == old(reliableDrops)
      ensures p in old(channels) && !old(channels)[p].Accepts() ==>
                channels == old(channels) - {p} && pendingDisconnects == old(pendingDisconnects) + {p}
                && reliableDrops == SaturatingInc(old(reliableDrops))
    {
      var overflow := false;
      if p in channels {
        overflow := !channels[p].Accepts();
        channels := channels[p := channels[p].TrySend(m)];
      }
      if overflow {
        NoteReliableOverflow(p);
      }
    }

    ghost function State(): Cutting<Hop<T>>
      reads this
    {
      Cutting(channels, pendingDisconnects, reliableDrops)
    }

    method CutOffOne(ghost start: Cutting<Hop<T>>, ghost cut: set<nat>, p: nat)
      requires State() == start.Without(cut) && p !in cut
      modifies this`channels, this`pendingDisconnects, this`reliableDrops
      ensures State() == start.Without(cut + {p})
    {
      CutOneMore(start, cut, p);
      NoteReliableOverflow(p);
      assert State() == start.Without(cut).Without({p});
    }

    method CutOff(players: set<nat>)
      modifies this`channels, this`pendingDisconnects, this`reliableDrops
      ensures State() == old(State()).Without(players)
    {
      hide Cutting.Without;
      CutNone(State());
      var left := players;
      ghost var cut: set<nat> := {};
      while left != {}
        invariant cut + left == players && cut !! left
        invariant State() == old(State()).Without(cut)
        decreases left
      {
        var p :| p in left;
        CutOffOne(old(State()), cut, p);
        left, cut := left - {p}, cut + {p};
      }
      assert cut == players;
    }

    /** Every player either has the message queued last, or is cut off; nobody else is touched. */
    method BroadcastReliable(m: T)
      modifies this`channels, this`pendingDisconnects, this`reliableDrops
      ensures channels == map p | p in old(channels) && old(channels)[p].Accepts() :: old(channels)[p].TrySend(m)
      ensures pendingDisconnects
           == old(pendingDisconnects) + set p | p in old(channels) && !old(channels)[p].Accepts()
      ensures reliableDrops
           == SaturatingAdd(old(reliableDrops), |set p | p in old(channels) && !old(channels)[p].Accepts()|)
    {
      var overflowed: set<nat> := {};
      var todo := channels.Keys;
      while todo != {}
        invariant todo <= old(channels).Keys == channels.Keys
        invariant pendingDisconnects == old(pendingDisconnects) && reliableDrops == old(reliableDrops)
        invariant overflowed == set p | p in old(channels) && p !in todo && !old(channels)[p].Accepts()
        invariant forall p | p in channels ::
                    channels[p] == if p in todo then old(channels)[p] else old(channels)[p].TrySend(m)
        decreases todo
      {
        var p :| p in todo;
        todo := todo - {p};
        if !channels[p].Accepts() {
          overflowed := overflowed + {p};
        } else {
          channels := channels[p := channels[p].TrySend(m)];
        }
      }
      assert overflowed == set p | p in old(channels) && !old(channels)[p].Accepts();
      CutOff(overflowed);
    }

    /** A flagged player gets no further snapshot; for the others the slot is overwritten. */
    method SendSnapshotTo(p: nat, m: T)
      modifies this`channels, this`slotOverwrites
      ensures p in pendingDisconnects || p !in old(channels) ==>
                channels == old(channels) && slotOverwrites == old(slotOverwrites)
      ensures p !in pendingDisconnects && p in old(channels) ==>
                channels == old(channels)[p := old(channels)[p].Put(m)]
                && slotOverwrites
                   == if old(channels)[p].slot.Some? then SaturatingInc(old(slotOverwrites)) else old(slotOverwrites)
    {
      if p in pendingDisconnects {
        return;
      }
      if p in channels {
        if channels[p].slot.Some? {
          slotOverwrites := SaturatingInc(slotOverwrites);
        }
        channels := channels[p := channels[p].Put(m)];
      }
    }
  }
}
