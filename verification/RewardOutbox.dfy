/**
 The durable outbox of match-end rewards. Every operation is one database transaction, so a
 crash is a transaction that did not happen.
 */
module RewardOutbox {
  import opened Wrappers

  type RewardId = string

  type UserId = string

  datatype Status = Pending | Applied | Failed

  datatype OutboxReward = OutboxReward(rewardId: RewardId, userId: UserId, crystals: int)

  datatype Row = Row(userId: UserId, crystals: int, status: Status, attempts: nat)

  /** `retired` are the ids of removed users; user ids are never given out twice. */
  datatype Db = Db(outbox: map<RewardId, Row>, users: map<UserId, int>, retired: set<UserId>)

  datatype RewardApply = Credited(userId: UserId, crystals: int) | UserMissing(userId: UserId) | Skipped

  const DRAIN_LIMIT := 1000

  // ---- the transactions ----

  /** `INSERT OR IGNORE`: a known id is left alone, and so is a row the CHECK constraint refuses. */
  function Insert(outbox: map<RewardId, Row>, r: OutboxReward): map<RewardId, Row> {
    if r.rewardId in outbox || r.crystals < 0 then outbox
    else outbox[r.rewardId := Row(r.userId, r.crystals, Pending, 0)]
  }

  function InsertAll(outbox: map<RewardId, Row>, rewards: seq<OutboxReward>): map<RewardId, Row> {
    if rewards == [] then outbox
    else Insert(InsertAll(outbox, rewards[..|rewards| - 1]), rewards[|rewards| - 1])
  }

  function Apply(db: Db, id: RewardId): (Db, RewardApply) {
    if id !in db.outbox || db.outbox[id].status != Pending then (db, Skipped)
    else
      var row := db.outbox[id].(status := Applied, attempts := db.outbox[id].attempts + 1);
      if row.userId !in db.users then
        (db.(outbox := db.outbox[id := row.(status := Failed)]), UserMissing(row.userId))
      else
        (db.(outbox := db.outbox[id := row], users := db.users[row.userId := db.users[row.userId] + row.crystals]),
         Credited(row.userId, row.crystals))
  }

  predicate IsPending(outbox: map<RewardId, Row>, id: RewardId) {
    id in outbox && outbox[id].status == Pending
  }

  // ---- runs: any interleaving of enqueues, applies and changes to the users ----

  datatype Op =
    | Enqueue(rewards: seq<OutboxReward>)
    | ApplyOne(id: RewardId)
    | CreateUser(user: UserId)
    | RemoveUser(user: UserId)
    | RolledBack

  predicate Possible(db: Db, op: Op) {
    op.CreateUser? ==> op.user !in db.users && op.user !in db.retired
  }

  function Next(db: Db, op: Op): Db {
    match op
    case Enqueue(rewards) => db.(outbox := InsertAll(db.outbox, rewards))
    case ApplyOne(id) => Apply(db, id).0
    case CreateUser(user) => db.(users := db.users[user := 0])
    case RemoveUser(user) =>
      if user in db.users then db.(users := db.users - {user}, retired := db.retired + {user}) else db
    case RolledBack => db
  }

  /** The database after a run. */
  function After(db: Db, ops: seq<Op>): Db {
    if ops == [] then db else Next(After(db, ops[..|ops| - 1]), ops[|ops| - 1])
  }

  // ---- one sweep among other writers ----

  /** What goes on around one apply of a sweep: the transactions of others before it, and whether it fails. */
  datatype Turn = Turn(others: seq<Op>, fails: bool)

  /** The run that a sweep over `listed` is part of; a transient failure rolls back. */
  function SweepOps(listed: seq<RewardId>, turns: seq<Turn>): seq<Op>
    requires |turns| == |listed|
  {
    if listed == [] then []
    else
      var n := |listed| - 1;
      SweepOps(listed[..n], turns[..n]) + turns[n].others
        + [if turns[n].fails then RolledBack else ApplyOne(listed[n])]
  }

  /** Step `i` of the run credits this reward. */
  predicate CreditsAt(start: Db, ops: seq<Op>, i: nat, id: RewardId) {
    i < |ops| && ops[i] == ApplyOne(id) && Apply(After(start, ops[..i]), id).1.Credited?
  }

  /** The credits made by the sweep's own steps; each is the last step of its turn. */
  function OwnCredits(db: Db, listed: seq<RewardId>, turns: seq<Turn>): nat
    requires |turns| == |listed|
  {
    if listed == [] then 0
    else
      var n, ops := |listed| - 1, SweepOps(listed, turns);
      OwnCredits(db, listed[..n], turns[..n]) + if CreditsAt(db, ops, |ops| - 1, listed[n]) then 1 else 0
  }

  class RewardStore {
    var outbox: map<RewardId, Row>
    var users: map<UserId, int>
    ghost var retired: set<UserId>

    ghost function Contents(): Db
      reads this
    {
      Db(outbox, users, retired)
    }

    method EnqueueRewards(rewards: seq<OutboxReward>)
      modifies this`outbox
      ensures outbox == InsertAll(old(outbox), rewards)
    {
      for i := 0 to |rewards|
        invariant outbox == InsertAll(old(outbox), rewards[..i])
      {
        var r := rewards[i];
        assert rewards[..i + 1][..i] == rewards[..i];
        if r.rewardId !in outbox && r.crystals >= 0 {
          outbox := outbox[r.rewardId := Row(r.userId, r.crystals, Pending, 0)];
        }
      }
      assert rewards[..|rewards|] == rewards;
    }

    method ApplyPendingReward(id: RewardId) returns (result: RewardApply)
      modifies this`outbox, this`users
      ensures Contents() == Apply(old(Contents()), id).0 && result == Apply(old(Contents()), id).1
    {
      if id !in outbox || outbox[id].status != Pending {
        return Skipped;
      }
      var row := outbox[id].(status := Applied, attempts := outbox[id].attempts + 1);
      outbox := outbox[id := row];
      if row.userId !in users {
        outbox := outbox[id := row.(status := Failed)];
        return UserMissing(row.userId);
      }
      users := users[row.userId := users[row.userId] + row.crystals];
      return Credited(row.userId, row.crystals);
    }

    /** A transaction of some other writer. */
    method Other(op: Op)
      modifies this
      ensures Contents() == Next(old(Contents()), op)
    {
      match op
      case Enqueue(rewards) => EnqueueRewards(rewards);
      case ApplyOne(id) => var _ := ApplyPendingReward(id);
      case CreateUser(user) => users := users[user := 0];
      case RemoveUser(user) =>
        if user in users {
          users, retired := users - {user}, retired + {user};
        }
      case RolledBack =>
    }

    method Others(ops: seq<Op>)
      modifies this
      ensures Contents() == After(old(Contents()), ops)
    {
      hide Next;
      for i := 0 to |ops|
        invariant Contents() == After(old(Contents()), ops[..i])
      {
        assert ops[..i + 1][..i] == ops[..i];
        Other(ops[i]);
      }
      assert ops[..|ops|] == ops;
    }

    /**
     One sweep: `listed` is what the query for pending rows returned, and anything may
     happen between its transactions. The result counts the credits of this sweep alone.
     */
    method DrainPendingRewards(listed: seq<RewardId>, turns: seq<Turn>) returns (applied: nat)
      requires |listed| <= DRAIN_LIMIT && |turns| == |listed|
      requires forall id | id in listed :: IsPending(outbox, id)
      requires forall i, j | 0 <= i < j < |listed| :: listed[i] != listed[j]
      modifies this
      ensures Contents() == After(old(Contents()), SweepOps(listed, turns))
      ensures applied == OwnCredits(old(Contents()), listed, turns)
    {
      hide Apply, Next, OwnCredits, CreditsAt;
      ghost var before := Contents();
      applied := 0;
      NoCredits(before);
      for i := 0 to |listed|
        invariant Contents() == After(before, SweepOps(listed[..i], turns[..i]))
        invariant applied == OwnCredits(before, listed[..i], turns[..i])
      {
        ghost var earlier := SweepOps(listed[..i], turns[..i]);
        Others(turns[i].others);
        RunOn(before, earlier, turns[i].others);
        TurnEnds(before, listed, turns, i);
        if !turns[i].fails {
          var result := ApplyPendingReward(listed[i]);
          if result.Credited? {
            applied := applied + 1;
          }
        }
      }
      assert listed[..|listed|] == listed && turns[..|turns|] == turns;
    }
  }

  lemma NoCredits(db: Db)
    ensures OwnCredits(db, [], []) == 0
  {
  }

  lemma {:induction false} RunOn(db: Db, ops: seq<Op>, more: seq<Op>)
    ensures After(After(db, ops), more) == After(db, ops + more)
    decreases |more|
  {
    hide Next;
    if more == [] {
      assert ops + more == ops;
    } else {
      RunOn(db, ops, more[..|more| - 1]);
      assert (ops + more)[..|ops + more| - 1] == ops + more[..|more| - 1];
    }
  }

  /** One turn of a sweep: what the others did, and then an apply that is counted, or nothing. */
  lemma TurnEnds(db: Db, listed: seq<RewardId>, turns: seq<Turn>, i: nat)
    requires i < |listed| == |turns|
    ensures var now := After(db, SweepOps(listed[..i], turns[..i]) + turns[i].others);
            var own := !turns[i].fails;
            && After(db, SweepOps(listed[..i + 1], turns[..i + 1])) == (if own then Apply(now, listed[i]).0 else now)
            && OwnCredits(db, listed[..i + 1], turns[..i + 1])
               == OwnCredits(db, listed[..i], turns[..i])
                  + if own && Apply(now, listed[i]).1.Credited? then 1 else 0
  {
    assert listed[..i + 1][..i] == listed[..i] && turns[..i + 1][..i] == turns[..i];
    var before := SweepOps(listed[..i], turns[..i]) + turns[i].others;
    var ops := SweepOps(listed[..i + 1], turns[..i + 1]);
    assert ops[..|ops| - 1] == before;
    hide Apply;
  }

  predicate Follows(db: Db, ops: seq<Op>) {
    forall i | 0 <= i < |ops| :: PossibleAt(db, ops, i)
  }

  predicate PossibleAt(db: Db, ops: seq<Op>, i: nat)
    requires i < |ops|
  {
    Possible(After(db, ops[..i]), ops[i])
  }

  // ---- conservation ----

  function Credit(row: Row, user: UserId): int {
    if row.userId == user && row.status == Applied then row.crystals else 0
  }

  /** The crystals of all applied rows of one user. */
  ghost function AppliedSum(outbox: map<RewardId, Row>, user: UserId): int
    decreases |outbox|
  {
    if outbox == map[] then 0
    else
      var id :| id in outbox;
      Credit(outbox[id], user) + AppliedSum(outbox - {id}, user)
  }

  lemma {:induction false} AppliedSumTakes(outbox: map<RewardId, Row>, user: UserId, id: RewardId)
    requires id in outbox
    ensures AppliedSum(outbox, user) == Credit(outbox[id], user) + AppliedSum(outbox - {id}, user)
    decreases |outbox|
  {
    var k :| k in outbox && AppliedSum(outbox, user) == Credit(outbox[k], user) + AppliedSum(outbox - {k}, user);
    if k != id {
      AppliedSumTakes(outbox - {k}, user, id);
      AppliedSumTakes(outbox - {id}, user, k);
      assert outbox - {k} - {id} == outbox - {id} - {k};
    }
  }

  lemma AppliedSumUpdate(outbox: map<RewardId, Row>, user: UserId, id: RewardId, row: Row)
    ensures AppliedSum(outbox[id := row], user)
         == AppliedSum(outbox, user) + Credit(row, user) - (if id in outbox then Credit(outbox[id], user) else 0)
  {
    AppliedSumTakes(outbox[id := row], user, id);
    if id in outbox {
      AppliedSumTakes(outbox, user, id);
      assert outbox[id := row] - {id} == outbox - {id};
    } else {
      assert outbox[id := row] - {id} == outbox;
    }
  }

  /** What each user would own without any reward: the amount at the start, and zero for users created later. */
  function Initial(start: Db, user: UserId): int {
    if user in start.users then start.users[user] else 0
  }

  /** The balance of a user is the initial amount plus the applied rows; nobody was credited before being created. */
  ghost predicate BalancedFor(start: Db, db: Db, user: UserId) {
    && (user in db.users ==> db.users[user] == Initial(start, user) + AppliedSum(db.outbox, user))
    && (user !in db.users && user !in db.retired ==>
          AppliedSum(db.outbox, user) == 0 && user !in start.users)
  }

  lemma {:induction false} InsertKeepsSum(outbox: map<RewardId, Row>, rewards: seq<OutboxReward>, user: UserId)
    ensures AppliedSum(InsertAll(outbox, rewards), user) == AppliedSum(outbox, user)
    decreases |rewards|
  {
    if rewards != [] {
      var r := rewards[|rewards| - 1];
      var before := InsertAll(outbox, rewards[..|rewards| - 1]);
      InsertKeepsSum(outbox, rewards[..|rewards| - 1], user);
      AppliedSumUpdate(before, user, r.rewardId, Row(r.userId, r.crystals, Pending, 0));
    }
  }

  lemma ApplyKeepsBalance(start: Db, db: Db, id: RewardId, user: UserId)
    requires BalancedFor(start, db, user)
    ensures BalancedFor(start, Apply(db, id).0, user)
  {
    if IsPending(db.outbox, id) {
      AppliedSumUpdate(db.outbox, user, id, Apply(db, id).0.outbox[id]);
    }
  }

  lemma NextKeepsBalance(start: Db, db: Db, op: Op, user: UserId)
    requires Possible(db, op) && BalancedFor(start, db, user)
    ensures BalancedFor(start, Next(db, op), user)
  {
    match op
    case Enqueue(rewards) => InsertKeepsSum(db.outbox, rewards, user);
    case ApplyOne(id) => ApplyKeepsBalance(start, db, id, user);
    case CreateUser(_) =>
    case RemoveUser(_) =>
    case RolledBack =>
  }

  predicate Fresh(start: Db) {
    start.outbox == map[] && start.retired == {}
  }

  lemma {:induction false} RunKeepsBalance(start: Db, ops: seq<Op>, user: UserId)
    requires Fresh(start) && Follows(start, ops)
    ensures BalancedFor(start, After(start, ops), user)
    decreases |ops|
  {
    if ops != [] {
      var init := ops[..|ops| - 1];
      assert PossibleAt(start, ops, |ops| - 1);
      FollowsPrefix(start, ops, |ops| - 1);
      RunKeepsBalance(start, init, user);
      NextKeepsBalance(start, After(start, init), ops[|ops| - 1], user);
    }
  }

  lemma FollowsPrefix(start: Db, ops: seq<Op>, n: nat)
    requires Follows(start, ops) && n <= |ops|
    ensures Follows(start, ops[..n])
  {
    hide Possible, After;
    forall i | 0 <= i < n
      ensures PossibleAt(start, ops[..n], i)
    {
      assert PossibleAt(start, ops, i);
      assert ops[..n][..i] == ops[..i];
    }
  }

  /** In every reachable state, each user owns the initial amount plus the sum of that user's applied rows. */
  lemma CrystalsAreConserved(start: Db, ops: seq<Op>, user: UserId)
    requires Fresh(start) && Follows(start, ops) && user in After(start, ops).users
    ensures After(start, ops).users[user] == Initial(start, user) + AppliedSum(After(start, ops).outbox, user)
  {
    RunKeepsBalance(start, ops, user);
  }

  // ---- each reward once, with the amount that was enqueued first ----

  /** The first grant with this id that the table's constraint lets in. */
  function FirstGrant(rewards: seq<OutboxReward>, id: RewardId): Option<OutboxReward> {
    if rewards == [] then None
    else
      var earlier := FirstGrant(rewards[..|rewards| - 1], id);
      var last := rewards[|rewards| - 1];
      if earlier.Some? then earlier
      else if last.rewardId == id && last.crystals >= 0 then Some(last) else None
  }

  function FirstEnqueued(ops: seq<Op>, id: RewardId): Option<OutboxReward> {
    if ops == [] then None
    else
      var earlier := FirstEnqueued(ops[..|ops| - 1], id);
      var last := ops[|ops| - 1];
      if earlier.Some? then earlier
      else if last.Enqueue? then FirstGrant(last.rewards, id) else None
  }

  predicate HoldsGrant(outbox: map<RewardId, Row>, id: RewardId, grant: Option<OutboxReward>) {
    && (id in outbox <==> grant.Some?)
    && (id in outbox ==> outbox[id].userId == grant.value.userId && outbox[id].crystals == grant.value.crystals)
  }

  lemma {:induction false} InsertHoldsFirst(outbox: map<RewardId, Row>, rewards: seq<OutboxReward>, id: RewardId,
                                            grant: Option<OutboxReward>)
    requires HoldsGrant(outbox, id, grant)
    ensures HoldsGrant(InsertAll(outbox, rewards), id, if grant.Some? then grant else FirstGrant(rewards, id))
    decreases |rewards|
  {
    if rewards != [] {
      InsertHoldsFirst(outbox, rewards[..|rewards| - 1], id, grant);
    }
  }

  /** A row exists exactly when its id was enqueued, and holds the user and amount of the first such grant. */
  lemma {:induction false} OutboxHoldsFirstGrants(start: Db, ops: seq<Op>, id: RewardId)
    requires Fresh(start)
    ensures HoldsGrant(After(start, ops).outbox, id, FirstEnqueued(ops, id))
    decreases |ops|
  {
    if ops != [] {
      var init, last := ops[..|ops| - 1], ops[|ops| - 1];
      OutboxHoldsFirstGrants(start, init, id);
      if last.Enqueue? {
        InsertHoldsFirst(After(start, init).outbox, last.rewards, id, FirstEnqueued(init, id));
      }
    }
  }

  predicate Settled(db: Db, id: RewardId) {
    id in db.outbox && db.outbox[id].status != Pending
  }

  lemma {:induction false} InsertLeavesKnown(outbox: map<RewardId, Row>, rewards: seq<OutboxReward>, id: RewardId)
    requires id in outbox
    ensures id in InsertAll(outbox, rewards) && InsertAll(outbox, rewards)[id] == outbox[id]
    decreases |rewards|
  {
    if rewards != [] {
      InsertLeavesKnown(outbox, rewards[..|rewards| - 1], id);
    }
  }

  /** `applied` and `failed` are terminal: whatever happens next, the row stays as it is. */
  lemma {:induction false} SettledForever(start: Db, ops: seq<Op>, n: nat, id: RewardId)
    requires n <= |ops| && Settled(After(start, ops[..n]), id)
    ensures Settled(After(start, ops), id)
    ensures After(start, ops).outbox[id] == After(start, ops[..n]).outbox[id]
    decreases |ops|
  {
    if n == |ops| {
      assert ops[..n] == ops;
    } else {
      var init, last := ops[..|ops| - 1], ops[|ops| - 1];
      assert init[..n] == ops[..n];
      SettledForever(start, init, n, id);
      if last.Enqueue? {
        InsertLeavesKnown(After(start, init).outbox, last.rewards, id);
      }
    }
  }

  lemma CreditSettles(start: Db, ops: seq<Op>, i: nat, id: RewardId)
    requires CreditsAt(start, ops, i, id)
    ensures Settled(After(start, ops[..i + 1]), id)
  {
    assert ops[..i + 1][..i] == ops[..i];
  }

  /** No reward is credited twice in a run, however many drains race for it. */
  lemma CreditedAtMostOnce(start: Db, ops: seq<Op>, i: nat, j: nat, id: RewardId)
    requires CreditsAt(start, ops, i, id) && CreditsAt(start, ops, j, id)
    ensures i == j
  {
    var first, second := if i < j then i else j, if i < j then j else i;
    if first < second {
      CreditSettles(start, ops, first, id);
      assert ops[..second][..first + 1] == ops[..first + 1];
      SettledForever(start, ops[..second], first + 1, id);
    }
  }

  /** A credit pays the amount that was enqueued first under its id, to the user it was enqueued for. */
  lemma CreditsFirstAmount(start: Db, ops: seq<Op>, i: nat, id: RewardId)
    requires Fresh(start) && CreditsAt(start, ops, i, id)
    ensures var grant := FirstEnqueued(ops[..i], id);
            && grant.Some?
            && Apply(After(start, ops[..i]), id).1 == Credited(grant.value.userId, grant.value.crystals)
  {
    OutboxHoldsFirstGrants(start, ops[..i], id);
  }

  /**
   A committed grant is never lost: applying its id settles it, as a credit exactly when
   its user exists; until then it stays pending through crashes and replays.
   */
  lemma EnqueuedGrantIsSettledByApply(start: Db, ops: seq<Op>, id: RewardId)
    requires Fresh(start) && FirstEnqueued(ops, id).Some?
    ensures var db := After(start, ops);
            var db' := After(start, ops + [ApplyOne(id)]);
            && Settled(db', id)
            && (!Settled(db, id) ==>
                  (db'.outbox[id].status == Applied <==> FirstEnqueued(ops, id).value.userId in db.users))
  {
    OutboxHoldsFirstGrants(start, ops, id);
    assert (ops + [ApplyOne(id)])[..|ops|] == ops;
  }

  lemma {:induction false} InsertStartsUntried(outbox: map<RewardId, Row>, rewards: seq<OutboxReward>, id: RewardId)
    requires id !in outbox && id in InsertAll(outbox, rewards)
    ensures InsertAll(outbox, rewards)[id].status == Pending && InsertAll(outbox, rewards)[id].attempts == 0
    decreases |rewards|
  {
    if id in InsertAll(outbox, rewards[..|rewards| - 1]) {
      InsertStartsUntried(outbox, rewards[..|rewards| - 1], id);
    }
  }

  /** The attempts of a row count the apply that settled it, and nothing else. */
  lemma {:induction false} AttemptsCountTheApply(start: Db, ops: seq<Op>, id: RewardId)
    requires Fresh(start) && id in After(start, ops).outbox
    ensures After(start, ops).outbox[id].attempts == if Settled(After(start, ops), id) then 1 else 0
    decreases |ops|
  {
    if ops != [] {
      var init, last := ops[..|ops| - 1], ops[|ops| - 1];
      var before := After(start, init);
      if id in before.outbox {
        AttemptsCountTheApply(start, init, id);
        if last.Enqueue? {
          InsertLeavesKnown(before.outbox, last.rewards, id);
        }
      } else if last.Enqueue? {
        InsertStartsUntried(before.outbox, last.rewards, id);
      }
    }
  }

  // ---- what a sweep achieves ----

  lemma {:induction false} RowsStay(db: Db, ops: seq<Op>, id: RewardId)
    requires id in db.outbox
    ensures id in After(db, ops).outbox
    decreases |ops|
  {
    if ops != [] {
      var init, last := ops[..|ops| - 1], ops[|ops| - 1];
      RowsStay(db, init, id);
      if last.Enqueue? {
        InsertLeavesKnown(After(db, init).outbox, last.rewards, id);
      }
    }
  }

  /** Whatever others do meanwhile, every listed row is settled after the sweep unless its own apply failed. */
  lemma {:induction false} SweepSettles(db: Db, listed: seq<RewardId>, turns: seq<Turn>, i: nat)
    requires i < |listed| == |turns| && !turns[i].fails && listed[i] in db.outbox
    ensures Settled(After(db, SweepOps(listed, turns)), listed[i])
    decreases |listed|
  {
    var n, ops := |listed| - 1, SweepOps(listed, turns);
    var earlier := SweepOps(listed[..n], turns[..n]);
    if i < n {
      SweepSettles(db, listed[..n], turns[..n], i);
      assert ops[..|earlier|] == earlier;
      SettledForever(db, ops, |earlier|, listed[i]);
    } else {
      assert ops[..|ops| - 1] == earlier + turns[n].others;
      RowsStay(db, earlier + turns[n].others, listed[n]);
    }
  }

  /** How many of these pending rows belong to a user that exists. */
  function Creditable(db: Db, ids: seq<RewardId>): nat {
    if ids == [] then 0
    else
      var last := ids[|ids| - 1];
      Creditable(db, ids[..|ids| - 1])
        + (if IsPending(db.outbox, last) && db.outbox[last].userId in db.users then 1 else 0)
  }

  predicate Quiet(turns: seq<Turn>) {
    forall i | 0 <= i < |turns| :: turns[i] == Turn([], false)
  }

  lemma ApplyTouchesOneRow(db: Db, id: RewardId)
    ensures var db' := Apply(db, id).0;
            && db'.users.Keys == db.users.Keys
            && (forall k | k != id :: k in db'.outbox <==> k in db.outbox)
            && (forall k | k != id && k in db.outbox :: db'.outbox[k] == db.outbox[k])
  {
  }

  /** Alone and without errors, a sweep touches no row but those listed and no user's existence. */
  lemma {:induction false} QuietSweepTouchesOnlyListed(db: Db, listed: seq<RewardId>, turns: seq<Turn>)
    requires |turns| == |listed| && Quiet(turns)
    ensures var db' := After(db, SweepOps(listed, turns));
            && db'.users.Keys == db.users.Keys
            && (forall k | k !in listed :: k in db'.outbox <==> k in db.outbox)
            && (forall k | k !in listed && k in db.outbox :: db'.outbox[k] == db.outbox[k])
    decreases |listed|
  {
    if listed != [] {
      var n, ops := |listed| - 1, SweepOps(listed, turns);
      hide Apply;
      QuietSweepTouchesOnlyListed(db, listed[..n], turns[..n]);
      ApplyTouchesOneRow(After(db, SweepOps(listed[..n], turns[..n])), listed[n]);
      assert turns[n] == Turn([], false);
      assert ops[..|ops| - 1] == SweepOps(listed[..n], turns[..n]);
      assert listed == listed[..n] + [listed[n]];
    }
  }

  /** Alone and without errors, a sweep credits every listed row whose user exists. */
  lemma {:induction false} QuietSweepCreditsAll(db: Db, listed: seq<RewardId>, turns: seq<Turn>)
    requires |turns| == |listed| && Quiet(turns)
    requires forall i, j | 0 <= i < j < |listed| :: listed[i] != listed[j]
    ensures OwnCredits(db, listed, turns) == Creditable(db, listed)
    decreases |listed|
  {
    if listed != [] {
      var n, ops := |listed| - 1, SweepOps(listed, turns);
      QuietSweepCreditsAll(db, listed[..n], turns[..n]);
      QuietSweepTouchesOnlyListed(db, listed[..n], turns[..n]);
      assert turns[n] == Turn([], false);
      assert ops[..|ops| - 1] == SweepOps(listed[..n], turns[..n]);
    }
  }
}
