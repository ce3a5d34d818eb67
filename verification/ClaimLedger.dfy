/**
 The causal claim ledger: the earliest render tick at which a claim consumed an enemy life or
 killed a player life.
 */
module ClaimLedgers {
  import opened Wrappers

  /** An entity id with its generation or life id. */
  datatype Life = Life(id: string, number: nat)

  type Entries = map<Life, real>

  function Recorded(m: Entries, life: Life, tick: real): Entries {
    if life in m && m[life] <= tick then m else m[life := tick]
  }

  function Pruned(m: Entries, minTick: real): Entries {
    map life | life in m && m[life] >= minTick :: m[life]
  }

  predicate HappenedBefore(m: Entries, life: Life, before: real) {
    life in m && m[life] < before
  }

  /** What was done to one of the two maps. */
  datatype Event = Record(life: Life, tick: real) | Prune(minTick: real)

  function Apply(m: Entries, e: Event): Entries {
    match e
    case Record(life, tick) => Recorded(m, life, tick)
    case Prune(minTick) => Pruned(m, minTick)
  }

  function Ledger(log: seq<Event>): Entries {
    if log == [] then map[] else Apply(Ledger(log[..|log| - 1]), log[|log| - 1])
  }

  lemma LedgerOfSnoc(log: seq<Event>, e: Event)
    ensures Ledger(log + [e]) == Apply(Ledger(log), e)
  {
  }

  class ClaimEffects {
    var consumedEnemies: Entries
    var killedPlayerLives: Entries
    ghost var enemyLog: seq<Event>
    ghost var playerLog: seq<Event>

    ghost predicate Valid()
      reads this
    {
      consumedEnemies == Ledger(enemyLog) && killedPlayerLives == Ledger(playerLog)
    }

    constructor ()
      ensures Valid() && enemyLog == [] && playerLog == []
    {
      consumedEnemies, killedPlayerLives := map[], map[];
      enemyLog, playerLog := [], [];
    }

    method ConsumeEnemy(enemy: Life, tick: real)
      requires Valid()
      modifies this
      ensures Valid() && enemyLog == old(enemyLog) + [Record(enemy, tick)] && playerLog == old(playerLog)
    {
      LedgerOfSnoc(enemyLog, Record(enemy, tick));
      enemyLog := enemyLog + [Record(enemy, tick)];
      if enemy in consumedEnemies {
        if tick < consumedEnemies[enemy] {
          consumedEnemies := consumedEnemies[enemy := tick];
        }
      } else {
        consumedEnemies := consumedEnemies[enemy := tick];
      }
    }

    method KillPlayerLife(player: Life, tick: real)
      requires Valid()
      modifies this
      ensures Valid() && playerLog == old(playerLog) + [Record(player, tick)] && enemyLog == old(enemyLog)
    {
      LedgerOfSnoc(playerLog, Record(player, tick));
      playerLog := playerLog + [Record(player, tick)];
      if player in killedPlayerLives {
        if tick < killedPlayerLives[player] {
          killedPlayerLives := killedPlayerLives[player := tick];
        }
      } else {
        killedPlayerLives := killedPlayerLives[player := tick];
      }
    }

    function EnemyConsumedBefore(enemy: Life, before: real): (yes: bool)
      requires Valid()
      reads this
      ensures yes <==> HappenedBefore(Ledger(enemyLog), enemy, before)
      ensures yes ==> exists e | e in enemyLog :: e.Record? && e.life == enemy && e.tick < before
    {
      EntriesAreRecords(enemyLog, enemy);
      HappenedBefore(consumedEnemies, enemy, before)
    }

    function PlayerLifeKilledBefore(player: Life, before: real): (yes: bool)
      requires Valid()
      reads this
      ensures yes <==> HappenedBefore(Ledger(playerLog), player, before)
      ensures yes ==> exists e | e in playerLog :: e.Record? && e.life == player && e.tick < before
    {
      EntriesAreRecords(playerLog, player);
      HappenedBefore(killedPlayerLives, player, before)
    }

    static method Retained(m: Entries, minTick: real) returns (kept: Entries)
      ensures kept == Pruned(m, minTick)
    {
      var todo := m.Keys;
      kept := map[];
      while todo != {}
        invariant todo <= m.Keys
        invariant kept == map life | life in m && life !in todo && m[life] >= minTick :: m[life]
        decreases todo
      {
        var life :| life in todo;
        if m[life] >= minTick {
          kept := kept[life := m[life]];
        }
        todo := todo - {life};
      }
    }

    method PruneOlder(minTick: real)
      requires Valid()
      modifies this
      ensures Valid()
      ensures enemyLog == old(enemyLog) + [Prune(minTick)] && playerLog == old(playerLog) + [Prune(minTick)]
    {
      LedgerOfSnoc(enemyLog, Prune(minTick));
      LedgerOfSnoc(playerLog, Prune(minTick));
      consumedEnemies := Retained(consumedEnemies, minTick);
      killedPlayerLives := Retained(killedPlayerLives, minTick);
      enemyLog, playerLog := enemyLog + [Prune(minTick)], playerLog + [Prune(minTick)];
    }
  }

  // ---- soundness ----

  predicate RecordAt(log: seq<Event>, life: Life, i: nat) {
    i < |log| && log[i].Record? && log[i].life == life
  }

  /** No prune after position `i` has a bound above `tick`. */
  predicate Survives(log: seq<Event>, i: nat, tick: real) {
    forall j | i < j < |log| && log[j].Prune? :: log[j].minTick <= tick
  }

  /** An entry is a recorded tick that no later prune was above. */
  lemma {:induction false} EntryIsRecorded(log: seq<Event>, life: Life) returns (i: nat)
    requires life in Ledger(log)
    ensures RecordAt(log, life, i) && log[i].tick == Ledger(log)[life] && Survives(log, i, log[i].tick)
    decreases |log|
  {
    var init, last := log[..|log| - 1], log[|log| - 1];
    if life in Ledger(init) && Ledger(init)[life] == Ledger(log)[life] {
      i := EntryIsRecorded(init, life);
    } else {
      i := |log| - 1;
    }
  }

  lemma EntriesAreRecords(log: seq<Event>, life: Life)
    ensures life in Ledger(log) ==>
              exists i: nat ::
                RecordAt(log, life, i) && log[i].tick == Ledger(log)[life] && Survives(log, i, log[i].tick)
    ensures life in Ledger(log) ==> exists e | e in log :: e.Record? && e.life == life && e.tick == Ledger(log)[life]
  {
    if life in Ledger(log) {
      var i := EntryIsRecorded(log, life);
      assert log[i] in log;
    }
  }

  // ---- exactness ----

  ghost predicate RecordedBefore(log: seq<Event>, life: Life, before: real) {
    exists i: nat :: RecordAt(log, life, i) && log[i].tick < before
  }

  /** Position `i` holds the earliest tick ever recorded for this life. */
  predicate EarliestAt(log: seq<Event>, life: Life, i: nat) {
    RecordAt(log, life, i) && (forall j: nat | j < |log| && RecordAt(log, life, j) :: log[i].tick <= log[j].tick)
  }

  /** An earliest record that every later prune spares is what the ledger holds. */
  lemma {:induction false} SurvivingEarliestIsHeld(log: seq<Event>, life: Life, i: nat)
    requires EarliestAt(log, life, i) && Survives(log, i, log[i].tick)
    ensures life in Ledger(log) && Ledger(log)[life] == log[i].tick
    decreases |log|
  {
    var init, last := log[..|log| - 1], log[|log| - 1];
    EntriesAreRecords(init, life);
    if i < |log| - 1 {
      assert forall j: nat | j < |init| :: RecordAt(init, life, j) == RecordAt(log, life, j);
      SurvivingEarliestIsHeld(init, life, i);
      assert RecordAt(log, life, |log| - 1) ==> log[i].tick <= last.tick;
    } else if life in Ledger(init) {
      var k: nat :| RecordAt(init, life, k) && init[k].tick == Ledger(init)[life];
      assert RecordAt(log, life, k);
    }
  }

  lemma {:induction false} SomeEarliest(log: seq<Event>, life: Life, n: nat, j: nat) returns (i: nat)
    requires j < n <= |log| && RecordAt(log, life, j)
    ensures i < n && RecordAt(log, life, i)
    ensures forall k: nat | k < n && RecordAt(log, life, k) :: log[i].tick <= log[k].tick
    decreases n
  {
    if exists k: nat | k < n - 1 :: RecordAt(log, life, k) {
      var k: nat :| k < n - 1 && RecordAt(log, life, k);
      i := SomeEarliest(log, life, n - 1, k);
      if RecordAt(log, life, n - 1) && log[n - 1].tick < log[i].tick {
        i := n - 1;
      }
    } else {
      i := j;
    }
  }

  /** The ledger answers every question about this life as the whole log would. */
  ghost predicate Exact(log: seq<Event>, life: Life) {
    forall before: real :: HappenedBefore(Ledger(log), life, before) <==> RecordedBefore(log, life, before)
  }

  lemma HeldEarliestIsExact(log: seq<Event>, life: Life, i: nat)
    requires EarliestAt(log, life, i) && life in Ledger(log) && Ledger(log)[life] == log[i].tick
    ensures Exact(log, life)
  {
  }

  /**
   The ledger is exact about a life if and only if nothing was ever recorded for it, or
   some record of its earliest tick has no later prune above it.
   */
  lemma ExactIffEarliestSurvives(log: seq<Event>, life: Life)
    ensures Exact(log, life) <==>
              || (forall i: nat :: !RecordAt(log, life, i))
              || (exists i: nat :: EarliestAt(log, life, i) && Survives(log, i, log[i].tick))
  {
    EntriesAreRecords(log, life);
    if exists i: nat :: EarliestAt(log, life, i) && Survives(log, i, log[i].tick) {
      var i: nat :| EarliestAt(log, life, i) && Survives(log, i, log[i].tick);
      SurvivingEarliestIsHeld(log, life, i);
      HeldEarliestIsExact(log, life, i);
    } else if exists j: nat :: RecordAt(log, life, j) {
      var j: nat :| RecordAt(log, life, j);
      NotExact(log, life, j);
    } else {
      NothingRecorded(log, life);
    }
  }

  lemma NothingRecorded(log: seq<Event>, life: Life)
    requires forall i: nat :: !RecordAt(log, life, i)
    ensures Exact(log, life)
  {
    EntriesAreRecords(log, life);
  }

  lemma NotExact(log: seq<Event>, life: Life, j: nat)
    requires RecordAt(log, life, j)
    requires forall i: nat :: EarliestAt(log, life, i) ==> !Survives(log, i, log[i].tick)
    ensures !Exact(log, life)
  {
    var i := SomeEarliest(log, life, |log|, j);
    EntriesAreRecords(log, life);
    var before := if life in Ledger(log) then Ledger(log)[life] else log[i].tick + 1.0;
    if life in Ledger(log) {
      var k: nat :| RecordAt(log, life, k) && log[k].tick == Ledger(log)[life] && Survives(log, k, log[k].tick);
      assert !EarliestAt(log, life, k);
      assert log[i].tick < before;
    }
    assert !HappenedBefore(Ledger(log), life, before);
    assert RecordAt(log, life, i) && log[i].tick < before;
    assert RecordedBefore(log, life, before);
  }

  /** A life whose earliest tick is at or above every prune bound is answered exactly. */
  lemma RecentLivesAreExact(log: seq<Event>, life: Life)
    requires forall i: nat, j: nat | RecordAt(log, life, i) && j < |log| && log[j].Prune? ::
               log[j].minTick <= log[i].tick
    ensures Exact(log, life)
  {
    if exists j: nat :: RecordAt(log, life, j) {
      var j: nat :| RecordAt(log, life, j);
      var i := SomeEarliest(log, life, |log|, j);
      assert EarliestAt(log, life, i) && Survives(log, i, log[i].tick);
    }
    ExactIffEarliestSurvives(log, life);
  }

  /** Merging loses a record that the prune should have kept: 5 and 10, pruned at 7, asked about 11. */
  lemma MergedRecordIsLost(life: Life)
    ensures var log := [Record(life, 5.0), Record(life, 10.0), Prune(7.0)];
            && RecordAt(log, life, 1) && log[1].tick >= log[2].minTick
            && RecordedBefore(log, life, 11.0) && !HappenedBefore(Ledger(log), life, 11.0)
  {
    var log := [Record(life, 5.0), Record(life, 10.0), Prune(7.0)];
    LedgerOfSnoc([], Record(life, 5.0));
    LedgerOfSnoc([Record(life, 5.0)], Record(life, 10.0));
    LedgerOfSnoc([Record(life, 5.0), Record(life, 10.0)], Prune(7.0));
    assert log == [Record(life, 5.0), Record(life, 10.0)] + [Prune(7.0)];
    assert RecordAt(log, life, 1);
  }

  // ---- one life never answers for another ----

  predicate Concerns(e: Event, life: Life) {
    e.Prune? || e.life == life
  }

  function About(log: seq<Event>, life: Life): seq<Event> {
    if log == [] then []
    else
      var init, last := About(log[..|log| - 1], life), log[|log| - 1];
      if Concerns(last, life) then init + [last] else init
  }

  /** What the ledger says about a life depends only on the events of that life and the prunes. */
  lemma OtherLivesDoNotMatter(log: seq<Event>, life: Life, before: real)
    ensures HappenedBefore(Ledger(log), life, before) <==> HappenedBefore(Ledger(About(log, life)), life, before)
  {
    SameEntry(log, life);
  }

  lemma {:induction false} SameEntry(log: seq<Event>, life: Life)
    ensures life in Ledger(log) <==> life in Ledger(About(log, life))
    ensures life in Ledger(log) ==> Ledger(log)[life] == Ledger(About(log, life))[life]
    decreases |log|
  {
    if log != [] {
      var init, last := log[..|log| - 1], log[|log| - 1];
      SameEntry(init, life);
      LedgerOfSnoc(About(init, life), last);
    }
  }
}
