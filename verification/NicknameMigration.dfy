/**
 Schema migration 005: bring every stored nickname into canonical shape and make them distinct
 under ASCII folding.
 */
module NicknameMigration {
  import opened Nicknames
  import opened Wrappers

  type Id = string

  datatype Row = Row(id: Id, nickname: string)

  /** User ids are UUIDs: hexadecimal digits and dashes. */
  predicate IsIdChar(c: char) {
    '0' <= c <= '9' || 'a' <= c <= 'f' || 'A' <= c <= 'F' || c == '-'
  }

  predicate ValidId(id: Id) {
    forall i | 0 <= i < |id| :: IsIdChar(id[i])
  }

  // ---- ASCII folding, as in the index collation ----

  function FoldChar(c: char): char {
    if 'A' <= c <= 'Z' then (c as int + 32) as char else c
  }

  function Fold(s: string): (f: string)
    ensures |f| == |s| && (forall i | 0 <= i < |s| :: f[i] == FoldChar(s[i]))
  {
    seq(|s|, i requires 0 <= i < |s| => FoldChar(s[i]))
  }

  const UPPER: string := "ABCDEFGHIJKLMNOPQRSTUVWXYZ"
  const LOWER: string := "abcdefghijklmnopqrstuvwxyz"

  /** The same character, or one Latin letter in its two cases. */
  predicate SameLetter(a: char, b: char) {
    a == b || exists k :: 0 <= k < 26 && ((a == UPPER[k] && b == LOWER[k]) || (a == LOWER[k] && b == UPPER[k]))
  }

  lemma LettersInOrder(k: nat)
    requires k < 26
    ensures UPPER[k] as int == 65 + k && LOWER[k] as int == 97 + k
  {
  }

  lemma FoldIdentifiesCases(a: char, b: char)
    ensures FoldChar(a) == FoldChar(b) <==> SameLetter(a, b)
  {
    if 'A' <= a <= 'Z' && FoldChar(a) == b {
      LettersInOrder(a as int - 65);
    } else if 'A' <= b <= 'Z' && FoldChar(b) == a {
      LettersInOrder(b as int - 65);
    }
    forall k | 0 <= k < 26 ensures UPPER[k] as int == 65 + k && LOWER[k] as int == 97 + k {
      LettersInOrder(k);
    }
  }

  /** Two names fold alike exactly when they differ in nothing but the cases of the letters A to Z. */
  lemma FoldsAlikeIff(a: string, b: string)
    ensures Fold(a) == Fold(b) <==> |a| == |b| && forall i | 0 <= i < |a| :: SameLetter(a[i], b[i])
  {
    hide SameLetter, FoldChar;
    forall i | 0 <= i < |a| && i < |b| ensures FoldChar(a[i]) == FoldChar(b[i]) <==> SameLetter(a[i], b[i]) {
      FoldIdentifiesCases(a[i], b[i]);
    }
    if Fold(a) == Fold(b) {
      assert forall i | 0 <= i < |a| :: Fold(a)[i] == Fold(b)[i];
    }
  }

  function Folds(names: seq<string>): set<string> {
    set n | n in names :: Fold(n)
  }

  // ---- the candidate names of a row that collides ----

  /** The decimal digits of a positive number; nothing for zero, as the first attempt has no number. */
  function Digits(n: nat): string {
    if n == 0 then "" else Digits(n / 10) + [(n % 10 + 48) as char]
  }

  function Suffix(id: Id, attempt: nat): string {
    "#" + Take(id, 4) + Digits(attempt)
  }

  function Keep(id: Id, attempt: nat): nat {
    var n := |Suffix(id, attempt)|;
    if n <= MAX_NICKNAME_CHARS then MAX_NICKNAME_CHARS - n else 0
  }

  function Candidate(canonical: string, id: Id, attempt: nat): string {
    Take(canonical, Keep(id, attempt)) + Suffix(id, attempt)
  }

  lemma {:induction false} DigitsAreDigits(n: nat)
    ensures forall i | 0 <= i < |Digits(n)| :: '0' <= Digits(n)[i] <= '9'
    ensures n > 0 ==> Digits(n) != ""
  {
    if n > 0 {
      DigitsAreDigits(n / 10);
    }
  }

  lemma {:induction false} DigitsAreInjective(a: nat, b: nat)
    requires Digits(a) == Digits(b)
    ensures a == b
  {
    DigitsAreDigits(a);
    DigitsAreDigits(b);
    if a > 0 && b > 0 {
      var da, db := Digits(a), Digits(b);
      assert da[..|da| - 1] == Digits(a / 10) && db[..|db| - 1] == Digits(b / 10);
      assert da[|da| - 1] == db[|db| - 1];
      DigitsAreInjective(a / 10, b / 10);
    }
  }

  /** The number that decimal digits spell. */
  function DecimalValue(s: string): int {
    if s == "" then 0 else 10 * DecimalValue(s[..|s| - 1]) + (s[|s| - 1] as int - '0' as int)
  }

  lemma {:induction false} DigitsSpellTheNumber(n: nat)
    ensures DecimalValue(Digits(n)) == n
    ensures n > 0 ==> Digits(n) != "" && Digits(n)[0] != '0'
  {
    if n > 0 {
      DigitsSpellTheNumber(n / 10);
      assert Digits(n)[..|Digits(n)| - 1] == Digits(n / 10);
    }
  }

  /**
   A candidate is the start of the name, as much of it as leaves room, then a hash sign, the first four
   characters of the id, and the number of the attempt unless it is the first.
   */
  lemma CandidateShape(canonical: string, id: Id, attempt: nat)
    requires attempt < 0x1_0000_0000
    ensures var c, short, digits := Candidate(canonical, id, attempt), Take(id, 4), Digits(attempt);
            var kept := |c| - 1 - |short| - |digits|;
            && |short| == (if |id| < 4 then |id| else 4) && short <= id
            && 0 <= kept <= |canonical| && |c| <= MAX_NICKNAME_CHARS
            && (kept < |canonical| ==> |c| == MAX_NICKNAME_CHARS)
            && c == canonical[..kept] + "#" + short + digits
            && DecimalValue(digits) == attempt && (digits == "" <==> attempt == 0)
  {
    TenDigits(attempt);
    DigitsSpellTheNumber(attempt);
    var kept := Take(canonical, Keep(id, attempt));
    assert kept == canonical[..|kept|];
    assert kept + ("#" + Take(id, 4) + Digits(attempt)) == kept + "#" + Take(id, 4) + Digits(attempt);
  }

  function Pow10(k: nat): nat {
    if k == 0 then 1 else 10 * Pow10(k - 1)
  }

  lemma {:induction false} DigitsAreFew(n: nat, k: nat)
    requires n < Pow10(k)
    ensures |Digits(n)| <= k
  {
    if n > 0 {
      DigitsAreFew(n / 10, k - 1);
    }
  }

  /** What follows the last '#' of a candidate is the short id and the attempt. */
  lemma SuffixHasOneHash(id: Id, attempt: nat)
    requires ValidId(id)
    ensures HashFirst(Fold(Suffix(id, attempt)))
  {
    DigitsAreDigits(attempt);
    var s := Suffix(id, attempt);
    var short, digits := Take(id, 4), Digits(attempt);
    forall i | 0 < i < |s|
      ensures FoldChar(s[i]) != '#'
    {
      if i <= |short| {
        assert s[i] == short[i - 1] == id[i - 1];
      } else {
        assert s[i] == digits[i - 1 - |short|];
      }
    }
  }

  lemma FoldOfConcat(a: string, b: string)
    ensures Fold(a + b) == Fold(a) + Fold(b)
  {
  }

  /** `s` starts with its only '#'. */
  predicate HashFirst(s: string) {
    s != [] && s[0] == '#' && (forall i | 0 < i < |s| :: s[i] != '#')
  }

  lemma NoLaterHash(a: string, s: string, k: nat)
    requires HashFirst(s) && 0 < k < |s|
    ensures (a + s)[|a| + k] != '#'
  {
  }

  lemma SameTail(a: string, b: string, s: string, t: string)
    requires a + s == b + t && HashFirst(s) && HashFirst(t)
    ensures s == t
  {
    if |a| < |b| && |b| - |a| < |s| {
      NoLaterHash(a, s, |b| - |a|);
    }
    if |b| < |a| && |a| - |b| < |t| {
      NoLaterHash(b, t, |a| - |b|);
    }
    assert s == (a + s)[|a|..] && t == (b + t)[|b|..];
  }

  lemma SuffixesDiffer(id: Id, a: nat, b: nat)
    requires ValidId(id) && Fold(Suffix(id, a)) == Fold(Suffix(id, b))
    ensures a == b
  {
    var head := "#" + Take(id, 4);
    FoldOfConcat(head, Digits(a));
    FoldOfConcat(head, Digits(b));
    DigitsAreDigits(a);
    DigitsAreDigits(b);
    assert Fold(Digits(a)) == Digits(a) && Fold(Digits(b)) == Digits(b);
    var fa, fb := Fold(head) + Digits(a), Fold(head) + Digits(b);
    assert fa[|head|..] == Digits(a) && fb[|head|..] == Digits(b);
    DigitsAreInjective(a, b);
  }

  /** Different attempts fold to different names. */
  lemma CandidatesDiffer(canonical: string, id: Id, a: nat, b: nat)
    requires ValidId(id) && Fold(Candidate(canonical, id, a)) == Fold(Candidate(canonical, id, b))
    ensures a == b
  {
    hide Fold;
    var baseA, baseB := Take(canonical, Keep(id, a)), Take(canonical, Keep(id, b));
    FoldOfConcat(baseA, Suffix(id, a));
    FoldOfConcat(baseB, Suffix(id, b));
    SuffixHasOneHash(id, a);
    SuffixHasOneHash(id, b);
    SameTail(Fold(baseA), Fold(baseB), Fold(Suffix(id, a)), Fold(Suffix(id, b)));
    SuffixesDiffer(id, a, b);
  }

  predicate Tried(canonical: string, id: Id, attempt: nat, seen: set<string>) {
    forall a: nat | a < attempt :: Fold(Candidate(canonical, id, a)) in seen
  }

  function AttemptNames(canonical: string, id: Id, attempt: nat): set<string> {
    set a: nat | a < attempt :: Fold(Candidate(canonical, id, a))
  }

  lemma {:induction false} NamesAreMany(canonical: string, id: Id, attempt: nat)
    requires ValidId(id)
    ensures |AttemptNames(canonical, id, attempt)| == attempt
  {
    hide Fold, Candidate;
    if attempt > 0 {
      NamesAreMany(canonical, id, attempt - 1);
      var last := Fold(Candidate(canonical, id, attempt - 1));
      var before := AttemptNames(canonical, id, attempt - 1);
      forall a: nat | a < attempt - 1
        ensures Fold(Candidate(canonical, id, a)) != last
      {
        if Fold(Candidate(canonical, id, a)) == last {
          CandidatesDiffer(canonical, id, a, attempt - 1);
        }
      }
      assert last !in before;
      assert AttemptNames(canonical, id, attempt) == before + {last};
    }
  }

  /** The pigeonhole bound on retries: no more attempts fail than there are names taken. */
  lemma AttemptsAreFew(canonical: string, id: Id, attempt: nat, seen: set<string>)
    requires ValidId(id) && Tried(canonical, id, attempt, seen)
    ensures attempt <= |seen|
  {
    NamesAreMany(canonical, id, attempt);
    var names := AttemptNames(canonical, id, attempt);
    assert names <= seen;
    assert seen == names + (seen - names);
  }

  // ---- what the migration stores ----

  /** The final name of a row, given the folded names of the rows before it. */
  ghost predicate Chosen(final: string, canonical: string, id: Id, seen: set<string>) {
    if Fold(canonical) !in seen then final == canonical
    else
      && Fold(final) !in seen
      && exists attempt: nat | attempt <= |seen| ::
           final == Candidate(canonical, id, attempt) && Tried(canonical, id, attempt, seen)
  }

  ghost predicate Migrated(rows: seq<Row>, finals: seq<string>) {
    && |finals| == |rows|
    && forall i | 0 <= i < |rows| :: ChosenAt(rows, finals, i)
  }

  ghost predicate ChosenAt(rows: seq<Row>, finals: seq<string>, i: nat)
    requires |finals| == |rows| && i < |rows|
  {
    Chosen(finals[i], Canonicalize(rows[i].nickname), rows[i].id, Folds(finals[..i]))
  }

  function Rows(order: seq<Id>, nicknames: map<Id, string>): (rows: seq<Row>)
    requires forall id | id in order :: id in nicknames
    ensures |rows| == |order|
    ensures forall i | 0 <= i < |order| :: rows[i] == Row(order[i], nicknames[order[i]])
  {
    seq(|order|, i requires 0 <= i < |order| => Row(order[i], nicknames[order[i]]))
  }

  function NamesOf(order: seq<Id>, nicknames: map<Id, string>): (names: seq<string>)
    requires forall id | id in order :: id in nicknames
    ensures |names| == |order|
    ensures forall i | 0 <= i < |order| :: names[i] == nicknames[order[i]]
  {
    seq(|order|, i requires 0 <= i < |order| => nicknames[order[i]])
  }

  lemma FoldsOfSnoc(names: seq<string>, name: string)
    ensures Folds(names + [name]) == Folds(names) + {Fold(name)}
  {
  }

  // ---- oldest first ----

  predicate IdBefore(a: Id, b: Id) {
    b != "" && (a == "" || a[0] < b[0] || (a[0] == b[0] && IdBefore(a[1..], b[1..])))
  }

  lemma {:induction false} IdsAreOrdered(a: Id, b: Id)
    ensures a == b || IdBefore(a, b) || IdBefore(b, a)
    ensures !(IdBefore(a, b) && IdBefore(b, a))
    decreases |a|
  {
    if a != "" && b != "" {
      IdsAreOrdered(a[1..], b[1..]);
      assert a == [a[0]] + a[1..] && b == [b[0]] + b[1..];
    }
  }

  lemma {:induction false} IdsAreTransitive(a: Id, b: Id, c: Id)
    requires IdBefore(a, b) && IdBefore(b, c)
    ensures IdBefore(a, c)
    decreases |a|
  {
    if a != "" && a[0] == b[0] == c[0] {
      IdsAreTransitive(a[1..], b[1..], c[1..]);
    }
  }

  /** The order of the query: by creation time, then by id. */
  predicate Older(createdAt: map<Id, int>, a: Id, b: Id)
    requires a in createdAt && b in createdAt
  {
    createdAt[a] < createdAt[b] || (createdAt[a] == createdAt[b] && IdBefore(a, b))
  }

  predicate OldestFirst(createdAt: map<Id, int>, order: seq<Id>) {
    && (forall id | id in order :: id in createdAt)
    && (forall i, j | 0 <= i < j < |order| :: Older(createdAt, order[i], order[j]))
  }

  class UserTable {
    var nicknames: map<Id, string>
    const createdAt: map<Id, int>

    method Oldest(ids: set<Id>) returns (oldest: Id)
      requires ids != {} && ids <= createdAt.Keys
      ensures oldest in ids && forall id | id in ids && id != oldest :: Older(createdAt, oldest, id)
    {
      oldest :| oldest in ids;
      var left := ids - {oldest};
      while left != {}
        invariant left <= ids - {oldest} && oldest in ids
        invariant forall id | id in ids && id !in left && id != oldest :: Older(createdAt, oldest, id)
        decreases left
      {
        var id :| id in left;
        left := left - {id};
        IdsAreOrdered(id, oldest);
        if Older(createdAt, id, oldest) {
          forall k | k in ids && k !in left && k != id && k != oldest ensures Older(createdAt, id, k) {
            if IdBefore(id, oldest) && IdBefore(oldest, k) {
              IdsAreTransitive(id, oldest, k);
            }
          }
          oldest := id;
        }
      }
    }

    /** All users, oldest first, as the query returns them. */
    method UsersOldestFirst() returns (order: seq<Id>)
      requires nicknames.Keys <= createdAt.Keys
      ensures OldestFirst(createdAt, order) && forall id :: id in order <==> id in nicknames
    {
      order := [];
      var left := nicknames.Keys;
      while left != {}
        invariant left <= nicknames.Keys && OldestFirst(createdAt, order)
        invariant forall id :: id in nicknames <==> id in order || id in left
        invariant forall a, b | a in order && b in left :: Older(createdAt, a, b)
        decreases left
      {
        var id := Oldest(left);
        left := left - {id};
        order := order + [id];
      }
    }

    /** The canonical name if it is free, else the first candidate that nobody has taken. */
    method FinalName(canonical: string, id: Id, seen: set<string>) returns (final: string)
      requires ValidId(id)
      ensures Chosen(final, canonical, id, seen)
    {
      if Fold(canonical) !in seen {
        return canonical;
      }
      var attempt := 0;
      final := Candidate(canonical, id, attempt);
      while Fold(final) in seen
        invariant final == Candidate(canonical, id, attempt)
        invariant attempt <= |seen| && Tried(canonical, id, attempt, seen)
        decreases |seen| - attempt
      {
        assert Tried(canonical, id, attempt + 1, seen);
        AttemptsAreFew(canonical, id, attempt + 1, seen);
        attempt := attempt + 1;
        final := Candidate(canonical, id, attempt);
      }
    }

    method NormalizeAndDedupe() returns (ghost order: seq<Id>)
      requires nicknames.Keys <= createdAt.Keys
      requires forall id | id in nicknames :: ValidId(id)
      modifies this`nicknames
      ensures nicknames.Keys == old(nicknames.Keys)
      ensures OldestFirst(createdAt, order) && forall id :: id in order <==> id in nicknames
      ensures Migrated(Rows(order, old(nicknames)), NamesOf(order, nicknames))
    {
      var users := UsersOldestFirst();
      OldestFirstIsDistinct(createdAt, users);
      Rewrite(users);
      order := users;
    }

    method Rewrite(order: seq<Id>)
      requires forall id :: id in order <==> id in nicknames
      requires forall i, j | 0 <= i < j < |order| :: order[i] != order[j]
      requires forall id | id in nicknames :: ValidId(id)
      modifies this`nicknames
      ensures nicknames.Keys == old(nicknames.Keys)
      ensures Migrated(Rows(order, old(nicknames)), NamesOf(order, nicknames))
    {
      hide Chosen, Folds, Fold, Canonicalize, ValidId, Migrated;
      var rows := Rows(order, nicknames);
      EmptyMigrated();
      var seen: set<string> := {};
      ghost var finals: seq<string> := [];
      for i := 0 to |rows|
        invariant nicknames.Keys == old(nicknames.Keys) && |finals| == i && seen == Folds(finals)
        invariant Migrated(rows[..i], finals)
        invariant forall j | 0 <= j < i :: nicknames[order[j]] == finals[j]
        invariant forall j | i <= j < |order| :: nicknames[order[j]] == rows[j].nickname
      {
        var row := rows[i];
        var final := FinalName(Canonicalize(row.nickname), row.id, seen);
        seen := seen + {Fold(final)};
        FoldsOfSnoc(finals, final);
        MigratedSnoc(rows[..i], finals, row, final);
        assert rows[..i + 1] == rows[..i] + [row];
        finals := finals + [final];
        if final != row.nickname {
          nicknames := nicknames[row.id := final];
        }
      }
      assert rows[..|rows|] == rows && NamesOf(order, nicknames) == finals;
    }
  }

  lemma OldestFirstIsDistinct(createdAt: map<Id, int>, order: seq<Id>)
    requires OldestFirst(createdAt, order)
    ensures forall i, j | 0 <= i < j < |order| :: order[i] != order[j]
  {
    forall i, j | 0 <= i < j < |order| ensures order[i] != order[j] {
      IdsAreOrdered(order[i], order[j]);
      assert Older(createdAt, order[i], order[j]);
    }
  }

  /** Where a user stands in the list is how old the account is. */
  lemma OrderIsAge(createdAt: map<Id, int>, order: seq<Id>, i: nat, j: nat)
    requires OldestFirst(createdAt, order) && i < |order| && j < |order|
    ensures i < j <==> Older(createdAt, order[i], order[j])
  {
    IdsAreOrdered(order[i], order[j]);
    if j < i {
      assert Older(createdAt, order[j], order[i]);
    } else if i < j {
      assert Older(createdAt, order[i], order[j]);
    }
  }

  lemma EmptyMigrated()
    ensures Migrated([], []) && Folds([]) == {}
  {
  }

  lemma MigratedSnoc(rows: seq<Row>, finals: seq<string>, row: Row, final: string)
    requires Migrated(rows, finals) && Chosen(final, Canonicalize(row.nickname), row.id, Folds(finals))
    ensures Migrated(rows + [row], finals + [final])
  {
    hide Chosen, Folds, Canonicalize;
    var rows', finals' := rows + [row], finals + [final];
    forall i | 0 <= i < |rows'|
      ensures ChosenAt(rows', finals', i)
    {
      assert i < |rows| ==> ChosenAt(rows, finals, i);
      assert finals'[..i] == finals[..i];
    }
  }

  // ---- what the migration guarantees ----

  lemma FoldedEarlier(finals: seq<string>, i: nat, j: nat)
    requires j < i <= |finals|
    ensures Fold(finals[j]) in Folds(finals[..i])
  {
  }

  /** No two stored names are equal under ASCII folding, so the case-insensitive unique index can be built. */
  lemma NamesAreDistinct(rows: seq<Row>, finals: seq<string>, i: nat, j: nat)
    requires Migrated(rows, finals) && j < i < |finals|
    ensures Fold(finals[i]) != Fold(finals[j])
  {
    hide Fold, Folds, Canonicalize, Candidate;
    assert ChosenAt(rows, finals, i);
    FoldedEarlier(finals, i, j);
  }

  ghost predicate TakenBefore(finals: seq<string>, i: nat, name: string)
    requires i <= |finals|
  {
    exists j | 0 <= j < i :: Fold(finals[j]) == Fold(name)
  }

  lemma TakenIsFolded(finals: seq<string>, i: nat, name: string)
    requires i <= |finals|
    ensures TakenBefore(finals, i, name) <==> Fold(name) in Folds(finals[..i])
  {
  }

  /** Somebody older ends up with a name that folds to this one. */
  ghost predicate OlderHolds(createdAt: map<Id, int>, order: seq<Id>, finals: seq<string>, i: nat, name: string)
    requires OldestFirst(createdAt, order) && i < |order| == |finals|
  {
    exists j | 0 <= j < |order| :: Older(createdAt, order[j], order[i]) && Fold(finals[j]) == Fold(name)
  }

  /** A user keeps the canonical name exactly when no older user's final name folds to it. */
  lemma OldestKeepsItsName(createdAt: map<Id, int>, order: seq<Id>, nicknames: map<Id, string>, finals: seq<string>,
                           i: nat)
    requires OldestFirst(createdAt, order) && forall id | id in order :: id in nicknames
    requires i < |order| && Migrated(Rows(order, nicknames), finals)
    ensures var canonical := Canonicalize(nicknames[order[i]]);
            finals[i] == canonical <==> !OlderHolds(createdAt, order, finals, i, canonical)
  {
    hide Fold, Folds, Canonicalize, Candidate, IdBefore;
    var canonical := Canonicalize(nicknames[order[i]]);
    assert ChosenAt(Rows(order, nicknames), finals, i);
    TakenIsFolded(finals, i, canonical);
    forall j | 0 <= j < |order| ensures j < i <==> Older(createdAt, order[j], order[i]) {
      OrderIsAge(createdAt, order, j, i);
    }
  }

  /** A candidate has the stored shape as long as the retry counter fits its 32 bits. */
  lemma CandidateIsStored(canonical: string, id: Id, attempt: nat)
    requires Stored(canonical) && ValidId(id) && attempt < 0x1_0000_0000
    ensures Stored(Candidate(canonical, id, attempt))
  {
    SuffixIsPlain(id, attempt);
    var base, suffix := Take(canonical, Keep(id, attempt)), Suffix(id, attempt);
    var c := base + suffix;
    SliceIsClean(canonical, 0, |base|);
    assert canonical[0..|base|] == base;
    forall i | 0 <= i < |c|
      ensures !IsForbidden(c[i])
    {
      assert c[i] == if i < |base| then base[i] else suffix[i - |base|];
    }
    assert c[|c| - 1] == suffix[|suffix| - 1];
    assert c[0] == if |base| > 0 then canonical[0] else suffix[0];
  }

  /** A suffix is short, and none of its characters is white space or forbidden. */
  lemma SuffixIsPlain(id: Id, attempt: nat)
    requires ValidId(id) && attempt < 0x1_0000_0000
    ensures |Suffix(id, attempt)| <= 15
    ensures forall i | 0 <= i < |Suffix(id, attempt)| ::
              !IsForbidden(Suffix(id, attempt)[i]) && !IsWhitespace(Suffix(id, attempt)[i])
  {
    TenDigits(attempt);
    DigitsAreDigits(attempt);
    var s, short, digits := Suffix(id, attempt), Take(id, 4), Digits(attempt);
    forall i | 0 <= i < |s|
      ensures !IsForbidden(s[i]) && !IsWhitespace(s[i])
    {
      if 0 < i <= |short| {
        assert s[i] == short[i - 1] == id[i - 1];
      } else if i > 0 {
        assert s[i] == digits[i - 1 - |short|];
      }
    }
  }

  lemma TenDigits(n: nat)
    requires n < 0x1_0000_0000
    ensures |Digits(n)| <= 10
  {
    assert Pow10(5) == 100_000;
    assert Pow10(10) == 100_000 * 100_000 by {
      assert Pow10(6) == 1_000_000 && Pow10(8) == 100_000_000;
    }
    DigitsAreFew(n, 10);
  }

  /** Every stored name is one the live validator accepts as it is. */
  lemma NamesValidate(rows: seq<Row>, finals: seq<string>, i: nat)
    requires Migrated(rows, finals) && i < |rows| < 0x1_0000_0000
    requires forall k | 0 <= k < |rows| :: ValidId(rows[k].id)
    ensures Validate(finals[i]) == Ok(finals[i])
  {
    hide Fold, Candidate, Canonicalize, Validate, Stored;
    var canonical := Canonicalize(rows[i].nickname);
    CanonicalIsStored(rows[i].nickname);
    assert ChosenAt(rows, finals, i);
    FoldsAreFew(finals[..i]);
    if finals[i] != canonical {
      var attempt: nat :| attempt <= |Folds(finals[..i])| && finals[i] == Candidate(canonical, rows[i].id, attempt);
      CandidateIsStored(canonical, rows[i].id, attempt);
    }
    StoredMeansValid(finals[i]);
  }

  lemma {:induction false} FoldsAreFew(names: seq<string>)
    ensures |Folds(names)| <= |names|
    decreases |names|
  {
    hide Fold;
    if names != [] {
      var init, last := names[..|names| - 1], names[|names| - 1];
      FoldsAreFew(init);
      assert names == init + [last];
      FoldsOfSnoc(init, last);
    }
  }

  /** Running the migration on what it produced changes nothing. */
  lemma SecondRunChangesNothing(rows: seq<Row>, finals: seq<string>, again: seq<string>)
    requires Migrated(rows, finals) && |rows| < 0x1_0000_0000
    requires forall k | 0 <= k < |rows| :: ValidId(rows[k].id)
    requires Migrated(Rewritten(rows, finals), again)
    ensures again == finals
  {
    SecondRunPrefix(rows, finals, again, |rows|);
    assert again[..|rows|] == again && finals[..|rows|] == finals;
  }

  function Rewritten(rows: seq<Row>, finals: seq<string>): (next: seq<Row>)
    requires |finals| == |rows|
    ensures |next| == |rows| && (forall i | 0 <= i < |rows| :: next[i] == Row(rows[i].id, finals[i]))
  {
    seq(|rows|, i requires 0 <= i < |rows| => Row(rows[i].id, finals[i]))
  }

  lemma {:induction false} SecondRunPrefix(rows: seq<Row>, finals: seq<string>, again: seq<string>, n: nat)
    requires Migrated(rows, finals) && n <= |rows| < 0x1_0000_0000
    requires forall k | 0 <= k < |rows| :: ValidId(rows[k].id)
    requires Migrated(Rewritten(rows, finals), again)
    ensures again[..n] == finals[..n]
  {
    hide Fold, Candidate, Canonicalize, Validate, Stored;
    if n > 0 {
      SecondRunPrefix(rows, finals, again, n - 1);
      NamesValidate(rows, finals, n - 1);
      StoredMeansValid(finals[n - 1]);
      CanonicalFixesStored(finals[n - 1]);
      if TakenBefore(finals, n - 1, finals[n - 1]) {
        var j :| 0 <= j < n - 1 && Fold(finals[j]) == Fold(finals[n - 1]);
        NamesAreDistinct(rows, finals, n - 1, j);
      }
      TakenIsFolded(finals, n - 1, finals[n - 1]);
      assert ChosenAt(Rewritten(rows, finals), again, n - 1);
      assert again[..n] == again[..n - 1] + [again[n - 1]];
    }
  }
}
