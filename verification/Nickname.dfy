/** What a nickname may be, for the live write path and for the migration of older rows. */
module Nicknames {
  import opened Wrappers

  const MAX_NICKNAME_CHARS := 30

  const PLACEHOLDER := "player"

  datatype NicknameError = BadLength | UnsupportedCharacters

  // ---- character classes, by Unicode scalar value ----

  /** The White_Space property. */
  predicate IsWhitespace(c: char) {
    || '\U{0009}' <= c <= '\U{000D}' || c == ' ' || c == '\U{0085}' || c == '\U{00A0}' || c == '\U{1680}'
    || '\U{2000}' <= c <= '\U{200A}' || c == '\U{2028}' || c == '\U{2029}' || c == '\U{202F}'
    || c == '\U{205F}' || c == '\U{3000}'
  }

  /** The general category Cc. */
  predicate IsControl(c: char) {
    c <= '\U{001F}' || '\U{007F}' <= c <= '\U{009F}'
  }

  /** Control, zero-width and bidirectional-format characters. */
  predicate IsForbidden(c: char) {
    || IsControl(c)
    || '\U{200B}' <= c <= '\U{200F}' || '\U{202A}' <= c <= '\U{202E}' || '\U{2060}' <= c <= '\U{2064}'
    || '\U{2066}' <= c <= '\U{2069}' || c == '\U{FEFF}'
  }

  predicate InRanges(n: int, ranges: seq<(int, int)>) {
    exists i :: 0 <= i < |ranges| && ranges[i].0 <= n <= ranges[i].1
  }

  const C0_AND_C1: seq<(int, int)> := [(0x00, 0x1F), (0x7F, 0x9F)]
  const ZERO_WIDTH: seq<(int, int)> := [(0x200B, 0x200F), (0x2060, 0x2064), (0xFEFF, 0xFEFF)]
  const BIDIRECTIONAL: seq<(int, int)> := [(0x202A, 0x202E), (0x2066, 0x2069)]

  /** The forbidden characters, by code point; ordinary spaces are none of them. */
  lemma ForbiddenIsTheTable(c: char)
    ensures IsForbidden(c)
       <==> InRanges(c as int, C0_AND_C1) || InRanges(c as int, ZERO_WIDTH) || InRanges(c as int, BIDIRECTIONAL)
    ensures IsForbidden(c) && IsWhitespace(c) ==> 0x09 <= c as int <= 0x0D || c as int == 0x85
  {
    assert C0_AND_C1[0] == (0x00, 0x1F) && C0_AND_C1[1] == (0x7F, 0x9F);
    assert ZERO_WIDTH[0] == (0x200B, 0x200F) && ZERO_WIDTH[1] == (0x2060, 0x2064) && ZERO_WIDTH[2] == (0xFEFF, 0xFEFF);
    assert BIDIRECTIONAL[0] == (0x202A, 0x202E) && BIDIRECTIONAL[1] == (0x2066, 0x2069);
  }

  const ASCII_SPACES: seq<(int, int)> := [(0x09, 0x0D), (0x20, 0x20)]
  const WIDE_SPACES: seq<(int, int)> := [(0x85, 0x85), (0xA0, 0xA0), (0x1680, 0x1680), (0x2000, 0x200A),
                                         (0x2028, 0x2029), (0x202F, 0x202F), (0x205F, 0x205F), (0x3000, 0x3000)]

  /** White space, by code point; the zero-width space is not among it. */
  lemma WhitespaceIsTheTable(c: char)
    ensures IsWhitespace(c) <==> InRanges(c as int, ASCII_SPACES) || InRanges(c as int, WIDE_SPACES)
    ensures InRanges(c as int, ZERO_WIDTH) || InRanges(c as int, BIDIRECTIONAL) ==> !IsWhitespace(c)
  {
    assert ASCII_SPACES[0] == (0x09, 0x0D) && ASCII_SPACES[1] == (0x20, 0x20);
    assert WIDE_SPACES[0] == (0x85, 0x85) && WIDE_SPACES[1] == (0xA0, 0xA0) && WIDE_SPACES[2] == (0x1680, 0x1680);
    assert WIDE_SPACES[3] == (0x2000, 0x200A) && WIDE_SPACES[4] == (0x2028, 0x2029);
    assert WIDE_SPACES[5] == (0x202F, 0x202F) && WIDE_SPACES[6] == (0x205F, 0x205F);
    assert WIDE_SPACES[7] == (0x3000, 0x3000);
  }

  // ---- trimming and filtering ----

  function TrimStart(s: string): string {
    if s != [] && IsWhitespace(s[0]) then TrimStart(s[1..]) else s
  }

  function TrimEnd(s: string): string {
    if s != [] && IsWhitespace(s[|s| - 1]) then TrimEnd(s[..|s| - 1]) else s
  }

  function Trim(s: string): string {
    TrimEnd(TrimStart(s))
  }

  function Filtered(s: string): string {
    if s == [] then [] else (if IsForbidden(s[0]) then [] else [s[0]]) + Filtered(s[1..])
  }

  function Take(s: string, n: nat): string {
    if |s| <= n then s else s[..n]
  }

  predicate HasForbidden(s: string) {
    exists i | 0 <= i < |s| :: IsForbidden(s[i])
  }

  // ---- the two entry points ----

  function Validate(nickname: string): Result<string, NicknameError> {
    var trimmed := Trim(nickname);
    if |trimmed| == 0 || |trimmed| > MAX_NICKNAME_CHARS then Err(BadLength)
    else if HasForbidden(trimmed) then Err(UnsupportedCharacters)
    else Ok(trimmed)
  }

  function Canonicalize(nickname: string): string {
    var cleaned := Trim(Take(Filtered(Trim(nickname)), MAX_NICKNAME_CHARS));
    if cleaned == [] then PLACEHOLDER else cleaned
  }

  // ---- the shape of a stored name ----

  predicate Edged(s: string) {
    s != [] ==> !IsWhitespace(s[0]) && !IsWhitespace(s[|s| - 1])
  }

  predicate Stored(s: string) {
    1 <= |s| <= MAX_NICKNAME_CHARS && !HasForbidden(s) && Edged(s)
  }

  lemma {:induction false} TrimStartDrops(s: string) returns (k: nat)
    ensures k <= |s| && TrimStart(s) == s[k..] && (forall i | 0 <= i < k :: IsWhitespace(s[i]))
    ensures k < |s| ==> !IsWhitespace(s[k])
    decreases |s|
  {
    if s != [] && IsWhitespace(s[0]) {
      var rest := s[1..];
      var n := TrimStartDrops(rest);
      k := n + 1;
      assert rest[n..] == s[k..];
      assert forall i | 0 < i < k :: s[i] == rest[i - 1];
    } else {
      k := 0;
    }
  }

  lemma {:induction false} TrimEndDrops(s: string) returns (k: nat)
    ensures k <= |s| && TrimEnd(s) == s[..k] && (forall i | k <= i < |s| :: IsWhitespace(s[i]))
    ensures k > 0 ==> !IsWhitespace(s[k - 1])
    decreases |s|
  {
    if s != [] && IsWhitespace(s[|s| - 1]) {
      k := TrimEndDrops(s[..|s| - 1]);
      assert s[..|s| - 1][..k] == s[..k];
    } else {
      k := |s|;
    }
  }

  /** `Trim` cuts white space off both ends and nothing else. */
  lemma TrimCutsEnds(s: string) returns (from: nat, to: nat)
    ensures from <= to <= |s| && Trim(s) == s[from..to] && Edged(Trim(s))
    ensures forall i | 0 <= i < from || to <= i < |s| :: IsWhitespace(s[i])
  {
    from := TrimStartDrops(s);
    var n := TrimEndDrops(s[from..]);
    to := from + n;
    assert s[from..][..n] == s[from..to];
    forall i | to <= i < |s|
      ensures IsWhitespace(s[i])
    {
      assert s[i] == s[from..][i - from];
    }
  }

  lemma TrimFixes(s: string)
    ensures Trim(s) == s <==> Edged(s)
  {
    var from, to := TrimCutsEnds(s);
    if Trim(s) == s {
      assert from == 0 && to == |s|;
    }
  }

  lemma {:induction false} FilteredIsClean(s: string)
    ensures !HasForbidden(Filtered(s)) && |Filtered(s)| <= |s|
    ensures !HasForbidden(s) ==> Filtered(s) == s
    decreases |s|
  {
    if s != [] {
      FilteredIsClean(s[1..]);
      if !HasForbidden(s) {
        assert !IsForbidden(s[0]);
        forall i | 0 <= i < |s[1..]|
          ensures !IsForbidden(s[1..][i])
        {
          assert s[1..][i] == s[i + 1];
        }
      }
    }
  }

  lemma SliceIsClean(s: string, from: nat, to: nat)
    requires from <= to <= |s| && !HasForbidden(s)
    ensures !HasForbidden(s[from..to])
  {
  }

  lemma {:induction false} FilteredOfConcat(a: string, b: string)
    ensures Filtered(a + b) == Filtered(a) + Filtered(b)
    decreases |a|
  {
    if a == [] {
      assert a + b == b;
    } else {
      assert (a + b)[1..] == a[1..] + b;
      FilteredOfConcat(a[1..], b);
    }
  }

  /** Filtering takes out the forbidden characters one by one and keeps every other, in order. */
  lemma FilteredDropsOne(a: string, c: char, b: string)
    ensures Filtered(a + [c] + b) == Filtered(a) + (if IsForbidden(c) then [] else [c]) + Filtered(b)
  {
    FilteredOfConcat(a + [c], b);
    FilteredOfConcat(a, [c]);
  }

  /** The canonical form is the first thirty permitted characters less white space at their ends, or the placeholder. */
  lemma CanonicalCutsOnlyEdges(s: string) returns (from: nat, to: nat)
    ensures var kept := Take(Filtered(Trim(s)), MAX_NICKNAME_CHARS);
            && from <= to <= |kept|
            && (forall i | 0 <= i < from || to <= i < |kept| :: IsWhitespace(kept[i]))
            && Canonicalize(s) == (if from == to then PLACEHOLDER else kept[from..to])
  {
    from, to := TrimCutsEnds(Take(Filtered(Trim(s)), MAX_NICKNAME_CHARS));
  }

  /** The validator keeps a name as it is exactly when it already has the stored shape. */
  lemma StoredMeansValid(s: string)
    ensures Validate(s) == Ok(s) <==> Stored(s)
  {
    TrimFixes(s);
  }

  lemma CanonicalIsStored(s: string)
    ensures Stored(Canonicalize(s))
  {
    var clean := Filtered(Trim(s));
    FilteredIsClean(Trim(s));
    var taken := Take(clean, MAX_NICKNAME_CHARS);
    SliceIsClean(clean, 0, |taken|);
    assert clean[0..|taken|] == taken;
    var from, to := TrimCutsEnds(taken);
    SliceIsClean(taken, from, to);
  }

  /** A name is judged by what is left between its white space: first by its length, then by its characters. */
  lemma ValidateIsExact(s: string) returns (from: nat, to: nat)
    ensures from <= to <= |s| && (forall i | 0 <= i < from || to <= i < |s| :: IsWhitespace(s[i]))
    ensures from < to ==> !IsWhitespace(s[from]) && !IsWhitespace(s[to - 1])
    ensures Validate(s) == Err(BadLength) <==> to == from || to > from + 30
    ensures Validate(s) == Err(UnsupportedCharacters)
       <==> from < to <= from + 30 && exists i :: from <= i < to && IsForbidden(s[i])
    ensures Validate(s).Ok? ==> Validate(s).value == s[from..to]
  {
    from, to := TrimCutsEnds(s);
    var trimmed := Trim(s);
    if i :| from <= i < to && IsForbidden(s[i]) {
      assert trimmed[i - from] == s[i];
    } else {
      assert forall i | 0 <= i < |trimmed| :: trimmed[i] == s[from + i];
    }
  }

  /** A name in the stored shape is its own canonical form, and no other name is. */
  lemma CanonicalFixesStored(s: string)
    ensures Canonicalize(s) == s <==> Stored(s)
  {
    CanonicalIsStored(s);
    if Stored(s) {
      TrimFixes(s);
      FilteredIsClean(s);
    }
  }

  /** Whatever the migration keeps, the live validator accepts unchanged, and migrating it again changes nothing. */
  lemma CanonicalValidates(s: string)
    ensures Validate(Canonicalize(s)) == Ok(Canonicalize(s))
    ensures Canonicalize(Canonicalize(s)) == Canonicalize(s)
  {
    CanonicalIsStored(s);
    StoredMeansValid(Canonicalize(s));
    CanonicalFixesStored(Canonicalize(s));
  }

  /** For a name the validator accepts, both entry points store the same value. */
  lemma ValidatorAgreesWithMigration(s: string)
    requires Validate(s).Ok?
    ensures Canonicalize(s) == Validate(s).value && Stored(Validate(s).value)
  {
    var from, to := TrimCutsEnds(s);
    FilteredIsClean(Trim(s));
    TrimFixes(Trim(s));
  }
}
