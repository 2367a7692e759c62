/** The byte-string search that the recovery updater runs over the modem partition
    (recovery/recovery_updater.cpp).  The two skip tables and the scan are methods over
    arrays, as in the source; each is proved against a function of the pattern, and the
    lemmas below say what those functions are good for.

    The second table stores `p + 1` where its test looked at the suffix starting at `p`.
    The main theorem, `FindsFirstIffBorderFreeOrUniform`, says exactly for which patterns
    that is harmless. */
module BoyerMoore {

  import opened Wrappers

  type byte = b: int | 0 <= b < ALPHABET_LEN

  const ALPHABET_LEN: nat := 256

  // ---------- What a search has to find ----------

  /** `pat` occurs in `str` at index `k`. */
  ghost predicate MatchAt(str: seq<byte>, pat: seq<byte>, k: int) {
    0 <= k && k + |pat| <= |str| && forall i :: 0 <= i < |pat| ==> str[k + i] == pat[i]
  }

  /** `r` is the lowest index at which `pat` occurs, or `None` when it does not occur. */
  ghost predicate IsFirstMatch(str: seq<byte>, pat: seq<byte>, r: Option<nat>) {
    match r
    case None => forall k :: !MatchAt(str, pat, k)
    case Some(k) => MatchAt(str, pat, k) && forall k' :: k' < k ==> !MatchAt(str, pat, k')
  }

  /** The suffix of `pat` that starts at `s` is also a prefix of `pat`. */
  ghost predicate Border(pat: seq<byte>, s: int) {
    0 < s < |pat| && forall k :: s <= k < |pat| ==> pat[k] == pat[k - s]
  }

  ghost predicate BorderFree(pat: seq<byte>) {
    forall s :: !Border(pat, s)
  }

  ghost predicate Uniform(pat: seq<byte>) {
    forall k :: 0 <= k < |pat| ==> pat[k] == pat[0]
  }

  ghost predicate NulFree(pat: seq<byte>) {
    forall k :: 0 <= k < |pat| ==> pat[k] != 0
  }

  // ---------- The functions the tables hold ----------

  /** Distance from the end of `pat` to the rightmost occurrence of `c` before index `n`. */
  function BadCharShift(pat: seq<byte>, c: byte, n: nat): nat
    requires n < |pat|
  {
    if n == 0 then |pat| else if pat[n - 1] == c then |pat| - n else BadCharShift(pat, c, n - 1)
  }

  lemma {:induction false} BadCharShiftIsRightmost(pat: seq<byte>, c: byte, n: nat)
    requires n < |pat|
    ensures var d := BadCharShift(pat, c, n);
      && |pat| - n <= d <= |pat|
      && (d < |pat| ==> pat[|pat| - 1 - d] == c)
      && forall k :: |pat| - 1 - d < k < n ==> pat[k] != c
  {
    if n > 0 && pat[n - 1] != c {
      BadCharShiftIsRightmost(pat, c, n - 1);
    }
  }

  /** `strncmp(pat + p, pat, |pat| - p) == 0`, from offset `k` on: a common NUL ends it. */
  predicate StrncmpEqual(pat: seq<byte>, p: nat, k: nat)
    requires p + k <= |pat|
    decreases |pat| - k
  {
    p + k == |pat| || (pat[p + k] == pat[k] && (pat[k] == 0 || StrncmpEqual(pat, p, k + 1)))
  }

  /** The value of `last_prefix` once the first loop of the table has handled index `p`. */
  function LastPrefix(pat: seq<byte>, p: nat): (s: nat)
    requires 0 < |pat| && p <= |pat|
    ensures s <= |pat|
    ensures p < |pat| && 1 < |pat| ==> 0 < s
    decreases |pat| - p
  {
    if p == |pat| then |pat| - 1
    else if StrncmpEqual(pat, p, 0) then p + 1
    else LastPrefix(pat, p + 1)
  }

  /** Moving the pattern right by `t` keeps the matched part after `j` aligned and puts a
      different byte under the mismatch. */
  predicate Reoccurs(pat: seq<byte>, j: nat, t: int) {
    j < |pat| && 1 <= t <= j
    && (forall k :: j < k < |pat| ==> pat[k - t] == pat[k])
    && pat[j - t] != pat[j]
  }

  /** The smallest re-occurrence shift from `t` on; the stored prefix shift if there is none. */
  function ShiftFrom(pat: seq<byte>, j: nat, t: nat): nat
    requires j < |pat| && 1 <= t
    decreases j + 1 - t
  {
    if t > j then LastPrefix(pat, j) else if Reoccurs(pat, j, t) then t else ShiftFrom(pat, j, t + 1)
  }

  lemma {:induction false} ShiftFromIsSmallest(pat: seq<byte>, j: nat, t: nat)
    requires j < |pat| && 1 <= t
    ensures var s := ShiftFrom(pat, j, t);
      || (t <= s && Reoccurs(pat, j, s) && forall u :: t <= u < s ==> !Reoccurs(pat, j, u))
      || (s == LastPrefix(pat, j) && forall u :: t <= u ==> !Reoccurs(pat, j, u))
    decreases j + 1 - t
  {
    if t <= j && !Reoccurs(pat, j, t) {
      ShiftFromIsSmallest(pat, j, t + 1);
    }
  }

  /** How far the pattern moves on a mismatch at `pat[j]`, by the second table. */
  function GoodSuffixShift(pat: seq<byte>, j: nat): nat
    requires j < |pat|
  {
    ShiftFrom(pat, j, 1)
  }

  function Delta1(pat: seq<byte>, c: byte): nat
    requires 0 < |pat|
  {
    BadCharShift(pat, c, |pat| - 1)
  }

  function Delta2(pat: seq<byte>, j: nat): nat
    requires j < |pat|
  {
    GoodSuffixShift(pat, j) + (|pat| - 1 - j)
  }

  /** The pattern always moves: this is why the scan terminates. */
  lemma ShiftIsPositive(pat: seq<byte>, j: nat)
    requires j < |pat|
    ensures 0 < GoodSuffixShift(pat, j) <= |pat|
  {
    ShiftFromIsSmallest(pat, j, 1);
    if |pat| == 1 {
      assert StrncmpEqual(pat, 0, 0);
    }
  }

  // ---------- Building the tables ----------

  /** Length of the longest common suffix of `str[..p + 1]` and `str`, at most `p`. */
  method MaxSuffixLen(str: seq<byte>, p: nat) returns (i: nat)
    requires p < |str|
    ensures i <= p
    ensures forall k :: |str| - i <= k < |str| ==> str[k - (|str| - 1 - p)] == str[k]
    ensures i < p ==> str[p - i] != str[|str| - 1 - i]
  {
    i := 0;
    while str[p - i] == str[|str| - 1 - i] && i < p
      invariant i <= p
      invariant forall k :: |str| - i <= k < |str| ==> str[k - (|str| - 1 - p)] == str[k]
    {
      i := i + 1;
    }
  }

  method MakeDelta1(delta1: array<int>, pat: seq<byte>)
    requires delta1.Length == ALPHABET_LEN && 0 < |pat|
    modifies delta1
    ensures forall c: byte :: delta1[c] == Delta1(pat, c)
  {
    var i := 0;
    while i < ALPHABET_LEN
      invariant 0 <= i <= ALPHABET_LEN
      invariant forall c: byte :: c < i ==> delta1[c] == |pat|
    {
      delta1[i] := |pat|;
      i := i + 1;
    }
    i := 0;
    while i < |pat| - 1
      invariant 0 <= i <= |pat| - 1
      invariant forall c: byte :: delta1[c] == BadCharShift(pat, c, i)
    {
      delta1[pat[i]] := |pat| - 1 - i;
      i := i + 1;
    }
  }

  /** Which table entry the second loop of `MakeDelta2` writes for end position `p`. */
  lemma ReoccurrenceEndingAt(pat: seq<byte>, p: nat, sufLen: nat, j: nat)
    requires p < |pat| - 1 && sufLen <= p && j < |pat|
    requires forall k :: |pat| - sufLen <= k < |pat| ==> pat[k - (|pat| - 1 - p)] == pat[k]
    requires sufLen < p ==> pat[p - sufLen] != pat[|pat| - 1 - sufLen]
    ensures Reoccurs(pat, j, |pat| - 1 - p)
       <==> j == |pat| - 1 - sufLen && pat[p - sufLen] != pat[|pat| - 1 - sufLen]
  {
    assert |pat| - 1 - j < sufLen ==> pat[j - (|pat| - 1 - p)] == pat[j];
  }

  /** The table while re-occurrence shifts below `lo` are still to be entered. */
  ghost function Delta2Table(pat: seq<byte>, lo: nat): seq<int>
    requires 1 <= lo
  {
    seq(|pat|, j requires 0 <= j < |pat| => ShiftFrom(pat, j, lo) + (|pat| - 1 - j))
  }

  lemma PrefixShiftsOnly(table: seq<int>, pat: seq<byte>)
    requires 0 < |pat| == |table|
    requires forall j :: 0 <= j < |pat| ==> table[j] == LastPrefix(pat, j) + (|pat| - 1 - j)
    ensures table == Delta2Table(pat, |pat|)
  {
  }

  /** One round of the second loop: the last write to an entry is its smallest shift. */
  lemma EnterReoccurrence(pat: seq<byte>, p: nat, sufLen: nat)
    requires p < |pat| - 1 && sufLen <= p
    requires forall k :: |pat| - sufLen <= k < |pat| ==> pat[k - (|pat| - 1 - p)] == pat[k]
    requires sufLen < p ==> pat[p - sufLen] != pat[|pat| - 1 - sufLen]
    ensures Delta2Table(pat, |pat| - 1 - p) ==
            if pat[p - sufLen] != pat[|pat| - 1 - sufLen]
            then Delta2Table(pat, |pat| - p)[|pat| - 1 - sufLen := |pat| - 1 - p + sufLen]
            else Delta2Table(pat, |pat| - p)
  {
    forall j: nat {:trigger ShiftFrom(pat, j, |pat| - p)} | j < |pat|
      ensures Reoccurs(pat, j, |pat| - 1 - p)
         <==> j == |pat| - 1 - sufLen && pat[p - sufLen] != pat[|pat| - 1 - sufLen]
    {
      ReoccurrenceEndingAt(pat, p, sufLen, j);
    }
  }

  /** The first loop of the table: prefix shifts. */
  method EnterPrefixes(delta2: array<int>, pat: seq<byte>)
    requires 0 < |pat| && delta2.Length == |pat|
    modifies delta2
    ensures delta2[..] == Delta2Table(pat, |pat|)
  {
    var n := |pat|;
    var lastPrefix := n - 1;
    var p := n - 1;
    while p >= 0
      invariant -1 <= p < n
      invariant lastPrefix == LastPrefix(pat, p + 1)
      invariant forall j :: p < j < n ==> delta2[j] == LastPrefix(pat, j) + (n - 1 - j)
    {
      if StrncmpEqual(pat, p, 0) {
        lastPrefix := p + 1;
      }
      delta2[p] := lastPrefix + (n - 1 - p);
      p := p - 1;
    }
    PrefixShiftsOnly(delta2[..], pat);
  }

  /** The second loop of the table: re-occurrence shifts overwrite the larger prefix shifts. */
  method EnterReoccurrences(delta2: array<int>, pat: seq<byte>)
    requires 0 < |pat| == delta2.Length && delta2[..] == Delta2Table(pat, |pat|)
    modifies delta2
    ensures delta2[..] == Delta2Table(pat, 1)
  {
    var n := |pat|;
    var p := 0;
    while p < n - 1
      invariant 0 <= p <= n - 1
      invariant delta2[..] == Delta2Table(pat, n - p)
    {
      var sufLen := MaxSuffixLen(pat, p);
      EnterReoccurrence(pat, p, sufLen);
      if pat[p - sufLen] != pat[n - 1 - sufLen] {
        delta2[n - 1 - sufLen] := n - 1 - p + sufLen;
      }
      p := p + 1;
    }
  }

  method MakeDelta2(delta2: array<int>, pat: seq<byte>)
    requires 0 < |pat| && delta2.Length == |pat|
    modifies delta2
    ensures forall j :: 0 <= j < |pat| ==> delta2[j] == Delta2(pat, j)
  {
    EnterPrefixes(delta2, pat);
    EnterReoccurrences(delta2, pat);
    assert forall j :: 0 <= j < |pat| ==> delta2[j] == delta2[..][j];
  }

  // ---------- The scan ----------

  /** The mismatch the backward comparison stops at, `-1` if there is none: `j` is the
      pattern index still to be compared, with `pat[0]` under `str[a]`. */
  function Mismatch(str: seq<byte>, pat: seq<byte>, a: nat, j: int): (m: int)
    requires a + |pat| <= |str| && -1 <= j < |pat|
    ensures -1 <= m <= j
    ensures forall k :: m < k <= j ==> str[a + k] == pat[k]
    ensures 0 <= m ==> str[a + m] != pat[m]
    decreases j + 1
  {
    if j < 0 then -1 else if str[a + j] == pat[j] then Mismatch(str, pat, a, j - 1) else j
  }

  function Max(a: int, b: int): int {
    if a > b then a else b
  }

  /** How far a mismatch of text byte `c` at `pat[m]` moves the pattern. */
  function Advance(pat: seq<byte>, c: byte, m: nat): (d: int)
    requires m < |pat|
    ensures 0 < d
    ensures GoodSuffixShift(pat, m) <= d
  {
    ShiftIsPositive(pat, m);
    Max(Delta1(pat, c), Delta2(pat, m)) - (|pat| - 1 - m)
  }

  /** The search once the pattern has been moved to start at `a`. */
  function SearchFrom(str: seq<byte>, pat: seq<byte>, a: nat): (r: Option<nat>)
    requires 0 < |pat|
    decreases |str| - a
  {
    if a + |pat| > |str| then None
    else
      var m := Mismatch(str, pat, a, |pat| - 1);
      if m < 0 then Some(a) else SearchFrom(str, pat, a + Advance(pat, str[a + m], m))
  }

  lemma SearchStep(str: seq<byte>, pat: seq<byte>, a: nat)
    requires 0 < |pat| && a + |pat| <= |str|
    ensures var m := Mismatch(str, pat, a, |pat| - 1);
      SearchFrom(str, pat, a) ==
      if m < 0 then Some(a) else SearchFrom(str, pat, a + Advance(pat, str[a + m], m))
  {
  }

  function Search(str: seq<byte>, pat: seq<byte>): Option<nat>
    requires 0 < |pat|
  {
    SearchFrom(str, pat, 0)
  }

  lemma SearchMeaning(str: seq<byte>, pat: seq<byte>, r: Option<nat>)
    requires 0 < |pat| && r == Search(str, pat)
    ensures r.Some? ==> MatchAt(str, pat, r.value)
    ensures BorderFree(pat) || Uniform(pat) ==> IsFirstMatch(str, pat, r)
  {
    SearchIsSound(str, pat, 0);
    if BorderFree(pat) || Uniform(pat) {
      HarmlessPatterns(pat);
      SafePatternFindsFirst(str, pat, 0);
    }
  }

  /** A mismatch at `str[i]`, `pat[j]`: the source moves `i`, the end of the next alignment. */
  lemma MismatchStep(str: seq<byte>, pat: seq<byte>, a: nat, i: nat, j: nat) returns (next: nat)
    requires 0 < |pat| && a + |pat| <= |str| && j < |pat| && i == a + j
    requires Mismatch(str, pat, a, |pat| - 1) == j
    ensures next == i + Max(Delta1(pat, str[i]), Delta2(pat, j)) + 1 - |pat|
    ensures a < next && SearchFrom(str, pat, a) == SearchFrom(str, pat, next)
  {
    next := a + Advance(pat, str[i], j);
    SearchStep(str, pat, a);
  }

  /** The inner loop: walk left from `end` while text and pattern agree. */
  method CompareBackwards(str: seq<byte>, pat: seq<byte>, end: nat) returns (i: int, j: int)
    requires 0 < |pat| <= end + 1 <= |str|
    ensures j == Mismatch(str, pat, end + 1 - |pat|, |pat| - 1)
    ensures i == end + 1 - |pat| + j
  {
    i, j := end, |pat| - 1;
    while j >= 0 && str[i] == pat[j]
      invariant -1 <= j < |pat| && i == end + 1 - |pat| + j
      invariant Mismatch(str, pat, end + 1 - |pat|, |pat| - 1) == Mismatch(str, pat, end + 1 - |pat|, j)
    {
      i := i - 1;
      j := j - 1;
    }
  }

  /** The search itself.  The source asks for a non-empty pattern: its test for the empty
      one comes after the tables were built from it. */
  method BmSearch(str: seq<byte>, pat: seq<byte>) returns (r: Option<nat>)
    requires 0 < |pat|
    ensures r == Search(str, pat)
    ensures r.Some? ==> MatchAt(str, pat, r.value)
    ensures BorderFree(pat) || Uniform(pat) ==> IsFirstMatch(str, pat, r)
  {
    r := None;
    var delta1 := new int[ALPHABET_LEN];
    var delta2 := new int[|pat|];
    MakeDelta1(delta1, pat);
    MakeDelta2(delta2, pat);
    var i := |pat| - 1;
    ghost var a := 0;
    while i < |str|
      invariant i == a + |pat| - 1
      invariant Search(str, pat) == SearchFrom(str, pat, a)
      invariant forall c: byte :: delta1[c] == Delta1(pat, c)
      invariant forall j :: 0 <= j < |pat| ==> delta2[j] == Delta2(pat, j)
      decreases |str| - i
    {
      var j;
      i, j := CompareBackwards(str, pat, i);
      if j < 0 {
        SearchStep(str, pat, a);
        r := Some(i + 1);
        break;
      }
      a := MismatchStep(str, pat, a, i, j);
      i := i + Max(delta1[str[i]], delta2[j]);
    }
    SearchMeaning(str, pat, r);
  }

  // ---------- Soundness, for every pattern ----------

  lemma {:induction false} SearchIsSound(str: seq<byte>, pat: seq<byte>, a: nat)
    requires 0 < |pat|
    ensures var r := SearchFrom(str, pat, a); r.Some? ==> a <= r.value && MatchAt(str, pat, r.value)
    decreases |str| - a
  {
    if a + |pat| <= |str| {
      var m := Mismatch(str, pat, a, |pat| - 1);
      if m >= 0 {
        SearchIsSound(str, pat, a + Advance(pat, str[a + m], m));
      }
    }
  }

  // ---------- Which patterns the tables never overshoot ----------

  /** No entry of the second table jumps past an alignment of a suffix with a prefix. */
  ghost predicate Safe(pat: seq<byte>) {
    forall j, s :: 0 <= j < s && Border(pat, s) ==> GoodSuffixShift(pat, j) <= s
  }

  /** Neither table skips a match when the pattern is safe. */
  lemma NoMatchIsSkipped(str: seq<byte>, pat: seq<byte>, a: nat, m: nat, b: int)
    requires Safe(pat) && a + |pat| <= |str| && m < |pat|
    requires forall k :: m < k < |pat| ==> str[a + k] == pat[k]
    requires str[a + m] != pat[m]
    requires a <= b && MatchAt(str, pat, b)
    ensures a + Advance(pat, str[a + m], m) <= b
  {
    BadCharShiftIsRightmost(pat, str[a + m], |pat| - 1);
    ShiftFromIsSmallest(pat, m, 1);
    var s := b - a;
    assert str[b + m] == pat[m];
    if s <= m {
      assert str[b + (m - s)] == pat[m - s];
      forall k | m < k < |pat| ensures pat[k - s] == pat[k] {
        assert str[b + (k - s)] == pat[k - s];
      }
      assert Reoccurs(pat, m, s);
    } else {
      ShiftIsPositive(pat, m);
      if s < |pat| {
        forall k | s <= k < |pat| ensures pat[k] == pat[k - s] {
          assert str[b + (k - s)] == pat[k - s];
        }
        assert Border(pat, s);
      }
    }
  }

  lemma {:induction false} SafePatternFindsFirst(str: seq<byte>, pat: seq<byte>, a: nat)
    requires 0 < |pat| && Safe(pat)
    requires forall k :: k < a ==> !MatchAt(str, pat, k)
    ensures IsFirstMatch(str, pat, SearchFrom(str, pat, a))
    decreases |str| - a
  {
    if a + |pat| <= |str| {
      var m := Mismatch(str, pat, a, |pat| - 1);
      if m >= 0 {
        var next := a + Advance(pat, str[a + m], m);
        forall k | k < next ensures !MatchAt(str, pat, k) {
          if a <= k && MatchAt(str, pat, k) {
            NoMatchIsSkipped(str, pat, a, m, k);
          }
        }
        SafePatternFindsFirst(str, pat, next);
      }
    }
  }

  /** The pattern at `s`, before it a copy of its beginning with one byte changed. */
  lemma TextWithSpoiltPrefix(pat: seq<byte>, j: nat, s: nat) returns (str: seq<byte>)
    requires j < s < |pat|
    ensures |str| == s + |pat| && MatchAt(str, pat, s)
    ensures forall i :: 0 <= i < s ==> (str[i] == pat[i] <==> i != j)
  {
    var other: byte := if pat[j] == 0 then 1 else 0;
    str := pat[..s][j := other] + pat;
  }

  /** A text that holds the pattern and in which an unsafe pattern is not found. */
  lemma UnsafePatternMisses(pat: seq<byte>) returns (str: seq<byte>, k: nat)
    requires 0 < |pat| && !Safe(pat)
    ensures MatchAt(str, pat, k) && Search(str, pat) == None
  {
    var j: int, s: int :| 0 <= j < s && Border(pat, s) && GoodSuffixShift(pat, j) > s;
    str := TextWithSpoiltPrefix(pat, j, s);
    k := s;
    forall i | s <= i < |pat| ensures str[i] == pat[i] {
      assert str[s + (i - s)] == pat[i - s];
    }
    assert Mismatch(str, pat, 0, |pat| - 1) == j;
    SearchStep(str, pat, 0);
  }

  /** The search returns the first match in every text exactly for the safe patterns. */
  lemma FindsFirstIffSafe(pat: seq<byte>)
    requires 0 < |pat|
    ensures (forall str :: IsFirstMatch(str, pat, Search(str, pat))) <==> Safe(pat)
  {
    if Safe(pat) {
      forall str ensures IsFirstMatch(str, pat, Search(str, pat)) {
        SafePatternFindsFirst(str, pat, 0);
      }
    } else {
      var str, k := UnsafePatternMisses(pat);
      assert !IsFirstMatch(str, pat, Search(str, pat));
    }
  }

  lemma UniformSuffixIsEqual(pat: seq<byte>, p: nat, k: nat)
    requires p + k <= |pat| && Uniform(pat)
    ensures StrncmpEqual(pat, p, k)
    decreases |pat| - k
  {
  }

  /** Patterns without a border, and patterns of one repeated byte, are safe. */
  lemma HarmlessPatterns(pat: seq<byte>)
    requires 0 < |pat|
    requires BorderFree(pat) || Uniform(pat)
    ensures Safe(pat)
  {
    forall j: int, s: int | 0 <= j < s && Border(pat, s) ensures GoodSuffixShift(pat, j) <= s {
      UniformSuffixIsEqual(pat, j, 0);
      ShiftFromIsSmallest(pat, j, 1);
    }
  }

  /** Without NUL bytes the table's `strncmp` test is the border test. */
  lemma StrncmpIsBorder(pat: seq<byte>, p: nat, k: nat)
    requires NulFree(pat) && 0 < p && p + k <= |pat|
    ensures StrncmpEqual(pat, p, k) <==> forall i :: p + k <= i < |pat| ==> pat[i] == pat[i - p]
    decreases |pat| - k
  {
    if p + k < |pat| {
      StrncmpIsBorder(pat, p, k + 1);
      if pat[p + k] == pat[k] {
        assert pat[p + k] == pat[p + k - p];
      }
    }
  }

  lemma LastPrefixOfSmallestBorder(pat: seq<byte>, p: nat, s: nat)
    requires NulFree(pat) && 0 < p <= s && Border(pat, s)
    requires forall u :: p <= u < s ==> !Border(pat, u)
    ensures LastPrefix(pat, p) == s + 1
    decreases s - p
  {
    StrncmpIsBorder(pat, p, 0);
    if p < s {
      assert !Border(pat, p);
      LastPrefixOfSmallestBorder(pat, p + 1, s);
    } else {
      forall i | p + 0 <= i < |pat| ensures pat[i] == pat[i - p] {}
    }
  }

  lemma AllEqualFrom(pat: seq<byte>, from: nat, k: nat)
    requires from <= k < |pat|
    requires forall i :: from < i < |pat| ==> pat[i] == pat[i - 1]
    ensures pat[k] == pat[from]
    decreases k
  {
    if from < k {
      AllEqualFrom(pat, from, k - 1);
    }
  }

  /** Every other pattern is unsafe, already at index 1. */
  lemma BorderedPatternIsUnsafe(pat: seq<byte>, s: nat)
    requires NulFree(pat) && !Uniform(pat)
    requires Border(pat, s) && forall u :: u < s ==> !Border(pat, u)
    ensures 1 < s && GoodSuffixShift(pat, 1) > s
  {
    if s == 1 {
      forall k | 0 <= k < |pat| ensures pat[k] == pat[0] { AllEqualFrom(pat, 0, k); }
    }
    if Reoccurs(pat, 1, 1) {
      AllEqualFrom(pat, 1, s);
      assert pat[s] == pat[s - s];
    }
    ShiftFromIsSmallest(pat, 1, 1);
    LastPrefixOfSmallestBorder(pat, 1, s);
  }

  /** Main theorem: on NUL-free patterns the search returns the first match of every text
      if and only if the pattern has no border or repeats a single byte. */
  lemma FindsFirstIffBorderFreeOrUniform(pat: seq<byte>)
    requires 0 < |pat| && NulFree(pat)
    ensures (forall str :: IsFirstMatch(str, pat, Search(str, pat))) <==> BorderFree(pat) || Uniform(pat)
  {
    FindsFirstIffSafe(pat);
    if BorderFree(pat) || Uniform(pat) {
      HarmlessPatterns(pat);
    } else {
      var bound :| Border(pat, bound);
      var s := SmallestBorder(pat, bound);
      BorderedPatternIsUnsafe(pat, s);
    }
  }

  lemma SmallestBorder(pat: seq<byte>, bound: nat) returns (s: nat)
    requires Border(pat, bound)
    ensures Border(pat, s) && forall u :: u < s ==> !Border(pat, u)
  {
    if u: nat :| u < bound && Border(pat, u) {
      s := SmallestBorder(pat, u);
    } else {
      s := bound;
    }
  }

  // ---------- The pattern the updater looks for ----------

  /** The bytes of `Time_Stamp": "`. */
  const MODEM_VER_STR: seq<byte> :=
    [84, 105, 109, 101, 95, 83, 116, 97, 109, 112, 34, 58, 32, 34]

  /** The updater always gets the first version stamp of the partition, if there is one. */
  lemma ModemVersionIsFound(modem: seq<byte>)
    ensures |MODEM_VER_STR| == 14
    ensures IsFirstMatch(modem, MODEM_VER_STR, Search(modem, MODEM_VER_STR))
  {
    forall s ensures !Border(MODEM_VER_STR, s) {
      var pat := MODEM_VER_STR;
      if 0 < s < |pat| {
        assert pat[s] != pat[s - s];
      }
    }
    HarmlessPatterns(MODEM_VER_STR);
    SafePatternFindsFirst(modem, MODEM_VER_STR, 0);
  }

  /** The smallest witness kind: `ABCAB` occurs in `ABDABCAB` and is not found. */
  lemma BorderedPatternIsMissed()
    ensures var pat: seq<byte>, str: seq<byte> := [65, 66, 67, 65, 66], [65, 66, 68, 65, 66, 67, 65, 66];
      MatchAt(str, pat, 3) && Search(str, pat) == None
  {
    var pat: seq<byte>, str: seq<byte> := [65, 66, 67, 65, 66], [65, 66, 68, 65, 66, 67, 65, 66];
    assert Mismatch(str, pat, 0, 4) == 2;
    assert !Reoccurs(pat, 2, 1) && !Reoccurs(pat, 2, 2);
    assert Border(pat, 3);
    LastPrefixOfSmallestBorder(pat, 3, 3);
    assert !StrncmpEqual(pat, 2, 0);
    assert GoodSuffixShift(pat, 2) == 4;
  }
}
