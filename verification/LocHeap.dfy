/** The pointer heap of gps/utils/LocHeap.cpp.

    `Tree` is the shape of a heap as a value; the functions `Pushed`, `Rest` and `Without`
    say what the three operations make of it, and the lemmas prove heap order, exact sizes,
    conservation of the stored objects, sorted draining and balance.  The classes hold the
    linked nodes of the source and are proved to follow those functions. */
module LocHeap {

  import opened Wrappers

  // ---------- Ranking ----------

  /** `LocRankable::ranks`: positive when the first argument outranks the second. */
  type Ranking<!T(!new)> = (T, T) -> int

  predicate OutRanks<T(!new)>(ranks: Ranking<T>, a: T, b: T) {
    ranks(a, b) > 0
  }

  /** What the heap needs of a ranking: outranking is a strict weak order. */
  ghost predicate StrictWeak<T(!new)>(ranks: Ranking<T>) {
    && (forall a, b :: OutRanks(ranks, a, b) ==> !OutRanks(ranks, b, a))
    && (forall a, b, c :: !OutRanks(ranks, a, b) && !OutRanks(ranks, b, c) ==> !OutRanks(ranks, a, c))
  }

  // ---------- Trees as values ----------

  datatype Tree<T> = Empty | Branch(data: T, size: int, left: Tree<T>, right: Tree<T>)

  function Single<T>(x: T): Tree<T> {
    Branch(x, 1, Empty, Empty)
  }

  ghost function Elements<T>(t: Tree<T>): multiset<T> {
    match t
    case Empty => multiset{}
    case Branch(d, _, l, r) => multiset{d} + Elements(l) + Elements(r)
  }

  /** How often `y` is stored. */
  ghost function Occurs<T>(t: Tree<T>, y: T): nat {
    match t
    case Empty => 0
    case Branch(d, _, l, r) => (if d == y then 1 else 0) + Occurs(l, y) + Occurs(r, y)
  }

  lemma {:induction false} OccursCounts<T>(t: Tree<T>, y: T)
    ensures Occurs(t, y) == Elements(t)[y]
  {
    if t.Branch? {
      OccursCounts(t.left, y);
      OccursCounts(t.right, y);
    }
  }

  /** Trees that differ by one occurrence of `x` differ by that as multisets. */
  lemma OneMore<T>(t: Tree<T>, x: T, more: Tree<T>)
    requires forall y :: Occurs(more, y) == Occurs(t, y) + if y == x then 1 else 0
    ensures Elements(more) == Elements(t) + multiset{x}
  {
    forall y ensures Elements(more)[y] == Elements(t)[y] + if y == x then 1 else 0 {
      OccursCounts(t, y);
      OccursCounts(more, y);
    }
    AddOne(Elements(t), x, Elements(more));
  }

  lemma AddOne<T>(s: multiset<T>, x: T, more: multiset<T>)
    requires forall y :: more[y] == s[y] + if y == x then 1 else 0
    ensures more == s + multiset{x}
  {
  }

  /** The top of `c`, if any, does not outrank `x`. */
  predicate TopAtMost<T(!new)>(ranks: Ranking<T>, c: Tree<T>, x: T) {
    c.Branch? ==> !OutRanks(ranks, c.data, x)
  }

  /** No node is outranked by a child of its own. */
  predicate Ordered<T(!new)>(ranks: Ranking<T>, t: Tree<T>) {
    t.Branch? ==>
      && TopAtMost(ranks, t.left, t.data) && TopAtMost(ranks, t.right, t.data)
      && Ordered(ranks, t.left) && Ordered(ranks, t.right)
  }

  function Count<T>(t: Tree<T>): nat {
    if t.Empty? then 0 else 1 + Count(t.left) + Count(t.right)
  }

  /** Every node records the number of nodes below and including itself. */
  predicate Sized<T>(t: Tree<T>) {
    t.Branch? ==> t.size == Count(t) && Sized(t.left) && Sized(t.right)
  }

  function Top<T>(t: Tree<T>): Option<T> {
    if t.Empty? then None else Some(t.data)
  }

  // ---------- What the operations make of a tree ----------

  function Pushed<T(!new)>(ranks: Ranking<T>, t: Tree<T>, x: T): Tree<T>
    requires t.Branch?
    decreases t, 1
  {
    if OutRanks(ranks, x, t.data) then Dropped(ranks, t, x, t.data) else Dropped(ranks, t, t.data, x)
  }

  /** `low` goes below the top, which becomes `top`. */
  function Dropped<T(!new)>(ranks: Ranking<T>, t: Tree<T>, top: T, low: T): Tree<T>
    requires t.Branch?
    decreases t, 0
  {
    if t.left.Empty? then Branch(top, t.size + 1, Single(low), t.right)
    else if t.right.Empty? then Branch(top, t.size + 1, t.left, Single(low))
    else if t.left.size <= t.right.size then Branch(top, t.size + 1, Pushed(ranks, t.left, low), t.right)
    else Branch(top, t.size + 1, t.left, Pushed(ranks, t.right, low))
  }

  /** A pop takes its replacement from the left subtree. */
  predicate PopsLeft<T(!new)>(ranks: Ranking<T>, t: Tree<T>)
    requires t.Branch?
  {
    t.left.Branch? && (t.right.Empty? || OutRanks(ranks, t.left.data, t.right.data))
  }

  /** What a pop leaves. */
  function Rest<T(!new)>(ranks: Ranking<T>, t: Tree<T>): Tree<T>
    requires t.Branch?
  {
    if PopsLeft(ranks, t) then Branch(t.left.data, t.size - 1, Rest(ranks, t.left), t.right)
    else if t.right.Branch? then Branch(t.right.data, t.size - 1, t.left, Rest(ranks, t.right))
    else Empty
  }

  /** What a removal leaves; `None` when it did not find the object. */
  function Without<T(==, !new)>(ranks: Ranking<T>, t: Tree<T>, x: T): Option<Tree<T>>
    requires t.Branch?
  {
    if t.data == x then Some(Rest(ranks, t))
    else if OutRanks(ranks, x, t.data) then None
    else
      var l := if t.left.Branch? then Without(ranks, t.left, x) else None;
      if l.Some? then Some(Branch(t.data, t.size - 1, l.value, t.right))
      else
        var r := if t.right.Branch? then Without(ranks, t.right, x) else None;
        if r.Some? then Some(Branch(t.data, t.size - 1, t.left, r.value)) else None
  }

  // ---------- Order ----------

  /** Nothing in an ordered tree outranks what its top does not outrank. */
  lemma {:induction false} TopBoundsAll<T(!new)>(ranks: Ranking<T>, t: Tree<T>, x: T)
    requires StrictWeak(ranks) && Ordered(ranks, t) && TopAtMost(ranks, t, x)
    ensures forall y :: y in Elements(t) ==> !OutRanks(ranks, y, x)
  {
    if t.Branch? {
      TopBoundsAll(ranks, t.left, x);
      TopBoundsAll(ranks, t.right, x);
    }
  }

  /** The top of an ordered heap is outranked by nothing stored. */
  lemma TopOutrankedByNone<T(!new)>(ranks: Ranking<T>, t: Tree<T>)
    requires StrictWeak(ranks) && Ordered(ranks, t) && t.Branch?
    ensures t.data in Elements(t)
    ensures forall y :: y in Elements(t) ==> !OutRanks(ranks, y, t.data)
  {
    assert !OutRanks(ranks, t.data, t.data);
    TopBoundsAll(ranks, t, t.data);
  }

  // ---------- Push ----------

  /** A push keeps the recorded sizes true, whatever the ranking does. */
  lemma {:induction false} PushKeepsSizes<T(!new)>(ranks: Ranking<T>, t: Tree<T>, x: T)
    requires t.Branch? && Sized(t)
    ensures var p := Pushed(ranks, t, x); p.Branch? && Sized(p) && Count(p) == Count(t) + 1
  {
    var low := if OutRanks(ranks, x, t.data) then t.data else x;
    assert Count(Single(low)) == 1;
    if t.left.Branch? && t.right.Branch? {
      if t.left.size <= t.right.size {
        PushKeepsSizes(ranks, t.left, low);
      } else {
        PushKeepsSizes(ranks, t.right, low);
      }
    }
  }

  lemma {:induction false} PushKeepsOrder<T(!new)>(ranks: Ranking<T>, t: Tree<T>, x: T)
    requires StrictWeak(ranks) && t.Branch? && Ordered(ranks, t)
    ensures var p := Pushed(ranks, t, x);
      p.Branch? && Ordered(ranks, p) && p.data == if OutRanks(ranks, x, t.data) then x else t.data
  {
    var low := if OutRanks(ranks, x, t.data) then t.data else x;
    if t.left.Branch? && t.right.Branch? {
      if t.left.size <= t.right.size {
        PushKeepsOrder(ranks, t.left, low);
      } else {
        PushKeepsOrder(ranks, t.right, low);
      }
    }
  }

  lemma {:induction false} PushAddsOne<T(!new)>(ranks: Ranking<T>, t: Tree<T>, x: T, y: T)
    requires t.Branch?
    ensures Occurs(Pushed(ranks, t, x), y) == Occurs(t, y) + if y == x then 1 else 0
  {
    var low := if OutRanks(ranks, x, t.data) then t.data else x;
    assert Occurs(Single(low), y) == if y == low then 1 else 0;
    if t.left.Branch? && t.right.Branch? {
      if t.left.size <= t.right.size {
        PushAddsOne(ranks, t.left, low, y);
      } else {
        PushAddsOne(ranks, t.right, low, y);
      }
    }
  }

  /** A push keeps order and sizes and adds exactly the pushed object. */
  lemma PushKeepsHeap<T(!new)>(ranks: Ranking<T>, t: Tree<T>, x: T)
    requires StrictWeak(ranks) && t.Branch? && Ordered(ranks, t) && Sized(t)
    ensures var p := Pushed(ranks, t, x);
      && p.Branch? && Ordered(ranks, p) && Sized(p) && Count(p) == Count(t) + 1
      && Elements(p) == Elements(t) + multiset{x}
  {
    PushKeepsSizes(ranks, t, x);
    PushKeepsOrder(ranks, t, x);
    forall y ensures Occurs(Pushed(ranks, t, x), y) == Occurs(t, y) + if y == x then 1 else 0 {
      PushAddsOne(ranks, t, x, y);
    }
    OneMore(t, x, Pushed(ranks, t, x));
  }

  // ---------- Pop ----------

  lemma {:induction false} PopKeepsOrder<T(!new)>(ranks: Ranking<T>, t: Tree<T>)
    requires StrictWeak(ranks) && t.Branch? && Ordered(ranks, t) && Sized(t)
    ensures var p := Rest(ranks, t);
      Ordered(ranks, p) && Sized(p) && Count(p) == Count(t) - 1 && TopAtMost(ranks, p, t.data)
  {
    if PopsLeft(ranks, t) {
      PopKeepsOrder(ranks, t.left);
    } else if t.right.Branch? {
      PopKeepsOrder(ranks, t.right);
    }
  }

  lemma {:induction false} PopTakesTop<T(!new)>(ranks: Ranking<T>, t: Tree<T>, y: T)
    requires t.Branch?
    ensures Occurs(t, y) == Occurs(Rest(ranks, t), y) + if y == t.data then 1 else 0
  {
    if PopsLeft(ranks, t) {
      PopTakesTop(ranks, t.left, y);
    } else if t.right.Branch? {
      PopTakesTop(ranks, t.right, y);
    }
  }

  /** A pop keeps order and sizes and takes out exactly the top object. */
  lemma PopKeepsHeap<T(!new)>(ranks: Ranking<T>, t: Tree<T>)
    requires StrictWeak(ranks) && t.Branch? && Ordered(ranks, t) && Sized(t)
    ensures var p := Rest(ranks, t);
      && Ordered(ranks, p) && Sized(p) && Count(p) == Count(t) - 1
      && Elements(t) == Elements(p) + multiset{t.data}
  {
    PopKeepsOrder(ranks, t);
    forall y ensures Occurs(t, y) == Occurs(Rest(ranks, t), y) + if y == t.data then 1 else 0 {
      PopTakesTop(ranks, t, y);
    }
    OneMore(Rest(ranks, t), t.data, t);
  }

  // ---------- Removal ----------

  /** Subtrees cut off by the rank test cannot hold the object. */
  lemma {:induction false} RemoveFindsStored<T(!new)>(ranks: Ranking<T>, t: Tree<T>, x: T)
    requires StrictWeak(ranks) && t.Branch? && Ordered(ranks, t)
    ensures Without(ranks, t, x).Some? <==> x in Elements(t)
  {
    if t.data != x {
      if OutRanks(ranks, x, t.data) {
        TopOutrankedByNone(ranks, t);
      } else {
        if t.left.Branch? { RemoveFindsStored(ranks, t.left, x); }
        if t.right.Branch? { RemoveFindsStored(ranks, t.right, x); }
      }
    }
  }

  lemma {:induction false} RemoveKeepsOrder<T(!new)>(ranks: Ranking<T>, t: Tree<T>, x: T)
    requires StrictWeak(ranks) && t.Branch? && Ordered(ranks, t) && Sized(t)
    ensures var w := Without(ranks, t, x);
      w.Some? ==>
        && Ordered(ranks, w.value) && Sized(w.value) && Count(w.value) == Count(t) - 1
        && TopAtMost(ranks, w.value, t.data)
  {
    if t.data == x {
      PopKeepsOrder(ranks, t);
    } else if !OutRanks(ranks, x, t.data) {
      if t.left.Branch? { RemoveKeepsOrder(ranks, t.left, x); }
      if t.right.Branch? { RemoveKeepsOrder(ranks, t.right, x); }
    }
  }

  lemma {:induction false} RemoveTakesOne<T(!new)>(ranks: Ranking<T>, t: Tree<T>, x: T, y: T)
    requires t.Branch?
    ensures var w := Without(ranks, t, x);
      w.Some? ==> Occurs(t, y) == Occurs(w.value, y) + if y == x then 1 else 0
  {
    if t.data == x {
      PopTakesTop(ranks, t, y);
    } else if !OutRanks(ranks, x, t.data) {
      if t.left.Branch? { RemoveTakesOne(ranks, t.left, x, y); }
      if t.right.Branch? { RemoveTakesOne(ranks, t.right, x, y); }
    }
  }

  /** Removal finds the object exactly when it is stored, and takes out nothing else. */
  lemma RemoveKeepsHeap<T(!new)>(ranks: Ranking<T>, t: Tree<T>, x: T)
    requires StrictWeak(ranks) && t.Branch? && Ordered(ranks, t) && Sized(t)
    ensures var w := Without(ranks, t, x);
      && (w.Some? <==> x in Elements(t))
      && (w.Some? ==>
            && Ordered(ranks, w.value) && Sized(w.value) && Count(w.value) == Count(t) - 1
            && Elements(t) == Elements(w.value) + multiset{x})
  {
    RemoveFindsStored(ranks, t, x);
    RemoveKeepsOrder(ranks, t, x);
    var w := Without(ranks, t, x);
    if w.Some? {
      forall y ensures Occurs(t, y) == Occurs(w.value, y) + if y == x then 1 else 0 {
        RemoveTakesOne(ranks, t, x, y);
      }
      OneMore(w.value, x, t);
    }
  }

  // ---------- The self-check ----------

  predicate CheckedTree<T(!new)>(ranks: Ranking<T>, t: Tree<T>)
    requires t.Branch?
  {
    && (t.left.Branch? ==> !OutRanks(ranks, t.left.data, t.data) && CheckedTree(ranks, t.left))
    && (t.right.Branch? ==> !OutRanks(ranks, t.right.data, t.data) && CheckedTree(ranks, t.right))
    && t.size - (if t.left.Branch? then t.left.size else 0) - (if t.right.Branch? then t.right.size else 0) == 1
  }

  /** The check passes exactly for ordered trees with true sizes. */
  lemma {:induction false} CheckIsExact<T(!new)>(ranks: Ranking<T>, t: Tree<T>)
    requires t.Branch?
    ensures CheckedTree(ranks, t) <==> Ordered(ranks, t) && Sized(t)
  {
    if t.left.Branch? { CheckIsExact(ranks, t.left); }
    if t.right.Branch? { CheckIsExact(ranks, t.right); }
    assert Sized(t.left) ==> Count(t.left) == if t.left.Branch? then t.left.size else 0;
    assert Sized(t.right) ==> Count(t.right) == if t.right.Branch? then t.right.size else 0;
    assert Count(t) == 1 + Count(t.left) + Count(t.right);
  }

  // ---------- Whole runs ----------

  datatype Op<T> = Push(x: T) | Pop | Remove(x: T)

  function Apply<T(==, !new)>(ranks: Ranking<T>, t: Tree<T>, op: Op<T>): Tree<T> {
    match op
    case Push(x) => if t.Empty? then Single(x) else Pushed(ranks, t, x)
    case Pop => if t.Empty? then Empty else Rest(ranks, t)
    case Remove(x) =>
      if t.Empty? then Empty
      else var w := Without(ranks, t, x); if w.Some? then w.value else t
  }

  function Run<T(==, !new)>(ranks: Ranking<T>, ops: seq<Op<T>>): Tree<T> {
    if ops == [] then Empty else Apply(ranks, Run(ranks, ops[..|ops| - 1]), ops[|ops| - 1])
  }

  /** Each operation keeps order and sizes, and the stored objects change by the one pushed
      or taken out. */
  lemma ApplyKeepsHeap<T(!new)>(ranks: Ranking<T>, t: Tree<T>, op: Op<T>)
    requires StrictWeak(ranks) && Ordered(ranks, t) && Sized(t)
    ensures Ordered(ranks, Apply(ranks, t, op)) && Sized(Apply(ranks, t, op))
    ensures op.Push? ==> Elements(Apply(ranks, t, op)) == Elements(t) + multiset{op.x}
    ensures op.Pop? && t.Branch? ==> Elements(t) == Elements(Apply(ranks, t, op)) + multiset{t.data}
    ensures op.Remove? && op.x in Elements(t) ==>
      Elements(t) == Elements(Apply(ranks, t, op)) + multiset{op.x}
    ensures op.Remove? && op.x !in Elements(t) ==> Apply(ranks, t, op) == t
  {
    if t.Branch? {
      match op
      case Push(x) => PushKeepsHeap(ranks, t, x);
      case Pop => PopKeepsHeap(ranks, t);
      case Remove(x) => RemoveKeepsHeap(ranks, t, x);
    }
  }

  /** Every heap a client can build passes the self-check. */
  lemma {:induction false} EveryReachableHeapIsChecked<T(!new)>(ranks: Ranking<T>, ops: seq<Op<T>>)
    requires StrictWeak(ranks)
    ensures var t := Run(ranks, ops);
      Ordered(ranks, t) && Sized(t) && (t.Branch? ==> CheckedTree(ranks, t))
  {
    if ops != [] {
      EveryReachableHeapIsChecked(ranks, ops[..|ops| - 1]);
      ApplyKeepsHeap(ranks, Run(ranks, ops[..|ops| - 1]), ops[|ops| - 1]);
    }
    var t := Run(ranks, ops);
    if t.Branch? { CheckIsExact(ranks, t); }
  }

  // ---------- Draining ----------

  /** The objects in the order repeated pops return them. */
  function Drain<T(!new)>(ranks: Ranking<T>, t: Tree<T>, n: nat): seq<T>
    decreases n
  {
    if n == 0 || t.Empty? then [] else [t.data] + Drain(ranks, Rest(ranks, t), n - 1)
  }

  lemma AfterPop<T(!new)>(ranks: Ranking<T>, t: Tree<T>) returns (rest: Tree<T>)
    requires StrictWeak(ranks) && t.Branch? && Ordered(ranks, t) && Sized(t)
    ensures rest == Rest(ranks, t) && Ordered(ranks, rest) && Sized(rest) && Count(rest) == Count(t) - 1
    ensures Elements(t) == Elements(rest) + multiset{t.data}
  {
    PopKeepsHeap(ranks, t);
    rest := Rest(ranks, t);
  }

  lemma {:induction false} DrainReturnsAll<T(!new)>(ranks: Ranking<T>, t: Tree<T>, n: nat)
    requires StrictWeak(ranks) && Ordered(ranks, t) && Sized(t) && n == Count(t)
    ensures multiset(Drain(ranks, t, n)) == Elements(t)
    decreases n
  {
    if t.Branch? {
      var rest := AfterPop(ranks, t);
      DrainReturnsAll(ranks, rest, n - 1);
      ConsAddsOne(t.data, Drain(ranks, rest, n - 1), Drain(ranks, t, n));
    } else {
      assert Drain(ranks, t, n) == [];
    }
  }

  lemma ConsAddsOne<T>(x: T, s: seq<T>, more: seq<T>)
    requires more == [x] + s
    ensures multiset(more) == multiset(s) + multiset{x}
  {
  }

  /** Popping until the heap is empty returns every object once, best rank first. */
  lemma DrainIsSorted<T(!new)>(ranks: Ranking<T>, t: Tree<T>, n: nat)
    requires StrictWeak(ranks) && Ordered(ranks, t) && Sized(t) && n == Count(t)
    ensures multiset(Drain(ranks, t, n)) == Elements(t)
    ensures var d := Drain(ranks, t, n);
      forall i, j :: 0 <= i < j < |d| ==> !OutRanks(ranks, d[j], d[i])
  {
    DrainReturnsAll(ranks, t, n);
    DrainDescends(ranks, t, n);
  }

  lemma {:induction false} DrainDescends<T(!new)>(ranks: Ranking<T>, t: Tree<T>, n: nat)
    requires StrictWeak(ranks) && Ordered(ranks, t) && Sized(t) && n == Count(t)
    ensures var d := Drain(ranks, t, n);
      forall i, j :: 0 <= i < j < |d| ==> !OutRanks(ranks, d[j], d[i])
    decreases n
  {
    if t.Branch? {
      var rest := AfterPop(ranks, t);
      DrainDescends(ranks, rest, n - 1);
      TopLeads(ranks, t, n);
      assert Drain(ranks, t, n)[1..] == Drain(ranks, rest, n - 1);
      BestFirst(ranks, Drain(ranks, t, n));
    } else {
      assert Drain(ranks, t, n) == [];
    }
  }

  lemma BestFirst<T(!new)>(ranks: Ranking<T>, d: seq<T>)
    requires d != [] && forall j :: 0 <= j < |d| ==> !OutRanks(ranks, d[j], d[0])
    requires forall i, j :: 0 <= i < j < |d[1..]| ==> !OutRanks(ranks, d[1..][j], d[1..][i])
    ensures forall i, j :: 0 <= i < j < |d| ==> !OutRanks(ranks, d[j], d[i])
  {
    forall i, j | 0 <= i < j < |d| ensures !OutRanks(ranks, d[j], d[i]) {
      if 0 < i {
        assert d[1..][i - 1] == d[i] && d[1..][j - 1] == d[j];
      }
    }
  }

  /** The top comes first: nothing drained outranks it. */
  lemma TopLeads<T(!new)>(ranks: Ranking<T>, t: Tree<T>, n: nat)
    requires StrictWeak(ranks) && Ordered(ranks, t) && Sized(t) && t.Branch? && n == Count(t)
    ensures var d := Drain(ranks, t, n); forall j :: 0 <= j < |d| ==> !OutRanks(ranks, d[j], t.data)
  {
    var d := Drain(ranks, t, n);
    DrainReturnsAll(ranks, t, n);
    TopOutrankedByNone(ranks, t);
    forall j | 0 <= j < |d| ensures d[j] in Elements(t) {
      assert d[j] in multiset(d);
    }
  }

  // ---------- Balance ----------

  /** Left subtrees are as large as right ones or larger by one, everywhere. */
  predicate Balanced<T>(t: Tree<T>) {
    t.Branch? ==>
      Balanced(t.left) && Balanced(t.right) && 0 <= Count(t.left) - Count(t.right) <= 1
  }

  lemma {:induction false} PushKeepsBalance<T(!new)>(ranks: Ranking<T>, t: Tree<T>, x: T)
    requires t.Branch? && Sized(t) && Balanced(t)
    ensures Balanced(Pushed(ranks, t, x))
  {
    var low := if OutRanks(ranks, x, t.data) then t.data else x;
    assert Count(Single(low)) == 1;
    if t.left.Branch? && t.right.Branch? {
      if t.left.size <= t.right.size {
        PushKeepsBalance(ranks, t.left, low);
        PushKeepsSizes(ranks, t.left, low);
      } else {
        PushKeepsBalance(ranks, t.right, low);
        PushKeepsSizes(ranks, t.right, low);
      }
    }
  }

  function Height<T>(t: Tree<T>): nat {
    if t.Empty? then 0
    else 1 + if Height(t.left) > Height(t.right) then Height(t.left) else Height(t.right)
  }

  function Pow2(n: nat): nat {
    if n == 0 then 1 else 2 * Pow2(n - 1)
  }

  /** In balanced trees the larger one is at least as high. */
  lemma {:induction false} HeightGrowsWithCount<T>(a: Tree<T>, b: Tree<T>)
    requires Balanced(a) && Balanced(b) && Count(a) <= Count(b)
    ensures Height(a) <= Height(b)
    decreases Count(b)
  {
    if a.Branch? {
      HeightGrowsWithCount(a.left, b.left);
      HeightGrowsWithCount(a.right, a.left);
    }
  }

  /** A balanced tree with a node at depth `Height - 1` holds at least `2^(Height - 1)` nodes. */
  lemma {:induction false} HeightIsLogarithmic<T>(t: Tree<T>)
    requires Balanced(t) && t.Branch?
    ensures Pow2(Height(t) - 1) <= Count(t)
  {
    if t.left.Branch? {
      HeightGrowsWithCount(t.right, t.left);
      HeightIsLogarithmic(t.left);
    }
  }

  function PushAll<T(!new)>(ranks: Ranking<T>, xs: seq<T>): Tree<T> {
    if xs == [] then Empty
    else
      var t := PushAll(ranks, xs[..|xs| - 1]);
      if t.Empty? then Single(xs[|xs| - 1]) else Pushed(ranks, t, xs[|xs| - 1])
  }

  /** A heap built by pushes alone is balanced, so its height is at most
      `floor(log2 n) + 1`, whatever the ranking does. */
  lemma {:induction false} PushedHeapsAreBalanced<T(!new)>(ranks: Ranking<T>, xs: seq<T>)
    ensures var t := PushAll(ranks, xs);
      Balanced(t) && Sized(t) && Count(t) == |xs| && (xs != [] ==> Pow2(Height(t) - 1) <= |xs|)
  {
    if xs != [] {
      PushedHeapsAreBalanced(ranks, xs[..|xs| - 1]);
      var t := PushAll(ranks, xs[..|xs| - 1]);
      if t.Branch? {
        PushKeepsBalance(ranks, t, xs[|xs| - 1]);
        PushKeepsSizes(ranks, t, xs[|xs| - 1]);
      }
      HeightIsLogarithmic(PushAll(ranks, xs));
    }
  }

  // ---------- The linked nodes ----------

  class LocHeapNode<T(==, !new)> {
    var mSize: int
    var mLeft: LocHeapNode?<T>
    var mRight: LocHeapNode?<T>
    var mData: T

    ghost var tree: Tree<T>
    ghost var Repr: set<LocHeapNode<T>>

    ghost predicate Valid()
      reads this, Repr
      ensures Valid() ==> this in Repr && tree.Branch? && tree.data == mData && tree.size == mSize
      decreases Repr
    {
      && this in Repr
      && (mLeft != null ==>
            mLeft in Repr && mLeft.Repr <= Repr && this !in mLeft.Repr && mLeft.Valid())
      && (mRight != null ==>
            mRight in Repr && mRight.Repr <= Repr && this !in mRight.Repr && mRight.Valid())
      && (mLeft != null && mRight != null ==> mLeft.Repr !! mRight.Repr)
      && tree == Branch(mData, mSize, if mLeft == null then Empty else mLeft.tree,
                                      if mRight == null then Empty else mRight.tree)
    }

    constructor (data: T)
      ensures Valid() && fresh(Repr) && Repr == {this} && tree == Single(data)
    {
      mSize, mLeft, mRight, mData := 1, null, null, data;
      tree, Repr := Single(data), {this};
    }

    /** The value this node and its children stand for. */
    ghost function View(): Tree<T>
      reads this, mLeft, mRight
    {
      Branch(mData, mSize, if mLeft == null then Empty else mLeft.tree,
                           if mRight == null then Empty else mRight.tree)
    }

    /** Exchanges the data of two nodes, be they a child and its parent. */
    method Swap(node: LocHeapNode<T>)
      modifies this`mData, node`mData
      ensures mData == old(node.mData) && node.mData == old(mData)
    {
      mData, node.mData := node.mData, mData;
    }

    /** Exchanges the data with a single node that is not in the tree yet. */
    method SwapWithNew(node: LocHeapNode<T>)
      requires Valid() && node.Valid() && node.Repr == {node} && node !in Repr
      modifies this, node
      ensures Valid() && Repr == old(Repr) && tree == old(tree).(data := old(node.mData))
      ensures node.Valid() && node.Repr == {node} && node.tree == old(node.tree).(data := old(mData))
    {
      Swap(node);
      tree, node.tree := tree.(data := mData), node.tree.(data := node.mData);
    }

    /** Drops `node` into the tree, swapping data on the way down. */
    method Push(ranks: Ranking<T>, node: LocHeapNode<T>)
      requires Valid() && node.Valid() && node.Repr == {node} && node !in Repr
      requires node.tree == Single(node.mData)
      modifies Repr, node
      ensures Valid() && Repr == old(Repr) + {node}
      ensures tree == Pushed(ranks, old(tree), old(node.mData))
      decreases Repr, 1
    {
      if OutRanks(ranks, node.mData, mData) {
        SwapWithNew(node);
      }
      PushBelow(ranks, node);
    }

    method PushBelow(ranks: Ranking<T>, node: LocHeapNode<T>)
      requires Valid() && node.Valid() && node.Repr == {node} && node !in Repr
      requires node.tree == Single(node.mData)
      modifies Repr, node
      ensures Valid() && Repr == old(Repr) + {node}
      ensures tree == Dropped(ranks, old(tree), old(mData), old(node.mData))
      decreases Repr, 0
    {
      if mLeft == null {
        mLeft := node;
      } else if mRight == null {
        mRight := node;
      } else if mLeft.mSize <= mRight.mSize {
        mLeft.Push(ranks, node);
      } else {
        mRight.Push(ranks, node);
      }
      mSize := mSize + 1;
      Repr := Repr + {node};
      tree := View();
    }

    /** Pops the top object.  `rest` is what the caller's reference to `top` becomes; the
        node taken out is a leaf, into which the popped object was swapped down. */
    static method Pop(ranks: Ranking<T>, top: LocHeapNode<T>)
      returns (popped: LocHeapNode<T>, rest: LocHeapNode?<T>)
      requires top.Valid()
      modifies top.Repr
      ensures Took(old(top.Repr), old(top.tree.data), Rest(ranks, old(top.tree)), popped, top, rest)
      decreases top.Repr, 1
    {
      if top.mLeft != null &&
         (top.mRight == null || OutRanks(ranks, top.mLeft.mData, top.mRight.mData)) {
        popped := top.PopLeft(ranks);
        rest := top;
      } else if top.mRight != null {
        popped := top.PopRight(ranks);
        rest := top;
      } else {
        top.mSize := top.mSize - 1;
        popped, rest := top, null;
      }
    }

    /** How `Pop` and `Remove` leave the nodes: `popped` holds `data` and has no children, and
        what `top` has become stands for `left` with all the other nodes, so that none of them
        is linked to `popped`. */
    static ghost predicate Took(repr: set<LocHeapNode<T>>, data: T, left: Tree<T>,
                                popped: LocHeapNode<T>, top: LocHeapNode<T>, rest: LocHeapNode?<T>)
      reads popped, repr, top
      requires top in repr
    {
      && popped in repr && popped.mData == data && popped.mLeft == null && popped.mRight == null
      && (rest == null ==> left == Empty)
      && (rest != null ==>
            rest == top && rest.Repr == repr - {popped} && rest.Valid() && rest.tree == left)
    }

    /** Loses a node to come and swaps data with the child it comes from; the child's
        subtree changes in its top alone. */
    method SwapWithChild(subTop: LocHeapNode<T>)
      requires Valid() && (subTop == mLeft || subTop == mRight)
      modifies this, subTop
      ensures Valid() && subTop.Valid() && subTop.Repr == old(subTop.Repr) && Repr == old(Repr)
      ensures mLeft == old(mLeft) && mRight == old(mRight) && mSize == old(mSize) - 1
      ensures mData == old(subTop.mData) && subTop.tree == old(subTop.tree).(data := old(mData))
      ensures mLeft != null && mLeft != subTop ==> mLeft.tree == old(mLeft.tree)
      ensures mRight != null && mRight != subTop ==> mRight.tree == old(mRight.tree)
    {
      mSize := mSize - 1;
      Swap(subTop);
      subTop.tree := subTop.tree.(data := subTop.mData);
      assert subTop.Valid();
      tree := View();
    }

    method PopLeft(ranks: Ranking<T>) returns (popped: LocHeapNode<T>)
      requires Valid() && PopsLeft(ranks, tree)
      modifies Repr
      ensures Took(old(Repr), old(mData), Rest(ranks, old(tree)), popped, this, this)
      decreases Repr, 0
    {
      SwapWithChild(mLeft);
      popped, mLeft := Pop(ranks, mLeft);
      Repr := Repr - {popped};
      tree := View();
    }

    method PopRight(ranks: Ranking<T>) returns (popped: LocHeapNode<T>)
      requires Valid() && mRight != null && !PopsLeft(ranks, tree)
      modifies Repr
      ensures Took(old(Repr), old(mData), Rest(ranks, old(tree)), popped, this, this)
      decreases Repr, 0
    {
      SwapWithChild(mRight);
      popped, mRight := Pop(ranks, mRight);
      Repr := Repr - {popped};
      tree := View();
    }

    /** Removes the node that holds `data`, if there is one. */
    static method Remove(ranks: Ranking<T>, top: LocHeapNode<T>, data: T)
      returns (removed: LocHeapNode?<T>, rest: LocHeapNode?<T>)
      requires top.Valid()
      modifies top.Repr
      ensures (removed == null) == Without(ranks, old(top.tree), data).None?
      ensures removed == null ==>
        rest == top && top.Valid() && top.Repr == old(top.Repr) && top.tree == old(top.tree)
      ensures removed != null ==>
        Took(old(top.Repr), data, Without(ranks, old(top.tree), data).value, removed, top, rest)
      decreases top.Repr, 1
    {
      removed, rest := null, top;
      if data == top.mData {
        removed, rest := Pop(ranks, top);
      } else if !OutRanks(ranks, data, top.mData) {
        removed := top.RemoveBelow(ranks, data);
      }
    }

    method RemoveBelow(ranks: Ranking<T>, data: T) returns (removed: LocHeapNode?<T>)
      requires Valid() && data != mData && !OutRanks(ranks, data, mData)
      modifies Repr
      ensures (removed == null) == Without(ranks, old(tree), data).None?
      ensures removed == null ==> Valid() && Repr == old(Repr) && tree == old(tree)
      ensures removed != null ==>
        Took(old(Repr), data, Without(ranks, old(tree), data).value, removed, this, this)
      decreases Repr, 0, 1
    {
      removed := null;
      if mLeft != null {
        removed := RemoveLeft(ranks, data);
      }
      if removed == null && mRight != null {
        removed := RemoveRight(ranks, data);
      }
      if removed != null {
        mSize := mSize - 1;
        tree := View();
      }
    }

    method RemoveLeft(ranks: Ranking<T>, data: T) returns (removed: LocHeapNode?<T>)
      requires Valid() && mLeft != null && tree.left.Branch?
      modifies Repr
      ensures Valid()
      ensures (removed == null) == Without(ranks, old(tree.left), data).None?
      ensures removed == null ==> tree == old(tree) && Repr == old(Repr)
      ensures removed != null ==>
        && removed in old(Repr) - {this} && Repr == old(Repr) - {removed}
        && removed.mData == data && removed.mLeft == null && removed.mRight == null
        && tree == old(tree).(left := Without(ranks, old(tree.left), data).value)
      decreases Repr, 0, 0
    {
      removed, mLeft := Remove(ranks, mLeft, data);
      if removed != null {
        Repr := Repr - {removed};
      }
      tree := View();
    }

    method RemoveRight(ranks: Ranking<T>, data: T) returns (removed: LocHeapNode?<T>)
      requires Valid() && mRight != null && tree.right.Branch?
      modifies Repr
      ensures Valid()
      ensures (removed == null) == Without(ranks, old(tree.right), data).None?
      ensures removed == null ==> tree == old(tree) && Repr == old(Repr)
      ensures removed != null ==>
        && removed in old(Repr) - {this} && Repr == old(Repr) - {removed}
        && removed.mData == data && removed.mLeft == null && removed.mRight == null
        && tree == old(tree).(right := Without(ranks, old(tree.right), data).value)
      decreases Repr, 0, 0
    {
      removed, mRight := Remove(ranks, mRight, data);
      if removed != null {
        Repr := Repr - {removed};
      }
      tree := View();
    }

    /** The self-check of the source, which reads the whole tree. */
    function CheckNodes(ranks: Ranking<T>): (ok: bool)
      requires Valid()
      reads Repr
      ensures ok == CheckedTree(ranks, tree)
      decreases Repr
    {
      if mLeft != null && (OutRanks(ranks, mLeft.mData, mData) || !mLeft.CheckNodes(ranks)) then false
      else if mRight != null && (OutRanks(ranks, mRight.mData, mData) || !mRight.CheckNodes(ranks)) then false
      else
        mSize - (if mLeft != null then mLeft.mSize else 0) - (if mRight != null then mRight.mSize else 0) == 1
    }
  }

  // ---------- The heap ----------

  class LocHeap<T(==, !new)> {
    const ranks: Ranking<T>
    var mTree: LocHeapNode?<T>

    ghost predicate Linked()
      reads this, mTree, Nodes()
    {
      mTree != null ==> mTree.Valid()
    }

    ghost function Nodes(): set<LocHeapNode<T>>
      reads this, mTree
    {
      if mTree == null then {} else mTree.Repr
    }

    ghost function Model(): Tree<T>
      reads this, mTree
    {
      if mTree == null then Empty else mTree.tree
    }

    ghost predicate Valid()
      reads this, mTree, Nodes()
    {
      Linked() && StrictWeak(ranks) && Ordered(ranks, Model()) && Sized(Model())
    }

    constructor (ranks: Ranking<T>)
      requires StrictWeak(ranks)
      ensures Valid() && this.ranks == ranks && Model() == Empty && Nodes() == {}
    {
      this.ranks, mTree := ranks, null;
    }

    method Push(data: T)
      requires Valid()
      modifies this, Nodes()
      ensures Valid() && fresh(Nodes() - old(Nodes()))
      ensures Model() == Apply(ranks, old(Model()), Op.Push(data))
      ensures Elements(Model()) == old(Elements(Model())) + multiset{data}
    {
      ApplyKeepsHeap(ranks, Model(), Op.Push(data));
      PushNode(data);
    }

    method PushNode(data: T)
      requires Linked()
      modifies this, Nodes()
      ensures Linked() && fresh(Nodes() - old(Nodes()))
      ensures Model() == Apply(ranks, old(Model()), Op.Push(data))
    {
      var heapNode := new LocHeapNode(data);
      if mTree == null {
        mTree := heapNode;
      } else {
        mTree.Push(ranks, heapNode);
      }
    }

    method PeekNode() returns (top: Option<T>)
      requires Linked()
      ensures top == Top(Model())
    {
      top := None;
      if mTree != null {
        top := Some(mTree.mData);
      }
    }

    /** The object no stored object outranks. */
    method Peek() returns (top: Option<T>)
      requires Valid()
      ensures top.None? <==> Elements(Model()) == multiset{}
      ensures top.Some? ==> Model().Branch? && top.value == Model().data
      ensures top.Some? ==> top.value in Elements(Model())
      ensures top.Some? ==> forall y :: y in Elements(Model()) ==> !OutRanks(ranks, y, top.value)
    {
      if mTree != null {
        TopOutrankedByNone(ranks, mTree.tree);
      }
      top := PeekNode();
    }

    /** Takes out an object that no stored object outranks. */
    method Pop() returns (top: Option<T>)
      requires Valid()
      modifies this, Nodes()
      ensures Valid() && Nodes() <= old(Nodes())
      ensures Model() == Apply(ranks, old(Model()), Op.Pop)
      ensures top.None? <==> old(Model()) == Empty
      ensures top.Some? ==>
        && old(Elements(Model())) == Elements(Model()) + multiset{top.value}
        && forall y :: y in old(Elements(Model())) ==> !OutRanks(ranks, y, top.value)
    {
      ApplyKeepsHeap(ranks, Model(), Op.Pop);
      if mTree != null {
        TopOutrankedByNone(ranks, Model());
      }
      top := PopNode();
    }

    method PopNode() returns (top: Option<T>)
      requires Linked()
      modifies this, Nodes()
      ensures Linked() && Nodes() <= old(Nodes())
      ensures Model() == Apply(ranks, old(Model()), Op.Pop)
      ensures top == Top(old(Model()))
    {
      top := None;
      if mTree != null {
        var heapNode, rest := LocHeapNode.Pop(ranks, mTree);
        mTree := rest;
        top := Some(heapNode.mData);
      }
    }

    /** Takes out the given object when it is stored, and nothing otherwise. */
    method Remove(data: T) returns (found: Option<T>)
      requires Valid()
      modifies this, Nodes()
      ensures Valid() && Nodes() <= old(Nodes())
      ensures Model() == Apply(ranks, old(Model()), Op.Remove(data))
      ensures found == if data in old(Elements(Model())) then Some(data) else None
      ensures found.Some? ==> old(Elements(Model())) == Elements(Model()) + multiset{data}
      ensures found.None? ==> Model() == old(Model())
    {
      ApplyKeepsHeap(ranks, Model(), Op.Remove(data));
      if mTree != null {
        RemoveFindsStored(ranks, Model(), data);
      }
      found := RemoveNode(data);
    }

    method RemoveNode(data: T) returns (found: Option<T>)
      requires Linked()
      modifies this, Nodes()
      ensures Linked() && Nodes() <= old(Nodes())
      ensures Model() == Apply(ranks, old(Model()), Op.Remove(data))
      ensures found == if old(Model()).Branch? && Without(ranks, old(Model()), data).Some? then Some(data) else None
    {
      found := None;
      if mTree != null {
        var heapNode, rest := LocHeapNode.Remove(ranks, mTree, data);
        mTree := rest;
        if heapNode != null {
          found := Some(heapNode.mData);
        }
      }
    }

    /** The self-check always passes. */
    method CheckTree() returns (ok: bool)
      requires Valid()
      ensures ok
    {
      ok := true;
      if mTree != null {
        CheckIsExact(ranks, mTree.tree);
        ok := mTree.CheckNodes(ranks);
      }
    }
  }
}
