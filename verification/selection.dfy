/** The two list algorithms of `apply_risk_filters` (bot/risk_manager.py), stated for any
    element type: Python's stable `sorted(..., reverse=True)` on a small integer key, and the
    greedy pass that keeps an element while a running total stays within a budget and a count
    stays below a limit. */
module Selection {

  /* ---------- stable descending sort ---------- */

  /** Highest key first. */
  predicate SortedBy<T>(s: seq<T>, key: T -> nat) {
    forall i, j :: 0 <= i < j < |s| ==> key(s[i]) >= key(s[j])
  }

  /** The elements of key `k`, in their order in `s`. */
  function WithKey<T>(s: seq<T>, key: T -> nat, k: nat): (r: seq<T>)
    ensures |r| <= |s|
  {
    if s == [] then []
    else (if key(s[0]) == k then [s[0]] else []) + WithKey(s[1..], key, k)
  }

  lemma WithKeyOfCons<T>(x: T, s: seq<T>, key: T -> nat, k: nat)
    ensures WithKey([x] + s, key, k) == (if key(x) == k then [x] else []) + WithKey(s, key, k)
  {
    assert ([x] + s)[1..] == s;
  }

  /** An element that outranks a sorted sequence can go in front of it. */
  lemma ConsSorted<T>(y: T, s: seq<T>, key: T -> nat)
    requires SortedBy(s, key)
    requires forall j :: 0 <= j < |s| ==> key(s[j]) <= key(y)
    ensures SortedBy([y] + s, key)
  {
    var r := [y] + s;
    forall i, j | 0 <= i < j < |r| ensures key(r[i]) >= key(r[j]) {
      assert r[j] == s[j - 1];
      if i > 0 {
        assert r[i] == s[i - 1];
      }
    }
  }

  lemma InsertFront<T>(x: T, s: seq<T>, key: T -> nat)
    requires SortedBy(s, key)
    requires s == [] || key(s[0]) <= key(x)
    ensures SortedBy([x] + s, key)
  {
    forall j | 0 <= j < |s| ensures key(s[j]) <= key(x) {
      assert j == 0 || key(s[0]) >= key(s[j]);
    }
    ConsSorted(x, s, key);
  }

  /** Places `x` in front of the first element whose key does not exceed its own, so that
      `x` stays ahead of the equal keys that followed it. */
  function Insert<T(==)>(x: T, s: seq<T>, key: T -> nat): (r: seq<T>)
    requires SortedBy(s, key)
    ensures |r| == |s| + 1
    ensures SortedBy(r, key)
    ensures multiset(r) == multiset(s) + multiset{x}
    ensures forall j :: 0 <= j < |r| ==> r[j] == x || r[j] in s
  {
    if s == [] || key(s[0]) <= key(x) then
      InsertFront(x, s, key);
      [x] + s
    else
      var tail := s[1..];
      SortedTail(s, key);
      var rest := Insert(x, tail, key);
      InsertBehind(x, s, rest, key);
      assert s == [s[0]] + tail;
      [s[0]] + rest
  }

  /** When `x` goes further in, the head of `s` stays in front and stays ahead. */
  lemma InsertBehind<T>(x: T, s: seq<T>, rest: seq<T>, key: T -> nat)
    requires s != [] && SortedBy(s, key) && key(s[0]) > key(x)
    requires SortedBy(rest, key)
    requires forall j :: 0 <= j < |rest| ==> rest[j] == x || rest[j] in s[1..]
    ensures SortedBy([s[0]] + rest, key)
    ensures forall j :: 0 <= j < |rest| + 1 ==> ([s[0]] + rest)[j] == x || ([s[0]] + rest)[j] in s
  {
    SortedTail(s, key);
    forall j | 0 <= j < |rest| ensures key(rest[j]) <= key(s[0]) {
      if rest[j] != x {
        var m :| 0 <= m < |s[1..]| && s[1..][m] == rest[j];
      }
    }
    ConsSorted(s[0], rest, key);
    forall j | 0 <= j < |rest| + 1 ensures ([s[0]] + rest)[j] == x || ([s[0]] + rest)[j] in s {
      if j > 0 {
        assert ([s[0]] + rest)[j] == rest[j - 1];
        assert rest[j - 1] == x || rest[j - 1] in s[1..];
      }
    }
  }

  /** Inserting keeps every key group in order, with `x` at the front of its own. */
  lemma {:induction false} InsertGroups<T>(x: T, s: seq<T>, key: T -> nat, k: nat)
    requires SortedBy(s, key)
    ensures WithKey(Insert(x, s, key), key, k) == (if key(x) == k then [x] else []) + WithKey(s, key, k)
    decreases |s|
  {
    if s == [] || key(s[0]) <= key(x) {
      WithKeyOfCons(x, s, key, k);
    } else {
      var rest := Insert(x, s[1..], key);
      InsertGroups(x, s[1..], key, k);
      ConsGroupStep(s[0], x, rest, s[1..], key, k);
      assert s == [s[0]] + s[1..];
    }
  }

  /** Putting `y` in front of both sides keeps `x` ahead of the rest of its group, when `y`
      outranks `x`. */
  lemma ConsGroupStep<T>(y: T, x: T, rest: seq<T>, tail: seq<T>, key: T -> nat, k: nat)
    requires key(y) > key(x)
    requires WithKey(rest, key, k) == (if key(x) == k then [x] else []) + WithKey(tail, key, k)
    ensures WithKey([y] + rest, key, k)
            == (if key(x) == k then [x] else []) + WithKey([y] + tail, key, k)
  {
    WithKeyOfCons(y, rest, key, k);
    WithKeyOfCons(y, tail, key, k);
    var g := WithKey(tail, key, k);
    if key(x) == k {
      assert WithKey([y] + rest, key, k) == [x] + g;
      assert WithKey([y] + tail, key, k) == g;
    } else if key(y) == k {
      assert WithKey([y] + rest, key, k) == [y] + g;
    } else {
      assert WithKey([y] + rest, key, k) == g;
    }
  }

  /** Insertion sort, stable, highest key first. */
  function SortBy<T(==)>(s: seq<T>, key: T -> nat): (r: seq<T>)
    ensures |r| == |s|
    ensures SortedBy(r, key)
    ensures multiset(r) == multiset(s)
  {
    if s == [] then []
    else
      assert s == [s[0]] + s[1..];
      Insert(s[0], SortBy(s[1..], key), key)
  }

  /** The sort is stable: each key group keeps its original order. */
  lemma {:induction false} SortByStable<T>(s: seq<T>, key: T -> nat, k: nat)
    ensures WithKey(SortBy(s, key), key, k) == WithKey(s, key, k)
    decreases |s|
  {
    if s != [] {
      SortByStable(s[1..], key, k);
      InsertGroups(s[0], SortBy(s[1..], key), key, k);
      assert s == [s[0]] + s[1..];
      WithKeyOfCons(s[0], s[1..], key, k);
    }
  }

  lemma WithKeyAbsent<T>(s: seq<T>, key: T -> nat, k: nat)
    requires forall j :: 0 <= j < |s| ==> key(s[j]) < k
    ensures WithKey(s, key, k) == []
  {
  }

  /** The four key groups of `s`, laid end to end. */
  function Groups<T>(s: seq<T>, key: T -> nat): seq<T> {
    WithKey(s, key, 3) + WithKey(s, key, 2) + WithKey(s, key, 1) + WithKey(s, key, 0)
  }

  /** An element that outranks everything after it heads the groups. */
  lemma GroupsOfCons<T>(x: T, rest: seq<T>, key: T -> nat)
    requires key(x) <= 3
    requires forall j :: 0 <= j < |rest| ==> key(rest[j]) <= key(x)
    ensures Groups([x] + rest, key) == [x] + Groups(rest, key)
  {
    var g3, g2, g1, g0 := WithKey(rest, key, 3), WithKey(rest, key, 2),
                          WithKey(rest, key, 1), WithKey(rest, key, 0);
    var s := [x] + rest;
    WithKeyOfCons(x, rest, key, 3);
    WithKeyOfCons(x, rest, key, 2);
    WithKeyOfCons(x, rest, key, 1);
    WithKeyOfCons(x, rest, key, 0);
    if key(x) < 3 { WithKeyAbsent(rest, key, 3); }
    if key(x) < 2 { WithKeyAbsent(rest, key, 2); }
    if key(x) < 1 { WithKeyAbsent(rest, key, 1); }
    GroupsShift(x, g3, g2, g1, g0, key(x),
                WithKey(s, key, 3), WithKey(s, key, 2), WithKey(s, key, 1), WithKey(s, key, 0));
  }

  /** The concatenation step of `GroupsOfCons`: `x` joins the group of its key, and the
      groups above it are empty. */
  lemma GroupsShift<T>(x: T, g3: seq<T>, g2: seq<T>, g1: seq<T>, g0: seq<T>, m: nat,
                       h3: seq<T>, h2: seq<T>, h1: seq<T>, h0: seq<T>)
    requires m <= 3
    requires h3 == (if m == 3 then [x] else []) + g3
    requires h2 == (if m == 2 then [x] else []) + g2
    requires h1 == (if m == 1 then [x] else []) + g1
    requires h0 == (if m == 0 then [x] else []) + g0
    requires m < 3 ==> g3 == []
    requires m < 2 ==> g2 == []
    requires m < 1 ==> g1 == []
    ensures h3 + h2 + h1 + h0 == [x] + (g3 + g2 + g1 + g0)
  {
    if m == 3 {
      assert h3 == [x] + g3 && h2 == g2 && h1 == g1 && h0 == g0;
      ConsAssoc(x, g3, g2);
      ConsAssoc(x, g3 + g2, g1);
      ConsAssoc(x, g3 + g2 + g1, g0);
    } else if m == 2 {
      assert h3 == [] && h2 == [x] + g2 && h1 == g1 && h0 == g0;
      assert h3 + h2 == h2;
      assert g3 + g2 == g2;
      ConsAssoc(x, g2, g1);
      ConsAssoc(x, g2 + g1, g0);
    } else if m == 1 {
      assert h3 == [] && h2 == [] && h1 == [x] + g1 && h0 == g0;
      assert h3 + h2 + h1 == h1;
      assert g3 + g2 + g1 == g1;
      ConsAssoc(x, g1, g0);
    } else {
      assert h3 == [] && h2 == [] && h1 == [] && h0 == [x] + g0;
      assert h3 + h2 + h1 + h0 == h0;
      assert g3 + g2 + g1 + g0 == g0;
    }
  }

  lemma ConsAssoc<T>(x: T, a: seq<T>, b: seq<T>)
    ensures ([x] + a) + b == [x] + (a + b)
  {
  }

  lemma SortedTail<T>(s: seq<T>, key: T -> nat)
    requires s != [] && SortedBy(s, key)
    ensures SortedBy(s[1..], key)
    ensures forall j :: 0 <= j < |s| - 1 ==> key(s[1..][j]) <= key(s[0])
  {
    forall j | 0 <= j < |s| - 1 ensures key(s[1..][j]) <= key(s[0]) {
      assert s[1..][j] == s[j + 1];
    }
    forall i, j | 0 <= i < j < |s| - 1 ensures key(s[1..][i]) >= key(s[1..][j]) {
      assert s[1..][i] == s[i + 1] && s[1..][j] == s[j + 1];
    }
  }

  /** With keys at most 3, a sorted sequence is its key groups laid end to end. */
  lemma {:induction false} SortedIsGroups<T>(s: seq<T>, key: T -> nat)
    requires SortedBy(s, key)
    requires forall x :: key(x) <= 3
    ensures s == Groups(s, key)
    decreases |s|
  {
    if s != [] {
      SortedTail(s, key);
      SortedIsGroups(s[1..], key);
      GroupsOfCons(s[0], s[1..], key);
      assert s == [s[0]] + s[1..];
    }
  }

  /** So the sort is fully determined: the key-3 group, then key 2, key 1 and key 0, each in
      its original order. */
  lemma SortByIsGrouping<T>(s: seq<T>, key: T -> nat)
    requires forall x :: key(x) <= 3
    ensures SortBy(s, key) == Groups(s, key)
  {
    var r := SortBy(s, key);
    SortedIsGroups(r, key);
    SortByStable(s, key, 3);
    SortByStable(s, key, 2);
    SortByStable(s, key, 1);
    SortByStable(s, key, 0);
  }

  /* ---------- subsequences ---------- */

  /** `a` is `b` with some elements left out, order kept. */
  ghost predicate IsSubsequence<T>(a: seq<T>, b: seq<T>) {
    exists picks: seq<nat> :: Picks(a, b, picks)
  }

  /** `picks` are increasing positions of `b` that spell `a`. */
  ghost predicate Picks<T>(a: seq<T>, b: seq<T>, picks: seq<nat>) {
    && |picks| == |a|
    && (forall i :: 0 <= i < |picks| ==> picks[i] < |b| && a[i] == b[picks[i]])
    && (forall i, j :: 0 <= i < j < |picks| ==> picks[i] < picks[j])
  }

  lemma EmptySubsequence<T>(b: seq<T>)
    ensures IsSubsequence([], b)
  {
    assert Picks([], b, []);
  }

  lemma SubsequenceCons<T>(x: T, a: seq<T>, b: seq<T>, keep: bool)
    requires IsSubsequence(a, b)
    ensures IsSubsequence(if keep then [x] + a else a, [x] + b)
  {
    var picks: seq<nat> :| Picks(a, b, picks);
    var shifted: seq<nat> := seq(|picks|, i requires 0 <= i < |picks| => picks[i] + 1);
    if keep {
      var p2: seq<nat> := [0] + shifted;
      assert forall i :: 1 <= i < |p2| ==> p2[i] == picks[i - 1] + 1;
      assert Picks([x] + a, [x] + b, p2);
    } else {
      assert Picks(a, [x] + b, shifted);
    }
  }

  /** Dropping the last pick leaves picks into the part of `b` before it. */
  lemma PicksPrefix<T>(a: seq<T>, b: seq<T>, picks: seq<nat>)
    requires Picks(a, b, picks) && a != []
    ensures var last := |a| - 1;
            picks[last] < |b| && Picks(a[..last], b[..picks[last]], picks[..last])
  {
    var last := |a| - 1;
    var p := picks[last];
    forall i | 0 <= i < last ensures picks[..last][i] < p && a[..last][i] == b[..p][picks[..last][i]] {
      assert picks[i] < picks[last];
    }
  }

  lemma {:induction false} PicksMultiset<T>(a: seq<T>, b: seq<T>, picks: seq<nat>)
    requires Picks(a, b, picks)
    ensures multiset(a) <= multiset(b)
    decreases |b|
  {
    if a != [] {
      var last := |a| - 1;
      var p := picks[last];
      var before := b[..p];
      PicksPrefix(a, b, picks);
      PicksMultiset(a[..last], before, picks[..last]);
      assert a == a[..last] + [a[last]];
      assert a[last] == b[p];
      assert b == before + [b[p]] + b[p + 1..];
      assert multiset(b) == multiset(before) + multiset{b[p]} + multiset(b[p + 1..]);
    }
  }

  /** What a subsequence keeps of its source: its elements, and any key order. */
  lemma SubsequenceFacts<T>(a: seq<T>, b: seq<T>, key: T -> nat)
    requires IsSubsequence(a, b)
    ensures multiset(a) <= multiset(b)
    ensures SortedBy(b, key) ==> SortedBy(a, key)
  {
    var picks: seq<nat> :| Picks(a, b, picks);
    PicksMultiset(a, b, picks);
  }

  /* ---------- greedy selection under a budget ---------- */

  function Sum<T>(s: seq<T>, cost: T -> real): real {
    if s == [] then 0.0 else cost(s[0]) + Sum(s[1..], cost)
  }

  lemma {:induction false} SumConcat<T>(a: seq<T>, b: seq<T>, cost: T -> real)
    ensures Sum(a + b, cost) == Sum(a, cost) + Sum(b, cost)
    decreases |a|
  {
    if a == [] {
      assert a + b == b;
    } else {
      assert (a + b)[1..] == a[1..] + b;
      SumConcat(a[1..], b, cost);
    }
  }

  /** Inserting adds exactly the inserted element's cost. */
  lemma {:induction false} InsertSum<T>(x: T, s: seq<T>, key: T -> nat, cost: T -> real)
    requires SortedBy(s, key)
    ensures Sum(Insert(x, s, key), cost) == cost(x) + Sum(s, cost)
    decreases |s|
  {
    if s == [] || key(s[0]) <= key(x) {
      assert ([x] + s)[1..] == s;
    } else {
      var rest := Insert(x, s[1..], key);
      InsertSum(x, s[1..], key, cost);
      assert ([s[0]] + rest)[1..] == rest;
    }
  }

  /** Sorting does not change the total cost. */
  lemma {:induction false} SortBySum<T>(s: seq<T>, key: T -> nat, cost: T -> real)
    ensures Sum(SortBy(s, key), cost) == Sum(s, cost)
    decreases |s|
  {
    if s != [] {
      SortBySum(s[1..], key, cost);
      InsertSum(s[0], SortBy(s[1..], key), key, cost);
    }
  }

  /** One pass over `s`: an element is kept when the running total plus its cost stays within
      `budget` and fewer than `slots` are kept so far (`count` were kept before `s`). */
  function Greedy<T>(s: seq<T>, cost: T -> real, budget: real, slots: int, total: real,
                     count: nat): (r: seq<T>)
    ensures |r| <= |s|
    decreases |s|
  {
    if s == [] then []
    else if total + cost(s[0]) <= budget && count < slots then
      [s[0]] + Greedy(s[1..], cost, budget, slots, total + cost(s[0]), count + 1)
    else
      Greedy(s[1..], cost, budget, slots, total, count)
  }

  /** The pass keeps a subsequence, fills at most the free slots, and ends within budget. */
  lemma {:induction false} GreedyBounds<T>(s: seq<T>, cost: T -> real, budget: real, slots: int,
                                           total: real, count: nat)
    ensures var r := Greedy(s, cost, budget, slots, total, count);
            && IsSubsequence(r, s)
            && (r == [] || count + |r| <= slots)
            && (r == [] || total + Sum(r, cost) <= budget)
    decreases |s|
  {
    if s == [] {
      EmptySubsequence<T>([]);
    } else {
      assert s == [s[0]] + s[1..];
      if total + cost(s[0]) <= budget && count < slots {
        var rest := Greedy(s[1..], cost, budget, slots, total + cost(s[0]), count + 1);
        GreedyBounds(s[1..], cost, budget, slots, total + cost(s[0]), count + 1);
        SubsequenceCons(s[0], rest, s[1..], true);
        assert ([s[0]] + rest)[1..] == rest;
      } else {
        GreedyBounds(s[1..], cost, budget, slots, total, count);
        SubsequenceCons(s[0], Greedy(s[1..], cost, budget, slots, total, count), s[1..], false);
      }
    }
  }

  /** The pass's state after a prefix decides the rest: selecting from `a + b` selects from
      `a`, then from `b` with the cost and the count of `a`'s choices used up. */
  lemma {:induction false} GreedyConcat<T>(a: seq<T>, b: seq<T>, cost: T -> real, budget: real,
                                           slots: int, total: real, count: nat)
    ensures var ra := Greedy(a, cost, budget, slots, total, count);
            Greedy(a + b, cost, budget, slots, total, count)
            == ra + Greedy(b, cost, budget, slots, total + Sum(ra, cost), count + |ra|)
    decreases |a|
  {
    if a == [] {
      assert a + b == b;
    } else {
      assert (a + b)[0] == a[0];
      assert (a + b)[1..] == a[1..] + b;
      var c := cost(a[0]);
      if total + c <= budget && count < slots {
        GreedyConcat(a[1..], b, cost, budget, slots, total + c, count + 1);
        var rest := Greedy(a[1..], cost, budget, slots, total + c, count + 1);
        assert ([a[0]] + rest)[1..] == rest;
      } else {
        GreedyConcat(a[1..], b, cost, budget, slots, total, count);
      }
    }
  }

  lemma {:induction false} SumNonNegative<T>(s: seq<T>, cost: T -> real)
    requires forall j :: 0 <= j < |s| ==> cost(s[j]) >= 0.0
    ensures Sum(s, cost) >= 0.0
    decreases |s|
  {
    if s != [] {
      assert forall j :: 0 <= j < |s| - 1 ==> s[1..][j] == s[j + 1];
      SumNonNegative(s[1..], cost);
    }
  }

  /** When no cost is negative, the slots suffice and the whole sequence fits the budget,
      nothing is dropped. */
  lemma {:induction false} GreedyKeepsAllThatFits<T>(s: seq<T>, cost: T -> real, budget: real,
                                                     slots: int, total: real, count: nat)
    requires forall j :: 0 <= j < |s| ==> cost(s[j]) >= 0.0
    requires count + |s| <= slots
    requires total + Sum(s, cost) <= budget
    ensures Greedy(s, cost, budget, slots, total, count) == s
    decreases |s|
  {
    if s != [] {
      var rest := s[1..];
      assert forall j :: 0 <= j < |rest| ==> rest[j] == s[j + 1];
      SumNonNegative(rest, cost);
      GreedyKeepsAllThatFits(rest, cost, budget, slots, total + cost(s[0]), count + 1);
      assert s == [s[0]] + rest;
    }
  }

  /** An element that fits the budget and a free slot is kept, and the pass goes on with
      its cost and slot taken. */
  lemma GreedyTakes<T>(x: T, s: seq<T>, cost: T -> real, budget: real, slots: int, total: real,
                       count: nat)
    requires total + cost(x) <= budget && count < slots
    ensures Greedy([x] + s, cost, budget, slots, total, count)
            == [x] + Greedy(s, cost, budget, slots, total + cost(x), count + 1)
  {
    assert ([x] + s)[1..] == s;
  }

  /** An element that does not fit is skipped and leaves the state untouched. */
  lemma GreedySkips<T>(x: T, s: seq<T>, cost: T -> real, budget: real, slots: int, total: real,
                       count: nat)
    requires total + cost(x) > budget || count >= slots
    ensures Greedy([x] + s, cost, budget, slots, total, count)
            == Greedy(s, cost, budget, slots, total, count)
  {
    assert ([x] + s)[1..] == s;
  }
}
