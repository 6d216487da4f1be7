/**
 * Ordering by integer keys compared lexicographically: the comparator chains
 * of the bot pickers ("cost descending, then index ascending") become a key
 * sequence per entry, and `Array.prototype.sort` with such a comparator becomes
 * a stable sort by key.
 */
module Ranking {
  import opened Wrappers

  /** `a` sorts before or together with `b`: the first differing component decides. */
  predicate LexLeq(a: seq<int>, b: seq<int>)
    decreases |a|
  {
    if a == [] then true
    else if b == [] then false
    else a[0] < b[0] || (a[0] == b[0] && LexLeq(a[1..], b[1..]))
  }

  lemma {:induction false} LexLeqReflexive(a: seq<int>)
    ensures LexLeq(a, a)
    decreases |a|
  {
    if a != [] {
      LexLeqReflexive(a[1..]);
    }
  }

  lemma {:induction false} LexLeqTotal(a: seq<int>, b: seq<int>)
    requires |a| == |b|
    ensures LexLeq(a, b) || LexLeq(b, a)
    decreases |a|
  {
    if a != [] && a[0] == b[0] {
      LexLeqTotal(a[1..], b[1..]);
    }
  }

  lemma {:induction false} LexLeqTransitive(a: seq<int>, b: seq<int>, c: seq<int>)
    requires LexLeq(a, b) && LexLeq(b, c)
    ensures LexLeq(a, c)
    decreases |a|
  {
    if a != [] && b != [] && c != [] && a[0] == b[0] && b[0] == c[0] {
      LexLeqTransitive(a[1..], b[1..], c[1..]);
    }
  }

  lemma {:induction false} LexLeqAntisymmetric(a: seq<int>, b: seq<int>)
    requires |a| == |b| && LexLeq(a, b) && LexLeq(b, a)
    ensures a == b
    decreases |a|
  {
    if a != [] {
      LexLeqAntisymmetric(a[1..], b[1..]);
      assert a == [a[0]] + a[1..] && b == [b[0]] + b[1..];
    }
  }

  /** With two-component keys, the order reads as "first component, then second". */
  lemma LexLeqPair(x0: int, x1: int, y0: int, y1: int)
    ensures LexLeq([x0, x1], [y0, y1]) <==> x0 < y0 || (x0 == y0 && x1 <= y1)
  {
    assert [x0, x1][1..] == [x1];
    assert [y0, y1][1..] == [y1];
    assert [x1][1..] == [] && [y1][1..] == [];
    assert LexLeq([x1], [y1]) <==> x1 < y1 || (x1 == y1 && LexLeq([], []));
    assert LexLeq([x0, x1], [y0, y1]) <==> x0 < y0 || (x0 == y0 && LexLeq([x1], [y1]));
  }

  /** With three-component keys. */
  lemma LexLeqTriple(x0: int, x1: int, x2: int, y0: int, y1: int, y2: int)
    ensures LexLeq([x0, x1, x2], [y0, y1, y2]) <==>
      x0 < y0 || (x0 == y0 && (x1 < y1 || (x1 == y1 && x2 <= y2)))
  {
    assert [x0, x1, x2][1..] == [x1, x2];
    assert [y0, y1, y2][1..] == [y1, y2];
    LexLeqPair(x1, x2, y1, y2);
  }

  /** An entry to be ordered: the comparator's key, and the entry itself. */
  datatype Ranked<T> = Ranked(key: seq<int>, value: T)

  predicate SortedByKey<T>(s: seq<Ranked<T>>)
  {
    forall i, j :: 0 <= i < j < |s| ==> LexLeq(s[i].key, s[j].key)
  }

  /** Insert `x` in front of the first entry it sorts before or together with. */
  function Insert<T>(x: Ranked<T>, s: seq<Ranked<T>>): (r: seq<Ranked<T>>)
    ensures |r| == |s| + 1
    decreases |s|
  {
    if s == [] then [x]
    else if LexLeq(x.key, s[0].key) then [x] + s
    else [s[0]] + Insert(x, s[1..])
  }

  /** Insertion sort by key: a stable sort, since an entry goes before the equal keys that follow it. */
  function SortByKey<T>(s: seq<Ranked<T>>): (r: seq<Ranked<T>>)
    ensures |r| == |s|
    decreases |s|
  {
    if s == [] then [] else Insert(s[0], SortByKey(s[1..]))
  }

  /** Keys of one length throughout: the comparators always compare full keys. */
  predicate UniformKeys<T>(s: seq<Ranked<T>>, width: nat)
  {
    forall i :: 0 <= i < |s| ==> |s[i].key| == width
  }

  lemma {:induction false} InsertPermutes<T>(x: Ranked<T>, s: seq<Ranked<T>>)
    ensures multiset(Insert(x, s)) == multiset(s) + multiset{x}
    decreases |s|
  {
    if s != [] && !LexLeq(x.key, s[0].key) {
      InsertPermutes(x, s[1..]);
      assert s == [s[0]] + s[1..];
    }
  }

  lemma {:induction false} SortPermutes<T>(s: seq<Ranked<T>>)
    ensures multiset(SortByKey(s)) == multiset(s)
    decreases |s|
  {
    if s != [] {
      SortPermutes(s[1..]);
      InsertPermutes(s[0], SortByKey(s[1..]));
      assert s == [s[0]] + s[1..];
    }
  }

  lemma {:induction false} InsertSorted<T>(x: Ranked<T>, s: seq<Ranked<T>>, width: nat)
    requires SortedByKey(s) && UniformKeys(s, width) && |x.key| == width
    ensures SortedByKey(Insert(x, s)) && UniformKeys(Insert(x, s), width)
    decreases |s|
  {
    InsertPermutes(x, s);
    var r := Insert(x, s);
    forall k | 0 <= k < |r| ensures |r[k].key| == width
    {
      assert r[k] in multiset(r);
    }
    if s != [] {
      if LexLeq(x.key, s[0].key) {
        forall i, j | 0 <= i < j < |r| ensures LexLeq(r[i].key, r[j].key)
        {
          if i == 0 {
            if j > 1 {
              LexLeqTransitive(x.key, s[0].key, s[j - 1].key);
            }
          }
        }
      } else {
        var rest := Insert(x, s[1..]);
        InsertSorted(x, s[1..], width);
        InsertPermutes(x, s[1..]);
        LexLeqTotal(x.key, s[0].key);
        forall k | 0 <= k < |rest| ensures LexLeq(s[0].key, rest[k].key)
        {
          assert rest[k] in multiset(s[1..]) + multiset{x};
          if rest[k] != x {
            assert rest[k] in multiset(s[1..]);
            var m :| 0 <= m < |s[1..]| && s[1..][m] == rest[k];
            assert s[m + 1] == rest[k];
          }
        }
        forall i, j | 0 <= i < j < |r| ensures LexLeq(r[i].key, r[j].key)
        {
          if i == 0 {
            assert r[j] == rest[j - 1];
          } else {
            assert r[i] == rest[i - 1] && r[j] == rest[j - 1];
          }
        }
      }
    }
  }

  lemma {:induction false} SortSorted<T>(s: seq<Ranked<T>>, width: nat)
    requires UniformKeys(s, width)
    ensures SortedByKey(SortByKey(s)) && UniformKeys(SortByKey(s), width)
    decreases |s|
  {
    if s != [] {
      assert UniformKeys(s[1..], width) by {
        forall i | 0 <= i < |s[1..]| ensures |s[1..][i].key| == width
        {
          assert s[1..][i] == s[i + 1];
        }
      }
      SortSorted(s[1..], width);
      InsertSorted(s[0], SortByKey(s[1..]), width);
    }
  }

  /**
   * The sorted sequence is a permutation of the input in key order, and its
   * first entry sorts before or together with every input entry.
   */
  lemma SortByKeyCorrect<T>(s: seq<Ranked<T>>, width: nat)
    requires UniformKeys(s, width)
    ensures SortedByKey(SortByKey(s)) && multiset(SortByKey(s)) == multiset(s)
    ensures s != [] ==> SortByKey(s)[0] in s
                        && forall x :: x in s ==> LexLeq(SortByKey(s)[0].key, x.key)
  {
    SortSorted(s, width);
    SortPermutes(s);
    var r := SortByKey(s);
    if s != [] {
      assert r[0] in multiset(s);
      forall x | x in s ensures LexLeq(r[0].key, x.key)
      {
        assert x in multiset(r);
        var k :| 0 <= k < |r| && r[k] == x;
        if k == 0 {
          LexLeqReflexive(x.key);
        }
      }
    }
  }

  /** The values of the entries, in order. */
  function Values<T>(s: seq<Ranked<T>>): (vs: seq<T>)
    ensures |vs| == |s|
    ensures forall i :: 0 <= i < |s| ==> vs[i] == s[i].value
    decreases |s|
  {
    if s == [] then [] else [s[0].value] + Values(s[1..])
  }
  /** An index into two value lists laid end to end. */
  lemma ValuesConcatAt<T>(a: seq<Ranked<T>>, b: seq<Ranked<T>>, k: nat)
    requires k < |a| + |b|
    ensures |Values(a) + Values(b)| == |a| + |b|
    ensures (Values(a) + Values(b))[k] == if k < |a| then a[k].value else b[k - |a|].value
  {
  }


  /** An element of a list together with its position there (`.map((card, index) => ({ card, index }))`). */
  datatype Entry<T> = Entry(item: T, index: nat)

  /**
   * The entries from position `start` on that `keep` accepts, in list order,
   * each keyed by `key`: the source's `map`-with-index followed by `filter`.
   */
  function RankFrom<T>(xs: seq<T>, keep: T -> bool, key: (T, nat) -> seq<int>, start: nat): (r: seq<Ranked<Entry<T>>>)
    requires start <= |xs|
    ensures forall k :: 0 <= k < |r| ==>
      start <= r[k].value.index < |xs| && r[k].value.item == xs[r[k].value.index] && keep(r[k].value.item)
      && r[k].key == key(r[k].value.item, r[k].value.index)
    ensures forall k, m :: 0 <= k < m < |r| ==> r[k].value.index < r[m].value.index
    decreases |xs| - start
  {
    if start == |xs| then []
    else
      var rest := RankFrom(xs, keep, key, start + 1);
      if keep(xs[start]) then
        var r := [Ranked(key(xs[start], start), Entry(xs[start], start))] + rest;
        assert forall k :: 1 <= k < |r| ==> r[k] == rest[k - 1];
        r
      else rest
  }

  function Rank<T>(xs: seq<T>, keep: T -> bool, key: (T, nat) -> seq<int>): seq<Ranked<Entry<T>>>
  {
    RankFrom(xs, keep, key, 0)
  }

  /** Every accepted element from `start` on is an entry. */
  lemma {:induction false} RankFromComplete<T>(xs: seq<T>, keep: T -> bool, key: (T, nat) -> seq<int>, start: nat, i: nat)
    requires start <= i < |xs| && keep(xs[i])
    ensures Ranked(key(xs[i], i), Entry(xs[i], i)) in RankFrom(xs, keep, key, start)
    decreases i - start
  {
    var r := RankFrom(xs, keep, key, start);
    var rest := RankFrom(xs, keep, key, start + 1);
    if i == start {
      assert r == [Ranked(key(xs[i], i), Entry(xs[i], i))] + rest;
    } else {
      RankFromComplete(xs, keep, key, start + 1, i);
      if keep(xs[start]) {
        assert r == [Ranked(key(xs[start], start), Entry(xs[start], start))] + rest;
      } else {
        assert r == rest;
      }
    }
  }

  /** An entry is in the ranking exactly when its element is accepted. */
  lemma RankMembers<T>(xs: seq<T>, keep: T -> bool, key: (T, nat) -> seq<int>, i: nat)
    requires i < |xs|
    ensures Ranked(key(xs[i], i), Entry(xs[i], i)) in Rank(xs, keep, key) <==> keep(xs[i])
  {
    if keep(xs[i]) {
      RankFromComplete(xs, keep, key, 0, i);
    }
  }

  /** The ranking is empty exactly when no element is accepted. */
  lemma RankEmpty<T>(xs: seq<T>, keep: T -> bool, key: (T, nat) -> seq<int>)
    ensures Rank(xs, keep, key) == [] <==> forall i :: 0 <= i < |xs| ==> !keep(xs[i])
  {
    forall i | 0 <= i < |xs| && keep(xs[i])
      ensures Rank(xs, keep, key) != []
    {
      RankMembers(xs, keep, key, i);
    }
    var r := Rank(xs, keep, key);
    if r != [] {
      assert keep(xs[r[0].value.index]);
    }
  }

  /** Keys of one width for every element of `xs` at its position. */
  predicate KeyWidth<T>(xs: seq<T>, key: (T, nat) -> seq<int>, width: nat)
  {
    forall i :: 0 <= i < |xs| ==> |key(xs[i], i)| == width
  }

  lemma RankUniform<T>(xs: seq<T>, keep: T -> bool, key: (T, nat) -> seq<int>, width: nat)
    requires KeyWidth(xs, key, width)
    ensures UniformKeys(Rank(xs, keep, key), width)
  {
  }

  /**
   * The first entry after sorting (what `sort(...)[0]` picks) is an accepted
   * element whose key sorts before or together with every accepted element's.
   */
  lemma RankFirst<T>(xs: seq<T>, keep: T -> bool, key: (T, nat) -> seq<int>, width: nat)
    requires KeyWidth(xs, key, width)
    requires Rank(xs, keep, key) != []
    ensures var e := SortByKey(Rank(xs, keep, key))[0];
            e.value.index < |xs| && e.value.item == xs[e.value.index] && keep(e.value.item)
            && e.key == key(e.value.item, e.value.index)
            && forall i :: 0 <= i < |xs| && keep(xs[i]) ==> LexLeq(e.key, key(xs[i], i))
  {
    var r := Rank(xs, keep, key);
    RankUniform(xs, keep, key, width);
    SortByKeyCorrect(r, width);
    forall i | 0 <= i < |xs| && keep(xs[i])
      ensures LexLeq(SortByKey(r)[0].key, key(xs[i], i))
    {
      RankMembers(xs, keep, key, i);
    }
  }

  /** Every entry of the sorted ranking is an accepted element of `xs`, with its own key. */
  lemma RankKept<T>(xs: seq<T>, keep: T -> bool, key: (T, nat) -> seq<int>, width: nat, r: seq<Ranked<Entry<T>>>)
    requires KeyWidth(xs, key, width)
    requires r == SortByKey(Rank(xs, keep, key))
    ensures forall k :: 0 <= k < |r| ==>
              r[k].value.index < |xs| && r[k].value.item == xs[r[k].value.index] && keep(r[k].value.item)
              && r[k].key == key(r[k].value.item, r[k].value.index)
  {
    RankSorted(xs, keep, key, width, r);
  }

  /** Every accepted element of `xs` appears in the sorted ranking, with its own key. */
  lemma RankHas<T>(xs: seq<T>, keep: T -> bool, key: (T, nat) -> seq<int>, width: nat, r: seq<Ranked<Entry<T>>>)
    requires KeyWidth(xs, key, width)
    requires r == SortByKey(Rank(xs, keep, key))
    ensures forall i :: 0 <= i < |xs| && keep(xs[i]) ==> Ranked(key(xs[i], i), Entry(xs[i], i)) in r
  {
    RankSorted(xs, keep, key, width, r);
  }

  /** Two positions of the sorted ranking, in order: their keys are in order and are their elements' keys. */
  lemma RankPair<T>(xs: seq<T>, keep: T -> bool, key: (T, nat) -> seq<int>, width: nat, r: seq<Ranked<Entry<T>>>,
                    k: nat, m: nat)
    requires KeyWidth(xs, key, width)
    requires r == SortByKey(Rank(xs, keep, key))
    requires k < m < |r|
    ensures LexLeq(r[k].key, r[m].key)
            && r[k].key == key(r[k].value.item, r[k].value.index)
            && r[m].key == key(r[m].value.item, r[m].value.index)
  {
    RankSorted(xs, keep, key, width, r);
  }

  /**
   * The entries of the sorted ranking are exactly the accepted elements, in
   * key order: what `sort(...).slice(0, n)` keeps sorts before or together with
   * what it leaves.
   */
  lemma RankSorted<T>(xs: seq<T>, keep: T -> bool, key: (T, nat) -> seq<int>, width: nat, r: seq<Ranked<Entry<T>>>)
    requires KeyWidth(xs, key, width)
    requires r == SortByKey(Rank(xs, keep, key))
    ensures SortedByKey(r)
            && (forall k :: 0 <= k < |r| ==>
                  r[k].value.index < |xs| && r[k].value.item == xs[r[k].value.index] && keep(r[k].value.item)
                  && r[k].key == key(r[k].value.item, r[k].value.index))
            && (forall i :: 0 <= i < |xs| && keep(xs[i]) ==> Ranked(key(xs[i], i), Entry(xs[i], i)) in r)
  {
    var q := Rank(xs, keep, key);
    RankUniform(xs, keep, key, width);
    SortByKeyCorrect(q, width);
    forall k | 0 <= k < |r|
      ensures r[k].value.index < |xs| && r[k].value.item == xs[r[k].value.index] && keep(r[k].value.item)
              && r[k].key == key(r[k].value.item, r[k].value.index)
    {
      assert r[k] in multiset(q);
    }
    forall i | 0 <= i < |xs| && keep(xs[i])
      ensures Ranked(key(xs[i], i), Entry(xs[i], i)) in r
    {
      RankMembers(xs, keep, key, i);
      assert Ranked(key(xs[i], i), Entry(xs[i], i)) in multiset(q);
    }
  }

  /** The first entry of the sorted ranking, if any: `sort(...)[0]` after a `filter`. */
  function Best<T>(xs: seq<T>, keep: T -> bool, key: (T, nat) -> seq<int>): Option<Entry<T>>
  {
    var r := SortByKey(Rank(xs, keep, key));
    if r == [] then None else Some(r[0].value)
  }

  /**
   * There is a best entry exactly when some element is accepted, and it is an
   * accepted element whose key sorts before or together with every accepted one's.
   */
  lemma BestCorrect<T>(xs: seq<T>, keep: T -> bool, key: (T, nat) -> seq<int>, width: nat)
    requires KeyWidth(xs, key, width)
    ensures Best(xs, keep, key).None? <==> forall i :: 0 <= i < |xs| ==> !keep(xs[i])
    ensures Best(xs, keep, key).Some? ==>
      var e := Best(xs, keep, key).value;
      e.index < |xs| && e.item == xs[e.index] && keep(e.item)
      && forall i :: 0 <= i < |xs| && keep(xs[i]) ==> LexLeq(key(e.item, e.index), key(xs[i], i))
  {
    RankEmpty(xs, keep, key);
    if Rank(xs, keep, key) != [] {
      RankFirst(xs, keep, key, width);
    }
  }
}
