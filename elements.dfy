/// The values the merge moves around (C++ `int`s) and the sequence helpers
/// the rest of the model is stated with.
module Elements {

  /** A C++ `int`: the element type of every partition and output vector. */
  newtype Int32 = x: int | -0x8000_0000 <= x < 0x8000_0000

  /** `std::numeric_limits<int>::max()`, the sentinel an exhausted worker posts. */
  const IntMax: Int32 := 0x7fff_ffff

  predicate Sorted(s: seq<Int32>) {
    forall a, b :: 0 <= a < b < |s| ==> s[a] <= s[b]
  }

  /** Appending a value no smaller than anything before keeps a sequence sorted. */
  lemma SortedAppend(s: seq<Int32>, x: Int32)
    requires Sorted(s) && forall y :: y in s ==> y <= x
    ensures Sorted(s + [x])
  {
    forall a, b | 0 <= a < b < |s| + 1 ensures (s + [x])[a] <= (s + [x])[b] {
      assert (s + [x])[a] == s[a] && s[a] in s;
    }
  }

  /** Dropping the head keeps a sequence sorted, and the head is at most every remaining element. */
  lemma SortedTail(s: seq<Int32>)
    requires Sorted(s) && s != []
    ensures Sorted(s[1..]) && forall y :: y in s[1..] ==> s[0] <= y
  {
    assert forall a :: 0 <= a < |s| - 1 ==> s[1..][a] == s[a + 1];
  }

  /** The number of `true` entries of `b`. */
  function CountTrue(b: seq<bool>): (n: nat)
    ensures n <= |b|
  {
    if b == [] then 0 else CountTrue(b[..|b| - 1]) + (if b[|b| - 1] then 1 else 0)
  }

  /** No entry is `true` exactly when the count is zero. */
  lemma {:induction false} CountTrueZero(b: seq<bool>)
    ensures CountTrue(b) == 0 <==> forall i :: 0 <= i < |b| ==> !b[i]
  {
    if b != [] {
      var m := |b| - 1;
      CountTrueZero(b[..m]);
      assert forall i :: 0 <= i < m ==> b[..m][i] == b[i];
    }
  }

  /** Every entry is `true` exactly when the count is the length. */
  lemma {:induction false} CountTrueFull(b: seq<bool>)
    ensures CountTrue(b) == |b| <==> forall i :: 0 <= i < |b| ==> b[i]
  {
    if b != [] {
      var m := |b| - 1;
      CountTrueFull(b[..m]);
      assert forall i :: 0 <= i < m ==> b[..m][i] == b[i];
    }
  }

  /** Counting the last entry of a prefix on its own. */
  lemma CountTrueStep(b: seq<bool>, i: nat)
    requires i < |b|
    ensures CountTrue(b[..i + 1]) == CountTrue(b[..i]) + (if b[i] then 1 else 0)
  {
    assert b[..i + 1][..i] == b[..i];
  }

  /** A prefix has no more `true` entries than the whole. */
  lemma {:induction false} CountTruePrefix(b: seq<bool>, i: nat)
    requires i <= |b|
    ensures CountTrue(b[..i]) <= CountTrue(b)
  {
    if i < |b| {
      var m := |b| - 1;
      assert b[..m][..i] == b[..i];
      CountTruePrefix(b[..m], i);
    } else {
      assert b[..i] == b;
    }
  }

  /** When `all` is the disjoint union of `x` and `y`, the counts add up. */
  lemma {:induction false} CountTrueSplit(all: seq<bool>, x: seq<bool>, y: seq<bool>)
    requires |x| == |all| && |y| == |all|
    requires forall i :: 0 <= i < |all| ==> (all[i] <==> x[i] || y[i]) && !(x[i] && y[i])
    ensures CountTrue(all) == CountTrue(x) + CountTrue(y)
  {
    if all != [] {
      var m := |all| - 1;
      CountTrueSplit(all[..m], x[..m], y[..m]);
    }
  }

  /** The concatenation of a sequence of vectors, in order. */
  function Flatten(o: seq<seq<Int32>>): seq<Int32> {
    if o == [] then [] else o[0] + Flatten(o[1..])
  }

  /** The multiset union of a sequence of vectors. */
  function Bag(o: seq<seq<Int32>>): multiset<Int32> {
    if o == [] then multiset{} else multiset(o[0]) + Bag(o[1..])
  }

  lemma {:induction false} FlattenEmpty(o: seq<seq<Int32>>)
    requires forall j :: 0 <= j < |o| ==> o[j] == []
    ensures Flatten(o) == []
  {
    if o != [] {
      FlattenEmpty(o[1..]);
    }
  }

  /** Appending to the last non-empty vector appends to the concatenation. */
  lemma {:induction false} FlattenAppend(o: seq<seq<Int32>>, i: nat, x: Int32)
    requires i < |o|
    requires forall j :: i < j < |o| ==> o[j] == []
    ensures Flatten(o[i := o[i] + [x]]) == Flatten(o) + [x]
  {
    if i == 0 {
      FlattenEmpty(o[1..]);
      assert o[0 := o[0] + [x]][1..] == o[1..];
    } else {
      FlattenAppend(o[1..], i - 1, x);
      assert o[i := o[i] + [x]][1..] == o[1..][i - 1 := o[i] + [x]];
    }
  }

  /** `FlattenAppend`, with the updated sequence given entry by entry. */
  lemma FlattenAppendAt(o: seq<seq<Int32>>, o2: seq<seq<Int32>>, i: nat, x: Int32)
    requires i < |o| == |o2|
    requires forall j :: i < j < |o| ==> o[j] == []
    requires forall j :: 0 <= j < |o| && j != i ==> o2[j] == o[j]
    requires o2[i] == o[i] + [x]
    ensures Flatten(o2) == Flatten(o) + [x]
  {
    assert o2 == o[i := o[i] + [x]];
    FlattenAppend(o, i, x);
  }

  /** Every element of a vector occurs in the concatenation, after all vectors before it. */
  lemma {:induction false} FlattenSplit(o: seq<seq<Int32>>, i: nat)
    requires i < |o|
    ensures Flatten(o) == Flatten(o[..i]) + o[i] + Flatten(o[i + 1..])
  {
    if i == 0 {
      assert o[..0] == [];
    } else {
      FlattenSplit(o[1..], i - 1);
      assert o[1..][..i - 1] == o[..i][1..];
      assert o[1..][i - 1 + 1..] == o[i + 1..];
    }
  }

  /** A sorted concatenation has sorted blocks, and every block is below every later one. */
  lemma {:induction false} FlattenSortedBlocks(o: seq<seq<Int32>>)
    requires Sorted(Flatten(o))
    ensures forall i :: 0 <= i < |o| ==> Sorted(o[i])
    ensures forall i, j, x, y :: 0 <= i < j < |o| && x in o[i] && y in o[j] ==> x <= y
  {
    forall i | 0 <= i < |o|
      ensures Sorted(o[i])
    {
      FlattenSplit(o, i);
      var f, before := Flatten(o), |Flatten(o[..i])|;
      forall a, b | 0 <= a < b < |o[i]| ensures o[i][a] <= o[i][b] {
        assert o[i][a] == f[before + a] && o[i][b] == f[before + b];
      }
    }
    forall i, j, x, y | 0 <= i < j < |o| && x in o[i] && y in o[j]
      ensures x <= y
    {
      FlattenSplit(o, j);
      FlattenSplit(o[..j], i);
      assert o[..j][..i] == o[..i];
      var f := Flatten(o);
      var pre := Flatten(o[..i]);
      var mid := Flatten(o[..j][i + 1..]);
      assert Flatten(o[..j]) == pre + o[i] + mid;
      var a :| 0 <= a < |o[i]| && o[i][a] == x;
      var b :| 0 <= b < |o[j]| && o[j][b] == y;
      var ia := |pre| + a;
      var ib := |Flatten(o[..j])| + b;
      assert f[ia] == x && f[ib] == y && ia < ib;
    }
  }

  lemma {:induction false} BagIsFlatten(o: seq<seq<Int32>>)
    ensures Bag(o) == multiset(Flatten(o))
  {
    if o != [] {
      BagIsFlatten(o[1..]);
    }
  }

  /** Replacing one vector by `t` trades its elements for those of `t`. */
  lemma {:induction false} BagUpdate(o: seq<seq<Int32>>, i: nat, t: seq<Int32>)
    requires i < |o|
    ensures Bag(o[i := t]) + multiset(o[i]) == Bag(o) + multiset(t)
  {
    if i == 0 {
      assert o[0 := t][1..] == o[1..];
    } else {
      BagUpdate(o[1..], i - 1, t);
      assert o[i := t][1..] == o[1..][i - 1 := t];
      assert o[1..][i - 1] == o[i];
      var rest := Bag(o[1..][i - 1 := t]);
      assert Bag(o[i := t]) == multiset(o[0]) + rest;
      assert rest + multiset(o[i]) == Bag(o[1..]) + multiset(t);
      calc {
        Bag(o[i := t]) + multiset(o[i]);
        multiset(o[0]) + (rest + multiset(o[i]));
        multiset(o[0]) + (Bag(o[1..]) + multiset(t));
        Bag(o) + multiset(t);
      }
    }
  }

  /** Popping the head of vector `i` removes exactly that head from the union. */
  lemma BagPop(o: seq<seq<Int32>>, o2: seq<seq<Int32>>, i: nat)
    requires i < |o| == |o2| && o[i] != []
    requires forall j :: 0 <= j < |o| && j != i ==> o2[j] == o[j]
    requires o2[i] == o[i][1..]
    ensures Bag(o2) + multiset{o[i][0]} == Bag(o)
  {
    var h, tail := o[i][0], o[i][1..];
    assert o2 == o[i := tail];
    BagUpdate(o, i, tail);
    assert o[i] == [h] + tail;
    assert multiset(o[i]) == multiset{h} + multiset(tail);
    var lhs, rhs, mt := Bag(o2) + multiset{h}, Bag(o), multiset(tail);
    assert lhs + mt == rhs + mt;
    forall x ensures lhs[x] == rhs[x] {
      assert (lhs + mt)[x] == (rhs + mt)[x];
    }
  }

  /** Vectors whose union is empty are all empty. */
  lemma {:induction false} BagEmpty(o: seq<seq<Int32>>)
    requires Bag(o) == multiset{}
    ensures forall j :: 0 <= j < |o| ==> o[j] == []
  {
    if o != [] {
      assert |multiset(o[0])| == |o[0]|;
      BagEmpty(o[1..]);
      forall j | 1 <= j < |o| ensures o[j] == [] {
        assert o[j] == o[1..][j - 1];
      }
    }
  }

  /** `|o|` vectors of `n` elements each concatenate to `|o| * n` elements. */
  lemma {:induction false} FlattenUniformLength(o: seq<seq<Int32>>, n: nat)
    requires forall j :: 0 <= j < |o| ==> |o[j]| == n
    ensures |Flatten(o)| == |o| * n
  {
    if o != [] {
      FlattenUniformLength(o[1..], n);
      assert |o| * n == n + (|o| - 1) * n;
    }
  }
}
