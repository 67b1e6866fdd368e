/// The shared state of one merge run and the three phases of a round, as
/// functions on values: every worker posts a candidate, the master picks the
/// round's minimum, every worker consumes the outcome (main.cpp:70-160).
module MergeState {
  import opened Elements

  /** The two compile-time constants: `K` workers, each handed `N` elements. */
  datatype Config = Config(k: nat, n: nat)

  /** The completion check compares the output size with this literal, not with `N`. */
  const ReportSize: nat := 100

  /**
   * Everything one round reads or writes: the `MasterNode` fields, the global
   * round counter, and each worker's partition (`vector_`) and output
   * (`vector_sorted_`). `live[i]` says whether worker `i` is still inside its
   * main loop; once it has left, it only keeps the barriers company.
   */
  datatype State = State(
    buffer: seq<Int32>,       // MasterNode::buffer_, one candidate slot per worker
    winner: nat,              // MasterNode::thread_index_
    pushed: nat,              // MasterNode::pushed_elements_
    running: nat,             // MasterNode::running_nodes_
    round: nat,               // g_loop_index
    parts: seq<seq<Int32>>,   // each worker's remaining sorted partition
    outs: seq<seq<Int32>>,    // each worker's output block
    live: seq<bool>,          // whether each worker is still in its main loop
    reported: nat)            // g_threads_done

  predicate Shaped(c: Config, s: State) {
    && c.k >= 1
    && |s.buffer| == c.k && |s.parts| == c.k && |s.outs| == c.k && |s.live| == c.k
    && s.winner < c.k
  }

  /** The state between two rounds. */
  predicate WellFormed(c: Config, s: State) {
    && Shaped(c, s)
    && s.pushed == 0
    && s.running == CountTrue(s.live)
    && forall i :: 0 <= i < c.k && !s.live[i] ==> s.parts[i] == []
  }

  /** `K` partitions of `N` elements each, as `main` cuts them. */
  predicate ValidInput(c: Config, input: seq<seq<Int32>>) {
    c.k >= 1 && |input| == c.k && forall i :: 0 <= i < c.k ==> |input[i]| == c.n
  }

  /** The state when the threads start: zeroed slots, `K` running workers, round 0. */
  function Initial(c: Config, input: seq<seq<Int32>>): (s: State)
    requires ValidInput(c, input)
    ensures WellFormed(c, s) && s.round == 0 && s.parts == input && s.reported == 0
    ensures forall i :: 0 <= i < c.k ==> s.live[i] && s.outs[i] == []
  {
    var live := seq(c.k, _ => true);
    CountTrueFull(live);
    State(seq(c.k, _ => 0), 0, 0, c.k, 0, input, seq(c.k, _ => []), live, 0)
  }

  // ---------------------------------------------------------------------------
  // Arbitration: `std::min_element` and the broadcast through slot 0.
  // ---------------------------------------------------------------------------

  /** The index `std::min_element` returns: scan left to right, move only on a strictly smaller value. */
  function ArgMin(b: seq<Int32>): (w: nat)
    requires |b| > 0
    ensures w < |b|
  {
    if |b| == 1 then 0
    else
      var w := ArgMin(b[..|b| - 1]);
      if b[|b| - 1] < b[w] then |b| - 1 else w
  }

  /** `ArgMin` is the first position holding the minimum. */
  lemma {:induction false} ArgMinIsFirstMinimum(b: seq<Int32>)
    requires |b| > 0
    ensures forall j :: 0 <= j < |b| ==> b[ArgMin(b)] <= b[j]
    ensures forall j :: 0 <= j < ArgMin(b) ==> b[ArgMin(b)] < b[j]
  {
    if |b| > 1 {
      var m := |b| - 1;
      ArgMinIsFirstMinimum(b[..m]);
      assert forall j :: 0 <= j < m ==> b[..m][j] == b[j];
    }
  }

  /** Conversely, the first position holding the minimum is `ArgMin`: ties go to the lowest worker. */
  lemma FirstMinimumIsArgMin(b: seq<Int32>, k: nat)
    requires k < |b|
    requires forall j :: 0 <= j < |b| ==> b[k] <= b[j]
    requires forall j :: 0 <= j < k ==> b[k] < b[j]
    ensures ArgMin(b) == k
  {
    ArgMinIsFirstMinimum(b);
  }

  /** The master's step (main.cpp:149-156), taken once every running worker has posted. */
  function Arbitration(c: Config, s: State): (t: State)
    requires Shaped(c, s) && s.pushed == s.running
    ensures Shaped(c, t)
    ensures t.round == s.round + 1 && t.pushed == 0
    ensures t.parts == s.parts && t.outs == s.outs && t.live == s.live
    ensures t.running == s.running && t.reported == s.reported
  {
    var w := ArgMin(s.buffer);
    s.(winner := w, buffer := s.buffer[0 := s.buffer[w]], pushed := 0, round := s.round + 1)
  }

  /**
   * Arbitration records the first position of the minimum as the winner,
   * puts the minimum in slot 0 and leaves every other slot as it was
   * (main.cpp:150-152).
   */
  lemma ArbitrationPicksMinimum(c: Config, s: State)
    requires Shaped(c, s) && s.pushed == s.running
    ensures var t := Arbitration(c, s);
      && t.buffer[0] == s.buffer[t.winner]
      && (forall j :: 0 <= j < c.k ==> t.buffer[0] <= s.buffer[j])
      && (forall j :: 0 <= j < t.winner ==> t.buffer[0] < s.buffer[j])
      && (forall j :: 0 < j < c.k ==> t.buffer[j] == s.buffer[j])
  {
    ArgMinIsFirstMinimum(s.buffer);
  }

  // ---------------------------------------------------------------------------
  // Posting: each worker writes its head, or leaves its loop and writes INT_MAX.
  // ---------------------------------------------------------------------------

  /** Worker `i` runs this round's loop body: it is in its loop and its partition is not empty. */
  predicate Active(s: State, i: nat)
    requires i < |s.live| && i < |s.parts|
  {
    s.live[i] && s.parts[i] != []
  }

  function Posting(s: State): seq<bool>
    requires |s.live| == |s.parts|
  {
    seq(|s.live|, i requires 0 <= i < |s.live| => Active(s, i))
  }

  function Retiring(s: State): seq<bool>
    requires |s.live| == |s.parts|
  {
    seq(|s.live|, i requires 0 <= i < |s.live| => s.live[i] && s.parts[i] == [])
  }

  /** What slot `i` holds once worker `i` has posted (main.cpp:76 and main.cpp:117). */
  function Candidate(s: State, i: nat): (v: Int32)
    requires i < |s.buffer| && i < |s.parts| && i < |s.live|
    ensures s.live[i] && s.parts[i] != [] ==> v in s.parts[i]
    ensures s.live[i] && Sorted(s.parts[i]) ==> forall y :: y in s.parts[i] ==> v <= y
  {
    if !s.live[i] then s.buffer[i]
    else if s.parts[i] != [] then s.parts[i][0]
    else IntMax
  }

  /**
   * Worker `i`'s step before the first barrier (main.cpp:73-78,
   * main.cpp:112-118): post the head of its partition and count the post, or,
   * finding the partition empty, leave the loop, drop the running count and
   * post `INT_MAX`. A worker that has already left posts nothing.
   */
  function PostOne(c: Config, s: State, i: nat): (t: State)
    requires Shaped(c, s) && i < c.k
    requires s.live[i] && s.parts[i] == [] ==> s.running >= 1
    ensures Shaped(c, t)
  {
    if !s.live[i] then s
    else if s.parts[i] != [] then s.(buffer := s.buffer[i := s.parts[i][0]], pushed := s.pushed + 1)
    else s.(buffer := s.buffer[i := IntMax], running := s.running - 1, live := s.live[i := false])
  }

  /** Workers `0` to `m - 1` have taken their posting step, the others not yet. */
  function PostUpTo(c: Config, s: State, m: nat): (t: State)
    requires Shaped(c, s) && m <= c.k && s.running == CountTrue(s.live)
    ensures Shaped(c, t)
    ensures t.parts == s.parts && t.outs == s.outs && t.round == s.round
    ensures t.winner == s.winner && t.reported == s.reported
    decreases m, 1
  {
    if m == 0 then s
    else
      PostUpToRunning(c, s, m - 1);
      PostOne(c, PostUpTo(c, s, m - 1), m - 1)
  }

  /** A worker about to leave its loop is still counted as running, so the decrement cannot wrap. */
  lemma PostUpToRunning(c: Config, s: State, i: nat)
    requires Shaped(c, s) && i < c.k && s.running == CountTrue(s.live)
    ensures var u := PostUpTo(c, s, i); u.live[i] && s.parts[i] == [] ==> u.running >= 1
    decreases i, 3
  {
    PostUpToCounts(c, s, i);
    PostUpToLive(c, s, i);
    CountTrueStep(Retiring(s), i);
    CountTruePrefix(Retiring(s), i + 1);
    CountTrueSplit(s.live, Posting(s), Retiring(s));
  }

  /** The workers that have posted are still in their loop exactly when their partition was not empty. */
  lemma {:induction false} PostUpToLive(c: Config, s: State, m: nat)
    requires Shaped(c, s) && m <= c.k && s.running == CountTrue(s.live)
    ensures var t := PostUpTo(c, s, m);
      forall j :: 0 <= j < c.k ==> t.live[j] == if j < m then Active(s, j) else s.live[j]
    decreases m, 2
  {
    if m > 0 {
      var i := m - 1;
      PostUpToLive(c, s, i);
      var u := PostUpTo(c, s, i);
      var t := PostUpTo(c, s, m);
      if u.live[i] && s.parts[i] == [] {
        assert t.live == u.live[i := false];
      } else {
        assert t.live == u.live;
      }
    }
  }

  /** The workers that have posted hold their candidate in their slot. */
  lemma {:induction false} PostUpToSlots(c: Config, s: State, m: nat)
    requires Shaped(c, s) && m <= c.k && s.running == CountTrue(s.live)
    ensures var t := PostUpTo(c, s, m);
      forall j :: 0 <= j < c.k ==> t.buffer[j] == if j < m then Candidate(s, j) else s.buffer[j]
    decreases m, 2
  {
    if m > 0 {
      var i := m - 1;
      PostUpToSlots(c, s, i);
      PostUpToLive(c, s, i);
      var u := PostUpTo(c, s, i);
      var t := PostUpTo(c, s, m);
      assert u.live[i] == s.live[i];
      if !s.live[i] {
        assert t.buffer == u.buffer;
      } else {
        assert t.buffer == u.buffer[i := Candidate(s, i)];
      }
    }
  }

  /** The posts and the departures so far are counted. */
  lemma {:induction false} PostUpToCounts(c: Config, s: State, m: nat)
    requires Shaped(c, s) && m <= c.k && s.running == CountTrue(s.live)
    ensures var t := PostUpTo(c, s, m);
      && t.pushed == s.pushed + CountTrue(Posting(s)[..m])
      && t.running + CountTrue(Retiring(s)[..m]) == s.running
    decreases m, 2
  {
    if m > 0 {
      var i := m - 1;
      PostUpToCounts(c, s, i);
      PostUpToLive(c, s, i);
      CountTrueStep(Posting(s), i);
      CountTrueStep(Retiring(s), i);
      var u := PostUpTo(c, s, i);
      assert u.live[i] == s.live[i];
    }
  }

  /** The state after the posting phase, when the master may arbitrate. */
  predicate Posted(c: Config, s: State) {
    && Shaped(c, s)
    && s.pushed == s.running
    && s.running == CountTrue(s.live)
    && forall i :: 0 <= i < c.k ==>
         && (s.live[i] ==> s.parts[i] != [] && s.buffer[i] == s.parts[i][0])
         && (!s.live[i] ==> s.parts[i] == [])
  }

  /**
   * Every worker's posting step. The workers post in any order, each to its
   * own slot; worker order is as good as any.
   */
  function PostAll(c: Config, s: State): (t: State)
    requires WellFormed(c, s)
    ensures Shaped(c, t) && t.pushed == t.running
    ensures t.parts == s.parts && t.outs == s.outs && t.round == s.round
    ensures t.winner == s.winner && t.reported == s.reported
  {
    PostAllFields(c, s);
    PostUpTo(c, s, c.k)
  }

  /** The posting phase leaves the state `Posted` describes. */
  lemma PostAllPosted(c: Config, s: State)
    requires WellFormed(c, s)
    ensures Posted(c, PostAll(c, s))
  {
    PostAllFields(c, s);
  }

  /**
   * After the posting phase every slot holds its worker's candidate, exactly
   * the workers with a non-empty partition are still in their loop, and they
   * are the ones counted as posted and as running.
   */
  lemma PostAllFields(c: Config, s: State)
    requires WellFormed(c, s)
    ensures var t := PostUpTo(c, s, c.k);
      && (forall j :: 0 <= j < c.k ==> t.buffer[j] == Candidate(s, j) && t.live[j] == Active(s, j))
      && t.live == Posting(s)
      && t.pushed == CountTrue(Posting(s)) == t.running
  {
    PostUpToSlots(c, s, c.k);
    PostUpToLive(c, s, c.k);
    PostUpToCounts(c, s, c.k);
    CountTrueSplit(s.live, Posting(s), Retiring(s));
    assert Posting(s)[..c.k] == Posting(s) && Retiring(s)[..c.k] == Retiring(s);
  }

  // ---------------------------------------------------------------------------
  // Consuming: the winner pops its head, the block owner appends slot 0.
  // ---------------------------------------------------------------------------

  /**
   * `i * n`, written as repeated addition: the number of rounds before
   * worker `i`'s output block. Proofs about rounds and blocks then stay in
   * linear arithmetic; `BlockStartIsProduct` ties it to the product.
   */
  function BlockStart(i: nat, n: nat): nat {
    if i == 0 then 0 else BlockStart(i - 1, n) + n
  }

  lemma {:induction false} BlockStartIsProduct(i: nat, n: nat)
    ensures BlockStart(i, n) == i * n
  {
    if i > 0 {
      BlockStartIsProduct(i - 1, n);
      assert i * n == (i - 1) * n + n;
    }
  }

  /** A later block starts no earlier than an earlier block ends. */
  lemma {:induction false} BlockStartMono(a: nat, b: nat, n: nat)
    requires a < b
    ensures BlockStart(a, n) + n <= BlockStart(b, n)
  {
    if a + 1 < b {
      BlockStartMono(a, b - 1, n);
    }
  }

  /** `thread_mask` (main.cpp:87): round `r` falls in worker `i`'s output block. */
  predicate InBlock(i: nat, r: nat, n: nat)
    ensures InBlock(i, r, n) ==> 1 <= r <= BlockStart(i + 1, n)
  {
    BlockStart(i, n) < r <= BlockStart(i, n) + n
  }

  /** `InBlock` is the test main.cpp:87 spells out with products. */
  lemma ThreadMask(i: nat, r: nat, n: nat)
    ensures InBlock(i, r, n) <==> i * n + 1 <= r && r <= (i + 1) * n
  {
    BlockStartIsProduct(i, n);
    assert (i + 1) * n == i * n + n;
  }

  /** No round lies in two blocks. */
  lemma BlockOwnerUnique(i: nat, j: nat, r: nat, n: nat)
    requires InBlock(i, r, n) && InBlock(j, r, n)
    ensures i == j
  {
    if i < j {
      BlockStartMono(i, j, n);
    } else if j < i {
      BlockStartMono(j, i, n);
    }
  }

  /**
   * Each of rounds 1 to `K*N` (`BlockStart(K, N)`) lies in the block of
   * exactly one worker; round 0 lies in none, by definition.
   */
  lemma {:induction false} BlockOwner(k: nat, n: nat, r: nat) returns (o: nat)
    requires 1 <= r <= BlockStart(k, n)
    ensures o < k && InBlock(o, r, n)
    ensures forall i :: 0 <= i < k && InBlock(i, r, n) ==> i == o
  {
    if r > BlockStart(k - 1, n) {
      o := k - 1;
    } else {
      o := BlockOwner(k - 1, n, r);
    }
    forall i | 0 <= i < k && InBlock(i, r, n) ensures i == o {
      BlockOwnerUnique(i, o, r, n);
    }
  }

  /** Rounds past the last block lie in nobody's block. */
  lemma NoOwnerPastEnd(k: nat, n: nat, r: nat)
    requires r > BlockStart(k, n)
    ensures forall j :: 0 <= j < k ==> !InBlock(j, r, n)
  {
    forall j | 0 <= j < k ensures !InBlock(j, r, n) {
      BlockStartMono(j, k, n);
    }
  }

  /** `x / n` is the block index whose span of `n` holds `x`. */
  lemma BlockOfQuotient(x: nat, n: nat)
    requires n >= 1
    ensures BlockStart(x / n, n) <= x < BlockStart(x / n, n) + n
  {
    BlockStartIsProduct(x / n, n);
    assert x == x / n * n + x % n;
  }

  /** The owner of round `r`'s block is the quotient `(r - 1) / N`. */
  lemma BlockOwnerIsQuotient(i: nat, r: nat, n: nat)
    requires n >= 1
    ensures InBlock(i, r, n) <==> 1 <= r && i == (r - 1) / n
  {
    if 1 <= r {
      var q := (r - 1) / n;
      BlockOfQuotient(r - 1, n);
      if i < q {
        BlockStartMono(i, q, n);
      } else if q < i {
        BlockStartMono(q, i, n);
      }
    }
  }

  /** Worker `i`'s partition after this round's pop (main.cpp:82-85). */
  function Popped(s: State, i: nat): (p: seq<Int32>)
    requires i < |s.parts| && i < |s.live|
    requires s.live[i] ==> s.parts[i] != []
    ensures p == s.parts[i] || (s.parts[i] != [] && p == s.parts[i][1..])
    ensures |p| < |s.parts[i]| <==> s.live[i] && i == s.winner
  {
    if s.live[i] && i == s.winner then s.parts[i][1..] else s.parts[i]
  }

  /** Worker `i`'s output after this round's append (main.cpp:87-92). */
  function Appended(c: Config, s: State, i: nat): (o: seq<Int32>)
    requires i < |s.outs| && i < |s.live| && |s.buffer| > 0
    ensures |s.outs[i]| <= |o| <= |s.outs[i]| + 1 && o[..|s.outs[i]|] == s.outs[i]
    ensures |o| > |s.outs[i]| ==> o[|o| - 1] == s.buffer[0] && InBlock(i, s.round, c.n)
  {
    if s.live[i] && InBlock(i, s.round, c.n) then s.outs[i] + [s.buffer[0]] else s.outs[i]
  }

  /** Whether worker `i` passes the completion check this round (main.cpp:97-98). */
  predicate PassesCheck(c: Config, s: State, i: nat)
    requires i < |s.outs| && i < |s.live| && |s.buffer| > 0
    ensures PassesCheck(c, s, i) ==> s.live[i] && InBlock(i, s.round, c.n) && |s.outs[i]| == ReportSize - 1
  {
    s.live[i] && InBlock(i, s.round, c.n) && |Appended(c, s, i)| == ReportSize
  }

  /** Which workers pass the completion check this round. */
  function Reporting(c: Config, s: State): seq<bool>
    requires Shaped(c, s)
  {
    seq(c.k, i requires 0 <= i < c.k => PassesCheck(c, s, i))
  }

  /**
   * Worker `i`'s step after the first barrier (main.cpp:82-109): pop if it
   * won, append slot 0 in its own block, count itself done on reaching 100
   * elements in such a round.
   */
  function ConsumeOne(c: Config, s: State, i: nat): (t: State)
    requires Shaped(c, s) && i < c.k && (s.live[i] ==> s.parts[i] != [])
    ensures Shaped(c, t)
  {
    s.(parts := s.parts[i := Popped(s, i)],
       outs := s.outs[i := Appended(c, s, i)],
       reported := s.reported + if PassesCheck(c, s, i) then 1 else 0)
  }

  /** Workers `0` to `m - 1` have taken their consuming step, the others not yet. */
  function ConsumeUpTo(c: Config, s: State, m: nat): (t: State)
    requires Shaped(c, s) && m <= c.k
    requires forall i :: 0 <= i < c.k && s.live[i] ==> s.parts[i] != []
    ensures Shaped(c, t) && t.buffer == s.buffer && t.winner == s.winner && t.live == s.live
    ensures t.round == s.round && t.pushed == s.pushed && t.running == s.running
    decreases m, 1
  {
    if m == 0 then s
    else
      ConsumeUpToFields(c, s, m - 1);
      ConsumeOne(c, ConsumeUpTo(c, s, m - 1), m - 1)
  }

  /** Worker by worker: each worker's own step depends only on what arbitration left. */
  lemma {:induction false} ConsumeUpToFields(c: Config, s: State, m: nat)
    requires Shaped(c, s) && m <= c.k
    requires forall i :: 0 <= i < c.k && s.live[i] ==> s.parts[i] != []
    ensures var t := ConsumeUpTo(c, s, m);
      && (forall j :: 0 <= j < c.k ==> t.parts[j] == if j < m then Popped(s, j) else s.parts[j])
      && (forall j :: 0 <= j < c.k ==> t.outs[j] == if j < m then Appended(c, s, j) else s.outs[j])
      && t.reported == s.reported + CountTrue(Reporting(c, s)[..m])
    decreases m, 2
  {
    if m > 0 {
      var i := m - 1;
      var u := ConsumeUpTo(c, s, i);
      ConsumeUpToFields(c, s, i);
      assert ConsumeUpTo(c, s, m) == ConsumeOne(c, u, i);
      assert Popped(u, i) == Popped(s, i) && Appended(c, u, i) == Appended(c, s, i);
      assert PassesCheck(c, u, i) == Reporting(c, s)[i];
      CountTrueStep(Reporting(c, s), i);
    }
  }

  /** One whole round, as the two barriers sequence it. */
  function RoundStep(c: Config, s: State): (t: State)
    requires WellFormed(c, s)
    ensures WellFormed(c, t) && t.round == s.round + 1
    decreases 0, 2
  {
    // `Rounds(c, s, 0)` is `s`; calling it makes `RoundStep` mutually recursive
    // with `Rounds`, so that its body is unfolded only as fuel allows.
    var s := Rounds(c, s, 0);
    PostAllPosted(c, s);
    var a := Arbitration(c, PostAll(c, s));
    ConsumeUpToFields(c, a, c.k);
    ConsumeUpTo(c, a, c.k)
  }

  /** A round, field by field, in terms of the three phases. */
  lemma RoundFields(c: Config, s: State)
    requires WellFormed(c, s)
    ensures var p := PostAll(c, s); var a := Arbitration(c, p); var t := RoundStep(c, s);
      && Posted(c, p)
      && t.buffer == a.buffer && t.winner == a.winner && t.live == p.live
      && t.round == s.round + 1 && t.running == p.running
      && (forall i :: 0 <= i < c.k ==> t.parts[i] == Popped(a, i) && t.outs[i] == Appended(c, a, i))
      && t.reported == s.reported + CountTrue(Reporting(c, a))
  {
    PostAllPosted(c, s);
    var a := Arbitration(c, PostAll(c, s));
    assert Rounds(c, s, 0) == s;
    assert RoundStep(c, s) == ConsumeUpTo(c, a, c.k);
    ConsumeUpToFields(c, a, c.k);
    assert Reporting(c, a)[..c.k] == Reporting(c, a);
  }

  /** The state after `m` more rounds. */
  function Rounds(c: Config, s: State, m: nat): (t: State)
    requires WellFormed(c, s)
    ensures WellFormed(c, t) && t.round == s.round + m
    decreases m, 1
  {
    if m == 0 then s else RoundStep(c, Rounds(c, s, m - 1))
  }
}
