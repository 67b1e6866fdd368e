/// What one round and a whole run of the merge guarantee, as written: which
/// partition shrinks, which output grows, when a worker counts itself done,
/// and the ordering of everything appended. Conservation of the elements
/// holds only under an explicit hypothesis on the run (`LiveRound`), because
/// the program loses and repeats elements once a worker leaves its loop early.
module MergeProperties {
  import opened Elements
  import opened MergeState

  // ---------------------------------------------------------------------------
  // One round
  // ---------------------------------------------------------------------------

  /**
   * Only the winner's partition changes, and only by losing its head, which is
   * the round's minimum; a winner that has already left its loop pops
   * nothing. Sorted partitions stay sorted, above the round's minimum.
   */
  lemma RoundPopsOnlyWinner(c: Config, s: State)
    requires WellFormed(c, s)
    ensures var t := RoundStep(c, s);
      && (forall i :: 0 <= i < c.k && i != t.winner ==> t.parts[i] == s.parts[i])
      && (Active(s, t.winner) ==> s.parts[t.winner] != [] && s.parts[t.winner][0] == t.buffer[0]
                                  && t.parts[t.winner] == s.parts[t.winner][1..])
      && (!Active(s, t.winner) ==> t.parts == s.parts)
      && (forall i :: 0 <= i < c.k && Sorted(s.parts[i]) ==>
            Sorted(t.parts[i]) && forall x :: x in t.parts[i] ==> t.buffer[0] <= x)
  {
    var p := PostAll(c, s);
    var a := Arbitration(c, p);
    var t := RoundStep(c, s);
    RoundFields(c, s);
    ArbitrationPicksMinimum(c, p);
    var w := t.winner;
    if !Active(s, w) {
      assert !p.live[w];
      assert t.parts == s.parts;
    }
    forall i | 0 <= i < c.k && Sorted(s.parts[i])
      ensures Sorted(t.parts[i]) && forall x :: x in t.parts[i] ==> t.buffer[0] <= x
    {
      if p.live[i] {
        SortedTail(s.parts[i]);
        assert t.buffer[0] <= p.buffer[i] == s.parts[i][0];
      }
    }
  }

  /**
   * Every worker still in its loop whose block holds the new round appends the
   * round's minimum (slot 0 after arbitration); every other output stays as
   * it was. So at most one worker appends in a round: the owner of its block.
   */
  lemma RoundAppendsMinimum(c: Config, s: State)
    requires WellFormed(c, s)
    ensures var t := RoundStep(c, s);
      forall i :: 0 <= i < c.k ==>
        t.outs[i] == if Active(s, i) && InBlock(i, s.round + 1, c.n) then s.outs[i] + [t.buffer[0]] else s.outs[i]
    ensures var t := RoundStep(c, s);
      forall i, j :: 0 <= i < c.k && 0 <= j < c.k && t.outs[i] != s.outs[i] && t.outs[j] != s.outs[j] ==> i == j
  {
    RoundFields(c, s);
    var t := RoundStep(c, s);
    forall i, j | 0 <= i < c.k && 0 <= j < c.k && t.outs[i] != s.outs[i] && t.outs[j] != s.outs[j]
      ensures i == j
    {
      BlockOwnerUnique(i, j, s.round + 1, c.n);
    }
  }

  /** The blocks that start at or after the current round are still empty. */
  ghost predicate Unfilled(c: Config, s: State)
    requires Shaped(c, s)
  {
    forall j :: 0 <= j < c.k && s.round <= BlockStart(j, c.n) ==> s.outs[j] == []
  }

  lemma RoundKeepsUnfilled(c: Config, s: State)
    requires WellFormed(c, s) && Unfilled(c, s)
    ensures Unfilled(c, RoundStep(c, s))
  {
    var t := RoundStep(c, s);
    RoundAppendsMinimum(c, s);
    assert forall j :: 0 <= j < c.k && t.round <= BlockStart(j, c.n) ==> t.outs[j] == s.outs[j];
  }

  /**
   * The concatenated outputs across one round, on plain sequences: `outs2`
   * is `outs` with `x` appended by every active owner of round `r`.
   */
  lemma OutputsGrow(k: nat, n: nat, r: nat, outs: seq<seq<Int32>>, outs2: seq<seq<Int32>>, act: seq<bool>, x: Int32)
    requires |outs| == k && |outs2| == k && |act| == k && r >= 1
    requires forall j :: 0 <= j < k && r - 1 <= BlockStart(j, n) ==> outs[j] == []
    requires forall i :: 0 <= i < k ==> outs2[i] == if act[i] && InBlock(i, r, n) then outs[i] + [x] else outs[i]
    ensures Flatten(outs2) == Flatten(outs) || Flatten(outs2) == Flatten(outs) + [x]
    ensures r <= BlockStart(k, n) && (forall i :: 0 <= i < k && InBlock(i, r, n) ==> act[i]) ==>
              Flatten(outs2) == Flatten(outs) + [x]
  {
    if r <= BlockStart(k, n) {
      var o := BlockOwner(k, n, r);
      if act[o] {
        forall j | o < j < k ensures outs[j] == [] {
          BlockStartMono(o, j, n);
        }
        FlattenAppendAt(outs, outs2, o, x);
      } else {
        assert outs2 == outs;
      }
    } else {
      NoOwnerPastEnd(k, n, r);
      assert outs2 == outs;
    }
  }

  /**
   * In terms of the concatenated outputs, a round appends the round's minimum
   * or nothing; it appends when the block's owner is still in its loop.
   */
  lemma RoundOutputs(c: Config, s: State)
    requires WellFormed(c, s) && Unfilled(c, s)
    ensures var t := RoundStep(c, s);
      && (Flatten(t.outs) == Flatten(s.outs) || Flatten(t.outs) == Flatten(s.outs) + [t.buffer[0]])
      && ((s.round < BlockStart(c.k, c.n) && forall i :: 0 <= i < c.k && InBlock(i, s.round + 1, c.n) ==> Active(s, i))
          ==> Flatten(t.outs) == Flatten(s.outs) + [t.buffer[0]])
  {
    var t := RoundStep(c, s);
    RoundAppendsMinimum(c, s);
    OutputsGrow(c.k, c.n, s.round + 1, s.outs, t.outs, Posting(s), t.buffer[0]);
  }

  // ---------------------------------------------------------------------------
  // Ordering of the round minima and of the outputs
  // ---------------------------------------------------------------------------

  /**
   * The invariant behind sortedness: partitions sorted, and from round 1 on,
   * slot 0 (the last minimum) is at most every remaining element and every
   * parked slot, and at least everything already output.
   */
  ghost predicate Ordered(c: Config, s: State)
    requires WellFormed(c, s)
  {
    && Unfilled(c, s)
    && (forall i :: 0 <= i < c.k ==> Sorted(s.parts[i]))
    && (s.round == 0 ==> forall i :: 0 <= i < c.k ==> s.live[i])
    && Sorted(Flatten(s.outs))
    && (s.round >= 1 ==>
         && (forall i, x :: 0 <= i < c.k && x in s.parts[i] ==> s.buffer[0] <= x)
         && (forall i :: 0 <= i < c.k && !s.live[i] ==> s.buffer[0] <= s.buffer[i])
         && (forall x :: x in Flatten(s.outs) ==> x <= s.buffer[0]))
  }

  /** Every slot the master scans next is at least the previous minimum. */
  lemma PostedAbovePrevious(c: Config, s: State)
    requires WellFormed(c, s) && Ordered(c, s) && s.round >= 1
    ensures forall j :: 0 <= j < c.k ==> s.buffer[0] <= PostAll(c, s).buffer[j]
  {
    PostAllFields(c, s);
    forall j | 0 <= j < c.k ensures s.buffer[0] <= Candidate(s, j) {
      if s.live[j] && s.parts[j] != [] {
        assert s.parts[j][0] in s.parts[j];
      }
    }
  }

  /** The round's minimum is at least the previous one, and at least everything output so far. */
  lemma RoundMinimumAbove(c: Config, s: State)
    requires WellFormed(c, s) && Ordered(c, s)
    ensures s.round >= 1 ==> s.buffer[0] <= RoundStep(c, s).buffer[0]
    ensures forall x :: x in Flatten(s.outs) ==> x <= RoundStep(c, s).buffer[0]
  {
    var p := PostAll(c, s);
    var t := RoundStep(c, s);
    RoundFields(c, s);
    if s.round >= 1 {
      PostedAbovePrevious(c, s);
      assert s.buffer[0] <= p.buffer[t.winner] == t.buffer[0];
    } else {
      FlattenEmpty(s.outs);
    }
  }

  /** Parked slots are never below the round's minimum. */
  lemma RoundParkedAbove(c: Config, s: State)
    requires WellFormed(c, s)
    ensures var t := RoundStep(c, s);
      forall i :: 0 <= i < c.k && !t.live[i] ==> t.buffer[0] <= t.buffer[i]
  {
    RoundFields(c, s);
    ArbitrationPicksMinimum(c, PostAll(c, s));
  }

  lemma RoundPreservesOrdered(c: Config, s: State)
    requires WellFormed(c, s) && Ordered(c, s)
    ensures Ordered(c, RoundStep(c, s))
    ensures s.round >= 1 ==> s.buffer[0] <= RoundStep(c, s).buffer[0]
  {
    var t := RoundStep(c, s);
    RoundPopsOnlyWinner(c, s);
    RoundKeepsUnfilled(c, s);
    RoundOutputs(c, s);
    RoundMinimumAbove(c, s);
    RoundParkedAbove(c, s);
    if Flatten(t.outs) != Flatten(s.outs) {
      SortedAppend(Flatten(s.outs), t.buffer[0]);
    }
  }

  // ---------------------------------------------------------------------------
  // Whole runs
  // ---------------------------------------------------------------------------

  /**
   * A state a run can start from, described by its fields as `Initial`
   * builds it: round 0, every worker in its loop with an empty output, and
   * nothing reported yet.
   */
  ghost predicate Start(c: Config, s: State) {
    && WellFormed(c, s)
    && s.round == 0 && s.reported == 0
    && forall i :: 0 <= i < c.k ==> s.live[i] && s.outs[i] == []
  }

  lemma {:induction false} RunOrdered(c: Config, s0: State, r: nat)
    requires Start(c, s0) && forall i :: 0 <= i < c.k ==> Sorted(s0.parts[i])
    ensures Ordered(c, Rounds(c, s0, r))
  {
    if r == 0 {
      FlattenEmpty(s0.outs);
    } else {
      RunOrdered(c, s0, r - 1);
      RoundPreservesOrdered(c, Rounds(c, s0, r - 1));
    }
  }

  /**
   * From sorted partitions, each round's minimum is at least the previous
   * round's, from round 1 on. This holds as written, stale slot 0 included: a stale slot 0
   * only repeats the previous minimum.
   */
  lemma RoundMinimaNonDecreasing(c: Config, s0: State, r: nat)
    requires Start(c, s0) && forall i :: 0 <= i < c.k ==> Sorted(s0.parts[i])
    requires 1 <= r
    ensures Rounds(c, s0, r).buffer[0] <= Rounds(c, s0, r + 1).buffer[0]
  {
    RunOrdered(c, s0, r);
    RoundPreservesOrdered(c, Rounds(c, s0, r));
  }

  /**
   * Sortedness: after any number of rounds the outputs, concatenated in
   * worker order, are sorted; so each block is sorted and lies entirely
   * below every later block.
   */
  lemma RunOutputSorted(c: Config, s0: State, r: nat)
    requires Start(c, s0) && forall i :: 0 <= i < c.k ==> Sorted(s0.parts[i])
    ensures var o := Rounds(c, s0, r).outs;
      && Sorted(Flatten(o))
      && (forall i :: 0 <= i < c.k ==> Sorted(o[i]))
      && (forall i, j, x, y :: 0 <= i < j < c.k && x in o[i] && y in o[j] ==> x <= y)
  {
    RunOrdered(c, s0, r);
    FlattenSortedBlocks(Rounds(c, s0, r).outs);
  }

  /**
   * Once worker 0 has left its loop, slot 0 keeps the previous minimum, which
   * no other slot undercuts: the master picks worker 0 again, nobody pops,
   * and the same value is handed out once more.
   */
  lemma ExitedWorkerZeroRepeatsMinimum(c: Config, s: State)
    requires WellFormed(c, s) && Ordered(c, s) && s.round >= 1 && !s.live[0]
    ensures var t := RoundStep(c, s);
      t.winner == 0 && t.buffer[0] == s.buffer[0] && t.parts == s.parts
  {
    var p := PostAll(c, s);
    RoundFields(c, s);
    PostAllFields(c, s);
    PostedAbovePrevious(c, s);
    FirstMinimumIsArgMin(p.buffer, 0);
    RoundPopsOnlyWinner(c, s);
  }

  // ---------------------------------------------------------------------------
  // Output sizes and the completion check
  // ---------------------------------------------------------------------------

  /** How many of worker `i`'s block rounds lie within rounds `1..r`. */
  function Progress(i: nat, r: nat, n: nat): nat {
    if r <= BlockStart(i, n) then 0
    else if r - BlockStart(i, n) >= n then n
    else r - BlockStart(i, n)
  }

  /** One round adds at most one element to worker `i`'s output, and only within its block. */
  lemma ProgressStep(c: Config, s: State, i: nat)
    requires WellFormed(c, s) && i < c.k && |s.outs[i]| <= Progress(i, s.round, c.n)
    ensures |RoundStep(c, s).outs[i]| <= Progress(i, s.round + 1, c.n)
    ensures |s.outs[i]| == Progress(i, s.round, c.n) && (InBlock(i, s.round + 1, c.n) ==> Active(s, i)) ==>
              |RoundStep(c, s).outs[i]| == Progress(i, s.round + 1, c.n)
  {
    RoundAppendsMinimum(c, s);
  }

  /** Worker `i` is in its loop with elements left at the start of the round after `q` rounds. */
  ghost predicate ActiveAt(c: Config, s0: State, q: nat, i: nat)
    requires WellFormed(c, s0) && i < c.k
  {
    Active(Rounds(c, s0, q), i)
  }

  /** Worker `i`'s output never outgrows the rounds of its block seen so far. */
  lemma {:induction false} OutputBound(c: Config, s0: State, i: nat, r: nat)
    requires Start(c, s0) && i < c.k
    ensures |Rounds(c, s0, r).outs[i]| <= Progress(i, r, c.n)
  {
    if r > 0 {
      OutputBound(c, s0, i, r - 1);
      ProgressStep(c, Rounds(c, s0, r - 1), i);
    }
  }

  /**
   * Worker `i`'s output matches the rounds of its block seen so far when the
   * worker stays in its loop through those rounds: it holds `N` elements
   * exactly from round `(i+1)*N` on.
   */
  lemma {:induction false} OutputLength(c: Config, s0: State, i: nat, r: nat)
    requires Start(c, s0) && i < c.k
    requires forall q :: BlockStart(i, c.n) <= q < r && q < BlockStart(i, c.n) + c.n ==> ActiveAt(c, s0, q, i)
    ensures |Rounds(c, s0, r).outs[i]| == Progress(i, r, c.n)
  {
    if r > 0 {
      OutputLength(c, s0, i, r - 1);
      if InBlock(i, r, c.n) {
        assert ActiveAt(c, s0, r - 1, i);
      }
      ProgressStep(c, Rounds(c, s0, r - 1), i);
    }
  }

  /** Whether worker `i` passes the completion check in the round that starts from `s`. */
  ghost predicate Reports(c: Config, s: State, i: nat)
    requires WellFormed(c, s) && i < c.k
  {
    Reporting(c, Arbitration(c, PostAll(c, s)))[i]
  }

  /** Worker `i` counts itself done in a round exactly when it appends and then holds 100 elements. */
  lemma ReportsWhen(c: Config, s: State, i: nat)
    requires WellFormed(c, s) && i < c.k
    ensures Reports(c, s, i) <==>
              Active(s, i) && InBlock(i, s.round + 1, c.n) && |RoundStep(c, s).outs[i]| == ReportSize
  {
    RoundFields(c, s);
  }

  /**
   * A worker that stays in its loop through its block passes the check
   * `size() == 100 && thread_mask` in exactly one round, the one that ends
   * with round counter `i*N + 100`, and only if `N >= 100`.
   */
  lemma ReportRound(c: Config, s0: State, i: nat, r: nat)
    requires Start(c, s0) && i < c.k
    requires forall q :: BlockStart(i, c.n) <= q < BlockStart(i, c.n) + c.n ==> ActiveAt(c, s0, q, i)
    ensures Reports(c, Rounds(c, s0, r), i) <==> ReportSize <= c.n && r + 1 == BlockStart(i, c.n) + ReportSize
  {
    ReportsWhen(c, Rounds(c, s0, r), i);
    if InBlock(i, r + 1, c.n) {
      BlockRoundLength(c, s0, i, r);
    }
  }

  /** In a round of its block, a worker that has stayed in its loop appends its next element. */
  lemma BlockRoundLength(c: Config, s0: State, i: nat, r: nat)
    requires Start(c, s0) && i < c.k && InBlock(i, r + 1, c.n)
    requires forall q :: BlockStart(i, c.n) <= q < BlockStart(i, c.n) + c.n ==> ActiveAt(c, s0, q, i)
    ensures Active(Rounds(c, s0, r), i)
    ensures |RoundStep(c, Rounds(c, s0, r)).outs[i]| == r + 1 - BlockStart(i, c.n)
  {
    assert ActiveAt(c, s0, r, i);
    OutputLength(c, s0, i, r + 1);
  }

  /**
   * With `N = 100`, the round in which worker `i` counts itself done is the
   * one that ends with round counter `(i+1)*N`, the last round of its block.
   */
  lemma ReportRoundAtBlockEnd(c: Config, s0: State, i: nat, r: nat)
    requires Start(c, s0) && i < c.k && c.n == ReportSize
    requires forall q :: BlockStart(i, c.n) <= q < BlockStart(i, c.n) + c.n ==> ActiveAt(c, s0, q, i)
    ensures Reports(c, Rounds(c, s0, r), i) <==> r + 1 == BlockStart(i + 1, c.n)
  {
    ReportRound(c, s0, i, r);
  }

  /** With `N < 100` the completion check never passes, so `g_threads_done` stays 0. */
  lemma {:induction false} NoReportBelowHundred(c: Config, s0: State, r: nat)
    requires Start(c, s0) && c.n < ReportSize
    ensures Rounds(c, s0, r).reported == 0
  {
    if r > 0 {
      var s := Rounds(c, s0, r - 1);
      NoReportBelowHundred(c, s0, r - 1);
      RunOutputsShort(c, s0, r);
      assert Rounds(c, s0, r) == RoundStep(c, s);
      RoundReportsNone(c, s);
    }
  }

  /** With `N < 100` no output ever holds 100 elements. */
  lemma RunOutputsShort(c: Config, s0: State, r: nat)
    requires Start(c, s0) && c.n < ReportSize
    ensures forall i :: 0 <= i < c.k ==> |Rounds(c, s0, r).outs[i]| < ReportSize
  {
    forall i | 0 <= i < c.k ensures |Rounds(c, s0, r).outs[i]| < ReportSize {
      OutputBound(c, s0, i, r);
    }
  }

  /** A round in which no output reaches 100 elements leaves `g_threads_done` alone. */
  lemma RoundReportsNone(c: Config, s: State)
    requires WellFormed(c, s)
    requires forall i :: 0 <= i < c.k ==> |RoundStep(c, s).outs[i]| < ReportSize
    ensures RoundStep(c, s).reported == s.reported
  {
    var a := Arbitration(c, PostAll(c, s));
    RoundFields(c, s);
    forall i | 0 <= i < c.k ensures !Reporting(c, a)[i] {
      ReportsWhen(c, s, i);
    }
    CountTrueZero(Reporting(c, a));
  }

  // ---------------------------------------------------------------------------
  // Conservation under an explicit hypothesis
  // ---------------------------------------------------------------------------

  /**
   * The hypothesis under which a round loses and invents nothing: the
   * selected slot belongs to a worker still in its loop (so it is a real
   * head, not a stale copy in slot 0 or a parked `INT_MAX`), and the owner of
   * the round's output position is still in its loop (so it appends).
   */
  ghost predicate LiveRound(c: Config, s: State)
    requires WellFormed(c, s)
  {
    && Active(s, ArgMin(PostAll(c, s).buffer))
    && forall i :: 0 <= i < c.k && InBlock(i, s.round + 1, c.n) ==> Active(s, i)
  }

  /** `LiveRound` holds in the round after `q` rounds. */
  ghost predicate LiveAt(c: Config, s0: State, q: nat)
    requires WellFormed(c, s0)
  {
    LiveRound(c, Rounds(c, s0, q))
  }

  /** `LiveRound` holds in each of the first `r` rounds, stated round by round. */
  ghost predicate LiveRun(c: Config, s0: State, r: nat)
    requires WellFormed(c, s0)
  {
    r == 0 || (LiveRun(c, s0, r - 1) && LiveRound(c, Rounds(c, s0, r - 1)))
  }

  lemma {:induction false} LiveRunFromAll(c: Config, s0: State, r: nat)
    requires WellFormed(c, s0)
    requires forall q :: 0 <= q < r ==> LiveAt(c, s0, q)
    ensures LiveRun(c, s0, r)
  {
    if r > 0 {
      LiveRunFromAll(c, s0, r - 1);
      assert LiveAt(c, s0, r - 1);
    }
  }

  /** Under `LiveRound`, the element popped is the element appended. */
  lemma RoundConserves(c: Config, s: State)
    requires WellFormed(c, s) && Unfilled(c, s) && s.round < BlockStart(c.k, c.n) && LiveRound(c, s)
    ensures var t := RoundStep(c, s);
      && multiset(Flatten(t.outs)) + Bag(t.parts) == multiset(Flatten(s.outs)) + Bag(s.parts)
      && |Flatten(t.outs)| == |Flatten(s.outs)| + 1
  {
    var t := RoundStep(c, s);
    RoundFields(c, s);
    RoundOutputs(c, s);
    RoundPopsOnlyWinner(c, s);
    BagPop(s.parts, t.parts, t.winner);
  }

  lemma {:induction false} RunUnfilled(c: Config, s0: State, r: nat)
    requires Start(c, s0)
    ensures Unfilled(c, Rounds(c, s0, r))
  {
    if r > 0 {
      RunUnfilled(c, s0, r - 1);
      RoundKeepsUnfilled(c, Rounds(c, s0, r - 1));
    }
  }

  /** Over a live run, no element is lost or duplicated between partitions and outputs. */
  lemma {:induction false} RunConserves(c: Config, s0: State, r: nat)
    requires Start(c, s0) && r <= BlockStart(c.k, c.n)
    requires LiveRun(c, s0, r)
    ensures var s := Rounds(c, s0, r);
      multiset(Flatten(s.outs)) + Bag(s.parts) == Bag(s0.parts) && |Flatten(s.outs)| == r
  {
    if r == 0 {
      FlattenEmpty(s0.outs);
    } else {
      RunConserves(c, s0, r - 1);
      RunStep(c, s0, r);
      ConservesStep(c, Rounds(c, s0, r - 1), Rounds(c, s0, r), Bag(s0.parts));
    }
  }

  /** The facts about round `r` of a live run that a round lemma needs. */
  lemma RunStep(c: Config, s0: State, r: nat)
    requires Start(c, s0) && 0 < r <= BlockStart(c.k, c.n) && LiveRun(c, s0, r)
    ensures var s := Rounds(c, s0, r - 1);
      && Unfilled(c, s) && s.round < BlockStart(c.k, c.n) && LiveRound(c, s)
      && Rounds(c, s0, r) == RoundStep(c, s)
  {
    RunUnfilled(c, s0, r - 1);
  }

  lemma ConservesStep(c: Config, s: State, t: State, b: multiset<Int32>)
    requires WellFormed(c, s) && Unfilled(c, s) && s.round < BlockStart(c.k, c.n) && LiveRound(c, s)
    requires t == RoundStep(c, s)
    requires multiset(Flatten(s.outs)) + Bag(s.parts) == b
    ensures multiset(Flatten(t.outs)) + Bag(t.parts) == b && |Flatten(t.outs)| == |Flatten(s.outs)| + 1
  {
    RoundConserves(c, s);
  }

  /** Every worker stays active through its block when every round is a `LiveRound`. */
  lemma BlockActive(c: Config, s0: State, i: nat)
    requires Start(c, s0) && i < c.k
    requires forall q :: 0 <= q < BlockStart(c.k, c.n) ==> LiveAt(c, s0, q)
    ensures forall q :: BlockStart(i, c.n) <= q < BlockStart(i, c.n) + c.n ==> ActiveAt(c, s0, q, i)
  {
    BlockStartMono(i, c.k, c.n);
    forall q | BlockStart(i, c.n) <= q < BlockStart(i, c.n) + c.n ensures ActiveAt(c, s0, q, i) {
      assert LiveAt(c, s0, q);
    }
  }

  /**
   * `MergeSortsInput` from any start state: under `LiveRound` in every round,
   * after `K*N` rounds the partitions are used up, each output block holds
   * `N` elements, and the blocks concatenate to the start's elements in
   * sorted order.
   */
  lemma RunEnd(c: Config, s0: State)
    requires Start(c, s0) && forall i :: 0 <= i < c.k ==> Sorted(s0.parts[i]) && |s0.parts[i]| == c.n
    requires forall q :: 0 <= q < BlockStart(c.k, c.n) ==> LiveAt(c, s0, q)
    ensures var e := Rounds(c, s0, BlockStart(c.k, c.n));
      && Sorted(Flatten(e.outs))
      && multiset(Flatten(e.outs)) == Bag(s0.parts)
      && (forall i :: 0 <= i < c.k ==> |e.outs[i]| == c.n && e.parts[i] == [])
  {
    RunOutputSorted(c, s0, BlockStart(c.k, c.n));
    LiveRunFromAll(c, s0, BlockStart(c.k, c.n));
    RunUsesInput(c, s0);
    RunFillsBlocks(c, s0);
  }

  /** After `K*N` live rounds every element of the start's partitions has moved to the outputs. */
  lemma RunUsesInput(c: Config, s0: State)
    requires Start(c, s0) && forall i :: 0 <= i < c.k ==> |s0.parts[i]| == c.n
    requires LiveRun(c, s0, BlockStart(c.k, c.n))
    ensures var e := Rounds(c, s0, BlockStart(c.k, c.n));
      && multiset(Flatten(e.outs)) == Bag(s0.parts)
      && (forall i :: 0 <= i < c.k ==> e.parts[i] == [])
  {
    var e := Rounds(c, s0, BlockStart(c.k, c.n));
    RunConserves(c, s0, BlockStart(c.k, c.n));
    FlattenUniformLength(s0.parts, c.n);
    BlockStartIsProduct(c.k, c.n);
    BagIsFlatten(s0.parts);
    assert |Bag(e.parts)| == 0;
    BagEmpty(e.parts);
  }

  /** After `K*N` live rounds every output block holds exactly `N` elements. */
  lemma RunFillsBlocks(c: Config, s0: State)
    requires Start(c, s0)
    requires forall q :: 0 <= q < BlockStart(c.k, c.n) ==> LiveAt(c, s0, q)
    ensures forall i :: 0 <= i < c.k ==> |Rounds(c, s0, BlockStart(c.k, c.n)).outs[i]| == c.n
  {
    forall i | 0 <= i < c.k ensures |Rounds(c, s0, BlockStart(c.k, c.n)).outs[i]| == c.n {
      BlockActive(c, s0, i);
      BlockStartMono(i, c.k, c.n);
      OutputLength(c, s0, i, BlockStart(c.k, c.n));
    }
  }

  /**
   * The end-to-end promise, under `LiveRound` in every round: after `K*N`
   * rounds from the initial state every partition is used up, every output
   * block holds `N` elements, and the blocks concatenate to the input's
   * elements in sorted order.
   */
  lemma MergeSortsInput(c: Config, input: seq<seq<Int32>>)
    requires ValidInput(c, input) && forall i :: 0 <= i < c.k ==> Sorted(input[i])
    requires forall q :: 0 <= q < c.k * c.n ==> LiveAt(c, Initial(c, input), q)
    ensures var e := Rounds(c, Initial(c, input), c.k * c.n);
      && Sorted(Flatten(e.outs))
      && multiset(Flatten(e.outs)) == Bag(input)
      && (forall i :: 0 <= i < c.k ==> |e.outs[i]| == c.n && e.parts[i] == [])
  {
    BlockStartIsProduct(c.k, c.n);
    RunEnd(c, Initial(c, input));
  }

  // ---------------------------------------------------------------------------
  // Winners and the done counter over a live run
  // ---------------------------------------------------------------------------

  /** How many of the first `r` rounds worker `i` won. */
  ghost function Wins(c: Config, s0: State, i: nat, r: nat): nat
    requires WellFormed(c, s0)
  {
    if r == 0 then 0 else Wins(c, s0, i, r - 1) + if Rounds(c, s0, r).winner == i then 1 else 0
  }

  /** In a `LiveRound`, a worker's partition shrinks by one exactly in the rounds it wins. */
  lemma RoundWins(c: Config, s: State, i: nat)
    requires WellFormed(c, s) && LiveRound(c, s) && i < c.k
    ensures var t := RoundStep(c, s);
      |t.parts[i]| + (if t.winner == i then 1 else 0) == |s.parts[i]|
  {
    RoundFields(c, s);
    RoundPopsOnlyWinner(c, s);
  }

  /** Over a live run, a worker's wins plus what is left of its partition is what it started with. */
  lemma {:induction false} RunWins(c: Config, s0: State, i: nat, r: nat)
    requires Start(c, s0) && i < c.k && r <= BlockStart(c.k, c.n)
    requires LiveRun(c, s0, r)
    ensures |Rounds(c, s0, r).parts[i]| + Wins(c, s0, i, r) == |s0.parts[i]|
  {
    if r > 0 {
      RunWins(c, s0, i, r - 1);
      RunStep(c, s0, r);
      RoundWins(c, Rounds(c, s0, r - 1), i);
    }
  }

  /**
   * Under `LiveRound` in every round, each worker wins exactly as many of the
   * `K*N` rounds as its partition had elements.
   */
  lemma WinsMatchPartitions(c: Config, s0: State)
    requires Start(c, s0) && forall i :: 0 <= i < c.k ==> |s0.parts[i]| == c.n
    requires forall q :: 0 <= q < BlockStart(c.k, c.n) ==> LiveAt(c, s0, q)
    ensures forall i :: 0 <= i < c.k ==> Wins(c, s0, i, BlockStart(c.k, c.n)) == |s0.parts[i]|
  {
    LiveRunFromAll(c, s0, BlockStart(c.k, c.n));
    RunUsesInput(c, s0);
    forall i | 0 <= i < c.k ensures Wins(c, s0, i, BlockStart(c.k, c.n)) == |s0.parts[i]| {
      RunWins(c, s0, i, BlockStart(c.k, c.n));
    }
  }

  /** Which workers' blocks end exactly with round `r`. */
  function BlockEnds(c: Config, r: nat): seq<bool> {
    seq(c.k, i requires 0 <= i < c.k => BlockStart(i + 1, c.n) == r)
  }

  /** Which workers' blocks have ended by round `r`. */
  function Finished(c: Config, r: nat): seq<bool> {
    seq(c.k, i requires 0 <= i < c.k => BlockStart(i + 1, c.n) <= r)
  }

  /** A round raises `g_threads_done` by the number of workers passing the check. */
  lemma RoundReported(c: Config, s: State)
    requires WellFormed(c, s)
    ensures RoundStep(c, s).reported == s.reported + CountTrue(Reporting(c, Arbitration(c, PostAll(c, s))))
  {
    RoundFields(c, s);
  }

  /**
   * With `N = 100` and `LiveRound` in every round, the workers counted done in
   * the round after `r` rounds are exactly those whose block ends with it.
   */
  lemma ReportersAreBlockEnds(c: Config, s0: State, r: nat)
    requires Start(c, s0) && c.n == ReportSize
    requires forall q :: 0 <= q < BlockStart(c.k, c.n) ==> LiveAt(c, s0, q)
    ensures Reporting(c, Arbitration(c, PostAll(c, Rounds(c, s0, r)))) == BlockEnds(c, r + 1)
  {
    var s := Rounds(c, s0, r);
    var a := Arbitration(c, PostAll(c, s));
    forall i | 0 <= i < c.k ensures Reporting(c, a)[i] == BlockEnds(c, r + 1)[i] {
      BlockActive(c, s0, i);
      ReportRoundAtBlockEnd(c, s0, i, r);
    }
  }

  /** Hence as many workers are counted done in that round as blocks end with it. */
  lemma ReportCountAtBlockEnd(c: Config, s0: State, r: nat)
    requires Start(c, s0) && c.n == ReportSize
    requires forall q :: 0 <= q < BlockStart(c.k, c.n) ==> LiveAt(c, s0, q)
    ensures ReportsAtBlockEnd(c, s0, r)
  {
    ReportersAreBlockEnds(c, s0, r);
  }

  /** As many workers are counted done in the round after `q` rounds as there are blocks ending with it. */
  ghost predicate ReportsAtBlockEnd(c: Config, s0: State, q: nat)
    requires WellFormed(c, s0)
  {
    CountTrue(Reporting(c, Arbitration(c, PostAll(c, Rounds(c, s0, q))))) == CountTrue(BlockEnds(c, q + 1))
  }

  /** `ReportsAtBlockEnd` holds in each of the first `r` rounds, stated round by round. */
  ghost predicate ReportRun(c: Config, s0: State, r: nat)
    requires WellFormed(c, s0)
  {
    r == 0 || (ReportRun(c, s0, r - 1) && ReportsAtBlockEnd(c, s0, r - 1))
  }

  /** `ReportRun` is `ReportsAtBlockEnd` in each of the first `r` rounds. */
  lemma {:induction false} ReportRunFromEach(c: Config, s0: State, r: nat)
    requires WellFormed(c, s0)
    requires forall q :: 0 <= q < r ==> ReportsAtBlockEnd(c, s0, q)
    ensures ReportRun(c, s0, r)
  {
    if r > 0 {
      ReportRunFromEach(c, s0, r - 1);
    }
  }

  /** When every round so far reports exactly the blocks ending with it, `g_threads_done` counts the ended blocks. */
  lemma {:induction false} RunReported(c: Config, s0: State, r: nat)
    requires Start(c, s0) && c.n >= 1 && ReportRun(c, s0, r)
    ensures Rounds(c, s0, r).reported == CountTrue(Finished(c, r))
  {
    if r == 0 {
      NoneFinishedAtStart(c);
    } else {
      RunReported(c, s0, r - 1);
      RoundReported(c, Rounds(c, s0, r - 1));
      assert Rounds(c, s0, r) == RoundStep(c, Rounds(c, s0, r - 1));
      FinishedStep(c, r);
    }
  }

  /** No block has ended before the first round. */
  lemma NoneFinishedAtStart(c: Config)
    requires c.n >= 1
    ensures CountTrue(Finished(c, 0)) == 0
  {
    forall i | 0 <= i < c.k ensures !Finished(c, 0)[i] {
      assert BlockStart(i + 1, c.n) == BlockStart(i, c.n) + c.n;
    }
    CountTrueZero(Finished(c, 0));
  }

  /** The blocks ended by round `r` are those ended by round `r - 1` and those ending with `r`. */
  lemma FinishedStep(c: Config, r: nat)
    requires r >= 1
    ensures CountTrue(Finished(c, r)) == CountTrue(Finished(c, r - 1)) + CountTrue(BlockEnds(c, r))
  {
    CountTrueSplit(Finished(c, r), Finished(c, r - 1), BlockEnds(c, r));
  }

  /**
   * With `N = 100` under `LiveRound` in every round, `g_threads_done` never
   * exceeds `K` and reaches `K` exactly in round `K*N`, the round in which
   * the last worker's check calls `std::exit`.
   */
  lemma DoneCountReachesK(c: Config, s0: State, r: nat)
    requires Start(c, s0) && c.n == ReportSize && r <= BlockStart(c.k, c.n)
    requires forall q :: 0 <= q < BlockStart(c.k, c.n) ==> LiveAt(c, s0, q)
    ensures Rounds(c, s0, r).reported <= c.k
    ensures Rounds(c, s0, r).reported == c.k <==> r == BlockStart(c.k, c.n)
  {
    forall q | 0 <= q < r ensures ReportsAtBlockEnd(c, s0, q) {
      ReportCountAtBlockEnd(c, s0, q);
    }
    ReportRunFromEach(c, s0, r);
    RunReported(c, s0, r);
    FinishedCount(c, r);
  }

  /** Every block has ended by round `K*N`, and before it the last one has not. */
  lemma FinishedCount(c: Config, r: nat)
    requires c.k >= 1 && r <= BlockStart(c.k, c.n)
    ensures CountTrue(Finished(c, r)) == c.k <==> r == BlockStart(c.k, c.n)
  {
    CountTrueFull(Finished(c, r));
    if r < BlockStart(c.k, c.n) {
      assert !Finished(c, r)[c.k - 1];
    } else {
      forall i | 0 <= i < c.k ensures Finished(c, r)[i] {
        if i + 1 < c.k {
          BlockStartMono(i + 1, c.k, c.n);
        }
      }
    }
  }

  // A run that loses an element: K = 2, N = 2, partitions [1,2] and [3,4]

  /** The example's configuration and input. */
  const Small: Config := Config(2, 2)
  const SmallInput: seq<seq<Int32>> := [[1, 2], [3, 4]]

  /** The state after each of the example's four rounds. */
  function SmallRun(r: nat): State
    requires r <= 4
  {
    if r == 0 then State([0, 0], 0, 0, 2, 0, [[1, 2], [3, 4]], [[], []], [true, true], 0)
    else if r == 1 then State([1, 3], 0, 0, 2, 1, [[2], [3, 4]], [[1], []], [true, true], 0)
    else if r == 2 then State([2, 3], 0, 0, 2, 2, [[], [3, 4]], [[1, 2], []], [true, true], 0)
    // worker 0 leaves its loop; worker 1 wins with 3
    else if r == 3 then State([3, 3], 1, 0, 1, 3, [[], [4]], [[1, 2], [3]], [false, true], 0)
    // the stale slot 0 wins: nobody pops, and 3 is appended again
    else State([3, 4], 0, 0, 1, 4, [[], [4]], [[1, 2], [3, 3]], [false, true], 0)
  }

  /** Round 1: worker 0 wins with 1. */
  lemma SmallRound1()
    ensures RoundStep(Small, SmallRun(0)) == SmallRun(1)
  {
  }

  /** Round 2: worker 0 wins with 2 and fills its block. */
  lemma SmallRound2()
    ensures RoundStep(Small, SmallRun(1)) == SmallRun(2)
  {
    var c, s := Small, SmallRun(1);
    assert Rounds(c, s, 0) == s;
    var p := s.(buffer := [2, 3], pushed := 2);
    assert PostAll(c, s) == p by {
      var q := s.(buffer := [2, 3], pushed := 1);
      assert PostUpTo(c, s, 1) == q;
      assert q.buffer[1 := 3] == [2, 3];
      assert PostUpTo(c, s, 2) == PostOne(c, q, 1) == p;
    }
    var a := p.(pushed := 0, round := 2);
    assert Arbitration(c, p) == a by {
      assert ArgMin([2, 3]) == 0;
    }
    assert ConsumeUpTo(c, a, 2) == SmallRun(2) by {
      assert Popped(a, 0) == [] && Appended(c, a, 0) == [1, 2] && !PassesCheck(c, a, 0);
      assert a.parts[0 := []] == [[], [3, 4]] && a.outs[0 := [1, 2]] == [[1, 2], []];
      assert ConsumeUpTo(c, a, 1) == a.(parts := [[], [3, 4]], outs := [[1, 2], []]);
    }
  }

  /** Round 3: worker 0 leaves its loop, and worker 1 wins with 3. */
  lemma SmallRound3()
    ensures RoundStep(Small, SmallRun(2)) == SmallRun(3)
  {
  }

  /** Round 4: the stale slot 0 wins, nobody pops, and 3 is appended again. */
  lemma SmallRound4()
    ensures RoundStep(Small, SmallRun(3)) == SmallRun(4)
    ensures ArgMin(PostAll(Small, SmallRun(3)).buffer) == 0
  {
    var c, s := Small, SmallRun(3);
    assert Rounds(c, s, 0) == s;
    var p := s.(buffer := [3, 4], pushed := 1);
    assert PostAll(c, s) == p by {
      assert PostUpTo(c, s, 1) == s;
      assert PostUpTo(c, s, 2) == p;
    }
    var a := p.(winner := 0, pushed := 0, round := 4);
    assert ArgMin([3, 4]) == 0;
    assert Arbitration(c, p) == a;
    assert ConsumeUpTo(c, a, 2) == SmallRun(4) by {
      assert ConsumeUpTo(c, a, 1) == a;
      assert BlockStart(1, 2) == 2;
      assert Popped(a, 1) == [4] && Appended(c, a, 1) == [3, 3] && !PassesCheck(c, a, 1);
      assert a.parts[1 := [4]] == [[], [4]] && a.outs[1 := [3, 3]] == [[1, 2], [3, 3]];
    }
  }

  /** The example's input is valid and sorted, and it starts the run in `SmallRun(0)`. */
  lemma SmallStart()
    ensures ValidInput(Small, SmallInput) && forall i :: 0 <= i < Small.k ==> Sorted(SmallInput[i])
    ensures Initial(Small, SmallInput) == SmallRun(0)
  {
    var s := Initial(Small, SmallInput);
    assert s.buffer == [0, 0];
    assert s.outs == [[], []];
    assert s.live == [true, true];
  }

  /** The example's run from its start state, round by round. */
  lemma SmallRounds()
    ensures Rounds(Small, Initial(Small, SmallInput), 3) == SmallRun(3)
    ensures Rounds(Small, Initial(Small, SmallInput), 4) == SmallRun(4)
  {
    var c, s0 := Small, Initial(Small, SmallInput);
    SmallStart();
    SmallRound1();
    SmallRound2();
    SmallRound3();
    SmallRound4();
    assert Rounds(c, s0, 1) == RoundStep(c, Rounds(c, s0, 0)) == SmallRun(1);
    assert Rounds(c, s0, 2) == RoundStep(c, Rounds(c, s0, 1)) == SmallRun(2);
    assert Rounds(c, s0, 3) == RoundStep(c, Rounds(c, s0, 2)) == SmallRun(3);
    assert Rounds(c, s0, 4) == RoundStep(c, Rounds(c, s0, 3)) == SmallRun(4);
  }

  /** In round 4 the master picks worker 0, which has left its loop. */
  lemma SmallStalls()
    ensures !LiveRound(Small, SmallRun(3))
  {
    SmallRound4();
  }

  /**
   * From sorted partitions [1,2] and [3,4], the `K*N` rounds output 3 twice
   * and never output 4: worker 0 leaves its loop in round 3, and in round 4
   * its stale slot 0 wins. `LiveRound` fails after three rounds, so the
   * hypothesis of `MergeSortsInput` does not hold here.
   */
  lemma SmallRunLosesLargest()
    ensures ValidInput(Small, SmallInput) && forall i :: 0 <= i < Small.k ==> Sorted(SmallInput[i])
    ensures var e := Rounds(Small, Initial(Small, SmallInput), Small.k * Small.n);
      e.outs == [[1, 2], [3, 3]] && e.parts == [[], [4]]
    ensures !LiveAt(Small, Initial(Small, SmallInput), 3)
  {
    SmallStart();
    SmallRounds();
    SmallStalls();
    assert Small.k * Small.n == 4;
    SmallEnd();
  }

  /** Where the example ends: 3 output twice, 4 left in worker 1's partition. */
  lemma SmallEnd()
    ensures SmallRun(4).outs == [[1, 2], [3, 3]] && SmallRun(4).parts == [[], [4]]
  {
  }
}
