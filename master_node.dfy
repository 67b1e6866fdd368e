/// The run as the program performs it: the global `MasterNode`, the round
/// counter and the workers' vectors, updated in place one round at a time.
module MasterNode {
  import opened Elements
  import opened MergeState
  import opened MergeProperties

  class MergeRun {
    const K: nat
    const N: nat
    /** `MasterNode::buffer_`: one candidate slot per worker; slot 0 also carries the round's minimum. */
    const buffer: array<Int32>
    var winner: nat              // MasterNode::thread_index_
    var pushed: nat              // MasterNode::pushed_elements_
    var running: nat             // MasterNode::running_nodes_
    var round: nat               // g_loop_index
    var parts: seq<seq<Int32>>   // each workerThread's vector_
    var outs: seq<seq<Int32>>    // each workerThread's vector_sorted_
    var live: seq<bool>          // whether each workerThread is still in its main loop
    var reported: nat            // g_threads_done

    function Cfg(): Config {
      Config(K, N)
    }

    ghost function Abstract(): State
      reads this, buffer
    {
      State(buffer[..], winner, pushed, running, round, parts, outs, live, reported)
    }

    ghost predicate Valid()
      reads this, buffer
    {
      WellFormed(Cfg(), Abstract())
    }

    /**
     * The global state before the threads start, with each worker holding its
     * partition already sorted (the `std::sort` of main.cpp:72 is this
     * precondition).
     */
    constructor (k: nat, n: nat, input: seq<seq<Int32>>)
      requires ValidInput(Config(k, n), input)
      requires forall i :: 0 <= i < k ==> Sorted(input[i])
      ensures K == k && N == n && Valid()
      ensures Abstract() == Initial(Config(k, n), input)
      ensures fresh(buffer)
    {
      K, N := k, n;
      buffer := new Int32[k](_ => 0);
      winner, pushed, running, round := 0, 0, k, 0;
      parts := input;
      outs := seq(k, _ => []);
      live := seq(k, _ => true);
      reported := 0;
      new;
      CountTrueFull(live);
      assert buffer[..] == seq(k, _ => 0);
    }

    /**
     * Worker `i` before the first barrier: post the head of its partition, or,
     * on finding it empty, leave the main loop, drop `running_nodes_` and post
     * `INT_MAX` (main.cpp:73-78, main.cpp:112-118). A worker that has left
     * posts nothing more.
     */
    method PostCandidate(i: nat)
      requires buffer.Length == K && Shaped(Cfg(), Abstract()) && i < K
      requires live[i] && parts[i] == [] ==> running >= 1
      modifies this, buffer
      ensures Abstract() == PostOne(Cfg(), old(Abstract()), i)
    {
      if live[i] {
        if parts[i] != [] {
          buffer[i] := parts[i][0];
          pushed := pushed + 1;
        } else {
          running := running - 1;
          buffer[i] := IntMax;
          live := live[i := false];
        }
      }
    }

    /** Every worker's posting step, in worker order (the order does not matter: each writes its own slot). */
    method PostPhase()
      requires Valid()
      modifies this, buffer
      ensures Abstract() == PostAll(Cfg(), old(Abstract()))
    {
      ghost var s := Abstract();
      var i := 0;
      while i < K
        invariant i <= K && Abstract() == PostUpTo(Cfg(), s, i)
      {
        PostUpToRunning(Cfg(), s, i);
        PostCandidate(i);
        i := i + 1;
      }
    }

    /**
     * The master once every running worker has posted (main.cpp:147-156):
     * record the first minimum's index, copy the minimum into slot 0, reset
     * the post counter and advance the round.
     */
    method Arbitrate()
      requires buffer.Length == K && Shaped(Cfg(), Abstract())
      requires pushed == running
      modifies this, buffer
      ensures Abstract() == Arbitration(Cfg(), old(Abstract()))
    {
      var w := ArgMin(buffer[..]);
      winner := w;
      buffer[0] := buffer[w];
      pushed := 0;
      round := round + 1;
    }

    /**
     * Worker `i` between the two barriers and after the second one
     * (main.cpp:82-109): pop its head if it won, append slot 0 if the round
     * lies in its output block, and count itself done when its output holds
     * 100 elements in such a round. The block test is written with products,
     * as the program writes it.
     */
    method ConsumeRound(i: nat)
      requires buffer.Length == K && Shaped(Cfg(), Abstract()) && i < K
      requires live[i] ==> parts[i] != []
      modifies this
      ensures Abstract() == ConsumeOne(Cfg(), old(Abstract()), i)
    {
      if live[i] {
        if i == winner {
          parts := parts[i := parts[i][1..]];
        }
        var threadMask := i * N + 1 <= round && round <= (i + 1) * N;
        ThreadMask(i, round, N);
        if threadMask {
          outs := outs[i := outs[i] + [buffer[0]]];
        }
        if |outs[i]| == 100 && threadMask {
          reported := reported + 1;
        }
      }
    }

    /** Every worker's step after the first barrier, in worker order. */
    method ConsumePhase()
      requires buffer.Length == K && Shaped(Cfg(), Abstract())
      requires forall i :: 0 <= i < K && live[i] ==> parts[i] != []
      modifies this
      ensures Abstract() == ConsumeUpTo(Cfg(), old(Abstract()), K)
    {
      ghost var a := Abstract();
      var i := 0;
      while i < K
        invariant i <= K && Abstract() == ConsumeUpTo(Cfg(), a, i)
      {
        ConsumeUpToFields(Cfg(), a, i);
        ConsumeRound(i);
        i := i + 1;
      }
    }

    /** One round: every worker posts, the master arbitrates, every worker consumes. */
    method Round()
      requires Valid()
      modifies this, buffer
      ensures Abstract() == RoundStep(Cfg(), old(Abstract())) && Valid()
    {
      ghost var s := Abstract();
      PostPhase();
      PostAllPosted(Cfg(), s);
      Arbitrate();
      ConsumePhase();
      assert Rounds(Cfg(), s, 0) == s;
    }

    /**
     * The master's loop (main.cpp:145): rounds until the counter reaches
     * `K*N`, each round one step of the whole system.
     */
    method Run()
      requires Valid() && round <= K * N
      modifies this, buffer
      ensures Valid() && round == K * N
      ensures Abstract() == Rounds(Cfg(), old(Abstract()), K * N - old(round))
    {
      ghost var s0 := Abstract();
      ghost var done: nat := 0;
      while round != K * N
        invariant Valid() && s0.round + done == round <= K * N
        invariant Abstract() == Rounds(Cfg(), s0, done)
        decreases K * N - round
      {
        Round();
        done := done + 1;
      }
    }
  }

  /**
   * The whole program on sorted partitions (main.cpp:164-188): the global
   * state is built, the master runs its `K*N` rounds, and, in the schedule in
   * which every round is `LiveRound`, the workers' outputs read block after
   * block are the input sorted, each of length `N`, with every partition used up.
   */
  method SortedRun(k: nat, n: nat, input: seq<seq<Int32>>) returns (outs: seq<seq<Int32>>, parts: seq<seq<Int32>>)
    requires ValidInput(Config(k, n), input) && forall i :: 0 <= i < k ==> Sorted(input[i])
    requires forall q :: 0 <= q < k * n ==> LiveAt(Config(k, n), Initial(Config(k, n), input), q)
    ensures Sorted(Flatten(outs)) && multiset(Flatten(outs)) == Bag(input)
    ensures |outs| == |parts| == k
    ensures forall i :: 0 <= i < k ==> |outs[i]| == n && parts[i] == []
  {
    var m := new MergeRun(k, n, input);
    m.Run();
    MergeSortsInput(Config(k, n), input);
    outs, parts := m.outs, m.parts;
  }
}
