/** The pending queues over whole runs: nothing pushed is lost or drained twice. */
module HeapQueues {
  import opened Links
  import opened Heap
  import opened HeapInvariant
  import opened HeapTheorems

  /** A run with the decomposition of memory in each of its states; from state to state a queue
      changes only as the action says. */
  ghost predicate History(h: Heap, acts: seq<Action>, vs: seq<View>)
    decreases |acts|
  {
    && |vs| == |acts| + 1 && Inv(h, vs[0])
    && (|acts| > 0 ==>
          && Enabled(h, acts[0]) && Apply(h, acts[0]).Ok? && QueuesStep(h, acts[0], vs[0], vs[1])
          && History(Apply(h, acts[0]).heap, acts[1..], vs[1..]))
  }

  /** Every run has such a history. */
  lemma {:induction false} RunsHaveHistory(h: Heap, v: View, acts: seq<Action>) returns (vs: seq<View>)
    requires Inv(h, v) && IsRun(h, acts)
    ensures History(h, acts, vs) && vs[0] == v
    decreases |acts|
  {
    if |acts| == 0 {
      vs := [v];
    } else {
      hide Inv, Apply, Enabled, QueuesStep;
      var v' := EveryStep(h, v, acts[0]);
      var rest := RunsHaveHistory(Apply(h, acts[0]).heap, v', acts[1..]);
      vs := [v] + rest;
      assert vs[1..] == rest;
    }
  }

  lemma EveryRunHasHistory(acts: seq<Action>)
    requires IsRun(Empty, acts)
    ensures exists vs :: History(Empty, acts, vs)
  {
    hide Inv, History, IsRun;
    EmptyInv();
    var vs := RunsHaveHistory(Empty, View(map[], map[], map[]), acts);
  }

  /** The blocks that compare-and-swaps put on queue `q` over a run. */
  ghost function Pushed(h: Heap, acts: seq<Action>, vs: seq<View>, q: ListId): multiset<int>
    requires History(h, acts, vs)
    decreases |acts|
  {
    if |acts| == 0 then multiset{}
    else multiset(Pushes(h, acts[0], vs[0], q)) + Pushed(Apply(h, acts[0]).heap, acts[1..], vs[1..], q)
  }

  /** The list an exchange of queue `q` hands to the thread that makes it. */
  ghost function Takes(h: Heap, act: Action, v': View, q: ListId): seq<int> {
    if Drains(h, act, q) then Items(v', Local(act.t, Work)) else []
  }

  /** The blocks that exchanges of queue `q` hand to the threads that make them. */
  ghost function Drained(h: Heap, acts: seq<Action>, vs: seq<View>, q: ListId): multiset<int>
    requires History(h, acts, vs)
    decreases |acts|
  {
    if |acts| == 0 then multiset{}
    else multiset(Takes(h, acts[0], vs[1], q)) + Drained(Apply(h, acts[0]).heap, acts[1..], vs[1..], q)
  }

  /** What exchanges took from a queue and what is still on it is exactly what was on it and
      what compare-and-swaps pushed, over every run. */
  lemma {:induction false} QueuesConserve(h: Heap, acts: seq<Action>, vs: seq<View>, a: nat, c: nat)
    requires History(h, acts, vs)
    ensures multiset(Items(vs[0], Pending(a, c))) + Pushed(h, acts, vs, Pending(a, c))
         == Drained(h, acts, vs, Pending(a, c)) + multiset(Items(vs[|acts|], Pending(a, c)))
    decreases |acts|
  {
    hide Inv, Apply, Enabled, Items, Pushes, Takes;
    if |acts| > 0 {
      var q, h' := Pending(a, c), Apply(h, acts[0]).heap;
      QueuesConserve(h', acts[1..], vs[1..], a, c);
      OneStep(h, acts[0], vs[0], vs[1], q);
      Telescope(multiset(Items(vs[0], q)), multiset(Pushes(h, acts[0], vs[0], q)),
                multiset(Takes(h, acts[0], vs[1], q)), multiset(Items(vs[1], q)),
                Pushed(h', acts[1..], vs[1..], q), Drained(h', acts[1..], vs[1..], q), multiset(Items(vs[|acts|], q)));
    }
  }

  lemma OneStep(h: Heap, act: Action, v: View, v': View, q: ListId)
    requires QueueStep(h, act, v, v', q)
    ensures multiset(Items(v, q)) + multiset(Pushes(h, act, v, q))
         == multiset(Takes(h, act, v', q)) + multiset(Items(v', q))
  {
    hide Items;
    if Drains(h, act, q) { assert Pushes(h, act, v, q) == []; }
  }

  lemma Telescope(first: multiset<int>, gain: multiset<int>, loss: multiset<int>, second: multiset<int>,
                  pushed: multiset<int>, drained: multiset<int>, last: multiset<int>)
    requires first + gain == loss + second && second + pushed == drained + last
    ensures first + (gain + pushed) == (loss + drained) + last
  {
    calc {
      first + (gain + pushed);
      (first + gain) + pushed;
      loss + (second + pushed);
      (loss + drained) + last;
    }
  }
}
