/** The refill ramp of a bin over whole runs. */
module HeapRamp {
  import opened Config
  import opened Links
  import opened Heap
  import opened HeapWalks
  import opened HeapSteps
  import opened HeapTheorems

  function Pow2(n: nat): nat {
    if n == 0 then 1 else 2 * Pow2(n - 1)
  }

  /** The ramp of a bin after `n` misses in a row. */
  function RampAfter(c: nat, n: nat): nat {
    if n == 0 then 0 else NextRamp(c, RampAfter(c, n - 1))
  }

  lemma {:induction false} TargetAfter(c: nat, n: nat)
    requires c < NUM_SIZE_CLASSES
    ensures RefillTarget(c, RampAfter(c, n)) == Min(16 * Pow2(n), RefillCap(c))
  {
    if n > 0 { TargetAfter(c, n - 1); }
  }

  /** Thread `t` asks for a block of class `c` and finds its bin empty. */
  predicate Misses(h: Heap, act: Action, t: nat, c: nat) {
    act.DoMalloc? && act.t == t && RequestToClass(act.size) == c && Head(h.mem, Bin(t, c)) == 0
  }

  /** Thread `t` empties its bin of class `c` at exit. */
  predicate Empties(h: Heap, act: Action, t: nat, c: nat) {
    act.DoStep? && act.t == t && PcOf(h, t) == Flush(c)
  }

  function Counted(h: Heap, act: Action, t: nat, c: nat, n: nat): nat {
    if Misses(h, act, t, c) then n + 1 else if Empties(h, act, t, c) then 0 else n
  }

  /** The misses of a bin since it was last emptied, counting from `n` at the start of the run. */
  function MissCount(h: Heap, acts: seq<Action>, t: nat, c: nat, n: nat): nat
    decreases |acts|
  {
    if |acts| == 0 || Apply(h, acts[0]).Fault? then n
    else MissCount(Apply(h, acts[0]).heap, acts[1..], t, c, Counted(h, acts[0], t, c, n))
  }

  lemma FlushRamp(h: Heap, t: nat, d: nat, bin: ListId)
    requires StepFlush(h, t, d).Ok? && bin.Bin?
    ensures Ramp(StepFlush(h, t, d).heap, bin) == if bin == Bin(t, d) && d < NUM_SIZE_CLASSES then 0 else Ramp(h, bin)
  {
    hide StepFlush;
  }

  lemma MallocRamp(h: Heap, t: nat, d: nat, bin: ListId)
    requires Malloc(h, t, d).Ok? && bin.Bin?
    ensures Ramp(Malloc(h, t, d).heap, bin)
         == if bin == Bin(t, d) && Head(h.mem, bin) == 0 then NextRamp(d, Ramp(h, bin)) else Ramp(h, bin)
  {
    hide Head, Pop, NextRamp, RefillTarget;
  }

  lemma StepRamp(h: Heap, u: nat, ch: Choice, t: nat, c: nat, n: nat)
    requires StepThread(h, u, ch).Ok? && c < NUM_SIZE_CLASSES && Ramp(h, Bin(t, c)) == RampAfter(c, n)
    ensures Ramp(StepThread(h, u, ch).heap, Bin(t, c)) == RampAfter(c, Counted(h, DoStep(u, ch), t, c, n))
  {
    if PcOf(h, u).Flush? {
      hide StepFlush;
      FlushRamp(h, u, PcOf(h, u).cls, Bin(t, c));
    } else {
      hide StepThread;
      StepFramed(h, u, ch);
    }
  }

  lemma ActionRamp(h: Heap, act: Action, t: nat, c: nat, n: nat)
    requires Apply(h, act).Ok? && c < NUM_SIZE_CLASSES && Ramp(h, Bin(t, c)) == RampAfter(c, n)
    ensures Ramp(Apply(h, act).heap, Bin(t, c)) == RampAfter(c, Counted(h, act, t, c, n))
  {
    hide StepThread, Malloc, NextRamp;
    match act
    case DoMalloc(u, size) => MallocRamp(h, u, RequestToClass(size), Bin(t, c));
    case DoStep(u, ch) => StepRamp(h, u, ch, t, c, n);
    case _ =>
  }

  lemma {:induction false} RampFollows(h: Heap, acts: seq<Action>, t: nat, c: nat, n: nat)
    requires Run(h, acts).Ok? && c < NUM_SIZE_CLASSES && Ramp(h, Bin(t, c)) == RampAfter(c, n)
    ensures Ramp(Run(h, acts).heap, Bin(t, c)) == RampAfter(c, MissCount(h, acts, t, c, n))
    decreases |acts|
  {
    hide Apply, Counted, RampAfter;
    if |acts| > 0 {
      ActionRamp(h, acts[0], t, c, n);
      RampFollows(Apply(h, acts[0]).heap, acts[1..], t, c, Counted(h, acts[0], t, c, n));
    }
  }

  /** In every run, a bin that has missed `n` times since it was last emptied refills with 16 blocks
      doubled `n` times, capped at half its limit. */
  lemma RampDoubles(acts: seq<Action>, t: nat, c: nat)
    requires IsRun(Empty, acts) && c < NUM_SIZE_CLASSES
    ensures Run(Empty, acts).Ok?
    ensures RefillTarget(c, Ramp(Run(Empty, acts).heap, Bin(t, c)))
         == Min(16 * Pow2(MissCount(Empty, acts, t, c, 0)), RefillCap(c))
  {
    hide IsRun, RefillTarget;
    NoGuardFires(acts);
    RampFollows(Empty, acts, t, c, 0);
    TargetAfter(c, MissCount(Empty, acts, t, c, 0));
  }
}
