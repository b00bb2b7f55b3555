/** The heap machine: a call that misses its bin is served with the class it asked for. */
module HeapRequests {
  import opened Config
  import opened Heap
  import opened HeapSteps
  import opened HeapTheorems
  import opened HeapGuarantees

  /** The class of the last request of thread `t`, which was `c` before. */
  function LastAsked(acts: seq<Action>, t: nat, c: int): int
    decreases |acts|
  {
    if |acts| == 0 then c
    else LastAsked(acts[1..], t, if acts[0].DoMalloc? && acts[0].t == t then RequestToClass(acts[0].size) else c)
  }

  /** What a thread refills for is what it asked for last. */
  predicate For(pc: Pc, c: int) {
    Serving(pc) == -1 || Serving(pc) == c
  }

  lemma StepFor(h: Heap, u: nat, ch: Choice, t: nat, c: int)
    requires StepThread(h, u, ch).Ok? && For(PcOf(h, t), c)
    ensures For(PcOf(StepThread(h, u, ch).heap, t), c)
  {
    hide StepThread, Serving;
    StepServes(h, u, ch);
    StepFramed(h, u, ch);
    if u != t { PcKept(h, StepThread(h, u, ch).heap, u, t); }
  }

  lemma ActionFor(h: Heap, act: Action, t: nat, c: int)
    requires Enabled(h, act) && Apply(h, act).Ok? && For(PcOf(h, t), c)
    ensures For(PcOf(Apply(h, act).heap, t), LastAsked([act], t, c))
  {
    hide StepThread, Malloc, Free, FreshSpan;
    assert [act][1..] == [];
    var h' := Apply(h, act).heap;
    match act
    case DoStep(u, ch) => StepFor(h, u, ch, t, c);
    case DoMalloc(u, _) => if u != t { PcKept(h, h', u, t); }
    case DoFree(u, _) => if u != t { PcKept(h, h', u, t); }
    case _ =>
  }

  lemma {:induction false} RefillsFollow(h: Heap, acts: seq<Action>, t: nat, c: int)
    requires IsRun(h, acts) && Run(h, acts).Ok? && For(PcOf(h, t), c)
    ensures For(PcOf(Run(h, acts).heap, t), LastAsked(acts, t, c))
    decreases |acts|
  {
    hide Enabled, Apply, For;
    if |acts| > 0 {
      ActionFor(h, acts[0], t, c);
      assert [acts[0]][1..] == [];
      RefillsFollow(Apply(h, acts[0]).heap, acts[1..], t, LastAsked([acts[0]], t, c));
    }
  }

  lemma {:induction false} AskedIsAClass(h: Heap, acts: seq<Action>, t: nat, c: int)
    requires IsRun(h, acts) && Run(h, acts).Ok? && (c == -1 || 1 <= c < NUM_SIZE_CLASSES)
    ensures var a := LastAsked(acts, t, c); a == -1 || 1 <= a < NUM_SIZE_CLASSES
    decreases |acts|
  {
    if |acts| > 0 {
      var act := acts[0];
      if act.DoMalloc? { RequestToClassIsBestFit(act.size); }
      hide Apply;
      AskedIsAClass(Apply(h, act).heap, acts[1..], t, if act.DoMalloc? && act.t == t then RequestToClass(act.size) else c);
    }
  }

  /** In every run a thread that refills a bin does so for the class it asked for last, and never for class 0. */
  lemma RefillServesRequest(acts: seq<Action>, t: nat)
    requires IsRun(Empty, acts)
    ensures Run(Empty, acts).Ok?
    ensures var n := Serving(PcOf(Run(Empty, acts).heap, t)); n == -1 || (n == LastAsked(acts, t, -1) && 1 <= n < NUM_SIZE_CLASSES)
  {
    hide IsRun, Run, LastAsked;
    NoGuardFires(acts);
    RefillsFollow(Empty, acts, t, -1);
    AskedIsAClass(Empty, acts, t, -1);
  }

  /** No block of class 0 is ever handed out. */
  lemma HandedOutClass(h: Heap, act: Action)
    requires Reachable(h) && Enabled(h, act) && Answers(h, act)
    ensures 1 <= ClassAsked(h, act) < NUM_SIZE_CLASSES
  {
    if act.DoMalloc? {
      RequestToClassIsBestFit(act.size);
    } else {
      hide IsRun, Run, Enabled;
      var acts :| IsRun(Empty, acts) && Run(Empty, acts) == Ok(h);
      RefillServesRequest(acts, act.t);
    }
  }
}
