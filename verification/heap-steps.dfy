/** The heap machine: what a step of a thread leaves alone. */
module HeapSteps {
  import opened Heap

  /** A step moves only its own thread's program point; it makes or gives up a slab only where
      the code does, and touches only partial lists of the class it works on. */
  ghost predicate Framed(h: Heap, h': Heap, t: nat, pc: Pc, span: int) {
    && OtherPcs(h, h', t)
    && (!pc.Flush? ==> h'.ramp == h.ramp)
    && (!pc.Extract? ==> h'.slabs.Keys <= h.slabs.Keys)
    && (!pc.Fold? ==> h.slabs.Keys <= h'.slabs.Keys)
    && (pc.Fold? ==> h.slabs.Keys - {FoldSlab(h, t)} <= h'.slabs.Keys)
    && (pc.Fold? && h'.slabs.Keys != h.slabs.Keys ==> h'.pcs == h.pcs)
    && (pc.Extract? ==> h'.slabs.Keys <= h.slabs.Keys + {span})
    && (pc.Extract? && span !in h.slabs && span in h'.slabs ==> h'.slabs[span].cls == pc.cls && span != 0)
    && (pc.Extract? && WantsSlab(h, t, pc.cls) && span != 0 ==> span in h'.slabs)
    && (!(pc.Extract? && span in h.slabs) ==> SameClasses(h, h'))
    && (if pc.Fold? then PartialBut(h, h', Key(pc.arena, pc.cls))
        else if pc.Extract? || pc.ExtractFrom? then PartialBut(h, h', Key(Home(t), pc.cls))
        else h'.partial == h.partial)
  }

  lemma StepFramed(h: Heap, t: nat, ch: Choice)
    requires StepThread(h, t, ch).Ok?
    ensures Framed(h, StepThread(h, t, ch).heap, t, PcOf(h, t), ch.span)
  {
    hide StepRefillLock, StepRefillSwap, StepRefillCut, StepSteal, StepStealSwap, StepStealCut, StepExtract, StepExtractFrom,
         StepFinish, StepFold, StepPushLoad, StepPushLink, StepPushCas, StepOverflow, StepSplit, StepReturn, StepDrain, StepFlush,
         StepPurgeLock, StepPurgeSwap;
  }

  /** A thread that refills a bin keeps the class it refills for. */
  lemma StepServes(h: Heap, t: nat, ch: Choice)
    requires StepThread(h, t, ch).Ok?
    ensures Serves(h, StepThread(h, t, ch).heap, t, Serving(PcOf(h, t)))
  {
    hide StepRefillLock, StepRefillSwap, StepRefillCut, StepSteal, StepStealSwap, StepStealCut, StepExtract, StepExtractFrom,
         StepFinish, StepFold, StepPushLoad, StepPushLink, StepPushCas, StepOverflow, StepSplit, StepReturn, StepDrain, StepFlush,
         StepPurgeLock, StepPurgeSwap;
  }

  lemma PcKept(h: Heap, h': Heap, t: nat, u: nat)
    requires OtherPcs(h, h', t) && u != t
    ensures PcOf(h', u) == PcOf(h, u)
  {
    assert (u in h.pcs <==> u in h.pcs - {t}) && (u in h'.pcs <==> u in h'.pcs - {t});
    if u in h.pcs { assert (h.pcs - {t})[u] == h.pcs[u] && (h'.pcs - {t})[u] == h'.pcs[u]; }
  }
}
