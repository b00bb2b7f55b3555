/** The page heap: every step keeps the locks and the hints in order. */
module PageHeapLocks {
  import opened PageHeap
  import opened PageHeapInvariant
  import opened PageHeapSteps

  // ----- Locks --------------------------------------------------------------

  lemma LocksMove(s: State, s': State, t: nat, e: Effect)
    requires LocksOk(s) && t < |s.pcs| && |s'.pcs| == |s.pcs| && s'.pcs == s.pcs[t := s'.pcs[t]]
    requires Effected(s, s', t, e)
    ensures LocksOk(s')
  {
    hide Holds;
    forall k, u {:trigger k in Holds(s'.pcs[u])} | 0 <= u < |s'.pcs|
      ensures k in Holds(s'.pcs[u]) <==> k in s'.locks && s'.locks[k] == u
    {
      assert k in Holds(s.pcs[u]) <==> k in s.locks && s.locks[k] == u;
      if e.Drop? {
        assert e.k in Holds(s.pcs[t]);
      }
    }
  }

  // ----- Hints --------------------------------------------------------------

  lemma HintsSame(s: State, s': State, t: nat)
    requires HintsOk(s) && t < |s.pcs| && |s'.pcs| == |s.pcs| && s'.pcs == s.pcs[t := s'.pcs[t]]
    requires s'.bins == s.bins && s'.hints == s.hints
    requires forall k {:trigger s.locks[k]} :: k in s.locks && s.locks[k] != t ==> k in s'.locks && s'.locks[k] == s.locks[k]
    requires forall k {:trigger s'.locks[k]} :: k in s'.locks && s'.locks[k] != t ==> k in s.locks && s.locks[k] == s'.locks[k]
    requires Unmarked(s.pcs[t]) == 0 && Unmarked(s'.pcs[t]) == 0
    requires s'.pcs[t].SStale? ==> Bin(s.bins, s'.pcs[t].p) == []
    ensures HintsOk(s')
  {
    hide Unmarked, Bin;
    forall p: nat ensures HintFine(s', p) {
      assert HintFine(s, p);
    }
    forall u | 0 <= u < |s'.pcs| && s'.pcs[u].SStale? ensures Bin(s'.bins, s'.pcs[u].p) == [] {
      if u != t { assert s'.pcs[u] == s.pcs[u]; }
    }
  }

  lemma HintsTouch(s: State, s': State, t: nat, p: nat)
    requires LocksOk(s) && HintsOk(s) && t < |s.pcs| && |s'.pcs| == |s.pcs| && s'.pcs == s.pcs[t := s'.pcs[t]]
    requires p in Holds(s.pcs[t]) && s'.locks == s.locks
    requires forall q: nat {:trigger Bin(s'.bins, q)} :: q != p ==> Bin(s'.bins, q) == Bin(s.bins, q)
    requires forall q: nat {:trigger q in s'.hints} :: q != p ==> (q in s'.hints <==> q in s.hints)
    requires Unmarked(s.pcs[t]) == 0 || Unmarked(s.pcs[t]) == p
    requires Unmarked(s'.pcs[t]) == 0 || Unmarked(s'.pcs[t]) == p
    requires HintFine(s', p)
    requires !s'.pcs[t].SStale?
    ensures HintsOk(s')
  {
    hide Unmarked, Bin, Holds;
    forall q: nat ensures HintFine(s', q) {
      assert HintFine(s, q);
    }
    forall u | 0 <= u < |s'.pcs| && s'.pcs[u].SStale? ensures Bin(s'.bins, s'.pcs[u].p) == [] {
      assert s'.pcs[u] == s.pcs[u];
      StaleHolds(s.pcs[u]);
      assert s.pcs[u].p != p;
    }
  }

  lemma StaleHolds(pc: Pc)
    requires pc.SStale?
    ensures pc.p in Holds(pc)
  {
  }

  lemma UntouchedHints(s: State, t: nat, ch: Choice)
    requires Control(s) && t < |s.pcs| && Touches(s.pcs[t]) == 0
    ensures HintsOk(Step(s, t, ch))
  {
    hide LocksOk, HintsOk;
    var s' := Step(s, t, ch);
    StepFacts(s, t, ch);
    OthersLocks(s, s', t, LockEffect(s.pcs[t]));
    hide Step, PcOk;
    HintsSame(s, s', t);
  }

  lemma OthersLocks(s: State, s': State, t: nat, e: Effect)
    requires LocksOk(s) && t < |s.pcs| && t < |s'.pcs| && Effected(s, s', t, e)
    ensures forall k {:trigger s.locks[k]} :: k in s.locks && s.locks[k] != t ==> k in s'.locks && s'.locks[k] == s.locks[k]
    ensures forall k {:trigger s'.locks[k]} :: k in s'.locks && s'.locks[k] != t ==> k in s.locks && s.locks[k] == s'.locks[k]
  {
    hide Holds;
    if e.Drop? { assert e.k in Holds(s.pcs[t]); }
  }

  lemma PopHints(s: State, t: nat, ch: Choice)
    requires Control(s) && t < |s.pcs| && (s.pcs[t].EPop? || s.pcs[t].SPop?)
    ensures HintsOk(Step(s, t, ch))
  {
    hide LocksOk, HintsOk;
    var p, s' := Touches(s.pcs[t]), Step(s, t, ch);
    Owner(s, t, p);
    assert HintFine(s, p) by { Fine(s, p); }
    if Bin(s.bins, p) == [] {
      HintsSame(s, s', t);
    } else {
      HintsTouch(s, s', t, p);
    }
  }

  lemma Owner(s: State, t: nat, k: nat)
    requires LocksOk(s) && t < |s.pcs| && k in Holds(s.pcs[t])
    ensures k in s.locks && s.locks[k] == t
  {
    hide Holds;
  }

  lemma Fine(s: State, p: nat)
    requires HintsOk(s)
    ensures HintFine(s, p)
  {
    hide HintFine;
  }

  lemma PushHints(s: State, t: nat, ch: Choice)
    requires Control(s) && t < |s.pcs| && (s.pcs[t].SPush? || s.pcs[t].FPush?)
    ensures HintsOk(Step(s, t, ch))
  {
    hide LocksOk, HintsOk, Retention;
    var p, s' := Touches(s.pcs[t]), Step(s, t, ch);
    Owner(s, t, p);
    if s'.bins == s.bins {
      HintsSame(s, s', t);
    } else {
      HintsTouch(s, s', t, p);
    }
  }

  lemma MarkHints(s: State, t: nat, ch: Choice)
    requires Control(s) && t < |s.pcs| && Unmarked(s.pcs[t]) != 0
    ensures HintsOk(Step(s, t, ch))
  {
    hide LocksOk, HintsOk;
    var p, s' := Unmarked(s.pcs[t]), Step(s, t, ch);
    Owner(s, t, p);
    Fine(s, p);
    HintsTouch(s, s', t, p);
  }

  lemma TakeHints(s: State, t: nat, ch: Choice)
    requires Control(s) && t < |s.pcs| && (s.pcs[t].PTake? || s.pcs[t].SStale?)
    ensures HintsOk(Step(s, t, ch))
  {
    hide LocksOk;
    var p, s' := s.pcs[t].p, Step(s, t, ch);
    Owner(s, t, p);
    HintsTouch(s, s', t, p);
  }

  lemma StepHints(s: State, t: nat, ch: Choice)
    requires Control(s) && t < |s.pcs|
    ensures HintsOk(Step(s, t, ch))
  {
    hide Control, HintsOk, Step;
    var pc := s.pcs[t];
    if pc.EPop? || pc.SPop? {
      PopHints(s, t, ch);
    } else if pc.SPush? || pc.FPush? {
      PushHints(s, t, ch);
    } else if Unmarked(pc) != 0 {
      MarkHints(s, t, ch);
    } else if pc.PTake? || pc.SStale? {
      TakeHints(s, t, ch);
    } else {
      SmallTouch(s, t);
      UntouchedHints(s, t, ch);
    }
  }

  lemma SmallTouch(s: State, t: nat)
    requires Control(s) && t < |s.pcs| && Unmarked(s.pcs[t]) == 0
    requires var pc := s.pcs[t]; !pc.EPop? && !pc.SPop? && !pc.SPush? && !pc.FPush? && !pc.PTake? && !pc.SStale?
    ensures Touches(s.pcs[t]) == 0
  {
    hide LocksOk, HintsOk;
  }
}
