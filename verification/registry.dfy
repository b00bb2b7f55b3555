/**
 The allocation registry (src/debug_aid.cpp): a shard is an open-addressing
 hash table with linear probing, tombstones and rehashing.  It is proved to be
 a finite map from live pointers to their records.
 */
module Registry {
  import opened Bits
  import Config

  /** A slot of the table.  A null pointer marks an empty slot, 1 a tombstone. */
  datatype Record = Record(ptr: int, size: nat, usable: nat, sequence: nat, thread: nat, cls: nat)

  datatype Option<T> = None | Some(value: T)

  const NULL: int := 0
  const TOMBSTONE: int := 1
  const BLANK: Record := Record(NULL, 0, 0, 0, 0, 0)
  const GOLDEN: nat := 0x9E37_79B9_7F4A_7C15
  const WORD: nat := Config.WORD
  const INITIAL_CAPACITY: nat := 1024
  const SHARD_COUNT: nat := 16

  predicate Live(r: Record) {
    r.ptr != NULL && r.ptr != TOMBSTONE
  }

  /** Fibonacci hashing in 64-bit arithmetic. */
  function HashPtr(p: int, cap: nat): (h: nat)
    requires cap > 0
    ensures h < cap
  {
    p / 16 * GOLDEN % WORD % cap
  }

  /** The slot `d` steps after slot `h`, around the end of the table. */
  function Slot(h: nat, d: nat, cap: nat): (i: nat)
    requires h < cap && d <= cap
    ensures i < cap
  {
    if h + d < cap then h + d else h + d - cap
  }

  /** The mask the code applies to the product is the remainder, since tables have a power of two of slots. */
  lemma HashMask(p: int, cap: nat)
    requires PowerOfTwo(cap)
    ensures And(p / 16 * GOLDEN % WORD, cap - 1) == HashPtr(p, cap)
  {
    hide PowerOfTwo, And;
    MaskLow(p / 16 * GOLDEN % WORD, cap);
  }

  /** Masking the next slot number goes around the end of the table. */
  lemma StepMask(slot: nat, cap: nat)
    requires PowerOfTwo(cap) && slot < cap
    ensures And(slot + 1, cap - 1) == if slot + 1 == cap then 0 else slot + 1
  {
    hide PowerOfTwo, And;
    MaskLow(slot + 1, cap);
  }

  /** How many steps slot `i` is after slot `h`. */
  function Dist(h: nat, i: nat, cap: nat): (d: nat)
    requires h < cap && i < cap
    ensures d < cap && Slot(h, d, cap) == i
  {
    if h <= i then i - h else i + cap - h
  }

  // ----- Tables as sequences ------------------------------------------------

  /** A lookup that starts at the hash slot of `s[i]` passes no empty slot before `i`. */
  ghost predicate Findable(s: seq<Record>, i: nat)
    requires i < |s|
  {
    var h := HashPtr(s[i].ptr, |s|);
    forall d: nat {:trigger Slot(h, d, |s|)} :: d < Dist(h, i, |s|) ==> s[Slot(h, d, |s|)].ptr != NULL
  }

  /** The table holds exactly the entries of `m`, each once and findable. */
  ghost predicate Holds(s: seq<Record>, m: map<int, Record>) {
    && (forall i :: 0 <= i < |s| && Live(s[i]) ==> s[i].ptr in m && m[s[i].ptr] == s[i] && Findable(s, i))
    && (forall p {:trigger p in m} :: p in m ==> exists i :: 0 <= i < |s| && Live(s[i]) && s[i].ptr == p)
    && (forall i, j :: 0 <= i < j < |s| && Live(s[i]) && Live(s[j]) ==> s[i].ptr != s[j].ptr)
  }

  /** The number of slots that are live, tombstones, or empty. */
  function Lives(s: seq<Record>): nat {
    if |s| == 0 then 0 else Lives(s[..|s| - 1]) + if Live(s[|s| - 1]) then 1 else 0
  }

  function Tombs(s: seq<Record>): nat {
    if |s| == 0 then 0 else Tombs(s[..|s| - 1]) + if s[|s| - 1].ptr == TOMBSTONE then 1 else 0
  }

  lemma {:induction false} CountsUpdate(s: seq<Record>, i: nat, r: Record)
    requires i < |s|
    ensures Lives(s[i := r]) == Lives(s) + (if Live(r) then 1 else 0) - (if Live(s[i]) then 1 else 0)
    ensures Tombs(s[i := r]) == Tombs(s) + (if r.ptr == TOMBSTONE then 1 else 0) - (if s[i].ptr == TOMBSTONE then 1 else 0)
  {
    var n, t := |s| - 1, s[i := r];
    if i < n {
      CountsUpdate(s[..n], i, r);
      assert t[..n] == s[..n][i := r];
    } else {
      assert t[..n] == s[..n];
    }
  }

  /** If every slot is taken, the live slots and the tombstones fill the table. */
  lemma {:induction false} TakenCounts(s: seq<Record>)
    ensures Lives(s) + Tombs(s) <= |s|
    ensures (forall i :: 0 <= i < |s| ==> s[i].ptr != NULL) ==> Lives(s) + Tombs(s) == |s|
  {
    if |s| > 0 { TakenCounts(s[..|s| - 1]); }
  }

  /** A full turn around the table visits every slot. */
  lemma FullTurn(s: seq<Record>, h: nat)
    requires h < |s|
    requires forall d: nat {:trigger Slot(h, d, |s|)} :: d < |s| ==> s[Slot(h, d, |s|)].ptr != NULL
    ensures Lives(s) + Tombs(s) == |s|
  {
    forall i | 0 <= i < |s| ensures s[i].ptr != NULL {
      assert Slot(h, Dist(h, i, |s|), |s|) == i;
    }
    TakenCounts(s);
  }

  /** The probe from the hash slot of `p` has passed `d` taken slots, none of them holding `p`. */
  ghost predicate Probed(s: seq<Record>, p: int, d: nat)
    requires |s| > 0 && d <= |s|
  {
    var h := HashPtr(p, |s|);
    forall e: nat {:trigger Slot(h, e, |s|)} :: e < d ==>
      s[Slot(h, e, |s|)].ptr != NULL && !(Live(s[Slot(h, e, |s|)]) && s[Slot(h, e, |s|)].ptr == p)
  }

  /** A probe that meets an empty slot has proved the pointer absent. */
  lemma ProbeMiss(s: seq<Record>, m: map<int, Record>, p: int, d: nat)
    requires |s| > 0 && Holds(s, m) && d < |s| && Probed(s, p, d)
    requires s[Slot(HashPtr(p, |s|), d, |s|)].ptr == NULL
    ensures p !in m
  {
    forall i | 0 <= i < |s| && Live(s[i]) ensures s[i].ptr != p {
      assert Findable(s, i);
      assert Slot(HashPtr(s[i].ptr, |s|), Dist(HashPtr(s[i].ptr, |s|), i, |s|), |s|) == i;
    }
  }

  /** Writing a new entry into a slot a probe for it can reach keeps the table a map. */
  lemma InsertHolds(s: seq<Record>, m: map<int, Record>, r: Record, d: nat)
    requires |s| > 0 && Holds(s, m) && Live(r) && r.ptr !in m && d < |s|
    requires Probed(s, r.ptr, d)
    requires !Live(s[Slot(HashPtr(r.ptr, |s|), d, |s|)])
    ensures Holds(s[Slot(HashPtr(r.ptr, |s|), d, |s|) := r], m[r.ptr := r])
  {
    var j := Slot(HashPtr(r.ptr, |s|), d, |s|);
    var s', m' := s[j := r], m[r.ptr := r];
    forall i | 0 <= i < |s'| && Live(s'[i]) ensures s'[i].ptr in m' && m'[s'[i].ptr] == s'[i] && Findable(s', i) {
      if i != j { assert Findable(s, i); }
    }
    forall p {:trigger p in m'} | p in m' ensures exists i :: 0 <= i < |s'| && Live(s'[i]) && s'[i].ptr == p {
      if p == r.ptr {
        assert s'[j] == r;
      } else {
        var i :| 0 <= i < |s| && Live(s[i]) && s[i].ptr == p;
        assert s'[i] == s[i];
      }
    }
  }

  /** Turning a live slot into a tombstone keeps every other entry findable. */
  lemma EraseHolds(s: seq<Record>, m: map<int, Record>, i: nat)
    requires i < |s| && Holds(s, m) && Live(s[i])
    ensures Holds(s[i := s[i].(ptr := TOMBSTONE)], m - {s[i].ptr})
  {
    var s', m' := s[i := s[i].(ptr := TOMBSTONE)], m - {s[i].ptr};
    forall j | 0 <= j < |s'| && Live(s'[j]) ensures s'[j].ptr in m' && m'[s'[j].ptr] == s'[j] && Findable(s', j) {
      assert Findable(s, j);
    }
    forall p {:trigger p in m'} | p in m' ensures exists j :: 0 <= j < |s'| && Live(s'[j]) && s'[j].ptr == p {
      var j :| 0 <= j < |s| && Live(s[j]) && s[j].ptr == p;
      assert s'[j] == s[j];
    }
  }

  // ----- Byte sums ----------------------------------------------------------

  ghost function Pick(m: map<int, Record>): (p: int)
    requires exists p :: p in m
    ensures p in m
  {
    var p :| p in m;
    p
  }

  ghost function Bytes(m: map<int, Record>): nat
    decreases |m|
  {
    if exists p :: p in m then
      assert |(m - {Pick(m)}).Keys| == |m.Keys - {Pick(m)}|;
      m[Pick(m)].size + Bytes(m - {Pick(m)})
    else 0
  }

  lemma {:induction false} BytesWithout(m: map<int, Record>, p: int)
    requires p in m
    ensures Bytes(m) == m[p].size + Bytes(m - {p})
    decreases |m|
  {
    var q := Pick(m);
    if q != p {
      assert |(m - {q}).Keys| == |m.Keys - {q}| && |(m - {p}).Keys| == |m.Keys - {p}|;
      BytesWithout(m - {q}, p);
      BytesWithout(m - {p}, q);
      assert m - {q} - {p} == m - {p} - {q};
    }
  }

  lemma BytesWith(m: map<int, Record>, p: int, r: Record)
    requires p !in m
    ensures Bytes(m[p := r]) == Bytes(m) + r.size && |m[p := r]| == |m| + 1
  {
    BytesWithout(m[p := r], p);
    assert m[p := r] - {p} == m;
  }

  lemma MapWithout(m: map<int, Record>, p: int)
    requires p in m
    ensures |m - {p}| == |m| - 1
  {
    assert m == (m - {p})[p := m[p]];
  }

  // ----- The shard ----------------------------------------------------------

  class Shard {
    var table: array<Record>
    var count: nat
    var tombstones: nat
    var liveBytes: nat
    /** The records of the live pointers. */
    ghost var records: map<int, Record>

    /** The table is the map, and the counters are exact. */
    ghost predicate Valid()
      reads this, table
    {
      && table.Length >= INITIAL_CAPACITY && PowerOfTwo(table.Length)
      && Holds(table[..], records)
      && Lives(table[..]) == count == |records|
      && Tombs(table[..]) == tombstones
      && liveBytes == Bytes(records)
    }

    /** Some slot is empty, so that every probe ends. */
    ghost predicate HasRoom()
      reads this
    {
      count + tombstones < table.Length
    }

    constructor ()
      ensures Valid() && HasRoom() && records == map[] && fresh(table)
      ensures table.Length == INITIAL_CAPACITY && count == tombstones == 0
    {
      table := new Record[INITIAL_CAPACITY](_ => BLANK);
      count, tombstones, liveBytes := 0, 0, 0;
      records := map[];
      new;
      Kilo();
      BlankTable(table[..]);
    }

    /** The inner loop of `GrowShard`: put a record into the first empty slot from its hash slot on. */
    static method Place(nt: array<Record>, r: Record, ghost moved: map<int, Record>)
      requires PowerOfTwo(nt.Length) && Holds(nt[..], moved) && Live(r) && r.ptr !in moved
      requires Lives(nt[..]) + Tombs(nt[..]) < nt.Length
      modifies nt
      ensures Holds(nt[..], moved[r.ptr := r])
      ensures Lives(nt[..]) == old(Lives(nt[..])) + 1 && Tombs(nt[..]) == old(Tombs(nt[..]))
    {
      hide PowerOfTwo, And, HashPtr;
      var cap := nt.Length;
      HashMask(r.ptr, cap);
      var slot := And(r.ptr / 16 * GOLDEN % WORD, cap - 1);
      ghost var h, d, was := slot, 0, nt[..];
      while nt[slot].ptr != NULL
        invariant d < cap && slot == Slot(h, d, cap) && nt[..] == was
        invariant forall e: nat {:trigger Slot(h, e, cap)} :: e < d ==> was[Slot(h, e, cap)].ptr != NULL
        decreases cap - d
      {
        if d + 1 == cap { FullTurn(was, h); }
        StepMask(slot, cap);
        slot := And(slot + 1, cap - 1);
        d := d + 1;
      }
      AbsentProbed(was, moved, r.ptr, d);
      InsertHolds(was, moved, r, d);
      CountsUpdate(was, slot, r);
      nt[slot] := r;
      assert nt[..] == was[slot := r];
    }

    /** `GrowShard`: rehash every live record into a table of twice the size. */
    method Grow()
      requires Valid()
      modifies this
      ensures Valid() && HasRoom() && fresh(table)
      ensures records == old(records) && count == old(count) && tombstones == 0 && liveBytes == old(liveBytes)
      ensures table.Length == 2 * old(table.Length)
    {
      hide Holds, Lives, Tombs, Bytes, PowerOfTwo, HashPtr, Findable;
      Doubled(table.Length);
      var cap := table.Length * 2;
      var nt := new Record[cap](_ => BLANK);
      BlankTable(nt[..]);
      ghost var s, moved: map<int, Record> := table[..], map[];
      var i := 0;
      while i < table.Length
        invariant table == old(table) && records == old(records) && count == old(count) && liveBytes == old(liveBytes)
        invariant 0 <= i <= table.Length && nt.Length == cap && fresh(nt) && table[..] == s
        invariant Holds(nt[..], moved) && Lives(nt[..]) <= i && Tombs(nt[..]) == 0 && Lives(nt[..]) == |moved|
        invariant Gathers(s, records, i, moved)
      {
        if table[i].ptr != NULL && table[i].ptr != TOMBSTONE {
          NotYetMoved(s, records, moved, i);
          Place(nt, table[i], moved);
          GathersLive(s, records, moved, i);
          BytesWith(moved, s[i].ptr, s[i]);
          moved := moved[s[i].ptr := s[i]];
        } else {
          GathersDead(s, records, moved, i);
        }
        i := i + 1;
      }
      AllMoved(s, records, moved);
      table := nt;
      tombstones := 0;
    }

    /** The probe loop of `Insert`: the slot that holds the pointer, or else the
        slot for it, which is the first tombstone passed or the empty slot at the end. */
    method FindSlot(ptr: int) returns (found: bool, slot: nat, ghost d: nat)
      requires Valid() && (HasRoom() || ptr in records) && ptr != NULL && ptr != TOMBSTONE
      ensures slot < table.Length && d < table.Length && slot == Slot(HashPtr(ptr, table.Length), d, table.Length)
      ensures Probed(table[..], ptr, d)
      ensures found <==> ptr in records
      ensures found ==> table[slot] == records[ptr]
      ensures !found ==> !Live(table[slot])
    {
      hide Holds, Lives, Tombs, Bytes, HashPtr, PowerOfTwo, And;
      var cap := table.Length;
      HashMask(ptr, cap);
      slot, d := And(ptr / 16 * GOLDEN % WORD, cap - 1), 0;
      ghost var h := slot;
      var reuse: Option<nat> := None;
      ghost var f, s := 0, table[..];
      while table[slot].ptr != NULL
        invariant d < cap && slot == Slot(h, d, cap)
        invariant Probed(s, ptr, d)
        invariant reuse.Some? ==> f < d && reuse.value == Slot(h, f, cap) && s[reuse.value].ptr == TOMBSTONE
        decreases cap - d
      {
        if table[slot].ptr == TOMBSTONE {
          if reuse.None? { reuse, f := Some(slot), d; }
        } else if table[slot].ptr == ptr {
          LiveIsMapped(s, records, slot);
          return true, slot, d;
        }
        if d + 1 == cap { ProbedFull(s, records, ptr, slot); }
        StepMask(slot, cap);
        slot := And(slot + 1, cap - 1);
        d := d + 1;
      }
      ProbeMiss(s, records, ptr, d);
      found := false;
      if reuse.Some? {
        slot, d := reuse.value, f;
      }
    }

    /** `Insert`: add a record exactly if its pointer is not live yet.  The rehash
        happens at a load of 70%, tombstones included, unless it finds no memory. */
    method Insert(rec: Record, sequence: nat, growOk: bool) returns (ok: bool, existing: Option<Record>)
      requires Valid() && Live(rec) && (HasRoom() || growOk || rec.ptr in records)
      modifies this, table
      ensures Valid() && (table == old(table) || (growOk && fresh(table)))
      ensures growOk && old((count + tombstones) * 10 >= table.Length * 7) ==> fresh(table)
      ensures ok <==> rec.ptr !in old(records)
      ensures ok ==> records == old(records)[rec.ptr := rec.(sequence := sequence)]
      ensures !ok ==> records == old(records) && existing == Some(records[rec.ptr])
      ensures growOk || old((count + tombstones) * 10 < table.Length * 7) ==> HasRoom()
      ensures table == old(table) && ok ==>
                count + tombstones == old(count + tombstones) + (if tombstones < old(tombstones) then 0 else 1)
    {
      hide Holds, Lives, Tombs, Bytes, HashPtr, Probed, PowerOfTwo;
      if (count + tombstones) * 10 >= table.Length * 7 && growOk {
        TakenCounts(table[..]);
        Grow();
      }
      var found, slot, d := FindSlot(rec.ptr);
      if found {
        return false, Some(table[slot]);
      }
      ghost var s := table[..];
      var r := rec.(sequence := sequence);
      InsertHolds(s, records, r, d);
      CountsUpdate(s, slot, r);
      BytesWith(records, r.ptr, r);
      if table[slot].ptr == TOMBSTONE {
        tombstones := tombstones - 1;
      }
      table[slot] := r;
      assert table[..] == s[slot := r];
      count := count + 1;
      liveBytes := liveBytes + rec.size;
      records := records[r.ptr := r];
      return true, None;
    }

    /** A live slot becomes a tombstone, which keeps probe chains intact. */
    method Bury(slot: nat)
      requires Valid() && slot < table.Length && Live(table[slot])
      modifies this, table
      ensures Valid() && table == old(table) && records == old(records) - {old(table[slot].ptr)}
      ensures count + tombstones == old(count + tombstones)
    {
      hide Holds, Lives, Tombs, Bytes, HashPtr, PowerOfTwo;
      ghost var s, ptr := table[..], table[slot].ptr;
      LiveIsMapped(s, records, slot);
      BytesWithout(records, ptr);
      MapWithout(records, ptr);
      EraseHolds(s, records, slot);
      CountsUpdate(s, slot, s[slot].(ptr := TOMBSTONE));
      if liveBytes >= table[slot].size { liveBytes := liveBytes - table[slot].size; }
      table[slot] := table[slot].(ptr := TOMBSTONE);
      assert table[..] == s[slot := s[slot].(ptr := TOMBSTONE)];
      count, tombstones := count - 1, tombstones + 1;
      records := records - {ptr};
    }

    /** `Erase`: remove the record exactly if the pointer is live. */
    method Erase(ptr: int) returns (ok: bool, removed: Option<Record>)
      requires Valid() && (HasRoom() || ptr in records)
      modifies this, table
      ensures Valid() && table == old(table) && (HasRoom() <==> old(HasRoom()))
      ensures ok <==> ptr in old(records)
      ensures ok ==> records == old(records) - {ptr} && removed == Some(old(records)[ptr])
      ensures !ok ==> records == old(records)
      ensures count + tombstones == old(count + tombstones)
    {
      hide Holds, Lives, Tombs, Bytes, HashPtr, PowerOfTwo, And;
      var cap := table.Length;
      HashMask(ptr, cap);
      var slot := And(ptr / 16 * GOLDEN % WORD, cap - 1);
      ghost var h := slot;
      ok, removed := false, None;
      ghost var d, s := 0, table[..];
      while table[slot].ptr != NULL
        invariant unchanged(this) && unchanged(table)
        invariant d < cap && slot == Slot(h, d, cap) && table[..] == s
        invariant Probed(s, ptr, d)
        decreases cap - d
      {
        if table[slot].ptr != TOMBSTONE && table[slot].ptr == ptr {
          LiveIsMapped(s, records, slot);
          ok, removed := true, Some(table[slot]);
          Bury(slot);
          return;
        }
        if d + 1 == cap { ProbedFull(s, records, ptr, slot); }
        StepMask(slot, cap);
        slot := And(slot + 1, cap - 1);
        d := d + 1;
      }
      ProbeMiss(s, records, ptr, d);
    }
  }

  lemma LiveIsMapped(s: seq<Record>, m: map<int, Record>, i: nat)
    requires i < |s| && Holds(s, m) && Live(s[i])
    ensures s[i].ptr in m && m[s[i].ptr] == s[i]
  {
  }

  /** A probe that has passed all slots but the last, and finds another pointer in that one, proves the table
      full and the pointer absent. */
  lemma ProbedFull(s: seq<Record>, m: map<int, Record>, p: int, slot: nat)
    requires |s| > 0 && slot < |s| && Holds(s, m) && Probed(s, p, |s| - 1)
    requires slot == Slot(HashPtr(p, |s|), |s| - 1, |s|) && s[slot].ptr != NULL && !(Live(s[slot]) && s[slot].ptr == p)
    ensures Lives(s) + Tombs(s) == |s| && p !in m
  {
    var h := HashPtr(p, |s|);
    FullTurn(s, h);
    forall i | 0 <= i < |s| && Live(s[i]) ensures s[i].ptr != p {
      assert Slot(h, Dist(h, i, |s|), |s|) == i;
    }
  }

  lemma Doubled(n: nat)
    requires PowerOfTwo(n)
    ensures PowerOfTwo(n * 2)
  {
  }

  lemma Kilo()
    ensures PowerOfTwo(INITIAL_CAPACITY)
  {
    assert PowerOfTwo(32);
  }

  lemma {:induction false} BlankTable(s: seq<Record>)
    requires forall i :: 0 <= i < |s| ==> s[i] == BLANK
    ensures Holds(s, map[]) && Lives(s) == 0 && Tombs(s) == 0
  {
    if |s| > 0 { BlankTable(s[..|s| - 1]); }
  }

  /** `moved` holds the live records of the first `n` slots. */
  ghost predicate Gathers(s: seq<Record>, m: map<int, Record>, n: nat, moved: map<int, Record>)
    requires n <= |s|
  {
    && (forall p {:trigger p in moved} :: p in moved ==>
          p in m && moved[p] == m[p] && exists k :: 0 <= k < n && Live(s[k]) && s[k].ptr == p)
    && (forall k :: 0 <= k < n && Live(s[k]) ==> s[k].ptr in moved)
  }

  lemma NotYetMoved(s: seq<Record>, m: map<int, Record>, moved: map<int, Record>, i: nat)
    requires i < |s| && Holds(s, m) && Live(s[i]) && Gathers(s, m, i, moved)
    ensures s[i].ptr !in moved
  {
  }

  lemma GathersLive(s: seq<Record>, m: map<int, Record>, moved: map<int, Record>, i: nat)
    requires i < |s| && Holds(s, m) && Live(s[i]) && Gathers(s, m, i, moved)
    ensures Gathers(s, m, i + 1, moved[s[i].ptr := s[i]])
  {
  }

  lemma GathersDead(s: seq<Record>, m: map<int, Record>, moved: map<int, Record>, i: nat)
    requires i < |s| && !Live(s[i]) && Gathers(s, m, i, moved)
    ensures Gathers(s, m, i + 1, moved)
  {
  }

  lemma AllMoved(s: seq<Record>, m: map<int, Record>, moved: map<int, Record>)
    requires Holds(s, m) && Gathers(s, m, |s|, moved)
    ensures moved == m
  {
    forall p ensures p in moved.Keys <==> p in m.Keys {
      if p in m { var i :| 0 <= i < |s| && Live(s[i]) && s[i].ptr == p; }
    }
    assert moved.Keys == m.Keys;
    forall p | p in moved.Keys ensures moved[p] == m[p] {
      assert p in moved;
    }
  }

  /** The rehash loop compares no keys; an absent key cannot be in the slots it passed. */
  lemma AbsentProbed(s: seq<Record>, m: map<int, Record>, p: int, d: nat)
    requires |s| > 0 && Holds(s, m) && p !in m && d < |s|
    requires var h := HashPtr(p, |s|);
             forall e: nat {:trigger Slot(h, e, |s|)} :: e < d ==> s[Slot(h, e, |s|)].ptr != NULL
    ensures Probed(s, p, d)
  {
  }

  // ----- When a probe ends --------------------------------------------------

  /** The slot a probe looks at after `k` steps. */
  function ProbeSlot(h: nat, k: nat, cap: nat): (i: nat)
    requires h < cap
    ensures i < cap
  {
    if k == 0 then h
    else
      var i := ProbeSlot(h, k - 1, cap);
      if i + 1 == cap then 0 else i + 1
  }

  lemma {:induction false} ProbeSlotIs(h: nat, d: nat, cap: nat)
    requires h < cap && d < cap
    ensures ProbeSlot(h, d, cap) == Slot(h, d, cap)
  {
    if d > 0 { ProbeSlotIs(h, d - 1, cap); }
  }

  /** A lookup of `p` comes to an empty slot or to `p`. */
  ghost predicate ProbeEnds(s: seq<Record>, p: int)
    requires |s| > 0
  {
    exists k: nat :: s[ProbeSlot(HashPtr(p, |s|), k, |s|)].ptr == NULL || s[ProbeSlot(HashPtr(p, |s|), k, |s|)].ptr == p
  }

  /** A lookup of a pointer that is not live ends if and only if the live records
      and the tombstones leave a slot empty. */
  lemma ProbeEndsIffRoom(s: seq<Record>, m: map<int, Record>, p: int)
    requires |s| > 0 && Holds(s, m) && p !in m && p != NULL && p != TOMBSTONE
    ensures ProbeEnds(s, p) <==> Lives(s) + Tombs(s) < |s|
  {
    var h := HashPtr(p, |s|);
    if Lives(s) + Tombs(s) < |s| {
      TakenCounts(s);
      var i :| 0 <= i < |s| && s[i].ptr == NULL;
      ProbeSlotIs(h, Dist(h, i, |s|), |s|);
      assert s[ProbeSlot(h, Dist(h, i, |s|), |s|)].ptr == NULL;
    } else {
      TakenCounts(s);
      NoEmptySlot(s);
      forall k: nat ensures s[ProbeSlot(h, k, |s|)].ptr != NULL && s[ProbeSlot(h, k, |s|)].ptr != p {
        assert Live(s[ProbeSlot(h, k, |s|)]) || s[ProbeSlot(h, k, |s|)].ptr == TOMBSTONE;
      }
    }
  }

  lemma {:induction false} NoEmptySlot(s: seq<Record>)
    requires Lives(s) + Tombs(s) == |s|
    ensures forall i :: 0 <= i < |s| ==> s[i].ptr != NULL
  {
    if |s| > 0 {
      TakenCounts(s[..|s| - 1]);
      NoEmptySlot(s[..|s| - 1]);
    }
  }

  /** If growing the table keeps failing, inserts fill it up, and a lookup of a pointer that is not live then
      runs forever. */
  method FullTable() returns (shard: Shard)
    ensures fresh(shard) && shard.Valid() && !shard.HasRoom() && 0 !in shard.records
    ensures forall p {:trigger ProbeEnds(shard.table[..], p)} :: p !in shard.records && p != NULL && p != TOMBSTONE ==>
              !ProbeEnds(shard.table[..], p)
  {
    hide Holds, Lives, Tombs, Bytes, PowerOfTwo, ProbeEnds;
    shard := new Shard();
    var i := 0;
    while i < INITIAL_CAPACITY
      invariant 0 <= i <= INITIAL_CAPACITY && fresh(shard) && fresh(shard.table) && shard.Valid()
      invariant shard.table.Length == INITIAL_CAPACITY && shard.count + shard.tombstones == i && shard.tombstones == 0
      invariant forall p {:trigger p in shard.records} :: p in shard.records ==> 0x10000 <= p < 0x10000 + 16 * i
    {
      ghost var was := shard.records;
      var _, _ := shard.Insert(Record(0x10000 + 16 * i, 1, 16, 0, 0, 1), i, false);
      i := i + 1;
    }
    forall p {:trigger ProbeEnds(shard.table[..], p)} | p !in shard.records && p != NULL && p != TOMBSTONE
      ensures !ProbeEnds(shard.table[..], p)
    {
      ProbeEndsIffRoom(shard.table[..], shard.records, p);
    }
  }

  // ----- The shards together ------------------------------------------------

  function ShardOf(p: int): (i: nat)
    ensures i < SHARD_COUNT
  {
    p / 16 % SHARD_COUNT
  }

  /** Every pointer is in the shard its address selects. */
  ghost predicate Routed(ms: seq<map<int, Record>>) {
    forall i, p {:trigger p in ms[i]} :: 0 <= i < |ms| && p in ms[i] ==> ShardOf(p) == i
  }

  ghost function Union(ms: seq<map<int, Record>>): map<int, Record> {
    if |ms| == 0 then map[] else Union(ms[..|ms| - 1]) + ms[|ms| - 1]
  }

  lemma {:induction false} UnionFrom(ms: seq<map<int, Record>>, p: int)
    requires p in Union(ms)
    ensures exists i :: 0 <= i < |ms| && p in ms[i]
  {
    if |ms| > 0 {
      var n := |ms| - 1;
      if p in ms[n] {
      } else {
        UnionFrom(ms[..n], p);
        var i :| 0 <= i < n && p in ms[..n][i];
        assert p in ms[i];
      }
    }
  }

  lemma {:induction false} DisjointUnion(a: map<int, Record>, b: map<int, Record>)
    requires a.Keys !! b.Keys
    ensures |a + b| == |a| + |b| && Bytes(a + b) == Bytes(a) + Bytes(b)
    decreases |b|
  {
    hide Bytes;
    if p :| p in b {
      var b' := b - {p};
      MapWithout(b, p);
      DisjointUnion(a, b');
      AddBack(a, b, p);
      BytesWith(a + b', p, b[p]);
      BytesWith(b', p, b[p]);
    } else {
      forall p ensures p in b.Keys <==> p in {} {
      }
      assert b.Keys == {};
      assert a + b == a;
      NoBytes(b);
    }
  }

  lemma AddBack(a: map<int, Record>, b: map<int, Record>, p: int)
    requires p in b
    ensures a + b == (a + (b - {p}))[p := b[p]] && b == (b - {p})[p := b[p]]
  {
  }

  lemma NoBytes(m: map<int, Record>)
    requires m.Keys == {}
    ensures Bytes(m) == 0
  {
  }

  lemma UnionSplits(ms: seq<map<int, Record>>)
    requires Routed(ms) && |ms| > 0
    ensures var n := |ms| - 1;
            && Routed(ms[..n])
            && |Union(ms)| == |Union(ms[..n])| + |ms[n]|
            && Bytes(Union(ms)) == Bytes(Union(ms[..n])) + Bytes(ms[n])
  {
    var n := |ms| - 1;
    forall i, p {:trigger p in ms[..n][i]} | 0 <= i < n && p in ms[..n][i] ensures ShardOf(p) == i {
      assert p in ms[i];
    }
    forall p | p in Union(ms[..n]) ensures p !in ms[n] {
      UnionFrom(ms[..n], p);
      var i :| 0 <= i < n && p in ms[..n][i];
      assert p in ms[i];
    }
    DisjointUnion(Union(ms[..n]), ms[n]);
  }

  ghost function Models(shards: seq<Shard>): (ms: seq<map<int, Record>>)
    reads shards
    ensures |ms| == |shards|
    ensures forall i :: 0 <= i < |shards| ==> ms[i] == shards[i].records
  {
    seq(|shards|, i requires 0 <= i < |shards| reads shards => shards[i].records)
  }

  /** `live_count` and `live_bytes`: the sums over the shards are the size and the
      byte total of the map the shards form together. */
  method LiveTotals(shards: seq<Shard>) returns (n: nat, bytes: nat)
    requires forall i :: 0 <= i < |shards| ==> shards[i].Valid()
    requires Routed(Models(shards))
    ensures n == |Union(Models(shards))| && bytes == Bytes(Union(Models(shards)))
  {
    hide *;
    n, bytes := 0, 0;
    ghost var ms := Models(shards);
    NoShards(ms);
    var i := 0;
    while i < |shards|
      invariant 0 <= i <= |shards|
      invariant n == |Union(ms[..i])| && bytes == Bytes(Union(ms[..i]))
    {
      OneMore(ms, i);
      Exact(shards[i]);
      n, bytes := n + shards[i].count, bytes + shards[i].liveBytes;
      i := i + 1;
    }
    assert ms[..i] == ms;
  }

  lemma Exact(shard: Shard)
    requires shard.Valid()
    ensures shard.count == |shard.records| && shard.liveBytes == Bytes(shard.records)
  {
  }

  lemma NoShards(ms: seq<map<int, Record>>)
    ensures |Union(ms[..0])| == 0 && Bytes(Union(ms[..0])) == 0
  {
    assert ms[..0] == [];
  }

  lemma OneMore(ms: seq<map<int, Record>>, i: nat)
    requires Routed(ms) && i < |ms|
    ensures |Union(ms[..i + 1])| == |Union(ms[..i])| + |ms[i]| && Bytes(Union(ms[..i + 1])) == Bytes(Union(ms[..i])) + Bytes(ms[i])
  {
    hide Union, Bytes, Routed;
    assert ms[..i + 1][..i] == ms[..i];
    RoutedPrefix(ms, i + 1);
    UnionSplits(ms[..i + 1]);
  }

  lemma RoutedPrefix(ms: seq<map<int, Record>>, n: nat)
    requires Routed(ms) && n <= |ms|
    ensures Routed(ms[..n])
  {
    forall i, p {:trigger p in ms[..n][i]} | 0 <= i < n && p in ms[..n][i] ensures ShardOf(p) == i {
      assert p in ms[i];
    }
  }

  /** A pointer is in the map the shards form exactly if it is in the shard its address selects. */
  lemma {:induction false} UnionHas(ms: seq<map<int, Record>>, p: int)
    requires Routed(ms)
    ensures p in Union(ms) <==> ShardOf(p) < |ms| && p in ms[ShardOf(p)]
    ensures p in Union(ms) ==> Union(ms)[p] == ms[ShardOf(p)][p]
  {
    if |ms| > 0 {
      var n := |ms| - 1;
      RoutedPrefix(ms, n);
      UnionHas(ms[..n], p);
      assert p in ms[n] ==> ShardOf(p) == n;
    }
  }

  /** What happens to one shard's map at pointer `p` happens to the whole. */
  lemma UnionUpdate(ms: seq<map<int, Record>>, ms': seq<map<int, Record>>, p: int)
    requires Routed(ms) && ShardOf(p) < |ms| == |ms'|
    requires forall i :: 0 <= i < |ms| && i != ShardOf(p) ==> ms'[i] == ms[i]
    requires ms'[ShardOf(p)] - {p} == ms[ShardOf(p)] - {p}
    ensures Routed(ms') && Union(ms') - {p} == Union(ms) - {p}
    ensures p in Union(ms') <==> p in ms'[ShardOf(p)]
    ensures p in Union(ms') ==> Union(ms')[p] == ms'[ShardOf(p)][p]
  {
    hide Union;
    var k := ShardOf(p);
    forall i, q {:trigger q in ms'[i]} | 0 <= i < |ms'| && q in ms'[i] ensures ShardOf(q) == i {
      if i != k || q == p {
      } else {
        assert q in ms'[k] - {p};
        assert q in ms[k];
      }
    }
    forall q | q != p
      ensures q in Union(ms') <==> q in Union(ms)
      ensures q in Union(ms') ==> Union(ms')[q] == Union(ms)[q]
    {
      UnionHas(ms, q);
      UnionHas(ms', q);
      SameElsewhere(ms[k], ms'[k], p, q);
    }
    UnionHas(ms', p);
  }

  lemma SameElsewhere(m: map<int, Record>, m': map<int, Record>, p: int, q: int)
    requires m' - {p} == m - {p} && q != p
    ensures q in m' <==> q in m
    ensures q in m ==> m'[q] == m[q]
  {
    assert q in m - {p} <==> q in m;
    assert q in m' - {p} <==> q in m';
    assert q in m ==> (m - {p})[q] == m[q];
    assert q in m' ==> (m' - {p})[q] == m'[q];
  }

  /** The registry: sixteen shards, each pointer in the one its address selects. */
  class AllocRegistry {
    const shards: seq<Shard>

    ghost predicate Valid()
      reads this, shards, set i | 0 <= i < |shards| :: shards[i].table
    {
      && |shards| == SHARD_COUNT
      && (forall i, j :: 0 <= i < j < |shards| ==> shards[i] != shards[j] && shards[i].table != shards[j].table)
      && (forall i :: 0 <= i < |shards| ==> shards[i].Valid())
      && Routed(Models(shards))
    }

    /** The records of all live pointers. */
    ghost function Records(): map<int, Record>
      reads this, shards
    {
      Union(Models(shards))
    }

    constructor ()
      ensures Valid() && Records() == map[]
      ensures forall i :: 0 <= i < |shards| ==> shards[i].HasRoom() && fresh(shards[i]) && fresh(shards[i].table)
    {
      hide PowerOfTwo, Holds, Lives, Tombs, Bytes, Union, Shard.Valid, Shard.HasRoom;
      var ss: seq<Shard> := [];
      while |ss| < SHARD_COUNT
        invariant |ss| <= SHARD_COUNT
        invariant forall i :: 0 <= i < |ss| ==>
                    fresh(ss[i]) && fresh(ss[i].table) && ss[i].Valid() && ss[i].HasRoom() && ss[i].records == map[]
        invariant forall i, j :: 0 <= i < j < |ss| ==> ss[i] != ss[j] && ss[i].table != ss[j].table
      {
        var shard := new Shard();
        ss := ss + [shard];
      }
      shards := ss;
      new;
      NothingIn(Models(shards));
    }

    method Insert(rec: Record, sequence: nat, growOk: bool) returns (ok: bool, existing: Option<Record>)
      requires Valid() && Live(rec)
      requires var s := shards[ShardOf(rec.ptr)]; s.HasRoom() || growOk || rec.ptr in s.records
      modifies shards, set i | 0 <= i < |shards| :: shards[i].table
      ensures Valid()
      ensures ok <==> rec.ptr !in old(Records())
      ensures ok ==> Records() == old(Records())[rec.ptr := rec.(sequence := sequence)]
      ensures !ok ==> Records() == old(Records()) && existing == Some(Records()[rec.ptr])
      ensures forall i :: 0 <= i < |shards| ==> shards[i].table == old(shards[i].table) || fresh(shards[i].table)
      ensures forall i :: 0 <= i < |shards| && i != ShardOf(rec.ptr) ==> (shards[i].HasRoom() <==> old(shards[i].HasRoom()))
      ensures growOk ==> shards[ShardOf(rec.ptr)].HasRoom()
    {
      hide Union, PowerOfTwo, Holds, Lives, Tombs, Bytes, Routed, Shard.Valid, Shard.HasRoom;
      ghost var ms, k := Models(shards), ShardOf(rec.ptr);
      UnionHas(ms, rec.ptr);
      ok, existing := shards[ShardOf(rec.ptr)].Insert(rec, sequence, growOk);
      ghost var ms' := Models(shards);
      UnionUpdate(ms, ms', rec.ptr);
      if ok { WithAt(Union(ms), Union(ms'), rec.ptr, rec.(sequence := sequence)); } else { SameModels(ms, ms', k); }
    }

    method Erase(ptr: int) returns (ok: bool, removed: Option<Record>)
      requires Valid() && var s := shards[ShardOf(ptr)]; s.HasRoom() || ptr in s.records
      modifies shards, set i | 0 <= i < |shards| :: shards[i].table
      ensures Valid()
      ensures ok <==> ptr in old(Records())
      ensures Records() == old(Records()) - {ptr}
      ensures ok ==> removed == Some(old(Records())[ptr])
      ensures forall i :: 0 <= i < |shards| ==>
                shards[i].table == old(shards[i].table) && (shards[i].HasRoom() <==> old(shards[i].HasRoom()))
    {
      hide Union, PowerOfTwo, Holds, Lives, Tombs, Bytes, Routed, Shard.Valid, Shard.HasRoom;
      ghost var ms, k := Models(shards), ShardOf(ptr);
      UnionHas(ms, ptr);
      ok, removed := shards[ShardOf(ptr)].Erase(ptr);
      ghost var ms' := Models(shards);
      UnionUpdate(ms, ms', ptr);
      UnionHas(ms', ptr);
      assert Union(ms') == Union(ms') - {ptr};
    }

    /** `live_count` and `live_bytes`. */
    method Totals() returns (n: nat, bytes: nat)
      requires Valid()
      ensures n == |Records()| && bytes == Bytes(Records())
    {
      n, bytes := LiveTotals(shards);
    }
  }

  lemma {:induction false} NothingIn(ms: seq<map<int, Record>>)
    requires forall i :: 0 <= i < |ms| ==> ms[i] == map[]
    ensures Union(ms) == map[]
  {
    if |ms| > 0 { NothingIn(ms[..|ms| - 1]); }
  }

  lemma WithAt(m: map<int, Record>, m': map<int, Record>, p: int, r: Record)
    requires m' - {p} == m - {p} && p in m' && m'[p] == r
    ensures m' == m[p := r]
  {
    forall q | q != p
      ensures q in m' <==> q in m
      ensures q in m ==> m'[q] == m[q]
    {
      SameElsewhere(m, m', p, q);
    }
  }

  lemma SameModels(ms: seq<map<int, Record>>, ms': seq<map<int, Record>>, k: nat)
    requires k < |ms| == |ms'| && ms'[k] == ms[k] && forall i :: 0 <= i < |ms| && i != k ==> ms'[i] == ms[i]
    ensures ms' == ms
  {
  }

  /** As long as growth succeeds every shard keeps an empty slot, and what was inserted can be erased again. */
  method InsertThenErase(registry: AllocRegistry, rec: Record, sequence: nat) returns (ok: bool, removed: Option<Record>)
    requires registry.Valid() && Live(rec) && forall i :: 0 <= i < |registry.shards| ==> registry.shards[i].HasRoom()
    modifies registry.shards, set i | 0 <= i < |registry.shards| :: registry.shards[i].table
    ensures registry.Valid() && forall i :: 0 <= i < |registry.shards| ==> registry.shards[i].HasRoom()
    ensures ok <==> rec.ptr !in old(registry.Records())
    ensures ok ==> removed == Some(rec.(sequence := sequence)) && registry.Records() == old(registry.Records())
    ensures !ok ==> removed == None && registry.Records() == old(registry.Records())
  {
    hide Union, PowerOfTwo, Holds, Lives, Tombs, Bytes, Routed, Shard.Valid, Shard.HasRoom, AllocRegistry.Valid;
    var existing;
    ok, existing := registry.Insert(rec, sequence, true);
    removed := None;
    if ok {
      ghost var with := registry.Records();
      var _, r := registry.Erase(rec.ptr);
      removed := r;
      assert with - {rec.ptr} == old(registry.Records());
    }
  }
}
