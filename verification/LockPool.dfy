/**
 The reference-counted pool of per-access locks.

 `acquire` is four atomic pieces: register under the guard, take the entry's
 lock, release that lock, and unregister under the guard. Entries are objects
 with an identity, so the step system names them by heap reference: nothing in
 it forbids two entries for one access except the proof below.
 */
module LockPool {
  import opened Ledger

  // ---------- the guarded dictionary ----------

  function Bump(refs: map<AccessId, nat>, id: AccessId): map<AccessId, nat> {
    refs[id := (if id in refs then refs[id] else 0) + 1]
  }

  function Drop(refs: map<AccessId, nat>, id: AccessId): map<AccessId, nat>
    requires id in refs && refs[id] > 0
  {
    if refs[id] == 1 then refs - {id} else refs[id := refs[id] - 1]
  }

  class LockEntry {
    var locked: bool
    var references: nat

    constructor ()
      ensures !locked && references == 0
    {
      locked, references := false, 0;
    }
  }

  class AccessLockPool {
    var entries: map<AccessId, LockEntry>

    /** Two accesses never share an entry. */
    ghost predicate Valid()
      reads this
    {
      forall a, b :: a in entries && b in entries && a != b ==> entries[a] != entries[b]
    }

    ghost function Refs(): map<AccessId, nat>
      reads this, entries.Values
    {
      map id | id in entries :: entries[id].references
    }

    constructor ()
      ensures Valid() && entries == map[]
    {
      entries := map[];
    }

    /** The first guarded section of `acquire`. */
    method Register(accessId: AccessId) returns (entry: LockEntry)
      requires Valid()
      modifies this, (set e | e in entries.Values)`references
      ensures Valid() && accessId in entries && entries[accessId] == entry
      ensures accessId in old(entries) ==> entries == old(entries)
      ensures accessId !in old(entries) ==>
        entries == old(entries)[accessId := entry] && fresh(entry) && !entry.locked
      ensures Refs() == Bump(old(Refs()), accessId)
    {
      if accessId in entries {
        entry := entries[accessId];
      } else {
        entry := new LockEntry();
        entries := entries[accessId := entry];
      }
      entry.references := entry.references + 1;
    }

    /** The second guarded section, entered after the entry's lock is released. */
    method Unregister(accessId: AccessId, entry: LockEntry)
      requires Valid() && accessId in entries && entries[accessId] == entry
      requires entry.references > 0
      modifies this, entry`references
      ensures Valid()
      ensures Refs() == Drop(old(Refs()), accessId)
      ensures forall id :: id in entries ==> id in old(entries) && entries[id] == old(entries)[id]
    {
      entry.references := entry.references - 1;
      if entry.references == 0 {
        entries := entries - {accessId};
      }
    }
  }

  // ---------- the step system ----------

  datatype Entry = Entry(locked: bool, references: int)

  datatype Pc =
    | Idle
    | Waiting(accessId: AccessId, entry: nat)
    | Holding(accessId: AccessId, entry: nat)
    | Unlocked(accessId: AccessId, entry: nat)

  datatype Pool = Pool(entries: map<AccessId, nat>, heap: seq<Entry>, threads: seq<Pc>)

  const EMPTY := Pool(map[], [], [])

  datatype Step =
    | Spawn
    | Register(thread: nat, accessId: AccessId)
    | Acquire(thread: nat)
    | Unlock(thread: nat)
    | Unregister(thread: nat)

  /** A lock can only be taken while nobody holds it; nothing else ever waits. */
  predicate Enabled(p: Pool, step: Step) {
    match step
    case Spawn => true
    case Register(t, _) => t < |p.threads| && p.threads[t].Idle?
    case Acquire(t) =>
      && t < |p.threads| && p.threads[t].Waiting?
      && p.threads[t].entry < |p.heap| && !p.heap[p.threads[t].entry].locked
    case Unlock(t) => t < |p.threads| && p.threads[t].Holding? && p.threads[t].entry < |p.heap|
    case Unregister(t) => t < |p.threads| && p.threads[t].Unlocked? && p.threads[t].entry < |p.heap|
  }

  function Apply(p: Pool, step: Step): Pool
    requires Enabled(p, step)
  {
    match step
    case Spawn => p.(threads := p.threads + [Idle])
    case Register(t, id) =>
      if id in p.entries && p.entries[id] < |p.heap| then
        var e := p.entries[id];
        p.(heap := p.heap[e := p.heap[e].(references := p.heap[e].references + 1)],
           threads := p.threads[t := Waiting(id, e)])
      else
        Pool(p.entries[id := |p.heap|], p.heap + [Entry(false, 1)], p.threads[t := Waiting(id, |p.heap|)])
    case Acquire(t) =>
      var e := p.threads[t].entry;
      p.(heap := p.heap[e := p.heap[e].(locked := true)],
         threads := p.threads[t := Holding(p.threads[t].accessId, e)])
    case Unlock(t) =>
      var e := p.threads[t].entry;
      p.(heap := p.heap[e := p.heap[e].(locked := false)],
         threads := p.threads[t := Unlocked(p.threads[t].accessId, e)])
    case Unregister(t) =>
      var e, id := p.threads[t].entry, p.threads[t].accessId;
      var left := p.heap[e].references - 1;
      Pool(if left == 0 then p.entries - {id} else p.entries,
           p.heap[e := p.heap[e].(references := left)],
           p.threads[t := Idle])
  }

  ghost predicate Next(p: Pool, p': Pool) {
    exists step :: Enabled(p, step) && p' == Apply(p, step)
  }

  ghost predicate Run(tr: seq<Pool>) {
    && |tr| > 0 && tr[0] == EMPTY
    && forall i :: 0 <= i < |tr| - 1 ==> Next(tr[i], tr[i + 1])
  }

  // ---------- the invariant ----------

  predicate Uses(pc: Pc, id: AccessId) { !pc.Idle? && pc.accessId == id }

  /** Threads waiting on, holding or releasing `id`. */
  ghost function Users(ts: seq<Pc>, id: AccessId): nat {
    if ts == [] then 0 else Users(ts[..|ts| - 1], id) + (if Uses(ts[|ts| - 1], id) then 1 else 0)
  }

  predicate Holds(pc: Pc, id: AccessId) { pc.Holding? && pc.accessId == id }

  ghost function Holders(ts: seq<Pc>, id: AccessId): nat {
    if ts == [] then 0 else Holders(ts[..|ts| - 1], id) + (if Holds(ts[|ts| - 1], id) then 1 else 0)
  }

  /** Every busy thread works on the entry the dictionary has for its access. */
  ghost predicate Shared(p: Pool) {
    forall t :: 0 <= t < |p.threads| && !p.threads[t].Idle? ==>
      p.threads[t].accessId in p.entries && p.entries[p.threads[t].accessId] == p.threads[t].entry
  }

  ghost predicate EntrySound(p: Pool, id: AccessId) {
    if id in p.entries then
      && p.entries[id] < |p.heap|
      && p.heap[p.entries[id]].references == Users(p.threads, id) > 0
      && Holders(p.threads, id) == (if p.heap[p.entries[id]].locked then 1 else 0)
    else
      Users(p.threads, id) == 0
  }

  ghost predicate Inv(p: Pool) {
    && Shared(p)
    && (forall id :: EntrySound(p, id))
    && (forall a, b :: a in p.entries && b in p.entries && a != b ==> p.entries[a] != p.entries[b])
  }

  lemma {:induction false} CountUpdate(ts: seq<Pc>, t: nat, pc: Pc, id: AccessId)
    requires t < |ts|
    ensures Users(ts[t := pc], id)
         == Users(ts, id) - (if Uses(ts[t], id) then 1 else 0) + (if Uses(pc, id) then 1 else 0)
    ensures Holders(ts[t := pc], id)
         == Holders(ts, id) - (if Holds(ts[t], id) then 1 else 0) + (if Holds(pc, id) then 1 else 0)
  {
    var last := |ts| - 1;
    if t < last {
      assert ts[t := pc][..last] == ts[..last][t := pc];
      CountUpdate(ts[..last], t, pc, id);
    } else {
      assert ts[t := pc][..last] == ts[..last];
    }
  }

  lemma {:induction false} CountedIn(ts: seq<Pc>, t: nat, id: AccessId)
    requires t < |ts|
    ensures Holders(ts, id) <= Users(ts, id)
    ensures Uses(ts[t], id) ==> Users(ts, id) > 0
    ensures Holds(ts[t], id) ==> Holders(ts, id) > 0
  {
    var last := |ts| - 1;
    if t < last {
      CountedIn(ts[..last], t, id);
    } else if last > 0 {
      CountedIn(ts[..last], 0, id);
    }
  }

  lemma {:induction false} TwoHolders(ts: seq<Pc>, t: nat, u: nat, id: AccessId)
    requires t < u < |ts| && Holds(ts[t], id) && Holds(ts[u], id)
    ensures Holders(ts, id) >= 2
  {
    var last := |ts| - 1;
    if u < last {
      TwoHolders(ts[..last], t, u, id);
    } else {
      CountedIn(ts[..last], t, id);
    }
  }

  lemma {:induction false} SomeHolder(ts: seq<Pc>, id: AccessId) returns (t: nat)
    requires Holders(ts, id) > 0
    ensures t < |ts| && Holds(ts[t], id)
  {
    var last := |ts| - 1;
    if Holds(ts[last], id) {
      t := last;
    } else {
      t := SomeHolder(ts[..last], id);
    }
  }

  lemma {:induction false} StepKeepsEntry(p: Pool, step: Step, id: AccessId)
    requires Inv(p) && Enabled(p, step)
    ensures EntrySound(Apply(p, step), id)
  {
    var p' := Apply(p, step);
    assert EntrySound(p, id);
    if step.Spawn? {
      assert p'.threads[..|p.threads|] == p.threads;
    } else {
      var t := step.thread;
      CountUpdate(p.threads, t, p'.threads[t], id);
      CountedIn(p.threads, t, id);
      if step.Register? {
        assert EntrySound(p, step.accessId);
        if id !in p.entries && |p.threads| > 0 {
          CountedIn(p.threads, 0, id);
        }
      }
    }
  }

  lemma {:induction false} StepKeepsInv(p: Pool, step: Step)
    requires Inv(p) && Enabled(p, step)
    ensures Inv(Apply(p, step))
  {
    var p' := Apply(p, step);
    forall id
      ensures EntrySound(p', id)
    {
      StepKeepsEntry(p, step, id);
    }
    match step
    case Register(t, id) =>
      forall a | a in p.entries
        ensures p.entries[a] < |p.heap|
      {
        assert EntrySound(p, a);
      }
      assert Shared(p');
    case Unregister(t) =>
      var id := p.threads[t].accessId;
      forall u | 0 <= u < |p'.threads| && !p'.threads[u].Idle?
        ensures p'.threads[u].accessId in p'.entries
      {
        CountedIn(p'.threads, u, p'.threads[u].accessId);
        assert EntrySound(p', p'.threads[u].accessId);
      }
      assert Shared(p');
    case _ =>
      assert Shared(p');
  }

  lemma {:induction false} RunKeepsInv(tr: seq<Pool>, i: nat)
    requires Run(tr) && i < |tr|
    ensures Inv(tr[i])
  {
    if i > 0 {
      RunKeepsInv(tr, i - 1);
      assert Next(tr[i - 1], tr[i - 1 + 1]);
      var step :| Enabled(tr[i - 1], step) && tr[i] == Apply(tr[i - 1], step);
      StepKeepsInv(tr[i - 1], step);
    }
  }

  // ---------- the theorems ----------

  /** At most one thread is in the critical section of one access. */
  lemma {:induction false} OneHolder(p: Pool, t: nat, u: nat)
    requires Inv(p)
    requires t < |p.threads| && u < |p.threads|
    requires p.threads[t].Holding? && p.threads[u].Holding?
    requires p.threads[t].accessId == p.threads[u].accessId
    ensures t == u
  {
    assert EntrySound(p, p.threads[t].accessId);
    if t < u {
      TwoHolders(p.threads, t, u, p.threads[t].accessId);
    } else if u < t {
      TwoHolders(p.threads, u, t, p.threads[t].accessId);
    }
  }

  /**
   In every state of every run: mutual exclusion per access; busy threads
   share an entry exactly when they share an access; an entry exists exactly
   while it is referenced, with the number of its users as its count.
   */
  lemma {:induction false} PoolIsSound(tr: seq<Pool>, i: nat, t: nat, u: nat, id: AccessId)
    requires Run(tr) && i < |tr|
    requires t < |tr[i].threads| && u < |tr[i].threads|
    requires !tr[i].threads[t].Idle? && !tr[i].threads[u].Idle?
    ensures Holds(tr[i].threads[t], id) && Holds(tr[i].threads[u], id) ==> t == u
    ensures (tr[i].threads[t].entry == tr[i].threads[u].entry) <==>
            (tr[i].threads[t].accessId == tr[i].threads[u].accessId)
    ensures id in tr[i].entries <==> Users(tr[i].threads, id) > 0
    ensures id in tr[i].entries ==>
              tr[i].entries[id] < |tr[i].heap| && tr[i].heap[tr[i].entries[id]].references == Users(tr[i].threads, id)
  {
    RunKeepsInv(tr, i);
    assert EntrySound(tr[i], id);
    if Holds(tr[i].threads[t], id) && Holds(tr[i].threads[u], id) {
      OneHolder(tr[i], t, u);
    }
  }

  /** A waiting thread is blocked exactly by a holder of its own access. */
  lemma {:induction false} BlockedOnlyByOwnAccess(tr: seq<Pool>, i: nat, t: nat)
    requires Run(tr) && i < |tr|
    requires t < |tr[i].threads| && tr[i].threads[t].Waiting?
    ensures !Enabled(tr[i], Acquire(t)) <==>
            exists u :: 0 <= u < |tr[i].threads| && Holds(tr[i].threads[u], tr[i].threads[t].accessId)
  {
    RunKeepsInv(tr, i);
    var id := tr[i].threads[t].accessId;
    assert EntrySound(tr[i], id);
    if Holders(tr[i].threads, id) > 0 {
      var u := SomeHolder(tr[i].threads, id);
    } else {
      forall u | 0 <= u < |tr[i].threads|
        ensures !Holds(tr[i].threads[u], id)
      {
        CountedIn(tr[i].threads, u, id);
      }
    }
  }

  /** The dictionary with each entry replaced by its count, as the guarded sections see it. */
  ghost function RefsOf(p: Pool): (refs: map<AccessId, nat>)
    requires Inv(p)
    ensures refs.Keys == p.entries.Keys
  {
    map id | id in p.entries :: CountOf(p, id)
  }

  ghost function CountOf(p: Pool, id: AccessId): nat
    requires Inv(p) && id in p.entries
  {
    assert EntrySound(p, id);
    p.heap[p.entries[id]].references
  }

  /** The interleaved first section changes the counts as the guarded method specifies. */
  lemma {:induction false} RegisterRefines(p: Pool, t: nat, id: AccessId)
    requires Inv(p) && Enabled(p, Register(t, id))
    ensures Inv(Apply(p, Register(t, id)))
    ensures RefsOf(Apply(p, Register(t, id))) == Bump(RefsOf(p), id)
  {
    StepKeepsInv(p, Register(t, id));
    var p' := Apply(p, Register(t, id));
    assert EntrySound(p, id);
    forall a | a in p'.entries
      ensures CountOf(p', a) == Bump(RefsOf(p), id)[a]
    {
      assert EntrySound(p, a);
    }
  }

  /** The interleaved second section changes the counts as the guarded method specifies. */
  lemma {:induction false} UnregisterRefines(p: Pool, t: nat)
    requires Inv(p) && Enabled(p, Unregister(t))
    ensures Inv(Apply(p, Unregister(t)))
    ensures p.threads[t].accessId in RefsOf(p) && RefsOf(p)[p.threads[t].accessId] > 0
    ensures RefsOf(Apply(p, Unregister(t))) == Drop(RefsOf(p), p.threads[t].accessId)
  {
    StepKeepsInv(p, Unregister(t));
    var p' := Apply(p, Unregister(t));
    var id := p.threads[t].accessId;
    assert EntrySound(p, id);
    forall a | a in p'.entries
      ensures CountOf(p', a) == Drop(RefsOf(p), id)[a]
    {
      assert EntrySound(p, a);
    }
  }
}
