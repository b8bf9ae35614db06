/** The pool of workers: a bitmask hands each goroutine a queue number, and each worker drains its own queue. */
module Workers {
  import opened Dispatch

  type uint32 = x: int | 0 <= x < 0x1_0000_0000

  const SENTINEL: uint32 := 0xffff_ffff

  /** Go's uint32(1) << i, which is zero once the bit is shifted out. */
  function Bit(i: nat): nat {
    if i < 32 then Pow2(i) else 0
  }

  /** Go's a &^ b, the bits of `a` that `b` does not have. */
  function AndNot(a: nat, b: nat): nat {
    if a == 0 then 0 else (if a % 2 == 1 && b % 2 == 0 then 1 else 0) + 2 * AndNot(a / 2, b / 2)
  }

  function Or(a: nat, b: nat): nat {
    if a == 0 && b == 0 then 0 else (if a % 2 == 1 || b % 2 == 1 then 1 else 0) + 2 * Or(a / 2, b / 2)
  }

  /** Subtraction on 32-bit words. */
  function Minus(a: nat, b: nat): (r: nat) {
    (a - b) % 0x1_0000_0000
  }

  /** The ids a mask marks as free. */
  ghost function Ids(mask: nat): set<nat> {
    set i: nat | i < 32 && Has(mask, i)
  }

  /** The smallest free id below `n`, or the sentinel when there is none. */
  ghost predicate Picks(free: set<nat>, n: nat, id: nat) {
    if exists i :: i in free && i < n
    then id in free && id < n && forall i :: i in free ==> id <= i
    else id == SENTINEL
  }

  lemma {:induction false} AndZero(m: nat)
    ensures And(0, m) == 0
  {
    if m > 0 {
      AndZero(m / 2);
    }
  }

  /** `(1 << i) & mask != 0` asks for bit `i`. */
  lemma {:induction false} TestBit(mask: nat, i: nat)
    ensures And(Pow2(i), mask) != 0 <==> Has(mask, i)
  {
    if i == 0 {
      AndZero(mask / 2);
    } else {
      TestBit(mask / 2, i - 1);
    }
  }

  /** Clearing bit `i` changes that bit alone. */
  lemma {:induction false} ClearBit(mask: nat, i: nat, j: nat)
    ensures Has(AndNot(mask, Pow2(i)), j) <==> j != i && Has(mask, j)
  {
    if i > 0 && j > 0 {
      ClearBit(mask / 2, i - 1, j - 1);
    } else if j > 0 {
      AndNotZero(mask / 2);
    }
    HasZero(j);
  }

  lemma {:induction false} AndNotZero(m: nat)
    ensures AndNot(m, 0) == m
  {
    if m > 0 {
      AndNotZero(m / 2);
    }
  }

  /** Setting bit `i` changes that bit alone. */
  lemma {:induction false} SetBit(mask: nat, i: nat, j: nat)
    ensures Has(Or(mask, Pow2(i)), j) <==> j == i || Has(mask, j)
  {
    OrStep(mask, i);
    if i > 0 && j > 0 {
      SetBit(mask / 2, i - 1, j - 1);
    }
  }

  /** One bit at a time. */
  lemma {:induction false} OrStep(mask: nat, i: nat)
    ensures Or(mask, Pow2(i)) % 2 == (if i == 0 then 1 else mask % 2)
    ensures Or(mask, Pow2(i)) / 2 == (if i == 0 then mask / 2 else Or(mask / 2, Pow2(i - 1)))
  {
    if i == 0 {
      OrZero(mask / 2);
    }
  }

  lemma {:induction false} OrZero(m: nat)
    ensures Or(m, 0) == m
  {
    if m > 0 {
      OrZero(m / 2);
    }
  }

  lemma {:induction false} LowOnes(n: nat, j: nat)
    ensures Has(Pow2(n) - 1, j) <==> j < n
  {
    if n == 0 {
      HasZero(j);
    } else if j > 0 {
      LowOnes(n - 1, j - 1);
    }
  }

  /** The initial mask frees exactly the ids 0..n-1; with 32 workers the shift overflows and the subtraction wraps. */
  lemma {:induction false} AllFree(n: nat)
    requires 1 <= n <= 32
    ensures Ids(Minus(Bit(n), 1)) == Below(n)
  {
    Pow2Bound(n);
    var mask := Pow2(n) - 1;
    MinusOne(n);
    forall i: nat
      ensures Has(mask, i) <==> i < n
    {
      LowOnes(n, i);
    }
  }

  lemma {:induction false} MinusOne(n: nat)
    requires 1 <= n <= 32
    ensures Minus(Bit(n), 1) == Pow2(n) - 1
  {
    Pow2Bound(n);
  }

  lemma {:induction false} Pow2Bound(n: nat)
    requires n <= 32
    ensures Pow2(n) <= 0x1_0000_0000 && (n == 32 ==> Pow2(n) == 0x1_0000_0000)
  {
    WordSize();
    Pow2Monotone(n, 32);
  }

  lemma {:induction false} Pow2Monotone(a: nat, b: nat)
    requires a <= b
    ensures Pow2(a) <= Pow2(b)
  {
    if a < b {
      Pow2Monotone(a, b - 1);
    }
  }

  /** Clearing bit `id` takes that id and no other; setting it gives it back. */
  lemma {:induction false} OneBit(mask: nat, id: nat)
    requires id < 32
    ensures Ids(AndNot(mask, Bit(id))) == Ids(mask) - {id}
    ensures Ids(Or(mask, Bit(id))) == Ids(mask) + {id}
  {
    forall i: nat
      ensures Has(AndNot(mask, Bit(id)), i) <==> i != id && Has(mask, i)
    {
      ClearBit(mask, id, i);
    }
    forall i: nat
      ensures Has(Or(mask, Bit(id)), i) <==> i == id || Has(mask, i)
    {
      SetBit(mask, id, i);
    }
  }

  ghost function Below(n: nat): (r: set<nat>)
    ensures forall i: nat :: i in r <==> i < n
    ensures |r| == n
  {
    if n == 0 then {} else Below(n - 1) + {n - 1}
  }

  /** The part of the controller that runWorker shares between goroutines; each method body runs under the mutex. */
  class AviController {
    const numWorkers: uint32
    var mask: nat

    constructor (n: uint32)
      ensures numWorkers == n
      ensures 1 <= n <= 32 ==> Ids(mask) == Below(n)
    {
      numWorkers := n;
      mask := Minus(Bit(n), 1);
      new;
      if 1 <= n <= 32 {
        AllFree(n);
      }
    }

    /** The first critical section of runWorker. */
    method Acquire() returns (id: uint32)
      modifies this
      ensures Picks(old(Ids(mask)), numWorkers, id)
      ensures Ids(mask) == old(Ids(mask)) - {id}
    {
      id := SENTINEL;
      var i := 0;
      while i < numWorkers
        invariant 0 <= i <= numWorkers
        invariant mask == old(mask) && id == SENTINEL
        invariant forall j: nat :: j < i ==> j !in Ids(mask)
      {
        BitInIds(mask, i);
        if And(Bit(i), mask) != 0 {
          id := i;
          OneBit(mask, i);
          mask := AndNot(mask, Bit(i));
          return;
        }
        i := i + 1;
      }
    }

    /** The second critical section of runWorker. */
    method Release(id: uint32)
      modifies this
      ensures id < 32 ==> Ids(mask) == old(Ids(mask)) + {id}
      ensures id >= 32 ==> mask == old(mask)
    {
      if id < 32 {
        OneBit(mask, id);
      } else {
        OrZero(mask);
      }
      mask := Or(mask, Bit(id));
    }
  }

  lemma {:induction false} BitInIds(mask: nat, i: nat)
    ensures And(Bit(i), mask) != 0 <==> i in Ids(mask)
  {
    if i < 32 {
      TestBit(mask, i);
    } else {
      AndZero(mask);
    }
  }

  // ---------- all interleavings of n workers ----------

  /** A goroutine between runs of runWorker, waiting on its queue, or processing a key. */
  datatype Worker = Idle | Holding(id: nat) | Busy(id: nat, key: Bytes)

  datatype System = System(free: set<nat>, workers: seq<Worker>, queues: seq<set<Bytes>>)

  datatype Event =
    | Enqueue(key: Bytes)              // an informer handler adds a key
    | Start(w: nat)                    // runWorker picks an id
    | Get(w: nat, key: Bytes)          // the worker takes a key off its queue
    | Finish(w: nat, requeue: bool)    // the sync returned; on a transient error the key goes back
    | Stop(w: nat)                     // the queue was shut down; the id is given back

  ghost predicate Init(s: System, n: nat) {
    && s.free == Below(n)
    && |s.workers| == n && (forall w :: 0 <= w < n ==> s.workers[w] == Idle)
    && |s.queues| == n && (forall i :: 0 <= i < n ==> s.queues[i] == {})
  }

  ghost predicate Step(s: System, e: Event, t: System) {
    var n := |s.workers|;
    match e
    case Enqueue(key) =>
      1 <= n == |s.queues| && t == s.(queues := AddKey(s.queues, Bkt(key, n), key))
    case Start(w) =>
      && w < n && s.workers[w].Idle?
      && |t.workers| == n && t.workers[w].Holding?
      && var id := t.workers[w].id;
         Picks(s.free, n, id) && t == s.(free := s.free - {id}, workers := s.workers[w := Holding(id)])
    case Get(w, key) =>
      && w < n && s.workers[w].Holding?
      && var id := s.workers[w].id;
         id < |s.queues| && key in s.queues[id]
         && t == s.(workers := s.workers[w := Busy(id, key)], queues := s.queues[id := s.queues[id] - {key}])
    case Finish(w, requeue) =>
      && w < n && s.workers[w].Busy?
      && var Busy(id, key) := s.workers[w];
         t == s.(workers := s.workers[w := Holding(id)],
                 queues := if requeue then AddKey(s.queues, id, key) else s.queues)
    case Stop(w) =>
      && w < n && s.workers[w].Holding?
      && var id := s.workers[w].id;
         t == s.(free := s.free + {id}, workers := s.workers[w := Idle])
  }

  function AddKey(queues: seq<set<Bytes>>, i: nat, key: Bytes): seq<set<Bytes>> {
    if i < |queues| then queues[i := queues[i] + {key}] else queues
  }

  /** Every key waits in, or is being processed from, the queue it hashes to. */
  ghost predicate Routed(s: System) {
    var n := |s.workers|;
    && 1 <= n == |s.queues|
    && (forall i, k :: 0 <= i < n && k in s.queues[i] ==> Bkt(k, n) == i)
    && (forall w :: 0 <= w < n && s.workers[w].Busy? ==> Bkt(s.workers[w].key, n) == s.workers[w].id)
  }

  ghost predicate Holds(wk: Worker, i: nat) {
    !wk.Idle? && wk.id == i
  }

  /** Each id below n is either free or held by exactly one worker; no other id is around. */
  ghost predicate Allotted(s: System) {
    var n := |s.workers|;
    && 1 <= n <= 32
    && (forall w :: 0 <= w < n && !s.workers[w].Idle? ==> s.workers[w].id < n)
    && (forall v, w :: 0 <= v < w < n && !s.workers[v].Idle? && !s.workers[w].Idle? ==>
       s.workers[v].id != s.workers[w].id)
    && (forall i :: i in s.free ==> i < n && forall w :: 0 <= w < n ==> !Holds(s.workers[w], i))
    && (forall i: nat :: i < n && i !in s.free ==> exists w :: 0 <= w < n && Holds(s.workers[w], i))
  }

  ghost predicate Inv(s: System) {
    Allotted(s) && Routed(s)
  }

  // ---------- pigeonhole ----------

  ghost function HeldIds(ws: seq<Worker>): set<nat> {
    if ws == [] then {} else HeldIds(ws[1..]) + (if ws[0].Idle? then {} else {ws[0].id})
  }

  lemma {:induction false} HeldIdsMember(ws: seq<Worker>, i: nat)
    ensures i in HeldIds(ws) <==> exists w :: 0 <= w < |ws| && Holds(ws[w], i)
  {
    if ws != [] {
      HeldIdsMember(ws[1..], i);
      if i in HeldIds(ws[1..]) {
        var w :| 0 <= w < |ws[1..]| && Holds(ws[1..][w], i);
        assert Holds(ws[w + 1], i);
      }
      if exists w :: 0 <= w < |ws| && Holds(ws[w], i) {
        var w :| 0 <= w < |ws| && Holds(ws[w], i);
        assert w > 0 ==> ws[1..][w - 1] == ws[w];
      }
    }
  }

  lemma {:induction false} HeldIdsBound(ws: seq<Worker>)
    ensures |HeldIds(ws)| <= |ws|
    ensures forall w :: 0 <= w < |ws| && ws[w].Idle? ==> |HeldIds(ws)| < |ws|
  {
    if ws != [] {
      HeldIdsBound(ws[1..]);
      forall w | 0 <= w < |ws| && ws[w].Idle?
        ensures |HeldIds(ws)| < |ws|
      {
        assert w > 0 ==> ws[1..][w - 1].Idle?;
      }
    }
  }

  lemma {:induction false} SubsetSize<T>(a: set<T>, b: set<T>)
    requires a <= b
    ensures |a| <= |b|
  {
    if a != {} {
      var x :| x in a;
      SubsetSize(a - {x}, b - {x});
    }
  }

  /** While some worker is idle, some id below n is free: n - 1 others cannot hold all n. */
  lemma {:induction false} SomeIdIsFree(s: System, w: nat)
    requires Allotted(s) && w < |s.workers| && s.workers[w].Idle?
    ensures exists i :: i in s.free && i < |s.workers|
  {
    var n := |s.workers|;
    HeldIdsBound(s.workers);
    if Below(n) <= HeldIds(s.workers) {
      SubsetSize(Below(n), HeldIds(s.workers));
    }
    var i :| i in Below(n) && i !in HeldIds(s.workers);
    HeldIdsMember(s.workers, i);
    assert i in s.free;
  }

  // ---------- every step keeps the invariant ----------

  lemma {:induction false} InitInv(s: System, n: nat)
    requires Init(s, n) && 1 <= n <= 32
    ensures Inv(s)
  {
  }

  lemma {:induction false} StartKeeps(s: System, w: nat, t: System)
    requires Inv(s) && Step(s, Start(w), t)
    ensures Inv(t)
  {
    var n := |s.workers|;
    SomeIdIsFree(s, w);
    var id := t.workers[w].id;
    assert Holds(t.workers[w], id);
    forall v | 0 <= v < n && v != w && !s.workers[v].Idle?
      ensures s.workers[v].id != id
    {
      assert !Holds(s.workers[v], id);
    }
    StillHeld(s, t, w, id);
  }

  /** Ids held by workers other than `w` are still held. */
  lemma {:induction false} StillHeld(s: System, t: System, w: nat, id: nat)
    requires Allotted(s) && w < |s.workers| && (Holds(s.workers[w], id) || s.workers[w].Idle?)
    requires |t.workers| == |s.workers| && forall v :: 0 <= v < |s.workers| && v != w ==> t.workers[v] == s.workers[v]
    ensures forall i: nat :: i < |s.workers| && i !in s.free && i != id ==>
      exists v :: 0 <= v < |t.workers| && Holds(t.workers[v], i)
  {
    forall i: nat | i < |s.workers| && i !in s.free && i != id
      ensures exists v :: 0 <= v < |t.workers| && Holds(t.workers[v], i)
    {
      var v :| 0 <= v < |s.workers| && Holds(s.workers[v], i);
      assert Holds(t.workers[v], i);
    }
  }

  lemma {:induction false} StopKeeps(s: System, w: nat, t: System)
    requires Inv(s) && Step(s, Stop(w), t)
    ensures Inv(t)
  {
    var id := s.workers[w].id;
    assert Holds(s.workers[w], id);
    StillHeld(s, t, w, id);
  }

  /** Getting and finishing a key leave the ids where they were. */
  lemma {:induction false} SameIdsKeep(s: System, t: System)
    requires Allotted(s) && t.free == s.free && |t.workers| == |s.workers|
    requires forall w, i: nat :: 0 <= w < |s.workers| ==> (Holds(t.workers[w], i) <==> Holds(s.workers[w], i))
    ensures Allotted(t)
  {
    var n := |s.workers|;
    forall w | 0 <= w < n && !t.workers[w].Idle?
      ensures !s.workers[w].Idle? && s.workers[w].id == t.workers[w].id
    {
      assert Holds(t.workers[w], t.workers[w].id);
      assert Holds(s.workers[w], t.workers[w].id);
    }
    forall i: nat | i < n && i !in t.free
      ensures exists v :: 0 <= v < n && Holds(t.workers[v], i)
    {
      var v :| 0 <= v < n && Holds(s.workers[v], i);
      assert Holds(t.workers[v], i);
    }
  }

  lemma {:induction false} StepKeeps(s: System, e: Event, t: System)
    requires Inv(s) && Step(s, e, t)
    ensures Inv(t) && |t.workers| == |s.workers|
  {
    match e
    case Start(w) => StartKeeps(s, w, t);
    case Stop(w) => StopKeeps(s, w, t);
    case Enqueue(key) => SameIdsKeep(s, t);
    case Get(w, key) => SameIdsKeep(s, t);
    case Finish(w, requeue) => SameIdsKeep(s, t);
  }

  // ---------- whole runs ----------

  ghost predicate Steps(ss: seq<System>, es: seq<Event>) {
    |ss| == |es| + 1 && forall i :: 0 <= i < |es| ==> Step(ss[i], es[i], ss[i + 1])
  }

  ghost predicate Run(ss: seq<System>, es: seq<Event>, n: nat) {
    Steps(ss, es) && Init(ss[0], n)
  }

  lemma {:induction false} StepsKeep(ss: seq<System>, es: seq<Event>, i: nat)
    requires Steps(ss, es) && i < |ss| && Inv(ss[0])
    ensures Inv(ss[i]) && |ss[i].workers| == |ss[0].workers|
  {
    if i > 0 {
      StepsKeep(ss, es, i - 1);
      StepKeeps(ss[i - 1], es[i - 1], ss[i]);
    }
  }

  lemma {:induction false} RunInv(ss: seq<System>, es: seq<Event>, n: nat, i: nat)
    requires Run(ss, es, n) && 1 <= n <= 32 && i < |ss|
    ensures Inv(ss[i]) && |ss[i].workers| == n
  {
    InitInv(ss[0], n);
    StepsKeep(ss, es, i);
  }

  /**
   * In every state of every run with 1 to 32 workers: the free ids and the held ids partition {0..n-1},
   * no two workers hold the same id, and none holds the sentinel.
   */
  lemma {:induction false} IdsPartition(ss: seq<System>, es: seq<Event>, n: nat, i: nat)
    requires Run(ss, es, n) && 1 <= n <= 32 && i < |ss|
    ensures |ss[i].workers| == n
    ensures ss[i].free !! HeldIds(ss[i].workers)
    ensures ss[i].free + HeldIds(ss[i].workers) == Below(n)
    ensures forall v, w :: 0 <= v < w < n && !ss[i].workers[v].Idle? && !ss[i].workers[w].Idle?
                           ==> ss[i].workers[v].id != ss[i].workers[w].id
    ensures forall w :: 0 <= w < n && !ss[i].workers[w].Idle? ==> ss[i].workers[w].id != SENTINEL
  {
    RunInv(ss, es, n, i);
    var s := ss[i];
    forall j: nat
      ensures j in HeldIds(s.workers) <==> j < n && j !in s.free
    {
      HeldIdsMember(s.workers, j);
    }
  }

  /** No key is ever processed by two workers at once. */
  lemma {:induction false} NoKeyTwice(ss: seq<System>, es: seq<Event>, n: nat, i: nat, v: nat, w: nat)
    requires Run(ss, es, n) && 1 <= n <= 32 && i < |ss|
    requires v < n && w < n && |ss[i].workers| == n
    requires ss[i].workers[v].Busy? && ss[i].workers[w].Busy? && ss[i].workers[v].key == ss[i].workers[w].key
    ensures v == w
  {
    RunInv(ss, es, n, i);
  }

  /** With two workers no worker ever processes both a Service key and an Endpoints key. */
  lemma {:induction false} OneTypePerWorker(ss: seq<System>, es: seq<Event>, i: nat, w: nat, ns: Bytes, name: Bytes,
                                            t: ObjType)
    requires Run(ss, es, NUM_WORKERS) && i < |ss| && w < NUM_WORKERS && |ss[i].workers| == NUM_WORKERS
    requires ns != [] && ss[i].workers[w].Busy? && ss[i].workers[w].key == Key(t, ns, name)
    ensures ss[i].workers[w].id == if t.EndpointsObj? then 0 else 1
  {
    RunInv(ss, es, NUM_WORKERS, i);
    DispatchByType(t, ns, name);
  }
}
