/** Per-key single flight: a map of shared locks, reaped by reference count whenever a key is
    asked for. The outer mutex makes reap, look-up and clone one step; waiting for the lock,
    holding it, and dropping it (released, or the waiter cancelled) interleave freely. */
module SingleFlight {

  type Key = nat
  type TaskId = nat
  type LockId = nat

  /** A task keeps its own reference to the lock from the moment it asks. */
  datatype Task = Task(key: Key, lock: LockId, holding: bool)

  /** `nextLock` names a lock no map entry or task has referred to yet. */
  datatype World = World(locks: map<Key, LockId>, tasks: map<TaskId, Task>, nextLock: LockId)

  // ---- Reference counts ----

  function Referrers(w: World, lock: LockId): set<TaskId> {
    set t | t in w.tasks && w.tasks[t].lock == lock
  }

  function Entries(w: World, lock: LockId): set<Key> {
    set k | k in w.locks && w.locks[k] == lock
  }

  function StrongCount(w: World, lock: LockId): nat {
    |Entries(w, lock)| + |Referrers(w, lock)|
  }

  /** Somebody besides the map refers to the key's lock. */
  predicate Referenced(w: World, k: Key)
    requires k in w.locks
  {
    StrongCount(w, w.locks[k]) > 1
  }

  function Reaped(w: World): map<Key, LockId> {
    map k | k in w.locks && Referenced(w, k) :: w.locks[k]
  }

  // ---- Steps ----

  function Enter(w: World, t: TaskId, key: Key): World {
    if t in w.tasks then w
    else
      var kept := Reaped(w);
      if key in kept then World(kept, w.tasks[t := Task(key, kept[key], false)], w.nextLock)
      else World(kept[key := w.nextLock], w.tasks[t := Task(key, w.nextLock, false)], w.nextLock + 1)
  }

  predicate Free(w: World, lock: LockId) {
    forall t :: t in w.tasks && w.tasks[t].lock == lock ==> !w.tasks[t].holding
  }

  /** The lock itself admits one holder. */
  function Grant(w: World, t: TaskId): World {
    if t in w.tasks && Free(w, w.tasks[t].lock) then w.(tasks := w.tasks[t := w.tasks[t].(holding := true)]) else w
  }

  function Drop(w: World, t: TaskId): World {
    w.(tasks := w.tasks - {t})
  }

  datatype Step = Asks(task: TaskId, key: Key) | Granted(task: TaskId) | Drops(task: TaskId)

  function Apply(w: World, s: Step): World {
    match s
    case Asks(t, key) => Enter(w, t, key)
    case Granted(t) => Grant(w, t)
    case Drops(t) => Drop(w, t)
  }

  function Run(steps: seq<Step>): World {
    if steps == [] then World(map[], map[], 0) else Apply(Run(steps[..|steps| - 1]), steps[|steps| - 1])
  }

  // ---- What every interleaving keeps ----

  /** Every lock a task refers to is the one the map holds for its key. */
  ghost predicate Anchored(w: World) {
    forall t :: t in w.tasks ==> w.tasks[t].key in w.locks && w.locks[w.tasks[t].key] == w.tasks[t].lock
  }

  ghost predicate Distinct(w: World) {
    && (forall k :: k in w.locks ==> w.locks[k] < w.nextLock)
    && (forall j, k :: j in w.locks && k in w.locks && w.locks[j] == w.locks[k] ==> j == k)
  }

  ghost predicate OneHolder(w: World) {
    forall t, u :: (t in w.tasks && u in w.tasks && w.tasks[t].lock == w.tasks[u].lock
                    && w.tasks[t].holding && w.tasks[u].holding) ==> t == u
  }

  ghost predicate Valid(w: World) {
    Anchored(w) && Distinct(w) && OneHolder(w)
  }

  /** An entry is kept exactly when somebody holds or awaits its key. */
  lemma ReapsExactlyTheIdle(w: World, k: Key)
    requires Valid(w) && k in w.locks
    ensures k in Reaped(w) <==> exists t :: t in w.tasks && w.tasks[t].key == k
  {
    var lock := w.locks[k];
    assert Entries(w, lock) == {k};
    if t :| t in w.tasks && w.tasks[t].key == k {
      assert t in Referrers(w, lock);
    } else {
      forall t | t in w.tasks ensures t !in Referrers(w, lock) {
        assert w.tasks[t].key != k;
      }
      assert Referrers(w, lock) == {};
    }
  }

  lemma ReapKeeps(w: World)
    requires Valid(w)
    ensures Valid(w.(locks := Reaped(w)))
    ensures Reaped(w).Keys == set u | u in w.tasks :: w.tasks[u].key
  {
    forall k | k in w.locks ensures k in Reaped(w) <==> exists u :: u in w.tasks && w.tasks[u].key == k {
      ReapsExactlyTheIdle(w, k);
    }
    forall u | u in w.tasks ensures w.tasks[u].key in Reaped(w) && Reaped(w)[w.tasks[u].key] == w.tasks[u].lock {
      assert w.tasks[u].key in w.locks;
    }
  }

  lemma JoinKeeps(w: World, t: TaskId, key: Key)
    requires Valid(w) && t !in w.tasks && key in w.locks
    ensures Valid(w.(tasks := w.tasks[t := Task(key, w.locks[key], false)]))
  {
  }

  lemma OpenKeeps(w: World, t: TaskId, key: Key)
    requires Valid(w) && t !in w.tasks && key !in w.locks
    ensures Valid(World(w.locks[key := w.nextLock], w.tasks[t := Task(key, w.nextLock, false)], w.nextLock + 1))
  {
  }

  lemma EnterKeeps(w: World, t: TaskId, key: Key)
    requires Valid(w)
    ensures Valid(Enter(w, t, key))
    ensures t !in w.tasks ==>
              Enter(w, t, key).locks.Keys == set u | u in Enter(w, t, key).tasks :: Enter(w, t, key).tasks[u].key
  {
    if t !in w.tasks {
      ReapKeeps(w);
      var kept := w.(locks := Reaped(w));
      if key in kept.locks { JoinKeeps(kept, t, key); } else { OpenKeeps(kept, t, key); }
      EnterAddsKey(w, t, key);
    }
  }

  lemma EnterAddsKey(w: World, t: TaskId, key: Key)
    requires t !in w.tasks && Reaped(w).Keys == set u | u in w.tasks :: w.tasks[u].key
    ensures Enter(w, t, key).locks.Keys == set u | u in Enter(w, t, key).tasks :: Enter(w, t, key).tasks[u].key
  {
    var v := Enter(w, t, key);
    var busy := set u | u in v.tasks :: v.tasks[u].key;
    assert v.locks.Keys == Reaped(w).Keys + {key};
    assert v.tasks[t].key == key && key in busy;
    forall k | k in Reaped(w) ensures k in busy {
      var u :| u in w.tasks && w.tasks[u].key == k;
      assert v.tasks[u].key == k;
    }
  }

  lemma {:induction false} RunKeeps(steps: seq<Step>)
    ensures Valid(Run(steps))
    decreases |steps|
  {
    if steps != [] {
      var w := Run(steps[..|steps| - 1]);
      RunKeeps(steps[..|steps| - 1]);
      match steps[|steps| - 1] {
        case Asks(t, key) => EnterKeeps(w, t, key);
        case _ =>
      }
    }
  }

  /** Under any interleaving no two tasks hold the turn for one key. */
  lemma Exclusion(steps: seq<Step>, t: TaskId, u: TaskId)
    requires var w := Run(steps);
             t in w.tasks && u in w.tasks && w.tasks[t].holding && w.tasks[u].holding
               && w.tasks[t].key == w.tasks[u].key
    ensures t == u
  {
    RunKeeps(steps);
  }

  /** A task gets its turn exactly when nobody holds its key: never early, and never kept
      waiting behind another key or a reaped lock. */
  lemma TurnIsByKey(steps: seq<Step>, t: TaskId)
    requires t in Run(steps).tasks && !Run(steps).tasks[t].holding
    ensures var w := Run(steps);
            Grant(w, t).tasks[t].holding <==>
              forall u :: u in w.tasks && w.tasks[u].holding ==> w.tasks[u].key != w.tasks[t].key
  {
    RunKeeps(steps);
    var w := Run(steps);
    assert forall u :: u in w.tasks && w.tasks[u].key == w.tasks[t].key ==> w.tasks[u].lock == w.tasks[t].lock;
    assert forall u :: u in w.tasks && w.tasks[u].lock == w.tasks[t].lock ==> w.tasks[u].key == w.tasks[t].key;
  }

  /** Once a task has asked, the map names exactly the keys in flight. */
  lemma MapHoldsKeysInFlight(steps: seq<Step>, t: TaskId, key: Key)
    requires t !in Run(steps).tasks
    ensures var w := Run(steps + [Asks(t, key)]);
            w.locks.Keys == set u | u in w.tasks :: w.tasks[u].key
  {
    RunKeeps(steps);
    EnterKeeps(Run(steps), t, key);
    assert (steps + [Asks(t, key)])[..|steps|] == steps;
  }

  // ---- The map, reaped in place ----

  class KeyedLocks {
    var locks: map<Key, LockId>
    var tasks: map<TaskId, Task>
    var nextLock: LockId

    function Model(): World reads this {
      World(locks, tasks, nextLock)
    }

    constructor ()
      ensures Model() == Run([])
    {
      locks, tasks, nextLock := map[], map[], 0;
    }

    /** `retain`: visits every entry once, in no particular order, with the counts as they
        stand when the mutex was taken. */
    method Retain()
      modifies this`locks
      ensures locks == Reaped(old(Model()))
    {
      var all := locks;
      ghost var before := Model();
      var pending := locks.Keys;
      while pending != {}
        invariant tasks == before.tasks && nextLock == before.nextLock && all == before.locks
        invariant pending <= locks.Keys
        invariant forall k :: k in locks ==> k in all && locks[k] == all[k]
        invariant forall k :: k in all && k !in pending ==> (k in locks <==> Referenced(before, k))
        decreases |pending|
      {
        var k :| k in pending;
        pending := pending - {k};
        if StrongCount(World(all, tasks, nextLock), all[k]) <= 1 { locks := locks - {k}; }
      }
    }

    method Acquire(t: TaskId, key: Key)
      requires t !in tasks
      modifies this
      ensures Model() == Enter(old(Model()), t, key)
    {
      Retain();
      if key !in locks {
        locks := locks[key := nextLock];
        nextLock := nextLock + 1;
      }
      tasks := tasks[t := Task(key, locks[key], false)];
    }

    method TakeTurn(t: TaskId) returns (taken: bool)
      requires t in tasks
      modifies this
      ensures Model() == Grant(old(Model()), t)
      ensures taken == old(Free(Model(), tasks[t].lock))
    {
      taken := Free(Model(), tasks[t].lock);
      if taken { tasks := tasks[t := tasks[t].(holding := true)]; }
    }

    method Leave(t: TaskId)
      modifies this
      ensures Model() == Drop(old(Model()), t)
    {
      tasks := tasks - {t};
    }
  }

  // ---- What each step does ----

  /** Nobody but `t` has moved. */
  ghost predicate OnlyTask(w: World, v: World, t: TaskId) {
    forall u :: u != t ==> (u in v.tasks <==> u in w.tasks) && (u in w.tasks ==> v.tasks[u] == w.tasks[u])
  }

  lemma LocksTellKeys(v: World, t: TaskId)
    requires Valid(v) && t in v.tasks
    ensures forall u :: u in v.tasks ==> (v.tasks[u].lock == v.tasks[t].lock <==> v.tasks[u].key == v.tasks[t].key)
  {
    forall u | u in v.tasks ensures v.tasks[u].lock == v.tasks[t].lock <==> v.tasks[u].key == v.tasks[t].key {
      assert v.locks[v.tasks[u].key] == v.tasks[u].lock && v.locks[v.tasks[t].key] == v.tasks[t].lock;
    }
  }

  /** A task that asks waits on the lock of its key: the one its other tasks hold or await, or
      a lock nobody refers to when there is none. */
  lemma AskingDoes(w: World, t: TaskId, key: Key)
    requires Valid(w) && t !in w.tasks
    ensures var v := Apply(w, Asks(t, key));
            && OnlyTask(w, v, t) && t in v.tasks && v.tasks[t].key == key && !v.tasks[t].holding
            && (forall u :: u in w.tasks ==> (v.tasks[u].lock == v.tasks[t].lock <==> w.tasks[u].key == key))
  {
    EnterKeeps(w, t, key);
    LocksTellKeys(Enter(w, t, key), t);
  }

  /** A grant makes one waiting task the holder, or changes nothing; a drop takes one task away,
      and its turn with it. */
  lemma GrantingAndDroppingDo(w: World, t: TaskId)
    ensures var g, d := Apply(w, Granted(t)), Apply(w, Drops(t));
            && OnlyTask(w, g, t) && g.locks == w.locks && g.nextLock == w.nextLock
            && (t in g.tasks <==> t in w.tasks)
            && (t in w.tasks ==> g.tasks[t] == w.tasks[t] || g.tasks[t] == w.tasks[t].(holding := true))
            && OnlyTask(w, d, t) && d.locks == w.locks && d.nextLock == w.nextLock && t !in d.tasks
  {
  }
}
