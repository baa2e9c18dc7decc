/**
 Self-renewing locks: processes that each take several named locks, one by one, in a
 shared store of expiring keys. Every step below is one access to the store, and the
 steps of different processes interleave in any order.
 */
module Locks {
  type Name = string
  type Pid = nat

  /** Seconds a key lives after it was set or prolonged. */
  const LOCK_PERIOD: nat := 5

  datatype Key = Key(owner: Pid, expires: nat)

  datatype Phase =
    | Idle                      // holds nothing
    | Acquiring(next: nat)      // `next` names taken so far
    | Running                   // acquire returned, all names taken
    | LettingGo                 // releasing, or undoing a failed acquire

  /** `locks` maps each lock it has to the time it last set or prolonged its key. */
  datatype Process = Process(names: seq<Name>, phase: Phase, locks: map<Name, nat>)

  datatype World = World(now: nat, store: map<Name, Key>, processes: map<Pid, Process>)

  datatype Step =
    | Start(p: Pid)                 // MultiLock.acquire begins
    | TryNext(p: Pid)               // set the next name if it is not there
    | Prolong(p: Pid, name: Name)   // one turn of the updater of a lock
    | Stray(name: Name)             // an updater that outlived its lock: it checks no owner
    | StartRelease(p: Pid)
    | Drop(p: Pid, name: Name)      // delete one key, whoever owns it now
    | Finish(p: Pid)                // nothing left to let go
    | Crash(p: Pid)                 // the process is gone, its keys stay
    | Tick                          // a second passes

  function Touch(store: map<Name, Key>, name: Name, now: nat): map<Name, Key> {
    if name in store then store[name := store[name].(expires := now + LOCK_PERIOD)] else store
  }

  function Alive(store: map<Name, Key>, now: nat): map<Name, Key> {
    map n | n in store && now < store[n].expires :: store[n]
  }

  function With(w: World, p: Pid, process: Process): World {
    w.(processes := w.processes[p := process])
  }

  /** A step whose turn it is not leaves the world as it is. */
  function Apply(w: World, s: Step): World {
    match s
    case Start(p) =>
      if p in w.processes && w.processes[p].phase == Idle
      then With(w, p, w.processes[p].(phase := Acquiring(0)))
      else w
    case TryNext(p) =>
      if p in w.processes && w.processes[p].phase.Acquiring? then
        var me := w.processes[p];
        if me.phase.next >= |me.names| then With(w, p, me.(phase := Running))
        else
          var name := me.names[me.phase.next];
          if name in w.store then With(w, p, me.(phase := LettingGo))
          else
            With(w.(store := w.store[name := Key(p, w.now + LOCK_PERIOD)]), p,
                 me.(phase := Acquiring(me.phase.next + 1), locks := me.locks[name := w.now]))
      else w
    case Prolong(p, name) =>
      if p in w.processes && name in w.processes[p].locks then
        var me := w.processes[p];
        With(w.(store := Touch(w.store, name, w.now)), p, me.(locks := me.locks[name := w.now]))
      else w
    case Stray(name) => w.(store := Touch(w.store, name, w.now))
    case StartRelease(p) =>
      if p in w.processes && w.processes[p].phase == Running
      then With(w, p, w.processes[p].(phase := LettingGo))
      else w
    case Drop(p, name) =>
      if p in w.processes && w.processes[p].phase == LettingGo && name in w.processes[p].locks then
        var me := w.processes[p];
        With(w.(store := w.store - {name}), p, me.(locks := me.locks - {name}))
      else w
    case Finish(p) =>
      if p in w.processes && w.processes[p].phase == LettingGo && w.processes[p].locks == map[]
      then With(w, p, w.processes[p].(phase := Idle))
      else w
    case Crash(p) => w.(processes := w.processes - {p})
    case Tick => w.(now := w.now + 1, store := Alive(w.store, w.now + 1))
  }

  function Run(w: World, steps: seq<Step>): World
    decreases |steps|
  {
    if steps == [] then w else Run(Apply(w, steps[0]), steps[1..])
  }

  predicate Has(w: World, p: Pid, name: Name) {
    p in w.processes && name in w.processes[p].locks
  }

  /** Each holder has set or prolonged each of its keys less than LOCK_PERIOD ago, next second included. */
  ghost predicate InTime(w: World) {
    forall p, name :: Has(w, p, name) ==> w.now + 1 < w.processes[p].locks[name] + LOCK_PERIOD
  }

  /** No second passes in the run that would let a holder's key expire. */
  ghost predicate Timely(w: World, steps: seq<Step>)
    decreases |steps|
  {
    steps == [] || ((steps[0] == Tick ==> InTime(w)) && Timely(Apply(w, steps[0]), steps[1..]))
  }

  ghost predicate Fresh(w: World) {
    w.store == map[] && forall p :: p in w.processes ==> w.processes[p].phase == Idle && w.processes[p].locks == map[]
  }

  /** At most one process has a lock. */
  ghost predicate Exclusive(w: World) {
    forall p, q, name :: Has(w, p, name) && Has(w, q, name) ==> p == q
  }

  function Names(s: seq<Name>): set<Name> {
    set n | n in s
  }

  ghost predicate PhaseInv(me: Process) {
    match me.phase
    case Idle => me.locks == map[]
    case Acquiring(n) => n <= |me.names| && me.locks.Keys == Names(me.names[..n])
    case Running => me.locks.Keys == Names(me.names)
    case LettingGo => true
  }

  ghost predicate KeyInv(w: World, p: Pid, name: Name)
    requires Has(w, p, name)
  {
    var t := w.processes[p].locks[name];
    t <= w.now < t + LOCK_PERIOD && name in w.store && w.store[name].owner == p
        && t + LOCK_PERIOD <= w.store[name].expires
  }

  ghost predicate Inv(w: World) {
    && (forall p :: p in w.processes ==> PhaseInv(w.processes[p]))
    && (forall p, name :: Has(w, p, name) ==> KeyInv(w, p, name))
  }

  lemma {:induction false} PhaseStep(w: World, s: Step, p: Pid)
    requires Inv(w) && p in Apply(w, s).processes
    ensures PhaseInv(Apply(w, s).processes[p])
  {
    assert p in w.processes && PhaseInv(w.processes[p]);
    var me := w.processes[p];
    if s == TryNext(p) && me.phase.Acquiring? {
      var n := me.phase.next;
      if n < |me.names| {
        assert me.names[..n + 1] == me.names[..n] + [me.names[n]];
      } else {
        assert me.names[..n] == me.names;
      }
    }
  }

  lemma {:induction false} KeyStep(w: World, s: Step, p: Pid, name: Name)
    requires Inv(w) && (s == Tick ==> InTime(w)) && Has(Apply(w, s), p, name)
    ensures KeyInv(Apply(w, s), p, name)
  {
    if Has(w, p, name) {
      assert KeyInv(w, p, name);
      if s.Drop? && Has(w, s.p, name) {
        assert KeyInv(w, s.p, name);
      }
    }
  }

  lemma {:induction false} StepKeeps(w: World, s: Step)
    requires Inv(w) && (s == Tick ==> InTime(w))
    ensures Inv(Apply(w, s))
  {
    forall p | p in Apply(w, s).processes ensures PhaseInv(Apply(w, s).processes[p]) { PhaseStep(w, s, p); }
    forall p, name | Has(Apply(w, s), p, name) ensures KeyInv(Apply(w, s), p, name) { KeyStep(w, s, p, name); }
  }

  lemma {:induction false} RunKeeps(w: World, steps: seq<Step>)
    requires Inv(w) && Timely(w, steps)
    ensures Inv(Run(w, steps))
    decreases |steps|
  {
    if steps != [] {
      StepKeeps(w, steps[0]);
      RunKeeps(Apply(w, steps[0]), steps[1..]);
    }
  }

  /**
   Under every interleaving, as long as each holder prolongs its keys within
   LOCK_PERIOD: no two processes have the same lock; a process that is not in the
   middle of acquiring or releasing has all its names or none.
   */
  lemma {:induction false} LocksAreSafe(w: World, steps: seq<Step>)
    requires Fresh(w) && Timely(w, steps)
    ensures Exclusive(Run(w, steps))
    ensures var r := Run(w, steps);
            forall p :: p in r.processes ==>
              && (r.processes[p].phase == Running ==> r.processes[p].locks.Keys == Names(r.processes[p].names))
              && (r.processes[p].phase == Idle ==> r.processes[p].locks.Keys == {})
  {
    RunKeeps(w, steps);
    var r := Run(w, steps);
    assert forall p, name :: Has(r, p, name) ==> r.store[name].owner == p by {
      forall p, name | Has(r, p, name) ensures r.store[name].owner == p { assert KeyInv(r, p, name); }
    }
    forall p | p in r.processes
      ensures r.processes[p].phase == Running ==> r.processes[p].locks.Keys == Names(r.processes[p].names)
      ensures r.processes[p].phase == Idle ==> r.processes[p].locks.Keys == {}
    {
      assert PhaseInv(r.processes[p]);
    }
  }

  // ---- Taking all names and letting go ----

  predicate Distinct(names: seq<Name>) {
    forall i, j :: 0 <= i < j < |names| ==> names[i] != names[j]
  }

  /** The world once p has begun and made n tries, with nothing else going on. */
  function Tried(w: World, p: Pid, n: nat): World {
    if n == 0 then Apply(w, Start(p)) else Apply(Tried(w, p, n - 1), TryNext(p))
  }

  function Drops(p: Pid, names: seq<Name>): seq<Step> {
    if names == [] then [] else [Drop(p, names[0])] + Drops(p, names[1..])
  }

  /** These names were added to the map, all with this value. */
  ghost predicate Adds<V>(m: map<Name, V>, names: set<Name>, v: V, m': map<Name, V>) {
    && (forall n :: n in m' <==> n in m || n in names)
    && (forall n :: n in m' ==> m'[n] == if n in names then v else m[n])
  }

  /** p has taken these names and is in this phase; nothing else is different. */
  ghost predicate Took(w: World, p: Pid, names: set<Name>, phase: Phase, w': World) {
    && p in w.processes && w'.now == w.now
    && Adds(w.store, names, Key(p, w.now + 5), w'.store)
    && var me, me' := w.processes[p], if p in w'.processes then w'.processes[p] else w.processes[p];
       w'.processes == w.processes[p := me'] && me'.names == me.names && me'.phase == phase
           && Adds(me.locks, names, w.now, me'.locks)
  }

  /** The last try: p has all its names, or finds the next one taken. */
  lemma {:induction false} TookAtEnd(w: World, p: Pid, names: set<Name>, i: nat, w': World)
    requires Took(w, p, names, Acquiring(i), w') && i <= |w.processes[p].names|
    requires i < |w.processes[p].names| ==> w.processes[p].names[i] in w.store
    ensures var phase := if i < |w.processes[p].names| then LettingGo else Running;
            Took(w, p, names, phase, Apply(w', TryNext(p)))
  {
  }

  lemma {:induction false} TookReleasing(w: World, p: Pid, names: set<Name>, w': World)
    requires Took(w, p, names, Running, w')
    ensures Took(w, p, names, LettingGo, Apply(w', StartRelease(p)))
  {
  }

  lemma {:induction false} TookNone(w: World, p: Pid)
    requires p in w.processes && w.processes[p].phase == Idle
    ensures Took(w, p, {}, Acquiring(0), Apply(w, Start(p)))
  {
  }

  lemma {:induction false} TookNext(w: World, p: Pid, names: set<Name>, i: nat, w': World)
    requires Took(w, p, names, Acquiring(i), w') && i < |w.processes[p].names|
    requires w.processes[p].names[i] !in w.store && w.processes[p].names[i] !in names
    ensures Took(w, p, names + {w.processes[p].names[i]}, Acquiring(i + 1), Apply(w', TryNext(p)))
  {
  }

  lemma {:induction false} NextName(all: seq<Name>, n: nat)
    requires n < |all| && Distinct(all)
    ensures Names(all[..n + 1]) == Names(all[..n]) + {all[n]} && all[n] !in Names(all[..n])
  {
    assert all[..n + 1] == all[..n] + [all[n]];
  }

  /** With n tries p has taken its first n names. */
  ghost predicate TookFirst(w: World, p: Pid, n: nat)
    requires p in w.processes && n <= |w.processes[p].names|
  {
    Took(w, p, Names(w.processes[p].names[..n]), Acquiring(n), Tried(w, p, n))
  }

  lemma {:induction false} TakesNames(w: World, p: Pid, n: nat)
    requires p in w.processes && w.processes[p].phase == Idle && n <= |w.processes[p].names|
    requires Distinct(w.processes[p].names)
    requires forall k :: 0 <= k < n ==> w.processes[p].names[k] !in w.store
    ensures TookFirst(w, p, n)
  {
    assert Names(w.processes[p].names[..0]) == {};
    TookNone(w, p);
    var i := 0;
    while i < n
      invariant i <= n && TookFirst(w, p, i)
    {
      TakesNext(w, p, i);
      i := i + 1;
    }
  }

  lemma {:induction false} TakesNext(w: World, p: Pid, n: nat)
    requires p in w.processes && n < |w.processes[p].names| && Distinct(w.processes[p].names)
    requires w.processes[p].names[n] !in w.store && TookFirst(w, p, n)
    ensures TookFirst(w, p, n + 1)
  {
    NextName(w.processes[p].names, n);
    TookNext(w, p, Names(w.processes[p].names[..n]), n, Tried(w, p, n));
  }

  /** The world once p, letting go, has dropped these names. */
  function Dropped(w: World, p: Pid, names: set<Name>): World
    requires p in w.processes
  {
    With(w.(store := w.store - names), p, w.processes[p].(locks := w.processes[p].locks - names))
  }

  lemma {:induction false} DroppedBoth(w: World, p: Pid, a: set<Name>, b: set<Name>)
    requires p in w.processes
    ensures Dropped(Dropped(w, p, a), p, b) == Dropped(w, p, a + b)
  {
    var one, both := Dropped(Dropped(w, p, a), p, b), Dropped(w, p, a + b);
    assert one.store == both.store;
    assert one.processes[p].locks == both.processes[p].locks;
    assert one.processes == both.processes;
  }

  lemma {:induction false} DropsNames(w: World, p: Pid, names: seq<Name>)
    requires p in w.processes && w.processes[p].phase == LettingGo
    requires Distinct(names) && forall n :: n in names ==> n in w.processes[p].locks
    ensures Run(w, Drops(p, names)) == Dropped(w, p, Names(names))
    decreases |names|
  {
    if names == [] {
      assert Names(names) == {};
      var r, me := Dropped(w, p, {}), w.processes[p];
      assert r.store == w.store && r.processes[p] == me;
      assert r.processes == w.processes;
    } else {
      var w1 := Dropped(w, p, {names[0]});
      assert Apply(w, Drop(p, names[0])) == w1;
      assert names == [names[0]] + names[1..];
      assert Names(names) == {names[0]} + Names(names[1..]);
      DropsNames(w1, p, names[1..]);
      DroppedBoth(w, p, {names[0]}, Names(names[1..]));
    }
  }

  /** p has exactly these names, taken just now in w; once it has let go of them, w is back. */
  lemma {:induction false} GivesBack(w: World, p: Pid, names: seq<Name>, w1: World)
    requires p in w.processes && w.processes[p].phase == Idle && w.processes[p].locks == map[]
    requires Distinct(names) && forall n :: n in names ==> n !in w.store
    requires Took(w, p, Names(names), LettingGo, w1)
    ensures Apply(Run(w1, Drops(p, names)), Finish(p)) == w
  {
    DropsNames(w1, p, names);
    var w2 := Dropped(w1, p, Names(names));
    assert w2.store == w.store && w2.processes[p].locks == map[];
    assert w2.processes[p].(phase := Idle) == w.processes[p];
    assert Apply(w2, Finish(p)).processes == w.processes;
  }

  /**
   A process alone with its names gets all of them, each under a key of its own that lives five
   seconds, and touches nothing else; letting go of them gives back the world as it was.
   */
  lemma {:induction false} TakesAllAndGivesBack(w: World, p: Pid)
    requires p in w.processes && w.processes[p].phase == Idle && w.processes[p].locks == map[]
    requires Distinct(w.processes[p].names) && forall n :: n in w.processes[p].names ==> n !in w.store
    ensures var names := w.processes[p].names;
            var held := Tried(w, p, |names| + 1);
            && Took(w, p, Names(names), Running, held)
            && Apply(Run(Apply(held, StartRelease(p)), Drops(p, names)), Finish(p)) == w
  {
    var names := w.processes[p].names;
    assert names[..|names|] == names;
    TakesNames(w, p, |names|);
    TookAtEnd(w, p, Names(names), |names|, Tried(w, p, |names|));
    TookReleasing(w, p, Names(names), Tried(w, p, |names| + 1));
    GivesBack(w, p, names, Apply(Tried(w, p, |names| + 1), StartRelease(p)));
  }

  /** A process that finds its name i taken lets go of those before it, and the world is as it was. */
  lemma {:induction false} FailsAndGivesBack(w: World, p: Pid, i: nat)
    requires p in w.processes && w.processes[p].phase == Idle && w.processes[p].locks == map[]
    requires Distinct(w.processes[p].names) && i < |w.processes[p].names| && w.processes[p].names[i] in w.store
    requires forall k :: 0 <= k < i ==> w.processes[p].names[k] !in w.store
    ensures var names := w.processes[p].names[..i];
            var failed := Tried(w, p, i + 1);
            && Took(w, p, Names(names), LettingGo, failed)
            && Apply(Run(failed, Drops(p, names)), Finish(p)) == w
  {
    TakesNames(w, p, i);
    TookAtEnd(w, p, Names(w.processes[p].names[..i]), i, Tried(w, p, i));
    GivesBack(w, p, w.processes[p].names[..i], Tried(w, p, i + 1));
  }

  /** Process q stands before its next name. */
  predicate AboutToTake(w: World, q: Pid, name: Name) {
    q in w.processes && w.processes[q].phase.Acquiring? &&
    w.processes[q].phase.next < |w.processes[q].names| && w.processes[q].names[w.processes[q].phase.next] == name
  }

  /**
   The condition is exact: taking a name keeps the locks exclusive if and only if its key
   is still in the store or no other process has the lock. So a holder whose key ran out
   shares its lock with the first process that tries.
   */
  lemma {:induction false} TakingIsExclusiveIff(w: World, q: Pid, name: Name)
    requires Exclusive(w) && AboutToTake(w, q, name)
    ensures Exclusive(Apply(w, TryNext(q))) <==> name in w.store || forall p :: Has(w, p, name) ==> p == q
  {
    var r := Apply(w, TryNext(q));
    if name in w.store {
      assert forall p, n :: Has(r, p, n) ==> Has(w, p, n);
    } else {
      assert Has(r, q, name);
      assert forall p, n :: Has(r, p, n) <==> Has(w, p, n) || (p == q && n == name);
    }
  }

  const BTC: Name := "BTC-USDT"

  /** Process 1 has the only lock since second 0, process 2 wants it. */
  function Waiting(now: nat, store: map<Name, Key>): World {
    World(now, store, map[1 := Process([BTC], Running, map[BTC := 0]), 2 := Process([BTC], Acquiring(0), map[])])
  }

  function Ticks(k: nat): seq<Step> {
    if k == 0 then [] else [Tick] + Ticks(k - 1)
  }

  lemma {:induction false} KeyLasts(w: World, name: Name, m: nat, k: nat)
    requires name in w.store ==> m > 0 && w.store[name].expires == w.now + m
    requires name !in w.store ==> m == 0
    ensures name in Run(w, Ticks(k)).store <==> k < m
    decreases k
  {
    if k > 0 {
      KeyLasts(Apply(w, Tick), name, if m == 0 then 0 else m - 1, k - 1);
    }
  }

  /** A key that is set or prolonged is in the store for less than five more seconds, whatever it had. */
  lemma {:induction false} KeyLivesFiveSeconds(w: World, p: Pid, name: Name, k: nat)
    ensures AboutToTake(w, p, name) && name !in w.store ==>
              (name in Run(Apply(w, TryNext(p)), Ticks(k)).store <==> k < 5)
    ensures Has(w, p, name) && name in w.store ==>
              (name in Run(Apply(w, Prolong(p, name)), Ticks(k)).store <==> k < 5)
  {
    if AboutToTake(w, p, name) && name !in w.store {
      KeyLasts(Apply(w, TryNext(p)), name, 5, k);
    }
    if Has(w, p, name) && name in w.store {
      KeyLasts(Apply(w, Prolong(p, name)), name, 5, k);
    }
  }

  /** A holder that lets LOCK_PERIOD pass without prolonging is no longer alone. */
  lemma {:induction false} LateHolderIsNotAlone(now: nat)
    requires now <= LOCK_PERIOD
    ensures var late := Run(Waiting(now, StoreAt(now)), seq(LOCK_PERIOD - now, i => Tick));
            late == Waiting(LOCK_PERIOD, map[]) && Exclusive(late) && !Exclusive(Apply(late, TryNext(2)))
    decreases LOCK_PERIOD - now
  {
    var ticks := seq(LOCK_PERIOD - now, i => Tick);
    if now < LOCK_PERIOD {
      HolderWaits(now);
      assert ticks[0] == Tick && ticks[1..] == seq(LOCK_PERIOD - now - 1, i => Tick);
      LateHolderIsNotAlone(now + 1);
    } else {
      assert ticks == [];
      SecondTakes();
    }
  }

  /** The store, with the holder's key until it expires. */
  function StoreAt(now: nat): map<Name, Key> {
    if now < LOCK_PERIOD then map[BTC := Key(1, LOCK_PERIOD)] else map[]
  }

  lemma {:induction false} HolderWaits(now: nat)
    requires now < LOCK_PERIOD
    ensures Apply(Waiting(now, StoreAt(now)), Tick) == Waiting(now + 1, StoreAt(now + 1))
  {
    assert Alive(StoreAt(now), now + 1) == StoreAt(now + 1);
  }

  lemma {:induction false} SecondTakes()
    ensures var late := Waiting(LOCK_PERIOD, map[]); Exclusive(late) && !Exclusive(Apply(late, TryNext(2)))
  {
    var w := Waiting(LOCK_PERIOD, map[]);
    assert Has(w, 1, BTC) && !Has(w, 2, BTC);
    assert AboutToTake(w, 2, BTC);
    TakingIsExclusiveIff(w, 2, BTC);
  }
}
