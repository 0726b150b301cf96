/** Rebuilding shared device tensors in consumer processes: every message carries a reference
    counter of the producer, and a weak cache finds storages that are already imported. The steps
    below are the points between which threads and processes may interleave. */
module Reductions {
  import opened Options

  /** Consumers cache under (handle, offset), producers under the handle alone. */
  datatype Key = Slice(handle: nat, offset: nat) | Whole(handle: nat)

  datatype Message = Message(handle: nat, offset: nat, size: nat, counter: nat)
  {
    function Key(): Key { Slice(handle, offset) }
  }

  datatype Thread = Thread(pid: nat, tid: nat)

  /** Where a thread is inside rebuild_gcu_tensor. */
  datatype Phase =
    | Idle
    | Taken(m: Message)                 // message unpickled
    | Missed(m: Message)                // cache lookup gave None
    | Found(m: Message, storage: nat)   // cache lookup gave a live storage
    | Imported(m: Message, storage: nat) // _new_shared_gcu returned, cache not yet written
    | Ready(storage: nat)               // about to build the tensor

  datatype Holder = ByThread(t: Thread) | ByTensor(id: nat)

  /** An imported storage lives as long as someone holds it and owns one counter. */
  datatype Storage = Storage(pid: nat, key: Key, counter: nat, holders: set<Holder>)

  datatype State = State(
    issued: seq<Message>, inFlight: set<nat>,
    phases: map<Thread, Phase>, cache: map<(nat, Key), nat>,
    live: map<nat, Storage>, nextStorage: nat, nextTensor: nat,
    released: seq<nat>, lost: set<nat>)
  {
    function PhaseOf(t: Thread): Phase { if t in phases then phases[t] else Idle }

    /** A weak reference gives its storage only while that is alive. */
    function FromCache(pid: nat, key: Key): Option<nat> {
      if (pid, key) in cache && cache[(pid, key)] in live then Some(cache[(pid, key)]) else None
    }
  }

  datatype Step =
    | Share(pid: nat, storage: nat, handle: nat, offset: nat, size: nat)
    | Take(t: Thread, counter: nat)
    | SkipEmpty(t: Thread)
    | Lookup(t: Thread)
    | Import(t: Thread)
    | Publish(t: Thread)
    | Release(t: Thread)
    | Wrap(t: Thread)
    | Drop(storage: nat, tensor: nat)
    | Prune(pid: nat, key: Key)

  predicate Enabled(s: State, step: Step) {
    match step
    case Share(pid, storage, handle, offset, size) => true
    case Take(t, counter) => counter in s.inFlight && counter < |s.issued| && s.PhaseOf(t).Idle?
    case SkipEmpty(t) => s.PhaseOf(t).Taken? && s.PhaseOf(t).m.size == 0
    case Lookup(t) => s.PhaseOf(t).Taken? && s.PhaseOf(t).m.size > 0
    case Import(t) => s.PhaseOf(t).Missed?
    case Publish(t) => s.PhaseOf(t).Imported?
    case Release(t) => s.PhaseOf(t).Found?
    case Wrap(t) => s.PhaseOf(t).Ready?
    case Drop(storage, tensor) => storage in s.live && ByTensor(tensor) in s.live[storage].holders
    case Prune(pid, key) => s.FromCache(pid, key).None?
  }

  function SetPhase(s: State, t: Thread, p: Phase): State { s.(phases := s.phases[t := p]) }

  function Hold(s: State, storage: nat, h: Holder): State
    requires storage in s.live
  {
    s.(live := s.live[storage := s.live[storage].(holders := s.live[storage].holders + {h})])
  }

  /** Giving up the last hold destroys the storage, which releases its counter. */
  function Unhold(s: State, storage: nat, h: Holder): State
    requires storage in s.live
  {
    var rest := s.live[storage].holders - {h};
    if rest == {} then s.(live := s.live - {storage}, released := s.released + [s.live[storage].counter])
    else s.(live := s.live[storage := s.live[storage].(holders := rest)])
  }

  function HandOver(s: State, storage: nat, from: Holder, to: Holder): State
    requires storage in s.live
  {
    s.(live := s.live[storage := s.live[storage].(holders := s.live[storage].holders - {from} + {to})])
  }

  /** Counters are numbered in the order they are issued. */
  function Apply(s: State, step: Step): State
    requires Enabled(s, step)
  {
    match step
    case Share(pid, storage, handle, offset, size) =>
      var c := |s.issued|;
      s.(issued := s.issued + [Message(handle, offset, size, c)], inFlight := s.inFlight + {c},
         cache := s.cache[(pid, Whole(handle)) := storage])
    case Take(t, counter) =>
      SetPhase(s.(inFlight := s.inFlight - {counter}), t, Taken(s.issued[counter]))
    case SkipEmpty(t) =>
      SetPhase(s.(lost := s.lost + {s.PhaseOf(t).m.counter}), t, Idle)
    case Lookup(t) =>
      var m := s.PhaseOf(t).m;
      (match s.FromCache(t.pid, m.Key())
       case None => SetPhase(s, t, Missed(m))
       case Some(storage) =>
         if storage in s.live then SetPhase(Hold(s, storage, ByThread(t)), t, Found(m, storage)) else s)
    case Import(t) =>
      var m := s.PhaseOf(t).m;
      var storage := Storage(t.pid, m.Key(), m.counter, {ByThread(t)});
      SetPhase(s.(live := s.live[s.nextStorage := storage], nextStorage := s.nextStorage + 1), t, Imported(m, s.nextStorage))
    case Publish(t) =>
      var p := s.PhaseOf(t);
      SetPhase(s.(cache := s.cache[(t.pid, p.m.Key()) := p.storage]), t, Ready(p.storage))
    case Release(t) =>
      var p := s.PhaseOf(t);
      SetPhase(s.(released := s.released + [p.m.counter]), t, Ready(p.storage))
    case Wrap(t) =>
      var storage := s.PhaseOf(t).storage;
      var s' := SetPhase(s.(nextTensor := s.nextTensor + 1), t, Idle);
      if storage !in s.live then s' else HandOver(s', storage, ByThread(t), ByTensor(s.nextTensor))
    case Drop(storage, tensor) => Unhold(s, storage, ByTensor(tensor))
    case Prune(pid, key) => s.(cache := s.cache - {(pid, key)})
  }

  predicate Initial(s: State) { s == State([], {}, map[], map[], map[], 0, 0, [], {}) }

  // ------------------------------------------------------------- where every counter is

  /** The places a counter can be. */
  datatype Place = InFlight | Held(t: Thread) | Owned(storage: nat) | Released | Lost

  predicate Pending(p: Phase) { p.Taken? || p.Missed? || p.Found? }

  predicate Holding(p: Phase) { p.Found? || p.Imported? || p.Ready? }

  ghost predicate FlightOk(s: State, at: seq<Place>)
    requires |at| == |s.issued|
  {
    && (forall c: nat :: c in s.inFlight <==> c < |at| && at[c].InFlight?)
    && (forall c :: 0 <= c < |s.issued| ==> s.issued[c].counter == c)
  }

  predicate ThreadOk(s: State, at: seq<Place>, t: Thread)
    requires |at| == |s.issued|
  {
    var p := s.PhaseOf(t);
    Pending(p) ==>
      && p.m.counter < |at| && at[p.m.counter] == Held(t) && p.m == s.issued[p.m.counter]
      && (p.Missed? || p.Found? ==> p.m.size > 0)
  }

  ghost predicate HeldOk(s: State, at: seq<Place>)
    requires |at| == |s.issued|
  {
    && (forall t :: ThreadOk(s, at, t))
    && (forall c :: 0 <= c < |at| && at[c].Held? ==> Pending(s.PhaseOf(at[c].t)) && s.PhaseOf(at[c].t).m.counter == c)
  }

  predicate StorageOk(s: State, at: seq<Place>, i: nat) {
    i in s.live ==> i < s.nextStorage && s.live[i].counter < |at| && at[s.live[i].counter] == Owned(i)
  }

  ghost predicate OwnedOk(s: State, at: seq<Place>) {
    && (forall i :: StorageOk(s, at, i))
    && (forall c :: 0 <= c < |at| && at[c].Owned? ==> at[c].storage in s.live && s.live[at[c].storage].counter == c)
  }

  ghost predicate ReleasedOk(s: State, at: seq<Place>)
    requires |at| == |s.issued|
  {
    && (forall c: nat :: c in s.released <==> c < |at| && at[c].Released?)
    && (forall i, j :: 0 <= i < j < |s.released| ==> s.released[i] != s.released[j])
  }

  /** Only empty messages lose their counter, and they never have it owned or released. */
  ghost predicate LostOk(s: State, at: seq<Place>)
    requires |at| == |s.issued|
  {
    && (forall c: nat :: c in s.lost <==> c < |at| && at[c].Lost?)
    && (forall c :: 0 <= c < |at| && at[c].Lost? ==> s.issued[c].size == 0)
    && (forall c :: 0 <= c < |at| && (at[c].Owned? || at[c].Released?) ==> s.issued[c].size > 0)
  }

  predicate HeldBy(s: State, i: nat, t: Thread) { i in s.live && ByThread(t) in s.live[i].holders }

  ghost predicate HoldersOk(s: State) {
    && (forall t :: Holding(s.PhaseOf(t)) ==> HeldBy(s, s.PhaseOf(t).storage, t))
    && (forall i :: i in s.live ==> s.live[i].holders != {})
  }

  /** `at` is the census of all counters issued so far. */
  ghost predicate Census(s: State, at: seq<Place>) {
    && |at| == |s.issued| && FlightOk(s, at) && HeldOk(s, at) && OwnedOk(s, at) && ReleasedOk(s, at)
    && LostOk(s, at) && HoldersOk(s)
  }

  /** How each step moves a counter. */
  function Move(s: State, at: seq<Place>, step: Step): seq<Place>
    requires Enabled(s, step)
  {
    match step
    case Share(pid, storage, handle, offset, size) => at + [InFlight]
    case Take(t, counter) => Put(at, counter, Held(t))
    case SkipEmpty(t) => Put(at, s.PhaseOf(t).m.counter, Lost)
    case Import(t) => Put(at, s.PhaseOf(t).m.counter, Owned(s.nextStorage))
    case Release(t) => Put(at, s.PhaseOf(t).m.counter, Released)
    case Drop(storage, tensor) =>
      if s.live[storage].holders - {ByTensor(tensor)} == {} then Put(at, s.live[storage].counter, Released) else at
    case _ => at
  }

  function Put(at: seq<Place>, c: nat, p: Place): (r: seq<Place>)
    ensures |r| == |at|
  {
    if c < |at| then at[c := p] else at
  }

  predicate ByAThread(step: Step) { !step.Share? && !step.Drop? && !step.Prune? }

  /** The facts about the actors of a step. */
  lemma Actors(s: State, at: seq<Place>, step: Step)
    requires Census(s, at) && Enabled(s, step)
    ensures ByAThread(step) ==> ThreadOk(s, at, step.t)
    ensures step.Drop? ==> StorageOk(s, at, step.storage)
    ensures StorageOk(s, at, s.nextStorage)
  {
  }

  lemma StepKeepsFlight(s: State, at: seq<Place>, step: Step)
    requires Census(s, at) && Enabled(s, step)
    ensures |Move(s, at, step)| == |Apply(s, step).issued| && FlightOk(Apply(s, step), Move(s, at, step))
  {
    Actors(s, at, step);
  }

  lemma ThreadAfter(s: State, at: seq<Place>, step: Step, t: Thread)
    requires Census(s, at) && Enabled(s, step)
    ensures |Move(s, at, step)| == |Apply(s, step).issued| && ThreadOk(Apply(s, step), Move(s, at, step), t)
  {
    Actors(s, at, step);
    assert ThreadOk(s, at, t);
  }

  lemma HeldAfter(s: State, at: seq<Place>, step: Step, c: nat)
    requires Census(s, at) && Enabled(s, step) && c < |Move(s, at, step)| && Move(s, at, step)[c].Held?
    ensures var t := Move(s, at, step)[c].t;
      Pending(Apply(s, step).PhaseOf(t)) && Apply(s, step).PhaseOf(t).m.counter == c
  {
    Actors(s, at, step);
  }

  lemma StepKeepsHeld(s: State, at: seq<Place>, step: Step)
    requires Census(s, at) && Enabled(s, step)
    ensures |Move(s, at, step)| == |Apply(s, step).issued| && HeldOk(Apply(s, step), Move(s, at, step))
  {
    var s', at' := Apply(s, step), Move(s, at, step);
    forall t ensures |at'| == |s'.issued| && ThreadOk(s', at', t) {
      ThreadAfter(s, at, step, t);
    }
    forall c | 0 <= c < |at'| && at'[c].Held? ensures Pending(s'.PhaseOf(at'[c].t)) && s'.PhaseOf(at'[c].t).m.counter == c {
      HeldAfter(s, at, step, c);
    }
  }

  lemma StorageAfter(s: State, at: seq<Place>, step: Step, i: nat)
    requires Census(s, at) && Enabled(s, step)
    ensures StorageOk(Apply(s, step), Move(s, at, step), i)
  {
    Actors(s, at, step);
    assert StorageOk(s, at, i);
  }

  lemma OwnedAfter(s: State, at: seq<Place>, step: Step, c: nat)
    requires Census(s, at) && Enabled(s, step) && c < |Move(s, at, step)| && Move(s, at, step)[c].Owned?
    ensures var i := Move(s, at, step)[c].storage;
      i in Apply(s, step).live && Apply(s, step).live[i].counter == c
  {
    Actors(s, at, step);
  }

  lemma StepKeepsOwned(s: State, at: seq<Place>, step: Step)
    requires Census(s, at) && Enabled(s, step)
    ensures OwnedOk(Apply(s, step), Move(s, at, step))
  {
    var s', at' := Apply(s, step), Move(s, at, step);
    forall i ensures StorageOk(s', at', i) {
      StorageAfter(s, at, step, i);
    }
    forall c | 0 <= c < |at'| && at'[c].Owned? ensures at'[c].storage in s'.live && s'.live[at'[c].storage].counter == c {
      OwnedAfter(s, at, step, c);
    }
  }

  lemma StepKeepsReleased(s: State, at: seq<Place>, step: Step)
    requires Census(s, at) && Enabled(s, step)
    ensures |Move(s, at, step)| == |Apply(s, step).issued| && ReleasedOk(Apply(s, step), Move(s, at, step))
  {
    Actors(s, at, step);
  }

  lemma StepKeepsLost(s: State, at: seq<Place>, step: Step)
    requires Census(s, at) && Enabled(s, step)
    ensures |Move(s, at, step)| == |Apply(s, step).issued| && LostOk(Apply(s, step), Move(s, at, step))
  {
    Actors(s, at, step);
  }

  lemma HolderAfter(s: State, at: seq<Place>, step: Step, t: Thread)
    requires Census(s, at) && Enabled(s, step) && Holding(Apply(s, step).PhaseOf(t))
    ensures HeldBy(Apply(s, step), Apply(s, step).PhaseOf(t).storage, t)
  {
    var before := s.PhaseOf(t);
    Actors(s, at, step);
    match step
    case Wrap(u) => assert u != t;
    case Drop(storage, tensor) =>
      assert HeldBy(s, before.storage, t);
      assert storage == before.storage ==> ByThread(t) in s.live[storage].holders - {ByTensor(tensor)};
    case _ =>
  }

  lemma StepKeepsHolders(s: State, at: seq<Place>, step: Step)
    requires Census(s, at) && Enabled(s, step)
    ensures HoldersOk(Apply(s, step))
  {
    var s' := Apply(s, step);
    forall t | Holding(s'.PhaseOf(t)) ensures HeldBy(s', s'.PhaseOf(t).storage, t) {
      HolderAfter(s, at, step, t);
    }
    forall i | i in s'.live ensures s'.live[i].holders != {} {
      if i in s.live && step.Wrap? && s.PhaseOf(step.t).storage == i {
        assert ByTensor(s.nextTensor) in s'.live[i].holders;
      }
    }
  }

  lemma StepKeepsCensus(s: State, at: seq<Place>, step: Step)
    requires Census(s, at) && Enabled(s, step)
    ensures Census(Apply(s, step), Move(s, at, step))
  {
    StepKeepsFlight(s, at, step);
    StepKeepsHeld(s, at, step);
    StepKeepsOwned(s, at, step);
    StepKeepsReleased(s, at, step);
    StepKeepsLost(s, at, step);
    StepKeepsHolders(s, at, step);
  }

  // -------------------------------------------------------------------- whole runs

  /** Any interleaving of enabled steps. */
  predicate Runs(s: State, steps: seq<Step>)
    decreases |steps|
  {
    steps == [] || (Enabled(s, steps[0]) && Runs(Apply(s, steps[0]), steps[1..]))
  }

  function After(s: State, steps: seq<Step>): State
    requires Runs(s, steps)
    decreases |steps|
  {
    if steps == [] then s else After(Apply(s, steps[0]), steps[1..])
  }

  lemma {:induction false} RunKeepsCensus(s: State, at: seq<Place>, steps: seq<Step>) returns (at': seq<Place>)
    requires Census(s, at) && Runs(s, steps)
    ensures Census(After(s, steps), at')
    decreases |steps|
  {
    at' := at;
    if steps != [] {
      StepKeepsCensus(s, at, steps[0]);
      at' := RunKeepsCensus(Apply(s, steps[0]), Move(s, at, steps[0]), steps[1..]);
    }
  }

  /** What it means, in the state itself, that counter c is at a place. */
  predicate IsAt(s: State, c: nat, p: Place) {
    match p
    case InFlight => c in s.inFlight
    case Held(t) => Pending(s.PhaseOf(t)) && s.PhaseOf(t).m.counter == c
    case Owned(i) => i in s.live && s.live[i].counter == c
    case Released => c in s.released
    case Lost => c in s.lost
  }

  /** In every interleaving every counter is in exactly one place: waiting in a message, in the
      hands of one rebuilding thread, owned by one live storage, released, or lost with an empty
      message; and no counter is released twice. */
  lemma EveryCounterHasOnePlace(s: State, steps: seq<Step>, c: nat) returns (p: Place)
    requires Initial(s) && Runs(s, steps) && c < |After(s, steps).issued|
    ensures IsAt(After(s, steps), c, p) && forall q :: IsAt(After(s, steps), c, q) ==> q == p
    ensures forall i, j :: 0 <= i < j < |After(s, steps).released| ==> After(s, steps).released[i] != After(s, steps).released[j]
    ensures p.Lost? ==> After(s, steps).issued[c].size == 0
    ensures p.Owned? || p.Released? ==> After(s, steps).issued[c].size > 0
  {
    var at := RunKeepsCensus(s, [], steps);
    var s' := After(s, steps);
    p := at[c];
    forall q | IsAt(s', c, q) ensures q == p {
      if q.Held? {
        assert ThreadOk(s', at, q.t);
      } else if q.Owned? {
        assert StorageOk(s', at, q.storage);
      }
    }
  }

  ghost predicate Settled(s: State) {
    s.inFlight == {} && s.live == map[] && forall t :: !Pending(s.PhaseOf(t))
  }

  /** Once all messages are consumed and all storages dropped, the producer has got back every
      counter exactly once, except those of empty messages, which it never gets back. */
  lemma SettledReturnsEverything(s: State, steps: seq<Step>, c: nat)
    requires Initial(s) && Runs(s, steps) && Settled(After(s, steps)) && c < |After(s, steps).issued|
    ensures After(s, steps).issued[c].size > 0 <==> c in After(s, steps).released
    ensures After(s, steps).issued[c].size == 0 <==> c in After(s, steps).lost
  {
    var p := EveryCounterHasOnePlace(s, steps, c);
    assert p.Released? || p.Lost?;
    assert IsAt(After(s, steps), c, Released) <==> p.Released?;
    assert IsAt(After(s, steps), c, Lost) <==> p.Lost?;
  }

  // ------------------------------------------------- what every state knows of its imports

  predicate At(s: State, i: nat, pid: nat, key: Key) { i in s.live && s.live[i].pid == pid && s.live[i].key == key }

  predicate Cached(s: State, i: nat) {
    i in s.live && (s.live[i].pid, s.live[i].key) in s.cache && s.cache[(s.live[i].pid, s.live[i].key)] == i
  }

  /** A thread that imported a storage and did not publish it yet: the storage is its own. */
  predicate PhaseKnows(s: State, t: Thread) {
    var p := s.PhaseOf(t);
    p.Imported? ==> At(s, p.storage, t.pid, p.m.Key()) && !Cached(s, p.storage)
  }

  predicate OneImporter(s: State, t: Thread, u: Thread) {
    s.PhaseOf(t).Imported? && s.PhaseOf(u).Imported? && s.PhaseOf(t).storage == s.PhaseOf(u).storage ==> t == u
  }

  /** A thread among the holders is at a point where it holds that storage. */
  predicate HolderKnows(s: State, i: nat, t: Thread) {
    HeldBy(s, i, t) ==> Holding(s.PhaseOf(t)) && s.PhaseOf(t).storage == i
  }

  /** A consumer's cache entry is dead or is an import of its own allocation. */
  predicate EntryKnows(s: State, pid: nat, key: Key) {
    (pid, key) in s.cache && key.Slice? ==>
      s.cache[(pid, key)] < s.nextStorage && (s.cache[(pid, key)] in s.live ==> At(s, s.cache[(pid, key)], pid, key))
  }

  ghost predicate Sound(s: State) {
    && (forall t :: PhaseKnows(s, t)) && (forall t, u :: OneImporter(s, t, u)) && (forall i, t :: HolderKnows(s, i, t))
    && (forall pid, key :: EntryKnows(s, pid, key)) && (forall i :: i in s.live ==> s.live[i].key.Slice?)
  }

  lemma KeepsPhaseKnows(s: State, at: seq<Place>, step: Step, t: Thread)
    requires Census(s, at) && Sound(s) && Enabled(s, step)
    ensures PhaseKnows(Apply(s, step), t)
  {
    Actors(s, at, step);
    assert PhaseKnows(s, t);
    if Holding(Apply(s, step).PhaseOf(t)) {
      HolderAfter(s, at, step, t);
    }
    if step.Publish? {
      assert OneImporter(s, t, step.t);
    } else if step == Import(t) {
      assert EntryKnows(s, t.pid, s.PhaseOf(t).m.Key());
    }
  }

  lemma KeepsOneImporter(s: State, at: seq<Place>, step: Step, t: Thread, u: Thread)
    requires Census(s, at) && Sound(s) && Enabled(s, step)
    ensures OneImporter(Apply(s, step), t, u)
  {
    Actors(s, at, step);
    assert OneImporter(s, t, u) && PhaseKnows(s, t) && PhaseKnows(s, u);
  }

  lemma KeepsHolderKnows(s: State, at: seq<Place>, step: Step, i: nat, t: Thread)
    requires Census(s, at) && Sound(s) && Enabled(s, step)
    ensures HolderKnows(Apply(s, step), i, t)
  {
    Actors(s, at, step);
    assert HolderKnows(s, i, t);
    if ByAThread(step) && HeldBy(s, i, step.t) {
      assert HolderKnows(s, i, step.t);
    }
  }

  lemma KeepsEntryKnows(s: State, at: seq<Place>, step: Step, pid: nat, key: Key)
    requires Census(s, at) && Sound(s) && Enabled(s, step)
    ensures EntryKnows(Apply(s, step), pid, key)
  {
    Actors(s, at, step);
    assert EntryKnows(s, pid, key);
    if step.Publish? {
      assert PhaseKnows(s, step.t) && StorageOk(s, at, s.PhaseOf(step.t).storage);
    }
  }

  lemma StepKeepsSound(s: State, at: seq<Place>, step: Step)
    requires Census(s, at) && Sound(s) && Enabled(s, step)
    ensures Sound(Apply(s, step))
  {
    var s' := Apply(s, step);
    forall t ensures PhaseKnows(s', t) {
      KeepsPhaseKnows(s, at, step, t);
    }
    forall t, u ensures OneImporter(s', t, u) {
      KeepsOneImporter(s, at, step, t, u);
    }
    forall i, t ensures HolderKnows(s', i, t) {
      KeepsHolderKnows(s, at, step, i, t);
    }
    forall pid, key ensures EntryKnows(s', pid, key) {
      KeepsEntryKnows(s, at, step, pid, key);
    }
  }

  lemma {:induction false} RunKeepsSound(s: State, at: seq<Place>, steps: seq<Step>) returns (at': seq<Place>)
    requires Census(s, at) && Sound(s) && Runs(s, steps)
    ensures Census(After(s, steps), at') && Sound(After(s, steps))
    decreases |steps|
  {
    at' := at;
    if steps != [] {
      StepKeepsCensus(s, at, steps[0]);
      StepKeepsSound(s, at, steps[0]);
      at' := RunKeepsSound(Apply(s, steps[0]), Move(s, at, steps[0]), steps[1..]);
    }
  }

  // ---------------------------------------------------- one live import per allocation

  predicate ImportedBy(s: State, t: Thread, i: nat) { s.PhaseOf(t).Imported? && s.PhaseOf(t).storage == i }

  /** The thread may still import a storage. */
  predicate MayImport(p: Phase) { (p.Taken? && p.m.size > 0) || p.Missed? }

  /** The thread may still import a storage, or has imported one that is not published yet. */
  predicate Importing(p: Phase) { MayImport(p) || p.Imported? }

  ghost predicate TwoLive(s: State, pid: nat, key: Key) {
    exists i, j :: i != j && At(s, i, pid, key) && At(s, j, pid, key)
  }

  /** The step starts one more rebuild of a non-empty message for the allocation. */
  predicate Contends(s: State, step: Step, pid: nat, key: Key)
    requires Enabled(s, step)
  {
    step.Take? && step.t.pid == pid && s.issued[step.counter].size > 0 && s.issued[step.counter].Key() == key
  }

  predicate Quiet(s: State, steps: seq<Step>, pid: nat, key: Key)
    requires Runs(s, steps)
    decreases |steps|
  {
    steps == [] || (!Contends(s, steps[0], pid, key) && Quiet(Apply(s, steps[0]), steps[1..], pid, key))
  }

  /** No continuation without a further rebuild of the allocation leads to two live imports. */
  ghost predicate NeverTwo(s: State, pid: nat, key: Key) {
    forall steps :: Runs(s, steps) && Quiet(s, steps, pid, key) ==> !TwoLive(After(s, steps), pid, key)
  }

  /** Before a thread takes a message: every live import of the allocation is the one in the cache,
      and no other thread of the process may still import it. */
  ghost predicate Unshared(s: State, t: Thread, key: Key) {
    && (forall i :: At(s, i, t.pid, key) ==> Cached(s, i))
    && (forall u :: u != t && u.pid == t.pid && MayImport(s.PhaseOf(u)) ==> s.PhaseOf(u).m.Key() != key)
  }

  // The condition suffices.

  /** One thread at most is on its way to an import, and what is live is cached or its own. */
  ghost predicate Solo(s: State, t: Thread, key: Key) {
    && (forall u :: u != t && u.pid == t.pid && MayImport(s.PhaseOf(u)) ==> s.PhaseOf(u).m.Key() != key)
    && (forall i :: At(s, i, t.pid, key) ==> Cached(s, i) || ImportedBy(s, t, i))
    && (forall i, j :: At(s, i, t.pid, key) && At(s, j, t.pid, key) ==> i == j)
    && (s.PhaseOf(t).Missed? && s.PhaseOf(t).m.Key() == key ==> forall i :: !At(s, i, t.pid, key))
  }

  lemma SoloKeepsOthersOut(s: State, at: seq<Place>, step: Step, t: Thread, key: Key, u: Thread)
    requires Census(s, at) && Solo(s, t, key) && Enabled(s, step) && !Contends(s, step, t.pid, key)
    requires u != t && u.pid == t.pid && MayImport(Apply(s, step).PhaseOf(u))
    ensures Apply(s, step).PhaseOf(u).m.Key() != key
  {
    Actors(s, at, step);
  }

  /** A new import of the allocation is t's own and finds none alive. */
  lemma SoloImports(s: State, at: seq<Place>, step: Step, t: Thread, key: Key, i: nat)
    requires Census(s, at) && Solo(s, t, key) && Enabled(s, step) && At(Apply(s, step), i, t.pid, key) && !At(s, i, t.pid, key)
    ensures step == Import(t) && i == s.nextStorage && s.PhaseOf(t).m.Key() == key && forall j :: !At(s, j, t.pid, key)
  {
    Actors(s, at, step);
  }

  lemma SoloKeepsCached(s: State, at: seq<Place>, step: Step, t: Thread, key: Key, i: nat)
    requires Census(s, at) && Sound(s) && Solo(s, t, key) && Enabled(s, step) && At(Apply(s, step), i, t.pid, key)
    ensures Cached(Apply(s, step), i) || ImportedBy(Apply(s, step), t, i)
  {
    Actors(s, at, step);
    if !At(s, i, t.pid, key) {
      SoloImports(s, at, step, t, key, i);
    } else if step.Publish? {
      assert PhaseKnows(s, step.t);
    }
  }

  lemma SoloKeepsMissed(s: State, at: seq<Place>, step: Step, t: Thread, key: Key, i: nat)
    requires Census(s, at) && Solo(s, t, key) && Enabled(s, step)
    requires Apply(s, step).PhaseOf(t).Missed? && Apply(s, step).PhaseOf(t).m.Key() == key
    ensures !At(Apply(s, step), i, t.pid, key)
  {
    Actors(s, at, step);
    if At(Apply(s, step), i, t.pid, key) && !At(s, i, t.pid, key) {
      SoloImports(s, at, step, t, key, i);
    }
    if !s.PhaseOf(t).Missed? && At(s, i, t.pid, key) {
      assert Cached(s, i) || ImportedBy(s, t, i);
    }
  }

  lemma StepKeepsSolo(s: State, at: seq<Place>, step: Step, t: Thread, key: Key)
    requires Census(s, at) && Sound(s) && Solo(s, t, key) && Enabled(s, step) && !Contends(s, step, t.pid, key)
    ensures Solo(Apply(s, step), t, key)
  {
    var s' := Apply(s, step);
    forall u | u != t && u.pid == t.pid && MayImport(s'.PhaseOf(u)) ensures s'.PhaseOf(u).m.Key() != key {
      SoloKeepsOthersOut(s, at, step, t, key, u);
    }
    forall i | At(s', i, t.pid, key) ensures Cached(s', i) || ImportedBy(s', t, i) {
      SoloKeepsCached(s, at, step, t, key, i);
    }
    forall i, j | At(s', i, t.pid, key) && At(s', j, t.pid, key) ensures i == j {
      if !At(s, i, t.pid, key) {
        SoloImports(s, at, step, t, key, i);
      }
      if !At(s, j, t.pid, key) {
        SoloImports(s, at, step, t, key, j);
      }
    }
    if s'.PhaseOf(t).Missed? && s'.PhaseOf(t).m.Key() == key {
      forall i ensures !At(s', i, t.pid, key) {
        SoloKeepsMissed(s, at, step, t, key, i);
      }
    }
  }

  lemma {:induction false} SoloIsSafe(s: State, at: seq<Place>, t: Thread, key: Key, steps: seq<Step>)
    requires Census(s, at) && Sound(s) && Solo(s, t, key) && Runs(s, steps) && Quiet(s, steps, t.pid, key)
    ensures !TwoLive(After(s, steps), t.pid, key)
    decreases |steps|
  {
    if steps != [] {
      StepKeepsCensus(s, at, steps[0]);
      StepKeepsSound(s, at, steps[0]);
      StepKeepsSolo(s, at, steps[0], t, key);
      SoloIsSafe(Apply(s, steps[0]), Move(s, at, steps[0]), t, key, steps[1..]);
    }
  }

  // The condition is necessary.

  /** What can go wrong after a step can go wrong before it. */
  lemma StepBack(s: State, step: Step, pid: nat, key: Key)
    requires Enabled(s, step) && !Contends(s, step, pid, key) && !NeverTwo(Apply(s, step), pid, key)
    ensures !NeverTwo(s, pid, key)
  {
    var rest :| Runs(Apply(s, step), rest) && Quiet(Apply(s, step), rest, pid, key) && TwoLive(After(Apply(s, step), rest), pid, key);
    var steps := [step] + rest;
    assert steps[1..] == rest;
    assert Runs(s, steps) && Quiet(s, steps, pid, key) && After(s, steps) == After(Apply(s, step), rest);
  }

  lemma AlreadyTwo(s: State, pid: nat, key: Key, i: nat, j: nat)
    requires i != j && At(s, i, pid, key) && At(s, j, pid, key)
    ensures !NeverTwo(s, pid, key)
  {
    assert Runs(s, []) && Quiet(s, [], pid, key) && After(s, []) == s;
  }

  /** A thread that missed imports beside a live import. */
  lemma MissedBesideLive(s: State, at: seq<Place>, t: Thread, i: nat)
    requires Census(s, at) && s.PhaseOf(t).Missed? && At(s, i, t.pid, s.PhaseOf(t).m.Key())
    ensures !NeverTwo(s, t.pid, s.PhaseOf(t).m.Key())
  {
    var key := s.PhaseOf(t).m.Key();
    Actors(s, at, Import(t));
    AlreadyTwo(Apply(s, Import(t)), t.pid, key, i, s.nextStorage);
    StepBack(s, Import(t), t.pid, key);
  }

  /** Two threads that missed both import. */
  lemma BothMissed(s: State, at: seq<Place>, t: Thread, u: Thread)
    requires Census(s, at) && t != u && t.pid == u.pid && s.PhaseOf(t).Missed? && s.PhaseOf(u).Missed?
    requires s.PhaseOf(t).m.Key() == s.PhaseOf(u).m.Key()
    ensures !NeverTwo(s, t.pid, s.PhaseOf(t).m.Key())
  {
    StepKeepsCensus(s, at, Import(t));
    MissedBesideLive(Apply(s, Import(t)), Move(s, at, Import(t)), u, s.nextStorage);
    StepBack(s, Import(t), t.pid, s.PhaseOf(t).m.Key());
  }

  /** A thread whose lookup misses beside a thread that missed, or beside a live import. */
  lemma MissThenTwo(s: State, at: seq<Place>, t: Thread, u: Thread, i: nat)
    requires Census(s, at) && s.PhaseOf(t).Taken? && s.PhaseOf(t).m.size > 0 && s.FromCache(t.pid, s.PhaseOf(t).m.Key()).None?
    requires At(s, i, t.pid, s.PhaseOf(t).m.Key()) ||
      (t != u && t.pid == u.pid && s.PhaseOf(u).Missed? && s.PhaseOf(u).m.Key() == s.PhaseOf(t).m.Key())
    ensures !NeverTwo(s, t.pid, s.PhaseOf(t).m.Key())
  {
    var s', at' := Apply(s, Lookup(t)), Move(s, at, Lookup(t));
    StepKeepsCensus(s, at, Lookup(t));
    if At(s, i, t.pid, s.PhaseOf(t).m.Key()) {
      MissedBesideLive(s', at', t, i);
    } else {
      BothMissed(s', at', t, u);
    }
    StepBack(s, Lookup(t), t.pid, s.PhaseOf(t).m.Key());
  }

  /** Two threads before their lookup both miss an allocation that is not cached. */
  lemma OverlapImportsTwice(s: State, at: seq<Place>, t: Thread, u: Thread)
    requires Census(s, at) && t != u && t.pid == u.pid && s.PhaseOf(t).Taken? && s.PhaseOf(u).Taken?
    requires s.PhaseOf(t).m.Key() == s.PhaseOf(u).m.Key() && s.PhaseOf(t).m.size > 0 && s.PhaseOf(u).m.size > 0
    requires s.FromCache(t.pid, s.PhaseOf(t).m.Key()).None?
    ensures !NeverTwo(s, t.pid, s.PhaseOf(t).m.Key())
  {
    StepKeepsCensus(s, at, Lookup(t));
    MissThenTwo(Apply(s, Lookup(t)), Move(s, at, Lookup(t)), u, t, 0);
    StepBack(s, Lookup(t), t.pid, s.PhaseOf(t).m.Key());
  }

  function ThreadHolders(s: State, i: nat): set<Holder>
    requires i in s.live
  {
    set h | h in s.live[i].holders && h.ByThread?
  }

  /** Two threads are before their lookup of an allocation whose only import can be i. */
  ghost predicate Racing(s: State, at: seq<Place>, t: Thread, u: Thread, key: Key, i: nat) {
    && Census(s, at) && Sound(s) && t != u && t.pid == u.pid
    && s.PhaseOf(t).Taken? && s.PhaseOf(t).m.size > 0 && s.PhaseOf(t).m.Key() == key
    && s.PhaseOf(u).Taken? && s.PhaseOf(u).m.size > 0 && s.PhaseOf(u).m.Key() == key
    && (forall j :: At(s, j, t.pid, key) ==> j == i)
  }

  /** Finishing a rebuild or dropping a tensor leaves the race as it is. */
  lemma RaceGoesOn(s: State, at: seq<Place>, t: Thread, u: Thread, key: Key, i: nat, step: Step)
    requires Racing(s, at, t, u, key, i) && Enabled(s, step) && (step.Release? || step.Publish? || step.Wrap? || step.Drop?)
    ensures Racing(Apply(s, step), Move(s, at, step), t, u, key, i) && !Contends(s, step, t.pid, key)
  {
    var s' := Apply(s, step);
    StepKeepsCensus(s, at, step);
    StepKeepsSound(s, at, step);
    forall j | At(s', j, t.pid, key) ensures j == i {
      assert At(s, j, t.pid, key);
    }
  }

  /** The import can be dropped by everyone who holds it, and then both threads miss. */
  lemma {:induction false} RaceImportsTwice(s: State, at: seq<Place>, t: Thread, u: Thread, key: Key, i: nat)
    requires Racing(s, at, t, u, key, i)
    ensures !NeverTwo(s, t.pid, key)
    decreases if i in s.live then |ThreadHolders(s, i)| else 0, if i in s.live then |s.live[i].holders| else 0, 1
  {
    if !At(s, i, t.pid, key) {
      assert EntryKnows(s, t.pid, key);
      OverlapImportsTwice(s, at, t, u);
    } else {
      var h :| h in s.live[i].holders;
      if h.ByTensor? {
        var step := Drop(i, h.id);
        RaceGoesOn(s, at, t, u, key, i, step);
        DropShrinks(s, i, h.id);
        RaceImportsTwice(Apply(s, step), Move(s, at, step), t, u, key, i);
        StepBack(s, step, t.pid, key);
      } else {
        assert HeldBy(s, i, h.t) && HolderKnows(s, i, h.t);
        if s.PhaseOf(h.t).Ready? {
          WrapThenRace(s, at, t, u, key, i, h.t);
        } else {
          var step := if s.PhaseOf(h.t).Found? then Release(h.t) else Publish(h.t);
          RaceGoesOn(s, at, t, u, key, i, step);
          assert Apply(s, step).live == s.live;
          WrapThenRace(Apply(s, step), Move(s, at, step), t, u, key, i, h.t);
          StepBack(s, step, t.pid, key);
        }
      }
    }
  }

  lemma {:induction false} WrapThenRace(s: State, at: seq<Place>, t: Thread, u: Thread, key: Key, i: nat, v: Thread)
    requires Racing(s, at, t, u, key, i) && s.PhaseOf(v) == Ready(i) && HeldBy(s, i, v)
    ensures !NeverTwo(s, t.pid, key)
    decreases |ThreadHolders(s, i)|, |s.live[i].holders|, 0
  {
    RaceGoesOn(s, at, t, u, key, i, Wrap(v));
    WrapShrinks(s, i, v);
    RaceImportsTwice(Apply(s, Wrap(v)), Move(s, at, Wrap(v)), t, u, key, i);
    StepBack(s, Wrap(v), t.pid, key);
  }

  lemma WrapShrinks(s: State, i: nat, v: Thread)
    requires s.PhaseOf(v) == Ready(i) && HeldBy(s, i, v)
    ensures i in Apply(s, Wrap(v)).live && |ThreadHolders(Apply(s, Wrap(v)), i)| < |ThreadHolders(s, i)|
  {
    assert ThreadHolders(Apply(s, Wrap(v)), i) == ThreadHolders(s, i) - {ByThread(v)};
  }

  lemma DropShrinks(s: State, i: nat, id: nat)
    requires i in s.live && ByTensor(id) in s.live[i].holders
    ensures |s.live[i].holders| > 0
    ensures i in Apply(s, Drop(i, id)).live ==>
      && |ThreadHolders(Apply(s, Drop(i, id)), i)| == |ThreadHolders(s, i)|
      && |Apply(s, Drop(i, id)).live[i].holders| < |s.live[i].holders|
  {
    var rest := s.live[i].holders - {ByTensor(id)};
    assert |rest| < |s.live[i].holders|;
    if i in Apply(s, Drop(i, id)).live {
      assert Apply(s, Drop(i, id)).live[i].holders == rest;
      assert ThreadHolders(Apply(s, Drop(i, id)), i) == ThreadHolders(s, i);
    }
  }

  lemma UnsharedIsNecessary(s: State, at: seq<Place>, t: Thread, key: Key)
    requires Census(s, at) && Sound(s) && s.PhaseOf(t).Taken? && s.PhaseOf(t).m.size > 0 && s.PhaseOf(t).m.Key() == key
    requires !Unshared(s, t, key)
    ensures !NeverTwo(s, t.pid, key)
  {
    var cached := s.FromCache(t.pid, key);
    assert EntryKnows(s, t.pid, key);
    if i :| At(s, i, t.pid, key) && !Cached(s, i) {
      if cached.None? {
        MissThenTwo(s, at, t, t, i);
      } else {
        AlreadyTwo(s, t.pid, key, i, cached.value);
      }
    } else {
      var u :| u != t && u.pid == t.pid && MayImport(s.PhaseOf(u)) && s.PhaseOf(u).m.Key() == key;
      if s.PhaseOf(u).Taken? {
        RaceImportsTwice(s, at, t, u, key, if cached.Some? then cached.value else 0);
      } else if cached.Some? {
        MissedBesideLive(s, at, u, cached.value);
      } else {
        MissThenTwo(s, at, t, u, 0);
      }
    }
  }

  /** In every state, taking a non-empty message can never lead to two live imports of its
      allocation, unless another non-empty message for it is taken later, if and only if every live
      import of it is the cached one and no other thread of the process may still import it. */
  lemma TakeIsSafeIff(s: State, at: seq<Place>, t: Thread, counter: nat)
    requires Census(s, at) && Sound(s) && Enabled(s, Take(t, counter)) && s.issued[counter].size > 0
    ensures NeverTwo(Apply(s, Take(t, counter)), t.pid, s.issued[counter].Key()) <==> Unshared(s, t, s.issued[counter].Key())
  {
    var key := s.issued[counter].Key();
    var s', at' := Apply(s, Take(t, counter)), Move(s, at, Take(t, counter));
    StepKeepsCensus(s, at, Take(t, counter));
    StepKeepsSound(s, at, Take(t, counter));
    assert forall i :: At(s', i, t.pid, key) <==> At(s, i, t.pid, key);
    if Unshared(s, t, key) {
      forall steps | Runs(s', steps) && Quiet(s', steps, t.pid, key) ensures !TwoLive(After(s', steps), t.pid, key) {
        SoloIsSafe(s', at', t, key, steps);
      }
    } else {
      UnsharedIsNecessary(s', at', t, key);
    }
  }

  // --------------------------------------------------------------------- orderly runs

  /** No other thread of the process is on its way to publishing an import of the allocation. */
  ghost predicate Alone(s: State, t: Thread, key: Key) {
    forall u :: u != t && u.pid == t.pid && Importing(s.PhaseOf(u)) ==> s.PhaseOf(u).m.Key() != key
  }

  /** A non-empty message is taken only when no other thread of the process is importing the same
      (handle, offset). */
  ghost predicate Orderly(s: State, step: Step)
    requires Enabled(s, step)
  {
    step.Take? && s.issued[step.counter].size > 0 ==> Alone(s, step.t, s.issued[step.counter].Key())
  }

  /** Every live import of an allocation is cached or about to be, there is one at most, and none
      while a thread that missed is about to import. */
  ghost predicate Unique(s: State) {
    && (forall t, u :: SameRebuild(s, t, u) ==> t == u)
    && (forall i :: i in s.live ==> Cached(s, i) || exists t :: ImportedBy(s, t, i))
    && (forall t, i :: s.PhaseOf(t).Missed? ==> !At(s, i, t.pid, s.PhaseOf(t).m.Key()))
    && (forall i, j :: i in s.live && At(s, j, s.live[i].pid, s.live[i].key) ==> i == j)
  }

  predicate SameRebuild(s: State, t: Thread, u: Thread) {
    t.pid == u.pid && Importing(s.PhaseOf(t)) && Importing(s.PhaseOf(u)) && s.PhaseOf(t).m.Key() == s.PhaseOf(u).m.Key()
  }

  lemma KeepsOneRebuild(s: State, at: seq<Place>, step: Step, t: Thread, u: Thread)
    requires Census(s, at) && Unique(s) && Enabled(s, step) && Orderly(s, step) && SameRebuild(Apply(s, step), t, u)
    ensures t == u
  {
    Actors(s, at, step);
    assert !step.Take? || (t != step.t && u != step.t) ==> SameRebuild(s, t, u);
  }

  /** A miss is a genuine absence: what is live is in the cache or with the one importing thread. */
  lemma MissMeansAbsent(s: State, t: Thread, i: nat)
    requires Sound(s) && Unique(s) && s.PhaseOf(t).Taken? && s.PhaseOf(t).m.size > 0
    requires s.FromCache(t.pid, s.PhaseOf(t).m.Key()).None?
    ensures !At(s, i, t.pid, s.PhaseOf(t).m.Key())
  {
    if At(s, i, t.pid, s.PhaseOf(t).m.Key()) && !Cached(s, i) {
      var u :| ImportedBy(s, u, i);
      assert PhaseKnows(s, u);
      assert SameRebuild(s, t, u);
    }
  }

  lemma KeepsMissed(s: State, at: seq<Place>, step: Step, t: Thread, i: nat)
    requires Census(s, at) && Sound(s) && Unique(s) && Enabled(s, step) && Apply(s, step).PhaseOf(t).Missed?
    ensures !At(Apply(s, step), i, t.pid, Apply(s, step).PhaseOf(t).m.Key())
  {
    Actors(s, at, step);
    if s.PhaseOf(t).Missed? {
      assert !At(s, i, t.pid, s.PhaseOf(t).m.Key());
      if step.Import? && step.t.pid == t.pid {
        assert !SameRebuild(s, t, step.t);
      }
    } else {
      MissMeansAbsent(s, t, i);
    }
  }

  lemma KeepsOneStorage(s: State, at: seq<Place>, step: Step, i: nat, j: nat)
    requires Census(s, at) && Unique(s) && Enabled(s, step)
    requires i in Apply(s, step).live && At(Apply(s, step), j, Apply(s, step).live[i].pid, Apply(s, step).live[i].key)
    ensures i == j
  {
    Actors(s, at, step);
    if i in s.live && j in s.live {
      assert At(s, j, s.live[i].pid, s.live[i].key);
    } else {
      assert step.Import?;
      var p := s.PhaseOf(step.t);
      assert !At(s, i, step.t.pid, p.m.Key()) && !At(s, j, step.t.pid, p.m.Key());
    }
  }

  lemma CachedStays(s: State, at: seq<Place>, step: Step, i: nat)
    requires Census(s, at) && Sound(s) && Unique(s) && Enabled(s, step) && i in Apply(s, step).live && Cached(s, i)
    ensures Cached(Apply(s, step), i)
  {
    if step.Publish? {
      assert PhaseKnows(s, step.t);
      assert At(s, i, s.live[i].pid, s.live[i].key);
    } else if step.Import? {
      Actors(s, at, step);
    }
  }

  lemma KeepsFindable(s: State, at: seq<Place>, step: Step, i: nat)
    requires Census(s, at) && Sound(s) && Unique(s) && Enabled(s, step) && i in Apply(s, step).live
    ensures Cached(Apply(s, step), i) || exists t :: ImportedBy(Apply(s, step), t, i)
  {
    var s' := Apply(s, step);
    Actors(s, at, step);
    if i !in s.live {
      assert ImportedBy(s', step.t, i);
    } else if Cached(s, i) {
      CachedStays(s, at, step, i);
    } else {
      var t :| ImportedBy(s, t, i);
      assert PhaseKnows(s, t);
      if step == Publish(t) {
        assert Cached(s', i);
      } else {
        assert ImportedBy(s', t, i);
      }
    }
  }

  lemma StepKeepsUnique(s: State, at: seq<Place>, step: Step)
    requires Census(s, at) && Sound(s) && Unique(s) && Enabled(s, step) && Orderly(s, step)
    ensures Unique(Apply(s, step))
  {
    var s' := Apply(s, step);
    forall t, u | SameRebuild(s', t, u) ensures t == u {
      KeepsOneRebuild(s, at, step, t, u);
    }
    forall t, i | s'.PhaseOf(t).Missed? ensures !At(s', i, t.pid, s'.PhaseOf(t).m.Key()) {
      KeepsMissed(s, at, step, t, i);
    }
    forall i, j | i in s'.live && At(s', j, s'.live[i].pid, s'.live[i].key) ensures i == j {
      KeepsOneStorage(s, at, step, i, j);
    }
    forall i | i in s'.live ensures Cached(s', i) || exists t :: ImportedBy(s', t, i) {
      KeepsFindable(s, at, step, i);
    }
  }

  ghost predicate OrderlyRun(s: State, steps: seq<Step>)
    requires Runs(s, steps)
    decreases |steps|
  {
    steps == [] || (Orderly(s, steps[0]) && OrderlyRun(Apply(s, steps[0]), steps[1..]))
  }

  lemma {:induction false} RunKeepsUnique(s: State, at: seq<Place>, steps: seq<Step>) returns (at': seq<Place>)
    requires Census(s, at) && Sound(s) && Unique(s) && Runs(s, steps) && OrderlyRun(s, steps)
    ensures Census(After(s, steps), at') && Sound(After(s, steps)) && Unique(After(s, steps))
    decreases |steps|
  {
    at' := at;
    if steps != [] {
      StepKeepsCensus(s, at, steps[0]);
      StepKeepsSound(s, at, steps[0]);
      StepKeepsUnique(s, at, steps[0]);
      at' := RunKeepsUnique(Apply(s, steps[0]), Move(s, at, steps[0]), steps[1..]);
    }
  }

  /** In an orderly run a process never has two live imports of one (handle, offset), whatever else
      interleaves. */
  lemma OneImportPerAllocation(s: State, steps: seq<Step>, pid: nat, key: Key)
    requires Initial(s) && Runs(s, steps) && OrderlyRun(s, steps)
    ensures !TwoLive(After(s, steps), pid, key)
  {
    var at := RunKeepsUnique(s, [], steps);
  }

  /** After an orderly run the next non-empty message is safe to take exactly when that is orderly
      too. */
  lemma OrderlyTakeIsSafeIff(s: State, steps: seq<Step>, t: Thread, counter: nat)
    requires Initial(s) && Runs(s, steps) && OrderlyRun(s, steps)
    requires Enabled(After(s, steps), Take(t, counter)) && After(s, steps).issued[counter].size > 0
    ensures var now := After(s, steps);
      var key := now.issued[counter].Key();
      NeverTwo(Apply(now, Take(t, counter)), t.pid, key) <==> Alone(now, t, key)
  {
    var at := RunKeepsUnique(s, [], steps);
    var now := After(s, steps);
    TakeIsSafeIff(now, at, t, counter);
    AloneIsUnshared(now, at, t, now.issued[counter].Key());
  }

  lemma AloneIsUnshared(s: State, at: seq<Place>, t: Thread, key: Key)
    requires Census(s, at) && Sound(s) && Unique(s) && s.PhaseOf(t).Idle?
    ensures Alone(s, t, key) <==> Unshared(s, t, key)
  {
    if Alone(s, t, key) {
      forall i | At(s, i, t.pid, key) ensures Cached(s, i) {
        assert forall u :: ImportedBy(s, u, i) ==> PhaseKnows(s, u);
      }
    } else {
      var u :| u != t && u.pid == t.pid && Importing(s.PhaseOf(u)) && s.PhaseOf(u).m.Key() == key;
      assert PhaseKnows(s, u);
    }
  }

  /** In any state of any interleaving, orderly or not: the exact condition of TakeIsSafeIff. */
  lemma ReachableTakeIsSafeIff(s: State, steps: seq<Step>, t: Thread, counter: nat)
    requires Initial(s) && Runs(s, steps)
    requires Enabled(After(s, steps), Take(t, counter)) && After(s, steps).issued[counter].size > 0
    ensures var now := After(s, steps);
      var key := now.issued[counter].Key();
      NeverTwo(Apply(now, Take(t, counter)), t.pid, key) <==> Unshared(now, t, key)
  {
    var at := RunKeepsSound(s, [], steps);
    TakeIsSafeIff(After(s, steps), at, t, counter);
  }

  /** The property is false without the condition: two messages for one allocation, taken by two
      threads of a process that both look it up before either has imported it. */
  lemma TwoImportsFromTheStart(s: State) returns (steps: seq<Step>)
    requires Initial(s)
    ensures Runs(s, steps) && TwoLive(After(s, steps), 0, Slice(1, 0)) && BothImported(After(s, steps))
  {
    var first := TakeBoth(s);
    var rest := ImportBoth(After(s, first));
    RunsAppend(s, first, rest);
    steps := first + rest;
  }

  /** Threads 0 and 1 of process 0 have taken a message each for one allocation. */
  predicate BothTaken(s: State) {
    && s.phases == map[Thread(0, 0) := Taken(Message(1, 0, 8, 0)), Thread(0, 1) := Taken(Message(1, 0, 8, 1))]
    && s.live == map[] && |s.issued| == 2 && s.nextStorage == 0 && s.nextTensor == 0
  }

  lemma TakeBoth(s: State) returns (steps: seq<Step>)
    requires Initial(s)
    ensures Runs(s, steps) && BothTaken(After(s, steps))
  {
    var t, u, share := Thread(0, 0), Thread(0, 1), Share(9, 0, 1, 0, 8);
    var s1 := Apply(s, share);
    var s2 := Apply(s1, share);
    var s3 := Apply(s2, Take(t, 0));
    steps := [];
    steps := Prepend(s3, Take(u, 1), steps);
    steps := Prepend(s2, Take(t, 0), steps);
    steps := Prepend(s1, share, steps);
    steps := Prepend(s, share, steps);
  }

  lemma ImportBoth(s: State) returns (steps: seq<Step>)
    requires BothTaken(s)
    ensures Runs(s, steps) && TwoLive(After(s, steps), 0, Slice(1, 0)) && BothImported(After(s, steps))
  {
    var t, u := Thread(0, 0), Thread(0, 1);
    var s1 := Apply(s, Lookup(t));
    var s2 := Apply(s1, Lookup(u));
    var s3 := Apply(s2, Import(t));
    var s4 := Apply(s3, Import(u));
    assert At(s4, 0, 0, Slice(1, 0)) && At(s4, 1, 0, Slice(1, 0));
    steps := [];
    steps := Prepend(s3, Import(u), steps);
    steps := Prepend(s2, Import(t), steps);
    steps := Prepend(s1, Lookup(u), steps);
    steps := Prepend(s, Lookup(t), steps);
  }

  /** Threads 0 and 1 of process 0 have imported storages 0 and 1 for one allocation. */
  predicate BothImported(s: State) {
    var t, u, key := Thread(0, 0), Thread(0, 1), Slice(1, 0);
    && s.phases == map[t := Imported(Message(1, 0, 8, 0), 0), u := Imported(Message(1, 0, 8, 1), 1)]
    && s.live == map[0 := Storage(0, key, 0, {ByThread(t)}), 1 := Storage(0, key, 1, {ByThread(u)})]
    && |s.issued| == 2 && s.nextTensor == 0
  }

  /** Outside orderly runs the condition of TakeIsSafeIff cannot be reduced to the other threads: here
      none is importing, but a live import was left behind when the cache moved on to another that
      then died, so the next message for the allocation is not safe to take. */
  lemma StrayImport(s: State) returns (steps: seq<Step>)
    requires Initial(s)
    ensures Runs(s, steps)
    ensures var now, v, key := After(s, steps), Thread(0, 2), Slice(1, 0);
      && Enabled(now, Take(v, 2)) && now.issued[2].size > 0 && now.issued[2].Key() == key
      && Alone(now, v, key) && !NeverTwo(Apply(now, Take(v, 2)), 0, key)
  {
    var first := TwoImportsFromTheStart(s);
    var s8 := After(s, first);
    var rest := LeaveBehind(s8);
    RunsAppend(s, first, rest);
    steps := first + rest;
    ReachableTakeIsSafeIff(s, steps, Thread(0, 2), 2);
    var now := After(s, steps);
    assert At(now, 0, 0, Slice(1, 0)) && !Cached(now, 0);
  }

  /** Both publish, thread 1 finishes, its tensor is dropped, and a third message is sent. */
  lemma LeaveBehind(s: State) returns (steps: seq<Step>)
    requires BothImported(s)
    ensures Runs(s, steps)
    ensures var now := After(s, steps);
      && At(now, 0, 0, Slice(1, 0)) && !Cached(now, 0) && |now.issued| == 3 && now.issued[2] == Message(1, 0, 8, 2) && 2 in now.inFlight
      && now.PhaseOf(Thread(0, 2)).Idle? && forall u :: !Importing(now.PhaseOf(u))
  {
    var t, u, share := Thread(0, 0), Thread(0, 1), Share(9, 0, 1, 0, 8);
    var s1 := Apply(s, Publish(t));
    var s2 := Apply(s1, Publish(u));
    var s3 := Apply(s2, Wrap(u));
    assert s3.live[1].holders == {ByTensor(0)};
    var s4 := Apply(s3, Drop(1, 0));
    assert s3.live[1].holders - {ByTensor(0)} == {};
    var s5 := Apply(s4, share);
    steps := [];
    steps := Prepend(s4, share, steps);
    steps := Prepend(s3, Drop(1, 0), steps);
    steps := Prepend(s2, Wrap(u), steps);
    steps := Prepend(s1, Publish(u), steps);
    steps := Prepend(s, Publish(t), steps);
  }

  lemma {:induction false} RunsAppend(s: State, a: seq<Step>, b: seq<Step>)
    requires Runs(s, a) && Runs(After(s, a), b)
    ensures Runs(s, a + b) && After(s, a + b) == After(After(s, a), b)
    decreases |a|
  {
    if a == [] {
      assert a + b == b;
    } else {
      assert (a + b)[0] == a[0] && (a + b)[1..] == a[1..] + b;
      RunsAppend(Apply(s, a[0]), a[1..], b);
    }
  }

  /** A counter that arrives with an empty message is neither owned nor released, ever. */
  lemma EmptyMessageLosesCounter(s: State) returns (steps: seq<Step>)
    requires Initial(s)
    ensures Runs(s, steps) && Settled(After(s, steps)) && |After(s, steps).issued| == 1
    ensures 0 in After(s, steps).lost && After(s, steps).released == []
  {
    var t, share := Thread(0, 0), Share(9, 0, 1, 0, 0);
    var s1 := Apply(s, share);
    var s2 := Apply(s1, Take(t, 0));
    steps := [];
    steps := Prepend(s2, SkipEmpty(t), steps);
    steps := Prepend(s1, Take(t, 0), steps);
    steps := Prepend(s, share, steps);
  }

  lemma Prepend(s: State, step: Step, rest: seq<Step>) returns (steps: seq<Step>)
    requires Enabled(s, step) && Runs(Apply(s, step), rest)
    ensures Runs(s, steps) && After(s, steps) == After(Apply(s, step), rest)
  {
    steps := [step] + rest;
    assert steps[1..] == rest;
  }
}
