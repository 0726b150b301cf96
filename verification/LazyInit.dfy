/** Lazy initialisation: double-checked locking, a thread-local re-entrancy flag and a call queue
    that grows while it is being run. Threads interleave at the granularity at which the
    interpreter lock can change hands; every step of every thread is one event. */
module LazyInit {
  import opened Options

  type Thread = nat
  type Call = nat

  datatype Kind = Plain | Seed | SeedAll

  /** Where a thread is inside _lazy_init. */
  datatype InitPc =
    | Check                                        // first test, without the lock
    | Acquire                                      // waiting for the lock
    | Recheck                                      // second test, with the lock
    | GcuInit
    | SetFlag
    | Seeding(calls: seq<Option<Call>>, k: nat)    // moving the seed calls into the queue
    | Loop(i: nat)                                 // about to take entry i of the queue
    | InCall(i: nat)                               // running entry i
    | ClearFlag(ok: bool)
    | MarkDone
    | Release

  /** Where a thread is inside _lazy_call. */
  datatype CallPc = CheckInit | Enqueue | RunNow

  datatype Frame = InitFrame(init: InitPc) | CallFrame(lazy: CallPc, call: Call, kind: Kind)

  datatype Stack = Empty | Push(top: Frame, below: Stack)

  /** The seed tracker keeps the latest call of each kind and the order to run them in. */
  datatype Tracker = Tracker(all: Option<Call>, one: Option<Call>, order: seq<Option<Call>>)

  /** Global state, plus the history the properties speak about: how often the C initialiser
      ran, the calls started by each pass over the queue, the queue length at which a pass found
      the queue exhausted, how many passes a call ended by raising, and calls run directly. */
  datatype State = State(
    initialized: bool, lock: Option<Thread>, queue: seq<Call>, tracker: Tracker,
    flags: set<Thread>, stacks: map<Thread, Stack>,
    gcuInits: nat, attempts: seq<seq<Call>>, exhausted: Option<nat>, raised: nat, direct: seq<Call>)

  datatype Event = CallInit | CallLazy(call: Call, kind: Kind) | Advance | Fail

  const START := State(false, None, [], Tracker(None, None, []), {}, map[], 0, [], None, 0, [])

  function StackOf(s: State, t: Thread): Stack {
    if t in s.stacks then s.stacks[t] else Empty
  }

  /** User code runs at the bottom of the stack, in a queued call, or in a call run directly. */
  predicate RunsUserCode(k: Stack) {
    k.Empty? || (if k.top.CallFrame? then k.top.lazy.RunNow? else k.top.init.InCall?)
  }

  function With(s: State, t: Thread, k: Stack): State {
    s.(stacks := s.stacks[t := k])
  }

  function Goto(k: Stack, pc: InitPc): Stack
    requires k.Push?
  {
    Push(InitFrame(pc), k.below)
  }

  function Remember(tracker: Tracker, call: Call, kind: Kind): Tracker {
    match kind
    case Plain => tracker
    case Seed => Tracker(tracker.all, Some(call), [tracker.all, Some(call)])
    case SeedAll => Tracker(Some(call), tracker.one, [tracker.one, Some(call)])
  }

  /** The last pass over the queue, with one more call started. */
  function Started(attempts: seq<seq<Call>>, call: Call): seq<seq<Call>> {
    if attempts == [] then [[call]]
    else attempts[|attempts| - 1 := attempts[|attempts| - 1] + [call]]
  }

  /** One step of _lazy_init. */
  function AdvanceInit(s: State, t: Thread, pc: InitPc, k: Stack): (r: Option<State>)
    requires k.Push?
  {
    match pc
    case Check =>
      Some(With(s, t, if s.initialized || t in s.flags then k.below else Goto(k, Acquire)))
    case Acquire =>
      if s.lock.Some? then None else Some(With(s.(lock := Some(t)), t, Goto(k, Recheck)))
    case Recheck =>
      Some(With(s, t, Goto(k, if s.initialized then Release else GcuInit)))
    case GcuInit =>
      Some(With(s.(gcuInits := s.gcuInits + 1), t, Goto(k, SetFlag)))
    case SetFlag =>
      Some(With(s.(flags := s.flags + {t}), t, Goto(k, Seeding(s.tracker.order, 0))))
    case Seeding(calls, i) =>
      if i < |calls| then
        var queue := if calls[i].Some? then s.queue + [calls[i].value] else s.queue;
        Some(With(s.(queue := queue), t, Goto(k, Seeding(calls, i + 1))))
      else Some(With(s.(attempts := s.attempts + [[]]), t, Goto(k, Loop(0))))
    case Loop(i) =>
      if i < |s.queue| then Some(With(s.(attempts := Started(s.attempts, s.queue[i])), t, Goto(k, InCall(i))))
      else Some(With(s.(exhausted := Some(|s.queue|)), t, Goto(k, ClearFlag(true))))
    case InCall(i) =>
      Some(With(s, t, Goto(k, Loop(i + 1))))
    case ClearFlag(ok) =>
      Some(With(s.(flags := s.flags - {t}), t, Goto(k, if ok then MarkDone else Release)))
    case MarkDone =>
      Some(With(s.(initialized := true), t, Goto(k, Release)))
    case Release =>
      Some(With(s.(lock := None), t, k.below))
  }

  /** One step of _lazy_call. */
  function AdvanceCall(s: State, t: Thread, f: Frame, k: Stack): (r: State)
    requires k.Push? && f.CallFrame?
  {
    match f.lazy
    case CheckInit =>
      if s.initialized then With(s.(direct := s.direct + [f.call]), t, Push(f.(lazy := RunNow), k.below))
      else With(s, t, Push(f.(lazy := Enqueue), k.below))
    case Enqueue =>
      if f.kind.Plain? then With(s.(queue := s.queue + [f.call]), t, k.below)
      else With(s.(tracker := Remember(s.tracker, f.call, f.kind)), t, k.below)
    case RunNow => With(s, t, k.below)
  }

  /** The effect of one event of one thread; None when it is not possible in this state. */
  function Apply(s: State, t: Thread, e: Event): (r: Option<State>) {
    var k := StackOf(s, t);
    match e
    case CallInit => if RunsUserCode(k) then Some(With(s, t, Push(InitFrame(Check), k))) else None
    case CallLazy(call, kind) =>
      if RunsUserCode(k) then Some(With(s, t, Push(CallFrame(CheckInit, call, kind), k))) else None
    case Advance =>
      if k.Empty? then None
      else if k.top.InitFrame? then AdvanceInit(s, t, k.top.init, k)
      else Some(AdvanceCall(s, t, k.top, k))
    case Fail =>
      if k.Empty? then None
      else if k.top.InitFrame? then
        if k.top.init.GcuInit? then Some(With(s, t, Goto(k, Release)))
        else if k.top.init.InCall? then Some(With(s.(raised := s.raised + 1), t, Goto(k, ClearFlag(false))))
        else None
      else if k.top.lazy.RunNow? then Some(With(s, t, k.below))
      else None
  }

  /** The state after a whole interleaving, or None if it is not a possible one. */
  function Run(s: State, events: seq<(Thread, Event)>): (r: Option<State>)
    decreases |events|
  {
    if events == [] then Some(s)
    else
      match Apply(s, events[0].0, events[0].1)
      case None => None
      case Some(next) => Run(next, events[1..])
  }

  // ----------------------------------------------------------------- invariant

  predicate Holding(f: Frame) { f.InitFrame? && !f.init.Check? && !f.init.Acquire? }

  predicate FlagSet(pc: InitPc) { pc.Seeding? || pc.Loop? || pc.InCall? || pc.ClearFlag? }

  /** The position of the frame owning the lock, if the thread is in the init section. */
  function Holder(k: Stack): (pc: Option<InitPc>) {
    match k
    case Empty => None
    case Push(f, below) => if Holding(f) then Some(f.init) else Holder(below)
  }

  /** A stack that has something above it. */
  predicate Covered(k: Stack, initialized: bool) {
    match k
    case Empty => true
    case Push(f, below) =>
      if f.CallFrame? then f.lazy.RunNow? && initialized && Covered(below, initialized)
      else f.init.InCall? && below.Empty? && !initialized
  }

  /** Nested frames neither wait for the lock nor hold it. */
  predicate StackOk(k: Stack, initialized: bool) {
    match k
    case Empty => true
    case Push(f, below) =>
      && (f.CallFrame? && f.lazy.RunNow? ==> initialized)
      && Covered(below, initialized)
      && (below.Push? ==> f.CallFrame? || f.init.Check?)
  }

  /** Once initialised, the section holds nothing but a second test or a release. */
  predicate Settled(pc: InitPc) { pc.Recheck? || pc.Release? }

  /** What thread `t`'s stack says about the shared state. */
  predicate ThreadOk(s: State, t: Thread) {
    var h := Holder(StackOf(s, t));
    && StackOk(StackOf(s, t), s.initialized)
    && (s.lock == Some(t) <==> h.Some?)
    && (t in s.flags <==> h.Some? && FlagSet(h.value))
    && (h.Some? && s.initialized ==> Settled(h.value))
    && (h.Some? ==> HistoryOk(s, h.value))
  }

  function LastAttempt(s: State): seq<Call> {
    if s.attempts == [] then [] else s.attempts[|s.attempts| - 1]
  }

  /** The current pass has started exactly the first `n` queue entries; earlier ones raised. */
  predicate PassAt(s: State, n: nat) {
    n <= |s.queue| && LastAttempt(s) == s.queue[..n] && |s.attempts| == s.raised + 1
  }

  /** How the history relates to the holder's position. */
  predicate HistoryOk(s: State, pc: InitPc) {
    match pc
    case Loop(i) => PassAt(s, i) && s.exhausted.None?
    case InCall(i) => PassAt(s, i + 1) && s.exhausted.None?
    case ClearFlag(ok) => if ok then s.exhausted.Some? && PassAt(s, s.exhausted.value) else NoPass(s)
    case MarkDone => s.exhausted.Some? && PassAt(s, s.exhausted.value)
    case SetFlag => NoPass(s) && |s.attempts| < s.gcuInits
    case Seeding(_, _) => NoPass(s) && |s.attempts| < s.gcuInits
    case _ => s.initialized || NoPass(s)
  }

  /** No pass is under way and none has finished: every pass so far raised. */
  predicate NoPass(s: State) { |s.attempts| == s.raised && s.exhausted.None? }

  /** Every pass, finished or not, ran a prefix of the queue, after the C initialiser. */
  predicate AttemptsOk(s: State) {
    && |s.attempts| <= s.gcuInits
    && (forall a :: 0 <= a < |s.attempts| ==> s.attempts[a] <= s.queue)
    && (s.initialized ==> s.exhausted.Some? && PassAt(s, s.exhausted.value))
    && (s.lock.None? && !s.initialized ==> NoPass(s))
  }

  ghost predicate Inv(s: State) {
    AttemptsOk(s) && forall t: Thread :: ThreadOk(s, t)
  }

  // ------------------------------------------------------- every step keeps it

  /** After initialisation no covered frame is in the init section. */
  lemma {:induction false} CoveredSettled(k: Stack)
    requires Covered(k, true)
    ensures Holder(k).None?
  {
    if k.Push? {
      CoveredSettled(k.below);
    }
  }

  /** A thread outside the init section is not disturbed by initialisation completing. */
  lemma StackSettles(k: Stack)
    requires StackOk(k, false) && Holder(k).None?
    ensures StackOk(k, true)
  {
  }

  /** Steps that leave the history alone; the queue may grow. */
  predicate QuietStep(s: State, s': State) {
    && s'.initialized == s.initialized && s'.gcuInits == s.gcuInits && s'.attempts == s.attempts
    && s'.exhausted == s.exhausted && s'.raised == s.raised && s.queue <= s'.queue
  }

  lemma QuietHistory(s: State, s': State, pc: InitPc)
    requires QuietStep(s, s') && HistoryOk(s, pc)
    ensures HistoryOk(s', pc)
  {
    assert forall n: nat :: PassAt(s, n) ==> PassAt(s', n);
  }

  /** The stepping thread's own view. */
  lemma OwnThread(s: State, t: Thread, e: Event, s': State)
    requires ThreadOk(s, t) && AttemptsOk(s) && Apply(s, t, e) == Some(s')
    ensures ThreadOk(s', t)
  {
    var k := StackOf(s, t);
    if k.Push? {
      if s.initialized {
        CoveredSettled(k.below);
      }
      if e.Advance? && k.top.InitFrame? {
        OwnInitStep(s, t, k, s');
      } else if e.Advance? {
        OwnCallStep(s, t, k, s');
      }
    }
  }

  lemma OwnInitStep(s: State, t: Thread, k: Stack, s': State)
    requires k == StackOf(s, t) && k.Push? && k.top.InitFrame? && AdvanceInit(s, t, k.top.init, k) == Some(s')
    requires ThreadOk(s, t) && AttemptsOk(s) && (s.initialized ==> Holder(k.below).None?)
    ensures ThreadOk(s', t)
  {
    match k.top.init
    case Check => OwnFirstTest(s, t, k);
    case Loop(i) => OwnLoopStep(s, t, k, i, s');
    case Seeding(calls, i) => OwnSeedingStep(s, t, k, s');
    case _ => OwnPlainStep(s, t, k, s');
  }

  /** A nested first test returns at once: either initialisation is done, or the thread is the
      one doing it and its flag is set. */
  lemma OwnFirstTest(s: State, t: Thread, k: Stack)
    requires k == StackOf(s, t) && k.Push? && k.top == InitFrame(Check) && ThreadOk(s, t)
    ensures k.below.Push? ==> s.initialized || t in s.flags
    ensures ThreadOk(With(s, t, if s.initialized || t in s.flags then k.below else Goto(k, Acquire)), t)
  {
    if k.below.Push? && k.below.top.InitFrame? {
      assert Holder(k) == Some(k.below.top.init);
    }
  }

  lemma OwnLoopStep(s: State, t: Thread, k: Stack, i: nat, s': State)
    requires k == StackOf(s, t) && k.Push? && k.top == InitFrame(Loop(i)) && AdvanceInit(s, t, k.top.init, k) == Some(s')
    requires ThreadOk(s, t) && AttemptsOk(s)
    ensures ThreadOk(s', t)
  {
    if i < |s.queue| {
      assert s.queue[..i + 1] == s.queue[..i] + [s.queue[i]];
    } else {
      assert s.queue[..i] == s.queue[..|s.queue|];
    }
  }

  lemma OwnSeedingStep(s: State, t: Thread, k: Stack, s': State)
    requires k == StackOf(s, t) && k.Push? && k.top.InitFrame? && k.top.init.Seeding?
    requires AdvanceInit(s, t, k.top.init, k) == Some(s') && ThreadOk(s, t) && AttemptsOk(s)
    ensures ThreadOk(s', t)
  {
  }

  lemma OwnPlainStep(s: State, t: Thread, k: Stack, s': State)
    requires k == StackOf(s, t) && k.Push? && k.top.InitFrame? && !k.top.init.Check? && !k.top.init.Loop? && !k.top.init.Seeding?
    requires AdvanceInit(s, t, k.top.init, k) == Some(s')
    requires ThreadOk(s, t) && AttemptsOk(s) && (s.initialized ==> Holder(k.below).None?)
    ensures ThreadOk(s', t)
  {
  }

  lemma OwnCallStep(s: State, t: Thread, k: Stack, s': State)
    requires k == StackOf(s, t) && k.Push? && k.top.CallFrame? && AdvanceCall(s, t, k.top, k) == s'
    requires ThreadOk(s, t) && AttemptsOk(s) && (s.initialized ==> Holder(k.below).None?)
    ensures ThreadOk(s', t)
  {
    if Holder(k.below).Some? {
      QuietHistory(s, s', Holder(k.below).value);
    }
  }

  lemma SharedForOther(s: State, t: Thread, e: Event, s': State, u: Thread)
    requires ThreadOk(s, t) && u != t && Apply(s, t, e) == Some(s')
    ensures StackOf(s', u) == StackOf(s, u)
    ensures s'.lock == Some(u) <==> s.lock == Some(u)
    ensures u in s'.flags <==> u in s.flags
    ensures s.initialized ==> s'.initialized
  {
  }

  /** Another thread's view: it is outside the init section, or the step is quiet. */
  lemma OtherThread(s: State, t: Thread, e: Event, s': State, u: Thread)
    requires ThreadOk(s, t) && ThreadOk(s, u) && u != t && AttemptsOk(s) && Apply(s, t, e) == Some(s')
    ensures ThreadOk(s', u)
  {
    SharedForOther(s, t, e, s', u);
    if Holder(StackOf(s, u)).Some? {
      OutsideIsQuiet(s, t, e, s');
      QuietHistory(s, s', Holder(StackOf(s, u)).value);
    } else if s'.initialized && !s.initialized {
      StackSettles(StackOf(s, u));
    }
  }

  /** A thread outside the init section only makes quiet steps. */
  lemma OutsideIsQuiet(s: State, t: Thread, e: Event, s': State)
    requires ThreadOk(s, t) && s.lock.Some? && s.lock != Some(t) && Apply(s, t, e) == Some(s')
    ensures QuietStep(s, s')
  {
  }

  lemma AttemptsKept(s: State, t: Thread, e: Event, s': State)
    requires ThreadOk(s, t) && AttemptsOk(s) && Apply(s, t, e) == Some(s')
    ensures AttemptsOk(s')
  {
    var k := StackOf(s, t);
    if e.Advance? && k.Push? && k.top.InitFrame? {
      AttemptsKeptByInit(s, t, k, s');
    } else {
      QuietAttempts(s, s');
    }
  }

  lemma QuietAttempts(s: State, s': State)
    requires AttemptsOk(s) && s.queue <= s'.queue && s'.attempts == s.attempts && s'.gcuInits == s.gcuInits
    requires s'.initialized == s.initialized && s'.exhausted == s.exhausted && s'.lock == s.lock
    requires s'.raised == s.raised || (s.lock.Some? && !s.initialized)
    ensures AttemptsOk(s')
  {
    assert forall n: nat :: PassAt(s, n) && s'.raised == s.raised ==> PassAt(s', n);
  }

  lemma AttemptsKeptByInit(s: State, t: Thread, k: Stack, s': State)
    requires k == StackOf(s, t) && k.Push? && k.top.InitFrame? && AdvanceInit(s, t, k.top.init, k) == Some(s')
    requires ThreadOk(s, t) && AttemptsOk(s)
    ensures AttemptsOk(s')
  {
    match k.top.init
    case Loop(i) =>
      if i < |s.queue| {
        assert s.queue[..i + 1] == s.queue[..i] + [s.queue[i]];
      }
    case _ =>
  }

  lemma StepKeepsInv(s: State, t: Thread, e: Event, s': State)
    requires Inv(s) && Apply(s, t, e) == Some(s')
    ensures Inv(s')
  {
    assert ThreadOk(s, t);
    OwnThread(s, t, e, s');
    AttemptsKept(s, t, e, s');
    forall u: Thread ensures ThreadOk(s', u) {
      assert ThreadOk(s, u);
      if u != t {
        OtherThread(s, t, e, s', u);
      }
    }
  }

  /** Every state of every interleaving satisfies the invariant. */
  lemma {:induction false} RunKeepsInv(s: State, events: seq<(Thread, Event)>)
    requires Inv(s) && Run(s, events).Some?
    ensures Inv(Run(s, events).value)
    decreases |events|
  {
    if events != [] {
      var next := Apply(s, events[0].0, events[0].1).value;
      StepKeepsInv(s, events[0].0, events[0].1, next);
      RunKeepsInv(next, events[1..]);
    }
  }

  lemma StartIsOk()
    ensures Inv(START)
  {
  }

  // ------------------------------------------------------------ what it means

  ghost predicate Reachable(s: State) {
    exists events :: Run(START, events) == Some(s)
  }

  lemma ReachableInv(s: State)
    requires Reachable(s)
    ensures Inv(s)
  {
    var events :| Run(START, events) == Some(s);
    StartIsOk();
    RunKeepsInv(START, events);
  }

  /** At most one thread is in the init section, at any nesting depth. */
  lemma MutualExclusion(s: State, t: Thread, u: Thread)
    requires Reachable(s) && Holder(StackOf(s, t)).Some? && Holder(StackOf(s, u)).Some?
    ensures t == u
  {
    ReachableInv(s);
    assert ThreadOk(s, t) && ThreadOk(s, u);
  }

  /** A thread that cannot advance waits for a lock that another thread holds, and that thread can
      advance: nobody ever waits for a lock it holds itself, whatever the queued calls call. */
  lemma NoDeadlock(s: State, t: Thread)
    requires Reachable(s) && StackOf(s, t).Push? && Apply(s, t, Advance).None?
    ensures s.lock.Some? && s.lock.value != t && Apply(s, s.lock.value, Advance).Some?
  {
    ReachableInv(s);
    assert ThreadOk(s, t);
    assert ThreadOk(s, s.lock.value);
    var k := StackOf(s, t);
    assert k.top == InitFrame(Acquire) && k.below.Empty?;
  }

  /** Queued calls run only after the C initialiser, each pass runs the queue in order from its
      start, and a completed initialisation ran exactly one pass that did not raise: it started
      every call up to the point of exhaustion once, in queue order. */
  lemma PassesFollowTheQueue(s: State)
    requires Reachable(s)
    ensures |s.attempts| <= s.gcuInits
    ensures forall a :: 0 <= a < |s.attempts| ==> s.attempts[a] <= s.queue
    ensures s.initialized ==>
      && |s.attempts| == s.raised + 1 && s.exhausted.Some? && s.exhausted.value <= |s.queue|
      && s.attempts[s.raised] == s.queue[..s.exhausted.value]
    ensures s.initialized && s.raised == 0 ==> s.attempts == [s.queue[..s.exhausted.value]]
  {
    ReachableInv(s);
  }

  /** Nothing the history records changes once initialised: no queued call ever runs again. */
  lemma SettledStep(s: State, t: Thread, e: Event, s': State)
    requires Inv(s) && s.initialized && Apply(s, t, e) == Some(s')
    ensures s'.initialized && s'.attempts == s.attempts && s'.exhausted == s.exhausted
    ensures s'.gcuInits == s.gcuInits && s'.raised == s.raised && s.queue <= s'.queue
  {
    assert ThreadOk(s, t);
    var k := StackOf(s, t);
    if k.Push? && k.top.InitFrame? {
      assert Holding(k.top) ==> Settled(k.top.init);
    }
  }

  lemma {:induction false} SettledRun(s: State, events: seq<(Thread, Event)>, s': State)
    requires Inv(s) && s.initialized && Run(s, events) == Some(s')
    ensures s'.initialized && s'.attempts == s.attempts && s'.exhausted == s.exhausted && s'.gcuInits == s.gcuInits
    decreases |events|
  {
    if events != [] {
      var next := Apply(s, events[0].0, events[0].1).value;
      StepKeepsInv(s, events[0].0, events[0].1, next);
      SettledStep(s, events[0].0, events[0].1, next);
      SettledRun(next, events[1..], s');
    }
  }

  /** The queue only grows; a recorded exhaustion stays, a new one records the whole queue. */
  lemma ExhaustionStep(s: State, t: Thread, e: Event, s': State)
    requires Inv(s) && Apply(s, t, e) == Some(s')
    ensures s.queue <= s'.queue
    ensures s.exhausted.Some? ==> s'.exhausted == s.exhausted
    ensures s.exhausted.None? && s'.exhausted.Some? ==> s'.exhausted.value == |s.queue|
  {
    assert ThreadOk(s, t);
  }

  lemma {:induction false} ExhaustionRun(s: State, events: seq<(Thread, Event)>, s': State)
    requires Inv(s) && Run(s, events) == Some(s')
    ensures s.queue <= s'.queue && Inv(s')
    ensures s.exhausted.Some? ==> s'.exhausted == s.exhausted
    ensures s.exhausted.None? && s'.exhausted.Some? ==> |s.queue| <= s'.exhausted.value
    decreases |events|
  {
    if events != [] {
      var next := Apply(s, events[0].0, events[0].1).value;
      StepKeepsInv(s, events[0].0, events[0].1, next);
      ExhaustionStep(s, events[0].0, events[0].1, next);
      ExhaustionRun(next, events[1..], s');
    }
  }

  /** Which queued calls run: everything in the queue before exhaustion is run, in order, by the
      pass that completes initialisation; nothing queued after it is. */
  lemma QueuedCallsRunIffInTime(s: State, events: seq<(Thread, Event)>, s': State)
    requires Reachable(s) && Run(s, events) == Some(s') && s'.initialized
    ensures |s'.attempts| > 0
    ensures s.exhausted.None? ==> s.queue <= LastAttempt(s')
    ensures s.exhausted.Some? ==> s.exhausted.value <= |s.queue| && LastAttempt(s') == s.queue[..s.exhausted.value]
  {
    ReachableInv(s);
    ExhaustionRun(s, events, s');
    if s.exhausted.Some? {
      ExhaustedBound(s);
      assert s'.queue[..s.exhausted.value] == s.queue[..s.exhausted.value];
    }
  }

  lemma ExhaustedBound(s: State)
    requires Inv(s) && s.exhausted.Some?
    ensures s.exhausted.value <= |s.queue|
  {
    if !s.initialized {
      assert s.lock.Some?;
      assert ThreadOk(s, s.lock.value);
    }
  }

  /** A run that starts with the given step. */
  lemma Before(s: State, t: Thread, e: Event, next: State, rest: seq<(Thread, Event)>, last: State)
    returns (events: seq<(Thread, Event)>)
    requires Apply(s, t, e) == Some(next) && Run(next, rest) == Some(last)
    ensures Run(s, events) == Some(last)
  {
    events := [(t, e)] + rest;
    assert events[1..] == rest;
  }

  /** Thread 0 is about to take the first entry of the queue. */
  predicate AtLoop(s: State) {
    && StackOf(s, 0) == Push(InitFrame(Loop(0)), Empty) && StackOf(s, 1).Empty? && !s.initialized
    && s.queue == [] && s.attempts == [[]] && s.direct == [] && s.exhausted.None?
  }

  /** A run of thread 0 from the start to its loop. */
  lemma ToLoop() returns (s: State, events: seq<(Thread, Event)>)
    ensures Run(START, events) == Some(s) && AtLoop(s)
  {
    var check := Push(InitFrame(Check), Empty);
    var s1 := With(START, 0, check);
    var s2 := With(s1, 0, Goto(check, Acquire));
    var s3 := With(s2.(lock := Some(0)), 0, Goto(check, Recheck));
    var s4 := With(s3, 0, Goto(check, GcuInit));
    var s5 := With(s4.(gcuInits := 1), 0, Goto(check, SetFlag));
    var s6 := With(s5.(flags := s5.flags + {0}), 0, Goto(check, Seeding([], 0)));
    s := With(s6.(attempts := s6.attempts + [[]]), 0, Goto(check, Loop(0)));
    events := Before(s6, 0, Advance, s, [], s);
    events := Before(s5, 0, Advance, s6, events, s);
    events := Before(s4, 0, Advance, s5, events, s);
    events := Before(s3, 0, Advance, s4, events, s);
    events := Before(s2, 0, Advance, s3, events, s);
    events := Before(s1, 0, Advance, s2, events, s);
    events := Before(START, 0, CallInit, s1, events, s);
  }

  lemma {:induction false} RunAppend(s: State, a: seq<(Thread, Event)>, b: seq<(Thread, Event)>)
    requires Run(s, a).Some?
    ensures Run(s, a + b) == Run(Run(s, a).value, b)
    decreases |a|
  {
    if a == [] {
      assert a + b == b;
    } else {
      assert (a + b)[0] == a[0] && (a + b)[1..] == a[1..] + b;
      RunAppend(Apply(s, a[0].0, a[0].1).value, a[1..], b);
    }
  }

  /** The property "every queued call is eventually run" is false: a call that tested before
      initialisation completed can be queued after the pass found the queue exhausted. */
  lemma LateCallIsLost() returns (events: seq<(Thread, Event)>, last: State)
    ensures Run(START, events) == Some(last)
    ensures last.initialized && last.lock.None? && last.queue == [7] && last.attempts == [[]] && last.direct == []
    ensures StackOf(last, 0).Empty? && StackOf(last, 1).Empty?
  {
    var s, first := ToLoop();
    var rest: seq<(Thread, Event)>;
    rest, last := LateCallTail(s);
    RunAppend(START, first, rest);
    events := first + rest;
  }

  /** Thread 1 tests, thread 0 finds the queue exhausted, thread 1 queues, thread 0 finishes. */
  lemma LateCallTail(s7: State) returns (events: seq<(Thread, Event)>, last: State)
    requires AtLoop(s7)
    ensures Run(s7, events) == Some(last)
    ensures last.initialized && last.lock.None? && last.queue == [7] && last.attempts == [[]] && last.direct == []
    ensures StackOf(last, 0).Empty? && StackOf(last, 1).Empty?
  {
    var k := StackOf(s7, 0);
    var late := CallFrame(CheckInit, 7, Plain);
    var s8 := With(s7, 1, Push(late, Empty));
    var s9 := With(s8, 1, Push(late.(lazy := Enqueue), Empty));
    var s10 := With(s9.(exhausted := Some(0)), 0, Goto(k, ClearFlag(true)));
    var s11 := With(s10.(queue := s10.queue + [7]), 1, Empty);
    events, last := Finish(s11);
    events := Before(s10, 1, Advance, s11, events, last);
    events := Before(s9, 0, Advance, s10, events, last);
    events := Before(s8, 1, Advance, s9, events, last);
    events := Before(s7, 1, CallLazy(7, Plain), s8, events, last);
  }

  /** After its pass, thread 0 clears its flag, marks initialisation done and releases the lock. */
  lemma Finish(s: State) returns (events: seq<(Thread, Event)>, last: State)
    requires StackOf(s, 0) == Push(InitFrame(ClearFlag(true)), Empty)
    ensures Run(s, events) == Some(last)
    ensures last.initialized && last.lock.None? && last.queue == s.queue && last.attempts == s.attempts && last.direct == s.direct && last.tracker == s.tracker
    ensures StackOf(last, 0).Empty? && StackOf(last, 1) == StackOf(s, 1)
  {
    var k := StackOf(s, 0);
    var s1 := With(s.(flags := s.flags - {0}), 0, Goto(k, MarkDone));
    var s2 := With(s1.(initialized := true), 0, Goto(k, Release));
    last := With(s2.(lock := None), 0, Empty);
    events := Before(s2, 0, Advance, last, [], last);
    events := Before(s1, 0, Advance, s2, events, last);
    events := Before(s, 0, Advance, s1, events, last);
  }
}
