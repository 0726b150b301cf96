/** Which deferred calls the completing pass of lazy initialisation runs: plain calls wait in the
    queue, seed calls in a tracker that is read once at the start of each pass. */
module LazySeeds {
  import opened Options
  import opened LazyInit

  function Present(calls: seq<Option<Call>>): set<Call> {
    set o | o in calls && o.Some? :: o.value
  }

  function Members(calls: seq<Call>): set<Call> { set c | c in calls }

  /** Thread t is about to append a plain call to the queue. */
  predicate Queueing(s: State, t: Thread, e: Event) {
    e.Advance? && StackOf(s, t).Push? && StackOf(s, t).top.CallFrame? && StackOf(s, t).top.lazy.Enqueue?
  }

  /** Thread t is about to read the tracker at the start of a pass. */
  predicate Reading(s: State, t: Thread, e: Event) {
    e.Advance? && StackOf(s, t).Push? && StackOf(s, t).top == InitFrame(SetFlag)
  }

  /** The calls a step brings into reach of the completing pass: a plain call queued before
      exhaustion, or what the tracker holds when a pass reads it. */
  function Gains(s: State, t: Thread, e: Event): set<Call> {
    if Queueing(s, t, e) && StackOf(s, t).top.kind.Plain? && s.exhausted.None? then {StackOf(s, t).top.call}
    else if Reading(s, t, e) then Present(s.tracker.order)
    else {}
  }

  function Gained(s: State, events: seq<(Thread, Event)>): set<Call>
    requires Run(s, events).Some?
    decreases |events|
  {
    if events == [] then {}
    else Gains(s, events[0].0, events[0].1) + Gained(Apply(s, events[0].0, events[0].1).value, events[1..])
  }

  /** Seed calls that the current pass has read and not yet appended. */
  function Unmoved(pc: Option<InitPc>): set<Call> {
    if pc.Some? && pc.value.Seeding? && pc.value.k <= |pc.value.calls| then Present(pc.value.calls[pc.value.k..]) else {}
  }

  function Pending(s: State): set<Call> {
    if s.lock.Some? then Unmoved(Holder(StackOf(s, s.lock.value))) else {}
  }

  /** All calls that are queued or about to be. */
  function InReach(s: State): set<Call> { Members(s.queue) + Pending(s) }

  lemma MembersSnoc(q: seq<Call>, c: Call)
    ensures Members(q + [c]) == Members(q) + {c}
  {
  }

  lemma PresentTail(calls: seq<Option<Call>>, k: nat)
    requires k < |calls|
    ensures Present(calls[k..]) == Present(calls[k + 1..]) + (if calls[k].Some? then {calls[k].value} else {})
  {
    assert calls[k..] == [calls[k]] + calls[k + 1..];
  }

  /** A thread outside the init section changes what is in reach only by queueing a plain call. */
  lemma OutsiderGains(s: State, t: Thread, e: Event, s': State)
    requires Inv(s) && Apply(s, t, e) == Some(s') && s.exhausted.None? && s.lock != Some(t)
    ensures InReach(s') == InReach(s) + Gains(s, t, e)
  {
    assert ThreadOk(s, t);
    var k := StackOf(s, t);
    if s.lock.Some? {
      SharedForOther(s, t, e, s', s.lock.value);
      assert Pending(s') == Pending(s);
    } else {
      assert Pending(s) == {} && Pending(s') == {};
    }
    if Queueing(s, t, e) {
      MembersSnoc(s.queue, k.top.call);
    }
  }

  /** Moving one seed call into the queue. */
  lemma SeedingGains(s: State, t: Thread, s': State)
    requires s.lock == Some(t) && StackOf(s, t).Push? && StackOf(s, t).top.InitFrame? && StackOf(s, t).top.init.Seeding?
    requires Apply(s, t, Advance) == Some(s')
    ensures InReach(s') == InReach(s)
  {
    var pc := StackOf(s, t).top.init;
    if pc.k < |pc.calls| {
      PresentTail(pc.calls, pc.k);
      if pc.calls[pc.k].Some? {
        MembersSnoc(s.queue, pc.calls[pc.k].value);
      }
    }
  }

  /** The thread in the init section, elsewhere. */
  lemma SectionGains(s: State, t: Thread, e: Event, s': State)
    requires Inv(s) && Apply(s, t, e) == Some(s') && s.exhausted.None? && s.lock == Some(t)
    requires StackOf(s, t).Push? && Holding(StackOf(s, t).top) && !StackOf(s, t).top.init.Seeding?
    ensures InReach(s') == InReach(s) + Gains(s, t, e)
  {
    assert ThreadOk(s, t);
    if Reading(s, t, e) {
      assert s.tracker.order[0..] == s.tracker.order;
    }
  }

  /** A queued call that calls back, on the thread in the init section. */
  lemma NestedGains(s: State, t: Thread, e: Event, s': State)
    requires Inv(s) && Apply(s, t, e) == Some(s') && s.exhausted.None? && s.lock == Some(t)
    requires StackOf(s, t).Push? && !Holding(StackOf(s, t).top)
    ensures InReach(s') == InReach(s) + Gains(s, t, e)
  {
    assert ThreadOk(s, t);
    if Queueing(s, t, e) {
      MembersSnoc(s.queue, StackOf(s, t).top.call);
    }
  }

  lemma StepGains(s: State, t: Thread, e: Event, s': State)
    requires Inv(s) && Apply(s, t, e) == Some(s') && s.exhausted.None?
    ensures InReach(s') == InReach(s) + Gains(s, t, e)
  {
    if s.lock != Some(t) {
      OutsiderGains(s, t, e, s');
    } else {
      assert ThreadOk(s, t);
      var k := StackOf(s, t);
      if !Holding(k.top) {
        NestedGains(s, t, e, s');
      } else if k.top.init.Seeding? {
        SeedingGains(s, t, s');
      } else {
        SectionGains(s, t, e, s');
      }
    }
  }

  /** Exhaustion is found with nothing left to move. */
  lemma ExhaustedHasAll(s: State, t: Thread, e: Event, s': State)
    requires Inv(s) && Apply(s, t, e) == Some(s') && s.exhausted.None? && s'.exhausted.Some?
    ensures s'.exhausted.value == |s'.queue| && Pending(s') == {}
  {
    assert ThreadOk(s, t);
  }

  /** After exhaustion nothing more comes into reach. */
  lemma {:induction false} NothingLate(s: State, events: seq<(Thread, Event)>)
    requires Inv(s) && s.exhausted.Some? && Run(s, events).Some?
    ensures Gained(s, events) == {}
    decreases |events|
  {
    if events != [] {
      var next := Apply(s, events[0].0, events[0].1).value;
      assert ThreadOk(s, events[0].0);
      StepKeepsInv(s, events[0].0, events[0].1, next);
      ExhaustionStep(s, events[0].0, events[0].1, next);
      NothingLate(next, events[1..]);
    }
  }

  lemma {:induction false} GainedRuns(s: State, events: seq<(Thread, Event)>, s': State)
    requires Inv(s) && s.exhausted.None? && Run(s, events) == Some(s') && s'.initialized
    ensures Members(LastAttempt(s')) == InReach(s) + Gained(s, events)
    decreases |events|
  {
    var (t, e) := events[0];
    var next := Apply(s, t, e).value;
    StepKeepsInv(s, t, e, next);
    StepGains(s, t, e, next);
    if next.exhausted.None? {
      GainedRuns(next, events[1..], s');
    } else {
      ExhaustedHasAll(s, t, e, next);
      NothingLate(next, events[1..]);
      CompletingPass(next, events[1..], s');
    }
  }

  lemma CompletingPass(s: State, events: seq<(Thread, Event)>, s': State)
    requires Inv(s) && s.exhausted == Some(|s.queue|) && Run(s, events) == Some(s') && s'.initialized
    ensures LastAttempt(s') == s.queue
  {
    ExhaustionRun(s, events, s');
    assert s'.queue[..|s.queue|] == s.queue;
  }

  // ------------------------------------------------------------------ by moment of the run

  /** The state after the first n events. */
  function StateAt(events: seq<(Thread, Event)>, n: nat): Option<State> {
    if n <= |events| then Run(START, events[..n]) else None
  }

  predicate GainsAt(s: State, events: seq<(Thread, Event)>, n: nat, c: Call) {
    n < |events| && Run(s, events[..n]).Some? && c in Gains(Run(s, events[..n]).value, events[n].0, events[n].1)
  }

  lemma {:induction false} GainedAtSomePoint(s: State, events: seq<(Thread, Event)>, c: Call)
    requires Run(s, events).Some?
    ensures c in Gained(s, events) <==> exists n: nat :: GainsAt(s, events, n, c)
    decreases |events|
  {
    if events != [] {
      var rest := events[1..];
      var next := Apply(s, events[0].0, events[0].1).value;
      GainedAtSomePoint(next, rest, c);
      assert events[..0] == [];
      assert GainsAt(s, events, 0, c) <==> c in Gains(s, events[0].0, events[0].1);
      if n: nat :| GainsAt(s, events, n, c) {
        if n > 0 {
          GainsShift(s, events, n - 1, c);
        }
      }
      if n: nat :| GainsAt(next, rest, n, c) {
        GainsShift(s, events, n, c);
      }
    }
  }

  lemma GainsShift(s: State, events: seq<(Thread, Event)>, n: nat, c: Call)
    requires events != [] && Apply(s, events[0].0, events[0].1).Some?
    ensures GainsAt(s, events, n + 1, c) <==> GainsAt(Apply(s, events[0].0, events[0].1).value, events[1..], n, c)
  {
    if n + 1 < |events| {
      assert events[..n + 1][1..] == events[1..][..n] && events[..n + 1][0] == events[0];
    }
  }

  /** The call is appended to the queue by event n, before the queue was found exhausted. */
  predicate QueuedInTime(events: seq<(Thread, Event)>, n: nat, c: Call) {
    && n < |events| && StateAt(events, n).Some?
    && var s := StateAt(events, n).value;
    && Queueing(s, events[n].0, events[n].1) && s.exhausted.None?
    && StackOf(s, events[n].0).top.kind.Plain? && StackOf(s, events[n].0).top.call == c
  }

  /** A pass reads the tracker at event n, and the call is the latest of its kind then. */
  predicate ReadAsLatest(events: seq<(Thread, Event)>, n: nat, c: Call) {
    && n < |events| && StateAt(events, n).Some?
    && Reading(StateAt(events, n).value, events[n].0, events[n].1)
    && (Latest(events, n, Seed) == Some(c) || Latest(events, n, SeedAll) == Some(c))
  }

  /** The last call of the given kind that reached the tracker before event n. */
  function Latest(events: seq<(Thread, Event)>, n: nat, kind: Kind): Option<Call> {
    if n == 0 || n > |events| || StateAt(events, n - 1).None? then None
    else
      var s, (t, e) := StateAt(events, n - 1).value, events[n - 1];
      if Queueing(s, t, e) && StackOf(s, t).top.kind == kind then Some(StackOf(s, t).top.call)
      else Latest(events, n - 1, kind)
  }

  lemma {:induction false} RunSnoc(s: State, events: seq<(Thread, Event)>, t: Thread, e: Event)
    ensures Run(s, events + [(t, e)]) == if Run(s, events).None? then None else Apply(Run(s, events).value, t, e)
    decreases |events|
  {
    var all := events + [(t, e)];
    if events == [] {
      assert all[1..] == [];
    } else {
      assert all[0] == events[0] && all[1..] == events[1..] + [(t, e)];
      var next := Apply(s, events[0].0, events[0].1);
      if next.Some? {
        RunSnoc(next.value, events[1..], t, e);
      }
    }
  }

  lemma StateAtNext(events: seq<(Thread, Event)>, n: nat)
    requires n < |events|
    ensures StateAt(events, n + 1) ==
      if StateAt(events, n).None? then None else Apply(StateAt(events, n).value, events[n].0, events[n].1)
  {
    assert events[..n + 1] == events[..n] + [(events[n].0, events[n].1)];
    RunSnoc(START, events[..n], events[n].0, events[n].1);
  }

  /** The tracker changes only when a seed call reaches it. */
  lemma TrackerStep(s: State, t: Thread, e: Event, s': State)
    requires Apply(s, t, e) == Some(s')
    ensures s'.tracker == if Queueing(s, t, e) then Remember(s.tracker, StackOf(s, t).top.call, StackOf(s, t).top.kind) else s.tracker
  {
  }

  /** Its order lists exactly the two calls it keeps. */
  ghost predicate OrderOk(tracker: Tracker) {
    forall c: Call :: Some(c) in tracker.order <==> tracker.one == Some(c) || tracker.all == Some(c)
  }

  lemma RememberKeepsOrder(tracker: Tracker, call: Call, kind: Kind)
    requires OrderOk(tracker)
    ensures OrderOk(Remember(tracker, call, kind))
  {
  }

  /** The tracker holds the latest call of each kind. */
  lemma {:induction false} TrackerIsLatest(events: seq<(Thread, Event)>, n: nat)
    requires n <= |events| && StateAt(events, n).Some?
    ensures var tracker := StateAt(events, n).value.tracker;
      tracker.one == Latest(events, n, Seed) && tracker.all == Latest(events, n, SeedAll) && OrderOk(tracker)
    decreases n
  {
    if n == 0 {
      assert events[..0] == [];
    } else {
      StateAtNext(events, n - 1);
      TrackerIsLatest(events, n - 1);
      var s := StateAt(events, n - 1).value;
      var (t, e) := events[n - 1];
      TrackerStep(s, t, e, StateAt(events, n).value);
      if Queueing(s, t, e) {
        RememberKeepsOrder(s.tracker, StackOf(s, t).top.call, StackOf(s, t).top.kind);
      }
    }
  }

  /** Exactly which calls the pass that completes initialisation runs: plain calls queued before it
      found the queue exhausted, and seed calls that were the latest of their kind when it, or an
      earlier pass that raised, read the tracker. */
  lemma CompletingPassRunsExactly(events: seq<(Thread, Event)>, s': State, c: Call)
    requires Run(START, events) == Some(s') && s'.initialized
    ensures c in LastAttempt(s') <==> exists n: nat :: QueuedInTime(events, n, c) || ReadAsLatest(events, n, c)
  {
    StartIsOk();
    GainedRuns(START, events, s');
    GainedAtSomePoint(START, events, c);
    assert InReach(START) == {};
    forall n: nat ensures GainsAt(START, events, n, c) <==> QueuedInTime(events, n, c) || ReadAsLatest(events, n, c) {
      GainsByKind(events, n, c);
    }
  }

  lemma GainsByKind(events: seq<(Thread, Event)>, n: nat, c: Call)
    ensures GainsAt(START, events, n, c) <==> QueuedInTime(events, n, c) || ReadAsLatest(events, n, c)
  {
    if n < |events| && StateAt(events, n).Some? {
      TrackerIsLatest(events, n);
      var s := StateAt(events, n).value;
      assert c in Present(s.tracker.order) <==> Some(c) in s.tracker.order;
    }
  }

  // -------------------------------------------------------------------- calls that are lost

  /** A seed call made after the pass read the tracker is lost although the queue is not exhausted:
      thread 1 makes it while thread 0 is at its loop. */
  lemma LateSeedIsLost() returns (events: seq<(Thread, Event)>, n: nat, last: State)
    ensures Run(START, events) == Some(last) && last.initialized && last.lock.None?
    ensures last.queue == [] && last.attempts == [[]] && last.direct == [] && last.tracker.one == Some(7)
    ensures StackOf(last, 0).Empty? && StackOf(last, 1).Empty?
    ensures n <= |events| && StateAt(events, n).Some? && StateAt(events, n).value.exhausted.None? &&
      StateAt(events, n).value.tracker.one == Some(7)
  {
    var s, first := ToLoop();
    var k := StackOf(s, 0);
    var late := CallFrame(CheckInit, 7, Seed);
    var s1 := With(s, 1, Push(late, Empty));
    var s2 := With(s1, 1, Push(late.(lazy := Enqueue), Empty));
    var s3 := With(s2.(tracker := Remember(s2.tracker, 7, Seed)), 1, Empty);
    var call := Before(s2, 1, Advance, s3, [], s3);
    call := Before(s1, 1, Advance, s2, call, s3);
    call := Before(s, 1, CallLazy(7, Seed), s1, call, s3);
    var s4 := With(s3.(exhausted := Some(0)), 0, Goto(k, ClearFlag(true)));
    var rest: seq<(Thread, Event)>;
    rest, last := Finish(s4);
    rest := Before(s3, 0, Advance, s4, rest, last);
    RunAppend(START, first, call);
    RunAppend(START, first + call, rest);
    events, n := first + call + rest, |first + call|;
    assert events[..n] == first + call;
  }
}
