/** Device and stream contexts over the runtime's current device, a pending target device, and the
    current stream of every device. */
module Contexts {
  import opened Options
  import opened Shapes

  datatype Stream = Stream(device: nat, id: nat)

  /** `actual` is the runtime's device, `target` a device still to be switched to, or -1. */
  datatype State = State(actual: nat, target: int, streams: seq<nat>)
  {
    predicate Valid() { actual < |streams| && -1 <= target < |streams| }

    /** What current_device reports. */
    function Current(): (d: nat)
      requires Valid()
      ensures d < |streams|
    {
      if target >= 0 then target else actual
    }
  }

  type Primary = nat -> bool

  function Exchange(s: State, to: nat): State { s.(actual := to, target := -1) }

  /** Switches at once only to a device that has a primary context. */
  function MaybeExchange(primary: Primary, s: State, to: nat): State {
    if to == s.actual then s else if primary(to) then s.(actual := to) else s.(target := to)
  }

  function SetStream(s: State, st: Stream): State
    requires s.Valid() && st.device < |s.streams|
  {
    var moved := if s.Current() != st.device then s.(actual := st.device, target := -1) else s;
    moved.(streams := s.streams[st.device := st.id])
  }

  /** A program of nested contexts; Work is anything that uses the current device and stream. */
  datatype Program =
    | Work
    | Then(a: Program, b: Program)
    | WithDevice(idx: int, body: Program)
    | WithStream(st: Option<Stream>, body: Program)

  predicate Fits(p: Program, n: nat) {
    match p
    case Work => true
    case Then(a, b) => Fits(a, n) && Fits(b, n)
    case WithDevice(idx, body) => idx < n && Fits(body, n)
    case WithStream(st, body) => (st.Some? ==> st.value.device < n) && Fits(body, n)
  }

  /** Lexical scoping: what each piece of work should see. */
  function Scoped(p: Program, device: nat, streams: seq<nat>): seq<Stream>
    requires device < |streams| && Fits(p, |streams|)
  {
    match p
    case Work => [Stream(device, streams[device])]
    case Then(a, b) => Scoped(a, device, streams) + Scoped(b, device, streams)
    case WithDevice(idx, body) => Scoped(body, if idx < 0 then device else idx, streams)
    case WithStream(st, body) =>
      if st.None? then Scoped(body, device, streams)
      else Scoped(body, st.value.device, streams[st.value.device := st.value.id])
  }

  /** Where execution leaves the state and what the work saw. */
  datatype Outcome = Outcome(s: State, seen: seq<Stream>)

  function CurrentStream(s: State): (st: Stream)
    requires s.Valid()
    ensures st.device < |s.streams|
  {
    Stream(s.Current(), s.streams[s.Current()])
  }

  function SetStreams(s: State, first: Option<Stream>, second: Stream): State
    requires s.Valid() && second.device < |s.streams| && (first.Some? ==> first.value.device < |s.streams|)
  {
    SetStream(if first.Some? then SetStream(s, first.value) else s, second)
  }

  function Run(primary: Primary, p: Program, s: State): (r: Outcome)
    requires s.Valid() && Fits(p, |s.streams|)
    ensures r.s.Valid() && |r.s.streams| == |s.streams|
    decreases p
  {
    match p
    case Work => Outcome(s, [CurrentStream(s)])
    case Then(a, b) =>
      var r1 := Run(primary, a, s);
      var r2 := Run(primary, b, r1.s);
      Outcome(r2.s, r1.seen + r2.seen)
    case WithDevice(idx, body) =>
      if idx < 0 then Run(primary, body, s)
      else
        var r := Run(primary, body, Exchange(s, idx));
        Outcome(MaybeExchange(primary, r.s, s.Current()), r.seen)
    case WithStream(st, body) =>
      if st.None? then Run(primary, body, s)
      else
        var e := EnterStream(primary, s, st.value);
        var r := Run(primary, body, e.s);
        Outcome(SetStreams(r.s, e.dst, CurrentStream(s)), r.seen)
  }

  datatype Entered = Entered(s: State, dst: Option<Stream>)

  /** StreamContext.__enter__: remembers the stream of the other device, if it is another one. */
  function EnterStream(primary: Primary, s: State, st: Stream): (e: Entered)
    requires s.Valid() && st.device < |s.streams|
    ensures e.s.Valid() && |e.s.streams| == |s.streams| && (e.dst.Some? ==> e.dst.value.device < |s.streams|)
  {
    if s.Current() == st.device then Entered(SetStream(s, st), None)
    else
      var back := MaybeExchange(primary, Exchange(s, st.device), s.Current());
      Entered(SetStream(back, st), Some(Stream(st.device, s.streams[st.device])))
  }

  /** With a primary context on every device, every nested program restores the current device and
      all current streams, and all its work sees the device and stream of its enclosing contexts. */
  lemma {:induction false} ContextsAreScoped(primary: Primary, p: Program, s: State)
    requires s.Valid() && s.target == -1 && Fits(p, |s.streams|) && forall d :: 0 <= d < |s.streams| ==> primary(d)
    ensures Run(primary, p, s) == Outcome(s, Scoped(p, s.actual, s.streams))
    decreases p
  {
    match p
    case Work =>
    case Then(a, b) =>
      ContextsAreScoped(primary, a, s);
      ContextsAreScoped(primary, b, s);
    case WithDevice(idx, body) => ContextsAreScoped(primary, body, if idx < 0 then s else Exchange(s, idx));
    case WithStream(st, body) =>
      if st.None? {
        ContextsAreScoped(primary, body, s);
      } else {
        var d, streams := st.value.device, s.streams[st.value.device := st.value.id];
        assert EnterStream(primary, s, st.value).s == State(d, -1, streams);
        ContextsAreScoped(primary, body, State(d, -1, streams));
        RestoreStreams(s, st.value);
      }
  }

  /** Leaving a stream context undoes entering it. */
  lemma RestoreStreams(s: State, st: Stream)
    requires s.Valid() && s.target == -1 && st.device < |s.streams|
    ensures var inside := State(st.device, -1, s.streams[st.device := st.id]);
      var dst := if s.actual == st.device then None else Some(Stream(st.device, s.streams[st.device]));
      SetStreams(inside, dst, CurrentStream(s)) == s
  {
    var inside := s.streams[st.device := st.id];
    if s.actual == st.device {
      assert inside[s.actual := s.streams[s.actual]] == s.streams;
    } else {
      var left: seq<nat> := inside[st.device := s.streams[st.device]];
      assert left == s.streams && left[s.actual := s.streams[s.actual]] == s.streams;
    }
  }

  /** Selects device d and, inside, the device that was current. */
  function ThereAndBack(d: nat, a: nat): Program { WithDevice(d, WithDevice(a, Work)) }

  /** A device without a primary context stays current after its context was left. */
  lemma PendingTargetSticks(primary: Primary, s: State, d: nat)
    requires s.Valid() && s.target == -1 && d < |s.streams| && d != s.actual && !primary(d)
    ensures Fits(ThereAndBack(d, s.actual), |s.streams|)
    ensures Run(primary, ThereAndBack(d, s.actual), s).s == s.(target := d)
  {
    var p := ThereAndBack(d, s.actual);
    var inner := p.body;
    var s1 := Exchange(s, d);
    assert Run(primary, Work, Exchange(s1, s.actual)).s == s;
    assert Run(primary, inner, s1).s == s.(target := d);
  }

  ghost predicate Restores(primary: Primary, n: nat) {
    forall p: Program, s: State :: s.Valid() && s.target == -1 && |s.streams| == n && Fits(p, n) ==> Run(primary, p, s).s.Current() == s.Current()
  }

  /** On two or more devices, nested contexts always restore the current device exactly when every
      device has a primary context. */
  lemma RestoresIffPrimary(primary: Primary, n: nat)
    requires n >= 2
    ensures Restores(primary, n) <==> forall d :: 0 <= d < n ==> primary(d)
  {
    if forall d :: 0 <= d < n ==> primary(d) {
      forall p: Program, s: State | s.Valid() && s.target == -1 && |s.streams| == n && Fits(p, n)
        ensures Run(primary, p, s).s.Current() == s.Current()
      {
        ContextsAreScoped(primary, p, s);
      }
    } else {
      var d :| 0 <= d < n && !primary(d);
      var s := State(if d == 0 then 1 else 0, -1, Fill(0, n));
      PendingTargetSticks(primary, s, d);
      assert Run(primary, ThereAndBack(d, s.actual), s).s.Current() == d;
    }
  }

  // ----------------------------------------------------------------- the context objects

  /** The runtime's device and stream selection, per thread. */
  class Runtime {
    var actual: nat
    var target: int
    var streams: seq<nat>
    const primary: Primary

    constructor (n: nat, primary: Primary)
      requires n > 0
      ensures this.primary == primary && Get() == State(0, -1, Fill(0, n)) && Get().Valid()
    {
      this.primary := primary;
      actual, target, streams := 0, -1, Fill(0, n);
    }

    function Get(): State
      reads this
    {
      State(actual, target, streams)
    }

    /** Selects a device and returns the one that was current; a negative index asks for nothing. */
    method ExchangeDevice(to: int) returns (prev: int)
      requires Get().Valid() && to < |streams|
      modifies this
      ensures Get() == if to < 0 then old(Get()) else Exchange(old(Get()), to)
      ensures prev == if to < 0 then -1 else old(Get().Current())
    {
      if to < 0 {
        return -1;
      }
      prev := target;
      target := -1;
      if prev < 0 {
        prev := actual;
        if to == prev {
          return;
        }
      }
      actual := to;
    }

    method MaybeExchangeDevice(to: int) returns (prev: int)
      requires Get().Valid() && to < |streams|
      modifies this
      ensures Get() == if to < 0 then old(Get()) else MaybeExchange(primary, old(Get()), to)
      ensures prev == if to < 0 then -1 else old(actual)
    {
      if to < 0 {
        return -1;
      }
      prev := actual;
      if to == actual {
        return;
      }
      if primary(to) {
        actual := to;
      } else {
        target := to;
      }
    }

    method SetCurrentStream(st: Stream)
      requires Get().Valid() && st.device < |streams|
      modifies this
      ensures Get() == SetStream(old(Get()), st)
    {
      var device := if target >= 0 then target else actual;
      if device != st.device {
        target := -1;
        if actual != st.device {
          actual := st.device;
        }
      }
      streams := streams[st.device := st.id];
    }
  }

  class DeviceContext {
    var idx: int
    var prevIdx: int

    constructor (idx: int)
      ensures this.idx == idx && prevIdx == -1
    {
      this.idx, prevIdx := idx, -1;
    }

    method Enter(rt: Runtime)
      requires rt.Get().Valid() && idx < |rt.streams|
      modifies this`prevIdx, rt
      ensures rt.Get() == if idx < 0 then old(rt.Get()) else Exchange(old(rt.Get()), idx)
      ensures prevIdx == if idx < 0 then -1 else old(rt.Get().Current())
    {
      prevIdx := rt.ExchangeDevice(idx);
    }

    method Exit(rt: Runtime)
      requires rt.Get().Valid() && prevIdx < |rt.streams|
      modifies this`idx, rt
      ensures rt.Get() == if prevIdx < 0 then old(rt.Get()) else MaybeExchange(rt.primary, old(rt.Get()), prevIdx)
    {
      idx := rt.MaybeExchangeDevice(prevIdx);
    }
  }

  class StreamContext {
    const st: Option<Stream>
    var srcPrev: Option<Stream>
    var dstPrev: Option<Stream>

    constructor (st: Option<Stream>)
      ensures this.st == st && srcPrev == None && dstPrev == None
    {
      this.st := st;
      srcPrev, dstPrev := None, None;
    }

    method Enter(rt: Runtime)
      requires rt.Get().Valid() && (st.Some? ==> st.value.device < |rt.streams|) && dstPrev == None
      modifies this, rt
      ensures st.None? ==> rt.Get() == old(rt.Get())
      ensures st.Some? ==> var e := EnterStream(rt.primary, old(rt.Get()), st.value);
        rt.Get() == e.s && dstPrev == e.dst && srcPrev == Some(CurrentStream(old(rt.Get())))
    {
      if st.None? {
        return;
      }
      var current := CurrentStream(rt.Get());
      srcPrev := Some(current);
      if current.device != st.value.device {
        var ctx := new DeviceContext(st.value.device);
        ctx.Enter(rt);
        dstPrev := Some(Stream(st.value.device, rt.streams[st.value.device]));
        ctx.Exit(rt);
      }
      rt.SetCurrentStream(st.value);
    }

    method Exit(rt: Runtime)
      requires rt.Get().Valid() && (st.Some? ==> srcPrev.Some? && srcPrev.value.device < |rt.streams|)
      requires st.Some? && srcPrev.value.device != st.value.device ==> dstPrev.Some? && dstPrev.value.device < |rt.streams|
      modifies rt
      ensures st.None? ==> rt.Get() == old(rt.Get())
      ensures st.Some? ==>
        rt.Get() == SetStreams(old(rt.Get()), if srcPrev.value.device != st.value.device then dstPrev else None, srcPrev.value)
    {
      if st.None? {
        return;
      }
      if srcPrev.value.device != st.value.device {
        rt.SetCurrentStream(dstPrev.value);
      }
      rt.SetCurrentStream(srcPrev.value);
    }
  }

  /** Executes a program of contexts, each entered with an object of its own. */
  method Execute(p: Program, rt: Runtime) returns (seen: seq<Stream>)
    requires rt.Get().Valid() && Fits(p, |rt.streams|)
    modifies rt
    ensures Outcome(rt.Get(), seen) == Run(rt.primary, p, old(rt.Get()))
    ensures old(rt.target) == -1 && (forall d :: 0 <= d < |old(rt.streams)| ==> rt.primary(d)) ==>
      rt.Get() == old(rt.Get()) && seen == Scoped(p, old(rt.actual), old(rt.streams))
    decreases p
  {
    if rt.target == -1 && forall d :: 0 <= d < |rt.streams| ==> rt.primary(d) {
      ContextsAreScoped(rt.primary, p, rt.Get());
    }
    match p
    case Work => seen := [CurrentStream(rt.Get())];
    case Then(a, b) =>
      seen := Execute(a, rt);
      var more := Execute(b, rt);
      seen := seen + more;
    case WithDevice(idx, body) =>
      var ctx := new DeviceContext(idx);
      ctx.Enter(rt);
      seen := Execute(body, rt);
      ctx.Exit(rt);
    case WithStream(st, body) =>
      var ctx := new StreamContext(st);
      ctx.Enter(rt);
      seen := Execute(body, rt);
      ctx.Exit(rt);
  }
}
