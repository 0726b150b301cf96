/** Operator statistics: calls are counted per operator in a hash map whose keys are parameter
    lists under a hand-written equality and hash. */
module OpStatistics {
  import opened Options

  // ---------------------------------------------------------------- recorded parameters

  datatype TensorInfo = TensorInfo(defined: bool, shape: seq<nat>, strides: seq<int>, dtype: nat)

  datatype Scalar = Nothing | Int(i: int) | Double(x: real) | Bool(b: bool) | Text(s: string) | Other(kind: nat, id: nat)

  /** A boxed value is an atom or a list of boxed values. */
  datatype IValue = Atom(a: Scalar) | List(items: Items)
  datatype Items = Nil | Cons(head: IValue, tail: Items)

  datatype Param =
    | TensorParam(t: TensorInfo)
    | TensorListParam(ts: seq<TensorInfo>)
    | OptionalListParam(ts: seq<TensorInfo>)
    | StorageParam(nbytes: nat, resizable: bool)
    | ValueParam(v: IValue)

  /** The foreign parts: hash_combine, the hashes of sizes and dtypes, and equality and hash of
      atoms. */
  datatype Hashing = Hashing(
    combine: (nat, nat) -> nat, sizes: seq<int> -> nat, dtype: nat -> nat,
    atomEq: (Scalar, Scalar) -> bool, atomHash: Scalar -> nat)
  {
    /** Atom equality is an equivalence and equal atoms hash equally. */
    ghost predicate Coherent() {
      && (forall a :: atomEq(a, a))
      && (forall a, b :: atomEq(a, b) ==> atomEq(b, a) && atomHash(a) == atomHash(b))
      && (forall a, b, c :: atomEq(a, b) && atomEq(b, c) ==> atomEq(a, c))
    }
  }

  // ----------------------------------------------------------------- equality and hash

  predicate SameTensor(l: TensorInfo, r: TensorInfo) {
    (!l.defined && !r.defined) ||
    (l.defined == r.defined && l.dtype == r.dtype && l.shape == r.shape && l.strides == r.strides)
  }

  predicate SameTensors(l: seq<TensorInfo>, r: seq<TensorInfo>) {
    |l| == |r| && (l == [] || (SameTensor(l[0], r[0]) && SameTensors(l[1..], r[1..])))
  }

  predicate SameValue(h: Hashing, l: IValue, r: IValue) {
    match (l, r)
    case (Atom(a), Atom(b)) => h.atomEq(a, b)
    case (List(a), List(b)) => SameItems(h, a, b)
    case _ => false
  }

  predicate SameItems(h: Hashing, l: Items, r: Items) {
    match (l, r)
    case (Nil, Nil) => true
    case (Cons(a, x), Cons(b, y)) => SameValue(h, a, b) && SameItems(h, x, y)
    case _ => false
  }

  /** One position of equal_to; storages compare the wrong way round. */
  predicate SameParam(h: Hashing, l: Param, r: Param) {
    match (l, r)
    case (TensorParam(a), TensorParam(b)) => SameTensor(a, b)
    case (TensorListParam(a), TensorListParam(b)) => SameTensors(a, b)
    case (OptionalListParam(a), OptionalListParam(b)) => SameTensors(a, b)
    case (StorageParam(n, x), StorageParam(m, y)) => !(n == m && x == y)
    case (ValueParam(a), ValueParam(b)) => SameValue(h, a, b)
    case _ => false
  }

  predicate Same(h: Hashing, l: seq<Param>, r: seq<Param>) {
    |l| == |r| && (l == [] || (SameParam(h, l[0], r[0]) && Same(h, l[1..], r[1..])))
  }

  function Strides(s: seq<nat>): seq<int> { s }

  function TensorHash(h: Hashing, t: TensorInfo): nat {
    if !t.defined then 0
    else h.combine(h.combine(h.combine(0, h.sizes(Strides(t.shape))), h.sizes(t.strides)), h.dtype(t.dtype))
  }

  /** A tensor list folds its hashes into the seed left by the previous parameter. */
  function TensorsHash(h: Hashing, ts: seq<TensorInfo>, seed: nat): nat
    decreases |ts|
  {
    if ts == [] then seed else TensorsHash(h, ts[1..], h.combine(seed, TensorHash(h, ts[0])))
  }

  function ValueHash(h: Hashing, v: IValue): nat {
    match v
    case Atom(a) => h.atomHash(a)
    case List(items) => ItemsHash(h, items, 0)
  }

  function ItemsHash(h: Hashing, items: Items, seed: nat): nat {
    match items
    case Nil => seed
    case Cons(v, rest) => ItemsHash(h, rest, h.combine(seed, ValueHash(h, v)))
  }

  /** The seed of one parameter, given the one carried over. */
  function ParamHash(h: Hashing, p: Param, carried: nat): nat {
    match p
    case TensorParam(t) => TensorHash(h, t)
    case TensorListParam(ts) => TensorsHash(h, ts, carried)
    case OptionalListParam(ts) => TensorsHash(h, ts, carried)
    case StorageParam(n, x) => h.combine(h.combine(0, h.sizes([n])), h.dtype(if x then 1 else 0))
    case ValueParam(v) => ValueHash(h, v)
  }

  function HashFrom(h: Hashing, ps: seq<Param>, seed: nat, carried: nat): nat
    decreases |ps|
  {
    if ps == [] then seed
    else
      var next := ParamHash(h, ps[0], carried);
      HashFrom(h, ps[1..], h.combine(seed, next), next)
  }

  function Hash(h: Hashing, ps: seq<Param>): nat { HashFrom(h, ps, 0, 0) }

  /** The hash loop. */
  method HashParams(h: Hashing, params: seq<Param>) returns (seed: nat)
    ensures seed == Hash(h, params)
  {
    seed := 0;
    var newSeed: nat := 0;
    assert params[0..] == params;
    for i := 0 to |params|
      invariant HashFrom(h, params[i..], seed, newSeed) == Hash(h, params)
    {
      assert params[i..][0] == params[i] && params[i..][1..] == params[i + 1..];
      ghost var carried := newSeed;
      match params[i] {
        case TensorParam(t) => newSeed := TensorHash(h, t);
        case TensorListParam(ts) => newSeed := FoldTensors(h, ts, newSeed);
        case OptionalListParam(ts) => newSeed := FoldTensors(h, ts, newSeed);
        case _ => newSeed := ParamHash(h, params[i], newSeed);
      }
      assert newSeed == ParamHash(h, params[i], carried);
      seed := h.combine(seed, newSeed);
    }
  }

  method FoldTensors(h: Hashing, ts: seq<TensorInfo>, start: nat) returns (seed: nat)
    ensures seed == TensorsHash(h, ts, start)
  {
    seed := start;
    assert ts[0..] == ts;
    for i := 0 to |ts|
      invariant TensorsHash(h, ts[i..], seed) == TensorsHash(h, ts, start)
    {
      assert ts[i..][1..] == ts[i + 1..];
      seed := h.combine(seed, TensorHash(h, ts[i]));
    }
  }

  /** The comparison loop. */
  method EqualTo(h: Hashing, lhs: seq<Param>, rhs: seq<Param>) returns (r: bool)
    ensures r == Same(h, lhs, rhs)
  {
    if |lhs| != |rhs| {
      return false;
    }
    assert lhs[0..] == lhs && rhs[0..] == rhs;
    for i := 0 to |lhs|
      invariant Same(h, lhs[i..], rhs[i..]) == Same(h, lhs, rhs)
    {
      assert lhs[i..][1..] == lhs[i + 1..] && rhs[i..][1..] == rhs[i + 1..];
      if !SameParam(h, lhs[i], rhs[i]) {
        return false;
      }
    }
    return true;
  }

  // ------------------------------------------------------- an equivalence that hash respects

  predicate NoStorage(ps: seq<Param>) { ps == [] || (!ps[0].StorageParam? && NoStorage(ps[1..])) }

  lemma {:induction false} TensorsEquivalence(a: seq<TensorInfo>, b: seq<TensorInfo>, c: seq<TensorInfo>)
    ensures SameTensors(a, a)
    ensures SameTensors(a, b) ==> SameTensors(b, a)
    ensures SameTensors(a, b) && SameTensors(b, c) ==> SameTensors(a, c)
    decreases |a|
  {
    if a != [] {
      TensorsEquivalence(a[1..], if b == [] then [] else b[1..], if c == [] then [] else c[1..]);
    }
  }

  lemma {:induction false} TensorsHashEqual(h: Hashing, a: seq<TensorInfo>, b: seq<TensorInfo>, seed: nat)
    requires SameTensors(a, b)
    ensures TensorsHash(h, a, seed) == TensorsHash(h, b, seed)
    decreases |a|
  {
    if a != [] {
      TensorsHashEqual(h, a[1..], b[1..], h.combine(seed, TensorHash(h, a[0])));
    }
  }

  lemma {:induction false} ValueReflexive(h: Hashing, v: IValue)
    requires h.Coherent()
    ensures SameValue(h, v, v)
  {
    if v.List? {
      ItemsReflexive(h, v.items);
    }
  }

  lemma {:induction false} ItemsReflexive(h: Hashing, x: Items)
    requires h.Coherent()
    ensures SameItems(h, x, x)
  {
    if x.Cons? {
      ValueReflexive(h, x.head);
      ItemsReflexive(h, x.tail);
    }
  }

  lemma {:induction false} ValueSymmetric(h: Hashing, l: IValue, r: IValue)
    requires h.Coherent() && SameValue(h, l, r)
    ensures SameValue(h, r, l) && ValueHash(h, l) == ValueHash(h, r)
  {
    if l.List? {
      ItemsSymmetric(h, l.items, r.items, 0);
    }
  }

  lemma {:induction false} ItemsSymmetric(h: Hashing, l: Items, r: Items, seed: nat)
    requires h.Coherent() && SameItems(h, l, r)
    ensures SameItems(h, r, l) && ItemsHash(h, l, seed) == ItemsHash(h, r, seed)
  {
    if l.Cons? {
      ValueSymmetric(h, l.head, r.head);
      ItemsSymmetric(h, l.tail, r.tail, h.combine(seed, ValueHash(h, l.head)));
    }
  }

  lemma {:induction false} ValueTransitive(h: Hashing, a: IValue, b: IValue, c: IValue)
    requires h.Coherent() && SameValue(h, a, b) && SameValue(h, b, c)
    ensures SameValue(h, a, c)
  {
    if a.List? {
      ItemsTransitive(h, a.items, b.items, c.items);
    }
  }

  lemma {:induction false} ItemsTransitive(h: Hashing, a: Items, b: Items, c: Items)
    requires h.Coherent() && SameItems(h, a, b) && SameItems(h, b, c)
    ensures SameItems(h, a, c)
  {
    if a.Cons? {
      ValueTransitive(h, a.head, b.head, c.head);
      ItemsTransitive(h, a.tail, b.tail, c.tail);
    }
  }

  lemma ParamFacts(h: Hashing, l: Param, r: Param, carried: nat)
    requires h.Coherent() && !l.StorageParam?
    ensures SameParam(h, l, l)
    ensures SameParam(h, l, r) ==> SameParam(h, r, l) && !r.StorageParam? && ParamHash(h, l, carried) == ParamHash(h, r, carried)
  {
    if l.ValueParam? {
      ValueReflexive(h, l.v);
      if SameParam(h, l, r) {
        ValueSymmetric(h, l.v, r.v);
      }
    } else if l.TensorListParam? || l.OptionalListParam? {
      TensorsEquivalence(l.ts, if r.TensorListParam? || r.OptionalListParam? then r.ts else [], []);
      if SameParam(h, l, r) {
        TensorsHashEqual(h, l.ts, r.ts, carried);
      }
    }
  }

  lemma ParamTransitive(h: Hashing, a: Param, b: Param, c: Param)
    requires h.Coherent() && !a.StorageParam? && SameParam(h, a, b) && SameParam(h, b, c)
    ensures SameParam(h, a, c)
  {
    if a.ValueParam? {
      ValueTransitive(h, a.v, b.v, c.v);
    } else if a.TensorListParam? || a.OptionalListParam? {
      TensorsEquivalence(a.ts, b.ts, c.ts);
    }
  }

  /** Without storages every parameter list equals itself; with one it never does. */
  lemma {:induction false} ReflexiveIffNoStorage(h: Hashing, ps: seq<Param>)
    requires h.Coherent()
    ensures Same(h, ps, ps) <==> NoStorage(ps)
  {
    if ps != [] {
      ReflexiveIffNoStorage(h, ps[1..]);
      if !ps[0].StorageParam? {
        ParamFacts(h, ps[0], ps[0], 0);
      }
    }
  }

  /** Equal parameter lists hash equally, although each seed depends on the one before it. */
  lemma {:induction false} EqualHashEqually(h: Hashing, l: seq<Param>, r: seq<Param>, seed: nat, carried: nat)
    requires h.Coherent() && NoStorage(l) && Same(h, l, r)
    ensures HashFrom(h, l, seed, carried) == HashFrom(h, r, seed, carried)
    ensures Same(h, r, l) && NoStorage(r)
    decreases |l|
  {
    if l != [] {
      ParamFacts(h, l[0], r[0], carried);
      var next := ParamHash(h, l[0], carried);
      EqualHashEqually(h, l[1..], r[1..], h.combine(seed, next), next);
    }
  }

  lemma {:induction false} SameTransitive(h: Hashing, a: seq<Param>, b: seq<Param>, c: seq<Param>)
    requires h.Coherent() && NoStorage(a) && Same(h, a, b) && Same(h, b, c)
    ensures Same(h, a, c)
    decreases |a|
  {
    if a != [] {
      ParamTransitive(h, a[0], b[0], c[0]);
      SameTransitive(h, a[1..], b[1..], c[1..]);
    }
  }

  // --------------------------------------------------------------------- the hash map

  type Params = seq<Param>

  datatype Entry = Entry(key: Params, count: nat)

  /** The entry a lookup finds: only entries in the key's bucket are compared, and `bucket` is
      whatever the map currently does with hash values. */
  function Lookup(h: Hashing, bucket: nat -> nat, entries: seq<Entry>, key: Params): (r: Option<nat>)
    ensures r.Some? ==> r.value < |entries| && Same(h, entries[r.value].key, key)
  {
    if entries == [] then None
    else if bucket(Hash(h, entries[0].key)) == bucket(Hash(h, key)) && Same(h, entries[0].key, key) then Some(0)
    else
      var r := Lookup(h, bucket, entries[1..], key);
      if r.Some? then Some(r.value + 1) else None
  }

  function Bump(h: Hashing, bucket: nat -> nat, entries: seq<Entry>, key: Params): seq<Entry> {
    var r := Lookup(h, bucket, entries, key);
    if r.Some? then entries[r.value := entries[r.value].(count := entries[r.value].count + 1)]
    else entries + [Entry(key, 1)]
  }

  function Total(entries: seq<Entry>): nat {
    if entries == [] then 0 else entries[0].count + Total(entries[1..])
  }

  lemma {:induction false} TotalAppend(a: seq<Entry>, b: seq<Entry>)
    ensures Total(a + b) == Total(a) + Total(b)
    decreases |a|
  {
    if a == [] {
      assert a + b == b;
    } else {
      assert (a + b)[1..] == a[1..] + b;
      TotalAppend(a[1..], b);
    }
  }

  lemma {:induction false} TotalUpdate(entries: seq<Entry>, i: nat, e: Entry)
    requires i < |entries|
    ensures Total(entries[i := e]) + entries[i].count == Total(entries) + e.count
    decreases |entries|
  {
    if i == 0 {
      assert entries[0 := e][1..] == entries[1..];
    } else {
      TotalUpdate(entries[1..], i - 1, e);
      assert entries[i := e][1..] == entries[1..][i - 1 := e];
    }
  }

  /** Recording adds one to the sum, found or not. */
  lemma BumpTotal(h: Hashing, bucket: nat -> nat, entries: seq<Entry>, key: Params)
    ensures Total(Bump(h, bucket, entries, key)) == Total(entries) + 1
  {
    var r := Lookup(h, bucket, entries, key);
    if r.Some? {
      var i := r.value;
      var e := entries[i];
      TotalUpdate(entries, i, e.(count := e.count + 1));
    } else {
      TotalAppend(entries, [Entry(key, 1)]);
      assert [Entry(key, 1)][1..] == [];
    }
  }

  function CountSame(h: Hashing, calls: seq<Params>, key: Params): nat {
    if calls == [] then 0
    else (if Same(h, calls[|calls| - 1], key) then 1 else 0) + CountSame(h, calls[..|calls| - 1], key)
  }

  predicate AllPlain(calls: seq<Params>) { forall c :: c in calls ==> NoStorage(c) }

  /** No two entries are equal, every entry counts the calls equal to it, and every call has an
      entry. */
  ghost predicate Tallies(h: Hashing, entries: seq<Entry>, calls: seq<Params>) {
    && (forall i :: 0 <= i < |entries| ==> NoStorage(entries[i].key) && entries[i].count == CountSame(h, calls, entries[i].key))
    && (forall i, j :: 0 <= i < |entries| && 0 <= j < |entries| && Same(h, entries[i].key, entries[j].key) ==> i == j)
    && (forall c :: c in calls ==> exists i :: 0 <= i < |entries| && Same(h, entries[i].key, c))
  }

  /** A lookup finds an equal entry if there is one: equal keys share a bucket. */
  lemma {:induction false} LookupFinds(h: Hashing, bucket: nat -> nat, entries: seq<Entry>, key: Params, i: nat)
    requires h.Coherent() && i < |entries| && NoStorage(entries[i].key) && Same(h, entries[i].key, key)
    ensures Lookup(h, bucket, entries, key).Some?
    decreases |entries|
  {
    if i == 0 {
      EqualHashEqually(h, entries[0].key, key, 0, 0);
    } else {
      LookupFinds(h, bucket, entries[1..], key, i - 1);
    }
  }

  lemma {:induction false} CountEquivalent(h: Hashing, calls: seq<Params>, a: Params, b: Params)
    requires h.Coherent() && AllPlain(calls) && NoStorage(a) && Same(h, a, b)
    ensures CountSame(h, calls, a) == CountSame(h, calls, b)
    decreases |calls|
  {
    if calls != [] {
      var c, rest := calls[|calls| - 1], calls[..|calls| - 1];
      CountEquivalent(h, rest, a, b);
      EqualHashEqually(h, a, b, 0, 0);
      if Same(h, c, a) {
        SameTransitive(h, c, a, b);
      }
      if Same(h, c, b) {
        SameTransitive(h, c, b, a);
      }
    }
  }

  lemma {:induction false} CountZero(h: Hashing, calls: seq<Params>, key: Params)
    requires forall c :: c in calls ==> !Same(h, c, key)
    ensures CountSame(h, calls, key) == 0
    decreases |calls|
  {
    if calls != [] {
      CountZero(h, calls[..|calls| - 1], key);
    }
  }

  /** If no entry equals the key, no recorded call does. */
  lemma AbsentMeansUncounted(h: Hashing, entries: seq<Entry>, calls: seq<Params>, key: Params)
    requires h.Coherent() && AllPlain(calls) && Tallies(h, entries, calls)
    requires forall i :: 0 <= i < |entries| ==> !Same(h, entries[i].key, key)
    ensures CountSame(h, calls, key) == 0
  {
    forall c | c in calls ensures !Same(h, c, key) {
      if Same(h, c, key) {
        var i :| 0 <= i < |entries| && Same(h, entries[i].key, c);
        SameTransitive(h, entries[i].key, c, key);
      }
    }
    CountZero(h, calls, key);
  }

  /** What a lookup reports is the number of calls with equal parameters. */
  lemma LookupCounts(h: Hashing, bucket: nat -> nat, entries: seq<Entry>, calls: seq<Params>, key: Params)
    requires h.Coherent() && AllPlain(calls) && NoStorage(key) && Tallies(h, entries, calls)
    ensures var r := Lookup(h, bucket, entries, key);
      CountSame(h, calls, key) == if r.Some? then entries[r.value].count else 0
  {
    var r := Lookup(h, bucket, entries, key);
    if r.Some? {
      CountEquivalent(h, calls, entries[r.value].key, key);
    } else {
      forall i | 0 <= i < |entries| ensures !Same(h, entries[i].key, key) {
        if Same(h, entries[i].key, key) {
          LookupFinds(h, bucket, entries, key, i);
        }
      }
      AbsentMeansUncounted(h, entries, calls, key);
    }
  }

  /** The key equals exactly the entry the lookup finds. */
  lemma KeyMatches(h: Hashing, bucket: nat -> nat, entries: seq<Entry>, calls: seq<Params>, key: Params, i: nat)
    requires h.Coherent() && NoStorage(key) && Tallies(h, entries, calls) && i < |entries|
    ensures Same(h, key, entries[i].key) <==> Lookup(h, bucket, entries, key) == Some(i)
    ensures Same(h, entries[i].key, key) <==> Lookup(h, bucket, entries, key) == Some(i)
  {
    var r := Lookup(h, bucket, entries, key);
    if Same(h, key, entries[i].key) {
      EqualHashEqually(h, key, entries[i].key, 0, 0);
    }
    if Same(h, entries[i].key, key) {
      EqualHashEqually(h, entries[i].key, key, 0, 0);
      LookupFinds(h, bucket, entries, key, i);
      EqualHashEqually(h, entries[r.value].key, key, 0, 0);
      SameTransitive(h, entries[r.value].key, key, entries[i].key);
    }
  }

  lemma BumpTallies(h: Hashing, bucket: nat -> nat, entries: seq<Entry>, calls: seq<Params>, key: Params)
    requires h.Coherent() && AllPlain(calls) && NoStorage(key) && Tallies(h, entries, calls)
    ensures Tallies(h, Bump(h, bucket, entries, key), calls + [key])
  {
    var r := Lookup(h, bucket, entries, key);
    var entries', calls' := Bump(h, bucket, entries, key), calls + [key];
    assert calls'[..|calls|] == calls && calls'[|calls|] == key;
    forall i | 0 <= i < |entries|
      ensures Same(h, key, entries[i].key) <==> r == Some(i)
      ensures Same(h, entries[i].key, key) <==> r == Some(i)
    {
      KeyMatches(h, bucket, entries, calls, key, i);
    }
    LookupCounts(h, bucket, entries, calls, key);
    ReflexiveIffNoStorage(h, key);
    assert forall i :: 0 <= i < |entries'| ==> entries'[i].key == if i < |entries| then entries[i].key else key;
    forall c | c in calls' ensures exists i :: 0 <= i < |entries'| && Same(h, entries'[i].key, c) {
      if c in calls {
        var i :| 0 <= i < |entries| && Same(h, entries[i].key, c);
        assert Same(h, entries'[i].key, c);
      } else {
        var i := if r.Some? then r.value else |entries|;
        assert Same(h, entries'[i].key, c);
      }
    }
  }

  // --------------------------------------------------------------- recording and clearing

  datatype OpEntry = OpEntry(entries: seq<Entry>, total: nat)

  /** One operation on the statistics; the map may change its buckets at any time. */
  datatype Event = Record(op: string, key: Params, bucket: nat -> nat) | Clear

  function Step(h: Hashing, ops: map<string, OpEntry>, e: Event): map<string, OpEntry> {
    match e
    case Clear => map[]
    case Record(op, key, bucket) =>
      var o := if op in ops then ops[op] else OpEntry([], 0);
      ops[op := OpEntry(Bump(h, bucket, o.entries, key), o.total + 1)]
  }

  function Run(h: Hashing, events: seq<Event>): map<string, OpEntry> {
    if events == [] then map[] else Step(h, Run(h, events[..|events| - 1]), events[|events| - 1])
  }

  /** The parameters recorded for an operator since the last clear. */
  function CallsOf(events: seq<Event>, op: string): seq<Params> {
    if events == [] then []
    else
      match events[|events| - 1]
      case Clear => []
      case Record(o, key, bucket) =>
        var before := CallsOf(events[..|events| - 1], op);
        if o == op then before + [key] else before
  }

  function StatOf(ops: map<string, OpEntry>, op: string): OpEntry { if op in ops then ops[op] else OpEntry([], 0) }

  /** Over any run the total of an operator is the number of its calls since the last clear and the
      sum of the counts of its parameter lists. */
  lemma {:induction false} TotalsAgree(h: Hashing, events: seq<Event>, op: string)
    ensures var o := StatOf(Run(h, events), op);
      o.total == Total(o.entries) == |CallsOf(events, op)|
    decreases |events|
  {
    if events != [] {
      var before, e := events[..|events| - 1], events[|events| - 1];
      TotalsAgree(h, before, op);
      if e.Record? && e.op == op {
        BumpTotal(h, e.bucket, StatOf(Run(h, before), op).entries, e.key);
      }
    }
  }

  predicate PlainEvents(events: seq<Event>) {
    forall i :: 0 <= i < |events| && events[i].Record? ==> NoStorage(events[i].key)
  }

  lemma {:induction false} RunTallies(h: Hashing, events: seq<Event>, op: string)
    requires h.Coherent() && PlainEvents(events)
    ensures AllPlain(CallsOf(events, op)) && Tallies(h, StatOf(Run(h, events), op).entries, CallsOf(events, op))
    decreases |events|
  {
    if events != [] {
      var before, e := events[..|events| - 1], events[|events| - 1];
      RunTallies(h, before, op);
      if e.Record? && e.op == op {
        BumpTallies(h, e.bucket, StatOf(Run(h, before), op).entries, CallsOf(before, op), e.key);
      }
    }
  }

  /** After any run without storages, looking a parameter list up gives the number of calls with
      equal parameters since the last clear. */
  lemma CountsAreExact(h: Hashing, events: seq<Event>, op: string, key: Params, bucket: nat -> nat)
    requires h.Coherent() && PlainEvents(events) && NoStorage(key)
    ensures var o := StatOf(Run(h, events), op);
      var r := Lookup(h, bucket, o.entries, key);
      CountSame(h, CallsOf(events, op), key) == if r.Some? then o.entries[r.value].count else 0
  {
    RunTallies(h, events, op);
    LookupCounts(h, bucket, StatOf(Run(h, events), op).entries, CallsOf(events, op), key);
  }

  /** The statistics object. */
  class Statistics {
    const h: Hashing
    var ops: map<string, OpEntry>

    constructor (h: Hashing)
      ensures this.h == h && ops == Run(h, [])
    {
      this.h := h;
      ops := map[];
    }

    method RecordCall(op: string, param: Params, bucket: nat -> nat)
      modifies this
      ensures ops == Step(h, old(ops), Record(op, param, bucket))
    {
      if op !in ops {
        ops := ops[op := OpEntry([], 0)];
      }
      var entry := ops[op];
      var found := Lookup(h, bucket, entry.entries, param);
      if found.None? {
        entry := entry.(entries := entry.entries + [Entry(param, 1)]);
      } else {
        var e := entry.entries[found.value];
        entry := entry.(entries := entry.entries[found.value := e.(count := e.count + 1)]);
      }
      ops := ops[op := entry.(total := entry.total + 1)];
    }

    method ClearAll()
      modifies this
      ensures ops == Step(h, old(ops), Clear)
    {
      ops := map[];
    }
  }
}
