/** Checkpoint save and load of storage references: persistent ids, the per-pointer type check,
    the records written per storage, and the cache that restores sharing on load. */
module Checkpoint {
  import opened Options

  type Byte = b: int | 0 <= b < 256

  datatype Endian = Little | Big

  datatype RawDType = RawDType(name: nat, width: nat)
  type DType = d: RawDType | d.width > 0 witness RawDType(0, 1)

  const UINT8: DType := RawDType(0, 1)

  /** A live storage object, named by its C handle; `dataPtr` is 0 when nothing is allocated. */
  datatype RawStorage = RawStorage(dataPtr: nat, bytes: seq<Byte>, location: nat)
  type Storage = s: RawStorage | s.bytes != [] ==> s.dataPtr != 0 witness RawStorage(0, [], 0)

  type Heap = map<nat, Storage>

  /** A typed view of a storage, or the bare storage, as met while pickling. */
  datatype Ref = Typed(cdata: nat, dtype: DType) | Untyped(cdata: nat) {
    function SavedType(): DType { if Typed? then dtype else UINT8 }
  }

  /** The persistent id written in place of a reference. */
  datatype Pid = Pid(untyped: bool, dtype: DType, key: nat, location: nat, numel: nat) {
    function LoadedType(): DType { if untyped then UINT8 else dtype }
  }

  datatype SaverState = SaverState(idMap: map<nat, nat>, serialized: map<nat, (nat, DType)>, dtypes: map<nat, DType>)

  const NEW_SAVER := SaverState(map[], map[], map[])

  datatype Saved = Saved(pids: seq<Pid>, st: SaverState) | Rejected

  /** What ends up in the file: the pickled ids, one record per storage key, the byte order. */
  datatype Archive = Archive(pids: seq<Pid>, records: map<nat, seq<Byte>>, byteorder: Option<Endian>)

  // ----------------------------------------------------------------------- save

  function NumelOf(heap: Heap, r: Ref): nat
    requires r.cdata in heap
  {
    |heap[r.cdata].bytes| / r.SavedType().width
  }

  function PidOf(heap: Heap, r: Ref, idMap: map<nat, nat>): Pid
    requires r.cdata in heap && r.cdata in idMap
  {
    Pid(r.Untyped?, r.SavedType(), idMap[r.cdata], heap[r.cdata].location, NumelOf(heap, r))
  }

  /** The type check of one reference: the same data pointer must not be seen with two types. */
  predicate TypeClash(heap: Heap, r: Ref, dtypes: map<nat, DType>)
    requires r.cdata in heap
  {
    var ptr := heap[r.cdata].dataPtr;
    ptr != 0 && ptr in dtypes && dtypes[ptr] != r.SavedType()
  }

  /** The saver's dictionaries after one accepted reference. */
  function Recorded(heap: Heap, r: Ref, st: SaverState): SaverState
    requires r.cdata in heap
  {
    var ptr := heap[r.cdata].dataPtr;
    var dtypes := if ptr != 0 then st.dtypes[ptr := r.SavedType()] else st.dtypes;
    var idMap := if r.cdata in st.idMap then st.idMap else st.idMap[r.cdata := |st.idMap|];
    SaverState(idMap, st.serialized[idMap[r.cdata] := (r.cdata, r.SavedType())], dtypes)
  }

  predicate Live(heap: Heap, refs: seq<Ref>) { forall k :: 0 <= k < |refs| ==> refs[k].cdata in heap }

  function SaveFrom(heap: Heap, refs: seq<Ref>, st: SaverState): (r: Saved)
    requires Live(heap, refs)
    ensures r.Saved? ==> |r.pids| == |refs|
  {
    if refs == [] then Saved([], st)
    else if TypeClash(heap, refs[0], st.dtypes) then Rejected
    else
      var next := Recorded(heap, refs[0], st);
      match SaveFrom(heap, refs[1..], next)
      case Rejected => Rejected
      case Saved(pids, last) => Saved([PidOf(heap, refs[0], next.idMap)] + pids, last)
  }

  /** The saver of one call: its dictionaries are updated by every persistent_id. */
  class Saver {
    var idMap: map<nat, nat>
    var serialized: map<nat, (nat, DType)>
    var dtypes: map<nat, DType>

    function State(): SaverState
      reads this
    {
      SaverState(idMap, serialized, dtypes)
    }

    constructor ()
      ensures State() == NEW_SAVER
    {
      idMap, serialized, dtypes := map[], map[], map[];
    }

    method PersistentId(heap: Heap, r: Ref) returns (pid: Option<Pid>)
      requires r.cdata in heap
      modifies this
      ensures pid.None? <==> TypeClash(heap, r, old(dtypes))
      ensures pid.None? ==> State() == old(State())
      ensures pid.Some? ==>
        State() == Recorded(heap, r, old(State())) && r.cdata in idMap && pid.value == PidOf(heap, r, idMap)
    {
      var storage := heap[r.cdata];
      var dtype := r.SavedType();
      var numel := |storage.bytes| / dtype.width;
      if storage.dataPtr != 0 {
        if storage.dataPtr in dtypes {
          if dtype != dtypes[storage.dataPtr] {
            return None;
          }
        } else {
          dtypes := dtypes[storage.dataPtr := dtype];
        }
      }
      if r.cdata !in idMap {
        idMap := idMap[r.cdata := |idMap|];
      }
      var key := idMap[r.cdata];
      serialized := serialized[key := (r.cdata, dtype)];
      pid := Some(Pid(r.Untyped?, dtype, key, storage.location, numel));
    }
  }

  function BytesOf(heap: Heap, cdata: nat): seq<Byte> { if cdata in heap then heap[cdata].bytes else [] }

  function Records(heap: Heap, serialized: map<nat, (nat, DType)>): map<nat, seq<Byte>> {
    map key | key in serialized :: BytesOf(heap, serialized[key].0)
  }

  function SaveSpec(heap: Heap, refs: seq<Ref>, order: Endian, disableByteorder: bool): (a: Option<Archive>)
    requires Live(heap, refs)
  {
    match SaveFrom(heap, refs, NEW_SAVER)
    case Rejected => None
    case Saved(pids, st) =>
      Some(Archive(pids, Records(heap, st.serialized), if disableByteorder then None else Some(order)))
  }

  /** A result whose ids are preceded by those already written. */
  function After(pids: seq<Pid>, r: Saved): (s: Saved)
    ensures pids == [] ==> s == r
  {
    match r
    case Rejected => Rejected
    case Saved(rest, st) =>
      assert [] + rest == rest;
      Saved(pids + rest, st)
  }

  lemma AfterSnoc(pids: seq<Pid>, pid: Pid, r: Saved)
    ensures After(pids + [pid], r) == After(pids, After([pid], r))
  {
    if r.Saved? {
      assert pids + [pid] + r.pids == pids + ([pid] + r.pids);
    }
  }

  method Save(heap: Heap, refs: seq<Ref>, order: Endian, disableByteorder: bool) returns (a: Option<Archive>)
    requires Live(heap, refs)
    ensures a == SaveSpec(heap, refs, order, disableByteorder)
  {
    var saver := new Saver();
    var pids: seq<Pid> := [];
    assert refs[0..] == refs;
    for k := 0 to |refs|
      invariant SaveFrom(heap, refs, NEW_SAVER) == After(pids, SaveFrom(heap, refs[k..], saver.State()))
    {
      assert refs[k..][1..] == refs[k + 1..];
      var pid := saver.PersistentId(heap, refs[k]);
      if pid.None? {
        return None;
      }
      AfterSnoc(pids, pid.value, SaveFrom(heap, refs[k + 1..], saver.State()));
      pids := pids + [pid.value];
    }
    assert pids + [] == pids;
    var records := WriteRecords(heap, saver.serialized);
    a := Some(Archive(pids, records, if disableByteorder then None else Some(order)));
  }

  /** The record loop at the end of saving. */
  method WriteRecords(heap: Heap, serialized: map<nat, (nat, DType)>) returns (records: map<nat, seq<Byte>>)
    ensures records == Records(heap, serialized)
  {
    records := map[];
    var keys := serialized.Keys;
    while keys != {}
      invariant keys <= serialized.Keys
      invariant records == map key | key in serialized && key !in keys :: BytesOf(heap, serialized[key].0)
      decreases |keys|
    {
      var key :| key in keys;
      records := records[key := BytesOf(heap, serialized[key].0)];
      keys := keys - {key};
    }
  }

  // ----------------------------------------------------------------------- load

  /** A storage created by loading; `id` tells storages apart. */
  datatype Loaded = Loaded(id: nat, dtype: DType, bytes: seq<Byte>)

  datatype LoaderState = LoaderState(cache: map<nat, Loaded>, next: nat)

  const NEW_LOADER := LoaderState(map[], 0)

  function Reverse(s: seq<Byte>): (r: seq<Byte>)
    ensures |r| == |s|
  {
    if s == [] then [] else Reverse(s[1..]) + [s[0]]
  }

  /** Byte swap of every whole element. */
  function Swap(s: seq<Byte>, width: nat): (r: seq<Byte>)
    requires width > 0
    ensures |r| == |s|
  {
    if |s| < width then s else Reverse(s[..width]) + Swap(s[width..], width)
  }

  /** The bytes read for an id: as many as its elements need, swapped if asked. */
  function Contents(records: map<nat, seq<Byte>>, swap: bool, pid: Pid): (r: Option<seq<Byte>>) {
    var n := pid.numel * pid.LoadedType().width;
    if pid.key !in records || |records[pid.key]| < n then None
    else Some(if swap then Swap(records[pid.key][..n], pid.LoadedType().width) else records[pid.key][..n])
  }

  /** One persistent_load; None when the record is missing or too short. */
  function LoadStep(records: map<nat, seq<Byte>>, swap: bool, pid: Pid, st: LoaderState): (r: Option<(Loaded, LoaderState)>) {
    if pid.key in st.cache then Some((st.cache[pid.key], st))
    else
      match Contents(records, swap, pid)
      case None => None
      case Some(bytes) =>
        var x := Loaded(st.next, pid.LoadedType(), bytes);
        // an empty storage has no data pointer and is not remembered
        Some((x, LoaderState(if bytes != [] then st.cache[pid.key := x] else st.cache, st.next + 1)))
  }

  function LoadFrom(records: map<nat, seq<Byte>>, swap: bool, pids: seq<Pid>, st: LoaderState): (r: Option<(seq<Loaded>, LoaderState)>)
    ensures r.Some? ==> |r.value.0| == |pids|
  {
    if pids == [] then Some(([], st))
    else
      match LoadStep(records, swap, pids[0], st)
      case None => None
      case Some((x, next)) =>
        match LoadFrom(records, swap, pids[1..], next)
        case None => None
        case Some((xs, last)) => Some(([x] + xs, last))
  }

  /** Swapping is needed when the recorded (or assumed) order is not the machine's; an absent mark
      is read as the configured default, or not at all when that default is `native`. */
  function NeedsSwap(byteorder: Option<Endian>, fallback: Option<Endian>, machine: Endian): bool {
    var order := if byteorder.Some? then byteorder else fallback;
    order.Some? && order.value != machine
  }

  class Loader {
    var cache: map<nat, Loaded>
    var next: nat

    function State(): LoaderState
      reads this
    {
      LoaderState(cache, next)
    }

    constructor ()
      ensures State() == NEW_LOADER
    {
      cache, next := map[], 0;
    }

    method PersistentLoad(records: map<nat, seq<Byte>>, swap: bool, pid: Pid) returns (r: Option<Loaded>)
      modifies this
      ensures r.Some? <==> LoadStep(records, swap, pid, old(State())).Some?
      ensures r.Some? ==> LoadStep(records, swap, pid, old(State())) == Some((r.value, State()))
      ensures r.None? ==> State() == old(State())
    {
      if pid.key in cache {
        return Some(cache[pid.key]);
      }
      var contents := Contents(records, swap, pid);
      if contents.None? {
        return None;
      }
      var x := Loaded(next, pid.LoadedType(), contents.value);
      next := next + 1;
      if contents.value != [] {
        cache := cache[pid.key := x];
      }
      return Some(x);
    }
  }

  /** A result whose storages are preceded by those already loaded. */
  function Behind(xs: seq<Loaded>, r: Option<(seq<Loaded>, LoaderState)>): (s: Option<(seq<Loaded>, LoaderState)>)
    ensures xs == [] ==> s == r
  {
    match r
    case None => None
    case Some((rest, st)) =>
      assert [] + rest == rest;
      Some((xs + rest, st))
  }

  lemma BehindSnoc(xs: seq<Loaded>, x: Loaded, r: Option<(seq<Loaded>, LoaderState)>)
    ensures Behind(xs + [x], r) == Behind(xs, Behind([x], r))
  {
    if r.Some? {
      assert xs + [x] + r.value.0 == xs + ([x] + r.value.0);
    }
  }

  method Load(a: Archive, fallback: Option<Endian>, machine: Endian) returns (r: Option<seq<Loaded>>)
    ensures var spec := LoadFrom(a.records, NeedsSwap(a.byteorder, fallback, machine), a.pids, NEW_LOADER);
      r == if spec.None? then None else Some(spec.value.0)
  {
    var loader := new Loader();
    var swap := NeedsSwap(a.byteorder, fallback, machine);
    var xs: seq<Loaded> := [];
    assert a.pids[0..] == a.pids;
    for k := 0 to |a.pids|
      invariant LoadFrom(a.records, swap, a.pids, NEW_LOADER) ==
        Behind(xs, LoadFrom(a.records, swap, a.pids[k..], loader.State()))
    {
      assert a.pids[k..][1..] == a.pids[k + 1..];
      var x := loader.PersistentLoad(a.records, swap, a.pids[k]);
      if x.None? {
        return None;
      }
      BehindSnoc(xs, x.value, LoadFrom(a.records, swap, a.pids[k + 1..], loader.State()));
      xs := xs + [x.value];
    }
    assert xs + [] == xs;
    return Some(xs);
  }

  // ------------------------------------------------------- what saving records

  /** Keys are handed out once each, and every key's record names the storage it was given for. */
  ghost predicate SaverOk(st: SaverState) {
    && (forall c :: c in st.idMap ==> st.idMap[c] < |st.idMap|)
    && (forall c, d :: c in st.idMap && d in st.idMap && st.idMap[c] == st.idMap[d] ==> c == d)
    && (forall c :: c in st.idMap ==> st.idMap[c] in st.serialized && st.serialized[st.idMap[c]].0 == c)
  }

  lemma RecordedOk(heap: Heap, r: Ref, st: SaverState)
    requires r.cdata in heap && SaverOk(st)
    ensures SaverOk(Recorded(heap, r, st))
    ensures r.cdata in Recorded(heap, r, st).idMap
    ensures forall c :: c in st.idMap ==> c in Recorded(heap, r, st).idMap && Recorded(heap, r, st).idMap[c] == st.idMap[c]
  {
    if r.cdata !in st.idMap {
      NewKey(heap, r, st);
    }
  }

  /** A storage met for the first time gets a key that no other has. */
  lemma NewKey(heap: Heap, r: Ref, st: SaverState)
    requires r.cdata in heap && SaverOk(st) && r.cdata !in st.idMap
    ensures SaverOk(Recorded(heap, r, st))
  {
    var next := Recorded(heap, r, st);
    var n := |st.idMap|;
    assert next.idMap == st.idMap[r.cdata := n] && |next.idMap| == n + 1;
    forall c | c in next.idMap ensures next.idMap[c] in next.serialized && next.serialized[next.idMap[c]].0 == c {
      assert c != r.cdata ==> st.idMap[c] < n;
    }
  }

  /** References handled later neither move a key nor change a recorded type. */
  ghost predicate Grows(st: SaverState, last: SaverState) {
    && (forall c :: c in st.idMap ==> c in last.idMap && last.idMap[c] == st.idMap[c])
    && (forall p :: p in st.dtypes ==> p in last.dtypes && last.dtypes[p] == st.dtypes[p])
  }

  /** The id of each reference, in terms of the final key table; the recorded type is unique. */
  ghost predicate Accounted(heap: Heap, r: Ref, pid: Pid, last: SaverState)
    requires r.cdata in heap
  {
    && r.cdata in last.idMap && pid == PidOf(heap, r, last.idMap)
    && (heap[r.cdata].dataPtr != 0 ==>
          heap[r.cdata].dataPtr in last.dtypes && last.dtypes[heap[r.cdata].dataPtr] == r.SavedType())
  }

  lemma {:induction false} SaveFacts(heap: Heap, refs: seq<Ref>, st: SaverState)
    requires Live(heap, refs) && SaverOk(st) && SaveFrom(heap, refs, st).Saved?
    ensures var last := SaveFrom(heap, refs, st).st;
      SaverOk(last) && Grows(st, last) &&
      forall k :: 0 <= k < |refs| ==> Accounted(heap, refs[k], SaveFrom(heap, refs, st).pids[k], last)
  {
    if refs != [] {
      var next := Recorded(heap, refs[0], st);
      RecordedOk(heap, refs[0], st);
      SaveFacts(heap, refs[1..], next);
      var r := SaveFrom(heap, refs, st);
      var tail := SaveFrom(heap, refs[1..], next);
      assert r.st == tail.st && r.pids == [PidOf(heap, refs[0], next.idMap)] + tail.pids;
      FirstAccounted(heap, refs[0], st, r.st);
      forall k | 0 <= k < |refs| ensures Accounted(heap, refs[k], r.pids[k], r.st) {
        if k > 0 {
          assert refs[k] == refs[1..][k - 1] && r.pids[k] == tail.pids[k - 1];
        }
      }
    }
  }

  /** A reference stays accounted for while the dictionaries grow. */
  lemma FirstAccounted(heap: Heap, r: Ref, st: SaverState, last: SaverState)
    requires r.cdata in heap && SaverOk(st) && !TypeClash(heap, r, st.dtypes) && Grows(Recorded(heap, r, st), last)
    ensures Grows(st, last) && Accounted(heap, r, PidOf(heap, r, Recorded(heap, r, st).idMap), last)
  {
    RecordedOk(heap, r, st);
    GrowsChain(st, Recorded(heap, r, st), last);
  }

  lemma GrowsChain(a: SaverState, b: SaverState, c: SaverState)
    requires Grows(a, b) && Grows(b, c)
    ensures Grows(a, c)
  {
  }

  /** No data pointer is referenced with two types. */
  ghost predicate TypesConsistent(heap: Heap, refs: seq<Ref>)
    requires Live(heap, refs)
  {
    forall j, k :: 0 <= j < |refs| && 0 <= k < |refs| ==>
      heap[refs[j].cdata].dataPtr == heap[refs[k].cdata].dataPtr != 0 ==> refs[j].SavedType() == refs[k].SavedType()
  }

  /** Every recorded type was seen on some earlier reference. */
  ghost predicate TypesSeen(heap: Heap, seen: seq<Ref>, dtypes: map<nat, DType>)
    requires Live(heap, seen)
  {
    forall p :: p in dtypes ==> exists j :: 0 <= j < |seen| && heap[seen[j].cdata].dataPtr == p && seen[j].SavedType() == dtypes[p]
  }

  lemma {:induction false} RejectionHasWitness(heap: Heap, seen: seq<Ref>, refs: seq<Ref>, st: SaverState)
    requires Live(heap, seen) && Live(heap, refs) && TypesSeen(heap, seen, st.dtypes) && SaveFrom(heap, refs, st).Rejected?
    ensures Live(heap, seen + refs) && !TypesConsistent(heap, seen + refs)
    decreases |refs|
  {
    var all := seen + refs;
    if TypeClash(heap, refs[0], st.dtypes) {
      var p := heap[refs[0].cdata].dataPtr;
      var j :| 0 <= j < |seen| && heap[seen[j].cdata].dataPtr == p && seen[j].SavedType() == st.dtypes[p];
      assert all[j] == seen[j] && all[|seen|] == refs[0];
    } else {
      var next := Recorded(heap, refs[0], st);
      var seen' := seen + [refs[0]];
      forall p | p in next.dtypes
        ensures exists j :: 0 <= j < |seen'| && heap[seen'[j].cdata].dataPtr == p && seen'[j].SavedType() == next.dtypes[p]
      {
        if p == heap[refs[0].cdata].dataPtr != 0 {
          assert seen'[|seen|] == refs[0];
        } else {
          var j :| 0 <= j < |seen| && heap[seen[j].cdata].dataPtr == p && seen[j].SavedType() == st.dtypes[p];
          assert seen'[j] == seen[j];
        }
      }
      RejectionHasWitness(heap, seen', refs[1..], next);
      assert seen' + refs[1..] == all;
    }
  }

  /** Saving succeeds exactly on references whose data pointers have one type each. */
  lemma SaveAcceptsIffConsistent(heap: Heap, refs: seq<Ref>, order: Endian, disableByteorder: bool)
    requires Live(heap, refs)
    ensures SaveSpec(heap, refs, order, disableByteorder).Some? <==> TypesConsistent(heap, refs)
  {
    if SaveFrom(heap, refs, NEW_SAVER).Saved? {
      SaveFacts(heap, refs, NEW_SAVER);
      var r := SaveFrom(heap, refs, NEW_SAVER);
      forall j, k | 0 <= j < |refs| && 0 <= k < |refs| && heap[refs[j].cdata].dataPtr == heap[refs[k].cdata].dataPtr != 0
        ensures refs[j].SavedType() == refs[k].SavedType()
      {
        assert Accounted(heap, refs[j], r.pids[j], r.st) && Accounted(heap, refs[k], r.pids[k], r.st);
      }
    } else {
      RejectionHasWitness(heap, [], refs, NEW_SAVER);
      assert [] + refs == refs;
    }
  }

  // ------------------------------------------------------ what loading restores

  /** `x` is a correct load of `pid`. */
  ghost predicate Restores(records: map<nat, seq<Byte>>, swap: bool, pid: Pid, x: Loaded) {
    x.dtype == pid.LoadedType() && Contents(records, swap, pid) == Some(x.bytes)
  }

  /** Cached storages are non-empty, correct for every id with their key, and distinct. */
  ghost predicate LoaderOk(records: map<nat, seq<Byte>>, swap: bool, pids: seq<Pid>, st: LoaderState) {
    && (forall key :: key in st.cache ==> st.cache[key].id < st.next && st.cache[key].bytes != [])
    && (forall k, l :: k in st.cache && l in st.cache && st.cache[k].id == st.cache[l].id ==> k == l)
    && (forall key, pid :: key in st.cache && pid in pids && pid.key == key ==> Restores(records, swap, pid, st.cache[key]))
  }

  /** Ids with the same key agree on type and length unless nothing is stored. */
  ghost predicate Coherent(records: map<nat, seq<Byte>>, swap: bool, pids: seq<Pid>) {
    forall p, q :: p in pids && q in pids && p.key == q.key && Contents(records, swap, p) != Some([]) ==>
      p.LoadedType() == q.LoadedType() && p.numel == q.numel
  }

  ghost predicate Stored(records: map<nat, seq<Byte>>, swap: bool, pids: seq<Pid>) {
    forall p :: p in pids ==> Contents(records, swap, p).Some?
  }

  lemma LoadStepOk(records: map<nat, seq<Byte>>, swap: bool, pids: seq<Pid>, pid: Pid, st: LoaderState)
    requires pid in pids && Stored(records, swap, pids) && Coherent(records, swap, pids) && LoaderOk(records, swap, pids, st)
    ensures LoadStep(records, swap, pid, st).Some?
    ensures var (x, next) := LoadStep(records, swap, pid, st).value;
      && Restores(records, swap, pid, x) && LoaderOk(records, swap, pids, next)
      && st.next <= next.next && x.id < next.next
      && (x.bytes != [] ==> pid.key in next.cache && next.cache[pid.key] == x)
      && (x.bytes == [] ==> x.id == st.next && next.cache == st.cache)
      && (forall key :: key in st.cache ==> key in next.cache && next.cache[key] == st.cache[key])
      && (if pid.key in st.cache then next == st && x == st.cache[pid.key] else x.id == st.next)
      && (forall key :: key in next.cache ==> key in st.cache || (key == pid.key && next.cache[key] == x))
  {
    assert Contents(records, swap, pid).Some?;
    if pid.key !in st.cache {
      var (x, next) := LoadStep(records, swap, pid, st).value;
      forall key, q | key in next.cache && q in pids && q.key == key
        ensures Restores(records, swap, q, next.cache[key])
      {
        if key == pid.key && x.bytes != [] {
          assert pid.LoadedType() == q.LoadedType() && pid.numel == q.numel;
        }
      }
    }
  }

  /** Every result is correct, non-empty ones are cached, and what was cached stays. */
  ghost predicate LoadedRight(records: map<nat, seq<Byte>>, swap: bool, pids: seq<Pid>, xs: seq<Loaded>, last: LoaderState) {
    && |xs| == |pids|
    && forall k :: 0 <= k < |xs| ==>
         && Restores(records, swap, pids[k], xs[k])
         && (xs[k].bytes != [] ==> pids[k].key in last.cache && last.cache[pids[k].key] == xs[k])
  }

  /** Result ids are cached ones or new ones; an empty result shares its id with nobody. */
  ghost predicate FreshIds(pids: seq<Pid>, st: LoaderState, xs: seq<Loaded>, last: LoaderState) {
    && |xs| == |pids|
    && (forall k :: 0 <= k < |xs| ==> (pids[k].key in st.cache && xs[k] == st.cache[pids[k].key]) || st.next <= xs[k].id < last.next)
    && (forall j, k :: 0 <= j < k < |xs| && (xs[j].bytes == [] || xs[k].bytes == []) ==> xs[j].id != xs[k].id)
  }

  ghost predicate CacheKept(st: LoaderState, last: LoaderState) {
    st.next <= last.next && forall key :: key in st.cache ==> key in last.cache && last.cache[key] == st.cache[key]
  }

  lemma {:induction false} LoadFacts(records: map<nat, seq<Byte>>, swap: bool, all: seq<Pid>, pids: seq<Pid>, st: LoaderState)
    requires (forall p :: p in pids ==> p in all) && Stored(records, swap, all) && Coherent(records, swap, all)
    requires LoaderOk(records, swap, all, st)
    ensures LoadFrom(records, swap, pids, st).Some?
    ensures var (xs, last) := LoadFrom(records, swap, pids, st).value;
      LoaderOk(records, swap, all, last) && CacheKept(st, last) &&
      LoadedRight(records, swap, pids, xs, last) && FreshIds(pids, st, xs, last)
    decreases |pids|
  {
    if pids != [] {
      LoadStepOk(records, swap, all, pids[0], st);
      var (x, next) := LoadStep(records, swap, pids[0], st).value;
      LoadFacts(records, swap, all, pids[1..], next);
      var (xs, last) := LoadFrom(records, swap, pids[1..], next).value;
      LoadedRightCons(records, swap, pids, x, next, xs, last);
      FreshIdsCons(pids, st, x, next, xs, last);
    }
  }

  lemma LoadedRightCons(records: map<nat, seq<Byte>>, swap: bool, pids: seq<Pid>, x: Loaded, next: LoaderState, xs: seq<Loaded>, last: LoaderState)
    requires pids != [] && LoadedRight(records, swap, pids[1..], xs, last) && CacheKept(next, last)
    requires Restores(records, swap, pids[0], x) && (x.bytes != [] ==> pids[0].key in next.cache && next.cache[pids[0].key] == x)
    ensures LoadedRight(records, swap, pids, [x] + xs, last)
  {
    var ys := [x] + xs;
    forall k | 0 <= k < |ys|
      ensures Restores(records, swap, pids[k], ys[k])
      ensures ys[k].bytes != [] ==> pids[k].key in last.cache && last.cache[pids[k].key] == ys[k]
    {
      if k > 0 {
        assert pids[k] == pids[1..][k - 1] && ys[k] == xs[k - 1];
      }
    }
  }

  lemma FreshIdsCons(pids: seq<Pid>, st: LoaderState, x: Loaded, next: LoaderState, xs: seq<Loaded>, last: LoaderState)
    requires pids != [] && FreshIds(pids[1..], next, xs, last) && CacheKept(st, next) && CacheKept(next, last)
    requires x.id < next.next && (forall key :: key in next.cache ==> next.cache[key].bytes != [])
    requires if pids[0].key in st.cache then next == st && x == st.cache[pids[0].key] && x.bytes != [] else x.id == st.next
    requires x.bytes == [] ==> next.cache == st.cache && x.id == st.next
    requires forall key :: key in st.cache ==> st.cache[key].id < st.next
    requires forall key :: key in next.cache ==> key in st.cache || (key == pids[0].key && next.cache[key] == x)
    ensures FreshIds(pids, st, [x] + xs, last)
  {
    var ys := [x] + xs;
    forall k | 0 <= k < |ys|
      ensures (pids[k].key in st.cache && ys[k] == st.cache[pids[k].key]) || st.next <= ys[k].id < last.next
    {
      if k > 0 {
        assert pids[k] == pids[1..][k - 1] && ys[k] == xs[k - 1];
      }
    }
    forall j, k | 0 <= j < k < |ys| && (ys[j].bytes == [] || ys[k].bytes == []) ensures ys[j].id != ys[k].id {
      assert pids[k] == pids[1..][k - 1] && ys[k] == xs[k - 1];
      if j > 0 {
        assert ys[j] == xs[j - 1];
      }
    }
  }

  // ----------------------------------------------------------------- byte order

  function DecodeLittle(c: seq<Byte>): nat {
    if c == [] then 0 else c[0] + 256 * DecodeLittle(c[1..])
  }

  function Decode(order: Endian, c: seq<Byte>): nat {
    if order.Little? then DecodeLittle(c) else DecodeLittle(Reverse(c))
  }

  /** The element values a machine of the given byte order sees. */
  function Elements(b: seq<Byte>, width: nat, order: Endian): (r: seq<nat>)
    requires width > 0
  {
    if |b| < width then [] else [Decode(order, b[..width])] + Elements(b[width..], width, order)
  }

  function Other(order: Endian): Endian { if order.Little? then Big else Little }

  lemma {:induction false} ReverseAppend(a: seq<Byte>, b: seq<Byte>)
    ensures Reverse(a + b) == Reverse(b) + Reverse(a)
  {
    if a == [] {
      assert a + b == b && Reverse(b) + [] == Reverse(b);
    } else {
      ReverseAppend(a[1..], b);
      assert (a + b)[1..] == a[1..] + b;
      assert Reverse(b) + Reverse(a[1..]) + [a[0]] == Reverse(b) + (Reverse(a[1..]) + [a[0]]);
    }
  }

  lemma {:induction false} ReverseTwice(s: seq<Byte>)
    ensures Reverse(Reverse(s)) == s
  {
    if s != [] {
      ReverseTwice(s[1..]);
      ReverseAppend(Reverse(s[1..]), [s[0]]);
      assert Reverse([s[0]]) == [s[0]];
    }
  }

  /** A swapped storage shows the other machine the same values. */
  lemma {:induction false} SwapKeepsElements(b: seq<Byte>, width: nat, order: Endian)
    requires width > 0
    ensures Elements(Swap(b, width), width, Other(order)) == Elements(b, width, order)
    decreases |b|
  {
    if |b| >= width {
      SwapKeepsElements(b[width..], width, order);
      var head := Reverse(b[..width]);
      assert (head + Swap(b[width..], width))[..width] == head;
      assert (head + Swap(b[width..], width))[width..] == Swap(b[width..], width);
      ReverseTwice(b[..width]);
    }
  }

  // ----------------------------------------------------------------- round trip

  /** The whole elements of a storage, as seen through a reference. */
  function WholeBytes(heap: Heap, r: Ref): (b: seq<Byte>)
    requires r.cdata in heap
  {
    WholeBound(|heap[r.cdata].bytes|, r.SavedType().width);
    heap[r.cdata].bytes[..NumelOf(heap, r) * r.SavedType().width]
  }

  lemma WholeBound(n: nat, w: nat)
    requires w > 0
    ensures 0 <= (n / w) * w <= n && ((n / w) * w == n <==> n % w == 0)
  {
    assert n == w * (n / w) + n % w;
    assert (n / w) * w == w * (n / w);
  }

  /** What loading reads for a reference. */
  function Expected(heap: Heap, r: Ref, swap: bool): seq<Byte>
    requires r.cdata in heap
  {
    if swap then Swap(WholeBytes(heap, r), r.SavedType().width) else WholeBytes(heap, r)
  }

  lemma AccountedLoads(heap: Heap, r: Ref, pid: Pid, last: SaverState, swap: bool)
    requires r.cdata in heap && SaverOk(last) && Accounted(heap, r, pid, last)
    ensures pid.LoadedType() == r.SavedType()
    ensures Contents(Records(heap, last.serialized), swap, pid) == Some(Expected(heap, r, swap))
  {
    WholeBound(|heap[r.cdata].bytes|, r.SavedType().width);
  }

  lemma AccountedAgree(heap: Heap, r: Ref, r': Ref, pid: Pid, pid': Pid, last: SaverState, swap: bool)
    requires r.cdata in heap && r'.cdata in heap && SaverOk(last) && Accounted(heap, r, pid, last) && Accounted(heap, r', pid', last)
    ensures pid.key == pid'.key <==> r.cdata == r'.cdata
    ensures pid.key == pid'.key && Expected(heap, r, swap) != [] ==> pid.LoadedType() == pid'.LoadedType() && pid.numel == pid'.numel
  {
    WholeBound(|heap[r.cdata].bytes|, r.SavedType().width);
  }

  /** The ids of an archive written by saving can all be loaded, and agree wherever they share. */
  lemma ArchiveIsLoadable(heap: Heap, refs: seq<Ref>, r: Saved, swap: bool)
    requires Live(heap, refs) && r == SaveFrom(heap, refs, NEW_SAVER) && r.Saved?
    ensures Stored(Records(heap, r.st.serialized), swap, r.pids) && Coherent(Records(heap, r.st.serialized), swap, r.pids)
    ensures forall k :: 0 <= k < |refs| ==> r.pids[k].LoadedType() == refs[k].SavedType()
    ensures forall k :: 0 <= k < |refs| ==>
      Contents(Records(heap, r.st.serialized), swap, r.pids[k]) == Some(Expected(heap, refs[k], swap))
    ensures forall j, k :: 0 <= j < |refs| && 0 <= k < |refs| ==> (r.pids[j].key == r.pids[k].key <==> refs[j].cdata == refs[k].cdata)
  {
    SaveFacts(heap, refs, NEW_SAVER);
    forall k | 0 <= k < |refs|
      ensures r.pids[k].LoadedType() == refs[k].SavedType()
      ensures Contents(Records(heap, r.st.serialized), swap, r.pids[k]) == Some(Expected(heap, refs[k], swap))
    {
      AccountedLoads(heap, refs[k], r.pids[k], r.st, swap);
    }
    forall j, k | 0 <= j < |refs| && 0 <= k < |refs|
      ensures r.pids[j].key == r.pids[k].key <==> refs[j].cdata == refs[k].cdata
      ensures r.pids[j].key == r.pids[k].key && Expected(heap, refs[j], swap) != [] ==>
        r.pids[j].LoadedType() == r.pids[k].LoadedType() && r.pids[j].numel == r.pids[k].numel
    {
      AccountedAgree(heap, refs[j], refs[k], r.pids[j], r.pids[k], r.st, swap);
    }
  }

  /** Load undoes save: same types, same element values in each machine's own byte order (the very
      bytes when the orders agree), and the same sharing among non-empty references. */
  ghost predicate RoundTrips(heap: Heap, refs: seq<Ref>, saver: Endian, machine: Endian, xs: seq<Loaded>)
    requires Live(heap, refs)
  {
    && |xs| == |refs|
    && (forall k :: 0 <= k < |refs| ==>
          var width := refs[k].SavedType().width;
          && xs[k].dtype == refs[k].SavedType() && |xs[k].bytes| == |WholeBytes(heap, refs[k])|
          && Elements(xs[k].bytes, width, machine) == Elements(WholeBytes(heap, refs[k]), width, saver)
          && (saver == machine ==> xs[k].bytes == WholeBytes(heap, refs[k])))
    && (forall j, k :: 0 <= j < |refs| && 0 <= k < |refs| && xs[j].bytes != [] && xs[k].bytes != [] ==>
          (xs[j].id == xs[k].id <==> refs[j].cdata == refs[k].cdata))
    && (forall j, k :: 0 <= j < k < |refs| && (xs[j].bytes == [] || xs[k].bytes == []) ==> xs[j].id != xs[k].id)
  }

  /** Saving on one machine and loading on another gives the references back. */
  ghost predicate Survives(heap: Heap, refs: seq<Ref>, saver: Endian, disableByteorder: bool, fallback: Option<Endian>, machine: Endian)
    requires Live(heap, refs)
  {
    var a := SaveSpec(heap, refs, saver, disableByteorder);
    && a.Some?
    && var r := LoadFrom(a.value.records, NeedsSwap(a.value.byteorder, fallback, machine), a.value.pids, NEW_LOADER);
    r.Some? && RoundTrips(heap, refs, saver, machine, r.value.0)
  }

  lemma SaveThenLoad(heap: Heap, refs: seq<Ref>, saver: Endian, disableByteorder: bool, fallback: Option<Endian>, machine: Endian)
    requires Live(heap, refs) && TypesConsistent(heap, refs)
    requires disableByteorder ==> NeedsSwap(None, fallback, machine) == (saver != machine)
    ensures Survives(heap, refs, saver, disableByteorder, fallback, machine)
  {
    SaveAcceptsIffConsistent(heap, refs, saver, disableByteorder);
    var a := SaveSpec(heap, refs, saver, disableByteorder).value;
    var swap := NeedsSwap(a.byteorder, fallback, machine);
    assert swap == (saver != machine);
    ArchiveIsLoadable(heap, refs, SaveFrom(heap, refs, NEW_SAVER), swap);
    LoadFacts(a.records, swap, a.pids, a.pids, NEW_LOADER);
    var (xs, last) := LoadFrom(a.records, swap, a.pids, NEW_LOADER).value;
    forall k | 0 <= k < |refs|
      ensures Elements(xs[k].bytes, refs[k].SavedType().width, machine) ==
        Elements(WholeBytes(heap, refs[k]), refs[k].SavedType().width, saver)
    {
      if swap {
        SwapKeepsElements(WholeBytes(heap, refs[k]), refs[k].SavedType().width, saver);
      }
    }
  }

  /** Every byte survives exactly when the storage holds a whole number of elements. */
  lemma AllBytesKeptIffWhole(heap: Heap, r: Ref)
    requires r.cdata in heap
    ensures WholeBytes(heap, r) == heap[r.cdata].bytes <==> |heap[r.cdata].bytes| % r.SavedType().width == 0
  {
    WholeBound(|heap[r.cdata].bytes|, r.SavedType().width);
  }

  /** Without a byte-order mark every consistent reference list survives, whatever it holds. */
  ghost predicate UnmarkedSurvive(saver: Endian, fallback: Option<Endian>, machine: Endian) {
    forall heap: Heap, refs: seq<Ref> :: Live(heap, refs) && TypesConsistent(heap, refs) ==>
      Survives(heap, refs, saver, true, fallback, machine)
  }

  /** That is so exactly when the loader's default makes it swap between machines of different byte
      order and not between machines of the same. */
  lemma UnmarkedSurviveIff(saver: Endian, fallback: Option<Endian>, machine: Endian)
    ensures UnmarkedSurvive(saver, fallback, machine) <==> NeedsSwap(None, fallback, machine) == (saver != machine)
  {
    if NeedsSwap(None, fallback, machine) == (saver != machine) {
      forall heap: Heap, refs: seq<Ref> | Live(heap, refs) && TypesConsistent(heap, refs)
        ensures Survives(heap, refs, saver, true, fallback, machine)
      {
        SaveThenLoad(heap, refs, saver, true, fallback, machine);
      }
    } else {
      var heap: Heap := map[0 := RawStorage(1, [1, 0], 0)];
      UnmarkedOrderIsLost(heap, Typed(0, RawDType(1, 2)), saver, fallback, machine);
    }
  }

  /** A two-byte element is lost under every other default. */
  lemma UnmarkedOrderIsLost(heap: Heap, r: Ref, saver: Endian, fallback: Option<Endian>, machine: Endian)
    requires heap == map[0 := RawStorage(1, [1, 0], 0)] && r == Typed(0, RawDType(1, 2))
    requires NeedsSwap(None, fallback, machine) != (saver != machine)
    ensures Live(heap, [r]) && TypesConsistent(heap, [r]) && !Survives(heap, [r], saver, true, fallback, machine)
  {
    SaveAcceptsIffConsistent(heap, [r], saver, true);
    var swap := NeedsSwap(None, fallback, machine);
    ArchiveIsLoadable(heap, [r], SaveFrom(heap, [r], NEW_SAVER), swap);
    var a := SaveSpec(heap, [r], saver, true).value;
    LoadFacts(a.records, swap, a.pids, a.pids, NEW_LOADER);
    var (xs, last) := LoadFrom(a.records, swap, a.pids, NEW_LOADER).value;
    assert WholeBytes(heap, r) == [1, 0];
    PairFacts();
    assert xs[0].bytes == if swap then [0, 1] else [1, 0];
    assert [r][0].SavedType().width == 2;
  }

  lemma PairFacts()
    ensures Swap([1, 0], 2) == [0, 1] && Elements([1, 0], 2, Little) != Elements([1, 0], 2, Big)
  {
    assert [1, 0][..2] == [1, 0] && [1, 0][2..] == [] && [1, 0][1..] == [0] && [0][1..] == [];
    assert Reverse([0]) == [0] && Reverse([1, 0]) == [0, 1];
    assert [0, 1][1..] == [1] && [1][1..] == [];
    assert DecodeLittle([0]) == 0 && DecodeLittle([1]) == 1 && DecodeLittle([1, 0]) == 1 && DecodeLittle([0, 1]) == 256;
    assert Elements([1, 0], 2, Little)[0] != Elements([1, 0], 2, Big)[0];
  }
}
