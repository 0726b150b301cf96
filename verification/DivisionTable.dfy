/** The allocator's table of round-up divisions: how a list of entries fills it and what it then
    answers for a size. */
module DivisionTable {
  import opened Options
  import opened Shapes

  const MB: nat := 1048576
  const SLOTS: nat := 16

  // -------------------------------------------------------------- powers and logarithms

  predicate PowerOfTwo(n: nat) { n == 1 || (n > 1 && n % 2 == 0 && PowerOfTwo(n / 2)) }

  function Pow2(e: nat): (r: nat) ensures r >= 1 { if e == 0 then 1 else 2 * Pow2(e - 1) }

  /** 63 minus the number of leading zeros of a positive 64-bit word. */
  function Log2(n: nat): nat { if n < 2 then 0 else 1 + Log2(n / 2) }

  lemma {:induction false} Log2Bounds(n: nat)
    requires n > 0
    ensures Pow2(Log2(n)) <= n < 2 * Pow2(Log2(n))
  {
    if n >= 2 {
      Log2Bounds(n / 2);
    }
  }

  lemma {:induction false} PowerIsPow2(n: nat)
    requires PowerOfTwo(n)
    ensures n == Pow2(Log2(n))
  {
    if n > 1 {
      PowerIsPow2(n / 2);
    }
  }

  lemma {:induction false} Pow2IsPower(e: nat)
    ensures PowerOfTwo(Pow2(e))
  {
    if e > 0 {
      Pow2IsPower(e - 1);
    }
  }

  lemma {:induction false} Pow2Monotone(a: nat, b: nat)
    requires a <= b
    ensures Pow2(a) <= Pow2(b) && (a < b ==> 2 * Pow2(a) <= Pow2(b))
  {
    if a < b {
      Pow2Monotone(a, b - 1);
    }
  }

  lemma {:induction false} Pow2Add(a: nat, b: nat)
    ensures Pow2(a + b) == Pow2(a) * Pow2(b)
  {
    if a > 0 {
      Pow2Add(a - 1, b);
      MulAssociative(2, Pow2(a - 1), Pow2(b));
    }
  }

  /** The logarithm is determined by its bounds. */
  lemma Log2Unique(n: nat, e: nat)
    requires n > 0
    ensures Log2(n) == e <==> Pow2(e) <= n < 2 * Pow2(e)
  {
    Log2Bounds(n);
    if Log2(n) < e {
      Pow2Monotone(Log2(n), e);
    } else if e < Log2(n) {
      Pow2Monotone(e, Log2(n));
    }
  }

  // ------------------------------------------------------------------ the division table

  function Min(a: nat, b: nat): nat { if a < b then a else b }

  function FillRange(t: seq<nat>, from: nat, to: nat, v: nat): (r: seq<nat>)
    ensures |r| == |t| && forall i :: 0 <= i < |t| ==> r[i] == if from <= i < to then v else t[i]
  {
    seq(|t|, i requires 0 <= i < |t| => if from <= i < to then v else t[i])
  }

  /** Where the writer puts a key given in MB. */
  function KeySlot(k: nat): (r: nat) ensures r < SLOTS { Min(Log2(k), SLOTS - 1) }

  /** Where the reader looks for a size in bytes; the logarithm of 0 wraps to -1. */
  function SizeSlot(size: nat): (r: nat)
    ensures r < SLOTS
  {
    var log := if size == 0 then -1 else Log2(size);
    var index := if log - 20 < 0 then 0 else log - 20;
    Min(index, SLOTS - 1)
  }

  function Lookup(table: seq<nat>, size: nat): nat
    requires |table| == SLOTS
  {
    table[SizeSlot(size)]
  }

  /** One list entry; no key stands for '>'. */
  datatype Entry = Entry(key: Option<nat>, value: nat)

  /** State of the list loop: the table, whether a key is still to come, and the last slot. */
  datatype RawCursor = Cursor(table: seq<nat>, first: bool, last: nat)

  type Cursor = c: RawCursor | |c.table| == SLOTS && c.last < SLOTS witness Cursor(Fill(0, SLOTS), true, 0)

  function Write(c: Cursor, e: Entry): Cursor {
    match e.key
    case None => c.(table := FillRange(c.table, c.last, SLOTS, e.value))
    case Some(k) =>
      var slot := KeySlot(k);
      var filled := if c.first then FillRange(c.table, 0, slot, e.value) else c.table;
      Cursor(filled[slot := e.value], false, slot)
  }

  /** Entries are written from left to right. */
  function WriteAll(c: Cursor, entries: seq<Entry>): Cursor
    decreases |entries|
  {
    if entries == [] then c else WriteAll(Write(c, entries[0]), entries[1..])
  }

  lemma {:induction false} WriteAllAppend(c: Cursor, a: seq<Entry>, b: seq<Entry>)
    ensures WriteAll(c, a + b) == WriteAll(WriteAll(c, a), b)
    decreases |a|
  {
    if a == [] {
      assert a + b == b;
    } else {
      assert (a + b)[1..] == a[1..] + b;
      WriteAllAppend(Write(c, a[0]), a[1..], b);
    }
  }

  function Fresh(): Cursor { Cursor(Fill(0, SLOTS), true, 0) }

  /** Keyed entries with strictly increasing powers of two. */
  predicate Increasing(entries: seq<Entry>) {
    && (forall i :: 0 <= i < |entries| ==> entries[i].key.Some? && PowerOfTwo(entries[i].key.value))
    && (forall i, j :: 0 <= i < j < |entries| ==> entries[i].key.value < entries[j].key.value)
  }

  function SlotOf(e: Entry): nat { if e.key.Some? then KeySlot(e.key.value) else 0 }

  /** Slot b is filled by the last entry written there; below the first key by the first value;
      otherwise it stays 0. */
  predicate Holds(entries: seq<Entry>, b: nat, v: nat) {
    || (exists i :: 0 <= i < |entries| && SlotOf(entries[i]) == b && entries[i].value == v &&
          forall j :: i < j < |entries| ==> SlotOf(entries[j]) != b)
    || ((forall i :: 0 <= i < |entries| ==> SlotOf(entries[i]) != b) &&
         v == if entries != [] && b < SlotOf(entries[0]) then entries[0].value else 0)
  }

  lemma {:induction false} Log2Monotone(a: nat, b: nat)
    requires a <= b
    ensures Log2(a) <= Log2(b) && KeySlot(a) <= KeySlot(b)
  {
    if a >= 2 {
      Log2Monotone(a / 2, b / 2);
    }
  }

  lemma {:induction false} WriteAllHolds(entries: seq<Entry>, b: nat)
    requires (forall i :: 0 <= i < |entries| ==> entries[i].key.Some?) && b < SLOTS
    ensures var c := WriteAll(Fresh(), entries);
      && c.first == (entries == []) && (entries != [] ==> c.last == SlotOf(entries[|entries| - 1]))
      && Holds(entries, b, c.table[b])
    decreases |entries|
  {
    if entries == [] {
      FillAt(0, SLOTS, b);
    } else {
      var n := |entries| - 1;
      var front, e := entries[..n], entries[n];
      assert entries == front + [e];
      WriteAllHolds(front, b);
      WriteAllAppend(Fresh(), front, [e]);
      var c := WriteAll(Fresh(), front);
      assert WriteAll(c, [e]) == Write(c, e);
      WriteHolds(c, front, e, b);
    }
  }

  lemma {:induction false} FillAt(v: nat, n: nat, b: nat)
    requires b < n
    ensures Fill(v, n)[b] == v
  {
    if b > 0 {
      FillAt(v, n - 1, b - 1);
    }
  }

  lemma WriteHolds(c: Cursor, front: seq<Entry>, e: Entry, b: nat)
    requires b < SLOTS && Holds(front, b, c.table[b]) && c.first == (front == []) && e.key.Some?
    ensures Holds(front + [e], b, Write(c, e).table[b])
  {
    HoldsAppend(front, e, b, c.table[b]);
  }

  /** What one more keyed entry does to the reading of a slot. */
  lemma HoldsAppend(front: seq<Entry>, e: Entry, b: nat, v: nat)
    requires Holds(front, b, v) && b < SLOTS
    ensures SlotOf(e) == b ==> Holds(front + [e], b, e.value)
    ensures SlotOf(e) != b && (front != [] || b > SlotOf(e)) ==> Holds(front + [e], b, v)
    ensures front == [] && b < SlotOf(e) ==> Holds(front + [e], b, e.value)
  {
    var all := front + [e];
    assert all[|front|] == e && forall i :: 0 <= i < |front| ==> all[i] == front[i];
    if SlotOf(e) != b {
      if i :| 0 <= i < |front| && SlotOf(front[i]) == b && front[i].value == v && forall j :: i < j < |front| ==> SlotOf(front[j]) != b {
        assert SlotOf(all[i]) == b && all[i].value == v && forall j :: i < j < |all| ==> SlotOf(all[j]) != b;
      } else {
        assert forall i :: 0 <= i < |all| ==> SlotOf(all[i]) != b;
      }
    } else {
      assert SlotOf(all[|front|]) == b;
    }
  }

  // ------------------------------------------- writer and reader agree on the intervals

  /** 32768 MB begins the last interval; larger keys are clamped to it. */
  const TOP_KEY: nat := 32768

  predicate AtOrAbove(k: nat, size: nat) { k == 1 || Min(k, TOP_KEY) * MB <= size }

  /** The interval [k MB, 2k MB), the first one open below and the last one open above. */
  predicate InInterval(k: nat, size: nat) { AtOrAbove(k, size) && (k >= TOP_KEY || size < 2 * k * MB) }

  lemma Constants()
    ensures MB == Pow2(20) && TOP_KEY == Pow2(15) && Log2(TOP_KEY) == 15
  {
    assert Pow2(5) == 32;
    Pow2Add(5, 5);
    Pow2Add(10, 5);
    Pow2Add(10, 10);
    Log2Unique(TOP_KEY, 15);
  }

  lemma AtLeast(k: nat, size: nat)
    requires PowerOfTwo(k) && size > 0
    ensures Log2(k) + 20 <= Log2(size) <==> k * MB <= size
  {
    InMegabytes(k);
    AtLeastPow2(Log2(k) + 20, size);
  }

  lemma AtLeastPow2(a: nat, size: nat)
    requires size > 0
    ensures a <= Log2(size) <==> Pow2(a) <= size
  {
    Log2Bounds(size);
    if a <= Log2(size) {
      Pow2Monotone(a, Log2(size));
    } else {
      Pow2Monotone(Log2(size), a);
    }
  }

  lemma InMegabytes(k: nat)
    requires PowerOfTwo(k)
    ensures k * MB == Pow2(Log2(k) + 20)
  {
    PowerIsPow2(k);
    Pow2Add(Log2(k), 20);
    Constants();
  }

  lemma PowerSlot(k: nat)
    requires PowerOfTwo(k)
    ensures PowerOfTwo(Min(k, TOP_KEY)) && KeySlot(k) == Log2(Min(k, TOP_KEY)) && (KeySlot(k) == 15 <==> k >= TOP_KEY)
    ensures KeySlot(k) == 0 <==> k == 1
  {
    Constants();
    PowerIsPow2(k);
    Pow2IsPower(15);
    if k < TOP_KEY {
      if Log2(k) >= 15 {
        Pow2Monotone(15, Log2(k));
      }
    } else {
      Log2Monotone(TOP_KEY, k);
    }
  }

  /** The slot written for k MB is at or below the slot read for a size exactly when the size is at
      least k MB; it is the very slot read exactly when the size lies in k's interval. */
  lemma SlotsAgree(k: nat, size: nat)
    requires PowerOfTwo(k)
    ensures KeySlot(k) <= SizeSlot(size) <==> AtOrAbove(k, size)
    ensures KeySlot(k) == SizeSlot(size) <==> InInterval(k, size)
  {
    PowerSlot(k);
    if size > 0 {
      AtLeast(Min(k, TOP_KEY), size);
      if k < TOP_KEY {
        assert PowerOfTwo(2 * k) && Log2(2 * k) == Log2(k) + 1;
        AtLeast(2 * k, size);
      }
    }
  }

  function Listed(entries: seq<Entry>, open: Option<nat>): seq<nat> {
    WriteAll(Fresh(), WithOpen(entries, open)).table
  }

  /** The entries with a final '>' entry, if any. */
  function WithOpen(entries: seq<Entry>, open: Option<nat>): seq<Entry> {
    entries + (if open.Some? then [Entry(None, open.value)] else [])
  }

  predicate OpenApplies(entries: seq<Entry>, open: Option<nat>, size: nat)
    requires Increasing(entries)
  {
    open.Some? && (entries == [] || AtOrAbove(entries[|entries| - 1].key.value, size))
  }

  predicate LastInInterval(entries: seq<Entry>, size: nat, i: int)
    requires Increasing(entries)
  {
    && 0 <= i < |entries| && InInterval(entries[i].key.value, size)
    && forall j :: i < j < |entries| ==> !InInterval(entries[j].key.value, size)
  }

  lemma ListedSlot(entries: seq<Entry>, open: Option<nat>, b: nat)
    requires Increasing(entries) && b < SLOTS
    ensures |Listed(entries, open)| == SLOTS
    ensures open.Some? && (entries == [] || SlotOf(entries[|entries| - 1]) <= b) ==> Listed(entries, open)[b] == open.value
    ensures open.None? || (entries != [] && b < SlotOf(entries[|entries| - 1])) ==> Holds(entries, b, Listed(entries, open)[b])
  {
    WriteAllHolds(entries, b);
    var c := WriteAll(Fresh(), entries);
    if open.Some? {
      var e := Entry(None, open.value);
      WriteAllAppend(Fresh(), entries, [e]);
      assert WriteAll(c, [e]) == Write(c, e);
      assert entries == [] ==> c == Fresh();
    } else {
      assert entries + [] == entries;
    }
  }

  /** The value looked up for a size: '>' from the last listed interval upward, otherwise the value
      listed for the interval containing the size, the first value below the first interval, and 0
      in the gaps. Keys beyond the table count as its last interval, where the last one wins. */
  lemma DivisionLookup(entries: seq<Entry>, open: Option<nat>, size: nat)
    requires Increasing(entries)
    ensures |Listed(entries, open)| == SLOTS
    ensures OpenApplies(entries, open, size) ==> Lookup(Listed(entries, open), size) == open.value
    ensures forall i :: !OpenApplies(entries, open, size) && LastInInterval(entries, size, i) ==>
      Lookup(Listed(entries, open), size) == entries[i].value
    ensures !OpenApplies(entries, open, size) && (forall i :: 0 <= i < |entries| ==> !InInterval(entries[i].key.value, size)) ==>
      Lookup(Listed(entries, open), size) ==
        if entries != [] && !AtOrAbove(entries[0].key.value, size) then entries[0].value else 0
  {
    var b := SizeSlot(size);
    ListedSlot(entries, open, b);
    forall i | 0 <= i < |entries|
      ensures SlotOf(entries[i]) == b <==> InInterval(entries[i].key.value, size)
      ensures SlotOf(entries[i]) <= b <==> AtOrAbove(entries[i].key.value, size)
    {
      SlotsAgree(entries[i].key.value, size);
    }
  }
}
