/** Which devices TOPS_VISIBLE_DEVICES makes visible, and which device an index denotes. */
module Visibility {
  import opened Options
  import opened SettingsText
  import opened Text

  /** What the management library reports; a count of zero or less is a failure. */
  datatype Machine = Machine(rawCount: int, uuids: Option<seq<string>>)

  /** The variable's meaning: ordinals, UUID prefixes, or a number that cannot be converted. */
  datatype Visible = Ordinals(list: seq<nat>) | Prefixes(names: seq<string>) | BadNumber

  /** The sign and digits an element starts with: -1 if there are none, no value for a bare sign. */
  function Number(s: string): Option<int> {
    var signed := s != "" && (s[0] == '+' || s[0] == '-');
    var digits := LeadingDigits(if signed then s[1..] else s);
    if digits == "" then (if signed then None else Some(-1))
    else if s[0] == '-' then Some(0 - DecimalValue(digits)) else Some(DecimalValue(digits))
  }

  predicate Distinct<T(==)>(s: seq<T>) { forall i, j :: 0 <= i < j < |s| ==> s[i] != s[j] }

  /** Numbers are collected up to the first negative one; a repetition before it empties the list,
      a number that cannot be read raises, which leaves no result. */
  function Collect(xs: seq<Option<int>>, rc: seq<nat>): Option<seq<nat>>
    decreases |xs|
  {
    if xs == [] then Some(rc)
    else if xs[0].None? then None
    else if xs[0].value < 0 then Some(rc)
    else if xs[0].value in rc then Some([])
    else Collect(xs[1..], rc + [xs[0].value])
  }

  /** What is collected is free of repetitions and is the list up to its first negative number,
      unless it is empty. */
  lemma {:induction false} CollectFacts(all: seq<Option<int>>, rc: seq<nat>)
    requires |rc| <= |all| && Distinct(rc) && forall i :: 0 <= i < |rc| ==> all[i] == Some(rc[i])
    ensures var r := Collect(all[|rc|..], rc);
      r.Some? ==>
        && Distinct(r.value) && |r.value| <= |all| && (forall i :: 0 <= i < |r.value| ==> all[i] == Some(r.value[i]))
        && (r.value == [] || |r.value| == |all| || (all[|r.value|].Some? && all[|r.value|].value < 0))
    decreases |all| - |rc|
  {
    var xs := all[|rc|..];
    if xs != [] {
      assert xs[0] == all[|rc|] && xs[1..] == all[|rc| + 1..];
      if xs[0].Some? && xs[0].value >= 0 && xs[0].value !in rc {
        CollectFacts(all, rc + [xs[0].value]);
      }
    }
  }

  /** How many numbers at the start are readable and not negative. */
  function NumberRun(xs: seq<Option<int>>): (n: nat)
    ensures n <= |xs| && (forall i :: 0 <= i < n ==> xs[i].Some? && xs[i].value >= 0)
    ensures n < |xs| ==> xs[n].None? || xs[n].value < 0
  {
    if xs == [] || xs[0].None? || xs[0].value < 0 then 0 else 1 + NumberRun(xs[1..])
  }

  /** Exactly what is collected: nothing if a number repeats within that run; else an exception if the
      run ends at an unreadable number; else the run. */
  lemma CollectIs(xs: seq<Option<int>>)
    ensures var n := NumberRun(xs);
      Collect(xs, []) ==
        if !Distinct(xs[..n]) then Some([])
        else if n < |xs| && xs[n].None? then None
        else Some(seq(n, i requires 0 <= i < n => xs[i].value))
  {
    assert xs[0..] == xs;
    CollectFrom(xs, []);
  }

  lemma {:induction false} CollectFrom(all: seq<Option<int>>, rc: seq<nat>)
    requires |rc| <= NumberRun(all) && Distinct(rc) && forall i :: 0 <= i < |rc| ==> all[i] == Some(rc[i])
    ensures var n := NumberRun(all);
      Collect(all[|rc|..], rc) ==
        if !Distinct(all[..n]) then Some([])
        else if n < |all| && all[n].None? then None
        else Some(seq(n, i requires 0 <= i < n => all[i].value))
    decreases |all| - |rc|
  {
    var n, k := NumberRun(all), |rc|;
    if k == n {
      assert Distinct(all[..n]);
      assert rc == seq(n, i requires 0 <= i < n => all[i].value);
      if n < |all| {
        assert all[n..][0] == all[n];
      }
    } else {
      assert all[k..][0] == all[k] && all[k..][1..] == all[k + 1..];
      var x := all[k].value;
      if x in rc {
        var i :| 0 <= i < k && rc[i] == x;
        assert all[..n][i] == all[..n][k];
      } else {
        CollectFrom(all, rc + [x]);
      }
    }
  }

  function Numbers(elems: seq<string>): seq<Option<int>> {
    seq(|elems|, i requires 0 <= i < |elems| => Number(SkipBlanks(elems[i])))
  }

  /** The loop over the ordinals. */
  method ParseOrdinals(elems: seq<string>) returns (r: Option<seq<nat>>)
    ensures r == Collect(Numbers(elems), [])
  {
    var rc: seq<nat> := [];
    ghost var xs := Numbers(elems);
    assert xs[0..] == xs;
    for i := 0 to |elems|
      invariant Collect(xs[i..], rc) == Collect(xs, [])
    {
      assert xs[i..][1..] == xs[i + 1..];
      var x := Number(SkipBlanks(elems[i]));
      if x.None? {
        return None;
      }
      if x.value in rc {
        return Some([]);
      }
      if x.value < 0 {
        return Some(rc);
      }
      rc := rc + [x.value];
    }
    return Some(rc);
  }

  /** How many elements at the start have the prefix. */
  function PrefixRun(elems: seq<string>, prefix: string): (n: nat)
    ensures n <= |elems| && forall i :: 0 <= i < n ==> StartsWith(elems[i], prefix)
    ensures n < |elems| ==> !StartsWith(elems[n], prefix)
  {
    if elems == [] || !StartsWith(elems[0], prefix) then 0 else 1 + PrefixRun(elems[1..], prefix)
  }

  /** That run, unless an element repeats within it. */
  function Prefixed(elems: seq<string>, prefix: string): (r: seq<string>)
    ensures Distinct(r) && r <= elems && forall i :: 0 <= i < |r| ==> StartsWith(r[i], prefix)
  {
    var run := elems[..PrefixRun(elems, prefix)];
    if Distinct(run) then run else []
  }

  /** The elements up to the first without the prefix; a repetition empties the list. */
  method ParseListWithPrefix(elems: seq<string>, prefix: string) returns (r: seq<string>)
    ensures r == Prefixed(elems, prefix)
  {
    r := [];
    ghost var n := PrefixRun(elems, prefix);
    for i := 0 to |elems|
      invariant i <= n && r == elems[..i] && Distinct(r)
    {
      if elems[i] in r {
        ghost var k :| 0 <= k < i && elems[k] == elems[i];
        assert StartsWith(elems[k], prefix) && i < n;
        assert elems[..n][k] == elems[..n][i];
        return [];
      }
      if !StartsWith(elems[i], prefix) {
        return;
      }
      r := r + [elems[i]];
    }
  }

  // ----------------------------------------------------------------------- UUIDs

  /** Device k is the one device whose UUID starts with the candidate. */
  predicate UniqueMatch(candidate: string, uuids: seq<string>, k: int) {
    0 <= k < |uuids| && StartsWith(uuids[k], candidate) && forall i :: 0 <= i < |uuids| && i != k ==> !StartsWith(uuids[i], candidate)
  }

  function Matches(candidate: string, uuids: seq<string>, from: nat): seq<nat>
    decreases |uuids| - from
  {
    if from >= |uuids| then []
    else (if StartsWith(uuids[from], candidate) then [from] else []) + Matches(candidate, uuids, from + 1)
  }

  function Ordinal(candidate: string, uuids: seq<string>): int {
    var m := Matches(candidate, uuids, 0);
    if |m| == 1 then m[0] else -1
  }

  lemma {:induction false} MatchesFacts(candidate: string, uuids: seq<string>, from: nat)
    ensures forall k: nat :: k in Matches(candidate, uuids, from) <==> from <= k < |uuids| && StartsWith(uuids[k], candidate)
    ensures Distinct(Matches(candidate, uuids, from))
    decreases |uuids| - from
  {
    if from < |uuids| {
      MatchesFacts(candidate, uuids, from + 1);
      var rest := Matches(candidate, uuids, from + 1);
      if StartsWith(uuids[from], candidate) {
        assert from !in rest;
        assert Distinct([from] + rest);
      } else {
        assert Matches(candidate, uuids, from) == rest;
      }
    }
  }

  /** A candidate's ordinal is its unique match, and there is none otherwise. */
  lemma OrdinalIsUniqueMatch(candidate: string, uuids: seq<string>, k: nat)
    ensures Ordinal(candidate, uuids) == k <==> UniqueMatch(candidate, uuids, k)
    ensures Ordinal(candidate, uuids) >= 0 ==> UniqueMatch(candidate, uuids, Ordinal(candidate, uuids))
  {
    MatchesFacts(candidate, uuids, 0);
    var m := Matches(candidate, uuids, 0);
    if |m| == 1 {
      assert m == [m[0]] && m[0] in m;
      assert forall i: nat :: i in m <==> i == m[0];
    }
    if UniqueMatch(candidate, uuids, k) {
      assert k in m && forall i :: i in m ==> i == k;
      OnlyOne(m, k);
    }
  }

  lemma OnlyOne(m: seq<nat>, k: nat)
    requires Distinct(m) && k in m && forall i :: i in m ==> i == k
    ensures m == [k]
  {
    assert m[0] in m && m[|m| - 1] in m;
    assert m[0] == m[|m| - 1];
  }

  /** The search loop with its ambiguity test. */
  method UuidToOrdinal(candidate: string, uuids: seq<string>) returns (best: int)
    ensures best == Ordinal(candidate, uuids)
  {
    best := -1;
    for idx := 0 to |uuids|
      invariant best == -1 ==> forall i :: 0 <= i < idx ==> !StartsWith(uuids[i], candidate)
      invariant best != -1 ==> 0 <= best < idx && StartsWith(uuids[best], candidate)
      invariant best != -1 ==> forall i :: 0 <= i < idx && i != best ==> !StartsWith(uuids[i], candidate)
    {
      if StartsWith(uuids[idx], candidate) {
        if best != -1 {
          if Ordinal(candidate, uuids) >= 0 {
            OrdinalIsUniqueMatch(candidate, uuids, Ordinal(candidate, uuids));
          }
          return -1;
        }
        best := idx;
      }
    }
    if best != -1 {
      OrdinalIsUniqueMatch(candidate, uuids, best);
    } else if Ordinal(candidate, uuids) >= 0 {
      OrdinalIsUniqueMatch(candidate, uuids, Ordinal(candidate, uuids));
    }
  }

  function OrdinalsOf(candidates: seq<string>, uuids: seq<string>): seq<Option<int>> {
    seq(|candidates|, i requires 0 <= i < |candidates| => Some(Ordinal(candidates[i], uuids)))
  }

  method TransformUuidToOrdinals(candidates: seq<string>, uuids: seq<string>) returns (rc: seq<nat>)
    ensures Collect(OrdinalsOf(candidates, uuids), []) == Some(rc)
  {
    rc := [];
    ghost var xs := OrdinalsOf(candidates, uuids);
    assert xs[0..] == xs;
    for i := 0 to |candidates|
      invariant Collect(xs[i..], rc) == Collect(xs, [])
    {
      assert xs[i..][1..] == xs[i + 1..];
      var idx := UuidToOrdinal(candidates[i], uuids);
      if idx < 0 {
        return;
      }
      if idx in rc {
        return [];
      }
      rc := rc + [idx];
    }
  }

  // -------------------------------------------------------------- count and index

  /** The list of visible ordinals, before trimming to the devices present; `visible` is the parsed
      variable. */
  function VisibleOrdinals(visible: Visible, m: Machine): Option<seq<nat>> {
    match visible
    case BadNumber => None
    case Ordinals(list) => Some(list)
    case Prefixes(names) => if m.uuids.None? then None else Collect(OrdinalsOf(names, m.uuids.value), [])
  }

  /** The devices there are: those counted, or those with a UUID. */
  function Present(visible: Visible, m: Machine): nat {
    if visible.Prefixes? then (if m.uuids.Some? then |m.uuids.value| else 0) else if m.rawCount > 0 then m.rawCount else 0
  }

  /** Counting fails: MIG names, no UUIDs, or a negative raw count. */
  predicate CountFails(visible: Visible, m: Machine) {
    || (visible.Prefixes? && visible.names != [] && (StartsWith(visible.names[0], "MIG-") || m.uuids.None?))
    || (visible.Ordinals? && visible.list != [] && m.rawCount < 0)
  }

  /** The first n visible ordinals, and no more, are devices present. */
  predicate IsCount(visible: Visible, m: Machine, n: int) {
    && 0 <= n <= Visibles(visible, m)
    && (forall i :: 0 <= i < n ==> VisibleOrdinals(visible, m).value[i] < Present(visible, m))
    && (n < Visibles(visible, m) ==> VisibleOrdinals(visible, m).value[n] >= Present(visible, m))
  }

  lemma CountIsUnique(visible: Visible, m: Machine, a: int, b: int)
    requires IsCount(visible, m, a) && IsCount(visible, m, b)
    ensures a == b
  {
  }

  /** _device_count_efml: a negative result is a failure. */
  method DeviceCount(visible: Visible, m: Machine) returns (r: Option<int>)
    ensures r.None? <==> visible.BadNumber?
    ensures r.Some? ==> (r.value < 0 <==> CountFails(visible, m))
    ensures CountFails(visible, m) ==> r == Some(if visible.Prefixes? then -1 else m.rawCount)
    ensures r.Some? && !CountFails(visible, m) ==> IsCount(visible, m, r.value)
  {
    match visible
    case BadNumber => return None;
    case Prefixes(names) =>
      if names == [] {
        return Some(0);
      }
      if StartsWith(names[0], "MIG-") || m.uuids.None? {
        return Some(-1);
      }
      var list := TransformUuidToOrdinals(names, m.uuids.value);
      OrdinalsInRange(names, m.uuids.value, list);
      return Some(|list|);
    case Ordinals(list) =>
      if list == [] {
        return Some(0);
      }
      if m.rawCount <= 0 {
        return Some(m.rawCount);
      }
      for idx := 0 to |list|
        invariant forall i :: 0 <= i < idx ==> list[i] < m.rawCount
      {
        if list[idx] >= m.rawCount {
          return Some(idx);
        }
      }
      return Some(|list|);
  }

  function Visibles(visible: Visible, m: Machine): nat {
    var list := VisibleOrdinals(visible, m);
    if list.Some? then |list.value| else 0
  }

  /** _get_efml_device_index. */
  method DeviceIndex(idx: int, visible: Visible, m: Machine) returns (r: Option<nat>)
    ensures r.Some? <==> VisibleOrdinals(visible, m).Some? && 0 <= idx < |VisibleOrdinals(visible, m).value|
    ensures r.Some? ==> r.value == VisibleOrdinals(visible, m).value[idx]
  {
    match visible
    case BadNumber => return None;
    case Prefixes(names) =>
      if names == [] || m.uuids.None? {
        return None;
      }
      var list := TransformUuidToOrdinals(names, m.uuids.value);
      return if 0 <= idx < |list| then Some(list[idx]) else None;
    case Ordinals(list) =>
      return if 0 <= idx < |list| then Some(list[idx]) else None;
  }

  /** UUID ordinals are distinct unique matches of the candidates, in order. */
  lemma OrdinalsInRange(names: seq<string>, uuids: seq<string>, list: seq<nat>)
    requires Collect(OrdinalsOf(names, uuids), []) == Some(list)
    ensures Distinct(list) && |list| <= |names|
    ensures forall i :: 0 <= i < |list| ==> list[i] < |uuids| && UniqueMatch(names[i], uuids, list[i])
  {
    var all := OrdinalsOf(names, uuids);
    assert all[0..] == all;
    CollectFacts(all, []);
    forall i | 0 <= i < |list| ensures list[i] < |uuids| && UniqueMatch(names[i], uuids, list[i]) {
      assert all[i] == Some(list[i]);
      OrdinalIsUniqueMatch(names[i], uuids, list[i]);
    }
  }

  /** Distinct numbers below n are at most n many. */
  lemma {:induction false} Pigeonhole(s: seq<nat>, n: nat)
    requires Distinct(s) && forall i :: 0 <= i < |s| ==> s[i] < n
    ensures |s| <= n
    decreases n
  {
    if s != [] {
      assert s[0] < n;
      if n - 1 in s {
        var k :| 0 <= k < |s| && s[k] == n - 1;
        var rest := s[..k] + s[k + 1..];
        assert forall i :: 0 <= i < |rest| ==> rest[i] == if i < k then s[i] else s[i + 1];
        Pigeonhole(rest, n - 1);
      } else {
        assert forall i :: 0 <= i < |s| ==> s[i] in s;
        Pigeonhole(s, n - 1);
      }
    }
  }

  /** The parsed variable: unset means the first 64 devices. */
  method ParseVisibleDevices(variable: Option<string>) returns (v: Visible)
    ensures v.Ordinals? ==> Distinct(v.list)
    ensures variable.None? ==> v == Ordinals(seq(64, i => i))
    ensures v.Prefixes? <==> variable.Some? && (StartsWith(variable.value, "GCU-") || StartsWith(variable.value, "MIG-"))
    ensures v.Prefixes? ==>
      v.names == Prefixed(Pieces(variable.value), if StartsWith(variable.value, "GCU-") then "GCU-" else "MIG-")
    ensures variable.Some? && !v.Prefixes? ==>
      Collect(Numbers(Pieces(variable.value)), []) == if v.BadNumber? then None else Some(v.list)
  {
    if variable.None? {
      return Ordinals(seq(64, i => i));
    }
    var elems := Pieces(variable.value);
    if StartsWith(variable.value, "GCU-") {
      var names := ParseListWithPrefix(elems, "GCU-");
      return Prefixes(names);
    }
    if StartsWith(variable.value, "MIG-") {
      var names := ParseListWithPrefix(elems, "MIG-");
      return Prefixes(names);
    }
    var r := ParseOrdinals(elems);
    assert Numbers(elems)[0..] == Numbers(elems);
    CollectFacts(Numbers(elems), []);
    return if r.None? then BadNumber else Ordinals(r.value);
  }

  /** From the parsed variable to devices: the count never exceeds the devices present, every index
      below it denotes one of them, different indices different ones, and with UUIDs the one device
      its prefix matches. */
  method VisibleDevices(visible: Visible, m: Machine) returns (count: int, devices: seq<nat>)
    requires visible.Ordinals? ==> Distinct(visible.list)
    ensures visible.BadNumber? || CountFails(visible, m) <==> count < 0
    ensures count < 0 ==> devices == []
    ensures count >= 0 ==> IsCount(visible, m, count) && devices == Counted(visible, m, count)
    ensures count <= Present(visible, m) && DevicesOk(visible, m, devices)
  {
    var c := DeviceCount(visible, m);
    devices := [];
    if c.None? || c.value < 0 {
      return if c.None? then -1 else c.value, [];
    }
    count := c.value;
    ghost var list := Counted(visible, m, Visibles(visible, m));
    for i := 0 to count
      invariant devices == list[..i]
    {
      var d := DeviceIndex(i, visible, m);
      devices := devices + [d.value];
    }
    CountedFacts(visible, m, count);
  }

  /** The first n visible ordinals. */
  function Counted(visible: Visible, m: Machine, n: nat): seq<nat>
    requires n <= Visibles(visible, m)
  {
    if n == 0 then [] else VisibleOrdinals(visible, m).value[..n]
  }

  /** Different present devices, and with UUIDs the one device each prefix matches. */
  predicate DevicesOk(visible: Visible, m: Machine, devices: seq<nat>) {
    && Distinct(devices) && (forall i :: 0 <= i < |devices| ==> devices[i] < Present(visible, m))
    && (visible.Ordinals? ==> devices <= visible.list)
    && (visible.Prefixes? ==> |devices| <= |visible.names| && forall i :: 0 <= i < |devices| ==>
          m.uuids.Some? && UniqueMatch(visible.names[i], m.uuids.value, devices[i]))
  }

  lemma CountedFacts(visible: Visible, m: Machine, n: nat)
    requires IsCount(visible, m, n) && (visible.Ordinals? ==> Distinct(visible.list))
    ensures n <= Present(visible, m) && DevicesOk(visible, m, Counted(visible, m, n))
  {
    if n > 0 {
      if visible.Prefixes? {
        OrdinalsInRange(visible.names, m.uuids.value, VisibleOrdinals(visible, m).value);
      }
      Pigeonhole(Counted(visible, m, n), Present(visible, m));
    }
  }
}
