/** The caching allocator's settings string: which strings are accepted and what state they leave,
    whether accepted or rejected midway. */
module AllocatorConfig {
  import opened Options
  import opened Shapes
  import opened SettingsText
  import opened DivisionTable

  const LARGE_BUFFER: nat := 20971520
  const MAX_SIZE: nat := 0xFFFF_FFFF_FFFF_FFFF
  const MAX_THREADS: nat := 128

  const MAX_SPLIT := "max_split_size_mb"
  const THRESHOLD := "garbage_collection_threshold"
  const DIVISIONS := "roundup_power2_divisions"
  const BACKEND := "backend"
  const EXPANDABLE := "expandable_segments"
  const RELEASE_LOCK := "release_lock_on_topsmalloc"
  const HOST_REGISTER := "pinned_use_gcu_host_register"
  const THREADS := "pinned_num_register_threads"

  datatype RawSettings = Settings(
    maxSplit: nat, divisions: seq<nat>, threshold: real,
    threads: nat, expandable: bool, releaseLock: bool, hostRegister: bool, last: string)

  type Settings = s: RawSettings | |s.divisions| == SLOTS
    witness Settings(MAX_SIZE, Fill(0, SLOTS), 0.0, 1, false, false, false, "")

  /** The surroundings: the name of the running backend and std::stod. */
  datatype Env = Env(backend: string, stod: string -> Option<real>)

  /** Rejected by a check, or a read past the end of the token list. */
  datatype Status = Accepted | Rejected | OutOfBounds

  /** What parsing a token list leaves: the settings and the tokens not yet read. */
  datatype Parsed = Parsed(status: Status, s: Settings, rest: seq<string>)

  /** The same for a division list, which touches only the table. */
  datatype ListParsed = ListParsed(status: Status, c: Cursor, rest: seq<string>)

  // ------------------------------------------------------- the grammar on token suffixes

  function Truth(v: string): Option<bool> {
    if v == "True" then Some(true) else if v == "False" then Some(false) else None
  }

  function Power(text: string): Option<nat> {
    match StoiAsSize(text)
    case None => None
    case Some(n) => if PowerOfTwo(n) then Some(n) else None
  }

  datatype Kind =
    | MaxSplitOption | ThresholdOption | DivisionsOption | BackendOption
    | ExpandableOption | ReleaseLockOption | HostRegisterOption | ThreadsOption | Unrecognized

  function KindOf(name: string): Kind {
    if name == MAX_SPLIT then MaxSplitOption
    else if name == THRESHOLD then ThresholdOption
    else if name == DIVISIONS then DivisionsOption
    else if name == BACKEND then BackendOption
    else if name == EXPANDABLE then ExpandableOption
    else if name == RELEASE_LOCK then ReleaseLockOption
    else if name == HOST_REGISTER then HostRegisterOption
    else if name == THREADS then ThreadsOption
    else Unrecognized
  }

  function SplitSize(v: string): Option<nat> {
    match StoiAsSize(v)
    case None => None
    case Some(n) => if n > LARGE_BUFFER / MB then Some(Min(n, MAX_SIZE / MB) * MB) else None
  }

  function ThreadCount(v: string): Option<nat> {
    match Power(v)
    case None => None
    case Some(n) => if n <= MAX_THREADS then Some(n) else None
  }

  function Fraction(e: Env, v: string): Option<real> {
    match e.stod(v)
    case None => None
    case Some(x) => if 0.0 < x < 1.0 then Some(x) else None
  }

  /** An option with one value. */
  function SetValue(e: Env, s: Settings, kind: Kind, v: string): Option<Settings> {
    match kind
    case MaxSplitOption => var n := SplitSize(v); if n.Some? then Some(s.(maxSplit := n.value)) else None
    case ThresholdOption => var x := Fraction(e, v); if x.Some? then Some(s.(threshold := x.value)) else None
    case DivisionsOption =>
      var n := Power(v); if n.Some? then Some(s.(divisions := FillRange(s.divisions, 0, SLOTS, n.value))) else None
    case BackendOption => if (v == "native" || v == "topsMallocAsync") && v == e.backend then Some(s) else None
    case ExpandableOption => var b := Truth(v); if b.Some? then Some(s.(expandable := b.value)) else None
    case ReleaseLockOption => var b := Truth(v); if b.Some? then Some(s.(releaseLock := b.value)) else None
    case HostRegisterOption => var b := Truth(v); if b.Some? then Some(s.(hostRegister := b.value)) else None
    case ThreadsOption => var n := ThreadCount(v); if n.Some? then Some(s.(threads := n.value)) else None
    case Unrecognized => None
  }

  /** One key:value pair of a division list. */
  function ReadEntry(key: string, value: string): Option<Entry> {
    match Power(value)
    case None => None
    case Some(v) =>
      if key == ">" then Some(Entry(None, v))
      else
        match Stoul(key)
        case None => None
        case Some(k) => if PowerOfTwo(k) then Some(Entry(Some(k), v)) else None
  }

  /** The entries of a division list; `ts` starts after the bracket or a comma. A list that ends
      with the tokens is accepted after the bracket or a comma, and read past its end after a pair. */
  function ParseList(ts: seq<string>, c: Cursor): ListParsed
    decreases |ts|
  {
    if ts == [] then ListParsed(Accepted, c, [])
    else if ts[0] == "]" then ListParsed(Accepted, c, ts[1..])
    else if |ts| < 3 || ts[1] != ":" then ListParsed(Rejected, c, ts)
    else
      match ReadEntry(ts[0], ts[2])
      case None => ListParsed(Rejected, c, ts)
      case Some(entry) =>
        var next := Write(c, entry);
        if |ts| == 3 then ListParsed(OutOfBounds, next, [])
        else if ts[3] == "]" then ListParsed(Accepted, next, ts[4..])
        else if ts[3] == "," then ParseList(ts[4..], next)
        else ListParsed(Rejected, next, ts[3..])
  }

  function ParseKind(e: Env, s: Settings, kind: Kind, ts: seq<string>): Parsed {
    if |ts| < 3 || ts[1] != ":" then Parsed(Rejected, s, ts)
    else if kind.DivisionsOption? && ts[2] == "[" then
      var list := ParseList(ts[3..], Cursor(s.divisions, true, 0));
      Parsed(list.status, s.(divisions := list.c.table), list.rest)
    else
      FromValue(SetValue(e, s, kind, ts[2]), s, ts)
  }

  function FromValue(r: Option<Settings>, s: Settings, ts: seq<string>): Parsed
    requires |ts| >= 3
  {
    if r.Some? then Parsed(Accepted, r.value, ts[3..]) else Parsed(Rejected, s, ts)
  }

  function ParseOption(e: Env, s: Settings, ts: seq<string>): Parsed
    requires ts != []
  {
    ParseKind(e, s, KindOf(ts[0]), ts)
  }

  lemma {:induction false} ListShrinks(ts: seq<string>, c: Cursor)
    ensures |ParseList(ts, c).rest| <= |ts|
    decreases |ts|
  {
    if |ts| > 3 && ts[3] == "," && ReadEntry(ts[0], ts[2]).Some? {
      ListShrinks(ts[4..], Write(c, ReadEntry(ts[0], ts[2]).value));
    }
  }

  /** Readable key:value pairs, separated by commas, that end after a value. */
  predicate OpenPairs(ts: seq<string>) {
    && |ts| >= 3 && ts[0] != "]" && ts[1] == ":" && ReadEntry(ts[0], ts[2]).Some?
    && (|ts| == 3 || (ts[3] == "," && OpenPairs(ts[4..])))
  }

  /** Exactly such a list is read past the end of the tokens. */
  lemma {:induction false} ListOverrunsIff(ts: seq<string>, c: Cursor)
    ensures ParseList(ts, c).status.OutOfBounds? <==> OpenPairs(ts)
    decreases |ts|
  {
    if |ts| > 3 && ts[0] != "]" && ts[1] == ":" && ts[3] == "," && ReadEntry(ts[0], ts[2]).Some? {
      ListOverrunsIff(ts[4..], Write(c, ReadEntry(ts[0], ts[2]).value));
    }
  }

  lemma BracketIsNoNumber(key: string)
    ensures ReadEntry(key, "]").None?
  {
    assert SkipBlanks("]") == "]" && LeadingDigits("]") == "";
  }

  /** The read past the end needs a list that is never closed. */
  lemma {:induction false} ClosedListStaysInside(ts: seq<string>, c: Cursor)
    requires "]" in ts
    ensures !ParseList(ts, c).status.OutOfBounds?
    decreases |ts|
  {
    if |ts| >= 3 && ts[0] != "]" && ts[1] == ":" {
      BracketIsNoNumber(ts[0]);
      var x := ReadEntry(ts[0], ts[2]);
      if x.Some? {
        assert ts == [ts[0], ts[1], ts[2]] + ts[3..];
        assert "]" in ts[3..];
        if ts[3] == "," {
          assert ts[3..] == [ts[3]] + ts[4..];
          ClosedListStaysInside(ts[4..], Write(c, x.value));
        }
      }
    }
  }

  /** Options separated by commas; a trailing comma is accepted. */
  function ParseAll(e: Env, s: Settings, ts: seq<string>): Parsed
    decreases |ts|
  {
    if ts == [] then Parsed(Accepted, s, [])
    else
      var p := ParseOption(e, s, ts);
      if !p.status.Accepted? || p.rest == [] then p
      else if p.rest[0] != "," then p.(status := Rejected)
      else if |p.rest| < |ts| then ParseAll(e, p.s, p.rest[1..])
      else p
  }

  /** parseArgs: part of the state is reset first, whatever the outcome. */
  function Reset(s: Settings): Settings {
    s.(maxSplit := MAX_SIZE, divisions := Fill(0, SLOTS), threshold := 0.0)
  }

  function ApplyString(e: Env, s: Settings, env: Option<string>): Parsed {
    match env
    case None => Parsed(Accepted, Reset(s), [])
    case Some(text) => ParseAll(e, Reset(s).(last := text), Lex(text))
  }

  // ----------------------------------------------------- what holds in every reachable state

  predicate TableOk(t: seq<nat>) {
    |t| == SLOTS && forall i :: 0 <= i < |t| ==> t[i] == 0 || PowerOfTwo(t[i])
  }

  /** The split size is unlimited or a whole number of MB above the large buffer that fits a word. */
  predicate SplitOk(n: nat) { n == MAX_SIZE || (n % MB == 0 && LARGE_BUFFER < n <= MAX_SIZE) }

  predicate Valid(s: Settings) {
    && TableOk(s.divisions) && SplitOk(s.maxSplit) && 0.0 <= s.threshold < 1.0
    && PowerOfTwo(s.threads) && s.threads <= MAX_THREADS
  }

  lemma SplitSizeFits(v: string)
    requires SplitSize(v).Some?
    ensures SplitOk(SplitSize(v).value)
  {
    var m := Min(StoiAsSize(v).value, MAX_SIZE / MB);
    assert 21 <= m <= 17592186044415;
    assert (m * MB) % MB == 0;
  }

  lemma SetValueKeepsValid(e: Env, s: Settings, kind: Kind, v: string)
    requires Valid(s) && SetValue(e, s, kind, v).Some?
    ensures Valid(SetValue(e, s, kind, v).value)
  {
    if kind.MaxSplitOption? {
      SplitSizeFits(v);
    }
  }

  lemma WriteKeepsTable(c: Cursor, x: Entry)
    requires TableOk(c.table) && PowerOfTwo(x.value)
    ensures TableOk(Write(c, x).table)
  {
  }

  lemma {:induction false} ListKeepsTable(ts: seq<string>, c: Cursor)
    requires TableOk(c.table)
    ensures TableOk(ParseList(ts, c).c.table)
    decreases |ts|
  {
    if |ts| >= 3 && ReadEntry(ts[0], ts[2]).Some? {
      var x := ReadEntry(ts[0], ts[2]).value;
      WriteKeepsTable(c, x);
      if |ts| > 3 && ts[3] == "," {
        ListKeepsTable(ts[4..], Write(c, x));
      }
    }
  }

  lemma OptionKeepsValid(e: Env, s: Settings, ts: seq<string>)
    requires Valid(s) && ts != []
    ensures Valid(ParseOption(e, s, ts).s)
  {
    if |ts| >= 3 {
      ListKeepsTable(ts[3..], Cursor(s.divisions, true, 0));
      if SetValue(e, s, KindOf(ts[0]), ts[2]).Some? {
        SetValueKeepsValid(e, s, KindOf(ts[0]), ts[2]);
      }
    }
  }

  lemma {:induction false} AllKeepsValid(e: Env, s: Settings, ts: seq<string>)
    requires Valid(s)
    ensures Valid(ParseAll(e, s, ts).s)
    decreases |ts|
  {
    if ts != [] {
      OptionKeepsValid(e, s, ts);
      var p := ParseOption(e, s, ts);
      if p.status.Accepted? && p.rest != [] && p.rest[0] == "," && |p.rest| < |ts| {
        AllKeepsValid(e, p.s, p.rest[1..]);
      }
    }
  }

  /** The progress test in ParseAll never fails. */
  lemma OptionAdvances(e: Env, s: Settings, ts: seq<string>)
    requires ts != [] && ParseOption(e, s, ts).status.Accepted?
    ensures |ParseOption(e, s, ts).rest| + 3 <= |ts|
  {
    ListShrinks(ts[3..], Cursor(s.divisions, true, 0));
  }

  function Initial(): Settings { Settings(MAX_SIZE, Fill(0, SLOTS), 0.0, 1, false, false, false, "") }

  /** A run of settings strings, accepted or not. */
  function AfterStrings(e: Env, s: Settings, strings: seq<Option<string>>): Settings
    decreases |strings|
  {
    if strings == [] then s else AfterStrings(e, ApplyString(e, s, strings[0]).s, strings[1..])
  }

  lemma ZeroTable()
    ensures TableOk(Fill(0, SLOTS))
  {
    forall i | 0 <= i < SLOTS ensures Fill(0, SLOTS)[i] == 0 {
      FillAt(0, SLOTS, i);
    }
  }

  lemma {:induction false} StringsKeepValid(e: Env, s: Settings, strings: seq<Option<string>>)
    requires Valid(s)
    ensures Valid(AfterStrings(e, s, strings))
    decreases |strings|
  {
    if strings != [] {
      ArgsKeepValid(e, s, strings[0]);
      StringsKeepValid(e, ApplyString(e, s, strings[0]).s, strings[1..]);
    }
  }

  /** Every state reachable by any sequence of strings, accepted or rejected midway. */
  lemma ReachableIsValid(e: Env, strings: seq<Option<string>>)
    ensures Valid(AfterStrings(e, Initial(), strings))
  {
    ZeroTable();
    StringsKeepValid(e, Initial(), strings);
  }

  // ------------------------------------------------- what a string determines by itself

  predicate SameReset(a: Settings, b: Settings) {
    a.maxSplit == b.maxSplit && a.divisions == b.divisions && a.threshold == b.threshold && a.last == b.last
  }

  /** From two starting values a flag is either kept in both runs or set to the same value in both,
      and kept unless its option is named. */
  predicate KeptOrSet<T(==)>(a1: T, a2: T, b1: T, b2: T, named: bool) {
    (named && b1 == b2) || (b1 == a1 && b2 == a2)
  }

  /** Which of the flags that survive a reset are named. */
  datatype Names = Names(threads: bool, expandable: bool, releaseLock: bool, hostRegister: bool)

  function NamesIn(ts: seq<string>): Names {
    Names(THREADS in ts, EXPANDABLE in ts, RELEASE_LOCK in ts, HOST_REGISTER in ts)
  }

  predicate Coupled(n: Names, a1: Settings, a2: Settings, b1: Settings, b2: Settings) {
    && SameReset(b1, b2)
    && KeptOrSet(a1.threads, a2.threads, b1.threads, b2.threads, n.threads)
    && KeptOrSet(a1.expandable, a2.expandable, b1.expandable, b2.expandable, n.expandable)
    && KeptOrSet(a1.releaseLock, a2.releaseLock, b1.releaseLock, b2.releaseLock, n.releaseLock)
    && KeptOrSet(a1.hostRegister, a2.hostRegister, b1.hostRegister, b2.hostRegister, n.hostRegister)
  }

  predicate SameOutcome(p1: Parsed, p2: Parsed) { p1.status == p2.status && p1.rest == p2.rest }

  function NamesOf(kind: Kind): Names {
    Names(kind.ThreadsOption?, kind.ExpandableOption?, kind.ReleaseLockOption?, kind.HostRegisterOption?)
  }

  predicate Within(m: Names, n: Names) {
    && (m.threads ==> n.threads) && (m.expandable ==> n.expandable)
    && (m.releaseLock ==> n.releaseLock) && (m.hostRegister ==> n.hostRegister)
  }

  lemma NameIsListed(ts: seq<string>)
    requires ts != []
    ensures Within(NamesOf(KindOf(ts[0])), NamesIn(ts))
  {
    assert ts[0] in ts;
  }

  lemma SetValueCoupled(e: Env, s1: Settings, s2: Settings, kind: Kind, v: string)
    requires SameReset(s1, s2)
    ensures var r1, r2 := SetValue(e, s1, kind, v), SetValue(e, s2, kind, v);
      && r1.Some? == r2.Some?
      && (r1.Some? ==> Coupled(NamesOf(kind), s1, s2, r1.value, r2.value))
  {
  }

  lemma TableCoupled(n: Names, s1: Settings, s2: Settings, c: Cursor)
    requires SameReset(s1, s2)
    ensures Coupled(n, s1, s2, s1, s2) && Coupled(n, s1, s2, s1.(divisions := c.table), s2.(divisions := c.table))
  {
  }

  lemma FromValueCoupled(n: Names, r1: Option<Settings>, r2: Option<Settings>, s1: Settings, s2: Settings, ts: seq<string>)
    requires SameReset(s1, s2) && |ts| >= 3 && r1.Some? == r2.Some? && (r1.Some? ==> Coupled(n, s1, s2, r1.value, r2.value))
    ensures SameOutcome(FromValue(r1, s1, ts), FromValue(r2, s2, ts))
    ensures Coupled(n, s1, s2, FromValue(r1, s1, ts).s, FromValue(r2, s2, ts).s)
  {
    TableCoupled(n, s1, s2, Fresh());
  }

  lemma KindCoupled(e: Env, s1: Settings, s2: Settings, kind: Kind, ts: seq<string>)
    requires SameReset(s1, s2)
    ensures SameOutcome(ParseKind(e, s1, kind, ts), ParseKind(e, s2, kind, ts))
    ensures Coupled(NamesOf(kind), s1, s2, ParseKind(e, s1, kind, ts).s, ParseKind(e, s2, kind, ts).s)
  {
    var n := NamesOf(kind);
    if |ts| < 3 || ts[1] != ":" {
      TableCoupled(n, s1, s2, Fresh());
    } else if kind.DivisionsOption? && ts[2] == "[" {
      TableCoupled(n, s1, s2, ParseList(ts[3..], Cursor(s1.divisions, true, 0)).c);
    } else {
      SetValueCoupled(e, s1, s2, kind, ts[2]);
      FromValueCoupled(n, SetValue(e, s1, kind, ts[2]), SetValue(e, s2, kind, ts[2]), s1, s2, ts);
    }
  }

  lemma CoupledWiden(m: Names, n: Names, a1: Settings, a2: Settings, b1: Settings, b2: Settings)
    requires Coupled(m, a1, a2, b1, b2) && Within(m, n)
    ensures Coupled(n, a1, a2, b1, b2)
  {
  }

  lemma CoupledChain(n: Names, a1: Settings, a2: Settings, b1: Settings, b2: Settings, c1: Settings, c2: Settings)
    requires Coupled(n, a1, a2, b1, b2) && Coupled(n, b1, b2, c1, c2)
    ensures Coupled(n, a1, a2, c1, c2)
  {
  }

  lemma NamesShrink(e: Env, s: Settings, ts: seq<string>)
    requires ts != [] && ParseOption(e, s, ts).rest != []
    ensures Within(NamesIn(ParseOption(e, s, ts).rest[1..]), NamesIn(ts))
  {
    OptionRestIn(e, s, ts);
  }

  lemma {:induction false} AllCoupled(e: Env, s1: Settings, s2: Settings, ts: seq<string>)
    requires SameReset(s1, s2)
    ensures SameOutcome(ParseAll(e, s1, ts), ParseAll(e, s2, ts))
    ensures Coupled(NamesIn(ts), s1, s2, ParseAll(e, s1, ts).s, ParseAll(e, s2, ts).s)
    decreases |ts|
  {
    if ts != [] {
      var n := NamesIn(ts);
      var p1, p2 := ParseOption(e, s1, ts), ParseOption(e, s2, ts);
      KindCoupled(e, s1, s2, KindOf(ts[0]), ts);
      NameIsListed(ts);
      CoupledWiden(NamesOf(KindOf(ts[0])), n, s1, s2, p1.s, p2.s);
      if p1.status.Accepted? && p1.rest != [] && p1.rest[0] == "," && |p1.rest| < |ts| {
        var more := p1.rest[1..];
        var q1, q2 := ParseAll(e, p1.s, more), ParseAll(e, p2.s, more);
        AllCoupled(e, p1.s, p2.s, more);
        NamesShrink(e, s1, ts);
        CoupledWiden(NamesIn(more), n, p1.s, p2.s, q1.s, q2.s);
        CoupledChain(n, s1, s2, p1.s, p2.s, q1.s, q2.s);
        assert ParseAll(e, s1, ts) == q1 && ParseAll(e, s2, ts) == q2;
      }
    }
  }

  lemma {:induction false} ListRestIn(ts: seq<string>, c: Cursor)
    ensures forall t :: t in ParseList(ts, c).rest ==> t in ts
    decreases |ts|
  {
    if |ts| > 3 && ts[3] == "," && ReadEntry(ts[0], ts[2]).Some? {
      ListRestIn(ts[4..], Write(c, ReadEntry(ts[0], ts[2]).value));
    }
  }

  lemma OptionRestIn(e: Env, s: Settings, ts: seq<string>)
    requires ts != []
    ensures forall t :: t in ParseOption(e, s, ts).rest ==> t in ts
  {
    if |ts| >= 3 {
      ListRestIn(ts[3..], Cursor(s.divisions, true, 0));
    }
  }

  /** An option that was accepted, with its value token. */
  datatype ReadOption = ReadOption(kind: Kind, value: string)

  /** The options of a token list that are accepted before it ends or is refused. */
  function OptionsRead(e: Env, ts: seq<string>): seq<ReadOption>
    decreases |ts|
  {
    if |ts| < 3 then []
    else
      var p := ParseOption(e, Initial(), ts);
      var more := if p.rest != [] && p.rest[0] == "," && |p.rest| < |ts| then OptionsRead(e, p.rest[1..]) else [];
      if p.status.Accepted? then [ReadOption(KindOf(ts[0]), ts[2])] + more else []
  }

  /** The value given last for an option. */
  function LastValue(read: seq<ReadOption>, kind: Kind): Option<string> {
    if read == [] then None
    else
      var later := LastValue(read[1..], kind);
      if later.Some? then later else if read[0].kind == kind then Some(read[0].value) else None
  }

  function Given<T>(o: Option<T>, otherwise: T): T { if o.Some? then o.value else otherwise }

  /** A flag has the value given last for it, or its old one if none was. */
  predicate FlagFollows<T(==)>(read: seq<ReadOption>, kind: Kind, parse: string -> Option<T>, a: T, b: T) {
    var v := LastValue(read, kind);
    b == if v.None? then a else Given(parse(v.value), a)
  }

  predicate FlagsFollow(read: seq<ReadOption>, a: Settings, b: Settings) {
    && FlagFollows(read, ThreadsOption, ThreadCount, a.threads, b.threads)
    && FlagFollows(read, ExpandableOption, Truth, a.expandable, b.expandable)
    && FlagFollows(read, ReleaseLockOption, Truth, a.releaseLock, b.releaseLock)
    && FlagFollows(read, HostRegisterOption, Truth, a.hostRegister, b.hostRegister)
  }

  predicate SameFlags(a: Settings, b: Settings) {
    a.threads == b.threads && a.expandable == b.expandable && a.releaseLock == b.releaseLock && a.hostRegister == b.hostRegister
  }

  /** What one option does to the flags. */
  predicate FlagsSet(kind: Kind, v: string, a: Settings, b: Settings) {
    && (if kind.ThreadsOption? then ThreadCount(v) == Some(b.threads) else b.threads == a.threads)
    && (if kind.ExpandableOption? then Truth(v) == Some(b.expandable) else b.expandable == a.expandable)
    && (if kind.ReleaseLockOption? then Truth(v) == Some(b.releaseLock) else b.releaseLock == a.releaseLock)
    && (if kind.HostRegisterOption? then Truth(v) == Some(b.hostRegister) else b.hostRegister == a.hostRegister)
  }

  lemma KindSetsFlags(e: Env, s: Settings, kind: Kind, ts: seq<string>)
    ensures var p := ParseKind(e, s, kind, ts);
      if p.status.Accepted? then |ts| >= 3 && FlagsSet(kind, ts[2], s, p.s) else SameFlags(s, p.s)
  {
  }

  /** Acceptance and what is left to read do not depend on the state. */
  lemma OutcomeAnywhere(e: Env, s: Settings, ts: seq<string>)
    requires ts != []
    ensures SameOutcome(ParseOption(e, s, ts), ParseOption(e, Initial(), ts))
  {
    if |ts| >= 3 {
      ListIndependent(ts[3..], Cursor(s.divisions, true, 0), Cursor(Initial().divisions, true, 0));
      ReadableAnywhere(e, s, KindOf(ts[0]), ts[2]);
    }
  }

  lemma FlagFollowsFirst<T>(r: ReadOption, rest: seq<ReadOption>, kind: Kind, parse: string -> Option<T>, a: T, b: T, c: T)
    requires FlagFollows(rest, kind, parse, b, c) && (if r.kind == kind then parse(r.value) == Some(b) else b == a)
    requires forall x :: x in rest && x.kind == kind ==> parse(x.value).Some?
    ensures FlagFollows([r] + rest, kind, parse, a, c)
  {
    assert ([r] + rest)[1..] == rest;
    LastIsRead(rest, kind);
  }

  lemma FollowFirst(r: ReadOption, rest: seq<ReadOption>, a: Settings, b: Settings, c: Settings)
    requires FlagsSet(r.kind, r.value, a, b) && FlagsFollow(rest, b, c)
    requires forall x :: x in rest ==> Sensible(x)
    ensures FlagsFollow([r] + rest, a, c) && Sensible(r)
  {
    FlagFollowsFirst(r, rest, ThreadsOption, ThreadCount, a.threads, b.threads, c.threads);
    FlagFollowsFirst(r, rest, ExpandableOption, Truth, a.expandable, b.expandable, c.expandable);
    FlagFollowsFirst(r, rest, ReleaseLockOption, Truth, a.releaseLock, b.releaseLock, c.releaseLock);
    FlagFollowsFirst(r, rest, HostRegisterOption, Truth, a.hostRegister, b.hostRegister, c.hostRegister);
  }

  /** The value of a flag is one. */
  predicate Sensible(r: ReadOption) {
    && (r.kind.ThreadsOption? ==> ThreadCount(r.value).Some?)
    && (r.kind.ExpandableOption? || r.kind.ReleaseLockOption? || r.kind.HostRegisterOption? ==> Truth(r.value).Some?)
  }

  lemma {:induction false} LastIsRead(read: seq<ReadOption>, kind: Kind)
    ensures LastValue(read, kind).Some? ==> ReadOption(kind, LastValue(read, kind).value) in read
  {
    if read != [] {
      LastIsRead(read[1..], kind);
    }
  }

  lemma {:induction false} AllFlagsFollow(e: Env, s: Settings, ts: seq<string>)
    ensures FlagsFollow(OptionsRead(e, ts), s, ParseAll(e, s, ts).s)
    ensures forall x :: x in OptionsRead(e, ts) ==> Sensible(x)
    decreases |ts|
  {
    if ts != [] {
      KindSetsFlags(e, s, KindOf(ts[0]), ts);
      OutcomeAnywhere(e, s, ts);
      AllRound(e, s, ts);
      var p := ParseOption(e, s, ts);
      if p.status.Accepted? {
        OptionAdvances(e, s, ts);
        var r := ReadOption(KindOf(ts[0]), ts[2]);
        if p.rest != [] && p.rest[0] == "," {
          AllFlagsFollow(e, p.s, p.rest[1..]);
          FollowFirst(r, OptionsRead(e, p.rest[1..]), s, p.s, ParseAll(e, p.s, p.rest[1..]).s);
        } else {
          FollowFirst(r, [], s, p.s, p.s);
        }
      }
    }
  }

  /** The outcome of a settings string and the fields it resets depend on the string alone; every
      other flag has the value the string gave it last, if it was read that far, and else its old
      one, which is so whenever the string does not name it. */
  lemma StringDeterminesOutcome(e: Env, s1: Settings, s2: Settings, text: string)
    ensures SameOutcome(ApplyString(e, s1, Some(text)), ApplyString(e, s2, Some(text)))
    ensures FlagsFollow(OptionsRead(e, Lex(text)), s1, ApplyString(e, s1, Some(text)).s)
    ensures forall x :: x in OptionsRead(e, Lex(text)) ==> Sensible(x)
    ensures Coupled(NamesIn(Lex(text)), s1, s2, ApplyString(e, s1, Some(text)).s, ApplyString(e, s2, Some(text)).s)
    ensures ApplyString(e, s1, Some(text)).s.last == text
  {
    AllCoupled(e, Reset(s1).(last := text), Reset(s2).(last := text), Lex(text));
    AllFlagsFollow(e, Reset(s1).(last := text), Lex(text));
    LastKept(e, Reset(s1).(last := text), Lex(text));
  }

  lemma KindKeepsLast(e: Env, s: Settings, kind: Kind, ts: seq<string>)
    ensures ParseKind(e, s, kind, ts).s.last == s.last
  {
  }

  lemma {:induction false} LastKept(e: Env, s: Settings, ts: seq<string>)
    ensures ParseAll(e, s, ts).s.last == s.last
    decreases |ts|
  {
    if ts != [] {
      KindKeepsLast(e, s, KindOf(ts[0]), ts);
      AllRound(e, s, ts);
      var p := ParseOption(e, s, ts);
      if p.status.Accepted? && p.rest != [] && p.rest[0] == "," {
        OptionAdvances(e, s, ts);
        LastKept(e, p.s, p.rest[1..]);
      }
    }
  }

  // ------------------------------------------------------------------- the read past the end

  predicate Readable(e: Env, kind: Kind, v: string) { SetValue(e, Initial(), kind, v).Some? }

  /** Accepted options, each followed by a comma, and then a division list that is left open after
      a value. */
  predicate Overruns(e: Env, ts: seq<string>)
    decreases |ts|
  {
    && |ts| >= 3 && ts[1] == ":"
    && if KindOf(ts[0]).DivisionsOption? && ts[2] == "[" then
         var list := ParseList(ts[3..], Fresh());
         OpenPairs(ts[3..]) ||
         (list.status.Accepted? && list.rest != [] && list.rest[0] == "," && |list.rest| <= |ts| && Overruns(e, list.rest[1..]))
       else Readable(e, KindOf(ts[0]), ts[2]) && |ts| > 3 && ts[3] == "," && Overruns(e, ts[4..])
  }

  lemma {:induction false} ListIndependent(ts: seq<string>, c: Cursor, d: Cursor)
    ensures ParseList(ts, c).status == ParseList(ts, d).status && ParseList(ts, c).rest == ParseList(ts, d).rest
    decreases |ts|
  {
    if |ts| > 3 && ts[3] == "," && ReadEntry(ts[0], ts[2]).Some? {
      var x := ReadEntry(ts[0], ts[2]).value;
      ListIndependent(ts[4..], Write(c, x), Write(d, x));
    }
  }

  lemma ReadableAnywhere(e: Env, s: Settings, kind: Kind, v: string)
    ensures SetValue(e, s, kind, v).Some? <==> Readable(e, kind, v)
  {
  }

  /** What one option contributes to an overrun. */
  lemma OptionOverruns(e: Env, s: Settings, ts: seq<string>)
    requires ts != []
    ensures var p := ParseOption(e, s, ts);
      && (p.status.Accepted? ==> |p.rest| + 3 <= |ts|)
      && (Overruns(e, ts) <==> p.status.OutOfBounds? || (p.status.Accepted? && p.rest != [] && p.rest[0] == "," && Overruns(e, p.rest[1..])))
  {
    if |ts| >= 3 {
      var c := Cursor(s.divisions, true, 0);
      ListOverrunsIff(ts[3..], c);
      ListIndependent(ts[3..], c, Fresh());
      ListShrinks(ts[3..], c);
      ReadableAnywhere(e, s, KindOf(ts[0]), ts[2]);
      if |ts| > 3 {
        assert ts[3..][0] == ts[3] && ts[3..][1..] == ts[4..];
      }
    }
  }

  lemma {:induction false} AllOverrunsIff(e: Env, s: Settings, ts: seq<string>)
    ensures ParseAll(e, s, ts).status.OutOfBounds? <==> Overruns(e, ts)
    decreases |ts|
  {
    if ts != [] {
      OptionOverruns(e, s, ts);
      AllRound(e, s, ts);
      var p := ParseOption(e, s, ts);
      if p.status.Accepted? && p.rest != [] && p.rest[0] == "," {
        AllOverrunsIff(e, p.s, p.rest[1..]);
      }
    }
  }

  /** A settings string makes the parser read past its tokens exactly when they are accepted options
      and then a division list left open after a value; the state before does not matter. */
  lemma StringOverrunsIff(e: Env, s: Settings, text: string)
    ensures ApplyString(e, s, Some(text)).status.OutOfBounds? <==> Overruns(e, Lex(text))
  {
    AllOverrunsIff(e, Reset(s).(last := text), Lex(text));
  }

  /** Such a string, for every state and backend. */
  lemma UnclosedListOverruns(e: Env, s: Settings)
    ensures ApplyString(e, s, Some(DIVISIONS + ":[1:2")).status.OutOfBounds?
  {
    var pairs := ["1", ":", "2"];
    var tokens := [DIVISIONS, ":", "["] + pairs;
    assert tokens[3..] == pairs;
    PairReads();
    NamesAreKinds();
    assert Overruns(e, tokens);
    UnclosedTokens(tokens);
    StringOverrunsIff(e, s, DIVISIONS + ":[1:2");
  }

  lemma PairReads()
    ensures ReadEntry("1", "2").Some?
  {
    ScanDecimal(1);
    ScanDecimal(2);
    assert Decimal(1) == "1" && Decimal(2) == "2";
  }

  lemma UnclosedTokens(tokens: seq<string>)
    requires tokens == [DIVISIONS, ":", "[", "1", ":", "2"]
    ensures Lex(DIVISIONS + ":[1:2") == tokens
  {
    NamesAreWords();
    PairLexed("1", "2");
    var tail := ["["] + ["1", ":", "2"];
    assert tail[1..] == ["1", ":", "2"] && WellLexed(tail);
    WordTail(DIVISIONS, ":", tail);
    assert [DIVISIONS] + ([":"] + tail) == tokens;
    LexJoined(tokens);
    JoinUnclosed(tokens);
  }

  lemma JoinUnclosed(tokens: seq<string>)
    requires tokens == [DIVISIONS, ":", "[", "1", ":", "2"]
    ensures Join(tokens) == DIVISIONS + ":[1:2"
  {
    assert tokens[1..] == [":", "[", "1", ":", "2"] && tokens[1..][1..] == ["[", "1", ":", "2"];
    assert ["[", "1", ":", "2"][1..] == ["1", ":", "2"] && ["1", ":", "2"][1..] == [":", "2"] && [":", "2"][1..] == ["2"] && ["2"][1..] == [];
    assert Join(["2"]) == "2" && Join([":", "2"]) == ":2" && Join(["1", ":", "2"]) == "1:2" && Join(["[", "1", ":", "2"]) == "[1:2";
    assert Join([":", "[", "1", ":", "2"]) == ":[1:2";
  }

  // ------------------------------------------------------------------ rendering and parsing

  /** An option as its writer means it. `text` is the decimal the threshold is written with. */
  datatype Setting =
    | MaxSplit(mb: nat)
    | Threshold(text: string, x: real)
    | Divisions(n: nat)
    | DivisionList(entries: seq<Entry>)
    | Backend
    | Expandable(b: bool)
    | ReleaseLock(b: bool)
    | HostRegister(b: bool)
    | Threads(n: nat)

  /** The settings the documentation allows. */
  predicate Allowed(e: Env, x: Setting) {
    match x
    case MaxSplit(mb) => LARGE_BUFFER / MB < mb < 0x8000_0000
    case Threshold(text, x) => IsWord(text) && e.stod(text) == Some(x) && 0.0 < x < 1.0
    case Divisions(n) => PowerOfTwo(n) && n < 0x8000_0000
    case DivisionList(entries) => forall i :: 0 <= i < |entries| ==> EntryAllowed(entries[i])
    case Backend => e.backend == "native" || e.backend == "topsMallocAsync"
    case Threads(n) => PowerOfTwo(n) && n <= MAX_THREADS
    case _ => true
  }

  predicate EntryAllowed(x: Entry) {
    PowerOfTwo(x.value) && x.value < 0x8000_0000 && (x.key.Some? ==> PowerOfTwo(x.key.value) && x.key.value < WORD)
  }

  function Meaning(s: Settings, x: Setting): Settings {
    match x
    case MaxSplit(mb) => s.(maxSplit := mb * MB)
    case Threshold(text, x) => s.(threshold := x)
    case Divisions(n) => s.(divisions := Fill(n, SLOTS))
    case DivisionList(entries) => s.(divisions := WriteAll(Cursor(s.divisions, true, 0), entries).table)
    case Backend => s
    case Expandable(b) => s.(expandable := b)
    case ReleaseLock(b) => s.(releaseLock := b)
    case HostRegister(b) => s.(hostRegister := b)
    case Threads(n) => s.(threads := n)
  }

  function MeaningAll(s: Settings, xs: seq<Setting>): Settings
    decreases |xs|
  {
    if xs == [] then s else MeaningAll(Meaning(s, xs[0]), xs[1..])
  }

  function Bool(b: bool): string { if b then "True" else "False" }

  function KeyText(k: Option<nat>): string { if k.Some? then Decimal(k.value) else ">" }

  /** Pairs of a list and the closing bracket. */
  function EntryTokens(entries: seq<Entry>): seq<string> {
    if entries == [] then ["]"]
    else
      var pair := [KeyText(entries[0].key), ":", Decimal(entries[0].value)];
      if |entries| == 1 then pair + ["]"] else pair + ([","] + EntryTokens(entries[1..]))
  }

  function AllTokens(e: Env, xs: seq<Setting>): seq<string> {
    if xs == [] then []
    else if |xs| == 1 then Tokens(e, xs[0])
    else Tokens(e, xs[0]) + ([","] + AllTokens(e, xs[1..]))
  }

  /** name:value pairs joined by commas. */
  function Render(e: Env, xs: seq<Setting>): string { Join(AllTokens(e, xs)) }

  lemma WordTail(word: string, mark: string, rest: seq<string>)
    requires IsWord(word) && IsMark(mark) && WellLexed(rest)
    ensures WellLexed([mark] + rest) && WellLexed([word] + ([mark] + rest))
  {
    var tail := [mark] + rest;
    assert tail[1..] == rest;
    assert ([word] + tail)[1..] == tail && ([word] + tail)[1] == mark;
  }

  /** Well-lexed lists joined by a delimiter are well-lexed. */
  lemma {:induction false} WellLexedJoin(a: seq<string>, mark: string, b: seq<string>)
    requires WellLexed(a) && IsMark(mark) && WellLexed(b)
    ensures WellLexed(a + ([mark] + b))
    decreases |a|
  {
    var tail := [mark] + b;
    assert tail[1..] == b && WellLexed(tail);
    if a == [] {
      assert a + tail == tail;
    } else {
      WellLexedJoin(a[1..], mark, b);
      var all := a + tail;
      assert all[0] == a[0] && all[1..] == a[1..] + tail;
      assert all[1] == if |a| > 1 then a[1] else mark;
    }
  }

  lemma PairLexed(word: string, value: string)
    requires IsWord(word) && IsWord(value)
    ensures WellLexed([word, ":", value])
  {
    assert [value][1..] == [] && WellLexed([value]);
    WordTail(word, ":", [value]);
    assert [word] + ([":"] + [value]) == [word, ":", value];
  }

  lemma {:induction false} EntryTokensLexed(entries: seq<Entry>)
    requires forall i :: 0 <= i < |entries| ==> EntryAllowed(entries[i])
    ensures WellLexed(EntryTokens(entries))
    decreases |entries|
  {
    assert ["]"][1..] == [] && WellLexed(["]"]);
    if entries != [] {
      var x := entries[0];
      if x.key.Some? {
        ScanDecimal(x.key.value);
      }
      ScanDecimal(x.value);
      var pair := [KeyText(x.key), ":", Decimal(x.value)];
      PairLexed(KeyText(x.key), Decimal(x.value));
      if |entries| == 1 {
        WellLexedJoin(pair, "]", []);
        assert ["]"] + [] == ["]"];
      } else {
        EntryTokensLexed(entries[1..]);
        WellLexedJoin(pair, ",", EntryTokens(entries[1..]));
      }
    }
  }

  lemma NamesAreWords()
    ensures IsWord(MAX_SPLIT) && IsWord(THRESHOLD) && IsWord(DIVISIONS) && IsWord(BACKEND)
  {
  }

  lemma FlagNamesAreWords()
    ensures IsWord(EXPANDABLE) && IsWord(RELEASE_LOCK) && IsWord(HOST_REGISTER) && IsWord(THREADS)
  {
  }

  lemma ValuesAreWords()
    ensures IsWord("True") && IsWord("False") && IsWord("native") && IsWord("topsMallocAsync")
  {
  }

  lemma NamesAreKinds()
    ensures KindOf(MAX_SPLIT) == MaxSplitOption && KindOf(THRESHOLD) == ThresholdOption
    ensures KindOf(DIVISIONS) == DivisionsOption && KindOf(BACKEND) == BackendOption
    ensures KindOf(EXPANDABLE) == ExpandableOption && KindOf(RELEASE_LOCK) == ReleaseLockOption
    ensures KindOf(HOST_REGISTER) == HostRegisterOption && KindOf(THREADS) == ThreadsOption
  {
    assert MAX_SPLIT[0] == 'm' && THRESHOLD[0] == 'g' && BACKEND[0] == 'b' && EXPANDABLE[0] == 'e';
    assert DIVISIONS[1] == 'o' && RELEASE_LOCK[1] == 'e' && HOST_REGISTER[7] == 'u' && THREADS[7] == 'n';
  }

  function ValueText(e: Env, x: Setting): string {
    match x
    case MaxSplit(mb) => Decimal(mb)
    case Threshold(text, x) => text
    case Divisions(n) => Decimal(n)
    case DivisionList(entries) => "["
    case Backend => e.backend
    case Expandable(b) => Bool(b)
    case ReleaseLock(b) => Bool(b)
    case HostRegister(b) => Bool(b)
    case Threads(n) => Decimal(n)
  }

  function Name(x: Setting): string {
    match x
    case MaxSplit(mb) => MAX_SPLIT
    case Threshold(text, x) => THRESHOLD
    case Divisions(n) => DIVISIONS
    case DivisionList(entries) => DIVISIONS
    case Backend => BACKEND
    case Expandable(b) => EXPANDABLE
    case ReleaseLock(b) => RELEASE_LOCK
    case HostRegister(b) => HOST_REGISTER
    case Threads(n) => THREADS
  }

  function Tokens(e: Env, x: Setting): seq<string> {
    [Name(x), ":", ValueText(e, x)] + (if x.DivisionList? then EntryTokens(x.entries) else [])
  }

  function KindFor(x: Setting): Kind {
    match x
    case MaxSplit(mb) => MaxSplitOption
    case Threshold(text, x) => ThresholdOption
    case Divisions(n) => DivisionsOption
    case DivisionList(entries) => DivisionsOption
    case Backend => BackendOption
    case Expandable(b) => ExpandableOption
    case ReleaseLock(b) => ReleaseLockOption
    case HostRegister(b) => HostRegisterOption
    case Threads(n) => ThreadsOption
  }

  lemma NameFacts(x: Setting)
    ensures IsWord(Name(x)) && KindOf(Name(x)) == KindFor(x)
  {
    NamesAreWords();
    FlagNamesAreWords();
    NamesAreKinds();
  }

  lemma ValueIsWord(e: Env, x: Setting)
    requires Allowed(e, x) && !x.DivisionList?
    ensures IsWord(ValueText(e, x)) && ValueText(e, x) != "["
  {
    ValuesAreWords();
    match x {
      case MaxSplit(mb) => ScanDecimal(mb);
      case Divisions(n) => ScanDecimal(n);
      case Threads(n) => ScanDecimal(n);
      case _ =>
    }
    assert !Delimiter(ValueText(e, x)[0]);
  }

  lemma TokensLexed(e: Env, x: Setting)
    requires Allowed(e, x)
    ensures WellLexed(Tokens(e, x))
  {
    NameFacts(x);
    if x.DivisionList? {
      EntryTokensLexed(x.entries);
      var tail := ["["] + EntryTokens(x.entries);
      assert tail[1..] == EntryTokens(x.entries) && WellLexed(tail);
      WordTail(Name(x), ":", tail);
      assert [Name(x)] + ([":"] + tail) == Tokens(e, x);
    } else {
      ValueIsWord(e, x);
      PairLexed(Name(x), ValueText(e, x));
      assert Tokens(e, x) == [Name(x), ":", ValueText(e, x)];
    }
  }

  predicate AllAllowed(e: Env, xs: seq<Setting>) { forall i :: 0 <= i < |xs| ==> Allowed(e, xs[i]) }

  lemma {:induction false} AllTokensLexed(e: Env, xs: seq<Setting>)
    requires AllAllowed(e, xs)
    ensures WellLexed(AllTokens(e, xs))
    decreases |xs|
  {
    if xs != [] {
      TokensLexed(e, xs[0]);
      if |xs| > 1 {
        AllTokensLexed(e, xs[1..]);
        WellLexedJoin(Tokens(e, xs[0]), ",", AllTokens(e, xs[1..]));
      }
    }
  }

  lemma EntryParses(x: Entry)
    requires EntryAllowed(x)
    ensures ReadEntry(KeyText(x.key), Decimal(x.value)) == Some(x) && KeyText(x.key) != "]"
  {
    ScanDecimal(x.value);
    if x.key.Some? {
      ScanDecimal(x.key.value);
      assert IsDigit(KeyText(x.key)[0]);
    }
  }

  /** The tokens of a list: one pair, then the bracket or a comma and the rest. */
  lemma EntryShape(entries: seq<Entry>, rest: seq<string>)
    requires entries != []
    ensures var ts := EntryTokens(entries) + rest;
      && |ts| > 3 && ts[0] == KeyText(entries[0].key) && ts[1] == ":" && ts[2] == Decimal(entries[0].value)
      && (|entries| == 1 ==> ts[3] == "]" && ts[4..] == rest)
      && (|entries| > 1 ==> ts[3] == "," && ts[4..] == EntryTokens(entries[1..]) + rest)
  {
    var x := entries[0];
    var more := if |entries| == 1 then [] else EntryTokens(entries[1..]);
    var mark := if |entries| == 1 then "]" else ",";
    assert EntryTokens(entries) == [KeyText(x.key), ":", Decimal(x.value)] + ([mark] + more) by {
      assert ["]"] + [] == ["]"];
    }
    PairShape(KeyText(x.key), ":", Decimal(x.value), mark, more, rest);
  }

  lemma PairShape(a: string, b: string, c: string, d: string, more: seq<string>, rest: seq<string>)
    ensures var ts := [a, b, c] + ([d] + more) + rest;
      |ts| > 3 && ts[0] == a && ts[1] == b && ts[2] == c && ts[3] == d && ts[4..] == more + rest
  {
  }

  lemma {:induction false} ListParses(entries: seq<Entry>, c: Cursor, rest: seq<string>)
    requires forall i :: 0 <= i < |entries| ==> EntryAllowed(entries[i])
    ensures ParseList(EntryTokens(entries) + rest, c) == ListParsed(Accepted, WriteAll(c, entries), rest)
    decreases |entries|
  {
    if entries == [] {
      var ts := ["]"] + rest;
      assert ts[0] == "]" && ts[1..] == rest;
    } else {
      EntryShape(entries, rest);
      EntryParses(entries[0]);
      var next := Write(c, entries[0]);
      if |entries| == 1 {
        assert entries[1..] == [];
      } else {
        ListParses(entries[1..], next, rest);
      }
    }
  }

  lemma ValueParses(e: Env, s: Settings, x: Setting)
    requires Allowed(e, x) && !x.DivisionList?
    ensures SetValue(e, s, KindFor(x), ValueText(e, x)) == Some(Meaning(s, x))
  {
    match x
    case MaxSplit(mb) =>
      ScanDecimal(mb);
      assert mb < MAX_SIZE / MB;
    case Divisions(n) =>
      ScanDecimal(n);
      forall i | 0 <= i < SLOTS ensures FillRange(s.divisions, 0, SLOTS, n)[i] == Fill(n, SLOTS)[i] {
        FillAt(n, SLOTS, i);
      }
      assert FillRange(s.divisions, 0, SLOTS, n) == Fill(n, SLOTS);
    case Threads(n) => ScanDecimal(n);
    case _ =>
  }

  /** A bracket hands the tokens after it to the list. */
  lemma BracketParses(e: Env, s: Settings, name: string, tail: seq<string>, list: ListParsed)
    requires ParseList(tail, Cursor(s.divisions, true, 0)) == list
    ensures ParseKind(e, s, DivisionsOption, [name, ":", "["] + tail) == Parsed(list.status, s.(divisions := list.c.table), list.rest)
  {
    var ts := [name, ":", "["] + tail;
    assert ts[1] == ":" && ts[2] == "[" && ts[3..] == tail;
  }

  lemma ListKindParses(e: Env, s: Settings, x: Setting, rest: seq<string>)
    requires Allowed(e, x) && x.DivisionList?
    ensures ParseKind(e, s, KindFor(x), Tokens(e, x) + rest) == Parsed(Accepted, Meaning(s, x), rest)
  {
    var c := Cursor(s.divisions, true, 0);
    var tail := EntryTokens(x.entries) + rest;
    ListParses(x.entries, c, rest);
    BracketParses(e, s, Name(x), tail, ListParsed(Accepted, WriteAll(c, x.entries), rest));
    assert Tokens(e, x) + rest == [Name(x), ":", "["] + tail;
  }

  lemma ValueKindParses(e: Env, s: Settings, x: Setting, rest: seq<string>)
    requires Allowed(e, x) && !x.DivisionList?
    ensures ParseKind(e, s, KindFor(x), Tokens(e, x) + rest) == Parsed(Accepted, Meaning(s, x), rest)
  {
    var ts := Tokens(e, x) + rest;
    assert ts[1] == ":" && ts[2] == ValueText(e, x);
    assert ts[3..] == rest;
    ValueIsWord(e, x);
    ValueParses(e, s, x);
  }

  lemma OptionParses(e: Env, s: Settings, x: Setting, rest: seq<string>)
    requires Allowed(e, x)
    ensures ParseOption(e, s, Tokens(e, x) + rest) == Parsed(Accepted, Meaning(s, x), rest)
  {
    NameFacts(x);
    assert (Tokens(e, x) + rest)[0] == Name(x);
    if x.DivisionList? {
      ListKindParses(e, s, x, rest);
    } else {
      ValueKindParses(e, s, x, rest);
    }
  }

  lemma {:induction false} AllParse(e: Env, s: Settings, xs: seq<Setting>)
    requires AllAllowed(e, xs)
    ensures ParseAll(e, s, AllTokens(e, xs)) == Parsed(Accepted, MeaningAll(s, xs), [])
    decreases |xs|
  {
    if xs != [] {
      var rest := if |xs| == 1 then [] else [","] + AllTokens(e, xs[1..]);
      OptionParses(e, s, xs[0], rest);
      assert AllTokens(e, xs) == Tokens(e, xs[0]) + rest;
      AllParse(e, Meaning(s, xs[0]), xs[1..]);
      if |xs| > 1 {
        assert rest[1..] == AllTokens(e, xs[1..]);
      }
    }
  }

  /** Any list of allowed settings, rendered as name:value pairs with spaces anywhere, is accepted
      and parsed back to exactly those settings. */
  lemma RenderThenParse(e: Env, s: Settings, xs: seq<Setting>, text: string)
    requires AllAllowed(e, xs) && Strip(text) == Render(e, xs)
    ensures ApplyString(e, s, Some(text)) == Parsed(Accepted, MeaningAll(Reset(s).(last := text), xs), [])
  {
    AllTokensLexed(e, xs);
    LexCharacterised(text, AllTokens(e, xs));
    AllParse(e, Reset(s).(last := text), xs);
  }

  /** End to end: the text of a division list, spaces anywhere, leaves the table whose answers
      DivisionLookup describes. */
  lemma DivisionTextFillsTable(e: Env, s: Settings, entries: seq<Entry>, open: Option<nat>, text: string)
    requires Increasing(entries) && forall i :: 0 <= i < |entries| ==> EntryAllowed(entries[i])
    requires open.Some? ==> EntryAllowed(Entry(None, open.value))
    requires Strip(text) == Render(e, [DivisionList(WithOpen(entries, open))])
    ensures ApplyString(e, s, Some(text)).status == Accepted
    ensures ApplyString(e, s, Some(text)).s.divisions == Listed(entries, open)
  {
    var x := DivisionList(WithOpen(entries, open));
    RenderThenParse(e, s, [x], text);
    var start := Reset(s).(last := text);
    assert [x][1..] == [] && MeaningAll(Meaning(start, x), []) == Meaning(start, x);
  }

  // ---------------------------------------------------------------- the parser object

  /** The token list from position i on; empty past the end. */
  function From(config: seq<string>, i: nat): seq<string> {
    if i <= |config| then config[i..] else []
  }

  /** A sub-parser that got past its option at index i and stopped at index j did what the grammar
      says. It stops inside the token list unless a division list was left open. */
  predicate Reflects(p: Parsed, config: seq<string>, i: nat, j: nat, status: Status, s: Settings) {
    && status == p.status && s == p.s
    && (status.Accepted? ==> i < j <= |config| && From(config, j + 1) == p.rest)
  }

  /** One round of the list grammar, by token index. */
  lemma ListRound(config: seq<string>, i: nat, c: Cursor)
    requires i < |config| && config[i] != "]"
    ensures var p := ParseList(config[i..], c);
      if !(i + 2 < |config| && config[i + 1] == ":" && ReadEntry(config[i], config[i + 2]).Some?) then
        p.status == Rejected && p.c == c
      else
        var next := Write(c, ReadEntry(config[i], config[i + 2]).value);
        if i + 3 == |config| then p.status == OutOfBounds && p.c == next
        else if config[i + 3] == "]" then p == ParseList(config[i + 3..], next)
        else if config[i + 3] == "," then p == ParseList(config[i + 4..], next)
        else p.status == Rejected && p.c == next
  {
    var ts := config[i..];
    assert ts[0] == config[i];
    if i + 2 < |config| {
      assert ts[1] == config[i + 1] && ts[2] == config[i + 2];
      if i + 3 < |config| {
        assert ts[3] == config[i + 3] && ts[4..] == config[i + 4..];
        assert config[i + 3..][0] == config[i + 3] && config[i + 3..][1..] == config[i + 4..];
      }
    }
  }

  class GCUAllocatorConfig {
    var maxSplit: nat
    var divisions: seq<nat>
    var threshold: real
    var threads: nat
    var expandable: bool
    var releaseLock: bool
    var hostRegister: bool
    var last: string
    const e: Env

    predicate Sized() reads this { |divisions| == SLOTS }

    function Get(): Settings
      requires Sized()
      reads this
    {
      Settings(maxSplit, divisions, threshold, threads, expandable, releaseLock, hostRegister, last)
    }

    constructor (e: Env)
      ensures this.e == e && Sized() && Get() == Initial()
    {
      this.e := e;
      maxSplit, divisions, threshold := MAX_SIZE, Fill(0, SLOTS), 0.0;
      threads, expandable, releaseLock, hostRegister, last := 1, false, false, false, "";
    }

    method ConsumeToken(config: seq<string>, i: nat, c: char) returns (ok: bool)
      ensures ok <==> i < |config| && config[i] == [c]
    {
      ok := i < |config| && config[i] == [c];
    }

    method ParseMaxSplitSize(config: seq<string>, i: nat) returns (j: nat, status: Status)
      requires Sized() && i < |config|
      modifies this
      ensures Sized() && Reflects(ParseKind(e, old(Get()), MaxSplitOption, config[i..]), config, i, j, status, Get())
      ensures status.Accepted? ==> j == i + 2 < |config|
    {
      j := i + 2;
      var ok := ConsumeToken(config, i + 1, ':');
      if !ok || j >= |config| {
        return j, Rejected;
      }
      var val1 := StoiAsSize(config[j]);
      if val1.None? || val1.value <= LARGE_BUFFER / MB {
        return j, Rejected;
      }
      maxSplit := Min(val1.value, MAX_SIZE / MB) * MB;
      status := Accepted;
    }

    method ParseGarbageCollectionThreshold(config: seq<string>, i: nat) returns (j: nat, status: Status)
      requires Sized() && i < |config|
      modifies this
      ensures Sized() && Reflects(ParseKind(e, old(Get()), ThresholdOption, config[i..]), config, i, j, status, Get())
      ensures status.Accepted? ==> j == i + 2 < |config|
    {
      j := i + 2;
      var ok := ConsumeToken(config, i + 1, ':');
      if !ok || j >= |config| {
        return j, Rejected;
      }
      var val1 := e.stod(config[j]);
      if val1.None? || !(val1.value > 0.0) || !(val1.value < 1.0) {
        return j, Rejected;
      }
      threshold := val1.value;
      status := Accepted;
    }

    method ParseAllocatorConfig(config: seq<string>, i: nat) returns (j: nat, status: Status)
      requires Sized() && i < |config|
      modifies this
      ensures Sized() && Reflects(ParseKind(e, old(Get()), BackendOption, config[i..]), config, i, j, status, Get())
      ensures status.Accepted? ==> j == i + 2 < |config|
    {
      j := i + 2;
      var ok := ConsumeToken(config, i + 1, ':');
      if !ok || j >= |config| {
        return j, Rejected;
      }
      status := if (config[j] == "native" || config[j] == "topsMallocAsync") && config[j] == e.backend then Accepted else Rejected;
    }

    method ParseFlag(config: seq<string>, i: nat, kind: Kind) returns (j: nat, status: Status)
      requires Sized() && i < |config| && (kind.ExpandableOption? || kind.ReleaseLockOption? || kind.HostRegisterOption?)
      modifies this
      ensures Sized() && Reflects(ParseKind(e, old(Get()), kind, config[i..]), config, i, j, status, Get())
      ensures status.Accepted? ==> j == i + 2 < |config|
    {
      j := i + 2;
      var ok := ConsumeToken(config, i + 1, ':');
      if !ok || j >= |config| || (config[j] != "True" && config[j] != "False") {
        return j, Rejected;
      }
      match kind {
        case ExpandableOption => expandable := config[j] == "True";
        case ReleaseLockOption => releaseLock := config[j] == "True";
        case HostRegisterOption => hostRegister := config[j] == "True";
      }
      status := Accepted;
    }

    method ParsePinnedNumRegisterThreads(config: seq<string>, i: nat) returns (j: nat, status: Status)
      requires Sized() && i < |config|
      modifies this
      ensures Sized() && Reflects(ParseKind(e, old(Get()), ThreadsOption, config[i..]), config, i, j, status, Get())
      ensures status.Accepted? ==> j == i + 2 < |config|
    {
      j := i + 2;
      var ok := ConsumeToken(config, i + 1, ':');
      if !ok || j >= |config| {
        return j, Rejected;
      }
      var val2 := StoiAsSize(config[j]);
      if val2.None? || !PowerOfTwo(val2.value) || val2.value > MAX_THREADS {
        return j, Rejected;
      }
      threads := val2.value;
      status := Accepted;
    }

    /** One pair of a division list. */
    method WriteEntry(val1: string, text: string, first: bool, lastIndex: nat) returns (ok: bool, first': bool, lastIndex': nat)
      requires Sized() && lastIndex < SLOTS
      modifies this`divisions
      ensures Sized() && lastIndex' < SLOTS && ok == ReadEntry(val1, text).Some?
      ensures var c := Cursor(old(divisions), first, lastIndex);
        Cursor(divisions, first', lastIndex') == if ok then Write(c, ReadEntry(val1, text).value) else c
    {
      ok, first', lastIndex' := false, first, lastIndex;
      var val2 := StoiAsSize(text);
      if val2.None? || !PowerOfTwo(val2.value) {
        return;
      }
      if val1 == ">" {
        divisions := FillRange(divisions, lastIndex, SLOTS, val2.value);
      } else {
        var key := Stoul(val1);
        if key.None? || !PowerOfTwo(key.value) {
          return;
        }
        var index := Min(Log2(key.value), SLOTS - 1);
        if first {
          divisions := FillRange(divisions, 0, index, val2.value);
          first' := false;
        }
        divisions := divisions[index := val2.value];
        lastIndex' := index;
      }
      ok := true;
    }

    /** The body of the list loop, with the unchecked read after the pair. */
    method ParsePair(config: seq<string>, i: nat, first: bool, lastIndex: nat)
      returns (j: nat, status: Status, first': bool, lastIndex': nat)
      requires Sized() && i < |config| && config[i] != "]" && lastIndex < SLOTS
      modifies this`divisions
      ensures Sized() && lastIndex' < SLOTS
      ensures var p := ParseList(config[i..], Cursor(old(divisions), first, lastIndex));
        if status.Accepted? then i < j <= |config| && ParseList(config[j..], Cursor(divisions, first', lastIndex')) == p
        else status == p.status && divisions == p.c.table
    {
      ListRound(config, i, Cursor(divisions, first, lastIndex));
      j, status, first', lastIndex' := i + 2, Rejected, first, lastIndex;
      var ok := ConsumeToken(config, i + 1, ':');
      if !ok || j >= |config| {
        return;
      }
      ok, first', lastIndex' := WriteEntry(config[i], config[j], first, lastIndex);
      if !ok {
        return;
      }
      if j + 1 >= |config| {
        status := OutOfBounds;
        return;
      }
      if config[j + 1] != "]" {
        j := j + 1;
        ok := ConsumeToken(config, j, ',');
        if !ok {
          return;
        }
      }
      j, status := j + 1, Accepted;
    }

    /** The bracketed list. */
    method ParseDivisionList(config: seq<string>, start: nat) returns (i: nat, status: Status)
      requires Sized() && start < |config|
      modifies this`divisions
      ensures Sized()
      ensures var p := ParseList(config[start + 1..], Cursor(old(divisions), true, 0));
        && status == p.status && divisions == p.c.table
        && (status.Accepted? ==> start < i <= |config| && From(config, i + 1) == p.rest && (i < |config| ==> config[i] == "]"))
    {
      i := start + 1;
      var first, lastIndex: nat := true, 0;
      ghost var goal := ParseList(config[start + 1..], Cursor(divisions, true, 0));
      while i < |config| && config[i] != "]"
        invariant start < i <= |config| && Sized() && lastIndex < SLOTS
        invariant ParseList(config[i..], Cursor(divisions, first, lastIndex)) == goal
      {
        i, status, first, lastIndex := ParsePair(config, i, first, lastIndex);
        if !status.Accepted? {
          return;
        }
      }
      status := Accepted;
    }

    method ParseRoundUpPower2Divisions(config: seq<string>, i: nat) returns (j: nat, status: Status)
      requires Sized() && i < |config|
      modifies this
      ensures Sized() && Reflects(ParseKind(e, old(Get()), DivisionsOption, config[i..]), config, i, j, status, Get())
      ensures status.Accepted? && j < |config| ==> j == i + 2 || config[j] == "]"
    {
      j := i + 2;
      var ok := ConsumeToken(config, i + 1, ':');
      if !ok || j >= |config| {
        return j, Rejected;
      }
      assert config[i..][2] == config[j] && config[i..][3..] == config[j + 1..];
      if config[j] == "[" {
        j, status := ParseDivisionList(config, j);
      } else {
        var val1 := StoiAsSize(config[j]);
        if val1.None? || !PowerOfTwo(val1.value) {
          return j, Rejected;
        }
        divisions := FillRange(divisions, 0, SLOTS, val1.value);
        status := Accepted;
      }
    }

    /** Dispatch on the option name. */
    method ParseOne(config: seq<string>, i: nat) returns (j: nat, status: Status)
      requires Sized() && i < |config|
      modifies this
      ensures Sized() && Reflects(ParseOption(e, old(Get()), config[i..]), config, i, j, status, Get())
    {
      var kind := KindOf(config[i]);
      match kind {
        case MaxSplitOption => j, status := ParseMaxSplitSize(config, i);
        case ThresholdOption => j, status := ParseGarbageCollectionThreshold(config, i);
        case DivisionsOption => j, status := ParseRoundUpPower2Divisions(config, i);
        case BackendOption => j, status := ParseAllocatorConfig(config, i);
        case ThreadsOption => j, status := ParsePinnedNumRegisterThreads(config, i);
        case Unrecognized => j, status := i, Rejected;
        case _ => j, status := ParseFlag(config, i, kind);
      }
    }

    /** One option and the comma after it, if any. */
    method ParseNext(config: seq<string>, i: nat, ghost s: Settings) returns (j: nat, status: Status, ghost s': Settings)
      requires Sized() && i < |config| && s == Get()
      modifies this
      ensures Sized() && s' == Get() && Advances(e, s, config, i, j, status, s')
    {
      var k, parsed := ParseOne(config, i);
      s' := Get();
      j, status := k, parsed;
      if parsed.Accepted? {
        j, status := SkipComma(config, k);
      }
      NextRound(e, s, config, i, k, parsed, s', j, status);
    }

    /** The comma after an option, unless the tokens end. */
    method SkipComma(config: seq<string>, i: nat) returns (j: nat, status: Status)
      ensures AfterComma(config, i, j, status)
    {
      j, status := |config|, Accepted;
      if i + 1 < |config| {
        j := i + 2;
        var ok := ConsumeToken(config, i + 1, ',');
        status := if ok then Accepted else Rejected;
      }
    }

    /** Parses a settings string over the current state; a rejected string leaves the state as it
        was when the check failed. */
    method ParseArgs(env: Option<string>) returns (status: Status)
      requires Sized()
      modifies this
      ensures Sized() && status == ApplyString(e, old(Get()), env).status
      ensures Get() == ApplyString(e, old(Get()), env).s
      ensures Valid(old(Get())) ==> Valid(Get())
    {
      ghost var before := Get();
      maxSplit, divisions, threshold := MAX_SIZE, Fill(0, SLOTS), 0.0;
      if env.None? {
        ArgsKeepValid(e, before, env);
        return Accepted;
      }
      last := env.value;
      var config := LexArgs(env.value);
      ghost var goal := ParseAll(e, Get(), config);
      ArgsKeepValid(e, before, env);
      var i := 0;
      assert config[0..] == config;
      while i < |config|
        invariant i <= |config| && Sized()
        invariant ParseAll(e, Get(), config[i..]) == goal
      {
        ghost var s;
        i, status, s := ParseNext(config, i, Get());
        if !status.Accepted? {
          return;
        }
      }
      status := Accepted;
    }

    /** The divisions to round a size up with. */
    method RoundupPower2Divisions(size: nat) returns (r: nat)
      requires Sized()
      ensures r == Lookup(divisions, size)
    {
      var log := if size == 0 then -1 else Log2(size);
      var index := log - 20;
      index := if index < 0 then 0 else index;
      index := if index < SLOTS - 1 then index else SLOTS - 1;
      r := divisions[index];
    }
  }

  lemma ArgsKeepValid(e: Env, s: Settings, env: Option<string>)
    ensures Valid(s) ==> Valid(ApplyString(e, s, env).s)
  {
    ZeroTable();
    if Valid(s) && env.Some? {
      AllKeepsValid(e, Reset(s).(last := env.value), Lex(env.value));
    }
  }

  predicate AfterComma(config: seq<string>, i: nat, j: nat, status: Status) {
    if i + 1 >= |config| then j == |config| && status == Accepted
    else j == i + 2 && status == if config[i + 1] == "," then Accepted else Rejected
  }

  /** From index i and settings s the grammar gets to index j and settings s', or ends there. */
  ghost predicate Advances(e: Env, s: Settings, config: seq<string>, i: nat, j: nat, status: Status, s': Settings)
    requires i < |config|
  {
    var all := ParseAll(e, s, config[i..]);
    if status.Accepted? then i < j <= |config| && ParseAll(e, s', config[j..]) == all
    else status == all.status && s' == all.s
  }

  /** One round of the option grammar, by token index: option i ends at k. */
  lemma NextRound(e: Env, s: Settings, config: seq<string>, i: nat, k: nat, parsed: Status, s': Settings, j: nat, status: Status)
    requires i < |config| && Reflects(ParseOption(e, s, config[i..]), config, i, k, parsed, s')
    requires if parsed.Accepted? then AfterComma(config, k, j, status) else j == k && status == parsed
    ensures Advances(e, s, config, i, j, status, s')
  {
    var p := ParseOption(e, s, config[i..]);
    AllRound(e, s, config[i..]);
    var next := if p.rest == [] then p else ParseAll(e, p.s, p.rest[1..]);
    NextStep(config, i, k, parsed, s', j, status, p, ParseAll(e, s, config[i..]), next);
    assert config[|config|..] == [] && ParseAll(e, s', []) == Parsed(Accepted, s', []);
  }

  /** The index arithmetic of a round, for any outcome p of the option and `next` of the rest. */
  lemma NextStep(config: seq<string>, i: nat, k: nat, parsed: Status, s': Settings, j: nat, status: Status, p: Parsed, all: Parsed, next: Parsed)
    requires i < |config| && Reflects(p, config, i, k, parsed, s')
    requires if parsed.Accepted? then AfterComma(config, k, j, status) else j == k && status == parsed
    requires if !p.status.Accepted? || p.rest == [] then all == p else if p.rest[0] == "," then all == next else all == p.(status := Rejected)
    ensures !status.Accepted? ==> status == all.status && s' == all.s
    ensures status.Accepted? ==> p.s == s' && i < j <= |config|
    ensures status.Accepted? ==> if p.rest == [] then j == |config| && all == Parsed(Accepted, s', []) else p.rest[1..] == config[j..] && all == next
  {
    FromNext(config, k);
  }

  lemma FromNext(config: seq<string>, k: nat)
    ensures config[|config|..] == []
    ensures k + 1 >= |config| ==> From(config, k + 1) == []
    ensures k + 1 < |config| ==> From(config, k + 1) != [] && From(config, k + 1)[0] == config[k + 1]
    ensures k + 1 < |config| ==> From(config, k + 1)[1..] == config[k + 2..]
  {
  }

  /** One round of the option grammar. */
  lemma AllRound(e: Env, s: Settings, ts: seq<string>)
    requires ts != []
    ensures var p := ParseOption(e, s, ts);
      if !p.status.Accepted? || p.rest == [] then ParseAll(e, s, ts) == p
      else if p.rest[0] == "," then ParseAll(e, s, ts) == ParseAll(e, p.s, p.rest[1..])
      else ParseAll(e, s, ts) == p.(status := Rejected)
  {
    if ParseOption(e, s, ts).status.Accepted? {
      OptionAdvances(e, s, ts);
    }
  }
}
