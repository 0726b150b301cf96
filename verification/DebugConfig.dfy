/** The operator debug configuration: one environment string of key=value tokens, in which every
    option is found by a plain substring search. */
module DebugConfig {
  import opened Options
  import opened Text

  // ---------------------------------------------------------------- substring search

  /** What every option parser reads for its key. */
  function Reading(s: string, key: string): Option<string> {
    var pos := Find(s, key);
    if pos.None? then None else Some(UpTo(s[pos.value + |key|..], ' '))
  }

  // ------------------------------------------------------------------ key=value tokens

  /** A key as the table writes it, ending in its equals sign. */
  predicate IsKey(k: string) {
    k != "" && k[|k| - 1] == '=' && forall i :: 0 <= i < |k| - 1 ==> k[i] != '=' && k[i] != ' '
  }

  predicate Clean(v: string) { forall i :: 0 <= i < |v| ==> v[i] != '=' && v[i] != ' ' }

  datatype RawToken = Token(key: string, value: string)
  {
    function Text(): string { key + value }
  }

  type Token = t: RawToken | IsKey(t.key) && Clean(t.value) witness Token("=", "")

  function Render(tokens: seq<Token>): string {
    if tokens == [] then ""
    else if |tokens| == 1 then tokens[0].Text()
    else tokens[0].Text() + (" " + Render(tokens[1..]))
  }

  /** The value of the first token whose key ends with the key searched for. */
  function FirstMatch(tokens: seq<Token>, key: string): Option<string> {
    if tokens == [] then None
    else if EndsWith(tokens[0].key, key) then Some(tokens[0].value)
    else FirstMatch(tokens[1..], key)
  }

  /** Inside a token a key can only occur at the end of the token's own key. */
  lemma OccurrenceIsSuffix(t: Token, tail: string, key: string, p: nat)
    requires IsKey(key) && (tail == "" || tail[0] == ' ') && p < |t.Text()|
    ensures StartsWith((t.Text() + tail)[p..], key) <==> EndsWith(t.key, key) && p == |t.key| - |key|
  {
    var s := t.Text() + tail;
    var n, q := |t.Text()|, p + |key| - 1;
    if StartsWith(s[p..], key) {
      assert forall i :: p <= i <= q ==> s[i] == s[p..][i - p] == key[i - p];
      assert s[q] == '=' && forall i :: p <= i <= q ==> s[i] != ' ';
      assert n < |s| ==> s[n] == tail[0];
      assert q < n;
      assert forall i :: |t.key| <= i < n ==> s[i] == t.value[i - |t.key|];
      assert s[q] == t.key[q] && q == |t.key| - 1;
      assert t.key[p..] == key;
    }
    if EndsWith(t.key, key) && p == |t.key| - |key| {
      assert s[p..][..|key|] == t.key[p..];
    }
  }

  lemma ReadHere(t: Token, tail: string, key: string)
    requires IsKey(key) && (tail == "" || tail[0] == ' ') && EndsWith(t.key, key)
    ensures Reading(t.Text() + tail, key) == Some(t.value)
  {
    var s, p := t.Text() + tail, |t.key| - |key|;
    var a, b := s[..p], s[p..];
    assert s == a + b;
    forall q | 0 <= q < |a| ensures !StartsWith((a + b)[q..], key) {
      OccurrenceIsSuffix(t, tail, key, q);
    }
    FindAfter(a, b, key);
    OccurrenceIsSuffix(t, tail, key, p);
    assert s[p + |key|..] == t.value + tail;
    UpToExact(t.value, tail);
  }

  lemma ReadLater(t: Token, tail: string, rest: string, key: string)
    requires IsKey(key) && !EndsWith(t.key, key) && tail == " " + rest
    ensures Reading(t.Text() + tail, key) == Reading(rest, key)
  {
    var a := t.Text() + " ";
    var s := t.Text() + tail;
    assert s == a + rest;
    forall q | 0 <= q < |a| ensures !StartsWith((a + rest)[q..], key) {
      if q < |t.Text()| {
        OccurrenceIsSuffix(t, tail, key, q);
      } else {
        assert s[q..][0] == ' ' && key[0] != ' ';
      }
    }
    FindAfter(a, rest, key);
    var r := Find(rest, key);
    if r.Some? {
      assert s[|a| + r.value + |key|..] == rest[r.value + |key|..];
    }
  }

  lemma ReadNowhere(t: Token, key: string)
    requires IsKey(key) && !EndsWith(t.key, key)
    ensures Reading(t.Text(), key).None?
  {
    var a := t.Text();
    assert a + "" == a;
    forall q | 0 <= q < |a| ensures !StartsWith((a + "")[q..], key) {
      OccurrenceIsSuffix(t, "", key, q);
    }
    FindAfter(a, "", key);
  }

  /** The substring search reads the first token whose key ends with the key searched for, and
      nothing if there is none. */
  lemma {:induction false} ReadingIsFirstMatch(tokens: seq<Token>, key: string)
    requires IsKey(key)
    ensures Reading(Render(tokens), key) == FirstMatch(tokens, key)
    decreases |tokens|
  {
    if tokens != [] {
      var t, rest := tokens[0], tokens[1..];
      var tail := if |tokens| == 1 then "" else " " + Render(rest);
      assert Render(tokens) == t.Text() + tail;
      if EndsWith(t.key, key) {
        ReadHere(t, tail, key);
      } else if |tokens| == 1 {
        ReadNowhere(t, key);
      } else {
        ReadLater(t, tail, Render(rest), key);
        ReadingIsFirstMatch(rest, key);
      }
    }
  }

  // --------------------------------------------------------------------- the key table

  datatype Name =
    | OpSyncMode | OpCheckDump | DumpPath | FallbackCpu | OpCheck | OpInputDump | OpOutputDump
    | OpCheckNoBreak | OpCheckTolFp32 | OpCheckTolFp16 | OpCheckTolBf16 | Deregister
    | OpStatistics | OpStatisticsDump | OpCalltrace | TestMode

  function KeyOf(n: Name): string {
    match n
    case OpSyncMode => "op_sync_mode="
    case OpCheckDump => "op_check_dump="
    case DumpPath => "dump_path="
    case FallbackCpu => "fallback_cpu="
    case OpCheck => "op_check="
    case OpInputDump => "op_input_dump="
    case OpOutputDump => "op_output_dump="
    case OpCheckNoBreak => "op_check_no_break="
    case OpCheckTolFp32 => "op_check_tol_fp32="
    case OpCheckTolFp16 => "op_check_tol_fp16="
    case OpCheckTolBf16 => "op_check_tol_bf16="
    case Deregister => "deregister="
    case OpStatistics => "op_statistics="
    case OpStatisticsDump => "op_statistics_dump="
    case OpCalltrace => "op_calltrace="
    case TestMode => "test_mode="
  }

  predicate EarlyName(n: Name) {
    n.OpSyncMode? || n.OpCheckDump? || n.DumpPath? || n.FallbackCpu? || n.OpCheck? || n.OpInputDump? || n.OpOutputDump? || n.OpCheckNoBreak?
  }

  lemma EarlyKeys(n: Name)
    requires EarlyName(n)
    ensures IsKey(KeyOf(n))
  {
  }

  lemma LateKeys(n: Name)
    requires !EarlyName(n)
    ensures IsKey(KeyOf(n))
  {
  }

  lemma KeysAreKeys(n: Name)
    ensures IsKey(KeyOf(n))
  {
    if EarlyName(n) {
      EarlyKeys(n);
    } else {
      LateKeys(n);
    }
  }

  /** The character at distance d from the end. */
  function FromEnd(s: string, d: nat): char
    requires d < |s|
  {
    s[|s| - 1 - d]
  }

  lemma SuffixSharesEnd(a: string, b: string, d: nat)
    requires EndsWith(b, a) && d < |a|
    ensures FromEnd(a, d) == FromEnd(b, d)
  {
    assert a[|a| - 1 - d] == b[|b| - |a|..][|a| - 1 - d];
  }

  /** Four characters near the end tell the keys apart, but for two of equal ending. */
  function Ending(n: Name): (char, char, char, char) {
    match n
    case OpSyncMode => ('e', 'd', 'o', 'c')
    case OpCheckDump => ('p', 'm', 'u', 'k')
    case DumpPath => ('h', 't', 'a', 'p')
    case FallbackCpu => ('u', 'p', 'c', 'c')
    case OpCheck => ('k', 'c', 'e', '_')
    case OpInputDump => ('p', 'm', 'u', 't')
    case OpOutputDump => ('p', 'm', 'u', 't')
    case OpCheckNoBreak => ('k', 'a', 'e', '_')
    case OpCheckTolFp32 => ('2', '3', 'p', 'l')
    case OpCheckTolFp16 => ('6', '1', 'p', 'l')
    case OpCheckTolBf16 => ('6', '1', 'f', 'l')
    case Deregister => ('r', 'e', 't', 'g')
    case OpStatistics => ('s', 'c', 'i', 'i')
    case OpStatisticsDump => ('p', 'm', 'u', 's')
    case OpCalltrace => ('e', 'c', 'a', 'l')
    case TestMode => ('e', 'd', 'o', 't')
  }

  lemma EndingIsEnding(n: Name)
    ensures var k := KeyOf(n); |k| >= 9 && Ending(n) == (FromEnd(k, 1), FromEnd(k, 2), FromEnd(k, 3), FromEnd(k, 6))
  {
  }

  lemma SuffixSharesEnding(a: Name, b: Name)
    requires EndsWith(KeyOf(b), KeyOf(a))
    ensures Ending(a) == Ending(b)
  {
    EndingIsEnding(a);
    EndingIsEnding(b);
    SuffixSharesEnd(KeyOf(a), KeyOf(b), 1);
    SuffixSharesEnd(KeyOf(a), KeyOf(b), 2);
    SuffixSharesEnd(KeyOf(a), KeyOf(b), 3);
    SuffixSharesEnd(KeyOf(a), KeyOf(b), 6);
  }

  lemma InputAndOutputDiffer()
    ensures !EndsWith("op_input_dump=", "op_output_dump=") && !EndsWith("op_output_dump=", "op_input_dump=")
  {
    assert "op_output_dump="[1..][0] == 'p' && "op_input_dump="[0] == 'o';
  }

  /** No key of the table is the end of another. */
  lemma TableIsSuffixFree(a: Name, b: Name)
    ensures EndsWith(KeyOf(b), KeyOf(a)) <==> a == b
  {
    InputAndOutputDiffer();
    if EndsWith(KeyOf(b), KeyOf(a)) {
      SuffixSharesEnding(a, b);
    }
  }

  // ---------------------------------------------------- every option reads its own token

  datatype RawSetting = Setting(name: Name, value: string)

  type Setting = s: RawSetting | Clean(s.value) witness Setting(TestMode, "")

  function TokenOf(s: Setting): Token {
    KeysAreKeys(s.name);
    Token(KeyOf(s.name), s.value)
  }

  function TokensOf(settings: seq<Setting>): seq<Token> {
    if settings == [] then [] else [TokenOf(settings[0])] + TokensOf(settings[1..])
  }

  function ValueOf(settings: seq<Setting>, n: Name): Option<string> {
    if settings == [] then None
    else if settings[0].name == n then Some(settings[0].value)
    else ValueOf(settings[1..], n)
  }

  lemma {:induction false} MatchByName(settings: seq<Setting>, n: Name)
    ensures FirstMatch(TokensOf(settings), KeyOf(n)) == ValueOf(settings, n)
  {
    if settings != [] {
      MatchByName(settings[1..], n);
      TableIsSuffixFree(n, settings[0].name);
      assert TokensOf(settings)[1..] == TokensOf(settings[1..]);
    }
  }

  /** With keys from the table, the search for an option finds exactly its own token, or nothing if
      it is not given. */
  lemma OptionReadsOwnToken(settings: seq<Setting>, n: Name)
    ensures Reading(Render(TokensOf(settings)), KeyOf(n)) == ValueOf(settings, n)
  {
    KeysAreKeys(n);
    ReadingIsFirstMatch(TokensOf(settings), KeyOf(n));
    MatchByName(settings, n);
  }

  /** A key outside the table is enough to mislead the search: its token is read instead. */
  lemma ForeignKeyMisleads(value: string, own: string)
    requires Clean(value) && Clean(own)
    ensures Reading(Render([Token("no_op_check=", value), Token("op_check=", own)]), KeyOf(OpCheck)) == Some(value)
  {
    var foreign: Token := Token("no_op_check=", value);
    assert EndsWith("no_op_check=", "op_check=");
    KeysAreKeys(OpCheck);
    ReadingIsFirstMatch([foreign, Token("op_check=", own)], "op_check=");
  }

  predicate AllKeys(keys: seq<string>) { forall i :: 0 <= i < |keys| ==> IsKey(keys[i]) }

  predicate AllClean(values: seq<string>) { forall i :: 0 <= i < |values| ==> Clean(values[i]) }

  /** Tokens with the given keys and values. */
  function Zip(keys: seq<string>, values: seq<string>): (ts: seq<Token>)
    requires |keys| == |values| && AllKeys(keys) && AllClean(values)
    ensures |ts| == |keys|
  {
    if keys == [] then [] else [Token(keys[0], values[0])] + Zip(keys[1..], values[1..])
  }

  /** Whatever the values, the option with the key of token p reads that token. */
  ghost predicate ReadsOwn(keys: seq<string>, p: nat)
    requires AllKeys(keys) && p < |keys|
  {
    forall values: seq<string> :: |values| == |keys| && AllClean(values) ==>
      Reading(Render(Zip(keys, values)), keys[p]) == Some(values[p])
  }

  /** The first token whose key ends with the one searched for, by position. */
  lemma {:induction false} MatchAt(keys: seq<string>, values: seq<string>, key: string, p: nat)
    requires |keys| == |values| && AllKeys(keys) && AllClean(values) && p < |keys| && EndsWith(keys[p], key)
    requires forall i :: 0 <= i < p ==> !EndsWith(keys[i], key)
    ensures FirstMatch(Zip(keys, values), key) == Some(values[p])
  {
    var ts := Zip(keys, values);
    assert ts[0] == Token(keys[0], values[0]) && ts[1..] == Zip(keys[1..], values[1..]);
    if p > 0 {
      MatchAt(keys[1..], values[1..], key, p - 1);
    }
  }

  lemma FirstEnding(keys: seq<string>, key: string, i: nat) returns (k: nat)
    requires i < |keys| && EndsWith(keys[i], key)
    ensures k <= i && EndsWith(keys[k], key) && forall j :: 0 <= j < k ==> !EndsWith(keys[j], key)
  {
    k := 0;
    while !EndsWith(keys[k], key)
      invariant k <= i && forall j :: 0 <= j < k ==> !EndsWith(keys[j], key)
      decreases i - k
    {
      k := k + 1;
    }
  }

  /** Keys from any table: an option reads its own token, whatever the values, if and only if no
      earlier token's key ends with its key. */
  lemma OptionReadsOwnIff(keys: seq<string>, p: nat)
    requires AllKeys(keys) && p < |keys|
    ensures ReadsOwn(keys, p) <==> forall i :: 0 <= i < p ==> !EndsWith(keys[i], keys[p])
  {
    if forall i :: 0 <= i < p ==> !EndsWith(keys[i], keys[p]) {
      forall values: seq<string> | |values| == |keys| && AllClean(values)
        ensures Reading(Render(Zip(keys, values)), keys[p]) == Some(values[p])
      {
        MatchAt(keys, values, keys[p], p);
        ReadingIsFirstMatch(Zip(keys, values), keys[p]);
      }
    } else {
      var i :| 0 <= i < p && EndsWith(keys[i], keys[p]);
      var k := FirstEnding(keys, keys[p], i);
      var values := seq(|keys|, j => if j == k then "x" else "");
      MatchAt(keys, values, keys[p], k);
      ReadingIsFirstMatch(Zip(keys, values), keys[p]);
      assert Reading(Render(Zip(keys, values)), keys[p]) == Some("x") && values[p] == "";
    }
  }

  // ------------------------------------------------------------- operator selections

  datatype Selection = Selection(all: bool, included: set<string>, excluded: set<string>)

  predicate IsAll(p: string) { p == "all" || p == "all_ops" }

  predicate IsExcluded(p: string) { p != "" && !IsAll(p) && p[0] == '-' }

  predicate IsIncluded(p: string) { p != "" && !IsAll(p) && p[0] != '-' }

  function Insert(s: Selection, p: string): Selection {
    if p == "" then s
    else if IsAll(p) then s.(all := true)
    else if p[0] == '-' then s.(excluded := s.excluded + {p[1..]})
    else s.(included := s.included + {p})
  }

  function InsertAll(s: Selection, pieces: seq<string>): Selection
    decreases |pieces|
  {
    if pieces == [] then s else InsertAll(Insert(s, pieces[0]), pieces[1..])
  }

  /** The sets collected: of the non-empty pieces, "all" and "all_ops" select everything, those
      with a leading minus are excluded without it, the others included. */
  lemma {:induction false} InsertAllCollects(s: Selection, pieces: seq<string>)
    ensures InsertAll(s, pieces) == Selection(
      s.all || (exists p :: p in pieces && IsAll(p)),
      s.included + (set p | p in pieces && IsIncluded(p)),
      s.excluded + (set p | p in pieces && IsExcluded(p) :: p[1..]))
    decreases |pieces|
  {
    if pieces != [] {
      var h, t := pieces[0], pieces[1..];
      InsertAllCollects(Insert(s, h), t);
      assert forall p :: p in pieces <==> p == h || p in t;
    }
  }

  function Collected(val: Option<string>, sets: Selection): Selection {
    if val.None? then sets else InsertAll(sets, Pieces(val.value))
  }

  /** parserOperators: cuts pieces off the value until none is left. */
  method ParserOperators(str: string, key: string, sets: Selection) returns (r: Selection)
    ensures r == Collected(Reading(str, key), sets)
  {
    r := sets;
    var found := Reading(str, key);
    if found.Some? {
      var val := found.value;
      while val != ""
        invariant InsertAll(r, Pieces(val)) == InsertAll(sets, Pieces(found.value))
        decreases |val|
      {
        var pos := Find(val, ",");
        if pos.None? {
          r := Insert(r, val);
          return;
        }
        var op := val[..pos.value];
        ghost var rest := Pieces(val[pos.value + 1..]);
        assert ([op] + rest)[1..] == rest;
        if op != "" {
          r := Insert(r, op);
        }
        val := val[pos.value + 1..];
      }
      assert Pieces("") == [""];
    }
  }

  function Lower(s: string): string {
    if s == "" then "" else [if 'A' <= s[0] <= 'Z' then s[0] - 'A' + 'a' else s[0]] + Lower(s[1..])
  }

  /** A flag changes only for true or false in any case. */
  function FlagValue(val: Option<string>, flag: bool): bool {
    if val.None? then flag else if Lower(val.value) == "true" then true else if Lower(val.value) == "false" then false else flag
  }

  method ParserBoolFlags(str: string, key: string, flag: bool) returns (r: bool)
    ensures r == FlagValue(Reading(str, key), flag)
  {
    r := flag;
    var val := Reading(str, key);
    if val.Some? {
      var lower := Lower(val.value);
      if lower == "true" {
        r := true;
      } else if lower == "false" {
        r := false;
      }
    }
  }

  /** The options by type, in the order they are parsed. */
  const FLAGS: seq<Name> := [OpSyncMode, OpCheckDump, OpCheckNoBreak, OpStatistics, OpStatisticsDump, TestMode, OpCalltrace]
  const OPERATORS: seq<Name> := [OpCheck, FallbackCpu, Deregister, OpInputDump, OpOutputDump]

  predicate NoRepeats(names: seq<Name>) { forall i, j :: 0 <= i < j < |names| ==> names[i] != names[j] }

  /** One member per option. */
  class OpDebugConfig {
    var flags: map<Name, bool>
    var operators: map<Name, Selection>
    var dumpPath: string

    constructor (path: string)
      ensures flags == map n | n in FLAGS :: false
      ensures operators == map n | n in OPERATORS :: Selection(false, {}, {})
      ensures dumpPath == path
    {
      flags := map n | n in FLAGS :: false;
      operators := map n | n in OPERATORS :: Selection(false, {}, {});
      dumpPath := path;
    }

    method ParseFlags(text: string, names: seq<Name>)
      requires NoRepeats(names) && forall n :: n in names ==> n in flags
      modifies this`flags
      ensures flags.Keys == old(flags).Keys
      ensures forall n :: n in flags ==>
        flags[n] == if n in names then FlagValue(Reading(text, KeyOf(n)), old(flags)[n]) else old(flags)[n]
    {
      for i := 0 to |names|
        invariant flags.Keys == old(flags).Keys
        invariant forall n :: n in flags ==>
          flags[n] == if n in names[..i] then FlagValue(Reading(text, KeyOf(n)), old(flags)[n]) else old(flags)[n]
      {
        var n := names[i];
        assert names[..i + 1] == names[..i] + [n] && n !in names[..i];
        var flag := ParserBoolFlags(text, KeyOf(n), flags[n]);
        flags := flags[n := flag];
      }
    }

    method ParseOperators(text: string, names: seq<Name>)
      requires NoRepeats(names) && forall n :: n in names ==> n in operators
      modifies this`operators
      ensures operators.Keys == old(operators).Keys
      ensures forall n :: n in operators ==>
        operators[n] == if n in names then Collected(Reading(text, KeyOf(n)), old(operators)[n]) else old(operators)[n]
    {
      for i := 0 to |names|
        invariant operators.Keys == old(operators).Keys
        invariant forall n :: n in operators ==>
          operators[n] == if n in names[..i] then Collected(Reading(text, KeyOf(n)), old(operators)[n]) else old(operators)[n]
      {
        var n := names[i];
        assert names[..i + 1] == names[..i] + [n] && n !in names[..i];
        var sets := ParserOperators(text, KeyOf(n), operators[n]);
        operators := operators[n := sets];
      }
    }

    /** init on rendered settings: every option gets exactly what its own token says. */
    method Init(ghost settings: seq<Setting>, text: string)
      requires text == Render(TokensOf(settings))
      requires flags.Keys == (set n | n in FLAGS) && operators.Keys == (set n | n in OPERATORS)
      modifies this
      ensures flags.Keys == old(flags).Keys && operators.Keys == old(operators).Keys
      ensures forall n :: n in flags ==> flags[n] == FlagValue(ValueOf(settings, n), old(flags)[n])
      ensures forall n :: n in operators ==> operators[n] == Collected(ValueOf(settings, n), old(operators)[n])
      ensures dumpPath == match ValueOf(settings, DumpPath) case None => old(dumpPath) case Some(val) => val
    {
      forall n: Name ensures Reading(text, KeyOf(n)) == ValueOf(settings, n) {
        OptionReadsOwnToken(settings, n);
      }
      ParseFlags(text, FLAGS);
      ParseOperators(text, OPERATORS);
      var path := Reading(text, KeyOf(DumpPath));
      if path.Some? {
        dumpPath := path.value;
      }
    }
  }
}
