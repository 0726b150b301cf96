/** Text of the allocator settings: the tokens of a settings string and the decimal numbers in it. */
module SettingsText {
  import opened Options

  // ----------------------------------------------------------------------- tokens

  predicate Delimiter(c: char) { c == ',' || c == ':' || c == '[' || c == ']' }

  function Flush(buf: string): seq<string> { if buf == "" then [] else [buf] }

  /** The tokens still to come, given the characters buffered so far. */
  function LexFrom(buf: string, env: string): seq<string>
    decreases |env|
  {
    if env == [] then Flush(buf)
    else if Delimiter(env[0]) then Flush(buf) + [[env[0]]] + LexFrom("", env[1..])
    else if env[0] == ' ' then LexFrom(buf, env[1..])
    else LexFrom(buf + [env[0]], env[1..])
  }

  function Lex(env: string): seq<string> { LexFrom("", env) }

  /** lexArgs. */
  method LexArgs(env: string) returns (config: seq<string>)
    ensures config == Lex(env)
  {
    config := [];
    var buf := "";
    assert env[0..] == env;
    for i := 0 to |env|
      invariant config + LexFrom(buf, env[i..]) == Lex(env)
    {
      ghost var tail := env[i..];
      assert tail[0] == env[i] && tail[1..] == env[i + 1..];
      if env[i] == ',' || env[i] == ':' || env[i] == '[' || env[i] == ']' {
        if buf != "" {
          config := config + [buf];
          buf := "";
        }
        config := config + [[env[i]]];
      } else if env[i] != ' ' {
        buf := buf + [env[i]];
      }
    }
    if buf != "" {
      config := config + [buf];
    }
  }

  function Join(tokens: seq<string>): string {
    if tokens == [] then "" else tokens[0] + Join(tokens[1..])
  }

  function Strip(env: string): string {
    if env == [] then "" else (if env[0] == ' ' then "" else [env[0]]) + Strip(env[1..])
  }

  predicate IsWord(t: string) {
    t != "" && forall i :: 0 <= i < |t| ==> !Delimiter(t[i]) && t[i] != ' '
  }

  predicate IsMark(t: string) { |t| == 1 && Delimiter(t[0]) }

  /** Every token is a delimiter or a word, and no two words are adjacent. */
  predicate WellLexed(tokens: seq<string>) {
    tokens == [] ||
    ((IsMark(tokens[0]) || (IsWord(tokens[0]) && (|tokens| > 1 ==> IsMark(tokens[1])))) && WellLexed(tokens[1..]))
  }

  lemma JoinFlush(buf: string, rest: seq<string>)
    ensures Join(Flush(buf) + rest) == buf + Join(rest)
  {
    if buf == "" {
      assert Flush(buf) + rest == rest;
    } else {
      assert (Flush(buf) + rest)[1..] == rest;
    }
  }

  lemma JoinMark(c: char, rest: seq<string>)
    ensures Join([[c]] + rest) == [c] + Join(rest)
  {
    assert ([[c]] + rest)[1..] == rest;
  }

  /** Nothing but spaces is lost. */
  lemma {:induction false} LexKeepsText(buf: string, env: string)
    ensures Join(LexFrom(buf, env)) == buf + Strip(env)
    decreases |env|
  {
    if env == [] {
      JoinFlush(buf, []);
      assert Flush(buf) + [] == Flush(buf);
    } else if Delimiter(env[0]) {
      var rest := LexFrom("", env[1..]);
      LexKeepsText("", env[1..]);
      JoinFlush(buf, [[env[0]]] + rest);
      assert Flush(buf) + ([[env[0]]] + rest) == Flush(buf) + [[env[0]]] + rest;
      JoinMark(env[0], rest);
      assert Strip(env) == [env[0]] + Strip(env[1..]);
    } else if env[0] == ' ' {
      LexKeepsText(buf, env[1..]);
      assert Strip(env) == Strip(env[1..]);
    } else {
      LexKeepsText(buf + [env[0]], env[1..]);
      assert Strip(env) == [env[0]] + Strip(env[1..]);
      assert buf + [env[0]] + Strip(env[1..]) == buf + ([env[0]] + Strip(env[1..]));
    }
  }

  lemma {:induction false} LexIsWellLexed(buf: string, env: string)
    requires buf == "" || IsWord(buf)
    ensures WellLexed(LexFrom(buf, env))
    decreases |env|
  {
    if env == [] {
    } else if Delimiter(env[0]) {
      var rest := LexFrom("", env[1..]);
      LexIsWellLexed("", env[1..]);
      var tokens := [[env[0]]] + rest;
      assert tokens[1..] == rest && WellLexed(tokens);
      if buf == "" {
        assert LexFrom(buf, env) == tokens;
      } else {
        assert LexFrom(buf, env)[1..] == tokens;
      }
    } else if env[0] == ' ' {
      LexIsWellLexed(buf, env[1..]);
    } else {
      LexIsWellLexed(buf + [env[0]], env[1..]);
    }
  }

  /** A word is buffered whole. */
  lemma {:induction false} LexWord(buf: string, word: string, rest: string)
    requires forall i :: 0 <= i < |word| ==> !Delimiter(word[i]) && word[i] != ' '
    ensures LexFrom(buf, word + rest) == LexFrom(buf + word, rest)
    decreases |word|
  {
    if word == "" {
      assert word + rest == rest && buf + word == buf;
    } else {
      assert (word + rest)[1..] == word[1..] + rest && (word + rest)[0] == word[0];
      LexWord(buf + [word[0]], word[1..], rest);
      assert buf + [word[0]] + word[1..] == buf + word;
    }
  }

  lemma {:induction false} LexJoined(tokens: seq<string>)
    requires WellLexed(tokens)
    ensures Lex(Join(tokens)) == tokens
    decreases |tokens|
  {
    if tokens != [] {
      var t, rest := tokens[0], tokens[1..];
      LexJoined(rest);
      if IsMark(t) {
        LexMark("", t, Join(rest));
      } else {
        LexWord("", t, Join(rest));
        assert "" + t == t;
        if rest != [] {
          LexMark(t, rest[0], Join(rest[1..]));
          LexMark("", rest[0], Join(rest[1..]));
        }
      }
    }
  }

  lemma LexMark(buf: string, mark: string, rest: string)
    requires IsMark(mark)
    ensures LexFrom(buf, mark + rest) == Flush(buf) + ([mark] + Lex(rest))
  {
    assert (mark + rest)[1..] == rest && (mark + rest)[0] == mark[0] && [mark[0]] == mark;
  }

  lemma {:induction false} LexIgnoresSpaces(buf: string, env: string)
    ensures LexFrom(buf, Strip(env)) == LexFrom(buf, env)
    decreases |env|
  {
    if env != [] {
      var tail := Strip(env[1..]);
      if env[0] == ' ' {
        assert Strip(env) == tail;
        LexIgnoresSpaces(buf, env[1..]);
      } else {
        assert Strip(env) == [env[0]] + tail && Strip(env)[1..] == tail;
        LexIgnoresSpaces(if Delimiter(env[0]) then "" else buf + [env[0]], env[1..]);
      }
    }
  }

  /** The token list of a string is the only list of delimiters and separated words that spells
      the string without its spaces. */
  lemma LexCharacterised(env: string, tokens: seq<string>)
    ensures tokens == Lex(env) <==> WellLexed(tokens) && Join(tokens) == Strip(env)
  {
    LexKeepsText("", env);
    LexIsWellLexed("", env);
    if WellLexed(tokens) && Join(tokens) == Strip(env) {
      LexJoined(tokens);
      LexIgnoresSpaces("", env);
    }
  }

  /** Lexing what was lexed changes nothing. */
  lemma LexIdempotent(env: string)
    ensures Lex(Join(Lex(env))) == Lex(env)
  {
    LexIsWellLexed("", env);
    LexJoined(Lex(env));
  }

  // ---------------------------------------------------------------------- numbers

  predicate IsDigit(c: char) { '0' <= c <= '9' }

  function DigitChar(d: nat): char requires d < 10 { '0' + d as char }

  function DigitValue(c: char): nat { if IsDigit(c) then (c - '0') as nat else 0 }

  function LeadingDigits(s: string): string {
    if s != "" && IsDigit(s[0]) then [s[0]] + LeadingDigits(s[1..]) else ""
  }

  function DecimalValue(s: string): nat {
    if s == "" then 0 else DecimalValue(s[..|s| - 1]) * 10 + DigitValue(s[|s| - 1])
  }

  function SkipBlanks(s: string): string {
    if s != "" && (s[0] == ' ' || '\U{0009}' <= s[0] <= '\U{000D}') then SkipBlanks(s[1..]) else s
  }

  /** What strtol and strtoul read: optional blanks, a sign and at least one digit; whatever
      follows is ignored. */
  function Scan(text: string): Option<int> {
    var s := SkipBlanks(text);
    var negative := s != "" && s[0] == '-';
    var body := if s != "" && (s[0] == '-' || s[0] == '+') then s[1..] else s;
    var digits := LeadingDigits(body);
    if digits == "" then None
    else if negative then Some(0 - DecimalValue(digits)) else Some(DecimalValue(digits))
  }

  const WORD: int := 0x1_0000_0000_0000_0000

  /** std::stoi, whose result is then converted to size_t. */
  function StoiAsSize(text: string): Option<nat> {
    match Scan(text)
    case None => None
    case Some(n) => if -0x8000_0000 <= n < 0x8000_0000 then Some(if n < 0 then WORD + n else n) else None
  }

  /** std::stoul: a minus sign negates modulo the word size. */
  function Stoul(text: string): Option<nat> {
    match Scan(text)
    case None => None
    case Some(n) => if 0 - WORD < n < WORD then Some(if n < 0 then WORD + n else n) else None
  }

  function Decimal(n: nat): (s: string)
    ensures s != "" && forall i :: 0 <= i < |s| ==> IsDigit(s[i])
  {
    if n < 10 then [DigitChar(n)] else Decimal(n / 10) + [DigitChar(n % 10)]
  }

  lemma {:induction false} DecimalRoundTrip(n: nat)
    ensures DecimalValue(Decimal(n)) == n
  {
    var s := Decimal(n);
    if n < 10 {
      assert s[..|s| - 1] == "" && DigitValue(s[0]) == n;
    } else {
      DecimalRoundTrip(n / 10);
      assert s[..|s| - 1] == Decimal(n / 10) && DigitValue(s[|s| - 1]) == n % 10;
    }
  }

  lemma {:induction false} AllLeading(s: string)
    requires forall i :: 0 <= i < |s| ==> IsDigit(s[i])
    ensures LeadingDigits(s) == s
  {
    if s != "" {
      AllLeading(s[1..]);
    }
  }

  /** Printing a number and reading it gives it back. */
  lemma ScanDecimal(n: nat)
    ensures Scan(Decimal(n)) == Some(n)
    ensures n < 0x8000_0000 ==> StoiAsSize(Decimal(n)) == Some(n)
    ensures n < WORD ==> Stoul(Decimal(n)) == Some(n)
    ensures IsWord(Decimal(n))
  {
    var s := Decimal(n);
    DecimalRoundTrip(n);
    AllLeading(s);
    assert IsDigit(s[0]);
    assert SkipBlanks(s) == s;
  }
}
