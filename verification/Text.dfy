/** Plain string search: prefixes, suffixes, first occurrences and comma-separated pieces. */
module Text {
  import opened Options

  predicate StartsWith(s: string, key: string) { |key| <= |s| && s[..|key|] == key }

  predicate EndsWith(s: string, key: string) { |key| <= |s| && s[|s| - |key|..] == key }

  /** The first position at which the key occurs. */
  function Find(s: string, key: string): (r: Option<nat>)
    ensures r.Some? ==> r.value + |key| <= |s|
  {
    if StartsWith(s, key) then Some(0)
    else if s == "" then None
    else
      var r := Find(s[1..], key);
      if r.Some? then Some(r.value + 1) else None
  }

  /** The text before the first occurrence of a character. */
  function UpTo(s: string, c: char): string {
    if s == "" || s[0] == c then "" else [s[0]] + UpTo(s[1..], c)
  }

  lemma {:induction false} FindAfter(a: string, b: string, key: string)
    requires forall p :: 0 <= p < |a| ==> !StartsWith((a + b)[p..], key)
    ensures Find(a + b, key) == var r := Find(b, key); if r.Some? then Some(r.value + |a|) else None
    decreases |a|
  {
    if a == "" {
      assert a + b == b;
    } else {
      assert (a + b)[0..] == a + b && (a + b)[1..] == a[1..] + b;
      forall p | 0 <= p < |a[1..]| ensures !StartsWith((a[1..] + b)[p..], key) {
        assert (a[1..] + b)[p..] == (a + b)[p + 1..];
      }
      FindAfter(a[1..], b, key);
    }
  }

  lemma {:induction false} UpToExact(value: string, tail: string)
    requires (forall i :: 0 <= i < |value| ==> value[i] != ' ') && (tail == "" || tail[0] == ' ')
    ensures UpTo(value + tail, ' ') == value
  {
    if value == "" {
      assert value + tail == tail;
    } else {
      assert (value + tail)[1..] == value[1..] + tail;
      UpToExact(value[1..], tail);
    }
  }

  /** The pieces between commas. */
  function Pieces(val: string): seq<string>
    decreases |val|
  {
    var pos := Find(val, ",");
    if pos.None? then [val] else [val[..pos.value]] + Pieces(val[pos.value + 1..])
  }

  function JoinPieces(pieces: seq<string>): string {
    if pieces == [] then "" else if |pieces| == 1 then pieces[0] else pieces[0] + ("," + JoinPieces(pieces[1..]))
  }

  lemma {:induction false} FindComma(val: string)
    ensures var pos := Find(val, ",");
      if pos.None? then ',' !in val else pos.value < |val| && val[pos.value] == ',' && ',' !in val[..pos.value]
  {
    if val != "" {
      assert StartsWith(val, ",") <==> val[0] == ',';
      FindComma(val[1..]);
      var pos := Find(val[1..], ",");
      if val[0] != ',' {
        if pos.Some? {
          assert val[..pos.value + 1] == [val[0]] + val[1..][..pos.value];
        } else {
          assert val == [val[0]] + val[1..];
        }
      }
    }
  }

  /** The pieces contain no comma and joined by commas give the value back. */
  lemma {:induction false} PiecesSplit(val: string)
    ensures JoinPieces(Pieces(val)) == val && Pieces(val) != []
    ensures forall p :: p in Pieces(val) ==> ',' !in p
    decreases |val|
  {
    FindComma(val);
    var pos := Find(val, ",");
    if pos.Some? {
      PiecesSplit(val[pos.value + 1..]);
      assert val == val[..pos.value] + ("," + val[pos.value + 1..]);
      assert Pieces(val)[1..] == Pieces(val[pos.value + 1..]);
    }
  }
}
