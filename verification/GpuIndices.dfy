/** The annotation through which the node-side allocator advertises a Pod's GPUs: decimal numbers between commas. */
module GpuIndices {
  import opened Options

  /** White space as `str.strip` knows it. */
  predicate IsSpace(c: char) {
    || c == ' ' || ('\t' <= c <= '\r') || ('\U{1c}' <= c <= '\U{1f}') || c == '\U{85}' || c == '\U{a0}' || c == '\U{1680}'
    || ('\U{2000}' <= c <= '\U{200a}') || c == '\U{2028}' || c == '\U{2029}' || c == '\U{202f}' || c == '\U{205f}'
    || c == '\U{3000}'
  }

  function StripLeft(s: string): string {
    if s != "" && IsSpace(s[0]) then StripLeft(s[1..]) else s
  }

  function StripRight(s: string): string {
    if s != "" && IsSpace(s[|s| - 1]) then StripRight(s[..|s| - 1]) else s
  }

  function Strip(s: string): string {
    StripRight(StripLeft(s))
  }

  /** The pieces between separators; at least one. */
  function Split(s: string, sep: char): (r: seq<string>)
    ensures |r| >= 1
  {
    if s == "" then [""]
    else
      var rest := Split(s[1..], sep);
      if s[0] == sep then [""] + rest else [[s[0]] + rest[0]] + rest[1..]
  }

  predicate IsDigit(c: char) {
    '0' <= c <= '9'
  }

  predicate IsDecimal(s: string) {
    s != "" && forall i :: 0 <= i < |s| ==> IsDigit(s[i])
  }

  function DigitValue(c: char): nat
    requires IsDigit(c)
  {
    c as int - '0' as int
  }

  function Value(s: string): nat
    requires forall i :: 0 <= i < |s| ==> IsDigit(s[i])
  {
    if s == "" then 0 else 10 * Value(s[..|s| - 1]) + DigitValue(s[|s| - 1])
  }

  /** The numbers the pieces stand for, unless one of them is no number. */
  function Values(pieces: seq<string>): Option<seq<nat>> {
    if pieces == [] then Some([])
    else
      var token := Strip(pieces[|pieces| - 1]);
      match Values(pieces[..|pieces| - 1])
      case None => None
      case Some(before) => if IsDecimal(token) then Some(before + [Value(token)]) else None
  }

  predicate NoRepeats(s: seq<nat>) {
    forall i, j :: 0 <= i < j < |s| ==> s[i] != s[j]
  }

  function InsertNat(s: seq<nat>, x: nat): seq<nat> {
    if s == [] || s[|s| - 1] <= x then s + [x] else InsertNat(s[..|s| - 1], x) + [s[|s| - 1]]
  }

  function SortNats(s: seq<nat>): seq<nat> {
    if s == [] then [] else InsertNat(SortNats(s[..|s| - 1]), s[|s| - 1])
  }

  /** The advertised indices in ascending order; nothing for a blank, malformed or repeating annotation. */
  function Parse(raw: string): Option<seq<nat>> {
    if Strip(raw) == "" then None
    else
      match Values(Split(raw, ','))
      case None => None
      case Some(values) => if NoRepeats(values) then Some(SortNats(values)) else None
  }

  /** The parsing loop. */
  method ParseIndices(raw: string) returns (r: Option<seq<nat>>)
    ensures r == Parse(raw)
  {
    if Strip(raw) == "" {
      return None;
    }
    var pieces := Split(raw, ',');
    var indices: seq<nat> := [];
    for k := 0 to |pieces|
      invariant Values(pieces[..k]) == Some(indices)
    {
      var token := Strip(pieces[k]);
      assert pieces[..k + 1][..k] == pieces[..k];
      if !IsDecimal(token) {
        ValuesFail(pieces, k + 1);
        return None;
      }
      indices := indices + [Value(token)];
    }
    assert pieces[..|pieces|] == pieces;
    return if NoRepeats(indices) then Some(SortNats(indices)) else None;
  }

  lemma {:induction false} ValuesFail(pieces: seq<string>, k: nat)
    requires k <= |pieces| && Values(pieces[..k]) == None
    ensures Values(pieces) == None
    decreases |pieces| - k
  {
    if k == |pieces| {
      assert pieces[..k] == pieces;
    } else {
      assert pieces[..k + 1][..k] == pieces[..k];
      ValuesFail(pieces, k + 1);
    }
  }

  ghost predicate Ascending(s: seq<nat>) {
    forall i, j :: 0 <= i < j < |s| ==> s[i] < s[j]
  }

  lemma {:induction false} InsertAscending(s: seq<nat>, x: nat)
    requires Ascending(s) && x !in s
    ensures Ascending(InsertNat(s, x)) && forall y :: y in InsertNat(s, x) <==> y in s || y == x
  {
    if s != [] && s[|s| - 1] > x {
      var init, last := s[..|s| - 1], s[|s| - 1];
      InsertAscending(init, x);
      var r := InsertNat(init, x);
      forall i | 0 <= i < |r| ensures r[i] < last {
        assert r[i] in r;
      }
      assert s == init + [last];
    }
  }

  lemma {:induction false} SortAscending(s: seq<nat>)
    requires NoRepeats(s)
    ensures Ascending(SortNats(s)) && forall y :: y in SortNats(s) <==> y in s
  {
    if s == [] {
    } else {
      var init, last := s[..|s| - 1], s[|s| - 1];
      SortAscending(init);
      InsertAscending(SortNats(init), last);
      assert s == init + [last];
    }
  }

  /** What is advertised is a non-empty ascending list of distinct indices. */
  lemma ParsedIsAscending(raw: string)
    requires Parse(raw).Some?
    ensures Ascending(Parse(raw).value)
  {
    SortAscending(Values(Split(raw, ',')).value);
  }

  // ----- Writing a number -----

  function Digits(n: nat): string {
    if n < 10 then [('0' as int + n) as char] else Digits(n / 10) + Digits(n % 10)
  }

  lemma {:induction false} DigitsRead(n: nat)
    ensures IsDecimal(Digits(n)) && Value(Digits(n)) == n
  {
    if n < 10 {
      assert Digits(n)[..0] == "";
    } else {
      DigitsRead(n / 10);
      DigitsRead(n % 10);
      assert Digits(n)[..|Digits(n)| - 1] == Digits(n / 10);
    }
  }
}
