/** Which annotations are accepted, and as what, said of their text alone: numbers in decimal, white space around them as
    it may be, between commas. */
module Annotations {
  import opened Options
  import opened GpuIndices

  // ----- The text -----

  /** The white space of Python strings: 29 characters. */
  lemma SpacesExactly(c: char)
    ensures IsSpace(c) <==>
      c as int in {9, 10, 11, 12, 13, 28, 29, 30, 31, 32, 133, 160, 5760, 8192, 8193, 8194, 8195, 8196, 8197, 8198, 8199, 8200,
                   8201, 8202, 8232, 8233, 8239, 8287, 12288}
    ensures IsSpace(c) ==> c != ',' && !IsDigit(c)
  {
  }

  ghost predicate AllSpace(s: string) {
    forall i :: 0 <= i < |s| ==> IsSpace(s[i])
  }

  ghost predicate Padded(piece: string, left: string, digits: string, right: string) {
    piece == left + digits + right && AllSpace(left) && AllSpace(right)
  }

  /** The piece is the number in decimal, leading zeros allowed, with any white space around it. */
  ghost predicate Writes(piece: string, n: nat) {
    exists left, digits, right :: Padded(piece, left, digits, right) && IsDecimal(digits) && Value(digits) == n
  }

  /** The pieces with commas between them. */
  function Join(pieces: seq<string>): string
    requires pieces != []
  {
    if |pieces| == 1 then pieces[0] else pieces[0] + "," + Join(pieces[1..])
  }

  ghost predicate WritesAll(pieces: seq<string>, values: seq<nat>) {
    |pieces| == |values| && forall i :: 0 <= i < |values| ==> Writes(pieces[i], values[i])
  }

  /** The annotation lists these numbers, in this order. */
  ghost predicate Lists(raw: string, values: seq<nat>) {
    exists pieces :: pieces != [] && Join(pieces) == raw && WritesAll(pieces, values)
  }

  /** Leading zeros do not count. With the round trip this fixes the value of every decimal text. */
  lemma {:induction false} LeadingZero(s: string)
    requires forall i :: 0 <= i < |s| ==> IsDigit(s[i])
    ensures forall i :: 0 <= i < |"0" + s| ==> IsDigit(("0" + s)[i])
    ensures Value("0" + s) == Value(s)
  {
    if s == "" {
      assert "0" + s == "0" && "0"[..0] == "";
    } else {
      LeadingZero(s[..|s| - 1]);
      assert ("0" + s)[..|s|] == "0" + s[..|s| - 1];
    }
  }

  // ----- Stripping -----

  lemma {:induction false} StripLeftOff(s: string) returns (left: string)
    ensures s == left + StripLeft(s) && AllSpace(left)
  {
    hide IsSpace;
    if s != "" && IsSpace(s[0]) {
      var more := StripLeftOff(s[1..]);
      left := [s[0]] + more;
      assert s == [s[0]] + s[1..];
    } else {
      left := "";
    }
  }

  lemma {:induction false} StripRightOff(s: string) returns (right: string)
    ensures s == StripRight(s) + right && AllSpace(right)
  {
    hide IsSpace;
    if s != "" && IsSpace(s[|s| - 1]) {
      var more := StripRightOff(s[..|s| - 1]);
      right := more + [s[|s| - 1]];
      assert s == s[..|s| - 1] + [s[|s| - 1]];
    } else {
      right := "";
    }
  }

  lemma {:induction false} LeftSpaceGoes(left: string, s: string)
    requires AllSpace(left) && s != "" && !IsSpace(s[0])
    ensures StripLeft(left + s) == s
  {
    hide IsSpace;
    if left == "" {
      assert left + s == s;
    } else {
      LeftSpaceGoes(left[1..], s);
      assert (left + s)[1..] == left[1..] + s;
    }
  }

  lemma {:induction false} RightSpaceGoes(s: string, right: string)
    requires AllSpace(right) && s != "" && !IsSpace(s[|s| - 1])
    ensures StripRight(s + right) == s
  {
    hide IsSpace;
    if right == "" {
      assert s + right == s;
    } else {
      var init := right[..|right| - 1];
      RightSpaceGoes(s, init);
      assert (s + right)[..|s + right| - 1] == s + init;
    }
  }

  /** Stripping takes off exactly the white space around a number. */
  lemma StripsToDigits(piece: string, digits: string)
    requires IsDecimal(digits)
    ensures Strip(piece) == digits <==> exists left, right :: Padded(piece, left, digits, right)
  {
    hide StripLeft, StripRight;
    if Strip(piece) == digits {
      var left := StripLeftOff(piece);
      var right := StripRightOff(StripLeft(piece));
      assert piece == left + digits + right;
      assert Padded(piece, left, digits, right);
    }
    if left, right :| Padded(piece, left, digits, right) {
      SpacesExactly(digits[0]);
      SpacesExactly(digits[|digits| - 1]);
      hide IsSpace;
      assert left + digits + right == left + (digits + right);
      LeftSpaceGoes(left, digits + right);
      RightSpaceGoes(digits, right);
    }
  }

  lemma WrittenValue(piece: string, n: nat)
    ensures Writes(piece, n) <==> IsDecimal(Strip(piece)) && Value(Strip(piece)) == n
  {
    hide Strip, IsSpace, Value;
    if IsDecimal(Strip(piece)) {
      StripsToDigits(piece, Strip(piece));
      if Value(Strip(piece)) == n {
        var left, right :| Padded(piece, left, Strip(piece), right);
      }
    }
    if left, digits, right :| Padded(piece, left, digits, right) && IsDecimal(digits) && Value(digits) == n {
      StripsToDigits(piece, digits);
    }
  }

  // ----- Splitting -----

  ghost predicate NoComma(s: string) {
    forall i :: 0 <= i < |s| ==> s[i] != ','
  }

  lemma {:induction false} SplitOfPiece(s: string)
    requires NoComma(s)
    ensures Split(s, ',') == [s]
  {
    if s == "" {
    } else {
      SplitOfPiece(s[1..]);
      assert s == [s[0]] + s[1..];
    }
  }

  lemma {:induction false} SplitAtComma(s: string, rest: string)
    requires NoComma(s)
    ensures Split(s + "," + rest, ',') == [s] + Split(rest, ',')
  {
    if s == "" {
      assert s + "," + rest == "," + rest;
      assert ("," + rest)[1..] == rest;
    } else {
      SplitAtComma(s[1..], rest);
      assert (s + "," + rest)[1..] == s[1..] + "," + rest;
      assert s == [s[0]] + s[1..];
    }
  }

  lemma {:induction false} SplitUndoesJoin(pieces: seq<string>)
    requires pieces != [] && forall i :: 0 <= i < |pieces| ==> NoComma(pieces[i])
    ensures Split(Join(pieces), ',') == pieces
  {
    hide NoComma;
    if |pieces| == 1 {
      SplitOfPiece(pieces[0]);
      assert pieces == [pieces[0]];
    } else {
      SplitUndoesJoin(pieces[1..]);
      SplitAtComma(pieces[0], Join(pieces[1..]));
      assert pieces == [pieces[0]] + pieces[1..];
    }
  }

  lemma {:induction false} JoinUndoesSplit(s: string)
    ensures Join(Split(s, ',')) == s
    ensures forall i :: 0 <= i < |Split(s, ',')| ==> NoComma(Split(s, ',')[i])
  {
    if s == "" {
    } else {
      JoinUndoesSplit(s[1..]);
      var rest, all := Split(s[1..], ','), Split(s, ',');
      assert s == [s[0]] + s[1..];
      if s[0] == ',' {
        assert all[1..] == rest;
      } else {
        assert all[1..] == rest[1..] && all[0] == [s[0]] + rest[0];
        if |rest| > 1 {
          assert Join(all) == [s[0]] + rest[0] + "," + Join(rest[1..]);
        }
      }
    }
  }

  /** Splitting at commas is the one way to write a text as pieces without commas. */
  lemma SplitsExactly(raw: string, pieces: seq<string>)
    requires pieces != []
    ensures Split(raw, ',') == pieces <==> Join(pieces) == raw && forall i :: 0 <= i < |pieces| ==> NoComma(pieces[i])
  {
    hide Split, Join, NoComma;
    JoinUndoesSplit(raw);
    if Join(pieces) == raw && forall i :: 0 <= i < |pieces| ==> NoComma(pieces[i]) {
      SplitUndoesJoin(pieces);
    }
  }

  lemma NumbersHaveNoComma(piece: string, n: nat)
    requires Writes(piece, n)
    ensures NoComma(piece)
  {
    var left, digits, right :| Padded(piece, left, digits, right) && IsDecimal(digits) && Value(digits) == n;
    hide IsSpace;
    forall i | 0 <= i < |piece| ensures piece[i] != ',' {
      SpacesExactly(piece[i]);
      assert piece[i] == if i < |left| then left[i] else if i < |left + digits| then digits[i - |left|]
                         else right[i - |left + digits|];
    }
  }

  // ----- Parsing -----

  lemma {:induction false} ValuesExactly(pieces: seq<string>, values: seq<nat>)
    ensures Values(pieces) == Some(values) <==> WritesAll(pieces, values)
  {
    hide Strip, Value, IsDecimal, Writes;
    if pieces == [] {
    } else if values == [] {
      WritesNothing(pieces);
    } else {
      var init, init' := pieces[..|pieces| - 1], values[..|values| - 1];
      ValuesExactly(init, init');
      WrittenValue(pieces[|pieces| - 1], values[|values| - 1]);
      assert values == init' + [values[|values| - 1]];
      assert WritesAll(pieces, values) <==> WritesAll(init, init') && Writes(pieces[|pieces| - 1], values[|values| - 1]) by {
        WritesLast(pieces, values);
      }
    }
  }

  lemma WritesNothing(pieces: seq<string>)
    requires pieces != []
    ensures Values(pieces) != Some([])
  {
    hide Strip, Value, IsDecimal;
  }

  lemma WritesLast(pieces: seq<string>, values: seq<nat>)
    requires pieces != [] && values != []
    ensures WritesAll(pieces, values)
            <==> && WritesAll(pieces[..|pieces| - 1], values[..|values| - 1])
                 && Writes(pieces[|pieces| - 1], values[|values| - 1])
  {
    hide Writes;
  }

  lemma ListedValues(raw: string, values: seq<nat>)
    ensures Lists(raw, values) <==> Values(Split(raw, ',')) == Some(values)
  {
    hide Writes, Split, Values, Join;
    ValuesExactly(Split(raw, ','), values);
    JoinUndoesSplit(raw);
    if pieces :| pieces != [] && Join(pieces) == raw && WritesAll(pieces, values) {
      forall i | 0 <= i < |pieces| ensures NoComma(pieces[i]) {
        NumbersHaveNoComma(pieces[i], values[i]);
      }
      SplitsExactly(raw, pieces);
    }
  }

  lemma {:induction false} AllSpaceStripsAway(s: string)
    ensures Strip(s) == "" ==> Values(Split(s, ',')) == None
  {
    if Strip(s) == "" {
      var left := StripLeftOff(s);
      var right := StripRightOff(StripLeft(s));
      hide Strip, IsSpace, StripLeft, StripRight;
      assert s == left + right;
      forall i | 0 <= i < |s| ensures s[i] != ',' {
        SpacesExactly(s[i]);
      }
      SplitOfPiece(s);
      assert [s][..0] == [];
    }
  }

  /** The numbers, whatever their order, in ascending order. */
  ghost predicate Ordered(values: seq<nat>, r: seq<nat>) {
    Ascending(r) && forall v :: v in r <==> v in values
  }

  lemma WithoutGreatest(r: seq<nat>, v: nat)
    requires Ascending(r) && r != []
    ensures Ascending(r[..|r| - 1]) && (v in r[..|r| - 1] <==> v in r && v != r[|r| - 1])
    ensures r[|r| - 1] in r && (v in r ==> v <= r[|r| - 1])
  {
    assert r == r[..|r| - 1] + [r[|r| - 1]];
  }

  lemma {:induction false} OrderedOnce(r: seq<nat>, r': seq<nat>)
    requires Ascending(r) && Ascending(r') && forall v :: v in r <==> v in r'
    ensures r == r'
  {
    hide Ascending;
    assert (r != [] ==> r[0] in r) && (r' != [] ==> r'[0] in r');
    if r != [] && r' != [] {
      var init, init', x, y := r[..|r| - 1], r'[..|r'| - 1], r[|r| - 1], r'[|r'| - 1];
      WithoutGreatest(r, y);
      WithoutGreatest(r', x);
      assert x == y;
      forall v: nat ensures v in init <==> v in init' {
        WithoutGreatest(r, v);
        WithoutGreatest(r', v);
      }
      OrderedOnce(init, init');
      assert r == init + [x] && r' == init' + [y];
    }
  }

  /** An annotation is accepted exactly when it lists numbers without repeating one, and then as those numbers in ascending
      order. Anything else is rejected: a piece that is no number, an empty piece, a blank text, a repetition. */
  lemma ParsesExactly(raw: string, r: seq<nat>)
    ensures Parse(raw) == Some(r) <==> exists values :: Lists(raw, values) && NoRepeats(values) && Ordered(values, r)
  {
    hide Split, Values, Strip, Lists, SortNats, NoRepeats, Ascending;
    AllSpaceStripsAway(raw);
    if Parse(raw) == Some(r) {
      var values := Values(Split(raw, ',')).value;
      ListedValues(raw, values);
      SortAscending(values);
      assert Ordered(values, r);
    }
    if values :| Lists(raw, values) && NoRepeats(values) && Ordered(values, r) {
      ListedValues(raw, values);
      SortAscending(values);
      OrderedOnce(r, SortNats(values));
    }
  }

  /** The number in its shortest form with any white space around it. */
  ghost predicate WritesPlainly(piece: string, n: nat) {
    exists left, right :: Padded(piece, left, Digits(n), right)
  }

  /** Any distinct numbers, in any order, with any white space around each, are read back in ascending order. */
  lemma PaddedRoundTrip(values: seq<nat>, pieces: seq<string>)
    requires values != [] && NoRepeats(values) && |pieces| == |values|
    requires forall i :: 0 <= i < |values| ==> WritesPlainly(pieces[i], values[i])
    ensures Parse(Join(pieces)).Some? && Ordered(values, Parse(Join(pieces)).value)
  {
    hide Padded, Parse, Ascending, Value, IsDecimal, Digits, Join;
    forall i | 0 <= i < |values| ensures Writes(pieces[i], values[i]) {
      DigitsRead(values[i]);
      var left, right :| Padded(pieces[i], left, Digits(values[i]), right);
    }
    assert Lists(Join(pieces), values);
    SortAscending(values);
    ParsesExactly(Join(pieces), SortNats(values));
  }

  /** What an allocator writes: the indices in decimal, with commas between them. */
  function Format(s: seq<nat>): string
    requires s != []
  {
    Join(seq(|s|, i requires 0 <= i < |s| => Digits(s[i])))
  }

  lemma PlainIsPadded(piece: string)
    ensures Padded(piece, "", piece, "")
  {
  }

  /** An ascending list of distinct indices is read back exactly. */
  lemma RoundTrip(s: seq<nat>)
    requires s != [] && Ascending(s)
    ensures Parse(Format(s)) == Some(s)
  {
    hide Join, Parse, Digits, Padded;
    var pieces := seq(|s|, i requires 0 <= i < |s| => Digits(s[i]));
    forall i | 0 <= i < |s| ensures WritesPlainly(pieces[i], s[i]) {
      PlainIsPadded(pieces[i]);
    }
    PaddedRoundTrip(s, pieces);
    OrderedOnce(s, Parse(Format(s)).value);
  }

  /** White space after a comma is no matter. */
  lemma SpacedPair()
    ensures Parse("0, 2") == Some([0, 2])
  {
    var pieces := ["0", " 2"];
    assert Padded("0", "", Digits(0), "");
    assert Padded(" 2", " ", Digits(2), "");
    assert pieces[1..] == [" 2"];
    assert Join(pieces) == "0" + "," + Join([" 2"]) == "0, 2";
    hide Padded, Parse, Digits, Join;
    var values: seq<nat> := [0, 2];
    forall i | 0 <= i < 2 ensures WritesPlainly(pieces[i], values[i]) {
      if i == 0 {
        assert Padded(pieces[i], "", Digits(values[i]), "");
      } else {
        assert Padded(pieces[i], " ", Digits(values[i]), "");
      }
    }
    PaddedRoundTrip(values, pieces);
    OrderedOnce([0, 2], Parse("0, 2").value);
  }

  /** One piece that is no number, such as an empty one, rejects the whole annotation; so does a number listed twice. */
  lemma Rejected(pieces: seq<string>, i: nat, j: nat, n: nat)
    requires i < |pieces| && j < |pieces| && forall k :: 0 <= k < |pieces| ==> NoComma(pieces[k])
    requires (forall v :: !Writes(pieces[i], v)) || (i != j && Writes(pieces[i], n) && Writes(pieces[j], n))
    ensures Parse(Join(pieces)) == None
  {
    hide Writes, Join, Parse, NoComma, Split;
    SplitsExactly(Join(pieces), pieces);
    if Parse(Join(pieces)).Some? {
      ParsesExactly(Join(pieces), Parse(Join(pieces)).value);
      var values :| Lists(Join(pieces), values) && NoRepeats(values) && Ordered(values, Parse(Join(pieces)).value);
      ListedValues(Join(pieces), values);
      ValuesExactly(pieces, values);
      assert Writes(pieces[i], values[i]) && Writes(pieces[j], values[j]);
      if i != j && Writes(pieces[i], n) && Writes(pieces[j], n) {
        OneValue(pieces[i], n, values[i]);
        OneValue(pieces[j], n, values[j]);
      }
      assert false;
    }
  }

  lemma OneValue(piece: string, n: nat, m: nat)
    requires Writes(piece, n) && Writes(piece, m)
    ensures n == m
  {
    hide Writes, Strip, Value, IsDecimal;
    WrittenValue(piece, n);
    WrittenValue(piece, m);
  }
}
