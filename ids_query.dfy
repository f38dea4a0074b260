/**
 * The `id` query parameter of a metadata request: the identifiers written as
 * decimal numerals (JavaScript's number-to-string conversion of an integer)
 * and joined with ",", as `ids.join(",")` does. The parser beside it is the
 * inverse used to state that the query loses nothing and keeps the order.
 */
module IdsQuery {

  const Separator: char := ','

  predicate IsDigit(c: char)
  {
    '0' <= c <= '9'
  }

  function DigitChar(d: nat): (c: char)
    requires d < 10
    ensures IsDigit(c) && DigitValue(c) == d
  {
    ('0' as int + d) as char
  }

  function DigitValue(c: char): nat
  {
    if IsDigit(c) then c as int - '0' as int else 0
  }

  /** Reads a string of digits, most significant first. */
  function DecimalToNat(s: string): nat
  {
    if s == [] then 0 else 10 * DecimalToNat(s[..|s| - 1]) + DigitValue(s[|s| - 1])
  }

  /**
   * The decimal numeral of `n`: non-empty, digits only, no leading zero,
   * and read back as `n`.
   */
  function NatToDecimal(n: nat): (s: string)
    ensures |s| >= 1
    ensures forall i :: 0 <= i < |s| ==> IsDigit(s[i])
    ensures |s| > 1 ==> s[0] != '0'
    ensures DecimalToNat(s) == n
    decreases n
  {
    if n < 10 then [DigitChar(n)]
    else
      var s := NatToDecimal(n / 10) + [DigitChar(n % 10)];
      assert s[..|s| - 1] == NatToDecimal(n / 10);
      s
  }

  /** A numeral with an optional leading minus sign. */
  function DecimalToInt(s: string): int
  {
    if |s| > 0 && s[0] == '-' then 0 - DecimalToNat(s[1..]) as int else DecimalToNat(s)
  }

  /** The numeral of an integer: never empty, never holds the separator, read back as `i`. */
  function IntToDecimal(i: int): (s: string)
    ensures |s| >= 1 && Separator !in s
    ensures DecimalToInt(s) == i
  {
    if i < 0 then
      var digits := NatToDecimal(-i);
      assert ("-" + digits)[1..] == digits;
      "-" + digits
    else NatToDecimal(i)
  }

  /** `parts.join(sep)`: the parts in order with one separator between neighbours. */
  function Join(parts: seq<string>, sep: char): string
  {
    if |parts| == 0 then ""
    else if |parts| == 1 then parts[0]
    else parts[0] + [sep] + Join(parts[1..], sep)
  }

  /** `s.split(sep)`: the maximal separator-free pieces, always at least one. */
  function Split(s: string, sep: char): (pieces: seq<string>)
    ensures |pieces| >= 1
  {
    if s == [] then [""]
    else
      var rest := Split(s[1..], sep);
      if s[0] == sep then [""] + rest else [[s[0]] + rest[0]] + rest[1..]
  }

  function Numerals(ids: seq<int>): (parts: seq<string>)
    ensures |parts| == |ids|
  {
    seq(|ids|, k requires 0 <= k < |ids| => IntToDecimal(ids[k]))
  }

  /** The value of the `id` query parameter for a batch of identifiers. */
  function JoinIds(ids: seq<int>): string
  {
    Join(Numerals(ids), Separator)
  }

  /** Reads an `id` query parameter back into identifiers. */
  function ParseIds(q: string): seq<int>
  {
    if q == "" then []
    else
      var pieces := Split(q, Separator);
      seq(|pieces|, k requires 0 <= k < |pieces| => DecimalToInt(pieces[k]))
  }

  /** Splitting a separator-free prefix glues it onto the first piece of the rest. */
  lemma {:induction false} SplitPrefix(a: string, r: string, sep: char)
    requires sep !in a
    ensures Split(a + r, sep) == [a + Split(r, sep)[0]] + Split(r, sep)[1..]
  {
    if a != [] {
      assert (a + r)[1..] == a[1..] + r;
      SplitPrefix(a[1..], r, sep);
      assert [a[0]] + (a[1..] + Split(r, sep)[0]) == a + Split(r, sep)[0];
    } else {
      var pieces := Split(r, sep);
      assert a + r == r;
      assert a + pieces[0] == pieces[0];
      assert [pieces[0]] + pieces[1..] == pieces;
    }
  }

  /** Splitting a join gives the parts back when no part holds the separator. */
  lemma {:induction false} SplitJoin(parts: seq<string>, sep: char)
    requires |parts| >= 1
    requires forall k :: 0 <= k < |parts| ==> sep !in parts[k]
    ensures Split(Join(parts, sep), sep) == parts
  {
    if |parts| == 1 {
      SplitPrefix(parts[0], "", sep);
      assert parts[0] + "" == parts[0];
    } else {
      var tail := Join(parts[1..], sep);
      SplitJoin(parts[1..], sep);
      assert parts[0] + [sep] + tail == parts[0] + ([sep] + tail);
      SplitPrefix(parts[0], [sep] + tail, sep);
      assert ([sep] + tail)[1..] == tail;
      assert Split([sep] + tail, sep) == [""] + parts[1..];
      assert parts[0] + "" == parts[0];
      assert [parts[0]] + parts[1..] == parts;
    }
  }

  lemma JoinNonEmpty(parts: seq<string>, sep: char)
    requires |parts| >= 1 && |parts[0]| >= 1
    ensures Join(parts, sep) != ""
  {
    if |parts| > 1 {
      assert |parts[0] + [sep] + Join(parts[1..], sep)| >= 1;
    }
  }

  /**
   * The `id` query parameter determines the batch: parsing it gives back
   * exactly the identifiers, in their order, the empty batch included.
   */
  lemma ParseJoinIds(ids: seq<int>)
    ensures ParseIds(JoinIds(ids)) == ids
  {
    var parts := Numerals(ids);
    if |ids| == 0 {
      assert JoinIds(ids) == "";
    } else {
      JoinNonEmpty(parts, Separator);
      SplitJoin(parts, Separator);
      var pieces := Split(JoinIds(ids), Separator);
      assert pieces == parts;
      assert forall k :: 0 <= k < |ids| ==> DecimalToInt(pieces[k]) == ids[k];
    }
  }

  /** Scenario: three identifiers become "1,27,1027". */
  lemma JoinIdsExample()
    ensures JoinIds([1, 27, 1027]) == "1,27,1027"
  {
    assert NatToDecimal(1) == "1";
    assert NatToDecimal(2) == "2";
    assert NatToDecimal(27) == "27";
    assert NatToDecimal(10) == "10";
    assert NatToDecimal(102) == "102";
    assert NatToDecimal(1027) == "1027";
    assert Numerals([1, 27, 1027]) == ["1", "27", "1027"];
  }
}
