/** String helpers that the pipeline relies on: ASCII lower-casing, the suffix
    test of `str.endswith`, decimal rendering of integers as Python's `str(int)`
    and f-strings do it, and `str.join`. */
module Text {

  /** Lower-cases one character; only ASCII letters change. */
  function LowerChar(c: char): char {
    if 'A' <= c <= 'Z' then (c as int + 32) as char else c
  }

  /** Python's `s.lower()`, restricted to ASCII letters. */
  function Lower(s: string): string {
    seq(|s|, i requires 0 <= i < |s| => LowerChar(s[i]))
  }

  lemma LowerIdempotent(s: string)
    ensures Lower(Lower(s)) == Lower(s)
  {
    assert forall i :: 0 <= i < |s| ==> Lower(Lower(s))[i] == Lower(s)[i];
  }

  /** Python's `s.endswith(suffix)`. */
  predicate EndsWith(s: string, suffix: string) {
    |suffix| <= |s| && s[|s| - |suffix|..] == suffix
  }

  predicate IsDigit(c: char) {
    '0' <= c <= '9'
  }

  predicate AllDigits(s: string) {
    forall i :: 0 <= i < |s| ==> IsDigit(s[i])
  }

  function DigitChar(d: nat): (c: char)
    requires d < 10
    ensures IsDigit(c) && c as int - '0' as int == d
  {
    (d + '0' as int) as char
  }

  function DigitValue(c: char): nat
    requires IsDigit(c)
  {
    c as int - '0' as int
  }

  /** Decimal rendering of a natural number, most significant digit first. */
  function NatToString(n: nat): (s: string)
    ensures |s| >= 1 && AllDigits(s)
    ensures |s| == 1 <==> n < 10
    decreases n
  {
    if n < 10 then [DigitChar(n)] else NatToString(n / 10) + [DigitChar(n % 10)]
  }

  /** Reads a decimal numeral back; the inverse of NatToString. */
  function ParseNat(s: string): nat
    requires AllDigits(s)
    decreases |s|
  {
    if s == [] then 0 else 10 * ParseNat(s[..|s| - 1]) + DigitValue(s[|s| - 1])
  }

  lemma {:induction false} ParseNatToString(n: nat)
    ensures ParseNat(NatToString(n)) == n
    decreases n
  {
    if n >= 10 {
      var s := NatToString(n);
      assert s[..|s| - 1] == NatToString(n / 10);
      ParseNatToString(n / 10);
    }
  }

  /** Decimal numerals name numbers one-to-one, so `id_<i>` keys never collide. */
  lemma NatToStringInjective(a: nat, b: nat)
    requires NatToString(a) == NatToString(b)
    ensures a == b
  {
    ParseNatToString(a);
    ParseNatToString(b);
  }

  /** Python's `str(i)` for an `int`: a leading `-` for negative values. */
  function IntToString(i: int): (s: string)
  {
    if i < 0 then "-" + NatToString(-i) else NatToString(i)
  }

  /** Reads back what IntToString writes. */
  function ParseInt(s: string): int
    requires |s| >= 1
    requires s[0] == '-' ==> AllDigits(s[1..])
    requires s[0] != '-' ==> AllDigits(s)
  {
    if s[0] == '-' then 0 - ParseNat(s[1..]) as int else ParseNat(s)
  }

  lemma IntToStringRoundTrip(i: int)
    ensures var s := IntToString(i);
      |s| >= 1 && (s[0] == '-' ==> AllDigits(s[1..])) && (s[0] != '-' ==> AllDigits(s)) &&
      ParseInt(s) == i
  {
    var s := IntToString(i);
    if i < 0 {
      assert s[1..] == NatToString(-i);
      ParseNatToString(-i);
    } else {
      assert IsDigit(s[0]);
      ParseNatToString(i);
    }
  }

  lemma AppendAssociative<T>(a: seq<T>, b: seq<T>, c: seq<T>)
    ensures a + (b + c) == (a + b) + c
  {
  }

  /** A slice of the middle part of `a + b + c` is the same slice of `b`. */
  lemma SliceOfMiddle(a: string, b: string, c: string, i: nat, j: nat)
    requires i <= j <= |b|
    ensures (a + b + c)[|a| + i..|a| + j] == b[i..j]
  {
    var t := (a + b + c)[|a| + i..|a| + j];
    forall p | 0 <= p < |t|
      ensures t[p] == b[i..j][p]
    {
    }
  }

  /** Concatenation of all pieces, in order. */
  function Concat(pieces: seq<string>): string
    decreases |pieces|
  {
    if pieces == [] then "" else Concat(pieces[..|pieces| - 1]) + pieces[|pieces| - 1]
  }

  /** Python's `sep.join(pieces)`. */
  function Join(sep: string, pieces: seq<string>): string
    decreases |pieces|
  {
    if |pieces| == 0 then ""
    else if |pieces| == 1 then pieces[0]
    else Join(sep, pieces[..|pieces| - 1]) + sep + pieces[|pieces| - 1]
  }

  /** Concatenating a longer list only appends to the result of a prefix. */
  lemma {:induction false} ConcatPrefix(pieces: seq<string>, k: nat)
    requires k <= |pieces|
    ensures |Concat(pieces[..k])| <= |Concat(pieces)|
    ensures Concat(pieces)[..|Concat(pieces[..k])|] == Concat(pieces[..k])
    decreases |pieces|
  {
    if k < |pieces| {
      var init := pieces[..|pieces| - 1];
      assert init[..k] == pieces[..k];
      ConcatPrefix(init, k);
    } else {
      assert pieces[..k] == pieces;
    }
  }

  /** The k-th piece sits in the concatenation right after the first k pieces. */
  lemma ConcatPieceAt(pieces: seq<string>, k: nat)
    requires k < |pieces|
    ensures var off := |Concat(pieces[..k])|;
      off + |pieces[k]| <= |Concat(pieces)| &&
      Concat(pieces)[off..off + |pieces[k]|] == pieces[k]
  {
    var upto := pieces[..k + 1];
    assert upto[..k] == pieces[..k];
    assert upto[..|upto| - 1] == pieces[..k];
    ConcatPrefix(pieces, k + 1);
  }

  /** The same placement when the concatenation is framed by a header and a footer. */
  lemma FramedPieceAt(header: string, pieces: seq<string>, footer: string, k: nat)
    requires k < |pieces|
    ensures var off := |header| + |Concat(pieces[..k])|;
      off + |pieces[k]| <= |header + Concat(pieces) + footer| &&
      (header + Concat(pieces) + footer)[off..off + |pieces[k]|] == pieces[k]
  {
    ConcatPieceAt(pieces, k);
    var off := |Concat(pieces[..k])|;
    SliceOfMiddle(header, Concat(pieces), footer, off, off + |pieces[k]|);
  }

  /** Joining a longer list only appends to the join of a non-empty prefix. */
  lemma {:induction false} JoinPrefix(sep: string, pieces: seq<string>, k: nat)
    requires k <= |pieces|
    ensures |Join(sep, pieces[..k])| <= |Join(sep, pieces)|
    ensures Join(sep, pieces)[..|Join(sep, pieces[..k])|] == Join(sep, pieces[..k])
    decreases |pieces|
  {
    if k < |pieces| {
      var init := pieces[..|pieces| - 1];
      assert init[..k] == pieces[..k];
      JoinPrefix(sep, init, k);
      if |pieces| == 1 {
        assert pieces[..k] == [];
      }
    } else {
      assert pieces[..k] == pieces;
    }
  }

  /** The k-th piece of a join follows the join of the first k pieces and,
      unless it is the first, one separator. */
  lemma JoinPieceAt(sep: string, pieces: seq<string>, k: nat)
    requires k < |pieces|
    ensures var off := |Join(sep, pieces[..k])| + (if k == 0 then 0 else |sep|);
      off + |pieces[k]| <= |Join(sep, pieces)| &&
      Join(sep, pieces)[off..off + |pieces[k]|] == pieces[k]
  {
    var upto := pieces[..k + 1];
    assert upto[..k] == pieces[..k];
    assert upto[..|upto| - 1] == pieces[..k];
    JoinPrefix(sep, pieces, k + 1);
  }
}
