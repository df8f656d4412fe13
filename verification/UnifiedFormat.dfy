/** Hunk headers of a unified diff: printing two line ranges and recognising them again. */
module UnifiedFormat {
  import opened Wrappers

  // ---------------------------------------------------------------- decimal numerals

  predicate IsDigit(c: char) { '0' <= c <= '9' }

  predicate AllDigits(s: string) { forall i :: 0 <= i < |s| ==> IsDigit(s[i]) }

  function Decimal(n: nat): (s: string)
    ensures s != "" && AllDigits(s)
  {
    if n < 10 then ['0' + n as char] else Decimal(n / 10) + ['0' + (n % 10) as char]
  }

  function Numeral(s: string): nat
    requires AllDigits(s)
  {
    if s == "" then 0 else 10 * Numeral(s[..|s| - 1]) + (s[|s| - 1] as int - '0' as int)
  }

  lemma {:induction false} NumeralDecimal(n: nat)
    ensures Numeral(Decimal(n)) == n
  {
    var s := Decimal(n);
    if n < 10 {
      assert s[..|s| - 1] == "";
    } else {
      NumeralDecimal(n / 10);
      assert s[..|s| - 1] == Decimal(n / 10);
    }
  }

  // ---------------------------------------------------------------- matching at a position

  /** The end of the digits of `line` that start at `i`. */
  function DigitsEnd(line: string, i: nat): (j: nat)
    requires i <= |line|
    ensures i <= j <= |line|
    ensures forall k :: i <= k < j ==> IsDigit(line[k])
    decreases |line| - i
  {
    if i < |line| && IsDigit(line[i]) then DigitsEnd(line, i + 1) else i
  }

  predicate At(line: string, i: nat, lit: string) {
    i + |lit| <= |line| && line[i..i + |lit|] == lit
  }

  datatype Header = Header(oldStart: nat, oldLength: nat, newStart: nat, newLength: nat)

  function RenderHeader(h: Header): string {
    "@@ -" + Decimal(h.oldStart) + "," + Decimal(h.oldLength) + " +" + Decimal(h.newStart) + "," + Decimal(h.newLength)
      + " @@"
  }

  /** A number that starts at `i` and is followed by `lit`, with the position after `lit`. */
  function NumberThen(line: string, i: nat, lit: string): (r: Option<(nat, nat)>)
    requires i <= |line|
    ensures r.Some? ==> r.value.1 <= |line|
  {
    var j := DigitsEnd(line, i);
    if i < j && At(line, j, lit) then Some((Numeral(line[i..j]), j + |lit|)) else None
  }

  function MatchHeaderAt(line: string, i: nat): Option<Header> {
    if !At(line, i, "@@ -") then None
    else match NumberThen(line, i + 4, ",")
      case None => None
      case Some((oldStart, i1)) =>
        match NumberThen(line, i1, " +")
        case None => None
        case Some((oldLength, i2)) =>
          match NumberThen(line, i2, ",")
          case None => None
          case Some((newStart, i3)) =>
            match NumberThen(line, i3, " @@")
            case None => None
            case Some((newLength, _)) => Some(Header(oldStart, oldLength, newStart, newLength))
  }

  /** The first match in the line, at or after `i`. */
  function FindHeader(line: string, i: nat): Option<Header>
    decreases |line| - i
  {
    var h := MatchHeaderAt(line, i);
    if h.Some? || i >= |line| then h else FindHeader(line, i + 1)
  }

  lemma {:induction false} DigitsEndIs(line: string, i: nat, j: nat)
    requires i <= j <= |line| && (forall k :: i <= k < j ==> IsDigit(line[k])) && (j < |line| ==> !IsDigit(line[j]))
    ensures DigitsEnd(line, i) == j
    decreases j - i
  {
    if i < j {
      DigitsEndIs(line, i + 1, j);
    }
  }

  lemma {:induction false} NumberThenDecimal(pre: string, n: nat, lit: string, post: string)
    requires lit != "" && !IsDigit(lit[0])
    ensures var line := pre + Decimal(n) + lit + post;
      NumberThen(line, |pre|, lit) == Some((n, |pre| + |Decimal(n)| + |lit|))
  {
    var line := pre + Decimal(n) + lit + post;
    var i, j := |pre|, |pre| + |Decimal(n)|;
    assert line[i..j] == Decimal(n);
    assert line[j..j + |lit|] == lit;
    assert line[j] == lit[0];
    assert forall k :: i <= k < j ==> line[k] == Decimal(n)[k - i];
    DigitsEndIs(line, i, j);
    NumeralDecimal(n);
  }

  /** A printed header is read back, and begins with the mark that the parser looks for. */
  lemma {:induction false} HeaderRoundTrip(h: Header)
    ensures FindHeader(RenderHeader(h), 0) == Some(h)
    ensures RenderHeader(h) != "" && RenderHeader(h)[0] == '@'
  {
    var a, b, c, d := Decimal(h.oldStart), Decimal(h.oldLength), Decimal(h.newStart), Decimal(h.newLength);
    var line := RenderHeader(h);
    hide Decimal, NumberThen;
    var p0 := "@@ -";
    var p1 := p0 + a + ",";
    var p2 := p1 + b + " +";
    var p3 := p2 + c + ",";
    var t3 := d + " @@";
    var t2 := c + "," + t3;
    var t1 := b + " +" + t2;
    assert p3 + t3 == line;
    assert p2 + t2 == p3 + t3;
    assert p1 + t1 == p2 + t2;
    assert p3 + d + " @@" + "" == line;
    NumberThenDecimal(p0, h.oldStart, ",", t1);
    NumberThenDecimal(p1, h.oldLength, " +", t2);
    NumberThenDecimal(p2, h.newStart, ",", t3);
    NumberThenDecimal(p3, h.newLength, " @@", "");
    assert line[0..4] == p0;
  }
}
