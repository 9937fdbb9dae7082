/** Numbers and payloads in text form (libhtttp/payload.c): what is printed is read back. */
module Payload {
  import opened Hypertext

  // ----- Decimal numbers -----

  function Digit(d: nat): char
    requires d < 10
  {
    ('0' as int + d) as char
  }

  predicate IsDigit(c: char) {
    '0' <= c <= '9'
  }

  function Digits(n: nat): (s: string)
    ensures s != ""
  {
    if n < 10 then [Digit(n)] else Digits(n / 10) + [Digit(n % 10)]
  }

  /** `%d`, and `%u` for numbers that are not negative. */
  function PrintInt(x: int): string {
    if x < 0 then "-" + Digits(-x) else Digits(x)
  }

  /** Reads digits from `i` on into `acc`; the value and where it ends. */
  function ScanDigits(s: string, i: nat, acc: nat): (r: (nat, nat))
    ensures r.1 >= i
    decreases |s| - i
  {
    if i < |s| && IsDigit(s[i]) then ScanDigits(s, i + 1, acc * 10 + (s[i] as int - '0' as int)) else (acc, i)
  }

  function SkipSpace(s: string, i: nat): (j: nat)
    ensures j >= i
    decreases |s| - i
  {
    if i < |s| && s[i] in " \t\n\r" then SkipSpace(s, i + 1) else i
  }

  /** `%d` or `%u` of a scan: blanks, a sign, at least one digit. */
  function ScanInt(s: string, i: nat): Option<(int, nat)> {
    var j := SkipSpace(s, i);
    var neg := j < |s| && s[j] == '-';
    var k := if j < |s| && (s[j] == '-' || s[j] == '+') then j + 1 else j;
    if k < |s| && IsDigit(s[k])
    then
      var r := ScanDigits(s, k, 0);
      var v: int := r.0;
      Some((if neg then -v else v, r.1))
    else None
  }

  lemma {:induction false} DigitsAreDigits(n: nat)
    ensures forall k | 0 <= k < |Digits(n)| :: IsDigit(Digits(n)[k])
  {
    if n >= 10 {
      DigitsAreDigits(n / 10);
    }
  }

  lemma {:induction false} DigitsScan(s: string, i: nat, n: nat)
    requires Stands(s, i, Digits(n))
    ensures ScanDigits(s, i, 0) == ScanDigits(s, i + |Digits(n)|, n)
  {
    if n < 10 {
      assert s[i] == Digits(n)[0];
    } else {
      var q, j := n / 10, i + |Digits(n / 10)|;
      StandsSplit(s, i, Digits(q), [Digit(n % 10)]);
      DigitsScan(s, i, q);
      assert s[j] == [Digit(n % 10)][0];
    }
  }

  /** A printed number followed by no digit is read back exactly. */
  lemma IntRoundTrip(s: string, i: nat, x: int)
    requires Stands(s, i, PrintInt(x))
    requires i + |PrintInt(x)| < |s| ==> !IsDigit(s[i + |PrintInt(x)|])
    ensures ScanInt(s, i) == Some((x, i + |PrintInt(x)|))
  {
    var n, k := if x < 0 then -x else x, if x < 0 then i + 1 else i;
    DigitsAreDigits(n);
    if x < 0 {
      StandsSplit(s, i, "-", Digits(n));
      assert s[i] == "-"[0];
    }
    assert s[k] == Digits(n)[0];
    DigitsScan(s, k, n);
  }

  function Pow10(k: nat): nat {
    if k == 0 then 1 else 10 * Pow10(k - 1)
  }

  lemma {:induction false} DigitsLength(n: nat, k: nat)
    requires 0 < k && n < Pow10(k)
    ensures |Digits(n)| <= k
  {
    if n >= 10 {
      assert k > 1;
      DigitsLength(n / 10, k - 1);
    }
  }

  /** A number that fits 32 bits, signed or unsigned, prints in at most eleven characters. */
  predicate Word(x: int) {
    -0x8000_0000 <= x < 0x1_0000_0000
  }

  lemma WordLength(x: int)
    requires Word(x)
    ensures |PrintInt(x)| <= 11
    ensures x >= 0 ==> |PrintInt(x)| <= 10
  {
    var n := if x < 0 then -x else x;
    assert Pow10(10) == 10 * Pow10(9) == 100 * Pow10(8) == 1000 * Pow10(7);
    assert Pow10(7) == 10 * Pow10(6) == 100 * Pow10(5) == 1000 * Pow10(4);
    assert Pow10(4) == 10 * Pow10(3) == 100 * Pow10(2) == 1000 * Pow10(1);
    DigitsLength(n, 10);
  }

  lemma PrintIntChars(x: int)
    ensures forall k | 0 <= k < |PrintInt(x)| :: IsDigit(PrintInt(x)[k]) || PrintInt(x)[k] == '-'
  {
    DigitsAreDigits(if x < 0 then -x else x);
  }

  // ----- Comma-separated numbers -----

  function Fields(xs: seq<int>): string {
    if xs == [] then "" else "," + PrintInt(xs[0]) + Fields(xs[1..])
  }

  function ScanFields(s: string, i: nat, n: nat): Option<seq<int>>
    decreases n
  {
    if n == 0 then Some([])
    else if i >= |s| || s[i] != ',' then None
    else
      match ScanInt(s, i + 1)
      case None => None
      case Some((x, e)) =>
        match ScanFields(s, e, n - 1)
        case None => None
        case Some(xs) => Some([x] + xs)
  }

  lemma FieldsStand(s: string, i: nat, xs: seq<int>)
    requires xs != [] && Stands(s, i, Fields(xs))
    ensures i < |s| && s[i] == ',' && Stands(s, i + 1, PrintInt(xs[0]))
        && Stands(s, i + 1 + |PrintInt(xs[0])|, Fields(xs[1..]))
  {
    hide Stands, PrintInt;
    var p := PrintInt(xs[0]);
    StandsSplit(s, i, "," + p, Fields(xs[1..]));
    StandsSplit(s, i, ",", p);
    StandsChar(s, i, ',');
  }

  lemma StandsChar(s: string, i: nat, c: char)
    requires Stands(s, i, [c])
    ensures i < |s| && s[i] == c
  {
    assert s[i] == [c][0];
  }

  lemma ScanFieldsStep(s: string, i: nat, n: nat, x: int, e: nat, xs: seq<int>)
    requires i < |s| && s[i] == ',' && ScanInt(s, i + 1) == Some((x, e)) && ScanFields(s, e, n) == Some(xs)
    ensures ScanFields(s, i, n + 1) == Some([x] + xs)
  {
    hide ScanInt;
  }

  /** A list of numbers is read back exactly. */
  lemma {:induction false} FieldsRoundTrip(s: string, i: nat, xs: seq<int>)
    requires Stands(s, i, Fields(xs)) && i + |Fields(xs)| == |s|
    ensures ScanFields(s, i, |xs|) == Some(xs)
    decreases |xs|
  {
    hide Stands, ScanInt, PrintInt;
    if xs != [] {
      FieldsStand(s, i, xs);
      var e := i + 1 + |PrintInt(xs[0])|;
      assert |Fields(xs)| == 1 + |PrintInt(xs[0])| + |Fields(xs[1..])|;
      if |xs| > 1 {
        FieldsStand(s, e, xs[1..]);
      }
      IntRoundTrip(s, i + 1, xs[0]);
      FieldsRoundTrip(s, e, xs[1..]);
      ScanFieldsStep(s, i, |xs| - 1, xs[0], e, xs[1..]);
      assert [xs[0]] + xs[1..] == xs;
    }
  }

  lemma {:induction false} FieldsLength(xs: seq<int>)
    requires forall i | 0 <= i < |xs| :: Word(xs[i])
    ensures |Fields(xs)| <= 12 * |xs|
    decreases |xs|
  {
    if xs != [] {
      WordLength(xs[0]);
      FieldsLength(xs[1..]);
    }
  }

  lemma {:induction false} FieldsChars(xs: seq<int>)
    ensures forall k | 0 <= k < |Fields(xs)| :: var c := Fields(xs)[k]; IsDigit(c) || c == '-' || c == ','
    decreases |xs|
  {
    if xs != [] {
      PrintIntChars(xs[0]);
      FieldsChars(xs[1..]);
    }
  }

  // ----- The board -----

  function RowText(row: seq<nat>): (s: string)
    requires forall x | 0 <= x < |row| :: row[x] < 10
    ensures |s| == |row|
  {
    seq(|row|, i requires 0 <= i < |row| => Digit(row[i]))
  }

  function BoardText(b: seq<seq<nat>>): (s: string)
    requires forall y, x | 0 <= y < |b| && 0 <= x < |b[y]| :: b[y][x] < 10
  {
    if b == [] then "" else BoardText(b[..|b| - 1]) + RowText(b[|b| - 1])
  }

  function ScanRow(s: string, i: nat, w: nat): (r: seq<int>)
    requires i + w <= |s|
  {
    seq(w, k requires 0 <= k < w => s[i + k] as int - '0' as int)
  }

  function ScanBoard(s: string, h: nat, w: nat): (b: seq<seq<int>>)
    requires h * w <= |s|
    ensures |b| == h
  {
    if h == 0 then []
    else
      assert h * w == (h - 1) * w + w;
      ScanBoard(s, h - 1, w) + [ScanRow(s, (h - 1) * w, w)]
  }

  ghost predicate SmallBoard(b: seq<seq<nat>>, w: nat) {
    (forall y | 0 <= y < |b| :: |b[y]| == w) && forall y, x | 0 <= y < |b| && 0 <= x < |b[y]| :: b[y][x] < 10
  }

  lemma {:induction false} BoardTextLength(b: seq<seq<nat>>, w: nat)
    requires SmallBoard(b, w)
    ensures |BoardText(b)| == |b| * w
    decreases |b|
  {
    if b != [] {
      BoardTextLength(b[..|b| - 1], w);
      assert |b| * w == (|b| - 1) * w + w;
    }
  }

  lemma RowRoundTrip(s: string, i: nat, row: seq<nat>)
    requires (forall x | 0 <= x < |row| :: row[x] < 10) && Stands(s, i, RowText(row))
    ensures ScanRow(s, i, |row|) == row
  {
    forall k | 0 <= k < |row| ensures ScanRow(s, i, |row|)[k] == row[k] {
      assert s[i + k] == RowText(row)[k];
    }
  }

  lemma {:induction false} BoardRoundTrip(s: string, b: seq<seq<nat>>, w: nat)
    requires SmallBoard(b, w) && Stands(s, 0, BoardText(b))
    ensures |b| * w <= |s| && ScanBoard(s, |b|, w) == b
    decreases |b|
  {
    BoardTextLength(b, w);
    if b != [] {
      var n := |b| - 1;
      BoardTextLength(b[..n], w);
      StandsSplit(s, 0, BoardText(b[..n]), RowText(b[n]));
      BoardRoundTrip(s, b[..n], w);
      RowRoundTrip(s, n * w, b[n]);
    }
  }

  lemma {:induction false} BoardChars(b: seq<seq<nat>>, w: nat)
    requires SmallBoard(b, w)
    ensures forall k | 0 <= k < |BoardText(b)| :: IsDigit(BoardText(b)[k])
    decreases |b|
  {
    if b != [] {
      BoardChars(b[..|b| - 1], w);
    }
  }
}
