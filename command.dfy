/**
 * The outbound wire format `MOVE <x>,<y>\n`, with x and y written the way
 * Python's `str` writes an int (optional minus sign, base ten, no leading
 * zeros), its ASCII bytes, and a parser for that grammar that is proved to be
 * its exact inverse.
 */
module Command {
  import opened Options

  type Byte = b: int | 0 <= b < 256

  predicate IsDigit(c: char) {
    '0' <= c <= '9'
  }

  predicate AllDigits(t: string) {
    forall i :: 0 <= i < |t| ==> IsDigit(t[i])
  }

  function DigitChar(d: nat): (c: char)
    requires d < 10
    ensures IsDigit(c)
  {
    ('0' as int + d) as char
  }

  function DigitValue(c: char): (d: nat)
    requires IsDigit(c)
    ensures d < 10 && DigitChar(d) == c
  {
    c as int - '0' as int
  }

  /** Base-ten digits of `n`, most significant first, with no leading zero. */
  function NatToDecimal(n: nat): (t: string)
    ensures |t| >= 1 && AllDigits(t)
    ensures t[0] == '0' ==> n == 0 && |t| == 1
    decreases n
  {
    if n < 10 then [DigitChar(n)] else NatToDecimal(n / 10) + [DigitChar(n % 10)]
  }

  /** Python's `str(x)` for an int. */
  function IntToDecimal(x: int): string {
    if x < 0 then "-" + NatToDecimal(-x) else NatToDecimal(x)
  }

  /** The command line `f"MOVE {x},{y}\n"`. */
  function EncodeMove(x: int, y: int): string {
    "MOVE " + IntToDecimal(x) + "," + IntToDecimal(y) + "\n"
  }

  /** Value of a string of digits. */
  function DigitsValue(t: string): nat
    requires AllDigits(t)
  {
    if |t| == 0 then 0 else DigitsValue(t[..|t| - 1]) * 10 + DigitValue(t[|t| - 1])
  }

  /** A non-negative decimal: one or more digits, no leading zero. */
  function ParseNat(t: string): Option<nat> {
    if |t| > 0 && AllDigits(t) && (t[0] != '0' || |t| == 1) then Some(DigitsValue(t)) else None
  }

  /** A signed decimal as `str` writes it; "-0" is not one. */
  function ParseInt(t: string): Option<int> {
    if |t| > 0 && t[0] == '-' then
      match ParseNat(t[1..])
      case Some(n) => if n > 0 then Some(0 - n) else None
      case None => None
    else
      match ParseNat(t)
      case Some(n) => Some(n)
      case None => None
  }

  /** Position of the first `c` in `s`. */
  function IndexOf(s: string, c: char): (r: Option<nat>)
    ensures r.Some? ==> r.value < |s| && s[r.value] == c && c !in s[..r.value]
    ensures r.None? ==> c !in s
  {
    if |s| == 0 then None
    else if s[0] == c then Some(0)
    else
      match IndexOf(s[1..], c)
      case Some(k) => (assert s[..k + 1] == [s[0]] + s[1..][..k]; Some(k + 1))
      case None => (assert s == [s[0]] + s[1..]; None)
  }

  /** Cuts a command line into the texts of its two numbers: the line must
      start with `MOVE `, end with a newline, and the numbers are split at
      the first comma. */
  function SplitMove(s: string): (r: Option<(string, string)>)
    ensures r.Some? ==> s == "MOVE " + r.value.0 + "," + r.value.1 + "\n" && ',' !in r.value.0
  {
    if |s| < 6 || s[..5] != "MOVE " || s[|s| - 1] != '\n' then None
    else
      var body := s[5..|s| - 1];
      match IndexOf(body, ',')
      case None => None
      case Some(k) =>
        assert body == body[..k] + "," + body[k + 1..];
        assert s == s[..5] + body + "\n";
        Some((body[..k], body[k + 1..]))
  }

  /** Reads a command line back into its (x, y) pair. */
  function ParseMove(s: string): Option<(int, int)> {
    match SplitMove(s)
    case None => None
    case Some((tx, ty)) =>
      match (ParseInt(tx), ParseInt(ty))
      case (Some(x), Some(y)) => Some((x, y))
      case _ => None
  }

  /** The first comma of `a + "," + b` is the one after a comma-free `a`. */
  lemma FirstCommaAt(a: string, b: string)
    requires ',' !in a
    ensures IndexOf(a + "," + b, ',') == Some(|a|)
  {
    var s := a + "," + b;
    assert s[|a|] == ',';
    assert s[..|a|] == a;
  }

  /** Two comma-free heads followed by a comma split a string the same way. */
  lemma SplitUnique(a: string, b: string, c: string, d: string)
    requires ',' !in a && ',' !in c && a + "," + b == c + "," + d
    ensures a == c && b == d
  {
    var s := a + "," + b;
    FirstCommaAt(a, b);
    FirstCommaAt(c, d);
    assert a == s[..|a|] == c;
    assert b == s[|a| + 1..] == d;
  }

  lemma {:induction false} DigitsRoundTrip(n: nat)
    ensures DigitsValue(NatToDecimal(n)) == n
    decreases n
  {
    if n >= 10 {
      DigitsRoundTrip(n / 10);
      var t := NatToDecimal(n);
      assert t[..|t| - 1] == NatToDecimal(n / 10);
    }
  }

  lemma {:induction false} DigitsValuePositive(t: string)
    requires |t| > 0 && AllDigits(t) && t[0] != '0'
    ensures DigitsValue(t) >= 1
    decreases |t|
  {
    if |t| > 1 {
      DigitsValuePositive(t[..|t| - 1]);
    }
  }

  lemma {:induction false} DecimalOfDigits(t: string)
    requires |t| > 0 && AllDigits(t) && (t[0] != '0' || |t| == 1)
    ensures NatToDecimal(DigitsValue(t)) == t
    decreases |t|
  {
    if |t| > 1 {
      var front := t[..|t| - 1];
      DigitsValuePositive(front);
      DecimalOfDigits(front);
      var n := DigitsValue(t);
      var d := DigitValue(t[|t| - 1]);
      assert n == DigitsValue(front) * 10 + d;
      assert n / 10 == DigitsValue(front) && n % 10 == d;
      assert t == front + [t[|t| - 1]];
    }
  }

  lemma NatRoundTrip(n: nat)
    ensures ParseNat(NatToDecimal(n)) == Some(n)
  {
    DigitsRoundTrip(n);
  }

  /** Every int survives printing and parsing. */
  lemma IntRoundTrip(x: int)
    ensures ParseInt(IntToDecimal(x)) == Some(x)
  {
    var t := IntToDecimal(x);
    if x < 0 {
      NatRoundTrip(-x);
      assert t[1..] == NatToDecimal(-x);
    } else {
      NatRoundTrip(x);
      assert t[0] != '-';
    }
  }

  /** A string `ParseInt` accepts is exactly how its value prints. */
  lemma DecimalOfParsedInt(t: string)
    requires ParseInt(t).Some?
    ensures IntToDecimal(ParseInt(t).value) == t
  {
    if |t| > 0 && t[0] == '-' {
      DecimalOfDigits(t[1..]);
      assert t == "-" + t[1..];
    } else {
      DecimalOfDigits(t);
    }
  }

  lemma CommaFree(x: int)
    ensures ',' !in IntToDecimal(x)
  {
    if x < 0 { assert IntToDecimal(x) == "-" + NatToDecimal(-x); }
  }

  /** An encoded command splits back into the two printed numbers. */
  lemma SplitEncodeMove(x: int, y: int)
    ensures SplitMove(EncodeMove(x, y)) == Some((IntToDecimal(x), IntToDecimal(y)))
  {
    var dx, dy := IntToDecimal(x), IntToDecimal(y);
    var body := dx + "," + dy;
    var s := "MOVE " + body + "\n";
    assert s == EncodeMove(x, y);
    assert s[..5] == "MOVE " && s[|s| - 1] == '\n';
    assert s[5..|s| - 1] == body;
    CommaFree(x);
    FirstCommaAt(dx, dy);
    assert body[..|dx|] == dx && body[|dx| + 1..] == dy;
  }

  /** Parsing an encoded command gives back the pair that was encoded. */
  lemma ParseEncodeMove(x: int, y: int)
    ensures ParseMove(EncodeMove(x, y)) == Some((x, y))
  {
    SplitEncodeMove(x, y);
    IntRoundTrip(x);
    IntRoundTrip(y);
  }

  /** Every line the parser accepts is the encoding of what it returns:
      the grammar has one spelling per pair. */
  lemma EncodeParsedMove(s: string)
    requires ParseMove(s).Some?
    ensures EncodeMove(ParseMove(s).value.0, ParseMove(s).value.1) == s
  {
    var (tx, ty) := SplitMove(s).value;
    DecimalOfParsedInt(tx);
    DecimalOfParsedInt(ty);
  }

  predicate IsAscii(s: string) {
    forall i :: 0 <= i < |s| ==> s[i] as int < 128
  }

  /** `str.encode()` of an ASCII string: one byte per character. */
  function AsciiBytes(s: string): (b: seq<Byte>)
    requires IsAscii(s)
    ensures |b| == |s| && forall i :: 0 <= i < |b| ==> b[i] < 128
    ensures DecodeAscii(b) == s
  {
    var b := seq(|s|, i requires 0 <= i < |s| => s[i] as int);
    assert DecodeAscii(b) == s;
    b
  }

  /** Reads bytes back as characters. */
  function DecodeAscii(b: seq<Byte>): string {
    seq(|b|, i requires 0 <= i < |b| => b[i] as char)
  }

  lemma MoveIsAscii(x: int, y: int)
    ensures IsAscii(EncodeMove(x, y))
  {
    var dx, dy := IntToDecimal(x), IntToDecimal(y);
    assert IsAscii(dx) && IsAscii(dy) by {
      if x < 0 { assert dx == "-" + NatToDecimal(-x); }
      if y < 0 { assert dy == "-" + NatToDecimal(-y); }
    }
    assert EncodeMove(x, y) == "MOVE " + dx + "," + dy + "\n";
  }

  /** The bytes written to the serial port for a move; the device reads back the same pair. */
  function MoveBytes(x: int, y: int): (b: seq<Byte>)
    ensures forall i :: 0 <= i < |b| ==> b[i] < 128
    ensures ParseMove(DecodeAscii(b)) == Some((x, y))
  {
    MoveIsAscii(x, y);
    var b := AsciiBytes(EncodeMove(x, y));
    ParseEncodeMove(x, y);
    b
  }

  /** The command for the centred-square example is `MOVE 0,-5\n`. */
  lemma CentredSquareCommand()
    ensures EncodeMove(0, -5) == "MOVE 0,-5\n"
  {
    assert NatToDecimal(5) == "5";
    assert NatToDecimal(0) == "0";
  }
}
