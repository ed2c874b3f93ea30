/**
 * The `Tombstone` value object: an immutable record of where a tombstone
 * marker sits in the code (date, author, file, line, enclosing method), and
 * its human-readable position `file:line`.
 */
module Tombstones {
  import opened Wrappers

  /**
   * The constructor takes the five values once; a datatype value cannot be
   * changed afterwards, which is the immutability the PHP class keeps by
   * assigning its protected fields only in `__construct`.
   * The PHP field `method` is called `methodName` here (`method` is a Dafny keyword).
   */
  datatype Tombstone = Tombstone(tombstoneDate: string, author: string, file: string, line: int, methodName: string)
  {
    /** `getPosition()`: the file, a colon, then the line number in decimal. */
    function Position(): (p: string)
      ensures ParsePosition(p) == Some((file, line))
    {
      PositionRoundTrip(file, line);
      file + ":" + IntToDecimal(line)
    }
  }

  /** The getters return exactly what the constructor was given. */
  lemma GettersReturnConstructorArguments(date: string, author: string, file: string, line: int, name: string)
    ensures var t := Tombstone(date, author, file, line, name);
      t.tombstoneDate == date && t.author == author && t.file == file && t.line == line && t.methodName == name
  {
  }

  // ----- Decimal rendering of integers (PHP's int-to-string conversion) -----

  predicate IsDigit(c: char) { '0' <= c <= '9' }

  predicate AllDigits(s: string) { forall i :: 0 <= i < |s| ==> IsDigit(s[i]) }

  function DigitChar(d: nat): (c: char)
    requires d < 10
    ensures IsDigit(c) && DigitValue(c) == d
  {
    ['0', '1', '2', '3', '4', '5', '6', '7', '8', '9'][d]
  }

  function DigitValue(c: char): nat
    requires IsDigit(c)
  {
    (c as int - '0' as int) as nat
  }

  /** The shortest decimal spelling of `n`: digits only, no leading zero. */
  function NatToDecimal(n: nat): (s: string)
    ensures |s| >= 1 && AllDigits(s)
    ensures |s| > 1 ==> s[0] != '0'
    decreases n
  {
    if n < 10 then [DigitChar(n)] else NatToDecimal(n / 10) + [DigitChar(n % 10)]
  }

  /**
   * PHP's rendering of an int: a minus sign exactly for negative values,
   * then the shortest decimal spelling of the magnitude.
   */
  function IntToDecimal(i: int): (s: string)
    ensures |s| >= 1
    ensures i < 0 <==> s[0] == '-'
    ensures i < 0 ==> |s| >= 2 && AllDigits(s[1..]) && (|s| > 2 ==> s[1] != '0')
    ensures i >= 0 ==> AllDigits(s) && (|s| > 1 ==> s[0] != '0')
  {
    if i < 0 then "-" + NatToDecimal(-i) else NatToDecimal(i)
  }

  /** The value of a string of decimal digits, read most significant digit first. */
  function DecimalValue(s: string): nat
    requires AllDigits(s)
    decreases |s|
  {
    if s == [] then 0 else DecimalValue(s[..|s| - 1]) * 10 + DigitValue(s[|s| - 1])
  }

  /** Reads back an integer written by `IntToDecimal`. */
  function ParseInt(s: string): Option<int>
  {
    if |s| > 1 && s[0] == '-' && AllDigits(s[1..]) then Some(-(DecimalValue(s[1..]) as int))
    else if |s| > 0 && AllDigits(s) then Some(DecimalValue(s))
    else None
  }

  lemma {:induction false} NatDecimalRoundTrip(n: nat)
    ensures DecimalValue(NatToDecimal(n)) == n
    decreases n
  {
    if n >= 10 {
      NatDecimalRoundTrip(n / 10);
      var s := NatToDecimal(n);
      assert s[..|s| - 1] == NatToDecimal(n / 10);
    }
  }

  lemma IntDecimalRoundTrip(i: int)
    ensures ParseInt(IntToDecimal(i)) == Some(i)
  {
    if i < 0 {
      NegativeDecimalRoundTrip(-i);
    } else {
      var s := NatToDecimal(i);
      NatDecimalRoundTrip(i);
      assert IsDigit(s[0]);
    }
  }

  lemma NegativeDecimalRoundTrip(n: nat)
    ensures ParseInt("-" + NatToDecimal(n)) == Some(-(n as int))
  {
    var s := NatToDecimal(n);
    var t := "-" + s;
    NatDecimalRoundTrip(n);
    assert t[1..] == s;
    assert |t| > 1 && t[0] == '-' && AllDigits(t[1..]);
  }

  // ----- Reading a position back -----

  /** The index of the last `:` in `s`, if any. */
  function LastColon(s: string): (k: Option<nat>)
    ensures k.Some? ==> k.value < |s| && s[k.value] == ':'
    ensures k.Some? ==> forall j :: k.value < j < |s| ==> s[j] != ':'
    ensures k.None? ==> forall j :: 0 <= j < |s| ==> s[j] != ':'
    decreases |s|
  {
    if s == [] then None
    else if s[|s| - 1] == ':' then Some(|s| - 1)
    else LastColon(s[..|s| - 1])
  }

  /**
   * Splits a position at its last colon into a file and a line. File names
   * may themselves contain colons; the decimal line never does.
   */
  function ParsePosition(p: string): Option<(string, int)>
  {
    match LastColon(p)
    case None => None
    case Some(k) =>
      match ParseInt(p[k + 1..])
      case None => None
      case Some(n) => Some((p[..k], n))
  }

  lemma PositionRoundTrip(file: string, line: int)
    ensures ParsePosition(file + ":" + IntToDecimal(line)) == Some((file, line))
  {
    var d := IntToDecimal(line);
    var p := file + ":" + d;
    assert forall j :: |file| < j < |p| ==> p[j] == d[j - |file| - 1];
    assert forall j :: 0 <= j < |d| ==> d[j] != ':';
    var k := LastColon(p);
    assert p[|file|] == ':';
    assert k == Some(|file|);
    assert p[|file| + 1..] == d;
    assert p[..|file|] == file;
    IntDecimalRoundTrip(line);
  }

  /** Two tombstones share a position exactly when they share file and line. */
  lemma PositionIdentifiesFileAndLine(t: Tombstone, u: Tombstone)
    ensures t.Position() == u.Position() <==> (t.file == u.file && t.line == u.line)
  {
  }
}
