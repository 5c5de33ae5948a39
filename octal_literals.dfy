/** The literal rule of the "write octal values as decimal" cleanup, as its
    test fixes it: an `int` or `short` literal written with a leading zero
    followed by octal digits is rewritten to the decimal text of its value;
    hexadecimal (`0x`), binary (`0b`) and decimal literals are left alone. */
module OctalLiterals {

  datatype Option<T> = None | Some(value: T)

  predicate IsOctalDigit(c: char)
  {
    '0' <= c <= '7'
  }

  predicate IsDecimalDigit(c: char)
  {
    '0' <= c <= '9'
  }

  predicate IsBinaryDigit(c: char)
  {
    c == '0' || c == '1'
  }

  predicate IsHexDigit(c: char)
  {
    IsDecimalDigit(c) || 'a' <= c <= 'f' || 'A' <= c <= 'F'
  }

  /** The value of a single digit character, up to base 16. */
  function DigitValue(c: char): nat
  {
    if IsDecimalDigit(c) then (c as int) - ('0' as int)
    else if 'a' <= c <= 'f' then (c as int) - ('a' as int) + 10
    else if 'A' <= c <= 'F' then (c as int) - ('A' as int) + 10
    else 0
  }

  /** The value of a digit string in the given base, most significant first. */
  function DigitsValue(s: string, base: nat): nat
  {
    if s == [] then 0 else DigitsValue(s[..|s| - 1], base) * base + DigitValue(s[|s| - 1])
  }

  predicate AllOf(s: string, digit: char -> bool)
  {
    forall i :: 0 <= i < |s| ==> digit(s[i])
  }

  /** A leading `0` followed by one or more octal digits. */
  predicate IsOctalLiteral(text: string)
  {
    |text| >= 2 && text[0] == '0' && AllOf(text[1..], IsOctalDigit)
  }

  predicate IsHexLiteral(text: string)
  {
    |text| >= 3 && text[0] == '0' && (text[1] == 'x' || text[1] == 'X') && AllOf(text[2..], IsHexDigit)
  }

  predicate IsBinaryLiteral(text: string)
  {
    |text| >= 3 && text[0] == '0' && (text[1] == 'b' || text[1] == 'B') && AllOf(text[2..], IsBinaryDigit)
  }

  /** Decimal digits without a leading zero, or `0` itself. */
  predicate IsDecimalLiteral(text: string)
  {
    |text| >= 1 && AllOf(text, IsDecimalDigit) && (text[0] != '0' || |text| == 1)
  }

  /** The value the language gives an integer literal's text, or None for
      text that is no integer literal of these four forms. */
  function LiteralValue(text: string): Option<nat>
  {
    if IsHexLiteral(text) then Some(DigitsValue(text[2..], 16))
    else if IsBinaryLiteral(text) then Some(DigitsValue(text[2..], 2))
    else if IsOctalLiteral(text) then Some(DigitsValue(text[1..], 8))
    else if IsDecimalLiteral(text) then Some(DigitsValue(text, 10))
    else None
  }

  function DecimalDigit(d: nat): (c: char)
    requires d < 10
    ensures IsDecimalDigit(c) && DigitValue(c) == d
  {
    ('0' as int + d) as char
  }

  /** The decimal text of a number: digits only, no leading zero. */
  function DecimalText(n: nat): (s: string)
    ensures IsDecimalLiteral(s)
    ensures DigitsValue(s, 10) == n
  {
    if n < 10 then [DecimalDigit(n)]
    else
      var s := DecimalText(n / 10) + [DecimalDigit(n % 10)];
      assert s[..|s| - 1] == DecimalText(n / 10);
      s
  }

  /** The rule: octal literals become the decimal text of their value; every
      other text is returned as it is. */
  function WriteAsDecimal(text: string): (r: string)
    ensures !IsOctalLiteral(text) ==> r == text
    ensures IsOctalLiteral(text) ==> IsDecimalLiteral(r) && LiteralValue(r) == LiteralValue(text)
  {
    if IsOctalLiteral(text) then
      var r := DecimalText(DigitsValue(text[1..], 8));
      FormsExclusive(text);
      FormsExclusive(r);
      r
    else text
  }

  // ---------------------------------------------------------------------

  /** The literal forms are mutually exclusive. */
  lemma FormsExclusive(text: string)
    ensures IsOctalLiteral(text) ==> !IsHexLiteral(text) && !IsBinaryLiteral(text) && !IsDecimalLiteral(text)
    ensures IsDecimalLiteral(text) ==> !IsHexLiteral(text) && !IsBinaryLiteral(text)
  {
    if |text| >= 2 && text[0] == '0' {
      assert text[1..][0] == text[1];
      if |text| >= 3 {
        assert text[2..][0] == text[2];
      }
      assert !IsDecimalLiteral(text);
    }
    if IsDecimalLiteral(text) && |text| >= 2 {
      assert IsDecimalDigit(text[1]);
    }
  }

  /** The rule keeps the value of every integer literal. */
  lemma WriteAsDecimalKeepsValue(text: string)
    ensures LiteralValue(WriteAsDecimal(text)) == LiteralValue(text)
  {
    FormsExclusive(text);
    if IsOctalLiteral(text) {
      var out := DecimalText(DigitsValue(text[1..], 8));
      FormsExclusive(out);
    }
  }

  /** The rule changes a literal exactly when it is an octal literal, and then
      writes it in decimal form. */
  lemma WriteAsDecimalChangesOnlyOctal(text: string)
    ensures WriteAsDecimal(text) != text <==> IsOctalLiteral(text)
    ensures IsOctalLiteral(text) ==> IsDecimalLiteral(WriteAsDecimal(text))
  {
    if IsOctalLiteral(text) {
      FormsExclusive(text);
    }
  }

  /** A second application changes nothing. */
  lemma WriteAsDecimalIdempotent(text: string)
    ensures WriteAsDecimal(WriteAsDecimal(text)) == WriteAsDecimal(text)
  {
    if IsOctalLiteral(text) {
      FormsExclusive(WriteAsDecimal(text));
    }
  }

  // ---------------------------------------------------------------------
  // The literal pairs of the test.

  lemma OctalIntExample()
    ensures WriteAsDecimal("010") == "8"
  {
    assert IsOctalLiteral("010");
    assert DigitsValue("10", 8) == 8 by {
      assert "10"[..1] == "1";
      assert "1"[..0] == "";
    }
  }

  lemma HexUnchanged()
    ensures WriteAsDecimal("0x01") == "0x01"
  {
    assert !IsOctalDigit("0x01"[1..][0]);
  }

  lemma BinaryUnchanged()
    ensures WriteAsDecimal("0b01") == "0b01"
  {
    assert !IsOctalDigit("0b01"[1..][0]);
  }

  lemma DecimalUnchanged()
    ensures WriteAsDecimal("12") == "12"
    ensures WriteAsDecimal("1") == "1"
  {
  }

  // ---------------------------------------------------------------------
  // A source made of integer declarations and other lines.

  datatype IntType = Int | Short

  /** A line `<indent><type> <name> = <literal>;`, or a line that holds no
      integer literal (as every other line of the test is). */
  datatype Line =
    | Declaration(indent: string, typ: IntType, name: string, literal: string)
    | Other(text: string)

  function TypeName(t: IntType): string
  {
    match t
    case Int => "int"
    case Short => "short"
  }

  function Render(line: Line): string
  {
    match line
    case Declaration(indent, t, name, lit) => indent + TypeName(t) + " " + name + " = " + lit + ";"
    case Other(text) => text
  }

  predicate IsOctalDeclaration(line: Line)
  {
    line.Declaration? && IsOctalLiteral(line.literal)
  }

  /** One line: only the literal of an octal declaration changes, to the
      decimal text of the same value. */
  function RewriteLine(line: Line): (r: Line)
    ensures !IsOctalDeclaration(line) ==> r == line
    ensures IsOctalDeclaration(line) ==>
      && r.Declaration?
      && r == line.(literal := r.literal)
      && IsDecimalLiteral(r.literal)
      && LiteralValue(r.literal) == LiteralValue(line.literal)
  {
    match line
    case Declaration(indent, t, name, lit) =>
      WriteAsDecimalKeepsValue(lit);
      WriteAsDecimalChangesOnlyOctal(lit);
      Declaration(indent, t, name, WriteAsDecimal(lit))
    case Other(_) => line
  }

  /** The cleanup over a source, line by line. */
  function RewriteSource(lines: seq<Line>): (r: seq<Line>)
    ensures |r| == |lines|
    ensures forall i :: 0 <= i < |lines| ==> r[i] == RewriteLine(lines[i])
    ensures forall i :: 0 <= i < |lines| && !IsOctalDeclaration(lines[i]) ==> r[i] == lines[i]
    ensures forall i :: 0 <= i < |lines| && IsOctalDeclaration(lines[i]) ==>
      && r[i].Declaration?
      && r[i] == lines[i].(literal := r[i].literal)
      && IsDecimalLiteral(r[i].literal)
      && LiteralValue(r[i].literal) == LiteralValue(lines[i].literal)
  {
    if lines == [] then [] else [RewriteLine(lines[0])] + RewriteSource(lines[1..])
  }

  const Indent1: string := "    "
  const Indent2: string := "        "

  const Before: seq<Line> := [
    Other("class Test {"),
    Other(Indent1 + "void test() {"),
    Declaration(Indent2, Int, "m", "010"),
    Declaration(Indent2, Short, "m2", "010"),
    Declaration(Indent2, Int, "n", "0x01"),
    Declaration(Indent2, Int, "o", "0b01"),
    Declaration(Indent2, Int, "p", "12"),
    Declaration(Indent2, Int, "q", "1"),
    Other(Indent1 + "}"),
    Other("}")
  ]

  const After: seq<Line> := [
    Other("class Test {"),
    Other(Indent1 + "void test() {"),
    Declaration(Indent2, Int, "m", "8"),
    Declaration(Indent2, Short, "m2", "8"),
    Declaration(Indent2, Int, "n", "0x01"),
    Declaration(Indent2, Int, "o", "0b01"),
    Declaration(Indent2, Int, "p", "12"),
    Declaration(Indent2, Int, "q", "1"),
    Other(Indent1 + "}"),
    Other("}")
  ]

  /** The declarations of the test read as its text does. */
  lemma TestLinesRender()
    ensures Render(Before[2]) == "        int m = 010;"
    ensures Render(Before[3]) == "        short m2 = 010;"
    ensures Render(After[2]) == "        int m = 8;"
    ensures Render(After[3]) == "        short m2 = 8;"
  {
    assert Before[2] == Declaration(Indent2, Int, "m", "010");
    assert Before[3] == Declaration(Indent2, Short, "m2", "010");
    assert After[2] == Declaration(Indent2, Int, "m", "8");
    assert After[3] == Declaration(Indent2, Short, "m2", "8");
  }

  /** Line by line, the test's before text becomes its after text. */
  lemma TestLinePairs(i: nat)
    requires i < |Before|
    ensures |After| == |Before| && RewriteLine(Before[i]) == After[i]
  {
    if i == 2 || i == 3 {
      OctalIntExample();
      assert Before[i].Declaration? && Before[i].literal == "010";
      assert After[i] == Before[i].(literal := "8");
    } else {
      assert After[i] == Before[i];
      if i == 4 {
        HexUnchanged();
        assert Before[i].literal == "0x01";
      } else if i == 5 {
        BinaryUnchanged();
        assert Before[i].literal == "0b01";
      } else if i == 6 || i == 7 {
        DecimalUnchanged();
        assert Before[i].literal == "12" || Before[i].literal == "1";
      }
      assert RewriteLine(Before[i]) == Before[i];
    }
  }

  /** The test's before text becomes its after text. */
  lemma WriteAsDecimalTestCase()
    ensures RewriteSource(Before) == After
  {
    var r := RewriteSource(Before);
    forall i | 0 <= i < |Before| ensures r[i] == After[i] {
      TestLinePairs(i);
    }
  }
}
