/** What a literal token says, spelled out character by character, and that the readers take it for that. */
module WrittenLiterals {
  import opened Words
  import opened Ast
  import opened Literals
  import opened IrBuilding
  import opened ExpressionSyntax
  import Ir

  // ----- numerals -----

  /** The digits of both bases and what each is worth. */
  function DigitWorth(c: char): Option<nat> {
    match c
    case '0' => Some(0)
    case '1' => Some(1)
    case '2' => Some(2)
    case '3' => Some(3)
    case '4' => Some(4)
    case '5' => Some(5)
    case '6' => Some(6)
    case '7' => Some(7)
    case '8' => Some(8)
    case '9' => Some(9)
    case 'a' => Some(10)
    case 'A' => Some(10)
    case 'b' => Some(11)
    case 'B' => Some(11)
    case 'c' => Some(12)
    case 'C' => Some(12)
    case 'd' => Some(13)
    case 'D' => Some(13)
    case 'e' => Some(14)
    case 'E' => Some(14)
    case 'f' => Some(15)
    case 'F' => Some(15)
    case _ => None
  }

  /** The value of a numeral; `None` if a character is no digit of the base. */
  function NumeralWorth(text: string, base: nat): Option<nat> {
    if text == "" then Some(0)
    else
      match (NumeralWorth(text[..|text| - 1], base), DigitWorth(text[|text| - 1]))
      case (Some(v), Some(d)) => if d < base then Some(base * v + d) else None
      case _ => None
  }

  lemma DigitIsWorth(c: char, base: nat)
    requires base == 10 || base == 16
    ensures IsDigit(c, base) <==> DigitWorth(c).Some? && DigitWorth(c).value < base
    ensures IsDigit(c, base) ==> Digit(c) == DigitWorth(c).value
  {
  }

  lemma {:induction false} NumeralIsWorth(text: string, base: nat)
    requires base == 10 || base == 16
    ensures AreDigits(text, base) <==> NumeralWorth(text, base).Some?
    ensures AreDigits(text, base) ==> Numeral(text, base) == NumeralWorth(text, base).value
  {
    if text != "" {
      var n := |text| - 1;
      NumeralIsWorth(text[..n], base);
      DigitIsWorth(text[n], base);
      hide IsDigit, Digit, DigitWorth;
      assert AreDigits(text, base) <==> AreDigits(text[..n], base) && IsDigit(text[n], base) by {
        if AreDigits(text[..n], base) && IsDigit(text[n], base) {
          forall i | 0 <= i < |text| ensures IsDigit(text[i], base) {
            if i < n { assert text[..n][i] == text[i]; }
          }
        }
      }
      if AreDigits(text, base) { Commutes(Numeral(text[..n], base), base); }
    }
  }

  lemma Commutes(a: int, b: int)
    ensures a * b == b * a
  {
  }

  // ----- tokens -----

  /** The value, or the mark 2^64 - 1 where it is out of range (below 2^63, or 2^63 under a minus) or written with
      more than 20 decimal or 16 hexadecimal digits. The checker refuses the mark. */
  function IntegerMeaning(negated: bool, t: Token): Option<nat> {
    match t
    case Decimal(text) => Marked(negated, NumeralWorth(text, 10), |text| <= 20)
    case Hexadecimal(text) => if |text| < 2 then None else Marked(negated, NumeralWorth(text[2..], 16), |text| <= 18)
    case _ => None
  }

  function Marked(negated: bool, worth: Option<nat>, short: bool): Option<nat> {
    match worth
    case None => None
    case Some(v) =>
      Some(if short && (v < 0x8000_0000_0000_0000 || (negated && v == 0x8000_0000_0000_0000)) then v
           else 0xFFFF_FFFF_FFFF_FFFF)
  }

  /** Between quotes: a character, or one of five escapes. */
  function CharacterMeaning(text: string): Option<nat> {
    if |text| < 3 then None
    else if text[1] != '\\' then Some(text[1] as nat)
    else
      match text[2]
      case '\"' => Some(34)
      case '\'' => Some(39)
      case '\\' => Some(92)
      case 't' => Some(9)
      case 'n' => Some(10)
      case _ => None
  }

  function LiteralSaid(negated: bool, t: Token): Option<Ir.Literal> {
    match t
    case True => Some(Ir.Literal(Ir.BoolLiteral, negated, 1))
    case False => Some(Ir.Literal(Ir.BoolLiteral, negated, 0))
    case Character(text) => (
      match CharacterMeaning(text)
      case Some(v) => Some(Ir.Literal(Ir.CharLiteral, negated, v))
      case None => None)
    case _ =>
      match IntegerMeaning(negated, t)
      case Some(v) => Some(Ir.Literal(Ir.IntLiteral, negated, v))
      case None => None
  }

  /** The tokens that are literals. */
  predicate LiteralReadable(negated: bool, t: Token) {
    LiteralSaid(negated, t).Some?
  }

  function LiteralMeaning(negated: bool, t: Token): Ir.Literal {
    match LiteralSaid(negated, t)
    case Some(l) => l
    case None => Ir.Literal(Ir.IntLiteral, negated, 0)
  }

  // ----- the readers -----

  lemma ReadIntegerIsMarked(text: string, base: nat, negated: bool)
    requires base == 10 || base == 16
    ensures AreDigits(text, base) ==>
      Marked(negated, NumeralWorth(text, base), |text| <= if base == 10 then 20 else 16)
        == Some(ReadInteger(text, Limit(negated), base))
    ensures !AreDigits(text, base) ==> NumeralWorth(text, base).None?
  {
    NumeralIsWorth(text, base);
    hide NumeralWorth, Numeral, AreDigits;
    if AreDigits(text, base) {
      LiteralDenotes(text, base, negated, ReadInteger(text, Limit(negated), base));
    }
  }

  /** A length or an integer literal is read as what it says, and nothing else can be read. */
  lemma IntegerRead(t: Token, negated: bool)
    ensures IntegerOf(t, negated) == IntegerMeaning(negated, t)
  {
    NothingSaid(negated);
    hide NumeralWorth, AreDigits, ReadInteger, Marked;
    match t
    case Decimal(text) => ReadIntegerIsMarked(text, 10, negated);
    case Hexadecimal(text) =>
      if |text| >= 2 { ReadIntegerIsMarked(text[2..], 16, negated); }
    case _ =>
  }

  lemma NothingSaid(negated: bool)
    ensures forall short :: Marked(negated, None, short) == None
  {
  }

  /** Each literal token is read as what it says, and nothing else can be read. */
  lemma LiteralTokenRead(negated: bool, t: Token)
    ensures LiteralOf(Entry(LiteralLeaf(t), t), negated) == LiteralSaid(negated, t)
  {
    IntegerRead(t, negated);
    hide IntegerOf, IntegerMeaning;
  }
}
