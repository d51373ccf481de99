/**
 * The colour-order table (color.ts): a const enum of seven channel orders
 * and a case-insensitive lookup in each direction, with a default for input
 * the table does not know.
 */
module Color {

  datatype ColorOrder = RGB | RBG | GRB | GBR | BRG | BGR | ONE

  /** The enum's numeric value: its position in declaration order. */
  function Ordinal(o: ColorOrder): (n: nat)
    ensures n < 7
  {
    match o
    case RGB => 0
    case RBG => 1
    case GRB => 2
    case GBR => 3
    case BRG => 4
    case BGR => 5
    case ONE => 6
  }

  /** The lower-case token colorOrderFromString accepts for each order; ONE's is "w". */
  function Token(o: ColorOrder): string
  {
    match o
    case RGB => "rgb"
    case RBG => "rbg"
    case GRB => "grb"
    case GBR => "gbr"
    case BRG => "brg"
    case BGR => "bgr"
    case ONE => "w"
  }

  /** A letter's lower-case form; other characters are unchanged (ASCII only). */
  function LowerChar(c: char): (r: char)
  {
    if 'A' <= c <= 'Z' then (c as int + 32) as char else c
  }

  /** A letter's upper-case form; other characters are unchanged (ASCII only). */
  function UpperChar(c: char): (r: char)
  {
    if 'a' <= c <= 'z' then (c as int - 32) as char else c
  }

  /** String.toLowerCase on ASCII text. */
  function ToLower(s: string): (r: string)
    ensures |r| == |s| && forall i :: 0 <= i < |s| ==> r[i] == LowerChar(s[i])
  {
    seq(|s|, i requires 0 <= i < |s| => LowerChar(s[i]))
  }

  /** String.toUpperCase on ASCII text. */
  function ToUpper(s: string): (r: string)
    ensures |r| == |s| && forall i :: 0 <= i < |s| ==> r[i] == UpperChar(s[i])
  {
    seq(|s|, i requires 0 <= i < |s| => UpperChar(s[i]))
  }

  /**
   * colorOrderFromString(str): the order whose token equals str in lower
   * case, and RGB for every other string.
   */
  function ColorOrderFromString(str: string): (r: ColorOrder)
    ensures forall o :: ToLower(str) == Token(o) ==> r == o
    ensures (forall o :: ToLower(str) != Token(o)) ==> r == RGB
  {
    var s := ToLower(str);
    if s == Token(RGB) then RGB
    else if s == Token(RBG) then RBG
    else if s == Token(GRB) then GRB
    else if s == Token(GBR) then GBR
    else if s == Token(BRG) then BRG
    else if s == Token(BGR) then BGR
    else if s == Token(ONE) then ONE
    else RGB
  }

  /**
   * colorOrderToString(order): the upper-case token of the order with that
   * numeric value ("W" for ONE), and "UNKNOWN" for any other number.
   */
  function ColorOrderToString(order: int): (r: string)
    ensures forall o :: Ordinal(o) == order ==> r == ToUpper(Token(o))
    ensures !(0 <= order < 7) ==> r == "UNKNOWN"
  {
    UpperTokens();
    if order == 0 then "RGB"
    else if order == 1 then "RBG"
    else if order == 2 then "GRB"
    else if order == 3 then "GBR"
    else if order == 4 then "BRG"
    else if order == 5 then "BGR"
    else if order == 6 then "W"
    else "UNKNOWN"
  }

  /** The upper-case tokens are the enum's names, with "W" for ONE. */
  lemma UpperTokens()
    ensures ToUpper(Token(RGB)) == "RGB" && ToUpper(Token(RBG)) == "RBG"
    ensures ToUpper(Token(GRB)) == "GRB" && ToUpper(Token(GBR)) == "GBR"
    ensures ToUpper(Token(BRG)) == "BRG" && ToUpper(Token(BGR)) == "BGR"
    ensures ToUpper(Token(ONE)) == "W"
  {
    assert UpperChar('r') == 'R' && UpperChar('g') == 'G' && UpperChar('b') == 'B';
    assert UpperChar('w') == 'W';
  }

  /** Distinct orders have distinct numeric values (and distinct tokens). */
  lemma OrdinalsDistinct(a: ColorOrder, b: ColorOrder)
    requires a != b
    ensures Ordinal(a) != Ordinal(b)
    ensures Token(a) != Token(b)
  {
  }

  /** Reading back the name of an order gives that order. */
  lemma {:induction false} RoundTrip(o: ColorOrder)
    ensures ColorOrderFromString(ColorOrderToString(Ordinal(o))) == o
  {
    var name := ToUpper(Token(o));
    assert ColorOrderToString(Ordinal(o)) == name;
    forall i | 0 <= i < |Token(o)|
      ensures LowerChar(UpperChar(Token(o)[i])) == Token(o)[i]
    {
      var c := Token(o)[i];
      assert 'a' <= c <= 'z';
    }
    assert ToLower(name) == Token(o);
  }

  /** A number outside the enum prints as "UNKNOWN", which reads back as the default RGB. */
  lemma UnknownReadsAsDefault(order: int)
    requires !(0 <= order < 7)
    ensures ColorOrderFromString(ColorOrderToString(order)) == RGB
  {
    var l := ToLower("UNKNOWN");
    assert |l| == 7;
    forall o ensures l != Token(o) {
      assert |Token(o)| <= 3;
    }
  }
}
