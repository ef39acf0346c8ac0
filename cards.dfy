/** The estimation deck of the room (`cardValues`) and the number each card stands for
    when votes are averaged. */
module Cards {
  import opened Nullable
  import opened JsString

  /** One card of the deck. The source keeps cards as their label strings; since the
      labels are pairwise distinct (LabelInjective), a card and its label carry the same
      information. */
  datatype Card = Half | One | Two | Three | Five | Eight | Thirteen | Twenty | Forty | Hundred | Unknown | Coffee

  /** `cardValues`, in deck order. */
  const CardValues: seq<Card> := [Half, One, Two, Three, Five, Eight, Thirteen, Twenty, Forty, Hundred, Unknown, Coffee]

  /** The string the source stores for a card. */
  function Label(c: Card): string {
    match c
    case Half => "1/2"
    case One => "1"
    case Two => "2"
    case Three => "3"
    case Five => "5"
    case Eight => "8"
    case Thirteen => "13"
    case Twenty => "20"
    case Forty => "40"
    case Hundred => "100"
    case Unknown => "?"
    case Coffee => "coffee"
  }

  lemma LabelInjective(a: Card, b: Card)
    ensures Label(a) == Label(b) <==> a == b
  {
  }

  /** Each card appears exactly once in the deck. */
  lemma CardValuesIsDeck(c: Card) returns (i: nat)
    ensures i < |CardValues| && CardValues[i] == c
    ensures forall j :: 0 <= j < |CardValues| && CardValues[j] == c ==> j == i
  {
    i := match c
      case Half => 0 case One => 1 case Two => 2 case Three => 3 case Five => 4 case Eight => 5
      case Thirteen => 6 case Twenty => 7 case Forty => 8 case Hundred => 9 case Unknown => 10 case Coffee => 11;
  }

  /** The two cards the average discards before parsing: `?` and `coffee`. */
  predicate IsExcluded(v: Option<Card>) {
    v == Some(Unknown) || v == Some(Coffee)
  }

  /** The number parseFloat reads from a card label; None stands for NaN. */
  function ParseFloatLabel(s: string): Option<real> {
    match ParseDecimalPrefix(s)
    case None => None
    case Some(n) => Some(n as real)
  }

  /** The number a vote counts as: 0.5 for the half card, otherwise what its label parses
      to. An unset vote parses to NaN. */
  function VoteNumber(v: Option<Card>): Option<real> {
    match v
    case None => None
    case Some(c) => if c == Half then Some(0.5) else ParseFloatLabel(Label(c))
  }

  /** The story points printed on each card; `?` and `coffee` have none. */
  function Points(c: Card): Option<real> {
    match c
    case Half => Some(0.5)
    case One => Some(1.0)
    case Two => Some(2.0)
    case Three => Some(3.0)
    case Five => Some(5.0)
    case Eight => Some(8.0)
    case Thirteen => Some(13.0)
    case Twenty => Some(20.0)
    case Forty => Some(40.0)
    case Hundred => Some(100.0)
    case Unknown => None
    case Coffee => None
  }

  /** Parsing a card's label gives the points printed on it. */
  lemma VoteNumberIsPoints(c: Card)
    ensures VoteNumber(Some(c)) == Points(c)
  {
    if c != Half && Points(c).Some? {
      var l := Label(c);
      LeadingDigitsOfDigits(l);
      if |l| >= 2 {
        assert l[..1] == [l[0]];
        assert DigitsValue([l[0]]) == 10 * DigitsValue([]) + (l[0] as int - '0' as int);
      }
      if |l| == 3 {
        assert l[..2] == [l[0], l[1]];
        assert [l[0], l[1]][..1] == [l[0]];
      }
    }
  }

  /** Why `1/2` is special-cased: `parseFloat('1/2')` stops at the slash and reads 1. */
  lemma HalfLabelParsesAsOne()
    ensures ParseFloatLabel(Label(Half)) == Some(1.0)
  {
  }
}
