/** The four attributes of a card, their fixed three-element domains, and the card's
    id string: the attributes in the order [style, shape, color, count] joined with "-". */
module Cards {
  import opened Text

  datatype Style = Solid | Outline | Striped
  datatype Shape = Diamond | Oval | Squiggle
  datatype Color = Green | Purple | Red
  datatype Count = One | Two | Three

  datatype Card = Card(style: Style, shape: Shape, color: Color, count: Count)

  /** The domains, in the order the generator indexes them. */
  const Styles: seq<Style> := [Solid, Outline, Striped]
  const Colors: seq<Color> := [Green, Purple, Red]
  const Shapes: seq<Shape> := [Diamond, Oval, Squiggle]
  const Counts: seq<Count> := [One, Two, Three]

  function StyleName(s: Style): string
  {
    match s
    case Solid => "solid"
    case Outline => "outline"
    case Striped => "striped"
  }

  function ShapeName(s: Shape): string
  {
    match s
    case Diamond => "diamond"
    case Oval => "oval"
    case Squiggle => "squiggle"
  }

  function ColorName(c: Color): string
  {
    match c
    case Green => "green"
    case Purple => "purple"
    case Red => "red"
  }

  /** The number of images on the card. */
  function CountValue(n: Count): nat
  {
    match n
    case One => 1
    case Two => 2
    case Three => 3
  }

  /** A count is stored as a number, so joining writes its decimal text. */
  function CountName(n: Count): string
  {
    NatStr(CountValue(n))
  }

  /** The attribute array [STYLE, SHAPE, COLOR, COUNT] as the strings the join writes. */
  function Attributes(c: Card): (a: seq<string>)
    ensures |a| == 4
  {
    [StyleName(c.style), ShapeName(c.shape), ColorName(c.color), CountName(c.count)]
  }

  /** The card's identity string, `newAttributes.join("-")`; `SplitKey` and `ParseKey`
      state that it reads back as the card. */
  function Key(c: Card): string
  {
    Join(Attributes(c), '-')
  }

  function ParseStyle(s: string): Option<Style>
  {
    if s == "solid" then Some(Solid)
    else if s == "outline" then Some(Outline)
    else if s == "striped" then Some(Striped)
    else None
  }

  function ParseShape(s: string): Option<Shape>
  {
    if s == "diamond" then Some(Diamond)
    else if s == "oval" then Some(Oval)
    else if s == "squiggle" then Some(Squiggle)
    else None
  }

  function ParseColor(s: string): Option<Color>
  {
    if s == "green" then Some(Green)
    else if s == "purple" then Some(Purple)
    else if s == "red" then Some(Red)
    else None
  }

  function ParseCount(s: string): Option<Count>
  {
    if s == "1" then Some(One)
    else if s == "2" then Some(Two)
    else if s == "3" then Some(Three)
    else None
  }

  /** Reads a card back from an id: four "-"-separated parts, each a name of its domain. */
  function ParseCard(id: string): Option<Card>
  {
    var p := Split(id, '-');
    if |p| != 4 then None
    else
      match (ParseStyle(p[0]), ParseShape(p[1]), ParseColor(p[2]), ParseCount(p[3]))
      case (Some(s), Some(h), Some(c), Some(n)) => Some(Card(s, h, c, n))
      case _ => None
  }

  /** An id that belongs to some card. */
  predicate IsCardId(id: string)
  {
    ParseCard(id).Some?
  }

  function CardOf(id: string): Card
    requires IsCardId(id)
  {
    ParseCard(id).value
  }

  lemma NamesHaveNoSeparator(c: Card)
    ensures forall k :: 0 <= k < 4 ==> '-' !in Attributes(c)[k]
  {
  }

  /** Splitting an id on "-" gives exactly [style, shape, color, count], because no name
      of any domain contains "-". */
  lemma SplitKey(c: Card)
    ensures Split(Key(c), '-') == Attributes(c)
  {
    NamesHaveNoSeparator(c);
    SplitJoin(Attributes(c), '-');
  }

  lemma ParseNames(c: Card)
    ensures ParseStyle(StyleName(c.style)) == Some(c.style)
    ensures ParseShape(ShapeName(c.shape)) == Some(c.shape)
    ensures ParseColor(ColorName(c.color)) == Some(c.color)
    ensures ParseCount(CountName(c.count)) == Some(c.count)
  {
  }

  /** An id reads back as the card it was made from. */
  lemma ParseKey(c: Card)
    ensures ParseCard(Key(c)) == Some(c)
  {
    SplitKey(c);
    ParseNames(c);
  }

  /** The only ids that read back as a card are that card's id. */
  lemma KeyOfParse(id: string)
    requires IsCardId(id)
    ensures Key(CardOf(id)) == id
  {
    var p := Split(id, '-');
    var c := CardOf(id);
    assert Attributes(c) == p;
    JoinSplit(id, '-');
  }

  /** Distinct cards have distinct ids. */
  lemma KeyInjective(a: Card, b: Card)
    requires Key(a) == Key(b)
    ensures a == b
  {
    ParseKey(a);
    ParseKey(b);
  }

  /** `attributeString.slice(0, -2)` drops exactly "-" and the one-digit count, so
      appending "-" and the count rebuilds the id; what is left names style, shape and
      color only. */
  lemma SlicedKey(c: Card)
    ensures DropLast(Key(c), 2) + "-" + CountName(c.count) == Key(c)
    ensures DropLast(Key(c), 2) == Join(Attributes(c)[..3], '-')
  {
    var a := Attributes(c);
    assert |CountName(c.count)| == 1;
    assert Key(c) == a[0] + "-" + (a[1] + "-" + (a[2] + "-" + a[3]));
    var b := a[..3];
    assert b[1..][1..] == [a[2]];
    assert Join(b[1..], '-') == a[1] + "-" + a[2];
    assert Join(b, '-') == a[0] + "-" + (a[1] + "-" + a[2]);
  }
}
