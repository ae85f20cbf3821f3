/** Card generation: drawing a random attribute tuple, and redrawing until its id is
    not already on the board.

    `Math.random()` is modelled as a tape: the n-th attempt of the whole session reads
    the n-th Draw, four indices in 0..2. The tape is assumed fair: from any point on,
    every Draw turns up again. With that assumption, and because a board holds fewer
    ids than there are cards, the redraw loop ends. */
module Generator {
  import opened Text
  import opened Cards

  /** What `randomNum()` returns. */
  type Index = i: int | 0 <= i < 3

  /** One attempt's random indices, in the order style, shape, color, count. */
  datatype Draw = Draw(style: Index, shape: Index, color: Index, count: Index)

  /** The cards a difficulty can produce: easy mode fixes the style to solid. */
  predicate InDomain(easy: bool, c: Card)
  {
    easy ==> c.style == Solid
  }

  /** `generateRandomAttributes`: each attribute is looked up in its own domain;
      in easy mode the style is "solid" and the style index is not used. */
  function GenerateRandomAttributes(easy: bool, d: Draw): (c: Card)
    ensures InDomain(easy, c)
  {
    Card(if easy then Solid else Styles[d.style], Shapes[d.shape], Colors[d.color], Counts[d.count])
  }

  function StyleIndex(s: Style): Index
  {
    match s case Solid => 0 case Outline => 1 case Striped => 2
  }

  function ShapeIndex(s: Shape): Index
  {
    match s case Diamond => 0 case Oval => 1 case Squiggle => 2
  }

  function ColorIndex(c: Color): Index
  {
    match c case Green => 0 case Purple => 1 case Red => 2
  }

  function CountIndex(n: Count): Index
  {
    match n case One => 0 case Two => 1 case Three => 2
  }

  /** The draw that produces a given card. */
  function DrawOf(c: Card): Draw
  {
    Draw(StyleIndex(c.style), ShapeIndex(c.shape), ColorIndex(c.color), CountIndex(c.count))
  }

  /** Every card of a difficulty's domain can be drawn. */
  lemma RandomAttributesCover(easy: bool, c: Card)
    requires InDomain(easy, c)
    ensures GenerateRandomAttributes(easy, DrawOf(c)) == c
  {
  }

  /** In standard mode distinct draws give distinct cards. */
  lemma RandomAttributesInjective(d: Draw)
    ensures DrawOf(GenerateRandomAttributes(false, d)) == d
  {
  }

  /** How many distinct cards a difficulty can produce. */
  function DomainSize(easy: bool): nat
  {
    if easy then 27 else 81
  }

  /** The cards numbered 0..80, reading the number's four base-3 digits as the count,
      color, shape and style indices; the first 27 are the solid ones. */
  function CardAt(i: nat): (c: Card)
    requires i < 81
    ensures i < 27 ==> c.style == Solid
  {
    var q1 := i / 3;
    var q2 := q1 / 3;
    Card(Styles[q2 / 3], Shapes[q2 % 3], Colors[q1 % 3], Counts[i % 3])
  }

  lemma CardAtInjective(i: nat, j: nat)
    requires i < 81 && j < 81 && CardAt(i) == CardAt(j)
    ensures i == j
  {
    var i1, j1 := i / 3, j / 3;
    var i2, j2 := i1 / 3, j1 / 3;
    assert i2 / 3 == j2 / 3 && i2 % 3 == j2 % 3;
    assert i2 == j2;
    assert i1 % 3 == j1 % 3;
    assert i1 == j1;
    assert i % 3 == j % 3;
  }

  /** The ids of cards 0..n-1. */
  ghost function DomainKeys(n: nat): set<string>
    requires n <= 81
  {
    if n == 0 then {} else DomainKeys(n - 1) + {Key(CardAt(n - 1))}
  }

  lemma {:induction false} DomainKeysMember(n: nat, k: string)
    requires n <= 81 && k in DomainKeys(n)
    ensures exists j :: 0 <= j < n && Key(CardAt(j)) == k
  {
    if k != Key(CardAt(n - 1)) {
      DomainKeysMember(n - 1, k);
    }
  }

  lemma {:induction false} LaterKeyNotEarlier(n: nat, m: nat)
    requires n <= m < 81
    ensures Key(CardAt(m)) !in DomainKeys(n)
  {
    if n > 0 {
      LaterKeyNotEarlier(n - 1, m);
      if Key(CardAt(m)) == Key(CardAt(n - 1)) {
        KeyInjective(CardAt(m), CardAt(n - 1));
        CardAtInjective(m, n - 1);
      }
    }
  }

  lemma {:induction false} DomainKeysSize(n: nat)
    requires n <= 81
    ensures |DomainKeys(n)| == n
  {
    if n > 0 {
      DomainKeysSize(n - 1);
      LaterKeyNotEarlier(n - 1, n - 1);
    }
  }

  lemma SubsetSize<T>(a: set<T>, b: set<T>)
    requires a <= b
    ensures |a| <= |b|
  {
    assert b == a + (b - a);
  }

  lemma {:induction false} ElementsSize(s: seq<string>)
    ensures |set x | x in s| <= |s|
  {
    if |s| > 0 {
      var init := s[..|s| - 1];
      ElementsSize(init);
      assert (set x | x in s) == (set x | x in init) + {s[|s| - 1]};
    }
  }

  /** Some card of the difficulty's domain has an id that is not on the board. */
  ghost predicate HasFreshCard(easy: bool, existing: seq<string>)
  {
    exists c :: InDomain(easy, c) && Key(c) !in existing
  }

  /** A board with fewer ids than the domain has cards never exhausts the domain:
      27 ids in easy mode and 81 in standard mode are more than the 9 or 12 cards
      of a board. */
  lemma DomainExceedsBoard(easy: bool, existing: seq<string>)
    requires |existing| < DomainSize(easy)
    ensures HasFreshCard(easy, existing)
  {
    var n := DomainSize(easy);
    var present := set x | x in existing;
    ElementsSize(existing);
    DomainKeysSize(n);
    if DomainKeys(n) <= present {
      SubsetSize(DomainKeys(n), present);
      assert false;
    }
    var k :| k in DomainKeys(n) && k !in present;
    DomainKeysMember(n, k);
    var j :| 0 <= j < n && Key(CardAt(j)) == k;
    assert InDomain(easy, CardAt(j));
  }

  ghost predicate Occurs(tape: nat -> Draw, from: nat, d: Draw)
  {
    exists w: nat :: from <= w && tape(w) == d
  }

  /** Every draw turns up again from every point of the tape on. */
  ghost predicate Fair(tape: nat -> Draw)
  {
    forall from: nat, d: Draw :: Occurs(tape, from, d)
  }

  /** The card a draw produces already has its id on the board. */
  predicate Taken(existing: seq<string>, easy: bool, d: Draw)
  {
    Key(GenerateRandomAttributes(easy, d)) in existing
  }

  /** On a fair tape, some attempt from `start` on draws a card whose id is free. */
  lemma FreshAttempt(existing: seq<string>, easy: bool, tape: nat -> Draw, start: nat) returns (w: nat)
    requires Fair(tape) && HasFreshCard(easy, existing)
    ensures start <= w && !Taken(existing, easy, tape(w))
  {
    var target :| InDomain(easy, target) && Key(target) !in existing;
    RandomAttributesCover(easy, target);
    assert Occurs(tape, start, DrawOf(target));
    w :| start <= w && tape(w) == DrawOf(target);
  }

  /** `generateUniqueCard` (key derivation and retry loop): draw attribute tuples from
      the tape, starting at attempt `start`, until the joined four-part id is not on the
      board; `next` is the first attempt not consumed. The final id is the same four-part
      id that was looked up. */
  method GenerateUniqueCard(existing: seq<string>, easy: bool, tape: nat -> Draw, start: nat)
    returns (card: Card, id: string, next: nat)
    requires Fair(tape) && HasFreshCard(easy, existing)
    ensures start < next && card == GenerateRandomAttributes(easy, tape(next - 1))
    ensures forall w :: start <= w < next - 1 ==> Taken(existing, easy, tape(w))
    ensures id == Key(card) && id !in existing
    ensures InDomain(easy, card)
  {
    ghost var w := FreshAttempt(existing, easy, tape, start);
    var attempt;
    card, attempt := Redraw(existing, easy, tape, start, w);
    next := attempt + 1;
    id := CardId(card);
  }

  /** The `while (dupes)` loop: the first attempt from `start` on whose card's id is not
      on the board. `w` is an attempt known to be such, so the loop stops by then. */
  method Redraw(existing: seq<string>, easy: bool, tape: nat -> Draw, start: nat, ghost w: nat)
    returns (card: Card, attempt: nat)
    requires start <= w && !Taken(existing, easy, tape(w))
    ensures start <= attempt <= w && card == GenerateRandomAttributes(easy, tape(attempt))
    ensures forall v :: start <= v < attempt ==> Taken(existing, easy, tape(v))
    ensures Key(card) !in existing
  {
    var dupes := true;
    attempt := start;
    card := Card(Solid, Diamond, Green, One);
    while dupes
      invariant start <= attempt <= w
      invariant forall v :: start <= v < attempt ==> Taken(existing, easy, tape(v))
      invariant !dupes ==> card == GenerateRandomAttributes(easy, tape(attempt)) && Key(card) !in existing
      decreases w - attempt, dupes
    {
      var newAttributes := GenerateRandomAttributes(easy, tape(attempt));
      var attributeString := Key(newAttributes);
      if attributeString !in existing {
        dupes := false;
        card := newAttributes;
      } else {
        attempt := attempt + 1;
      }
    }
  }

  /** The id the finished card element carries: it starts as the id with its last two
      characters sliced off, and each of the count images sets it to that slice, "-"
      and the count again; the count is at least one, so it ends as the full id. */
  method CardId(c: Card) returns (id: string)
    ensures id == Key(c)
  {
    var sliced := DropLast(Key(c), 2);
    id := sliced;
    var imgCount := CountValue(c.count);
    for j := 0 to imgCount
      invariant j == 0 ==> id == sliced
      invariant j > 0 ==> id == sliced + "-" + IntStr(imgCount)
    {
      id := sliced + "-" + IntStr(imgCount);
    }
    SlicedKey(c);
  }
}
