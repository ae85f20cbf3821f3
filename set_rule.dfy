/** The rule of the game: three cards form a set when, for each of the four
    attributes, their values are all the same or pairwise different. */
module SetRule {
  import opened Text
  import opened Cards

  predicate AllSameOrAllDifferent<T(==)>(x: T, y: T, z: T)
  {
    (x == y && y == z) || (x != y && y != z && x != z)
  }

  /** The rule stated on the attribute values. */
  predicate IsSet(a: Card, b: Card, c: Card)
  {
    && AllSameOrAllDifferent(a.style, b.style, c.style)
    && AllSameOrAllDifferent(a.shape, b.shape, c.shape)
    && AllSameOrAllDifferent(a.color, b.color, c.color)
    && AllSameOrAllDifferent(a.count, b.count, c.count)
  }

  /** `parts[i]` in JavaScript: `undefined` (None) past the end. */
  function At(parts: seq<string>, i: nat): Option<string>
  {
    if i < |parts| then Some(parts[i]) else None
  }

  /** Every position of the first part list holds values that are all the same or all
      different across the three lists. */
  predicate PartsFormSet(p0: seq<string>, p1: seq<string>, p2: seq<string>)
  {
    forall i :: 0 <= i < |p0| ==> AllSameOrAllDifferent(At(p0, i), At(p1, i), At(p2, i))
  }

  /** What the check computes from three ids: the parts of the split ids form a set. */
  predicate IdsFormSet(ids: seq<string>)
    requires |ids| == 3
  {
    PartsFormSet(Split(ids[0], '-'), Split(ids[1], '-'), Split(ids[2], '-'))
  }

  /** `isASet`: split each selected card's id on "-", then compare position by
      position, giving up at the first position that is neither all same nor all different. */
  method IsASet(ids: seq<string>) returns (r: bool)
    requires |ids| == 3
    ensures r == IdsFormSet(ids)
    ensures IsCardId(ids[0]) && IsCardId(ids[1]) && IsCardId(ids[2]) ==>
              (r <==> IsSet(CardOf(ids[0]), CardOf(ids[1]), CardOf(ids[2])))
  {
    var attributes: seq<seq<string>> := [];
    for i := 0 to |ids|
      invariant |attributes| == i
      invariant forall k :: 0 <= k < i ==> attributes[k] == Split(ids[k], '-')
    {
      attributes := attributes + [Split(ids[i], '-')];
    }
    for i := 0 to |attributes[0]|
      invariant forall j :: 0 <= j < i ==>
                  AllSameOrAllDifferent(At(attributes[0], j), At(attributes[1], j), At(attributes[2], j))
    {
      var a0, a1, a2 := At(attributes[0], i), At(attributes[1], i), At(attributes[2], i);
      var diff := a0 != a1 && a1 != a2 && a0 != a2;
      var same := a0 == a1 && a1 == a2;
      if !(same || diff) {
        r := false;
        Verdict(ids, r);
        return;
      }
    }
    r := true;
    Verdict(ids, r);
  }

  lemma Verdict(ids: seq<string>, r: bool)
    requires |ids| == 3 && r == IdsFormSet(ids)
    ensures IsCardId(ids[0]) && IsCardId(ids[1]) && IsCardId(ids[2]) ==>
              (r <==> IsSet(CardOf(ids[0]), CardOf(ids[1]), CardOf(ids[2])))
  {
    if IsCardId(ids[0]) && IsCardId(ids[1]) && IsCardId(ids[2]) {
      assert ids == [ids[0], ids[1], ids[2]];
      CardIdsVerdict(ids[0], ids[1], ids[2]);
    }
  }

  /** The verdict on three card ids is the rule on the cards they name. */
  lemma CardIdsVerdict(x: string, y: string, z: string)
    requires IsCardId(x) && IsCardId(y) && IsCardId(z)
    ensures IdsFormSet([x, y, z]) <==> IsSet(CardOf(x), CardOf(y), CardOf(z))
  {
    KeyOfParse(x);
    KeyOfParse(y);
    KeyOfParse(z);
    KeyVerdict(CardOf(x), CardOf(y), CardOf(z));
  }

  /** The rule holds on the values of an attribute exactly when it holds on their names. */
  lemma NamesKeepRule(a: Card, b: Card, c: Card)
    ensures AllSameOrAllDifferent(StyleName(a.style), StyleName(b.style), StyleName(c.style)) <==>
              AllSameOrAllDifferent(a.style, b.style, c.style)
    ensures AllSameOrAllDifferent(ShapeName(a.shape), ShapeName(b.shape), ShapeName(c.shape)) <==>
              AllSameOrAllDifferent(a.shape, b.shape, c.shape)
    ensures AllSameOrAllDifferent(ColorName(a.color), ColorName(b.color), ColorName(c.color)) <==>
              AllSameOrAllDifferent(a.color, b.color, c.color)
    ensures AllSameOrAllDifferent(CountName(a.count), CountName(b.count), CountName(c.count)) <==>
              AllSameOrAllDifferent(a.count, b.count, c.count)
  {
  }

  /** With four parts each, the positions are exactly 0, 1, 2 and 3. */
  lemma FourPositions(p0: seq<string>, p1: seq<string>, p2: seq<string>)
    requires |p0| == 4 && |p1| == 4 && |p2| == 4
    ensures PartsFormSet(p0, p1, p2) <==>
      && AllSameOrAllDifferent(p0[0], p1[0], p2[0])
      && AllSameOrAllDifferent(p0[1], p1[1], p2[1])
      && AllSameOrAllDifferent(p0[2], p1[2], p2[2])
      && AllSameOrAllDifferent(p0[3], p1[3], p2[3])
  {
    if !PartsFormSet(p0, p1, p2) {
      var i :| 0 <= i < 4 && !AllSameOrAllDifferent(At(p0, i), At(p1, i), At(p2, i));
      assert !AllSameOrAllDifferent(p0[i], p1[i], p2[i]);
    } else {
      assert AllSameOrAllDifferent(At(p0, 0), At(p1, 0), At(p2, 0));
      assert AllSameOrAllDifferent(At(p0, 1), At(p1, 1), At(p2, 1));
      assert AllSameOrAllDifferent(At(p0, 2), At(p1, 2), At(p2, 2));
      assert AllSameOrAllDifferent(At(p0, 3), At(p1, 3), At(p2, 3));
    }
  }

  /** The rule position by position on the attribute strings: one failing position
      makes the three cards not a set. */
  lemma IsSetByPosition(a: Card, b: Card, c: Card)
    ensures IsSet(a, b, c) <==> PartsFormSet(Attributes(a), Attributes(b), Attributes(c))
  {
    NamesKeepRule(a, b, c);
    FourPositions(Attributes(a), Attributes(b), Attributes(c));
  }

  /** The verdict on three card ids is the rule on the three cards: at each of the
      four positions the split id holds the attribute's name, and names are one-to-one. */
  lemma KeyVerdict(a: Card, b: Card, c: Card)
    ensures IdsFormSet([Key(a), Key(b), Key(c)]) <==> IsSet(a, b, c)
  {
    SplitKey(a);
    SplitKey(b);
    SplitKey(c);
    IsSetByPosition(a, b, c);
  }

  /** The verdict on the ids of three cards does not depend on the order in which
      they are selected. */
  lemma VerdictOrderIndependent(a: Card, b: Card, c: Card)
    ensures var v := IdsFormSet([Key(a), Key(b), Key(c)]);
      && v == IdsFormSet([Key(b), Key(a), Key(c)])
      && v == IdsFormSet([Key(a), Key(c), Key(b)])
      && v == IdsFormSet([Key(c), Key(b), Key(a)])
      && v == IdsFormSet([Key(b), Key(c), Key(a)])
      && v == IdsFormSet([Key(c), Key(a), Key(b)])
  {
    KeyVerdict(a, b, c);
    KeyVerdict(b, a, c);
    KeyVerdict(a, c, b);
    KeyVerdict(c, b, a);
    KeyVerdict(b, c, a);
    KeyVerdict(c, a, b);
  }

  /** Three copies of one card always form a set. */
  lemma IdenticalCardsFormSet(a: Card)
    ensures IdsFormSet([Key(a), Key(a), Key(a)])
  {
  }

  /** Order matters for ids that are not card ids: the loop runs over the parts
      of the first id only. */
  lemma MalformedIdsOrderDependent()
    ensures IdsFormSet(["a", "a-b", "a-b"])
    ensures !IdsFormSet(["a-b", "a-b", "a"])
  {
    SplitNoSeparator("a", '-');
    SplitNoSeparator("b", '-');
    SplitAtSeparator("a", '-', "b");
    assert "a" + ['-'] + "b" == "a-b";
    assert At(["a", "b"], 1) == Some("b") && At(["a"], 1) == None;
  }
}
