/** The kiosk's basket: one line per item and set of options, within the server's bounds. */
module KioskBasket {
  const MAX_LINE_QUANTITY := 20
  const MAX_LINES := 50

  datatype Choice = Choice(itemId: string, name: string, modifierIds: seq<string>)

  datatype Line = Line(key: string, choice: Choice, quantity: int)

  type Basket = seq<Line>

  // ----- the key of a line -------------------------------------------------------------------

  /** Order of strings by their characters. */
  predicate AtMost(a: string, b: string) {
    |a| == 0 || (|b| > 0 && (a[0] < b[0] || (a[0] == b[0] && AtMost(a[1..], b[1..]))))
  }

  function Inserted(x: string, sorted: seq<string>): seq<string> {
    if |sorted| == 0 || AtMost(x, sorted[0]) then [x] + sorted else [sorted[0]] + Inserted(x, sorted[1..])
  }

  function Sorted(xs: seq<string>): seq<string> {
    if |xs| == 0 then [] else Inserted(xs[0], Sorted(xs[1..]))
  }

  function Joined(xs: seq<string>): string {
    if |xs| == 0 then "" else if |xs| == 1 then xs[0] else xs[0] + "," + Joined(xs[1..])
  }

  function LineKey(choice: Choice): string {
    choice.itemId + ":" + Joined(Sorted(choice.modifierIds))
  }

  lemma {:induction false} AtMostOrders(a: string, b: string, c: string)
    ensures AtMost(a, b) || AtMost(b, a)
    ensures AtMost(a, b) && AtMost(b, a) ==> a == b
    ensures AtMost(a, b) && AtMost(b, c) ==> AtMost(a, c)
  {
    if |a| > 0 && |b| > 0 {
      AtMostOrders(a[1..], b[1..], if |c| > 0 then c[1..] else c);
      assert a[0] == b[0] && a[1..] == b[1..] ==> a == [a[0]] + a[1..] == b;
    }
  }

  ghost predicate InOrder(xs: seq<string>) {
    forall i, j :: 0 <= i < j < |xs| ==> AtMost(xs[i], xs[j])
  }

  lemma {:induction false} InsertedInOrder(x: string, sorted: seq<string>)
    requires InOrder(sorted)
    ensures multiset(Inserted(x, sorted)) == multiset(sorted) + multiset{x}
    ensures InOrder(Inserted(x, sorted))
  {
    if |sorted| == 0 {
    } else if AtMost(x, sorted[0]) {
      forall j | 0 <= j < |sorted| ensures AtMost(x, sorted[j]) {
        AtMostOrders(x, sorted[0], sorted[j]);
      }
    } else {
      var rest := sorted[1..];
      InsertedInOrder(x, rest);
      assert sorted == [sorted[0]] + rest;
      forall y | y in multiset(Inserted(x, rest)) ensures AtMost(sorted[0], y) {
        AtMostOrders(sorted[0], x, x);
        if y in multiset(rest) {
          var j :| 0 <= j < |rest| && rest[j] == y;
          assert sorted[j + 1] == y;
        }
      }
    }
  }

  lemma {:induction false} SortedInOrder(xs: seq<string>)
    ensures multiset(Sorted(xs)) == multiset(xs)
    ensures InOrder(Sorted(xs))
  {
    if |xs| > 0 {
      SortedInOrder(xs[1..]);
      InsertedInOrder(xs[0], Sorted(xs[1..]));
      assert xs == [xs[0]] + xs[1..];
    }
  }

  /** Only one arrangement of a multiset is in order. */
  lemma {:induction false} OneOrder(xs: seq<string>, ys: seq<string>)
    requires InOrder(xs) && InOrder(ys) && multiset(xs) == multiset(ys)
    ensures xs == ys
  {
    if |xs| == 0 {
      assert |multiset(ys)| == 0;
    } else {
      assert |multiset(xs)| == |multiset(ys)|;
      assert xs[0] in multiset(ys) && ys[0] in multiset(xs);
      AtMostOrders(xs[0], ys[0], ys[0]);
      assert xs[0] == ys[0];
      assert xs == [xs[0]] + xs[1..] && ys == [ys[0]] + ys[1..];
      assert multiset(xs[1..]) == multiset(xs) - multiset{xs[0]} == multiset(ys[1..]);
      OneOrder(xs[1..], ys[1..]);
    }
  }

  /** Ids as the server makes them: not empty, and free of the separators. */
  predicate PlainIds(choice: Choice) {
    ':' !in choice.itemId && forall m <- choice.modifierIds :: m != "" && ',' !in m
  }

  lemma LongerHasMark(a: string, x: string, b: string, y: string, mark: char)
    requires a + [mark] + x == b + [mark] + y && |a| < |b|
    ensures mark in b
  {
    assert (a + [mark] + x)[|a|] == mark;
    assert (b + [mark] + y)[|a|] == b[|a|];
  }

  lemma SplitAt(a: string, x: string, b: string, y: string, mark: char)
    requires mark !in a && mark !in b && a + [mark] + x == b + [mark] + y
    ensures a == b && x == y
  {
    if |a| < |b| {
      LongerHasMark(a, x, b, y, mark);
    } else if |b| < |a| {
      LongerHasMark(b, y, a, x, mark);
    } else {
      var whole := a + [mark] + x;
      assert whole == b + [mark] + y;
      assert a == whole[..|a|] && b == whole[..|b|];
      assert x == whole[|a| + 1..] && y == whole[|b| + 1..];
    }
  }

  lemma HasComma(b: string, y: string)
    ensures ',' in b + "," + y
  {
    assert (b + "," + y)[|b|] == ',';
  }

  lemma NotEmpty(xs: seq<string>)
    requires forall x <- xs :: x != ""
    ensures Joined(xs) == "" <==> xs == []
  {
    assert |xs| > 0 ==> xs[0] in xs;
  }

  lemma {:induction false} JoinedTells(xs: seq<string>, ys: seq<string>)
    requires forall x <- xs :: x != "" && ',' !in x
    requires forall y <- ys :: y != "" && ',' !in y
    requires Joined(xs) == Joined(ys)
    ensures xs == ys
  {
    if |xs| == 0 || |ys| == 0 {
      NotEmpty(xs);
      NotEmpty(ys);
    } else {
      assert xs[0] in xs && ys[0] in ys;
      if |xs| > 1 && |ys| > 1 {
        SplitAt(xs[0], Joined(xs[1..]), ys[0], Joined(ys[1..]), ',');
        assert forall x <- xs[1..] :: x in xs;
        assert forall y <- ys[1..] :: y in ys;
        JoinedTells(xs[1..], ys[1..]);
        assert xs == [xs[0]] + xs[1..] && ys == [ys[0]] + ys[1..];
      } else if |xs| > 1 {
        HasComma(xs[0], Joined(xs[1..]));
      } else if |ys| > 1 {
        HasComma(ys[0], Joined(ys[1..]));
      }
    }
  }

  /** Two choices share a line exactly when they are the same item with the same options. */
  lemma SameLineIffSameChoice(a: Choice, b: Choice)
    requires PlainIds(a) && PlainIds(b)
    ensures LineKey(a) == LineKey(b) <==> a.itemId == b.itemId && multiset(a.modifierIds) == multiset(b.modifierIds)
  {
    var sa, sb := Sorted(a.modifierIds), Sorted(b.modifierIds);
    SortedInOrder(a.modifierIds);
    SortedInOrder(b.modifierIds);
    if LineKey(a) == LineKey(b) {
      SplitAt(a.itemId, Joined(sa), b.itemId, Joined(sb), ':');
      forall x | x in sa ensures x in a.modifierIds {
        assert x in multiset(sa);
      }
      forall x | x in sb ensures x in b.modifierIds {
        assert x in multiset(sb);
      }
      JoinedTells(sa, sb);
    }
    if multiset(a.modifierIds) == multiset(b.modifierIds) {
      OneOrder(sa, sb);
    }
  }

  // ----- basket operations -------------------------------------------------------------------

  function Capped(quantity: int): int {
    if quantity < MAX_LINE_QUANTITY then quantity else MAX_LINE_QUANTITY
  }

  /** Every line with the key changed by delta. */
  function Adjusted(basket: Basket, key: string, delta: int): (r: Basket)
    ensures |r| == |basket|
    ensures forall i :: 0 <= i < |basket| ==>
                          r[i] == if basket[i].key == key then basket[i].(quantity := Capped(basket[i].quantity + delta))
                                  else basket[i]
  {
    if |basket| == 0 then []
    else
      var line := basket[|basket| - 1];
      Adjusted(basket[..|basket| - 1], key, delta)
      + [if line.key == key then line.(quantity := Capped(line.quantity + delta)) else line]
  }

  function Filter(basket: Basket, keep: Line -> bool): Basket {
    if |basket| == 0 then []
    else Filter(basket[..|basket| - 1], keep) + if keep(basket[|basket| - 1]) then [basket[|basket| - 1]] else []
  }

  predicate HasKey(basket: Basket, key: string) {
    exists i :: 0 <= i < |basket| && basket[i].key == key
  }

  function AddToBasket(basket: Basket, choice: Choice): Basket {
    var key := LineKey(choice);
    if HasKey(basket, key) then Adjusted(basket, key, 1)
    else if |basket| >= MAX_LINES then basket
    else basket + [Line(key, choice, 1)]
  }

  function ChangeQuantity(basket: Basket, key: string, delta: int): Basket {
    Filter(Adjusted(basket, key, delta), (l: Line) => l.quantity > 0)
  }

  function RemoveLine(basket: Basket, key: string): Basket {
    Filter(basket, (l: Line) => l.key != key)
  }

  function RemoveItems(basket: Basket, itemIds: seq<string>): Basket {
    Filter(basket, (l: Line) => l.choice.itemId !in itemIds)
  }

  /** What the server's schema and the screen rely on. */
  ghost predicate Sound(basket: Basket) {
    && |basket| <= MAX_LINES
    && (forall i :: 0 <= i < |basket| ==>
          basket[i].key == LineKey(basket[i].choice) && 1 <= basket[i].quantity <= MAX_LINE_QUANTITY)
    && UniqueKeys(basket)
  }

  ghost predicate UniqueKeys(basket: Basket) {
    forall i, j :: 0 <= i < j < |basket| ==> basket[i].key != basket[j].key
  }

  /** The quantity shown for a key; 0 when it has no line. */
  function Quantity(basket: Basket, key: string): int {
    if |basket| == 0 then 0
    else if basket[|basket| - 1].key == key then basket[|basket| - 1].quantity
    else Quantity(basket[..|basket| - 1], key)
  }

  lemma {:induction false} QuantityAt(basket: Basket, i: nat)
    requires UniqueKeys(basket) && i < |basket|
    ensures Quantity(basket, basket[i].key) == basket[i].quantity
  {
    if i < |basket| - 1 {
      QuantityAt(basket[..|basket| - 1], i);
    }
  }

  lemma {:induction false} QuantityAbsent(basket: Basket, key: string)
    requires !HasKey(basket, key)
    ensures Quantity(basket, key) == 0
  {
    if |basket| > 0 {
      assert basket[|basket| - 1].key != key;
      var front := basket[..|basket| - 1];
      forall i | 0 <= i < |front| ensures front[i].key != key {
        assert basket[i].key != key;
      }
      QuantityAbsent(front, key);
    }
  }

  lemma {:induction false} FilterKeeps(basket: Basket, keep: Line -> bool)
    requires UniqueKeys(basket)
    ensures |Filter(basket, keep)| <= |basket|
    ensures forall line :: line in Filter(basket, keep) <==> line in basket && keep(line)
    ensures UniqueKeys(Filter(basket, keep))
  {
    if |basket| > 0 {
      var front, last := basket[..|basket| - 1], basket[|basket| - 1];
      FilterKeeps(front, keep);
      assert basket == front + [last];
      forall line | line in front ensures line.key != last.key {
        var i :| 0 <= i < |front| && front[i] == line;
        assert basket[i].key != basket[|basket| - 1].key;
      }
      forall i | 0 <= i < |Filter(front, keep)| ensures Filter(front, keep)[i].key != last.key {
        assert Filter(front, keep)[i] in Filter(front, keep);
      }
    }
  }

  lemma FilterSound(basket: Basket, keep: Line -> bool)
    requires Sound(basket)
    ensures Sound(Filter(basket, keep))
  {
    FilterKeeps(basket, keep);
    forall i | 0 <= i < |Filter(basket, keep)|
      ensures Filter(basket, keep)[i].key == LineKey(Filter(basket, keep)[i].choice)
              && 1 <= Filter(basket, keep)[i].quantity <= MAX_LINE_QUANTITY
    {
      assert Filter(basket, keep)[i] in Filter(basket, keep);
    }
  }

  /** Filtering drops the quantity of what it drops and touches nothing else. */
  lemma {:induction false} FilterQuantity(basket: Basket, keep: Line -> bool, key: string)
    requires UniqueKeys(basket)
    ensures Quantity(Filter(basket, keep), key)
         == if exists i :: 0 <= i < |basket| && basket[i].key == key && keep(basket[i]) then Quantity(basket, key) else 0
  {
    var kept := Filter(basket, keep);
    FilterKeeps(basket, keep);
    if i :| 0 <= i < |basket| && basket[i].key == key && keep(basket[i]) {
      QuantityAt(basket, i);
      assert basket[i] in kept;
      var j :| 0 <= j < |kept| && kept[j] == basket[i];
      QuantityAt(kept, j);
    } else {
      forall j | 0 <= j < |kept| ensures kept[j].key != key {
        assert kept[j] in kept;
      }
      QuantityAbsent(kept, key);
    }
  }

  lemma HasKeyInFront(basket: Basket, key: string)
    requires |basket| > 0
    ensures HasKey(basket, key) <==> basket[|basket| - 1].key == key || HasKey(basket[..|basket| - 1], key)
  {
    var front := basket[..|basket| - 1];
    if i :| 0 <= i < |front| && front[i].key == key {
      assert basket[i].key == key;
    }
    if i :| 0 <= i < |basket| && basket[i].key == key {
      assert i < |front| ==> front[i].key == key;
    }
  }

  lemma {:induction false} AdjustedQuantity(basket: Basket, key: string, delta: int, other: string)
    ensures Quantity(Adjusted(basket, key, delta), other)
         == if other == key && HasKey(basket, key) then Capped(Quantity(basket, key) + delta) else Quantity(basket, other)
  {
    if |basket| > 0 {
      var front := basket[..|basket| - 1];
      AdjustedQuantity(front, key, delta, other);
      HasKeyInFront(basket, key);
      assert Adjusted(basket, key, delta)[..|basket| - 1] == Adjusted(front, key, delta);
    }
  }

  lemma AddSound(basket: Basket, choice: Choice)
    requires Sound(basket)
    ensures Sound(AddToBasket(basket, choice))
  {
    var key := LineKey(choice);
    var r := AddToBasket(basket, choice);
    if HasKey(basket, key) {
      assert forall i :: 0 <= i < |r| ==> r[i].key == basket[i].key && r[i].choice == basket[i].choice;
    } else if |basket| < MAX_LINES {
      assert forall i :: 0 <= i < |basket| ==> r[i] == basket[i] && basket[i].key != key;
    }
  }

  /**
   * One more of this choice, up to twenty a line and fifty lines; nothing else in the basket
   * changes, and a new line comes last.
   */
  lemma AddChangesOneLine(basket: Basket, choice: Choice, other: string)
    requires Sound(basket)
    ensures Sound(AddToBasket(basket, choice))
    ensures Quantity(AddToBasket(basket, choice), other)
         == if other == LineKey(choice) && (HasKey(basket, other) || |basket| < 50)
            then (if Quantity(basket, other) < 20 then Quantity(basket, other) + 1 else 20)
            else Quantity(basket, other)
    ensures var more := AddToBasket(basket, choice);
            && (forall i :: 0 <= i < |basket| ==> i < |more| && more[i].choice == basket[i].choice)
            && |more| == |basket| + (if HasKey(basket, LineKey(choice)) || |basket| >= 50 then 0 else 1)
            && (|more| > |basket| ==> more[|basket|] == Line(LineKey(choice), choice, 1))
  {
    AddSound(basket, choice);
    AddQuantity(basket, choice, other);
  }

  lemma AddQuantity(basket: Basket, choice: Choice, other: string)
    ensures Quantity(AddToBasket(basket, choice), other)
         == if other == LineKey(choice) && (HasKey(basket, other) || |basket| < MAX_LINES)
            then Capped(Quantity(basket, other) + 1)
            else Quantity(basket, other)
  {
    var key := LineKey(choice);
    if HasKey(basket, key) {
      AdjustedQuantity(basket, key, 1, other);
    } else if |basket| < MAX_LINES {
      QuantityAbsent(basket, key);
      assert AddToBasket(basket, choice)[..|basket|] == basket;
    }
  }

  lemma FilterOne(line: Line, keep: Line -> bool)
    ensures Filter([line], keep) == if keep(line) then [line] else []
  {
    assert [line][..0] == [] && Filter([], keep) == [];
  }

  /** What is filtered out goes, and what is kept keeps its order. */
  lemma {:induction false} FilterInPieces(a: Basket, b: Basket, keep: Line -> bool)
    ensures Filter(a + b, keep) == Filter(a, keep) + Filter(b, keep)
  {
    if |b| == 0 {
      assert a + b == a;
    } else {
      FilterInPieces(a, b[..|b| - 1], keep);
      assert (a + b)[..|a + b| - 1] == a + b[..|b| - 1];
    }
  }

  lemma AdjustedKeys(basket: Basket, key: string, delta: int, other: string)
    requires UniqueKeys(basket)
    ensures UniqueKeys(Adjusted(basket, key, delta))
    ensures HasKey(Adjusted(basket, key, delta), other) <==> HasKey(basket, other)
  {
    var changed := Adjusted(basket, key, delta);
    if i :| 0 <= i < |basket| && basket[i].key == other {
      assert changed[i].key == other;
    }
    if i :| 0 <= i < |changed| && changed[i].key == other {
      assert basket[i].key == other;
    }
  }

  /** A line that is left with nothing goes; any other keeps its quantity. */
  lemma PositiveQuantity(basket: Basket, other: string)
    requires UniqueKeys(basket)
    ensures Quantity(Filter(basket, (l: Line) => l.quantity > 0), other)
         == if Quantity(basket, other) > 0 then Quantity(basket, other) else 0
  {
    FilterQuantity(basket, (l: Line) => l.quantity > 0, other);
    if i :| 0 <= i < |basket| && basket[i].key == other {
      QuantityAt(basket, i);
    } else {
      QuantityAbsent(basket, other);
    }
  }

  /** The line changes by delta, capped, and goes when nothing is left; no other line changes. */
  lemma ChangeChangesOneLine(basket: Basket, key: string, delta: int, other: string)
    requires Sound(basket)
    ensures Sound(ChangeQuantity(basket, key, delta))
    ensures Quantity(ChangeQuantity(basket, key, delta), other)
         == if other == key && HasKey(basket, key)
            then (if Quantity(basket, key) + delta <= 0 then 0
                  else if Quantity(basket, key) + delta < 20 then Quantity(basket, key) + delta else 20)
            else Quantity(basket, other)
  {
    ChangeSound(basket, key, delta);
    ChangedQuantity(basket, key, delta, other);
  }

  lemma ChangedQuantity(basket: Basket, key: string, delta: int, other: string)
    requires Sound(basket)
    ensures Quantity(ChangeQuantity(basket, key, delta), other)
         == if other == key && HasKey(basket, key)
            then (if Quantity(basket, key) + delta > 0 then Capped(Quantity(basket, key) + delta) else 0)
            else Quantity(basket, other)
  {
    AdjustedQuantity(basket, key, delta, other);
    AdjustedKeys(basket, key, delta, other);
    PositiveQuantity(Adjusted(basket, key, delta), other);
    QuantityNotNegative(basket, other);
  }

  lemma AdjustedWithin(basket: Basket, key: string, delta: int, line: Line)
    requires Sound(basket) && line in Adjusted(basket, key, delta)
    ensures line.key == LineKey(line.choice) && line.quantity <= MAX_LINE_QUANTITY
  {
  }

  lemma ChangeSound(basket: Basket, key: string, delta: int)
    requires Sound(basket)
    ensures Sound(ChangeQuantity(basket, key, delta))
  {
    var changed := Adjusted(basket, key, delta);
    var keep := (l: Line) => l.quantity > 0;
    FilterKeeps(changed, keep);
    var kept := Filter(changed, keep);
    forall i | 0 <= i < |kept| ensures kept[i].key == LineKey(kept[i].choice) && 1 <= kept[i].quantity <= MAX_LINE_QUANTITY {
      assert kept[i] in kept;
      AdjustedWithin(basket, key, delta, kept[i]);
    }
  }

  lemma QuantityNotNegative(basket: Basket, other: string)
    requires Sound(basket)
    ensures Quantity(basket, other) >= 0
  {
    if i :| 0 <= i < |basket| && basket[i].key == other {
      QuantityAt(basket, i);
    } else {
      QuantityAbsent(basket, other);
    }
  }

  /** Removing what is sold out takes exactly those items' lines. */
  lemma RemoveItemsRemovesThem(basket: Basket, itemIds: seq<string>, i: nat)
    requires Sound(basket) && i < |basket|
    ensures Sound(RemoveItems(basket, itemIds))
    ensures Quantity(RemoveItems(basket, itemIds), basket[i].key)
         == if basket[i].choice.itemId in itemIds then 0 else basket[i].quantity
  {
    var keep := (l: Line) => l.choice.itemId !in itemIds;
    FilterSound(basket, keep);
    FilterQuantity(basket, keep, basket[i].key);
    QuantityAt(basket, i);
  }

  lemma RemoveLineRemovesIt(basket: Basket, key: string, other: string)
    requires Sound(basket)
    ensures Sound(RemoveLine(basket, key))
    ensures Quantity(RemoveLine(basket, key), other) == if other == key then 0 else Quantity(basket, other)
  {
    var keep := (l: Line) => l.key != key;
    FilterSound(basket, keep);
    FilterQuantity(basket, keep, other);
    if !HasKey(basket, other) {
      QuantityAbsent(basket, other);
    }
  }
}
