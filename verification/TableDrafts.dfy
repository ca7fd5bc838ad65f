/**
 * The till's unsent carts, one per table: the visible cart and the drafts of the other tables. A
 * cart begun before a table was chosen belongs to the table "" and is carried to the first one.
 */
module TableDrafts {
  import opened Options

  type TableId = string

  const NO_TABLE: TableId := ""

  datatype Line = Line(key: string, quantity: int)

  type Cart = seq<Line>

  type Drafts = map<TableId, Cart>

  // ----- merging -----------------------------------------------------------------------------

  /** The first line with this key. */
  function Find(lines: Cart, key: string): (found: Option<nat>)
    ensures found.Some? ==> found.value < |lines| && lines[found.value].key == key
    ensures found.Some? ==> forall i :: 0 <= i < found.value ==> lines[i].key != key
    ensures found.None? ==> forall i :: 0 <= i < |lines| ==> lines[i].key != key
  {
    if |lines| == 0 then None
    else
      var earlier := Find(lines[..|lines| - 1], key);
      if earlier.Some? then earlier
      else if lines[|lines| - 1].key == key then Some(|lines| - 1)
      else None
  }

  function WithLine(lines: Cart, line: Line): Cart {
    var hit := Find(lines, line.key);
    if hit.Some? then lines[hit.value := lines[hit.value].(quantity := lines[hit.value].quantity + line.quantity)]
    else lines + [line]
  }

  function Merged(a: Cart, b: Cart): Cart {
    if |b| == 0 then a else WithLine(Merged(a, b[..|b| - 1]), b[|b| - 1])
  }

  /** The second cart's lines go onto the first one's, or after them. */
  method Merge(a: Cart, b: Cart) returns (out: Cart)
    ensures out == Merged(a, b)
  {
    out := a;
    for i := 0 to |b|
      invariant out == Merged(a, b[..i])
    {
      assert b[..i + 1][..i] == b[..i];
      var hit := Find(out, b[i].key);
      if hit.Some? {
        out := out[hit.value := out[hit.value].(quantity := out[hit.value].quantity + b[i].quantity)];
      } else {
        out := out + [b[i]];
      }
    }
    assert b[..|b|] == b;
  }

  /** Units of an item in a cart, over all its lines. */
  function Units(lines: Cart, key: string): int {
    if |lines| == 0 then 0
    else Units(lines[..|lines| - 1], key) + if lines[|lines| - 1].key == key then lines[|lines| - 1].quantity else 0
  }

  lemma {:induction false} UnitsAt(lines: Cart, i: nat, quantity: int, key: string)
    requires i < |lines|
    ensures Units(lines[i := lines[i].(quantity := quantity)], key)
         == Units(lines, key) + if lines[i].key == key then quantity - lines[i].quantity else 0
  {
    var n := |lines| - 1;
    var changed := lines[i := lines[i].(quantity := quantity)];
    if i == n {
      assert changed[..n] == lines[..n];
    } else {
      UnitsAt(lines[..n], i, quantity, key);
      assert changed[..n] == lines[..n][i := lines[i].(quantity := quantity)];
    }
  }

  lemma WithLineUnits(lines: Cart, line: Line, key: string)
    ensures Units(WithLine(lines, line), key) == Units(lines, key) + if line.key == key then line.quantity else 0
  {
    var hit := Find(lines, line.key);
    if hit.Some? {
      UnitsAt(lines, hit.value, lines[hit.value].quantity + line.quantity, key);
    } else {
      assert (lines + [line])[..|lines|] == lines;
    }
  }

  ghost predicate UniqueKeys(lines: Cart) {
    forall i, j :: 0 <= i < j < |lines| ==> lines[i].key != lines[j].key
  }

  /** Merging loses and invents no units, keeps the first cart's lines in place, and one line per key. */
  lemma {:induction false} MergeKeepsUnits(a: Cart, b: Cart, key: string)
    ensures Units(Merged(a, b), key) == Units(a, key) + Units(b, key)
    ensures |a| <= |Merged(a, b)| && forall i :: 0 <= i < |a| ==> Merged(a, b)[i].key == a[i].key
    ensures UniqueKeys(a) ==> UniqueKeys(Merged(a, b))
  {
    if |b| > 0 {
      MergeKeepsUnits(a, b[..|b| - 1], key);
      WithLineUnits(Merged(a, b[..|b| - 1]), b[|b| - 1], key);
    }
  }

  /** No line before has its key. */
  predicate IsFirst(lines: Cart, i: nat)
    requires i < |lines|
  {
    forall j :: 0 <= j < i ==> lines[j].key != lines[i].key
  }

  lemma FindIsFirst(lines: Cart, i: nat)
    requires i < |lines|
    ensures IsFirst(lines, i) <==> Find(lines, lines[i].key) == Some(i)
  {
  }

  lemma WithLineAt(lines: Cart, line: Line, i: nat)
    requires i < |lines|
    ensures |WithLine(lines, line)| >= |lines|
    ensures IsFirst(WithLine(lines, line), i) <==> IsFirst(lines, i)
    ensures WithLine(lines, line)[i] == lines[i].(quantity := lines[i].quantity
                                                              + if IsFirst(lines, i) && lines[i].key == line.key then line.quantity else 0)
  {
    FindIsFirst(lines, i);
    var more := WithLine(lines, line);
    assert forall j :: 0 <= j < |lines| ==> more[j].key == lines[j].key;
  }

  /** Each line of the first cart stays as it was but for what the second adds to it: all it has of
      the item, on the first line that has it. */
  lemma {:induction false} MergedLineIs(a: Cart, b: Cart, i: nat)
    requires i < |a|
    ensures i < |Merged(a, b)| && (IsFirst(Merged(a, b), i) <==> IsFirst(a, i))
    ensures Merged(a, b)[i] == a[i].(quantity := a[i].quantity + if IsFirst(a, i) then Units(b, a[i].key) else 0)
  {
    if |b| > 0 {
      MergedLineIs(a, b[..|b| - 1], i);
      WithLineAt(Merged(a, b[..|b| - 1]), b[|b| - 1], i);
    }
  }

  /** What comes after is the second cart's, one line for each item the first has none of. */
  lemma {:induction false} LinesAfterAreNew(a: Cart, b: Cart, i: nat)
    requires |a| <= i < |Merged(a, b)|
    ensures IsFirst(Merged(a, b), i) && (exists j :: 0 <= j < |b| && Merged(a, b)[i] == b[j].(quantity := Units(b, b[j].key)))
    ensures forall k :: 0 <= k < |a| ==> a[k].key != Merged(a, b)[i].key
  {
    var front, last := b[..|b| - 1], b[|b| - 1];
    var before := Merged(a, front);
    MergeKeepsUnits(a, front, "");
    MergeKeepsUnits(a, b, "");
    if i < |before| {
      LinesAfterAreNew(a, front, i);
      WithLineAt(before, last, i);
      var j :| 0 <= j < |front| && before[i] == front[j].(quantity := Units(front, front[j].key));
      assert Merged(a, b)[i] == b[j].(quantity := Units(b, b[j].key));
    } else {
      NewLine(a, front, last);
      assert Merged(a, b)[i] == b[|front|].(quantity := Units(b, b[|front|].key));
    }
  }

  lemma NewLine(a: Cart, front: Cart, last: Line)
    requires Find(Merged(a, front), last.key).None?
    ensures Units(front, last.key) == 0 && forall k :: 0 <= k < |a| ==> a[k].key != last.key
  {
    NoUnits(Merged(a, front), last.key);
    NoUnits(a, last.key) by {
      MergeKeepsUnits(a, front, last.key);
      forall k | 0 <= k < |a| ensures a[k].key != last.key {
        assert Merged(a, front)[k].key == a[k].key;
      }
    }
    MergeKeepsUnits(a, front, last.key);
  }

  lemma {:induction false} NoUnits(lines: Cart, key: string)
    requires forall i :: 0 <= i < |lines| ==> lines[i].key != key
    ensures Units(lines, key) == 0
  {
    if |lines| > 0 {
      NoUnits(lines[..|lines| - 1], key);
    }
  }

  // ----- switching tables --------------------------------------------------------------------

  function Stored(drafts: Drafts, table: TableId): Cart {
    if table in drafts then drafts[table] else []
  }

  /** The drafts after leaving a table. */
  function Kept(drafts: Drafts, from: TableId, lines: Cart): Drafts {
    if from == NO_TABLE then drafts
    else if |lines| > 0 then drafts[from := lines]
    else drafts - {from}
  }

  function Switched(drafts: Drafts, from: TableId, toTable: TableId, lines: Cart): (Drafts, Cart) {
    if from == toTable then (drafts, lines)
    else
      var next := Kept(drafts, from, lines);
      var stored := if toTable != NO_TABLE then Stored(next, toTable) else [];
      var carried := if from != NO_TABLE then [] else lines;
      (if toTable != NO_TABLE then next - {toTable} else next, Merged(stored, carried))
  }

  method SwitchTableDraft(drafts: Drafts, from: TableId, toTable: TableId, lines: Cart)
    returns (newDrafts: Drafts, newLines: Cart)
    ensures (newDrafts, newLines) == Switched(drafts, from, toTable, lines)
  {
    if from == toTable {
      return drafts, lines;
    }
    newDrafts := drafts;
    if from != NO_TABLE {
      if |lines| > 0 {
        newDrafts := newDrafts[from := lines];
      } else {
        newDrafts := newDrafts - {from};
      }
    }
    var stored := if toTable != NO_TABLE then Stored(newDrafts, toTable) else [];
    var carried := if from != NO_TABLE then [] else lines;
    if toTable != NO_TABLE {
      newDrafts := newDrafts - {toTable};
    }
    newLines := Merge(stored, carried);
  }

  method ClearDraft(drafts: Drafts, table: TableId) returns (newDrafts: Drafts)
    ensures newDrafts == drafts - {table}
  {
    if table !in drafts {
      assert drafts - {table} == drafts;
      return drafts;
    }
    newDrafts := drafts;
    newDrafts := newDrafts - {table};
  }

  // ----- a run of the till, and one cart per table -------------------------------------------

  datatype Till = Till(drafts: Drafts, table: TableId, lines: Cart)

  datatype Event =
    | Edit(lines: Cart)            // whatever the visible cart is made into
    | Switch(table: TableId)
    | Clear(table: TableId)        // its order was sent

  function Next(p: Till, e: Event): Till {
    match e
    case Edit(lines) => p.(lines := lines)
    case Switch(table) =>
      var (drafts, lines) := Switched(p.drafts, p.table, table, p.lines);
      Till(drafts, table, lines)
    case Clear(table) => p.(drafts := p.drafts - {table})
  }

  function Run(p: Till, es: seq<Event>): Till {
    if |es| == 0 then p else Next(Run(p, es[..|es| - 1]), es[|es| - 1])
  }

  function Start(table: TableId): Till {
    Till(map[], table, [])
  }

  /** The simple form: every table has its own cart, and the till only points at one. */
  datatype Carts = Carts(of: map<TableId, Cart>, table: TableId) {
    function At(table: TableId): Cart { Stored(of, table) }

    function With(table: TableId, cart: Cart): Carts { this.(of := of[table := cart]) }
  }

  /** Choosing a first table carries the cart there; any other switch moves no item. */
  function NextCarts(s: Carts, e: Event): Carts {
    match e
    case Edit(lines) => s.With(s.table, lines)
    case Switch(table) =>
      if s.table == NO_TABLE && table != NO_TABLE
      then s.With(table, Merged(s.At(table), s.At(NO_TABLE))).With(NO_TABLE, []).(table := table)
      else s.(table := table)
    case Clear(table) => if table == s.table then s else s.With(table, [])
  }

  function RunCarts(s: Carts, es: seq<Event>): Carts {
    if |es| == 0 then s else NextCarts(RunCarts(s, es[..|es| - 1]), es[|es| - 1])
  }

  /** The cart of a table as the till has it: the visible one, or a draft. */
  function CartOf(p: Till, table: TableId): Cart {
    if table == p.table then p.lines else Stored(p.drafts, table)
  }

  ghost predicate Represents(p: Till, s: Carts) {
    p.table == s.table && forall table :: CartOf(p, table) == s.At(table)
  }

  /** No draft for the visible table, none for no table, and none that is empty. */
  ghost predicate Valid(p: Till) {
    p.table !in p.drafts && NO_TABLE !in p.drafts && forall table <- p.drafts :: p.drafts[table] != []
  }

  lemma SwitchRefines(p: Till, s: Carts, table: TableId)
    requires Valid(p) && Represents(p, s)
    ensures Valid(Next(p, Switch(table))) && Represents(Next(p, Switch(table)), NextCarts(s, Switch(table)))
  {
    var q, t := Next(p, Switch(table)), NextCarts(s, Switch(table));
    if p.table != table {
      assert CartOf(p, table) == s.At(table) && CartOf(p, p.table) == s.At(p.table) && CartOf(p, NO_TABLE) == s.At(NO_TABLE);
      forall other ensures CartOf(q, other) == t.At(other) {
        assert CartOf(p, other) == s.At(other);
      }
    }
  }

  lemma StepRefines(p: Till, s: Carts, e: Event)
    requires Valid(p) && Represents(p, s)
    ensures Valid(Next(p, e)) && Represents(Next(p, e), NextCarts(s, e))
  {
    match e
    case Switch(table) => SwitchRefines(p, s, table);
    case Edit(_) =>
      forall other ensures CartOf(Next(p, e), other) == NextCarts(s, e).At(other) {
        assert CartOf(p, other) == s.At(other);
      }
    case Clear(_) =>
      forall other ensures CartOf(Next(p, e), other) == NextCarts(s, e).At(other) {
        assert CartOf(p, other) == s.At(other);
      }
  }

  /**
   * Over any run of edits, switches and sent orders the visible cart and the drafts are exactly
   * one independent cart per table, and the visible table never has a draft as well.
   */
  lemma {:induction false} TillRefinesCarts(table: TableId, es: seq<Event>)
    ensures Valid(Run(Start(table), es))
    ensures Represents(Run(Start(table), es), RunCarts(Carts(map[], table), es))
  {
    if |es| > 0 {
      var front := es[..|es| - 1];
      TillRefinesCarts(table, front);
      StepRefines(Run(Start(table), front), RunCarts(Carts(map[], table), front), es[|es| - 1]);
    }
  }

  /** A switch leaves every table but the chosen one, and the cart without a table, as it was. */
  lemma {:induction false} OtherTablesUntouched(table: TableId, es: seq<Event>, chosen: TableId, other: TableId)
    requires other != chosen && (other != NO_TABLE || Run(Start(table), es).table != NO_TABLE)
    ensures CartOf(Run(Start(table), es + [Switch(chosen)]), other) == CartOf(Run(Start(table), es), other)
  {
    TillRefinesCarts(table, es);
    TillRefinesCarts(table, es + [Switch(chosen)]);
    assert (es + [Switch(chosen)])[..|es|] == es;
    var p, q := Run(Start(table), es), Run(Start(table), es + [Switch(chosen)]);
    var s := RunCarts(Carts(map[], table), es);
    assert CartOf(p, other) == s.At(other) && CartOf(q, other) == NextCarts(s, Switch(chosen)).At(other);
  }

  /** A cart without a table is carried once: while a table is chosen it is empty. */
  lemma {:induction false} CarriedOnce(table: TableId, es: seq<Event>)
    ensures Run(Start(table), es).table != NO_TABLE ==> CartOf(Run(Start(table), es), NO_TABLE) == []
  {
    TillRefinesCarts(table, es);
  }

  /** A cart begun without a table goes onto the lines the first table had, and after them. */
  lemma {:induction false} CarriedOntoItsLines(table: TableId, es: seq<Event>, chosen: TableId, i: nat)
    requires Run(Start(table), es).table == NO_TABLE && chosen != NO_TABLE
    requires i < |CartOf(Run(Start(table), es), chosen)|
    ensures var p, q := Run(Start(table), es), Next(Run(Start(table), es), Switch(chosen));
            var had := CartOf(p, chosen);
            && q.table == chosen && i < |q.lines|
            && q.lines[i] == had[i].(quantity := had[i].quantity + if IsFirst(had, i) then Units(p.lines, had[i].key) else 0)
  {
    var p := Run(Start(table), es);
    MergedLineIs(CartOf(p, chosen), p.lines, i);
  }

  // ----- conservation ------------------------------------------------------------------------

  /** Units of an item over a list of tables. */
  function TotalUnits(p: Till, tables: seq<TableId>, key: string): int {
    if |tables| == 0 then 0
    else TotalUnits(p, tables[..|tables| - 1], key) + Units(CartOf(p, tables[|tables| - 1]), key)
  }

  ghost predicate Distinct(tables: seq<TableId>) {
    forall i, j :: 0 <= i < j < |tables| ==> tables[i] != tables[j]
  }

  /** What the tables of a list gain and lose together. */
  lemma {:induction false} TwoChange(p: Till, q: Till, tables: seq<TableId>, a: TableId, b: TableId, key: string)
    requires Distinct(tables) && a != b
    requires forall t :: t != a && t != b ==> CartOf(q, t) == CartOf(p, t)
    ensures TotalUnits(q, tables, key) - TotalUnits(p, tables, key)
         == (if a in tables then Units(CartOf(q, a), key) - Units(CartOf(p, a), key) else 0)
            + (if b in tables then Units(CartOf(q, b), key) - Units(CartOf(p, b), key) else 0)
  {
    if |tables| > 0 {
      var front, last := tables[..|tables| - 1], tables[|tables| - 1];
      TwoChange(p, q, front, a, b, key);
      assert tables == front + [last];
      assert last !in front;
    }
  }

  /** Switching tables neither loses nor invents a unit of any item, whatever came before. */
  lemma {:induction false} SwitchKeepsUnits(table: TableId, es: seq<Event>, chosen: TableId, tables: seq<TableId>, key: string)
    requires Distinct(tables) && NO_TABLE in tables && chosen in tables
    ensures TotalUnits(Run(Start(table), es + [Switch(chosen)]), tables, key)
         == TotalUnits(Run(Start(table), es), tables, key)
  {
    var p := Run(Start(table), es);
    var s := RunCarts(Carts(map[], table), es);
    assert (es + [Switch(chosen)])[..|es|] == es;
    TillRefinesCarts(table, es);
    SwitchRefines(p, s, chosen);
    SwitchUnits(p, s, chosen, tables, key);
  }

  lemma SwitchUnits(p: Till, s: Carts, chosen: TableId, tables: seq<TableId>, key: string)
    requires Valid(p) && Represents(p, s) && Represents(Next(p, Switch(chosen)), NextCarts(s, Switch(chosen)))
    requires Distinct(tables) && NO_TABLE in tables && chosen in tables
    ensures TotalUnits(Next(p, Switch(chosen)), tables, key) == TotalUnits(p, tables, key)
  {
    var q, t := Next(p, Switch(chosen)), NextCarts(s, Switch(chosen));
    var b := if chosen == NO_TABLE then "x" else chosen;
    forall other | other != NO_TABLE && other != b ensures CartOf(q, other) == CartOf(p, other) {
      assert CartOf(p, other) == s.At(other) && CartOf(q, other) == t.At(other);
    }
    assert CartOf(p, NO_TABLE) == s.At(NO_TABLE) && CartOf(q, NO_TABLE) == t.At(NO_TABLE);
    assert CartOf(p, b) == s.At(b) && CartOf(q, b) == t.At(b);
    TwoChange(p, q, tables, NO_TABLE, b, key);
    MergeKeepsUnits(s.At(chosen), s.At(NO_TABLE), key);
  }
}
