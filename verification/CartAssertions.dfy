/** Comparing an expected cart with an actual one (whatsapp-beta-cart-assertions.ts). `normalize`
    is the source's lower-casing and accent stripping, `arrange` its locale-aware attribute sort. */
module CartAssertions {
  import opened Options
  import opened Sequences

  type Normalizer = string -> string
  datatype Attribute = Attribute(attributeName: string, attributeValue: string)
  type Arranger = seq<Attribute> -> seq<Attribute>

  /** Absent lists are empty, absent notes are "". */
  datatype ExpectedLine = ExpectedLine(id: int, quantity: int, attrs: seq<Attribute>, note: seq<string>,
      forbidNote: seq<string>)
  datatype ActualLine = ActualLine(productId: int, quantity: int, attributes: seq<Attribute>, note: string)

  // ---------- The line predicate ----------

  predicate OccursAt(token: string, text: string, i: nat) {
    i + |token| <= |text| && text[i..i + |token|] == token
  }

  predicate Includes(text: string, token: string) {
    exists i: nat | i <= |text| :: OccursAt(token, text, i)
  }

  predicate SameAttribute(choice: Attribute, wanted: Attribute, normalize: Normalizer) {
    && normalize(choice.attributeName) == normalize(wanted.attributeName)
    && normalize(choice.attributeValue) == normalize(wanted.attributeValue)
  }

  predicate Fits(wanted: ExpectedLine, line: ActualLine, normalize: Normalizer) {
    && line.productId == wanted.id && line.quantity == wanted.quantity
    && (forall a <- wanted.attrs :: exists choice <- line.attributes :: SameAttribute(choice, a, normalize))
    && (forall token <- wanted.note :: Includes(normalize(line.note), normalize(token)))
    && (forall token <- wanted.forbidNote :: !Includes(normalize(line.note), normalize(token)))
  }

  /** What comparing attributes sees of one. */
  function Seen(a: Attribute, normalize: Normalizer): (string, string) {
    (normalize(a.attributeName), normalize(a.attributeValue))
  }

  ghost predicate Contains(text: string, token: string) {
    exists before: string, after: string :: text == before + token + after
  }

  lemma IncludesExactlyWhen(text: string, token: string)
    ensures Includes(text, token) <==> Contains(text, token)
  {
    if i: nat :| i <= |text| && OccursAt(token, text, i) {
      assert text == text[..i] + token + text[i + |token|..];
    }
    if before: string, after: string :| text == before + token + after {
      assert text[|before|..|before| + |token|] == token;
      assert OccursAt(token, text, |before|);
    }
  }

  /** A line fits when it is of the product and quantity, has all wanted attributes, and its note contains every
      wanted text and no forbidden one, all of it up to normalization. */
  lemma FitsExactlyWhen(wanted: ExpectedLine, line: ActualLine, normalize: Normalizer)
    ensures Fits(wanted, line, normalize) <==>
            && wanted.id == line.productId && wanted.quantity == line.quantity
            && (set a <- wanted.attrs :: Seen(a, normalize)) <= (set c <- line.attributes :: Seen(c, normalize))
            && (forall i :: 0 <= i < |wanted.note| ==> Contains(normalize(line.note), normalize(wanted.note[i])))
            && !exists token <- wanted.forbidNote :: Contains(normalize(line.note), normalize(token))
  {
    var have := set c <- line.attributes :: Seen(c, normalize);
    forall a <- wanted.attrs
      ensures Seen(a, normalize) in have <==> exists choice <- line.attributes :: SameAttribute(choice, a, normalize)
    {
    }
    forall token ensures Includes(normalize(line.note), normalize(token)) <==>
                         Contains(normalize(line.note), normalize(token))
    {
      IncludesExactlyWhen(normalize(line.note), normalize(token));
    }
  }

  // ---------- Backtracking ----------

  /** `f` picks one unused index per row, no index twice. */
  ghost predicate Picks(f: seq<nat>, rows: seq<seq<nat>>, used: set<nat>) {
    && |f| == |rows|
    && (forall i :: 0 <= i < |f| ==> f[i] in rows[i] && f[i] !in used)
    && forall i, j :: 0 <= i < j < |f| ==> f[i] != f[j]
  }

  ghost predicate Solvable(rows: seq<seq<nat>>, used: set<nat>) {
    exists f :: Picks(f, rows, used)
  }

  lemma PickFirst(rows: seq<seq<nat>>, used: set<nat>)
    requires rows != []
    ensures Solvable(rows, used) <==> exists x :: x in rows[0] && x !in used && Solvable(rows[1..], used + {x})
  {
    if Solvable(rows, used) {
      var f :| Picks(f, rows, used);
      assert Picks(f[1..], rows[1..], used + {f[0]});
    }
    if x :| x in rows[0] && x !in used && Solvable(rows[1..], used + {x}) {
      var g :| Picks(g, rows[1..], used + {x});
      assert Picks([x] + g, rows, used);
    }
  }

  /** The closure state of `assign`: the candidate lists and the indices taken so far. */
  class Assignment {
    const candidates: seq<seq<nat>>
    var used: set<nat>

    constructor (candidates: seq<seq<nat>>)
      ensures this.candidates == candidates && used == {}
    {
      this.candidates := candidates;
      used := {};
    }

    method Assign(position: nat) returns (ok: bool)
      requires position <= |candidates|
      modifies this
      ensures ok <==> Solvable(candidates[position..], old(used))
      ensures !ok ==> used == old(used)
      decreases |candidates| - position
    {
      if position == |candidates| {
        assert Picks([], candidates[position..], used);
        return true;
      }
      PickFirst(candidates[position..], used);
      assert candidates[position..][1..] == candidates[position + 1..];
      var row := candidates[position];
      for m := 0 to |row|
        invariant used == old(used)
        invariant forall x :: x in row[..m] && x !in used ==> !Solvable(candidates[position + 1..], used + {x})
      {
        assert row[..m + 1] == row[..m] + [row[m]];
        if row[m] in used { continue; }
        used := used + {row[m]};
        ok := Assign(position + 1);
        if ok { return; }
        used := used - {row[m]};
        assert used == old(used);
      }
      assert row[..|row|] == row;
      return false;
    }
  }

  lemma {:induction false} RowOrderIrrelevant(rows: seq<seq<nat>>, other: seq<seq<nat>>, used: set<nat>)
    requires multiset(rows) == multiset(other) && Solvable(rows, used)
    ensures Solvable(other, used)
    decreases |rows|
  {
    if rows == [] {
      assert |multiset(other)| == 0;
      assert Picks([], other, used);
    } else {
      PickFirst(rows, used);
      var x :| x in rows[0] && x !in used && Solvable(rows[1..], used + {x});
      var k := Elsewhere(rows, other);
      assert RemoveAt(rows, 0) == rows[1..];
      RowOrderIrrelevant(rows[1..], RemoveAt(other, k), used + {x});
      var g :| Picks(g, RemoveAt(other, k), used + {x});
      InsertPick(g, x, other, k, used);
    }
  }

  lemma InsertPick(g: seq<nat>, x: nat, rows: seq<seq<nat>>, k: nat, used: set<nat>)
    requires k < |rows| && x in rows[k] && x !in used && Picks(g, RemoveAt(rows, k), used + {x})
    ensures Picks(g[..k] + [x] + g[k..], rows, used)
  {
    var h := g[..k] + [x] + g[k..];
    forall i | 0 <= i < |h| ensures h[i] in rows[i] && h[i] !in used && (i != k ==> h[i] != x) {
      if i < k {
        assert h[i] == g[i] && RemoveAt(rows, k)[i] == rows[i];
      } else if i > k {
        assert h[i] == g[i - 1] && RemoveAt(rows, k)[i - 1] == rows[i];
      }
    }
  }

  // ---------- matchesExpectedCartLines ----------

  /** A one-to-one assignment of expected to actual lines, each pair fitting. */
  ghost predicate OneToOne(f: seq<nat>, expected: seq<ExpectedLine>, actual: seq<ActualLine>, normalize: Normalizer) {
    && |f| == |expected|
    && (forall i :: 0 <= i < |f| ==> f[i] < |actual| && Fits(expected[i], actual[f[i]], normalize))
    && forall i, j :: 0 <= i < j < |f| ==> f[i] != f[j]
  }

  ghost predicate Matches(expected: seq<ExpectedLine>, actual: seq<ActualLine>, normalize: Normalizer) {
    |expected| == |actual| && exists f :: OneToOne(f, expected, actual, normalize)
  }

  /** The indices of the actual lines that fit one expected line. */
  ghost predicate RowOf(row: seq<nat>, wanted: ExpectedLine, actual: seq<ActualLine>, normalize: Normalizer) {
    forall x: nat :: x in row <==> x < |actual| && Fits(wanted, actual[x], normalize)
  }

  ghost predicate RowsOf(rows: seq<seq<nat>>, expected: seq<ExpectedLine>, actual: seq<ActualLine>,
      normalize: Normalizer) {
    |rows| == |expected| && forall k :: 0 <= k < |rows| ==> RowOf(rows[k], expected[k], actual, normalize)
  }

  method CandidateRow(wanted: ExpectedLine, actual: seq<ActualLine>, normalize: Normalizer) returns (row: seq<nat>)
    ensures RowOf(row, wanted, actual, normalize)
  {
    row := [];
    for index := 0 to |actual|
      invariant forall x: nat :: x in row <==> x < index && Fits(wanted, actual[x], normalize)
    {
      if Fits(wanted, actual[index], normalize) { row := row + [index]; }
    }
  }

  lemma PicksAreAssignments(f: seq<nat>, rows: seq<seq<nat>>, expected: seq<ExpectedLine>, actual: seq<ActualLine>,
      normalize: Normalizer)
    requires RowsOf(rows, expected, actual, normalize)
    ensures Picks(f, rows, {}) <==> OneToOne(f, expected, actual, normalize)
  {
    if |f| == |rows| {
      forall i | 0 <= i < |f| 
        ensures f[i] in rows[i] <==> f[i] < |actual| && Fits(expected[i], actual[f[i]], normalize)
      {
        assert RowOf(rows[i], expected[i], actual, normalize);
      }
    }
  }

  lemma SolvableMeansMatch(rows: seq<seq<nat>>, expected: seq<ExpectedLine>, actual: seq<ActualLine>,
      normalize: Normalizer)
    requires RowsOf(rows, expected, actual, normalize) && |expected| == |actual|
    ensures Solvable(rows, {}) <==> Matches(expected, actual, normalize)
  {
    if f :| Picks(f, rows, {}) { PicksAreAssignments(f, rows, expected, actual, normalize); }
    if f :| OneToOne(f, expected, actual, normalize) { PicksAreAssignments(f, rows, expected, actual, normalize); }
  }

  predicate ByLength(rows: seq<seq<nat>>) {
    forall i, j :: 0 <= i < j < |rows| ==> |rows[i]| <= |rows[j]|
  }

  method InsertByLength(row: seq<nat>, rows: seq<seq<nat>>) returns (sorted: seq<seq<nat>>)
    requires ByLength(rows)
    ensures ByLength(sorted) && multiset(sorted) == multiset(rows) + multiset{row}
  {
    var at := |rows|;
    while at > 0 && |rows[at - 1]| > |row|
      invariant 0 <= at <= |rows|
      invariant forall i :: at <= i < |rows| ==> |rows[i]| > |row|
    {
      at := at - 1;
    }
    InsertAtMultiset(rows, at, row);
    InsertedByLength(row, rows, at);
    sorted := rows[..at] + [row] + rows[at..];
  }

  lemma InsertedByLength(row: seq<nat>, rows: seq<seq<nat>>, at: nat)
    requires ByLength(rows) && at <= |rows|
    requires at > 0 ==> |rows[at - 1]| <= |row|
    requires forall i :: at <= i < |rows| ==> |rows[i]| > |row|
    ensures ByLength(rows[..at] + [row] + rows[at..])
  {
    var sorted := rows[..at] + [row] + rows[at..];
    forall i, j | 0 <= i < j < |sorted| ensures |sorted[i]| <= |sorted[j]| {
      assert sorted[i] == if i < at then rows[i] else if i == at then row else rows[i - 1];
      assert sorted[j] == if j < at then rows[j] else if j == at then row else rows[j - 1];
    }
  }

  /** Shortest candidate list first. */
  method SortByLength(rows: seq<seq<nat>>) returns (sorted: seq<seq<nat>>)
    ensures ByLength(sorted) && multiset(sorted) == multiset(rows)
  {
    sorted := [];
    for k := 0 to |rows|
      invariant ByLength(sorted) && multiset(sorted) == multiset(rows[..k])
    {
      assert rows[..k + 1] == rows[..k] + [rows[k]];
      sorted := InsertByLength(rows[k], sorted);
    }
    assert rows[..|rows|] == rows;
  }

  /** True exactly when a one-to-one assignment exists: greedy order and backtracking lose nothing. */
  method MatchesExpectedCartLines(expected: seq<ExpectedLine>, actual: seq<ActualLine>, normalize: Normalizer)
      returns (r: bool)
    ensures r <==> Matches(expected, actual, normalize)
  {
    if |expected| != |actual| { return false; }
    var rows: seq<seq<nat>> := [];
    for i := 0 to |expected|
      invariant RowsOf(rows, expected[..i], actual, normalize)
    {
      var row := CandidateRow(expected[i], actual, normalize);
      rows := rows + [row];
    }
    assert expected[..|expected|] == expected;
    SolvableMeansMatch(rows, expected, actual, normalize);
    var candidates := SortByLength(rows);
    if Solvable(rows, {}) { RowOrderIrrelevant(rows, candidates, {}); }
    if Solvable(candidates, {}) { RowOrderIrrelevant(candidates, rows, {}); }
    var search := new Assignment(candidates);
    assert candidates[0..] == candidates;
    r := search.Assign(0);
  }

  // ---------- cartLinesFromOrderItems ----------

  /** An order item of the DTO; `Malformed` fails one of the type checks. */
  datatype RawItem = Malformed | Item(productId: int, quantity: Option<int>, attributes: seq<Attribute>, note: string)

  /** The grouping key; its JSON text in the source is one-to-one with these three parts. */
  datatype Key = Key(productId: int, attributes: seq<Attribute>, note: string)

  datatype Group = Group(key: Key, line: ActualLine)

  function Quantity(item: RawItem): int
    requires item.Item?
  {
    if item.quantity.Some? then item.quantity.value else 1
  }

  predicate WellFormed(item: RawItem) { item.Item? && Quantity(item) >= 1 }

  function KeyOf(item: RawItem, normalize: Normalizer, arrange: Arranger): Key
    requires item.Item?
  {
    Key(item.productId, arrange(item.attributes), normalize(item.note))
  }

  /** Units of the items that share `key`. */
  function Units(items: seq<RawItem>, key: Key, normalize: Normalizer, arrange: Arranger): int {
    if items == [] then 0
    else Units(items[..|items| - 1], key, normalize, arrange) + UnitsOf(items[|items| - 1], key, normalize, arrange)
  }

  function UnitsOf(item: RawItem, key: Key, normalize: Normalizer, arrange: Arranger): int {
    if item.Item? && KeyOf(item, normalize, arrange) == key then Quantity(item) else 0
  }

  ghost function ItemKeys(items: seq<RawItem>, normalize: Normalizer, arrange: Arranger): set<Key> {
    set item <- items | item.Item? :: KeyOf(item, normalize, arrange)
  }

  /** An item is readable when it passes the type checks and counts something. */
  lemma WellFormedExactlyWhen(item: RawItem)
    ensures WellFormed(item) <==> item.Item? && (item.quantity == None || 0 < item.quantity.value)
  {
  }

  /** An item of quantity q counts like q items without a quantity. */
  lemma {:induction false} QuantityIsRepetition(items: seq<RawItem>, item: RawItem, q: nat, key: Key,
      normalize: Normalizer, arrange: Arranger)
    requires item.Item? && q == |items| && forall i :: 0 <= i < q ==> items[i] == item.(quantity := None)
    ensures Units(items, key, normalize, arrange) == Units([item.(quantity := Some(q))], key, normalize, arrange)
    decreases q
  {
    var one := item.(quantity := Some(q));
    assert [one][..0] == [];
    if q > 0 {
      QuantityIsRepetition(items[..q - 1], item, q - 1, key, normalize, arrange);
      var fewer := item.(quantity := Some(q - 1));
      assert [fewer][..0] == [];
    }
  }

  function Keys(groups: seq<Group>): set<Key> { set g <- groups :: g.key }

  predicate DistinctKeys(groups: seq<Group>) {
    forall i, j :: 0 <= i < j < |groups| ==> groups[i].key != groups[j].key
  }

  /** The line shows its key, and holds all units of it. */
  predicate Holds(g: Group, items: seq<RawItem>, normalize: Normalizer, arrange: Arranger) {
    && g.line.productId == g.key.productId && g.line.attributes == g.key.attributes
    && normalize(g.line.note) == g.key.note && g.line.quantity == Units(items, g.key, normalize, arrange)
  }

  /** One group per key that occurs, holding all its units. */
  ghost predicate Grouped(groups: seq<Group>, items: seq<RawItem>, normalize: Normalizer, arrange: Arranger) {
    && DistinctKeys(groups)
    && Keys(groups) == ItemKeys(items, normalize, arrange)
    && forall i :: 0 <= i < |groups| ==> Holds(groups[i], items, normalize, arrange)
  }

  /** The map update of the grouping loop: `at` is where the key is, or the end. */
  function Upsert(table: seq<Group>, at: nat, item: RawItem, normalize: Normalizer, arrange: Arranger): seq<Group>
    requires at <= |table| && item.Item?
  {
    if at < |table| then
      table[at := table[at].(line := table[at].line.(quantity := table[at].line.quantity + Quantity(item)))]
    else
      var key := KeyOf(item, normalize, arrange);
      table + [Group(key, ActualLine(item.productId, Quantity(item), key.attributes, item.note))]
  }

  method FindKey(table: seq<Group>, key: Key) returns (at: nat)
    ensures at <= |table| && (at < |table| ==> table[at].key == key)
    ensures at == |table| ==> key !in Keys(table)
  {
    at := 0;
    while at < |table| && table[at].key != key
      invariant at <= |table| && forall i :: 0 <= i < at ==> table[i].key != key
    {
      at := at + 1;
    }
  }

  /** Null when the list is missing or any item is malformed; otherwise one line per key, in first-seen order. */
  method CartLinesFromOrderItems(items: Option<seq<RawItem>>, normalize: Normalizer, arrange: Arranger)
    returns (r: Option<seq<ActualLine>>, ghost groups: seq<Group>)
    ensures r.Some? <==> items.Some? && forall item <- items.value :: WellFormed(item)
    ensures r.Some? ==> Grouped(groups, items.value, normalize, arrange) && r.value == Lines(groups)
  {
    groups := [];
    if items.None? { return None, []; }
    var table: seq<Group> := [];
    for k := 0 to |items.value|
      invariant forall i :: 0 <= i < k ==> WellFormed(items.value[i])
      invariant Grouped(table, items.value[..k], normalize, arrange)
    {
      var item := items.value[k];
      if !WellFormed(item) { return None, []; }
      var at := FindKey(table, KeyOf(item, normalize, arrange));
      UpsertGrouped(table, items.value[..k], item, at, normalize, arrange);
      assert items.value[..k + 1] == items.value[..k] + [item];
      table := Upsert(table, at, item, normalize, arrange);
    }
    assert items.value[..|items.value|] == items.value;
    return Some(Lines(table)), table;
  }

  lemma {:induction false} NoUnitsWithoutKey(items: seq<RawItem>, key: Key, normalize: Normalizer, arrange: Arranger)
    requires key !in ItemKeys(items, normalize, arrange)
    ensures Units(items, key, normalize, arrange) == 0
    decreases |items|
  {
    if items != [] {
      var n := |items| - 1;
      assert items[n] in items && forall item <- items[..n] :: item in items;
      NoUnitsWithoutKey(items[..n], key, normalize, arrange);
    }
  }

  lemma UnitsAppend(items: seq<RawItem>, item: RawItem, key: Key, normalize: Normalizer, arrange: Arranger)
    ensures Units(items + [item], key, normalize, arrange) ==
            Units(items, key, normalize, arrange) + UnitsOf(item, key, normalize, arrange)
  {
    assert (items + [item])[..|items|] == items;
  }

  lemma UpsertGrouped(table: seq<Group>, items: seq<RawItem>, item: RawItem, at: nat, normalize: Normalizer,
      arrange: Arranger)
    requires Grouped(table, items, normalize, arrange) && item.Item? && at <= |table|
    requires at < |table| ==> table[at].key == KeyOf(item, normalize, arrange)
    requires at == |table| ==> KeyOf(item, normalize, arrange) !in Keys(table)
    ensures Grouped(Upsert(table, at, item, normalize, arrange), items + [item], normalize, arrange)
  {
    var key := KeyOf(item, normalize, arrange);
    var after := Upsert(table, at, item, normalize, arrange);
    UpsertKeys(table, at, item, normalize, arrange);
    assert ItemKeys(items + [item], normalize, arrange) == ItemKeys(items, normalize, arrange) + {key};
    forall i | 0 <= i < |after| ensures Holds(after[i], items + [item], normalize, arrange) {
      UnitsAppend(items, item, after[i].key, normalize, arrange);
      if i == |table| {
        NoUnitsWithoutKey(items, key, normalize, arrange);
      } else {
        assert Holds(table[i], items, normalize, arrange);
      }
    }
  }

  lemma UpsertKeys(table: seq<Group>, at: nat, item: RawItem, normalize: Normalizer, arrange: Arranger)
    requires DistinctKeys(table) && item.Item? && at <= |table|
    requires at < |table| ==> table[at].key == KeyOf(item, normalize, arrange)
    requires at == |table| ==> KeyOf(item, normalize, arrange) !in Keys(table)
    ensures DistinctKeys(Upsert(table, at, item, normalize, arrange))
    ensures Keys(Upsert(table, at, item, normalize, arrange)) == Keys(table) + {KeyOf(item, normalize, arrange)}
  {
    var after := Upsert(table, at, item, normalize, arrange);
    assert forall i :: 0 <= i < |table| ==> after[i].key == table[i].key;
    forall k ensures k in Keys(after) <==> k in Keys(table) || k == KeyOf(item, normalize, arrange) {
      if k in Keys(table) {
        var i :| 0 <= i < |table| && table[i].key == k;
        assert after[i] in after;
      }
      if k == KeyOf(item, normalize, arrange) {
        assert after[at] in after;
      }
    }
  }

  // ---------- The order of the items does not matter ----------

  lemma {:induction false} UnitsRemoveAt(items: seq<RawItem>, k: nat, key: Key, normalize: Normalizer,
      arrange: Arranger)
    requires k < |items|
    ensures Units(items, key, normalize, arrange) ==
            Units(RemoveAt(items, k), key, normalize, arrange) + UnitsOf(items[k], key, normalize, arrange)
    decreases |items|
  {
    var n := |items| - 1;
    if k == n {
      assert RemoveAt(items, k) == items[..n];
    } else {
      UnitsRemoveAt(items[..n], k, key, normalize, arrange);
      assert RemoveAt(items, k) == RemoveAt(items[..n], k) + [items[n]];
      UnitsAppend(RemoveAt(items[..n], k), items[n], key, normalize, arrange);
    }
  }

  lemma {:induction false} UnitsPermute(items: seq<RawItem>, other: seq<RawItem>, key: Key, normalize: Normalizer,
      arrange: Arranger)
    requires multiset(items) == multiset(other)
    ensures Units(items, key, normalize, arrange) == Units(other, key, normalize, arrange)
    decreases |items|
  {
    if items == [] {
      assert |multiset(other)| == 0;
    } else {
      var k := Elsewhere(items, other);
      UnitsRemoveAt(items, 0, key, normalize, arrange);
      UnitsRemoveAt(other, k, key, normalize, arrange);
      UnitsPermute(RemoveAt(items, 0), RemoveAt(other, k), key, normalize, arrange);
    }
  }

  /** The same key in the other grouping, and a line no expectation can tell apart. */
  lemma GroupInOther(groups: seq<Group>, items: seq<RawItem>, others: seq<Group>, otherItems: seq<RawItem>, i: nat,
                     normalize: Normalizer, arrange: Arranger) returns (j: nat)
    requires multiset(items) == multiset(otherItems) && forall item <- items :: item.Item?
    requires Grouped(groups, items, normalize, arrange) && Grouped(others, otherItems, normalize, arrange)
    requires i < |groups|
    ensures j < |others| && groups[i].key == others[j].key
    ensures forall wanted :: Fits(wanted, groups[i].line, normalize) <==> Fits(wanted, others[j].line, normalize)
  {
    SameKeys(items, otherItems, normalize, arrange);
    assert groups[i].key in Keys(others);
    j :| 0 <= j < |others| && others[j].key == groups[i].key;
    UnitsPermute(items, otherItems, groups[i].key, normalize, arrange);
    assert Holds(groups[i], items, normalize, arrange) && Holds(others[j], otherItems, normalize, arrange);
  }

  function Lines(groups: seq<Group>): (lines: seq<ActualLine>)
    ensures |lines| == |groups| && forall i :: 0 <= i < |groups| ==> lines[i] == groups[i].line
  {
    seq(|groups|, i requires 0 <= i < |groups| => groups[i].line)
  }

  lemma {:induction false} GroupCount(groups: seq<Group>)
    requires DistinctKeys(groups)
    ensures |Keys(groups)| == |groups|
    decreases |groups|
  {
    if groups != [] {
      var n := |groups| - 1;
      GroupCount(groups[..n]);
      assert groups == groups[..n] + [groups[n]];
      assert Keys(groups) == Keys(groups[..n]) + {groups[n].key};
      assert groups[n].key !in Keys(groups[..n]);
    }
  }

  lemma SameKeys(items: seq<RawItem>, other: seq<RawItem>, normalize: Normalizer, arrange: Arranger)
    requires multiset(items) == multiset(other)
    ensures ItemKeys(items, normalize, arrange) == ItemKeys(other, normalize, arrange)
  {
    assert forall x :: x in items <==> x in multiset(items);
    assert forall x :: x in other <==> x in multiset(other);
  }

  lemma {:induction false} CarryAssignment(f: seq<nat>, n: nat, expected: seq<ExpectedLine>,
                                           groups: seq<Group>, items: seq<RawItem>, others: seq<Group>,
                                               otherItems: seq<RawItem>,
                                           normalize: Normalizer, arrange: Arranger) returns (g: seq<nat>)
    requires multiset(items) == multiset(otherItems) && forall item <- items :: item.Item?
    requires Grouped(groups, items, normalize, arrange) && Grouped(others, otherItems, normalize, arrange)
    requires n <= |f| && OneToOne(f, expected, Lines(groups), normalize)
    ensures |g| == n
    ensures forall i :: 0 <= i < n ==> g[i] < |others| && others[g[i]].key == groups[f[i]].key
                                       && Fits(expected[i], others[g[i]].line, normalize)
    decreases n
  {
    if n == 0 {
      g := [];
    } else {
      g := CarryAssignment(f, n - 1, expected, groups, items, others, otherItems, normalize, arrange);
      var j := GroupInOther(groups, items, others, otherItems, f[n - 1], normalize, arrange);
      g := g + [j];
    }
  }

  /** Permuting the order items changes neither whether the cart is readable nor whether it matches. */
  lemma ItemOrderIrrelevant(expected: seq<ExpectedLine>, items: seq<RawItem>, other: seq<RawItem>,
                            groups: seq<Group>, others: seq<Group>, normalize: Normalizer, arrange: Arranger)
    requires multiset(items) == multiset(other)
    ensures (forall item <- items :: WellFormed(item)) <==> (forall item <- other :: WellFormed(item))
    ensures (forall item <- items :: WellFormed(item))
            && Grouped(groups, items, normalize, arrange) && Grouped(others, other, normalize, arrange) ==>
              (Matches(expected, Lines(groups), normalize) <==> Matches(expected, Lines(others), normalize))
  {
    assert forall x :: x in items <==> x in multiset(items);
    assert forall x :: x in other <==> x in multiset(other);
    if (forall item <- items :: WellFormed(item))
       && Grouped(groups, items, normalize, arrange) && Grouped(others, other, normalize, arrange) {
      CarryMatch(expected, groups, items, others, other, normalize, arrange);
      CarryMatch(expected, others, other, groups, items, normalize, arrange);
    }
  }

  lemma CarryMatch(expected: seq<ExpectedLine>, groups: seq<Group>, items: seq<RawItem>, others: seq<Group>,
      otherItems: seq<RawItem>,
                   normalize: Normalizer, arrange: Arranger)
    requires multiset(items) == multiset(otherItems)
    requires (forall item <- items :: item.Item?) && (forall item <- otherItems :: item.Item?)
    requires Grouped(groups, items, normalize, arrange) && Grouped(others, otherItems, normalize, arrange)
    ensures Matches(expected, Lines(groups), normalize) ==> Matches(expected, Lines(others), normalize)
  {
    GroupCount(groups);
    GroupCount(others);
    SameKeys(items, otherItems, normalize, arrange);
    if Matches(expected, Lines(groups), normalize) {
      var f :| OneToOne(f, expected, Lines(groups), normalize);
      var g := CarryAssignment(f, |f|, expected, groups, items, others, otherItems, normalize, arrange);
      assert OneToOne(g, expected, Lines(others), normalize);
    }
  }
}
