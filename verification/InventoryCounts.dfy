/** Turning order lines into stock counts (orders.service.ts, buildInventoryCountByKey). Stock
    quantities are integers in the smallest unit of their table. */
module InventoryCounts {
  import opened Options
  import opened StockKeys

  datatype Attribute = Attribute(name: string, value: string)

  /** A variant row linked to a pool. */
  datatype VariantGroup = VariantGroup(attribute: Attribute, groupId: nat, baseUnits: nat)

  /** Selling the product also takes from another one; the variant may be fixed in the configuration. */
  datatype AlsoDeduct = AlsoDeduct(productId: nat, baseUnits: nat, fixed: Option<Attribute>)

  datatype Pool = Pool(groupId: nat, baseUnits: nat)

  /** The configuration of a product, as the tables hold it; stock quantities are in the ledger. */
  datatype Info = Info(trackInventory: bool, variantStocks: seq<Attribute>, pool: Option<Pool>,
                       variantGroups: seq<VariantGroup>, alsoDeductFrom: seq<AlsoDeduct>)

  type Catalog = map<nat, Info>

  datatype Chosen = Chosen(productId: nat, attributes: seq<Attribute>)

  /** One line of a request or of a stored order; stored lines have no `alsoDeductVariant`. */
  datatype Item = Item(productId: nat, attributes: seq<Attribute>, alsoDeductVariant: Option<Chosen>)

  datatype Move = Move(key: Key, units: nat)

  // ---------- What a request loads ----------

  /** Some requested product also deducts from `p`. */
  predicate IsTarget(p: nat, requested: set<nat>, catalog: Catalog) {
    exists q <- requested :: q in catalog && exists ad <- catalog[q].alsoDeductFrom :: ad.productId == p
  }

  /** The pool tables are read for requested products only; a product in a pool is returned without variant rows. */
  function LoadedInfo(info: Info, requested: bool): Info {
    if !requested then info.(pool := None, variantGroups := [])
    else if info.pool.Some? then info.(trackInventory := true, variantStocks := [])
    else info
  }

  /** `getInventoryByProductIds` with also-deduct targets. */
  function Load(catalog: Catalog, requested: set<nat>): Catalog {
    map p <- catalog | p in requested || IsTarget(p, requested, catalog) :: LoadedInfo(catalog[p], p in requested)
  }

  function Ids(items: seq<Item>): set<nat> { set i <- items :: i.productId }

  // ---------- One line ----------

  /** The attribute at `i` is one of `rows`, and none before it is. */
  predicate FirstAt(attributes: seq<Attribute>, rows: seq<Attribute>, i: nat) {
    i < |attributes| && attributes[i] in rows && forall j :: 0 <= j < i ==> attributes[j] !in rows
  }

  /** The first attribute that is one of `rows`. */
  function FirstMatch(attributes: seq<Attribute>, rows: seq<Attribute>): (r: Option<Attribute>)
    ensures r.Some? ==> exists i: nat :: FirstAt(attributes, rows, i) && r.value == attributes[i]
    ensures r.None? ==> forall a <- attributes :: a !in rows
  {
    if attributes == [] then None
    else if attributes[0] in rows then
      assert FirstAt(attributes, rows, 0);
      Some(attributes[0])
    else
      var r := FirstMatch(attributes[1..], rows);
      assert r.Some? ==> forall i: nat | FirstAt(attributes[1..], rows, i) :: FirstAt(attributes, rows, i + 1);
      r
  }

  /** The entry at `j` is the first one for the attribute at `i`, and no earlier attribute has an entry. */
  predicate FirstEntryAt(attributes: seq<Attribute>, groups: seq<VariantGroup>, i: nat, j: nat) {
    && i < |attributes| && EntryAt(attributes[i], groups, j)
    && forall k :: 0 <= k < i ==> NoEntryFor(attributes[k], groups)
  }

  /** The first attribute with a linked variant row, and that row. */
  function MatchedGroup(attributes: seq<Attribute>, groups: seq<VariantGroup>): Option<VariantGroup> {
    if attributes == [] then None
    else
      var g := GroupOf(attributes[0], groups);
      if g.Some? then g else MatchedGroup(attributes[1..], groups)
  }

  /** The entry at `j` is the first one for the attribute. */
  predicate EntryAt(a: Attribute, groups: seq<VariantGroup>, j: nat) {
    j < |groups| && groups[j].attribute == a && forall k :: 0 <= k < j ==> groups[k].attribute != a
  }

  /** None is found only if no entry is for the attribute. */
  predicate NoEntryFor(a: Attribute, groups: seq<VariantGroup>) {
    forall l :: 0 <= l < |groups| ==> groups[l].attribute != a
  }

  function GroupOf(a: Attribute, groups: seq<VariantGroup>): (r: Option<VariantGroup>)
    ensures r.Some? ==> exists j: nat :: EntryAt(a, groups, j) && r.value == groups[j]
    ensures r.None? ==> NoEntryFor(a, groups)
  {
    if groups == [] then None
    else if groups[0].attribute == a then
      assert EntryAt(a, groups, 0);
      Some(groups[0])
    else
      var r := GroupOf(a, groups[1..]);
      assert r.Some? ==> forall j: nat | EntryAt(a, groups[1..], j) :: EntryAt(a, groups, j + 1);
      r
  }

  /** The entry found is the first one of the first attribute that has any, and none is found only if no
      attribute has one. */
  lemma {:induction false} MatchedGroupMeaning(attributes: seq<Attribute>, groups: seq<VariantGroup>)
    ensures var r := MatchedGroup(attributes, groups);
            if r.Some? then exists i: nat, j: nat :: FirstEntryAt(attributes, groups, i, j) && r.value == groups[j]
            else forall i :: 0 <= i < |attributes| ==> NoEntryFor(attributes[i], groups)
    decreases |attributes|
  {
    if attributes != [] {
      if GroupOf(attributes[0], groups).Some? {
        assert forall j: nat | EntryAt(attributes[0], groups, j) :: FirstEntryAt(attributes, groups, 0, j);
      } else {
        MatchedGroupMeaning(attributes[1..], groups);
        assert forall i: nat, j: nat | FirstEntryAt(attributes[1..], groups, i, j) ::
            FirstEntryAt(attributes, groups, i + 1, j);
      }
    }
  }

  function VariantRows(productId: nat, catalog: Catalog): seq<Attribute> {
    if productId in catalog then catalog[productId].variantStocks else []
  }

  /** The line at `j` is the first one of the product. */
  predicate FirstLineAt(productId: nat, all: seq<Item>, j: nat) {
    j < |all| && all[j].productId == productId && forall k :: 0 <= k < j ==> all[k].productId != productId
  }

  /** The first line of a product among the lines counted together. */
  function FirstLine(productId: nat, all: seq<Item>): Option<Item> {
    if all == [] then None else if all[0].productId == productId then Some(all[0]) else FirstLine(productId, all[1..])
  }

  lemma {:induction false} FirstLineMeaning(productId: nat, all: seq<Item>)
    ensures var r := FirstLine(productId, all);
            if r.Some? then exists j: nat :: FirstLineAt(productId, all, j) && r.value == all[j]
            else forall i <- all :: i.productId != productId
  {
    if all != [] {
      if all[0].productId == productId {
        assert FirstLineAt(productId, all, 0);
      } else {
        FirstLineMeaning(productId, all[1..]);
        assert forall j: nat | FirstLineAt(productId, all[1..], j) :: FirstLineAt(productId, all, j + 1);
      }
    }
  }

  /** The variant an also-deduct entry takes: fixed, chosen with the line, or read off a sibling line. */
  function AlsoVariant(ad: AlsoDeduct, item: Item, all: seq<Item>, catalog: Catalog): Option<Attribute> {
    var rows := VariantRows(ad.productId, catalog);
    if ad.fixed.Some? then ad.fixed
    else if rows == [] then None
    else
      var own := if item.alsoDeductVariant.Some? && item.alsoDeductVariant.value.productId == ad.productId
                 then FirstMatch(item.alsoDeductVariant.value.attributes, rows) else None;
      if own.Some? then own
      else
        var other := FirstLine(ad.productId, all);
        if other.Some? then FirstMatch(other.value.attributes, rows) else None
  }

  function AlsoMove(ad: AlsoDeduct, item: Item, all: seq<Item>, catalog: Catalog): Move {
    var variant := AlsoVariant(ad, item, all, catalog);
    if variant.Some? && VariantRows(ad.productId, catalog) != []
    then Move(VariantKey(ad.productId, variant.value.name, variant.value.value), ad.baseUnits)
    else Move(ProductKey(ad.productId), ad.baseUnits)
  }

  function AlsoMoves(ads: seq<AlsoDeduct>, item: Item, all: seq<Item>, catalog: Catalog): seq<Move> {
    if ads == [] then []
    else AlsoMoves(ads[..|ads| - 1], item, all, catalog) + [AlsoMove(ads[|ads| - 1], item, all, catalog)]
  }

  /** The product's own key: a variant row when an attribute names one. */
  function OwnKey(item: Item, info: Info): Key {
    var match_ := FirstMatch(item.attributes, info.variantStocks);
    if match_.Some? then VariantKey(item.productId, match_.value.name, match_.value.value)
    else ProductKey(item.productId)
  }

  function Moves(item: Item, all: seq<Item>, catalog: Catalog): seq<Move> {
    if item.productId !in catalog || !catalog[item.productId].trackInventory then []
    else
      var info := catalog[item.productId];
      var vg := MatchedGroup(item.attributes, info.variantGroups);
      if vg.Some? then [Move(GroupKey(vg.value.groupId), vg.value.baseUnits)]
      else
        var also := AlsoMoves(info.alsoDeductFrom, item, all, catalog);
        if info.pool.Some? then [Move(GroupKey(info.pool.value.groupId), info.pool.value.baseUnits)] + also
        else also + [Move(OwnKey(item, info), 1)]
  }

  // ---------- Totals ----------

  function Units(moves: seq<Move>, key: Key): nat {
    if moves == [] then 0
    else Units(moves[..|moves| - 1], key) + if moves[|moves| - 1].key == key then moves[|moves| - 1].units else 0
  }

  function CountIn(items: seq<Item>, all: seq<Item>, catalog: Catalog, key: Key): nat {
    if items == [] then 0
    else CountIn(items[..|items| - 1], all, catalog, key) + Units(Moves(items[|items| - 1], all, catalog), key)
  }

  /** How many units of a key a list of lines takes, counted with what loading its products returns. */
  function Count(items: seq<Item>, catalog: Catalog, key: Key): nat {
    CountIn(items, items, Load(catalog, Ids(items)), key)
  }

  type Counts = map<Key, nat>

  function At(counts: Counts, key: Key): nat { if key in counts then counts[key] else 0 }

  method AddMoves(counts: Counts, moves: seq<Move>) returns (r: Counts)
    ensures forall k :: At(r, k) == At(counts, k) + Units(moves, k)
  {
    r := counts;
    for i := 0 to |moves|
      invariant forall k :: At(r, k) == At(counts, k) + Units(moves[..i], k)
    {
      var m := moves[i];
      assert moves[..i + 1][..i] == moves[..i];
      r := r[m.key := At(r, m.key) + m.units];
    }
    assert moves[..|moves|] == moves;
  }

  /** `invMap` is what was loaded for the request. */
  method BuildInventoryCountByKey(items: seq<Item>, invMap: Catalog) returns (counts: Counts)
    ensures forall k :: At(counts, k) == CountIn(items, items, invMap, k)
  {
    counts := map[];
    for i := 0 to |items|
      invariant forall k :: At(counts, k) == CountIn(items[..i], items, invMap, k)
    {
      assert items[..i + 1][..i] == items[..i];
      counts := AddMoves(counts, Moves(items[i], items, invMap));
    }
    assert items[..|items|] == items;
  }

  // ---------- What one line takes ----------

  /** A line whose first attribute with a linked variant row has the entry at `j` takes that entry's units from
      its pool, and nothing from anywhere else. */
  lemma VariantLineTakes(item: Item, all: seq<Item>, requested: set<nat>, catalog: Catalog, i: nat, j: nat, key: Key)
    requires item.productId in requested && Tracked(item.productId, catalog)
    requires FirstEntryAt(item.attributes, catalog[item.productId].variantGroups, i, j)
    ensures var entry := catalog[item.productId].variantGroups[j];
            Units(Moves(item, all, Load(catalog, requested)), key) ==
            if key == GroupKey(entry.groupId) then entry.baseUnits else 0
  {
    LoadedRequested(item.productId, requested, catalog);
    var entry := catalog[item.productId].variantGroups[j];
    MatchedGroupMeaning(item.attributes, catalog[item.productId].variantGroups);
    UnitsOne(Move(GroupKey(entry.groupId), entry.baseUnits), key);
  }

  /** No attribute of the line has a linked variant row. */
  predicate NoEntry(item: Item, info: Info) {
    forall k :: 0 <= k < |item.attributes| ==> NoEntryFor(item.attributes[k], info.variantGroups)
  }

  /** What any other line takes apart from its also-deduct entries: the units of its product's pool; outside
      pools one unit of the variant row of its first attribute that has one, or else of its product. */
  ghost predicate IsOwnMove(item: Item, info: Info, m: Move) {
    if info.pool.Some? then m.key == GroupKey(info.pool.value.groupId) && m.units == info.pool.value.baseUnits
    else
      && m.units == 1
      && match m.key
         case GroupKey(_) => false
         case ProductKey(p) => p == item.productId && forall a <- item.attributes :: a !in info.variantStocks
         case VariantKey(p, name, value) =>
           p == item.productId
           && exists i: nat :: FirstAt(item.attributes, info.variantStocks, i)
                && item.attributes[i] == Attribute(name, value)
  }

  lemma OtherLineTakes(item: Item, all: seq<Item>, requested: set<nat>, catalog: Catalog, own: Move, key: Key)
    requires item.productId in requested && Tracked(item.productId, catalog)
    requires NoEntry(item, catalog[item.productId]) && IsOwnMove(item, catalog[item.productId], own)
    ensures var also := AlsoMoves(catalog[item.productId].alsoDeductFrom, item, all, Load(catalog, requested));
            Units(Moves(item, all, Load(catalog, requested)), key) ==
            Units(also, key) + if key == own.key then own.units else 0
  {
    LoadedRequested(item.productId, requested, catalog);
    MatchedGroupMeaning(item.attributes, catalog[item.productId].variantGroups);
    UnitsOfLine(item, all, Load(catalog, requested), key);
  }

  /** A line of a product that is not tracked takes nothing. */
  lemma UntrackedLineTakesNothing(item: Item, all: seq<Item>, requested: set<nat>, catalog: Catalog, key: Key)
    requires item.productId in requested && !Tracked(item.productId, catalog)
    ensures Units(Moves(item, all, Load(catalog, requested)), key) == 0
  {
    LoadedRequested(item.productId, requested, catalog);
  }

  /** The attributes chosen for the target of an entry together with the line. */
  function ChosenFor(target: nat, item: Item): seq<Attribute> {
    if item.alsoDeductVariant.Some? && item.alsoDeductVariant.value.productId == target
    then item.alsoDeductVariant.value.attributes else []
  }

  /** The attribute that decides the variant row of an entry: the first one with a row among those chosen with
      the line; when none of them has a row, the first one with a row of the first line of the target. */
  ghost predicate Decides(a: Attribute, target: nat, item: Item, all: seq<Item>, rows: seq<Attribute>) {
    || (exists i: nat :: FirstAt(ChosenFor(target, item), rows, i) && ChosenFor(target, item)[i] == a)
    || ((forall c <- ChosenFor(target, item) :: c !in rows)
        && exists j: nat, i: nat :: FirstLineAt(target, all, j) && FirstAt(all[j].attributes, rows, i)
             && all[j].attributes[i] == a)
  }

  /** An entry takes its units from one row of its target: from the product row when the target shows no variant
      rows; else from the variant fixed in the configuration; else from the variant of the attribute that
      decides, or from the product row when none does. */
  lemma EntryTakes(ad: AlsoDeduct, item: Item, all: seq<Item>, invMap: Catalog)
    ensures var m := AlsoMove(ad, item, all, invMap);
            var rows := if ad.productId in invMap then invMap[ad.productId].variantStocks else [];
            && m.units == ad.baseUnits
            && match m.key
               case GroupKey(_) => false
               case ProductKey(p) =>
                 p == ad.productId
                 && (rows == [] || (ad.fixed.None? && forall a :: !Decides(a, p, item, all, rows)))
               case VariantKey(p, name, value) =>
                 p == ad.productId && rows != []
                 && (if ad.fixed.Some? then Attribute(name, value) == ad.fixed.value
                     else Decides(Attribute(name, value), p, item, all, rows))
  {
    var rows := VariantRows(ad.productId, invMap);
    var own := FirstMatch(ChosenFor(ad.productId, item), rows);
    FirstLineMeaning(ad.productId, all);
    if ad.fixed.None? && own.None? {
      forall a | Decides(a, ad.productId, item, all, rows) ensures AlsoVariant(ad, item, all, invMap) == Some(a) {
        FirstLineMeaning(ad.productId, all);
      }
    }
  }

  // ---------- When counting is additive ----------

  predicate Pooled(p: nat, catalog: Catalog) { p in catalog && catalog[p].pool.Some? }

  /** An entry of product `p` whose key depends neither on the lines around it nor on what else is loaded. */
  predicate Standalone(p: nat, ad: AlsoDeduct, catalog: Catalog) {
    || ad.baseUnits == 0
    || VariantRows(ad.productId, catalog) == []
    || if Pooled(ad.productId, catalog) then ad.productId == p else ad.fixed.Some?
  }

  /** A product whose also-deduct entries are read at all. */
  predicate Tracked(p: nat, catalog: Catalog) {
    p in catalog && (catalog[p].trackInventory || catalog[p].pool.Some?)
  }

  /** Every also-deduct entry in use stands alone. */
  predicate SelfContained(catalog: Catalog) {
    forall p <- catalog :: Tracked(p, catalog) ==> forall ad <- catalog[p].alsoDeductFrom :: Standalone(p, ad, catalog)
  }

  ghost predicate Additive(catalog: Catalog) {
    forall a: seq<Item>, b: seq<Item>, k :: Count(a + b, catalog, k) == Count(a, catalog, k) + Count(b, catalog, k)
  }

  lemma LoadedRequested(p: nat, requested: set<nat>, catalog: Catalog)
    requires p in requested
    ensures p in Load(catalog, requested) <==> p in catalog
    ensures p in catalog ==> Load(catalog, requested)[p] == LoadedInfo(catalog[p], true)
  {
  }

  /** A request loads its products and their also-deduct targets. Its own products show their pools, and one in
      a pool counts as tracked and shows no variant rows; a mere target shows its variant rows and no pool. */
  lemma LoadExactlyWhen(catalog: Catalog, requested: set<nat>, p: nat)
    ensures p in Load(catalog, requested) <==>
            && p in catalog
            && (p in requested
                || exists q, i :: q in requested && q in catalog && 0 <= i < |catalog[q].alsoDeductFrom|
                     && catalog[q].alsoDeductFrom[i].productId == p)
    ensures p in Load(catalog, requested) ==>
              var was, shown, pooled := catalog[p], Load(catalog, requested)[p], catalog[p].pool.Some?;
              && shown.alsoDeductFrom == was.alsoDeductFrom
              && shown.pool == (if p in requested then was.pool else None)
              && shown.variantGroups == (if p in requested then was.variantGroups else [])
              && (shown.trackInventory <==> was.trackInventory || (p in requested && pooled))
              && shown.variantStocks == if p in requested && pooled then [] else was.variantStocks
  {
    forall q, i | q in requested && q in catalog && 0 <= i < |catalog[q].alsoDeductFrom|
      ensures catalog[q].alsoDeductFrom[i] in catalog[q].alsoDeductFrom
    {
    }
    if IsTarget(p, requested, catalog) {
      var q, ad :| q in requested && q in catalog && ad in catalog[q].alsoDeductFrom && ad.productId == p;
      var i :| 0 <= i < |catalog[q].alsoDeductFrom| && catalog[q].alsoDeductFrom[i] == ad;
    }
  }

  /** The variant rows a request sees for an also-deduct target of one of its products. */
  lemma LoadedRows(p: nat, ad: AlsoDeduct, requested: set<nat>, catalog: Catalog)
    requires p in requested && p in catalog && ad in catalog[p].alsoDeductFrom
    ensures VariantRows(ad.productId, Load(catalog, requested)) ==
            if ad.productId in requested && Pooled(ad.productId, catalog) then []
            else VariantRows(ad.productId, catalog)
  {
    assert IsTarget(ad.productId, requested, catalog);
  }

  /** One line counted in two requests that both hold its product. */
  ghost predicate SameLine(item: Item, other: Item, s: set<nat>, t: set<nat>) {
    item.productId == other.productId && item.attributes == other.attributes && item.productId in s
        && item.productId in t
  }

  lemma AlsoMoveAlone(ad: AlsoDeduct, item: Item, all: seq<Item>, s: set<nat>, other: Item, more: seq<Item>,
      t: set<nat>, catalog: Catalog)
    requires SameLine(item, other, s, t) && item.productId in catalog && ad in catalog[item.productId].alsoDeductFrom
    requires Standalone(item.productId, ad, catalog) && ad.baseUnits > 0
    ensures AlsoMove(ad, item, all, Load(catalog, s)) == AlsoMove(ad, other, more, Load(catalog, t))
  {
    LoadedRows(item.productId, ad, s, catalog);
    LoadedRows(item.productId, ad, t, catalog);
  }

  lemma AlsoMovesSnoc(ads: seq<AlsoDeduct>, item: Item, all: seq<Item>, catalog: Catalog, key: Key)
    requires ads != []
    ensures var n := |ads| - 1;
            var m := AlsoMove(ads[n], item, all, catalog);
            Units(AlsoMoves(ads, item, all, catalog), key) ==
            Units(AlsoMoves(ads[..n], item, all, catalog), key) + if m.key == key then m.units else 0
  {
    var before := AlsoMoves(ads[..|ads| - 1], item, all, catalog);
    assert AlsoMoves(ads, item, all, catalog)[..|before|] == before;
  }

  lemma {:induction false} AlsoUnitsAlone(ads: seq<AlsoDeduct>, item: Item, all: seq<Item>, s: set<nat>,
                                          other: Item, more: seq<Item>, t: set<nat>, catalog: Catalog, key: Key)
    requires SameLine(item, other, s, t) && item.productId in catalog
    requires forall ad <- ads :: ad in catalog[item.productId].alsoDeductFrom && Standalone(item.productId, ad, catalog)
    ensures Units(AlsoMoves(ads, item, all, Load(catalog, s)), key) ==
        Units(AlsoMoves(ads, other, more, Load(catalog, t)), key)
    decreases |ads|
  {
    if ads != [] {
      var n := |ads| - 1;
      AlsoUnitsAlone(ads[..n], item, all, s, other, more, t, catalog, key);
      AlsoMovesSnoc(ads, item, all, Load(catalog, s), key);
      AlsoMovesSnoc(ads, other, more, Load(catalog, t), key);
      assert ads[n] in ads;
      if ads[n].baseUnits > 0 { AlsoMoveAlone(ads[n], item, all, s, other, more, t, catalog); }
    }
  }

  lemma {:induction false} UnitsConcat(a: seq<Move>, b: seq<Move>, key: Key)
    ensures Units(a + b, key) == Units(a, key) + Units(b, key)
    decreases |b|
  {
    if b == [] {
      assert a + b == a;
    } else {
      UnitsConcat(a, b[..|b| - 1], key);
      assert (a + b)[..|a + b| - 1] == a + b[..|b| - 1];
    }
  }

  lemma UnitsOne(m: Move, key: Key)
    ensures Units([m], key) == if m.key == key then m.units else 0
  {
    assert [m][..0] == [];
  }

  /** The units of a line: its pool or own key, and its also-deduct entries. */
  lemma UnitsOfLine(item: Item, all: seq<Item>, catalog: Catalog, key: Key)
    requires item.productId in catalog && catalog[item.productId].trackInventory
    requires MatchedGroup(item.attributes, catalog[item.productId].variantGroups).None?
    ensures var info := catalog[item.productId];
            var own := if info.pool.Some? then Move(GroupKey(info.pool.value.groupId), info.pool.value.baseUnits)
                else Move(OwnKey(item, info), 1);
            Units(Moves(item, all, catalog), key) ==
            Units(AlsoMoves(info.alsoDeductFrom, item, all, catalog), key) + if own.key == key then own.units else 0
  {
    var info := catalog[item.productId];
    var also := AlsoMoves(info.alsoDeductFrom, item, all, catalog);
    if info.pool.Some? {
      var m := Move(GroupKey(info.pool.value.groupId), info.pool.value.baseUnits);
      UnitsConcat([m], also, key);
      UnitsOne(m, key);
    } else {
      var m := Move(OwnKey(item, info), 1);
      UnitsConcat(also, [m], key);
      UnitsOne(m, key);
    }
  }

  /** In a self-contained catalogue a line counts the same alone, among any siblings, and once stored. */
  lemma LineCountsAlone(item: Item, all: seq<Item>, s: set<nat>, other: Item, more: seq<Item>, t: set<nat>,
      catalog: Catalog, key: Key)
    requires SelfContained(catalog) && SameLine(item, other, s, t)
    ensures Units(Moves(item, all, Load(catalog, s)), key) == Units(Moves(other, more, Load(catalog, t)), key)
  {
    LoadedRequested(item.productId, s, catalog);
    LoadedRequested(item.productId, t, catalog);
    if Tracked(item.productId, catalog) {
      var info := LoadedInfo(catalog[item.productId], true);
      if MatchedGroup(item.attributes, info.variantGroups).None? {
        AlsoUnitsAlone(info.alsoDeductFrom, item, all, s, other, more, t, catalog, key);
        UnitsOfLine(item, all, Load(catalog, s), key);
        UnitsOfLine(other, more, Load(catalog, t), key);
      }
    }
  }

  /** Two lists of lines that agree line by line on product and attributes. */
  predicate SameLines(items: seq<Item>, other: seq<Item>) {
    && |items| == |other|
    && forall i :: 0 <= i < |items| ==>
         items[i].productId == other[i].productId && items[i].attributes == other[i].attributes
  }

  lemma {:induction false} CountInAgrees(items: seq<Item>, all: seq<Item>, s: set<nat>,
                                         other: seq<Item>, more: seq<Item>, t: set<nat>, catalog: Catalog, key: Key)
    requires SelfContained(catalog) && SameLines(items, other) && Ids(items) <= s && Ids(items) <= t
    ensures CountIn(items, all, Load(catalog, s), key) == CountIn(other, more, Load(catalog, t), key)
    decreases |items|
  {
    if items != [] {
      var n := |items| - 1;
      assert items[n] in items && forall i <- items[..n] :: i in items;
      assert items[n].productId in Ids(items);
      CountInAgrees(items[..n], all, s, other[..n], more, t, catalog, key);
      LineCountsAlone(items[n], all, s, other[n], more, t, catalog, key);
      LastLineAgrees(items, all, Load(catalog, s), other, more, Load(catalog, t), key);
    }
  }

  lemma LastLineAgrees(items: seq<Item>, all: seq<Item>, a: Catalog, other: seq<Item>, more: seq<Item>, b: Catalog,
      key: Key)
    requires items != [] && |other| == |items|
    requires CountIn(items[..|items| - 1], all, a, key) == CountIn(other[..|items| - 1], more, b, key)
    requires Units(Moves(items[|items| - 1], all, a), key) == Units(Moves(other[|items| - 1], more, b), key)
    ensures CountIn(items, all, a, key) == CountIn(other, more, b, key)
  {
  }

  /** One more line at the end of both adds the same to both. */
  lemma LastLineAdds(b: seq<Item>, whole: seq<Item>, all: seq<Item>, catalog: Catalog, key: Key, a: nat)
    requires b != [] && whole != [] && b[|b| - 1] == whole[|whole| - 1]
    requires CountIn(whole[..|whole| - 1], all, catalog, key) == a + CountIn(b[..|b| - 1], all, catalog, key)
    ensures CountIn(whole, all, catalog, key) == a + CountIn(b, all, catalog, key)
  {
  }

  lemma {:induction false} CountInConcat(a: seq<Item>, b: seq<Item>, all: seq<Item>, catalog: Catalog, key: Key)
    ensures CountIn(a + b, all, catalog, key) == CountIn(a, all, catalog, key) + CountIn(b, all, catalog, key)
    decreases |b|
  {
    if b == [] {
      assert a + b == a;
    } else {
      var n := |b| - 1;
      CountInConcat(a, b[..n], all, catalog, key);
      assert (a + b)[..|a + b| - 1] == a + b[..n];
      LastLineAdds(b, a + b, all, catalog, key, CountIn(a, all, catalog, key));
    }
  }

  lemma SameLinesCount(items: seq<Item>, other: seq<Item>, catalog: Catalog, key: Key)
    requires SelfContained(catalog) && SameLines(items, other)
    ensures Count(items, catalog, key) == Count(other, catalog, key)
  {
    forall p ensures p in Ids(items) <==> p in Ids(other) {
      if i :| 0 <= i < |items| && items[i].productId == p { assert other[i] in other; }
      if i :| 0 <= i < |other| && other[i].productId == p { assert items[i] in items; }
    }
    CountInAgrees(items, items, Ids(items), other, other, Ids(other), catalog, key);
  }

  lemma CountConcat(a: seq<Item>, b: seq<Item>, catalog: Catalog, key: Key)
    requires SelfContained(catalog)
    ensures Count(a + b, catalog, key) == Count(a, catalog, key) + Count(b, catalog, key)
  {
    CountInConcat(a, b, a + b, Load(catalog, Ids(a + b)), key);
    CountInAgrees(a, a + b, Ids(a + b), a, a, Ids(a), catalog, key);
    CountInAgrees(b, a + b, Ids(a + b), b, b, Ids(b), catalog, key);
  }

  // ---------- ... and only then: an entry that reads the lines around it ----------

  lemma OneLine(item: Item, all: seq<Item>, catalog: Catalog, key: Key)
    ensures CountIn([item], all, catalog, key) == Units(Moves(item, all, catalog), key)
  {
    assert [item][..0] == [];
  }

  lemma CountOne(item: Item, catalog: Catalog, key: Key)
    ensures Count([item], catalog, key) == Units(Moves(item, [item], Load(catalog, {item.productId})), key)
  {
    assert Ids([item]) == {item.productId};
    OneLine(item, [item], Load(catalog, {item.productId}), key);
  }

  lemma CountTwo(first: Item, second: Item, catalog: Catalog, key: Key)
    ensures var both := Load(catalog, {first.productId, second.productId});
            Count([first] + [second], catalog, key) ==
            Units(Moves(first, [first, second], both), key) + Units(Moves(second, [first, second], both), key)
  {
    var both := Load(catalog, {first.productId, second.productId});
    assert [first] + [second] == [first, second] && Ids([first, second]) == {first.productId, second.productId};
    CountInConcat([first], [second], [first, second], both, key);
    OneLine(first, [first, second], both, key);
    OneLine(second, [first, second], both, key);
  }

  /** A plain line next to one that names a variant takes nothing more at the plain key, and strictly less
      when an entry of its product depends on the sibling. `one` and `both` show the same rows of the target. */
  lemma {:induction false} SiblingMovesEntries(ads: seq<AlsoDeduct>, plain: Item, named: Item, target: nat,
      one: Catalog, both: Catalog)
    requires plain.attributes == [] && plain.alsoDeductVariant.None? && named.productId == target
    requires VariantRows(target, one) == VariantRows(target, both)
    requires FirstMatch(named.attributes, VariantRows(target, both)).Some?
    ensures var alone, beside := AlsoMoves(ads, plain, [plain], one), AlsoMoves(ads, plain, [named, plain], both);
            && Units(beside, ProductKey(target)) <= Units(alone, ProductKey(target))
            && ((exists ad <- ads :: ad.productId == target && ad.fixed.None? && ad.baseUnits > 0) ==>
                  Units(beside, ProductKey(target)) < Units(alone, ProductKey(target)))
    decreases |ads|
  {
    if ads != [] {
      var n := |ads| - 1;
      var ad := ads[n];
      SiblingMovesEntries(ads[..n], plain, named, target, one, both);
      AlsoMovesSnoc(ads, plain, [plain], one, ProductKey(target));
      AlsoMovesSnoc(ads, plain, [named, plain], both, ProductKey(target));
      assert [named, plain][1..] == [plain] && [plain][1..] == [];
      assert FirstLine(target, [named, plain]) == Some(named);
      assert FirstLine(ad.productId, [plain]) in {None, Some(plain)};
      if exists x <- ads :: x.productId == target && x.fixed.None? && x.baseUnits > 0 {
        var x :| x in ads && x.productId == target && x.fixed.None? && x.baseUnits > 0;
        assert x in ads[..n] || x == ad;
      }
    }
  }

  lemma NamedEntryUnchanged(ad: AlsoDeduct, named: Item, plain: Item, one: Catalog, both: Catalog)
    requires VariantRows(named.productId, one) == VariantRows(named.productId, both)
    ensures AlsoMove(ad, named, [named], one).key == ProductKey(named.productId) <==>
            AlsoMove(ad, named, [named, plain], both).key == ProductKey(named.productId)
  {
    if ad.productId == named.productId {
      assert FirstLine(named.productId, [named]) == Some(named);
      assert FirstLine(named.productId, [named, plain]) == Some(named);
    }
  }

  /** The named line itself takes the same at its plain key, alone and before a plain line. */
  lemma {:induction false} NamedEntriesUnchanged(ads: seq<AlsoDeduct>, named: Item, plain: Item, one: Catalog,
      both: Catalog)
    requires VariantRows(named.productId, one) == VariantRows(named.productId, both)
    ensures Units(AlsoMoves(ads, named, [named], one), ProductKey(named.productId)) ==
            Units(AlsoMoves(ads, named, [named, plain], both), ProductKey(named.productId))
    decreases |ads|
  {
    if ads != [] {
      NamedEntriesUnchanged(ads[..|ads| - 1], named, plain, one, both);
      AlsoMovesSnoc(ads, named, [named], one, ProductKey(named.productId));
      AlsoMovesSnoc(ads, named, [named, plain], both, ProductKey(named.productId));
      NamedEntryUnchanged(ads[|ads| - 1], named, plain, one, both);
    }
  }

  lemma NamedLineUnchanged(named: Item, plain: Item, catalog: Catalog)
    requires !Pooled(named.productId, catalog)
    ensures var k := ProductKey(named.productId);
            Units(Moves(named, [named], Load(catalog, {named.productId})), k) ==
            Units(Moves(named, [named, plain], Load(catalog, {named.productId, plain.productId})), k)
  {
    var t := named.productId;
    var one, both := Load(catalog, {t}), Load(catalog, {t, plain.productId});
    LoadedRequested(t, {t}, catalog);
    LoadedRequested(t, {t, plain.productId}, catalog);
    if t in catalog && catalog[t].trackInventory && MatchedGroup(named.attributes, catalog[t].variantGroups).None? {
      NamedEntriesUnchanged(catalog[t].alsoDeductFrom, named, plain, one, both);
      UnitsOfLine(named, [named], one, ProductKey(t));
      UnitsOfLine(named, [named, plain], both, ProductKey(t));
    }
  }

  /** An entry for a product outside pools reads the variant off a sibling line. */
  lemma SiblingBreaksAdditivity(p: nat, ad: AlsoDeduct, catalog: Catalog)
    requires Tracked(p, catalog) && ad in catalog[p].alsoDeductFrom && !Pooled(ad.productId, catalog)
    requires VariantRows(ad.productId, catalog) != [] && ad.fixed.None? && ad.baseUnits > 0
    ensures var plain, named := Item(p, [], None), Item(ad.productId, [VariantRows(ad.productId, catalog)[0]], None);
            Count([named] + [plain], catalog, ProductKey(ad.productId)) <
            Count([named], catalog, ProductKey(ad.productId)) + Count([plain], catalog, ProductKey(ad.productId))
  {
    var target := ad.productId;
    var plain, named := Item(p, [], None), Item(target, [VariantRows(target, catalog)[0]], None);
    var k := ProductKey(target);
    CountTwo(named, plain, catalog, k);
    CountOne(named, catalog, k);
    CountOne(plain, catalog, k);
    NamedLineUnchanged(named, plain, catalog);
    PlainLineTakesLess(p, ad, plain, named, catalog);
  }

  lemma PlainLineTakesLess(p: nat, ad: AlsoDeduct, plain: Item, named: Item, catalog: Catalog)
    requires Tracked(p, catalog) && ad in catalog[p].alsoDeductFrom && !Pooled(ad.productId, catalog)
    requires VariantRows(ad.productId, catalog) != [] && ad.fixed.None? && ad.baseUnits > 0
    requires plain == Item(p, [], None) && named == Item(ad.productId, [VariantRows(ad.productId, catalog)[0]], None)
    ensures Units(Moves(plain, [named, plain], Load(catalog, {ad.productId, p})), ProductKey(ad.productId)) <
            Units(Moves(plain, [plain], Load(catalog, {p})), ProductKey(ad.productId))
  {
    var t := ad.productId;
    var one, both := Load(catalog, {p}), Load(catalog, {t, p});
    LoadedRequested(p, {p}, catalog);
    LoadedRequested(p, {t, p}, catalog);
    LoadedRows(p, ad, {p}, catalog);
    LoadedRows(p, ad, {t, p}, catalog);
    SiblingMovesEntries(catalog[p].alsoDeductFrom, plain, named, t, one, both);
    UnitsOfLine(plain, [plain], one, ProductKey(t));
    UnitsOfLine(plain, [named, plain], both, ProductKey(t));
  }

  // ---------- ... or whose target shows other rows once it is requested itself ----------

  lemma {:induction false} NoVariantEntries(ads: seq<AlsoDeduct>, item: Item, all: seq<Item>, t: nat, v: Attribute,
      catalog: Catalog)
    requires VariantRows(t, catalog) == []
    ensures Units(AlsoMoves(ads, item, all, catalog), VariantKey(t, v.name, v.value)) == 0
    decreases |ads|
  {
    if ads != [] {
      NoVariantEntries(ads[..|ads| - 1], item, all, t, v, catalog);
      AlsoMovesSnoc(ads, item, all, catalog, VariantKey(t, v.name, v.value));
    }
  }

  /** Nothing takes from a variant row of a product that shows none. */
  lemma NoVariantUnits(item: Item, all: seq<Item>, t: nat, v: Attribute, catalog: Catalog)
    requires VariantRows(t, catalog) == []
    ensures Units(Moves(item, all, catalog), VariantKey(t, v.name, v.value)) == 0
  {
    var k := VariantKey(t, v.name, v.value);
    if item.productId in catalog && catalog[item.productId].trackInventory {
      var info := catalog[item.productId];
      var vg := MatchedGroup(item.attributes, info.variantGroups);
      if vg.Some? {
        UnitsOne(Move(GroupKey(vg.value.groupId), vg.value.baseUnits), k);
      } else {
        NoVariantEntries(info.alsoDeductFrom, item, all, t, v, catalog);
        UnitsOfLine(item, all, catalog, k);
      }
    }
  }

  lemma {:induction false} EntryCounts(ads: seq<AlsoDeduct>, ad: AlsoDeduct, item: Item, all: seq<Item>,
      catalog: Catalog)
    requires ad in ads
    ensures Units(AlsoMoves(ads, item, all, catalog), AlsoMove(ad, item, all, catalog).key) >= ad.baseUnits
    decreases |ads|
  {
    var n := |ads| - 1;
    AlsoMovesSnoc(ads, item, all, catalog, AlsoMove(ad, item, all, catalog).key);
    if ads[n] != ad { EntryCounts(ads[..n], ad, item, all, catalog); }
  }

  /** The variant row such an entry takes when its target is not requested. */
  function PoolVariant(ad: AlsoDeduct, catalog: Catalog): Attribute
    requires VariantRows(ad.productId, catalog) != []
  {
    if ad.fixed.Some? then ad.fixed.value else VariantRows(ad.productId, catalog)[0]
  }

  /** An entry of `p` for another product, in a pool, that has variant rows. */
  predicate ReadsPooled(p: nat, ad: AlsoDeduct, catalog: Catalog) {
    && Tracked(p, catalog) && ad in catalog[p].alsoDeductFrom && Pooled(ad.productId, catalog) && ad.productId != p
    && VariantRows(ad.productId, catalog) != [] && ad.baseUnits > 0
  }

  lemma PooledTargetAlone(p: nat, ad: AlsoDeduct, line: Item, catalog: Catalog)
    requires ReadsPooled(p, ad, catalog) && line == Item(p, [],
        Some(Chosen(ad.productId, [VariantRows(ad.productId, catalog)[0]])))
    ensures var v := PoolVariant(ad, catalog);
            Units(Moves(line, [line], Load(catalog, {p})), VariantKey(ad.productId, v.name, v.value)) > 0
  {
    var one, v := Load(catalog, {p}), PoolVariant(ad, catalog);
    LoadedRequested(p, {p}, catalog);
    LoadedRows(p, ad, {p}, catalog);
    EntryCounts(catalog[p].alsoDeductFrom, ad, line, [line], one);
    UnitsOfLine(line, [line], one, VariantKey(ad.productId, v.name, v.value));
  }

  lemma PooledTargetBeside(p: nat, ad: AlsoDeduct, item: Item, all: seq<Item>, catalog: Catalog)
    requires ReadsPooled(p, ad, catalog)
    ensures var v := PoolVariant(ad, catalog);
            Units(Moves(item, all, Load(catalog, {p, ad.productId})), VariantKey(ad.productId, v.name, v.value)) == 0
  {
    LoadedRequested(ad.productId, {p, ad.productId}, catalog);
    NoVariantUnits(item, all, ad.productId, PoolVariant(ad, catalog), Load(catalog, {p, ad.productId}));
  }

  /** An entry for a product in a pool takes a variant row alone, and the product row next to that product. */
  lemma PoolBreaksAdditivity(p: nat, ad: AlsoDeduct, catalog: Catalog)
    requires ReadsPooled(p, ad, catalog)
    ensures var v := PoolVariant(ad, catalog);
            var k := VariantKey(ad.productId, v.name, v.value);
            var line, sibling := Item(p, [], Some(Chosen(ad.productId, [VariantRows(ad.productId, catalog)[0]]))),
                Item(ad.productId, [], None);
            Count([line] + [sibling], catalog, k) < Count([line], catalog, k) + Count([sibling], catalog, k)
  {
    var v := PoolVariant(ad, catalog);
    var k := VariantKey(ad.productId, v.name, v.value);
    var line, sibling := Item(p, [], Some(Chosen(ad.productId, [VariantRows(ad.productId, catalog)[0]]))),
        Item(ad.productId, [], None);
    CountTwo(line, sibling, catalog, k);
    CountOne(line, catalog, k);
    PooledTargetAlone(p, ad, line, catalog);
    PooledTargetBeside(p, ad, line, [line, sibling], catalog);
    PooledTargetBeside(p, ad, sibling, [line, sibling], catalog);
  }

  lemma AdditiveAt(catalog: Catalog, a: seq<Item>, b: seq<Item>, k: Key)
    requires Count(a + b, catalog, k) < Count(a, catalog, k) + Count(b, catalog, k)
    ensures !Additive(catalog)
  {
  }

  lemma NotSelfContained(catalog: Catalog)
    requires !SelfContained(catalog)
    ensures !Additive(catalog)
  {
    var p :| p in catalog && Tracked(p, catalog) && exists ad <- catalog[p].alsoDeductFrom ::
        !Standalone(p, ad, catalog);
    var ad :| ad in catalog[p].alsoDeductFrom && !Standalone(p, ad, catalog);
    var row := VariantRows(ad.productId, catalog)[0];
    if Pooled(ad.productId, catalog) {
      PoolBreaksAdditivity(p, ad, catalog);
      var v := PoolVariant(ad, catalog);
      AdditiveAt(catalog, [Item(p, [], Some(Chosen(ad.productId, [row])))], [Item(ad.productId, [], None)],
          VariantKey(ad.productId, v.name, v.value));
    } else {
      SiblingBreaksAdditivity(p, ad, catalog);
      AdditiveAt(catalog, [Item(ad.productId, [row], None)], [Item(p, [], None)], ProductKey(ad.productId));
    }
  }

  /** Counting lines one list at a time adds up exactly for the self-contained catalogues. */
  lemma AdditiveExactlyWhenSelfContained(catalog: Catalog)
    ensures Additive(catalog) <==> SelfContained(catalog)
  {
    if SelfContained(catalog) {
      forall a: seq<Item>, b: seq<Item>, k ensures Count(a + b, catalog, k) ==
          Count(a, catalog, k) + Count(b, catalog, k) {
        CountConcat(a, b, catalog, k);
      }
    } else {
      NotSelfContained(catalog);
    }
  }
}
