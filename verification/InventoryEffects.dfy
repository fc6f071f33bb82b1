/** When each order operation is accepted, and what it then does to the stock and to the order: stated through
    the lines that go back and the lines that go out (orders.service.ts). */
module InventoryEffects {
  import opened Options
  import opened StockKeys
  import opened InventoryCounts
  import opened OrderStatuses
  import opened Sequences
  import opened InventoryLedger

  // ---------- What is stored of a line ----------

  predicate Blank(c: char) { c == ' ' || c == '\t' || c == '\n' || c == '\r' }

  predicate AllSpace(s: string) { forall i :: 0 <= i < |s| ==> Blank(s[i]) }

  /** `t` is `s` from `i` to `j`, without the spaces around it. */
  predicate TrimmedAt(s: string, t: string, i: nat, j: nat) {
    && i <= j <= |s| && t == s[i..j]
    && (forall k :: 0 <= k < i ==> Blank(s[k])) && (forall k :: j <= k < |s| ==> Blank(s[k]))
    && (i < j ==> !Blank(s[i]) && !Blank(s[j - 1]))
  }

  lemma {:induction false} TrimLeftMeaning(s: string) returns (i: nat)
    ensures i <= |s| && TrimLeft(s) == s[i..] && forall k :: 0 <= k < i ==> Blank(s[k])
    ensures i < |s| ==> !Blank(s[i])
    decreases |s|
  {
    i := 0;
    if s != "" && IsSpace(s[0]) {
      var rest := TrimLeftMeaning(s[1..]);
      i := rest + 1;
      forall k | 0 < k < i ensures Blank(s[k]) {
        assert s[k] == s[1..][k - 1];
      }
    }
  }

  lemma {:induction false} TrimRightMeaning(s: string) returns (j: nat)
    ensures j <= |s| && TrimRight(s) == s[..j] && forall k :: j <= k < |s| ==> Blank(s[k])
    ensures 0 < j ==> !Blank(s[j - 1])
    decreases |s|
  {
    j := |s|;
    if s != "" && IsSpace(s[|s| - 1]) {
      j := TrimRightMeaning(s[..|s| - 1]);
      forall k | j <= k < |s| - 1 ensures Blank(s[k]) {
        assert s[k] == s[..|s| - 1][k];
      }
    }
  }

  /** Trimming takes away the spaces around a text, all of them and nothing else. */
  lemma TrimMeaning(s: string)
    ensures exists i: nat, j: nat :: TrimmedAt(s, Trim(s), i, j)
  {
    var i := TrimLeftMeaning(s);
    var n := TrimRightMeaning(s[i..]);
    forall k | i + n <= k < |s| ensures Blank(s[k]) {
      assert s[k] == s[i..][k - i];
    }
    assert Trim(s) == s[i..][..n] == s[i..i + n];
    assert TrimmedAt(s, Trim(s), i, i + n);
  }

  /** The value is not only spaces. */
  predicate Says(a: Attribute) { !AllSpace(a.value) }

  lemma BlankExactlyWhen(s: string)
    ensures Trim(s) == "" <==> AllSpace(s)
  {
    TrimMeaning(s);
    var i: nat, j: nat :| TrimmedAt(s, Trim(s), i, j);
  }

  function Trimmed(a: Attribute): Attribute { Attribute(Trim(a.name), Trim(a.value)) }

  /** Each attribute with its name and value trimmed; a new order drops the ones that say nothing. */
  function Written(attributes: seq<Attribute>, created: bool): seq<Attribute> {
    Map(Trimmed, if created then Filter(attributes, Says, true) else attributes)
  }

  lemma MapSnoc<A, B>(f: A -> B, s: seq<A>, x: A)
    ensures Map(f, s + [x]) == Map(f, s) + [f(x)]
  {
  }

  lemma {:induction false} NewAttributes(attributes: seq<Attribute>)
    ensures StoredAttributes(attributes, true) == Written(attributes, true)
    decreases |attributes|
  {
    if attributes != [] {
      var before, a := attributes[..|attributes| - 1], attributes[|attributes| - 1];
      NewAttributes(before);
      BlankExactlyWhen(a.value);
      MapSnoc(Trimmed, Filter(before, Says, true), a);
    }
  }

  lemma {:induction false} AddedAttributes(attributes: seq<Attribute>)
    ensures StoredAttributes(attributes, false) == Written(attributes, false)
    decreases |attributes|
  {
    if attributes != [] {
      var before, a := attributes[..|attributes| - 1], attributes[|attributes| - 1];
      AddedAttributes(before);
      MapSnoc(Trimmed, before, a);
      assert before + [a] == attributes;
    }
  }

  /** The product and the attributes of the line, and nothing of the chosen variant. */
  ghost predicate RecordedAs(item: Item, stored: Item, created: bool) {
    && stored.productId == item.productId && stored.alsoDeductVariant == None
    && stored.attributes == Written(item.attributes, created)
  }

  /** One stored line per requested line. */
  ghost predicate Recorded(items: seq<Item>, stored: seq<Item>, created: bool) {
    |stored| == |items| && forall i :: 0 <= i < |items| ==> RecordedAs(items[i], stored[i], created)
  }

  lemma RecordedSnoc(items: seq<Item>, stored: seq<Item>, item: Item, t: Item, created: bool)
    requires Recorded(items, stored, created) && RecordedAs(item, t, created)
    ensures Recorded(items + [item], stored + [t], created)
  {
  }

  lemma {:induction false} StoredMeaning(items: seq<Item>, created: bool)
    ensures Recorded(items, Stored(items, created), created)
    decreases |items|
  {
    if items != [] {
      var before, item := items[..|items| - 1], items[|items| - 1];
      var t := Item(item.productId, StoredAttributes(item.attributes, created), None);
      StoredMeaning(before, created);
      if created { NewAttributes(item.attributes); } else { AddedAttributes(item.attributes); }
      RecordedSnoc(before, Stored(before, created), item, t, created);
      assert items == before + [item];
    }
  }

  // ---------- Stock ----------

  /** Every row goes up by what the lines `back` take of it, and down by what the lines `out` take. */
  ghost predicate Moved(before: Levels, after: Levels, back: seq<Item>, out: seq<Item>, catalog: Catalog) {
    && after.Keys == before.Keys
    && forall k <- before :: after[k] == before[k] + Count(back, catalog, k) - Count(out, catalog, k)
  }

  /** The rows hold what the lines `out` take, once the lines `back` are given back. */
  ghost predicate Covers(levels: Levels, back: seq<Item>, out: seq<Item>, catalog: Catalog) {
    forall k <- levels :: Count(out, catalog, k) > 0 ==>
      levels[k] + Count(back, catalog, k) - Count(out, catalog, k) >= 0
  }

  lemma NothingCounts(catalog: Catalog, key: Key)
    ensures Count([], catalog, key) == 0
  {
  }

  // ---------- The operations ----------

  /** The order exists, is not finished and has no invoice accepted or pending. */
  predicate Grants(l: Ledger, id: nat) {
    id < |l.orders| && !l.orders[id].locked && (l.orders[id].status == Waiting || l.orders[id].status == Ready)
  }

  ghost predicate OnlyChanges(l: Ledger, after: Ledger, id: nat) {
    |after.orders| == |l.orders| && forall i :: 0 <= i < |l.orders| && i != id ==> after.orders[i] == l.orders[i]
  }

  /** A creation is accepted exactly when it asks for something, the check passes and the rows hold it. */
  lemma CreateExactlyWhen(l: Ledger, items: seq<Item>, extras: nat, catalog: Catalog)
    ensures var after, n := Apply(l, CreateOp(items, extras), catalog), |l.orders|;
            if |items| + extras > 0 && Valid(l.levels, items, catalog) && Covers(l.levels, [], items, catalog)
            then
              && Moved(l.levels, after.levels, [], items, catalog)
              && |after.orders| == n + 1 && after.orders[..n] == l.orders && after.orders[n].status == Waiting
              && !after.orders[n].locked && after.orders[n].extras == extras
              && Recorded(items, after.orders[n].items, true)
            else after == l
  {
    StoredMeaning(items, true);
    forall k ensures Count([], catalog, k) == 0 { NothingCounts(catalog, k); }
    assert Covers(l.levels, [], items, catalog) <==> Sufficient(l.levels, items, catalog);
  }

  /** The order is back in the kitchen, with these lines and extras. */
  ghost predicate IsCooking(l: Ledger, after: Ledger, id: nat, items: seq<Item>, extras: nat)
    requires id < |l.orders|
  {
    && OnlyChanges(l, after, id)
    && after.orders[id] == Order(items, extras, Waiting, l.orders[id].locked)
  }

  ghost predicate IsCanceled(l: Ledger, after: Ledger, id: nat, catalog: Catalog)
    requires id < |l.orders|
  {
    && OnlyChanges(l, after, id)
    && after.orders[id] == Order([], 0, Canceled, l.orders[id].locked)
    && Moved(l.levels, after.levels, l.orders[id].items, [], catalog)
  }

  lemma AppendExactlyWhen(l: Ledger, id: nat, items: seq<Item>, extras: nat, catalog: Catalog)
    ensures var after := Apply(l, AppendOp(id, items, extras), catalog);
            if && Grants(l, id) && |items| + extras > 0
               && Valid(l.levels, items, catalog) && Covers(l.levels, [], items, catalog)
            then
              && Moved(l.levels, after.levels, [], items, catalog)
              && exists stored :: Recorded(items, stored, false)
                   && IsCooking(l, after, id, l.orders[id].items + stored, l.orders[id].extras + extras)
            else after == l
  {
    StoredMeaning(items, false);
    forall k ensures Count([], catalog, k) == 0 { NothingCounts(catalog, k); }
    assert Covers(l.levels, [], items, catalog) <==> Sufficient(l.levels, items, catalog);
  }

  /** A cancellation gives every line back, unless the order is canceled, or completed without force. */
  lemma CancelExactlyWhen(l: Ledger, id: nat, force: bool, catalog: Catalog)
    ensures var after := Apply(l, CancelOp(id, force), catalog);
            if && id < |l.orders|
               && (l.orders[id].status == Waiting || l.orders[id].status == Ready
                   || (l.orders[id].status == Completed && force))
            then IsCanceled(l, after, id, catalog)
            else after == l
  {
    forall k ensures Count([], catalog, k) == 0 { NothingCounts(catalog, k); }
  }

  /** The order is exchanged: the old lines back, the new ones out and stored. */
  ghost predicate IsExchanged(l: Ledger, after: Ledger, id: nat, items: seq<Item>, extras: nat, catalog: Catalog)
    requires id < |l.orders|
  {
    var o := l.orders[id];
    && Moved(l.levels, after.levels, o.items, items, catalog)
    && exists stored :: Recorded(items, stored, false)
         && IsCooking(l, after, id, (if o.status == Ready then o.items else []) + stored, o.extras + extras)
  }

  predicate ShownRight(l: Ledger, id: nat, base: Option<int>) {
    id < |l.orders| && (base.Some? ==> base.value == |l.orders[id].items|)
  }

  lemma ReplaceTakes(l: Ledger, id: nat, items: seq<Item>, extras: nat, base: Option<int>, catalog: Catalog)
    requires Grants(l, id) && ShownRight(l, id, base) && |items| + extras + l.orders[id].extras > 0
    requires items == [] || Valid(l.levels, items, catalog)
    requires Covers(l.levels, l.orders[id].items, items, catalog)
    ensures IsExchanged(l, Replace(l, id, items, extras, base, catalog), id, items, extras, catalog)
  {
    StoredMeaning(items, false);
    var o, restored := l.orders[id], Restored(l.levels, l.orders[id].items, catalog);
    assert Sufficient(restored, items, catalog);
    ExchangeMoves(l.levels, o.items, items, catalog);
    var after := Replace(l, id, items, extras, base, catalog);
    assert after.levels == Deducted(restored, items, catalog);
    assert IsCooking(l, after, id, ComeBack(o) + Stored(items, false), o.extras + extras);
  }

  lemma ExchangeMoves(levels: Levels, back: seq<Item>, out: seq<Item>, catalog: Catalog)
    ensures Moved(levels, Deducted(Restored(levels, back, catalog), out, catalog), back, out, catalog)
  {
  }

  lemma ReplaceRefuses(l: Ledger, id: nat, items: seq<Item>, extras: nat, base: Option<int>, catalog: Catalog)
    requires Grants(l, id) && ShownRight(l, id, base) && |items| + extras + l.orders[id].extras > 0
    requires (items != [] && !Valid(l.levels, items, catalog))
             || !Covers(l.levels, l.orders[id].items, items, catalog)
    ensures Replace(l, id, items, extras, base, catalog) == l
  {
    var restored := Restored(l.levels, l.orders[id].items, catalog);
    if Sufficient(restored, items, catalog) { assert Covers(l.levels, l.orders[id].items, items, catalog); }
  }

  /** A replacement is accepted exactly on an order with as many lines as its screen showed, when the check
      passes and the rows hold the new lines after the old ones are back. */
  lemma ReplaceExactlyWhen(l: Ledger, id: nat, items: seq<Item>, extras: nat, base: Option<int>, catalog: Catalog)
    ensures var after := Apply(l, ReplaceOp(id, items, extras, base), catalog);
            if !Grants(l, id) || !ShownRight(l, id, base) then after == l
            else
              var o := l.orders[id];
              if |items| + extras + o.extras == 0 then IsCanceled(l, after, id, catalog)
              else if (items == [] || Valid(l.levels, items, catalog)) && Covers(l.levels, o.items, items, catalog)
              then IsExchanged(l, after, id, items, extras, catalog)
              else after == l
  {
    if Grants(l, id) && ShownRight(l, id, base) {
      var o := l.orders[id];
      if |items| + extras + o.extras == 0 {
        CancelExactlyWhen(l, id, false, catalog);
      } else if (items == [] || Valid(l.levels, items, catalog)) && Covers(l.levels, o.items, items, catalog) {
        ReplaceTakes(l, id, items, extras, base, catalog);
      } else {
        ReplaceRefuses(l, id, items, extras, base, catalog);
      }
    }
  }

  function IsOf(productId: nat): Item -> bool { (i: Item) => i.productId == productId }

  lemma ChosenMeaning(items: seq<Item>, productId: nat, index: Option<int>)
    ensures var those, chosen := Filter(items, IsOf(productId), true), ChosenLines(items, productId, index);
            && (chosen.Some? <==> those != [] && (index.Some? ==> 0 <= index.value < |those|))
            && (chosen.Some? ==> |chosen.value| == if index.None? then |those| else 1)
            && (chosen.Some? ==> TakesOut(items, Pick(items, chosen.value, true), Pick(items, chosen.value, false),
                                     IsOf(productId), index))
            && |those| <= |items|
  {
    var p := (i: Item) => i.productId == productId;
    SameChoice(items, p, IsOf(productId), true);
    TakenOutExactlyWhen(items, IsOf(productId), index);
    PositionsMeaning(items, IsOf(productId));
    FilterSizes(items, IsOf(productId));
  }

  /** The order loses these units, and the stock gets back exactly what was taken out; on an order past cooking
      the lines come back all the same. */
  ghost predicate IsReduced(l: Ledger, after: Ledger, id: nat, productId: nat, index: Option<int>, catalog: Catalog)
    requires id < |l.orders|
  {
    var o := l.orders[id];
    exists left, gone :: TakesOut(o.items, left, gone, IsOf(productId), index)
      && Moved(l.levels, after.levels, gone, [], catalog)
      && IsCooking(l, after, id, if o.status == Ready then o.items else left, o.extras)
  }

  lemma RemoveTakes(l: Ledger, id: nat, productId: nat, index: Option<int>, catalog: Catalog, chosen: seq<nat>)
    requires Grants(l, id) && ChosenLines(l.orders[id].items, productId, index) == Some(chosen)
    requires l.orders[id].extras > 0 || |chosen| < |l.orders[id].items|
    ensures IsReduced(l, Remove(l, id, productId, index, catalog), id, productId, index, catalog)
  {
    var o, after := l.orders[id], Remove(l, id, productId, index, catalog);
    ChosenMeaning(o.items, productId, index);
    forall k ensures Count([], catalog, k) == 0 { NothingCounts(catalog, k); }
    assert Moved(l.levels, after.levels, Pick(o.items, chosen, false), [], catalog);
    assert IsCooking(l, after, id, if o.status == Ready then o.items else Pick(o.items, chosen, true), o.extras);
  }

  lemma RemoveRefuses(l: Ledger, id: nat, productId: nat, index: Option<int>, catalog: Catalog)
    requires Grants(l, id) ==> var those := Filter(l.orders[id].items, IsOf(productId), true);
                 those == [] || (index.Some? && !(0 <= index.value < |those|))
    ensures Remove(l, id, productId, index, catalog) == l
  {
    if Grants(l, id) { ChosenMeaning(l.orders[id].items, productId, index); }
  }

  lemma RemoveCancels(l: Ledger, id: nat, productId: nat, index: Option<int>, catalog: Catalog)
    requires Grants(l, id) && l.orders[id].extras == 0
    requires var those := Filter(l.orders[id].items, IsOf(productId), true);
             && those != [] && (index.Some? ==> 0 <= index.value < |those|)
             && |l.orders[id].items| == if index.None? then |those| else 1
    ensures IsCanceled(l, Remove(l, id, productId, index, catalog), id, catalog)
  {
    ChosenMeaning(l.orders[id].items, productId, index);
    CancelExactlyWhen(l, id, false, catalog);
    assert Remove(l, id, productId, index, catalog) == Cancel(l, id, false, catalog);
  }

  /** A removal takes out the unit asked for, or all units of the product; the last units of an order without
      extras cancel it. */
  lemma RemoveExactlyWhen(l: Ledger, id: nat, productId: nat, index: Option<int>, catalog: Catalog)
    ensures var after := Apply(l, RemoveOp(id, productId, index), catalog);
            if !Grants(l, id) then after == l
            else
              var o := l.orders[id];
              var those := Filter(o.items, IsOf(productId), true);
              if those == [] || (index.Some? && !(0 <= index.value < |those|)) then after == l
              else if o.extras == 0 && |o.items| == (if index.None? then |those| else 1)
              then IsCanceled(l, after, id, catalog)
              else IsReduced(l, after, id, productId, index, catalog)
  {
    if !Grants(l, id) {
      RemoveRefuses(l, id, productId, index, catalog);
    } else {
      var o := l.orders[id];
      var those := Filter(o.items, IsOf(productId), true);
      if those == [] || (index.Some? && !(0 <= index.value < |those|)) {
        RemoveRefuses(l, id, productId, index, catalog);
      } else if o.extras == 0 && |o.items| == (if index.None? then |those| else 1) {
        RemoveCancels(l, id, productId, index, catalog);
      } else {
        ChosenMeaning(o.items, productId, index);
        RemoveTakes(l, id, productId, index, catalog, ChosenLines(o.items, productId, index).value);
      }
    }
  }

  /** The steps that move no stock: an open order is moved on, an invoice locks or frees one, and a call that
      waited saves the version it read, if it is a version an order can have. */
  lemma StocklessSteps(l: Ledger, op: Operation, catalog: Catalog)
    requires op.AdvanceOp? || op.LockOp? || op.SaveOp?
    ensures var after := Apply(l, op, catalog);
            var acts := && op.id < |l.orders|
                        && match op
                           case AdvanceOp(id, status) =>
                             status != Canceled && (l.orders[id].status == Waiting || l.orders[id].status == Ready)
                           case LockOp(_, _) => true
                           case SaveOp(_, copy) => copy.status != Canceled || (copy.items == [] && copy.extras == 0);
            if !acts then after == l
            else
              && OnlyChanges(l, after, op.id) && after.levels == l.levels
              && after.orders[op.id] ==
                 match op
                 case AdvanceOp(id, status) => l.orders[id].(status := status)
                 case LockOp(id, locked) => l.orders[id].(locked := locked)
                 case SaveOp(_, copy) => copy
  {
  }
}
