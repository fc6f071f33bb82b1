/** What each content mutator does and on which orders, for all six invoice statuses (orders.service.ts). */
module InvoiceEdits {
  import opened Options
  import opened Sequences
  import opened OrderStatuses
  import opened InvoiceMapper
  import opened InvoiceLifecycle

  /** An invoice that is neither accepted nor being issued lets the order change: there is none, it was refused,
      it failed, or a credit note took it back. */
  predicate Free(status: InvoiceStatus) {
    status == NotInvoiced || status == Refused || status == Failed || status == CreditNoted
  }

  predicate Open(c: Columns) { Free(c.status) && (c.orderStatus == Waiting || c.orderStatus == Ready) }

  // ---------- Items, extras and prices ----------

  function OfProduct(productId: nat): Line -> bool { (l: Line) => IsOf(l, productId) }

  function WithId(extraId: int): Extra -> bool { (e: Extra) => e.id == extraId }

  /** What a request must refer to, apart from the state of the order and its invoice. */
  predicate Applicable(row: Row, m: Mutation) {
    match m
    case ReplaceItems(_, _, base) => base.Some? ==> base.value == |row.items|
    case AppendItems(items, extras) => items != [] || extras != []
    case RemoveItems(productId, index) =>
      var those := Filter(row.items, OfProduct(productId), true);
      those != [] && (index.Some? ==> 0 <= index.value < |those|)
    case SetUnitPrice(productId, price) => Filter(row.items, OfProduct(productId), true) != [] && price >= 0
    case AddExtra(_) => true
    case DeleteExtra(extraId) => Filter(row.extras, WithId(extraId), true) != []
    case UpdateExtra(extraId, _, _, _, _) => Filter(row.extras, WithId(extraId), true) != []
    case UpdateGeneral(_) => false
    case BackfillUnitPrices => false
  }

  predicate IsEmptied(row: Row, after: Row) {
    && after.items == [] && after.extras == [] && after.columns.orderStatus == Canceled
    && after.columns.(orderStatus := row.columns.orderStatus) == row.columns
  }

  /** Back to the kitchen, with nothing else changed in the columns. */
  predicate IsWaiting(row: Row, after: Row) {
    && after.columns.orderStatus == Waiting
    && after.columns.(orderStatus := row.columns.orderStatus) == row.columns
  }

  /** Each line of the product has the price, and every other line is as it was. */
  predicate Priced(items: seq<Line>, after: seq<Line>, productId: nat, price: int) {
    && |after| == |items|
    && forall i :: 0 <= i < |items| ==>
         && after[i].productId == items[i].productId && after[i].note == items[i].note
         && after[i].unitPrice == if items[i].productId == productId then Some(price) else items[i].unitPrice
  }

  predicate Given<T(==)>(o: Option<T>, was: T, now: T) { now == if o.Some? then o.value else was }

  predicate Retitled(extras: seq<Extra>, after: seq<Extra>, m: Mutation)
    requires m.UpdateExtra?
  {
    && |after| == |extras|
    && forall i :: 0 <= i < |extras| ==>
         var e, f := extras[i], after[i];
         if e.id == m.extraId
         then f.id == e.id && Given(m.title, e.title, f.title) && Given(m.amount, e.amount, f.amount)
              && Given(m.quantity, e.quantity, f.quantity) && Given(m.description, e.description, f.description)
         else f == e
  }

  /** What the request promises. Lines deleted from an order past cooking come back with its save. */
  ghost predicate Edited(row: Row, m: Mutation, after: Row)
    requires Applicable(row, m)
  {
    match m
    case ReplaceItems(items, extras, _) =>
      if |items| + |extras| + |row.extras| == 0 then IsEmptied(row, after)
      else
        && IsWaiting(row, after) && after.extras == row.extras + extras
        && after.items == if row.columns.orderStatus == Ready then row.items + items else items
    case AppendItems(items, extras) =>
      IsWaiting(row, after) && after.items == row.items + items && after.extras == row.extras + extras
    case RemoveItems(productId, index) =>
      var those := |Filter(row.items, OfProduct(productId), true)|;
      if row.extras == [] && |row.items| == (if index.None? then those else 1) then IsEmptied(row, after)
      else
        && IsWaiting(row, after) && after.extras == row.extras
        && if row.columns.orderStatus == Ready then after.items == row.items
           else exists gone :: TakesOut(row.items, after.items, gone, OfProduct(productId), index)
    case SetUnitPrice(productId, price) =>
      && after.columns == row.columns && after.extras == row.extras
      && Priced(row.items, after.items, productId, price)
    case AddExtra(extra) => after == row.(extras := row.extras + [extra])
    case DeleteExtra(extraId) =>
      && after.columns == row.columns && after.items == row.items
      && after.extras == Filter(row.extras, WithId(extraId), false)
    case UpdateExtra(_, _, _, _, _) =>
      after.columns == row.columns && after.items == row.items && Retitled(row.extras, after.extras, m)
  }

  lemma {:induction false} SomeAreChosen<T>(s: seq<T>, p: T -> bool)
    ensures Filter(s, p, true) != [] <==> exists x <- s :: p(x)
    decreases |s|
  {
    if s != [] {
      SomeAreChosen(s[..|s| - 1], p);
      assert s == s[..|s| - 1] + [s[|s| - 1]];
    }
  }

  lemma RemovalMeaning(row: Row, productId: nat, index: Option<int>)
    ensures var those, gone := Filter(row.items, OfProduct(productId), true), Removed(row.items, productId, index);
            && (gone.Some? <==> those != [] && (index.Some? ==> 0 <= index.value < |those|))
            && (gone.Some? ==> |gone.value| == if index.None? then |those| else 1)
            && |those| <= |row.items|
            && (gone.Some? ==>
                  TakesOut(row.items, Pick(row.items, gone.value, true), Pick(row.items, gone.value, false),
                      OfProduct(productId), index))
  {
    var p := (l: Line) => IsOf(l, productId);
    SameChoice(row.items, p, OfProduct(productId), true);
    TakenOutExactlyWhen(row.items, OfProduct(productId), index);
    PositionsMeaning(row.items, OfProduct(productId));
    FilterSizes(row.items, OfProduct(productId));
  }

  lemma WithoutMeaning(extras: seq<Extra>, extraId: int)
    ensures Without(extras, extraId) == Filter(extras, WithId(extraId), false)
  {
    var p := (e: Extra) => e.id == extraId;
    PositionsMeaning(extras, p);
    PickAll(extras, Positions(extras, p), WithId(extraId), true);
  }

  /** The mutator does what it promises on an open order, and otherwise nothing. */
  ghost predicate EditsIt(row: Row, m: Mutation, after: Row) {
    if Open(row.columns) && Applicable(row, m) then Edited(row, m, after) else after == row
  }

  lemma RemovesExactlyWhen(row: Row, menu: Menu, productId: nat, index: Option<int>)
    ensures EditsIt(row, RemoveItems(productId, index), Mutated(row, menu, RemoveItems(productId, index)))
  {
    RemovalMeaning(row, productId, index);
    if !Open(row.columns) || !Applicable(row, RemoveItems(productId, index)) {
      assert Mutated(row, menu, RemoveItems(productId, index)) == row;
    }
  }

  lemma PricesExactlyWhen(row: Row, menu: Menu, productId: nat, price: int)
    ensures EditsIt(row, SetUnitPrice(productId, price), Mutated(row, menu, SetUnitPrice(productId, price)))
  {
    SomeAreChosen(row.items, OfProduct(productId));
  }

  lemma ExtrasExactlyWhen(row: Row, menu: Menu, m: Mutation)
    requires m.DeleteExtra? || m.UpdateExtra?
    ensures EditsIt(row, m, Mutated(row, menu, m))
  {
    SomeAreChosen(row.extras, WithId(m.extraId));
    WithoutMeaning(row.extras, m.extraId);
  }

  lemma AddsExactlyWhen(row: Row, menu: Menu, m: Mutation)
    requires m.ReplaceItems? || m.AppendItems? || m.AddExtra?
    ensures EditsIt(row, m, Mutated(row, menu, m))
  {
  }

  /** Each of these mutators does what it promises exactly on open orders, and otherwise nothing. */
  lemma EditsExactlyWhen(row: Row, menu: Menu, m: Mutation)
    requires !m.UpdateGeneral? && !m.BackfillUnitPrices?
    ensures EditsIt(row, m, Mutated(row, menu, m))
  {
    match m
    case RemoveItems(productId, index) => RemovesExactlyWhen(row, menu, productId, index);
    case SetUnitPrice(productId, price) => PricesExactlyWhen(row, menu, productId, price);
    case DeleteExtra(_) => ExtrasExactlyWhen(row, menu, m);
    case UpdateExtra(_, _, _, _, _) => ExtrasExactlyWhen(row, menu, m);
    case ReplaceItems(_, _, _) => AddsExactlyWhen(row, menu, m);
    case AppendItems(_, _) => AddsExactlyWhen(row, menu, m);
    case AddExtra(_) => AddsExactlyWhen(row, menu, m);
  }

  /** The backfill looks at neither status: it writes the menu price into every line that has none. */
  lemma BackfillMeaning(row: Row, menu: Menu)
    ensures var after := Mutated(row, menu, BackfillUnitPrices);
            && after.columns == row.columns && after.extras == row.extras && |after.items| == |row.items|
            && forall i :: 0 <= i < |row.items| ==>
                 var was, now := row.items[i], after.items[i];
                 && now.productId == was.productId && now.note == was.note
                 && now.unitPrice == if was.unitPrice.None? && was.productId in menu
                                     then Some(menu[was.productId].price) else was.unitPrice
  {
  }

  // ---------- The general update ----------

  /** The request completes a linked table together with its group. */
  predicate ClosesGroup(c: Columns, g: General) {
    && g.orderStatus == Some(Completed) && g.linkedTable && !c.isDelivery
    && (c.orderStatus == Waiting || c.orderStatus == Ready)
  }

  /** A request for customer data, order type or fee is refused while the invoice is accepted or pending; one
      for another status, the type or the fee is refused once the order is completed. */
  predicate Accepts(c: Columns, g: General) {
    && g.orderStatus != Some(Canceled)
    && (g.customer || g.isDelivery.Some? || g.deliveryFee.Some? ==> Free(c.status))
    && (c.orderStatus == Completed ==>
          g.isDelivery.None? && g.deliveryFee.None? && (g.orderStatus.Some? ==> g.orderStatus == Some(Completed)))
    && c.orderStatus != Canceled
  }

  /** The fee changes only together with the type: set with a delivery, cleared with anything else. */
  lemma GeneralExactlyWhen(row: Row, menu: Menu, g: General)
    ensures var c, after := row.columns, Mutated(row, menu, UpdateGeneral(g));
            && after.items == row.items && after.extras == row.extras
            && after.columns.status == c.status && after.columns.number == c.number
            && after.columns.creditNote == c.creditNote
            && (ClosesGroup(c, g) ==> after.columns.orderStatus == Completed)
            && (!ClosesGroup(c, g) && Accepts(c, g) ==>
                  && Given(g.orderStatus, c.orderStatus, after.columns.orderStatus)
                  && Given(g.isDelivery, c.isDelivery, after.columns.isDelivery))
            && (!ClosesGroup(c, g) && !Accepts(c, g) ==> after == row)
            && (after.columns.isDelivery == c.isDelivery && after.columns.deliveryFee == c.deliveryFee <==>
                  || ClosesGroup(c, g) || !Accepts(c, g) || g.isDelivery.None?
                  || (g.isDelivery == Some(c.isDelivery)
                      && if c.isDelivery then g.deliveryFee.None? || g.deliveryFee == Some(c.deliveryFee)
                         else c.deliveryFee == 0))
            && (!ClosesGroup(c, g) && Accepts(c, g) && g.isDelivery.Some? ==>
                  if g.isDelivery.value then Given(g.deliveryFee, c.deliveryFee, after.columns.deliveryFee)
                  else after.columns.deliveryFee == 0)
  {
  }
}
