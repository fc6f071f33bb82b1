/** Building the invoice and the credit note of an order (factus-invoice.mapper.ts). */
module InvoiceMapper {
  import opened Options
  import opened Sequences
  import opened InvoiceMoney

  // ---------- Orders as the mapper reads them ----------

  datatype Product = Product(code: int, name: string, price: int)

  /** `unitPrice` is the price stored with the item; the note is already trimmed. */
  datatype OrderItem = OrderItem(product: Option<Product>, unitPrice: Option<int>, note: string)

  datatype Extra = Extra(id: int, title: string, amount: int, quantity: nat, description: string)

  datatype Content = Content(items: seq<OrderItem>, extras: seq<Extra>, deliveryFee: int, isDelivery: bool)

  // ---------- Bill items ----------

  /** `code_reference`: the product code, EXTRA- and an id, or DELIVERY. */
  datatype Reference = OfProduct(code: int) | OfExtra(id: int) | OfDelivery

  datatype BillItem = BillItem(codeReference: Reference, name: string, quantity: nat, price: int, note: string,
      taxes: seq<Tax>)

  function ToBillItem(codeReference: Reference, name: string, quantity: nat, grossUnit: int, note: string,
      config: TaxConfig): BillItem {
    BillItem(codeReference, name, quantity, NetPrice(grossUnit, config), note, config.taxes)
  }

  // ---------- Totals ----------

  function LineTax(lineNet: int, taxes: seq<Tax>): int {
    if taxes == [] then 0
    else LineTax(lineNet, taxes[..|taxes| - 1])
         + var t := taxes[|taxes| - 1]; if Applies(t) then Round(lineNet * t.rate, SCALE) else 0
  }

  function LineTotal(item: BillItem): int {
    var lineNet := item.quantity * item.price;
    lineNet + LineTax(lineNet, item.taxes)
  }

  function Total(items: seq<BillItem>): int {
    if items == [] then 0 else Total(items[..|items| - 1]) + LineTotal(items[|items| - 1])
  }

  /** `factusInvoiceTotalFromItems`. Quantities are whole units, so quantity times price is already in cents. */
  method InvoiceTotalFromItems(items: seq<BillItem>) returns (sum: int)
    ensures sum == Total(items)
  {
    sum := 0;
    for k := 0 to |items|
      invariant sum == Total(items[..k])
    {
      assert items[..k + 1][..k] == items[..k];
      var i := items[k];
      var lineNet := i.quantity * i.price;
      var tax := 0;
      for j := 0 to |i.taxes|
        invariant tax == LineTax(lineNet, i.taxes[..j])
      {
        assert i.taxes[..j + 1][..j] == i.taxes[..j];
        if Applies(i.taxes[j]) { tax := tax + Round(lineNet * i.taxes[j].rate, SCALE); }
      }
      assert i.taxes[..|i.taxes|] == i.taxes;
      sum := sum + lineNet + tax;
    }
    assert items[..|items|] == items;
  }

  /** A tax adds the rounded part of the line, unless it is excluded or not positive: then it adds nothing. */
  lemma {:induction false} TaxAddsItsPart(lineNet: int, taxes: seq<Tax>, k: nat)
    requires k < |taxes|
    ensures LineTax(lineNet, taxes) == LineTax(lineNet, RemoveAt(taxes, k)) +
        if taxes[k].isExcluded || taxes[k].rate <= 0 then 0 else Round(lineNet * taxes[k].rate, SCALE)
    decreases |taxes|
  {
    var n := |taxes| - 1;
    if k < n {
      TaxAddsItsPart(lineNet, taxes[..n], k);
      RemoveBeforeLast(taxes, k);
      assert RemoveAt(taxes, k)[..n - 1] == RemoveAt(taxes[..n], k);
    } else {
      assert RemoveAt(taxes, k) == taxes[..n];
    }
  }

  // ---------- Grouping the items ----------

  /** Items with the same code, unit price and note share a line. */
  datatype Key = Key(code: int, unit: int, note: string)

  datatype Group = Group(key: Key, name: string, qty: nat)

  function UnitOf(item: OrderItem): int
    requires item.product.Some?
  {
    if item.unitPrice.Some? then item.unitPrice.value else item.product.value.price
  }

  function KeyOf(item: OrderItem): Key
    requires item.product.Some?
  {
    Key(item.product.value.code, UnitOf(item), item.note)
  }

  /** Units and money of the items that have a product. */
  function Units(items: seq<OrderItem>): nat {
    if items == [] then 0 else Units(items[..|items| - 1]) + if items[|items| - 1].product.Some? then 1 else 0
  }

  function Gross(items: seq<OrderItem>): int {
    if items == [] then 0
    else Gross(items[..|items| - 1]) + var i := items[|items| - 1]; if i.product.Some? then UnitOf(i) else 0
  }

  /** How many items have this key. */
  function Count(items: seq<OrderItem>, key: Key): nat {
    if items == [] then 0
    else Count(items[..|items| - 1], key)
         + var i := items[|items| - 1]; if i.product.Some? && KeyOf(i) == key then 1 else 0
  }

  function GroupUnits(groups: seq<Group>): nat {
    if groups == [] then 0 else GroupUnits(groups[..|groups| - 1]) + groups[|groups| - 1].qty
  }

  function GroupGross(groups: seq<Group>): int {
    if groups == [] then 0
    else GroupGross(groups[..|groups| - 1]) + groups[|groups| - 1].qty * groups[|groups| - 1].key.unit
  }

  function IndexOf(groups: seq<Group>, key: Key): (k: nat)
    ensures k <= |groups|
    ensures k < |groups| ==> groups[k].key == key
    ensures forall i :: 0 <= i < k ==> groups[i].key != key
  {
    if groups == [] then 0 else if groups[0].key == key then 0 else 1 + IndexOf(groups[1..], key)
  }

  function AddItem(groups: seq<Group>, item: OrderItem): seq<Group> {
    if item.product.None? then groups
    else
      var k := IndexOf(groups, KeyOf(item));
      if k < |groups| then groups[k := groups[k].(qty := groups[k].qty + 1)]
      else groups + [Group(KeyOf(item), item.product.value.name, 1)]
  }

  /** The content of the grouping map, in insertion order. */
  function Grouping(items: seq<OrderItem>): seq<Group> {
    if items == [] then [] else AddItem(Grouping(items[..|items| - 1]), items[|items| - 1])
  }

  lemma {:induction false} GroupSumsUpdate(groups: seq<Group>, k: nat)
    requires k < |groups|
    ensures var after := groups[k := groups[k].(qty := groups[k].qty + 1)];
            GroupUnits(after) == GroupUnits(groups) + 1 && GroupGross(after) == GroupGross(groups) + groups[k].key.unit
    decreases |groups|
  {
    var n := |groups| - 1;
    var after := groups[k := groups[k].(qty := groups[k].qty + 1)];
    if k < n {
      GroupSumsUpdate(groups[..n], k);
      assert after[..n] == groups[..n][k := groups[k].(qty := groups[k].qty + 1)];
    } else {
      assert after[..n] == groups[..n];
      assert (groups[n].qty + 1) * groups[n].key.unit == groups[n].qty * groups[n].key.unit + groups[n].key.unit;
    }
  }

  lemma AddItemConserves(groups: seq<Group>, item: OrderItem)
    ensures GroupUnits(AddItem(groups, item)) == GroupUnits(groups) + if item.product.Some? then 1 else 0
    ensures GroupGross(AddItem(groups, item)) == GroupGross(groups) + if item.product.Some? then UnitOf(item) else 0
  {
    if item.product.Some? {
      var k := IndexOf(groups, KeyOf(item));
      if k < |groups| {
        GroupSumsUpdate(groups, k);
      } else {
        assert AddItem(groups, item)[..|groups|] == groups;
      }
    }
  }

  /** Grouping conserves units and money, item by item. */
  lemma {:induction false} GroupingConserves(items: seq<OrderItem>)
    ensures GroupUnits(Grouping(items)) == Units(items)
    ensures GroupGross(Grouping(items)) == Gross(items)
    decreases |items|
  {
    if items != [] {
      var n := |items| - 1;
      GroupingConserves(items[..n]);
      AddItemConserves(Grouping(items[..n]), items[n]);
    }
  }

  predicate DistinctKeys(groups: seq<Group>) {
    forall i, j :: 0 <= i < j < |groups| ==> groups[i].key != groups[j].key
  }

  /** The count a group map holds for a key. */
  function QtyOf(groups: seq<Group>, key: Key): nat {
    var k := IndexOf(groups, key);
    if k < |groups| then groups[k].qty else 0
  }

  lemma IndexOfUnique(groups: seq<Group>, k: nat)
    requires DistinctKeys(groups) && k < |groups|
    ensures IndexOf(groups, groups[k].key) == k
  {
  }

  lemma AddItemCounts(groups: seq<Group>, item: OrderItem, key: Key)
    requires DistinctKeys(groups)
    ensures DistinctKeys(AddItem(groups, item))
    ensures QtyOf(AddItem(groups, item), key) ==
            QtyOf(groups, key) + if item.product.Some? && KeyOf(item) == key then 1 else 0
  {
    if item.product.Some? {
      var after := AddItem(groups, item);
      var i, j := IndexOf(groups, key), IndexOf(groups, KeyOf(item));
      assert forall x :: 0 <= x < |groups| ==> after[x].key == groups[x].key;
      if i < |groups| {
        IndexOfUnique(after, i);
      } else if KeyOf(item) == key {
        IndexOfUnique(after, j);
      } else {
        assert forall x :: 0 <= x < |after| ==> after[x].key != key;
      }
    }
  }

  /** Each key has at most one group, and it counts exactly the items with that key. */
  lemma {:induction false} GroupingCounts(items: seq<OrderItem>, key: Key)
    ensures DistinctKeys(Grouping(items)) && QtyOf(Grouping(items), key) == Count(items, key)
    decreases |items|
  {
    if items != [] {
      var n := |items| - 1;
      GroupingCounts(items[..n], key);
      AddItemCounts(Grouping(items[..n]), items[n], key);
    }
  }

  // ---------- The three kinds of lines ----------

  function GroupLine(g: Group, config: TaxConfig): BillItem {
    ToBillItem(OfProduct(g.key.code), g.name, g.qty, g.key.unit, g.key.note, config)
  }

  function ExtraLine(e: Extra, config: TaxConfig): BillItem {
    ToBillItem(OfExtra(e.id), e.title, e.quantity, e.amount, e.description, config)
  }

  function GroupLines(groups: seq<Group>, config: TaxConfig): seq<BillItem> {
    if groups == [] then [] else GroupLines(groups[..|groups| - 1], config) + [GroupLine(groups[|groups| - 1], config)]
  }

  function ExtraLines(extras: seq<Extra>, config: TaxConfig): seq<BillItem> {
    if extras == [] then [] else ExtraLines(extras[..|extras| - 1], config) + [ExtraLine(extras[|extras| - 1], config)]
  }

  function DeliveryLines(content: Content, config: TaxConfig): seq<BillItem> {
    if content.deliveryFee <= 0 || !content.isDelivery then []
    else [ToBillItem(OfDelivery, "Domicilio", 1, content.deliveryFee, "", config)]
  }

  /** The item list of both the invoice and the credit note. */
  function AllLines(content: Content, config: TaxConfig): seq<BillItem> {
    GroupLines(Grouping(content.items), config) + DeliveryLines(content, config) + ExtraLines(content.extras, config)
  }

  method GroupItems(items: seq<OrderItem>) returns (grouped: seq<Group>)
    ensures grouped == Grouping(items)
  {
    grouped := [];
    for n := 0 to |items|
      invariant grouped == Grouping(items[..n])
    {
      assert items[..n + 1][..n] == items[..n];
      var item := items[n];
      if item.product.None? { continue; }
      var key := KeyOf(item);
      var prev := IndexOf(grouped, key);
      if prev < |grouped| {
        grouped := grouped[prev := grouped[prev].(qty := grouped[prev].qty + 1)];
      } else {
        grouped := grouped + [Group(key, item.product.value.name, 1)];
      }
    }
    assert items[..|items|] == items;
  }

  method MapItems(items: seq<OrderItem>, config: TaxConfig) returns (lines: seq<BillItem>)
    ensures lines == GroupLines(Grouping(items), config)
  {
    var grouped := GroupItems(items);
    lines := [];
    for n := 0 to |grouped|
      invariant lines == GroupLines(grouped[..n], config)
    {
      assert grouped[..n + 1][..n] == grouped[..n];
      var g := grouped[n];
      var net := NetUnitPrice(g.key.unit, config);
      lines := lines + [BillItem(OfProduct(g.key.code), g.name, g.qty, net, g.key.note, config.taxes)];
    }
    assert grouped[..|grouped|] == grouped;
  }

  /** Items, payment amount; customer and references carry no arithmetic and are not modelled. */
  datatype Document = Document(lines: seq<BillItem>, total: int)

  function DocumentOf(content: Content, config: TaxConfig): Document {
    Document(AllLines(content, config), Total(AllLines(content, config)))
  }

  /** `buildValidatePayload` and, for the credit note, `buildCreditNotePayload`. */
  method BuildDocument(content: Content, config: TaxConfig) returns (d: Document)
    ensures d == DocumentOf(content, config)
  {
    var itemLines := MapItems(content.items, config);
    var lines := itemLines + DeliveryLines(content, config) + ExtraLines(content.extras, config);
    var total := InvoiceTotalFromItems(lines);
    return Document(lines, total);
  }

  // ---------- Distance between the invoice and the menu prices ----------

  function AppliedCount(taxes: seq<Tax>): nat {
    if taxes == [] then 0 else AppliedCount(taxes[..|taxes| - 1]) + if Applies(taxes[|taxes| - 1]) then 1 else 0
  }

  lemma {:induction false} LineTaxError(lineNet: int, taxes: seq<Tax>)
    ensures var error := LineTax(lineNet, taxes) * SCALE - lineNet * CombinedRate(taxes);
            -(AppliedCount(taxes) * SCALE) <= 2 * error <= AppliedCount(taxes) * SCALE
    decreases |taxes|
  {
    if taxes != [] {
      var n := |taxes| - 1;
      LineTaxError(lineNet, taxes[..n]);
      TaxStep(lineNet, CombinedRate(taxes[..n]), taxes[n]);
    }
  }

  lemma TaxStep(lineNet: int, rate: int, t: Tax)
    ensures Applies(t) ==> -SCALE <= 2 * (Round(lineNet * t.rate, SCALE) * SCALE - lineNet * t.rate) <= SCALE
    ensures lineNet * (rate + t.rate) == lineNet * rate + lineNet * t.rate
  {
    RoundNearest(lineNet * t.rate, SCALE, Round(lineNet * t.rate, SCALE));
  }

  /** Twice the rounding error of `total` against `gross`, in units of 1/SCALE cent, is at most `bound`. */
  predicate Within(total: int, gross: int, bound: int) {
    -bound <= 2 * SCALE * (total - gross) <= bound
  }

  /** Room for one line: half a cent per unit before and after tax, half a cent per tax. */
  function LineBound(q: nat, config: TaxConfig): nat {
    q * (SCALE + CombinedRate(config.taxes)) + AppliedCount(config.taxes) * SCALE
  }

  function LinesBound(lines: seq<BillItem>, config: TaxConfig): nat {
    if lines == [] then 0 else LinesBound(lines[..|lines| - 1], config) + LineBound(lines[|lines| - 1].quantity, config)
  }

  /** A line made by `toFactusBillItem` from a gross unit price. */
  predicate Priced(item: BillItem, unit: int, config: TaxConfig) {
    item.price == NetPrice(unit, config) && item.taxes == config.taxes
  }

  lemma LineError(unit: int, config: TaxConfig, item: BillItem)
    requires config.pricesIncludeTax && CombinedRate(config.taxes) > 0 && Priced(item, unit, config)
    ensures Within(LineTotal(item), item.quantity * unit, LineBound(item.quantity, config))
  {
    var rate := CombinedRate(config.taxes);
    NetPriceError(unit, rate);
    LineTaxError(item.quantity * item.price, config.taxes);
    Scale(item.quantity, item.price * (SCALE + rate) - unit * SCALE, SCALE + rate);
    Distribute(item.quantity, item.price, unit, rate);
  }

  lemma Distribute(q: int, net: int, unit: int, rate: int)
    ensures q * (net * (SCALE + rate) - unit * SCALE) == (q * net) * SCALE + (q * net) * rate - (q * unit) * SCALE
  {
    assert net * (SCALE + rate) == net * SCALE + net * rate;
    assert q * (net * rate) == (q * net) * rate;
  }

  lemma Scale(q: nat, e: int, b: int)
    requires -b <= 2 * e <= b
    ensures -(q * b) <= 2 * (q * e) <= q * b
  {
    ProductNonNegative(q, b - 2 * e);
    ProductNonNegative(q, b + 2 * e);
    assert q * (b - 2 * e) == q * b - 2 * (q * e) && q * (b + 2 * e) == q * b + 2 * (q * e);
  }

  /** One more line: its error and its room join those of the lines before it. */
  lemma LineJoins(lines: seq<BillItem>, gross: int, item: BillItem, unit: int, config: TaxConfig)
    requires config.pricesIncludeTax && CombinedRate(config.taxes) > 0 && Priced(item, unit, config)
    requires Within(Total(lines), gross, LinesBound(lines, config))
    ensures Within(Total(lines + [item]), gross + item.quantity * unit, LinesBound(lines + [item], config))
  {
    LineError(unit, config, item);
    assert (lines + [item])[..|lines|] == lines;
  }

  lemma {:induction false} GroupLinesError(groups: seq<Group>, config: TaxConfig)
    requires config.pricesIncludeTax && CombinedRate(config.taxes) > 0
    ensures Within(Total(GroupLines(groups, config)), GroupGross(groups),
        LinesBound(GroupLines(groups, config), config))
    decreases |groups|
  {
    if groups != [] {
      var n := |groups| - 1;
      GroupLinesError(groups[..n], config);
      LineJoins(GroupLines(groups[..n], config), GroupGross(groups[..n]), GroupLine(groups[n], config),
          groups[n].key.unit, config);
    }
  }

  function ExtraUnits(extras: seq<Extra>): nat {
    if extras == [] then 0 else ExtraUnits(extras[..|extras| - 1]) + extras[|extras| - 1].quantity
  }

  function ExtraGross(extras: seq<Extra>): int {
    if extras == [] then 0
    else ExtraGross(extras[..|extras| - 1]) + extras[|extras| - 1].quantity * extras[|extras| - 1].amount
  }

  lemma {:induction false} ExtraLinesError(extras: seq<Extra>, config: TaxConfig)
    requires config.pricesIncludeTax && CombinedRate(config.taxes) > 0
    ensures Within(Total(ExtraLines(extras, config)), ExtraGross(extras),
        LinesBound(ExtraLines(extras, config), config))
    decreases |extras|
  {
    if extras != [] {
      var n := |extras| - 1;
      ExtraLinesError(extras[..n], config);
      LineJoins(ExtraLines(extras[..n], config), ExtraGross(extras[..n]), ExtraLine(extras[n], config),
          extras[n].amount, config);
    }
  }

  lemma {:induction false} TotalConcat(a: seq<BillItem>, b: seq<BillItem>)
    ensures Total(a + b) == Total(a) + Total(b)
    decreases |b|
  {
    if b == [] {
      assert a + b == a;
    } else {
      var n := |b| - 1;
      TotalConcat(a, b[..n]);
      assert (a + b)[..|a| + n] == a + b[..n];
    }
  }

  function BilledFee(content: Content): nat {
    if content.deliveryFee <= 0 || !content.isDelivery then 0 else content.deliveryFee
  }

  /** What the customer is charged at menu prices. */
  function MenuTotal(content: Content): int {
    Gross(content.items) + BilledFee(content) + ExtraGross(content.extras)
  }

  function MenuUnits(content: Content): nat {
    Units(content.items) + (if BilledFee(content) > 0 then 1 else 0) + ExtraUnits(content.extras)
  }

  lemma {:induction false} BoundConcat(a: seq<BillItem>, b: seq<BillItem>, config: TaxConfig)
    ensures LinesBound(a + b, config) == LinesBound(a, config) + LinesBound(b, config)
    decreases |b|
  {
    if b == [] {
      assert a + b == a;
    } else {
      var n := |b| - 1;
      BoundConcat(a, b[..n], config);
      assert (a + b)[..|a| + n] == a + b[..n];
    }
  }

  function Quantities(lines: seq<BillItem>): nat {
    if lines == [] then 0 else Quantities(lines[..|lines| - 1]) + lines[|lines| - 1].quantity
  }

  lemma {:induction false} BoundClosedForm(lines: seq<BillItem>, config: TaxConfig)
    ensures LinesBound(lines, config) ==
            Quantities(lines) * (SCALE + CombinedRate(config.taxes)) + |lines| * (AppliedCount(config.taxes) * SCALE)
    decreases |lines|
  {
    if lines != [] {
      var n := |lines| - 1;
      BoundClosedForm(lines[..n], config);
      ClosedFormStep(Quantities(lines[..n]), lines[n].quantity, n, SCALE + CombinedRate(config.taxes),
          AppliedCount(config.taxes) * SCALE);
    }
  }

  lemma ClosedFormStep(q: int, r: int, n: int, a: int, b: int)
    ensures (q + r) * a + (n + 1) * b == q * a + n * b + (r * a + b)
  {
  }

  lemma DeliveryLinesError(content: Content, config: TaxConfig)
    requires config.pricesIncludeTax && CombinedRate(config.taxes) > 0
    ensures Within(Total(DeliveryLines(content, config)), BilledFee(content),
        LinesBound(DeliveryLines(content, config), config))
  {
    var b := DeliveryLines(content, config);
    if b != [] {
      LineError(content.deliveryFee, config, b[0]);
      assert b[..0] == [];
    }
  }

  lemma ConcatWithin(a: seq<BillItem>, ga: int, b: seq<BillItem>, gb: int, config: TaxConfig)
    requires Within(Total(a), ga, LinesBound(a, config)) && Within(Total(b), gb, LinesBound(b, config))
    ensures Within(Total(a + b), ga + gb, LinesBound(a + b, config))
  {
    TotalConcat(a, b);
    BoundConcat(a, b, config);
  }

  /** The error of a part of an invoice is within its room. */
  predicate PartWithin(lines: seq<BillItem>, gross: int, config: TaxConfig) {
    Within(Total(lines), gross, LinesBound(lines, config))
  }

  lemma PartsWithin(content: Content, config: TaxConfig)
    requires config.pricesIncludeTax && CombinedRate(config.taxes) > 0
    ensures PartWithin(GroupLines(Grouping(content.items), config), Gross(content.items), config)
    ensures PartWithin(DeliveryLines(content, config), BilledFee(content), config)
    ensures PartWithin(ExtraLines(content.extras, config), ExtraGross(content.extras), config)
  {
    GroupingConserves(content.items);
    GroupLinesError(Grouping(content.items), config);
    DeliveryLinesError(content, config);
    ExtraLinesError(content.extras, config);
  }

  lemma ThreeParts(a: seq<BillItem>, ga: int, b: seq<BillItem>, gb: int, c: seq<BillItem>, gc: int, config: TaxConfig)
    requires PartWithin(a, ga, config) && PartWithin(b, gb, config) && PartWithin(c, gc, config)
    ensures PartWithin(a + b + c, ga + gb + gc, config)
  {
    ConcatWithin(a, ga, b, gb, config);
    ConcatWithin(a + b, ga + gb, c, gc, config);
  }

  lemma AllLinesWithin(content: Content, config: TaxConfig)
    requires config.pricesIncludeTax && CombinedRate(config.taxes) > 0
    ensures PartWithin(AllLines(content, config), MenuTotal(content), config)
  {
    PartsWithin(content, config);
    ThreeParts(GroupLines(Grouping(content.items), config), Gross(content.items), DeliveryLines(content, config),
        BilledFee(content),
               ExtraLines(content.extras, config), ExtraGross(content.extras), config);
  }

  /** The whole invoice is off the menu total by at most (units (1 + rate) + lines x taxes) / 2 cents. */
  lemma InvoiceWithinBound(content: Content, config: TaxConfig)
    requires config.pricesIncludeTax && CombinedRate(config.taxes) > 0
    ensures var lines, rate, taxes := AllLines(content, config), CombinedRate(config.taxes), AppliedCount(config.taxes);
            Within(Total(lines), MenuTotal(content), MenuUnits(content) * (SCALE + rate) + |lines| * (taxes * SCALE))
  {
    AllLinesWithin(content, config);
    BoundClosedForm(AllLines(content, config), config);
    InvoiceConservesUnits(content, config);
  }

  lemma {:induction false} QuantitiesConcat(a: seq<BillItem>, b: seq<BillItem>)
    ensures Quantities(a + b) == Quantities(a) + Quantities(b)
    decreases |b|
  {
    if b == [] {
      assert a + b == a;
    } else {
      var n := |b| - 1;
      QuantitiesConcat(a, b[..n]);
      assert (a + b)[..|a| + n] == a + b[..n];
    }
  }

  lemma QuantitiesSnoc(lines: seq<BillItem>, item: BillItem)
    ensures Quantities(lines + [item]) == Quantities(lines) + item.quantity
  {
    assert (lines + [item])[..|lines|] == lines;
  }

  lemma {:induction false} GroupQuantities(groups: seq<Group>, config: TaxConfig)
    ensures Quantities(GroupLines(groups, config)) == GroupUnits(groups)
    decreases |groups|
  {
    if groups != [] {
      var n := |groups| - 1;
      GroupQuantities(groups[..n], config);
      QuantitiesSnoc(GroupLines(groups[..n], config), GroupLine(groups[n], config));
    }
  }

  lemma {:induction false} ExtraQuantities(extras: seq<Extra>, config: TaxConfig)
    ensures Quantities(ExtraLines(extras, config)) == ExtraUnits(extras)
    decreases |extras|
  {
    if extras != [] {
      var n := |extras| - 1;
      ExtraQuantities(extras[..n], config);
      QuantitiesSnoc(ExtraLines(extras[..n], config), ExtraLine(extras[n], config));
    }
  }

  /** No unit is lost or invented between the order and the invoice. */
  lemma InvoiceConservesUnits(content: Content, config: TaxConfig)
    ensures Quantities(AllLines(content, config)) == MenuUnits(content)
  {
    var groups := Grouping(content.items);
    var a, b, c := GroupLines(groups, config), DeliveryLines(content, config), ExtraLines(content.extras, config);
    GroupingConserves(content.items);
    GroupQuantities(groups, config);
    ExtraQuantities(content.extras, config);
    QuantitiesConcat(a + b, c);
    QuantitiesConcat(a, b);
    if b != [] { assert b[..0] == []; }
  }
}
