/** What the invoice of an order can rely on: exactly when an accepted invoice is frozen, and exactly when a
    cancellation lasts. */
module InvoiceGuarantees {
  import opened Options
  import opened Sequences
  import opened OrderStatuses
  import opened InvoiceMoney
  import opened InvoiceMapper
  import opened InvoiceLifecycle

  // ---------- What every run keeps ----------

  /** What a waiting call read allowed it to start. */
  predicate FlightOk(f: Flight) {
    match f
    case Issue(copy, _) => copy.columns.status == Pending
    case Note(copy, _, _, cancel) => Invoiced(copy.columns) && (cancel.Some? ==> CanCancel(copy.columns, cancel.value))
    case Query(columns) => columns.status != Accepted
    case Mail(columns) => CanMail(columns)
  }

  ghost predicate WellFormed(o: State) { forall k <- o.flights :: FlightOk(o.flights[k]) }

  lemma StepWellFormed(o: State, e: Event, config: TaxConfig)
    requires WellFormed(o)
    ensures WellFormed(Apply(o, e, config))
  {
  }

  lemma {:induction false} RunWellFormed(o: State, events: seq<Event>, config: TaxConfig)
    requires WellFormed(o)
    ensures WellFormed(ApplyAll(o, events, config))
    decreases |events|
  {
    if events != [] {
      RunWellFormed(o, events[..|events| - 1], config);
      StepWellFormed(ApplyAll(o, events[..|events| - 1], config), events[|events| - 1], config);
    }
  }

  lemma ApplyOne(o: State, e: Event, config: TaxConfig)
    ensures ApplyAll(o, [e], config) == Apply(o, e, config)
  {
    assert [e][..0] == [];
  }

  lemma ApplySnoc(o: State, events: seq<Event>, e: Event, config: TaxConfig)
    ensures ApplyAll(o, events + [e], config) == Apply(ApplyAll(o, events, config), e, config)
  {
    assert (events + [e])[..|events|] == events;
  }

  lemma Two(o: State, a: Event, b: Event, config: TaxConfig)
    ensures ApplyAll(o, [a, b], config) == Apply(Apply(o, a, config), b, config)
  {
    assert [a] + [b] == [a, b];
    ApplyOne(o, a, config);
    ApplySnoc(o, [a], b, config);
  }

  // ---------- The mutators one by one ----------

  /** The invoice and everything it is made from. */
  predicate SameInvoice(a: Row, b: Row) {
    && a.columns.status == b.columns.status && a.columns.number == b.columns.number
    && a.items == b.items && a.extras == b.extras
    && a.columns.deliveryFee == b.columns.deliveryFee && a.columns.isDelivery == b.columns.isDelivery
  }

  predicate LacksPrice(line: Line, menu: Menu) { line.unitPrice.None? && line.productId in menu }

  /** On an order whose invoice is accepted or being issued exactly one mutator changes items, extras, prices
      or fee: the backfill of missing prices, which has no guard, when a price is missing. */
  lemma MutatorsChangeExactlyWhen(row: Row, menu: Menu, m: Mutation)
    requires row.columns.status == Accepted || row.columns.status == Pending
    ensures !SameInvoice(row, Mutated(row, menu, m)) <==>
            m.BackfillUnitPrices? && exists l <- row.items :: LacksPrice(l, menu)
  {
    if m.BackfillUnitPrices? {
      var after := Map(Backfilled(menu), row.items);
      if l :| l in row.items && LacksPrice(l, menu) {
        var i :| 0 <= i < |row.items| && row.items[i] == l;
        assert after[i] != row.items[i];
      } else {
        forall i | 0 <= i < |row.items| ensures after[i] == row.items[i] {
          assert row.items[i] in row.items;
        }
        assert after == row.items;
      }
    }
  }

  /** The backfill changes no document: it stores the price the document used anyway. */
  lemma BackfillKeepsDocument(row: Row, menu: Menu, config: TaxConfig)
    ensures DocumentFor(Mutated(row, menu, BackfillUnitPrices), menu, config) == DocumentFor(row, menu, config)
  {
    SameGrouping(ContentOf(Mutated(row, menu, BackfillUnitPrices), menu).items, ContentOf(row, menu).items);
  }

  /** Item lists whose items have the same code, name, note and price to pay have the same groups. */
  predicate SameCharges(a: seq<OrderItem>, b: seq<OrderItem>) {
    && |a| == |b|
    && forall i :: 0 <= i < |a| ==>
         && a[i].product.Some? == b[i].product.Some? && a[i].note == b[i].note
         && (a[i].product.Some? ==> KeyOf(a[i]) == KeyOf(b[i]) && a[i].product.value.name == b[i].product.value.name)
  }

  lemma SameItemAdds(groups: seq<Group>, a: OrderItem, b: OrderItem)
    requires SameCharges([a], [b])
    ensures AddItem(groups, a) == AddItem(groups, b)
  {
    assert [a][0] == a && [b][0] == b;
  }

  lemma {:induction false} SameGrouping(a: seq<OrderItem>, b: seq<OrderItem>)
    requires SameCharges(a, b)
    ensures Grouping(a) == Grouping(b)
    decreases |a|
  {
    if a != [] {
      var n := |a| - 1;
      SameGrouping(a[..n], b[..n]);
      SameItemAdds(Grouping(a[..n]), a[n], b[n]);
    }
  }

  // ---------- Exactly when an accepted invoice is frozen ----------

  /** Every item stores the price it was sold at. */
  predicate PricesStored(row: Row) { forall l <- row.items :: l.unitPrice.Some? }

  /** Saving this call's copy again would leave the invoice as it is. */
  predicate Harmless(f: Flight, row: Row) {
    match f
    case Issue(_, _) => false
    case Note(copy, _, _, _) => SameInvoice(row, copy)
    case Query(_) => false
    case Mail(columns) => SameInvoice(row, row.(columns := columns))
  }

  ghost predicate AllHarmless(o: State, row: Row) { forall k <- o.flights :: Harmless(o.flights[k], row) }

  /** Neither an accepted credit note nor a cancellation that skips it. */
  predicate Quiet(e: Event) { !(e.ReplyNote? && e.accepted) && !(e.BeginCancel? && e.skipNote) }

  ghost predicate AllQuiet(events: seq<Event>) { forall e <- events :: Quiet(e) }

  lemma FrozenStep(row: Row, o: State, e: Event, config: TaxConfig)
    requires Invoiced(row.columns) && PricesStored(row) && SameInvoice(row, o.row) && AllHarmless(o, row) && Quiet(e)
    ensures SameInvoice(row, Apply(o, e, config).row) && AllHarmless(Apply(o, e, config), row)
    ensures Apply(o, e, config).billed == o.billed
  {
    if e.Mutate? { MutatorsChangeExactlyWhen(o.row, o.menu, e.mutation); }
  }

  lemma {:induction false} FrozenRun(o: State, events: seq<Event>, config: TaxConfig)
    requires Invoiced(o.row.columns) && PricesStored(o.row) && AllHarmless(o, o.row) && AllQuiet(events)
    ensures SameInvoice(o.row, ApplyAll(o, events, config).row) && AllHarmless(ApplyAll(o, events, config), o.row)
    ensures ApplyAll(o, events, config).billed == o.billed
    decreases |events|
  {
    if events != [] {
      var n := |events| - 1;
      assert events[n] in events && forall e <- events[..n] :: e in events;
      FrozenRun(o, events[..n], config);
      FrozenStep(o.row, ApplyAll(o, events[..n], config), events[n], config);
    }
  }

  /** In every continuation without an accepted credit note, the invoice and its content stay as they are. */
  ghost predicate FrozenForEver(o: State, config: TaxConfig) {
    forall events: seq<Event> | AllQuiet(events) :: SameInvoice(o.row, ApplyAll(o, events, config).row)
  }

  /** The reply that saves a waiting call's copy and nothing else. */
  function PlainReply(k: nat, f: Flight): Event {
    match f
    case Issue(_, _) => FailIssue(k)
    case Note(_, _, _, _) => ReplyNote(k, false, None)
    case Query(_) => ReplyQuery(k, None)
    case Mail(_) => ReplyMail(k)
  }

  lemma HarmStrikes(o: State, k: nat, config: TaxConfig)
    requires WellFormed(o) && Invoiced(o.row.columns) && k in o.flights && !Harmless(o.flights[k], o.row)
    ensures !FrozenForEver(o, config)
  {
    var e := PlainReply(k, o.flights[k]);
    assert FlightOk(o.flights[k]);
    ApplyOne(o, e, config);
    assert AllQuiet([e]);
    assert !SameInvoice(o.row, ApplyAll(o, [e], config).row);
  }

  lemma Thaws(o: State, events: seq<Event>, config: TaxConfig)
    requires AllQuiet(events) && !SameInvoice(o.row, ApplyAll(o, events, config).row)
    ensures !FrozenForEver(o, config)
  {
  }

  lemma MissingPriceIsFilled(o: State, line: Line, config: TaxConfig)
    requires line in o.row.items && line.unitPrice.None? && o.row.columns.status == Accepted
    ensures !FrozenForEver(o, config)
  {
    var menu := o.menu[line.productId := Product(0, "", 0)];
    var first, second := ChangeMenu(menu), Mutate(BackfillUnitPrices);
    Two(o, first, second, config);
    assert ApplyAll(o, [first, second], config).row == Mutated(o.row, menu, BackfillUnitPrices);
    assert LacksPrice(line, menu);
    MutatorsChangeExactlyWhen(o.row, menu, BackfillUnitPrices);
    assert forall e <- [first, second] :: Quiet(e);
    Thaws(o, [first, second], config);
  }

  /** An accepted invoice is frozen, whatever any number of calls do, exactly when all its items store their
      price and no call that is still waiting holds a copy with another invoice or other content. */
  lemma FrozenForEverExactlyWhen(o: State, config: TaxConfig)
    requires WellFormed(o) && Invoiced(o.row.columns)
    ensures FrozenForEver(o, config) <==> PricesStored(o.row) && AllHarmless(o, o.row)
  {
    if PricesStored(o.row) && AllHarmless(o, o.row) {
      forall events: seq<Event> | AllQuiet(events) ensures SameInvoice(o.row, ApplyAll(o, events, config).row) {
        FrozenRun(o, events, config);
      }
    }
    if line :| line in o.row.items && line.unitPrice.None? {
      MissingPriceIsFilled(o, line, config);
    }
    if k :| k in o.flights && !Harmless(o.flights[k], o.row) {
      HarmStrikes(o, k, config);
    }
  }

  /** The steps that end an accepted invoice: an accepted credit note, and the reply to another call whose copy
      is not of an accepted invoice and does not become one. */
  predicate EndsInvoice(o: State, e: Event) {
    match e
    case ReplyIssue(k, outcome) => IsIssue(o, k) && IsOutcome(outcome)
        && !(outcome.status == Accepted && outcome.number.Some?)
    case FailIssue(k) => IsIssue(o, k)
    case ReplyNote(k, accepted, _) => IsNote(o, k) && accepted
    case ReplyQuery(k, found) =>
      CanReply(o, k, found) && (found.Some? && found.value.outcome.status == Accepted ==>
                                  found.value.outcome.number.None? && o.flights[k].columns.number.None?)
    case ReplyMail(k) => IsMail(o, k) && o.flights[k].columns.status == CreditNoted
    case _ => false
  }

  /** One step of a run. */
  lemma InvoiceEndsExactlyWhen(o: State, e: Event, config: TaxConfig)
    requires WellFormed(o) && Invoiced(o.row.columns)
    ensures !Invoiced(Apply(o, e, config).row.columns) <==> EndsInvoice(o, e)
  {
    if e.Mutate? { MutatorsChangeExactlyWhen(o.row, o.menu, e.mutation); }
    if (e.ReplyQuery? || e.ReplyNote? || e.ReplyMail?) && e.call in o.flights { assert FlightOk(o.flights[e.call]); }
  }

  // ---------- Exactly when a cancellation lasts ----------

  /** The order status a call's copy would write. */
  function CopyStatus(f: Flight): OrderStatus {
    match f
    case Issue(copy, _) => copy.columns.orderStatus
    case Note(copy, _, _, _) => copy.columns.orderStatus
    case Query(columns) => columns.orderStatus
    case Mail(columns) => columns.orderStatus
  }

  ghost predicate AllCanceled(o: State) { forall k <- o.flights :: CopyStatus(o.flights[k]) == Canceled }

  ghost predicate CanceledForEver(o: State, config: TaxConfig) {
    forall events: seq<Event> :: ApplyAll(o, events, config).row.columns.orderStatus == Canceled
  }

  lemma CanceledStep(o: State, e: Event, config: TaxConfig)
    requires o.row.columns.orderStatus == Canceled && AllCanceled(o)
    ensures Apply(o, e, config).row.columns.orderStatus == Canceled && AllCanceled(Apply(o, e, config))
  {
  }

  lemma {:induction false} CanceledRun(o: State, events: seq<Event>, config: TaxConfig)
    requires o.row.columns.orderStatus == Canceled && AllCanceled(o)
    ensures ApplyAll(o, events, config).row.columns.orderStatus == Canceled && AllCanceled(ApplyAll(o, events, config))
    decreases |events|
  {
    if events != [] {
      CanceledRun(o, events[..|events| - 1], config);
      CanceledStep(ApplyAll(o, events[..|events| - 1], config), events[|events| - 1], config);
    }
  }

  /** A canceled order stays canceled in every continuation exactly when no call that is still waiting read it
      before it was canceled. */
  lemma CanceledForEverExactlyWhen(o: State, config: TaxConfig)
    requires o.row.columns.orderStatus == Canceled
    ensures CanceledForEver(o, config) <==> AllCanceled(o)
  {
    if AllCanceled(o) {
      forall events: seq<Event> ensures ApplyAll(o, events, config).row.columns.orderStatus == Canceled {
        CanceledRun(o, events, config);
      }
    } else {
      var k :| k in o.flights && CopyStatus(o.flights[k]) != Canceled;
      ApplyOne(o, PlainReply(k, o.flights[k]), config);
      assert ApplyAll(o, [PlainReply(k, o.flights[k])], config).row.columns.orderStatus != Canceled;
    }
  }

  /** So a cancellation while an issue waits for its reply is undone by the reply: the order is back with the
      status, lines and extras the issue read. */
  lemma CancelWhilePending(o: State, issue: nat, cancel: nat, force: bool, skipNote: bool, outcome: Outcome,
      config: TaxConfig)
    requires IsIssue(o, issue) && IsOutcome(outcome) && cancel !in o.flights
    requires CanCancel(o.row.columns, force) && (Invoiced(o.row.columns) ==> skipNote)
    ensures var canceled, copy := Apply(o, BeginCancel(cancel, force, skipNote), config), o.flights[issue].copy;
            && canceled.row == Emptied(o.row)
            && Apply(canceled, ReplyIssue(issue, outcome), config).row ==
               copy.(columns := copy.columns.(status := outcome.status, number := outcome.number))
  {
    assert Apply(o, BeginCancel(cancel, force, skipNote), config) == o.(row := Emptied(o.row));
  }

  // ---------- Examples of what a late reply does ----------

  /** Two issues can wait for their replies at once ... */
  lemma TwoIssuesWait(o: State, config: TaxConfig)
    requires CanIssue(o.row) && o.flights == map[]
    ensures var p := Apply(Apply(o, BeginIssue(1), config), BeginIssue(2), config); IsIssue(p, 1) && IsIssue(p, 2)
  {
  }

  /** ... and the failure of one then overwrites the acceptance of the other. */
  lemma SecondIssueOverwrites(o: State, first: nat, second: nat, number: string, config: TaxConfig)
    requires IsIssue(o, first) && IsIssue(o, second) && first != second
    ensures var p := Apply(o, ReplyIssue(first, Outcome(Accepted, Some(number))), config);
            Invoiced(p.row.columns) && Apply(p, FailIssue(second), config).row.columns.status == Failed
  {
  }

  /** A query that read the order while the invoice was pending takes the acceptance back when it finds nothing. */
  lemma StaleQueryOverwrites(o: State, issue: nat, query: nat, number: string, config: TaxConfig)
    requires IsIssue(o, issue) && query in o.flights && o.flights[query].Query?
        && o.flights[query].columns.status == Pending
    ensures var p := Apply(o, ReplyIssue(issue, Outcome(Accepted, Some(number))), config);
            Invoiced(p.row.columns) && Apply(p, ReplyQuery(query, None), config).row.columns.status == Pending
  {
  }

  /** A second credit note that is refused takes the first one back. */
  lemma RefusedNoteOverwrites(o: State, first: nat, second: nat, number: Option<string>, config: TaxConfig)
    requires WellFormed(o) && IsNote(o, first) && IsNote(o, second) && first != second
    ensures var p := Apply(o, ReplyNote(first, true, number), config);
            p.row.columns.status == CreditNoted && Invoiced(Apply(p, ReplyNote(second, false, None),
                config).row.columns)
  {
    assert FlightOk(o.flights[second]);
  }
}
