/** Credit notes of orders that store their prices, as long as no product is renamed: which steps part such an
    order from its invoice, and when a note repeats what was sent (factus.service.ts). */
module RegularInvoices {
  import opened Options
  import opened Sequences
  import opened InvoiceMoney
  import opened InvoiceMapper
  import opened InvoiceLifecycle
  import opened InvoiceGuarantees
  import opened InvoiceCredits

  // ---------- With stored prices and unrenamed products ----------

  /** The same products under the same codes and names; prices may differ. */
  ghost predicate SameNames(menu: Menu, other: Menu) {
    forall id :: (id in menu <==> id in other)
                 && (id in menu && id in other ==> menu[id].code == other[id].code && menu[id].name == other[id].name)
  }

  /** With stored prices, a new menu does not change the document of an old order. */
  lemma MenuDoesNotMatter(row: Row, menu: Menu, other: Menu, config: TaxConfig)
    requires SameNames(menu, other) && PricesStored(row)
    ensures DocumentFor(row, menu, config) == DocumentFor(row, other, config)
  {
    var a, b := ContentOf(row, menu).items, ContentOf(row, other).items;
    forall i | 0 <= i < |a|
      ensures a[i].product.Some? == b[i].product.Some? && a[i].note == b[i].note
      ensures a[i].product.Some? ==> KeyOf(a[i]) == KeyOf(b[i]) && a[i].product.value.name == b[i].product.value.name
    {
      assert row.items[i] in row.items;
    }
    SameGrouping(a, b);
  }

  /** No menu change of the run renames products. */
  ghost predicate NamesStay(menu: Menu, events: seq<Event>) {
    forall e <- events :: e.ChangeMenu? ==> SameNames(menu, e.menu)
  }

  lemma {:induction false} MenuStays(o: State, events: seq<Event>, config: TaxConfig)
    requires NamesStay(o.menu, events)
    ensures SameNames(o.menu, ApplyAll(o, events, config).menu)
    decreases |events|
  {
    if events != [] {
      var n := |events| - 1;
      assert events[n] in events && forall e <- events[..n] :: e in events;
      MenuStays(o, events[..n], config);
    }
  }

  lemma NamesJoin(menu: Menu, middle: Menu, other: Menu)
    requires SameNames(menu, middle) && SameNames(menu, other)
    ensures SameNames(middle, other)
  {
  }

  /** New lines store their price, as every caller of the mutators does for a product that exists. */
  predicate StoresPrices(e: Event) {
    e.Mutate? && (e.mutation.ReplaceItems? || e.mutation.AppendItems?) ==>
      forall l <- e.mutation.items :: l.unitPrice.Some?
  }

  /** What a waiting call sent is what its copy still makes. */
  predicate Current(f: Flight, menu: Menu, config: TaxConfig) {
    f.Issue? || f.Note? ==> PricesStored(f.copy) && f.document == DocumentFor(f.copy, menu, config)
  }

  ghost predicate Regular(o: State, config: TaxConfig) {
    PricesStored(o.row) && forall k <- o.flights :: Current(o.flights[k], o.menu, config)
  }

  lemma MapKeepsPrices(items: seq<Line>, f: Line -> Line)
    requires forall l <- items :: l.unitPrice.Some?
    requires forall l: Line :: l.unitPrice.Some? ==> f(l).unitPrice.Some?
    ensures forall l <- Map(f, items) :: l.unitPrice.Some?
  {
    forall l <- Map(f, items) ensures l.unitPrice.Some? {
      var i :| 0 <= i < |items| && Map(f, items)[i] == l;
      assert items[i] in items;
    }
  }

  lemma {:induction false} PickedAreElements<T>(s: seq<T>, chosen: seq<nat>, keep: bool)
    ensures forall x <- Pick(s, chosen, keep) :: x in s
    decreases |s|
  {
    if s != [] {
      PickedAreElements(s[..|s| - 1], chosen, keep);
      assert forall x <- s[..|s| - 1] :: x in s;
    }
  }

  lemma MutationKeepsPrices(row: Row, menu: Menu, m: Mutation)
    requires PricesStored(row) && StoresPrices(Mutate(m))
    ensures PricesStored(Mutated(row, menu, m))
  {
    if m.RemoveItems? {
      var gone := Removed(row.items, m.productId, m.unitIndex);
      if gone.Some? { PickedAreElements(row.items, gone.value, true); }
    } else if m.SetUnitPrice? {
      MapKeepsPrices(row.items, WithPrice(m.productId, m.price));
    } else if m.BackfillUnitPrices? {
      MapKeepsPrices(row.items, Backfilled(menu));
    }
  }

  lemma CurrentUnderMenu(f: Flight, menu: Menu, other: Menu, config: TaxConfig)
    requires Current(f, menu, config) && SameNames(menu, other)
    ensures Current(f, other, config)
  {
    if f.Issue? || f.Note? { MenuDoesNotMatter(f.copy, menu, other, config); }
  }

  lemma StepPrices(o: State, e: Event, config: TaxConfig)
    requires Regular(o, config) && StoresPrices(e)
    ensures PricesStored(Apply(o, e, config).row)
  {
    match e
    case Mutate(m) => MutationKeepsPrices(o.row, o.menu, m);
    case ReplyIssue(k, _) => if k in o.flights { assert Current(o.flights[k], o.menu, config); }
    case FailIssue(k) => if k in o.flights { assert Current(o.flights[k], o.menu, config); }
    case ReplyNote(k, _, _) => if k in o.flights { assert Current(o.flights[k], o.menu, config); }
    case _ =>
  }

  /** A step keeps the waiting calls, apart from the one it starts or ends. */
  lemma FlightsAfter(o: State, e: Event, k: nat, config: TaxConfig)
    requires k in Apply(o, e, config).flights
    ensures if k in o.flights then Apply(o, e, config).flights[k] == o.flights[k]
            else (e.BeginIssue? || e.BeginNote? || e.BeginCancel? || e.BeginQuery? || e.BeginMail?) && e.call == k
  {
  }

  lemma StartedCurrent(o: State, e: Event, config: TaxConfig)
    requires PricesStored(o.row) && (e.BeginIssue? || e.BeginNote? || e.BeginCancel? || e.BeginQuery? || e.BeginMail?)
    requires e.call !in o.flights && e.call in Apply(o, e, config).flights
    ensures Current(Apply(o, e, config).flights[e.call], o.menu, config) && Apply(o, e, config).menu == o.menu
  {
  }

  lemma StepCurrent(o: State, e: Event, config: TaxConfig)
    requires Regular(o, config) && (e.ChangeMenu? ==> SameNames(o.menu, e.menu))
    ensures var after := Apply(o, e, config); forall k <- after.flights :: Current(after.flights[k], after.menu, config)
  {
    var after := Apply(o, e, config);
    forall k <- after.flights ensures Current(after.flights[k], after.menu, config) {
      FlightsAfter(o, e, k, config);
      if k !in o.flights {
        StartedCurrent(o, e, config);
      } else if e.ChangeMenu? {
        CurrentUnderMenu(o.flights[k], o.menu, e.menu, config);
      } else {
        MenuOnlyChangesSo(o, e, config);
      }
    }
  }

  lemma MenuOnlyChangesSo(o: State, e: Event, config: TaxConfig)
    requires !e.ChangeMenu?
    ensures Apply(o, e, config).menu == o.menu
  {
  }

  lemma StepRegular(o: State, e: Event, config: TaxConfig)
    requires Regular(o, config) && StoresPrices(e) && (e.ChangeMenu? ==> SameNames(o.menu, e.menu))
    ensures Regular(Apply(o, e, config), config)
  {
    StepPrices(o, e, config);
    StepCurrent(o, e, config);
  }

  /** A run whose new lines store their price and whose menu changes rename nothing. */
  ghost predicate RegularRun(menu: Menu, events: seq<Event>) {
    NamesStay(menu, events) && forall e <- events :: StoresPrices(e)
  }

  lemma {:induction false} RunRegular(o: State, events: seq<Event>, config: TaxConfig)
    requires Regular(o, config) && RegularRun(o.menu, events)
    ensures Regular(ApplyAll(o, events, config), config) && SameNames(o.menu, ApplyAll(o, events, config).menu)
    decreases |events|
  {
    MenuStays(o, events, config);
    if events != [] {
      var n := |events| - 1;
      assert events[n] in events && forall e <- events[..n] :: e in events;
      RunRegular(o, events[..n], config);
      if events[n].ChangeMenu? { NamesJoin(o.menu, ApplyAll(o, events[..n], config).menu, events[n].menu); }
      StepRegular(ApplyAll(o, events[..n], config), events[n], config);
    }
  }

  /** A query reply that records a document of other content, a refused note or a mail whose copy is of another
      document than the one on record, and a cancellation that skips the note. */
  predicate NamedPart(o: State, e: Event, config: TaxConfig) {
    match e
    case ReplyQuery(k, found) =>
      && CanReply(o, k, found) && found.Some? && Invoiced(Queried(o.flights[k].columns, found))
      && found.value.document != DocumentFor(o.row.(columns := o.flights[k].columns), o.menu, config)
    case ReplyNote(k, accepted, _) => IsNote(o, k) && !accepted && o.billed != Some(o.flights[k].document)
    case ReplyMail(k) =>
      && IsMail(o, k) && Invoiced(o.flights[k].columns)
      && o.billed != Some(DocumentFor(o.row.(columns := o.flights[k].columns), o.menu, config))
    case BeginCancel(k, force, skipNote) =>
      && !Flies(o, k) && CanCancel(o.row.columns, force) && Invoiced(o.row.columns) && skipNote
      && Charges(o.row, o.menu) && o.billed != Some(DocumentFor(Emptied(o.row), o.menu, config))
    case _ => false
  }

  /** In such a run the reply to an issue and a menu change never part order and invoice. */
  lemma RegularParts(o: State, e: Event, config: TaxConfig)
    requires Regular(o, config) && (e.ChangeMenu? ==> SameNames(o.menu, e.menu))
    ensures Parts(o, e, config) <==> NamedPart(o, e, config)
    ensures e.ChangeMenu? ==> !Settles(o, e, config)
  {
    match e
    case ReplyIssue(k, _) => if k in o.flights { assert Current(o.flights[k], o.menu, config); }
    case ReplyNote(k, _, _) => if k in o.flights { assert Current(o.flights[k], o.menu, config); }
    case ChangeMenu(menu) => MenuDoesNotMatter(o.row, o.menu, menu, config);
    case _ =>
  }

  lemma {:induction false} SumOfProducts(items: seq<OrderItem>, i: nat)
    requires i < |items| && items[i].product.Some?
    ensures Units(items) > 0
    decreases |items|
  {
    if i < |items| - 1 { SumOfProducts(items[..|items| - 1], i); }
  }

  lemma {:induction false} LineCounts(groups: seq<Group>, extras: seq<Extra>, config: TaxConfig)
    ensures |GroupLines(groups, config)| == |groups| && |ExtraLines(extras, config)| == |extras|
    decreases |groups| + |extras|
  {
    if groups != [] { LineCounts(groups[..|groups| - 1], extras, config); }
    if extras != [] { LineCounts(groups, extras[..|extras| - 1], config); }
  }

  /** A document with items or extras is not the document of the emptied order. */
  lemma ChargesShow(row: Row, menu: Menu, config: TaxConfig)
    requires Charges(row, menu)
    ensures DocumentFor(Emptied(row), menu, config) != DocumentFor(row, menu, config)
  {
    var c, d := ContentOf(row, menu), ContentOf(Emptied(row), menu);
    LineCounts(Grouping(c.items), c.extras, config);
    LineCounts(Grouping(d.items), d.extras, config);
    if l :| l in row.items && l.productId in menu {
      var i :| 0 <= i < |row.items| && row.items[i] == l;
      SumOfProducts(c.items, i);
      GroupingConserves(c.items);
    }
  }

  /** So while they agree, skipping the note of an order that bills something always parts them. */
  lemma SkippingParts(o: State, k: nat, force: bool, config: TaxConfig)
    requires Matches(o, config) && Settles(o, BeginCancel(k, force, true), config)
    ensures Parts(o, BeginCancel(k, force, true), config)
  {
    ChargesShow(o.row, o.menu, config);
  }

  /** A refused note that was right when it was built parts them exactly when another document was recorded
      since. */
  lemma RefusedNotePartsExactlyWhen(o: State, k: nat, number: Option<string>, config: TaxConfig)
    requires IsNote(o, k) && o.flights[k].against == Some(o.flights[k].document)
    ensures NamedPart(o, ReplyNote(k, false, number), config) <==> o.billed != o.flights[k].against
  {
  }

  function DeliveryOf(row: Row, menu: Menu, config: TaxConfig): seq<BillItem> {
    DeliveryLines(ContentOf(row, menu), config)
  }

  /** While they agree, a mail parts them exactly when the columns it read bill another delivery. */
  lemma MailPartsExactlyWhen(o: State, k: nat, config: TaxConfig)
    requires Matches(o, config) && Invoiced(o.row.columns) && IsMail(o, k) && Invoiced(o.flights[k].columns)
    ensures NamedPart(o, ReplyMail(k), config) <==>
            DeliveryOf(o.row.(columns := o.flights[k].columns), o.menu, config) != DeliveryOf(o.row, o.menu, config)
  {
    var saved := o.row.(columns := o.flights[k].columns);
    var items, extras := GroupLines(Grouping(ContentOf(o.row, o.menu).items), config), ExtraLines(o.row.extras, config);
    MiddleDiffers(items, DeliveryOf(o.row, o.menu, config), DeliveryOf(saved, o.menu, config), extras);
  }

  lemma MiddleDiffers<T>(before: seq<T>, a: seq<T>, b: seq<T>, after: seq<T>)
    ensures before + a + after == before + b + after <==> a == b
  {
    if before + a + after == before + b + after {
      assert |a| == |b|;
      forall i | 0 <= i < |a| ensures a[i] == b[i] {
        assert (before + a + after)[|before| + i] == a[i] && (before + b + after)[|before| + i] == b[i];
      }
    }
  }

  ghost predicate NamedPartAt(o: State, events: seq<Event>, n: nat, config: TaxConfig) {
    n < |events| && NamedPart(ApplyAll(o, events[..n], config), events[n], config)
  }

  lemma RegularPartsAt(o: State, events: seq<Event>, n: nat, config: TaxConfig)
    requires Regular(o, config) && RegularRun(o.menu, events) && n < |events|
    ensures PartsAt(o, events, n, config) <==> NamedPartAt(o, events, n, config)
  {
    assert events[n] in events && forall e <- events[..n] :: e in events;
    RunRegular(o, events[..n], config);
    if events[n].ChangeMenu? { NamesJoin(o.menu, ApplyAll(o, events[..n], config).menu, events[n].menu); }
    RegularParts(ApplyAll(o, events[..n], config), events[n], config);
  }

  /** Step `m` is one of the three, and no step since has settled order and invoice. */
  ghost predicate NamedLast(o: State, events: seq<Event>, m: nat, n: nat, config: TaxConfig) {
    m < n && NamedPartAt(o, events, m, config) && forall j: nat | m < j < n :: !SettlesAt(o, events, j, config)
  }

  /** With stored prices and unrenamed products a credit note differs from the invoice on record exactly when
      one of the three named steps happened before it was built, and nothing settled the two since. */
  lemma RegularNoteDiffersExactlyWhen(o: State, events: seq<Event>, n: nat, config: TaxConfig)
    requires WellFormed(o) && Matches(o, config) && Regular(o, config) && RegularRun(o.menu, events)
    requires BuildsNoteAt(o, events, n, config)
    ensures var p, call := ApplyAll(o, events[..n + 1], config), events[n].call;
            && IsNote(p, call)
            && (p.flights[call].against != Some(p.flights[call].document) <==>
                exists m: nat :: NamedLast(o, events, m, n, config))
  {
    NoteDiffersExactlyWhen(o, events, n, config);
    if m: nat :| PartedBy(o, events, m, n, config) {
      RegularPartsAt(o, events, m, config);
      assert NamedLast(o, events, m, n, config);
    }
    if m: nat :| NamedLast(o, events, m, n, config) {
      RegularPartsAt(o, events, m, config);
      assert PartedBy(o, events, m, n, config);
    }
  }

  /** A run of an order without any of the three steps makes no wrong credit note. */
  lemma UnpartedNotesRepeat(o: State, events: seq<Event>, config: TaxConfig)
    requires WellFormed(o) && Matches(o, config) && Regular(o, config) && RegularRun(o.menu, events) && NotesRight(o)
    requires forall n: nat | n < |events| :: !NamedPartAt(o, events, n, config)
    ensures NotesRight(ApplyAll(o, events, config))
  {
    forall n: nat | BuildsNoteAt(o, events, n, config) ensures !Parted(o, events, n, config) {
      if m: nat :| PartedBy(o, events, m, n, config) { RegularPartsAt(o, events, m, config); }
    }
    NotesRightUntil(o, events, |events|, config);
    assert events[..|events|] == events;
  }

  // ---------- Frozen invoices ----------

  /** While a recorded invoice is frozen, every credit note is built against it and has its lines and total,
      whatever the menu prices become. */
  lemma FrozenNoteRepeatsInvoice(o: State, events: seq<Event>, call: nat, config: TaxConfig)
    requires Invoiced(o.row.columns) && PricesStored(o.row) && AllHarmless(o, o.row) && Matches(o, config)
    requires AllQuiet(events) && NamesStay(o.menu, events)
    ensures var p := ApplyAll(o, events, config);
            && Invoiced(p.row.columns)
            && NoteOf(p, None, config).against == o.billed
            && Some(NoteOf(p, None, config).document) == o.billed
            && (call !in p.flights ==> Apply(p, BeginNote(call), config).flights[call] == NoteOf(p, None, config))
  {
    var p := ApplyAll(o, events, config);
    FrozenRun(o, events, config);
    MenuStays(o, events, config);
    MenuDoesNotMatter(o.row, o.menu, p.menu, config);
    DocumentIgnores(o.row, p.row, p.menu, config);
  }

  /** From issue to credit note: when the accepted reply of an issue leaves no call waiting that holds another
      version, every credit note built until the invoice ends is the document that was sent. `before` is
      whatever happens while the reply is awaited, `after` what happens from then on. */
  lemma IssuedNoteRepeatsInvoice(o: State, k: nat, before: seq<Event>, number: string, after: seq<Event>,
                                 config: TaxConfig)
    requires !Flies(o, k) && CanIssue(o.row) && PricesStored(o.row)
    requires NamesStay(o.menu, before) && NamesStay(o.menu, after) && AllQuiet(after)
    requires var sent := Apply(o, BeginIssue(k), config);
             var w := ApplyAll(sent, before, config);
             var accepted := Apply(w, ReplyIssue(k, Outcome(Accepted, Some(number))), config);
             k in w.flights && w.flights[k] == sent.flights[k] && AllHarmless(accepted, accepted.row)
    ensures var sent := Apply(o, BeginIssue(k), config);
            var w := ApplyAll(sent, before, config);
            var p := ApplyAll(Apply(w, ReplyIssue(k, Outcome(Accepted, Some(number))), config), after, config);
            && Invoiced(p.row.columns)
            && NoteOf(p, None, config).document == sent.flights[k].document
            && NoteOf(p, None, config).against == Some(sent.flights[k].document)
  {
    var sent := Apply(o, BeginIssue(k), config);
    var w := ApplyAll(sent, before, config);
    var copy := sent.flights[k].copy;
    MenuStays(sent, before, config);
    MenuDoesNotMatter(copy, o.menu, w.menu, config);
    var accepted := Apply(w, ReplyIssue(k, Outcome(Accepted, Some(number))), config);
    DocumentIgnores(copy, accepted.row, w.menu, config);
    NamesStayOn(o.menu, w.menu, after);
    FrozenNoteRepeatsInvoice(accepted, after, 0, config);
  }

  lemma NamesStayOn(menu: Menu, now: Menu, events: seq<Event>)
    requires SameNames(menu, now) && NamesStay(menu, events)
    ensures NamesStay(now, events)
  {
    forall e <- events ensures e.ChangeMenu? ==> SameNames(now, e.menu) {
      if e.ChangeMenu? { NamesJoin(menu, now, e.menu); }
    }
  }

  // ---------- The query ----------

  /** A query of an order that is not accepted records whichever sent document it finds as the invoice, also
      on a credit-noted order; the order makes that invoice exactly when it was not edited to another one. */
  lemma QueryRecordsWhatItFinds(o: State, call: nat, document: Document, number: string, config: TaxConfig)
    requires o.row.columns.status != Accepted && call !in o.flights && document in o.sent
    ensures var p := Apply(Apply(o, BeginQuery(call), config),
        ReplyQuery(call, Some(Found(Outcome(Accepted, Some(number)), document))), config);
            && Invoiced(p.row.columns) && p.billed == Some(document)
            && (Matches(p, config) <==> DocumentFor(o.row, o.menu, config) == document)
  {
    var begun := Apply(o, BeginQuery(call), config);
    assert begun == Started(o, call, Query(o.row.columns));
    var p := Apply(begun, ReplyQuery(call, Some(Found(Outcome(Accepted, Some(number)), document))), config);
    assert p.row == o.row.(columns := o.row.columns.(status := Accepted, number := Some(number)));
    DocumentIgnores(o.row, p.row, o.menu, config);
  }
}
