/** Exactly when a credit note repeats the invoice it cancels (factus-invoice.mapper.ts, factus.service.ts).
    The note is built from the order as it is; the invoice on record is the document last recorded as
    accepted. Over every run they differ exactly when the last step that settled the two of them settled
    them apart, and with stored prices and unrenamed products only three kinds of step can. */
module InvoiceCredits {
  import opened Options
  import opened InvoiceMoney
  import opened InvoiceMapper
  import opened InvoiceLifecycle
  import opened InvoiceGuarantees

  /** The order as it stands makes the invoice on record. */
  predicate Matches(o: State, config: TaxConfig) {
    Invoiced(o.row.columns) ==> o.billed == Some(DocumentFor(o.row, o.menu, config))
  }

  /** A document is made from items, extras, fee and delivery, and from no other column. */
  lemma DocumentIgnores(row: Row, other: Row, menu: Menu, config: TaxConfig)
    requires row.items == other.items && row.extras == other.extras
    requires row.columns.deliveryFee == other.columns.deliveryFee && row.columns.isDelivery == other.columns.isDelivery
    ensures DocumentFor(row, menu, config) == DocumentFor(other, menu, config)
  {
  }

  lemma MutationKeepsInvoiceColumns(row: Row, menu: Menu, m: Mutation)
    ensures Mutated(row, menu, m).columns.status == row.columns.status
        && Mutated(row, menu, m).columns.number == row.columns.number
  {
  }

  lemma MutationKeepsDocument(row: Row, menu: Menu, m: Mutation, config: TaxConfig)
    requires row.columns.status == Accepted
    ensures DocumentFor(Mutated(row, menu, m), menu, config) == DocumentFor(row, menu, config)
  {
    if m.BackfillUnitPrices? {
      BackfillKeepsDocument(row, menu, config);
    } else {
      MutatorsChangeExactlyWhen(row, menu, m);
      DocumentIgnores(row, Mutated(row, menu, m), menu, config);
    }
  }

  // ---------- Steps that settle order and invoice ----------

  /** The order has something to bill besides its delivery. */
  predicate Charges(row: Row, menu: Menu) { row.extras != [] || exists l <- row.items :: l.productId in menu }

  /** After these steps the order is invoiced, with an invoice or a content that may be new. */
  predicate Settles(o: State, e: Event, config: TaxConfig) {
    match e
    case ReplyIssue(k, outcome) => IsIssue(o, k) && outcome.status == Accepted && outcome.number.Some?
    case ReplyQuery(k, found) =>
      CanReply(o, k, found) && found.Some? && Invoiced(Queried(o.flights[k].columns, found))
    case ReplyNote(k, accepted, _) => IsNote(o, k) && !accepted
    case ReplyMail(k) => IsMail(o, k) && Invoiced(o.flights[k].columns)
    case BeginCancel(k, force, skipNote) =>
      !Flies(o, k) && CanCancel(o.row.columns, force) && Invoiced(o.row.columns) && skipNote && Charges(o.row, o.menu)
    case ChangeMenu(menu) =>
      Invoiced(o.row.columns) && DocumentFor(o.row, menu, config) != DocumentFor(o.row, o.menu, config)
    case _ => false
  }

  /** ... and these settle them apart. */
  predicate Parts(o: State, e: Event, config: TaxConfig) {
    && Settles(o, e, config)
    && match e
       case ReplyIssue(k, _) => o.flights[k].document != DocumentFor(o.flights[k].copy, o.menu, config)
       case ReplyQuery(k, found) =>
         found.value.document != DocumentFor(o.row.(columns := o.flights[k].columns), o.menu, config)
       case ReplyNote(k, _, _) => o.billed != Some(DocumentFor(o.flights[k].copy, o.menu, config))
       case ReplyMail(k) => o.billed != Some(DocumentFor(o.row.(columns := o.flights[k].columns), o.menu, config))
       case BeginCancel(_, _, _) => o.billed != Some(DocumentFor(Emptied(o.row), o.menu, config))
       case ChangeMenu(menu) => o.billed != Some(DocumentFor(o.row, menu, config))
       case _ => false
  }

  lemma IssueSettles(o: State, k: nat, outcome: Outcome, config: TaxConfig)
    requires Settles(o, ReplyIssue(k, outcome), config)
    ensures var after := Apply(o, ReplyIssue(k, outcome), config);
            Invoiced(after.row.columns) && (Matches(after, config) <==> !Parts(o, ReplyIssue(k, outcome), config))
  {
    DocumentIgnores(o.flights[k].copy, Apply(o, ReplyIssue(k, outcome), config).row, o.menu, config);
  }

  lemma QuerySettles(o: State, k: nat, found: Option<Found>, config: TaxConfig)
    requires WellFormed(o) && Settles(o, ReplyQuery(k, found), config)
    ensures var after := Apply(o, ReplyQuery(k, found), config);
            Invoiced(after.row.columns) && (Matches(after, config) <==> !Parts(o, ReplyQuery(k, found), config))
  {
    var asked := o.row.(columns := o.flights[k].columns);
    DocumentIgnores(asked, Apply(o, ReplyQuery(k, found), config).row, o.menu, config);
  }

  /** After a settling step order and invoice agree exactly when it does not settle them apart. */
  lemma SettlingStep(o: State, e: Event, config: TaxConfig)
    requires WellFormed(o) && Settles(o, e, config)
    ensures Invoiced(Apply(o, e, config).row.columns)
    ensures Matches(Apply(o, e, config), config) <==> !Parts(o, e, config)
  {
    match e
    case ReplyIssue(k, outcome) => IssueSettles(o, k, outcome, config);
    case ReplyQuery(k, found) => QuerySettles(o, k, found, config);
    case ReplyNote(k, _, _) => assert FlightOk(o.flights[k]);
    case ReplyMail(_) =>
    case BeginCancel(_, _, _) =>
    case ChangeMenu(_) =>
  }

  lemma {:induction false} NothingGrouped(items: seq<OrderItem>)
    requires forall i <- items :: i.product.None?
    ensures Grouping(items) == []
    decreases |items|
  {
    if items != [] {
      var n := |items| - 1;
      assert items[n] in items && forall i <- items[..n] :: i in items;
      NothingGrouped(items[..n]);
    }
  }

  /** Emptying an order that bills nothing but its delivery changes no document. */
  lemma EmptyingKeepsDocument(row: Row, menu: Menu, config: TaxConfig)
    requires !Charges(row, menu)
    ensures DocumentFor(Emptied(row), menu, config) == DocumentFor(row, menu, config)
  {
    var items := ContentOf(row, menu).items;
    forall i <- items ensures i.product.None? {
      var k :| 0 <= k < |items| && items[k] == i;
      assert row.items[k] in row.items;
    }
    NothingGrouped(items);
    NothingGrouped([]);
  }

  /** A mutator neither makes an order invoiced nor changes what an invoiced one bills. */
  lemma MutationSettlesNothing(o: State, m: Mutation, config: TaxConfig)
    requires Invoiced(Mutated(o.row, o.menu, m).columns)
    ensures Invoiced(o.row.columns) && (Matches(Apply(o, Mutate(m), config), config) <==> Matches(o, config))
  {
    MutationKeepsInvoiceColumns(o.row, o.menu, m);
    MutationKeepsDocument(o.row, o.menu, m, config);
  }

  /** No other step makes an order invoiced, or an invoiced one agree or differ. */
  lemma OtherStep(o: State, e: Event, config: TaxConfig)
    requires WellFormed(o) && !Settles(o, e, config) && Invoiced(Apply(o, e, config).row.columns)
    ensures Invoiced(o.row.columns) && (Matches(Apply(o, e, config), config) <==> Matches(o, config))
  {
    match e
    case Mutate(m) => MutationSettlesNothing(o, m, config);
    case BeginCancel(k, force, skipNote) =>
      if !Charges(o.row, o.menu) { EmptyingKeepsDocument(o.row, o.menu, config); }
    case ReplyQuery(k, found) => if k in o.flights { assert FlightOk(o.flights[k]); }
    case ReplyNote(k, _, _) =>
    case ReplyMail(k) =>
    case ReplyIssue(k, outcome) =>
    case FailIssue(k) =>
    case BeginIssue(k) =>
    case BeginNote(k) =>
    case BeginQuery(k) =>
    case BeginMail(k) =>
    case Crash(k) =>
    case ChangeMenu(menu) =>
  }

  // ---------- Over a run ----------

  ghost predicate SettlesAt(o: State, events: seq<Event>, n: nat, config: TaxConfig) {
    n < |events| && Settles(ApplyAll(o, events[..n], config), events[n], config)
  }

  ghost predicate PartsAt(o: State, events: seq<Event>, n: nat, config: TaxConfig) {
    n < |events| && Parts(ApplyAll(o, events[..n], config), events[n], config)
  }

  /** Step `m` settled order and invoice apart, and no step since has settled them. */
  ghost predicate PartedBy(o: State, events: seq<Event>, m: nat, n: nat, config: TaxConfig) {
    m < n && PartsAt(o, events, m, config) && forall j: nat | m < j < n :: !SettlesAt(o, events, j, config)
  }

  ghost predicate Parted(o: State, events: seq<Event>, n: nat, config: TaxConfig) {
    exists m: nat :: PartedBy(o, events, m, n, config)
  }

  lemma PartedBefore(o: State, events: seq<Event>, m: nat, n: nat, config: TaxConfig)
    requires PartedBy(o, events, m, n + 1, config)
    ensures if m == n then PartsAt(o, events, n, config)
            else PartedBy(o, events, m, n, config) && !SettlesAt(o, events, n, config)
  {
  }

  lemma PartedAfter(o: State, events: seq<Event>, m: nat, n: nat, next: nat, config: TaxConfig)
    requires PartedBy(o, events, m, n, config) && !SettlesAt(o, events, n, config) && next == n + 1
    ensures PartedBy(o, events, m, next, config)
  {
    forall j: nat | m < j < next ensures !SettlesAt(o, events, j, config) {
      assert j < n || j == n;
    }
  }

  lemma PartingSettles(o: State, events: seq<Event>, n: nat, config: TaxConfig)
    requires PartsAt(o, events, n, config)
    ensures SettlesAt(o, events, n, config) && PartedBy(o, events, n, n + 1, config)
  {
  }

  lemma PartedNext(o: State, events: seq<Event>, n: nat, next: nat, config: TaxConfig)
    requires next == n + 1
    ensures Parted(o, events, next, config) <==>
            if SettlesAt(o, events, n, config) then PartsAt(o, events, n, config) else Parted(o, events, n, config)
  {
    if m: nat :| PartedBy(o, events, m, next, config) {
      PartedBefore(o, events, m, n, config);
    }
    if PartsAt(o, events, n, config) {
      PartingSettles(o, events, n, config);
    } else if !SettlesAt(o, events, n, config) && Parted(o, events, n, config) {
      var m: nat :| PartedBy(o, events, m, n, config);
      PartedAfter(o, events, m, n, next, config);
    }
  }

  lemma RunOneMore(o: State, events: seq<Event>, n: nat, config: TaxConfig)
    requires n < |events|
    ensures ApplyAll(o, events[..n + 1], config) == Apply(ApplyAll(o, events[..n], config), events[n], config)
  {
    assert events[..n + 1][..n] == events[..n];
  }

  /** `was` and the result say whether an invoiced order differs from the invoice on record. */
  lemma StepParts(o: State, e: Event, was: bool, config: TaxConfig)
    requires WellFormed(o) && (Invoiced(o.row.columns) ==> (Matches(o, config) <==> !was))
    ensures var after := Apply(o, e, config);
            Invoiced(after.row.columns) ==>
              (Matches(after, config) <==> !(if Settles(o, e, config) then Parts(o, e, config) else was))
  {
    if Settles(o, e, config) {
      SettlingStep(o, e, config);
    } else if Invoiced(Apply(o, e, config).row.columns) {
      OtherStep(o, e, config);
    }
  }

  /** At this moment an invoiced order makes the invoice on record, unless they are parted. */
  ghost predicate AgreesAt(o: State, events: seq<Event>, n: nat, config: TaxConfig)
    requires n <= |events|
  {
    var p := ApplyAll(o, events[..n], config);
    Invoiced(p.row.columns) ==> (Matches(p, config) <==> !Parted(o, events, n, config))
  }

  lemma AgreesNext(o: State, events: seq<Event>, n: nat, next: nat, config: TaxConfig)
    requires WellFormed(o) && next == n + 1 <= |events| && AgreesAt(o, events, n, config)
    ensures AgreesAt(o, events, next, config)
  {
    RunWellFormed(o, events[..n], config);
    RunOneMore(o, events, n, config);
    PartedNext(o, events, n, next, config);
    StepParts(ApplyAll(o, events[..n], config), events[n], Parted(o, events, n, config), config);
  }

  /** At every moment of every run an invoiced order makes the invoice on record, unless the last step that
      settled the two settled them apart. */
  lemma {:induction false} RunMatchesExactlyWhen(o: State, events: seq<Event>, n: nat, config: TaxConfig)
    requires WellFormed(o) && Matches(o, config) && n <= |events|
    ensures AgreesAt(o, events, n, config)
  {
    if n == 0 {
      assert events[..0] == [];
      assert forall m: nat :: !PartedBy(o, events, m, 0, config);
    } else {
      RunMatchesExactlyWhen(o, events, n - 1, config);
      AgreesNext(o, events, n - 1, n, config);
    }
  }

  // ---------- Credit notes ----------

  /** All credit notes, accepted or waiting, have the lines and total of the invoice they were built against. */
  ghost predicate NotesRight(o: State) {
    && (forall c <- o.credits :: c.against == Some(c.document))
    && forall k <- o.flights :: o.flights[k].Note? ==> o.flights[k].against == Some(o.flights[k].document)
  }

  /** The step builds a credit note. */
  predicate BuildsNote(o: State, e: Event) {
    || (e.BeginNote? && !Flies(o, e.call) && Invoiced(o.row.columns))
    || (e.BeginCancel? && !Flies(o, e.call) && CanCancel(o.row.columns, e.force) && Invoiced(o.row.columns)
        && !e.skipNote)
  }

  lemma StepNotesRight(o: State, e: Event, config: TaxConfig)
    requires NotesRight(o)
    ensures NotesRight(Apply(o, e, config)) <==> (BuildsNote(o, e) ==> Matches(o, config))
  {
    var after := Apply(o, e, config);
    if BuildsNote(o, e) {
      assert e.call in after.flights && after.flights[e.call].Note?;
    }
  }

  ghost predicate NotesRightAt(o: State, events: seq<Event>, n: nat, config: TaxConfig)
    requires n <= |events|
  {
    NotesRight(ApplyAll(o, events[..n], config))
  }

  ghost predicate BuildsNoteAt(o: State, events: seq<Event>, n: nat, config: TaxConfig) {
    n < |events| && BuildsNote(ApplyAll(o, events[..n], config), events[n])
  }

  /** A credit note differs from the invoice on record exactly when, at the time it is built, the last settling
      step was one that parts. */
  lemma NoteDiffersExactlyWhen(o: State, events: seq<Event>, n: nat, config: TaxConfig)
    requires WellFormed(o) && Matches(o, config) && BuildsNoteAt(o, events, n, config)
    ensures var p, call := ApplyAll(o, events[..n + 1], config), events[n].call;
            && IsNote(p, call)
            && (p.flights[call].against != Some(p.flights[call].document) <==> Parted(o, events, n, config))
  {
    RunMatchesExactlyWhen(o, events, n, config);
    RunOneMore(o, events, n, config);
  }

  lemma NoteStep(o: State, events: seq<Event>, n: nat, config: TaxConfig)
    requires WellFormed(o) && Matches(o, config) && n < |events| && NotesRightAt(o, events, n, config)
    ensures NotesRightAt(o, events, n + 1, config) <==>
            !(BuildsNoteAt(o, events, n, config) && Parted(o, events, n, config))
  {
    RunOneMore(o, events, n, config);
    StepNotesRight(ApplyAll(o, events[..n], config), events[n], config);
    RunMatchesExactlyWhen(o, events, n, config);
  }

  lemma {:induction false} NotesRightUntil(o: State, events: seq<Event>, n: nat, config: TaxConfig)
    requires WellFormed(o) && Matches(o, config) && NotesRight(o) && n <= |events|
    requires forall k: nat | k < n && BuildsNoteAt(o, events, k, config) :: !Parted(o, events, k, config)
    ensures NotesRightAt(o, events, n, config)
  {
    if n == 0 {
      assert events[..0] == [];
    } else {
      NotesRightUntil(o, events, n - 1, config);
      NoteStep(o, events, n - 1, config);
    }
  }

  /** In every run all credit notes, accepted ones and waiting ones, repeat the invoice on record exactly when
      none is built while the last settling step is one that parts. */
  lemma NotesRepeatExactlyWhen(o: State, events: seq<Event>, config: TaxConfig)
    requires WellFormed(o) && Matches(o, config) && NotesRight(o)
    ensures (forall n: nat | n <= |events| :: NotesRightAt(o, events, n, config)) <==>
            (forall n: nat | BuildsNoteAt(o, events, n, config) :: !Parted(o, events, n, config))
  {
    if forall n: nat | n <= |events| :: NotesRightAt(o, events, n, config) {
      forall n: nat | BuildsNoteAt(o, events, n, config) ensures !Parted(o, events, n, config) {
        assert NotesRightAt(o, events, n, config) && NotesRightAt(o, events, n + 1, config);
        NoteStep(o, events, n, config);
      }
    }
    if forall n: nat | BuildsNoteAt(o, events, n, config) :: !Parted(o, events, n, config) {
      forall n: nat | n <= |events| ensures NotesRightAt(o, events, n, config) {
        NotesRightUntil(o, events, n, config);
      }
    }
  }
}
