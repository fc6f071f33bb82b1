/** When each call that concerns the invoice starts, and what its reply leaves: for every pair of order and
    invoice status (factus.service.ts, orders.service.ts). */
module InvoiceSteps {
  import opened Options
  import opened OrderStatuses
  import opened InvoiceMoney
  import opened InvoiceMapper
  import opened InvoiceLifecycle

  /** Accepted, with a number. */
  predicate OnRecord(c: Columns) { c.status == Accepted && c.number != None }

  predicate SameHistory(a: State, b: State) {
    a.sent == b.sent && a.billed == b.billed && a.credits == b.credits && a.menu == b.menu
  }

  // ---------- Issue ----------

  /** Something to bill, on an order that is not canceled, without an invoice on record or a credit note. */
  predicate Issuable(row: Row) {
    && (row.columns.orderStatus == Waiting || row.columns.orderStatus == Ready || row.columns.orderStatus == Completed)
    && (row.columns.status in {NotInvoiced, Pending, Refused, Failed}
        || (row.columns.status == Accepted && row.columns.number == None))
    && |row.items| + |row.extras| > 0
  }

  lemma IssuableExactlyWhen(row: Row)
    ensures CanIssue(row) <==> Issuable(row)
  {
  }

  /** Issuing marks the order pending, and sends and keeps the document of the order it read. */
  lemma IssueExactlyWhen(o: State, k: nat, config: TaxConfig)
    ensures var after := Apply(o, BeginIssue(k), config);
            if k !in o.flights && Issuable(o.row)
            then
              var copy := Row(o.row.columns.(status := Pending), o.row.items, o.row.extras);
              var document := DocumentFor(o.row, o.menu, config);
              && after.row == copy && after.flights == o.flights[k := Issue(copy, document)]
              && after.sent == o.sent + {document} && SameHistory(after.(sent := o.sent), o)
            else after == o
  {
    IssuableExactlyWhen(o.row);
  }

  /** The reply writes the order that was read, with status and number of the outcome; only an acceptance puts
      its document on record. */
  lemma IssueReplyExactlyWhen(o: State, k: nat, copy: Row, document: Document, outcome: Outcome, config: TaxConfig)
    requires k in o.flights && o.flights[k] == Issue(copy, document)
    ensures var after := Apply(o, ReplyIssue(k, outcome), config);
            if outcome.status == Accepted || outcome.status == Pending || outcome.status == Refused
            then
              && after.flights == o.flights - {k} && SameHistory(after.(billed := o.billed), o)
              && after.row.items == copy.items && after.row.extras == copy.extras
              && after.row.columns.status == outcome.status && after.row.columns.number == outcome.number
              && after.row.columns.(status := copy.columns.status, number := copy.columns.number) == copy.columns
              && after.billed == if outcome.status == Accepted then Some(document) else o.billed
            else after == o
    ensures Apply(o, FailIssue(k), config) ==
            o.(row := Row(copy.columns.(status := Failed), copy.items, copy.extras), flights := o.flights - {k})
  {
  }

  // ---------- Cancellation and credit note ----------

  /** A cancellation concerns an open order, or a completed one when it is forced. */
  predicate MayCancel(c: Columns, force: bool) {
    c.orderStatus == Waiting || c.orderStatus == Ready || (c.orderStatus == Completed && force)
  }

  /** Without lines, extras and with status canceled; everything else stays. */
  function WithoutContent(row: Row): Row { Row(row.columns.(orderStatus := Canceled), [], []) }

  lemma MayCancelExactlyWhen(c: Columns, force: bool)
    ensures CanCancel(c, force) <==> MayCancel(c, force)
    ensures Invoiced(c) <==> OnRecord(c)
  {
  }

  /** An order with an invoice on record waits for its credit note, unless that is skipped; any other is emptied
      at once. */
  lemma CancelExactlyWhen(o: State, k: nat, force: bool, skipNote: bool, config: TaxConfig)
    ensures var after := Apply(o, BeginCancel(k, force, skipNote), config);
            if k in o.flights || !MayCancel(o.row.columns, force) then after == o
            else if OnRecord(o.row.columns) && !skipNote
            then after == o.(flights := o.flights[k := Note(o.row, DocumentFor(o.row, o.menu, config), o.billed,
                Some(force))])
            else after == o.(row := WithoutContent(o.row))
  {
    MayCancelExactlyWhen(o.row.columns, force);
  }

  lemma NoteExactlyWhen(o: State, k: nat, config: TaxConfig)
    ensures Apply(o, BeginNote(k), config) ==
            if k !in o.flights && OnRecord(o.row.columns)
            then o.(flights := o.flights[k := Note(o.row, DocumentFor(o.row, o.menu, config), o.billed, None)])
            else o
  {
    MayCancelExactlyWhen(o.row.columns, false);
  }

  /** A refused note writes the order that was read. An accepted one writes it with the note, and then empties it
      if the call was a cancellation of an order that may be canceled. */
  lemma NoteReplyExactlyWhen(o: State, k: nat, copy: Row, document: Document, against: Option<Document>,
      cancel: Option<bool>, accepted: bool, number: Option<string>, config: TaxConfig)
    requires k in o.flights && o.flights[k] == Note(copy, document, against, cancel)
    ensures var after, noted := Apply(o, ReplyNote(k, accepted, number), config),
                copy.(columns := copy.columns.(status := CreditNoted, creditNote := number));
            && after.flights == o.flights - {k} && SameHistory(after.(credits := o.credits), o)
            && after.credits == (if accepted then o.credits + {Credit(document, against)} else o.credits)
            && after.row ==
               if !accepted then copy
               else if cancel != None && MayCancel(copy.columns, cancel.value) then WithoutContent(noted) else noted
  {
  }

  // ---------- Query and mail ----------

  /** A query starts exactly when the invoice is not accepted. Its reply writes the columns that were read, with
      status and, if there is one, number of what was found. */
  lemma QueryExactlyWhen(o: State, k: nat, config: TaxConfig)
    ensures Apply(o, BeginQuery(k), config) ==
            if k !in o.flights && o.row.columns.status in {NotInvoiced, Pending, Refused, Failed, CreditNoted}
            then o.(flights := o.flights[k := Query(o.row.columns)]) else o
  {
  }

  lemma QueryReplyExactlyWhen(o: State, k: nat, columns: Columns, found: Option<Found>, config: TaxConfig)
    requires k in o.flights && o.flights[k] == Query(columns)
    requires found.Some? ==> found.value.outcome.status in {Accepted, Pending, Refused}
    requires found.Some? ==> found.value.document in o.sent
    ensures var after := Apply(o, ReplyQuery(k, found), config);
            && after.flights == o.flights - {k} && SameHistory(after.(billed := o.billed), o)
            && after.row.items == o.row.items && after.row.extras == o.row.extras
            && (found == None ==> after.row.columns == columns && after.billed == o.billed)
            && (found != None ==>
                  var outcome := found.value.outcome;
                  && after.row.columns.status == outcome.status
                  && after.row.columns.number == (if outcome.number != None then outcome.number else columns.number)
                  && after.row.columns.(status := columns.status, number := columns.number) == columns
                  && after.billed == if outcome.status == Accepted then Some(found.value.document) else o.billed)
  {
  }

  /** A mail starts exactly for an accepted or credit-noted invoice with a number, and its reply writes the
      columns that were read. */
  lemma MailExactlyWhen(o: State, k: nat, config: TaxConfig)
    ensures Apply(o, BeginMail(k), config) ==
            if k !in o.flights && o.row.columns.status in {Accepted, CreditNoted} && o.row.columns.number != None
            then o.(flights := o.flights[k := Mail(o.row.columns)]) else o
    ensures k in o.flights && o.flights[k].Mail? ==>
              Apply(o, ReplyMail(k), config) ==
              o.(row := Row(o.flights[k].columns, o.row.items, o.row.extras), flights := o.flights - {k})
  {
  }

  /** A reply that no call of its kind waits for changes nothing, and neither does a query's reply with another
      status or about a document that was never sent. */
  lemma StrayReplyChangesNothing(o: State, k: nat, outcome: Outcome, accepted: bool, number: Option<string>,
      found: Option<Found>, config: TaxConfig)
    ensures k !in o.flights || !o.flights[k].Issue? ==>
              Apply(o, ReplyIssue(k, outcome), config) == o && Apply(o, FailIssue(k), config) == o
    ensures k !in o.flights || !o.flights[k].Note? ==> Apply(o, ReplyNote(k, accepted, number), config) == o
    ensures k !in o.flights || !o.flights[k].Mail? ==> Apply(o, ReplyMail(k), config) == o
    ensures || k !in o.flights || !o.flights[k].Query?
            || (found.Some? && (found.value.outcome.status in {NotInvoiced, Failed, CreditNoted}
                                || found.value.document !in o.sent)) ==>
              Apply(o, ReplyQuery(k, found), config) == o
  {
  }
}
