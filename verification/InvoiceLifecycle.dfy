/** The electronic invoice of one order, from issue to credit note (factus.service.ts,
    orders.service.ts). A call that talks to Factus or to the mail service reads the order, waits, and
    then saves the whole entity it read, so it is two events and keeps its own copy in between; anything
    may happen in between. A save writes all columns, and the lines and extras too when the entity was
    loaded with them, because these relations cascade. Calls that only use the database are one event. */
module InvoiceLifecycle {
  import opened Options
  import opened Sequences
  import opened OrderStatuses
  import opened InvoiceMoney
  import opened InvoiceMapper

  // ---------- The order row ----------

  datatype InvoiceStatus = NotInvoiced | Pending | Accepted | Refused | Failed | CreditNoted

  datatype Columns = Columns(orderStatus: OrderStatus, isDelivery: bool, deliveryFee: int,
                             status: InvoiceStatus, number: Option<string>, creditNote: Option<string>)

  /** One item row. The product is only referred to. */
  datatype Line = Line(productId: nat, unitPrice: Option<int>, note: string)

  datatype Row = Row(columns: Columns, items: seq<Line>, extras: seq<Extra>)

  type Menu = map<nat, Product>

  function ItemOn(menu: Menu): Line -> OrderItem {
    (line: Line) => OrderItem(if line.productId in menu then Some(menu[line.productId])
        else None, line.unitPrice, line.note)
  }

  /** The order as the mapper reads it. */
  function ContentOf(row: Row, menu: Menu): Content {
    Content(Map(ItemOn(menu), row.items), row.extras, row.columns.deliveryFee, row.columns.isDelivery)
  }

  function DocumentFor(row: Row, menu: Menu, config: TaxConfig): Document { DocumentOf(ContentOf(row, menu), config) }

  // ---------- Guards ----------

  predicate Invoiced(c: Columns) { c.status == Accepted && c.number.Some? }

  /** `assertOrderContentEditable` */
  predicate ContentEditable(c: Columns) { c.status != Accepted && c.status != Pending }

  predicate Editable(c: Columns) { ContentEditable(c) && Active(c.orderStatus) }

  predicate CanIssue(row: Row) {
    && row.columns.orderStatus != Canceled && !Invoiced(row.columns) && row.columns.status != CreditNoted
    && (row.items != [] || row.extras != [])
  }

  predicate CanMail(c: Columns) { (c.status == Accepted || c.status == CreditNoted) && c.number.Some? }

  predicate CanCancel(c: Columns, force: bool) { c.orderStatus != Canceled && (c.orderStatus == Completed ==> force) }

  // ---------- Calls waiting for a reply ----------

  /** The entity each waiting call read, and what it sent. `against` is a history variable: the invoice on
      record when the note was built. `cancel` says that the call came from a cancellation, and its force. */
  datatype Flight =
    | Issue(copy: Row, document: Document)
    | Note(copy: Row, document: Document, against: Option<Document>, cancel: Option<bool>)
    | Query(columns: Columns)
    | Mail(columns: Columns)

  datatype Outcome = Outcome(status: InvoiceStatus, number: Option<string>)

  predicate IsOutcome(o: Outcome) { o.status == Accepted || o.status == Pending || o.status == Refused }

  /** What a query finds: an outcome for one of the documents sent. */
  datatype Found = Found(outcome: Outcome, document: Document)

  /** A credit note Factus accepted, and the invoice on record when it was built. */
  datatype Credit = Credit(document: Document, against: Option<Document>)

  /** `sent`, `billed` and `credits` are history: all documents sent as invoice, the one last recorded as
      accepted, and the accepted credit notes. */
  datatype State = State(row: Row, menu: Menu, flights: map<nat, Flight>,
                         sent: set<Document>, billed: Option<Document>, credits: set<Credit>)

  // ---------- Changes to the order that use the database only ----------

  /** The fields of `updateOrderGeneral`; `customer` stands for name, phone and address, `linkedTable` for a
      table order in a group. */
  datatype General = General(customer: bool, isDelivery: Option<bool>, deliveryFee: Option<int>,
                             orderStatus: Option<OrderStatus>, linkedTable: bool)

  datatype Mutation =
    | ReplaceItems(items: seq<Line>, extras: seq<Extra>, baseItemCount: Option<int>)
    | AppendItems(items: seq<Line>, extras: seq<Extra>)
    | RemoveItems(productId: nat, unitIndex: Option<int>)
    | SetUnitPrice(productId: nat, price: int)
    | AddExtra(extra: Extra)
    | DeleteExtra(extraId: int)
    | UpdateExtra(extraId: int, title: Option<string>, description: Option<string>, amount: Option<int>,
        quantity: Option<nat>)
    | UpdateGeneral(general: General)
    | BackfillUnitPrices

  function Emptied(row: Row): Row { Row(row.columns.(orderStatus := Canceled), [], []) }

  function WithStatus(c: Columns, s: OrderStatus): Columns { c.(orderStatus := s) }

  predicate IsOf(line: Line, productId: nat) { line.productId == productId }

  /** The lines a removal deletes. */
  function Removed(items: seq<Line>, productId: nat, unitIndex: Option<int>): Option<seq<nat>> {
    OneOrAll(Positions(items, (l: Line) => IsOf(l, productId)), unitIndex)
  }

  function WithPrice(productId: nat, price: int): Line -> Line {
    (line: Line) => if IsOf(line, productId) then line.(unitPrice := Some(price)) else line
  }

  function Backfilled(menu: Menu): Line -> Line {
    (line: Line) => if line.unitPrice.None? && line.productId in menu
      then line.(unitPrice := Some(menu[line.productId].price)) else line
  }

  function OrElse<T>(o: Option<T>, d: T): T { if o.Some? then o.value else d }

  function Changed(m: Mutation): Extra -> Extra
    requires m.UpdateExtra?
  {
    (e: Extra) => if e.id != m.extraId then e
         else Extra(e.id, OrElse(m.title, e.title), OrElse(m.amount, e.amount), OrElse(m.quantity, e.quantity),
                    OrElse(m.description, e.description))
  }

  predicate HasExtra(row: Row, extraId: int) { exists e <- row.extras :: e.id == extraId }

  function Without(extras: seq<Extra>, extraId: int): seq<Extra> {
    Pick(extras, Positions(extras, (e: Extra) => e.id == extraId), true)
  }

  /** `updateOrderGeneral`, apart from the status canceled, which goes to the cancellation. */
  function Generally(c: Columns, g: General): Columns {
    if g.linkedTable && g.orderStatus == Some(Completed) && !c.isDelivery
        && Active(c.orderStatus) then WithStatus(c, Completed)
    else if g.orderStatus == Some(Canceled) then c
    else if (g.customer || g.isDelivery.Some? || g.deliveryFee.Some?) && !ContentEditable(c) then c
    else if c.orderStatus == Completed && ((g.orderStatus.Some? && g.orderStatus != Some(Completed))
        || g.isDelivery.Some? || g.deliveryFee.Some?) then c
    else if c.orderStatus == Canceled then c
    else
      var fee := if g.isDelivery == Some(true) then OrElse(g.deliveryFee, c.deliveryFee)
                 else if g.isDelivery == Some(false) then 0 else c.deliveryFee;
      c.(orderStatus := OrElse(g.orderStatus, c.orderStatus), isDelivery := OrElse(g.isDelivery, c.isDelivery),
          deliveryFee := fee)
  }

  function Mutated(row: Row, menu: Menu, m: Mutation): Row {
    var c := row.columns;
    match m
    case ReplaceItems(items, extras, base) =>
      if !Editable(c) || (base.Some? && base.value != |row.items|) then row
      else if items == [] && extras == [] && row.extras == [] then Emptied(row)
      else Row(WithStatus(c, Waiting), (if c.orderStatus == Ready then row.items else []) + items, row.extras + extras)
    case AppendItems(items, extras) =>
      if (items == [] && extras == []) || !Editable(c) then row
      else Row(WithStatus(c, Waiting), row.items + items, row.extras + extras)
    case RemoveItems(productId, unitIndex) =>
      var gone := Removed(row.items, productId, unitIndex);
      if !Editable(c) || gone.None? then row
      else if |row.items| - |gone.value| <= 0 && row.extras == [] then Emptied(row)
      else
        var left := if c.orderStatus == Ready then row.items else Pick(row.items, gone.value, true);
        Row(WithStatus(c, Waiting), left, row.extras)
    case SetUnitPrice(productId, price) =>
      if !Editable(c) || (forall l <- row.items :: !IsOf(l, productId)) || price < 0 then row
      else row.(items := Map(WithPrice(productId, price), row.items))
    case AddExtra(extra) => if Editable(c) then row.(extras := row.extras + [extra]) else row
    case DeleteExtra(extraId) =>
      if HasExtra(row, extraId) && Editable(c) then row.(extras := Without(row.extras, extraId)) else row
    case UpdateExtra(extraId, _, _, _, _) =>
      if HasExtra(row, extraId) && Editable(c) then row.(extras := Map(Changed(m), row.extras)) else row
    case UpdateGeneral(g) => row.(columns := Generally(c, g))
    case BackfillUnitPrices => row.(items := Map(Backfilled(menu), row.items))
  }

  // ---------- Events ----------

  datatype Event =
    | BeginIssue(call: nat)
    | ReplyIssue(call: nat, outcome: Outcome)
    | FailIssue(call: nat)
    | BeginNote(call: nat)
    | BeginCancel(call: nat, force: bool, skipNote: bool)
    | ReplyNote(call: nat, accepted: bool, number: Option<string>)
    | BeginQuery(call: nat)
    | ReplyQuery(call: nat, found: Option<Found>)
    | BeginMail(call: nat)
    | ReplyMail(call: nat)
    | Crash(call: nat)
    | Mutate(mutation: Mutation)
    | ChangeMenu(menu: Menu)

  function Started(o: State, call: nat, f: Flight): State { o.(flights := o.flights[call := f]) }

  function Ended(o: State, call: nat): State { o.(flights := o.flights - {call}) }

  function NoteOf(o: State, cancel: Option<bool>, config: TaxConfig): Flight {
    Note(o.row, DocumentFor(o.row, o.menu, config), o.billed, cancel)
  }

  /** The row a credit note's reply leaves: the copy, and then, for a cancellation, the emptied copy. */
  function Noted(f: Flight, accepted: bool, number: Option<string>): Row
    requires f.Note?
  {
    if !accepted then f.copy
    else
      var saved := f.copy.(columns := f.copy.columns.(status := CreditNoted, creditNote := number));
      if f.cancel.Some? && CanCancel(saved.columns, f.cancel.value) then Emptied(saved) else saved
  }

  function Queried(c: Columns, found: Option<Found>): Columns {
    if found.None? then c
    else
      var outcome := found.value.outcome;
      c.(status := outcome.status, number := if outcome.number.Some? then outcome.number else c.number)
  }

  predicate Flies(o: State, call: nat) { call in o.flights }

  predicate IsIssue(o: State, call: nat) { call in o.flights && o.flights[call].Issue? }

  predicate IsNote(o: State, call: nat) { call in o.flights && o.flights[call].Note? }

  predicate IsMail(o: State, call: nat) { call in o.flights && o.flights[call].Mail? }

  /** A reply to a query is possible: nothing found, or an outcome of a document that was sent. */
  predicate CanReply(o: State, call: nat, found: Option<Found>) {
    && call in o.flights && o.flights[call].Query?
    && (found.Some? ==> IsOutcome(found.value.outcome) && found.value.document in o.sent)
  }

  function Apply(o: State, e: Event, config: TaxConfig): State {
    match e
    case BeginIssue(k) =>
      if Flies(o, k) || !CanIssue(o.row) then o
      else
        var copy := o.row.(columns := o.row.columns.(status := Pending));
        var document := DocumentFor(copy, o.menu, config);
        Started(o.(row := copy, sent := o.sent + {document}), k, Issue(copy, document))
    case ReplyIssue(k, outcome) =>
      if !IsIssue(o, k) || !IsOutcome(outcome) then o
      else
        var f := o.flights[k];
        Ended(o, k).(row := f.copy.(columns := f.copy.columns.(status := outcome.status, number := outcome.number)),
                     billed := if outcome.status == Accepted then Some(f.document) else o.billed)
    case FailIssue(k) =>
      if !IsIssue(o, k) then o
      else Ended(o, k).(row := o.flights[k].copy.(columns := o.flights[k].copy.columns.(status := Failed)))
    case BeginNote(k) => if Flies(o, k) || !Invoiced(o.row.columns) then o else Started(o, k, NoteOf(o, None, config))
    case BeginCancel(k, force, skipNote) =>
      if Flies(o, k) || !CanCancel(o.row.columns, force) then o
      else if Invoiced(o.row.columns) && !skipNote then Started(o, k, NoteOf(o, Some(force), config))
      else o.(row := Emptied(o.row))
    case ReplyNote(k, accepted, number) =>
      if !IsNote(o, k) then o
      else
        var f := o.flights[k];
        Ended(o, k).(row := Noted(f, accepted, number),
                     credits := if accepted then o.credits + {Credit(f.document, f.against)} else o.credits)
    case BeginQuery(k) =>
      if Flies(o, k) || o.row.columns.status == Accepted then o else Started(o, k, Query(o.row.columns))
    case ReplyQuery(k, found) =>
      if !CanReply(o, k, found) then o
      else
        Ended(o, k).(row := o.row.(columns := Queried(o.flights[k].columns, found)),
                     billed := if found.Some? && found.value.outcome.status == Accepted
                       then Some(found.value.document) else o.billed)
    case BeginMail(k) => if Flies(o, k) || !CanMail(o.row.columns) then o else Started(o, k, Mail(o.row.columns))
    case ReplyMail(k) => if !IsMail(o, k) then o else Ended(o, k).(row := o.row.(columns := o.flights[k].columns))
    case Crash(k) => Ended(o, k)
    case Mutate(m) => o.(row := Mutated(o.row, o.menu, m))
    case ChangeMenu(menu) => o.(menu := menu)
  }

  function ApplyAll(o: State, events: seq<Event>, config: TaxConfig): State {
    if events == [] then o else Apply(ApplyAll(o, events[..|events| - 1], config), events[|events| - 1], config)
  }

  // ---------- The services ----------

  /** The row of one order. A waiting call is the ghost entry of the copy that its method holds. */
  class OrderTable {
    var row: Row
    var menu: Menu
    ghost var flights: map<nat, Flight>
    ghost var sent: set<Document>
    ghost var billed: Option<Document>
    ghost var credits: set<Credit>

    ghost function Now(): State reads this { State(row, menu, flights, sent, billed, credits) }

    /** `issueForOrder` up to the call; it keeps the entity it returns. */
    method IssueForOrder(ghost call: nat, config: TaxConfig) returns (order: Option<Row>, document: Option<Document>)
      requires call !in flights
      modifies this
      ensures Now() == Apply(old(Now()), BeginIssue(call), config)
      ensures order.Some? <==> CanIssue(old(row))
      ensures order.Some? ==> document.Some? && flights[call] == Issue(order.value, document.value)
    {
      var o := row;
      if o.columns.orderStatus == Canceled { return None, None; }
      if o.columns.status == Accepted && o.columns.number.Some? { return None, None; }
      if o.columns.status == CreditNoted { return None, None; }
      if o.items == [] && o.extras == [] { return None, None; }
      o := o.(columns := o.columns.(status := Pending));
      row := o;
      var d := BuildDocument(ContentOf(o, menu), config);
      sent := sent + {d};
      flights := flights[call := Issue(o, d)];
      return Some(o), Some(d);
    }

    /** ... and its reply. */
    method IssueReplied(ghost call: nat, order: Row, ghost document: Document, outcome: Outcome,
        ghost config: TaxConfig)
      requires call in flights && flights[call] == Issue(order, document) && IsOutcome(outcome)
      modifies this
      ensures Now() == Apply(old(Now()), ReplyIssue(call, outcome), config)
    {
      row := order.(columns := order.columns.(status := outcome.status, number := outcome.number));
      if outcome.status == Accepted { billed := Some(document); }
      flights := flights - {call};
    }

    method IssueFailed(ghost call: nat, order: Row, ghost document: Document, ghost config: TaxConfig)
      requires call in flights && flights[call] == Issue(order, document)
      modifies this
      ensures Now() == Apply(old(Now()), FailIssue(call), config)
    {
      row := order.(columns := order.columns.(status := Failed));
      flights := flights - {call};
    }

    /** `cancelInvoice` up to the call. */
    method CancelInvoice(ghost call: nat, config: TaxConfig) returns (order: Option<Row>)
      requires call !in flights
      modifies this
      ensures Now() == Apply(old(Now()), BeginNote(call), config)
      ensures order.Some? <==> Invoiced(old(row).columns)
      ensures order.Some? ==> flights[call] == NoteOf(old(Now()), None, config) && order.value == old(row)
    {
      if row.columns.status == CreditNoted && row.columns.creditNote.Some? { return None; }
      if row.columns.status != Accepted || row.columns.number.None? { return None; }
      var d := BuildDocument(ContentOf(row, menu), config);
      flights := flights[call := Note(row, d, billed, None)];
      return Some(row);
    }

    /** ... and its reply: the whole entity is saved, also when the note was refused. */
    method NoteReplied(ghost call: nat, order: Row, cancel: Option<bool>, accepted: bool, number: Option<string>,
        ghost config: TaxConfig)
      requires call in flights && flights[call].Note? && flights[call].copy == order && flights[call].cancel == cancel
      modifies this
      ensures Now() == Apply(old(Now()), ReplyNote(call, accepted, number), config)
    {
      var o := order;
      if accepted {
        o := o.(columns := o.columns.(status := CreditNoted, creditNote := number));
        credits := credits + {Credit(flights[call].document, flights[call].against)};
      }
      row := o;
      flights := flights - {call};
      if accepted && cancel.Some? {
        if row.columns.orderStatus == Canceled { return; }
        if row.columns.orderStatus == Completed && !cancel.value { return; }
        row := Row(row.columns.(orderStatus := Canceled), [], []);
      }
    }

    /** `cancelOrderFully` up to the credit note it needs, or to its end when it needs none. */
    method CancelOrderFully(ghost call: nat, config: TaxConfig, force: bool, skipNote: bool)
        returns (order: Option<Row>)
      requires call !in flights
      modifies this
      ensures Now() == Apply(old(Now()), BeginCancel(call, force, skipNote), config)
      ensures order.Some? <==> CanCancel(old(row).columns, force) && Invoiced(old(row).columns) && !skipNote
    {
      if row.columns.orderStatus == Canceled { return None; }
      if row.columns.orderStatus == Completed && !force { return None; }
      if row.columns.status == Accepted && row.columns.number.Some? && !skipNote {
        var d := BuildDocument(ContentOf(row, menu), config);
        flights := flights[call := Note(row, d, billed, Some(force))];
        return Some(row);
      }
      row := Row(row.columns.(orderStatus := Canceled), [], []);
      return None;
    }

    /** `syncOrderInvoiceFromFactus` up to the query; it reads the columns only. */
    method SyncOrderInvoice(ghost call: nat, ghost config: TaxConfig) returns (order: Option<Columns>)
      requires call !in flights
      modifies this
      ensures Now() == Apply(old(Now()), BeginQuery(call), config)
      ensures order.Some? <==> old(row).columns.status != Accepted
      ensures order.Some? ==> flights[call] == Query(order.value)
    {
      if row.columns.status == Accepted { return None; }
      flights := flights[call := Query(row.columns)];
      return Some(row.columns);
    }

    /** ... and its reply. */
    method SyncReplied(ghost call: nat, order: Columns, outcome: Option<Outcome>, ghost document: Document,
        ghost config: TaxConfig)
      requires call in flights && flights[call] == Query(order)
      requires outcome.Some? ==> IsOutcome(outcome.value) && document in sent
      modifies this
      ensures var found := if outcome.Some? then Some(Found(outcome.value, document)) else None;
              Now() == Apply(old(Now()), ReplyQuery(call, found), config)
    {
      var o := order;
      if outcome.Some? {
        o := o.(status := outcome.value.status);
        if outcome.value.number.Some? { o := o.(number := outcome.value.number); }
        if outcome.value.status == Accepted { billed := Some(document); }
      }
      row := row.(columns := o);
      flights := flights - {call};
    }

    /** `resendInvoiceEmail` up to the mail; it reads the columns only. */
    method ResendInvoiceEmail(ghost call: nat, ghost config: TaxConfig) returns (order: Option<Columns>)
      requires call !in flights
      modifies this
      ensures Now() == Apply(old(Now()), BeginMail(call), config)
      ensures order.Some? <==> CanMail(old(row).columns)
      ensures order.Some? ==> flights[call] == Mail(order.value)
    {
      var c := row.columns;
      if (c.status != Accepted && c.status != CreditNoted) || c.number.None? { return None; }
      flights := flights[call := Mail(c)];
      return Some(c);
    }

    /** ... and its reply. */
    method MailReplied(ghost call: nat, order: Columns, ghost config: TaxConfig)
      requires call in flights && flights[call] == Mail(order)
      modifies this
      ensures Now() == Apply(old(Now()), ReplyMail(call), config)
    {
      row := row.(columns := order);
      flights := flights - {call};
    }

    method UpdateOrderItems(items: seq<Line>, extras: seq<Extra>, baseItemCount: Option<int>)
      modifies this`row
      ensures row == Mutated(old(row), menu, ReplaceItems(items, extras, baseItemCount))
    {
      var status := row.columns.orderStatus;
      if !ContentEditable(row.columns) || status == Completed || status == Canceled { return; }
      if baseItemCount.Some? && baseItemCount.value != |row.items| { return; }
      if items == [] && extras == [] && row.extras == [] {
        row := Emptied(row);
        return;
      }
      var loaded := row;
      row := row.(items := []);
      if status == Ready { row := loaded; }
      row := Row(row.columns.(orderStatus := Waiting), row.items + items, row.extras + extras);
    }

    method AppendOrderItems(items: seq<Line>, extras: seq<Extra>)
      modifies this`row
      ensures row == Mutated(old(row), menu, AppendItems(items, extras))
    {
      var status := row.columns.orderStatus;
      if items == [] && extras == [] { return; }
      if !ContentEditable(row.columns) || status == Completed || status == Canceled { return; }
      row := Row(row.columns.(orderStatus := Waiting), row.items + items, row.extras + extras);
    }

    method RemoveOrderItems(productId: nat, unitIndex: Option<int>)
      modifies this`row
      ensures row == Mutated(old(row), menu, RemoveItems(productId, unitIndex))
    {
      var status := row.columns.orderStatus;
      if !ContentEditable(row.columns) || status == Completed || status == Canceled { return; }
      var gone := Removed(row.items, productId, unitIndex);
      if gone.None? { return; }
      if |row.items| - |gone.value| <= 0 && row.extras == [] {
        row := Emptied(row);
        return;
      }
      var loaded := row;
      row := row.(items := Pick(row.items, gone.value, true));
      if status == Ready { row := loaded; }
      row := row.(columns := row.columns.(orderStatus := Waiting));
    }

    method UpdateOrderItemUnitPrice(productId: nat, price: int)
      modifies this`row
      ensures row == Mutated(old(row), menu, SetUnitPrice(productId, price))
    {
      var status := row.columns.orderStatus;
      if !ContentEditable(row.columns) || status == Completed || status == Canceled { return; }
      var any := exists l <- row.items :: IsOf(l, productId);
      if !any || price < 0 { return; }
      row := row.(items := Map(WithPrice(productId, price), row.items));
    }

    method AddOrderExtra(extra: Extra)
      modifies this`row
      ensures row == Mutated(old(row), menu, AddExtra(extra))
    {
      if row.columns.orderStatus == Canceled || !ContentEditable(row.columns) || row.columns.orderStatus == Completed {
        return;
      }
      row := row.(extras := row.extras + [extra]);
    }

    method DeleteOrderExtra(extraId: int)
      modifies this`row
      ensures row == Mutated(old(row), menu, DeleteExtra(extraId))
    {
      if !HasExtra(row, extraId) || !ContentEditable(row.columns) { return; }
      if row.columns.orderStatus == Completed || row.columns.orderStatus == Canceled { return; }
      row := row.(extras := Without(row.extras, extraId));
    }

    method UpdateOrderExtra(extraId: int, title: Option<string>, description: Option<string>, amount: Option<int>,
        quantity: Option<nat>)
      modifies this`row
      ensures row == Mutated(old(row), menu, UpdateExtra(extraId, title, description, amount, quantity))
    {
      if !HasExtra(row, extraId) || !ContentEditable(row.columns) { return; }
      if row.columns.orderStatus == Completed || row.columns.orderStatus == Canceled { return; }
      row := row.(extras := Map(Changed(UpdateExtra(extraId, title, description, amount, quantity)), row.extras));
    }

    /** One statement, for the items of this order. */
    method BackfillPrices()
      modifies this`row
      ensures row == Mutated(old(row), menu, BackfillUnitPrices)
    {
      row := row.(items := Map(Backfilled(menu), row.items));
    }

    method UpdateOrderGeneral(g: General)
      modifies this`row
      ensures row == Mutated(old(row), menu, UpdateGeneral(g))
    {
      var c := row.columns;
      if g.orderStatus == Some(Completed) && !c.isDelivery && c.orderStatus != Completed && c.orderStatus != Canceled
          && g.linkedTable {
        row := row.(columns := c.(orderStatus := Completed));
        return;
      }
      if g.orderStatus == Some(Canceled) { return; }
      var touchesContent := g.customer || g.isDelivery.Some? || g.deliveryFee.Some?;
      if touchesContent && !ContentEditable(c) { return; }
      if c.orderStatus == Completed {
        if (g.orderStatus.Some? && g.orderStatus != Some(Completed)) || g.isDelivery.Some? || g.deliveryFee.Some? {
          return;
        }
      }
      if c.orderStatus == Canceled { return; }
      if g.isDelivery.Some? { c := c.(isDelivery := g.isDelivery.value); }
      if g.orderStatus.Some? { c := c.(orderStatus := g.orderStatus.value); }
      if g.isDelivery == Some(true) {
        if g.deliveryFee.Some? { c := c.(deliveryFee := g.deliveryFee.value); }
      } else if g.isDelivery.Some? {
        c := c.(deliveryFee := 0);
      }
      row := row.(columns := c);
    }
  }
}
