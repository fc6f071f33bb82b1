/** Bold payment receipts: webhook events, polling approvals, claims and returned advances
    (bold-event.ts, bold.service.ts and the receipt transaction of bold-online.service.ts).
    Every operation is one database transaction. Amounts are integer cents, currency is always COP. */
module BoldReceipts {
  import opened Options

  datatype EventType = SaleApproved | SaleRejected | VoidApproved | VoidRejected
  datatype Status = Rejected | Approved | Voided

  function Rank(s: Status): nat { match s case Rejected => 0 case Approved => 1 case Voided => 2 }

  function Join(a: Status, b: Status): Status { if Rank(a) < Rank(b) then b else a }

  function NextBoldStatus(current: Option<Status>, kind: EventType): Status {
    if current == Some(Voided) || kind == VoidApproved then Voided
    else if current == Some(Approved) || kind == SaleApproved then Approved
    else Rejected
  }

  /** A parsed and authenticated webhook body. */
  datatype Event = Event(eventId: string, body: string, kind: EventType, paymentId: string, merchantId: string,
      amount: int)

  datatype StoredEvent = StoredEvent(paymentId: string, kind: EventType, body: string)
  datatype Source = Webhook | OnlineApi
  datatype Claim = Claim(claimedBy: string, orderId: int, advance: int)
  datatype Receipt = Receipt(merchantId: string, amount: int, status: Status, source: Source,
                             claim: Option<Claim>, returnedBy: Option<string>)

  type Receipts = map<string, Receipt>
  datatype Desk = Desk(events: map<string, StoredEvent>, receipts: Receipts)

  datatype Reply = Stored | Duplicate | Conflict | NotFound | BadRequest

  // ---------- Transactions as functions ----------

  predicate Consistent(r: Receipt, merchantId: string, amount: int) {
    r.merchantId == merchantId && r.amount == amount
  }

  function InsertIgnore(receipts: Receipts, paymentId: string, r: Receipt): Receipts {
    if paymentId in receipts then receipts else receipts[paymentId := r]
  }

  function Receive(d: Desk, e: Event): (Desk, Reply) {
    if e.eventId in d.events then (d, if d.events[e.eventId].body == e.body then Duplicate else Conflict)
    else
      var events := d.events[e.eventId := StoredEvent(e.paymentId, e.kind, e.body)];
      if e.kind == VoidRejected then (d.(events := events), Stored)
      else
        var receipts := InsertIgnore(d.receipts, e.paymentId,
                                     Receipt(e.merchantId, e.amount, NextBoldStatus(None, e.kind), Webhook, None,
                                         None));
        var row := receipts[e.paymentId];
        if !Consistent(row, e.merchantId, e.amount) then (d, Conflict)
        else (Desk(events, receipts[e.paymentId := row.(status := NextBoldStatus(Some(row.status), e.kind))]), Stored)
  }

  /** The receipt half of an approval found by polling; none when the transaction is rolled back. */
  function Poll(receipts: Receipts, paymentId: string, merchantId: string, amount: int): Option<Receipts> {
    var with := InsertIgnore(receipts, paymentId, Receipt(merchantId, amount, Approved, OnlineApi, None, None));
    var row := with[paymentId];
    if row.status == Voided || !Consistent(row, merchantId, amount) then None
    else Some(with[paymentId := row.(status := Approved, source := OnlineApi)])
  }

  /** `usable`: the order exists, is a delivery and is not canceled. */
  function MakeClaim(receipts: Receipts, paymentId: string, merchantId: string, c: Claim, usable: bool)
    : (Receipts, Reply)
  {
    if paymentId !in receipts then (receipts, NotFound)
    else
      var row := receipts[paymentId];
      if row.merchantId != merchantId || row.status != Approved || row.claim.Some? then (receipts, Conflict)
      else if !usable || c.advance > row.amount then (receipts, BadRequest)
      else if exists p <- receipts :: receipts[p].claim.Some?
                  && receipts[p].claim.value.orderId == c.orderId then (receipts, Conflict)
      else (receipts[paymentId := row.(claim := Some(c))], Stored)
  }

  function ReturnAdvance(receipts: Receipts, paymentId: string, actor: string): (Receipts, Reply) {
    if paymentId !in receipts then (receipts, NotFound)
    else
      var row := receipts[paymentId];
      if row.status != Approved || row.claim.None? || row.returnedBy.Some? then (receipts, Conflict)
      else (receipts[paymentId := row.(returnedBy := Some(actor))], Stored)
  }

  /** How a webhook event is answered: a stored event is a duplicate or was altered; a new one conflicts exactly
      when it argues about a payment whose receipt has another merchant or amount. */
  lemma ReceiveRepliesExactlyWhen(d: Desk, e: Event)
    ensures var (after, reply) := Receive(d, e);
            var seen, differs := e.eventId in d.events, e.paymentId in d.receipts &&
                (d.receipts[e.paymentId].merchantId != e.merchantId || d.receipts[e.paymentId].amount != e.amount);
            && (reply == Duplicate <==> seen && d.events[e.eventId].body == e.body)
            && (reply == Conflict <==>
                  if seen then d.events[e.eventId].body != e.body else e.kind != VoidRejected && differs)
            && (reply == Stored <==> !seen && (e.kind == VoidRejected || !differs))
            && (reply != Stored ==> after == d)
            && (reply == Stored ==> after.events.Keys == d.events.Keys + {e.eventId})
            && (forall p <- d.receipts :: p in after.receipts
                  && after.receipts[p] == d.receipts[p].(status := after.receipts[p].status))
            && forall p <- after.receipts :: p !in d.receipts ==>
                 p == e.paymentId && after.receipts[p].source == Webhook && after.receipts[p].claim == None
                 && after.receipts[p].returnedBy == None
  {
  }

  /** A polled approval is rolled back exactly when the receipt is voided or of another charge; otherwise the
      receipt, new or not, is approved by it, and nothing else changes. */
  lemma PollExactlyWhen(receipts: Receipts, p: string, merchantId: string, amount: int)
    ensures var after := Poll(receipts, p, merchantId, amount);
            && (after.Some? <==> p in receipts ==>
                  receipts[p].status != Voided && receipts[p].merchantId == merchantId && receipts[p].amount == amount)
            && (after.Some? ==>
                  after.value == receipts[p :=
                    if p in receipts then receipts[p].(status := Approved, source := OnlineApi)
                    else Receipt(merchantId, amount, Approved, OnlineApi, None, None)])
  {
  }

  // ---------- The service ----------

  class BoldService {
    const merchant: string
    var events: map<string, StoredEvent>
    var receipts: Receipts

    function State(): Desk reads this { Desk(events, receipts) }

    method ReceiveEvent(e: Event) returns (reply: Reply)
      modifies this
      ensures (State(), reply) == Receive(old(State()), e)
    {
      if e.eventId in events {
        var prior := events[e.eventId];
        if prior.body != e.body { return Conflict; }
        return Duplicate;
      }
      var savedEvents, savedReceipts := events, receipts;
      events := events[e.eventId := StoredEvent(e.paymentId, e.kind, e.body)];
      if e.kind == VoidRejected { return Stored; }
      if e.paymentId !in receipts {
        receipts := receipts[e.paymentId := Receipt(e.merchantId, e.amount, NextBoldStatus(None, e.kind), Webhook,
            None, None)];
      }
      var row := receipts[e.paymentId];
      if row.merchantId != e.merchantId || row.amount != e.amount {
        events, receipts := savedEvents, savedReceipts;
        return Conflict;
      }
      row := row.(status := NextBoldStatus(Some(row.status), e.kind));
      receipts := receipts[e.paymentId := row];
      return Stored;
    }

    method ClaimReceipt(id: string, orderId: int, advance: int, actor: string, usable: bool) returns (reply: Reply)
      modifies this`receipts
      ensures (receipts, reply) == MakeClaim(old(receipts), id, merchant, Claim(actor, orderId, advance), usable)
    {
      if id !in receipts { return NotFound; }
      var row := receipts[id];
      if row.merchantId != merchant { return Conflict; }
      if row.status != Approved { return Conflict; }
      if row.claim.Some? { return Conflict; }
      if !usable { return BadRequest; }
      if advance > row.amount { return BadRequest; }
      row := row.(claim := Some(Claim(actor, orderId, advance)));
      var taken := exists p <- receipts :: receipts[p].claim.Some? && receipts[p].claim.value.orderId == orderId;
      if taken { return Conflict; }
      receipts := receipts[id := row];
      return Stored;
    }

    method ReturnReceipt(id: string, actor: string) returns (reply: Reply)
      modifies this`receipts
      ensures (receipts, reply) == ReturnAdvance(old(receipts), id, actor)
    {
      if id !in receipts { return NotFound; }
      var row := receipts[id];
      if row.status != Approved || row.claim.None? { return Conflict; }
      if row.returnedBy.Some? { return Conflict; }
      row := row.(returnedBy := Some(actor));
      receipts := receipts[id := row];
      return Stored;
    }
  }

  // ---------- Confluence ----------

  /** What reaches the desk about payments: webhook events and approvals found by polling. */
  datatype Input = FromWebhook(event: Event) | FromPoll(paymentId: string, merchantId: string, amount: int)

  function Deliver(d: Desk, i: Input): Desk {
    match i
    case FromWebhook(e) => Receive(d, e).0
    case FromPoll(p, m, a) => var r := Poll(d.receipts, p, m, a); if r.Some? then d.(receipts := r.value) else d
  }

  function DeliverAll(d: Desk, inputs: seq<Input>): Desk {
    if inputs == [] then d else Deliver(DeliverAll(d, inputs[..|inputs| - 1]), inputs[|inputs| - 1])
  }

  const EMPTY: Desk := Desk(map[], map[])

  function PaymentOf(i: Input): string { if i.FromWebhook? then i.event.paymentId else i.paymentId }
  function MerchantOf(i: Input): string { if i.FromWebhook? then i.event.merchantId else i.merchantId }
  function AmountOf(i: Input): int { if i.FromWebhook? then i.event.amount else i.amount }

  /** The status an input argues for; a rejected void argues for nothing. */
  function Contribution(i: Input): Option<Status> {
    match i
    case FromPoll(_, _, _) => Some(Approved)
    case FromWebhook(e) =>
      match e.kind
      case SaleApproved => Some(Approved)
      case SaleRejected => Some(Rejected)
      case VoidApproved => Some(Voided)
      case VoidRejected => None
  }

  type Class = (string, int)

  /** What a receipt must have in common with an input to accept it. */
  function ClassOf(i: Input): Class { (MerchantOf(i), AmountOf(i)) }

  predicate Contributes(i: Input, paymentId: string) { PaymentOf(i) == paymentId && Contribution(i).Some? }

  /** Same event id, same event. */
  ghost predicate IdsAgree(inputs: set<Input>) {
    forall i, j | i in inputs && j in inputs ::
      i.FromWebhook? && j.FromWebhook? && i.event.eventId == j.event.eventId ==> i == j
  }

  ghost predicate Argued(inputs: set<Input>, paymentId: string, c: Class, s: Status) {
    exists i <- inputs :: PaymentOf(i) == paymentId && ClassOf(i) == c && Contribution(i) == Some(s)
  }

  /** The join of everything one class argues about a payment. */
  ghost function Joined(inputs: set<Input>, paymentId: string, c: Class): Option<Status> {
    if Argued(inputs, paymentId, c, Voided) then Some(Voided)
    else if Argued(inputs, paymentId, c, Approved) then Some(Approved)
    else if Argued(inputs, paymentId, c, Rejected) then Some(Rejected)
    else None
  }

  /** The merchant and amount of the first input that argues about a payment. */
  function FirstClass(inputs: seq<Input>, paymentId: string): Option<Class> {
    if inputs == [] then None
    else
      var before, last := FirstClass(inputs[..|inputs| - 1], paymentId), inputs[|inputs| - 1];
      if before.Some? then before else if Contributes(last, paymentId) then Some(ClassOf(last)) else None
  }

  function StatusOf(d: Desk, paymentId: string): Option<Status> {
    if paymentId in d.receipts then Some(d.receipts[paymentId].status) else None
  }

  function Inputs(inputs: seq<Input>): set<Input> { set i <- inputs }

  lemma InputsSnoc(inputs: seq<Input>, i: Input)
    ensures Inputs(inputs + [i]) == Inputs(inputs) + {i} && (inputs + [i])[..|inputs|] == inputs
  {
  }

  lemma {:induction false} FirstClassMeaning(inputs: seq<Input>, paymentId: string)
    ensures FirstClass(inputs, paymentId).None? <==> forall i <- Inputs(inputs) :: !Contributes(i, paymentId)
    ensures FirstClass(inputs, paymentId).Some? ==>
              exists i <- Inputs(inputs) :: Contributes(i, paymentId)
                  && FirstClass(inputs, paymentId) == Some(ClassOf(i))
    decreases |inputs|
  {
    if inputs != [] {
      var n := |inputs| - 1;
      assert inputs == inputs[..n] + [inputs[n]];
      InputsSnoc(inputs[..n], inputs[n]);
      FirstClassMeaning(inputs[..n], paymentId);
      assert inputs[n] in Inputs(inputs);
    }
  }

  // ---------- One delivery ----------

  lemma JoinedGrows(inputs: set<Input>, i: Input, p: string, c: Class)
    ensures Joined(inputs + {i}, p, c) ==
            if PaymentOf(i) != p || Contribution(i).None? || ClassOf(i) != c then Joined(inputs, p, c)
            else if Joined(inputs, p, c).None? then Contribution(i)
            else Some(Join(Joined(inputs, p, c).value, Contribution(i).value))
  {
    forall s ensures Argued(inputs + {i}, p, c, s) <==>
                     Argued(inputs, p, c, s) || (PaymentOf(i) == p && ClassOf(i) == c && Contribution(i) == Some(s))
    {
      assert i in inputs + {i};
    }
  }

  lemma NextIsJoin(s: Status, kind: EventType)
    requires kind != VoidRejected
    ensures NextBoldStatus(Some(s), kind) == Join(s, NextBoldStatus(None, kind))
    ensures NextBoldStatus(Some(NextBoldStatus(None, kind)), kind) == NextBoldStatus(None, kind)
  {
  }

  /** An input that the receipt of its payment does not contradict. */
  predicate Fits(d: Desk, i: Input) {
    PaymentOf(i) in d.receipts ==> Consistent(d.receipts[PaymentOf(i)], MerchantOf(i), AmountOf(i))
  }

  /** What one new, fitting input does to the desk. */
  lemma DeliverEffect(d: Desk, i: Input)
    requires Fits(d, i)
    requires i.FromWebhook? ==> i.event.eventId !in d.events
    ensures var after, p := Deliver(d, i), PaymentOf(i);
            && (forall q :: q != p ==> (q in after.receipts <==> q in d.receipts))
            && (forall q :: q != p && q in d.receipts ==> after.receipts[q] == d.receipts[q])
            && (Contribution(i).None? ==> after.receipts == d.receipts)
            && (Contribution(i).Some? ==>
                  && p in after.receipts && Consistent(after.receipts[p], MerchantOf(i), AmountOf(i))
                  && after.receipts[p].status ==
                     if p in d.receipts then Join(d.receipts[p].status, Contribution(i).value)
                     else Contribution(i).value)
    ensures var after := Deliver(d, i);
            after.events ==
            if i.FromWebhook?
            then d.events[i.event.eventId := StoredEvent(i.event.paymentId, i.event.kind, i.event.body)]
                            else d.events
  {
    if i.FromWebhook? && i.event.kind != VoidRejected && PaymentOf(i) in d.receipts {
      NextIsJoin(d.receipts[PaymentOf(i)].status, i.event.kind);
    }
  }

  /** A contributing input that contradicts the receipt is rolled back. */
  lemma ConflictEffect(d: Desk, i: Input)
    requires !Fits(d, i) && Contribution(i).Some?
    ensures Deliver(d, i) == d
  {
  }

  /** The desk holds what the first class of each payment says. */
  ghost predicate ReceiptSettled(d: Desk, inputs: seq<Input>, p: string) {
    match FirstClass(inputs, p)
    case None => p !in d.receipts
    case Some(c) => p in d.receipts && Consistent(d.receipts[p], c.0, c.1)
                    && Some(d.receipts[p].status) == Joined(Inputs(inputs), p, c)
  }

  /** A stored event was delivered, and its class was the first. */
  ghost predicate EventSettled(id: string, stored: StoredEvent, inputs: seq<Input>) {
    exists i <- Inputs(inputs) ::
      && i.FromWebhook? && i.event.eventId == id && i.event.body == stored.body
      && (Contribution(i).Some? ==> FirstClass(inputs, PaymentOf(i)) == Some(ClassOf(i)))
  }

  ghost predicate Settled(d: Desk, inputs: seq<Input>) {
    && (forall p :: ReceiptSettled(d, inputs, p))
    && forall id <- d.events :: EventSettled(id, d.events[id], inputs)
  }

  /** An input that changes neither the desk nor any join. */
  lemma NoEffect(d: Desk, inputs: seq<Input>, i: Input)
    requires Settled(d, inputs)
    requires forall p :: FirstClass(inputs + [i], p) == FirstClass(inputs, p)
    requires forall p, c | FirstClass(inputs, p) == Some(c) :: Joined(Inputs(inputs) + {i}, p, c) ==
                Joined(Inputs(inputs), p, c)
    ensures Settled(d, inputs + [i])
  {
    InputsSnoc(inputs, i);
    forall p ensures ReceiptSettled(d, inputs + [i], p) {
      assert ReceiptSettled(d, inputs, p);
    }
    forall id <- d.events ensures EventSettled(id, d.events[id], inputs + [i]) {
      assert EventSettled(id, d.events[id], inputs);
    }
  }

  /** A stored event is one of the inputs, so delivering it again adds nothing. */
  lemma RepeatedEvent(d: Desk, inputs: seq<Input>, i: Input)
    requires Settled(d, inputs) && IdsAgree(Inputs(inputs + [i])) && i.FromWebhook? && i.event.eventId in d.events
    ensures Deliver(d, i) == d && Settled(d, inputs + [i])
  {
    InputsSnoc(inputs, i);
    assert EventSettled(i.event.eventId, d.events[i.event.eventId], inputs);
    assert i in Inputs(inputs) && Inputs(inputs) + {i} == Inputs(inputs);
    NoEffect(d, inputs, i);
  }

  lemma ConflictSettles(d: Desk, inputs: seq<Input>, i: Input)
    requires Settled(d, inputs) && !Fits(d, i) && Contribution(i).Some?
    ensures Settled(Deliver(d, i), inputs + [i])
  {
    InputsSnoc(inputs, i);
    ConflictEffect(d, i);
    assert ReceiptSettled(d, inputs, PaymentOf(i));
    forall p, c | FirstClass(inputs, p) == Some(c) ensures Joined(Inputs(inputs) + {i}, p, c) ==
        Joined(Inputs(inputs), p, c) {
      assert ReceiptSettled(d, inputs, p);
      JoinedGrows(Inputs(inputs), i, p, c);
    }
    NoEffect(d, inputs, i);
  }

  lemma NothingArguedYet(inputs: seq<Input>, p: string, c: Class)
    requires FirstClass(inputs, p).None?
    ensures Joined(Inputs(inputs), p, c).None?
  {
    FirstClassMeaning(inputs, p);
  }

  lemma FittingReceipt(d: Desk, inputs: seq<Input>, i: Input, p: string)
    requires Settled(d, inputs) && (Fits(d, i) || Contribution(i).None?)
        && (i.FromWebhook? ==> i.event.eventId !in d.events)
    ensures ReceiptSettled(Deliver(d, i), inputs + [i], p)
  {
    InputsSnoc(inputs, i);
    assert ReceiptSettled(d, inputs, p);
    if Contribution(i).Some? {
      DeliverEffect(d, i);
      if PaymentOf(i) == p && FirstClass(inputs, p).None? { NothingArguedYet(inputs, p, ClassOf(i)); }
    }
    if FirstClass(inputs + [i], p).Some? { JoinedGrows(Inputs(inputs), i, p, FirstClass(inputs + [i], p).value); }
  }

  lemma FittingEvents(d: Desk, inputs: seq<Input>, i: Input, id: string)
    requires Settled(d, inputs) && (Fits(d, i) || Contribution(i).None?)
        && (i.FromWebhook? ==> i.event.eventId !in d.events)
    requires id in Deliver(d, i).events
    ensures EventSettled(id, Deliver(d, i).events[id], inputs + [i])
  {
    InputsSnoc(inputs, i);
    assert i in Inputs(inputs + [i]);
    if id in d.events {
      assert EventSettled(id, d.events[id], inputs);
    } else {
      assert ReceiptSettled(d, inputs, PaymentOf(i));
    }
  }

  /** One delivery, repeated or not, agreeing or not, leaves each payment with the join of its first class. */
  lemma DeliverSettles(d: Desk, inputs: seq<Input>, i: Input)
    requires Settled(d, inputs) && IdsAgree(Inputs(inputs + [i]))
    ensures Settled(Deliver(d, i), inputs + [i])
  {
    if i.FromWebhook? && i.event.eventId in d.events {
      RepeatedEvent(d, inputs, i);
    } else if !Fits(d, i) && Contribution(i).Some? {
      ConflictSettles(d, inputs, i);
    } else {
      forall p ensures ReceiptSettled(Deliver(d, i), inputs + [i], p) { FittingReceipt(d, inputs, i, p); }
      forall id <- Deliver(d, i).events ensures EventSettled(id, Deliver(d, i).events[id], inputs + [i]) {
        FittingEvents(d, inputs, i, id);
      }
    }
  }

  lemma {:induction false} AllSettled(inputs: seq<Input>)
    requires IdsAgree(Inputs(inputs))
    ensures Settled(DeliverAll(EMPTY, inputs), inputs)
    decreases |inputs|
  {
    if inputs != [] {
      var n := |inputs| - 1;
      assert inputs == inputs[..n] + [inputs[n]];
      InputsSnoc(inputs[..n], inputs[n]);
      AllSettled(inputs[..n]);
      DeliverSettles(DeliverAll(EMPTY, inputs[..n]), inputs[..n], inputs[n]);
    }
  }

  /** Whatever is delivered, in whatever order and however often: a payment ends with the join of what its
      first merchant and amount argue. */
  lemma FirstClassWins(inputs: seq<Input>, paymentId: string)
    requires IdsAgree(Inputs(inputs))
    ensures StatusOf(DeliverAll(EMPTY, inputs), paymentId) ==
            if FirstClass(inputs, paymentId).None? then None
            else Joined(Inputs(inputs), paymentId, FirstClass(inputs, paymentId).value)
  {
    AllSettled(inputs);
    assert ReceiptSettled(DeliverAll(EMPTY, inputs), inputs, paymentId);
  }

  // ---------- Exactly when the order does not matter ----------

  /** Every order of the inputs, with any repetitions, ends in the same status of the payment. */
  ghost predicate Confluent(inputs: set<Input>, paymentId: string) {
    forall a: seq<Input>, b: seq<Input> | Inputs(a) == inputs && Inputs(b) == inputs ::
      StatusOf(DeliverAll(EMPTY, a), paymentId) == StatusOf(DeliverAll(EMPTY, b), paymentId)
  }

  /** All merchants and amounts that argue about the payment argue for the same status. */
  ghost predicate SameJoins(inputs: set<Input>, paymentId: string) {
    forall i, j | i in inputs && j in inputs && Contributes(i, paymentId) && Contributes(j, paymentId) ::
      Joined(inputs, paymentId, ClassOf(i)) == Joined(inputs, paymentId, ClassOf(j))
  }

  lemma {:induction false} Enumerate(inputs: set<Input>) returns (s: seq<Input>)
    ensures Inputs(s) == inputs
    decreases inputs
  {
    s := [];
    if inputs != {} {
      var i :| i in inputs;
      var rest := Enumerate(inputs - {i});
      s := rest + [i];
      InputsSnoc(rest, i);
    }
  }

  lemma {:induction false} FirstClassHead(i: Input, rest: seq<Input>, paymentId: string)
    requires Contributes(i, paymentId)
    ensures FirstClass([i] + rest, paymentId) == Some(ClassOf(i))
    decreases |rest|
  {
    if rest == [] {
      assert [i] + rest == [i] && [i][..0] == [];
    } else {
      var n := |rest| - 1;
      FirstClassHead(i, rest[..n], paymentId);
      assert ([i] + rest)[..|[i] + rest| - 1] == [i] + rest[..n];
    }
  }

  lemma StartWith(inputs: set<Input>, i: Input, paymentId: string) returns (s: seq<Input>)
    requires IdsAgree(inputs) && i in inputs && Contributes(i, paymentId)
    ensures Inputs(s) == inputs && StatusOf(DeliverAll(EMPTY, s), paymentId) == Joined(inputs, paymentId, ClassOf(i))
  {
    var rest := Enumerate(inputs);
    s := [i] + rest;
    assert Inputs(s) == inputs;
    FirstClassHead(i, rest, paymentId);
    FirstClassWins(s, paymentId);
  }

  /** Inputs are confluent for a payment if and only if all classes that argue about it have the same join. */
  lemma ConfluentExactlyWhen(inputs: set<Input>, paymentId: string)
    requires IdsAgree(inputs)
    ensures Confluent(inputs, paymentId) <==> SameJoins(inputs, paymentId)
  {
    if Confluent(inputs, paymentId) {
      forall i, j | i in inputs && j in inputs && Contributes(i, paymentId) && Contributes(j, paymentId)
        ensures Joined(inputs, paymentId, ClassOf(i)) == Joined(inputs, paymentId, ClassOf(j))
      {
        var a := StartWith(inputs, i, paymentId);
        var b := StartWith(inputs, j, paymentId);
      }
    }
    if SameJoins(inputs, paymentId) {
      forall a: seq<Input>, b: seq<Input> | Inputs(a) == inputs && Inputs(b) == inputs
        ensures StatusOf(DeliverAll(EMPTY, a), paymentId) == StatusOf(DeliverAll(EMPTY, b), paymentId)
      {
        FirstClassWins(a, paymentId);
        FirstClassWins(b, paymentId);
        FirstClassMeaning(a, paymentId);
        FirstClassMeaning(b, paymentId);
      }
    }
  }

  /** Contributing inputs of one payment agree on merchant and amount. */
  ghost predicate Agree(inputs: set<Input>, paymentId: string) {
    forall i, j | i in inputs && j in inputs && Contributes(i, paymentId)
        && Contributes(j, paymentId) :: ClassOf(i) == ClassOf(j)
  }

  /** Whatever the order and the repetitions, agreeing inputs leave the payment with the join of them. */
  lemma Confluence(inputs: seq<Input>, other: seq<Input>, i: Input, paymentId: string)
    requires IdsAgree(Inputs(inputs)) && Agree(Inputs(inputs), paymentId) && Inputs(inputs) == Inputs(other)
    requires i in Inputs(inputs) && Contributes(i, paymentId)
    ensures StatusOf(DeliverAll(EMPTY, inputs), paymentId) == StatusOf(DeliverAll(EMPTY, other), paymentId)
    ensures StatusOf(DeliverAll(EMPTY, inputs), paymentId) == Joined(Inputs(inputs), paymentId, ClassOf(i))
  {
    ConfluentExactlyWhen(Inputs(inputs), paymentId);
    FirstClassWins(inputs, paymentId);
    FirstClassMeaning(inputs, paymentId);
  }

  /** A rejected sale and an approved one that differ in the amount: the first one wins. */
  lemma DisagreementIsNotConfluent(i: Input, j: Input)
    requires i == FromWebhook(Event("1", "a", SaleRejected, "p", "m", 100))
    requires j == FromWebhook(Event("2", "b", SaleApproved, "p", "m", 200))
    ensures IdsAgree({i, j}) && !Confluent({i, j}, "p")
  {
    assert Argued({i, j}, "p", ClassOf(j), Approved);
    assert !SameJoins({i, j}, "p");
    ConfluentExactlyWhen({i, j}, "p");
  }

  /** Two approved sales that differ in the amount are confluent all the same. */
  lemma DisagreementCanBeConfluent(i: Input, j: Input)
    requires i == FromWebhook(Event("1", "a", SaleApproved, "p", "m", 100))
    requires j == FromWebhook(Event("2", "b", SaleApproved, "p", "m", 200))
    ensures IdsAgree({i, j}) && !Agree({i, j}, "p") && Confluent({i, j}, "p")
  {
    var both := {i, j};
    assert i in both && j in both && Contributes(i, "p") && Contributes(j, "p") && ClassOf(i) != ClassOf(j);
    forall x | x in both ensures Joined(both, "p", ClassOf(x)) == Some(Approved) {
      assert Argued(both, "p", ClassOf(x), Approved);
      assert !Argued(both, "p", ClassOf(x), Voided);
    }
    assert SameJoins(both, "p");
    ConfluentExactlyWhen(both, "p");
  }

  // ---------- What every run keeps ----------

  datatype Operation =
    | Input(input: Input)
    | ClaimOperation(paymentId: string, merchantId: string, claim: Claim, usable: bool)
    | ReturnOperation(paymentId: string, actor: string)

  function Apply(d: Desk, op: Operation): Desk {
    match op
    case Input(i) => Deliver(d, i)
    case ClaimOperation(p, m, c, usable) => d.(receipts := MakeClaim(d.receipts, p, m, c, usable).0)
    case ReturnOperation(p, actor) => d.(receipts := ReturnAdvance(d.receipts, p, actor).0)
  }

  function ApplyAll(d: Desk, ops: seq<Operation>): Desk {
    if ops == [] then d else Apply(ApplyAll(d, ops[..|ops| - 1]), ops[|ops| - 1])
  }

  /** An order is paid by at most one receipt, never with more than was received. */
  ghost predicate Claims(receipts: Receipts) {
    && (forall p <- receipts :: receipts[p].claim.Some? ==> receipts[p].claim.value.advance <= receipts[p].amount)
    && (forall p <- receipts :: receipts[p].returnedBy.Some? ==> receipts[p].claim.Some?)
    && forall p, q | p in receipts && q in receipts && receipts[p].claim.Some? && receipts[q].claim.Some?
                     && receipts[p].claim.value.orderId == receipts[q].claim.value.orderId :: p == q
  }

  /** From one moment to a later one: no receipt disappears, no status goes down, and merchant, amount,
      claim and return are written once. */
  ghost predicate Later(before: Receipts, after: Receipts) {
    forall p <- before ::
      && p in after && Rank(before[p].status) <= Rank(after[p].status)
      && after[p].merchantId == before[p].merchantId && after[p].amount == before[p].amount
      && (before[p].claim.Some? ==> after[p].claim == before[p].claim)
      && (before[p].returnedBy.Some? ==> after[p].returnedBy == before[p].returnedBy)
  }

  /** A row whose status alone moves forward keeps the claims of all. */
  lemma StatusMovesForward(before: Receipts, after: Receipts, p: string)
    requires Claims(before) && p in after && after == before[p := after[p]]
    requires p in before ==>
               && Rank(before[p].status) <= Rank(after[p].status)
                   && Consistent(after[p], before[p].merchantId, before[p].amount)
               && after[p].claim == before[p].claim && after[p].returnedBy == before[p].returnedBy
    requires p !in before ==> after[p].claim.None? && after[p].returnedBy.None?
    ensures Claims(after) && Later(before, after)
  {
  }

  lemma DeliverKeeps(d: Desk, i: Input)
    requires Claims(d.receipts)
    ensures Claims(Deliver(d, i).receipts) && Later(d.receipts, Deliver(d, i).receipts)
  {
    var after, p := Deliver(d, i).receipts, PaymentOf(i);
    if after != d.receipts {
      assert p in after;
      assert after == d.receipts[p := after[p]];
      StatusMovesForward(d.receipts, after, p);
    }
  }

  lemma ClaimKeeps(receipts: Receipts, p: string, merchantId: string, c: Claim, usable: bool)
    requires Claims(receipts)
    ensures Claims(MakeClaim(receipts, p, merchantId, c, usable).0)
        && Later(receipts, MakeClaim(receipts, p, merchantId, c, usable).0)
  {
    var (after, reply) := MakeClaim(receipts, p, merchantId, c, usable);
    if reply == Stored {
      forall q | q in receipts && receipts[q].claim.Some? ensures receipts[q].claim.value.orderId != c.orderId {
      }
    }
  }

  lemma ReturnKeeps(receipts: Receipts, p: string, actor: string)
    requires Claims(receipts)
    ensures Claims(ReturnAdvance(receipts, p, actor).0) && Later(receipts, ReturnAdvance(receipts, p, actor).0)
  {
    var (after, reply) := ReturnAdvance(receipts, p, actor);
    if reply == Stored { assert after == receipts[p := receipts[p].(returnedBy := Some(actor))]; }
  }

  lemma ApplyKeeps(d: Desk, op: Operation)
    requires Claims(d.receipts)
    ensures Claims(Apply(d, op).receipts) && Later(d.receipts, Apply(d, op).receipts)
  {
    match op
    case Input(i) => DeliverKeeps(d, i);
    case ClaimOperation(p, m, c, usable) => ClaimKeeps(d.receipts, p, m, c, usable);
    case ReturnOperation(p, actor) => ReturnKeeps(d.receipts, p, actor);
  }

  /** Over any run, consistent inputs or not, receipts only move forward and claims stay sound. */
  lemma {:induction false} RunKeeps(d: Desk, ops: seq<Operation>)
    requires Claims(d.receipts)
    ensures Claims(ApplyAll(d, ops).receipts) && Later(d.receipts, ApplyAll(d, ops).receipts)
    decreases |ops|
  {
    if ops != [] {
      var n := |ops| - 1;
      RunKeeps(d, ops[..n]);
      ApplyKeeps(ApplyAll(d, ops[..n]), ops[n]);
    }
  }
}
