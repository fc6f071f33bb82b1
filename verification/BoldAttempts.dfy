/** QR payment attempts (bold-online.service.ts) as a state machine. `create` and `refresh` run in any
    number of sessions; each keeps its own copy of the attempt row and saves the whole row, so a save may
    be stale. One event is one transaction, or one reply of the payment provider with the save after it. */
module BoldAttempts {
  import opened Options
  import opened BoldReceipts

  datatype AttemptStatus = Creating | Running | Unknown | Paid | Refused | Annulled | Expired

  datatype Attempt = Attempt(merchantId: string, amount: int, status: AttemptStatus, transactionId: Option<string>)

  datatype Session =
    | CreateSession(id: string, local: Attempt)
    | RefreshSession(id: string, local: Attempt)

  datatype World = World(desk: Desk, attempts: map<string, Attempt>, sessions: map<nat, Session>)

  datatype Event =
    | DeskEvent(op: Operation)
    | StartCreate(session: nat, id: string, merchantId: string, amount: int)
    | FinishCreate(session: nat, transactionId: string)
    | FailCreate(session: nat, known: Option<string>)
    | StartRefresh(session: nat, id: string)
    | NoticeVoid(session: nat)
    | SaveVoid(session: nat)
    | ReplyApproved(session: nat, transactionId: string)
    | ReplyRejected(session: nat)
    | ReplyExpired(session: nat)
    | Crash(session: nat)

  /** `refresh` stops early on these. */
  predicate Final(s: AttemptStatus) { s == Paid || s == Refused || s == Annulled }

  /** The whole row is written from the session's copy, and the session ends. */
  function Save(w: World, session: nat, row: Attempt): World
    requires session in w.sessions
  {
    w.(attempts := w.attempts[w.sessions[session].id := row], sessions := w.sessions - {session})
  }

  predicate Creates(w: World, session: nat) { session in w.sessions && w.sessions[session].CreateSession? }

  predicate Refreshes(w: World, session: nat) { session in w.sessions && w.sessions[session].RefreshSession? }

  /** A reply reaches a refresh that has not stopped early, and names the transaction it already knows. */
  predicate AwaitsReply(w: World, session: nat) {
    Refreshes(w, session) && !Final(w.sessions[session].local.status)
  }

  function Apply(w: World, e: Event): World {
    match e
    case DeskEvent(op) => w.(desk := BoldReceipts.Apply(w.desk, op))
    case StartCreate(s, id, m, a) =>
      if id in w.attempts || s in w.sessions then w
      else
        var row := Attempt(m, a, Creating, None);
        w.(attempts := w.attempts[id := row], sessions := w.sessions[s := CreateSession(id, row)])
    case FinishCreate(s, t) =>
      if !Creates(w, s) then w
      else Save(w, s, w.sessions[s].local.(transactionId := Some(t), status := Running))
    case FailCreate(s, t) =>
      if !Creates(w, s) then w
      else Save(w, s, w.sessions[s].local.(transactionId := t, status := Unknown))
    case StartRefresh(s, id) =>
      if id !in w.attempts || s in w.sessions then w
      else w.(sessions := w.sessions[s := RefreshSession(id, w.attempts[id])])
    case NoticeVoid(s) =>
      if !Refreshes(w, s) then w
      else
        var a := w.sessions[s].local;
        if a.transactionId.Some? && StatusOf(w.desk, a.transactionId.value) == Some(Voided)
        then w.(sessions := w.sessions[s := w.sessions[s].(local := a.(status := Annulled))]) else w
    case SaveVoid(s) =>
      if !Refreshes(w, s) || w.sessions[s].local.status != Annulled then w else Save(w, s, w.sessions[s].local)
    case ReplyApproved(s, t) =>
      if !AwaitsReply(w, s) then w
      else
        var a := w.sessions[s].local;
        if a.transactionId.Some? && a.transactionId != Some(t) then w
        else
          var polled := Poll(w.desk.receipts, t, a.merchantId, a.amount);
          if polled.None? then w
          else Save(w.(desk := w.desk.(receipts := polled.value)), s, a.(status := Paid, transactionId := Some(t)))
    case ReplyRejected(s) =>
      if !AwaitsReply(w, s) then w else Save(w, s, w.sessions[s].local.(status := Refused))
    case ReplyExpired(s) =>
      if !AwaitsReply(w, s) then w else Save(w, s, w.sessions[s].local.(status := Expired))
    case Crash(s) => w.(sessions := w.sessions - {s})
  }

  function ApplyAll(w: World, events: seq<Event>): World {
    if events == [] then w else Apply(ApplyAll(w, events[..|events| - 1]), events[|events| - 1])
  }

  // ---------- Safety ----------

  /** What a row, or a copy of one, may claim about its receipt. */
  predicate Backed(a: Attempt, receipts: Receipts) {
    && (a.status == Paid ==>
          && a.transactionId.Some? && a.transactionId.value in receipts
          && Consistent(receipts[a.transactionId.value], a.merchantId, a.amount)
          && receipts[a.transactionId.value].status in {Approved, Voided})
    && (a.status == Annulled ==>
          && a.transactionId.Some? && a.transactionId.value in receipts
          && receipts[a.transactionId.value].status == Voided)
  }

  /** Same merchant and amount for ever. */
  predicate SameCharge(a: Attempt, b: Attempt) { a.merchantId == b.merchantId && a.amount == b.amount }

  ghost predicate Safe(w: World) {
    && (forall id <- w.attempts :: Backed(w.attempts[id], w.desk.receipts))
    && (forall s <- w.sessions :: Backed(w.sessions[s].local, w.desk.receipts))
    && (forall s <- w.sessions ::
          w.sessions[s].id in w.attempts && SameCharge(w.sessions[s].local, w.attempts[w.sessions[s].id]))
    && (forall s <- w.sessions :: w.sessions[s].CreateSession? ==> w.sessions[s].local.status == Creating)
    && Claims(w.desk.receipts)
  }

  /** No attempt disappears or changes its charge. */
  ghost predicate KeepsCharges(before: World, after: World) {
    forall id <- before.attempts :: id in after.attempts && SameCharge(before.attempts[id], after.attempts[id])
  }

  lemma BackedLater(a: Attempt, before: Receipts, after: Receipts)
    requires Backed(a, before) && Later(before, after)
    ensures Backed(a, after)
  {
  }

  /** Moving the receipts forward keeps everything safe. */
  lemma DeskMoves(w: World, desk: Desk)
    requires Safe(w) && Later(w.desk.receipts, desk.receipts) && Claims(desk.receipts)
    ensures Safe(w.(desk := desk))
  {
    forall id <- w.attempts ensures Backed(w.attempts[id], desk.receipts) {
      BackedLater(w.attempts[id], w.desk.receipts, desk.receipts);
    }
    forall s <- w.sessions ensures Backed(w.sessions[s].local, desk.receipts) {
      BackedLater(w.sessions[s].local, w.desk.receipts, desk.receipts);
    }
  }

  /** A save is safe when the row saved is backed, however stale the copy was. */
  lemma SaveSafe(w: World, session: nat, row: Attempt)
    requires Safe(w) && session in w.sessions && Backed(row, w.desk.receipts)
        && SameCharge(row, w.sessions[session].local)
    ensures Safe(Save(w, session, row)) && KeepsCharges(w, Save(w, session, row))
  {
  }

  lemma ApprovalSafe(w: World, s: nat, t: string)
    requires Safe(w)
    ensures Safe(Apply(w, ReplyApproved(s, t))) && KeepsCharges(w, Apply(w, ReplyApproved(s, t)))
  {
    if AwaitsReply(w, s) {
      var a := w.sessions[s].local;
      var polled := Poll(w.desk.receipts, t, a.merchantId, a.amount);
      if polled.Some? && (a.transactionId.None? || a.transactionId == Some(t)) {
        DeliverKeeps(w.desk, FromPoll(t, a.merchantId, a.amount));
        var desk := w.desk.(receipts := polled.value);
        DeskMoves(w, desk);
        SaveSafe(w.(desk := desk), s, a.(status := Paid, transactionId := Some(t)));
      }
    }
  }

  /** The events of `create`. */
  lemma CreateSafe(w: World, e: Event)
    requires Safe(w) && (e.StartCreate? || e.FinishCreate? || e.FailCreate?)
    ensures Safe(Apply(w, e)) && KeepsCharges(w, Apply(w, e))
  {
    if Creates(w, e.session) && !e.StartCreate? {
      var a := w.sessions[e.session].local;
      SaveSafe(w, e.session, if e.FinishCreate? then a.(transactionId := Some(e.transactionId), status := Running)
                             else a.(transactionId := e.known, status := Unknown));
    }
  }

  /** The events of `refresh` that write the row without an approval. */
  lemma RefreshSafe(w: World, e: Event)
    requires Safe(w) && (e.SaveVoid? || e.ReplyRejected? || e.ReplyExpired?)
    ensures Safe(Apply(w, e)) && KeepsCharges(w, Apply(w, e))
  {
    if Refreshes(w, e.session) {
      var a := w.sessions[e.session].local;
      SaveSafe(w, e.session, if e.SaveVoid? then a else if e.ReplyRejected? then a.(status := Refused)
          else a.(status := Expired));
    }
  }

  /** The events that only touch a session's copy. */
  lemma SessionSafe(w: World, e: Event)
    requires Safe(w) && (e.StartRefresh? || e.NoticeVoid? || e.Crash?)
    ensures Safe(Apply(w, e)) && KeepsCharges(w, Apply(w, e))
  {
  }

  lemma ApplySafe(w: World, e: Event)
    requires Safe(w)
    ensures Safe(Apply(w, e)) && KeepsCharges(w, Apply(w, e))
  {
    match e
    case DeskEvent(op) =>
      ApplyKeeps(w.desk, op);
      DeskMoves(w, BoldReceipts.Apply(w.desk, op));
    case ReplyApproved(s, t) => ApprovalSafe(w, s, t);
    case StartCreate(_, _, _, _) => CreateSafe(w, e);
    case FinishCreate(_, _) => CreateSafe(w, e);
    case FailCreate(_, _) => CreateSafe(w, e);
    case SaveVoid(_) => RefreshSafe(w, e);
    case ReplyRejected(_) => RefreshSafe(w, e);
    case ReplyExpired(_) => RefreshSafe(w, e);
    case StartRefresh(_, _) => SessionSafe(w, e);
    case NoticeVoid(_) => SessionSafe(w, e);
    case Crash(_) => SessionSafe(w, e);
  }

  const START: World := World(EMPTY, map[], map[])

  lemma {:induction false} RunSafe(events: seq<Event>)
    ensures Safe(ApplyAll(START, events))
    decreases |events|
  {
    if events != [] {
      RunSafe(events[..|events| - 1]);
      ApplySafe(ApplyAll(START, events[..|events| - 1]), events[|events| - 1]);
    }
  }

  /** In every interleaving a paid attempt has an approved or voided receipt for its own charge, and an
      annulled one a voided receipt. */
  lemma AttemptsAreBacked(events: seq<Event>, id: string)
    requires id in ApplyAll(START, events).attempts
    ensures Backed(ApplyAll(START, events).attempts[id], ApplyAll(START, events).desk.receipts)
  {
    RunSafe(events);
  }

  // ---------- What decides an attempt ----------

  /** A refresh of this attempt that read it while it was open: an expired attempt still is. */
  predicate Asks(w: World, session: nat, id: string) {
    session in w.sessions && w.sessions[session].RefreshSession? && w.sessions[session].id == id
        && w.sessions[session].local.status in {Creating, Running, Unknown, Expired}
  }

  /** The receipt of the transaction, if there is one, is not voided and is for the attempt's charge. */
  predicate Payable(a: Attempt, t: string, receipts: Receipts) {
    && (a.transactionId.Some? ==> a.transactionId == Some(t))
    && (t in receipts ==> receipts[t].status != Voided && receipts[t].merchantId == a.merchantId
                          && receipts[t].amount == a.amount)
  }

  /** One step: exactly which reply or save gives an attempt each of its decided statuses. */
  lemma DecidedExactlyWhen(w: World, e: Event, id: string)
    requires id in w.attempts
    ensures var was, now := w.attempts[id].status, Apply(w, e).attempts[id].status;
            && (was != Paid ==> (now == Paid <==>
                  e.ReplyApproved? && Asks(w, e.session, id)
                  && Payable(w.sessions[e.session].local, e.transactionId, w.desk.receipts)))
            && (was != Refused ==> (now == Refused <==> e.ReplyRejected? && Asks(w, e.session, id)))
            && (was != Expired ==> (now == Expired <==> e.ReplyExpired? && Asks(w, e.session, id)))
            && (was != Annulled ==> (now == Annulled <==>
                  e.SaveVoid? && e.session in w.sessions && w.sessions[e.session].RefreshSession?
                  && w.sessions[e.session].id == id && w.sessions[e.session].local.status == Annulled))
  {
  }

  /** A creation inserts its attempt and, when Bold replies or fails, saves the row it inserted with what it
      learned, whatever the row has become. */
  lemma CreateExactlyWhen(w: World, s: nat, id: string, merchantId: string, amount: int, row: Attempt, t: string,
      known: Option<string>)
    ensures Apply(w, StartCreate(s, id, merchantId, amount)) ==
            if id in w.attempts || s in w.sessions then w
            else
              var inserted := Attempt(merchantId, amount, Creating, None);
              World(w.desk, w.attempts[id := inserted], w.sessions[s := CreateSession(id, inserted)])
    ensures s in w.sessions && w.sessions[s] == CreateSession(id, row) ==>
              && Apply(w, FinishCreate(s, t)) ==
                 World(w.desk, w.attempts[id := Attempt(row.merchantId, row.amount, Running, Some(t))],
                     w.sessions - {s})
              && Apply(w, FailCreate(s, known)) ==
                 World(w.desk, w.attempts[id := Attempt(row.merchantId, row.amount, Unknown, known)],
                     w.sessions - {s})
    ensures s !in w.sessions || w.sessions[s].RefreshSession? ==>
              Apply(w, FinishCreate(s, t)) == w && Apply(w, FailCreate(s, known)) == w
  {
  }

  /** A refresh works on a copy of the attempt as it is when it starts; its other replies save that copy with
      nothing but the new status. */
  lemma RefreshExactlyWhen(w: World, s: nat, id: string, e: Event)
    ensures Apply(w, StartRefresh(s, id)) ==
            if id in w.attempts && s !in w.sessions
            then w.(sessions := w.sessions[s := RefreshSession(id, w.attempts[id])]) else w
    ensures Asks(w, s, id) && (e == ReplyRejected(s) || e == ReplyExpired(s)) ==>
              Apply(w, e) ==
              World(w.desk, w.attempts[id :=
                  w.sessions[s].local.(status := if e.ReplyRejected? then Refused else Expired)], w.sessions - {s})
  {
  }

  /** A refresh of an attempt whose receipt was voided annuls it, whatever its status was; with any other
      receipt it leaves the attempt as it is. */
  lemma VoidAnnuls(w: World, s: nat, id: string)
    requires id in w.attempts && s in w.sessions && w.sessions[s] == RefreshSession(id, w.attempts[id])
    requires w.attempts[id].status != Annulled
    ensures var after := Apply(Apply(w, NoticeVoid(s)), SaveVoid(s));
            var t := w.attempts[id].transactionId;
            if t.Some? && t.value in w.desk.receipts && w.desk.receipts[t.value].status == Voided
            then after == w.(attempts := w.attempts[id := w.attempts[id].(status := Annulled)],
                             sessions := w.sessions - {s})
            else after == w
  {
  }

  /** An attempt that expired can still be paid: a later refresh that finds the approval marks it paid, and the
      receipt approved. */
  lemma ExpiredCanBePaid(w: World, s: nat, id: string, t: string)
    requires id in w.attempts && w.attempts[id].status == Expired && s !in w.sessions
    requires Payable(w.attempts[id], t, w.desk.receipts)
    ensures var after := Apply(Apply(w, StartRefresh(s, id)), ReplyApproved(s, t));
            && after.attempts == w.attempts[id := w.attempts[id].(status := Paid, transactionId := Some(t))]
            && StatusOf(after.desk, t) == Some(Approved)
  {
  }

  /** The event saves a row for this attempt from a copy in which it was not paid. */
  predicate Overwrites(w: World, e: Event, id: string) {
    match e
    case FinishCreate(s, _) => Creates(w, s) && w.sessions[s].id == id
    case FailCreate(s, _) => Creates(w, s) && w.sessions[s].id == id
    case SaveVoid(s) => Refreshes(w, s) && w.sessions[s].id == id && w.sessions[s].local.status == Annulled
    case ReplyRejected(s) => AwaitsReply(w, s) && w.sessions[s].id == id
    case ReplyExpired(s) => AwaitsReply(w, s) && w.sessions[s].id == id
    case _ => false
  }

  /** One step: a paid attempt stops being paid exactly at such a save. */
  lemma PaidIsLostExactlyWhen(w: World, e: Event, id: string)
    requires Safe(w) && id in w.attempts && w.attempts[id].status == Paid
    ensures id in Apply(w, e).attempts
    ensures Apply(w, e).attempts[id].status != Paid <==> Overwrites(w, e, id)
  {
  }

  /** Paid, or paid and then voided. */
  predicate Charged(s: AttemptStatus) { s == Paid || s == Annulled }

  /** The session can still save this attempt from a copy in which it was not paid. */
  predicate Threatens(s: Session, id: string) {
    s.id == id && (s.CreateSession? || !Final(s.local.status))
  }

  ghost predicate Unthreatened(w: World, id: string) {
    forall s <- w.sessions :: !Threatens(w.sessions[s], id)
  }

  /** A paid attempt that no session threatens stays so through every step: sessions started from now on
      read it as paid. */
  lemma StaysCharged(w: World, e: Event, id: string)
    requires id in w.attempts && Charged(w.attempts[id].status) && Unthreatened(w, id)
    ensures id in Apply(w, e).attempts && Charged(Apply(w, e).attempts[id].status) && Unthreatened(Apply(w, e), id)
  {
  }

  lemma {:induction false} ChargedForEver(w: World, events: seq<Event>, id: string)
    requires id in w.attempts && Charged(w.attempts[id].status) && Unthreatened(w, id)
    ensures var after := ApplyAll(w, events);
            id in after.attempts && Charged(after.attempts[id].status) && Unthreatened(after, id)
    decreases |events|
  {
    if events != [] {
      ChargedForEver(w, events[..|events| - 1], id);
      StaysCharged(ApplyAll(w, events[..|events| - 1]), events[|events| - 1], id);
    }
  }

  lemma ThreatStrikes(w: World, s: nat, id: string)
    requires s in w.sessions && Threatens(w.sessions[s], id)
    ensures var e := if w.sessions[s].CreateSession? then FailCreate(s, None) else ReplyRejected(s);
            id in ApplyAll(w, [e]).attempts && !Charged(ApplyAll(w, [e]).attempts[id].status)
  {
    var e := if w.sessions[s].CreateSession? then FailCreate(s, None) else ReplyRejected(s);
    assert [e][..0] == [];
  }

  /** A paid attempt stays paid, or paid and voided, in every continuation exactly when no session is left
      that holds a copy in which it was not decided. */
  lemma PaidForEverExactlyWhen(w: World, id: string)
    requires id in w.attempts && Charged(w.attempts[id].status)
    ensures (forall events: seq<Event> ::
               id in ApplyAll(w, events).attempts && Charged(ApplyAll(w, events).attempts[id].status)) <==>
            Unthreatened(w, id)
  {
    if Unthreatened(w, id) {
      forall events: seq<Event> ensures id in ApplyAll(w, events).attempts
          && Charged(ApplyAll(w, events).attempts[id].status) {
        ChargedForEver(w, events, id);
      }
    } else {
      var s :| s in w.sessions && Threatens(w.sessions[s], id);
      ThreatStrikes(w, s, id);
    }
  }

  lemma ApplyLast(events: seq<Event>, e: Event)
    ensures ApplyAll(START, events + [e]) == Apply(ApplyAll(START, events), e)
  {
    assert (events + [e])[..|events|] == events;
  }

  /** The converse does not hold: when a refresh finds the approval while `create` is still waiting for
      its reply, the later save of `create` puts the paid attempt back to running. */
  lemma PaidCanBeOverwritten(events: seq<Event>)
    requires events == [StartCreate(1, "q", "m", 500), StartRefresh(2, "q"), ReplyApproved(2, "t")]
    ensures var w := ApplyAll(START, events);
            "q" in w.attempts && w.attempts["q"].status == Paid
    ensures var w := ApplyAll(START, events + [FinishCreate(1, "t")]);
            "q" in w.attempts && w.attempts["q"].status == Running && StatusOf(w.desk, "t") == Some(Approved)
  {
    ApplyLast([], events[0]);
    ApplyLast([events[0]], events[1]);
    ApplyLast([events[0], events[1]], events[2]);
    ApplyLast(events, FinishCreate(1, "t"));
    assert [] + [events[0]] == [events[0]];
    assert [events[0]] + [events[1]] == [events[0], events[1]];
    assert [events[0], events[1]] + [events[2]] == events;
  }
}
