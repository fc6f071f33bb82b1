/** What the payment rows say after the webhooks, over every run: when a row gets two orders, which payment it
    shows, and what a crash between the two commits leaves (payments.service.ts). */
module PaymentLinks {
  import opened Options
  import opened OrderProtocol

  // ---------- When two orders are made for one payment row ----------

  predicate MadeFor(orders: seq<Order>, i: nat, row: nat) {
    i < |orders| && orders[i].row == Some(row)
  }

  ghost predicate TwoOrders(w: World, row: nat) {
    exists i: nat, j: nat :: i < j && MadeFor(w.orders, i, row) && MadeFor(w.orders, j, row)
  }

  ghost predicate HasOrder(w: World, row: nat) { exists i: nat :: MadeFor(w.orders, i, row) }

  /** The process is to link the row with an order made for it. */
  predicate Tends(w: World, p: Process, row: nat) {
    && p.hook.Some? && p.hook.value.row == row && (p.phase.Committed? || p.phase.Got?)
    && MadeFor(w.orders, p.phase.order, row)
  }

  /** The step ends a process that was to link the row with its order, without linking it. */
  ghost predicate Loses(w: World, e: Event, row: nat) {
    && (e.End? || e.LinkPayment?) && e.pid in w.processes && Tends(w, w.processes[e.pid], row)
    && (e.LinkPayment? ==> w.processes[e.pid].phase.Got? && MpIdTaken(w, w.processes[e.pid].hook.value.mpId, row))
  }

  /** The step commits an order for the row. */
  predicate CommitsFor(w: World, e: Event, row: nat) {
    && e.Commit? && e.pid in w.processes && w.processes[e.pid].phase.Inserted?
    && w.processes[e.pid].hook.Some? && w.processes[e.pid].hook.value.row == row
  }

  predicate Linked(w: World, row: nat) { row in w.payments && w.payments[row].orderId.Some? }

  /** An order was made for the row, and neither the row nor a running process knows. */
  ghost predicate Abandoned(w: World, row: nat) {
    && HasOrder(w, row) && !Linked(w, row)
    && forall q <- w.processes :: !Tends(w, w.processes[q], row)
  }

  /** Orders of other rows, and of none, come and go without a trace. */
  lemma OthersAppend(w: World, e: Event, row: nat)
    requires !CommitsFor(w, e, row)
    ensures HasOrder(Apply(w, e), row) <==> HasOrder(w, row)
    ensures TwoOrders(Apply(w, e), row) <==> TwoOrders(w, row)
    ensures forall i: nat :: MadeFor(Apply(w, e).orders, i, row) <==> MadeFor(w.orders, i, row)
  {
    forall i: nat ensures MadeFor(Apply(w, e).orders, i, row) <==> MadeFor(w.orders, i, row) {
    }
  }

  /** A step touches only its own process. */
  lemma OtherProcess(w: World, e: Event, q: Pid)
    requires q in w.processes && (e.AddPayment? || e.pid != q)
    ensures q in Apply(w, e).processes && Apply(w, e).processes[q] == w.processes[q]
  {
  }

  lemma StillTends(w: World, e: Event, row: nat, q: Pid)
    requires Safe(w) && q in w.processes && Tends(w, w.processes[q], row) && !Loses(w, e, row) && !Linked(w, row)
    ensures var after := Apply(w, e);
            (q in after.processes && Tends(after, after.processes[q], row)) || Linked(after, row)
  {
    assert Current(w.orders, w.payments, w.processes[q]);
    if e.AddPayment? || e.pid != q { OtherProcess(w, e, q); } else { TendedMoves(w, e, row); }
  }

  lemma TendedMoves(w: World, e: Event, row: nat)
    requires !e.AddPayment? && e.pid in w.processes && Tends(w, w.processes[e.pid], row) && !Loses(w, e, row)
        && row in w.payments
    ensures var after := Apply(w, e);
            (e.pid in after.processes && Tends(after, after.processes[e.pid], row)) || Linked(after, row)
  {
  }

  /** A row is abandoned by nothing but such a loss. */
  lemma AbandonedByLoss(w: World, e: Event, row: nat)
    requires Safe(w) && !Abandoned(w, row) && Abandoned(Apply(w, e), row)
    ensures Loses(w, e, row)
  {
    var after := Apply(w, e);
    ApplySafe(w, e);
    if CommitsFor(w, e, row) {
      assert Tends(after, after.processes[e.pid], row);
    } else if !Loses(w, e, row) {
      OthersAppend(w, e, row);
      var i: nat :| MadeFor(w.orders, i, row);
      var q :| q in w.processes && Tends(w, w.processes[q], row);
      StillTends(w, e, row, q);
    }
  }

  lemma {:induction false} LostBefore(events: seq<Event>, row: nat) returns (n: nat)
    requires Abandoned(Run(events), row)
    ensures LosesAt(events, n, row)
    decreases |events|
  {
    var k := |events| - 1;
    RunSafe(events[..k]);
    if Abandoned(Run(events[..k]), row) {
      n := LostBefore(events[..k], row);
      assert events[..k][..n] == events[..n];
    } else {
      AbandonedByLoss(Run(events[..k]), events[k], row);
      n := k;
    }
  }

  /** Whoever commits for a row that has an order already finds it abandoned. */
  lemma SecondCommitFindsAbandoned(w: World, e: Event, row: nat)
    requires Safe(w) && CommitsFor(w, e, row) && HasOrder(w, row)
    ensures Abandoned(w, row)
  {
    var p := w.processes[e.pid];
    assert Current(w.orders, w.payments, p);
    forall q <- w.processes ensures !Tends(w, w.processes[q], row) {
      if q != e.pid { assert Apart(w.processes[q], p); }
    }
  }

  lemma CommitAdds(w: World, e: Event, row: nat)
    requires CommitsFor(w, e, row)
    ensures TwoOrders(Apply(w, e), row) <==> TwoOrders(w, row) || HasOrder(w, row)
  {
    var after := Apply(w, e);
    assert MadeFor(after.orders, |w.orders|, row);
    forall i: nat ensures MadeFor(after.orders, i, row) <==> MadeFor(w.orders, i, row) || i == |w.orders| {
    }
  }

  lemma {:induction false} TwoComeFrom(events: seq<Event>, row: nat) returns (n: nat, m: nat)
    requires TwoOrders(Run(events), row)
    ensures n < m && LosesAt(events, n, row) && CommitsAt(events, m, row)
    decreases |events|
  {
    var k := |events| - 1;
    var w := Run(events[..k]);
    RunSafe(events[..k]);
    if TwoOrders(w, row) {
      n, m := TwoComeFrom(events[..k], row);
      assert events[..k][..n] == events[..n] && events[..k][..m] == events[..m];
    } else if CommitsFor(w, events[k], row) {
      CommitAdds(w, events[k], row);
      SecondCommitFindsAbandoned(w, events[k], row);
      n := LostBefore(events[..k], row);
      assert events[..k][..n] == events[..n];
      m := k;
    } else {
      OthersAppend(w, events[k], row);
    }
  }

  lemma LaterExtends(events: seq<Event>, n: nat, m: nat)
    requires n <= m <= |events|
    ensures Extends(Run(events[..n]), Run(events[..m]))
  {
    assert events[..n] + events[n..m] == events[..m];
    LinksAreForEver(events[..n], events[n..m]);
  }

  lemma OrdersStay(before: World, after: World, row: nat)
    requires Extends(before, after)
    ensures HasOrder(before, row) ==> HasOrder(after, row)
    ensures TwoOrders(before, row) ==> TwoOrders(after, row)
  {
    forall i: nat | MadeFor(before.orders, i, row) ensures MadeFor(after.orders, i, row) {
      assert after.orders[i] == before.orders[i];
    }
  }

  /** Step `n` of the run is such a loss. */
  ghost predicate LosesAt(events: seq<Event>, n: nat, row: nat) {
    n < |events| && Loses(Run(events[..n]), events[n], row)
  }

  /** Step `m` of the run commits an order for the row. */
  ghost predicate CommitsAt(events: seq<Event>, m: nat, row: nat) {
    m < |events| && CommitsFor(Run(events[..m]), events[m], row)
  }

  lemma LossMeansOrder(events: seq<Event>, n: nat, row: nat)
    requires LosesAt(events, n, row)
    ensures HasOrder(Run(events[..n]), row)
  {
    var w := Run(events[..n]);
    assert MadeFor(w.orders, w.processes[events[n].pid].phase.order, row);
  }

  lemma CommitMeansTwo(events: seq<Event>, m: nat, row: nat)
    requires CommitsAt(events, m, row) && HasOrder(Run(events[..m]), row)
    ensures TwoOrders(Run(events[..m + 1]), row)
  {
    assert events[..m + 1][..m] == events[..m];
    CommitAdds(Run(events[..m]), events[m], row);
  }

  lemma OrdersStayInRun(events: seq<Event>, n: nat, m: nat, row: nat)
    requires n <= m <= |events|
    ensures HasOrder(Run(events[..n]), row) ==> HasOrder(Run(events[..m]), row)
    ensures TwoOrders(Run(events[..n]), row) ==> TwoOrders(Run(events[..m]), row)
  {
    LaterExtends(events, n, m);
    OrdersStay(Run(events[..n]), Run(events[..m]), row);
  }

  lemma TwoFollow(events: seq<Event>, row: nat, n: nat, m: nat)
    requires n < m && LosesAt(events, n, row) && CommitsAt(events, m, row)
    ensures TwoOrders(Run(events[..|events|]), row)
  {
    LossMeansOrder(events, n, row);
    OrdersStayInRun(events, n, m, row);
    CommitMeansTwo(events, m, row);
    OrdersStayInRun(events, m + 1, |events|, row);
  }

  /** In every run a payment row has two orders exactly when a process that was to link it with an order of
      its own ended without doing so, and later another one committed. */
  lemma TwoOrdersExactlyWhen(events: seq<Event>, row: nat)
    ensures TwoOrders(Run(events), row) <==>
            exists n: nat, m: nat :: n < m && LosesAt(events, n, row) && CommitsAt(events, m, row)
  {
    assert events[..|events|] == events;
    if TwoOrders(Run(events), row) {
      var n, m := TwoComeFrom(events, row);
    }
    if n: nat, m: nat :| n < m && LosesAt(events, n, row) && CommitsAt(events, m, row) {
      TwoFollow(events, row, n, m);
    }
  }

  // ---------- Which payment id a linked row shows ----------

  /** No row is ever picked for two different payment ids. */
  ghost predicate OnePaymentPerRow(events: seq<Event>, idOf: map<nat, string>) {
    forall k :: 0 <= k < |events| ==> PicksOwnRow(Run(events[..k]), events[k], idOf)
  }

  /** Processes past FindRow, and the rows they wrote, stick to the row's payment id. */
  ghost predicate Sticks(w: World, idOf: map<nat, string>) {
    && (forall q <- w.processes :: StickyProcess(w.processes[q], idOf))
    && (forall r <- w.payments :: StickyRow(r, w.payments[r], idOf))
    && forall i :: 0 <= i < |w.orders| ==> StickyOrder(w.orders[i], idOf)
  }

  lemma {:induction false} RunSticks(events: seq<Event>, idOf: map<nat, string>)
    requires OnePaymentPerRow(events, idOf)
    ensures Sticks(Run(events), idOf)
    decreases |events|
  {
    if events != [] {
      var n := |events| - 1;
      forall k | 0 <= k < n ensures events[..n][..k] == events[..k] {
      }
      RunSticks(events[..n], idOf);
      assert events[n] == events[|events| - 1];
      StepSticks(Run(events[..n]), events[n], idOf);
    }
  }

  predicate StickyProcess(p: Process, idOf: map<nat, string>) {
    && (p.phase.Reading? ==> p.hook.Some?)
    && (p.hook.Some? ==> p.key == Some(KeyOf(p.hook.value.mpId)))
    && (p.hook.Some? && !p.phase.Reading? ==> p.hook.value.row in idOf && idOf[p.hook.value.row] == p.hook.value.mpId)
  }

  predicate StickyRow(r: nat, p: Payment, idOf: map<nat, string>) {
    && (p.mpId.Some? ==> r in idOf && p.mpId == Some(idOf[r]))
    && (p.orderId.Some? ==> p.mpId.Some? && p.linkedBy == p.mpId)
  }

  predicate StickyOrder(o: Order, idOf: map<nat, string>) {
    o.row.Some? ==> o.row.value in idOf && o.key == Some(KeyOf(idOf[o.row.value]))
  }

  /** What `OnePaymentPerRow` asks of one step. */
  predicate PicksOwnRow(w: World, e: Event, idOf: map<nat, string>) {
    e.FindRow? ==> e.row in idOf && (e.pid in w.processes && w.processes[e.pid].hook.Some? ==>
                                       w.processes[e.pid].hook.value.mpId == idOf[e.row])
  }

  lemma StepSticksProcesses(w: World, e: Event, idOf: map<nat, string>)
    requires Sticks(w, idOf) && PicksOwnRow(w, e, idOf)
    ensures forall q <- Apply(w, e).processes :: StickyProcess(Apply(w, e).processes[q], idOf)
  {
    var after := Apply(w, e);
    forall q <- after.processes ensures StickyProcess(after.processes[q], idOf) {
      if q in w.processes { assert StickyProcess(w.processes[q], idOf); }
    }
  }

  lemma StepSticksRows(w: World, e: Event, idOf: map<nat, string>)
    requires Sticks(w, idOf)
    ensures forall r <- Apply(w, e).payments :: StickyRow(r, Apply(w, e).payments[r], idOf)
  {
    var after := Apply(w, e);
    forall r <- after.payments ensures StickyRow(r, after.payments[r], idOf) {
      if r in w.payments { assert StickyRow(r, w.payments[r], idOf); }
      if !e.AddPayment? && e.pid in w.processes { assert StickyProcess(w.processes[e.pid], idOf); }
    }
  }

  lemma StepSticksOrders(w: World, e: Event, idOf: map<nat, string>)
    requires Sticks(w, idOf)
    ensures forall i :: 0 <= i < |Apply(w, e).orders| ==> StickyOrder(Apply(w, e).orders[i], idOf)
  {
    var after := Apply(w, e);
    forall i | 0 <= i < |after.orders| ensures StickyOrder(after.orders[i], idOf) {
      if i < |w.orders| {
        assert StickyOrder(w.orders[i], idOf);
      } else {
        assert StickyProcess(w.processes[e.pid], idOf);
      }
    }
  }

  lemma StepSticks(w: World, e: Event, idOf: map<nat, string>)
    requires Sticks(w, idOf) && PicksOwnRow(w, e, idOf)
    ensures Sticks(Apply(w, e), idOf)
  {
    StepSticksProcesses(w, e, idOf);
    StepSticksRows(w, e, idOf);
    StepSticksOrders(w, e, idOf);
  }

  /** As long as no row meets two payments, the linked order is the one carrying the row's own payment id. */
  lemma RowNamesItsOrder(events: seq<Event>, idOf: map<nat, string>, row: nat)
    requires OnePaymentPerRow(events, idOf)
    requires row in Run(events).payments && Run(events).payments[row].orderId.Some?
    ensures var w := Run(events);
            w.payments[row].mpId.Some? && w.payments[row].orderId.value < |w.orders|
            && w.orders[w.payments[row].orderId.value].key == Some(KeyOf(w.payments[row].mpId.value))
  {
    RunSafe(events);
    RunSticks(events, idOf);
  }

  /** ... and the row has one order at most. */
  lemma OneOrderPerStickyRow(events: seq<Event>, idOf: map<nat, string>, row: nat, i: nat, j: nat)
    requires OnePaymentPerRow(events, idOf)
    requires MadeFor(Run(events).orders, i, row) && MadeFor(Run(events).orders, j, row)
    ensures i == j
  {
    RunSafe(events);
    RunSticks(events, idOf);
  }

  /** Without that, it is not: a second payment of the same preference relabels the linked row, which keeps
      the order of the first. A notification leaves the linked row naming its order exactly when it is of
      the payment that linked it. */
  lemma SecondPaymentRelabelsRow(w: World, pid: Pid, row: nat, second: string, approved: bool)
    requires Safe(w) && pid in w.processes && w.processes[pid].phase.Waiting?
        && w.processes[pid].hook == Some(Hook(second, row))
    requires row in w.payments && w.payments[row].orderId.Some?
    requires RowFree(w, row) && !MpIdTaken(w, second, row)
    ensures var after := Apply(w, LockRow(pid, approved));
            after.payments[row].mpId == Some(second) && after.payments[row].orderId == w.payments[row].orderId
            && (after.payments[row].mpId == after.payments[row].linkedBy <==> w.payments[row].linkedBy == Some(second))
  {
  }

  /** A linked row shows the payment id whose webhook linked it, and so names the order with its key. */
  predicate ShowsLinker(w: World, row: nat) {
    Linked(w, row) ==> w.payments[row].mpId == w.payments[row].linkedBy
  }

  /** The step saves a linked row for another payment. */
  ghost predicate Relabels(w: World, e: Event, row: nat) {
    && e.LockRow? && e.pid in w.processes && w.processes[e.pid].phase.Waiting?
    && w.processes[e.pid].hook.Some? && w.processes[e.pid].hook.value.row == row
    && Linked(w, row) && RowFree(w, row) && !MpIdTaken(w, w.processes[e.pid].hook.value.mpId, row)
    && w.payments[row].linkedBy != Some(w.processes[e.pid].hook.value.mpId)
  }

  lemma StepShowsLinker(w: World, e: Event, row: nat)
    requires Safe(w) && ShowsLinker(w, row)
    ensures ShowsLinker(Apply(w, e), row) <==> !Relabels(w, e, row)
  {
    if !e.LockRow? && !e.LinkPayment? {
      RowIsKept(w, e, row);
    } else if e.pid in w.processes {
      assert Current(w.orders, w.payments, w.processes[e.pid]);
    }
  }

  /** Only locking a row and linking it save it. */
  lemma RowIsKept(w: World, e: Event, row: nat)
    requires !e.LockRow? && !e.LinkPayment?
    ensures row in w.payments ==> row in Apply(w, e).payments && Apply(w, e).payments[row] == w.payments[row]
    ensures row !in w.payments && row in Apply(w, e).payments ==> Apply(w, e).payments[row].orderId.None?
  {
  }

  lemma {:induction false} ShownUntil(events: seq<Event>, row: nat, n: nat)
    requires n <= |events| && forall k: nat | k < n :: !Relabels(Run(events[..k]), events[k], row)
    ensures ShowsLinker(Run(events[..n]), row)
  {
    if n > 0 {
      ShownUntil(events, row, n - 1);
      RunSafe(events[..n - 1]);
      assert events[..n][..n - 1] == events[..n - 1];
      StepShowsLinker(Run(events[..n - 1]), events[n - 1], row);
    }
  }

  /** In every run a linked row shows, at all times, the payment of its order exactly when no step saves it
      for another payment. */
  lemma RowShowsLinkerExactlyWhen(events: seq<Event>, row: nat)
    ensures (forall n: nat | n <= |events| :: ShowsLinker(Run(events[..n]), row)) <==>
            (forall n: nat | n < |events| :: !Relabels(Run(events[..n]), events[n], row))
  {
    if forall n: nat | n <= |events| :: ShowsLinker(Run(events[..n]), row) {
      forall n: nat | n < |events| ensures !Relabels(Run(events[..n]), events[n], row) {
        RunSafe(events[..n]);
        assert ShowsLinker(Run(events[..n]), row) && ShowsLinker(Run(events[..n + 1]), row);
        assert events[..n + 1][..n] == events[..n];
        StepShowsLinker(Run(events[..n]), events[n], row);
      }
    }
    if forall n: nat | n < |events| :: !Relabels(Run(events[..n]), events[n], row) {
      forall n: nat | n <= |events| ensures ShowsLinker(Run(events[..n]), row) {
        ShownUntil(events, row, n);
      }
    }
  }

  /** A webhook running alone: it finds and locks its row and looks for its key. */
  function WebhookUpToLookUp(w: World, pid: Pid, day: nat, mpId: string, row: nat): World {
    Apply(Apply(Apply(Apply(w, StartWebhook(pid, day, mpId)), FindRow(pid, row)), LockRow(pid, true)), LookUp(pid))
  }

  /** A creator running alone up to the commit, and crashing there. */
  function CreateAndCrash(w: World, pid: Pid): World {
    Apply(Apply(Apply(Apply(Apply(w, TakeDayLock(pid)), ReadMax(pid)), Insert(pid)), Commit(pid)), End(pid))
  }

  /** A webhook that crashes after the order's commit and before linking the row. */
  function CrashAfterCommit(w: World, pid: Pid, day: nat, mpId: string, row: nat): World {
    CreateAndCrash(WebhookUpToLookUp(w, pid, day, mpId, row), pid)
  }

  /** No process is running, the row has no order, and no other row carries the payment id. */
  ghost predicate Quiet(w: World, row: nat, mpId: string) {
    w.processes == map[] && row in w.payments && w.payments[row].orderId.None? && !MpIdTaken(w, mpId, row)
  }

  lemma WebhookAlone(w: World, pid: Pid, day: nat, mpId: string, row: nat)
    requires Quiet(w, row, mpId)
    ensures var found := Find(w.orders, Some(KeyOf(mpId)));
            WebhookUpToLookUp(w, pid, day, mpId, row) ==
            w.(processes := map[pid := Process(day, Some(KeyOf(mpId)), Some(Hook(mpId, row)),
                                               if found.Some? then Got(found.value) else Starting)])
  {
    var p := Process(day, Some(KeyOf(mpId)), Some(Hook(mpId, 0)), Reading);
    var w1 := Apply(w, StartWebhook(pid, day, mpId));
    assert w1 == w.(processes := map[pid := p]);
    var w2 := Apply(w1, FindRow(pid, row));
    assert w2 == w.(processes := map[pid := p.(hook := Some(Hook(mpId, row)), phase := Waiting)]);
    var w3 := Apply(w2, LockRow(pid, true));
    assert w3 == w.(processes := map[pid := p.(hook := Some(Hook(mpId, row)), phase := LookingUp)]);
  }

  lemma CreateAlone(w: World, pid: Pid, p: Process)
    requires w.processes == map[pid := p] && p.phase.Starting? && Find(w.orders, p.key).None?
    ensures var inserted := p.(phase := Inserted(MaxNumber(w.orders, p.day) + 1));
            CreateAndCrash(w, pid) == World(w.orders + [NewOrder(inserted)], w.payments, map[])
  {
    var n := MaxNumber(w.orders, p.day) + 1;
    var w1 := Apply(w, TakeDayLock(pid));
    assert w1 == w.(processes := map[pid := p.(phase := Locked)]);
    var w2 := Apply(w1, ReadMax(pid));
    assert w2 == w.(processes := map[pid := p.(phase := Numbered(n))]);
    var w3 := Apply(w2, Insert(pid));
    assert w3 == w.(processes := map[pid := p.(phase := Inserted(n))]);
    CommitAlone(w3, pid, p.(phase := Inserted(n)));
  }

  lemma CommitAlone(w: World, pid: Pid, p: Process)
    requires w.processes == map[pid := p] && p.phase.Inserted?
    ensures Apply(Apply(w, Commit(pid)), End(pid)) == World(w.orders + [NewOrder(p)], w.payments, map[])
  {
  }

  /** A process that already found its order commits nothing. */
  lemma CrashAlone(w: World, pid: Pid, p: Process)
    requires w.processes == map[pid := p] && p.phase.Got?
    ensures CreateAndCrash(w, pid) == w.(processes := map[])
  {
  }

  lemma CrashLeavesOrder(w: World, pid: Pid, day: nat, mpId: string, row: nat)
    requires Quiet(w, row, mpId)
    ensures CrashAfterCommit(w, pid, day, mpId, row) ==
            if Find(w.orders, Some(KeyOf(mpId))).Some? then w
            else w.(orders := w.orders + [Order(day, MaxNumber(w.orders, day) + 1, Some(KeyOf(mpId)), Some(row))])
  {
    WebhookAlone(w, pid, day, mpId, row);
    var w1 := WebhookUpToLookUp(w, pid, day, mpId, row);
    if Find(w.orders, Some(KeyOf(mpId))).Some? {
      CrashAlone(w1, pid, w1.processes[pid]);
    } else {
      CreateAlone(w1, pid, w1.processes[pid]);
    }
  }

  /** The payment row alone does not make a webhook exactly-once: after such a crash a redelivery of the
      same payment finds its order again, but another payment of the same preference creates a second. */
  lemma SecondPaymentAfterCrash(w: World, day: nat, row: nat, first: string, second: string)
    requires Quiet(w, row, first) && Quiet(w, row, second) && KeyOf(first) != KeyOf(second)
    requires Find(w.orders, Some(KeyOf(first))).None? && Find(w.orders, Some(KeyOf(second))).None?
    ensures var w1 := CrashAfterCommit(w, 1, day, first, row);
            |w1.orders| == |w.orders| + 1
            && |CrashAfterCommit(w1, 2, day, first, row).orders| == |w.orders| + 1
            && |CrashAfterCommit(w1, 2, day, second, row).orders| == |w.orders| + 2
  {
    CrashLeavesOrder(w, 1, day, first, row);
    var w1 := CrashAfterCommit(w, 1, day, first, row);
    assert w1.orders[..|w.orders|] == w.orders;
    CrashLeavesOrder(w1, 2, day, first, row);
    CrashLeavesOrder(w1, 2, day, second, row);
  }
}
