/** Who may create an order: a webhook creates one only for an approved payment of an unlinked row, and every
    order of a payment row has such a notification behind it (payments.service.ts, handleWebhook). */
module PaymentApproval {
  import opened Options
  import opened OrderProtocol
  import opened PaymentLinks

  /** A webhook has found its row, and waits to lock it. */
  predicate WaitsFor(w: World, pid: Pid, mpId: string, row: nat) {
    pid in w.processes && w.processes[pid].phase.Waiting? && w.processes[pid].hook == Some(Hook(mpId, row))
  }

  /** No other process has the row locked. */
  ghost predicate Unlocked(w: World, row: nat) {
    forall q <- w.processes :: w.processes[q].hook.Some? && w.processes[q].hook.value.row == row ==>
        w.processes[q].phase.Reading? || w.processes[q].phase.Waiting?
  }

  /** A waiting process goes on to create exactly by an approved notification of a free, unlinked row. */
  lemma GoesOnExactlyWhen(w: World, e: Event, pid: Pid, mpId: string, row: nat)
    requires WaitsFor(w, pid, mpId, row)
    ensures (pid in Apply(w, e).processes && !Apply(w, e).processes[pid].phase.Waiting?) <==>
            e == LockRow(pid, true) && Unlocked(w, row) && row in w.payments && w.payments[row].orderId.None?
  {
  }

  /** ... and then it looks for its key, the row locked and nothing saved. */
  lemma ApprovedGoesOn(w: World, pid: Pid, mpId: string, row: nat)
    requires WaitsFor(w, pid, mpId, row) && Unlocked(w, row)
    requires row in w.payments && w.payments[row].orderId.None?
    ensures var after := Apply(w, LockRow(pid, true));
            && after.orders == w.orders && after.payments == w.payments
            && after.processes == w.processes[pid := w.processes[pid].(phase := LookingUp)]
  {
  }

  /** Any other notification of an existing row saves the payment id, unless another row has it, and ends. */
  lemma OthersOnlySave(w: World, pid: Pid, mpId: string, row: nat, approved: bool)
    requires WaitsFor(w, pid, mpId, row) && Unlocked(w, row) && row in w.payments
    requires !approved || w.payments[row].orderId.Some?
    ensures var after, taken := Apply(w, LockRow(pid, approved)),
                exists r <- w.payments :: r != row && w.payments[r].mpId == Some(mpId);
            && after.orders == w.orders && after.processes == w.processes - {pid}
            && after.payments.Keys == w.payments.Keys
            && (forall r <- w.payments :: r != row || taken ==> after.payments[r] == w.payments[r])
            && (!taken ==> after.payments[row].mpId == Some(mpId)
                           && after.payments[row].orderId == w.payments[row].orderId
                           && after.payments[row].linkedBy == w.payments[row].linkedBy)
  {
  }

  // ---------- Over every run ----------

  /** Step `n` of the run is the approved notification of this payment, which finds the row unlinked. */
  ghost predicate ApprovesAt(events: seq<Event>, n: nat, mpId: string, row: nat) {
    && n < |events| && events[n].LockRow? && events[n].approved
    && WaitsFor(Run(events[..n]), events[n].pid, mpId, row)
    && row in Run(events[..n]).payments && Run(events[..n]).payments[row].orderId.None?
  }

  lemma ApprovesEarlier(events: seq<Event>, k: nat, n: nat, mpId: string, row: nat)
    requires k <= |events| && ApprovesAt(events[..k], n, mpId, row)
    ensures n < k && ApprovesAt(events, n, mpId, row)
  {
    assert events[..k][..n] == events[..n];
  }

  /** A row lock is taken by nothing but such a notification. */
  lemma TakesRow(w: World, e: Event, pid: Pid)
    requires pid in Apply(w, e).processes && HoldsRow(Apply(w, e).processes[pid])
    ensures pid in w.processes && w.processes[pid].hook == Apply(w, e).processes[pid].hook
    ensures !HoldsRow(w.processes[pid]) ==>
              var row := w.processes[pid].hook.value.row;
              e == LockRow(pid, true) && w.processes[pid].phase.Waiting? && row in w.payments
              && w.payments[row].orderId.None?
  {
  }

  /** Whoever holds a row lock was let in by an approved notification. */
  lemma {:induction false} LockWasApproved(events: seq<Event>, pid: Pid) returns (n: nat)
    requires pid in Run(events).processes && HoldsRow(Run(events).processes[pid])
    ensures var hook := Run(events).processes[pid].hook.value;
            ApprovesAt(events, n, hook.mpId, hook.row)
    decreases |events|
  {
    var k := |events| - 1;
    var w, hook := Run(events[..k]), Run(events).processes[pid].hook.value;
    TakesRow(w, events[k], pid);
    if HoldsRow(w.processes[pid]) {
      n := LockWasApproved(events[..k], pid);
      ApprovesEarlier(events, k, n, hook.mpId, hook.row);
    } else {
      n := k;
    }
  }

  /** Every order made for a payment row carries the key of a payment that was approved for the row, while it
      was unlinked, before. */
  lemma {:induction false} OrderWasApproved(events: seq<Event>, i: nat, row: nat) returns (n: nat, mpId: string)
    requires MadeFor(Run(events).orders, i, row)
    ensures ApprovesAt(events, n, mpId, row) && Run(events).orders[i].key == Some(KeyOf(mpId))
    decreases |events|
  {
    var k := |events| - 1;
    var w := Run(events[..k]);
    if i < |w.orders| {
      n, mpId := OrderWasApproved(events[..k], i, row);
    } else {
      RunSafe(events[..k]);
      var p := w.processes[events[k].pid];
      assert Current(w.orders, w.payments, p);
      mpId := p.hook.value.mpId;
      n := LockWasApproved(events[..k], events[k].pid);
    }
    ApprovesEarlier(events, k, n, mpId, row);
  }

  /** A run without an approved notification for a row makes no order for it. */
  lemma NoApprovalNoOrder(events: seq<Event>, row: nat)
    requires forall n: nat, mpId: string :: !ApprovesAt(events, n, mpId, row)
    ensures !HasOrder(Run(events), row)
    ensures row in Run(events).payments ==> Run(events).payments[row].orderId.None?
  {
    if i: nat :| MadeFor(Run(events).orders, i, row) {
      var n, mpId := OrderWasApproved(events, i, row);
    }
    if row in Run(events).payments && Run(events).payments[row].orderId.Some? {
      var n, mpId := LinkWasApproved(events, row);
    }
  }

  /** A linked row was linked by a payment that was approved for it. */
  lemma {:induction false} LinkWasApproved(events: seq<Event>, row: nat) returns (n: nat, mpId: string)
    requires row in Run(events).payments && Run(events).payments[row].orderId.Some?
    ensures Run(events).payments[row].linkedBy == Some(mpId) && ApprovesAt(events, n, mpId, row)
    decreases |events|
  {
    var k := |events| - 1;
    var w := Run(events[..k]);
    RunSafe(events[..k]);
    if row in w.payments && w.payments[row].orderId.Some? {
      ApplySafe(w, events[k]);
      n, mpId := LinkWasApproved(events[..k], row);
    } else {
      n := LockWasApproved(events[..k], events[k].pid);
      mpId := w.processes[events[k].pid].hook.value.mpId;
    }
    ApprovesEarlier(events, k, n, mpId, row);
  }

  // ---------- Keys ----------

  /** Two payments share a request key exactly when the first 57 characters of their ids are equal: the column
      holds 64 characters, and the prefix takes seven. */
  lemma KeysEqualExactlyWhen(a: string, b: string)
    ensures KeyOf(a) == KeyOf(b) <==> a == b || (|a| >= 57 && |b| >= 57 && a[..57] == b[..57])
  {
    KeyStart(a);
    KeyStart(b);
    assert a == KeyOf(a)[7..] || |a| >= 57;
    assert b == KeyOf(b)[7..] || |b| >= 57;
  }

  lemma KeyStart(id: string)
    ensures KeyOf(id)[..7] == "mp-pay-" && KeyOf(id)[7..] == if |id| <= 57 then id else id[..57]
  {
    var key := "mp-pay-" + id;
    assert key[7..] == id && (|id| > 57 ==> key[..64][7..] == id[..57]);
  }
}
