/** What one step does to each process and to each table, phase by phase, with the locks, the keys and the
    largest number spelled out (orders.service.ts, payments.service.ts). */
module OrderSteps {
  import opened Options
  import opened OrderProtocol
  import opened PaymentLinks

  /** A process after a step, if it is still there. */
  function After(w: World, e: Event, q: Pid): Option<Process> {
    var after := Apply(w, e);
    if q in after.processes then Some(after.processes[q]) else None
  }

  /** Another row than this one carries the payment id. */
  predicate Elsewhere(w: World, mpId: string, row: nat) {
    exists r <- w.payments :: r != row && w.payments[r].mpId == Some(mpId)
  }

  /** The process has taken the day lock and not given it up. */
  predicate Inside(p: Phase) { p.Locked? || p.Numbered? || p.Inserted? || p.Committed? }

  /** The process has an uncommitted row in the table. */
  predicate Pending(p: Phase) { p.Inserted? || p == Doomed(true) }

  predicate IsKeyed(orders: seq<Order>, key: Option<string>, i: nat) {
    i < |orders| && key.Some? && orders[i].key == key
  }

  /** The largest number of the day, or 0 when it has none. */
  ghost predicate IsLargest(orders: seq<Order>, day: nat, m: nat) {
    && (forall i :: 0 <= i < |orders| && orders[i].day == day ==> orders[i].number <= m)
    && (m == 0 || exists i :: 0 <= i < |orders| && orders[i].day == day && orders[i].number == m)
  }

  lemma {:induction false} MaxIsLargest(orders: seq<Order>, day: nat)
    ensures IsLargest(orders, day, MaxNumber(orders, day))
    decreases |orders|
  {
    if orders != [] {
      var before, last := orders[..|orders| - 1], orders[|orders| - 1];
      MaxIsLargest(before, day);
      assert forall i :: 0 <= i < |before| ==> before[i] == orders[i];
    }
  }

  // ---------- The phases of a process ----------

  /** A notification looks for the row that carries its payment id or its preference, and stops when that row
      shows its id and is linked. */
  lemma ReadingExactlyWhen(w: World, e: Event, q: Pid, mpId: string)
    requires q in w.processes && w.processes[q].phase == Reading
    requires w.processes[q].hook.Some? && w.processes[q].hook.value.mpId == mpId
    ensures After(w, e, q) ==
            if e == End(q) then None
            else if e.FindRow? && e.pid == q && e.row in w.payments && !Elsewhere(w, mpId, e.row) then
              if w.payments[e.row].mpId == Some(mpId) && w.payments[e.row].orderId != None then None
              else Some(w.processes[q].(hook := Some(Hook(mpId, e.row)), phase := Waiting))
            else Some(w.processes[q])
  {
  }

  /** A creation returns the order that has its key, and starts its transaction only when there is none. */
  lemma LookingUpExactlyWhen(w: World, e: Event, q: Pid)
    requires q in w.processes && w.processes[q].phase == LookingUp
    ensures var p, next := w.processes[q], After(w, e, q);
            if e == End(q) then next == None
            else if e == LookUp(q) then
              if exists i: nat :: IsKeyed(w.orders, p.key, i)
              then exists i: nat :: IsKeyed(w.orders, p.key, i) && next == Some(p.(phase := Got(i)))
              else next == Some(p.(phase := Starting))
            else next == Some(p)
  {
    var found := Find(w.orders, w.processes[q].key);
    if found.Some? { assert IsKeyed(w.orders, w.processes[q].key, found.value); }
  }

  /** The day lock is taken exactly when no process of the day is inside. */
  lemma StartingExactlyWhen(w: World, e: Event, q: Pid)
    requires q in w.processes && w.processes[q].phase == Starting
    ensures var p := w.processes[q];
            After(w, e, q) ==
            if e == End(q) then None
            else if e == TakeDayLock(q)
                && !exists r <- w.processes :: w.processes[r].day == p.day && Inside(w.processes[r].phase)
            then Some(p.(phase := Locked)) else Some(p)
  {
  }

  lemma LockedExactlyWhen(w: World, e: Event, q: Pid, m: nat)
    requires q in w.processes && w.processes[q].phase == Locked && IsLargest(w.orders, w.processes[q].day, m)
    ensures var p := w.processes[q];
            After(w, e, q) ==
            if e == End(q) then None
            else if e == ReadMax(q) then Some(p.(phase := Numbered(m + 1)))
            else if e == Fail(q) then Some(p.(phase := Doomed(false))) else Some(p)
  {
    MaxIsLargest(w.orders, w.processes[q].day);
  }

  /** A row is inserted exactly when its key is free: neither committed nor in an uncommitted row. */
  lemma NumberedExactlyWhen(w: World, e: Event, q: Pid, n: nat)
    requires q in w.processes && w.processes[q].phase == Numbered(n)
    ensures var p := w.processes[q];
            After(w, e, q) ==
            if e == End(q) then None
            else if e == Insert(q) && (p.key.Some? ==>
                && (forall i :: 0 <= i < |w.orders| ==> w.orders[i].key != p.key)
                && forall r <- w.processes :: Pending(w.processes[r].phase) ==> w.processes[r].key != p.key)
            then Some(p.(phase := Inserted(n)))
            else if e == Fail(q) then Some(p.(phase := Doomed(false))) else Some(p)
  {
  }

  /** A commit makes the row the next order; a failure gives the lock up first and rolls back later. */
  lemma InsertedExactlyWhen(w: World, e: Event, q: Pid, n: nat)
    requires q in w.processes && w.processes[q].phase == Inserted(n)
    ensures var p := w.processes[q];
            After(w, e, q) ==
            if e == End(q) then None
            else if e == Commit(q) then Some(p.(phase := Committed(|w.orders|)))
            else if e == Fail(q) then Some(p.(phase := Doomed(true))) else Some(p)
  {
  }

  /** After the commit the lock is given up and the order returned; after a failure comes the rollback. */
  lemma ClosingExactlyWhen(w: World, e: Event, q: Pid)
    requires q in w.processes && (w.processes[q].phase.Committed? || w.processes[q].phase.Doomed?)
    ensures var p := w.processes[q];
            After(w, e, q) ==
            if e == End(q) then None
            else if e == Release(q) && p.phase.Committed? then Some(p.(phase := Got(p.phase.order)))
            else if e == Rollback(q) && p.phase.Doomed? then Some(p.(phase := RolledBack)) else Some(p)
  {
  }

  /** After a duplicate key the creation returns the order with its key, if it is there; else it fails. */
  lemma RolledBackExactlyWhen(w: World, e: Event, q: Pid)
    requires q in w.processes && w.processes[q].phase == RolledBack
    ensures var p, next := w.processes[q], After(w, e, q);
            if e == End(q) then next == None
            else if e.Recover? && e.pid == q then
              if e.duplicateKey && exists i: nat :: IsKeyed(w.orders, p.key, i)
              then exists i: nat :: IsKeyed(w.orders, p.key, i) && next == Some(p.(phase := Got(i)))
              else next == None
            else next == Some(p)
  {
    var found := Find(w.orders, w.processes[q].key);
    if found.Some? { assert IsKeyed(w.orders, w.processes[q].key, found.value); }
  }

  // ---------- The tables ----------

  /** The only step that adds an order is the commit of an inserted row, and it adds just that row. */
  lemma OrdersExactlyWhen(w: World, e: Event)
    ensures Apply(w, e).orders ==
            if e.Commit? && e.pid in w.processes && w.processes[e.pid].phase.Inserted? then
              var p := w.processes[e.pid];
              w.orders + [Order(p.day, p.phase.number, p.key, if p.hook.None? then None else Some(p.hook.value.row))]
            else w.orders
  {
  }

  /** A webhook that got its order links the locked row with it, unless another row carries the payment id. */
  lemma LinkExactlyWhen(w: World, q: Pid, mpId: string, row: nat, order: nat)
    requires q in w.processes && w.processes[q].phase == Got(order) && w.processes[q].hook == Some(Hook(mpId, row))
    ensures var after := Apply(w, LinkPayment(q));
            && after.processes == w.processes - {q} && after.orders == w.orders
            && after.payments ==
               if row in w.payments && !Elsewhere(w, mpId, row)
               then w.payments[row := Payment(Some(mpId), Some(order), Some(mpId))] else w.payments
  {
  }

  /** A row is linked by nothing else. */
  lemma LinkedExactlyWhen(w: World, e: Event, row: nat)
    ensures Linked(Apply(w, e), row) <==>
            || (row in w.payments && w.payments[row].orderId != None)
            || (&& e.LinkPayment? && e.pid in w.processes && w.processes[e.pid].phase.Got?
                && w.processes[e.pid].hook.Some? && w.processes[e.pid].hook.value.row == row
                && row in w.payments && !Elsewhere(w, w.processes[e.pid].hook.value.mpId, row))
  {
  }

  // ---------- Locks ----------

  /** In every run two processes are never inside one day, never past the lock of one row, and never have
      uncommitted rows with one key. */
  lemma LocksAreExclusive(events: seq<Event>, a: Pid, b: Pid)
    requires a in Run(events).processes && b in Run(events).processes && a != b
    ensures var p, q := Run(events).processes[a], Run(events).processes[b];
            && (p.day == q.day ==> !Inside(p.phase) || !Inside(q.phase))
            && (p.hook.Some? && q.hook.Some? && p.hook.value.row == q.hook.value.row ==>
                  p.phase in {Reading, Waiting} || q.phase in {Reading, Waiting})
            && (p.key.Some? && p.key == q.key ==> !Pending(p.phase) || !Pending(q.phase))
  {
    RunSafe(events);
    assert Apart(Run(events).processes[a], Run(events).processes[b]);
  }
}
