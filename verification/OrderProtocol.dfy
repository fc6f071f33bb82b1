/** Creating orders concurrently: the named day lock with MAX + 1 numbering, the unique
    `clientRequestId`, and the Mercado Pago webhook that creates an order in one transaction and links
    it in another (orders.service.ts, payments.service.ts). Any number of processes interleave; one event
    is one statement or commit, a crash or a rollback. */
module OrderProtocol {
  import opened Options

  type Pid = nat

  /** A committed order; its position in the table is its id. `row` is a history variable: the payment row
      whose webhook made it. */
  datatype Order = Order(day: nat, number: nat, key: Option<string>, row: Option<nat>)

  /** A payment row. `linkedBy` is a history variable: the payment id whose webhook set `orderId`. */
  datatype Payment = Payment(mpId: Option<string>, orderId: Option<nat>, linkedBy: Option<string>)

  /** What a webhook process works for: a Mercado Pago payment and, once found, the payment row. */
  datatype Hook = Hook(mpId: string, row: nat)

  datatype Phase =
    | Reading                        // webhook: looking for the payment row
    | Waiting                        // webhook: about to lock the row
    | LookingUp                      // create: about to look for its key
    | Starting                       // transaction open, day lock not taken
    | Locked                         // day lock held
    | Numbered(number: nat)          // MAX + 1 read
    | Inserted(number: nat)          // row inserted, not committed
    | Committed(order: nat)          // committed, day lock still held
    | Doomed(inserted: bool)         // failed: lock released first, rollback still to come
    | RolledBack
    | Got(order: nat)                // create returned this order

  /** A webhook holds its row lock from LookingUp until it ends. */
  datatype Process = Process(day: nat, key: Option<string>, hook: Option<Hook>, phase: Phase)

  datatype World = World(orders: seq<Order>, payments: map<nat, Payment>, processes: map<Pid, Process>)

  /** `mp-pay-` and the payment id, cut to the column width. */
  function KeyOf(mpId: string): string {
    var key := "mp-pay-" + mpId;
    if |key| <= 64 then key else key[..64]
  }

  // ---------- Locks ----------

  predicate HoldsDay(p: Process) {
    p.phase.Locked? || p.phase.Numbered? || p.phase.Inserted? || p.phase.Committed?
  }

  predicate HoldsRow(p: Process) {
    p.hook.Some? && !p.phase.Reading? && !p.phase.Waiting?
  }

  /** An uncommitted row occupies its unique key until commit or rollback. */
  predicate HoldsKey(p: Process) {
    p.key.Some? && (p.phase.Inserted? || (p.phase.Doomed? && p.phase.inserted))
  }

  predicate DayFree(w: World, day: nat) {
    forall q <- w.processes :: w.processes[q].day == day ==> !HoldsDay(w.processes[q])
  }

  predicate RowFree(w: World, row: nat) {
    forall q <- w.processes :: HoldsRow(w.processes[q]) ==> w.processes[q].hook.value.row != row
  }

  predicate KeyFree(w: World, key: Option<string>) {
    key.Some? ==> forall q <- w.processes :: HoldsKey(w.processes[q]) ==> w.processes[q].key != key
  }

  // ---------- Queries ----------

  /** MAX(dailyOrderNumber) of a day, 0 when there is none. */
  function MaxNumber(orders: seq<Order>, day: nat): nat {
    if orders == [] then 0
    else
      var m, last := MaxNumber(orders[..|orders| - 1], day), orders[|orders| - 1];
      if last.day == day && last.number > m then last.number else m
  }

  /** The committed order with a key. */
  function Find(orders: seq<Order>, key: Option<string>): (r: Option<nat>)
    ensures r.Some? ==> key.Some? && r.value < |orders| && orders[r.value].key == key
    ensures r.None? && key.Some? ==> forall i :: 0 <= i < |orders| ==> orders[i].key != key
  {
    if orders == [] || key.None? then None
    else if orders[|orders| - 1].key == key then Some(|orders| - 1)
    else Find(orders[..|orders| - 1], key)
  }

  /** `payment_id` is unique: another row may not carry it. */
  predicate MpIdTaken(w: World, mpId: string, row: nat) {
    exists r <- w.payments :: r != row && w.payments[r].mpId == Some(mpId)
  }

  // ---------- Events ----------

  datatype Event =
    | StartCreate(pid: Pid, day: nat, key: Option<string>)
    | StartWebhook(pid: Pid, day: nat, mpId: string)
    | AddPayment(row: nat)
    | FindRow(pid: Pid, row: nat)
    | LockRow(pid: Pid, approved: bool)
    | LookUp(pid: Pid)
    | TakeDayLock(pid: Pid)
    | ReadMax(pid: Pid)
    | Insert(pid: Pid)
    | Commit(pid: Pid)
    | Release(pid: Pid)
    | Fail(pid: Pid)
    | Rollback(pid: Pid)
    | Recover(pid: Pid, duplicateKey: bool)
    | LinkPayment(pid: Pid)
    | End(pid: Pid)

  function Set(w: World, pid: Pid, p: Process): World { w.(processes := w.processes[pid := p]) }

  function Remove(w: World, pid: Pid): World { w.(processes := w.processes - {pid}) }

  /** The row a process inserts. */
  function NewOrder(p: Process): Order
    requires p.phase.Inserted?
  {
    Order(p.day, p.phase.number, p.key, if p.hook.Some? then Some(p.hook.value.row) else None)
  }

  /** Phases in which the failure path can start: the day lock is held, nothing is committed. */
  predicate CanFail(p: Phase) { p.Locked? || p.Numbered? || p.Inserted? }

  /** One atomic step; an event whose turn it is not changes nothing. `End` is a crash, a timeout or an
      exception: the database drops the process's locks and its uncommitted row. */
  function Apply(w: World, e: Event): World {
    match e
    case StartCreate(pid, day, key) =>
      if pid in w.processes then w else Set(w, pid, Process(day, key, None, LookingUp))
    case StartWebhook(pid, day, mpId) =>
      if pid in w.processes then w else Set(w, pid, Process(day, Some(KeyOf(mpId)), Some(Hook(mpId, 0)), Reading))
    case AddPayment(row) =>
      if row in w.payments then w else w.(payments := w.payments[row := Payment(None, None, None)])
    case FindRow(pid, row) =>
      // the row carrying the payment id, else the row with the same external reference
      if !(pid in w.processes && w.processes[pid].phase.Reading? && w.processes[pid].hook.Some?)
          || row !in w.payments || MpIdTaken(w, w.processes[pid].hook.value.mpId, row) then w
      else if w.payments[row].mpId == Some(w.processes[pid].hook.value.mpId)
          && w.payments[row].orderId.Some? then Remove(w, pid)
      else Set(w, pid, w.processes[pid].(hook := Some(w.processes[pid].hook.value.(row := row)), phase := Waiting))
    case LockRow(pid, approved) =>
      if !(pid in w.processes && w.processes[pid].phase.Waiting? && w.processes[pid].hook.Some?)
          || !RowFree(w, w.processes[pid].hook.value.row) then w
      else
        var hook := w.processes[pid].hook.value;
        if hook.row !in w.payments then Remove(w, pid)
        else if w.payments[hook.row].orderId.Some? || !approved
          then SavePayment(w, pid, w.payments[hook.row].(mpId := Some(hook.mpId)))
        else Set(w, pid, w.processes[pid].(phase := LookingUp))
    case LookUp(pid) =>
      if !(pid in w.processes && w.processes[pid].phase.LookingUp?) then w
      else
        var found := Find(w.orders, w.processes[pid].key);
        Set(w, pid, w.processes[pid].(phase := if found.Some? then Got(found.value) else Starting))
    case TakeDayLock(pid) =>
      if !(pid in w.processes && w.processes[pid].phase.Starting?) || !DayFree(w, w.processes[pid].day) then w
      else Set(w, pid, w.processes[pid].(phase := Locked))
    case ReadMax(pid) =>
      if !(pid in w.processes && w.processes[pid].phase.Locked?) then w
      else Set(w, pid, w.processes[pid].(phase := Numbered(MaxNumber(w.orders, w.processes[pid].day) + 1)))
    case Insert(pid) =>
      // a committed equal key is a duplicate error, an uncommitted one makes the statement wait
      if !(pid in w.processes && w.processes[pid].phase.Numbered?) || Find(w.orders, w.processes[pid].key).Some?
          || !KeyFree(w, w.processes[pid].key) then w
      else Set(w, pid, w.processes[pid].(phase := Inserted(w.processes[pid].phase.number)))
    case Commit(pid) =>
      if !(pid in w.processes && w.processes[pid].phase.Inserted?) then w
      else
        var p := w.processes[pid];
        Set(w, pid, p.(phase := Committed(|w.orders|))).(orders := w.orders + [NewOrder(p)])
    case Release(pid) =>
      if !(pid in w.processes && w.processes[pid].phase.Committed?) then w
      else Set(w, pid, w.processes[pid].(phase := Got(w.processes[pid].phase.order)))
    case Fail(pid) =>
      if !(pid in w.processes && CanFail(w.processes[pid].phase)) then w
      else Set(w, pid, w.processes[pid].(phase := Doomed(w.processes[pid].phase.Inserted?)))
    case Rollback(pid) =>
      if !(pid in w.processes && w.processes[pid].phase.Doomed?) then w
      else Set(w, pid, w.processes[pid].(phase := RolledBack))
    case Recover(pid, duplicateKey) =>
      if !(pid in w.processes && w.processes[pid].phase.RolledBack?) then w
      else
        var found := Find(w.orders, w.processes[pid].key);
        if duplicateKey && found.Some? then Set(w, pid, w.processes[pid].(phase := Got(found.value)))
        else Remove(w, pid)
    case LinkPayment(pid) =>
      if !(pid in w.processes && w.processes[pid].phase.Got?) then w
      else if w.processes[pid].hook.None? then Remove(w, pid)
      else
        var hook := w.processes[pid].hook.value;
        SavePayment(w, pid, Payment(Some(hook.mpId), Some(w.processes[pid].phase.order), Some(hook.mpId)))
    case End(pid) => Remove(w, pid)
  }

  /** Save the locked row, commit and end; a repeated payment id is an error that saves nothing. */
  function SavePayment(w: World, pid: Pid, row: Payment): World
    requires pid in w.processes && w.processes[pid].hook.Some?
  {
    var hook := w.processes[pid].hook.value;
    if hook.row !in w.payments || MpIdTaken(w, hook.mpId, hook.row) then Remove(w, pid)
    else Remove(w, pid).(payments := w.payments[hook.row := row])
  }

  function Run(events: seq<Event>): World {
    if events == [] then World([], map[], map[]) else Apply(Run(events[..|events| - 1]), events[|events| - 1])
  }

  // ---------- Daily numbers ----------

  function CountDay(orders: seq<Order>, day: nat): nat {
    if orders == [] then 0 else CountDay(orders[..|orders| - 1], day) + if orders[|orders| - 1].day == day then 1 else 0
  }

  /** The order at i took the number after those of the day's earlier orders. */
  predicate FollowsOn(orders: seq<Order>, i: nat) {
    i < |orders| && orders[i].number == CountDay(orders[..i], orders[i].day) + 1
  }

  /** In commit order, the numbers of each day are 1, 2, 3, ... */
  ghost predicate Consecutive(orders: seq<Order>) {
    forall i: nat {:trigger FollowsOn(orders, i)} :: i < |orders| ==> FollowsOn(orders, i)
  }

  lemma ConsecutivePrefix(orders: seq<Order>, n: nat)
    requires Consecutive(orders) && n <= |orders|
    ensures Consecutive(orders[..n])
  {
    forall i: nat | i < n ensures FollowsOn(orders[..n], i) {
      assert FollowsOn(orders, i) && orders[..n][..i] == orders[..i];
    }
  }

  lemma {:induction false} MaxIsCount(orders: seq<Order>, day: nat)
    requires Consecutive(orders)
    ensures MaxNumber(orders, day) == CountDay(orders, day)
    decreases |orders|
  {
    if orders != [] {
      assert FollowsOn(orders, |orders| - 1);
      ConsecutivePrefix(orders, |orders| - 1);
      MaxIsCount(orders[..|orders| - 1], day);
    }
  }

  predicate IsNumber(orders: seq<Order>, day: nat, i: nat, k: nat) {
    i < |orders| && orders[i].day == day && orders[i].number == k
  }

  /** Some order of the day carries this number. */
  ghost predicate HasNumber(orders: seq<Order>, day: nat, k: nat) {
    exists i :: IsNumber(orders, day, i, k)
  }

  lemma HasNumberSplit(orders: seq<Order>, day: nat, k: nat)
    requires orders != []
    ensures var n := |orders| - 1;
            HasNumber(orders, day, k) <==> HasNumber(orders[..n], day, k) || IsNumber(orders, day, n, k)
  {
    var n := |orders| - 1;
    if i: nat :| IsNumber(orders, day, i, k) {
      if i < n { assert IsNumber(orders[..n], day, i, k); }
    }
    if i: nat :| IsNumber(orders[..n], day, i, k) {
      assert IsNumber(orders, day, i, k);
    }
  }

  /** Consecutive means: exactly the numbers 1..n occur. */
  lemma {:induction false} ConsecutiveCovers(orders: seq<Order>, day: nat, k: nat)
    requires Consecutive(orders)
    ensures HasNumber(orders, day, k) <==> 1 <= k <= CountDay(orders, day)
    decreases |orders|
  {
    if orders != [] {
      var n := |orders| - 1;
      assert FollowsOn(orders, n);
      ConsecutivePrefix(orders, n);
      ConsecutiveCovers(orders[..n], day, k);
      HasNumberSplit(orders, day, k);
    }
  }

  /** ... and none occurs twice. */
  lemma ConsecutiveDistinct(orders: seq<Order>, i: nat, j: nat)
    requires Consecutive(orders) && i < j < |orders| && orders[i].day == orders[j].day
    ensures orders[i].number != orders[j].number
  {
    assert FollowsOn(orders, j);
    ConsecutivePrefix(orders, j);
    assert IsNumber(orders[..j], orders[j].day, i, orders[i].number);
    ConsecutiveCovers(orders[..j], orders[j].day, orders[i].number);
  }

  // ---------- Invariant ----------

  predicate Apart(p: Process, q: Process) {
    && !(HoldsDay(p) && HoldsDay(q) && p.day == q.day)
    && !(HoldsRow(p) && HoldsRow(q) && p.hook.value.row == q.hook.value.row)
    && !(HoldsKey(p) && HoldsKey(q) && p.key == q.key)
  }

  /** Two processes never hold the same day, row or key. */
  ghost predicate Exclusive(w: World) {
    forall a, b | a in w.processes && b in w.processes && a != b :: Apart(w.processes[a], w.processes[b])
  }

  /** What a process knows is still true of the tables. */
  ghost predicate Current(orders: seq<Order>, payments: map<nat, Payment>, p: Process) {
    && (p.phase.Reading? || p.phase.Waiting? ==> p.hook.Some?)
    && (p.hook.Some? ==> p.key == Some(KeyOf(p.hook.value.mpId)))
    && (p.phase.Numbered? || p.phase.Inserted? ==> p.phase.number == CountDay(orders, p.day) + 1)
    && (p.phase.Inserted? && p.key.Some? ==> forall i :: 0 <= i < |orders| ==> orders[i].key != p.key)
    && (p.phase.Committed? || p.phase.Got? ==> p.phase.order < |orders| && orders[p.phase.order].key == p.key)
    && (HoldsRow(p) ==> p.hook.value.row in payments && payments[p.hook.value.row].orderId.None?)
  }

  ghost predicate UniqueKeys(orders: seq<Order>) {
    forall i, j :: 0 <= i < j < |orders| && orders[i].key.Some? ==> orders[i].key != orders[j].key
  }

  /** A linked row names the order carrying the key of the payment that linked it. */
  ghost predicate LinksRight(orders: seq<Order>, payments: map<nat, Payment>) {
    && (forall r <- payments :: payments[r].orderId.Some? ==>
         && payments[r].linkedBy.Some? && payments[r].orderId.value < |orders|
         && orders[payments[r].orderId.value].key == Some(KeyOf(payments[r].linkedBy.value)))
    && forall r, s | r in payments && s in payments && r != s :: payments[r].mpId.Some? ==>
        payments[r].mpId != payments[s].mpId
  }

  ghost predicate Safe(w: World) {
    && Consecutive(w.orders) && UniqueKeys(w.orders) && LinksRight(w.orders, w.payments)
    && Exclusive(w)
    && forall q <- w.processes :: Current(w.orders, w.payments, w.processes[q])
  }

  /** Between two moments: committed orders stay as they are, and a link is never changed. */
  ghost predicate Extends(before: World, after: World) {
    && before.orders <= after.orders
    && forall r <- before.payments :: r in after.payments
         && (before.payments[r].orderId.Some? ==> after.payments[r].orderId == before.payments[r].orderId
                                                  && after.payments[r].linkedBy == before.payments[r].linkedBy)
  }

  // ---------- Preservation ----------

  /** A process that takes no new lock, and whose knowledge is current, may move. */
  lemma Moves(w: World, pid: Pid, p: Process)
    requires Safe(w) && Current(w.orders, w.payments, p)
    requires HoldsDay(p) ==>
               || (pid in w.processes && HoldsDay(w.processes[pid]) && w.processes[pid].day == p.day)
               || (forall q <- w.processes :: q != pid && w.processes[q].day == p.day ==> !HoldsDay(w.processes[q]))
    requires HoldsRow(p) ==>
               || (pid in w.processes && HoldsRow(w.processes[pid]) && w.processes[pid].hook == p.hook)
               || RowFree(w, p.hook.value.row)
    requires HoldsKey(p) ==>
               || (pid in w.processes && HoldsKey(w.processes[pid]) && w.processes[pid].key == p.key)
               || KeyFree(w, p.key)
    ensures Safe(Set(w, pid, p)) && Extends(w, Set(w, pid, p))
  {
    var after := Set(w, pid, p);
    forall a, b | a in after.processes && b in after.processes && a != b
      ensures Apart(after.processes[a], after.processes[b])
    {
      if a in w.processes && b in w.processes {
        assert Apart(w.processes[a], w.processes[b]);
      }
    }
  }

  lemma Ends(w: World, pid: Pid)
    requires Safe(w)
    ensures Safe(Remove(w, pid)) && Extends(w, Remove(w, pid))
  {
  }

  lemma CountDayAppend(orders: seq<Order>, o: Order, day: nat)
    ensures CountDay(orders + [o], day) == CountDay(orders, day) + if o.day == day then 1 else 0
  {
    assert (orders + [o])[..|orders|] == orders;
  }

  lemma AppendConsecutive(orders: seq<Order>, o: Order)
    requires Consecutive(orders) && o.number == CountDay(orders, o.day) + 1
    ensures Consecutive(orders + [o])
  {
    forall i: nat | i <= |orders| ensures FollowsOn(orders + [o], i) {
      assert (orders + [o])[..i] == orders[..i];
      if i < |orders| { assert FollowsOn(orders, i); } else { assert orders[..i] == orders; }
    }
  }

  lemma AppendKeysAndLinks(orders: seq<Order>, payments: map<nat, Payment>, o: Order)
    requires UniqueKeys(orders) && LinksRight(orders, payments)
    requires o.key.Some? ==> forall i :: 0 <= i < |orders| ==> orders[i].key != o.key
    ensures UniqueKeys(orders + [o]) && LinksRight(orders + [o], payments)
  {
  }

  /** Only the lock holder of the day, and the holder of the key, can have been affected by the new row. */
  lemma CommitCurrent(w: World, pid: Pid, q: Pid)
    requires Safe(w) && pid in w.processes && w.processes[pid].phase.Inserted? && q in w.processes && q != pid
    ensures Current(Apply(w, Commit(pid)).orders, w.payments, w.processes[q])
  {
    var p := w.processes[pid];
    assert Current(w.orders, w.payments, w.processes[q]);
    CountDayAppend(w.orders, NewOrder(p), w.processes[q].day);
  }

  lemma CommitExclusive(w: World, pid: Pid)
    requires Safe(w) && pid in w.processes && w.processes[pid].phase.Inserted?
    ensures Exclusive(Apply(w, Commit(pid)))
  {
    var after := Apply(w, Commit(pid));
    forall a, b | a in after.processes && b in after.processes && a != b
      ensures Apart(after.processes[a], after.processes[b])
    {
      assert Apart(w.processes[a], w.processes[b]);
    }
  }

  lemma CommitAllCurrent(w: World, pid: Pid)
    requires Safe(w) && pid in w.processes && w.processes[pid].phase.Inserted?
    ensures var after := Apply(w, Commit(pid));
            forall q <- after.processes :: Current(after.orders, after.payments, after.processes[q])
  {
    var after := Apply(w, Commit(pid));
    assert Current(w.orders, w.payments, w.processes[pid]);
    forall q <- after.processes ensures Current(after.orders, after.payments, after.processes[q]) {
      if q != pid { CommitCurrent(w, pid, q); }
    }
  }

  lemma CommitSafe(w: World, pid: Pid)
    requires Safe(w)
    ensures Safe(Apply(w, Commit(pid))) && Extends(w, Apply(w, Commit(pid)))
  {
    if pid in w.processes && w.processes[pid].phase.Inserted? {
      var p := w.processes[pid];
      var o := NewOrder(p);
      assert Current(w.orders, w.payments, p);
      CommitExclusive(w, pid);
      CommitAllCurrent(w, pid);
      AppendConsecutive(w.orders, o);
      AppendKeysAndLinks(w.orders, w.payments, o);
    }
  }

  lemma SaveSafe(w: World, pid: Pid, row: Payment)
    requires Safe(w) && pid in w.processes && HoldsRowOrCan(w, pid)
    requires row.mpId == Some(w.processes[pid].hook.value.mpId)
    requires w.processes[pid].hook.value.row in w.payments ==>
               var was := w.payments[w.processes[pid].hook.value.row];
               if was.orderId.Some? then row.orderId == was.orderId && row.linkedBy == was.linkedBy
               else row.orderId.Some? ==> row.linkedBy.Some? && row.orderId.value < |w.orders|
                                          && w.orders[row.orderId.value].key == Some(KeyOf(row.linkedBy.value))
    ensures Safe(SavePayment(w, pid, row)) && Extends(w, SavePayment(w, pid, row))
  {
    Ends(w, pid);
    var hook := w.processes[pid].hook.value;
    if hook.row in w.payments && !MpIdTaken(w, hook.mpId, hook.row) {
      var after := SavePayment(w, pid, row);
      forall q <- after.processes ensures Current(after.orders, after.payments, after.processes[q]) {
        assert Current(w.orders, w.payments, w.processes[q]);
        assert !(HoldsRow(w.processes[q]) && w.processes[q].hook.value.row == hook.row);
      }
    }
  }

  /** Nobody else holds the row this process is about to save. */
  ghost predicate HoldsRowOrCan(w: World, pid: Pid)
    requires pid in w.processes
  {
    w.processes[pid].hook.Some? && (HoldsRow(w.processes[pid]) || RowFree(w, w.processes[pid].hook.value.row))
  }

  lemma ApplySafe(w: World, e: Event)
    requires Safe(w)
    ensures Safe(Apply(w, e)) && Extends(w, Apply(w, e))
  {
    match e
    case StartCreate(pid, day, key) => StartSafe(w, e);
    case StartWebhook(pid, day, mpId) => StartSafe(w, e);
    case AddPayment(row) => AddPaymentSafe(w, row);
    case FindRow(pid, row) => FindRowSafe(w, pid, row);
    case LockRow(pid, approved) => LockRowSafe(w, pid, approved);
    case LookUp(pid) => LookUpSafe(w, pid);
    case TakeDayLock(pid) => TakeDayLockSafe(w, pid);
    case ReadMax(pid) => ReadMaxSafe(w, pid);
    case Insert(pid) => InsertSafe(w, pid);
    case Commit(pid) => CommitSafe(w, pid);
    case Release(pid) => UnlockSafe(w, e);
    case Fail(pid) => UnlockSafe(w, e);
    case Rollback(pid) => UnlockSafe(w, e);
    case Recover(pid, duplicateKey) => RecoverSafe(w, pid, duplicateKey);
    case LinkPayment(pid) => LinkSafe(w, pid);
    case End(pid) => Ends(w, pid);
  }

  lemma StartSafe(w: World, e: Event)
    requires Safe(w) && (e.StartCreate? || e.StartWebhook?)
    ensures Safe(Apply(w, e)) && Extends(w, Apply(w, e))
  {
    if e.pid !in w.processes {
      Moves(w, e.pid, Apply(w, e).processes[e.pid]);
    }
  }

  lemma AddPaymentSafe(w: World, row: nat)
    requires Safe(w)
    ensures Safe(Apply(w, AddPayment(row))) && Extends(w, Apply(w, AddPayment(row)))
  {
    var after := Apply(w, AddPayment(row));
    forall q <- after.processes ensures Current(after.orders, after.payments, after.processes[q]) {
      assert Current(w.orders, w.payments, w.processes[q]);
    }
  }

  /** Giving up the day lock, on success before returning and on failure before the rollback. */
  lemma UnlockSafe(w: World, e: Event)
    requires Safe(w) && (e.Release? || e.Fail? || e.Rollback?)
    ensures Safe(Apply(w, e)) && Extends(w, Apply(w, e))
  {
    if e.pid in w.processes {
      assert Current(w.orders, w.payments, w.processes[e.pid]);
      if Apply(w, e) != w { Moves(w, e.pid, Apply(w, e).processes[e.pid]); }
    }
  }

  lemma FindRowSafe(w: World, pid: Pid, row: nat)
    requires Safe(w)
    ensures Safe(Apply(w, FindRow(pid, row))) && Extends(w, Apply(w, FindRow(pid, row)))
  {
    Ends(w, pid);
    if pid in w.processes && w.processes[pid].phase.Reading? {
      var p := w.processes[pid];
      assert Current(w.orders, w.payments, p);
      Moves(w, pid, p.(hook := Some(p.hook.value.(row := row)), phase := Waiting));
    }
  }

  lemma LockRowSafe(w: World, pid: Pid, approved: bool)
    requires Safe(w)
    ensures Safe(Apply(w, LockRow(pid, approved))) && Extends(w, Apply(w, LockRow(pid, approved)))
  {
    Ends(w, pid);
    if pid in w.processes && w.processes[pid].phase.Waiting? {
      var p := w.processes[pid];
      assert Current(w.orders, w.payments, p);
      var hook := p.hook.value;
      if RowFree(w, hook.row) && hook.row in w.payments {
        if w.payments[hook.row].orderId.Some? || !approved {
          SaveSafe(w, pid, w.payments[hook.row].(mpId := Some(hook.mpId)));
        } else {
          Moves(w, pid, p.(phase := LookingUp));
        }
      }
    }
  }

  lemma LookUpSafe(w: World, pid: Pid)
    requires Safe(w)
    ensures Safe(Apply(w, LookUp(pid))) && Extends(w, Apply(w, LookUp(pid)))
  {
    if pid in w.processes && w.processes[pid].phase.LookingUp? {
      var p := w.processes[pid];
      assert Current(w.orders, w.payments, p);
      var found := Find(w.orders, p.key);
      Moves(w, pid, p.(phase := if found.Some? then Got(found.value) else Starting));
    }
  }

  lemma TakeDayLockSafe(w: World, pid: Pid)
    requires Safe(w)
    ensures Safe(Apply(w, TakeDayLock(pid))) && Extends(w, Apply(w, TakeDayLock(pid)))
  {
    if pid in w.processes && w.processes[pid].phase.Starting? && DayFree(w, w.processes[pid].day) {
      var p := w.processes[pid];
      assert Current(w.orders, w.payments, p);
      Moves(w, pid, p.(phase := Locked));
    }
  }

  lemma ReadMaxResult(w: World, pid: Pid)
    requires Consecutive(w.orders) && pid in w.processes && w.processes[pid].phase.Locked?
    ensures var p := w.processes[pid];
            Apply(w, ReadMax(pid)) == Set(w, pid, p.(phase := Numbered(CountDay(w.orders, p.day) + 1)))
  {
    MaxIsCount(w.orders, w.processes[pid].day);
  }

  lemma StepsTo(w: World, e: Event, after: World)
    requires Safe(after) && Extends(w, after) && Apply(w, e) == after
    ensures Safe(Apply(w, e)) && Extends(w, Apply(w, e))
  {
  }

  lemma NumberedSafe(w: World, pid: Pid, p: Process)
    requires Safe(w) && pid in w.processes && p == w.processes[pid] && p.phase.Locked?
    ensures var next := p.(phase := Numbered(CountDay(w.orders, p.day) + 1));
            Safe(Set(w, pid, next)) && Extends(w, Set(w, pid, next))
  {
    assert Current(w.orders, w.payments, p);
    Moves(w, pid, p.(phase := Numbered(CountDay(w.orders, p.day) + 1)));
  }

  /** Under the day lock MAX + 1 is the next consecutive number, and stays so until the lock is given up. */
  lemma ReadMaxSafe(w: World, pid: Pid)
    requires Safe(w)
    ensures Safe(Apply(w, ReadMax(pid))) && Extends(w, Apply(w, ReadMax(pid)))
  {
    if pid in w.processes && w.processes[pid].phase.Locked? {
      var p := w.processes[pid];
      var after := Set(w, pid, p.(phase := Numbered(CountDay(w.orders, p.day) + 1)));
      NumberedSafe(w, pid, p);
      ReadMaxResult(w, pid);
      StepsTo(w, ReadMax(pid), after);
    } else {
      ReadMaxWaits(w, pid);
      StepsTo(w, ReadMax(pid), w);
    }
  }

  lemma ReadMaxWaits(w: World, pid: Pid)
    requires pid !in w.processes || !w.processes[pid].phase.Locked?
    ensures Apply(w, ReadMax(pid)) == w
  {
  }

  lemma InsertSafe(w: World, pid: Pid)
    requires Safe(w)
    ensures Safe(Apply(w, Insert(pid))) && Extends(w, Apply(w, Insert(pid)))
  {
    if pid in w.processes && w.processes[pid].phase.Numbered? && Find(w.orders, w.processes[pid].key).None?
        && KeyFree(w, w.processes[pid].key) {
      var p := w.processes[pid];
      assert Current(w.orders, w.payments, p);
      Moves(w, pid, p.(phase := Inserted(p.phase.number)));
    }
  }

  lemma RecoverSafe(w: World, pid: Pid, duplicateKey: bool)
    requires Safe(w)
    ensures Safe(Apply(w, Recover(pid, duplicateKey))) && Extends(w, Apply(w, Recover(pid, duplicateKey)))
  {
    Ends(w, pid);
    if pid in w.processes && w.processes[pid].phase.RolledBack? {
      var p := w.processes[pid];
      assert Current(w.orders, w.payments, p);
      var found := Find(w.orders, p.key);
      if found.Some? { Moves(w, pid, p.(phase := Got(found.value))); }
    }
  }

  lemma LinkSafe(w: World, pid: Pid)
    requires Safe(w)
    ensures Safe(Apply(w, LinkPayment(pid))) && Extends(w, Apply(w, LinkPayment(pid)))
  {
    Ends(w, pid);
    if pid in w.processes && w.processes[pid].phase.Got? && w.processes[pid].hook.Some? {
      var p := w.processes[pid];
      assert Current(w.orders, w.payments, p);
      var hook := p.hook.value;
      SaveSafe(w, pid, Payment(Some(hook.mpId), Some(p.phase.order), Some(hook.mpId)));
    }
  }

  // ---------- Results over every run ----------

  lemma {:induction false} RunSafe(events: seq<Event>)
    ensures Safe(Run(events))
    decreases |events|
  {
    if events != [] {
      RunSafe(events[..|events| - 1]);
      ApplySafe(Run(events[..|events| - 1]), events[|events| - 1]);
    }
  }

  /** In every run the committed numbers of a day are exactly 1..n ... */
  lemma DailyNumbersCover(events: seq<Event>, day: nat, k: nat)
    ensures HasNumber(Run(events).orders, day, k) <==> 1 <= k <= CountDay(Run(events).orders, day)
  {
    RunSafe(events);
    ConsecutiveCovers(Run(events).orders, day, k);
  }

  /** ... each given once. */
  lemma DailyNumbersDistinct(events: seq<Event>, i: nat, j: nat)
    requires i < j < |Run(events).orders| && Run(events).orders[i].day == Run(events).orders[j].day
    ensures Run(events).orders[i].number != Run(events).orders[j].number
  {
    RunSafe(events);
    ConsecutiveDistinct(Run(events).orders, i, j);
  }

  /** However often a webhook is delivered, and wherever it crashes, a payment id has at most one order. */
  lemma OneOrderPerPayment(events: seq<Event>, mpId: string, i: nat, j: nat)
    requires i < |Run(events).orders| && j < |Run(events).orders|
    requires Run(events).orders[i].key == Run(events).orders[j].key == Some(KeyOf(mpId))
    ensures i == j
  {
    RunSafe(events);
  }

  /** A linked row names the one order carrying the key of the payment that linked it. */
  lemma LinkedOrderIsTheKeyedOne(events: seq<Event>, row: nat, i: nat)
    requires row in Run(events).payments && Run(events).payments[row].orderId.Some?
    ensures Run(events).payments[row].linkedBy.Some?
    ensures i < |Run(events).orders| ==>
              (Run(events).orders[i].key == Some(KeyOf(Run(events).payments[row].linkedBy.value)) <==>
               i == Run(events).payments[row].orderId.value)
  {
    RunSafe(events);
  }

  /** Later events never change a committed order or an existing link. */
  lemma {:induction false} LinksAreForEver(events: seq<Event>, more: seq<Event>)
    ensures Extends(Run(events), Run(events + more))
    decreases |more|
  {
    if more == [] {
      assert events + more == events;
    } else {
      var n := |more| - 1;
      LinksAreForEver(events, more[..n]);
      RunStep(events + more[..n], more[n]);
      assert events + more == events + more[..n] + [more[n]];
      ExtendsTransitive(Run(events), Run(events + more[..n]), Run(events + more));
    }
  }

  lemma RunStep(events: seq<Event>, e: Event)
    ensures Extends(Run(events), Run(events + [e]))
  {
    assert (events + [e])[..|events|] == events;
    RunSafe(events);
    ApplySafe(Run(events), e);
  }

  lemma ExtendsTransitive(a: World, b: World, c: World)
    requires Extends(a, b) && Extends(b, c)
    ensures Extends(a, c)
  {
  }
}
