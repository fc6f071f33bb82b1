/** Linked tables of one day (orders.service.ts): a group id shared by table orders that are billed
    together. Table names arrive trimmed; the group id of a new group is the current time. */
module TableGroups {
  import opened Options

  datatype TableOrder = TableOrder(isTable: bool, active: bool, table: string, group: Option<nat>)
  type Orders = map<nat, TableOrder>

  function Members(orders: Orders, g: nat): set<nat> {
    set id <- orders | orders[id].group == Some(g)
  }

  /** Active members, which is what the source's queries count. */
  function ActiveMembers(orders: Orders, g: nat): set<nat> {
    set id <- orders | orders[id].group == Some(g) && orders[id].active
  }

  function SetGroup(orders: Orders, ids: set<nat>, g: Option<nat>): Orders {
    map id <- orders :: if id in ids then orders[id].(group := g) else orders[id]
  }

  // ---------- What each operation does ----------

  ghost predicate IsSeat(orders: Orders, table: string, id: nat) {
    && id in orders && orders[id].isTable && orders[id].active && orders[id].table == table
    && forall other <- orders :: orders[other].isTable && orders[other].active && orders[other].table == table ==>
        other <= id
  }

  /** The newest active order of a table. */
  ghost function Seat(orders: Orders, table: string): Option<nat> {
    if id :| IsSeat(orders, table, id) then Some(id) else None
  }

  function Targets(tables: seq<string>, own: string): set<string> {
    set t <- tables | t != "" && t != own
  }

  /** The orders a link request joins, or none when the source rejects it. */
  ghost function Joined(orders: Orders, id: nat, tables: seq<string>): Option<set<nat>> {
    if id !in orders || !orders[id].isTable || !orders[id].active then None
    else
      var targets := Targets(tables, orders[id].table);
      if targets == {} || exists t <- targets :: Seat(orders, t).None? then None
      else Some({id} + set t <- targets :: Seat(orders, t).value)
  }

  function GroupsOf(orders: Orders, ids: set<nat>): set<nat> {
    set id <- ids | id in orders && orders[id].group.Some? :: orders[id].group.value
  }

  ghost predicate IsMin(x: nat, s: set<nat>) { x in s && forall y <- s :: x <= y }

  lemma {:induction false} HasMin(s: set<nat>)
    requires s != {}
    ensures exists x :: IsMin(x, s)
    decreases s
  {
    var x :| x in s;
    if s - {x} != {} {
      HasMin(s - {x});
      var y :| IsMin(y, s - {x});
      forall z | z in s ensures (if x < y then x else y) <= z {
        assert z == x || z in s - {x};
      }
      assert IsMin(if x < y then x else y, s);
    } else {
      assert s == {x};
      assert IsMin(x, s);
    }
  }

  /** `resolveUnifiedTableGroupId`: the smallest group id among the joined orders, or a new one. */
  ghost function Unified(groups: set<nat>, now: nat): nat {
    if x: nat :| IsMin(x, groups) then x else now
  }

  /** Joined orders, and every order of a group one of them was in, end up in one group. */
  ghost function Link(orders: Orders, ids: set<nat>, now: nat): Orders {
    var groups := GroupsOf(orders, ids);
    map id <- orders ::
      if id in ids || (orders[id].group.Some? && orders[id].group.value in groups)
      then orders[id].(group := Some(Unified(groups, now))) else orders[id]
  }

  function Leave(orders: Orders, id: nat): Orders
    requires id in orders && orders[id].group.Some?
  {
    var g := orders[id].group.value;
    var left := SetGroup(orders, {id}, None);
    if |ActiveMembers(left, g)| <= 1 then SetGroup(left, Members(left, g), None) else left
  }

  function Unlink(orders: Orders, id: nat): Orders {
    if id !in orders || orders[id].group.None? then orders else Leave(orders, id)
  }

  /** The part of `cancelOrderFully` that concerns tables. */
  function Cancel(orders: Orders, id: nat): Orders {
    if id !in orders || !orders[id].active then orders
    else
      var after := Unlink(orders, id);
      after[id := after[id].(active := false, group := None)]
  }

  /** `updateOrderGeneral` with status completed. */
  function Complete(orders: Orders, id: nat): Orders {
    if id !in orders || !orders[id].active then orders
    else if orders[id].isTable && orders[id].group.Some? then
      var g := orders[id].group;
      map o <- orders ::
        if orders[o].group == g && orders[o].isTable && orders[o].active
        then orders[o].(active := false, group := None) else orders[o]
    else orders[id := orders[id].(active := false)]
  }

  // ---------- The service ----------

  class TableDesk {
    var orders: Orders

    method FindSeat(table: string) returns (r: Option<nat>)
      ensures r == Seat(orders, table)
    {
      var rest := orders.Keys;
      r := None;
      while rest != {}
        invariant rest <= orders.Keys
        invariant r.Some? ==> r.value in orders && orders[r.value].isTable && orders[r.value].active
                                && orders[r.value].table == table
        invariant forall o | o in orders && o !in rest && orders[o].isTable && orders[o].active
            && orders[o].table == table ::
                    r.Some? && o <= r.value
      {
        var o :| o in rest;
        if orders[o].isTable && orders[o].active && orders[o].table == table && (r.None? || o > r.value) {
          r := Some(o);
        }
        rest := rest - {o};
      }
      if r.Some? {
        assert IsSeat(orders, table, r.value);
      }
    }

    method Resolve(id: nat, tables: seq<string>) returns (r: Option<set<nat>>)
      ensures r == Joined(orders, id, tables)
    {
      if id !in orders || !orders[id].isTable || !orders[id].active { return None; }
      var own := orders[id].table;
      var targets := Targets(tables, own);
      if targets == {} { return None; }
      var rest, ids := targets, {id};
      while rest != {}
        invariant rest <= targets
        invariant forall t | t in targets && t !in rest :: Seat(orders, t).Some?
        invariant ids == {id} + set t | t in targets && t !in rest :: Seat(orders, t).value
      {
        var t :| t in rest;
        var seat := FindSeat(t);
        if seat.None? { return None; }
        rest := rest - {t};
        ids := ids + {seat.value};
      }
      assert forall t <- targets :: Seat(orders, t).Some?;
      assert ids == {id} + set t <- targets :: Seat(orders, t).value;
      return Some(ids);
    }

    method MinOf(groups: set<nat>) returns (m: nat)
      requires groups != {}
      ensures IsMin(m, groups)
    {
      m :| m in groups;
      var rest := groups - {m};
      while rest != {}
        invariant rest <= groups && m in groups && forall x | x in groups && x !in rest :: m <= x
      {
        var x :| x in rest;
        if x < m { m := x; }
        rest := rest - {x};
      }
    }

    /** Two updates, as in the source: first the old groups are merged, then the joined orders are marked. */
    method LinkTables(id: nat, tables: seq<string>, now: nat) returns (ok: bool)
      modifies this
      ensures ok <==> Joined(old(orders), id, tables).Some?
      ensures orders == if ok then Link(old(orders), Joined(old(orders), id, tables).value, now) else old(orders)
    {
      var joined := Resolve(id, tables);
      if joined.None? { return false; }
      var ids := joined.value;
      var existing := GroupsOf(orders, ids);
      var unified := now;
      if existing != {} {
        unified := MinOf(existing);
        if existing != {unified} {
          orders := map o <- orders ::
            if orders[o].group.Some? && orders[o].group.value in existing then orders[o].(group := Some(unified))
            else orders[o];
        }
      }
      assert unified == Unified(existing, now);
      orders := SetGroup(orders, ids, Some(unified));
      return true;
    }

    method UnlinkTable(id: nat) returns (ok: bool)
      modifies this
      ensures ok <==> id in old(orders) && old(orders)[id].group.Some?
      ensures orders == Unlink(old(orders), id)
    {
      if id !in orders || orders[id].group.None? { return false; }
      var g := orders[id].group.value;
      orders := SetGroup(orders, {id}, None);
      var remaining := ActiveMembers(orders, g);
      if |remaining| <= 1 {
        orders := SetGroup(orders, Members(orders, g), None);
      }
      return true;
    }

    method CancelOrder(id: nat) returns (ok: bool)
      modifies this
      ensures ok <==> id in old(orders) && old(orders)[id].active
      ensures orders == Cancel(old(orders), id)
    {
      if id !in orders || !orders[id].active { return false; }
      var left := UnlinkTable(id);
      orders := orders[id := orders[id].(active := false, group := None)];
      return true;
    }

    method CompleteOrder(id: nat) returns (ok: bool)
      modifies this
      ensures ok <==> id in old(orders) && old(orders)[id].active
      ensures orders == Complete(old(orders), id)
    {
      if id !in orders || !orders[id].active { return false; }
      if orders[id].isTable && orders[id].group.Some? {
        var g := orders[id].group;
        var ids := set o <- orders | orders[o].group == g && orders[o].isTable && orders[o].active;
        orders := map o <- orders :: if o in ids then orders[o].(active := false, group := None) else orders[o];
      } else {
        orders := orders[id := orders[id].(active := false)];
      }
      return true;
    }
  }

  // ---------- Groups are the connected components of the link requests ----------

  ghost predicate Hop(a: nat, b: nat, links: set<set<nat>>) {
    exists l <- links :: a in l && b in l
  }

  ghost predicate Path(p: seq<nat>, links: set<set<nat>>) {
    p != [] && forall k :: 0 <= k < |p| - 1 ==> Hop(p[k], p[k + 1], links)
  }

  /** Some chain of link requests leads from one order to the other. */
  ghost predicate Connected(a: nat, b: nat, links: set<set<nat>>) {
    exists p :: Path(p, links) && p[0] == a && p[|p| - 1] == b
  }

  predicate SameGroup(orders: Orders, a: nat, b: nat) {
    a in orders && b in orders && orders[a].group.Some? && orders[a].group == orders[b].group
  }

  /** Grouping reflects the links made so far. */
  ghost predicate Reflects(orders: Orders, links: set<set<nat>>) {
    && (forall l <- links, a <- l, b <- l :: SameGroup(orders, a, b))
    && forall a, b | SameGroup(orders, a, b) :: Connected(a, b, links)
  }

  lemma ConnectedStep(a: nat, b: nat, links: set<set<nat>>)
    requires Hop(a, b, links)
    ensures Connected(a, b, links)
  {
    assert Path([a, b], links);
  }

  lemma ConnectedTransitive(a: nat, b: nat, c: nat, links: set<set<nat>>)
    requires Connected(a, b, links) && Connected(b, c, links)
    ensures Connected(a, c, links)
  {
    var p :| Path(p, links) && p[0] == a && p[|p| - 1] == b;
    var q :| Path(q, links) && q[0] == b && q[|q| - 1] == c;
    var r := p + q[1..];
    forall k | 0 <= k < |r| - 1 ensures Hop(r[k], r[k + 1], links) {
      if k < |p| - 1 {
        assert Hop(p[k], p[k + 1], links);
      } else {
        var j := k - (|p| - 1);
        assert r[k] == q[j] && r[k + 1] == q[j + 1];
        assert Hop(q[j], q[j + 1], links);
      }
    }
    assert Path(r, links);
  }

  lemma ConnectedMonotone(a: nat, b: nat, links: set<set<nat>>, more: set<set<nat>>)
    requires Connected(a, b, links) && links <= more
    ensures Connected(a, b, more)
  {
    var p :| Path(p, links) && p[0] == a && p[|p| - 1] == b;
    forall k | 0 <= k < |p| - 1 ensures Hop(p[k], p[k + 1], more) {
      assert Hop(p[k], p[k + 1], links);
    }
    assert Path(p, more);
  }

  /** Along a chain of links the group never changes. */
  lemma {:induction false} ChainKeepsGroup(p: seq<nat>, orders: Orders, links: set<set<nat>>)
    requires Path(p, links) && Reflects(orders, links)
    ensures p[0] == p[|p| - 1] || SameGroup(orders, p[0], p[|p| - 1])
    decreases |p|
  {
    if |p| > 1 {
      assert Hop(p[0], p[1], links);
      forall k | 0 <= k < |p[1..]| - 1 ensures Hop(p[1..][k], p[1..][k + 1], links) {
        assert Hop(p[k + 1], p[k + 2], links);
      }
      ChainKeepsGroup(p[1..], orders, links);
    }
  }

  /** Two orders share a group exactly when the links connect them. */
  lemma GroupsAreComponents(orders: Orders, links: set<set<nat>>, a: nat, b: nat)
    requires Reflects(orders, links) && a != b
    ensures SameGroup(orders, a, b) <==> Connected(a, b, links)
  {
    if p :| Path(p, links) && p[0] == a && p[|p| - 1] == b {
      ChainKeepsGroup(p, orders, links);
    }
  }

  ghost predicate Fresh(orders: Orders, now: nat) {
    forall id <- orders :: orders[id].group != Some(now)
  }

  lemma UnifiedChoice(groups: set<nat>, now: nat)
    ensures if groups == {} then Unified(groups, now) == now else IsMin(Unified(groups, now), groups)
  {
    if groups != {} { HasMin(groups); }
  }

  /** A joined order or a group mate of one is linked, after the request, to every joined order. */
  lemma ReachesJoined(orders: Orders, ids: set<nat>, links: set<set<nat>>, a: nat, s: nat)
    requires Reflects(orders, links) && ids <= orders.Keys && a in orders && s in ids
    requires a in ids || (orders[a].group.Some? && orders[a].group.value in GroupsOf(orders, ids))
    ensures Connected(a, s, links + {ids}) && Connected(s, a, links + {ids})
  {
    var more := links + {ids};
    if a in ids {
      assert Hop(a, s, more) && Hop(s, a, more);
      ConnectedStep(a, s, more);
      ConnectedStep(s, a, more);
    } else {
      var m :| m in ids && orders[m].group == orders[a].group;
      assert SameGroup(orders, a, m) && SameGroup(orders, m, a);
      ConnectedMonotone(a, m, links, more);
      ConnectedMonotone(m, a, links, more);
      assert Hop(m, s, more) && Hop(s, m, more);
      ConnectedStep(m, s, more);
      ConnectedStep(s, m, more);
      ConnectedTransitive(a, m, s, more);
      ConnectedTransitive(s, m, a, more);
    }
  }

  lemma LinkReflects(orders: Orders, ids: set<nat>, now: nat, links: set<set<nat>>)
    requires Reflects(orders, links) && ids <= orders.Keys && ids != {} && Fresh(orders, now)
    ensures Reflects(Link(orders, ids, now), links + {ids})
  {
    var after, more, groups := Link(orders, ids, now), links + {ids}, GroupsOf(orders, ids);
    UnifiedChoice(groups, now);
    var u := Unified(groups, now);
    forall a <- orders ensures
        after[a].group == Some(u) <==> a in ids || (orders[a].group.Some? && orders[a].group.value in groups)
    {
    }
    forall l <- more, a <- l, b <- l ensures SameGroup(after, a, b) {
      if l in links { assert SameGroup(orders, a, b); }
    }
    forall a, b | SameGroup(after, a, b) ensures Connected(a, b, more) {
      if after[a].group == Some(u) {
        var s :| s in ids;
        ReachesJoined(orders, ids, links, a, s);
        ReachesJoined(orders, ids, links, b, s);
        ConnectedTransitive(a, s, b, more);
      } else {
        assert SameGroup(orders, a, b);
        ConnectedMonotone(a, b, links, more);
      }
    }
  }

  datatype LinkRequest = LinkRequest(id: nat, tables: seq<string>, now: nat)

  ghost function RunLinks(orders: Orders, requests: seq<LinkRequest>): (Orders, set<set<nat>>)
    decreases |requests|
  {
    if requests == [] then (orders, {})
    else
      var (before, links) := RunLinks(orders, requests[..|requests| - 1]);
      var r := requests[|requests| - 1];
      match Joined(before, r.id, r.tables)
      case None => (before, links)
      case Some(ids) => (Link(before, ids, r.now), links + {ids})
  }

  /** The clock never repeats a group id that is still in use. */
  ghost predicate FreshClock(orders: Orders, requests: seq<LinkRequest>) {
    forall k :: 0 <= k < |requests| ==> Fresh(RunLinks(orders, requests[..k]).0, requests[k].now)
  }

  lemma JoinedAreOrders(orders: Orders, id: nat, tables: seq<string>)
    ensures var j := Joined(orders, id, tables);
            j.Some? ==> id in j.value && j.value <= orders.Keys
                        && (forall o <- j.value :: orders[o].isTable && orders[o].active)
                        && exists other <- j.value :: other != id
  {
    var j := Joined(orders, id, tables);
    if j.Some? {
      var targets := Targets(tables, orders[id].table);
      forall t <- targets ensures IsSeat(orders, t, Seat(orders, t).value) {
      }
      var t :| t in targets;
      assert Seat(orders, t).value in j.value;
    }
  }

  lemma {:induction false} RunReflects(orders: Orders, requests: seq<LinkRequest>)
    requires (forall id <- orders :: orders[id].group.None?) && FreshClock(orders, requests)
    ensures Reflects(RunLinks(orders, requests).0, RunLinks(orders, requests).1)
    decreases |requests|
  {
    if requests != [] {
      var n := |requests| - 1;
      var r := requests[n];
      forall k | 0 <= k < n ensures Fresh(RunLinks(orders, requests[..n][..k]).0, requests[..n][k].now) {
        assert requests[..n][..k] == requests[..k];
      }
      RunReflects(orders, requests[..n]);
      var (before, links) := RunLinks(orders, requests[..n]);
      JoinedAreOrders(before, r.id, r.tables);
      if Joined(before, r.id, r.tables).Some? {
        LinkReflects(before, Joined(before, r.id, r.tables).value, r.now, links);
      }
    }
  }

  /** After any run of link requests from unlinked tables, groups are exactly the connected components. */
  lemma LinkedTablesAreConnected(orders: Orders, requests: seq<LinkRequest>, a: nat, b: nat)
    requires (forall id <- orders :: orders[id].group.None?) && FreshClock(orders, requests) && a != b
    ensures SameGroup(RunLinks(orders, requests).0, a, b) <==> Connected(a, b, RunLinks(orders, requests).1)
  {
    RunReflects(orders, requests);
    GroupsAreComponents(RunLinks(orders, requests).0, RunLinks(orders, requests).1, a, b);
  }

  // ---------- No group of one ----------

  predicate Mates(orders: Orders, a: nat, b: nat) {
    a != b && SameGroup(orders, a, b)
  }

  ghost predicate Paired(orders: Orders, id: nat) {
    id in orders && orders[id].isTable && orders[id].active && exists other :: Mates(orders, id, other)
  }

  /** Only active table orders are grouped, and each has company. */
  ghost predicate Sound(orders: Orders) {
    forall id :: id in orders && orders[id].group.Some? ==> Paired(orders, id)
  }

  lemma SoundMeansPairs(orders: Orders, g: nat)
    requires Sound(orders) && Members(orders, g) != {}
    ensures |ActiveMembers(orders, g)| >= 2
  {
    var id :| id in Members(orders, g);
    assert Paired(orders, id);
    var other :| Mates(orders, id, other);
    assert {id, other} <= ActiveMembers(orders, g);
    SubsetSize({id, other}, ActiveMembers(orders, g));
    assert |{id, other}| == 2;
  }

  lemma {:induction false} SubsetSize(s: set<nat>, t: set<nat>)
    requires s <= t
    ensures |s| <= |t|
    decreases s
  {
    if s != {} {
      var x :| x in s;
      SubsetSize(s - {x}, t - {x});
    }
  }

  lemma LinkSound(orders: Orders, id: nat, tables: seq<string>, now: nat)
    requires Sound(orders) && Fresh(orders, now) && Joined(orders, id, tables).Some?
    ensures Sound(Link(orders, Joined(orders, id, tables).value, now))
  {
    var ids := Joined(orders, id, tables).value;
    var after, groups := Link(orders, ids, now), GroupsOf(orders, ids);
    JoinedAreOrders(orders, id, tables);
    var friend :| friend in ids && friend != id;
    forall o | o in after && after[o].group.Some? ensures Paired(after, o)
    {
      if after[o].group == after[id].group {
        assert Mates(after, o, if o == id then friend else id);
      } else {
        assert Paired(orders, o);
        var other :| Mates(orders, o, other);
        assert Mates(after, o, other);
      }
    }
  }

  lemma AnotherOne(s: set<nat>, x: nat)
    requires |s| >= 2 && x in s
    ensures exists y :: y in s && y != x
  {
    assert |s - {x}| >= 1;
    var y :| y in s - {x};
  }

  lemma LeaveSound(orders: Orders, id: nat)
    requires Sound(orders) && id in orders && orders[id].group.Some?
    ensures Sound(Leave(orders, id)) && Leave(orders, id).Keys == orders.Keys && Leave(orders, id)[id].group.None?
  {
    var g := orders[id].group.value;
    var left, after := SetGroup(orders, {id}, None), Leave(orders, id);
    forall o | o in after && after[o].group.Some? ensures Paired(after, o)
    {
      assert orders[o].group == after[o].group;
      if after[o].group == Some(g) {
        assert o in ActiveMembers(left, g);
        AnotherOne(ActiveMembers(left, g), o);
        var y :| y in ActiveMembers(left, g) && y != o;
        assert Mates(after, o, y);
      } else {
        assert Paired(orders, o);
        var other :| Mates(orders, o, other);
        assert Mates(after, o, other);
      }
    }
  }

  lemma CancelSound(orders: Orders, id: nat)
    requires Sound(orders)
    ensures Sound(Cancel(orders, id))
  {
    if id in orders && orders[id].active {
      if orders[id].group.Some? { LeaveSound(orders, id); }
      var mid, after := Unlink(orders, id), Cancel(orders, id);
      assert Sound(mid) && id in mid && mid[id].group.None?;
      forall o | o in after && after[o].group.Some? ensures Paired(after, o)
      {
        assert Paired(mid, o);
        var other :| Mates(mid, o, other);
        assert Mates(after, o, other);
      }
    }
  }

  /** Completing a table completes exactly its group, or just itself when it is not linked. */
  lemma CompleteIsExact(orders: Orders, id: nat)
    requires Sound(orders) && id in orders && orders[id].active
    ensures Sound(Complete(orders, id)) && Complete(orders, id).Keys == orders.Keys
    ensures forall o <- orders :: (orders[o].active && !Complete(orders, id)[o].active) <==>
        (o == id || SameGroup(orders, id, o))
    ensures forall o <- orders :: Complete(orders, id)[o].table == orders[o].table
  {
    var after := Complete(orders, id);
    forall o | o in after && after[o].group.Some? ensures Paired(after, o)
    {
      assert Paired(orders, o);
      var other :| Mates(orders, o, other);
      assert Mates(after, o, other);
    }
  }

  datatype Event =
    | Open(id: nat, table: string, isTable: bool)
    | Move(id: nat, table: string)
    | LinkEvent(id: nat, tables: seq<string>, now: nat)
    | UnlinkEvent(id: nat)
    | CancelEvent(id: nat)
    | CompleteEvent(id: nat)

  /** One request; rejected requests change nothing. A table change swaps addresses, never groups. */
  ghost function Apply(orders: Orders, e: Event): Orders {
    match e
    case Open(id, table, isTable) => if id in orders then orders
        else orders[id := TableOrder(isTable, true, table, None)]
    case Move(id, table) => if id in orders then orders[id := orders[id].(table := table)] else orders
    case LinkEvent(id, tables, now) =>
      var joined := Joined(orders, id, tables);
      if joined.None? then orders else Link(orders, joined.value, now)
    case UnlinkEvent(id) => Unlink(orders, id)
    case CancelEvent(id) => Cancel(orders, id)
    case CompleteEvent(id) => Complete(orders, id)
  }

  ghost predicate Allowed(orders: Orders, e: Event) {
    e.LinkEvent? ==> Fresh(orders, e.now)
  }

  lemma ApplySound(orders: Orders, e: Event)
    requires Sound(orders) && Allowed(orders, e)
    ensures Sound(Apply(orders, e))
  {
    match e
    case LinkEvent(id, tables, now) =>
      if Joined(orders, id, tables).Some? { LinkSound(orders, id, tables, now); }
    case UnlinkEvent(id) =>
      if id in orders && orders[id].group.Some? { LeaveSound(orders, id); }
    case CancelEvent(id) => CancelSound(orders, id);
    case CompleteEvent(id) =>
      if id in orders && orders[id].active { CompleteIsExact(orders, id); }
    case Open(id, table, isTable) => RelabelSound(orders, Apply(orders, e));
    case Move(id, table) => RelabelSound(orders, Apply(orders, e));
  }

  lemma RelabelSound(orders: Orders, after: Orders)
    requires Sound(orders) && orders.Keys <= after.Keys
    requires forall o <- orders :: after[o].group == orders[o].group && after[o].isTable == orders[o].isTable
                && after[o].active == orders[o].active
    requires forall o <- after :: o in orders || after[o].group.None?
    ensures Sound(after)
  {
    forall o | o in after && after[o].group.Some? ensures Paired(after, o)
    {
      assert Paired(orders, o);
      var other :| Mates(orders, o, other);
      assert Mates(after, o, other);
    }
  }

  ghost function Run(orders: Orders, events: seq<Event>): Orders {
    if events == [] then orders else Apply(Run(orders, events[..|events| - 1]), events[|events| - 1])
  }

  ghost predicate AllAllowed(orders: Orders, events: seq<Event>) {
    forall k :: 0 <= k < |events| ==> Allowed(Run(orders, events[..k]), events[k])
  }

  /** Over any run, a group in use has at least two active orders. */
  lemma {:induction false} NoLonelyGroup(orders: Orders, events: seq<Event>, g: nat)
    requires Sound(orders) && AllAllowed(orders, events)
    ensures Sound(Run(orders, events))
    ensures Members(Run(orders, events), g) != {} ==> |ActiveMembers(Run(orders, events), g)| >= 2
    decreases |events|
  {
    if events != [] {
      var n := |events| - 1;
      forall k | 0 <= k < n ensures Allowed(Run(orders, events[..n][..k]), events[..n][k]) {
        assert events[..n][..k] == events[..k];
      }
      NoLonelyGroup(orders, events[..n], g);
      assert Allowed(Run(orders, events[..n]), events[n]);
      ApplySound(Run(orders, events[..n]), events[n]);
    }
    if Members(Run(orders, events), g) != {} { SoundMeansPairs(Run(orders, events), g); }
  }

  // ---------- What each request changes, order by order ----------

  /** The active orders of the group that an order leaves. */
  function Company(orders: Orders, id: nat): set<nat> {
    set o <- orders | o != id && orders[o].active && id in orders && orders[o].group == orders[id].group
  }

  /** The group mates of an order lose their group exactly when at most one active order would remain. */
  predicate Dissolves(orders: Orders, id: nat) {
    id in orders && orders[id].group.Some? && |Company(orders, id)| <= 1
  }

  /** The records after an order left: its mates stay linked unless the group dissolves, nobody else changes. */
  ghost predicate LeftBehind(orders: Orders, after: Orders, id: nat) {
    && after.Keys == orders.Keys
    && forall o <- orders :: o != id ==>
         after[o] == if Dissolves(orders, id) && orders[o].group == orders[id].group
                     then orders[o].(group := None) else orders[o]
  }

  lemma CompanyIsLeft(orders: Orders, id: nat, g: nat)
    requires id in orders && orders[id].group == Some(g)
    ensures ActiveMembers(SetGroup(orders, {id}, None), g) == Company(orders, id)
  {
  }

  lemma UnlinkChanges(orders: Orders, id: nat)
    ensures var after := Apply(orders, UnlinkEvent(id));
            if id in orders && orders[id].group.Some?
            then LeftBehind(orders, after, id) && after[id] == orders[id].(group := None)
            else after == orders
  {
    if id in orders && orders[id].group.Some? { CompanyIsLeft(orders, id, orders[id].group.value); }
  }

  lemma CancelChanges(orders: Orders, id: nat)
    ensures var after := Apply(orders, CancelEvent(id));
            if id in orders && orders[id].active
            then LeftBehind(orders, after, id) && after[id] == orders[id].(active := false, group := None)
            else after == orders
  {
    if id in orders && orders[id].group.Some? { CompanyIsLeft(orders, id, orders[id].group.value); }
  }

  /** Completing changes the order and, when it is linked, its group: they are closed and lose the group. */
  lemma CompleteChanges(orders: Orders, id: nat)
    requires Sound(orders)
    ensures var after := Apply(orders, CompleteEvent(id));
            && after.Keys == orders.Keys
            && forall o <- orders :: after[o] ==
                 if id in orders && orders[id].active && (o == id || SameGroup(orders, id, o))
                 then orders[o].(active := false, group := None) else orders[o]
  {
    forall o | o in orders && orders[o].group.Some? ensures Paired(orders, o) {
    }
  }

  /** The newest order that sits at the table: all others there have a smaller id. */
  ghost predicate SitsAt(orders: Orders, table: string, id: nat) {
    && id in orders && orders[id].isTable && orders[id].active && orders[id].table == table
    && !exists o :: o > id && o in orders && orders[o].isTable && orders[o].active && orders[o].table == table
  }

  lemma SeatExactlyWhen(orders: Orders, table: string, id: nat)
    ensures Seat(orders, table) == Some(id) <==> SitsAt(orders, table, id)
  {
    assert IsSeat(orders, table, id) <==> SitsAt(orders, table, id);
  }

  lemma SomeoneSits(orders: Orders, table: string, id: nat)
    requires id in orders && orders[id].isTable && orders[id].active && orders[id].table == table
    ensures Seat(orders, table).Some?
  {
    var ids := set o <- orders | orders[o].isTable && orders[o].active && orders[o].table == table;
    assert id in ids;
    HasMax(ids);
    var x :| x in ids && forall y <- ids :: y <= x;
    forall o <- orders ensures orders[o].isTable && orders[o].active && orders[o].table == table ==> o <= x {
      assert o in ids <==> orders[o].isTable && orders[o].active && orders[o].table == table;
    }
    assert IsSeat(orders, table, x);
  }

  lemma {:induction false} HasMax(s: set<nat>)
    requires s != {}
    ensures exists x :: x in s && forall y <- s :: y <= x
    decreases s
  {
    var x :| x in s;
    if s - {x} == {} {
      assert s == {x};
    } else {
      HasMax(s - {x});
      var y :| y in s - {x} && forall z <- s - {x} :: z <= y;
      assert forall z <- s :: z == x || z in s - {x};
      var m := if x < y then y else x;
      assert m in s && forall z <- s :: z <= m;
    }
  }

  /** The request names this other table. */
  predicate Asked(orders: Orders, id: nat, tables: seq<string>, table: string) {
    id in orders && table in tables && table != "" && table != orders[id].table
  }

  /** A link request is accepted exactly for an active table order that names another table, when an active
      order sits at each table it names; then it joins that order and the newest one of each named table. */
  lemma JoinedExactlyWhen(orders: Orders, id: nat, tables: seq<string>)
    ensures var joined := Joined(orders, id, tables);
            && (joined.Some? <==>
                  && id in orders && orders[id].isTable && orders[id].active
                  && (exists t <- tables :: Asked(orders, id, tables, t))
                  && forall t <- tables :: Asked(orders, id, tables, t) ==>
                       exists o <- orders :: orders[o].isTable && orders[o].active && orders[o].table == t)
            && (joined.Some? ==> forall o :: o in joined.value <==>
                  o == id || exists t <- tables :: Asked(orders, id, tables, t) && SitsAt(orders, t, o))
  {
    forall t ensures Seat(orders, t).Some? <==>
        exists o <- orders :: orders[o].isTable && orders[o].active && orders[o].table == t
    {
      if o :| o in orders && orders[o].isTable && orders[o].active && orders[o].table == t {
        SomeoneSits(orders, t, o);
      }
    }
    if Joined(orders, id, tables).Some? {
      forall o ensures o in Joined(orders, id, tables).value <==>
          o == id || exists t <- tables :: Asked(orders, id, tables, t) && SitsAt(orders, t, o)
      {
        JoinsExactly(orders, id, tables, o);
      }
    }
    if id in orders { assert forall t :: t in Targets(tables, orders[id].table) <==> Asked(orders, id, tables, t); }
  }

  lemma JoinsExactly(orders: Orders, id: nat, tables: seq<string>, o: nat)
    requires Joined(orders, id, tables).Some?
    ensures o in Joined(orders, id, tables).value <==>
            o == id || exists t <- tables :: Asked(orders, id, tables, t) && SitsAt(orders, t, o)
  {
    var targets := Targets(tables, orders[id].table);
    if t :| t in tables && Asked(orders, id, tables, t) && SitsAt(orders, t, o) {
      SeatExactlyWhen(orders, t, o);
      assert t in targets;
    }
    if t :| t in targets && Seat(orders, t).value == o {
      SeatExactlyWhen(orders, t, o);
      assert Asked(orders, id, tables, t);
    }
  }

  /** A joined order, or one that shares a group with a joined order. */
  ghost predicate Gathered(orders: Orders, ids: set<nat>, o: nat) {
    o in ids || exists i :: i in ids && SameGroup(orders, i, o)
  }

  lemma GatheredExactlyWhen(orders: Orders, ids: set<nat>, o: nat)
    requires o in orders
    ensures Gathered(orders, ids, o) <==>
            o in ids || (orders[o].group.Some? && orders[o].group.value in GroupsOf(orders, ids))
  {
    if orders[o].group.Some? && orders[o].group.value in GroupsOf(orders, ids) {
      var i :| i in ids && i in orders && orders[i].group == orders[o].group;
      assert SameGroup(orders, i, o);
    }
  }

  /** The group a link request ends in: the smallest of those it gathers, or the new one when there is none. */
  ghost predicate IsGathering(g: nat, groups: set<nat>, now: nat) {
    if groups == {} then g == now else g in groups && forall h <- groups :: g <= h
  }

  lemma GatheringIsUnified(g: nat, groups: set<nat>, now: nat)
    requires IsGathering(g, groups, now)
    ensures Unified(groups, now) == g
  {
    UnifiedChoice(groups, now);
  }

  /** Linking changes groups only, and only those of the orders it gathers. */
  lemma LinkChanges(orders: Orders, id: nat, tables: seq<string>, now: nat, g: nat)
    requires Joined(orders, id, tables).Some?
    requires IsGathering(g, GroupsOf(orders, Joined(orders, id, tables).value), now)
    ensures var after, ids := Apply(orders, LinkEvent(id, tables, now)), Joined(orders, id, tables).value;
            && after.Keys == orders.Keys
            && forall o <- orders :: after[o] ==
                 if Gathered(orders, ids, o) then orders[o].(group := Some(g)) else orders[o]
  {
    var ids := Joined(orders, id, tables).value;
    GatheringIsUnified(g, GroupsOf(orders, ids), now);
    forall o <- orders ensures Link(orders, ids, now)[o] ==
        if Gathered(orders, ids, o) then orders[o].(group := Some(g)) else orders[o]
    {
      GatheredExactlyWhen(orders, ids, o);
    }
  }
}
