/** What a claimed or returned Bold receipt says about the past: it was approved at that moment, and exactly the
    guards of bold.service.ts decide (claim, returnAdvance). */
module BoldClaims {
  import opened Options
  import opened BoldReceipts

  predicate IsClaimed(receipts: Receipts, p: string) { p in receipts && receipts[p].claim.Some? }

  predicate IsReturned(receipts: Receipts, p: string) { p in receipts && receipts[p].returnedBy.Some? }

  predicate Paid(receipts: Receipts, orderId: int) {
    exists q <- receipts :: receipts[q].claim.Some? && receipts[q].claim.value.orderId == orderId
  }

  // ---------- One call ----------

  /** A claim is stored exactly for an approved, unclaimed receipt of the merchant that covers the advance of a
      usable order without a receipt; then it is written in that receipt and nothing else changes. */
  lemma ClaimStoredExactlyWhen(receipts: Receipts, p: string, merchantId: string, c: Claim, usable: bool)
    ensures var (after, reply) := MakeClaim(receipts, p, merchantId, c, usable);
            && (reply == Stored <==>
                  && p in receipts && receipts[p].merchantId == merchantId && receipts[p].status == Approved
                  && receipts[p].claim == None && usable && c.advance <= receipts[p].amount
                  && !Paid(receipts, c.orderId))
            && (reply == Stored ==> after[p].claim == Some(c) && after[p].(claim := None) == receipts[p])
            && (reply == NotFound <==> p !in receipts)
            && (reply == BadRequest <==>
                  && p in receipts && receipts[p].merchantId == merchantId && receipts[p].status == Approved
                  && receipts[p].claim == None && (usable ==> c.advance > receipts[p].amount))
            && after.Keys == receipts.Keys
            && forall q <- receipts :: reply != Stored || q != p ==> after[q] == receipts[q]
  {
  }

  /** An advance is returned exactly for an approved, claimed receipt whose advance was not returned before. */
  lemma ReturnStoredExactlyWhen(receipts: Receipts, p: string, actor: string)
    ensures var (after, reply) := ReturnAdvance(receipts, p, actor);
            && (reply == Stored <==>
                  && p in receipts && receipts[p].status == Approved && receipts[p].claim != None
                  && receipts[p].returnedBy == None)
            && (reply == Stored ==> after[p].returnedBy == Some(actor) && after[p].(returnedBy := None) == receipts[p])
            && (reply == NotFound <==> p !in receipts)
            && after.Keys == receipts.Keys
            && forall q <- receipts :: reply != Stored || q != p ==> after[q] == receipts[q]
  {
  }

  // ---------- One operation of a run ----------

  /** The operation claims the receipt: an approved one, of the merchant that asks, not claimed before. */
  predicate ClaimsIt(d: Desk, op: Operation, p: string) {
    && op.ClaimOperation? && op.paymentId == p && op.usable && p in d.receipts
    && d.receipts[p].status == Approved && d.receipts[p].merchantId == op.merchantId
    && d.receipts[p].claim == None && op.claim.advance <= d.receipts[p].amount && !Paid(d.receipts, op.claim.orderId)
  }

  predicate ReturnsIt(d: Desk, op: Operation, p: string) {
    && op.ReturnOperation? && op.paymentId == p && p in d.receipts && d.receipts[p].status == Approved
    && d.receipts[p].claim != None && d.receipts[p].returnedBy == None
  }

  /** Whatever the operation is, a receipt becomes claimed or returned exactly this way. */
  lemma ClaimedWasApproved(d: Desk, op: Operation, p: string)
    ensures IsClaimed(Apply(d, op).receipts, p) <==> IsClaimed(d.receipts, p) || ClaimsIt(d, op, p)
    ensures ClaimsIt(d, op, p) ==> Apply(d, op).receipts[p].claim == Some(op.claim)
    ensures IsReturned(Apply(d, op).receipts, p) <==> IsReturned(d.receipts, p) || ReturnsIt(d, op, p)
    ensures ReturnsIt(d, op, p) ==> Apply(d, op).receipts[p].returnedBy == Some(op.actor)
  {
  }

  // ---------- Over every run from the empty desk ----------

  /** Step `n` of the run claims the receipt. */
  ghost predicate ClaimsAt(ops: seq<Operation>, n: nat, p: string) {
    n < |ops| && ClaimsIt(ApplyAll(EMPTY, ops[..n]), ops[n], p)
  }

  ghost predicate ReturnsAt(ops: seq<Operation>, n: nat, p: string) {
    n < |ops| && ReturnsIt(ApplyAll(EMPTY, ops[..n]), ops[n], p)
  }

  lemma ClaimsEarlier(ops: seq<Operation>, k: nat, n: nat, p: string)
    requires n < k <= |ops|
    ensures ClaimsAt(ops[..k], n, p) <==> ClaimsAt(ops, n, p)
    ensures ReturnsAt(ops[..k], n, p) <==> ReturnsAt(ops, n, p)
  {
    assert ops[..k][..n] == ops[..n];
  }

  /** A receipt ends claimed exactly when some step claimed it. */
  lemma {:induction false} ClaimedExactlyWhen(ops: seq<Operation>, p: string)
    ensures IsClaimed(ApplyAll(EMPTY, ops).receipts, p) <==> exists n: nat :: ClaimsAt(ops, n, p)
    decreases |ops|
  {
    if ops != [] {
      var k := |ops| - 1;
      ClaimedExactlyWhen(ops[..k], p);
      ClaimedWasApproved(ApplyAll(EMPTY, ops[..k]), ops[k], p);
      forall n: nat | n < k ensures ClaimsAt(ops[..k], n, p) <==> ClaimsAt(ops, n, p) { ClaimsEarlier(ops, k, n, p); }
      assert ClaimsAt(ops, k, p) <==> ClaimsIt(ApplyAll(EMPTY, ops[..k]), ops[k], p);
    }
  }

  lemma ClaimStays(d: Desk, op: Operation, p: string)
    requires Claims(d.receipts) && IsClaimed(d.receipts, p)
    ensures IsClaimed(Apply(d, op).receipts, p) && Apply(d, op).receipts[p].claim == d.receipts[p].claim
  {
    ApplyKeeps(d, op);
  }

  /** ... and it keeps that claim. */
  lemma {:induction false} ClaimIsKept(ops: seq<Operation>, p: string, n: nat)
    requires ClaimsAt(ops, n, p)
    ensures IsClaimed(ApplyAll(EMPTY, ops).receipts, p)
    ensures ApplyAll(EMPTY, ops).receipts[p].claim == Some(ops[n].claim)
    decreases |ops|
  {
    var k := |ops| - 1;
    var d := ApplyAll(EMPTY, ops[..k]);
    if n == k {
      ClaimedWasApproved(d, ops[k], p);
    } else {
      ClaimsEarlier(ops, k, n, p);
      ClaimIsKept(ops[..k], p, n);
      RunKeeps(EMPTY, ops[..k]);
      ClaimStays(d, ops[k], p);
    }
  }

  /** An advance ends returned exactly when some step returned it. */
  lemma {:induction false} ReturnedExactlyWhen(ops: seq<Operation>, p: string)
    ensures IsReturned(ApplyAll(EMPTY, ops).receipts, p) <==> exists n: nat :: ReturnsAt(ops, n, p)
    decreases |ops|
  {
    if ops != [] {
      var k := |ops| - 1;
      ReturnedExactlyWhen(ops[..k], p);
      ClaimedWasApproved(ApplyAll(EMPTY, ops[..k]), ops[k], p);
      forall n: nat | n < k ensures ReturnsAt(ops[..k], n, p) <==> ReturnsAt(ops, n, p) { ClaimsEarlier(ops, k, n, p); }
      assert ReturnsAt(ops, k, p) <==> ReturnsIt(ApplyAll(EMPTY, ops[..k]), ops[k], p);
    }
  }

  /** A receipt is claimed once at most. */
  lemma ClaimedOnce(ops: seq<Operation>, p: string, n: nat, m: nat)
    requires ClaimsAt(ops, n, p) && ClaimsAt(ops, m, p)
    ensures n == m
  {
    if n < m { ClaimedSince(ops, p, n, m); }
    if m < n { ClaimedSince(ops, p, m, n); }
  }

  lemma ClaimedSince(ops: seq<Operation>, p: string, n: nat, m: nat)
    requires n < m <= |ops| && ClaimsAt(ops, n, p)
    ensures IsClaimed(ApplyAll(EMPTY, ops[..m]).receipts, p)
  {
    assert ops[..m][..n] == ops[..n];
    assert ClaimsAt(ops[..m], n, p);
    ClaimedExactlyWhen(ops[..m], p);
  }

  /** In every run a claimed receipt is approved, or was until it was voided; it is never a rejected one. */
  lemma {:induction false} ClaimedIsNeverRejected(ops: seq<Operation>, p: string)
    requires IsClaimed(ApplyAll(EMPTY, ops).receipts, p)
    ensures ApplyAll(EMPTY, ops).receipts[p].status != Rejected
    decreases |ops|
  {
    var k := |ops| - 1;
    var d := ApplyAll(EMPTY, ops[..k]);
    RunKeeps(EMPTY, ops[..k]);
    ApplyKeeps(d, ops[k]);
    ClaimedWasApproved(d, ops[k], p);
    if IsClaimed(d.receipts, p) { ClaimedIsNeverRejected(ops[..k], p); }
  }
}
