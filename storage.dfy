/** The three pieces of record logic of the storage layer, over in-memory
    tables instead of the database: the entitlement filter on AI model
    records, the admin payment statistics and the manual approval of a
    payment. Timestamps are opaque integers supplied by the caller. */
module Storage {
  import opened Wrappers

  /** A user row, reduced to the fields the AI bridge reads. */
  datatype User = User(id: int, isAdmin: bool, subscriptionPlanId: Option<int>)

  /** A row of the `ai_models` table. */
  datatype AiModelRecord = AiModelRecord(
    id: int,
    name: string,
    description: string,
    category: string,
    active: bool,
    apiEndpoint: Option<string>,
    minSubscriptionLevel: int,
    createdAt: int,
    updatedAt: Option<int>)

  /** A row of the `payments` table. */
  datatype Payment = Payment(
    id: int,
    userId: int,
    planId: Option<int>,
    amount: int,
    currency: string,
    provider: string,
    paymentIntentId: Option<string>,
    status: string,
    manuallyApproved: Option<bool>,
    approvedById: Option<int>,
    approvedAt: Option<int>,
    createdAt: int)

  /** `!req.user?.id` fails for no session user and for the falsy id 0:
      a caller is signed in only with a non-zero id. */
  predicate SignedIn(userId: Option<int>) {
    userId.Some? && userId.value != 0
  }

  /** `getUser`: the row with the given id, if any. */
  function GetUser(users: seq<User>, id: int): (r: Option<User>)
    ensures r.Some? ==> r.value in users && r.value.id == id
    ensures r.None? <==> forall u :: u in users ==> u.id != id
  {
    if |users| == 0 then None
    else if users[0].id == id then Some(users[0])
    else GetUser(users[1..], id)
  }

  // ---------------------------------------------------------------------
  // getModelsBySubscriptionLevel

  predicate AvailableAt(m: AiModelRecord, level: int) {
    m.active && m.minSubscriptionLevel <= level
  }

  /** The active model rows whose minimum subscription level is at most
      `level`, in table order. */
  function ModelsBySubscriptionLevel(models: seq<AiModelRecord>, level: int): (r: seq<AiModelRecord>)
    ensures forall m :: m in r <==> m in models && AvailableAt(m, level)
    ensures |r| <= |models|
  {
    if |models| == 0 then []
    else
      var rest := ModelsBySubscriptionLevel(models[1..], level);
      if AvailableAt(models[0], level) then [models[0]] + rest else rest
  }

  /** Raising the subscription level never withdraws a model. */
  lemma LevelMonotone(models: seq<AiModelRecord>, low: int, high: int)
    requires low <= high
    ensures forall m :: m in ModelsBySubscriptionLevel(models, low) ==> m in ModelsBySubscriptionLevel(models, high)
  {
  }

  // ---------------------------------------------------------------------
  // getAdminPaymentStats

  predicate Completed(p: Payment) { p.status == "completed" }

  predicate AwaitingApproval(p: Payment) { p.status == "pending" && p.provider == "manual" }

  /** The sum of `amount` over the completed payments. */
  function TotalRevenue(ps: seq<Payment>): int
  {
    if |ps| == 0 then 0
    else TotalRevenue(ps[..|ps| - 1]) + (if Completed(ps[|ps| - 1]) then ps[|ps| - 1].amount else 0)
  }

  /** The revenue of two batches of payments adds up. */
  lemma {:induction false} TotalRevenueAppend(a: seq<Payment>, b: seq<Payment>)
    ensures TotalRevenue(a + b) == TotalRevenue(a) + TotalRevenue(b)
    decreases |b|
  {
    if |b| > 0 {
      assert (a + b)[..|a + b| - 1] == a + b[..|b| - 1];
      TotalRevenueAppend(a, b[..|b| - 1]);
    } else {
      assert a + b == a;
    }
  }

  /** Payments that are not completed contribute nothing to the revenue,
      and with non-negative amounts the revenue is bounded by the sum of
      all amounts. */
  lemma {:induction false} TotalRevenueBounds(ps: seq<Payment>)
    requires forall i :: 0 <= i < |ps| ==> ps[i].amount >= 0
    ensures 0 <= TotalRevenue(ps) <= SumAmounts(ps)
    ensures (forall i :: 0 <= i < |ps| ==> !Completed(ps[i])) ==> TotalRevenue(ps) == 0
    decreases |ps|
  {
    if |ps| > 0 {
      TotalRevenueBounds(ps[..|ps| - 1]);
    }
  }

  function SumAmounts(ps: seq<Payment>): int
  {
    if |ps| == 0 then 0 else SumAmounts(ps[..|ps| - 1]) + ps[|ps| - 1].amount
  }

  /** The number of manual payments still pending. */
  function PendingApprovals(ps: seq<Payment>): (r: nat)
    ensures r <= |ps|
    ensures r == 0 <==> forall i :: 0 <= i < |ps| ==> !AwaitingApproval(ps[i])
  {
    if |ps| == 0 then 0
    else PendingApprovals(ps[..|ps| - 1]) + (if AwaitingApproval(ps[|ps| - 1]) then 1 else 0)
  }

  /** The number of payments made through `provider`. */
  function CountProvider(ps: seq<Payment>, provider: string): (r: nat)
    ensures r <= |ps|
    ensures r > 0 <==> exists i :: 0 <= i < |ps| && ps[i].provider == provider
  {
    if |ps| == 0 then 0
    else CountProvider(ps[..|ps| - 1], provider) + (if ps[|ps| - 1].provider == provider then 1 else 0)
  }

  /** The providers that occur, each once, in order of first appearance. */
  function Providers(ps: seq<Payment>): (r: seq<string>)
    ensures forall k :: k in r <==> exists i :: 0 <= i < |ps| && ps[i].provider == k
  {
    if |ps| == 0 then []
    else
      var earlier := Providers(ps[..|ps| - 1]);
      if ps[|ps| - 1].provider in earlier then earlier else earlier + [ps[|ps| - 1].provider]
  }

  ghost predicate Distinct(ks: seq<string>) {
    forall i, j :: 0 <= i < j < |ks| ==> ks[i] != ks[j]
  }

  /** The sum of the per-provider counts over the keys `ks`. */
  function SumCounts(ps: seq<Payment>, ks: seq<string>): nat
  {
    if |ks| == 0 then 0 else CountProvider(ps, ks[0]) + SumCounts(ps, ks[1..])
  }

  lemma {:induction false} SumCountsStep(ps: seq<Payment>, p: Payment, ks: seq<string>)
    requires Distinct(ks)
    ensures SumCounts(ps + [p], ks) == SumCounts(ps, ks) + (if p.provider in ks then 1 else 0)
    decreases |ks|
  {
    if |ks| > 0 {
      assert (ps + [p])[..|ps + [p]| - 1] == ps;
      SumCountsStep(ps, p, ks[1..]);
    }
  }

  lemma {:induction false} SumCountsAppendKey(ps: seq<Payment>, ks: seq<string>, k: string)
    ensures SumCounts(ps, ks + [k]) == SumCounts(ps, ks) + CountProvider(ps, k)
    decreases |ks|
  {
    if |ks| > 0 {
      assert (ks + [k])[1..] == ks[1..] + [k];
      SumCountsAppendKey(ps, ks[1..], k);
    }
  }

  lemma {:induction false} SumCountsUnseen(ps: seq<Payment>, k: string)
    requires forall i :: 0 <= i < |ps| ==> ps[i].provider != k
    ensures CountProvider(ps, k) == 0
  {
  }

  /** Every payment is counted under exactly one provider: the per-provider
      counts add up to the number of payments. */
  lemma {:induction false} ProviderCountsSum(ps: seq<Payment>)
    ensures Distinct(Providers(ps))
    ensures SumCounts(ps, Providers(ps)) == |ps|
    decreases |ps|
  {
    if |ps| > 0 {
      var init, p := ps[..|ps| - 1], ps[|ps| - 1];
      assert ps == init + [p];
      ProviderCountsSum(init);
      var ks := Providers(init);
      SumCountsStep(init, p, ks);
      if p.provider !in ks {
        SumCountsUnseen(init, p.provider);
        SumCountsAppendKey(ps, ks, p.provider);
      }
    }
  }

  /** The dictionary holds, for each provider of `ps`, its number of
      payments, and no other key. */
  ghost predicate Tallies(acc: map<string, nat>, ps: seq<Payment>) {
    (forall k :: k in acc <==> CountProvider(ps, k) > 0)
    && (forall k :: k in acc ==> acc[k] == CountProvider(ps, k))
  }

  /** `reduce` over the payments into a dictionary that is updated in
      place: one entry per provider holding its number of payments. */
  method PaymentsByProvider(ps: seq<Payment>) returns (acc: map<string, nat>)
    ensures forall k :: k in acc <==> exists i :: 0 <= i < |ps| && ps[i].provider == k
    ensures forall k :: k in acc ==> acc[k] == CountProvider(ps, k)
  {
    acc := map[];
    var i := 0;
    while i < |ps|
      invariant 0 <= i <= |ps|
      invariant Tallies(acc, ps[..i])
    {
      var p := ps[i].provider;
      TallyStep(acc, ps, i);
      acc := acc[p := (if p in acc then acc[p] else 0) + 1];
      i := i + 1;
    }
    assert ps[..i] == ps;
  }

  /** Counting one more payment keeps the dictionary a tally. */
  lemma TallyStep(acc: map<string, nat>, ps: seq<Payment>, i: nat)
    requires i < |ps| && Tallies(acc, ps[..i])
    ensures var p := ps[i].provider;
      Tallies(acc[p := (if p in acc then acc[p] else 0) + 1], ps[..i + 1])
  {
    assert ps[..i + 1][..i] == ps[..i];
  }

  /** At most the first ten payments, in table order. */
  function RecentPayments(ps: seq<Payment>): (r: seq<Payment>)
    ensures |r| <= 10 && r <= ps
    ensures |ps| <= 10 ==> r == ps
    ensures |ps| > 10 ==> |r| == 10
  {
    if |ps| <= 10 then ps else ps[..10]
  }

  datatype PaymentStats = PaymentStats(
    totalRevenue: int,
    pendingApprovals: nat,
    paymentsByProvider: map<string, nat>,
    recentPayments: seq<Payment>)

  method GetAdminPaymentStats(ps: seq<Payment>) returns (s: PaymentStats)
    ensures s.totalRevenue == TotalRevenue(ps)
    ensures s.pendingApprovals == PendingApprovals(ps)
    ensures forall k :: k in s.paymentsByProvider <==> k in Providers(ps)
    ensures forall k :: k in s.paymentsByProvider ==> s.paymentsByProvider[k] == CountProvider(ps, k)
    ensures s.recentPayments == RecentPayments(ps)
  {
    var byProvider := PaymentsByProvider(ps);
    s := PaymentStats(TotalRevenue(ps), PendingApprovals(ps), byProvider, RecentPayments(ps));
  }

  // ---------------------------------------------------------------------
  // approveManualPayment

  /** The row after approval by `adminId` at time `now`. */
  function Approved(p: Payment, adminId: int, now: int): (q: Payment)
    ensures q.status == "completed" && q.manuallyApproved == Some(true)
    ensures q.approvedById == Some(adminId) && q.approvedAt == Some(now)
    ensures q.(status := p.status, manuallyApproved := p.manuallyApproved,
               approvedById := p.approvedById, approvedAt := p.approvedAt) == p
  {
    p.(status := "completed", manuallyApproved := Some(true), approvedById := Some(adminId), approvedAt := Some(now))
  }

  /** `WHERE id = $id` over the rows: every matching row approved, the
      others kept. */
  function ApprovedRows(rows: seq<Payment>, id: int, adminId: int, now: int): (r: seq<Payment>)
    ensures |r| == |rows|
    ensures forall i :: 0 <= i < |rows| && rows[i].id != id ==> r[i] == rows[i]
    ensures forall i :: 0 <= i < |rows| && rows[i].id == id ==>
      (&& r[i].status == "completed" && r[i].manuallyApproved == Some(true)
       && r[i].approvedById == Some(adminId) && r[i].approvedAt == Some(now)
       && r[i].(status := rows[i].status, manuallyApproved := rows[i].manuallyApproved,
                approvedById := rows[i].approvedById, approvedAt := rows[i].approvedAt) == rows[i])
  {
    seq(|rows|, i requires 0 <= i < |rows| => if rows[i].id == id then Approved(rows[i], adminId, now) else rows[i])
  }

  /** The first row with the given id, as an index. */
  function FirstWithId(rows: seq<Payment>, id: int): (r: Option<nat>)
    ensures r.Some? ==> r.value < |rows| && rows[r.value].id == id
    ensures r.Some? ==> forall j :: 0 <= j < r.value ==> rows[j].id != id
    ensures r.None? <==> forall j :: 0 <= j < |rows| ==> rows[j].id != id
  {
    if |rows| == 0 then None
    else if rows[0].id == id then Some(0)
    else match FirstWithId(rows[1..], id)
      case None => None
      case Some(k) => Some(k + 1)
  }

  /** The `payments` table. */
  class PaymentTable {
    var rows: seq<Payment>

    constructor (initial: seq<Payment>)
      ensures rows == initial
    {
      rows := initial;
    }

    /** `UPDATE payments SET ... WHERE id = $id RETURNING *`, keeping the
        first returned row. */
    method ApproveManualPayment(id: int, adminId: int, now: int) returns (r: Option<Payment>)
      modifies this
      ensures rows == ApprovedRows(old(rows), id, adminId, now)
      ensures r == match FirstWithId(old(rows), id)
                   case Some(k) => Some(rows[k])
                   case None => None
    {
      var found := FirstWithId(rows, id);
      rows := ApprovedRows(rows, id, adminId, now);
      r := match found
           case Some(k) => Some(rows[k])
           case None => None;
    }
  }
}
