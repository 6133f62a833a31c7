/** The reward ledger of rewards/service.go: QueueReward, and the payout loop with
    its running-sum threshold. BAT amounts are reals; the database, the wallet
    look-ups and the payments answer through parameters. */
module RewardLedger {
  import opened Words
  import opened Wrappers
  import opened Decimal
  import Lists

  datatype Status = Pending | Paid | Failed

  datatype Row = Row(
    username: string,
    amount: real,
    status: Status,
    queuedAt: int,
    paidAt: Option<int>,
    txHash: string)

  datatype Event = Event(kind: string, projectID: Int64, username: string, objectID: Int64)

  datatype Rates = Rates(mergeRequest: real, issue: real, pipeline: real, star: real)

  type ID = string
  type Rows = map<ID, Row>

  function RateFor(r: Rates, kind: string): real {
    match kind
    case "merge_request" => r.mergeRequest
    case "issue" => r.issue
    case "pipeline" => r.pipeline
    case "star" => r.star
    case _ => 0.0
  }

  /** Each kind of contribution earns its own rate, and any other kind nothing. */
  lemma RatesByKind(r: Rates, kind: string)
    ensures RateFor(r, "merge_request") == r.mergeRequest && RateFor(r, "issue") == r.issue
    ensures RateFor(r, "pipeline") == r.pipeline && RateFor(r, "star") == r.star
    ensures RateFor(r, kind) != 0.0 ==> kind in {"merge_request", "issue", "pipeline", "star"}
  {
  }

  /** The documented defaults: 1, a quarter, a tenth and a twentieth of a BAT. */
  lemma DefaultsInOrder()
    ensures DEFAULT_RATES.mergeRequest == 1.0 && DEFAULT_RATES.issue * 4.0 == 1.0
    ensures DEFAULT_RATES.pipeline * 10.0 == 1.0 && DEFAULT_RATES.star * 20.0 == 1.0
  {
  }

  function RewardID(e: Event): ID {
    e.kind + "-" + Print(e.projectID) + "-" + Print(e.objectID)
  }

  function NewRow(r: Rates, e: Event, now: int): Row {
    Row(e.username, RateFor(r, e.kind), Pending, now, None, "")
  }

  /** What happens to one row during a payout: whether the wallet look-up fails,
      what the payment returns (None is an error) and when, whether the status
      update is lost (its error is ignored). */
  datatype RowIO = RowIO(lookupFails: bool, tx: Option<string>, now: int, updateLost: bool)

  /** Each row exactly once. */
  ghost predicate Listing(rows: Rows, order: seq<ID>) {
    && (forall i :: 0 <= i < |order| ==> order[i] in rows)
    && (forall i, j :: 0 <= i < j < |order| ==> order[i] != order[j])
    && (forall id :: id in rows ==> id in order)
  }

  /** ORDER BY queued_at ASC, which leaves rows of the same second in any order. */
  ghost predicate InQueueOrder(rows: Rows, order: seq<ID>) {
    && Listing(rows, order)
    && forall i, j :: 0 <= i < j < |order| ==> rows[order[i]].queuedAt <= rows[order[j]].queuedAt
  }

  // ---------------------------------------------------------------------
  // What one payout does, row by row
  // ---------------------------------------------------------------------

  function Amount(rows: Rows, id: ID): real {
    if id in rows && rows[id].status.Pending? then rows[id].amount else 0.0
  }

  /** The running sum of the pending amounts among the first k rows. */
  function PendingSum(rows: Rows, order: seq<ID>, k: nat): real
    requires k <= |order|
  {
    if k == 0 then 0.0 else PendingSum(rows, order, k - 1) + Amount(rows, order[k - 1])
  }

  predicate IsPending(rows: Rows, id: ID) {
    id in rows && rows[id].status.Pending?
  }

  /** Row i is pending and the sum up to and including it reaches the minimum. */
  predicate Passes(rows: Rows, order: seq<ID>, min: real, i: nat)
    requires i < |order|
  {
    IsPending(rows, order[i]) && PendingSum(rows, order, i + 1) >= min
  }

  datatype Payout = Payout(wallets: set<string>, order: seq<ID>, ios: seq<RowIO>, min: real)

  /** Row i is submitted for payment. */
  predicate Submits(rows: Rows, p: Payout, i: nat)
    requires i < |p.order| == |p.ios|
  {
    Passes(rows, p.order, p.min, i) && rows[p.order[i]].username in p.wallets && !p.ios[i].lookupFails
  }

  function Settled(row: Row, io: RowIO): Row {
    match io.tx
    case Some(hash) => row.(status := Paid, paidAt := Some(io.now), txHash := hash)
    case None => row.(status := Failed, paidAt := Some(io.now))
  }

  /** The rows after the first k of the listing. */
  function RowsAfter(rows: Rows, p: Payout, k: nat): Rows
    requires k <= |p.order| == |p.ios|
  {
    if k == 0 then rows
    else
      var before := RowsAfter(rows, p, k - 1);
      if Submits(rows, p, k - 1) && !p.ios[k - 1].updateLost then
        before[p.order[k - 1] := Settled(rows[p.order[k - 1]], p.ios[k - 1])]
      else before
  }

  /** The IDs reported as paid (`success`) or as failed, in order. */
  function Reported(rows: Rows, p: Payout, k: nat, success: bool): seq<ID>
    requires k <= |p.order| == |p.ios|
  {
    if k == 0 then []
    else
      Reported(rows, p, k - 1, success)
      + if Submits(rows, p, k - 1) && p.ios[k - 1].tx.Some? == success then [p.order[k - 1]] else []
  }

  function EachIO(order: seq<ID>, io: ID -> RowIO): (ios: seq<RowIO>)
    ensures |ios| == |order| && forall i :: 0 <= i < |order| ==> ios[i] == io(order[i])
  {
    seq(|order|, i requires 0 <= i < |order| => io(order[i]))
  }

  lemma RepeatCounts<T>(s: seq<T>, i: nat, j: nat)
    requires i < j < |s| && s[i] == s[j]
    ensures multiset(s)[s[i]] >= 2
  {
    assert s == s[..j] + [s[j]] + s[j + 1..];
    assert s[i] in s[..j];
  }

  lemma NoRepeat<T>(s: seq<T>, x: T)
    requires forall i, j :: 0 <= i < j < |s| ==> s[i] != s[j]
    ensures multiset(s)[x] <= 1
    decreases |s|
  {
    if s == [] {
    } else {
      NoRepeat(s[1..], x);
      assert s == [s[0]] + s[1..];
      assert s[0] !in s[1..];
    }
  }

  /** A permutation of a listing is a listing. */
  lemma SortedListing(rows: Rows, ids: seq<ID>, order: seq<ID>)
    requires Listing(rows, ids) && multiset(order) == multiset(ids)
    ensures Listing(rows, order)
  {
    assert forall id :: id in order <==> id in multiset(order);
    assert forall id :: id in ids <==> id in multiset(ids);
    assert forall i :: 0 <= i < |order| ==> order[i] in order;
    forall i, j | 0 <= i < j < |order|
      ensures order[i] != order[j]
    {
      NoRepeat(ids, order[i]);
      if order[i] == order[j] {
        RepeatCounts(order, i, j);
      }
    }
  }

  /** DefaultRewardRates. */
  const DEFAULT_RATES := Rates(1.0, 0.25, 0.1, 0.05)

  datatype Refusal = BadMethod | BadRequest | DatabaseError

  class Service {
    var rates: Rates
    const minPayout: real
    var rows: Rows
    var wallets: set<string>

    constructor (rates: Rates, minPayout: real, rows: Rows, wallets: set<string>)
      ensures this.rates == rates && this.minPayout == minPayout && this.rows == rows && this.wallets == wallets
    {
      this.rates, this.minPayout, this.rows, this.wallets := rates, minPayout, rows, wallets;
    }

    /** New. `stored` is what the database file holds, None if it cannot be opened;
        `saved` are its saved rates, None if there are none or they do not parse. */
    static method New(enabled: bool, minPayout: real, stored: Option<(Rows, set<string>)>, saved: Option<Rates>)
      returns (s: Service?)
      ensures s == null <==> !enabled || stored.None?
      ensures s != null ==>
                && fresh(s)
                && s.minPayout == (if minPayout == 0.0 then 5.0 else minPayout)
                && s.rates == (if saved.Some? then saved.value else DEFAULT_RATES)
                && (s.rows, s.wallets) == stored.value
    {
      if !enabled {
        return null;
      }
      var min := minPayout;
      if min == 0.0 {
        min := 5.0;
      }
      if stored.None? {
        return null;
      }
      var rates := if saved.Some? then saved.value else DEFAULT_RATES;
      s := new Service(rates, min, stored.value.0, stored.value.1);
    }

    /** INSERT OR REPLACE; None is a database error. */
    method QueueReward(event: Event, now: int, stored: bool) returns (r: Option<Row>)
      modifies `rows
      ensures stored ==> r == Some(NewRow(rates, event, now))
      ensures stored ==>
                && r.value.username == event.username && r.value.amount == RateFor(rates, event.kind)
                && r.value.status == Pending && r.value.queuedAt == now
                && r.value.paidAt == None && r.value.txHash == ""
      ensures stored ==> rows == old(rows)[RewardID(event) := NewRow(rates, event, now)]
      ensures !stored ==> r == None && rows == old(rows)
    {
      var reward := Row(event.username, RateFor(rates, event.kind), Pending, now, None, "");
      if !stored {
        return None;
      }
      rows := rows[RewardID(event) := reward];
      return Some(reward);
    }

    /** handleWalletRegister; `body` is the user name and the address, None if the
        body is not JSON. */
    method RegisterWallet(post: bool, body: Option<(string, string)>, stored: bool) returns (err: Option<Refusal>)
      modifies `wallets
      ensures err == (if !post then Some(BadMethod)
                      else if body.None? || body.value.0 == "" || body.value.1 == "" then Some(BadRequest)
                      else if !stored then Some(DatabaseError)
                      else None)
      ensures wallets == if err.None? then old(wallets) + {body.value.0} else old(wallets)
    {
      if !post {
        return Some(BadMethod);
      }
      if body.None? || body.value.0 == "" || body.value.1 == "" {
        return Some(BadRequest);
      }
      if !stored {
        return Some(DatabaseError);
      }
      wallets := wallets + {body.value.0};
      return None;
    }

    /** loadPendingRewards: all rows, in the order of the query. */
    method LoadPendingRewards() returns (order: seq<ID>)
      ensures InQueueOrder(rows, order)
    {
      var ids: seq<ID> := [];
      var todo := rows.Keys;
      while todo != {}
        invariant todo <= rows.Keys
        invariant forall i, j :: 0 <= i < j < |ids| ==> ids[i] != ids[j]
        invariant forall id :: id in ids <==> id in rows && id !in todo
      {
        var id :| id in todo;
        ids := ids + [id];
        todo := todo - {id};
      }
      var table := rows;
      var queuedAt := (id: ID) => if id in table then table[id].queuedAt else 0;
      order := Lists.SortBy(ids, queuedAt);
      SortedListing(rows, ids, order);
      assert forall i :: 0 <= i < |order| ==> queuedAt(order[i]) == rows[order[i]].queuedAt;
    }

    /** The loop over the rows as loaded. */
    method PayEach(order: seq<ID>, ios: seq<RowIO>) returns (paid: seq<ID>, failed: seq<ID>, totalBAT: real)
      requires Listing(rows, order) && |ios| == |order|
      modifies `rows
      ensures var p := Payout(wallets, order, ios, minPayout);
              && rows == RowsAfter(old(rows), p, |order|)
              && paid == Reported(old(rows), p, |order|, true)
              && failed == Reported(old(rows), p, |order|, false)
      ensures totalBAT == PendingSum(old(rows), order, |order|)
    {
      paid, failed, totalBAT := [], [], 0.0;
      var pending := rows;   // the rows as loaded before the loop
      ghost var p := Payout(wallets, order, ios, minPayout);
      for k := 0 to |order|
        invariant rows == RowsAfter(pending, p, k)
        invariant paid == Reported(pending, p, k, true)
        invariant failed == Reported(pending, p, k, false)
        invariant totalBAT == PendingSum(pending, order, k)
      {
        var reward := pending[order[k]];
        if reward.status != Pending {
          continue;
        }
        totalBAT := totalBAT + reward.amount;
        if totalBAT < minPayout {
          continue;
        }
        if reward.username !in wallets || ios[k].lookupFails {
          continue;
        }
        if ios[k].tx.None? {
          if !ios[k].updateLost {
            rows := rows[order[k] := reward.(status := Failed, paidAt := Some(ios[k].now))];
          }
          failed := failed + [order[k]];
          continue;
        }
        if !ios[k].updateLost {
          rows := rows[order[k] := reward.(status := Paid, paidAt := Some(ios[k].now), txHash := ios[k].tx.value)];
        }
        paid := paid + [order[k]];
      }
    }

    /** handlePayout; `readable` says whether the rows could be read, and `io` what
        happens to each of them. */
    method HandlePayout(post: bool, readable: bool, io: ID -> RowIO)
      returns (err: Option<Refusal>, order: seq<ID>, paid: seq<ID>, failed: seq<ID>, totalBAT: real)
      modifies `rows
      ensures err == (if !post then Some(BadMethod) else if !readable then Some(DatabaseError) else None)
      ensures err.Some? ==> rows == old(rows)
      ensures err.None? ==>
                InQueueOrder(old(rows), order)
                && var p := Payout(wallets, order, EachIO(order, io), minPayout);
                && rows == RowsAfter(old(rows), p, |order|)
                && paid == Reported(old(rows), p, |order|, true)
                && failed == Reported(old(rows), p, |order|, false)
                && totalBAT == PendingSum(old(rows), order, |order|)
    {
      order, paid, failed, totalBAT := [], [], [], 0.0;
      if !post {
        err := Some(BadMethod);
        return;
      }
      if !readable {
        err := Some(DatabaseError);
        return;
      }
      err := None;
      order := LoadPendingRewards();
      paid, failed, totalBAT := PayEach(order, EachIO(order, io));
    }
  }

  // ---------------------------------------------------------------------
  // The threshold
  // ---------------------------------------------------------------------

  ghost predicate NonNegative(rows: Rows) {
    forall id :: id in rows ==> rows[id].amount >= 0.0
  }

  lemma {:induction false} SumGrows(rows: Rows, order: seq<ID>, j: nat, k: nat)
    requires NonNegative(rows) && j <= k <= |order|
    ensures 0.0 <= PendingSum(rows, order, j) <= PendingSum(rows, order, k)
  {
    if j < k {
      SumGrows(rows, order, j, k - 1);
    } else if k > 0 {
      SumGrows(rows, order, k - 1, k - 1);
    }
  }

  /** The pending rows that pass are the pending rows from some place on. */
  ghost predicate PassingSuffix(rows: Rows, order: seq<ID>, min: real) {
    forall i, j :: 0 <= i < j < |order| && Passes(rows, order, min, i) && IsPending(rows, order[j])
                   ==> Passes(rows, order, min, j)
  }

  /** With non-negative amounts, row i passes exactly when it is pending and comes
      at or after the first place where the running sum reaches the minimum. */
  lemma ThresholdIsSuffix(rows: Rows, order: seq<ID>, min: real, first: nat)
    requires NonNegative(rows) && first < |order|
    requires PendingSum(rows, order, first + 1) >= min
    requires forall k :: 1 <= k <= first ==> PendingSum(rows, order, k) < min
    ensures PassingSuffix(rows, order, min)
    ensures forall i :: 0 <= i < |order| ==> (Passes(rows, order, min, i) <==> IsPending(rows, order[i]) && first <= i)
  {
    forall k | first + 1 <= k <= |order|
      ensures PendingSum(rows, order, k) >= min
    {
      SumGrows(rows, order, first + 1, k);
    }
  }

  /** A pending row by itself reaches the minimum: what the comment on handlePayout
      speaks of. */
  predicate ReachesAlone(rows: Rows, id: ID, min: real) {
    IsPending(rows, id) && rows[id].amount >= min
  }

  /** Main result on the two readings of the threshold. Up to `first`, where the
      running sum first reaches the minimum (or the end), they agree; altogether
      they agree exactly when every later pending row reaches the minimum alone. */
  lemma ReadingsAgreeIff(rows: Rows, order: seq<ID>, min: real, first: nat)
    requires NonNegative(rows) && min > 0.0 && first <= |order|
    requires first < |order| ==> PendingSum(rows, order, first + 1) >= min
    requires forall k :: 1 <= k <= first ==> PendingSum(rows, order, k) < min
    ensures (forall i :: 0 <= i < |order| && IsPending(rows, order[i])
                         ==> (Passes(rows, order, min, i) <==> ReachesAlone(rows, order[i], min)))
            <==> forall i :: first <= i < |order| && IsPending(rows, order[i]) ==> ReachesAlone(rows, order[i], min)
  {
    forall i | 0 <= i < |order| && IsPending(rows, order[i])
      ensures Passes(rows, order, min, i) <==> first <= i
      ensures i < first ==> !ReachesAlone(rows, order[i], min)
    {
      if first <= i {
        SumGrows(rows, order, first + 1, i + 1);
      } else {
        SumGrows(rows, order, 0, i);
        assert PendingSum(rows, order, i + 1) == PendingSum(rows, order, i) + rows[order[i]].amount;
      }
    }
  }

  /** They differ on two rewards of three BAT with a minimum of five: the second
      passes, and neither reaches the minimum alone. */
  lemma TwoSmallRewards(rows: Rows, order: seq<ID>)
    requires order == ["a", "b"]
    requires rows == map["a" := Row("u", 3.0, Pending, 0, None, ""), "b" := Row("v", 3.0, Pending, 1, None, "")]
    ensures Listing(rows, order) && NonNegative(rows)
    ensures Passes(rows, order, 5.0, 1)
    ensures !ReachesAlone(rows, "a", 5.0) && !ReachesAlone(rows, "b", 5.0)
  {
    assert PendingSum(rows, order, 0) == 0.0;
    assert PendingSum(rows, order, 1) == 3.0;
  }

  /** n times x, by adding. */
  function Times(n: nat, x: real): real {
    if n == 0 then 0.0 else Times(n - 1, x) + x
  }

  lemma Distribute(x: real, y: real)
    ensures (x + 1.0) * y == x * y + y
  {
  }

  lemma {:induction false} TimesIs(n: nat, x: real)
    ensures Times(n, x) == n as real * x
  {
    if n == 0 {
    } else {
      TimesIs(n - 1, x);
      Distribute((n - 1) as real, x);
      assert n as real == (n - 1) as real + 1.0;
    }
  }

  lemma {:induction false} SumOfEqualAmounts(rows: Rows, order: seq<ID>, j: nat, k: nat, amount: real)
    requires j <= k <= |order|
    requires forall i :: j <= i < k ==> Amount(rows, order[i]) == amount
    ensures PendingSum(rows, order, k) == PendingSum(rows, order, j) + Times(k - j, amount)
  {
    if j == k {
    } else {
      SumOfEqualAmounts(rows, order, j, k - 1, amount);
    }
  }

  /** Every amount is one of the rates. */
  ghost predicate FromRates(rows: Rows, rates: set<real>) {
    forall id :: id in rows ==> rows[id].amount in rates
  }

  /** Which rates make the passing rows a suffix in every ledger: with a positive
      minimum and some positive rate, exactly those without a negative one. */
  lemma SuffixIffNoNegativeRate(rates: set<real>, min: real, good: real)
    requires min > 0.0 && good in rates && good > 0.0
    ensures (forall rows, order :: FromRates(rows, rates) && InQueueOrder(rows, order)
                                   ==> PassingSuffix(rows, order, min))
            <==> forall r :: r in rates ==> r >= 0.0
  {
    if forall r :: r in rates ==> r >= 0.0 {
      forall rows, order | FromRates(rows, rates) && InQueueOrder(rows, order)
        ensures PassingSuffix(rows, order, min)
      {
        forall i, j | 0 <= i < j < |order| && Passes(rows, order, min, i) && IsPending(rows, order[j])
          ensures Passes(rows, order, min, j)
        {
          SumGrows(rows, order, i + 1, j + 1);
        }
      }
    } else {
      var bad :| bad in rates && bad < 0.0;
      var rows, order := DippingLedger(rates, min, good, bad);
    }
  }

  lemma MultiplesReach(step: real, target: real) returns (n: nat)
    requires step > 0.0
    ensures n > 0 && Times(n, step) > target
  {
    var q := target / step;
    n := if q < 0.0 then 1 else q.Floor + 1;
    assert n as real > q;
    assert q * step == target;
    assert (n as real - q) * step > 0.0;
    TimesIs(n, step);
  }

  /** a good rows, then b bad ones. */
  function Dipping(a: nat, b: nat, good: real, bad: real): Rows {
    map i | 0 <= i < a + b :: Repeat(i) := Row("", if i < a then good else bad, Pending, i, None, "")
  }

  function Order(n: nat): seq<ID> {
    seq(n, i requires 0 <= i < n => Repeat(i))
  }

  lemma DippingListing(a: nat, b: nat, good: real, bad: real)
    ensures InQueueOrder(Dipping(a, b, good, bad), Order(a + b))
  {
    var rows, order := Dipping(a, b, good, bad), Order(a + b);
    forall i, j | 0 <= i < j < |order|
      ensures order[i] != order[j]
    {
      assert |order[i]| != |order[j]|;
    }
    forall id | id in rows
      ensures id in order
    {
      assert order[|id|] == id;
    }
  }

  lemma DippingAt(a: nat, b: nat, good: real, bad: real, i: nat)
    requires i < a + b
    ensures IsPending(Dipping(a, b, good, bad), Order(a + b)[i])
    ensures Amount(Dipping(a, b, good, bad), Order(a + b)[i]) == if i < a then good else bad
  {
  }

  lemma DippingAmounts(a: nat, b: nat, good: real, bad: real, rows: Rows, order: seq<ID>)
    requires rows == Dipping(a, b, good, bad) && order == Order(a + b)
    ensures |order| == a + b && forall i :: 0 <= i < a + b ==> Amount(rows, order[i]) == if i < a then good else bad
  {
    forall i: nat | i < a + b
      ensures Amount(rows, order[i]) == if i < a then good else bad
    {
      DippingAt(a, b, good, bad, i);
    }
  }

  lemma TwoBlocks(rows: Rows, order: seq<ID>, a: nat, n: nat, good: real, bad: real)
    requires a <= n <= |order|
    requires forall i :: 0 <= i < n ==> Amount(rows, order[i]) == if i < a then good else bad
    ensures PendingSum(rows, order, a) == Times(a, good)
    ensures PendingSum(rows, order, n) == Times(a, good) + Times(n - a, bad)
  {
    assert PendingSum(rows, order, 0) == 0.0;
    SumOfEqualAmounts(rows, order, 0, a, good);
    SumOfEqualAmounts(rows, order, a, n, bad);
  }

  lemma DippingRates(a: nat, b: nat, good: real, bad: real, rates: set<real>)
    requires good in rates && bad in rates
    ensures FromRates(Dipping(a, b, good, bad), rates)
  {
  }

  lemma DipsBelow(a: nat, b: nat, good: real, bad: real, min: real)
    requires a > 0 && b > 0
    requires Times(a, good) > min && Times(a, good) + Times(b, bad) < min
    ensures !PassingSuffix(Dipping(a, b, good, bad), Order(a + b), min)
  {
    var rows, order := Dipping(a, b, good, bad), Order(a + b);
    DippingAmounts(a, b, good, bad, rows, order);
    TwoBlocks(rows, order, a, a + b, good, bad);
    DippingAt(a, b, good, bad, a - 1);
    DippingAt(a, b, good, bad, a + b - 1);
    assert Passes(rows, order, min, a - 1);
    assert !Passes(rows, order, min, a + b - 1);
  }

  /** Enough good rows to pass, then enough bad ones to fall below again. */
  lemma DippingLedger(rates: set<real>, min: real, good: real, bad: real) returns (rows: Rows, order: seq<ID>)
    requires min > 0.0 && good in rates && good > 0.0 && bad in rates && bad < 0.0
    ensures FromRates(rows, rates) && InQueueOrder(rows, order) && !PassingSuffix(rows, order, min)
  {
    var a := MultiplesReach(good, min);
    var b := MultiplesReach(-bad, Times(a, good) - min);
    TimesOfMinus(b, bad);
    DippingListing(a, b, good, bad);
    DippingRates(a, b, good, bad, rates);
    DipsBelow(a, b, good, bad, min);
    rows, order := Dipping(a, b, good, bad), Order(a + b);
  }

  lemma {:induction false} TimesOfMinus(n: nat, x: real)
    ensures Times(n, -x) == -Times(n, x)
  {
    if n == 0 {
    } else {
      TimesOfMinus(n - 1, x);
    }
  }

  /** A string of a given length. */
  function Repeat(n: nat): (s: string)
    ensures |s| == n
  {
    seq(n, _ => 'x')
  }
}
