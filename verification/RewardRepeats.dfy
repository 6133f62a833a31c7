/** When a reward is paid twice (rewards/service.go): handlePayout ignores the
    error of its status updates. */
module RewardRepeats {
  import opened Wrappers
  import opened RewardLedger
  import opened RewardRuns

  /** The guard: a submitted row is still pending after the payout exactly when
      its status update was lost. */
  lemma StillPendingIffLost(rows: Rows, p: Payout, i: nat)
    requires Fitting(rows, p) && i < |p.order| && Submits(rows, p, i)
    ensures IsPending(RowsAfter(rows, p, |p.order|), p.order[i]) <==> p.ios[i].updateLost
  {
    RowAfter(rows, p, |p.order|, i);
  }

  // ---------------------------------------------------------------------
  // The runs that the code can make
  // ---------------------------------------------------------------------

  /** The IDs listed ahead of place i. */
  function AheadOf(order: seq<ID>, i: nat): set<ID>
    requires i <= |order|
  {
    set j | 0 <= j < i :: order[j]
  }

  /** The query lists by queue time, and rows of the same second as `id` stand
      ahead of it only if they are among `ahead`: ties are broken as before. */
  ghost predicate ListsAsBefore(rows: Rows, order: seq<ID>, id: ID, ahead: set<ID>) {
    && InQueueOrder(rows, order)
    && forall j, k :: 0 <= j < k < |order| && order[k] == id && rows[order[j]].queuedAt == rows[id].queuedAt
                      ==> order[j] in ahead
  }

  /** The ID is not queued again, whatever else is queued comes later than its row,
      and payouts have the same minimum and list as before. */
  ghost predicate Allowed(l: Ledger, s: Step, id: ID, ahead: set<ID>, min: real) {
    && Possible(l, s)
    && match s
       case Queue(x, row) => x != id && (id in l.rows ==> row.queuedAt > l.rows[id].queuedAt)
       case Pay(p) => p.min == min && ListsAsBefore(l.rows, p.order, id, ahead)
  }

  ghost predicate AllowedRun(l: Ledger, steps: seq<Step>, id: ID, ahead: set<ID>, min: real)
    decreases |steps|
  {
    steps == []
    || (Allowed(l, steps[0], id, ahead, min) && AllowedRun(Next(l, steps[0]), steps[1..], id, ahead, min))
  }

  /** Some such run submits the ID once more. */
  ghost predicate CanPayAgain(l: Ledger, id: ID, ahead: set<ID>, min: real) {
    exists steps :: AllowedRun(l, steps, id, ahead, min) && CanRun(l, steps)
                    && Run(l, steps).submitted[id] > l.submitted[id]
  }

  // ---------------------------------------------------------------------
  // Sums over sets of rows
  // ---------------------------------------------------------------------

  lemma {:induction false} SmallerAmounts(rows: Rows, after: Rows, ids: set<ID>)
    requires forall x :: x in ids ==> Amount(after, x) <= Amount(rows, x)
    ensures SumOver(after, ids) <= SumOver(rows, ids)
  {
    if ids == {} {
    } else {
      var x :| x in ids;
      SmallerAmounts(rows, after, ids - {x});
      SumOverSplit(rows, ids, x);
      SumOverSplit(after, ids, x);
    }
  }

  lemma {:induction false} FewerRows(rows: Rows, fewer: set<ID>, ids: set<ID>)
    requires fewer <= ids && forall x :: x in ids ==> Amount(rows, x) >= 0.0
    ensures SumOver(rows, fewer) <= SumOver(rows, ids)
    decreases ids - fewer
  {
    if ids <= fewer {
      assert ids == fewer;
    } else {
      var x :| x in ids && x !in fewer;
      FewerRows(rows, fewer + {x}, ids);
      SumOverSplit(rows, fewer + {x}, x);
      assert fewer + {x} - {x} == fewer;
    }
  }

  // ---------------------------------------------------------------------
  // Rows ahead of the row stay too few
  // ---------------------------------------------------------------------

  /** The rows that can still be listed no later than id. */
  function Early(rows: Rows, id: ID, ahead: set<ID>): set<ID>
    requires id in rows
  {
    set x | x in rows && (x == id || (x in ahead && rows[x].queuedAt <= rows[id].queuedAt))
  }

  /** Their pending amounts, which are not negative, stay below the minimum, and
      all rows queued before id are among them. */
  ghost predicate TooFew(rows: Rows, id: ID, ahead: set<ID>, min: real) {
    && id in rows
    && (forall x :: x in rows && rows[x].queuedAt < rows[id].queuedAt ==> x in ahead)
    && (forall x :: x in Early(rows, id, ahead) ==> rows[x].amount >= 0.0)
    && SumOver(rows, Early(rows, id, ahead)) < min
  }

  lemma ListedIsEarly(rows: Rows, order: seq<ID>, k: nat, ahead: set<ID>, min: real)
    requires k < |order| && TooFew(rows, order[k], ahead, min) && ListsAsBefore(rows, order, order[k], ahead)
    ensures AheadOf(order, k + 1) <= Early(rows, order[k], ahead)
  {
    forall j | 0 <= j < k + 1
      ensures order[j] in Early(rows, order[k], ahead)
    {
      assert rows[order[j]].queuedAt <= rows[order[k]].queuedAt;
    }
  }

  lemma TooFewBelow(rows: Rows, order: seq<ID>, k: nat, ahead: set<ID>, min: real)
    requires k < |order| && TooFew(rows, order[k], ahead, min) && ListsAsBefore(rows, order, order[k], ahead)
    ensures PendingSum(rows, order, k + 1) < min
  {
    ListedIsEarly(rows, order, k, ahead, min);
    PrefixSum(rows, order, k + 1);
    FewerRows(rows, AheadOf(order, k + 1), Early(rows, order[k], ahead));
  }

  lemma TooFewNotSubmitted(l: Ledger, p: Payout, id: ID, ahead: set<ID>)
    requires TooFew(l.rows, id, ahead, p.min) && Fitting(l.rows, p) && ListsAsBefore(l.rows, p.order, id, ahead)
    ensures SubmittedIDs(l.rows, p, |p.order|, false)[id] == 0
  {
    var k :| 0 <= k < |p.order| && p.order[k] == id;
    TooFewBelow(l.rows, p.order, k, ahead, p.min);
    SubmittedOnce(l.rows, p, |p.order|, false, k);
  }

  lemma QueueKeepsTooFew(rows: Rows, id: ID, ahead: set<ID>, min: real, x: ID, row: Row)
    requires TooFew(rows, id, ahead, min) && x != id && row.queuedAt > rows[id].queuedAt
    ensures TooFew(rows[x := row], id, ahead, min)
  {
    var after := rows[x := row];
    assert Early(after, id, ahead) == Early(rows, id, ahead) - {x};
    SmallerAmounts(rows, after, Early(after, id, ahead));
    FewerRows(rows, Early(after, id, ahead), Early(rows, id, ahead));
  }

  /** A payout moves no row and raises no pending amount. */
  lemma PayKeepsPlaces(rows: Rows, p: Payout, x: ID)
    requires Fitting(rows, p) && x in rows
    ensures var after := RowsAfter(rows, p, |p.order|);
            && x in after && after[x].queuedAt == rows[x].queuedAt && after[x].amount == rows[x].amount
            && (Amount(after, x) == Amount(rows, x) || Amount(after, x) == 0.0)
  {
    var i :| 0 <= i < |p.order| && p.order[i] == x;
    RowAfter(rows, p, |p.order|, i);
  }

  lemma PayKeepsTooFew(rows: Rows, p: Payout, id: ID, ahead: set<ID>, min: real)
    requires TooFew(rows, id, ahead, min) && Fitting(rows, p)
    ensures TooFew(RowsAfter(rows, p, |p.order|), id, ahead, min)
  {
    var after := RowsAfter(rows, p, |p.order|);
    KeysKept(rows, p);
    forall x | x in rows
      ensures x in after && after[x].queuedAt == rows[x].queuedAt && after[x].amount == rows[x].amount
      ensures Amount(after, x) == Amount(rows, x) || Amount(after, x) == 0.0
    {
      PayKeepsPlaces(rows, p, x);
    }
    assert Early(after, id, ahead) == Early(rows, id, ahead);
    SmallerAmounts(rows, after, Early(rows, id, ahead));
  }

  lemma {:induction false} TooFewNeverSubmitted(l: Ledger, steps: seq<Step>, id: ID, ahead: set<ID>, min: real)
    requires TooFew(l.rows, id, ahead, min) && AllowedRun(l, steps, id, ahead, min)
    ensures CanRun(l, steps) && Run(l, steps).submitted[id] == l.submitted[id]
    decreases |steps|
  {
    if steps == [] {
    } else {
      match steps[0] {
        case Queue(x, row) => QueueKeepsTooFew(l.rows, id, ahead, min, x, row);
        case Pay(p) =>
          TooFewNotSubmitted(l, p, id, ahead);
          PayKeepsTooFew(l.rows, p, id, ahead, min);
      }
      TooFewNeverSubmitted(Next(l, steps[0]), steps[1..], id, ahead, min);
    }
  }

  // ---------------------------------------------------------------------
  // A settled row is not submitted either
  // ---------------------------------------------------------------------

  lemma SettledNotSubmitted(l: Ledger, p: Payout, id: ID)
    requires Fitting(l.rows, p) && id in l.rows && !IsPending(l.rows, id)
    ensures SubmittedIDs(l.rows, p, |p.order|, false)[id] == 0
  {
    var i :| 0 <= i < |p.order| && p.order[i] == id;
    SubmittedOnce(l.rows, p, |p.order|, false, i);
  }

  lemma {:induction false} SettledNeverSubmitted(l: Ledger, steps: seq<Step>, id: ID, ahead: set<ID>, min: real)
    requires AllowedRun(l, steps, id, ahead, min) && id in l.rows && !IsPending(l.rows, id)
    ensures CanRun(l, steps) && Run(l, steps).submitted[id] == l.submitted[id]
    decreases |steps|
  {
    if steps == [] {
    } else {
      SettledRowStays(l, steps[0], id);
      if steps[0].Pay? {
        SettledNotSubmitted(l, steps[0].p, id);
      }
      SettledNeverSubmitted(Next(l, steps[0]), steps[1..], id, ahead, min);
    }
  }

  // ---------------------------------------------------------------------
  // The exact condition
  // ---------------------------------------------------------------------

  lemma OrderKept(rows: Rows, p: Payout)
    requires Fitting(rows, p) && InQueueOrder(rows, p.order)
    ensures InQueueOrder(RowsAfter(rows, p, |p.order|), p.order)
  {
    var after := RowsAfter(rows, p, |p.order|);
    KeysKept(rows, p);
    forall i | 0 <= i < |p.order|
      ensures after[p.order[i]].queuedAt == rows[p.order[i]].queuedAt
    {
      PayKeepsPlaces(rows, p, p.order[i]);
    }
  }

  lemma EarlierIsAhead(rows: Rows, order: seq<ID>, i: nat, x: ID)
    requires InQueueOrder(rows, order) && i < |order|
    requires x in rows && rows[x].queuedAt < rows[order[i]].queuedAt
    ensures x in AheadOf(order, i)
  {
    var j :| 0 <= j < |order| && order[j] == x;
    assert j < i;
  }

  lemma EarlyIsListed(rows: Rows, order: seq<ID>, i: nat)
    requires InQueueOrder(rows, order) && i < |order|
    ensures Early(rows, order[i], AheadOf(order, i)) == AheadOf(order, i + 1)
  {
    assert AheadOf(order, i + 1) == AheadOf(order, i) + {order[i]};
  }

  /** Too few rows in the listing of the first payout. */
  lemma StartsTooFew(rows: Rows, order: seq<ID>, i: nat, min: real)
    requires InQueueOrder(rows, order) && NonNegative(rows) && i < |order|
    requires PendingSum(rows, order, i + 1) < min
    ensures TooFew(rows, order[i], AheadOf(order, i), min)
  {
    forall x | x in rows && rows[x].queuedAt < rows[order[i]].queuedAt
      ensures x in AheadOf(order, i)
    {
      EarlierIsAhead(rows, order, i, x);
    }
    EarlyIsListed(rows, order, i);
    PrefixSum(rows, order, i + 1);
  }

  /** The next payout, in the same order and with everything going well. */
  lemma RepeatPays(l: Ledger, p: Payout, i: nat)
    requires InQueueOrder(l.rows, p.order) && i < |p.order| && IsPending(l.rows, p.order[i])
    requires l.rows[p.order[i]].username in p.wallets && PendingSum(l.rows, p.order, i + 1) >= p.min
    ensures CanPayAgain(l, p.order[i], AheadOf(p.order, i), p.min)
  {
    var id, ahead := p.order[i], AheadOf(p.order, i);
    var q := p.(ios := seq(|p.order|, _ => RowIO(false, None, 0, false)));
    assert ListsAsBefore(l.rows, q.order, id, ahead);
    SubmittedOnce(l.rows, q, |q.order|, false, i);
    assert Submits(l.rows, q, i);
    var n := Next(l, Pay(q));
    assert [Pay(q)][1..] == [] && CanRun(n, []) && Run(n, []) == n;
    assert AllowedRun(n, [], id, ahead, p.min);
    assert AllowedRun(l, [Pay(q)], id, ahead, p.min) && CanRun(l, [Pay(q)]) && Run(l, [Pay(q)]) == n;
  }

  /** Main result on paying twice. After a payout that submits a row, some run
      that the code can make without queueing the ID again submits it once more
      exactly when the status update was lost and what is still pending, listed
      no later than the row, adds up to the minimum. */
  lemma PaidAgainIff(l: Ledger, p: Payout, i: nat)
    requires Fitting(l.rows, p) && InQueueOrder(l.rows, p.order) && NonNegative(l.rows)
    requires i < |p.order| && Submits(l.rows, p, i)
    ensures var n := Next(l, Pay(p));
            CanPayAgain(n, p.order[i], AheadOf(p.order, i), p.min)
            <==> p.ios[i].updateLost && PendingSum(n.rows, p.order, i + 1) >= p.min
  {
    var n, id, ahead := Next(l, Pay(p)), p.order[i], AheadOf(p.order, i);
    StillPendingIffLost(l.rows, p, i);
    KeysKept(l.rows, p);
    OrderKept(l.rows, p);
    NonNegativeAfter(l.rows, p);
    PayKeepsPlaces(l.rows, p, id);
    if !p.ios[i].updateLost {
      forall steps | AllowedRun(n, steps, id, ahead, p.min)
        ensures CanRun(n, steps) && Run(n, steps).submitted[id] == n.submitted[id]
      {
        SettledNeverSubmitted(n, steps, id, ahead, p.min);
      }
    } else if PendingSum(n.rows, p.order, i + 1) < p.min {
      StartsTooFew(n.rows, p.order, i, p.min);
      forall steps | AllowedRun(n, steps, id, ahead, p.min)
        ensures CanRun(n, steps) && Run(n, steps).submitted[id] == n.submitted[id]
      {
        TooFewNeverSubmitted(n, steps, id, ahead, p.min);
      }
    } else {
      RowAfter(l.rows, p, |p.order|, i);
      RepeatPays(n, p, i);
    }
  }

  // ---------------------------------------------------------------------
  // From the empty ledger
  // ---------------------------------------------------------------------

  /** A payout of the one row of an event, whose status update is lost. */
  function LosingPayout(id: ID, row: Row, tx: string, now: int, min: real): Payout {
    Payout({row.username}, [id], [RowIO(false, Some(tx), now, true)], min)
  }

  lemma LosingPayoutSubmits(l: Ledger, id: ID, row: Row, tx: string, now: int, min: real)
    requires l.rows == map[id := row] && row.status == Pending && row.amount >= min
    ensures var p := LosingPayout(id, row, tx, now, min);
            && Possible(l, Pay(p)) && InQueueOrder(l.rows, p.order)
            && Next(l, Pay(p)).rows == l.rows && Next(l, Pay(p)).queued == l.queued
            && Next(l, Pay(p)).submitted == l.submitted + multiset{id}
  {
    var p := LosingPayout(id, row, tx, now, min);
    assert PendingSum(l.rows, p.order, 0) == 0.0 && Amount(l.rows, p.order[0]) == row.amount;
    assert PendingSum(l.rows, p.order, 1) == row.amount;
    assert Submits(l.rows, p, 0);
    assert RowsAfter(l.rows, p, 0) == l.rows && SubmittedIDs(l.rows, p, 0, false) == multiset{};
    assert RowsAfter(l.rows, p, 1) == l.rows && SubmittedIDs(l.rows, p, 1, false) == multiset{id};
  }

  /** Any event whose reward reaches the minimum alone can be paid twice: queued
      once, two payouts, two submissions. */
  lemma LostUpdatePaysTwice(rates: Rates, e: Event, now: int, tx: string, min: real)
    requires RateFor(rates, e.kind) >= min
    ensures var id, row := RewardID(e), NewRow(rates, e, now);
            var pay := Pay(LosingPayout(id, row, tx, now, min));
            var steps := [Queue(id, row), pay, pay];
            && CanRun(EMPTY, steps)
            && Run(EMPTY, steps).queued[id] == 1 && Run(EMPTY, steps).submitted[id] == 2
  {
    var id, row := RewardID(e), NewRow(rates, e, now);
    TwiceFrom(id, row, tx, now, min);
  }

  lemma TwiceFrom(id: ID, row: Row, tx: string, now: int, min: real)
    requires row.status == Pending && row.amount >= min
    ensures var pay := Pay(LosingPayout(id, row, tx, now, min));
            var steps := [Queue(id, row), pay, pay];
            && CanRun(EMPTY, steps)
            && Run(EMPTY, steps).queued[id] == 1 && Run(EMPTY, steps).submitted[id] == 2
  {
    var queue, pay := Queue(id, row), Pay(LosingPayout(id, row, tx, now, min));
    var l1 := Next(EMPTY, queue);
    LosingPayoutSubmits(l1, id, row, tx, now, min);
    var l2 := Next(l1, pay);
    LosingPayoutSubmits(l2, id, row, tx, now, min);
    var l3 := Next(l2, pay);
    assert [pay][1..] == [] && [pay, pay][1..] == [pay] && [queue, pay, pay][1..] == [pay, pay];
    assert CanRun(l3, []) && Run(l3, []) == l3;
    assert CanRun(l2, [pay]) && Run(l2, [pay]) == l3;
    assert CanRun(l1, [pay, pay]) && Run(l1, [pay, pay]) == l3;
    assert CanRun(EMPTY, [queue, pay, pay]) && Run(EMPTY, [queue, pay, pay]) == l3;
  }
}
