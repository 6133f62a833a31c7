/** Repeated payouts and whole runs of the reward ledger (rewards/service.go). */
module RewardRuns {
  import opened Words
  import opened Wrappers
  import opened Decimal
  import opened RewardLedger

  // ---------------------------------------------------------------------
  // One payout, seen from one row
  // ---------------------------------------------------------------------

  ghost predicate Fitting(rows: Rows, p: Payout) {
    Listing(rows, p.order) && |p.ios| == |p.order|
  }

  /** Row i after the first k rows of the listing. */
  lemma {:induction false} RowAfter(rows: Rows, p: Payout, k: nat, i: nat)
    requires Fitting(rows, p) && k <= |p.order| && i < |p.order|
    ensures RowsAfter(rows, p, k).Keys == rows.Keys
    ensures RowsAfter(rows, p, k)[p.order[i]]
            == if i < k && Submits(rows, p, i) && !p.ios[i].updateLost
               then Settled(rows[p.order[i]], p.ios[i])
               else rows[p.order[i]]
  {
    if k == 0 {
    } else {
      RowAfter(rows, p, k - 1, i);
    }
  }

  lemma KeysKept(rows: Rows, p: Payout)
    requires Fitting(rows, p)
    ensures RowsAfter(rows, p, |p.order|).Keys == rows.Keys
    ensures Listing(RowsAfter(rows, p, |p.order|), p.order)
  {
    if |p.order| > 0 {
      RowAfter(rows, p, |p.order|, 0);
    }
  }

  lemma {:induction false} ReportedAt(rows: Rows, p: Payout, k: nat, success: bool, id: ID)
    requires Fitting(rows, p) && k <= |p.order|
    ensures id in Reported(rows, p, k, success)
            <==> exists i :: 0 <= i < k && p.order[i] == id && Submits(rows, p, i) && p.ios[i].tx.Some? == success
  {
    if k == 0 {
    } else {
      ReportedAt(rows, p, k - 1, success, id);
    }
  }

  /** Who is attempted: the answer of the payout lists exactly the pending rows
      that pass the threshold, have a wallet, and met no look-up error. */
  lemma AttemptedExactly(rows: Rows, p: Payout, i: nat)
    requires Fitting(rows, p) && i < |p.order|
    ensures var n, id := |p.order|, p.order[i];
            id in Reported(rows, p, n, true) || id in Reported(rows, p, n, false)
            <==> && Passes(rows, p.order, p.min, i)
                 && rows[id].username in p.wallets
                 && !p.ios[i].lookupFails
  {
    ReportedAt(rows, p, |p.order|, true, p.order[i]);
    ReportedAt(rows, p, |p.order|, false, p.order[i]);
    if Submits(rows, p, i) {
      assert p.ios[i].tx.Some? == true || p.ios[i].tx.Some? == false;
    }
  }

  /** What a stored update leaves in the row of a submission. */
  lemma StoredRow(rows: Rows, p: Payout, i: nat)
    requires Fitting(rows, p) && i < |p.order| && Submits(rows, p, i) && !p.ios[i].updateLost
    ensures RowsAfter(rows, p, |p.order|).Keys == rows.Keys
    ensures var before, after := rows[p.order[i]], RowsAfter(rows, p, |p.order|)[p.order[i]];
            && (after.status == Paid <==> p.ios[i].tx.Some?)
            && (after.status == Failed <==> p.ios[i].tx.None?)
            && after.paidAt == Some(p.ios[i].now)
            && after.txHash == (if p.ios[i].tx.Some? then p.ios[i].tx.value else before.txHash)
            && after.username == before.username && after.amount == before.amount && after.queuedAt == before.queuedAt
  {
    RowAfter(rows, p, |p.order|, i);
  }

  /** All other rows stay as they were. */
  lemma OtherRows(rows: Rows, p: Payout, i: nat)
    requires Fitting(rows, p) && i < |p.order| && (!Submits(rows, p, i) || p.ios[i].updateLost)
    ensures RowsAfter(rows, p, |p.order|).Keys == rows.Keys
    ensures RowsAfter(rows, p, |p.order|)[p.order[i]] == rows[p.order[i]]
  {
    RowAfter(rows, p, |p.order|, i);
  }

  /** Main result on the answer: whoever is reported as paid is paid in the table,
      whoever is reported as failed has failed, unless the update was lost, in
      which case the row is still pending. */
  lemma AnswerMatchesTable(rows: Rows, p: Payout, i: nat)
    requires Fitting(rows, p) && i < |p.order|
    ensures RowsAfter(rows, p, |p.order|).Keys == rows.Keys
    ensures var n, id := |p.order|, p.order[i];
            var status := RowsAfter(rows, p, n)[id].status;
            && (id in Reported(rows, p, n, true) ==> status == if p.ios[i].updateLost then Pending else Paid)
            && (id in Reported(rows, p, n, false) ==> status == if p.ios[i].updateLost then Pending else Failed)
            && !(id in Reported(rows, p, n, true) && id in Reported(rows, p, n, false))
  {
    ReportedAt(rows, p, |p.order|, true, p.order[i]);
    ReportedAt(rows, p, |p.order|, false, p.order[i]);
    if Submits(rows, p, i) && !p.ios[i].updateLost {
      StoredRow(rows, p, i);
    } else {
      OtherRows(rows, p, i);
    }
  }

  // ---------------------------------------------------------------------
  // The total does not depend on the order
  // ---------------------------------------------------------------------

  ghost function SumOver(rows: Rows, ids: set<ID>): real {
    if ids == {} then 0.0
    else
      var id :| id in ids;
      Amount(rows, id) + SumOver(rows, ids - {id})
  }

  lemma {:induction false} SumOverSplit(rows: Rows, ids: set<ID>, id: ID)
    requires id in ids
    ensures SumOver(rows, ids) == Amount(rows, id) + SumOver(rows, ids - {id})
  {
    var first :| first in ids && SumOver(rows, ids) == Amount(rows, first) + SumOver(rows, ids - {first});
    if first == id {
    } else {
      SumOverSplit(rows, ids - {first}, id);
      SumOverSplit(rows, ids - {id}, first);
      assert ids - {first} - {id} == ids - {id} - {first};
    }
  }

  ghost function PendingTotal(rows: Rows): real {
    SumOver(rows, rows.Keys)
  }

  lemma {:induction false} PrefixSum(rows: Rows, order: seq<ID>, k: nat)
    requires k <= |order|
    requires forall i, j :: 0 <= i < j < |order| ==> order[i] != order[j]
    ensures PendingSum(rows, order, k) == SumOver(rows, set i | 0 <= i < k :: order[i])
  {
    var ids := set i | 0 <= i < k :: order[i];
    if k == 0 {
    } else {
      PrefixSum(rows, order, k - 1);
      assert order[k - 1] in ids;
      SumOverSplit(rows, ids, order[k - 1]);
      assert ids - {order[k - 1]} == set i | 0 <= i < k - 1 :: order[i];
    }
  }

  lemma ListingSum(rows: Rows, order: seq<ID>)
    requires Listing(rows, order)
    ensures PendingSum(rows, order, |order|) == PendingTotal(rows)
  {
    PrefixSum(rows, order, |order|);
    var ids := set i | 0 <= i < |order| :: order[i];
    assert forall id :: id in rows ==> id in ids;
    assert ids == rows.Keys;
  }

  lemma {:induction false} ListSet(ids: set<ID>) returns (order: seq<ID>)
    ensures forall i, j :: 0 <= i < j < |order| ==> order[i] != order[j]
    ensures forall id :: id in order <==> id in ids
  {
    if ids == {} {
      order := [];
    } else {
      var id :| id in ids;
      var rest := ListSet(ids - {id});
      order := rest + [id];
      assert forall i :: 0 <= i < |rest| ==> rest[i] in rest;
    }
  }

  // ---------------------------------------------------------------------
  // A second payout
  // ---------------------------------------------------------------------

  /** No payout from these rows, in any order, submits anything. */
  ghost predicate SubmitsNothing(rows: Rows, wallets: set<string>, min: real) {
    forall p, i :: Fitting(rows, p) && p.wallets == wallets && p.min == min && 0 <= i < |p.order|
                   ==> !Submits(rows, p, i)
  }

  /** With a total that reaches the minimum, a pending row listed last passes. */
  lemma CanSubmit(rows: Rows, wallets: set<string>, min: real, id: ID) returns (p: Payout, i: nat)
    requires NonNegative(rows) && PendingTotal(rows) >= min
    requires IsPending(rows, id) && rows[id].username in wallets
    ensures Fitting(rows, p) && p.wallets == wallets && p.min == min && i < |p.order| && Submits(rows, p, i)
  {
    var rest := ListSet(rows.Keys - {id});
    var order := rest + [id];
    assert forall k :: 0 <= k < |rest| ==> rest[k] in rest;
    forall x | x in rows
      ensures x in order
    {
      assert x == id || x in rest;
    }
    p, i := Payout(wallets, order, seq(|order|, _ => RowIO(false, None, 0, false)), min), |rest|;
    ListingSum(rows, order);
  }

  /** Main result: nothing can be submitted, whatever the order, exactly when the
      pending total is below the minimum or no pending row has a wallet. */
  lemma SubmitsNothingIff(rows: Rows, wallets: set<string>, min: real)
    requires NonNegative(rows)
    ensures SubmitsNothing(rows, wallets, min)
            <==> || PendingTotal(rows) < min
                 || forall id :: IsPending(rows, id) ==> rows[id].username !in wallets
  {
    if PendingTotal(rows) < min {
      forall p, i | Fitting(rows, p) && p.wallets == wallets && p.min == min && 0 <= i < |p.order|
        ensures !Submits(rows, p, i)
      {
        ListingSum(rows, p.order);
        SumGrows(rows, p.order, i + 1, |p.order|);
      }
    } else if id :| IsPending(rows, id) && rows[id].username in wallets {
      var p, i := CanSubmit(rows, wallets, min, id);
    }
  }

  /** The listing up to and including its last pending row whose user has a wallet. */
  function UpToLastPayable(rows: Rows, order: seq<ID>, wallets: set<string>, n: nat): (k: nat)
    requires n <= |order|
    ensures k <= n
    ensures k > 0 ==> IsPending(rows, order[k - 1]) && rows[order[k - 1]].username in wallets
    ensures forall i :: k <= i < n && IsPending(rows, order[i]) ==> rows[order[i]].username !in wallets
  {
    if n == 0 || (IsPending(rows, order[n - 1]) && rows[order[n - 1]].username in wallets) then n
    else UpToLastPayable(rows, order, wallets, n - 1)
  }

  /** Main result for the order in which the query lists the rows: nothing can be
      submitted exactly when no pending row has a wallet, or the pending amounts up
      to the last one that has stay below the minimum. */
  lemma SubmitsNothingInOrderIff(rows: Rows, order: seq<ID>, wallets: set<string>, min: real)
    requires NonNegative(rows) && InQueueOrder(rows, order)
    ensures (forall ios, i :: |ios| == |order| && 0 <= i < |order|
                              ==> !Submits(rows, Payout(wallets, order, ios, min), i))
            <==> var k := UpToLastPayable(rows, order, wallets, |order|);
                 k == 0 || PendingSum(rows, order, k) < min
  {
    var k := UpToLastPayable(rows, order, wallets, |order|);
    if k == 0 || PendingSum(rows, order, k) < min {
      forall ios, i | |ios| == |order| && 0 <= i < |order|
        ensures !Submits(rows, Payout(wallets, order, ios, min), i)
      {
        if i < k {
          SumGrows(rows, order, i + 1, k);
        }
      }
    } else {
      var ios := seq(|order|, _ => RowIO(false, None, 0, false));
      assert Submits(rows, Payout(wallets, order, ios, min), k - 1);
    }
  }

  /** The payout met no look-up error and lost no status update. */
  predicate Smooth(p: Payout) {
    forall i :: 0 <= i < |p.ios| ==> !p.ios[i].lookupFails && !p.ios[i].updateLost
  }

  lemma AmountAfter(rows: Rows, p: Payout, i: nat)
    requires Fitting(rows, p) && Smooth(p) && i < |p.order|
    ensures Amount(RowsAfter(rows, p, |p.order|), p.order[i])
            == if Submits(rows, p, i) then 0.0 else Amount(rows, p.order[i])
  {
    RowAfter(rows, p, |p.order|, i);
  }

  lemma {:induction false} SumAfter(rows: Rows, p: Payout, k: nat)
    requires Fitting(rows, p) && Smooth(p) && NonNegative(rows) && k <= |p.order|
    ensures PendingSum(RowsAfter(rows, p, |p.order|), p.order, k) <= PendingSum(rows, p.order, k)
  {
    if k == 0 {
    } else {
      SumAfter(rows, p, k - 1);
      AmountAfter(rows, p, k - 1);
    }
  }

  lemma NonNegativeAfter(rows: Rows, p: Payout)
    requires Fitting(rows, p) && NonNegative(rows)
    ensures NonNegative(RowsAfter(rows, p, |p.order|))
  {
    var after := RowsAfter(rows, p, |p.order|);
    KeysKept(rows, p);
    forall id | id in after
      ensures after[id].amount >= 0.0
    {
      var i :| 0 <= i < |p.order| && p.order[i] == id;
      RowAfter(rows, p, |p.order|, i);
    }
  }

  lemma {:induction false} LeftoverPrefix(rows: Rows, p: Payout, k: nat)
    requires Fitting(rows, p) && Smooth(p) && NonNegative(rows) && k <= |p.order| && p.min > 0.0
    requires forall id :: IsPending(rows, id) ==> rows[id].username in p.wallets
    ensures PendingSum(RowsAfter(rows, p, |p.order|), p.order, k) < p.min
  {
    if k == 0 {
    } else {
      LeftoverPrefix(rows, p, k - 1);
      AmountAfter(rows, p, k - 1);
      SumAfter(rows, p, k);
    }
  }

  /** Main result: if every contributor with a pending reward has a wallet, the
      rows a payout leaves pending add up to less than the minimum, so a second
      payout with no new rewards submits nothing, in any order of the rows. */
  lemma PayoutIdempotent(rows: Rows, p: Payout, wallets: set<string>)
    requires Fitting(rows, p) && Smooth(p) && NonNegative(rows) && p.min > 0.0
    requires forall id :: IsPending(rows, id) ==> rows[id].username in p.wallets
    ensures var after := RowsAfter(rows, p, |p.order|);
            PendingTotal(after) < p.min && SubmitsNothing(after, wallets, p.min)
  {
    var after := RowsAfter(rows, p, |p.order|);
    KeysKept(rows, p);
    LeftoverPrefix(rows, p, |p.order|);
    ListingSum(after, p.order);
    NonNegativeAfter(rows, p);
    SubmitsNothingIff(after, wallets, p.min);
  }

  /** Without that assumption a repeat in the same order still submits nothing. */
  lemma SameOrderRepeats(rows: Rows, p: Payout, q: Payout, i: nat)
    requires Fitting(rows, p) && Smooth(p) && NonNegative(rows)
    requires q.order == p.order && q.wallets == p.wallets && q.min == p.min
    requires |q.ios| == |p.order| && i < |p.order|
    ensures !Submits(RowsAfter(rows, p, |p.order|), q, i)
  {
    RowAfter(rows, p, |p.order|, i);
    SumAfter(rows, p, i + 1);
  }

  // ---------------------------------------------------------------------
  // Whole runs: a conservation law for every reward ID
  // ---------------------------------------------------------------------

  /** The rows and what has happened so far, counted per reward ID: rewards
      queued, submissions, status updates lost, pending rows replaced by QueueReward. */
  datatype Ledger = Ledger(
    rows: Rows,
    queued: multiset<ID>,
    submitted: multiset<ID>,
    lost: multiset<ID>,
    replaced: multiset<ID>)

  const EMPTY := Ledger(map[], multiset{}, multiset{}, multiset{}, multiset{})

  datatype Step = Queue(id: ID, row: Row) | Pay(p: Payout)

  /** The IDs submitted among the first k, and those of them whose update is lost. */
  function SubmittedIDs(rows: Rows, p: Payout, k: nat, onlyLost: bool): multiset<ID>
    requires k <= |p.order| == |p.ios|
  {
    if k == 0 then multiset{}
    else
      SubmittedIDs(rows, p, k - 1, onlyLost)
      + if Submits(rows, p, k - 1) && (onlyLost ==> p.ios[k - 1].updateLost)
        then multiset{p.order[k - 1]}
        else multiset{}
  }

  ghost predicate Possible(l: Ledger, s: Step) {
    match s
    case Queue(_, row) => row.status == Pending
    case Pay(p) => Fitting(l.rows, p)
  }

  ghost function Next(l: Ledger, s: Step): Ledger
    requires Possible(l, s)
  {
    match s
    case Queue(id, row) =>
      Ledger(l.rows[id := row], l.queued + multiset{id}, l.submitted, l.lost,
             l.replaced + if IsPending(l.rows, id) then multiset{id} else multiset{})
    case Pay(p) =>
      Ledger(RowsAfter(l.rows, p, |p.order|), l.queued,
             l.submitted + SubmittedIDs(l.rows, p, |p.order|, false),
             l.lost + SubmittedIDs(l.rows, p, |p.order|, true),
             l.replaced)
  }

  ghost predicate CanRun(l: Ledger, steps: seq<Step>)
    decreases |steps|
  {
    steps == [] || (Possible(l, steps[0]) && CanRun(Next(l, steps[0]), steps[1..]))
  }

  ghost function Run(l: Ledger, steps: seq<Step>): Ledger
    requires CanRun(l, steps)
    decreases |steps|
  {
    if steps == [] then l else Run(Next(l, steps[0]), steps[1..])
  }

  ghost predicate Balanced(l: Ledger) {
    forall id: ID ::
      l.queued[id] + l.lost[id] == l.submitted[id] + l.replaced[id] + One(IsPending(l.rows, id))
  }

  /** An ID that is not among the first k rows is not submitted there. */
  lemma {:induction false} NotListed(rows: Rows, p: Payout, k: nat, onlyLost: bool, id: ID)
    requires k <= |p.order| == |p.ios|
    requires forall i :: 0 <= i < k ==> p.order[i] != id
    ensures SubmittedIDs(rows, p, k, onlyLost)[id] == 0
  {
    if k == 0 {
    } else {
      NotListed(rows, p, k - 1, onlyLost, id);
    }
  }

  lemma SubmittedStep(rows: Rows, p: Payout, k: nat, onlyLost: bool, id: ID)
    requires 0 < k <= |p.order| == |p.ios|
    ensures SubmittedIDs(rows, p, k, onlyLost)[id]
            == SubmittedIDs(rows, p, k - 1, onlyLost)[id]
               + One(p.order[k - 1] == id && Submits(rows, p, k - 1) && (onlyLost ==> p.ios[k - 1].updateLost))
  {
  }

  /** An ID that stands at most at i, before k, is counted there or nowhere. */
  lemma {:induction false} SubmittedAt(rows: Rows, p: Payout, k: nat, onlyLost: bool, i: nat, id: ID)
    requires i < k <= |p.order| == |p.ios| && p.order[i] == id
    requires forall j :: 0 <= j < k && j != i ==> p.order[j] != id
    ensures SubmittedIDs(rows, p, k, onlyLost)[id] == One(Submits(rows, p, i) && (onlyLost ==> p.ios[i].updateLost))
  {
    SubmittedStep(rows, p, k, onlyLost, id);
    if i == k - 1 {
      NotListed(rows, p, k - 1, onlyLost, id);
    } else {
      SubmittedAt(rows, p, k - 1, onlyLost, i, id);
    }
  }

  /** Row i is submitted once or not at all. */
  lemma SubmittedOnce(rows: Rows, p: Payout, k: nat, onlyLost: bool, i: nat)
    requires Fitting(rows, p) && i < k <= |p.order|
    ensures SubmittedIDs(rows, p, k, onlyLost)[p.order[i]]
            == One(Submits(rows, p, i) && (onlyLost ==> p.ios[i].updateLost))
  {
    SubmittedAt(rows, p, k, onlyLost, i, p.order[i]);
  }

  lemma PayBalances(l: Ledger, p: Payout, id: ID)
    requires Balanced(l) && Fitting(l.rows, p)
    ensures var n := Next(l, Pay(p));
            n.queued[id] + n.lost[id] == n.submitted[id] + n.replaced[id] + One(IsPending(n.rows, id))
  {
    KeysKept(l.rows, p);
    if id in l.rows {
      var i :| 0 <= i < |p.order| && p.order[i] == id;
      RowAfter(l.rows, p, |p.order|, i);
      SubmittedOnce(l.rows, p, |p.order|, true, i);
      SubmittedOnce(l.rows, p, |p.order|, false, i);
    } else {
      NotListed(l.rows, p, |p.order|, true, id);
      NotListed(l.rows, p, |p.order|, false, id);
    }
  }

  /** Main result: after every run, each time an ID was queued is accounted for: it
      was submitted (and its update stored), or replaced while pending, or it is
      still pending. */
  lemma {:induction false} Conservation(l: Ledger, steps: seq<Step>)
    requires Balanced(l) && CanRun(l, steps)
    ensures Balanced(Run(l, steps))
    decreases |steps|
  {
    if steps == [] {
    } else {
      var n := Next(l, steps[0]);
      forall id: ID
        ensures n.queued[id] + n.lost[id] == n.submitted[id] + n.replaced[id] + One(IsPending(n.rows, id))
      {
        if steps[0].Pay? {
          PayBalances(l, steps[0].p, id);
        }
      }
      Conservation(n, steps[1..]);
    }
  }

  /** Without lost updates there are no more submissions than rewards queued. In
      general the excess is what the lost updates are more than the replaced and
      still pending rows; PaidAgainIffLost says which branch causes it. */
  lemma SubmissionBound(steps: seq<Step>, id: ID)
    requires CanRun(EMPTY, steps)
    ensures var l := Run(EMPTY, steps);
            && (l.submitted[id] <= l.queued[id] <==> l.lost[id] <= l.replaced[id] + One(IsPending(l.rows, id)))
            && (l.lost[id] == 0 ==> l.submitted[id] <= l.queued[id])
  {
    Conservation(EMPTY, steps);
  }

  /** A paid or failed row changes only by being queued again. */
  lemma SettledRowStays(l: Ledger, s: Step, id: ID)
    requires Possible(l, s) && id in l.rows && !IsPending(l.rows, id)
    requires !(s.Queue? && s.id == id)
    ensures id in Next(l, s).rows && Next(l, s).rows[id] == l.rows[id]
  {
    if s.Pay? {
      var i :| 0 <= i < |s.p.order| && s.p.order[i] == id;
      RowAfter(l.rows, s.p, |s.p.order|, i);
    }
  }

  lemma {:induction false} SettledRowStaysInRuns(l: Ledger, steps: seq<Step>, id: ID)
    requires CanRun(l, steps) && id in l.rows && !IsPending(l.rows, id)
    requires forall k :: 0 <= k < |steps| ==> !(steps[k].Queue? && steps[k].id == id)
    ensures id in Run(l, steps).rows && Run(l, steps).rows[id] == l.rows[id]
    decreases |steps|
  {
    if steps == [] {
    } else {
      SettledRowStays(l, steps[0], id);
      SettledRowStaysInRuns(Next(l, steps[0]), steps[1..], id);
    }
  }

  // ---------------------------------------------------------------------
  // Reward IDs
  // ---------------------------------------------------------------------

  /** handleGitLabWebhook builds its events without a project. */
  function WebhookEvent(kind: string, project: Int64, username: string, objectID: Int64): Event {
    Event(kind, 0, username, objectID)
  }

  ghost predicate PlainKind(kind: string) {
    '-' !in kind
  }

  lemma SplitAtDash(a: string, b: string, r: string, q: string)
    requires '-' !in a && '-' !in b && a + "-" + r == b + "-" + q
    ensures a == b && r == q
  {
    var s := a + "-" + r;
    assert s == b + "-" + q;
    assert forall i :: 0 <= i < |a| ==> s[i] == a[i];
    assert forall i :: 0 <= i < |b| ==> s[i] == b[i];
    assert s[|a|] == '-' && s[|b|] == '-';
    assert a == s[..|a|] && b == s[..|b|];
    assert r == s[|a| + 1..] && q == s[|b| + 1..];
  }

  /** A printed number, negative or not, ends before the dash that follows it. */
  lemma SplitAfterNumber(m: Int64, n: Int64, r: string, q: string)
    requires Print(m) + "-" + r == Print(n) + "-" + q
    ensures m == n && r == q
  {
    assert Print(m) + "-" + r == Print(m) + ("-" + r);
    assert Print(n) + "-" + q == Print(n) + ("-" + q);
    ScanPrint(m, "-" + r);
    ScanPrint(n, "-" + q);
    assert r == (Print(m) + "-" + r)[|Print(m)| + 1..] && q == (Print(n) + "-" + q)[|Print(n)| + 1..];
  }

  /** The format, on one event. */
  lemma RewardIDExample(username: string)
    ensures RewardID(Event("issue", 12, username, 7)) == "issue-12-7"
  {
    assert Digits(12) == "12" && Digits(7) == "7";
  }

  /** An ID stands for one kind, project and object... */
  lemma RewardIDInjective(e: Event, f: Event)
    requires PlainKind(e.kind) && PlainKind(f.kind)
    ensures RewardID(e) == RewardID(f)
            <==> e.kind == f.kind && e.projectID == f.projectID && e.objectID == f.objectID
  {
    if RewardID(e) == RewardID(f) {
      assert RewardID(e) == e.kind + "-" + (Print(e.projectID) + "-" + Print(e.objectID));
      assert RewardID(f) == f.kind + "-" + (Print(f.projectID) + "-" + Print(f.objectID));
      SplitAtDash(e.kind, f.kind,
                  Print(e.projectID) + "-" + Print(e.objectID), Print(f.projectID) + "-" + Print(f.objectID));
      SplitAfterNumber(e.projectID, f.projectID, Print(e.objectID), Print(f.objectID));
      PrintInjective(e.objectID, f.objectID);
    }
  }

  /** ...but for webhook events only the kind and the object count: equal numbers
      from two projects share a row, and the later one replaces the earlier. */
  lemma WebhookIDsIgnoreTheProject(
    kind: string, p: Int64, u: string, n: Int64, kind': string, p': Int64, u': string, n': Int64)
    requires PlainKind(kind) && PlainKind(kind')
    ensures RewardID(WebhookEvent(kind, p, u, n)) == RewardID(WebhookEvent(kind', p', u', n'))
            <==> kind == kind' && n == n'
  {
    RewardIDInjective(WebhookEvent(kind, p, u, n), WebhookEvent(kind', p', u', n'));
  }
}
