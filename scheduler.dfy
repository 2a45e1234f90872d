/** The profit tick of backend/scheduler.py: one pass over the active
    investments whose next payment is due.  Each due investment pays one
    cycle of profit; on its last cycle it is closed and its principal goes
    back to the owner. */
module Scheduler {
  import opened Models
  import opened Ledger

  /** Hours from one automatic payment to the next. */
  const CycleHours := 6

  predicate IsDue(inv: Investment, now: int) {
    inv.status == InvestmentStatus.Active && inv.nextProfitAt <= now
  }

  /** The tick's query: the due investments, in natural order. */
  function Due(investments: seq<Investment>, now: int): (r: seq<Investment>)
    ensures |r| <= |investments|
  {
    if investments == [] then []
    else
      var last := investments[|investments| - 1];
      Due(investments[..|investments| - 1], now) + (if IsDue(last, now) then [last] else [])
  }

  /** The query returns exactly the due investments. */
  lemma {:induction false} DueMembers(investments: seq<Investment>, now: int)
    ensures forall x :: x in Due(investments, now) <==> x in investments && IsDue(x, now)
  {
    if investments != [] {
      var last := investments[|investments| - 1];
      assert investments == investments[..|investments| - 1] + [last];
      DueMembers(investments[..|investments| - 1], now);
    }
  }

  /** `completed_cycles + 1 >= total_cycles`: this payment closes the investment. */
  predicate IsFinal(inv: Investment) {
    inv.completedCycles + 1 >= inv.totalCycles
  }

  /** What one payment adds to the owner's balances: the cycle's profit to
      brl_balance, available_for_withdrawal and total_returns, and on the
      final cycle the principal too, taken out of total_invested.  The
      source makes two `$inc` updates of the owner on a final cycle; they
      reach the same document and add up (`IncUserTwice`). */
  function Payout(inv: Investment): (r: Increment)
    ensures r.earned == inv.profitPerCycle && r.brl == r.available
    ensures r.brl == inv.profitPerCycle - r.invested
    ensures IsFinal(inv) ==> r.invested == -inv.amount
    ensures !IsFinal(inv) ==> r.invested == 0.0 && r.brl == inv.profitPerCycle
  {
    var back := if IsFinal(inv) then inv.amount else 0.0;
    Increment(inv.profitPerCycle + back, inv.profitPerCycle + back, -back, inv.profitPerCycle)
  }

  /** The stored investment after a payment.  The new values are computed
      from `inv`, the document as the tick's query returned it. */
  function Paid(stored: Investment, inv: Investment, now: int): (r: Investment)
    ensures r.id == stored.id && r.userId == stored.userId && r.planName == stored.planName
    ensures r.amount == stored.amount && r.totalCycles == stored.totalCycles
    ensures r.profitPerCycle == stored.profitPerCycle && r.lastProfitAt == Some(now)
    ensures IsFinal(inv) ==> r.status == InvestmentStatus.Completed && r.completedCycles == inv.totalCycles
    ensures !IsFinal(inv) ==>
      && r.status == stored.status && r.completedCycles == inv.completedCycles + 1 < inv.totalCycles
      && r.nextProfitAt == now + CycleHours
  {
    if IsFinal(inv) then
      stored.(status := InvestmentStatus.Completed, completedCycles := inv.totalCycles, lastProfitAt := Some(now))
    else
      stored.(completedCycles := inv.completedCycles + 1, lastProfitAt := Some(now), nextProfitAt := now + CycleHours)
  }

  /** `update_one({"id": inv.id}, {"$set": ...})` on the investments. */
  function MarkPaid(investments: seq<Investment>, inv: Investment, now: int): (r: seq<Investment>)
    ensures |r| == |investments|
  {
    match FindInvestment(investments, inv.id)
    case None => investments
    case Some(k) => investments[k := Paid(investments[k], inv, now)]
  }

  function ProfitRecord(inv: Investment, now: int): Transaction {
    var note := if IsFinal(inv) then FinalProfit(inv.planName)
                else CycleProfit(inv.planName, inv.completedCycles + 1, inv.totalCycles);
    Transaction(Stamped(inv.userId, now), inv.userId, Profit, inv.profitPerCycle, TransactionStatus.Completed,
                None, None, Some(note), None, now, Some(now))
  }

  // The loop body touches the users, the investments and the transactions,
  // each from the queried document alone; so the loop's effect on each
  // collection is a fold of its own over the due investments.

  /** The users after paying each of `due` in turn. */
  function PayAll(users: seq<User>, due: seq<Investment>): (r: seq<User>)
    ensures |r| == |users|
  {
    if due == [] then users
    else
      var last := due[|due| - 1];
      IncUser(PayAll(users, due[..|due| - 1]), last.userId, Payout(last))
  }

  /** The investments after marking each of `due` paid in turn. */
  function MarkAll(investments: seq<Investment>, due: seq<Investment>, now: int): (r: seq<Investment>)
    ensures |r| == |investments|
  {
    if due == [] then investments
    else
      var last := due[|due| - 1];
      MarkPaid(MarkAll(investments, due[..|due| - 1], now), last, now)
  }

  /** The transactions the loop appends, one per due investment. */
  function ProfitRecords(due: seq<Investment>, now: int): (r: seq<Transaction>)
    ensures |r| == |due|
  {
    if due == [] then []
    else ProfitRecords(due[..|due| - 1], now) + [ProfitRecord(due[|due| - 1], now)]
  }

  /** distribute_profits at time `now`. */
  function Tick(db: Db, now: int): (r: Db)
    ensures |r.users| == |db.users| && |r.investments| == |db.investments|
    ensures r.plans == db.plans && r.settings == db.settings
  {
    var due := Due(db.investments, now);
    db.(users := PayAll(db.users, due), investments := MarkAll(db.investments, due, now),
        transactions := db.transactions + ProfitRecords(due, now))
  }

  // ---------------------------------------------------------------- one payment

  /** One payment credits the cycle's profit to brl_balance,
      available_for_withdrawal and total_returns of the owner; a final
      payment also moves the principal from total_invested back to
      brl_balance and available_for_withdrawal.  No other user changes. */
  lemma PaymentCredits(users: seq<User>, inv: Investment)
    requires FindUser(users, inv.userId).Some?
    ensures var i := FindUser(users, inv.userId).value;
      var r := IncUser(users, inv.userId, Payout(inv));
      var b := users[i].balances;
      var p := inv.profitPerCycle;
      var back := if IsFinal(inv) then inv.amount else 0.0;
      && (forall j :: 0 <= j < |users| && j != i ==> r[j] == users[j])
      && r[i] == users[i].(balances := b.(brl := b.brl + p + back, available := b.available + p + back,
                                          earned := b.earned + p, invested := b.invested - back))
  {
  }

  /** A final payment closes the investment and sets completed_cycles to
      total_cycles; any other one counts the cycle, keeps the status and
      schedules the next payment six hours later.  No other investment
      changes. */
  lemma PaymentAdvances(investments: seq<Investment>, inv: Investment, now: int)
    requires FindInvestment(investments, inv.id).Some?
    ensures var k := FindInvestment(investments, inv.id).value;
      var r := MarkPaid(investments, inv, now);
      && (forall j :: 0 <= j < |investments| && j != k ==> r[j] == investments[j])
      && r[k].id == inv.id && r[k].amount == investments[k].amount
      && (IsFinal(inv) ==> r[k].status == InvestmentStatus.Completed && r[k].completedCycles == inv.totalCycles)
      && (!IsFinal(inv) ==> r[k].status == investments[k].status && r[k].completedCycles == inv.completedCycles + 1 &&
                            r[k].nextProfitAt == now + CycleHours)
  {
  }

  // ---------------------------------------------------------------- users

  const NoIncrement := Increment(0.0, 0.0, 0.0, 0.0)

  /** What the investments of `due` pay to user `uid`, added up. */
  function Credited(due: seq<Investment>, uid: string): Increment {
    if due == [] then NoIncrement
    else
      var last := due[|due| - 1];
      Plus(Credited(due[..|due| - 1], uid), if last.userId == uid then Payout(last) else NoIncrement)
  }

  /** The profit the investments of `due` credit to user `uid`. */
  function ProfitTo(due: seq<Investment>, uid: string): real {
    if due == [] then 0.0
    else
      var last := due[|due| - 1];
      ProfitTo(due[..|due| - 1], uid) + (if last.userId == uid then last.profitPerCycle else 0.0)
  }

  /** The principal the investments of `due` return to user `uid`. */
  function PrincipalTo(due: seq<Investment>, uid: string): real {
    if due == [] then 0.0
    else
      var last := due[|due| - 1];
      PrincipalTo(due[..|due| - 1], uid) + (if last.userId == uid && IsFinal(last) then last.amount else 0.0)
  }

  /** The payouts to a user add the profit to brl_balance,
      available_for_withdrawal and total_returns, and move the returned
      principal from total_invested to brl_balance and
      available_for_withdrawal. */
  lemma {:induction false} CreditedParts(due: seq<Investment>, uid: string)
    ensures var p := ProfitTo(due, uid);
      var back := PrincipalTo(due, uid);
      Credited(due, uid) == Increment(p + back, p + back, -back, p)
  {
    if due != [] {
      CreditedParts(due[..|due| - 1], uid);
    }
  }

  lemma IncPlus(b: Balances, d: Increment, e: Increment)
    ensures Inc(Inc(b, d), e) == Inc(b, Plus(d, e))
  {
  }

  lemma {:induction false} PayAllPays(users: seq<User>, due: seq<Investment>, i: nat)
    requires i < |users| && FindUser(users, users[i].id) == Some(i)
    ensures var r := PayAll(users, due);
      && FindUser(r, users[i].id) == Some(i)
      && r[i] == users[i].(balances := Inc(users[i].balances, Credited(due, users[i].id)))
  {
    if due != [] {
      var uid := users[i].id;
      var front := due[..|due| - 1];
      var last := due[|due| - 1];
      PayAllPays(users, front, i);
      var prev := PayAll(users, front);
      IncUserKeepsIds(prev, last.userId, Payout(last), uid);
      if last.userId == uid {
        IncPlus(users[i].balances, Credited(front, uid), Payout(last));
      } else {
        assert PayAll(users, due)[i] == prev[i];
        IncPlus(users[i].balances, Credited(front, uid), NoIncrement);
      }
    }
  }

  /** A tick adds to each user's balances the payouts of that user's due
      investments (`CreditedParts` splits them into profit and principal).
      Nothing else in the user's document changes. */
  lemma TickCredits(db: Db, now: int, i: nat)
    requires i < |db.users| && FindUser(db.users, db.users[i].id) == Some(i)
    ensures Tick(db, now).users[i] ==
            db.users[i].(balances := Inc(db.users[i].balances, Credited(Due(db.investments, now), db.users[i].id)))
  {
    PayAllPays(db.users, Due(db.investments, now), i);
  }

  lemma {:induction false} NothingDueNothingCredited(due: seq<Investment>, uid: string)
    requires forall j :: 0 <= j < |due| ==> due[j].userId != uid
    ensures ProfitTo(due, uid) == 0.0 && PrincipalTo(due, uid) == 0.0
  {
    if due != [] {
      NothingDueNothingCredited(due[..|due| - 1], uid);
    }
  }

  lemma {:induction false} CreditedNone(due: seq<Investment>, uid: string)
    requires forall j :: 0 <= j < |due| ==> due[j].userId != uid
    ensures Credited(due, uid) == NoIncrement
  {
    if due != [] {
      CreditedNone(due[..|due| - 1], uid);
    }
  }

  /** A user none of whose investments is due keeps every balance. */
  lemma TickSparesIdleUsers(db: Db, now: int, i: nat)
    requires i < |db.users| && FindUser(db.users, db.users[i].id) == Some(i)
    requires forall x :: x in db.investments && IsDue(x, now) ==> x.userId != db.users[i].id
    ensures Tick(db, now).users[i] == db.users[i]
  {
    var due := Due(db.investments, now);
    DueMembers(db.investments, now);
    assert forall j :: 0 <= j < |due| ==> due[j] in due;
    CreditedNone(due, db.users[i].id);
    TickCredits(db, now, i);
    assert Inc(db.users[i].balances, NoIncrement) == db.users[i].balances;
  }

  // ---------------------------------------------------------------- transactions

  lemma {:induction false} ProfitRecordsAt(due: seq<Investment>, now: int, j: nat)
    requires j < |due|
    ensures ProfitRecords(due, now)[j] == ProfitRecord(due[j], now)
  {
    if j < |due| - 1 {
      ProfitRecordsAt(due[..|due| - 1], now, j);
    }
  }

  /** A tick appends exactly one completed profit transaction per due
      investment, in the order of the query, for its owner and its profit
      per cycle, and keeps the earlier transactions. */
  /** `t` is the profit transaction paid for `inv`. */
  predicate RecordsProfit(t: Transaction, inv: Investment) {
    t.kind == Profit && t.status == TransactionStatus.Completed &&
    t.amount == inv.profitPerCycle && t.userId == inv.userId
  }

  lemma TickRecords(db: Db, now: int)
    ensures |Tick(db, now).transactions| == |db.transactions| + |Due(db.investments, now)|
    ensures Tick(db, now).transactions[..|db.transactions|] == db.transactions
    ensures forall j :: 0 <= j < |Due(db.investments, now)| ==>
              RecordsProfit(Tick(db, now).transactions[|db.transactions| + j], Due(db.investments, now)[j])
  {
    var due := Due(db.investments, now);
    var r := Tick(db, now);
    assert r.transactions == db.transactions + ProfitRecords(due, now);
    assert r.transactions[..|db.transactions|] == db.transactions;
    forall j | 0 <= j < |due|
      ensures RecordsProfit(r.transactions[|db.transactions| + j], due[j])
    {
      ProfitRecordsAt(due, now, j);
      assert r.transactions[|db.transactions| + j] == ProfitRecords(due, now)[j];
    }
  }

  // ---------------------------------------------------------------- investments

  ghost predicate UniqueInvestmentIds(investments: seq<Investment>) {
    forall a, b :: 0 <= a < b < |investments| ==> investments[a].id != investments[b].id
  }

  /** Marking investments paid keeps each one's id, owner and total_cycles,
      and never makes an investment active. */
  lemma {:induction false} MarkAllKeepsIds(investments: seq<Investment>, due: seq<Investment>, now: int, m: nat)
    requires m < |investments|
    ensures MarkAll(investments, due, now)[m].id == investments[m].id
    ensures MarkAll(investments, due, now)[m].userId == investments[m].userId
    ensures MarkAll(investments, due, now)[m].totalCycles == investments[m].totalCycles
    ensures MarkAll(investments, due, now)[m].status == InvestmentStatus.Active ==>
              investments[m].status == InvestmentStatus.Active
  {
    if due != [] {
      MarkAllKeepsIds(investments, due[..|due| - 1], now, m);
    }
  }

  lemma {:induction false} MarkAllSpares(investments: seq<Investment>, due: seq<Investment>, now: int, j: nat)
    requires j < |investments|
    requires forall m :: 0 <= m < |due| ==> due[m].id != investments[j].id
    ensures MarkAll(investments, due, now)[j] == investments[j]
  {
    if due != [] {
      var front := due[..|due| - 1];
      assert forall m :: 0 <= m < |front| ==> front[m] == due[m];
      MarkAllSpares(investments, front, now, j);
    }
  }

  /** With distinct investment ids, an investment that is not due is left
      exactly as it was. */
  lemma TickSparesIdleInvestments(db: Db, now: int, j: nat)
    requires UniqueInvestmentIds(db.investments)
    requires j < |db.investments| && !IsDue(db.investments[j], now)
    ensures Tick(db, now).investments[j] == db.investments[j]
  {
    var due := Due(db.investments, now);
    DueMembers(db.investments, now);
    forall m | 0 <= m < |due|
      ensures due[m].id != db.investments[j].id
    {
      assert due[m] in due;
      var a :| 0 <= a < |db.investments| && db.investments[a] == due[m];
      assert a != j;
    }
    MarkAllSpares(db.investments, due, now, j);
  }

  ghost predicate CyclesWithinTotal(investments: seq<Investment>) {
    forall j :: 0 <= j < |investments| ==> investments[j].completedCycles <= investments[j].totalCycles
  }

  lemma MarkPaidKeepsCycles(investments: seq<Investment>, inv: Investment, now: int)
    requires CyclesWithinTotal(investments)
    requires forall j :: 0 <= j < |investments| && investments[j].id == inv.id ==>
               investments[j].totalCycles == inv.totalCycles
    ensures CyclesWithinTotal(MarkPaid(investments, inv, now))
  {
  }

  lemma {:induction false} MarkAllKeepsCycles(investments: seq<Investment>, due: seq<Investment>, now: int)
    requires CyclesWithinTotal(investments) && UniqueInvestmentIds(investments)
    requires forall x :: x in due ==> x in investments
    ensures CyclesWithinTotal(MarkAll(investments, due, now))
  {
    if due != [] {
      var front := due[..|due| - 1];
      var last := due[|due| - 1];
      assert forall x :: x in front ==> x in due;
      MarkAllKeepsCycles(investments, front, now);
      var prev := MarkAll(investments, front, now);
      assert last in due;
      var a :| 0 <= a < |investments| && investments[a] == last;
      forall j | 0 <= j < |prev| && prev[j].id == last.id
        ensures prev[j].totalCycles == last.totalCycles
      {
        MarkAllKeepsIds(investments, front, now, j);
        assert investments[j].id == investments[a].id;
      }
      MarkPaidKeepsCycles(prev, last, now);
    }
  }

  /** completed_cycles never passes total_cycles: a tick keeps that bound on
      every investment (ids being distinct). */
  lemma TickKeepsCycles(db: Db, now: int)
    requires CyclesWithinTotal(db.investments) && UniqueInvestmentIds(db.investments)
    ensures CyclesWithinTotal(Tick(db, now).investments)
  {
    DueMembers(db.investments, now);
    MarkAllKeepsCycles(db.investments, Due(db.investments, now), now);
  }

  /** A purchase from a plan with a non-negative lock and a positive
      interval starts its investment within the bound. */
  lemma CreateInvestmentKeepsCycles(db: Db, caller: string, planId: string, amount: real, now: int, newId: string)
    requires FindUser(db.users, caller).Some?
    requires CyclesWithinTotal(db.investments)
    requires forall p :: p in db.plans ==> 0 <= p.lockHours && 0 < p.profitIntervalHours
    ensures CyclesWithinTotal(CreateInvestment(db, caller, planId, amount, now, newId).db.investments)
  {
    var r := CreateInvestment(db, caller, planId, amount, now, newId);
    if r.reply.Ok? {
      var plan := db.plans[FindPlan(db.plans, planId).value];
      assert plan in db.plans;
      assert FloorDiv(plan.lockHours, plan.profitIntervalHours) >= 0;
    }
  }

  // ---------------------------------------------------------------- lifecycle

  /** The tick at each of `times`, in order. */
  function RunTicks(db: Db, times: seq<int>): (r: Db)
    ensures |r.users| == |db.users| && |r.investments| == |db.investments|
    decreases |times|
  {
    if times == [] then db else RunTicks(Tick(db, times[0]), times[1..])
  }

  /** Consecutive times at least one payment interval apart. */
  predicate Spaced(times: seq<int>) {
    forall j :: 0 <= j < |times| - 1 ==> times[j] + CycleHours <= times[j + 1]
  }

  lemma {:induction false} DueNone(investments: seq<Investment>, now: int)
    requires forall j :: 0 <= j < |investments| ==> investments[j].status != InvestmentStatus.Active
    ensures Due(investments, now) == []
  {
    if investments != [] {
      DueNone(investments[..|investments| - 1], now);
    }
  }

  /** With `x` the only active investment, a tick at which it is due pays it alone. */
  lemma TickSingle(db: Db, rest: seq<Investment>, x: Investment, now: int)
    requires db.investments == rest + [x] && IsDue(x, now)
    requires forall j :: 0 <= j < |rest| ==> rest[j].status != InvestmentStatus.Active
    ensures Tick(db, now) == db.(users := IncUser(db.users, x.userId, Payout(x)),
                                 investments := MarkPaid(db.investments, x, now),
                                 transactions := db.transactions + [ProfitRecord(x, now)])
  {
    assert (rest + [x])[..|rest|] == rest;
    DueNone(rest, now);
    var due := Due(db.investments, now);
    assert due == [x];
    assert due[..0] == [];
    assert PayAll(db.users, due) == IncUser(db.users, x.userId, Payout(x));
    assert MarkAll(db.investments, due, now) == MarkPaid(db.investments, x, now);
    assert ProfitRecords(due, now) == [ProfitRecord(x, now)];
  }

  lemma AppendedFound(rest: seq<Investment>, x: Investment)
    requires forall j :: 0 <= j < |rest| ==> rest[j].id != x.id
    ensures FindInvestment(rest + [x], x.id) == Some(|rest|)
  {
    FirstMatchAppend(rest, x, (i: Investment) => i.id == x.id);
  }

  /** The single payment of `x` at `t` when `x` is the last investment and
      no other one has its id. */
  lemma SolePayment(users: seq<User>, rest: seq<Investment>, x: Investment, i: nat, t: int)
    requires forall j :: 0 <= j < |rest| ==> rest[j].id != x.id
    requires FindUser(users, x.userId) == Some(i)
    ensures var paid := IncUser(users, x.userId, Payout(x));
      && MarkPaid(rest + [x], x, t) == rest + [Paid(x, x, t)]
      && FindUser(paid, x.userId) == Some(i)
      && paid[i] == users[i].(balances := Inc(users[i].balances, Payout(x)))
  {
    AppendedFound(rest, x);
    IncUserKeepsIds(users, x.userId, Payout(x), x.userId);
    assert (rest + [x])[|rest| := Paid(x, x, t)] == rest + [Paid(x, x, t)];
  }

  lemma SpacedTail(times: seq<int>)
    requires Spaced(times) && |times| >= 1
    ensures Spaced(times[1..])
  {
    forall j | 0 <= j < |times[1..]| - 1
      ensures times[1..][j] + CycleHours <= times[1..][j + 1]
    {
      assert times[1..][j] == times[j + 1] && times[1..][j + 1] == times[j + 2];
    }
  }

  /** What the remaining cycles of `x` still pay: their profit, and the
      principal returned with the last one. */
  function Remaining(x: Investment): Increment {
    var n := (x.totalCycles - x.completedCycles) as real * x.profitPerCycle;
    Increment(n + x.amount, n + x.amount, -x.amount, n)
  }

  lemma RemainingLast(x: Investment)
    requires x.totalCycles - x.completedCycles == 1
    ensures Payout(x) == Remaining(x)
  {
  }

  lemma RemainingStep(x: Investment, t: int)
    requires x.completedCycles + 1 < x.totalCycles
    ensures Plus(Payout(x), Remaining(Paid(x, x, t))) == Remaining(x)
  {
    var m := (x.totalCycles - x.completedCycles) as real;
    assert (Paid(x, x, t).totalCycles - Paid(x, x, t).completedCycles) as real == m - 1.0;
    assert x.profitPerCycle + (m - 1.0) * x.profitPerCycle == m * x.profitPerCycle;
  }

  /** An active investment, the only one, paid at consecutive due ticks
      until its cycles are used up: its owner gains `Remaining(x)` and the
      investment ends closed with all its cycles counted. */
  lemma {:induction false} RunToCompletion(db: Db, rest: seq<Investment>, x: Investment, i: nat, times: seq<int>)
    requires db.investments == rest + [x]
    requires forall j :: 0 <= j < |rest| ==> rest[j].status != InvestmentStatus.Active && rest[j].id != x.id
    requires FindUser(db.users, x.userId) == Some(i)
    requires x.status == InvestmentStatus.Active && 0 <= x.completedCycles < x.totalCycles
    requires |times| == x.totalCycles - x.completedCycles && x.nextProfitAt <= times[0] && Spaced(times)
    ensures var r := RunTicks(db, times);
      && r.users[i] == db.users[i].(balances := Inc(db.users[i].balances, Remaining(x)))
      && r.investments[|rest|].status == InvestmentStatus.Completed
      && r.investments[|rest|].completedCycles == x.totalCycles
      && |r.transactions| == |db.transactions| + |times|
    decreases |times|
  {
    var t := times[0];
    TickSingle(db, rest, x, t);
    SolePayment(db.users, rest, x, i, t);
    var next := Tick(db, t);
    assert RunTicks(db, times) == RunTicks(next, times[1..]);
    if |times| == 1 {
      RemainingLast(x);
      assert RunTicks(next, times[1..]) == next;
    } else {
      var x' := Paid(x, x, t);
      SpacedTail(times);
      RunToCompletion(next, rest, x', i, times[1..]);
      IncPlus(db.users[i].balances, Payout(x), Remaining(x'));
      RemainingStep(x, t);
    }
  }

  /** The balances `b` of a buyer once `inv` has been bought and paid out:
      total_profit more in brl_balance, available_for_withdrawal and
      total_returns, the principal more in brl_balance, and total_invested
      as it was. */
  function Matured(b: Balances, inv: Investment): Balances {
    b.(brl := b.brl + inv.amount + inv.totalProfit, available := b.available + inv.totalProfit,
       earned := b.earned + inv.totalProfit)
  }

  /** The purchase's debit and the remaining cycles' credit together. */
  lemma LifecycleArithmetic(before: User, bought: User, after: User, inv: Investment)
    requires inv.completedCycles == 0
    requires inv.totalProfit == inv.profitPerCycle * inv.totalCycles as real
    requires bought == before.(balances := before.balances.(available := before.balances.available - inv.amount,
                                                            invested := before.balances.invested + inv.amount))
    requires after == bought.(balances := Inc(bought.balances, Remaining(inv)))
    ensures after.balances == Matured(before.balances, inv)
  {
  }

  /** `bought` is `db` after user `i` bought `inv`, the only active
      investment, paying for it out of available_for_withdrawal. */
  ghost predicate Purchase(db: Db, bought: Db, inv: Investment, i: nat) {
    && i < |db.users| && |bought.users| == |db.users|
    && bought.investments == db.investments + [inv]
    && (forall j :: 0 <= j < |db.investments| ==>
          db.investments[j].status != InvestmentStatus.Active && db.investments[j].id != inv.id)
    && FindUser(bought.users, inv.userId) == Some(i)
    && bought.users[i] == db.users[i].(balances := db.users[i].balances.(
         available := db.users[i].balances.available - inv.amount,
         invested := db.users[i].balances.invested + inv.amount))
    && inv.status == InvestmentStatus.Active && inv.completedCycles == 0 && inv.totalCycles >= 1
    && inv.totalProfit == inv.profitPerCycle * inv.totalCycles as real
    && |bought.transactions| == |db.transactions| + 1
  }

  lemma BuysSole(db: Db, caller: string, planId: string, amount: real, now: int, newId: string)
    requires FindUser(db.users, caller).Some?
    requires forall j :: 0 <= j < |db.investments| ==>
               db.investments[j].status != InvestmentStatus.Active && db.investments[j].id != newId
    requires CreateInvestment(db, caller, planId, amount, now, newId).reply.Ok?
    requires CreateInvestment(db, caller, planId, amount, now, newId).reply.value.totalCycles >= 1
    ensures var r := CreateInvestment(db, caller, planId, amount, now, newId);
      Purchase(db, r.db, r.reply.value, FindUser(db.users, caller).value)
  {
    CreateInvestmentEffect(db, caller, planId, amount, now, newId);
    CreateInvestmentOpens(db, caller, planId, amount, now, newId);
  }

  /** The owner's part of `RunToCompletion`. */
  lemma CompletionCredits(db: Db, rest: seq<Investment>, x: Investment, i: nat, times: seq<int>)
    requires db.investments == rest + [x]
    requires forall j :: 0 <= j < |rest| ==> rest[j].status != InvestmentStatus.Active && rest[j].id != x.id
    requires FindUser(db.users, x.userId) == Some(i)
    requires x.status == InvestmentStatus.Active && 0 <= x.completedCycles < x.totalCycles
    requires |times| == x.totalCycles - x.completedCycles && x.nextProfitAt <= times[0] && Spaced(times)
    ensures RunTicks(db, times).users[i] == db.users[i].(balances := Inc(db.users[i].balances, Remaining(x)))
  {
    RunToCompletion(db, rest, x, i, times);
  }

  /** The ticks after a purchase of `inv` by user `i` leave that user with
      the `Matured` balances. */
  lemma PurchaseMatures(db: Db, bought: Db, inv: Investment, i: nat, times: seq<int>)
    requires Purchase(db, bought, inv, i)
    requires |times| == inv.totalCycles && inv.nextProfitAt <= times[0] && Spaced(times)
    ensures RunTicks(bought, times).users[i].balances == Matured(db.users[i].balances, inv)
  {
    CompletionCredits(bought, db.investments, inv, i, times);
    LifecycleArithmetic(db.users[i], bought.users[i], RunTicks(bought, times).users[i], inv);
  }

  /** The ticks after a purchase of `inv` close it, one transaction each. */
  lemma PurchaseCloses(db: Db, bought: Db, inv: Investment, i: nat, times: seq<int>)
    requires Purchase(db, bought, inv, i)
    requires |times| == inv.totalCycles && inv.nextProfitAt <= times[0] && Spaced(times)
    ensures var fin := RunTicks(bought, times);
      && fin.investments[|db.investments|].status == InvestmentStatus.Completed
      && fin.investments[|db.investments|].completedCycles == inv.totalCycles
      && |fin.transactions| == |bought.transactions| + inv.totalCycles
  {
    RunToCompletion(bought, db.investments, inv, i, times);
  }

  /** Buying an investment with at least one cycle and letting it be paid
      at `total_cycles` due ticks credits exactly its total_profit to
      total_returns and available_for_withdrawal, brings total_invested back
      to what it was before the purchase, and closes it.  brl_balance, which
      the purchase never debited, ends higher by the principal as well as the
      profit.  Assumes no other investment is active. */
  lemma {:induction false} InvestmentLifecycle(db: Db, caller: string, planId: string, amount: real, now: int,
                                               newId: string, times: seq<int>)
    requires FindUser(db.users, caller).Some?
    requires forall j :: 0 <= j < |db.investments| ==>
               db.investments[j].status != InvestmentStatus.Active && db.investments[j].id != newId
    requires CreateInvestment(db, caller, planId, amount, now, newId).reply.Ok?
    requires var inv := CreateInvestment(db, caller, planId, amount, now, newId).reply.value;
      inv.totalCycles >= 1 && |times| == inv.totalCycles && inv.nextProfitAt <= times[0] && Spaced(times)
    ensures var r := CreateInvestment(db, caller, planId, amount, now, newId);
      var inv := r.reply.value;
      var fin := RunTicks(r.db, times);
      var i := FindUser(db.users, caller).value;
      && fin.users[i].balances == Matured(db.users[i].balances, inv)
      && fin.investments[|db.investments|].status == InvestmentStatus.Completed
      && fin.investments[|db.investments|].completedCycles == inv.totalCycles
      && |fin.transactions| == |db.transactions| + 1 + inv.totalCycles
  {
    var r := CreateInvestment(db, caller, planId, amount, now, newId);
    var i := FindUser(db.users, caller).value;
    BuysSole(db, caller, planId, amount, now, newId);
    PurchaseMatures(db, r.db, r.reply.value, i, times);
    PurchaseCloses(db, r.db, r.reply.value, i, times);
  }

  /** A plan whose lock is shorter than its interval gives total_cycles = 0
      and total_profit = 0, yet the first due payment still credits one
      cycle of profit, as a final payment that closes the investment. */
  lemma ZeroCyclePaysOnce(users: seq<User>, investments: seq<Investment>, inv: Investment, now: int)
    requires FindUser(users, inv.userId).Some? && FindInvestment(investments, inv.id).Some?
    requires inv.totalCycles == 0 && inv.completedCycles == 0
    ensures var i := FindUser(users, inv.userId).value;
      var k := FindInvestment(investments, inv.id).value;
      && IncUser(users, inv.userId, Payout(inv))[i].balances.earned == users[i].balances.earned + inv.profitPerCycle
      && MarkPaid(investments, inv, now)[k].status == InvestmentStatus.Completed
      && MarkPaid(investments, inv, now)[k].completedCycles == 0
  {
    PaymentCredits(users, inv);
    PaymentAdvances(investments, inv, now);
  }

  // ------------------------------------------------- among other investments

  /** Apart from the one at `p`, no active investment belongs to `uid`. */
  ghost predicate SoleActiveOf(investments: seq<Investment>, p: nat, uid: string) {
    forall j :: 0 <= j < |investments| && j != p && investments[j].status == InvestmentStatus.Active ==>
      investments[j].userId != uid
  }

  /** How many investments of `s` carry the id `id`. */
  function IdCount(s: seq<Investment>, id: string): nat {
    if s == [] then 0
    else IdCount(s[..|s| - 1], id) + (if s[|s| - 1].id == id then 1 else 0)
  }

  lemma {:induction false} IdCountZero(s: seq<Investment>, id: string)
    requires IdCount(s, id) == 0
    ensures forall m :: 0 <= m < |s| ==> s[m].id != id
  {
    if s != [] {
      IdCountZero(s[..|s| - 1], id);
      assert forall m :: 0 <= m < |s| - 1 ==> s[m] == s[..|s| - 1][m];
    }
  }

  /** With distinct ids, the lookup by an investment's id finds that investment. */
  lemma FindUniqueInvestment(investments: seq<Investment>, p: nat)
    requires UniqueInvestmentIds(investments) && p < |investments|
    ensures FindInvestment(investments, investments[p].id) == Some(p)
  {
    assert ((i: Investment) => i.id == investments[p].id)(investments[p]);
  }

  /** Marking keeps the ids distinct. */
  lemma MarkAllKeepsUnique(investments: seq<Investment>, due: seq<Investment>, now: int)
    requires UniqueInvestmentIds(investments)
    ensures UniqueInvestmentIds(MarkAll(investments, due, now))
  {
    forall m | 0 <= m < |investments| {
      MarkAllKeepsIds(investments, due, now, m);
    }
  }

  /** The investment at `p`, listed at most once in `due`, is paid once,
      from its own stored values, or left alone. */
  lemma {:induction false} MarkAllPaysOnce(investments: seq<Investment>, due: seq<Investment>, now: int, p: nat)
    requires UniqueInvestmentIds(investments) && p < |investments|
    requires forall m :: 0 <= m < |due| && due[m].id == investments[p].id ==> due[m] == investments[p]
    requires IdCount(due, investments[p].id) <= 1
    ensures MarkAll(investments, due, now)[p] ==
      if IdCount(due, investments[p].id) == 0 then investments[p] else Paid(investments[p], investments[p], now)
  {
    if due != [] {
      var x := investments[p];
      var front := due[..|due| - 1];
      var last := due[|due| - 1];
      assert forall m :: 0 <= m < |front| ==> front[m] == due[m];
      MarkAllPaysOnce(investments, front, now, p);
      var prev := MarkAll(investments, front, now);
      MarkAllKeepsUnique(investments, front, now);
      MarkAllKeepsIds(investments, front, now, p);
      if last.id == x.id {
        FindUniqueInvestment(prev, p);
      } else {
        match FindInvestment(prev, last.id)
        case None =>
        case Some(k) => assert k != p;
      }
    }
  }

  lemma IdCountAppend(s: seq<Investment>, x: Investment, id: string)
    ensures IdCount(s + [x], id) == IdCount(s, id) + (if x.id == id then 1 else 0)
  {
    assert (s + [x])[..|s|] == s;
  }

  lemma {:induction false} DueCountsNone(investments: seq<Investment>, now: int, id: string)
    requires forall j :: 0 <= j < |investments| ==> investments[j].id != id
    ensures IdCount(Due(investments, now), id) == 0
  {
    if investments != [] {
      var init := investments[..|investments| - 1];
      var last := investments[|investments| - 1];
      assert forall j :: 0 <= j < |init| ==> init[j] == investments[j];
      DueCountsNone(init, now, id);
      var d := Due(init, now);
      if IsDue(last, now) {
        IdCountAppend(d, last, id);
      } else {
        assert Due(investments, now) == d;
      }
    }
  }

  /** With distinct ids, a due investment is listed exactly once by the query. */
  lemma {:induction false} DueCountsOnce(investments: seq<Investment>, now: int, p: nat)
    requires UniqueInvestmentIds(investments) && p < |investments| && IsDue(investments[p], now)
    ensures IdCount(Due(investments, now), investments[p].id) == 1
  {
    var init := investments[..|investments| - 1];
    var last := investments[|investments| - 1];
    var id := investments[p].id;
    var d := Due(init, now);
    if IsDue(last, now) {
      IdCountAppend(d, last, id);
    } else {
      assert Due(investments, now) == d;
    }
    assert forall j :: 0 <= j < |init| ==> init[j] == investments[j];
    if p == |init| {
      DueCountsNone(init, now, id);
    } else {
      assert last.id != id;
      DueCountsOnce(init, now, p);
    }
  }

  /** When `x`, listed once, is the only investment of `due` owned by `uid`,
      `uid` is credited exactly its payout. */
  lemma {:induction false} CreditedOnly(due: seq<Investment>, uid: string, x: Investment)
    requires x.userId == uid && IdCount(due, x.id) == 1
    requires forall m :: 0 <= m < |due| && (due[m].userId == uid || due[m].id == x.id) ==> due[m] == x
    ensures Credited(due, uid) == Payout(x)
  {
    var front := due[..|due| - 1];
    var last := due[|due| - 1];
    assert forall m :: 0 <= m < |front| ==> front[m] == due[m];
    if last.userId == uid {
      IdCountZero(front, x.id);
      NothingDueNothingCredited(front, uid);
      CreditedParts(front, uid);
    } else {
      CreditedOnly(front, uid, x);
    }
  }

  /** One tick, when `x` at `p` is due and is its owner's only active
      investment: the owner gains `Payout(x)`, `x` is marked paid, other
      investments may be paid too, and the hypotheses hold again. */
  lemma TickAmongOthers(db: Db, p: nat, i: nat, t: int)
    requires UniqueInvestmentIds(db.investments) && p < |db.investments|
    requires IsDue(db.investments[p], t)
    requires SoleActiveOf(db.investments, p, db.investments[p].userId)
    requires FindUser(db.users, db.investments[p].userId) == Some(i)
    ensures var x := db.investments[p];
      var next := Tick(db, t);
      && next.investments[p] == Paid(x, x, t)
      && next.users[i] == db.users[i].(balances := Inc(db.users[i].balances, Payout(x)))
      && FindUser(next.users, x.userId) == Some(i)
      && UniqueInvestmentIds(next.investments)
      && SoleActiveOf(next.investments, p, x.userId)
      && |next.transactions| >= |db.transactions| + 1
  {
    var x := db.investments[p];
    var due := Due(db.investments, t);
    DueMembers(db.investments, t);
    forall m | 0 <= m < |due| && (due[m].userId == x.userId || due[m].id == x.id)
      ensures due[m] == x
    {
      assert due[m] in due;
      var a :| 0 <= a < |db.investments| && db.investments[a] == due[m];
      assert a == p;
    }
    DueCountsOnce(db.investments, t, p);
    MarkAllPaysOnce(db.investments, due, t, p);
    PayAllPays(db.users, due, i);
    CreditedOnly(due, x.userId, x);
    MarkAllKeepsUnique(db.investments, due, t);
    var next := Tick(db, t);
    forall j | 0 <= j < |next.investments| && j != p && next.investments[j].status == InvestmentStatus.Active
      ensures next.investments[j].userId != x.userId
    {
      MarkAllKeepsIds(db.investments, due, t, j);
    }
    TickRecords(db, t);
  }

  /** `RunToCompletion` without asking the other investments to be
      inactive: the owner of `x` must hold no other active investment, and
      ids must be distinct.  Other owners' payouts never reach the owner's
      document, so it gains exactly `Remaining(x)`. */
  lemma {:induction false} RunAmongOthers(db: Db, p: nat, i: nat, times: seq<int>)
    requires UniqueInvestmentIds(db.investments) && p < |db.investments|
    requires SoleActiveOf(db.investments, p, db.investments[p].userId)
    requires FindUser(db.users, db.investments[p].userId) == Some(i)
    requires var x := db.investments[p];
      && x.status == InvestmentStatus.Active && 0 <= x.completedCycles < x.totalCycles
      && |times| == x.totalCycles - x.completedCycles && x.nextProfitAt <= times[0] && Spaced(times)
    ensures var x := db.investments[p];
      var r := RunTicks(db, times);
      && r.users[i] == db.users[i].(balances := Inc(db.users[i].balances, Remaining(x)))
      && r.investments[p].status == InvestmentStatus.Completed
      && r.investments[p].completedCycles == x.totalCycles
      && |r.transactions| >= |db.transactions| + |times|
    decreases |times|
  {
    var x := db.investments[p];
    var t := times[0];
    TickAmongOthers(db, p, i, t);
    var next := Tick(db, t);
    assert RunTicks(db, times) == RunTicks(next, times[1..]);
    if |times| == 1 {
      RemainingLast(x);
      assert RunTicks(next, times[1..]) == next;
    } else {
      var x' := Paid(x, x, t);
      SpacedTail(times);
      RunAmongOthers(next, p, i, times[1..]);
      IncPlus(db.users[i].balances, Payout(x), Remaining(x'));
      RemainingStep(x, t);
    }
  }

  /** `bought` is `db` after user `i` bought `inv`, the buyer's only active
      investment, with distinct ids, paying for it out of
      available_for_withdrawal. */
  ghost predicate PurchaseAmongOthers(db: Db, bought: Db, inv: Investment, i: nat) {
    var p := |db.investments|;
    && i < |db.users|
    && p < |bought.investments| && bought.investments[p] == inv
    && UniqueInvestmentIds(bought.investments)
    && SoleActiveOf(bought.investments, p, inv.userId)
    && FindUser(bought.users, inv.userId) == Some(i)
    && bought.users[i] == db.users[i].(balances := db.users[i].balances.(
         available := db.users[i].balances.available - inv.amount,
         invested := db.users[i].balances.invested + inv.amount))
    && inv.status == InvestmentStatus.Active && inv.completedCycles == 0
    && inv.totalProfit == inv.profitPerCycle * inv.totalCycles as real
  }

  /** With distinct ids and no other active investment of the buyer, a
      purchase produces such a state and one transaction. */
  lemma BuysAmongOthers(db: Db, caller: string, planId: string, amount: real, now: int, newId: string)
    requires FindUser(db.users, caller).Some?
    requires UniqueInvestmentIds(db.investments)
    requires forall j :: 0 <= j < |db.investments| ==> db.investments[j].id != newId
    requires forall j :: 0 <= j < |db.investments| && db.investments[j].status == InvestmentStatus.Active ==>
               db.investments[j].userId != caller
    requires CreateInvestment(db, caller, planId, amount, now, newId).reply.Ok?
    ensures var r := CreateInvestment(db, caller, planId, amount, now, newId);
      && PurchaseAmongOthers(db, r.db, r.reply.value, FindUser(db.users, caller).value)
      && |r.db.transactions| == |db.transactions| + 1
  {
    var r := CreateInvestment(db, caller, planId, amount, now, newId);
    var p := |db.investments|;
    CreateInvestmentEffect(db, caller, planId, amount, now, newId);
    CreateInvestmentOpens(db, caller, planId, amount, now, newId);
    assert r.db.investments[p] == r.reply.value;
    assert forall j :: 0 <= j < p ==> r.db.investments[j] == db.investments[j];
  }

  /** After such a purchase, total_cycles due ticks leave the buyer with the
      `Matured` balances and close the investment, whatever the other
      owners' investments do meanwhile. */
  lemma MaturesAmongOthers(db: Db, bought: Db, inv: Investment, i: nat, times: seq<int>)
    requires PurchaseAmongOthers(db, bought, inv, i)
    requires inv.totalCycles >= 1 && |times| == inv.totalCycles && inv.nextProfitAt <= times[0] && Spaced(times)
    ensures var fin := RunTicks(bought, times);
      && fin.users[i].balances == Matured(db.users[i].balances, inv)
      && fin.investments[|db.investments|].status == InvestmentStatus.Completed
      && fin.investments[|db.investments|].completedCycles == inv.totalCycles
      && |fin.transactions| >= |bought.transactions| + inv.totalCycles
  {
    RunAmongOthers(bought, |db.investments|, i, times);
    LifecycleArithmetic(db.users[i], bought.users[i], RunTicks(bought, times).users[i], inv);
  }

  /** The lifecycle of a purchase on a platform where other users hold
      active investments: the buyer must hold no active investment and the
      ids must be distinct.  After total_cycles due ticks, total_returns and
      available_for_withdrawal have gained total_profit, total_invested is
      back where it was, brl_balance has gained the principal and the
      profit, and the investment is closed; every tick records at least its
      own payment. */
  lemma InvestmentLifecycleAmongOthers(db: Db, caller: string, planId: string, amount: real, now: int,
                                       newId: string, times: seq<int>)
    requires FindUser(db.users, caller).Some?
    requires UniqueInvestmentIds(db.investments)
    requires forall j :: 0 <= j < |db.investments| ==> db.investments[j].id != newId
    requires forall j :: 0 <= j < |db.investments| && db.investments[j].status == InvestmentStatus.Active ==>
               db.investments[j].userId != caller
    requires CreateInvestment(db, caller, planId, amount, now, newId).reply.Ok?
    requires var inv := CreateInvestment(db, caller, planId, amount, now, newId).reply.value;
      inv.totalCycles >= 1 && |times| == inv.totalCycles && inv.nextProfitAt <= times[0] && Spaced(times)
    ensures var r := CreateInvestment(db, caller, planId, amount, now, newId);
      var inv := r.reply.value;
      var fin := RunTicks(r.db, times);
      var i := FindUser(db.users, caller).value;
      && fin.users[i].balances == Matured(db.users[i].balances, inv)
      && fin.investments[|db.investments|].status == InvestmentStatus.Completed
      && fin.investments[|db.investments|].completedCycles == inv.totalCycles
      && |fin.transactions| >= |db.transactions| + 1 + inv.totalCycles
  {
    var r := CreateInvestment(db, caller, planId, amount, now, newId);
    BuysAmongOthers(db, caller, planId, amount, now, newId);
    MaturesAmongOthers(db, r.db, r.reply.value, FindUser(db.users, caller).value, times);
  }
}
