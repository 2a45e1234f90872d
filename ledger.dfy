/** Money: investments, deposits, withdrawals, the administrator's decisions on
    transactions and balance adjustments (backend/server.py).  Each handler is
    a transition of the database value; errors are raised before anything is
    written, so a failed request leaves the database as it was. */
module Ledger {
  import opened Models

  /** A Mongo `$inc` on the four balance fields the handlers increment. */
  datatype Increment = Increment(brl: real, available: real, invested: real, earned: real)

  function Inc(b: Balances, d: Increment): Balances {
    b.(brl := b.brl + d.brl, available := b.available + d.available,
       invested := b.invested + d.invested, earned := b.earned + d.earned)
  }

  /** `update_one({"id": id}, {"$inc": d})`: the first document with that id, or nothing. */
  function IncUser(users: seq<User>, id: string, d: Increment): (r: seq<User>)
    ensures |r| == |users|
  {
    match FindUser(users, id)
    case None => users
    case Some(i) => users[i := users[i].(balances := Inc(users[i].balances, d))]
  }

  lemma IncUserKeepsIds(users: seq<User>, id: string, d: Increment, other: string)
    ensures FindUser(IncUser(users, id, d), other) == FindUser(users, other)
  {
    if FindUser(users, id).Some? {
      var i := FindUser(users, id).value;
      FindUserUpdate(users, i, users[i].(balances := Inc(users[i].balances, d)), other);
    }
  }

  /** `$inc` on a user that exists changes that user's balances and nothing else. */
  lemma IncUserAt(users: seq<User>, id: string, d: Increment)
    requires FindUser(users, id).Some?
    ensures var i := FindUser(users, id).value;
      var r := IncUser(users, id, d);
      && (forall j :: 0 <= j < |users| && j != i ==> r[j] == users[j])
      && r[i] == users[i].(balances := Inc(users[i].balances, d))
      && FindUser(r, id) == Some(i)
  {
    IncUserKeepsIds(users, id, d, id);
  }

  function Plus(d: Increment, e: Increment): Increment {
    Increment(d.brl + e.brl, d.available + e.available, d.invested + e.invested, d.earned + e.earned)
  }

  /** Two `$inc` updates of the same user amount to one of their sum. */
  lemma IncUserTwice(users: seq<User>, id: string, d: Increment, e: Increment)
    ensures IncUser(IncUser(users, id, d), id, e) == IncUser(users, id, Plus(d, e))
  {
    IncUserKeepsIds(users, id, d, id);
    match FindUser(users, id)
    case None =>
    case Some(i) =>
      var once := users[i := users[i].(balances := Inc(users[i].balances, d))];
      assert Inc(Inc(users[i].balances, d), e) == Inc(users[i].balances, Plus(d, e));
      assert once[i := once[i].(balances := Inc(once[i].balances, e))]
          == users[i := users[i].(balances := Inc(users[i].balances, Plus(d, e)))];
  }

  /** The profit per cycle: R$ 40 for every R$ 200 invested. */
  function ProfitPerCycle(amount: real): (p: real)
    ensures p == amount / 5.0
  {
    amount / 200.0 * 40.0
  }

  // ---------------------------------------------------------------- investments

  function NewInvestment(id: string, caller: string, plan: Plan, amount: real, now: int): Investment
    requires plan.profitIntervalHours != 0
  {
    var perCycle := ProfitPerCycle(amount);
    var cycles := FloorDiv(plan.lockHours, plan.profitIntervalHours);
    Investment(id, caller, plan.id, plan.name, amount, perCycle * cycles as real, perCycle, cycles, 0,
               InvestmentStatus.Active, now, now + plan.lockHours, None, now + plan.profitIntervalHours, now)
  }

  function PurchaseRecord(caller: string, plan: Plan, amount: real, now: int): Transaction {
    Transaction(Stamped(caller, now), caller, InvestmentPurchase, amount, TransactionStatus.Completed,
                None, None, Some(PurchaseOf(plan.name)), None, now, Some(now))
  }

  /** create_investment.  A plan whose profit interval is 0 makes the cycle
      division raise, which the handler turns into a 500. */
  function CreateInvestment(db: Db, caller: string, planId: string, amount: real, now: int, newId: string): (r: Response<Investment>)
    requires FindUser(db.users, caller).Some?
    ensures r.reply.Err? ==> r.db == db
  {
    match FindPlan(db.plans, planId)
    case None => Response(db, Err(PlanNotFound))
    case Some(p) =>
      var plan := db.plans[p];
      if amount < plan.minAmount || amount > plan.maxAmount then
        Response(db, Err(AmountOutOfRange(plan.minAmount, plan.maxAmount)))
      else if db.users[FindUser(db.users, caller).value].balances.available < amount then
        Response(db, Err(InsufficientBalance))
      else if plan.profitIntervalHours == 0 then Response(db, Err(InternalError))
      else
        var inv := NewInvestment(newId, caller, plan, amount, now);
        var db' := db.(investments := db.investments + [inv],
                       users := IncUser(db.users, caller, Increment(0.0, -amount, amount, 0.0)),
                       transactions := db.transactions + [PurchaseRecord(caller, plan, amount, now)]);
        Response(db', Ok(inv))
  }

  /** Errors come in this order: unknown plan (404), amount outside the plan's
      range (400), then too little available balance (400).  The range is
      checked first, so an amount that is both too large and unaffordable is
      reported as out of range. */
  lemma CreateInvestmentErrors(db: Db, caller: string, planId: string, amount: real, now: int, newId: string)
    requires FindUser(db.users, caller).Some?
    ensures var r := CreateInvestment(db, caller, planId, amount, now, newId);
      var p := FindPlan(db.plans, planId);
      var available := db.users[FindUser(db.users, caller).value].balances.available;
      && (p.None? ==> r.reply == Err(PlanNotFound) && r.reply.failure.Status() == 404)
      && (p.Some? && (amount < db.plans[p.value].minAmount || amount > db.plans[p.value].maxAmount) ==>
            r.reply.Err? && r.reply.failure.AmountOutOfRange? && r.reply.failure.Status() == 400)
      && (p.Some? && db.plans[p.value].minAmount <= amount <= db.plans[p.value].maxAmount && available < amount ==>
            r.reply == Err(InsufficientBalance) && r.reply.failure.Status() == 400)
      && (r.reply.Ok? <==> p.Some? && db.plans[p.value].minAmount <= amount <= db.plans[p.value].maxAmount &&
                            amount <= available && db.plans[p.value].profitIntervalHours != 0)
  {
  }

  /** A successful purchase moves exactly `amount` from the available balance
      to total_invested of the buyer (brl_balance is untouched), changes no
      other user and appends the new investment. */
  lemma CreateInvestmentEffect(db: Db, caller: string, planId: string, amount: real, now: int, newId: string)
    requires FindUser(db.users, caller).Some?
    requires CreateInvestment(db, caller, planId, amount, now, newId).reply.Ok?
    ensures var r := CreateInvestment(db, caller, planId, amount, now, newId);
      var i := FindUser(db.users, caller).value;
      && |r.db.users| == |db.users| && FindUser(r.db.users, caller) == Some(i)
      && (forall j :: 0 <= j < |db.users| && j != i ==> r.db.users[j] == db.users[j])
      && r.db.users[i] == db.users[i].(balances := db.users[i].balances.(
           available := db.users[i].balances.available - amount,
           invested := db.users[i].balances.invested + amount))
      && r.db.investments == db.investments + [r.reply.value]
      && |r.db.transactions| == |db.transactions| + 1
  {
    var i := FindUser(db.users, caller).value;
    var b := db.users[i].balances;
    var d := Increment(0.0, -amount, amount, 0.0);
    var r := CreateInvestment(db, caller, planId, amount, now, newId);
    assert r.db.users == IncUser(db.users, caller, d);
    IncUserAt(db.users, caller, d);
    assert Inc(b, d) == b.(available := b.available - amount, invested := b.invested + amount);
  }

  /** The new investment belongs to the buyer, is active with no completed
      cycles, and pays R$ 40 per R$ 200 for `lock_hours // interval` cycles,
      the first one interval after the purchase. */
  lemma CreateInvestmentOpens(db: Db, caller: string, planId: string, amount: real, now: int, newId: string)
    requires FindUser(db.users, caller).Some?
    requires CreateInvestment(db, caller, planId, amount, now, newId).reply.Ok?
    ensures var plan := db.plans[FindPlan(db.plans, planId).value];
      var inv := CreateInvestment(db, caller, planId, amount, now, newId).reply.value;
      && inv.id == newId && inv.userId == caller && inv.amount == amount
      && inv.planId == plan.id
      && inv.completedCycles == 0 && inv.status == InvestmentStatus.Active
      && inv.totalCycles == FloorDiv(plan.lockHours, plan.profitIntervalHours)
      && inv.profitPerCycle == amount / 200.0 * 40.0
      && inv.totalProfit == inv.profitPerCycle * inv.totalCycles as real
      && inv.nextProfitAt == now + plan.profitIntervalHours
  {
  }

  /** A successful purchase records one completed "investment" transaction
      for the amount, after the existing ones, and leaves the plans and the
      settings alone. */
  lemma CreateInvestmentRecords(db: Db, caller: string, planId: string, amount: real, now: int, newId: string)
    requires FindUser(db.users, caller).Some?
    requires CreateInvestment(db, caller, planId, amount, now, newId).reply.Ok?
    ensures var r := CreateInvestment(db, caller, planId, amount, now, newId);
      && r.db.plans == db.plans && r.db.settings == db.settings
      && |r.db.transactions| == |db.transactions| + 1
      && r.db.transactions[..|db.transactions|] == db.transactions
      && var t := r.db.transactions[|db.transactions|];
         t.kind == InvestmentPurchase && t.status == TransactionStatus.Completed && t.amount == amount && t.userId == caller
  {
    var plan := db.plans[FindPlan(db.plans, planId).value];
    assert (db.transactions + [PurchaseRecord(caller, plan, amount, now)])[..|db.transactions|] == db.transactions;
  }

  /** A purchase keeps every user's available + invested total. */
  lemma CreateInvestmentConserves(db: Db, caller: string, planId: string, amount: real, now: int, newId: string, j: nat)
    requires FindUser(db.users, caller).Some?
    requires j < |db.users|
    ensures var u := CreateInvestment(db, caller, planId, amount, now, newId).db.users[j].balances;
      u.available + u.invested == db.users[j].balances.available + db.users[j].balances.invested
      && u.brl == db.users[j].balances.brl
  {
  }

  // ---------------------------------------------------------------- deposits

  function DepositRecord(id: string, caller: string, amount: real, via: PaymentMethod,
                         proof: Option<string>, notes: Option<string>, now: int): Transaction {
    Transaction(Uuid(id), caller, Deposit, amount, TransactionStatus.Pending, Some(via), proof,
                if notes.Some? then Some(Text(notes.value)) else None, None, now, None)
  }

  /** create_deposit: records a pending deposit request; no amount check and
      no balance change. */
  function CreateDeposit(db: Db, caller: string, amount: real, via: PaymentMethod, proof: Option<string>,
                         notes: Option<string>, now: int, newId: string): (r: Response<Transaction>)
    ensures r.reply.Ok?
    ensures r.db == db.(transactions := db.transactions + [r.reply.value])
    ensures var t := r.reply.value;
      t.kind == Deposit && t.status == TransactionStatus.Pending && t.amount == amount &&
      t.userId == caller && t.id == Uuid(newId)
  {
    var t := DepositRecord(newId, caller, amount, via, proof, notes, now);
    Response(db.(transactions := db.transactions + [t]), Ok(t))
  }

  // ---------------------------------------------------------------- withdrawals

  datatype WithdrawalReceipt = WithdrawalReceipt(transaction: Transaction, withdrawalFee: real, feeMethod: string)

  predicate HasActiveInvestment(investments: seq<Investment>, userId: string) {
    exists k :: 0 <= k < |investments| && investments[k].userId == userId && investments[k].status == InvestmentStatus.Active
  }

  function WithdrawalRecord(id: string, caller: string, amount: real, via: PaymentMethod,
                            feeProof: Option<string>, settings: Settings, now: int): Transaction {
    Transaction(Uuid(id), caller, Withdrawal, amount, TransactionStatus.Processing, Some(via), feeProof,
                Some(WithdrawalFee(settings.withdrawalFee, settings.withdrawalFeeMethod)), None, now, None)
  }

  /** create_withdrawal.  Without a settings document the handler fails on
      `None.get` and answers 500. */
  function CreateWithdrawal(db: Db, caller: string, amount: real, via: PaymentMethod, feeProof: Option<string>,
                            now: int, newId: string): (r: Response<WithdrawalReceipt>)
    requires FindUser(db.users, caller).Some?
    ensures r.reply.Err? ==> r.db == db
  {
    if db.settings.None? then Response(db, Err(InternalError))
    else
      var settings := db.settings.value;
      if amount < settings.minWithdrawal then Response(db, Err(BelowMinimumWithdrawal(settings.minWithdrawal)))
      else if db.users[FindUser(db.users, caller).value].balances.available < amount then Response(db, Err(InsufficientBalance))
      else if HasActiveInvestment(db.investments, caller) then Response(db, Err(ActiveInvestments))
      else
        var t := WithdrawalRecord(newId, caller, amount, via, feeProof, settings, now);
        var db' := db.(users := IncUser(db.users, caller, Increment(-amount, -amount, 0.0, 0.0)),
                       transactions := db.transactions + [t]);
        Response(db', Ok(WithdrawalReceipt(t, settings.withdrawalFee, settings.withdrawalFeeMethod)))
  }

  /** Withdrawal errors come in this order: below the minimum, more than the
      available balance, then any active investment of the caller. */
  lemma CreateWithdrawalOutcome(db: Db, caller: string, amount: real, via: PaymentMethod, feeProof: Option<string>,
                                now: int, newId: string)
    requires FindUser(db.users, caller).Some?
    requires db.settings.Some?
    ensures var r := CreateWithdrawal(db, caller, amount, via, feeProof, now, newId);
      var b := db.users[FindUser(db.users, caller).value].balances;
      var min := db.settings.value.minWithdrawal;
      && (amount < min ==> r.reply == Err(BelowMinimumWithdrawal(min)))
      && (min <= amount && b.available < amount ==> r.reply == Err(InsufficientBalance))
      && (min <= amount <= b.available && HasActiveInvestment(db.investments, caller) ==> r.reply == Err(ActiveInvestments))
      && (r.reply.Ok? <==> min <= amount <= b.available && !HasActiveInvestment(db.investments, caller))
  {
  }

  /** A successful withdrawal takes the amount from both brl_balance and
      available_for_withdrawal of the caller only, and records one withdrawal
      in status processing. */
  lemma CreateWithdrawalEffect(db: Db, caller: string, amount: real, via: PaymentMethod, feeProof: Option<string>,
                               now: int, newId: string)
    requires FindUser(db.users, caller).Some?
    requires CreateWithdrawal(db, caller, amount, via, feeProof, now, newId).reply.Ok?
    ensures var r := CreateWithdrawal(db, caller, amount, via, feeProof, now, newId);
      var i := FindUser(db.users, caller).value;
      var b := db.users[i].balances;
      && r.db.investments == db.investments && r.db.plans == db.plans
      && |r.db.users| == |db.users|
      && (forall j :: 0 <= j < |db.users| && j != i ==> r.db.users[j] == db.users[j])
      && r.db.users[i] == db.users[i].(balances := b.(brl := b.brl - amount, available := b.available - amount))
      && r.db.transactions == db.transactions + [r.reply.value.transaction]
      && r.reply.value.transaction.kind == Withdrawal
      && r.reply.value.transaction.status == TransactionStatus.Processing
      && r.reply.value.transaction.amount == amount
  {
    var i := FindUser(db.users, caller).value;
    var b := db.users[i].balances;
    assert Inc(b, Increment(-amount, -amount, 0.0, 0.0)) == b.(brl := b.brl - amount, available := b.available - amount);
  }

  // ---------------------------------------------------------------- admin decisions

  /** approve_transaction.  Only approved and completed transactions are
      refused, so a rejected transaction can still be approved. */
  function ApproveTransaction(db: Db, adminId: string, txnId: TxnId, now: int): (r: Response<()>)
    ensures r.reply.Err? ==> r.db == db
    ensures r.db.investments == db.investments && r.db.plans == db.plans
  {
    match FindTransaction(db.transactions, txnId)
    case None => Response(db, Err(TransactionNotFound))
    case Some(k) =>
      var t := db.transactions[k];
      if t.status == TransactionStatus.Approved || t.status == TransactionStatus.Completed then
        Response(db, Err(AlreadyProcessed))
      else
        var t' := t.(status := if t.kind == Deposit then TransactionStatus.Approved else TransactionStatus.Completed,
                     processedBy := Some(adminId), processedAt := Some(now));
        var users := if t.kind == Deposit then IncUser(db.users, t.userId, Increment(t.amount, t.amount, 0.0, 0.0))
                     else db.users;
        Response(db.(transactions := db.transactions[k := t'], users := users), Ok(()))
  }

  lemma ApproveTransactionOutcome(db: Db, adminId: string, txnId: TxnId, now: int)
    ensures var r := ApproveTransaction(db, adminId, txnId, now);
      var k := FindTransaction(db.transactions, txnId);
      && (k.None? ==> r.reply == Err(TransactionNotFound))
      && (k.Some? ==>
            var t := db.transactions[k.value];
            && (t.status in {TransactionStatus.Approved, TransactionStatus.Completed} <==> r.reply == Err(AlreadyProcessed))
            && (r.reply.Ok? ==>
                  && r.db.transactions == db.transactions[k.value := r.db.transactions[k.value]]
                  && r.db.transactions[k.value].status ==
                       (if t.kind == Deposit then TransactionStatus.Approved else TransactionStatus.Completed)
                  && r.db.transactions[k.value].processedBy == Some(adminId)
                  && r.db.users == (if t.kind == Deposit then IncUser(db.users, t.userId, Increment(t.amount, t.amount, 0.0, 0.0))
                                    else db.users)))
  {
  }

  /** reject_transaction.  A withdrawal is refunded to both balances; the
      notes become the reason, or stay as they were when no (or an empty)
      reason is given. */
  function RejectTransaction(db: Db, adminId: string, txnId: TxnId, reason: Option<string>, now: int): (r: Response<()>)
    ensures r.reply.Err? ==> r.db == db
    ensures r.db.investments == db.investments && r.db.plans == db.plans
  {
    match FindTransaction(db.transactions, txnId)
    case None => Response(db, Err(TransactionNotFound))
    case Some(k) =>
      var t := db.transactions[k];
      if t.status in {TransactionStatus.Approved, TransactionStatus.Rejected, TransactionStatus.Completed} then
        Response(db, Err(AlreadyProcessed))
      else
        var users := if t.kind == Withdrawal then IncUser(db.users, t.userId, Increment(t.amount, t.amount, 0.0, 0.0))
                     else db.users;
        var notes := if reason.Some? && reason.value != "" then Some(Text(reason.value)) else t.notes;
        var t' := t.(status := TransactionStatus.Rejected, processedBy := Some(adminId), processedAt := Some(now), notes := notes);
        Response(db.(users := users, transactions := db.transactions[k := t']), Ok(()))
  }

  lemma RejectTransactionOutcome(db: Db, adminId: string, txnId: TxnId, reason: Option<string>, now: int)
    ensures var r := RejectTransaction(db, adminId, txnId, reason, now);
      var k := FindTransaction(db.transactions, txnId);
      && (k.None? ==> r.reply == Err(TransactionNotFound))
      && (k.Some? ==>
            var t := db.transactions[k.value];
            && ((t.status in {TransactionStatus.Approved, TransactionStatus.Rejected, TransactionStatus.Completed})
                <==> r.reply == Err(AlreadyProcessed))
            && (r.reply.Ok? ==>
                  && r.db.transactions == db.transactions[k.value := r.db.transactions[k.value]]
                  && r.db.transactions[k.value].status == TransactionStatus.Rejected
                  && r.db.transactions[k.value].processedBy == Some(adminId)
                  && r.db.transactions[k.value].notes ==
                       (if reason.Some? && reason.value != "" then Some(Text(reason.value)) else t.notes)
                  && (t.kind == Withdrawal ==>
                        r.db.users == IncUser(db.users, t.userId, Increment(t.amount, t.amount, 0.0, 0.0)))
                  && (t.kind != Withdrawal ==> r.db.users == db.users)))
  {
  }

  /** Values of the status parameter update_withdrawal_status accepts. */
  function SettableStatus(s: string): (r: Option<TransactionStatus>)
    ensures r.Some? ==> r.value.Name() == s
    ensures r.Some? <==> s in {"processing", "pending", "completed"}
  {
    if s == "processing" then Some(TransactionStatus.Processing)
    else if s == "pending" then Some(TransactionStatus.Pending)
    else if s == "completed" then Some(TransactionStatus.Completed)
    else None
  }

  /** update_withdrawal_status: only withdrawals, only to processing, pending
      or completed; nothing but the transaction's status and processing
      stamp changes. */
  function UpdateWithdrawalStatus(db: Db, adminId: string, txnId: TxnId, status: string, now: int): (r: Response<()>)
    ensures r.reply.Err? ==> r.db == db
    ensures r.db.users == db.users && r.db.investments == db.investments && |r.db.transactions| == |db.transactions|
  {
    match FindTransaction(db.transactions, txnId)
    case None => Response(db, Err(TransactionNotFound))
    case Some(k) =>
      var t := db.transactions[k];
      if t.kind != Withdrawal then Response(db, Err(OnlyWithdrawals))
      else match SettableStatus(status)
        case None => Response(db, Err(InvalidStatus))
        case Some(s) =>
          var t' := t.(status := s, processedBy := Some(adminId), processedAt := Some(now));
          Response(db.(transactions := db.transactions[k := t']), Ok(()))
  }

  lemma UpdateWithdrawalStatusOutcome(db: Db, adminId: string, txnId: TxnId, status: string, now: int)
    ensures var r := UpdateWithdrawalStatus(db, adminId, txnId, status, now);
      var k := FindTransaction(db.transactions, txnId);
      && (k.None? ==> r.reply == Err(TransactionNotFound))
      && (k.Some? && db.transactions[k.value].kind != Withdrawal ==> r.reply == Err(OnlyWithdrawals))
      && (r.reply.Ok? <==> k.Some? && db.transactions[k.value].kind == Withdrawal &&
                            status in {"processing", "pending", "completed"})
      && (r.reply.Ok? ==> r.db.transactions[k.value].status.Name() == status)
  {
  }

  // ---------------------------------------------------------------- adjustments

  predicate KnownAdjustment(adjustmentType: string) {
    adjustmentType in {"add", "subtract", "set"}
  }

  /** The balances after an "add", "subtract" or "set" of `amount` on field `f`. */
  function Adjusted(b: Balances, adjustmentType: string, f: BalanceField, amount: real): Balances
    requires KnownAdjustment(adjustmentType)
  {
    if adjustmentType == "add" then Set(b, f, Get(b, f) + amount)
    else if adjustmentType == "subtract" then Set(b, f, Get(b, f) - amount)
    else Set(b, f, amount)
  }

  function AdjustmentRecord(id: string, userId: string, adjustmentType: string, f: BalanceField, amount: real,
                            notes: Option<string>, adminId: string, now: int): Transaction {
    var note := if notes.Some? && notes.value != "" then Text(notes.value) else AdjustmentOf(adjustmentType, f.Key());
    Transaction(Uuid(id), userId, AdminAdjustment, amount, TransactionStatus.Completed, None, None, Some(note),
                Some(adminId), now, Some(now))
  }

  /** adjust_user_balance. */
  function AdjustBalance(db: Db, adminId: string, userId: string, adjustmentType: string, f: BalanceField,
                         amount: real, notes: Option<string>, now: int, newId: string): (r: Response<()>)
    ensures r.reply.Err? ==> r.db == db
    ensures r.db.investments == db.investments
  {
    match FindUser(db.users, userId)
    case None => Response(db, Err(UserNotFound))
    case Some(i) =>
      if !KnownAdjustment(adjustmentType) then Response(db, Err(InvalidAdjustment))
      else
        var u := db.users[i].(balances := Adjusted(db.users[i].balances, adjustmentType, f, amount));
        var t := AdjustmentRecord(newId, userId, adjustmentType, f, amount, notes, adminId, now);
        Response(db.(users := db.users[i := u], transactions := db.transactions + [t]), Ok(()))
  }

  /** 404 for an unknown user, then 400 for an unknown adjustment type; a
      success changes the named field of that user alone (by +amount, -amount
      or to amount) and records one completed admin_adjustment transaction. */
  lemma AdjustBalanceOutcome(db: Db, adminId: string, userId: string, adjustmentType: string, f: BalanceField,
                             amount: real, notes: Option<string>, now: int, newId: string)
    ensures var r := AdjustBalance(db, adminId, userId, adjustmentType, f, amount, notes, now, newId);
      var i := FindUser(db.users, userId);
      && (i.None? ==> r.reply == Err(UserNotFound))
      && (i.Some? && !KnownAdjustment(adjustmentType) ==> r.reply == Err(InvalidAdjustment))
      && (r.reply.Ok? <==> i.Some? && KnownAdjustment(adjustmentType))
      && (r.reply.Ok? ==>
            var old_ := db.users[i.value].balances;
            var new_ := r.db.users[i.value].balances;
            && |r.db.users| == |db.users|
            && (forall j :: 0 <= j < |db.users| && j != i.value ==> r.db.users[j] == db.users[j])
            && r.db.users[i.value] == db.users[i.value].(balances := new_)
            && (forall g :: g != f ==> Get(new_, g) == Get(old_, g))
            && Get(new_, f) == (if adjustmentType == "add" then Get(old_, f) + amount
                               else if adjustmentType == "subtract" then Get(old_, f) - amount
                               else amount)
            && |r.db.transactions| == |db.transactions| + 1
            && r.db.transactions[..|db.transactions|] == db.transactions
            && r.db.transactions[|db.transactions|].kind == AdminAdjustment
            && r.db.transactions[|db.transactions|].status == TransactionStatus.Completed
            && r.db.transactions[|db.transactions|].amount == amount)
  {
    var r := AdjustBalance(db, adminId, userId, adjustmentType, f, amount, notes, now, newId);
    if r.reply.Ok? {
      var t := AdjustmentRecord(newId, userId, adjustmentType, f, amount, notes, adminId, now);
      assert (db.transactions + [t])[..|db.transactions|] == db.transactions;
    }
  }

  // ---------------------------------------------------------------- round trips

  /** A withdrawal followed by its rejection gives every user back exactly the
      balances it had; only the rejected transaction remains as a trace. */
  lemma {:induction false} WithdrawThenRejectRestores(db: Db, caller: string, amount: real, via: PaymentMethod,
                                                       feeProof: Option<string>, now: int, newId: string,
                                                       adminId: string, reason: Option<string>, later: int)
    requires FindUser(db.users, caller).Some?
    requires FindTransaction(db.transactions, Uuid(newId)).None?
    requires CreateWithdrawal(db, caller, amount, via, feeProof, now, newId).reply.Ok?
    ensures var db1 := CreateWithdrawal(db, caller, amount, via, feeProof, now, newId).db;
      var r := RejectTransaction(db1, adminId, Uuid(newId), reason, later);
      && r.reply.Ok?
      && r.db.users == db.users
      && r.db.investments == db.investments
      && |r.db.transactions| == |db.transactions| + 1
      && r.db.transactions[..|db.transactions|] == db.transactions
      && r.db.transactions[|db.transactions|].status == TransactionStatus.Rejected
  {
    var w := CreateWithdrawal(db, caller, amount, via, feeProof, now, newId);
    var db1 := w.db;
    var t := w.reply.value.transaction;
    var i := FindUser(db.users, caller).value;
    assert db1.transactions == db.transactions + [t];
    FindTransactionAppend(db.transactions, t);
    IncUserKeepsIds(db.users, caller, Increment(-amount, -amount, 0.0, 0.0), caller);
    var r := RejectTransaction(db1, adminId, Uuid(newId), reason, later);
    assert r.db.users == IncUser(db1.users, caller, Increment(amount, amount, 0.0, 0.0));
    assert r.db.users[i].balances == db.users[i].balances;
    assert r.db.users == db.users;
    assert r.db.transactions[..|db.transactions|] == db.transactions;
  }

  /** A deposit request changes no balance until approved; approving it
      credits its amount to brl_balance and available_for_withdrawal of the
      depositor, rejecting it leaves every balance as it was. */
  lemma {:induction false} DepositLifecycle(db: Db, caller: string, amount: real, via: PaymentMethod,
                                            proof: Option<string>, notes: Option<string>, now: int, newId: string,
                                            adminId: string, later: int)
    requires FindUser(db.users, caller).Some?
    requires FindTransaction(db.transactions, Uuid(newId)).None?
    ensures var db1 := CreateDeposit(db, caller, amount, via, proof, notes, now, newId).db;
      var i := FindUser(db.users, caller).value;
      var b := db.users[i].balances;
      var approved := ApproveTransaction(db1, adminId, Uuid(newId), later);
      var rejected := RejectTransaction(db1, adminId, Uuid(newId), None, later);
      && db1.users == db.users
      && approved.reply.Ok?
      && approved.db.users == db.users[i := db.users[i].(balances := b.(brl := b.brl + amount, available := b.available + amount))]
      && approved.db.transactions[|db.transactions|].status == TransactionStatus.Approved
      && rejected.reply.Ok?
      && rejected.db.users == db.users
      && rejected.db.transactions[|db.transactions|].status == TransactionStatus.Rejected
  {
    var t := DepositRecord(newId, caller, amount, via, proof, notes, now);
    FindTransactionAppend(db.transactions, t);
  }

  /** The approval guard does not refuse rejected transactions: a rejected
      deposit can later be approved, and then it is credited. */
  lemma {:induction false} RejectedDepositCanBeApproved(db: Db, caller: string, amount: real, via: PaymentMethod,
                                                        proof: Option<string>, notes: Option<string>, now: int,
                                                        newId: string, adminId: string, later: int)
    requires FindUser(db.users, caller).Some?
    requires FindTransaction(db.transactions, Uuid(newId)).None?
    ensures var db1 := CreateDeposit(db, caller, amount, via, proof, notes, now, newId).db;
      var db2 := RejectTransaction(db1, adminId, Uuid(newId), None, later).db;
      var r := ApproveTransaction(db2, adminId, Uuid(newId), later);
      var i := FindUser(db.users, caller).value;
      && db2.transactions[|db.transactions|].status == TransactionStatus.Rejected
      && r.reply.Ok?
      && r.db.users[i].balances.available == db.users[i].balances.available + amount
  {
    var t := DepositRecord(newId, caller, amount, via, proof, notes, now);
    var db1 := CreateDeposit(db, caller, amount, via, proof, notes, now, newId).db;
    FindTransactionAppend(db.transactions, t);
    var k := |db.transactions|;
    var t' := t.(status := TransactionStatus.Rejected, processedBy := Some(adminId), processedAt := Some(later));
    FindTransactionUpdate(db1.transactions, k, t', Uuid(newId));
  }

  /** update_withdrawal_status can move a rejected (already refunded)
      withdrawal back to pending, and a second rejection refunds it again:
      the user ends with `amount` more than before the withdrawal. */
  lemma {:induction false} SecondRefund(db: Db, caller: string, amount: real, via: PaymentMethod,
                                        feeProof: Option<string>, now: int, newId: string, adminId: string)
    requires FindUser(db.users, caller).Some?
    requires FindTransaction(db.transactions, Uuid(newId)).None?
    requires CreateWithdrawal(db, caller, amount, via, feeProof, now, newId).reply.Ok?
    ensures var db1 := CreateWithdrawal(db, caller, amount, via, feeProof, now, newId).db;
      var db2 := RejectTransaction(db1, adminId, Uuid(newId), None, now).db;
      var s := UpdateWithdrawalStatus(db2, adminId, Uuid(newId), "pending", now);
      var r := RejectTransaction(s.db, adminId, Uuid(newId), None, now);
      var i := FindUser(db.users, caller).value;
      && s.reply.Ok? && r.reply.Ok?
      && r.db.users[i].balances.available == db.users[i].balances.available + amount
      && r.db.users[i].balances.brl == db.users[i].balances.brl + amount
  {
    var id := Uuid(newId);
    var k := |db.transactions|;
    var db1 := CreateWithdrawal(db, caller, amount, via, feeProof, now, newId).db;
    WithdrawThenRejectRestores(db, caller, amount, via, feeProof, now, newId, adminId, None, now);
    var db2 := RejectTransaction(db1, adminId, id, None, now).db;
    var t := CreateWithdrawal(db, caller, amount, via, feeProof, now, newId).reply.value.transaction;
    FindTransactionAppend(db.transactions, t);
    assert FindTransaction(db1.transactions, id) == Some(k);
    FindTransactionUpdate(db1.transactions, k, db2.transactions[k], id);
    assert FindTransaction(db2.transactions, id) == Some(k);
    var s := UpdateWithdrawalStatus(db2, adminId, id, "pending", now);
    FindTransactionUpdate(db2.transactions, k, s.db.transactions[k], id);
    assert FindTransaction(s.db.transactions, id) == Some(k);
    assert s.db.users == db.users;
  }

  /** An "add" followed by a "subtract" of the same amount on the same field
      restores the user's balances. */
  lemma {:induction false} AddThenSubtractRestores(db: Db, adminId: string, userId: string, f: BalanceField, amount: real,
                                                   now: int, id1: string, id2: string)
    requires FindUser(db.users, userId).Some?
    ensures var db1 := AdjustBalance(db, adminId, userId, "add", f, amount, None, now, id1).db;
      var db2 := AdjustBalance(db1, adminId, userId, "subtract", f, amount, None, now, id2).db;
      db2.users == db.users && |db2.transactions| == |db.transactions| + 2
  {
    var i := FindUser(db.users, userId).value;
    var db1 := AdjustBalance(db, adminId, userId, "add", f, amount, None, now, id1).db;
    FindUserUpdate(db.users, i, db1.users[i], userId);
    var db2 := AdjustBalance(db1, adminId, userId, "subtract", f, amount, None, now, id2).db;
    var b := db.users[i].balances;
    var b2 := db2.users[i].balances;
    assert Get(b2, f) == Get(b, f);
    assert forall g :: Get(b2, g) == Get(b, g);
    assert b2 == b by {
      assert Get(b2, Brl) == Get(b, Brl) && Get(b2, Available) == Get(b, Available);
      assert Get(b2, Invested) == Get(b, Invested) && Get(b2, Returns) == Get(b, Returns);
      assert Get(b2, ReferralBonusField) == Get(b, ReferralBonusField) && Get(b2, Bonus) == Get(b, Bonus);
    }
    assert db2.users == db.users;
  }
}
