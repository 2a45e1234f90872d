/** The backend's database as one mutable object.  Each handler of
    backend/server.py and the profit tick of backend/scheduler.py becomes a
    method that performs the handler's reads, checks and writes in the
    handler's own order; its contract ties the new contents and the reply to
    the pure model of the same handler (modules Access, Ledger and
    Scheduler), where the properties are proved.  The token check that
    precedes a handler is `Access.CurrentUser` / `Access.AdminUser`; a
    method receives the id it resolved. */
module Backend {
  import opened Models
  import opened Access
  import opened Ledger
  import opened Scheduler

  class Server {
    var users: seq<User>
    var plans: seq<Plan>
    var investments: seq<Investment>
    var transactions: seq<Transaction>
    var settings: Option<Settings>

    /** The collections as one value. */
    function State(): Db
      reads this
    {
      Db(users, plans, investments, transactions, settings)
    }

    constructor (db: Db)
      ensures State() == db
    {
      users := db.users;
      plans := db.plans;
      investments := db.investments;
      transactions := db.transactions;
      settings := db.settings;
    }

    // ------------------------------------------------------------ users

    method Register(form: UserCreate, passwordHash: string, referralCode: string, newId: string, now: int)
      returns (r: Result<string>)
      modifies this
      ensures var s := Access.Register(old(State()), form, passwordHash, referralCode, newId, now);
        State() == s.db && r == s.reply
    {
      if FindUserByEmail(users, form.email).Some? {
        return Err(EmailTaken);
      }
      if FindUserByUsername(users, form.username).Some? {
        return Err(UsernameTaken);
      }
      if FindUserByReferralCode(users, referralCode).Some? {
        return Err(InternalError);
      }
      users := users + [NewUser(form, passwordHash, referralCode, newId, now)];
      return Ok(newId);
    }

    method UpdateProfile(caller: string, upd: UserUpdate) returns (r: Result<User>)
      requires FindUser(users, caller).Some?
      modifies this
      ensures var s := Access.UpdateProfile(old(State()), caller, upd);
        State() == s.db && r == s.reply
    {
      var i := FindUser(users, caller).value;
      if !IsEmptyUpdate(upd) {
        if ViolatesUniqueIndex(users, i, upd) {
          return Err(InternalError);
        }
        FindUserUpdate(users, i, ApplyUpdate(users[i], upd), caller);
        users := users[i := ApplyUpdate(users[i], upd)];
      }
      var j := FindUser(users, caller).value;
      return Ok(users[j]);
    }

    method ApproveUser(userId: string, now: int) returns (r: Result<()>)
      modifies this
      ensures var s := Access.ApproveUser(old(State()), userId, now);
        State() == s.db && r == s.reply
    {
      var i := FindUser(users, userId);
      if i.None? {
        return Err(UserNotFound);
      }
      users := users[i.value := users[i.value].(status := UserStatus.Active, approvedAt := Some(now), updatedAt := Some(now))];
      return Ok(());
    }

    method RejectUser(userId: string, now: int) returns (r: Result<()>)
      modifies this
      ensures var s := Access.RejectUser(old(State()), userId, now);
        State() == s.db && r == s.reply
    {
      var i := FindUser(users, userId);
      if i.None? {
        return Err(UserNotFound);
      }
      users := users[i.value := users[i.value].(status := UserStatus.Rejected, rejectedAt := Some(now), updatedAt := Some(now))];
      return Ok(());
    }

    // ------------------------------------------------------------ money

    method CreateInvestment(caller: string, planId: string, amount: real, now: int, newId: string)
      returns (r: Result<Investment>)
      requires FindUser(users, caller).Some?
      modifies this
      ensures var s := Ledger.CreateInvestment(old(State()), caller, planId, amount, now, newId);
        State() == s.db && r == s.reply
    {
      var p := FindPlan(plans, planId);
      if p.None? {
        return Err(PlanNotFound);
      }
      var plan := plans[p.value];
      if amount < plan.minAmount || amount > plan.maxAmount {
        return Err(AmountOutOfRange(plan.minAmount, plan.maxAmount));
      }
      if users[FindUser(users, caller).value].balances.available < amount {
        return Err(InsufficientBalance);
      }
      if plan.profitIntervalHours == 0 {
        return Err(InternalError);
      }
      var inv := NewInvestment(newId, caller, plan, amount, now);
      investments := investments + [inv];
      users := IncUser(users, caller, Increment(0.0, -amount, amount, 0.0));
      transactions := transactions + [PurchaseRecord(caller, plan, amount, now)];
      return Ok(inv);
    }

    method CreateDeposit(caller: string, amount: real, via: PaymentMethod, proof: Option<string>,
                         notes: Option<string>, now: int, newId: string) returns (r: Result<Transaction>)
      modifies this
      ensures var s := Ledger.CreateDeposit(old(State()), caller, amount, via, proof, notes, now, newId);
        State() == s.db && r == s.reply
    {
      var t := DepositRecord(newId, caller, amount, via, proof, notes, now);
      transactions := transactions + [t];
      return Ok(t);
    }

    method CreateWithdrawal(caller: string, amount: real, via: PaymentMethod, feeProof: Option<string>,
                            now: int, newId: string) returns (r: Result<WithdrawalReceipt>)
      requires FindUser(users, caller).Some?
      modifies this
      ensures var s := Ledger.CreateWithdrawal(old(State()), caller, amount, via, feeProof, now, newId);
        State() == s.db && r == s.reply
    {
      if settings.None? {
        return Err(InternalError);
      }
      var config := settings.value;
      if amount < config.minWithdrawal {
        return Err(BelowMinimumWithdrawal(config.minWithdrawal));
      }
      if users[FindUser(users, caller).value].balances.available < amount {
        return Err(InsufficientBalance);
      }
      if HasActiveInvestment(investments, caller) {
        return Err(ActiveInvestments);
      }
      users := IncUser(users, caller, Increment(-amount, -amount, 0.0, 0.0));
      var t := WithdrawalRecord(newId, caller, amount, via, feeProof, config, now);
      transactions := transactions + [t];
      return Ok(WithdrawalReceipt(t, config.withdrawalFee, config.withdrawalFeeMethod));
    }

    // ------------------------------------------------------------ admin decisions

    method ApproveTransaction(adminId: string, txnId: TxnId, now: int) returns (r: Result<()>)
      modifies this
      ensures var s := Ledger.ApproveTransaction(old(State()), adminId, txnId, now);
        State() == s.db && r == s.reply
    {
      var k := FindTransaction(transactions, txnId);
      if k.None? {
        return Err(TransactionNotFound);
      }
      var t := transactions[k.value];
      if t.status == TransactionStatus.Approved || t.status == TransactionStatus.Completed {
        return Err(AlreadyProcessed);
      }
      var status := if t.kind == Deposit then TransactionStatus.Approved else TransactionStatus.Completed;
      transactions := transactions[k.value := t.(status := status, processedBy := Some(adminId), processedAt := Some(now))];
      if t.kind == Deposit {
        users := IncUser(users, t.userId, Increment(t.amount, t.amount, 0.0, 0.0));
      }
      return Ok(());
    }

    method RejectTransaction(adminId: string, txnId: TxnId, reason: Option<string>, now: int) returns (r: Result<()>)
      modifies this
      ensures var s := Ledger.RejectTransaction(old(State()), adminId, txnId, reason, now);
        State() == s.db && r == s.reply
    {
      var k := FindTransaction(transactions, txnId);
      if k.None? {
        return Err(TransactionNotFound);
      }
      var t := transactions[k.value];
      if t.status == TransactionStatus.Approved || t.status == TransactionStatus.Rejected ||
         t.status == TransactionStatus.Completed {
        return Err(AlreadyProcessed);
      }
      if t.kind == Withdrawal {
        users := IncUser(users, t.userId, Increment(t.amount, t.amount, 0.0, 0.0));
      }
      var notes := if reason.Some? && reason.value != "" then Some(Text(reason.value)) else t.notes;
      transactions := transactions[k.value := t.(status := TransactionStatus.Rejected, processedBy := Some(adminId),
                                                 processedAt := Some(now), notes := notes)];
      return Ok(());
    }

    method UpdateWithdrawalStatus(adminId: string, txnId: TxnId, status: string, now: int) returns (r: Result<()>)
      modifies this
      ensures var s := Ledger.UpdateWithdrawalStatus(old(State()), adminId, txnId, status, now);
        State() == s.db && r == s.reply
    {
      var k := FindTransaction(transactions, txnId);
      if k.None? {
        return Err(TransactionNotFound);
      }
      var t := transactions[k.value];
      if t.kind != Withdrawal {
        return Err(OnlyWithdrawals);
      }
      var s := SettableStatus(status);
      if s.None? {
        return Err(InvalidStatus);
      }
      transactions := transactions[k.value := t.(status := s.value, processedBy := Some(adminId), processedAt := Some(now))];
      return Ok(());
    }

    method AdjustBalance(adminId: string, userId: string, adjustmentType: string, f: BalanceField,
                         amount: real, notes: Option<string>, now: int, newId: string) returns (r: Result<()>)
      modifies this
      ensures var s := Ledger.AdjustBalance(old(State()), adminId, userId, adjustmentType, f, amount, notes, now, newId);
        State() == s.db && r == s.reply
    {
      var i := FindUser(users, userId);
      if i.None? {
        return Err(UserNotFound);
      }
      var b := users[i.value].balances;
      var b' := b;
      if adjustmentType == "add" {
        b' := Set(b, f, Get(b, f) + amount);
      } else if adjustmentType == "subtract" {
        b' := Set(b, f, Get(b, f) - amount);
      } else if adjustmentType == "set" {
        b' := Set(b, f, amount);
      } else {
        return Err(InvalidAdjustment);
      }
      assert b' == Adjusted(b, adjustmentType, f, amount);
      var t := AdjustmentRecord(newId, userId, adjustmentType, f, amount, notes, adminId, now);
      assert Ledger.AdjustBalance(State(), adminId, userId, adjustmentType, f, amount, notes, now, newId)
        == Response(State().(users := users[i.value := users[i.value].(balances := b')], transactions := transactions + [t]), Ok(()));
      users := users[i.value := users[i.value].(balances := b')];
      transactions := transactions + [t];
      return Ok(());
    }

    // ------------------------------------------------------------ profit tick

    /** One pass of distribute_profits' loop: pays `inv`, with the two
        `$inc` updates of a final payment made one after the other. */
    method Pay(inv: Investment, now: int)
      modifies this
      ensures users == IncUser(old(users), inv.userId, Payout(inv))
      ensures investments == MarkPaid(old(investments), inv, now)
      ensures transactions == old(transactions) + [ProfitRecord(inv, now)]
      ensures plans == old(plans) && settings == old(settings)
    {
      var p := inv.profitPerCycle;
      PaymentSteps(users, inv);
      if inv.completedCycles + 1 >= inv.totalCycles {
        users := IncUser(users, inv.userId, Increment(p, p, 0.0, p));
        investments := MarkPaid(investments, inv, now);
        users := IncUser(users, inv.userId, Increment(inv.amount, inv.amount, -inv.amount, 0.0));
      } else {
        users := IncUser(users, inv.userId, Increment(p, p, 0.0, p));
        investments := MarkPaid(investments, inv, now);
      }
      transactions := transactions + [ProfitRecord(inv, now)];
    }

    /** distribute_profits: query the due investments, then pay each in turn. */
    method DistributeProfits(now: int)
      modifies this
      ensures State() == Tick(old(State()), now)
    {
      var due := Due(investments, now);
      ghost var users0, investments0, transactions0 := users, investments, transactions;
      var k := 0;
      while k < |due|
        invariant 0 <= k <= |due|
        invariant users == PayAll(users0, due[..k])
        invariant investments == MarkAll(investments0, due[..k], now)
        invariant transactions == transactions0 + ProfitRecords(due[..k], now)
        invariant plans == old(plans) && settings == old(settings)
      {
        Pay(due[k], now);
        StepFolds(users0, investments0, due, k, now);
        k := k + 1;
      }
      assert due[..|due|] == due;
    }
  }

  /** The source's updates of the owner in one payment amount to `Payout`:
      the profit alone, or on a final cycle the profit and then the
      principal. */
  lemma PaymentSteps(users: seq<User>, inv: Investment)
    ensures var p := inv.profitPerCycle;
      var profit := IncUser(users, inv.userId, Increment(p, p, 0.0, p));
      IncUser(users, inv.userId, Payout(inv)) ==
        if IsFinal(inv) then IncUser(profit, inv.userId, Increment(inv.amount, inv.amount, -inv.amount, 0.0))
        else profit
  {
    var p := inv.profitPerCycle;
    var principal := Increment(inv.amount, inv.amount, -inv.amount, 0.0);
    if IsFinal(inv) {
      IncUserTwice(users, inv.userId, Increment(p, p, 0.0, p), principal);
      assert Plus(Increment(p, p, 0.0, p), principal) == Payout(inv);
    } else {
      assert Payout(inv) == Increment(p, p, 0.0, p);
    }
  }

  /** One more due investment extends each of the three folds by one step. */
  lemma StepFolds(users: seq<User>, investments: seq<Investment>, due: seq<Investment>, k: nat, now: int)
    requires k < |due|
    ensures PayAll(users, due[..k + 1]) == IncUser(PayAll(users, due[..k]), due[k].userId, Payout(due[k]))
    ensures MarkAll(investments, due[..k + 1], now) == MarkPaid(MarkAll(investments, due[..k], now), due[k], now)
    ensures ProfitRecords(due[..k + 1], now) == ProfitRecords(due[..k], now) + [ProfitRecord(due[k], now)]
  {
    assert due[..k + 1][..k] == due[..k];
  }
}
