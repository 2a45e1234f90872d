/** The records kept by the backend: users, investment plans, investments,
    transactions and the platform settings, with the enumerations of
    backend/models.py.  Amounts are exact reals; times are readings of an
    abstract integer clock counted in hours. */
module Models {

  datatype Option<T> = None | Some(value: T) {
    function GetOr(default: T): T {
      match this
      case Some(v) => v
      case None => default
    }
  }

  /** The outcome of a request handler: a value, or the failure that the
      handler raised as an HTTP error. */
  datatype Result<T> = Ok(value: T) | Err(failure: Failure)

  datatype UserStatus = Pending | Active | Suspended | Rejected {
    function Name(): string {
      match this
      case Pending => "pending"
      case Active => "active"
      case Suspended => "suspended"
      case Rejected => "rejected"
    }
  }

  datatype TransactionType =
    | Deposit | Withdrawal | InvestmentPurchase | Profit | ReferralBonus | AdminAdjustment
  {
    function Name(): string {
      match this
      case Deposit => "deposit"
      case Withdrawal => "withdrawal"
      case InvestmentPurchase => "investment"
      case Profit => "profit"
      case ReferralBonus => "referral_bonus"
      case AdminAdjustment => "admin_adjustment"
    }
  }

  /** The declared enumeration has four values; the withdrawal handlers also
      store "processing", so it is a fifth value here. */
  datatype TransactionStatus = Pending | Approved | Rejected | Completed | Processing {
    function Name(): string {
      match this
      case Pending => "pending"
      case Approved => "approved"
      case Rejected => "rejected"
      case Completed => "completed"
      case Processing => "processing"
    }
  }

  datatype PaymentMethod = Pix | Usdt | BybitUid

  datatype InvestmentStatus = Active | Completed | Cancelled

  /** The six balance fields of a user document. */
  datatype Balances = Balances(
    brl: real,            // brl_balance
    available: real,      // available_for_withdrawal
    invested: real,       // total_invested
    earned: real,         // total_returns
    referralBonus: real,  // referral_bonus
    bonus: real)          // bonus_balance

  datatype BalanceField = Brl | Available | Invested | Returns | ReferralBonusField | Bonus {
    function Key(): string {
      match this
      case Brl => "brl_balance"
      case Available => "available_for_withdrawal"
      case Invested => "total_invested"
      case Returns => "total_returns"
      case ReferralBonusField => "referral_bonus"
      case Bonus => "bonus_balance"
    }
  }

  function Get(b: Balances, f: BalanceField): real {
    match f
    case Brl => b.brl
    case Available => b.available
    case Invested => b.invested
    case Returns => b.earned
    case ReferralBonusField => b.referralBonus
    case Bonus => b.bonus
  }

  /** `b` with field `f` replaced by `v` and every other field kept. */
  function Set(b: Balances, f: BalanceField, v: real): (r: Balances)
    ensures Get(r, f) == v
    ensures forall g :: g != f ==> Get(r, g) == Get(b, g)
  {
    match f
    case Brl => b.(brl := v)
    case Available => b.(available := v)
    case Invested => b.(invested := v)
    case Returns => b.(earned := v)
    case ReferralBonusField => b.(referralBonus := v)
    case Bonus => b.(bonus := v)
  }

  const ZeroBalances := Balances(0.0, 0.0, 0.0, 0.0, 0.0, 0.0)

  datatype User = User(
    id: string,
    email: string,
    fullName: string,
    username: string,
    country: Option<string>,
    phone: Option<string>,
    cpf: Option<string>,
    pixKey: Option<string>,
    usdtWallet: Option<string>,
    password: string,          // the stored password hash
    status: UserStatus,
    isAdmin: bool,
    balances: Balances,
    referralCode: string,
    kycVerified: bool,
    kycPercentage: int,
    createdAt: int,
    memberSince: int,
    approvedAt: Option<int>,
    rejectedAt: Option<int>,
    updatedAt: Option<int>)

  /** The registration form (UserCreate). */
  datatype UserCreate = UserCreate(
    email: string,
    fullName: string,
    username: string,
    country: Option<string>,
    phone: Option<string>,
    cpf: Option<string>,
    pixKey: Option<string>,
    usdtWallet: Option<string>,
    password: string)

  /** A partial update of a user (UserUpdate): `None` fields are left alone. */
  datatype UserUpdate = UserUpdate(
    fullName: Option<string>,
    username: Option<string>,
    email: Option<string>,
    phone: Option<string>,
    cpf: Option<string>,
    pixKey: Option<string>,
    usdtWallet: Option<string>,
    country: Option<string>,
    status: Option<UserStatus>)

  datatype Plan = Plan(
    id: string,
    name: string,
    lockHours: int,
    minAmount: real,
    maxAmount: real,
    profitRate: real,
    profitIntervalHours: int,
    popular: bool,
    active: bool)

  datatype Investment = Investment(
    id: string,
    userId: string,
    planId: string,
    planName: string,
    amount: real,
    totalProfit: real,
    profitPerCycle: real,
    totalCycles: int,
    completedCycles: int,
    status: InvestmentStatus,
    startDate: int,
    endDate: int,
    lastProfitAt: Option<int>,
    nextProfitAt: int,
    createdAt: int)

  /** Transaction ids: a fresh uuid, or the "txn_{user}_{timestamp}" form used
      for investment and profit records, which repeats when one user gets two such
      records at the same clock reading. */
  datatype TxnId = Uuid(uuid: string) | Stamped(user: string, stamp: int)

  /** The notes of a transaction.  Formatted texts are kept by their
      parameters, since number formatting is not modelled. */
  datatype Note =
    | Text(text: string)                                  // free text
    | WithdrawalFee(fee: real, feeMethod: string)         // "Taxa de saque: R$ .. - Método: .."
    | PurchaseOf(planName: string)                        // "Investimento - <plan>"
    | FinalProfit(planName: string)                       // "Lucro final - <plan>"
    | CycleProfit(planName: string, cycle: int, total: int) // "Lucro automático - <plan> (Ciclo k/n)"
    | AdjustmentOf(adjustmentType: string, field: string)   // "Ajuste administrativo - <type> - <field>"

  datatype Transaction = Transaction(
    id: TxnId,
    userId: string,
    kind: TransactionType,
    amount: real,
    status: TransactionStatus,
    paymentMethod: Option<PaymentMethod>,
    paymentProof: Option<string>,
    notes: Option<Note>,
    processedBy: Option<string>,
    createdAt: int,
    processedAt: Option<int>)

  /** The platform settings document (payment-method directory left out). */
  datatype Settings = Settings(
    withdrawalFee: real,
    withdrawalFeeMethod: string,
    minDeposit: real,
    maxDeposit: real,
    minWithdrawal: real)

  /** The database: each collection in natural (insertion) order. */
  datatype Db = Db(
    users: seq<User>,
    plans: seq<Plan>,
    investments: seq<Investment>,
    transactions: seq<Transaction>,
    settings: Option<Settings>)

  /** What a handler did: the database afterwards and its reply. */
  datatype Response<T> = Response(db: Db, reply: Result<T>)

  /** Contents of an access token (create_access_token's payload). */
  datatype Claims = Claims(userId: string, email: string, admin: bool)

  /** Every HTTP error the core raises. */
  datatype Failure =
    | MissingToken          // 401 "Token não fornecido"
    | InvalidToken          // 401 "Token inválido ou expirado"
    | UnknownTokenUser      // 401 "Usuário não encontrado"
    | AdminsOnly            // 403 "Acesso negado. Apenas administradores."
    | EmailTaken            // 400 "Email já cadastrado"
    | UsernameTaken         // 400 "Nome de usuário já existe"
    | BadCredentials        // 401 "Email ou senha incorretos"
    | AwaitingApproval      // 403
    | AccountSuspended      // 403
    | AccountRejected       // 403
    | NotAdministrator      // 403 "Acesso negado. Não é administrador."
    | PlanNotFound          // 404
    | AmountOutOfRange(min: real, max: real)  // 400 "Valor deve estar entre .."
    | InsufficientBalance   // 400 "Saldo insuficiente"
    | BelowMinimumWithdrawal(min: real)       // 400 "Valor mínimo de saque: .."
    | ActiveInvestments     // 400
    | UserNotFound          // 404
    | InvalidAdjustment     // 400 "Tipo de ajuste inválido"
    | TransactionNotFound   // 404
    | AlreadyProcessed      // 400 "Transação já processada"
    | OnlyWithdrawals       // 400
    | InvalidStatus         // 400 "Status inválido"
    | InternalError         // 500, any other exception inside a handler
  {
    function Status(): int {
      match this
      case MissingToken | InvalidToken | UnknownTokenUser | BadCredentials => 401
      case AdminsOnly | AwaitingApproval | AccountSuspended | AccountRejected | NotAdministrator => 403
      case PlanNotFound | UserNotFound | TransactionNotFound => 404
      case InternalError => 500
      case _ => 400
    }
  }

  /** Index of the first element of `s` satisfying `p`: how find_one and
      update_one pick their document. */
  function FirstMatch<T>(s: seq<T>, p: T -> bool): (r: Option<nat>)
    ensures r.Some? ==> r.value < |s| && p(s[r.value])
    ensures r.Some? ==> forall j :: 0 <= j < r.value ==> !p(s[j])
    ensures r.None? <==> forall j :: 0 <= j < |s| ==> !p(s[j])
  {
    if s == [] then None
    else if p(s[0]) then Some(0)
    else
      match FirstMatch(s[1..], p)
      case None => None
      case Some(k) => Some(k + 1)
  }

  /** Replacing an element by one that `p` judges the same does not move the
      first match. */
  lemma {:induction false} FirstMatchUpdate<T>(s: seq<T>, i: nat, x: T, p: T -> bool)
    requires i < |s| && p(x) == p(s[i])
    ensures FirstMatch(s[i := x], p) == FirstMatch(s, p)
  {
    if i == 0 {
      assert s[i := x][1..] == s[1..];
    } else {
      assert s[i := x][0] == s[0];
      assert s[i := x][1..] == s[1..][i - 1 := x];
      FirstMatchUpdate(s[1..], i - 1, x, p);
    }
  }

  /** Appending a document does not move an existing first match, and is the
      first match when there was none and it matches. */
  lemma {:induction false} FirstMatchAppend<T>(s: seq<T>, x: T, p: T -> bool)
    ensures FirstMatch(s + [x], p) ==
      match FirstMatch(s, p)
      case Some(k) => Some(k)
      case None => if p(x) then Some(|s|) else None
  {
    if s != [] {
      assert (s + [x])[0] == s[0];
      assert (s + [x])[1..] == s[1..] + [x];
      FirstMatchAppend(s[1..], x, p);
    }
  }

  function FindUser(users: seq<User>, id: string): (r: Option<nat>)
    ensures r.Some? ==> r.value < |users| && users[r.value].id == id
  {
    FirstMatch(users, (u: User) => u.id == id)
  }

  function FindUserByEmail(users: seq<User>, email: string): (r: Option<nat>)
    ensures r.Some? ==> r.value < |users| && users[r.value].email == email
  {
    FirstMatch(users, (u: User) => u.email == email)
  }

  function FindUserByUsername(users: seq<User>, username: string): (r: Option<nat>)
    ensures r.Some? ==> r.value < |users| && users[r.value].username == username
  {
    FirstMatch(users, (u: User) => u.username == username)
  }

  function FindUserByReferralCode(users: seq<User>, code: string): (r: Option<nat>)
    ensures r.Some? ==> r.value < |users| && users[r.value].referralCode == code
  {
    FirstMatch(users, (u: User) => u.referralCode == code)
  }

  function FindPlan(plans: seq<Plan>, id: string): (r: Option<nat>)
    ensures r.Some? ==> r.value < |plans| && plans[r.value].id == id
  {
    FirstMatch(plans, (p: Plan) => p.id == id)
  }

  function FindInvestment(investments: seq<Investment>, id: string): (r: Option<nat>)
    ensures r.Some? ==> r.value < |investments| && investments[r.value].id == id
  {
    FirstMatch(investments, (i: Investment) => i.id == id)
  }

  function FindTransaction(txns: seq<Transaction>, id: TxnId): (r: Option<nat>)
    ensures r.Some? ==> r.value < |txns| && txns[r.value].id == id
  {
    FirstMatch(txns, (t: Transaction) => t.id == id)
  }

  /** Changing a user other than by its id keeps every id lookup in place. */
  lemma FindUserUpdate(users: seq<User>, i: nat, u: User, id: string)
    requires i < |users| && u.id == users[i].id
    ensures FindUser(users[i := u], id) == FindUser(users, id)
  {
    FirstMatchUpdate(users, i, u, (v: User) => v.id == id);
  }

  lemma FindTransactionUpdate(txns: seq<Transaction>, i: nat, t: Transaction, id: TxnId)
    requires i < |txns| && t.id == txns[i].id
    ensures FindTransaction(txns[i := t], id) == FindTransaction(txns, id)
  {
    FirstMatchUpdate(txns, i, t, (v: Transaction) => v.id == id);
  }

  lemma FindTransactionAppend(txns: seq<Transaction>, t: Transaction)
    requires FindTransaction(txns, t.id).None?
    ensures FindTransaction(txns + [t], t.id) == Some(|txns|)
  {
    FirstMatchAppend(txns, t, (v: Transaction) => v.id == t.id);
  }

  /** Python's `a // b` (floor division), for b != 0. */
  function FloorDiv(a: int, b: int): (q: int)
    requires b != 0
    ensures b > 0 ==> q * b <= a < q * b + b
    ensures b < 0 ==> q * b >= a > q * b + b
  {
    if b > 0 then a / b else (-a) / (-b)
  }

  // ------------------------------------------------------------- filtering

  /** The elements of `xs` that satisfy `p`, in their original order: a Mongo
      `find` with an equality query, or JavaScript's `Array.prototype.filter`. */
  function Keep<T(!new)>(xs: seq<T>, p: T -> bool): (r: seq<T>)
    ensures |r| <= |xs|
    ensures forall i :: 0 <= i < |r| ==> p(r[i])
  {
    if xs == [] then []
    else (if p(xs[0]) then [xs[0]] else []) + Keep(xs[1..], p)
  }

  /** Each element that passes the test is kept as often as it occurs, and
      no other element is kept. */
  lemma {:induction false} KeepCounts<T(!new)>(xs: seq<T>, p: T -> bool, x: T)
    ensures multiset(Keep(xs, p))[x] == if p(x) then multiset(xs)[x] else 0
  {
    if xs != [] {
      KeepCounts(xs[1..], p, x);
      assert xs == [xs[0]] + xs[1..];
    }
  }

  /** Exactly the elements that pass the test are kept. */
  lemma {:induction false} KeepMembers<T(!new)>(xs: seq<T>, p: T -> bool)
    ensures forall x :: x in Keep(xs, p) <==> x in xs && p(x)
  {
    if xs != [] {
      KeepMembers(xs[1..], p);
      assert xs == [xs[0]] + xs[1..];
    }
  }

  /** Nothing passes, nothing is kept. */
  lemma {:induction false} KeepNothing<T(!new)>(xs: seq<T>, p: T -> bool)
    requires forall i :: 0 <= i < |xs| ==> !p(xs[i])
    ensures Keep(xs, p) == []
  {
    if xs != [] {
      KeepNothing(xs[1..], p);
    }
  }

  /** `a` is `b` with some elements left out and the rest in the same order. */
  predicate Subsequence<T(==)>(a: seq<T>, b: seq<T>)
    decreases |b|
  {
    if b == [] then a == []
    else (a != [] && a[0] == b[0] && Subsequence(a[1..], b[1..])) || Subsequence(a, b[1..])
  }

  lemma {:induction false} KeepSubsequence<T(!new)>(xs: seq<T>, p: T -> bool)
    ensures Subsequence(Keep(xs, p), xs)
  {
    if xs != [] {
      KeepSubsequence(xs[1..], p);
      if p(xs[0]) {
        assert Keep(xs, p)[0] == xs[0] && Keep(xs, p)[1..] == Keep(xs[1..], p);
      } else {
        assert Keep(xs, p) == Keep(xs[1..], p);
      }
    }
  }

  /** Filtering twice by the same test is filtering once. */
  lemma KeepIdempotent<T(!new)>(xs: seq<T>, p: T -> bool)
    ensures Keep(Keep(xs, p), p) == Keep(xs, p)
  {
    KeepEverything(Keep(xs, p), p);
  }

  /** A test that every element passes keeps the whole sequence. */
  lemma {:induction false} KeepEverything<T(!new)>(xs: seq<T>, p: T -> bool)
    requires forall x :: x in xs ==> p(x)
    ensures Keep(xs, p) == xs
  {
    if xs != [] {
      KeepEverything(xs[1..], p);
    }
  }

  /** Filtering by a conjunction is filtering by one test, then the other. */
  lemma {:induction false} KeepConjunction<T(!new)>(xs: seq<T>, p: T -> bool, q: T -> bool, both: T -> bool)
    requires forall x :: both(x) == (p(x) && q(x))
    ensures Keep(xs, both) == Keep(Keep(xs, p), q)
  {
    if xs != [] {
      KeepConjunction(xs[1..], p, q, both);
      assert both(xs[0]) == (p(xs[0]) && q(xs[0]));
      if p(xs[0]) {
        var k := Keep(xs, p);
        assert k[0] == xs[0] && k[1..] == Keep(xs[1..], p);
      } else {
        assert Keep(xs, p) == Keep(xs[1..], p);
      }
    }
  }

  lemma {:induction false} SubsequenceOfItself<T>(xs: seq<T>)
    ensures Subsequence(xs, xs)
  {
    if xs != [] {
      SubsequenceOfItself(xs[1..]);
    }
  }
}
