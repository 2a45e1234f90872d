// The transaction-history page (frontend/src/pages/History.js): the type
// filter, the labels and colours of each row, and the page's own state.

module History {
  import opened Models

  /** filteredTransactions: everything under "all", else exactly the
      transactions whose type is the filter, in the loaded order. */
  function Filtered(txns: seq<Transaction>, filter: string): (r: seq<Transaction>)
    ensures |r| <= |txns|
    ensures filter == "all" ==> r == txns
  {
    if filter == "all" then txns else OfType(txns, filter)
  }

  function OfType(txns: seq<Transaction>, filter: string): seq<Transaction> {
    Keep(txns, (t: Transaction) => t.kind.Name() == filter)
  }

  lemma FilteredExact(txns: seq<Transaction>, filter: string)
    requires filter != "all"
    ensures forall t :: t in Filtered(txns, filter) <==> t in txns && t.kind.Name() == filter
    ensures forall i :: 0 <= i < |Filtered(txns, filter)| ==> Filtered(txns, filter)[i].kind.Name() == filter
  {
    KeepMembers(txns, (t: Transaction) => t.kind.Name() == filter);
  }

  /** Under a type filter each transaction of that type is shown as often as
      it was loaded, and no other transaction is shown. */
  lemma FilteredCounts(txns: seq<Transaction>, filter: string, t: Transaction)
    requires filter != "all"
    ensures multiset(Filtered(txns, filter))[t] == if t.kind.Name() == filter then multiset(txns)[t] else 0
  {
    KeepCounts(txns, (t: Transaction) => t.kind.Name() == filter, t);
  }

  /** The shown rows are the loaded ones with some left out, order kept. */
  lemma FilteredSubsequence(txns: seq<Transaction>, filter: string)
    ensures Subsequence(Filtered(txns, filter), txns)
  {
    if filter == "all" {
      SubsequenceOfItself(txns);
    } else {
      KeepSubsequence(txns, (t: Transaction) => t.kind.Name() == filter);
    }
  }

  lemma FilteredIdempotent(txns: seq<Transaction>, filter: string)
    ensures Filtered(Filtered(txns, filter), filter) == Filtered(txns, filter)
  {
    if filter != "all" {
      KeepIdempotent(txns, (t: Transaction) => t.kind.Name() == filter);
    }
  }

  /** "all" is not the name of a type, so no type filter ever means "all". */
  lemma AllIsNoType(k: TransactionType)
    ensures k.Name() != "all"
  {
  }

  // ---------------------------------------------------------------- labels

  const TypeLabels: map<string, string> := map[
    "deposit" := "Depósito",
    "withdrawal" := "Saque",
    "investment" := "Investimento",
    "profit" := "Lucro",
    "referral_bonus" := "Bônus de Indicação",
    "admin_adjustment" := "Ajuste Admin"]

  /** getTypeLabel: the label of a known type, the type itself otherwise. */
  function TypeLabel(kind: string): string {
    if kind in TypeLabels && TypeLabels[kind] != "" then TypeLabels[kind] else kind
  }

  /** The label of each stored transaction type, by type. */
  function LabelOf(k: TransactionType): string {
    match k
    case Deposit => "Depósito"
    case Withdrawal => "Saque"
    case InvestmentPurchase => "Investimento"
    case Profit => "Lucro"
    case ReferralBonus => "Bônus de Indicação"
    case AdminAdjustment => "Ajuste Admin"
  }

  /** The six known types get their fixed labels; every other string is shown
      unchanged. */
  lemma TypeLabelCases(kind: string)
    ensures forall k: TransactionType :: TypeLabel(k.Name()) == LabelOf(k)
    ensures (forall k: TransactionType :: k.Name() != kind) ==> TypeLabel(kind) == kind
  {
    assert TypeLabels.Keys == {"deposit", "withdrawal", "investment", "profit", "referral_bonus", "admin_adjustment"};
    if kind in TypeLabels {
      assert kind == Deposit.Name() || kind == Withdrawal.Name() || kind == InvestmentPurchase.Name()
          || kind == Profit.Name() || kind == ReferralBonus.Name() || kind == AdminAdjustment.Name();
    }
  }

  /** Distinct known types get distinct labels. */
  lemma LabelsDistinct(k1: TransactionType, k2: TransactionType)
    requires k1 != k2
    ensures TypeLabel(k1.Name()) != TypeLabel(k2.Name())
  {
    TypeLabelCases(k1.Name());
  }

  /** An unknown type string equal to a label is shown like the type it names. */
  lemma LabelCollision()
    ensures TypeLabel("Saque") == TypeLabel(Withdrawal.Name())
  {
    TypeLabelCases("Saque");
  }

  // ---------------------------------------------------------------- colours

  const Gray := "bg-gray-500/10 text-gray-500"

  const StatusColors: map<string, string> := map[
    "pending" := "bg-yellow-500/10 text-yellow-500",
    "approved" := "bg-green-500/10 text-green-500",
    "rejected" := "bg-red-500/10 text-red-500",
    "completed" := "bg-blue-500/10 text-blue-500"]

  /** getStatusColor: the class of a known status, gray otherwise. */
  function StatusColor(status: string): string {
    if status in StatusColors && StatusColors[status] != "" then StatusColors[status] else Gray
  }

  /** Four statuses have their own colour; every other string, including the
      "processing" status a new withdrawal is stored with, is gray. */
  lemma StatusColorCases(status: string)
    ensures StatusColor(status) != Gray <==> status in {"pending", "approved", "rejected", "completed"}
    ensures StatusColor(TransactionStatus.Processing.Name()) == Gray
  {
    assert StatusColors.Keys == {"pending", "approved", "rejected", "completed"};
  }

  /** The three types shown as credits. */
  predicate IsCredit(kind: string) {
    kind in ["deposit", "profit", "referral_bonus"]
  }

  /** The sign printed before the amount. */
  function AmountSign(kind: string): string {
    if IsCredit(kind) then "+" else "-"
  }

  /** The colour class of the amount. */
  function AmountColor(kind: string): string {
    if IsCredit(kind) then "text-green-500"
    else if kind == "withdrawal" then "text-red-500"
    else ""
  }

  /** The sign is "+" exactly when the amount is green; red is reserved for
      withdrawals, which carry "-". */
  lemma SignAgreesWithColor(kind: string)
    ensures AmountSign(kind) == "+" <==> AmountColor(kind) == "text-green-500"
    ensures AmountColor(kind) == "text-red-500" <==> kind == "withdrawal"
    ensures AmountColor(kind) == "text-red-500" ==> AmountSign(kind) == "-"
  {
  }

  /** By stored type: deposits, profits and referral bonuses are credits;
      withdrawals, purchases and admin adjustments print "-", an adjustment
      even when it added to the balance. */
  lemma SignByType(k: TransactionType)
    ensures AmountSign(k.Name()) == "+" <==> k in {Deposit, Profit, ReferralBonus}
    ensures AmountColor(k.Name()) == (if k in {Deposit, Profit, ReferralBonus} then "text-green-500"
                                      else if k == Withdrawal then "text-red-500" else "")
  {
  }

  // ---------------------------------------------------------------- the page

  /** One row of the table. */
  datatype Row = Row(createdAt: int, typeLabel: string, sign: string, amountColor: string, amount: real,
                     status: string, statusColor: string, notes: Option<Note>)

  function RowOf(t: Transaction): Row {
    Row(t.createdAt, TypeLabel(t.kind.Name()), AmountSign(t.kind.Name()), AmountColor(t.kind.Name()),
        t.amount, t.status.Name(), StatusColor(t.status.Name()), t.notes)
  }

  /** What the page renders. */
  datatype View = Loading | NothingFound | Table(rows: seq<Row>)

  function Render(txns: seq<Transaction>, loading: bool, filter: string): (r: View)
    ensures r == Loading <==> loading
    ensures r.Table? ==> |r.rows| == |Filtered(txns, filter)| > 0
    ensures r.Table? ==> forall i :: 0 <= i < |r.rows| ==> r.rows[i] == RowOf(Filtered(txns, filter)[i])
    ensures r == NothingFound <==> !loading && Filtered(txns, filter) == []
  {
    var shown := Filtered(txns, filter);
    if loading then Loading
    else if |shown| == 0 then NothingFound
    else Table(seq(|shown|, i requires 0 <= i < |shown| => RowOf(shown[i])))
  }

  /** The History component's state: the loaded list, the loading flag and the filter. */
  class HistoryPage {
    var transactions: seq<Transaction>
    var loading: bool
    var filter: string

    constructor()
      ensures transactions == [] && loading && filter == "all"
    {
      transactions := [];
      loading := true;
      filter := "all";
    }

    function View(): View
      reads this
    {
      Render(transactions, loading, filter)
    }

    /** loadTransactions: `reply` is the response of GET /transactions, None
        when the request failed (the list is then left as it was). */
    method LoadTransactions(reply: Option<seq<Transaction>>)
      modifies this
      ensures transactions == (if reply.Some? then reply.value else old(transactions))
      ensures !loading && filter == old(filter)
    {
      if reply.Some? {
        transactions := reply.value;
      }
      loading := false;
    }

    /** A filter button. */
    method SetFilter(f: string)
      modifies this
      ensures filter == f && transactions == old(transactions) && loading == old(loading)
    {
      filter := f;
    }
  }
}
