/**
 * The client-side wallet rules: top-up and withdrawal request validation,
 * the status and type display mappings, the signed amount, and the query of
 * the transaction-history request. Amounts are whole numbers of VND.
 */
module WalletApi {
  import opened Wrappers
  import opened JsText
  import opened QueryString
  import opened ErrorLists

  const MinTopup: int := 10000
  const MaxTopup: int := 10000000
  const MinWithdraw: int := 50000
  const MaxNoteLength: nat := 500

  datatype TopupRequest = TopupRequest(amount: int, note: Option<string>)

  datatype WithdrawRequest = WithdrawRequest(
    amount: int, bankAccount: string, bankName: string, accountHolder: string, note: Option<string>)

  /** The validation errors, declared in the order the checks run. */
  datatype WalletError =
    | BelowTopupMinimum | AboveTopupMaximum
    | BelowWithdrawMinimum | AboveBalance
    | BankAccountRequired | BankNameRequired | AccountHolderRequired
    | NoteTooLong

  /** The text each error is reported with. */
  function Text(e: WalletError): string {
    match e
    case BelowTopupMinimum => "Amount must be at least 10,000 VND"
    case AboveTopupMaximum => "Amount cannot exceed 10,000,000 VND"
    case BelowWithdrawMinimum => "Amount must be at least 50,000 VND"
    case AboveBalance => "Amount cannot exceed current balance"
    case BankAccountRequired => "Bank account is required"
    case BankNameRequired => "Bank name is required"
    case AccountHolderRequired => "Account holder is required"
    case NoteTooLong => "Note cannot exceed 500 characters"
  }

  /** The position of each check in the validators' order. */
  function Rank(e: WalletError): nat {
    match e
    case BelowTopupMinimum => 0
    case AboveTopupMaximum => 1
    case BelowWithdrawMinimum => 2
    case AboveBalance => 3
    case BankAccountRequired => 4
    case BankNameRequired => 5
    case AccountHolderRequired => 6
    case NoteTooLong => 7
  }

  /** `note && note.length > 500` (an empty note is falsy, and short anyway). */
  predicate LongNote(note: Option<string>) {
    note.Some? && |note.value| > MaxNoteLength
  }

  /** `!x || x.trim().length === 0`: empty, or nothing but white space. */
  predicate Blank(s: string) {
    AllSpace(s)
  }

  /** The white-space reading agrees with trimming to nothing. */
  lemma BlankIsEmptyTrim(s: string)
    ensures Blank(s) <==> (s == "" || |Trim(s)| == 0)
  {
  }

  /** The checks `validateTopupData` runs, in order, each with the error it pushes. */
  function TopupChecks(data: TopupRequest): seq<(bool, WalletError)> {
    [ (data.amount < MinTopup, BelowTopupMinimum),
      (data.amount > MaxTopup, AboveTopupMaximum),
      (LongNote(data.note), NoteTooLong) ]
  }

  /** `validateTopupData`: pushes the error of each failing check, in order. */
  method ValidateTopupData(data: TopupRequest) returns (errors: seq<WalletError>)
    ensures errors == Failures(TopupChecks(data))
  {
    errors := [];
    if data.amount == 0 || data.amount < MinTopup {
      errors := errors + [BelowTopupMinimum];
    }
    if data.amount > MaxTopup {
      errors := errors + [AboveTopupMaximum];
    }
    if data.note.Some? && data.note.value != "" && |data.note.value| > MaxNoteLength {
      errors := errors + [NoteTooLong];
    }
    Failures3(TopupChecks(data));
  }

  /** A top-up is accepted exactly within the bounds and with a short enough note; each error names its check. */
  lemma TopupErrorsExact(data: TopupRequest)
    ensures var errors := Failures(TopupChecks(data));
            && (errors == [] <==> MinTopup <= data.amount <= MaxTopup && !LongNote(data.note))
            && (BelowTopupMinimum in errors <==> data.amount < MinTopup)
            && (AboveTopupMaximum in errors <==> data.amount > MaxTopup)
            && (NoteTooLong in errors <==> LongNote(data.note))
            && (forall e :: e in errors ==> e in {BelowTopupMinimum, AboveTopupMaximum, NoteTooLong})
            && Ascending(errors, Rank)
            && (data.amount == 0 ==> errors[0] == BelowTopupMinimum)
  {
    var c := TopupChecks(data);
    Failures3(c);
    FailuresSorted(c, Rank);
    FailedExactly(c, Rank);
  }

  /** The checks `validateWithdrawData` runs, in order. */
  function WithdrawChecks(data: WithdrawRequest, currentBalance: int): seq<(bool, WalletError)> {
    [ (data.amount < MinWithdraw, BelowWithdrawMinimum),
      (data.amount > currentBalance, AboveBalance),
      (Blank(data.bankAccount), BankAccountRequired),
      (Blank(data.bankName), BankNameRequired),
      (Blank(data.accountHolder), AccountHolderRequired),
      (LongNote(data.note), NoteTooLong) ]
  }

  /** `validateWithdrawData`: pushes the error of each failing check, in order. */
  method ValidateWithdrawData(data: WithdrawRequest, currentBalance: int) returns (errors: seq<WalletError>)
    ensures errors == Failures(WithdrawChecks(data, currentBalance))
  {
    ghost var c := WithdrawChecks(data, currentBalance);
    errors := [];
    if data.amount == 0 || data.amount < MinWithdraw {
      errors := errors + [BelowWithdrawMinimum];
    }
    ghost var listed := When(c[0].0, c[0].1);
    assert errors == listed;
    if data.amount > currentBalance {
      errors := errors + [AboveBalance];
    }
    listed := listed + When(c[1].0, c[1].1);
    assert errors == listed;
    if Blank(data.bankAccount) {
      errors := errors + [BankAccountRequired];
    }
    listed := listed + When(c[2].0, c[2].1);
    assert errors == listed;
    if Blank(data.bankName) {
      errors := errors + [BankNameRequired];
    }
    listed := listed + When(c[3].0, c[3].1);
    assert errors == listed;
    if Blank(data.accountHolder) {
      errors := errors + [AccountHolderRequired];
    }
    listed := listed + When(c[4].0, c[4].1);
    assert errors == listed;
    if data.note.Some? && data.note.value != "" && |data.note.value| > MaxNoteLength {
      errors := errors + [NoteTooLong];
    }
    Failures6(c);
  }

  /** The withdrawal checks report errors of rising rank. */
  lemma WithdrawRanked(data: WithdrawRequest, currentBalance: int)
    ensures RankedInOrder(WithdrawChecks(data, currentBalance), Rank)
  {
  }

  /** A withdrawal is accepted exactly when every check passes. */
  lemma WithdrawAccepted(data: WithdrawRequest, currentBalance: int)
    ensures Failures(WithdrawChecks(data, currentBalance)) == [] <==>
              && MinWithdraw <= data.amount <= currentBalance
              && !Blank(data.bankAccount) && !Blank(data.bankName) && !Blank(data.accountHolder)
              && !LongNote(data.note)
  {
    var c := WithdrawChecks(data, currentBalance);
    assert c[0].0 == (data.amount < MinWithdraw) && c[1].0 == (data.amount > currentBalance);
    assert c[2].0 == Blank(data.bankAccount) && c[3].0 == Blank(data.bankName);
    assert c[4].0 == Blank(data.accountHolder) && c[5].0 == LongNote(data.note);
  }

  /**
   * Each withdrawal error is listed exactly when its own check fails; the
   * minimum and the balance are checked independently, so both can fail together.
   */
  lemma WithdrawErrorsNamed(data: WithdrawRequest, currentBalance: int)
    ensures var errors := Failures(WithdrawChecks(data, currentBalance));
            && (BelowWithdrawMinimum in errors <==> data.amount < MinWithdraw)
            && (AboveBalance in errors <==> data.amount > currentBalance)
            && (BankAccountRequired in errors <==> Blank(data.bankAccount))
            && (BankNameRequired in errors <==> Blank(data.bankName))
            && (AccountHolderRequired in errors <==> Blank(data.accountHolder))
            && (NoteTooLong in errors <==> LongNote(data.note))
            && BelowTopupMinimum !in errors && AboveTopupMaximum !in errors
  {
    var c := WithdrawChecks(data, currentBalance);
    WithdrawRanked(data, currentBalance);
    Reported(c, Rank, 0, data.amount < MinWithdraw, BelowWithdrawMinimum);
    Reported(c, Rank, 1, data.amount > currentBalance, AboveBalance);
    Reported(c, Rank, 2, Blank(data.bankAccount), BankAccountRequired);
    Reported(c, Rank, 3, Blank(data.bankName), BankNameRequired);
    Reported(c, Rank, 4, Blank(data.accountHolder), AccountHolderRequired);
    Reported(c, Rank, 5, LongNote(data.note), NoteTooLong);
    NeverReported(c, BelowTopupMinimum);
    NeverReported(c, AboveTopupMaximum);
  }

  /** The withdrawal errors come in the order the checks run. */
  lemma WithdrawErrorsOrdered(data: WithdrawRequest, currentBalance: int)
    ensures Ascending(Failures(WithdrawChecks(data, currentBalance)), Rank)
  {
    WithdrawRanked(data, currentBalance);
    FailuresSorted(WithdrawChecks(data, currentBalance), Rank);
  }

  /** With a balance under the minimum, an amount between the two fails both amount checks. */
  lemma BothAmountErrors(data: WithdrawRequest, currentBalance: int)
    requires currentBalance < data.amount < MinWithdraw
    ensures var errors := Failures(WithdrawChecks(data, currentBalance));
            |errors| >= 2 && errors[..2] == [BelowWithdrawMinimum, AboveBalance]
  {
    Failures6(WithdrawChecks(data, currentBalance));
  }

  const Yellow := "text-yellow-600 bg-yellow-100"
  const Green := "text-green-600 bg-green-100"
  const Red := "text-red-600 bg-red-100"
  const Gray := "text-gray-600 bg-gray-100"

  /** `getTransactionStatusColor`: settled-good, settled-bad, pending, and gray for the rest. */
  function TransactionStatusColor(status: string): (c: string)
    ensures c == Green <==> status == "approved" || status == "completed"
    ensures c == Red <==> status == "rejected" || status == "failed"
    ensures c == Yellow <==> status == "pending"
    ensures c == Gray <==> status !in {"pending", "approved", "completed", "rejected", "failed"}
  {
    match status
    case "pending" => Yellow
    case "approved" => Green
    case "completed" => Green
    case "rejected" => Red
    case "failed" => Red
    case "cancelled" => Gray
    case _ => Gray
  }

  const TransactionTypes: seq<string> := ["TOPUP", "WITHDRAW", "GIFT", "REWARD", "REFERRAL"]

  /** `getTransactionTypeIcon`. */
  function TransactionTypeIcon(kind: string): (icon: string)
    ensures kind !in TransactionTypes ==> icon == "\U{1F4B0}"
  {
    match kind
    case "TOPUP" => "\U{2197}\U{FE0F}"
    case "WITHDRAW" => "\U{2199}\U{FE0F}"
    case "GIFT" => "\U{1F381}"
    case "REWARD" => "\U{1F3C6}"
    case "REFERRAL" => "\U{1F465}"
    case _ => "\U{1F4B0}"
  }

  /** `getTransactionTypeColor`. */
  function TransactionTypeColor(kind: string): (c: string)
    ensures kind !in TransactionTypes ==> c == "text-gray-600"
  {
    match kind
    case "TOPUP" => "text-green-600"
    case "WITHDRAW" => "text-red-600"
    case "GIFT" => "text-purple-600"
    case "REWARD" => "text-blue-600"
    case "REFERRAL" => "text-orange-600"
    case _ => "text-gray-600"
  }

  /** Each transaction type has its own icon and colour, and neither is the fallback. */
  lemma TypeMappingsDistinct()
    ensures forall i, j :: 0 <= i < j < |TransactionTypes| ==>
              TransactionTypeIcon(TransactionTypes[i]) != TransactionTypeIcon(TransactionTypes[j]) &&
              TransactionTypeColor(TransactionTypes[i]) != TransactionTypeColor(TransactionTypes[j])
    ensures forall i :: 0 <= i < |TransactionTypes| ==>
              TransactionTypeIcon(TransactionTypes[i]) != "\U{1F4B0}" &&
              TransactionTypeColor(TransactionTypes[i]) != "text-gray-600"
  {
    assert TransactionTypes[0] == "TOPUP" && TransactionTypes[1] == "WITHDRAW";
    assert TransactionTypes[2] == "GIFT" && TransactionTypes[3] == "REWARD" && TransactionTypes[4] == "REFERRAL";
    assert TransactionTypeIcon("TOPUP") == "\U{2197}\U{FE0F}" && TransactionTypeIcon("WITHDRAW") == "\U{2199}\U{FE0F}";
    assert TransactionTypeIcon("GIFT") == "\U{1F381}" && TransactionTypeIcon("REWARD") == "\U{1F3C6}";
    assert TransactionTypeIcon("REFERRAL") == "\U{1F465}";
    assert TransactionTypeColor("TOPUP") == "text-green-600" && TransactionTypeColor("WITHDRAW") == "text-red-600";
    assert TransactionTypeColor("GIFT") == "text-purple-600" && TransactionTypeColor("REWARD") == "text-blue-600";
    assert TransactionTypeColor("REFERRAL") == "text-orange-600";
  }

  /** What `formatCurrency` is asked to format (the locale's rendering is not modelled). */
  datatype Currency = Vnd(value: int)

  datatype SignedAmount = SignedAmount(sign: char, amount: Currency)

  /** The types that credit the wallet. */
  predicate Credits(kind: string) {
    kind == "TOPUP" || kind == "REWARD" || kind == "REFERRAL"
  }

  /** A credited or debited amount as shown: the sign from the type, the magnitude from the amount. */
  function FormatTransactionAmount(kind: string, amount: int): (r: SignedAmount)
    ensures r.sign == '+' <==> Credits(kind)
    ensures r.sign == '-' <==> !Credits(kind)
    ensures r.amount.value >= 0
    ensures r.amount.value == amount || r.amount.value == -amount
  {
    SignedAmount(if Credits(kind) then '+' else '-', Vnd(if amount < 0 then -amount else amount))
  }

  /** The sign and the magnitude shown give back the signed change to the balance when amounts are stored unsigned. */
  lemma SignedAmountValue(kind: string, amount: int)
    requires amount >= 0
    ensures var r := FormatTransactionAmount(kind, amount);
            (if r.sign == '+' then r.amount.value else -r.amount.value) ==
            (if Credits(kind) then amount else -amount)
  {
  }

  datatype TransactionQuery = TransactionQuery(
    page: Option<int>, limit: Option<int>, kind: Option<string>, status: Option<string>)

  /** The history request's parameters, in the order they are considered. */
  function HistoryCandidates(p: TransactionQuery): seq<Candidate> {
    [("page", NumberValue(p.page)), ("limit", NumberValue(p.limit)), ("type", p.kind), ("status", p.status)]
  }

  const TransactionsEndpoint := "/wallet/transactions"

  /** `getTransactionHistory`'s query: only the truthy parameters, page, limit, type, status in that order. */
  method TransactionHistoryQuery(p: TransactionQuery) returns (query: seq<Param>, url: string)
    ensures query == Present(HistoryCandidates(p))
    ensures url == TransactionsEndpoint + "?" + Serialize(query)
  {
    ghost var c := HistoryCandidates(p);
    query := [];
    if p.page.Some? && p.page.value != 0 {
      query := query + [Param("page", IntToString(p.page.value))];
    }
    assert query == Head(c[0]);
    if p.limit.Some? && p.limit.value != 0 {
      query := query + [Param("limit", IntToString(p.limit.value))];
    }
    assert query == Head(c[0]) + Head(c[1]);
    if p.kind.Some? && p.kind.value != "" {
      query := query + [Param("type", p.kind.value)];
    }
    if p.status.Some? && p.status.value != "" {
      query := query + [Param("status", p.status.value)];
    }
    url := TransactionsEndpoint + "?" + Serialize(query);
    Present4(c);
  }
}
