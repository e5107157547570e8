/**
 * The message processor of the debt worker (src/MessageProcessor.ts): the dispatcher
 * that routes a message by its type, the add handler that validates a new debt and
 * stores it, and the payment handler that checks ownership, clamps an overpayment,
 * writes the payment annotation and asks the transaction service to record it.
 */
module MessageProcessor {
  import opened Wrappers
  import opened Text
  import opened Validator
  import opened Ledger

  // ---------------------------------------------------------------- messages

  /** Settings read from the environment when the class loads. */
  datatype Config = Config(transactionQueue: string)

  /** The type tag the payment handler gives its (placeholder) transaction request. */
  const TransactionRequestKind := "testerino"

  datatype CreateDebtRequest = CreateDebtRequest(userId: string, loaner: string, amount: Amount, concept: string, date: string)

  datatype PayDebtRequest = PayDebtRequest(userId: string, debtId: DebtId, amount: Amount)

  /** The payload of a message: the fields of one of the two requests. */
  datatype Payload = AddPayload(create: CreateDebtRequest) | PaymentPayload(pay: PayDebtRequest)

  datatype Message = Message(kind: string, payload: Payload)

  /** What an error response carries besides its text: field errors, the cause of a failure, or nothing. */
  datatype Detail = NoDetail | FieldErrors(errors: map<string, string>) | Cause(cause: string)

  /** The response message: a debt with its type and status, or an error message with its status. */
  datatype Response =
    | Respond(debt: Debt, kind: string, status: int)
    | ErrorMessage(message: string, status: int, detail: Detail)

  /** The status AmqpMessage.errorMessage uses when none is given. */
  const DefaultErrorStatus := 400

  const InvalidFields := "Invalid Fields"
  const AuthenticationError := "Authentication Error"

  /** The response to any failure a handler catches. */
  function Unexpected(cause: string): Response {
    ErrorMessage("Unexpected error", 500, Cause(cause))
  }

  function UnsupportedMessage(kind: string): string {
    "Unsupported function type: " + kind
  }

  // ---------------------------------------------------------------- dispatch

  datatype Handler = ToAddDebt | ToPayDebt | NoHandler

  /** The switch of `process`: "add" and "debt-payment" have handlers, every other type has none. */
  function Route(kind: string): (h: Handler)
    ensures h == ToAddDebt <==> kind == "add"
    ensures h == ToPayDebt <==> kind == "debt-payment"
  {
    if kind == "add" then ToAddDebt
    else if kind == "debt-payment" then ToPayDebt
    else NoHandler
  }

  // ---------------------------------------------------------------- adding a debt

  /**
   * The error map addDebt reports. The concept and date checks merge the errors of the
   * amount check instead of their own, so only the loaner and the amount can fail a request.
   */
  function ReportedErrors(request: CreateDebtRequest): (errors: map<string, string>)
    ensures errors.Keys <= {"loaner", "amount"}
    ensures "loaner" in errors <==> AllWhitespace(request.loaner)
    ensures "amount" in errors <==> request.amount.NotANumber?
    ensures errors == map[] <==> !AllWhitespace(request.loaner) && request.amount.Cents?
  {
    var loaner := ValidateLoaner(request.loaner);
    var amount := ValidateAmount(request.amount);
    assert !loaner.valid ==> "loaner" in loaner.errors;
    loaner.errors + amount.errors
  }

  /** The error map addDebt would report if each check merged its own errors (a passing check has none). */
  function PerFieldErrors(request: CreateDebtRequest): (errors: map<string, string>)
    ensures errors.Keys <= {"loaner", "amount", "concept", "date"}
    ensures "loaner" in errors <==> AllWhitespace(request.loaner)
    ensures "amount" in errors <==> request.amount.NotANumber?
    ensures "concept" in errors <==> AllWhitespace(request.concept)
    ensures "date" in errors <==> !ValidateDate(request.date).valid
  {
    var loaner := ValidateLoaner(request.loaner);
    var amount := ValidateAmount(request.amount);
    var concept := ValidateConcept(request.concept);
    var date := ValidateDate(request.date);
    assert !loaner.valid ==> "loaner" in loaner.errors;
    assert !concept.valid ==> "concept" in concept.errors;
    assert !date.valid ==> "date" in date.errors;
    KeysOfSingleKeyMaps(loaner.errors, amount.errors, concept.errors, date.errors, "loaner", "amount", "concept", "date");
    loaner.errors + amount.errors + concept.errors + date.errors
  }

  /** The entries of `errors` whose field is in `fields`. */
  function Restrict(errors: map<string, string>, fields: set<string>): map<string, string> {
    map k | k in errors && k in fields :: errors[k]
  }

  /** The merge of four error maps, each with at most its own key, holds a key exactly when that key's map does. */
  lemma KeysOfSingleKeyMaps(
    first: map<string, string>, second: map<string, string>, third: map<string, string>, fourth: map<string, string>,
    k1: string, k2: string, k3: string, k4: string)
    requires first.Keys <= {k1} && second.Keys <= {k2} && third.Keys <= {k3} && fourth.Keys <= {k4}
    requires k1 != k2 && k1 != k3 && k1 != k4 && k2 != k3 && k2 != k4 && k3 != k4
    ensures var all := first + second + third + fourth;
      && all.Keys <= {k1, k2, k3, k4}
      && (k1 in all <==> k1 in first) && (k2 in all <==> k2 in second)
      && (k3 in all <==> k3 in third) && (k4 in all <==> k4 in fourth)
  {
  }

  /**
   * Of four error maps, each with at most its own key, restricting their merge to the
   * first two keys gives the merge of the first two maps.
   */
  lemma MergeOfSingleKeyMaps(
    first: map<string, string>, second: map<string, string>, third: map<string, string>, fourth: map<string, string>,
    k1: string, k2: string, k3: string, k4: string)
    requires first.Keys <= {k1} && second.Keys <= {k2} && third.Keys <= {k3} && fourth.Keys <= {k4}
    requires k3 !in {k1, k2, k4} && k4 !in {k1, k2, k3}
    ensures first + second == Restrict(first + second + third + fourth, {k1, k2})
  {
    var all := first + second + third + fourth;
    assert Restrict(all, {k1, k2}).Keys == (first + second).Keys;
  }

  /**
   * The reported errors are the per-field errors with the concept and date entries
   * dropped: a blank concept or a malformed date is not reported by the field checks.
   */
  lemma ReportedErrorsDropConceptAndDate(request: CreateDebtRequest)
    ensures ReportedErrors(request) == Restrict(PerFieldErrors(request), {"loaner", "amount"})
  {
    MergeOfSingleKeyMaps(
      ValidateLoaner(request.loaner).errors, ValidateAmount(request.amount).errors,
      ValidateConcept(request.concept).errors, ValidateDate(request.date).errors,
      "loaner", "amount", "concept", "date");
  }

  /** The debt record addDebt gives the store: rounded amount, trimmed concept and loaner, date and user as received. */
  function NewDebtRecord(request: CreateDebtRequest): (record: NewDebt)
    requires request.amount.Cents?
    ensures record.amount == request.amount.cents && record.date == request.date && record.userId == request.userId
    ensures record.concept == Trim(request.concept) && record.loaner == Trim(request.loaner)
  {
    NewDebt(
      ValidateAmount(request.amount).rounded.cents,
      ValidateConcept(request.concept).trimmed,
      request.date,
      ValidateLoaner(request.loaner).trimmed,
      request.userId)
  }

  /** The outcome of addDebt: a 422 and no write on any error, a 500 when the store fails, else the stored debt. */
  twostate predicate AddDebtDone(store: DebtStore, request: CreateDebtRequest, now: Timestamp, response: Response)
    reads store
  {
    var errors := ReportedErrors(request);
    if errors != map[] then
      response == ErrorMessage(InvalidFields, 422, FieldErrors(errors)) && unchanged(store)
    else if !old(store.online) then
      response == Unexpected(StoreUnavailable) && unchanged(store)
    else
      var debt := Created(NewDebtRecord(request), old(store.nextId), now);
      && response == Respond(debt, "add", 200)
      && store.debts == old(store.debts)[debt.id := debt]
      && store.nextId == old(store.nextId) + 1
      && store.online
  }

  /**
   * The four field checks of addDebt, in the source's order, collecting the errors the
   * way the source does: a failed concept or date check merges the amount check's errors.
   */
  method CheckNewDebt(request: CreateDebtRequest)
    returns (errors: map<string, string>, loanerValidation: TextValidation, amountValidation: AmountValidation,
      conceptValid: TextValidation)
    ensures errors == ReportedErrors(request)
    ensures loanerValidation == ValidateLoaner(request.loaner) && amountValidation == ValidateAmount(request.amount)
    ensures conceptValid == ValidateConcept(request.concept)
  {
    errors := map[];

    loanerValidation := ValidateLoaner(request.loaner);
    if !loanerValidation.valid { errors := errors + loanerValidation.errors; }

    amountValidation := ValidateAmount(request.amount);
    if !amountValidation.valid { errors := errors + amountValidation.errors; }
    MergeLaws(loanerValidation.errors, amountValidation.errors);
    var merged := loanerValidation.errors + amountValidation.errors;

    conceptValid := ValidateConcept(request.concept);
    if !conceptValid.valid { errors := errors + amountValidation.errors; }

    var dateValid := ValidateDate(request.date);
    if !dateValid.valid { errors := errors + amountValidation.errors; }
    assert errors == merged;
  }

  /** Merging into an empty map copies the map, and merging the same map a second time adds nothing. */
  lemma MergeLaws(first: map<string, string>, second: map<string, string>)
    ensures map[] + first == first
    ensures first + second + second == first + second
  {
  }

  /** addDebt. */
  method AddDebt(store: DebtStore, request: CreateDebtRequest, now: Timestamp) returns (response: Response)
    requires store.Valid()
    modifies store
    ensures store.Valid()
    ensures AddDebtDone(store, request, now, response)
  {
    var errors, loanerValidation, amountValidation, conceptValid := CheckNewDebt(request);
    if |errors| > 0 {
      return ErrorMessage(InvalidFields, 422, FieldErrors(errors));
    }

    var newDebt := store.Add(
      NewDebt(amountValidation.rounded.cents, conceptValid.trimmed, request.date, loanerValidation.trimmed, request.userId),
      now);
    if newDebt.Err? {
      return Unexpected(newDebt.error);
    }
    response := Respond(newDebt.value, "add", 200);
  }

  // ---------------------------------------------------------------- paying a debt

  /** `payments.reduce((a, b) => a + b.amount, 0)`: the amount already paid, summed from the first payment on. */
  function TotalPaid(payments: seq<Payment>): (total: int)
    ensures (forall i | 0 <= i < |payments| :: payments[i].amount >= 0) ==> total >= 0
    ensures (forall i | 0 <= i < |payments| :: payments[i].amount <= 0) ==> total <= 0
    decreases |payments|
  {
    if payments == [] then 0 else TotalPaid(payments[..|payments| - 1]) + payments[|payments| - 1].amount
  }

  /** The total over two runs of payments is the sum of their totals. */
  lemma {:induction false} TotalPaidAppend(first: seq<Payment>, second: seq<Payment>)
    ensures TotalPaid(first + second) == TotalPaid(first) + TotalPaid(second)
    decreases |second|
  {
    if second != [] {
      var all := first + second;
      var init := second[..|second| - 1];
      assert all[..|all| - 1] == first + init;
      assert all[|all| - 1] == second[|second| - 1];
      TotalPaidAppend(first, init);
    } else {
      assert first + second == first;
    }
  }

  /** Folding from the left is the same as adding the first payment to the total of the rest. */
  lemma TotalPaidFirst(payments: seq<Payment>)
    requires payments != []
    ensures TotalPaid(payments) == payments[0].amount + TotalPaid(payments[1..])
  {
    TotalPaidAppend([payments[0]], payments[1..]);
    assert [payments[0]] + payments[1..] == payments;
    assert [payments[0]][..0] == [];
  }

  /**
   * The part of a payment of `rounded` cents that is credited to a debt of `amount` cents
   * of which `totalPaid` is already paid: the payment, or the remainder if it would overpay.
   */
  function Credited(totalPaid: int, rounded: int, amount: int): (credited: int)
    ensures credited <= rounded
    ensures totalPaid + credited <= amount
    ensures credited == rounded || totalPaid + credited == amount
  {
    if totalPaid + rounded > amount then amount - totalPaid else rounded
  }

  /** A payment after the debt's own earlier ones, crediting what Credited allows, never takes the total past the debt. */
  lemma CreditKeepsDebtCovered(debt: Debt, rounded: int, transaction: string)
    ensures var paid := TotalPaid(debt.payments);
      var payments := debt.payments + [Payment(transaction, Credited(paid, rounded, debt.amount))];
      && TotalPaid(payments) <= debt.amount
      && (TotalPaid(payments) == debt.amount <==> paid + rounded >= debt.amount)
  {
    var paid := TotalPaid(debt.payments);
    TotalPaidAppend(debt.payments, [Payment(transaction, Credited(paid, rounded, debt.amount))]);
    assert [Payment(transaction, Credited(paid, rounded, debt.amount))][..0] == [];
  }

  /**
   * `newCredited + totalPaid` as the handler computes it: NaN stays NaN, and a number
   * comes out as the smaller of the debt's amount and what would be paid without the clamp.
   */
  function PaidSoFar(totalPaid: int, rounded: Amount, amount: int): (paid: Amount)
    ensures paid.NotANumber? <==> rounded.NotANumber?
    ensures paid.Cents? ==>
      && paid.cents <= amount && paid.cents <= totalPaid + rounded.cents
      && (paid.cents == amount || paid.cents == totalPaid + rounded.cents)
  {
    match rounded
    case NotANumber => NotANumber
    case Cents(r) => Cents(totalPaid + Credited(totalPaid, r, amount))
  }

  /** A figure with two decimals: digits, a point, then exactly two digits. */
  predicate FixedShaped(s: string) {
    |s| >= 4 && s[|s| - 3] == '.' && AllDigits(s[..|s| - 3]) && AllDigits(s[|s| - 2..])
  }

  /** The value in cents of a figure with two decimals. */
  function FixedValue(s: string): nat
    requires FixedShaped(s)
  {
    100 * DecimalValue(s[..|s| - 3]) + DecimalValue(s[|s| - 2..])
  }

  /** `(magnitude / 100).toFixed(2)` for a magnitude in cents. */
  function FixedTwo(magnitude: nat): (s: string)
    ensures FixedShaped(s) && FixedValue(s) == magnitude
    ensures IsDigit(s[0]) && (s[0] == '0' ==> |s| == 4)
  {
    var units := NatToString(magnitude / 100);
    var decimals := [DigitChar(magnitude % 100 / 10), DigitChar(magnitude % 10)];
    var s := units + "." + decimals;
    assert s[..|s| - 3] == units && s[|s| - 2..] == decimals && s[0] == units[0];
    TwoDigitValue(decimals);
    s
  }

  /** A figure with two decimals and no superfluous leading zero is the one FixedTwo writes for its value. */
  lemma FixedTwoOfFigure(s: string)
    requires FixedShaped(s) && (s[0] == '0' ==> |s| == 4)
    ensures FixedTwo(FixedValue(s)) == s
  {
    var units := s[..|s| - 3];
    var decimals := s[|s| - 2..];
    assert units[0] == s[0];
    NatToStringOfNumeral(units);
    TwoDigitValue(decimals);
    DigitCharOfValue(decimals[0]);
    DigitCharOfValue(decimals[1]);
    CentsDigits(DecimalValue(units), DigitValue(decimals[0]), DigitValue(decimals[1]));
    assert s == units + "." + [decimals[0], decimals[1]];
  }

  /** The units and the two decimal digits of an amount in cents. */
  lemma CentsDigits(units: nat, tenths: nat, hundredths: nat)
    requires tenths < 10 && hundredths < 10
    ensures var cents := 100 * units + 10 * tenths + hundredths;
      cents / 100 == units && cents % 100 / 10 == tenths && cents % 10 == hundredths
  {
  }

  /** A figure with two decimals holds no slash, so the slash of an annotation separates its two figures. */
  lemma FixedHasNoSlash(s: string)
    requires FixedShaped(s)
    ensures '/' !in s
  {
    forall i | 0 <= i < |s| ensures s[i] != '/' {
      if i < |s| - 3 {
        assert s[i] == s[..|s| - 3][i];
      } else if i > |s| - 3 {
        assert s[i] == s[|s| - 2..][i - (|s| - 2)];
      }
    }
  }

  /** `(cents / 100).toFixed(2)`: the amount in major units with exactly two decimals, signed. */
  function FormatCents(cents: int): (s: string)
    ensures ParseCents(s) == Some(cents)
    ensures s[0] == '-' <==> cents < 0
  {
    if cents < 0 then
      var s := "-" + FixedTwo(-cents);
      assert s[1..] == FixedTwo(-cents);
      s
    else FixedTwo(cents)
  }

  /** Reads a figure written by FormatCents back into cents. */
  function ParseCents(s: string): Option<int> {
    if |s| > 0 && s[0] == '-' then
      if FixedShaped(s[1..]) then Some(0 - FixedValue(s[1..]) as int) else None
    else if FixedShaped(s) then Some(FixedValue(s))
    else None
  }

  lemma FormatCentsHasNoSlash(cents: int)
    ensures '/' !in FormatCents(cents)
  {
    var body := FixedTwo(if cents < 0 then -cents else cents);
    FixedHasNoSlash(body);
    if cents < 0 {
      assert FormatCents(cents) == ['-'] + body;
    }
  }

  /** A figure of the annotation: "NaN" or the amount with two decimals. */
  function FormatFigure(x: Amount): string {
    match x
    case NotANumber => "NaN"
    case Cents(c) => FormatCents(c)
  }

  /** The concept line of a payment: `<concept> p<n>: <paid so far>/<debt amount>`, n counting this payment. */
  function Annotation(debt: Debt, paidSoFar: Amount): (line: string)
    ensures paidSoFar.Cents? ==>
      ReadAnnotation(line, debt.concept) == Some((|debt.payments| + 1, paidSoFar.cents, debt.amount))
    ensures paidSoFar.NotANumber? ==> ReadAnnotation(line, debt.concept) == None
  {
    var head := debt.concept + " p";
    var number := NatToString(|debt.payments| + 1);
    var figures := FormatFigure(paidSoFar) + "/" + FormatCents(debt.amount);
    var line := head + (number + ": " + figures);
    assert line[..|head|] == head && line[|head|..] == number + ": " + figures;
    ColonAfterNumeral(number, figures);
    if paidSoFar.Cents? then
      FiguresReadBack(paidSoFar.cents, debt.amount);
      line
    else
      NaNReadsAsNothing(FormatCents(debt.amount));
      line
  }

  /** Reads `<paid so far>/<debt amount>` back into the two figures. */
  function ReadFigures(figures: string): Option<(int, int)> {
    var paid := TakeUntil(figures, '/');
    if |paid| == |figures| then None
    else
      match (ParseCents(paid), ParseCents(figures[|paid| + 1..]))
      case (Some(p), Some(a)) => Some((p, a))
      case _ => None
  }

  lemma FiguresReadBack(paid: int, amount: int)
    ensures ReadFigures(FormatCents(paid) + "/" + FormatCents(amount)) == Some((paid, amount))
  {
    var p := FormatCents(paid);
    var figures := p + "/" + FormatCents(amount);
    FormatCentsHasNoSlash(paid);
    assert figures[..|p|] == p;
    TakeUntilAt(figures, '/', |p|);
    assert figures[|p| + 1..] == FormatCents(amount);
  }

  /** "NaN" is no figure with two decimals, so an annotation written with it does not read back. */
  lemma NaNReadsAsNothing(amount: string)
    ensures ReadFigures("NaN" + "/" + amount) == None
  {
    var figures := "NaN" + "/" + amount;
    assert figures[..3] == "NaN" && figures[3] == '/';
    TakeUntilAt(figures, '/', 3);
  }

  /** Reads `<n>: <paid so far>/<debt amount>` back into the payment number and the two figures. */
  function ReadNumbered(rest: string): Option<(nat, int, int)> {
    var number := TakeUntil(rest, ':');
    if |number| + 2 > |rest| || rest[|number|..|number| + 2] != ": " || !AllDigits(number) then None
    else
      match ReadFigures(rest[|number| + 2..])
      case Some((p, a)) => Some((DecimalValue(number), p, a))
      case None => None
  }

  /** A numeral followed by ": " is cut off at that colon, and the text after it is what followed. */
  lemma ColonAfterNumeral(number: string, tail: string)
    requires AllDigits(number)
    ensures var rest := number + ": " + tail;
      && TakeUntil(rest, ':') == number
      && rest[|number|..|number| + 2] == ": "
      && rest[|number| + 2..] == tail
  {
    var rest := number + ": " + tail;
    assert rest[..|number|] == number && rest[|number|] == ':';
    assert ':' !in number by {
      forall i | 0 <= i < |number| ensures number[i] != ':' { assert IsDigit(number[i]); }
    }
    TakeUntilAt(rest, ':', |number|);
  }


  /** Reads a concept line that starts with `concept` back into its payment number, paid-so-far figure and debt amount. */
  function ReadAnnotation(line: string, concept: string): Option<(nat, int, int)> {
    var head := concept + " p";
    if |line| < |head| || line[..|head|] != head then None
    else ReadNumbered(line[|head|..])
  }


  /**
   * The outcome of payDebt as the source has it: a 500 when the store fails, a 403 when the
   * user does not own the debt, a 422 for an amount that is not a number, a 500 when the
   * transaction service fails, and otherwise the debt as fetched once the request is sent.
   * The debt is never written, and the requestor is called only once every check has
   * passed; a call that fails after publishing leaves its request sent.
   */
  twostate predicate PayDebtDone(
    store: DebtStore, requestor: TransactionRequestor, config: Config, request: PayDebtRequest, response: Response)
    reads store, requestor
  {
    && unchanged(store)
    && if !old(store.online) then
      response == Unexpected(StoreUnavailable) && unchanged(requestor)
    else
      var ownership := OwnershipOf(old(store.debts), request.userId, request.debtId);
      if !ownership.valid then
        response == ErrorMessage(AuthenticationError, 403, FieldErrors(ownership.errors)) && unchanged(requestor)
      else if request.amount.NotANumber? then
        && response == ErrorMessage(InvalidFields, 422, FieldErrors(map["amount" := AmountNotANumberMessage]))
        && unchanged(requestor)
      else
        var transaction := TransactionRequest(config.transactionQueue, TransactionRequestKind, map[]);
        && requestor.attempts == old(requestor.attempts) + [transaction]
        && requestor.sent == old(requestor.sent) + (if old(requestor.connected) then [transaction] else [])
        && requestor.connected == old(requestor.connected) && requestor.answering == old(requestor.answering)
        && response ==
          if !old(requestor.connected) then Unexpected(RequestorUnavailable)
          else if !old(requestor.answering) then Unexpected(NoReply)
          else Respond(old(store.debts)[request.debtId], "add", 200)
  }

  /** payDebt; `logged` is the concept line the handler writes to the debug log once it holds the debt. */
  method PayDebt(store: DebtStore, requestor: TransactionRequestor, config: Config, request: PayDebtRequest)
    returns (response: Response, logged: Option<string>)
    modifies requestor
    ensures PayDebtDone(store, requestor, config, request, response)
    ensures logged.Some? <==> store.online && OwnershipOf(store.debts, request.userId, request.debtId).valid
    ensures logged.Some? ==>
      var debt := store.debts[request.debtId];
      logged.value == Annotation(debt, PaidSoFar(TotalPaid(debt.payments), request.amount, debt.amount))
  {
    logged := None;
    var errors: map<string, string> := map[];

    var lookup := store.ValidateDebtOwnership(request.userId, request.debtId);
    if lookup.Err? {
      return Unexpected(lookup.error), logged;
    }
    var validDebt := lookup.value;
    if !validDebt.valid {
      return ErrorMessage(AuthenticationError, 403, FieldErrors(validDebt.errors)), logged;
    }
    var debt := validDebt.debt.value;
    assert debt == store.debts[request.debtId];

    var amountValidation := ValidateAmount(request.amount);
    if !amountValidation.valid { errors := errors + amountValidation.errors; }
    assert map[] + amountValidation.errors == amountValidation.errors;

    var totalPaid := TotalPaid(debt.payments);

    var newCredited := amountValidation.rounded;
    if newCredited.Cents? && totalPaid + newCredited.cents > debt.amount {
      newCredited := Cents(debt.amount - totalPaid);
    }

    var paidSoFar := if newCredited.Cents? then Cents(newCredited.cents + totalPaid) else NotANumber;
    assert paidSoFar == PaidSoFar(totalPaid, request.amount, debt.amount);
    logged := Some(Annotation(debt, paidSoFar));

    if |errors| > 0 {
      return ErrorMessage(InvalidFields, 422, FieldErrors(errors)), logged;
    }

    var transaction := requestor.SendWithResponse(config.transactionQueue, TransactionRequestKind, map[]);
    if transaction.Err? {
      return Unexpected(transaction.error), logged;
    }
    response := Respond(debt, "add", 200);
  }

  // ---------------------------------------------------------------- process

  /**
   * process: routes a message to its handler; a type without one gets an error and touches
   * nothing. The payload of an "add" or "debt-payment" message holds the fields of its request.
   */
  method Process(store: DebtStore, requestor: TransactionRequestor, config: Config, message: Message, now: Timestamp)
    returns (response: Response)
    requires store.Valid()
    requires message.kind == "add" ==> message.payload.AddPayload?
    requires message.kind == "debt-payment" ==> message.payload.PaymentPayload?
    modifies store, requestor
    ensures store.Valid()
    ensures match Route(message.kind)
      case ToAddDebt =>
        AddDebtDone(store, message.payload.create, now, response) && unchanged(requestor)
      case ToPayDebt =>
        PayDebtDone(store, requestor, config, message.payload.pay, response)
      case NoHandler =>
        && response == ErrorMessage(UnsupportedMessage(message.kind), DefaultErrorStatus, NoDetail)
        && unchanged(store) && unchanged(requestor)
  {
    match Route(message.kind)
    case ToAddDebt =>
      response := AddDebt(store, message.payload.create, now);
    case ToPayDebt =>
      var logged;
      response, logged := PayDebt(store, requestor, config, message.payload.pay);
    case NoHandler =>
      response := ErrorMessage(UnsupportedMessage(message.kind), DefaultErrorStatus, NoDetail);
  }
}
