/** The part of `NordigenClient` that turns the bank-data service's answers into
    what the bot shows: the list of transactions (oldest first), and the closing
    booked balance.  The HTTP client, authentication and the agreement and
    requisition calls are not modelled; each service call is given as its
    outcome (`Call`): the value it returned or the exception it threw. */
module NordigenClient {
  import opened Outcomes
  import opened JsonResponse

  /** `NordigenClient.Transaction`; equality is the data class's, over all four fields.
      (`label` is a reserved word in Dafny, hence `labelText`.) */
  datatype Transaction = Transaction(id: string, date: string, amount: string, labelText: string)

  /** One entry of the balances endpoint's answer, with the two properties the client reads. */
  datatype JsonBalance = JsonBalance(balanceAmount: JsonAmount, balanceType: string)

  /** `JsonAmount.toFormatted()`: the amount, one space, the currency. */
  function ToFormatted(a: JsonAmount): (r: string)
    ensures |r| == |a.amount| + 1 + |a.currency|
    ensures r[..|a.amount|] == a.amount && r[|a.amount|] == ' ' && r[|a.amount| + 1..] == a.currency
  {
    a.amount + " " + a.currency
  }

  /** Splits a formatted amount at its first space: the inverse of `ToFormatted`. */
  function ParseFormatted(s: string): (r: Option<JsonAmount>)
    ensures r.Some? <==> ' ' in s
  {
    match IndexOf(s, ' ')
    case None => None
    case Some(i) => Some(JsonAmount(s[..i], s[i + 1..]))
  }

  /** Amounts are written without spaces, so the formatted text gives back amount and currency. */
  lemma FormattedRoundTrip(a: JsonAmount)
    requires ' ' !in a.amount
    ensures ParseFormatted(ToFormatted(a)) == Some(a)
  {
    assert ToFormatted(a) == a.amount + [' '] + a.currency;
    IndexOfFirst(a.amount, ' ', a.currency);
  }

  /** The mapping applied to each booked entry in `getTransactions`. */
  function ToTransaction(t: JsonTransactionsTransaction): Transaction
  {
    Transaction(
      t.internalTransactionId,
      t.bookingDate,
      ToFormatted(t.transactionAmount),
      if |t.remittanceInformationUnstructuredArray| > 0 then t.remittanceInformationUnstructuredArray[0] else "?")
  }

  /** The fields of a `Transaction` come from the entry's internal id, booking date,
      amount (formatted by `toFormatted`, from which amount and currency can be read
      back) and first remittance line (`"?"` when there is none); the entry's
      `transactionId` plays no part. */
  lemma TransactionFields(t: JsonTransactionsTransaction, otherId: Option<string>)
    ensures ToTransaction(t).id == t.internalTransactionId
    ensures ToTransaction(t).date == t.bookingDate
    ensures ToTransaction(t).amount == ToFormatted(t.transactionAmount)
    ensures ' ' !in t.transactionAmount.amount ==> ParseFormatted(ToTransaction(t).amount) == Some(t.transactionAmount)
    ensures t.remittanceInformationUnstructuredArray == [] ==> ToTransaction(t).labelText == "?"
    ensures t.remittanceInformationUnstructuredArray != [] ==>
              ToTransaction(t).labelText == t.remittanceInformationUnstructuredArray[0]
    ensures ToTransaction(t.(transactionId := otherId)) == ToTransaction(t)
  {
    if ' ' !in t.transactionAmount.amount {
      FormattedRoundTrip(t.transactionAmount);
    }
  }

  /** `reversed()`: the same elements, the last one first. */
  function Reversed<T>(s: seq<T>): (r: seq<T>)
    ensures |r| == |s|
    ensures forall k :: 0 <= k < |s| ==> r[k] == s[|s| - 1 - k]
  {
    if s == [] then [] else [s[|s| - 1]] + Reversed(s[..|s| - 1])
  }

  /** The exception `getTransactions` wraps an error response in; its message is the response's text. */
  function ServiceException(response: JsonErrorResponse): (e: Throwable)
    ensures e.message == Some(response.ToString())
  {
    Throwable("org.jraf.slackbankbot.nordigen.client.NordigenClient$NordigenServiceException", Some(response.ToString()))
  }

  /** `getTransactions`, given the outcome of the HTTP call that fetches the body.
      An error response becomes a failed `Result`; a success response becomes one
      `Transaction` per booked entry, oldest first (the service lists newest first);
      anything that throws (the call, the choice of class, reading the fields) throws. */
  function GetTransactions(body: Call<JsonValue>): (r: Call<Result<seq<Transaction>>>)
    ensures r.Threw? <==> body.Threw? || DeserializeResponse(body.value).Threw?
    ensures body.Threw? ==> r == Threw(body.cause)
    ensures r.Returned? && r.value.Failure? <==>
              body.Returned? && DeserializeResponse(body.value).Returned?
              && DeserializeResponse(body.value).value.ErrorResponse?
    ensures r.Returned? && r.value.Failure? ==>
              r.value.exception == ServiceException(DeserializeResponse(body.value).value.error)
    ensures r.Returned? && r.value.Success? ==>
              var booked := DeserializeResponse(body.value).value.transactions.booked;
              |r.value.value| == |booked|
              && forall k :: 0 <= k < |booked| ==> r.value.value[k] == ToTransaction(booked[|booked| - 1 - k])
  {
    match body
    case Threw(e) => Threw(e)
    case Returned(element) => FromResponse(DeserializeResponse(element))
  }

  /** The `when` over the deserialized response: an error response becomes a failed
      `Result` wrapping `NordigenServiceException`, a success response the booked
      entries oldest first; a deserialization that threw propagates. */
  function FromResponse(response: Call<JsonTransactionsResponse>): (r: Call<Result<seq<Transaction>>>)
    ensures r.Threw? <==> response.Threw?
    ensures response.Threw? ==> r.cause == response.cause
    ensures r.Returned? && r.value.Failure? <==> response.Returned? && response.value.ErrorResponse?
    ensures r.Returned? && r.value.Failure? ==> r.value.exception == ServiceException(response.value.error)
    ensures r.Returned? && r.value.Success? ==>
              var booked := response.value.transactions.booked;
              |r.value.value| == |booked|
              && forall k :: 0 <= k < |booked| ==> r.value.value[k] == ToTransaction(booked[|booked| - 1 - k])
  {
    match response
    case Threw(e) => Threw(e)
    case Returned(ErrorResponse(error)) => Returned(Failure(ServiceException(error)))
    case Returned(SuccessResponse(transactions)) => Returned(Success(OldestFirst(transactions.booked)))
  }

  /** `booked.map { ... }.reversed()`: one `Transaction` per entry, the last entry first. */
  function OldestFirst(booked: seq<JsonTransactionsTransaction>): (r: seq<Transaction>)
    ensures |r| == |booked|
    ensures forall k :: 0 <= k < |booked| ==> r[k] == ToTransaction(booked[|booked| - 1 - k])
  {
    var mapped := seq(|booked|, i requires 0 <= i < |booked| => ToTransaction(booked[i]));
    Reversed(mapped)
  }

  predicate IsClosingBooked(b: JsonBalance)
  {
    b.balanceType == "closingBooked"
  }

  /** The position of the first `closingBooked` balance, as `first { }` searches. */
  function FirstClosingBooked(balances: seq<JsonBalance>): (r: Option<nat>)
    ensures r.None? <==> forall j :: 0 <= j < |balances| ==> !IsClosingBooked(balances[j])
    ensures r.Some? ==> r.value < |balances| && IsClosingBooked(balances[r.value])
                        && forall j :: 0 <= j < r.value ==> !IsClosingBooked(balances[j])
  {
    if balances == [] then None
    else if IsClosingBooked(balances[0]) then Some(0)
    else
      match FirstClosingBooked(balances[1..])
      case None => None
      case Some(i) => Some(i + 1)
  }

  /** What `first { }` throws when no element matches. */
  const NoClosingBooked := Throwable("java.util.NoSuchElementException",
                                     Some("Collection contains no element matching the predicate."))

  /** `getBalance`, given the outcome of the balances call.  Everything runs inside
      `runCatching`, so it never throws: a failed call or a missing `closingBooked`
      entry gives a failed `Result`. */
  function GetBalance(balances: Call<seq<JsonBalance>>): (r: Result<string>)
    ensures balances.Threw? ==> r == Failure(balances.cause)
    ensures balances.Returned? ==>
              (r.Success? <==> exists i :: 0 <= i < |balances.value| && IsClosingBooked(balances.value[i]))
    ensures balances.Returned? && r.Failure? ==> r.exception == NoClosingBooked
    ensures r.Success? ==>
              exists i :: 0 <= i < |balances.value| && IsClosingBooked(balances.value[i])
                          && (forall j :: 0 <= j < i ==> !IsClosingBooked(balances.value[j]))
                          && r.value == ToFormatted(balances.value[i].balanceAmount)
  {
    match balances
    case Threw(e) => Failure(e)
    case Returned(bs) =>
      match FirstClosingBooked(bs)
      case None => Failure(NoClosingBooked)
      case Some(i) => Success(ToFormatted(bs[i].balanceAmount))
  }
}
