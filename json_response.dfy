/** The transactions endpoint's response types and how a JSON document becomes one
    of them: `JsonTransactionsResponseSerializer` picks the error or the success
    class from the keys of the top-level object, and the chosen class's fields are
    then read, with `null` as the default of the optional ones.  The JSON
    configuration ignores unknown keys and encodes default values. */
module JsonResponse {
  import opened Outcomes

  /** A parsed JSON document (numbers are integers here; fractions never reach the modelled fields). */
  datatype JsonValue =
    | JNull
    | JBool(b: bool)
    | JNumber(n: int)
    | JString(s: string)
    | JArray(items: seq<JsonValue>)
    | JObject(fields: map<string, JsonValue>)

  datatype JsonAmount = JsonAmount(amount: string, currency: string)

  datatype JsonErrorResponse = JsonErrorResponse(summary: string, detail: string, statusCode: Option<Int32>)
  {
    /** The data class's generated `toString()`. */
    function ToString(): string
    {
      "JsonErrorResponse(summary=" + summary + ", detail=" + detail + ", status_code="
      + (match statusCode case None => "null" case Some(c) => IntToString(c as int)) + ")"
    }
  }

  datatype JsonTransactionsTransaction = JsonTransactionsTransaction(
    internalTransactionId: string,
    transactionId: Option<string>,
    bookingDate: string,
    transactionAmount: JsonAmount,
    remittanceInformationUnstructuredArray: seq<string>)

  datatype JsonTransactionsTransactions = JsonTransactionsTransactions(booked: seq<JsonTransactionsTransaction>)

  /** The text of an error response: the class name, then each property as
      `name=value` in declaration order, in parentheses; a missing status code
      shows as `null`, a present one as its decimal numeral. */
  lemma ErrorResponseText(e: JsonErrorResponse)
    ensures "JsonErrorResponse(summary=" + e.summary + ", detail=" + e.detail + ", status_code=" <= e.ToString()
    ensures e.statusCode.None? ==> e.ToString()[|e.ToString()| - 5..] == "null)"
    ensures e.statusCode.Some? ==>
              var digits := e.ToString()[|e.ToString()| - |IntToString(e.statusCode.value as int)| - 1..|e.ToString()| - 1];
              IsNumeral(digits) && NumeralValue(digits) == e.statusCode.value as int
    ensures e.ToString()[|e.ToString()| - 1] == ')'
    ensures |e.ToString()| == |"JsonErrorResponse(summary=" + e.summary + ", detail=" + e.detail + ", status_code="|
                              + (match e.statusCode case None => 4 case Some(c) => |IntToString(c as int)|) + 1
  {
    var prefix := "JsonErrorResponse(summary=" + e.summary + ", detail=" + e.detail + ", status_code=";
    var code := match e.statusCode case None => "null" case Some(c) => IntToString(c as int);
    assert e.ToString() == prefix + code + ")";
    assert (prefix + code + ")")[..|prefix|] == prefix;
    assert (prefix + code + ")")[|prefix|..|prefix| + |code|] == code;
    if e.statusCode.Some? {
      IntToStringIsNumeral(e.statusCode.value as int);
    }
  }

  /** The two concrete subclasses of `JsonTransactionsResponse`. */
  datatype JsonTransactionsResponse =
    | ErrorResponse(error: JsonErrorResponse)
    | SuccessResponse(transactions: JsonTransactionsTransactions)

  /** The deserialization strategies `selectDeserializer` can return. */
  datatype Deserializer = ErrorResponseSerializer | SuccessResponseSerializer

  /** Thrown by `element.jsonObject` when the element is not an object (the element's class is not rendered here). */
  const NotAnObject := Throwable("java.lang.IllegalArgumentException", Some("Element is not a JsonObject"))
  /** Thrown by `error("Unknown JSON response: ...")`; the element's text is not rendered here. */
  const UnknownResponse := Throwable("java.lang.IllegalStateException", Some("Unknown JSON response"))
  /** Thrown when a chosen class cannot be read from the object (a missing or mistyped field). */
  const DecodingFailed := Throwable("kotlinx.serialization.SerializationException", None)

  /** `selectDeserializer`: `"summary"` selects the error class, otherwise `"transactions"`
      selects the success class, otherwise it throws.  Only key presence is looked at. */
  function SelectDeserializer(element: JsonValue): (r: Call<Deserializer>)
    ensures r == Returned(ErrorResponseSerializer) <==> element.JObject? && "summary" in element.fields
    ensures r == Returned(SuccessResponseSerializer) <==>
              element.JObject? && "summary" !in element.fields && "transactions" in element.fields
    ensures r.Threw? <==>
              !element.JObject? || ("summary" !in element.fields && "transactions" !in element.fields)
  {
    match element
    case JObject(fields) =>
      if "summary" in fields then Returned(ErrorResponseSerializer)
      else if "transactions" in fields then Returned(SuccessResponseSerializer)
      else Threw(UnknownResponse)
    case _ => Threw(NotAnObject)
  }

  /** The choice depends on which of the two keys are present and on nothing else. */
  lemma SelectionIgnoresValues(a: map<string, JsonValue>, b: map<string, JsonValue>)
    requires ("summary" in a <==> "summary" in b) && ("transactions" in a <==> "transactions" in b)
    ensures SelectDeserializer(JObject(a)) == SelectDeserializer(JObject(b))
  {
  }

  // Field readers. `None` means the field could not be read, which makes
  // the deserializer throw.

  /** A required `String` property: present and a JSON string. */
  function RequiredString(o: map<string, JsonValue>, key: string): (r: Option<string>)
    ensures r.Some? <==> key in o && o[key].JString?
    ensures r.Some? ==> o[key] == JString(r.value)
  {
    if key in o && o[key].JString? then Some(o[key].s) else None
  }

  /** A `String? = null` property: absent or `null` reads as `null`. */
  function NullableString(o: map<string, JsonValue>, key: string): (r: Option<Option<string>>)
    ensures key !in o ==> r == Some(None)
    ensures r.Some? <==> key !in o || o[key].JNull? || o[key].JString?
    ensures r.Some? && r.value.Some? ==> key in o && o[key] == JString(r.value.value)
  {
    if key !in o || o[key].JNull? then Some(None)
    else if o[key].JString? then Some(Some(o[key].s))
    else None
  }

  /** The `Int` a JSON primitive holds: a number, or a string holding a numeral
      (the tree decoder reads a primitive's content whether it is quoted or not),
      provided it fits in 32 bits. */
  function IntLiteral(v: JsonValue): (r: Option<Int32>)
    ensures v.JNumber? ==> (r.Some? <==> -0x8000_0000 <= v.n < 0x8000_0000)
    ensures v.JString? ==> (r.Some? <==> IsNumeral(v.s) && -0x8000_0000 <= NumeralValue(v.s) < 0x8000_0000)
    ensures !v.JNumber? && !v.JString? ==> r.None?
    ensures r.Some? ==> v == JNumber(r.value as int) || (v.JString? && IsNumeral(v.s) && NumeralValue(v.s) == r.value as int)
  {
    match v
    case JNumber(n) => if -0x8000_0000 <= n < 0x8000_0000 then Some(n as Int32) else None
    case JString(s) =>
      if IsNumeral(s) && -0x8000_0000 <= NumeralValue(s) < 0x8000_0000 then Some(NumeralValue(s) as Int32) else None
    case _ => None
  }

  /** Every `Int` reads back from its number, and from its quoted decimal text. */
  lemma IntLiteralRoundTrip(c: Int32)
    ensures IntLiteral(JNumber(c as int)) == Some(c)
    ensures IntLiteral(JString(IntToString(c as int))) == Some(c)
  {
    IntToStringIsNumeral(c as int);
  }

  /** An `Int? = null` property: absent or `null` reads as `null`. */
  function NullableInt(o: map<string, JsonValue>, key: string): (r: Option<Option<Int32>>)
    ensures key !in o ==> r == Some(None)
    ensures r.Some? <==> key !in o || o[key].JNull? || IntLiteral(o[key]).Some?
    ensures r.Some? && r.value.Some? ==> key in o && IntLiteral(o[key]) == Some(r.value.value)
  {
    if key !in o || o[key].JNull? then Some(None)
    else
      match IntLiteral(o[key])
      case Some(c) => Some(Some(c))
      case None => None
  }

  /** Reads a `JsonErrorResponse` (summary, detail, optional status_code). */
  function DecodeErrorResponse(o: map<string, JsonValue>): (r: Option<JsonErrorResponse>)
    ensures r.Some? <==> RequiredString(o, "summary").Some? && RequiredString(o, "detail").Some?
                         && NullableInt(o, "status_code").Some?
    ensures r.Some? ==> o["summary"] == JString(r.value.summary) && o["detail"] == JString(r.value.detail)
                        && NullableInt(o, "status_code") == Some(r.value.statusCode)
    ensures r.Some? && "status_code" !in o ==> r.value.statusCode == None
  {
    match (RequiredString(o, "summary"), RequiredString(o, "detail"), NullableInt(o, "status_code"))
    case (Some(summary), Some(detail), Some(statusCode)) => Some(JsonErrorResponse(summary, detail, statusCode))
    case _ => None
  }

  /** Keys other than the class's own properties are ignored. */
  lemma ErrorResponseIgnoresUnknownKeys(o: map<string, JsonValue>, key: string, v: JsonValue)
    requires key != "summary" && key != "detail" && key != "status_code"
    ensures DecodeErrorResponse(o[key := v]) == DecodeErrorResponse(o)
  {
    assert RequiredString(o[key := v], "summary") == RequiredString(o, "summary");
    assert RequiredString(o[key := v], "detail") == RequiredString(o, "detail");
    assert NullableInt(o[key := v], "status_code") == NullableInt(o, "status_code");
  }

  /** Reads a `JsonAmount` object. */
  function DecodeAmount(v: JsonValue): (r: Option<JsonAmount>)
    ensures r.Some? <==> v.JObject? && RequiredString(v.fields, "amount").Some?
                         && RequiredString(v.fields, "currency").Some?
    ensures r.Some? ==> RequiredString(v.fields, "amount") == Some(r.value.amount)
                        && RequiredString(v.fields, "currency") == Some(r.value.currency)
  {
    match v
    case JObject(o) =>
      (match (RequiredString(o, "amount"), RequiredString(o, "currency"))
       case (Some(amount), Some(currency)) => Some(JsonAmount(amount, currency))
       case _ => None)
    case _ => None
  }

  /** Reads a `List<String>`: every element must be a JSON string. */
  function DecodeStrings(vs: seq<JsonValue>): (r: Option<seq<string>>)
    ensures r.Some? <==> forall i :: 0 <= i < |vs| ==> vs[i].JString?
    ensures r.Some? ==> |r.value| == |vs| && forall i :: 0 <= i < |vs| ==> vs[i] == JString(r.value[i])
  {
    if vs == [] then Some([])
    else if !vs[0].JString? then None
    else
      match DecodeStrings(vs[1..])
      case None => None
      case Some(rest) => Some([vs[0].s] + rest)
  }

  /** Reads a `JsonTransactionsTransaction`; an absent `transactionId` reads as `null`. */
  function DecodeTransaction(v: JsonValue): (r: Option<JsonTransactionsTransaction>)
    ensures r.Some? ==> v.JObject? && RequiredString(v.fields, "internalTransactionId") == Some(r.value.internalTransactionId)
                        && RequiredString(v.fields, "bookingDate") == Some(r.value.bookingDate)
    ensures r.Some? && "transactionId" !in v.fields ==> r.value.transactionId == None
  {
    match v
    case JObject(o) =>
      (match (RequiredString(o, "internalTransactionId"), NullableString(o, "transactionId"),
              RequiredString(o, "bookingDate"))
       case (Some(internalId), Some(transactionId), Some(bookingDate)) =>
         if "transactionAmount" in o && "remittanceInformationUnstructuredArray" in o
            && o["remittanceInformationUnstructuredArray"].JArray? then
           (match (DecodeAmount(o["transactionAmount"]), DecodeStrings(o["remittanceInformationUnstructuredArray"].items))
            case (Some(amount), Some(remittance)) =>
              Some(JsonTransactionsTransaction(internalId, transactionId, bookingDate, amount, remittance))
            case _ => None)
         else None
       case _ => None)
    case _ => None
  }

  /** Reads a `List<JsonTransactionsTransaction>`: one transaction per element, in order. */
  function DecodeBooked(vs: seq<JsonValue>): (r: Option<seq<JsonTransactionsTransaction>>)
    ensures r.Some? <==> forall i :: 0 <= i < |vs| ==> DecodeTransaction(vs[i]).Some?
    ensures r.Some? ==> |r.value| == |vs| && forall i :: 0 <= i < |vs| ==> DecodeTransaction(vs[i]) == Some(r.value[i])
  {
    if vs == [] then Some([])
    else
      match (DecodeTransaction(vs[0]), DecodeBooked(vs[1..]))
      case (Some(t), Some(rest)) => Some([t] + rest)
      case _ => None
  }

  /** A transaction reads exactly when each of its properties does, and each field holds what its property reads; an absent `transactionId` reads as `null`. */
  lemma DecodeTransactionReads(v: JsonValue)
    ensures DecodeTransaction(v).Some? <==>
              v.JObject? && RequiredString(v.fields, "internalTransactionId").Some?
              && NullableString(v.fields, "transactionId").Some? && RequiredString(v.fields, "bookingDate").Some?
              && "transactionAmount" in v.fields && DecodeAmount(v.fields["transactionAmount"]).Some?
              && "remittanceInformationUnstructuredArray" in v.fields
              && v.fields["remittanceInformationUnstructuredArray"].JArray?
              && DecodeStrings(v.fields["remittanceInformationUnstructuredArray"].items).Some?
    ensures DecodeTransaction(v).Some? ==>
              v.fields["internalTransactionId"] == JString(DecodeTransaction(v).value.internalTransactionId)
              && NullableString(v.fields, "transactionId") == Some(DecodeTransaction(v).value.transactionId)
              && v.fields["bookingDate"] == JString(DecodeTransaction(v).value.bookingDate)
              && DecodeAmount(v.fields["transactionAmount"]) == Some(DecodeTransaction(v).value.transactionAmount)
              && DecodeStrings(v.fields["remittanceInformationUnstructuredArray"].items)
                 == Some(DecodeTransaction(v).value.remittanceInformationUnstructuredArray)
    ensures DecodeTransaction(v).Some? && "transactionId" !in v.fields ==> DecodeTransaction(v).value.transactionId == None
  {
  }

  /** Reads a `JsonTransactionsSuccessResponse`: `{"transactions": {"booked": [...]}}`. */
  function DecodeSuccessResponse(o: map<string, JsonValue>): (r: Option<JsonTransactionsTransactions>)
    ensures r.Some? ==> "transactions" in o && o["transactions"].JObject?
  {
    if "transactions" in o && o["transactions"].JObject? then
      var t := o["transactions"].fields;
      if "booked" in t && t["booked"].JArray? then
        match DecodeBooked(t["booked"].items)
        case Some(booked) => Some(JsonTransactionsTransactions(booked))
        case None => None
      else None
    else None
  }

  /** A success response reads exactly when `transactions.booked` is an array whose entries all read, and holds those entries in order. */
  lemma DecodeSuccessResponseReads(o: map<string, JsonValue>)
    ensures DecodeSuccessResponse(o).Some? <==>
              "transactions" in o && o["transactions"].JObject? && "booked" in o["transactions"].fields
              && o["transactions"].fields["booked"].JArray?
              && DecodeBooked(o["transactions"].fields["booked"].items).Some?
    ensures DecodeSuccessResponse(o).Some? ==> DecodeBooked(o["transactions"].fields["booked"].items) == Some(DecodeSuccessResponse(o).value.booked)
  {
  }

  /** Deserializes the transactions endpoint's body through `JsonTransactionsResponseSerializer`. */
  function DeserializeResponse(element: JsonValue): (r: Call<JsonTransactionsResponse>)
    ensures r.Returned? && r.value.ErrorResponse? ==> element.JObject? && "summary" in element.fields
    ensures r.Returned? && r.value.SuccessResponse? ==>
              element.JObject? && "summary" !in element.fields && "transactions" in element.fields
    ensures SelectDeserializer(element).Threw? ==> r == Threw(SelectDeserializer(element).cause)
  {
    match SelectDeserializer(element)
    case Threw(e) => Threw(e)
    case Returned(ErrorResponseSerializer) =>
      (match DecodeErrorResponse(element.fields)
       case Some(e) => Returned(ErrorResponse(e))
       case None => Threw(DecodingFailed))
    case Returned(SuccessResponseSerializer) =>
      (match DecodeSuccessResponse(element.fields)
       case Some(t) => Returned(SuccessResponse(t))
       case None => Threw(DecodingFailed))
  }

  /** Once a class is selected, the body deserializes exactly when that class's
      fields read, and to what they read. */
  lemma DeserializeResponseReads(element: JsonValue)
    ensures element.JObject? && "summary" in element.fields ==>
              var r := DeserializeResponse(element);
              (r.Returned? <==> DecodeErrorResponse(element.fields).Some?)
              && (r.Returned? ==> r.value == ErrorResponse(DecodeErrorResponse(element.fields).value))
    ensures element.JObject? && "summary" !in element.fields && "transactions" in element.fields ==>
              var r := DeserializeResponse(element);
              (r.Returned? <==> DecodeSuccessResponse(element.fields).Some?)
              && (r.Returned? ==> r.value == SuccessResponse(DecodeSuccessResponse(element.fields).value))
  {
  }

  /** A `status_code` beyond 32 bits cannot be read into the `Int` property, so the body does not deserialize. */
  lemma OversizedStatusCodeThrows(summary: string, detail: string)
    ensures DeserializeResponse(JObject(map[
              "summary" := JString(summary), "detail" := JString(detail), "status_code" := JNumber(0x1_0000_0000)])).Threw?
  {
  }

  // Encoding, the inverse direction (defaults are written out, as the client's
  // JSON configuration asks), used to state what decoding recovers.

  function EncodeAmount(a: JsonAmount): JsonValue
  {
    JObject(map["amount" := JString(a.amount), "currency" := JString(a.currency)])
  }

  function EncodeStrings(ss: seq<string>): (r: seq<JsonValue>)
    ensures |r| == |ss| && forall i :: 0 <= i < |ss| ==> r[i] == JString(ss[i])
  {
    seq(|ss|, i requires 0 <= i < |ss| => JString(ss[i]))
  }

  function EncodeTransaction(t: JsonTransactionsTransaction): JsonValue
  {
    JObject(map[
      "internalTransactionId" := JString(t.internalTransactionId),
      "transactionId" := (match t.transactionId case None => JNull case Some(id) => JString(id)),
      "bookingDate" := JString(t.bookingDate),
      "transactionAmount" := EncodeAmount(t.transactionAmount),
      "remittanceInformationUnstructuredArray" := JArray(EncodeStrings(t.remittanceInformationUnstructuredArray))])
  }

  function EncodeResponse(r: JsonTransactionsResponse): JsonValue
  {
    match r
    case ErrorResponse(e) =>
      JObject(map[
        "summary" := JString(e.summary),
        "detail" := JString(e.detail),
        "status_code" := (match e.statusCode case None => JNull case Some(c) => JNumber(c as int))])
    case SuccessResponse(t) =>
      JObject(map["transactions" := JObject(map["booked" := JArray(seq(|t.booked|, i requires 0 <= i < |t.booked| => EncodeTransaction(t.booked[i])))])])
  }

  lemma {:induction false} StringsRoundTrip(ss: seq<string>)
    ensures DecodeStrings(EncodeStrings(ss)) == Some(ss)
  {
    var d := DecodeStrings(EncodeStrings(ss));
    assert d.Some?;
    assert d.value == ss;
  }

  lemma {:induction false} TransactionRoundTrip(t: JsonTransactionsTransaction)
    ensures DecodeTransaction(EncodeTransaction(t)) == Some(t)
  {
    StringsRoundTrip(t.remittanceInformationUnstructuredArray);
  }

  /** Decoding recovers every response the two classes can hold. */
  lemma {:induction false} ResponseRoundTrip(r: JsonTransactionsResponse)
    ensures DeserializeResponse(EncodeResponse(r)) == Returned(r)
  {
    match r
    case ErrorResponse(e) =>
    case SuccessResponse(t) =>
      var items := seq(|t.booked|, i requires 0 <= i < |t.booked| => EncodeTransaction(t.booked[i]));
      forall i | 0 <= i < |items| ensures DecodeTransaction(items[i]) == Some(t.booked[i]) {
        TransactionRoundTrip(t.booked[i]);
      }
      var d := DecodeBooked(items);
      assert d.Some?;
      assert d.value == t.booked;
  }
}
