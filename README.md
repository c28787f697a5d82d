# slack-bank-bot, modelled in Dafny

slack-bank-bot polls a bank-data service (Nordigen) for the booked transactions of
some bank accounts. It posts the transactions that are new since the previous poll
to a Slack channel, together with each such account's closing booked balance. This
project models the core of that bot and proves properties of the model:

- `bot.dfy` (module `StartBot`): one iteration of the `bot` subcommand's polling loop.
  - `class Bot` holds the `lastTransactions` map.
  - Its method `Cycle` walks the configured accounts in order, builds the message text and updates the map. It returns the message to post, if any.
  - `Cycle` is proved against the functional specification `CycleOf`. That specification is built from `ProcessAccount`, one account's step, and `RunAccounts`, the first `n` steps, which collect `Block`s rendered by `Render`.
- `nordigen_client.dfy` (module `NordigenClient`): `getTransactions`, which maps booked entries to `Transaction`s and lists them oldest first, and `getBalance`, which picks the first `closingBooked` balance; also `toFormatted`.
- `arguments.dfy` (module `Arguments`): `name:id` account specs (`toAccount`) and the account list (`accounts`).
- `json_response.dfy` (module `JsonResponse`): how a JSON body becomes an error or a success response. It covers the key-based `selectDeserializer`, the reading of the data classes' fields with `null` defaults, the 32-bit range of the `Int` property `status_code`, and unknown keys being ignored.
- `outcomes.dfy` (module `Outcomes`): JVM exceptions (`Throwable`), a call that either returns or throws (`Call`), Kotlin's `Result` with its `toString`, and Kotlin's 32-bit `Int`.

The network and the command line are inputs.

- `Cycle` receives the positional account specs as strings.
- Per account position, it receives the outcome of the transactions call (a JSON body or an exception) and of the balances call (a list of balances or an exception).
- An exception that escapes anywhere in the cycle ends the cycle without posting. The catch-all at main.kt:130 then swallows it. The map keeps whatever was stored before the exception.

Where the code differs from what one might expect of such a bot, the model follows the code:

- Transactions are compared with full data-class equality on id, date, amount and label. There is no stable-id fallback.
- The first fetch of an account reports every fetched transaction. There is no first-run suppression.
- Amounts are never summed.
- Failures are not counted.
- A malformed account spec aborts every cycle, because `accounts` is a getter evaluated inside the `try` (main.kt:88).
- The balance line interpolates the `Result` itself. It therefore reads `Success(12.34 EUR)` or `Failure(<exception>)`, as `Result.toString` renders them.

## Model

| member | source | states |
|---|---|---|
| StartBot.Bot.constructor | src/main/kotlin/main.kt:84 | nothing is stored before the first cycle |
| StartBot.Bot.Cycle | src/main/kotlin/main.kt:85-136 | the stored map after the cycle and the posted message are exactly those of the specification `CycleOf` applied to the map before it |
| StartBot.Bot.Visit | src/main/kotlin/main.kt:93-121 | the loop body for an account whose fetch did not throw: the map and the text afterwards are exactly those of `ProcessAccount`, the text growing by the block it adds, if any |
| StartBot.AppendTransactionLines | src/main/kotlin/main.kt:107-113 | the inner `for` loop appends one line per new transaction, in list order |
| StartBot.StoredFor | src/main/kotlin/main.kt:101 | an account with nothing stored is compared against the empty list |
| StartBot.NewTransactions | src/main/kotlin/main.kt:101 | a transaction is new iff it was fetched and is not stored; there are never more new transactions than fetched ones |
| StartBot.NewTransactionsIsFilter | src/main/kotlin/main.kt:101 | the new transactions are a subsequence of the fetch, in fetched order; each unstored transaction keeps its fetched multiplicity, and each stored one is dropped |
| StartBot.NothingNewWhenAllSeen | src/main/kotlin/main.kt:101 | nothing is new iff every fetched transaction is already stored |
| StartBot.EverythingNewWhenNothingStored | src/main/kotlin/main.kt:101 | with nothing stored, the new transactions are the whole fetch |
| StartBot.Marker | src/main/kotlin/main.kt:110 | the red triangle iff the amount starts with `-`, the green one otherwise |
| StartBot.HeaderIsOneLine | src/main/kotlin/main.kt:106 | the header is `_`, the account's name, `_` and a line break: one line holding the name between underscores |
| StartBot.TransactionLineIsOneLine | src/main/kotlin/main.kt:109-110 | a transaction's line starts with its marker and takes exactly one line |
| StartBot.TransactionLinesCount | src/main/kotlin/main.kt:107-113 | the new transactions take one line each |
| StartBot.BalanceLineEndsSection | src/main/kotlin/main.kt:119 | the balance line takes one line and is followed by a blank line |
| StartBot.SectionLines | src/main/kotlin/main.kt:105-120 | a section takes the header line, one line per new transaction, the balance line and a blank line |
| StartBot.WarningLines | src/main/kotlin/main.kt:96 | a warning takes the header line and the warning line, then a blank line |
| StartBot.TransactionLinesAppend | src/main/kotlin/main.kt:107-113 | the lines of two runs of transactions are the first run's lines followed by the second's |
| StartBot.BlockText | src/main/kotlin/main.kt:94-120 | every block an account adds has non-empty text starting with `_` |
| StartBot.RenderEmpty | src/main/kotlin/main.kt:126 | the message is empty iff no account added a block |
| StartBot.RenderStartsWithFirst | src/main/kotlin/main.kt:94-120 | the message starts with the text of the first account that added a block |
| StartBot.ProcessAccount | src/main/kotlin/main.kt:92-121 | one account's step aborts iff its transactions call throws |
| StartBot.FailedFetch | src/main/kotlin/main.kt:94-97 | a failed fetch leaves the map as it was and adds exactly `_name_\n:warning: Error getting transactions: <message>\n\n`, with `null` for a missing message |
| StartBot.SuccessfulFetchStored | src/main/kotlin/main.kt:114 | after a successful fetch the map is the old map with this account's entry replaced by the full fetch, whether or not anything was new |
| StartBot.OnlyOwnEntryChanges | src/main/kotlin/main.kt:114 | whatever the outcome, no other account's entry is added, removed or changed |
| StartBot.SectionOnlyWhenNew | src/main/kotlin/main.kt:105-120 | after a successful fetch, a section is added iff some fetched transaction is not stored; the section then holds exactly the new transactions and the balance |
| StartBot.FirstFetchReportsAll | src/main/kotlin/main.kt:101-120 | an account fetched for the first time reports its whole non-empty fetch |
| StartBot.QuietAccount | src/main/kotlin/main.kt:101-120 | an account whose fetch equals what is stored adds nothing and changes nothing |
| StartBot.AbortPersists | src/main/kotlin/main.kt:86-132 | once an account has thrown, no later account is processed |
| StartBot.ThrowAbortsCycle | src/main/kotlin/main.kt:86-132 | if the account at position k throws, nothing is posted and the map is what the first k accounts left |
| StartBot.MalformedSpecAbortsCycle | src/main/kotlin/main.kt:88-89 | a spec without `:` makes the cycle post nothing and change nothing |
| StartBot.PostedIffBlocks | src/main/kotlin/main.kt:126-128 | a message is posted iff no account threw and some account added a block; the message is then all blocks' texts in account order |
| StartBot.UnlistedAccountsUnchanged | src/main/kotlin/main.kt:89-121 | entries of accounts that are not configured are never touched |
| StartBot.EntriesNeverRemoved | src/main/kotlin/main.kt:89-121 | no account's entry is ever removed, and each account adds at most one block |
| StartBot.CycleKeepsEntries | src/main/kotlin/main.kt:85-132 | after a cycle every previously stored account is still stored, and a posted message starts with `_` and with the text of some account's block |
| StartBot.NeverAborted | src/main/kotlin/main.kt:89-121 | when every fetch succeeds, no account aborts the cycle |
| StartBot.StoredAfterRun | src/main/kotlin/main.kt:114 | with distinct accounts and every fetch successful, each account ends up with exactly its own fetch stored |
| StartBot.StoredUpToUpdate | src/main/kotlin/main.kt:114 | storing for another account keeps what the others have stored |
| StartBot.QuietRun | src/main/kotlin/main.kt:89-121 | when every account already has exactly its fetch stored, no block is added and the map is unchanged |
| StartBot.CycleIdempotent | src/main/kotlin/main.kt:85-132 | a second cycle on the same successful answers posts nothing and changes nothing |
| StartBot.FetchedUpToMeans | src/main/kotlin/main.kt:92-97 | the prefix-recursive "every fetch succeeded" predicate means what it says, in both directions |
| StartBot.DistinctUpToMeans | src/main/kotlin/main.kt:84 | the prefix-recursive "accounts distinct" predicate means pairwise distinct, in both directions |
| StartBot.AnswerAt | src/main/kotlin/main.kt:92-118 | position k's answers are the outcomes of position k's calls |
| NordigenClient.ToFormatted | src/main/kotlin/org/jraf/slackbankbot/nordigen/client/NordigenClient.kt:150 | the amount, then one space, then the currency |
| NordigenClient.FormattedRoundTrip | src/main/kotlin/org/jraf/slackbankbot/nordigen/client/NordigenClient.kt:150 | for an amount without spaces, splitting the formatted text at its first space gives back amount and currency |
| NordigenClient.TransactionFields | src/main/kotlin/org/jraf/slackbankbot/nordigen/client/NordigenClient.kt:116-123 | id is `internalTransactionId`, date is `bookingDate`, amount is exactly `toFormatted` of the entry's amount (and, for an amount without spaces, gives back amount and currency), label is the first remittance line or `?`; `transactionId` plays no part |
| NordigenClient.Reversed | src/main/kotlin/org/jraf/slackbankbot/nordigen/client/NordigenClient.kt:124-125 | `reversed()` keeps the length and puts element `|s|-1-k` at position k |
| NordigenClient.OldestFirst | src/main/kotlin/org/jraf/slackbankbot/nordigen/client/NordigenClient.kt:116-125 | one `Transaction` per booked entry, the last booked entry first |
| NordigenClient.ServiceException | src/main/kotlin/org/jraf/slackbankbot/nordigen/client/NordigenClient.kt:109-110 | the exception's message is the error response's `toString()` |
| NordigenClient.FromResponse | src/main/kotlin/org/jraf/slackbankbot/nordigen/client/NordigenClient.kt:113-129 | an error response gives a failed `Result` wrapping the service exception; a success gives one transaction per booked entry, in reverse booked order; a deserialization that threw propagates |
| NordigenClient.GetTransactions | src/main/kotlin/org/jraf/slackbankbot/nordigen/client/NordigenClient.kt:112-130 | throws iff the call or the deserialization throws; fails iff the body deserializes to an error response; otherwise the booked entries, mapped and reversed |
| NordigenClient.FirstClosingBooked | src/main/kotlin/org/jraf/slackbankbot/nordigen/client/NordigenClient.kt:134 | `first { }` finds the lowest index with type `closingBooked`, or none iff there is none |
| NordigenClient.GetBalance | src/main/kotlin/org/jraf/slackbankbot/nordigen/client/NordigenClient.kt:132-136 | never throws; succeeds iff some balance is `closingBooked`, with the first such balance formatted; otherwise fails with `NoSuchElementException`, or with the call's own exception |
| Arguments.Split | src/main/kotlin/org/jraf/slackbankbot/arguments/Arguments.kt:133 | at least one piece, and no piece contains the separator |
| Arguments.JoinSplit | src/main/kotlin/org/jraf/slackbankbot/arguments/Arguments.kt:133 | joining the pieces with the separator gives back the input |
| Arguments.SplitCount | src/main/kotlin/org/jraf/slackbankbot/arguments/Arguments.kt:133 | there is one more piece than there are separators |
| Arguments.SplitFirstTwo | src/main/kotlin/org/jraf/slackbankbot/arguments/Arguments.kt:133 | the first piece, a separator and the second piece start the input, and the second piece ends at the input's end or at a separator |
| Arguments.SplitAtFirst | src/main/kotlin/org/jraf/slackbankbot/arguments/Arguments.kt:133 | the text before the first separator is the first piece |
| Arguments.ToAccount | src/main/kotlin/org/jraf/slackbankbot/arguments/Arguments.kt:132-135 | throws `IndexOutOfBoundsException` iff the spec has no `:`; otherwise the name is the text before the first `:`, and the id is the text from there to the next `:` or the end |
| Arguments.ExtraPiecesDropped | src/main/kotlin/org/jraf/slackbankbot/arguments/Arguments.kt:133-134 | `name:id:rest` gives `Account(name, id)`; the rest is dropped |
| Arguments.Accounts | src/main/kotlin/org/jraf/slackbankbot/arguments/Arguments.kt:85 | returns iff every spec has a `:`; the accounts then have the same length and order as the specs, each being that spec's `toAccount` |
| JsonResponse.SelectDeserializer | src/main/kotlin/org/jraf/slackbankbot/nordigen/json/JsonTransactionsSuccessResponse.kt:53-59 | the error class iff the object has `summary`; the success class iff it has `transactions` and not `summary`; throws iff it is not an object or has neither key |
| JsonResponse.SelectionIgnoresValues | src/main/kotlin/org/jraf/slackbankbot/nordigen/json/JsonTransactionsSuccessResponse.kt:54-58 | two objects with the same presence of the two keys select the same class |
| JsonResponse.RequiredString | src/main/kotlin/org/jraf/slackbankbot/nordigen/json/JsonTransactionsSuccessResponse.kt:38-39 | a required string property reads iff it is present and a string |
| JsonResponse.IntLiteral | src/main/kotlin/org/jraf/slackbankbot/nordigen/json/JsonTransactionsSuccessResponse.kt:40 | an `Int` property reads a JSON number, or a string holding a decimal numeral, iff its value fits in 32 bits; anything else does not read |
| JsonResponse.IntLiteralRoundTrip | src/main/kotlin/org/jraf/slackbankbot/nordigen/json/JsonTransactionsSuccessResponse.kt:40 | every `Int` reads back from its number and from its quoted decimal text |
| JsonResponse.NullableString | src/main/kotlin/org/jraf/slackbankbot/nordigen/json/JsonTransactionsSuccessResponse.kt:71 | an absent `transactionId` reads as `null`, and so does a JSON `null` |
| JsonResponse.NullableInt | src/main/kotlin/org/jraf/slackbankbot/nordigen/json/JsonTransactionsSuccessResponse.kt:40 | an absent `status_code` reads as `null`, and so does a JSON `null`; otherwise it reads iff the value is a 32-bit `Int` literal, and then as that `Int` |
| JsonResponse.DecodeErrorResponse | src/main/kotlin/org/jraf/slackbankbot/nordigen/json/JsonTransactionsSuccessResponse.kt:36-41 | reads iff summary and detail are strings and status_code is absent, null or a 32-bit `Int`; summary and detail are then the object's strings, status_code its `Int` or `null` |
| JsonResponse.OversizedStatusCodeThrows | src/main/kotlin/org/jraf/slackbankbot/nordigen/json/JsonTransactionsSuccessResponse.kt:40 | a `status_code` of 2^32 makes the error body fail to deserialize |
| JsonResponse.ErrorResponseIgnoresUnknownKeys | src/main/kotlin/org/jraf/slackbankbot/nordigen/client/NordigenClient.kt:59 | adding or changing a key other than the class's properties does not change what is read |
| JsonResponse.DecodeStrings | src/main/kotlin/org/jraf/slackbankbot/nordigen/json/JsonTransactionsSuccessResponse.kt:74 | a list of strings reads iff every element is a string, element by element |
| JsonResponse.DecodeAmount | src/main/kotlin/org/jraf/slackbankbot/nordigen/json/JsonTransactionsSuccessResponse.kt:73 | an amount reads iff it is an object whose `amount` and `currency` are strings, and then holds those two strings |
| JsonResponse.DecodeTransaction | src/main/kotlin/org/jraf/slackbankbot/nordigen/json/JsonTransactionsSuccessResponse.kt:70-72 | a transaction that reads came from an object whose `internalTransactionId` and `bookingDate` are the strings it holds; an absent `transactionId` reads as `null` |
| JsonResponse.DecodeTransactionReads | src/main/kotlin/org/jraf/slackbankbot/nordigen/json/JsonTransactionsSuccessResponse.kt:68-75 | a transaction reads iff it is an object whose two required strings, optional `transactionId`, amount object and list of strings all read; each field of the result is then the value read from its property, and an absent `transactionId` gives `null` |
| JsonResponse.DecodeBooked | src/main/kotlin/org/jraf/slackbankbot/nordigen/json/JsonTransactionsSuccessResponse.kt:63-66 | the booked list reads iff every entry reads, one transaction per entry, in order |
| JsonResponse.DecodeSuccessResponse | src/main/kotlin/org/jraf/slackbankbot/nordigen/json/JsonTransactionsSuccessResponse.kt:46-48 | a success response only reads from a body whose `transactions` is an object |
| JsonResponse.DecodeSuccessResponseReads | src/main/kotlin/org/jraf/slackbankbot/nordigen/json/JsonTransactionsSuccessResponse.kt:46-49 | a success response reads iff `transactions` is an object whose `booked` is an array whose entries all read; `booked` is then the entries read, in order |
| JsonResponse.DeserializeResponse | src/main/kotlin/org/jraf/slackbankbot/nordigen/json/JsonTransactionsSuccessResponse.kt:51-60 | a failed selection throws its own exception; an error response only comes from an object with `summary`, a success response only from one with `transactions` and no `summary` |
| JsonResponse.DeserializeResponseReads | src/main/kotlin/org/jraf/slackbankbot/nordigen/json/JsonTransactionsSuccessResponse.kt:53-56 | once the error class is selected, the body returns iff it reads as an error response, and returns that response; likewise for the success class |
| JsonResponse.StringsRoundTrip | src/main/kotlin/org/jraf/slackbankbot/nordigen/json/JsonTransactionsSuccessResponse.kt:74 | encoded string lists read back unchanged |
| JsonResponse.TransactionRoundTrip | src/main/kotlin/org/jraf/slackbankbot/nordigen/json/JsonTransactionsSuccessResponse.kt:68-75 | an encoded transaction reads back unchanged, including a `null` `transactionId` |
| JsonResponse.ResponseRoundTrip | src/main/kotlin/org/jraf/slackbankbot/nordigen/json/JsonTransactionsSuccessResponse.kt:36-75 | every error or success response, encoded with defaults written out, deserializes back to itself |
| JsonResponse.ErrorResponseText | src/main/kotlin/org/jraf/slackbankbot/nordigen/client/NordigenClient.kt:110 | the error response's text is exactly `JsonErrorResponse(summary=…, detail=…, status_code=…)`: the fixed prefix with summary and detail, then `null` for a missing status code or its decimal numeral, then `)`, and nothing else (its length is the sum of those parts) |
| Outcomes.ResultToString | src/main/kotlin/main.kt:119 | the balance `Result` renders as `Success(<value>)` or `Failure(<exception>)` |
| Outcomes.SuccessTextDistinct | src/main/kotlin/main.kt:119 | the rendered balance identifies a successful `Result`: a success's text equals another result's text iff the two results are equal |
| Outcomes.Throwable.MessageText | src/main/kotlin/main.kt:96 | `${error.message}` is the message when there is one (and `null` otherwise) |
| Outcomes.Throwable.ToString | src/main/kotlin/main.kt:119 | an exception renders as its class name, followed by `: ` and the message when there is one |

## Left out

- The HTTP client, authentication and token refresh, `createEndUserAgreement`, `createRequisition`, the `renew` subcommand and `main`'s dispatch. They are library calls and I/O with no logic of their own; the service calls are inputs to `Cycle`.
- Posting to Slack: the message is `Cycle`'s result. A failing `chatPostMessage` would be caught by the catch-all after the map has been updated, which the model does not distinguish from a successful post.
- The `while (true)` loop, logging and the four-hour sleep. One call of `Cycle` is one iteration; the `Bot` object keeps the map between calls.
- The kotlinx.cli parser wiring and `ignoreInSpentEarned`, which the bot never reads. The positional arguments are given as strings.
- `JsonAmount` and `JsonBalancesResponse` are not part of this model. An amount is read as an object with the two string properties `amount` and `currency`, and a balance as the two properties `getBalance` reads.
- Raw-text JSON parsing: a body that is not valid JSON is an exception of the transactions call. JSON numbers are integers in `JsonValue`. A fractional `status_code`, which the source fails to read, cannot be expressed as a `JsonValue`.
- IntLiteral: a quoted `Int` is read as an optional `-` followed by decimal digits. Other spellings that Kotlin's number parsing may also accept, such as a leading `+`, are not modelled.
- Exception messages that are only logged are approximations: those of `jsonObject` and `error("Unknown JSON response")` omit the element's text, and decoding errors carry no message.
- The `else -> error(...)` branch of `getTransactions` has no counterpart, because the response type has exactly the two subclasses the deserializer produces.
- Concurrency: the coroutine runtime is not modelled; the calls of one cycle happen one after the other, as in the source.
