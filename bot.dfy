/** One polling cycle of the `bot` subcommand (`startBot`).  For each configured
    account in order the bot fetches its transactions; a failed fetch adds a
    warning block, a successful one adds the transactions not seen in the
    previous fetch of that account (with a header and the balance) and replaces
    what is remembered for the account.  The text is posted when it is not
    empty.  An exception anywhere in the cycle ends it without posting.

    The network is given as inputs: per account position, the outcome of the
    transactions call and of the balances call.  Posting is the method's result;
    the four-hour sleep that follows is the end of the step. */
module StartBot {
  import opened Outcomes
  import opened JsonResponse
  import opened NordigenClient
  import opened Arguments

  /** What the bank-data service answers for one account during one cycle. */
  datatype Responses = Responses(transactions: Call<JsonValue>, balances: Call<seq<JsonBalance>>)

  /** The transaction list last fetched for each account. */
  type Stored = map<Account, seq<Transaction>>

  /** `lastTransactions[account] ?: emptyList()`. */
  function StoredFor(last: Stored, account: Account): (r: seq<Transaction>)
    ensures account !in last ==> r == []
  {
    if account in last then last[account] else []
  }

  // ---------------------------------------------------------------------------
  // The difference between a fetch and the previous one.

  /** `transactions - lastSeen.toSet()`: the fetched transactions equal to none of
      the stored ones, in fetched order, repeats included. */
  function NewTransactions(fetched: seq<Transaction>, lastSeen: seq<Transaction>): (r: seq<Transaction>)
    ensures forall t :: t in r <==> t in fetched && t !in lastSeen
    ensures |r| <= |fetched|
  {
    if fetched == [] then []
    else (if fetched[0] in lastSeen then [] else [fetched[0]]) + NewTransactions(fetched[1..], lastSeen)
  }

  /** `a` is `b` with some elements removed, the rest in the same order. */
  ghost predicate IsSubsequence<T>(a: seq<T>, b: seq<T>)
    decreases |b|
  {
    if a == [] then true
    else if b == [] then false
    else if a[0] == b[0] then IsSubsequence(a[1..], b[1..])
    else IsSubsequence(a, b[1..])
  }

  /** The new transactions keep the fetched order, and each fetched transaction that
      is not stored is kept as many times as it was fetched. */
  lemma {:induction false} NewTransactionsIsFilter(fetched: seq<Transaction>, lastSeen: seq<Transaction>)
    ensures IsSubsequence(NewTransactions(fetched, lastSeen), fetched)
    ensures forall t :: multiset(NewTransactions(fetched, lastSeen))[t] ==
                        if t in lastSeen then 0 else multiset(fetched)[t]
  {
    if fetched != [] {
      NewTransactionsIsFilter(fetched[1..], lastSeen);
      assert fetched == [fetched[0]] + fetched[1..];
      assert multiset(fetched) == multiset([fetched[0]]) + multiset(fetched[1..]);
      var rest := NewTransactions(fetched[1..], lastSeen);
      if fetched[0] !in lastSeen {
        assert NewTransactions(fetched, lastSeen) == [fetched[0]] + rest;
        assert ([fetched[0]] + rest)[1..] == rest;
      } else {
        assert NewTransactions(fetched, lastSeen) == rest;
        SubsequenceOfTail(rest, fetched);
      }
    }
  }

  lemma {:induction false} SubsequenceOfTail<T>(a: seq<T>, b: seq<T>)
    requires b != [] && IsSubsequence(a, b[1..])
    ensures IsSubsequence(a, b)
    decreases |a| + |b|
  {
    if a != [] && a[0] == b[0] {
      // a[0] == b[0]: IsSubsequence(a[1..], b[1..]) follows from a being in b[1..].
      DropHead(a, b[1..]);
    }
  }

  lemma {:induction false} DropHead<T>(a: seq<T>, b: seq<T>)
    requires a != [] && IsSubsequence(a, b)
    ensures IsSubsequence(a[1..], b)
    decreases |a| + |b|
  {
    assert b != [];
    if a[0] == b[0] {
      if a[1..] != [] {
        DropHead(a[1..], b[1..]);
      }
      SubsequenceOfTail(a[1..], b);
    } else {
      DropHead(a, b[1..]);
      SubsequenceOfTail(a[1..], b);
    }
  }

  /** Nothing is new exactly when every fetched transaction is already stored. */
  lemma NothingNewWhenAllSeen(fetched: seq<Transaction>, lastSeen: seq<Transaction>)
    ensures NewTransactions(fetched, lastSeen) == [] <==> forall t :: t in fetched ==> t in lastSeen
  {
    if NewTransactions(fetched, lastSeen) != [] {
      assert NewTransactions(fetched, lastSeen)[0] in NewTransactions(fetched, lastSeen);
    }
  }

  /** With nothing stored, every fetched transaction is new: there is no first-run suppression. */
  lemma {:induction false} EverythingNewWhenNothingStored(fetched: seq<Transaction>)
    ensures NewTransactions(fetched, []) == fetched
  {
    if fetched != [] {
      EverythingNewWhenNothingStored(fetched[1..]);
      assert [fetched[0]] + fetched[1..] == fetched;
    }
  }

  // ---------------------------------------------------------------------------
  // The text of one account.

  /** The block for an account whose transactions could not be fetched. */
  function WarningBlock(name: string, error: Throwable): string
  {
    "_" + name + "_\n" + ":warning: Error getting transactions: " + error.MessageText() + "\n\n"
  }

  /** The account's name in italics, on a line of its own. */
  function Header(name: string): string
  {
    "_" + name + "_\n"
  }

  /** The marker before an amount: a red triangle for a debit (an amount starting with `-`). */
  function Marker(amount: string): (r: string)
    ensures r == "\U{1F53B}" <==> |amount| > 0 && amount[0] == '-'
    ensures r == ":small_green_triangle:" <==> !(|amount| > 0 && amount[0] == '-')
  {
    if |amount| > 0 && amount[0] == '-' then "\U{1F53B}" else ":small_green_triangle:"
  }

  /** A transaction's line: the marker, the amount in bold, then the label. */
  function TransactionLine(t: Transaction): string
  {
    Marker(t.amount) + " *" + t.amount + "* - " + t.labelText + "\n"
  }

  /** One line per transaction, in the given order. */
  function TransactionLines(ts: seq<Transaction>): string
  {
    if ts == [] then "" else TransactionLines(ts[..|ts| - 1]) + TransactionLine(ts[|ts| - 1])
  }

  /** One more transaction adds its line at the end. */
  lemma TransactionLinesStep(ts: seq<Transaction>, j: nat)
    requires j < |ts|
    ensures TransactionLines(ts[..j + 1]) == TransactionLines(ts[..j]) + TransactionLine(ts[j])
  {
    assert ts[..j + 1][..j] == ts[..j];
  }

  /** The lines of two runs of transactions are the lines of the first, then those of the second. */
  lemma {:induction false} TransactionLinesAppend(a: seq<Transaction>, b: seq<Transaction>)
    ensures TransactionLines(a + b) == TransactionLines(a) + TransactionLines(b)
    decreases |b|
  {
    if b != [] {
      var front, last := b[..|b| - 1], b[|b| - 1];
      assert (a + b)[..|a + b| - 1] == a + front;
      assert TransactionLines(a + b) == TransactionLines(a + front) + TransactionLine(last);
      TransactionLinesAppend(a, front);
      assert TransactionLines(b) == TransactionLines(front) + TransactionLine(last);
      Associative(TransactionLines(a), TransactionLines(front), TransactionLine(last));
    } else {
      assert a + b == a;
    }
  }

  /** The balance line; the balance `Result` is rendered by its own `toString`. */
  function BalanceLine(name: string, balance: Result<string>): string
  {
    ":sum: _" + name + "_ balance: *" + ResultToString(balance) + "*" + "\n\n"
  }

  /** What one account adds to the message: a warning when its transactions could
      not be fetched, or a section with its new transactions and its balance. */
  datatype Block =
    | Warning(name: string, error: Throwable)
    | Section(name: string, newTransactions: seq<Transaction>, balance: Result<string>)

  function BlockText(b: Block): (r: string)
    ensures |r| > 0 && r[0] == '_'
  {
    match b
    case Warning(name, error) => WarningBlock(name, error)
    case Section(name, newTransactions, balance) =>
      Header(name) + TransactionLines(newTransactions) + BalanceLine(name, balance)
  }

  /** The message text: the blocks' texts, in order. */
  function Render(blocks: seq<Block>): string
  {
    if blocks == [] then "" else Render(blocks[..|blocks| - 1]) + BlockText(blocks[|blocks| - 1])
  }

  lemma RenderAppend(blocks: seq<Block>, b: Block)
    ensures Render(blocks + [b]) == Render(blocks) + BlockText(b)
  {
    assert (blocks + [b])[..|blocks + [b]| - 1] == blocks;
  }

  /** Every block has text, so the message is empty exactly when no block was added. */
  lemma RenderEmpty(blocks: seq<Block>)
    ensures Render(blocks) == "" <==> blocks == []
  {
    if blocks != [] {
      assert |Render(blocks)| >= |BlockText(blocks[|blocks| - 1])| > 0;
    }
  }

  /** The message begins with the text of the first account that added a block. */
  lemma {:induction false} RenderStartsWithFirst(blocks: seq<Block>)
    requires blocks != []
    ensures BlockText(blocks[0]) <= Render(blocks)
  {
    var prefix := blocks[..|blocks| - 1];
    if prefix == [] {
      assert Render(blocks) == BlockText(blocks[0]);
    } else {
      RenderStartsWithFirst(prefix);
      assert Render(blocks) == Render(prefix) + BlockText(blocks[|blocks| - 1]);
    }
  }

  // How many lines the text takes.

  /** The number of line breaks in a text. */
  function LineBreaks(text: string): nat
  {
    if text == [] then 0 else LineBreaks(text[..|text| - 1]) + (if text[|text| - 1] == '\n' then 1 else 0)
  }

  lemma {:induction false} LineBreaksAppend(a: string, b: string)
    ensures LineBreaks(a + b) == LineBreaks(a) + LineBreaks(b)
    decreases |b|
  {
    if b == [] {
      assert a + b == a;
    } else {
      assert (a + b)[..|a + b| - 1] == a + b[..|b| - 1];
      LineBreaksAppend(a, b[..|b| - 1]);
    }
  }

  lemma {:induction false} NoLineBreaks(text: string)
    requires '\n' !in text
    ensures LineBreaks(text) == 0
  {
    if text != [] {
      assert text[|text| - 1] in text;
      assert forall c :: c in text[..|text| - 1] ==> c in text;
      NoLineBreaks(text[..|text| - 1]);
    }
  }

  /** A transaction whose amount and label hold no line break. */
  predicate OneLine(t: Transaction)
  {
    '\n' !in t.amount && '\n' !in t.labelText
  }

  /** The header puts the account's name, between underscores, on a line of its own. */
  lemma HeaderIsOneLine(name: string)
    requires '\n' !in name
    ensures LineBreaks(Header(name)) == 1
    ensures Header(name)[|Header(name)| - 1] == '\n'
    ensures Header(name)[0] == '_' && Header(name)[1..|name| + 1] == name && Header(name)[|name| + 1..] == "_\n"
  {
    var head := "_" + name + "_";
    assert '\n' !in head;
    NoLineBreaks(head);
    LineBreaksAppend(head, "\n");
    assert Header(name) == head + "\n";
  }

  /** A transaction's line starts with its marker and takes exactly one line. */
  lemma TransactionLineIsOneLine(t: Transaction)
    requires OneLine(t)
    ensures Marker(t.amount) <= TransactionLine(t)
    ensures LineBreaks(TransactionLine(t)) == 1
    ensures TransactionLine(t)[|TransactionLine(t)| - 1] == '\n'
  {
    var marker := Marker(t.amount);
    var rest := " *" + t.amount + "* - " + t.labelText;
    assert '\n' !in marker;
    assert '\n' !in rest;
    NoLineBreaks(marker);
    NoLineBreaks(rest);
    LineBreaksAppend(marker, rest);
    LineBreaksAppend(marker + rest, "\n");
    assert TransactionLine(t) == marker + rest + "\n";
    assert (marker + rest + "\n")[..|marker|] == marker;
  }

  /** The transactions' lines take one line per transaction. */
  lemma {:induction false} TransactionLinesCount(ts: seq<Transaction>)
    requires forall i :: 0 <= i < |ts| ==> OneLine(ts[i])
    ensures LineBreaks(TransactionLines(ts)) == |ts|
  {
    if ts != [] {
      TransactionLinesCount(ts[..|ts| - 1]);
      TransactionLineIsOneLine(ts[|ts| - 1]);
      LineBreaksAppend(TransactionLines(ts[..|ts| - 1]), TransactionLine(ts[|ts| - 1]));
    }
  }

  /** The balance line takes one line, and a blank line closes the section. */
  lemma BalanceLineEndsSection(name: string, balance: Result<string>)
    requires '\n' !in name && '\n' !in ResultToString(balance)
    ensures LineBreaks(BalanceLine(name, balance)) == 2
    ensures BalanceLine(name, balance)[|BalanceLine(name, balance)| - 2..] == "\n\n"
  {
    var head := ":sum: _" + name + "_ balance: *" + ResultToString(balance) + "*";
    assert BalanceLine(name, balance) == head + "\n\n";
    assert '\n' !in head;
    NoLineBreaks(head);
    LineBreaksAppend(head, "\n\n");
    assert (head + "\n\n")[|head|..] == "\n\n";
  }

  /** A section takes the header's line, one line per new transaction and the
      balance line, then a blank line. */
  lemma SectionLines(name: string, newTransactions: seq<Transaction>, balance: Result<string>)
    requires '\n' !in name && '\n' !in ResultToString(balance)
    requires forall i :: 0 <= i < |newTransactions| ==> OneLine(newTransactions[i])
    ensures LineBreaks(BlockText(Section(name, newTransactions, balance))) == |newTransactions| + 3
  {
    HeaderIsOneLine(name);
    TransactionLinesCount(newTransactions);
    BalanceLineEndsSection(name, balance);
    LineBreaksAppend(Header(name), TransactionLines(newTransactions));
    LineBreaksAppend(Header(name) + TransactionLines(newTransactions), BalanceLine(name, balance));
  }

  /** A warning takes the header's line and the warning's line, then a blank line. */
  lemma WarningLines(name: string, error: Throwable)
    requires '\n' !in name && '\n' !in error.MessageText()
    ensures LineBreaks(BlockText(Warning(name, error))) == 3
    ensures BlockText(Warning(name, error))[|BlockText(Warning(name, error))| - 2..] == "\n\n"
  {
    var head := "_" + name;
    var warning := ":warning: Error getting transactions: ";
    var message := error.MessageText();
    assert LineBreaks(head) == 0 by {
      assert '\n' !in head;
      NoLineBreaks(head);
    }
    assert LineBreaks(warning) == 0 by {
      NoLineBreaks(warning);
    }
    NoLineBreaks(message);
    LineBreaksAppend(head, "_\n");
    LineBreaksAppend(head + "_\n", warning);
    LineBreaksAppend(head + "_\n" + warning, message);
    LineBreaksAppend(head + "_\n" + warning + message, "\n\n");
  }

  lemma Associative(a: string, b: string, c: string)
    ensures a + b + c == a + (b + c)
  {
  }

  /** Appending the header, the lines and the balance line one after the other appends a section. */
  lemma SectionAppended(text: string, name: string, newTransactions: seq<Transaction>, balance: Result<string>)
    ensures text + Header(name) + TransactionLines(newTransactions) + BalanceLine(name, balance)
            == text + BlockText(Section(name, newTransactions, balance))
  {
    var h, l, b := Header(name), TransactionLines(newTransactions), BalanceLine(name, balance);
    Associative(text + h, l, b);
    Associative(text, h, l + b);
    Associative(h, l, b);
  }

  // ---------------------------------------------------------------------------
  // The functional specification of a cycle.

  /** What the client reports for one account: the `getTransactions` outcome and
      the `getBalance` result (the latter is only looked at when something is new). */
  datatype Answers = Answers(transactions: Call<Result<seq<Transaction>>>, balance: Result<string>)

  function AnswersOf(r: Responses): Answers
  {
    Answers(GetTransactions(r.transactions), GetBalance(r.balances))
  }

  /** The answers for every account position, in order. */
  function AnswerSeq(responses: seq<Responses>): (r: seq<Answers>)
    ensures |r| == |responses|
  {
    if responses == [] then [] else AnswerSeq(responses[..|responses| - 1]) + [AnswersOf(responses[|responses| - 1])]
  }

  lemma {:induction false} AnswerAt(responses: seq<Responses>, k: nat)
    requires k < |responses|
    ensures AnswerSeq(responses)[k] == AnswersOf(responses[k])
  {
    if k < |responses| - 1 {
      AnswerAt(responses[..|responses| - 1], k);
    }
  }

  /** One account's step either throws, or updates what is stored and adds at most one block. */
  datatype AccountOutcome = Aborted | Completed(last: Stored, block: Option<Block>)

  /** The body of the loop over accounts, for one account. */
  function ProcessAccount(last: Stored, account: Account, answers: Answers): (r: AccountOutcome)
    ensures r.Aborted? <==> answers.transactions.Threw?
  {
    match answers.transactions
    case Threw(_) => Aborted
    case Returned(Failure(error)) => Completed(last, Some(Warning(account.name, error)))
    case Returned(Success(transactions)) =>
      var newTransactions := NewTransactions(transactions, StoredFor(last, account));
      Completed(last[account := transactions],
                if newTransactions == [] then None else Some(Section(account.name, newTransactions, answers.balance)))
  }

  /** The state and blocks after the first `n` accounts, and whether one of them threw. */
  datatype Progress = Progress(last: Stored, blocks: seq<Block>, aborted: bool)

  function RunAccounts(last: Stored, accounts: seq<Account>, answers: seq<Answers>, n: nat): Progress
    requires n <= |accounts| && |accounts| == |answers|
  {
    if n == 0 then Progress(last, [], false)
    else
      var p := RunAccounts(last, accounts, answers, n - 1);
      if p.aborted then p
      else
        match ProcessAccount(p.last, accounts[n - 1], answers[n - 1])
        case Aborted => p.(aborted := true)
        case Completed(l, None) => Progress(l, p.blocks, false)
        case Completed(l, Some(b)) => Progress(l, p.blocks + [b], false)
  }

  /** One more account: `RunAccounts` at `n + 1` in terms of `RunAccounts` at `n`. */
  lemma RunStep(last: Stored, accounts: seq<Account>, answers: seq<Answers>, n: nat)
    requires n < |accounts| && |accounts| == |answers|
    requires !RunAccounts(last, accounts, answers, n).aborted
    ensures var p := RunAccounts(last, accounts, answers, n);
            RunAccounts(last, accounts, answers, n + 1) ==
              match ProcessAccount(p.last, accounts[n], answers[n])
              case Aborted => p.(aborted := true)
              case Completed(l, None) => Progress(l, p.blocks, false)
              case Completed(l, Some(b)) => Progress(l, p.blocks + [b], false)
  {
  }

  /** An account that does not throw keeps the run going, with its entry and its block (if any). */
  lemma RunStepCompleted(last: Stored, accounts: seq<Account>, answers: seq<Answers>, n: nat)
    requires n < |accounts| && |accounts| == |answers|
    requires !RunAccounts(last, accounts, answers, n).aborted
    requires answers[n].transactions.Returned?
    ensures var p := RunAccounts(last, accounts, answers, n);
            var o := ProcessAccount(p.last, accounts[n], answers[n]);
            o.Completed?
            && RunAccounts(last, accounts, answers, n + 1)
               == Progress(o.last, if o.block.Some? then p.blocks + [o.block.value] else p.blocks, false)
  {
    RunStep(last, accounts, answers, n);
  }

  datatype CycleOutcome = CycleOutcome(last: Stored, posted: Option<string>)

  /** One iteration of the `while (true)` loop: what is remembered afterwards and what is posted. */
  function CycleOf(last: Stored, accountSpecs: seq<string>, responses: seq<Responses>): CycleOutcome
    requires |responses| == |accountSpecs|
  {
    match Accounts(accountSpecs)
    case Threw(_) => CycleOutcome(last, None)
    case Returned(accounts) =>
      var p := RunAccounts(last, accounts, AnswerSeq(responses), |accounts|);
      var text := Render(p.blocks);
      CycleOutcome(p.last, if p.aborted || text == "" then None else Some(text))
  }

  // ---------------------------------------------------------------------------
  // Properties of one account's step.

  /** A failed fetch leaves what is stored as it was and adds exactly the warning block. */
  lemma FailedFetch(last: Stored, account: Account, answers: Answers, error: Throwable)
    requires answers.transactions == Returned(Failure(error))
    ensures ProcessAccount(last, account, answers) == Completed(last, Some(Warning(account.name, error)))
    ensures BlockText(Warning(account.name, error)) ==
              "_" + account.name + "_\n" + ":warning: Error getting transactions: " + error.MessageText() + "\n\n"
  {
  }

  /** A successful fetch is stored for the account whether or not anything was new. */
  lemma SuccessfulFetchStored(last: Stored, account: Account, answers: Answers, transactions: seq<Transaction>)
    requires answers.transactions == Returned(Success(transactions))
    ensures var r := ProcessAccount(last, account, answers);
            r.Completed? && r.last == last[account := transactions]
  {
  }

  /** One account's step after a successful fetch, spelled out. */
  lemma SuccessStep(last: Stored, account: Account, answers: Answers, transactions: seq<Transaction>)
    requires answers.transactions == Returned(Success(transactions))
    ensures var newTransactions := NewTransactions(transactions, StoredFor(last, account));
            ProcessAccount(last, account, answers) ==
              Completed(last[account := transactions],
                        if newTransactions == [] then None else Some(Section(account.name, newTransactions, answers.balance)))
  {
  }

  /** Whatever the outcome, one account's step changes no other account's entry. */
  lemma OnlyOwnEntryChanges(last: Stored, account: Account, answers: Answers)
    ensures var r := ProcessAccount(last, account, answers);
            r.Completed? ==>
              && (forall a :: a != account ==> (a in r.last <==> a in last))
              && (forall a :: a != account && a in last ==> r.last[a] == last[a])
  {
  }

  /** After a successful fetch, the account adds a block exactly when something is new;
      the block then lists the new transactions, in fetched order, with the balance. */
  lemma SectionOnlyWhenNew(last: Stored, account: Account, answers: Answers, transactions: seq<Transaction>)
    requires answers.transactions == Returned(Success(transactions))
    ensures var r := ProcessAccount(last, account, answers);
            var newTransactions := NewTransactions(transactions, StoredFor(last, account));
            && r.Completed?
            && (r.block.None? <==> forall t :: t in transactions ==> t in StoredFor(last, account))
            && (r.block.Some? ==> r.block.value == Section(account.name, newTransactions, answers.balance))
  {
    NothingNewWhenAllSeen(transactions, StoredFor(last, account));
  }

  /** An account fetched for the first time reports every fetched transaction. */
  lemma FirstFetchReportsAll(last: Stored, account: Account, answers: Answers, transactions: seq<Transaction>)
    requires answers.transactions == Returned(Success(transactions))
    requires account !in last && transactions != []
    ensures ProcessAccount(last, account, answers).block == Some(Section(account.name, transactions, answers.balance))
  {
    EverythingNewWhenNothingStored(transactions);
  }

  // ---------------------------------------------------------------------------
  // Properties of a cycle.

  /** Once an account has thrown, the later accounts are not processed. */
  lemma {:induction false} AbortPersists(last: Stored, accounts: seq<Account>, answers: seq<Answers>, m: nat, n: nat)
    requires m <= n <= |accounts| && |accounts| == |answers|
    requires RunAccounts(last, accounts, answers, m).aborted
    ensures RunAccounts(last, accounts, answers, n) == RunAccounts(last, accounts, answers, m)
    decreases n
  {
    if n > m {
      AbortPersists(last, accounts, answers, m, n - 1);
    }
  }

  /** The message is posted exactly when no account threw and some account added a
      block, and it is then the text of all the blocks, in account order. */
  lemma PostedIffBlocks(last: Stored, accountSpecs: seq<string>, responses: seq<Responses>)
    requires |responses| == |accountSpecs|
    ensures var c := CycleOf(last, accountSpecs, responses);
            c.posted.Some? <==>
              Accounts(accountSpecs).Returned?
              && var p := RunAccounts(last, Accounts(accountSpecs).value, AnswerSeq(responses), |accountSpecs|);
                 !p.aborted && p.blocks != []
    ensures var c := CycleOf(last, accountSpecs, responses);
            c.posted.Some? ==>
              c.posted.value == Render(RunAccounts(last, Accounts(accountSpecs).value, AnswerSeq(responses), |accountSpecs|).blocks)
  {
    if Accounts(accountSpecs).Returned? {
      RenderEmpty(RunAccounts(last, Accounts(accountSpecs).value, AnswerSeq(responses), |accountSpecs|).blocks);
    }
  }

  /** When the account at position `k` throws, nothing is posted, and what the earlier
      accounts stored stays stored; the later accounts are not looked at. */
  lemma ThrowAbortsCycle(last: Stored, accountSpecs: seq<string>, responses: seq<Responses>, k: nat)
    requires |responses| == |accountSpecs| && k < |accountSpecs|
    requires Accounts(accountSpecs).Returned?
    requires !RunAccounts(last, Accounts(accountSpecs).value, AnswerSeq(responses), k).aborted
    requires GetTransactions(responses[k].transactions).Threw?
    ensures CycleOf(last, accountSpecs, responses).posted == None
    ensures CycleOf(last, accountSpecs, responses).last ==
              RunAccounts(last, Accounts(accountSpecs).value, AnswerSeq(responses), k).last
  {
    var accounts := Accounts(accountSpecs).value;
    AnswerAt(responses, k);
    RunStep(last, accounts, AnswerSeq(responses), k);
    AbortPersists(last, accounts, AnswerSeq(responses), k + 1, |accounts|);
  }

  /** A malformed account spec makes every cycle throw before any fetch. */
  lemma MalformedSpecAbortsCycle(last: Stored, accountSpecs: seq<string>, responses: seq<Responses>, k: nat)
    requires |responses| == |accountSpecs| && k < |accountSpecs| && ':' !in accountSpecs[k]
    ensures CycleOf(last, accountSpecs, responses) == CycleOutcome(last, None)
  {
  }

  /** Accounts that are not configured keep what is stored for them. */
  lemma {:induction false} UnlistedAccountsUnchanged(last: Stored, accounts: seq<Account>, answers: seq<Answers>, n: nat, a: Account)
    requires n <= |accounts| && |accounts| == |answers|
    requires a !in accounts
    ensures var p := RunAccounts(last, accounts, answers, n);
            (a in p.last <==> a in last) && (a in last ==> p.last[a] == last[a])
  {
    if n > 0 {
      UnlistedAccountsUnchanged(last, accounts, answers, n - 1, a);
      var p := RunAccounts(last, accounts, answers, n - 1);
      if !p.aborted {
        RunStep(last, accounts, answers, n - 1);
        OnlyOwnEntryChanges(p.last, accounts[n - 1], answers[n - 1]);
      }
    }
  }

  /** Entries are only ever replaced or added, never removed, and each account adds at most one block. */
  lemma {:induction false} EntriesNeverRemoved(last: Stored, accounts: seq<Account>, answers: seq<Answers>, n: nat)
    requires n <= |accounts| && |accounts| == |answers|
    ensures last.Keys <= RunAccounts(last, accounts, answers, n).last.Keys
    ensures |RunAccounts(last, accounts, answers, n).blocks| <= n
  {
    if n > 0 {
      EntriesNeverRemoved(last, accounts, answers, n - 1);
      if !RunAccounts(last, accounts, answers, n - 1).aborted {
        RunStep(last, accounts, answers, n - 1);
      }
    }
  }

  /** A cycle never forgets an account: what is stored afterwards has every key it had
      before.  A posted message begins with the text of some account's block. */
  lemma CycleKeepsEntries(last: Stored, accountSpecs: seq<string>, responses: seq<Responses>)
    requires |responses| == |accountSpecs|
    ensures last.Keys <= CycleOf(last, accountSpecs, responses).last.Keys
    ensures CycleOf(last, accountSpecs, responses).posted.Some? ==> CycleOf(last, accountSpecs, responses).posted.value[0] == '_'
    ensures CycleOf(last, accountSpecs, responses).posted.Some? ==>
              exists b :: BlockText(b) <= CycleOf(last, accountSpecs, responses).posted.value
  {
    if Accounts(accountSpecs).Returned? {
      var accounts := Accounts(accountSpecs).value;
      var p := RunAccounts(last, accounts, AnswerSeq(responses), |accounts|);
      EntriesNeverRemoved(last, accounts, AnswerSeq(responses), |accounts|);
      if p.blocks != [] {
        RenderStartsWithFirst(p.blocks);
      } else {
        RenderEmpty(p.blocks);
      }
    }
  }

  /** Every fetch among the first `n` answers succeeds. */
  predicate FetchedUpTo(answers: seq<Answers>, n: nat)
    requires n <= |answers|
  {
    n == 0 || (answers[n - 1].transactions.Returned? && answers[n - 1].transactions.value.Success?
               && FetchedUpTo(answers, n - 1))
  }

  /** Every fetch of the cycle succeeds. */
  predicate AllFetched(answers: seq<Answers>)
  {
    FetchedUpTo(answers, |answers|)
  }

  lemma {:induction false} FetchedUpToMeans(answers: seq<Answers>, n: nat)
    requires n <= |answers|
    ensures FetchedUpTo(answers, n) <==>
              forall k :: 0 <= k < n ==> answers[k].transactions.Returned? && answers[k].transactions.value.Success?
  {
    if n > 0 {
      FetchedUpToMeans(answers, n - 1);
    }
  }

  /** The first `n` accounts are pairwise different. */
  predicate DistinctUpTo(accounts: seq<Account>, n: nat)
    requires n <= |accounts|
  {
    n == 0 || (accounts[n - 1] !in accounts[..n - 1] && DistinctUpTo(accounts, n - 1))
  }

  predicate Distinct(accounts: seq<Account>)
  {
    DistinctUpTo(accounts, |accounts|)
  }

  lemma {:induction false} DistinctUpToMeans(accounts: seq<Account>, n: nat)
    requires n <= |accounts|
    ensures DistinctUpTo(accounts, n) <==> forall i, j :: 0 <= i < j < n ==> accounts[i] != accounts[j]
  {
    if n > 0 {
      DistinctUpToMeans(accounts, n - 1);
      if accounts[n - 1] in accounts[..n - 1] {
        var i :| 0 <= i < n - 1 && accounts[..n - 1][i] == accounts[n - 1];
        assert accounts[i] == accounts[n - 1];
      } else {
        forall i | 0 <= i < n - 1
          ensures accounts[i] != accounts[n - 1]
        {
          assert accounts[i] == accounts[..n - 1][i];
        }
      }
    }
  }

  /** Each of the first `n` accounts has exactly its own fetch stored. */
  predicate StoredUpTo(last: Stored, accounts: seq<Account>, answers: seq<Answers>, n: nat)
    requires n <= |accounts| && |accounts| == |answers| && FetchedUpTo(answers, n)
  {
    n == 0 || (accounts[n - 1] in last && last[accounts[n - 1]] == answers[n - 1].transactions.value.value
               && StoredUpTo(last, accounts, answers, n - 1))
  }

  /** Storing for an account outside the first `m` keeps what they have stored. */
  lemma {:induction false} StoredUpToUpdate(last: Stored, account: Account, transactions: seq<Transaction>,
                                            accounts: seq<Account>, answers: seq<Answers>, m: nat)
    requires m <= |accounts| && |accounts| == |answers| && FetchedUpTo(answers, m)
    requires account !in accounts[..m] && StoredUpTo(last, accounts, answers, m)
    ensures StoredUpTo(last[account := transactions], accounts, answers, m)
  {
    if m > 0 {
      assert accounts[m - 1] == accounts[..m][m - 1];
      assert accounts[..m - 1] == accounts[..m][..m - 1];
      StoredUpToUpdate(last, account, transactions, accounts, answers, m - 1);
    }
  }

  /** When every fetch succeeds, no account aborts the run. */
  lemma {:induction false} NeverAborted(last: Stored, accounts: seq<Account>, answers: seq<Answers>, n: nat)
    requires n <= |accounts| && |accounts| == |answers|
    requires FetchedUpTo(answers, n)
    ensures !RunAccounts(last, accounts, answers, n).aborted
  {
    if n > 0 {
      NeverAborted(last, accounts, answers, n - 1);
      RunStep(last, accounts, answers, n - 1);
    }
  }

  /** With distinct accounts and every fetch successful, each processed account then
      has its own fetch stored. */
  lemma {:induction false} StoredAfterRun(last: Stored, accounts: seq<Account>, answers: seq<Answers>, n: nat)
    requires n <= |accounts| && |accounts| == |answers|
    requires FetchedUpTo(answers, n) && DistinctUpTo(accounts, n)
    ensures !RunAccounts(last, accounts, answers, n).aborted
    ensures StoredUpTo(RunAccounts(last, accounts, answers, n).last, accounts, answers, n)
  {
    NeverAborted(last, accounts, answers, n);
    if n > 0 {
      StoredAfterRun(last, accounts, answers, n - 1);
      RunStep(last, accounts, answers, n - 1);
      var p := RunAccounts(last, accounts, answers, n - 1);
      var transactions := answers[n - 1].transactions.value.value;
      SuccessfulFetchStored(p.last, accounts[n - 1], answers[n - 1], transactions);
      StoredUpToUpdate(p.last, accounts[n - 1], transactions, accounts, answers, n - 1);
    }
  }

  /** An account whose fetch equals what is stored for it adds no block and changes nothing. */
  lemma QuietAccount(last: Stored, account: Account, answers: Answers, transactions: seq<Transaction>)
    requires answers.transactions == Returned(Success(transactions))
    requires account in last && last[account] == transactions
    ensures ProcessAccount(last, account, answers) == Completed(last, None)
  {
    NothingNewWhenAllSeen(transactions, transactions);
    assert last[account := transactions] == last;
  }

  /** When every account already has exactly its fetch stored, the accounts add no
      block and change nothing. */
  lemma {:induction false} QuietRun(last: Stored, accounts: seq<Account>, answers: seq<Answers>, n: nat)
    requires n <= |accounts| && |accounts| == |answers|
    requires FetchedUpTo(answers, n) && StoredUpTo(last, accounts, answers, n)
    ensures RunAccounts(last, accounts, answers, n) == Progress(last, [], false)
  {
    if n > 0 {
      QuietRun(last, accounts, answers, n - 1);
      QuietAccount(last, accounts[n - 1], answers[n - 1], answers[n - 1].transactions.value.value);
      RunStep(last, accounts, answers, n - 1);
    }
  }

  /** Fetching the same lists again posts nothing and changes nothing: a cycle
      repeated on unchanged answers is silent. */
  lemma CycleIdempotent(last: Stored, accountSpecs: seq<string>, responses: seq<Responses>)
    requires |responses| == |accountSpecs|
    requires Accounts(accountSpecs).Returned? && Distinct(Accounts(accountSpecs).value)
    requires AllFetched(AnswerSeq(responses))
    ensures var first := CycleOf(last, accountSpecs, responses);
            CycleOf(first.last, accountSpecs, responses) == CycleOutcome(first.last, None)
  {
    var accounts := Accounts(accountSpecs).value;
    var answers := AnswerSeq(responses);
    StoredAfterRun(last, accounts, answers, |accounts|);
    var p := RunAccounts(last, accounts, answers, |accounts|);
    assert CycleOf(last, accountSpecs, responses).last == p.last;
    QuietRun(p.last, accounts, answers, |accounts|);
  }

  /** The `for` loop over the new transactions: one line each, appended in order. */
  method AppendTransactionLines(text: string, newTransactions: seq<Transaction>) returns (result: string)
    ensures result == text + TransactionLines(newTransactions)
  {
    result := text;
    var j := 0;
    while j < |newTransactions|
      invariant 0 <= j <= |newTransactions|
      invariant result == text + TransactionLines(newTransactions[..j])
    {
      TransactionLinesStep(newTransactions, j);
      Associative(text, TransactionLines(newTransactions[..j]), TransactionLine(newTransactions[j]));
      result := result + TransactionLine(newTransactions[j]);
      j := j + 1;
    }
    assert newTransactions[..j] == newTransactions;
  }

  // ---------------------------------------------------------------------------
  // The bot.

  class Bot {
    /** `lastTransactions`: the list last fetched for each account. */
    var lastTransactions: Stored

    constructor ()
      ensures lastTransactions == map[]
    {
      lastTransactions := map[];
    }

    /** The body of the loop over accounts, once the account's transactions were
        fetched without throwing: a failed fetch appends a warning; a successful one
        is stored for the account and, when something is new, appends the header, one
        line per new transaction and the balance fetched then. */
    method Visit(account: Account, fetched: Result<seq<Transaction>>, balances: Call<seq<JsonBalance>>, text: string)
      returns (newText: string)
      modifies this
      ensures var o := ProcessAccount(old(lastTransactions), account, Answers(Returned(fetched), GetBalance(balances)));
              && o.Completed?
              && lastTransactions == o.last
              && newText == text + (if o.block.Some? then BlockText(o.block.value) else "")
    {
      ghost var answers := Answers(Returned(fetched), GetBalance(balances));
      match fetched {
        case Failure(error) =>
          FailedFetch(lastTransactions, account, answers, error);
          newText := text + WarningBlock(account.name, error);
        case Success(transactions) =>
          var newTransactions := NewTransactions(transactions, StoredFor(lastTransactions, account));
          SuccessStep(lastTransactions, account, answers, transactions);
          newText := text;
          if newTransactions != [] {
            newText := newText + Header(account.name);
          }
          newText := AppendTransactionLines(newText, newTransactions);
          lastTransactions := lastTransactions[account := transactions];
          if newTransactions != [] {
            var balance := GetBalance(balances);
            newText := newText + BalanceLine(account.name, balance);
            SectionAppended(text, account.name, newTransactions, balance);
          } else {
            assert newText == text + "";
          }
      }
    }

    /** One cycle: returns the message handed to Slack, if any. */
    method Cycle(accountSpecs: seq<string>, responses: seq<Responses>) returns (posted: Option<string>)
      requires |responses| == |accountSpecs|
      modifies this
      ensures lastTransactions == CycleOf(old(lastTransactions), accountSpecs, responses).last
      ensures posted == CycleOf(old(lastTransactions), accountSpecs, responses).posted
    {
      var accountsCall := Accounts(accountSpecs);
      if accountsCall.Threw? {
        return None;
      }
      var accounts := accountsCall.value;
      ghost var answers := AnswerSeq(responses);
      ghost var blocks: seq<Block> := [];
      var text := "";
      var i := 0;
      while i < |accounts|
        invariant 0 <= i <= |accounts|
        invariant RunAccounts(old(lastTransactions), accounts, answers, i) == Progress(lastTransactions, blocks, false)
        invariant text == Render(blocks)
      {
        var account := accounts[i];
        var transactionsResult := GetTransactions(responses[i].transactions);
        AnswerAt(responses, i);
        if transactionsResult.Threw? {
          RunStep(old(lastTransactions), accounts, answers, i);
          AbortPersists(old(lastTransactions), accounts, answers, i + 1, |accounts|);
          return None;
        }
        assert answers[i] == Answers(Returned(transactionsResult.value), GetBalance(responses[i].balances));
        RunStepCompleted(old(lastTransactions), accounts, answers, i);
        ghost var outcome := ProcessAccount(lastTransactions, account, answers[i]);
        text := Visit(account, transactionsResult.value, responses[i].balances, text);
        if outcome.block.Some? {
          RenderAppend(blocks, outcome.block.value);
          blocks := blocks + [outcome.block.value];
        }
        i := i + 1;
      }
      RenderEmpty(blocks);
      if text != "" {
        posted := Some(text);
      } else {
        posted := None;
      }
    }
  }
}
