/** The wallet page: the deposit form, which reads the typed amount with `parseInt` and
    credits it through the session, and the quick statistics computed over the
    transaction history. */
module Wallet {
  import opened Common
  import opened Auth
  import opened NumberParsing

  /** One line of the transaction history; `kind` is the record's `type` field. */
  datatype Transaction = Transaction(id: string, kind: string, amount: int, tournamentName: Option<string>)

  /** The history the page shows: two deposits and two tournament entries. */
  const MOCK_TRANSACTIONS: seq<Transaction> := [
    Transaction("1", "deposit", 500, None),
    Transaction("2", "tournament", -100, Some("Free Fire Weekly Cup")),
    Transaction("3", "deposit", 200, None),
    Transaction("4", "tournament", -50, Some("BGMI Pro League"))
  ]

  predicate IsDeposit(t: Transaction) { t.kind == "deposit" }

  predicate IsEntry(t: Transaction) { t.kind == "tournament" }

  /** `ts.reduce((sum, t) => sum + t.amount, 0)`; the reduction folds from the left,
      and since whole-number addition is associative the sum is taken from the front. */
  function SumAmounts(ts: seq<Transaction>): int
  {
    if ts == [] then 0 else ts[0].amount + SumAmounts(ts[1..])
  }

  function Abs(x: int): (r: nat)
    ensures r == x || r == -x
  {
    if x < 0 then -x else x
  }

  /** "Total Deposits": the sum of the amounts of the deposits. */
  function TotalDeposits(ts: seq<Transaction>): (r: int)
    ensures (forall k :: 0 <= k < |ts| ==> IsDeposit(ts[k]) ==> ts[k].amount >= 0) ==> r >= 0
    ensures (forall k :: 0 <= k < |ts| ==> !IsDeposit(ts[k])) ==> r == 0
  {
    var deposits := Filter(ts, IsDeposit);
    assert deposits != [] ==> deposits[0] in ts && IsDeposit(deposits[0]);
    if forall k :: 0 <= k < |ts| ==> IsDeposit(ts[k]) ==> ts[k].amount >= 0 then
      DepositsNonNegative(ts);
      SumAmounts(deposits)
    else
      SumAmounts(deposits)
  }

  /** "Total Spent": the magnitude of the sum of the amounts of the tournament entries;
      when entries only take money out, it is what they took out together. */
  function TotalSpent(ts: seq<Transaction>): (r: nat)
    ensures (forall k :: 0 <= k < |ts| ==> IsEntry(ts[k]) ==> ts[k].amount <= 0) ==>
      r == -SumAmounts(Filter(ts, IsEntry))
    ensures (forall k :: 0 <= k < |ts| ==> !IsEntry(ts[k])) ==> r == 0
  {
    var entries := Filter(ts, IsEntry);
    assert entries != [] ==> entries[0] in ts && IsEntry(entries[0]);
    if forall k :: 0 <= k < |ts| ==> IsEntry(ts[k]) ==> ts[k].amount <= 0 then
      EntriesNonPositive(ts);
      Abs(SumAmounts(entries))
    else
      Abs(SumAmounts(entries))
  }

  /** "Tournaments Joined": how many tournament entries there are; in a history of
      deposits and entries, every line that is not a deposit. */
  function TournamentsJoined(ts: seq<Transaction>): (r: nat)
    ensures r <= |ts|
    ensures r == 0 <==> forall k :: 0 <= k < |ts| ==> !IsEntry(ts[k])
    ensures (forall k :: 0 <= k < |ts| ==> IsDeposit(ts[k]) || IsEntry(ts[k])) ==>
      r + |Filter(ts, IsDeposit)| == |ts|
  {
    var entries := Filter(ts, IsEntry);
    assert entries != [] ==> entries[0] in ts && IsEntry(entries[0]);
    if forall k :: 0 <= k < |ts| ==> IsDeposit(ts[k]) || IsEntry(ts[k]) then
      KindsComplement(ts);
      FilterComplement(ts, IsDeposit, IsEntry);
      |entries|
    else
      |entries|
  }

  /** When deposits only bring money in, so do all of them together. */
  lemma {:induction false} DepositsNonNegative(ts: seq<Transaction>)
    requires forall k :: 0 <= k < |ts| ==> IsDeposit(ts[k]) ==> ts[k].amount >= 0
    ensures SumAmounts(Filter(ts, IsDeposit)) >= 0
  {
    if ts != [] {
      DepositsNonNegative(ts[1..]);
      if IsDeposit(ts[0]) {
        assert Filter(ts, IsDeposit) == [ts[0]] + Filter(ts[1..], IsDeposit);
      } else {
        assert Filter(ts, IsDeposit) == Filter(ts[1..], IsDeposit);
      }
    }
  }

  /** The reduction distributes over concatenation. */
  lemma {:induction false} SumAppend(a: seq<Transaction>, b: seq<Transaction>)
    ensures SumAmounts(a + b) == SumAmounts(a) + SumAmounts(b)
  {
    if a == [] {
      assert a + b == b;
    } else {
      assert (a + b)[1..] == a[1..] + b;
      SumAppend(a[1..], b);
    }
  }

  /** The amounts of a history are those of the lines a predicate keeps plus those of
      the lines its complement keeps. */
  lemma {:induction false} SumSplits(ts: seq<Transaction>, p: Transaction -> bool, q: Transaction -> bool)
    requires forall k :: 0 <= k < |ts| ==> q(ts[k]) == !p(ts[k])
    ensures SumAmounts(Filter(ts, p)) + SumAmounts(Filter(ts, q)) == SumAmounts(ts)
  {
    if ts != [] {
      SumSplits(ts[1..], p, q);
      if p(ts[0]) {
        assert Filter(ts, p) == [ts[0]] + Filter(ts[1..], p);
        assert Filter(ts, q) == Filter(ts[1..], q);
        assert SumAmounts(Filter(ts, p)) == ts[0].amount + SumAmounts(Filter(ts[1..], p));
      } else {
        assert Filter(ts, q) == [ts[0]] + Filter(ts[1..], q);
        assert Filter(ts, p) == Filter(ts[1..], p);
        assert SumAmounts(Filter(ts, q)) == ts[0].amount + SumAmounts(Filter(ts[1..], q));
      }
    }
  }

  /** When entries only take money out, so do all of them together. */
  lemma {:induction false} EntriesNonPositive(ts: seq<Transaction>)
    requires forall k :: 0 <= k < |ts| ==> IsEntry(ts[k]) ==> ts[k].amount <= 0
    ensures SumAmounts(Filter(ts, IsEntry)) <= 0
  {
    if ts != [] {
      EntriesNonPositive(ts[1..]);
      if IsEntry(ts[0]) {
        assert Filter(ts, IsEntry) == [ts[0]] + Filter(ts[1..], IsEntry);
      } else {
        assert Filter(ts, IsEntry) == Filter(ts[1..], IsEntry);
      }
    }
  }

  /** When every line is a deposit or a tournament entry and entries only take money
      out, the net of the whole history is the deposits minus the amount spent. */
  lemma LedgerNet(ts: seq<Transaction>)
    requires forall k :: 0 <= k < |ts| ==> IsDeposit(ts[k]) || IsEntry(ts[k])
    requires forall k :: 0 <= k < |ts| ==> IsEntry(ts[k]) ==> ts[k].amount <= 0
    ensures SumAmounts(ts) == TotalDeposits(ts) - TotalSpent(ts)
  {
    KindsComplement(ts);
    SumSplits(ts, IsDeposit, IsEntry);
    EntriesNonPositive(ts);
    assert TotalSpent(ts) == -SumAmounts(Filter(ts, IsEntry));
  }

  /** In a history of deposits and entries, a line is an entry exactly when it is not
      a deposit. */
  lemma KindsComplement(ts: seq<Transaction>)
    requires forall k :: 0 <= k < |ts| ==> IsDeposit(ts[k]) || IsEntry(ts[k])
    ensures forall k :: 0 <= k < |ts| ==> IsEntry(ts[k]) == !IsDeposit(ts[k])
  {
  }

  /** Filtering a history with one more line keeps or drops that line at the end. */
  lemma FilterSnoc(ts: seq<Transaction>, t: Transaction, p: Transaction -> bool)
    ensures Filter(ts + [t], p) == Filter(ts, p) + (if p(t) then [t] else [])
  {
    FilterAppend(ts, [t], p);
    assert [t][1..] == [];
  }

  /** The sum over a history with one more line. */
  lemma SumSnoc(ts: seq<Transaction>, t: Transaction)
    ensures SumAmounts(ts + [t]) == SumAmounts(ts) + t.amount
  {
    SumAppend(ts, [t]);
    assert [t][1..] == [];
  }

  /** Recording a deposit raises "Total Deposits" by its amount and leaves the other two
      statistics alone. */
  lemma RecordDeposit(ts: seq<Transaction>, t: Transaction)
    requires IsDeposit(t)
    ensures TotalDeposits(ts + [t]) == TotalDeposits(ts) + t.amount
    ensures TotalSpent(ts + [t]) == TotalSpent(ts)
    ensures TournamentsJoined(ts + [t]) == TournamentsJoined(ts)
  {
    FilterSnoc(ts, t, IsDeposit);
    FilterSnoc(ts, t, IsEntry);
    assert Filter(ts + [t], IsDeposit) == Filter(ts, IsDeposit) + [t];
    assert Filter(ts + [t], IsEntry) == Filter(ts, IsEntry);
    SumSnoc(Filter(ts, IsDeposit), t);
    assert TotalDeposits(ts + [t]) == TotalDeposits(ts) + t.amount;
    assert TotalSpent(ts + [t]) == TotalSpent(ts);
  }

  /** Recording a tournament entry adds one to "Tournaments Joined", leaves "Total
      Deposits" alone and, when entries only take money out, raises "Total Spent" by the
      magnitude of its amount. */
  lemma RecordEntry(ts: seq<Transaction>, t: Transaction)
    requires IsEntry(t)
    ensures TotalDeposits(ts + [t]) == TotalDeposits(ts)
    ensures TournamentsJoined(ts + [t]) == TournamentsJoined(ts) + 1
    ensures t.amount <= 0 && (forall k :: 0 <= k < |ts| ==> IsEntry(ts[k]) ==> ts[k].amount <= 0) ==>
      TotalSpent(ts + [t]) == TotalSpent(ts) - t.amount
  {
    EntryKeepsDeposits(ts, t);
    EntryCountsOnce(ts, t);
    if t.amount <= 0 && (forall k :: 0 <= k < |ts| ==> IsEntry(ts[k]) ==> ts[k].amount <= 0) {
      EntryAddsSpent(ts, t);
    }
  }

  lemma EntryKeepsDeposits(ts: seq<Transaction>, t: Transaction)
    requires IsEntry(t)
    ensures Filter(ts + [t], IsDeposit) == Filter(ts, IsDeposit)
  {
    FilterSnoc(ts, t, IsDeposit);
  }

  lemma EntryCountsOnce(ts: seq<Transaction>, t: Transaction)
    requires IsEntry(t)
    ensures Filter(ts + [t], IsEntry) == Filter(ts, IsEntry) + [t]
  {
    FilterSnoc(ts, t, IsEntry);
  }

  lemma EntryAddsSpent(ts: seq<Transaction>, t: Transaction)
    requires IsEntry(t) && t.amount <= 0
    requires forall k :: 0 <= k < |ts| ==> IsEntry(ts[k]) ==> ts[k].amount <= 0
    ensures TotalSpent(ts + [t]) == TotalSpent(ts) - t.amount
  {
    EntryCountsOnce(ts, t);
    SumSnoc(Filter(ts, IsEntry), t);
    EntriesNonPositive(ts);
    assert TotalSpent(ts) == -SumAmounts(Filter(ts, IsEntry));
    assert TotalSpent(ts + [t]) == Abs(SumAmounts(Filter(ts, IsEntry)) + t.amount);
  }

  /** The statistics the page shows for its history: 700 deposited, 150 spent, 2 joined. */
  lemma MockStats()
    ensures TotalDeposits(MOCK_TRANSACTIONS) == 700
    ensures TotalSpent(MOCK_TRANSACTIONS) == 150
    ensures TournamentsJoined(MOCK_TRANSACTIONS) == 2
  {
    var t := MOCK_TRANSACTIONS;
    MockDeposits();
    MockEntries();
    SumPair(t[0], t[2]);
    SumPair(t[1], t[3]);
    assert SumAmounts(Filter(t, IsDeposit)) == 700;
    assert SumAmounts(Filter(t, IsEntry)) == -150;
    assert |Filter(t, IsEntry)| == 2;
  }

  lemma MockDeposits()
    ensures Filter(MOCK_TRANSACTIONS, IsDeposit) == [MOCK_TRANSACTIONS[0], MOCK_TRANSACTIONS[2]]
  {
  }

  lemma MockEntries()
    ensures Filter(MOCK_TRANSACTIONS, IsEntry) == [MOCK_TRANSACTIONS[1], MOCK_TRANSACTIONS[3]]
  {
  }

  lemma SumPair(x: Transaction, y: Transaction)
    ensures SumAmounts([x, y]) == x.amount + y.amount
  {
    assert [y][1..] == [];
    assert SumAmounts([y]) == y.amount;
    assert [x, y][1..] == [y];
  }

  /** The amount as a history line shows it: `+` for money in, then the rupee sign and
      the magnitude. */
  function AmountLabel(amount: int): (r: string)
    ensures r != [] && (r[0] == '+' <==> amount > 0)
    ensures var k := if amount > 0 then 2 else 1;
      |r| > k && r[k - 1] == '\U{20B9}' && r[k..] == Decimal(Abs(amount))
    ensures ParseInt(r[(if amount > 0 then 2 else 1)..]) == Some(Abs(amount))
  {
    var sign := if amount > 0 then "+" else "";
    var text := sign + "\U{20B9}" + Decimal(Abs(amount));
    assert text[|sign| + 1..] == Decimal(Abs(amount));
    ParseIntOfDecimal(Abs(amount), "");
    assert Decimal(Abs(amount)) + "" == Decimal(Abs(amount));
    text
  }

  /** The label loses nothing: two amounts with the same label are equal. */
  lemma AmountLabelInjective(a: int, b: int)
    requires AmountLabel(a) == AmountLabel(b)
    ensures a == b
  {
    var la, lb := AmountLabel(a), AmountLabel(b);
    var skip := if a > 0 then 2 else 1;
    assert (a > 0) == (b > 0) by {
      assert la[0] == lb[0];
    }
    assert la[skip..] == Decimal(Abs(a));
    assert lb[skip..] == Decimal(Abs(b));
    ParseIntOfDecimal(Abs(a), "");
    ParseIntOfDecimal(Abs(b), "");
    assert Decimal(Abs(a)) + "" == Decimal(Abs(a));
    assert Decimal(Abs(b)) + "" == Decimal(Abs(b));
  }

  /** The amount a deposit accepts: `parseInt` of the text, when that is a number above 0. */
  function DepositAmount(text: string): (r: Option<nat>)
    ensures r.Some? <==> ParseInt(text).Some? && ParseInt(text).value > 0
    ensures r.Some? ==> r.value > 0 && r.value == ParseInt(text).value
  {
    match ParseInt(text)
    case None => None
    case Some(v) => if v > 0 then Some(v) else None
  }

  /** Text that spells a positive whole number, with or without a fractional part and
      leading white space, deposits exactly that number; zero and negatives are refused. */
  lemma DepositOfNumeral(ws: string, n: int, fraction: string)
    requires forall k :: 0 <= k < |ws| ==> IsJsWhitespace(ws[k])
    ensures DepositAmount(ws + Decimal(n)) == (if n > 0 then Some(n) else None)
    ensures DepositAmount(ws + Decimal(n) + "." + fraction) == (if n > 0 then Some(n) else None)
  {
    WholeDeposit(ws, n);
    FractionalDeposit(ws, n, fraction);
  }

  lemma WholeDeposit(ws: string, n: int)
    requires forall k :: 0 <= k < |ws| ==> IsJsWhitespace(ws[k])
    ensures DepositAmount(ws + Decimal(n)) == (if n > 0 then Some(n) else None)
  {
    ParseIntSkipsWhitespace(ws, Decimal(n));
    ParseIntOfDecimal(n, "");
    assert Decimal(n) + "" == Decimal(n);
    DepositOfParsed(ws + Decimal(n), n);
  }

  lemma FractionalDeposit(ws: string, n: int, fraction: string)
    requires forall k :: 0 <= k < |ws| ==> IsJsWhitespace(ws[k])
    ensures DepositAmount(ws + Decimal(n) + "." + fraction) == (if n > 0 then Some(n) else None)
  {
    var part := Decimal(n) + "." + fraction;
    AppendAssociates(ws, Decimal(n), "." + fraction);
    AppendAssociates(ws + Decimal(n), ".", fraction);
    assert ws + Decimal(n) + "." + fraction == ws + part;
    ParseIntSkipsWhitespace(ws, part);
    ParseIntDropsFraction(n, fraction);
    DepositOfParsed(ws + part, n);
  }

  lemma AppendAssociates(a: string, b: string, c: string)
    ensures a + b + c == a + (b + c)
  {
  }

  /** The deposit of a text that parses to `n`. */
  lemma DepositOfParsed(text: string, n: int)
    requires ParseInt(text) == Some(n)
    ensures DepositAmount(text) == (if n > 0 then Some(n) else None)
  {
  }

  /** The preset buttons' amounts. */
  const PRESETS: seq<nat> := [100, 200, 500, 1000]

  /** A preset button fills in a text that deposits exactly its amount. */
  lemma PresetDeposits(value: nat)
    requires value in PRESETS
    ensures DepositAmount(Decimal(value)) == Some(value)
  {
    assert value > 0;
    PositiveDeposit(value);
  }

  lemma PositiveDeposit(n: nat)
    requires n > 0
    ensures DepositAmount(Decimal(n)) == Some(n)
  {
    WholeDeposit("", n);
    assert "" + Decimal(n) == Decimal(n);
  }

  /** The page's form state. */
  class DepositForm {
    var amount: string
    var isProcessing: bool

    constructor ()
      ensures amount == "" && !isProcessing
    {
      amount, isProcessing := "", false;
    }

    /** The amount input's `onChange`. */
    method Enter(text: string)
      modifies this
      ensures amount == text && isProcessing == old(isProcessing)
    {
      amount := text;
    }

    /** A preset button: `setAmount(String(value))`. */
    method ChoosePreset(value: nat)
      requires value in PRESETS
      modifies this
      ensures amount == Decimal(value) && isProcessing == old(isProcessing)
      ensures DepositAmount(amount) == Some(value)
    {
      amount := Decimal(value);
      PresetDeposits(value);
    }

    /** `handleDeposit`: an amount that is not a number, or is not above 0, is refused with
        nothing changed; otherwise the wallet is credited by exactly that amount and the
        form is cleared (the payment delay is not modelled). */
    method HandleDeposit(session: Session) returns (accepted: bool)
      modifies this, session
      ensures accepted <==> DepositAmount(old(amount)).Some?
      ensures accepted ==>
        && session.user == Credited(old(session.user), DepositAmount(old(amount)).value)
        && amount == "" && !isProcessing
      ensures accepted && old(session.user).Some? ==> session.user.value.wallet > old(session.user).value.wallet
      ensures !accepted ==>
        session.user == old(session.user) && amount == old(amount) && isProcessing == old(isProcessing)
    {
      var depositAmount := ParseInt(amount);
      if depositAmount.None? || depositAmount.value <= 0 {
        return false;
      }
      isProcessing := true;
      session.UpdateWallet(depositAmount.value);
      amount := "";
      isProcessing := false;
      accepted := true;
    }
  }
}
