/** The crypto wallet of CryptoWallet.py: an ID, a name, a stored balance and an
    ordered history of transaction objects, with the aggregates computed over it.
    The aggregates are defined on the history's field values (`TxRecord`s); the
    class's members are tied to those definitions. */
module Wallets {
  import opened Wrappers
  import opened Transactions

  /** What `to_dict` produces for one wallet, and what the loader reads back. */
  datatype WalletRecord = WalletRecord(
    walletID: string,
    walletName: string,
    totalBalance: real,
    transactionHistory: seq<TxRecord>)

  // ---------------------------------------------------------------- sums

  /** The per-transaction quantities the wallet adds up. */
  datatype Measure =
    | FeeOf                        // getattr(t, 'fee', 0)
    | AmountOf                     // getattr(t, 'amount', 0)
    | ReceivedBy(wid: string)      // t.amount when t.recipient == walletID
    | SentBy(wid: string)          // t.amount when t.sender == walletID
    | BalanceOf(wid: string)       // calculateTotalBalance's per-transaction step
    | FeeInvolving(wid: string)    // t.fee when the wallet is on either end
    | SelfTransferOf(wid: string)  // t.amount when the wallet is on both ends

  function Term(m: Measure, t: TxRecord): real {
    match m
    case FeeOf => t.fee
    case AmountOf => t.amount
    case ReceivedBy(w) => if t.recipient == w then t.amount else 0.0
    case SentBy(w) => if t.sender == w then t.amount else 0.0
    case BalanceOf(w) =>
      if t.recipient == w then t.amount - t.fee
      else if t.sender == w then -(t.amount + t.fee)
      else 0.0
    case FeeInvolving(w) => if t.recipient == w || t.sender == w then t.fee else 0.0
    case SelfTransferOf(w) => if t.recipient == w && t.sender == w then t.amount else 0.0
  }

  /** `sum(Term(m, t) for t in h)`, adding from the left. */
  function SumOf(h: seq<TxRecord>, m: Measure): real {
    if h == [] then 0.0 else SumOf(h[..|h| - 1], m) + Term(m, h[|h| - 1])
  }

  lemma {:induction false} SumOfAppend(a: seq<TxRecord>, b: seq<TxRecord>, m: Measure)
    ensures SumOf(a + b, m) == SumOf(a, m) + SumOf(b, m)
  {
    if b == [] {
      assert a + b == a;
    } else {
      assert (a + b)[..|a + b| - 1] == a + b[..|b| - 1];
      SumOfAppend(a, b[..|b| - 1], m);
    }
  }

  /** calculateTotalBalance's balance, split into what the other aggregates see:
      received minus sent minus the fees on every transaction the wallet takes
      part in, plus the amount of each transfer from the wallet to itself (where
      the incoming branch wins and the outgoing amount is not subtracted). */
  lemma {:induction false} BalanceDecomposition(h: seq<TxRecord>, w: string)
    ensures SumOf(h, BalanceOf(w))
            == SumOf(h, ReceivedBy(w)) - SumOf(h, SentBy(w)) - SumOf(h, FeeInvolving(w))
               + SumOf(h, SelfTransferOf(w))
  {
    if h != [] {
      BalanceDecomposition(h[..|h| - 1], w);
    }
  }

  /** Without transfers from the wallet to itself, the balance is profit/loss minus
      the fees of the wallet's transactions. */
  lemma {:induction false} BalanceWithoutSelfTransfers(h: seq<TxRecord>, w: string)
    requires forall k :: 0 <= k < |h| ==> !(h[k].sender == w && h[k].recipient == w)
    ensures SumOf(h, BalanceOf(w))
            == SumOf(h, ReceivedBy(w)) - SumOf(h, SentBy(w)) - SumOf(h, FeeInvolving(w))
  {
    BalanceDecomposition(h, w);
    NoSelfTransfers(h, w);
  }

  lemma {:induction false} NoSelfTransfers(h: seq<TxRecord>, w: string)
    requires forall k :: 0 <= k < |h| ==> !(h[k].sender == w && h[k].recipient == w)
    ensures SumOf(h, SelfTransferOf(w)) == 0.0
  {
    if h != [] {
      NoSelfTransfers(h[..|h| - 1], w);
    }
  }

  // ---------------------------------------------------------------- lookup by ID

  /** The position of the first transaction whose ID is `id`, if any. */
  function FirstWithId(h: seq<TxRecord>, id: string): (r: Option<nat>)
    ensures r.Some? ==> r.value < |h| && h[r.value].transactionID == Some(id)
    ensures r.Some? ==> forall k :: 0 <= k < r.value ==> h[k].transactionID != Some(id)
    ensures r.None? ==> forall k :: 0 <= k < |h| ==> h[k].transactionID != Some(id)
  {
    if h == [] then None
    else if h[0].transactionID == Some(id) then Some(0)
    else match FirstWithId(h[1..], id)
      case None => None
      case Some(k) => Some(k + 1)
  }

  /** `[t for t in h if t.transactionID != id]` */
  function WithoutId(h: seq<TxRecord>, id: string): seq<TxRecord> {
    if h == [] then []
    else WithoutId(h[..|h| - 1], id)
         + (if h[|h| - 1].transactionID != Some(id) then [h[|h| - 1]] else [])
  }

  /** The kept transactions are exactly those whose ID differs, and there are as
      many as the history holds minus the ones carrying the ID. */
  lemma {:induction false} WithoutIdMembers(h: seq<TxRecord>, id: string)
    ensures forall t :: t in WithoutId(h, id) <==> t in h && t.transactionID != Some(id)
  {
    if h != [] {
      var init := h[..|h| - 1];
      WithoutIdMembers(init, id);
      assert h == init + [h[|h| - 1]];
    }
  }

  /** Every transaction is either removed or kept. */
  lemma {:induction false} WithoutIdLength(h: seq<TxRecord>, id: string)
    ensures |WithoutId(h, id)| == |h| - |WithId(h, id)|
  {
    if h != [] {
      WithoutIdLength(h[..|h| - 1], id);
    }
  }

  /** The transactions carrying the ID, in order. */
  function WithId(h: seq<TxRecord>, id: string): seq<TxRecord> {
    if h == [] then []
    else WithId(h[..|h| - 1], id)
         + (if h[|h| - 1].transactionID == Some(id) then [h[|h| - 1]] else [])
  }

  /** Every aggregate of the history splits into what removing the ID keeps and
      what it drops. */
  lemma {:induction false} WithoutIdSum(h: seq<TxRecord>, id: string, m: Measure)
    ensures SumOf(h, m) == SumOf(WithoutId(h, id), m) + SumOf(WithId(h, id), m)
  {
    if h != [] {
      var init, last := h[..|h| - 1], h[|h| - 1];
      WithoutIdSum(init, id, m);
      assert h == init + [last];
      assert SumOf([last], m) == Term(m, last) by {
        assert [last][..0] == [];
        assert SumOf([], m) == 0.0;
      }
      if last.transactionID != Some(id) {
        assert WithoutId(h, id) == WithoutId(init, id) + [last];
        assert WithId(h, id) == WithId(init, id);
        SumOfAppend(WithoutId(init, id), [last], m);
      } else {
        assert WithoutId(h, id) == WithoutId(init, id);
        assert WithId(h, id) == WithId(init, id) + [last];
        SumOfAppend(WithId(init, id), [last], m);
      }
    }
  }

  /** Removing an ID that no transaction carries changes nothing. */
  lemma {:induction false} WithoutAbsentId(h: seq<TxRecord>, id: string)
    requires forall k :: 0 <= k < |h| ==> h[k].transactionID != Some(id)
    ensures WithoutId(h, id) == h
  {
    if h != [] {
      WithoutAbsentId(h[..|h| - 1], id);
      assert h == h[..|h| - 1] + [h[|h| - 1]];
    }
  }

  /** Removing the same ID twice is the same as removing it once. */
  lemma {:induction false} WithoutIdIdempotent(h: seq<TxRecord>, id: string)
    ensures WithoutId(WithoutId(h, id), id) == WithoutId(h, id)
  {
    var r := WithoutId(h, id);
    WithoutIdMembers(h, id);
    forall k | 0 <= k < |r| ensures r[k].transactionID != Some(id) {
      assert r[k] in r;
    }
    WithoutAbsentId(r, id);
  }

  /** The history after `editTransaction(id)` with the entered amount and fee,
      when no object occurs twice in it: the first transaction carrying the ID
      gets the new amount and fee and keeps its other four fields; every other
      transaction is unchanged; without such a transaction nothing changes. */
  function EditFirst(h: seq<TxRecord>, id: string, amount: real, fee: real): (r: seq<TxRecord>)
    ensures |r| == |h|
    ensures FirstWithId(h, id).None? ==> r == h
    ensures FirstWithId(h, id).Some? ==>
      var i := FirstWithId(h, id).value;
      r[i] == h[i].(amount := amount, fee := fee)
      && forall k :: 0 <= k < |h| && k != i ==> r[k] == h[k]
  {
    match FirstWithId(h, id)
    case None => h
    case Some(i) => h[i := h[i].(amount := amount, fee := fee)]
  }

  /** Overwriting one transaction moves every aggregate by the difference
      between its new and its old term. */
  lemma {:induction false} SumOfUpdate(h: seq<TxRecord>, i: nat, x: TxRecord, m: Measure)
    requires i < |h|
    ensures SumOf(h[i := x], m) == SumOf(h, m) - Term(m, h[i]) + Term(m, x)
  {
    var n := |h| - 1;
    if i < n {
      SumOfUpdate(h[..n], i, x, m);
      assert h[i := x][..n] == h[..n][i := x];
    } else {
      assert h[i := x][..n] == h[..n];
    }
  }

  /** The fee total after an edit: the first transaction carrying the ID gives up
      its old fee for the new one; without such a transaction nothing changes. */
  lemma EditFirstFee(h: seq<TxRecord>, id: string, amount: real, fee: real)
    ensures SumOf(EditFirst(h, id, amount, fee), FeeOf)
              == match FirstWithId(h, id)
                 case None => SumOf(h, FeeOf)
                 case Some(i) => SumOf(h, FeeOf) - h[i].fee + fee
  {
    if FirstWithId(h, id).Some? {
      var i := FirstWithId(h, id).value;
      SumOfUpdate(h, i, h[i].(amount := amount, fee := fee), FeeOf);
    }
  }

  /** Editing never changes which transactions carry which ID, so a second edit
      with the same ID reaches the same transaction and only its latest values
      remain. */
  lemma {:induction false} EditFirstTwice(h: seq<TxRecord>, id: string, a1: real, f1: real, a2: real, f2: real)
    ensures FirstWithId(EditFirst(h, id, a1, f1), id) == FirstWithId(h, id)
    ensures EditFirst(EditFirst(h, id, a1, f1), id, a2, f2) == EditFirst(h, id, a2, f2)
  {
    var e := EditFirst(h, id, a1, f1);
    assert forall k :: 0 <= k < |h| ==> e[k].transactionID == h[k].transactionID;
    FirstWithIdSameIds(h, e, id);
  }

  /** `FirstWithId` only looks at the IDs. */
  lemma {:induction false} FirstWithIdSameIds(h: seq<TxRecord>, e: seq<TxRecord>, id: string)
    requires |e| == |h|
    requires forall k :: 0 <= k < |h| ==> e[k].transactionID == h[k].transactionID
    ensures FirstWithId(e, id) == FirstWithId(h, id)
  {
    if h != [] {
      FirstWithIdSameIds(h[1..], e[1..], id);
    }
  }

  // ---------------------------------------------------------------- sorting

  predicate NonIncreasing(h: seq<TxRecord>) {
    forall i, j :: 0 <= i < j < |h| ==> h[i].amount >= h[j].amount
  }

  /** Places `x` into `s` after the leading elements whose amount is at least
      `x`'s, so that among equal amounts the earlier-inserted comes first. */
  function InsertByAmount(x: TxRecord, s: seq<TxRecord>): (r: seq<TxRecord>)
    ensures multiset(r) == multiset(s) + multiset{x}
  {
    if s == [] then [x]
    else if s[0].amount >= x.amount then
      assert s == [s[0]] + s[1..];
      [s[0]] + InsertByAmount(x, s[1..])
    else [x] + s
  }

  /** Inserting into a non-increasing sequence keeps it non-increasing. */
  lemma {:induction false} InsertSorted(x: TxRecord, s: seq<TxRecord>)
    requires NonIncreasing(s)
    ensures NonIncreasing(InsertByAmount(x, s))
  {
    if s != [] && s[0].amount >= x.amount {
      var t := InsertByAmount(x, s[1..]);
      assert NonIncreasing(s[1..]);
      InsertSorted(x, s[1..]);
      forall k | 0 <= k < |t| ensures s[0].amount >= t[k].amount {
        assert t[k] in multiset(t);
        assert t[k] in multiset(s[1..]) + multiset{x};
        if t[k] != x {
          assert t[k] in s[1..];
        }
      }
    }
  }

  /** `h.sort(key=amount, reverse=True)`: a stable sort into non-increasing amount
      order, built by inserting the elements one after another. */
  function SortByAmount(h: seq<TxRecord>): (r: seq<TxRecord>)
    ensures multiset(r) == multiset(h)
    ensures NonIncreasing(r)
  {
    if h == [] then []
    else
      var init := h[..|h| - 1];
      assert h == init + [h[|h| - 1]];
      InsertSorted(h[|h| - 1], SortByAmount(init));
      InsertByAmount(h[|h| - 1], SortByAmount(init))
  }

  /** The transactions of `h` whose amount is `v`, in order. */
  function WithAmount(h: seq<TxRecord>, v: real): seq<TxRecord> {
    if h == [] then []
    else WithAmount(h[..|h| - 1], v) + (if h[|h| - 1].amount == v then [h[|h| - 1]] else [])
  }

  lemma {:induction false} WithAmountAppend(a: seq<TxRecord>, b: seq<TxRecord>, v: real)
    ensures WithAmount(a + b, v) == WithAmount(a, v) + WithAmount(b, v)
  {
    if b != [] {
      assert (a + b)[..|a + b| - 1] == a + b[..|b| - 1];
      WithAmountAppend(a, b[..|b| - 1], v);
    } else {
      assert a + b == a;
    }
  }

  lemma {:induction false} WithAmountCons(x: TxRecord, s: seq<TxRecord>, v: real)
    ensures WithAmount([x] + s, v) == (if x.amount == v then [x] else []) + WithAmount(s, v)
  {
    WithAmountAppend([x], s, v);
    assert [x][..0] == [];
  }

  lemma {:induction false} WithAmountNone(h: seq<TxRecord>, v: real)
    requires forall k :: 0 <= k < |h| ==> h[k].amount < v
    ensures WithAmount(h, v) == []
  {
    if h != [] {
      WithAmountNone(h[..|h| - 1], v);
    }
  }

  lemma {:induction false} InsertStable(x: TxRecord, s: seq<TxRecord>, v: real)
    requires NonIncreasing(s)
    ensures WithAmount(InsertByAmount(x, s), v)
            == WithAmount(s, v) + (if x.amount == v then [x] else [])
  {
    if s == [] {
      WithAmountCons(x, [], v);
      assert [x] + [] == [x];
    } else if s[0].amount >= x.amount {
      assert NonIncreasing(s[1..]);
      InsertStable(x, s[1..], v);
      InsertStableBehind(x, s[0], s[1..], v);
      assert s == [s[0]] + s[1..];
    } else {
      InsertStableInFront(x, s, v);
    }
  }

  /** The step of `InsertStable` where `x` goes behind the first element `a`. */
  lemma {:induction false} InsertStableBehind(x: TxRecord, a: TxRecord, t: seq<TxRecord>, v: real)
    requires a.amount >= x.amount
    requires WithAmount(InsertByAmount(x, t), v) == WithAmount(t, v) + (if x.amount == v then [x] else [])
    ensures WithAmount(InsertByAmount(x, [a] + t), v)
            == WithAmount([a] + t, v) + (if x.amount == v then [x] else [])
  {
    var it := InsertByAmount(x, t);
    var head := if a.amount == v then [a] else [];
    var tail := if x.amount == v then [x] else [];
    assert ([a] + t)[0] == a && ([a] + t)[1..] == t;
    assert InsertByAmount(x, [a] + t) == [a] + it;
    WithAmountCons(a, it, v);
    WithAmountCons(a, t, v);
    assert head + (WithAmount(t, v) + tail) == (head + WithAmount(t, v)) + tail;
  }

  /** The step of `InsertStable` where `x` goes in front: every amount of `s` is
      smaller than `x`'s. */
  lemma {:induction false} InsertStableInFront(x: TxRecord, s: seq<TxRecord>, v: real)
    requires NonIncreasing(s)
    requires s != [] && s[0].amount < x.amount
    ensures WithAmount(InsertByAmount(x, s), v)
            == WithAmount(s, v) + (if x.amount == v then [x] else [])
  {
    WithAmountCons(x, s, v);
    if x.amount == v {
      forall k | 0 <= k < |s| ensures s[k].amount < v {
        if k > 0 { assert s[0].amount >= s[k].amount; }
      }
      WithAmountNone(s, v);
    }
  }

  /** The sort is stable: for every amount, the transactions with that amount keep
      their relative order. */
  lemma {:induction false} SortStable(h: seq<TxRecord>, v: real)
    ensures WithAmount(SortByAmount(h), v) == WithAmount(h, v)
  {
    if h != [] {
      var init := h[..|h| - 1];
      SortStable(init, v);
      InsertStable(h[|h| - 1], SortByAmount(init), v);
    }
  }

  lemma {:induction false} SumOfCons(x: TxRecord, s: seq<TxRecord>, m: Measure)
    ensures SumOf([x] + s, m) == Term(m, x) + SumOf(s, m)
  {
    SumOfAppend([x], s, m);
    assert [x][..0] == [];
  }

  lemma {:induction false} InsertSum(x: TxRecord, s: seq<TxRecord>, m: Measure)
    ensures SumOf(InsertByAmount(x, s), m) == SumOf(s, m) + Term(m, x)
  {
    if s == [] {
      SumOfCons(x, [], m);
      assert [x] + [] == [x];
    } else if s[0].amount >= x.amount {
      InsertSum(x, s[1..], m);
      SumOfCons(s[0], InsertByAmount(x, s[1..]), m);
      SumOfCons(s[0], s[1..], m);
      assert [s[0]] + s[1..] == s;
    } else {
      SumOfCons(x, s, m);
    }
  }

  /** Sorting changes no aggregate: fees, amounts, buy/sell totals and the balance
      are the same before and after. */
  lemma {:induction false} SortKeepsSums(h: seq<TxRecord>, m: Measure)
    ensures SumOf(SortByAmount(h), m) == SumOf(h, m)
  {
    if h != [] {
      SortKeepsSums(h[..|h| - 1], m);
      InsertSum(h[|h| - 1], SortByAmount(h[..|h| - 1]), m);
    }
  }

  // ---------------------------------------------------------------- maximum

  /** The position `max(h, key=amount)` picks: the first transaction whose amount is
      at least every other amount. */
  function FirstMaxIndex(h: seq<TxRecord>): (i: nat)
    requires h != []
    ensures i < |h|
    ensures forall k :: 0 <= k < |h| ==> h[k].amount <= h[i].amount
    ensures forall k :: 0 <= k < i ==> h[k].amount < h[i].amount
  {
    if |h| == 1 then 0
    else
      var m := FirstMaxIndex(h[..|h| - 1]);
      if h[|h| - 1].amount > h[m].amount then |h| - 1 else m
  }

  // ---------------------------------------------------------------- the wallet object

  /** No transaction object occurs twice. */
  predicate Distinct(ts: seq<Transaction>) {
    forall i, j :: 0 <= i < j < |ts| ==> ts[i] != ts[j]
  }

  class CryptoWallet {
    var walletID: string
    var walletName: string
    var totalBalance: real
    var transactionHistory: seq<Transaction>

    /** `CryptoWallet(walletID, walletName, totalBalance, transactionHistory)`: the
        history argument is accepted and ignored; every wallet starts empty. */
    constructor (walletID: string, walletName: string, totalBalance: real,
                 transactionHistory: seq<Transaction>)
      ensures this.walletID == walletID && this.walletName == walletName
      ensures this.totalBalance == totalBalance
      ensures this.transactionHistory == []
    {
      this.walletID := walletID;
      this.walletName := walletName;
      this.totalBalance := totalBalance;
      this.transactionHistory := [];
    }

    /** The field values of the history, in order. */
    function History(): seq<TxRecord>
      reads this, transactionHistory
    {
      Records(transactionHistory)
    }

    /** Sets and returns the balance: amount minus fee for every transaction the
        wallet received, minus amount plus fee for every one it sent (a
        transaction with the wallet on both ends counts as received). */
    method CalculateTotalBalance() returns (balance: real)
      modifies this`totalBalance
      ensures balance == totalBalance
      ensures totalBalance == SumOf(History(), BalanceOf(walletID))
      ensures History() == old(History())
    {
      var total := 0.0;
      for i := 0 to |transactionHistory|
        invariant total == SumOf(History()[..i], BalanceOf(walletID))
      {
        var t := transactionHistory[i];
        assert History()[..i + 1][..i] == History()[..i];
        if t.recipient == walletID {
          total := total + (t.amount - t.fee);
        } else if t.sender == walletID {
          total := total - (t.amount + t.fee);
        }
      }
      assert History()[..|transactionHistory|] == History();
      totalBalance := total;
      balance := totalBalance;
    }

    /** Profit/loss is the buy total minus the sell total of `SumValue`. */
    method CalculateProfitLoss() returns (profit: real)
      ensures profit == SumValue().0 - SumValue().1
    {
      profit := 0.0;
      for i := 0 to |transactionHistory|
        invariant profit == SumOf(History()[..i], ReceivedBy(walletID))
                            - SumOf(History()[..i], SentBy(walletID))
      {
        var t := transactionHistory[i];
        assert History()[..i + 1][..i] == History()[..i];
        if t.recipient == walletID {
          profit := profit + t.amount;
        }
        if t.sender == walletID {
          profit := profit - t.amount;
        }
      }
      assert History()[..|transactionHistory|] == History();
    }

    /** The sum of the fees of the history. */
    function CalculateTotalFee(): (fee: real)
      reads this, transactionHistory
      ensures fee == SumOf(History(), FeeOf)
    {
      SumOf(History(), FeeOf)
    }

    /** The number of transactions in the history. */
    function CountTransactions(): (n: nat)
      reads this, transactionHistory
      ensures n == |History()|
    {
      |transactionHistory|
    }

    /** (buy, sell): the amounts received by the wallet, and the amounts it sent. */
    function SumValue(): (r: (real, real))
      reads this, transactionHistory
      ensures r.0 == SumOf(History(), ReceivedBy(walletID))
      ensures r.1 == SumOf(History(), SentBy(walletID))
    {
      (SumOf(History(), ReceivedBy(walletID)), SumOf(History(), SentBy(walletID)))
    }

    /** The mean amount: 0 for an empty history, otherwise total amount over count. */
    function AvgValue(): (avg: real)
      reads this, transactionHistory
      ensures |History()| == 0 ==> avg == 0.0
      ensures |History()| > 0 ==> avg * (|History()| as real) == SumOf(History(), AmountOf)
    {
      if |transactionHistory| == 0 then 0.0
      else SumOf(History(), AmountOf) / (|transactionHistory| as real)
    }

    /** None for an empty history; otherwise the ID and amount of the first
        transaction whose amount is at least every other amount. */
    function FindMaxTransaction(): (r: Option<(Option<string>, real)>)
      reads this, transactionHistory
      ensures r.None? <==> |History()| == 0
      ensures r.Some? ==>
        exists i :: 0 <= i < |History()| && r.value == (History()[i].transactionID, History()[i].amount)
          && (forall k :: 0 <= k < |History()| ==> History()[k].amount <= History()[i].amount)
          && (forall k :: 0 <= k < i ==> History()[k].amount < History()[i].amount)
    {
      if |transactionHistory| == 0 then None
      else
        var h := History();
        var i := FirstMaxIndex(h);
        Some((h[i].transactionID, h[i].amount))
    }

    /** `to_dict`: the wallet's three fields and the six fields of each transaction,
        in history order. */
    function ToDict(): (r: WalletRecord)
      reads this, transactionHistory
      ensures r.walletID == walletID && r.walletName == walletName && r.totalBalance == totalBalance
      ensures |r.transactionHistory| == |transactionHistory|
      ensures forall k :: 0 <= k < |transactionHistory| ==>
                r.transactionHistory[k] == transactionHistory[k].Record()
    {
      WalletRecord(walletID, walletName, totalBalance, History())
    }

    /** Appends the transaction object at the end of the history. */
    method AddTransaction(t: Transaction)
      modifies this
      ensures transactionHistory == old(transactionHistory) + [t]
      ensures History() == old(History()) + [t.Record()]
      ensures CalculateTotalFee() == old(CalculateTotalFee()) + t.fee
      ensures CountTransactions() == old(CountTransactions()) + 1
      ensures SumValue().0 == old(SumValue().0) + Term(ReceivedBy(walletID), t.Record())
      ensures SumValue().1 == old(SumValue().1) + Term(SentBy(walletID), t.Record())
      ensures walletID == old(walletID) && walletName == old(walletName)
      ensures totalBalance == old(totalBalance)
    {
      transactionHistory := transactionHistory + [t];
      ghost var h := History();
      assert h == old(History()) + [t.Record()];
      assert h[..|h| - 1] == old(History());
    }

    /** Keeps exactly the transactions whose ID is not `id`, in their order. */
    method RemoveTransaction(id: string)
      modifies this
      ensures transactionHistory == old(Kept(transactionHistory, id))
      ensures History() == WithoutId(old(History()), id)
      ensures multiset(transactionHistory) <= multiset(old(transactionHistory))
      ensures CalculateTotalFee() == old(CalculateTotalFee()) - SumOf(WithId(old(History()), id), FeeOf)
      ensures CountTransactions() == old(CountTransactions()) - |WithId(old(History()), id)|
      ensures SumValue().0 == old(SumValue().0) - SumOf(WithId(old(History()), id), ReceivedBy(walletID))
      ensures SumValue().1 == old(SumValue().1) - SumOf(WithId(old(History()), id), SentBy(walletID))
      ensures Distinct(old(transactionHistory)) ==> Distinct(transactionHistory)
      ensures walletID == old(walletID) && walletName == old(walletName)
      ensures totalBalance == old(totalBalance)
    {
      ghost var before := History();
      ghost var fee0, count0, sums0 := CalculateTotalFee(), CountTransactions(), SumValue();
      var kept := Kept(transactionHistory, id);
      ghost var records := Records(kept);
      assert records == WithoutId(before, id) by {
        KeptRecords(transactionHistory, id);
      }
      ghost var dropped := WithId(before, id);
      assert SumOf(records, FeeOf) == SumOf(before, FeeOf) - SumOf(dropped, FeeOf) by {
        WithoutIdSum(before, id, FeeOf);
      }
      assert SumOf(records, ReceivedBy(walletID))
               == SumOf(before, ReceivedBy(walletID)) - SumOf(dropped, ReceivedBy(walletID)) by {
        WithoutIdSum(before, id, ReceivedBy(walletID));
      }
      assert SumOf(records, SentBy(walletID))
               == SumOf(before, SentBy(walletID)) - SumOf(dropped, SentBy(walletID)) by {
        WithoutIdSum(before, id, SentBy(walletID));
      }
      assert |records| == |before| - |dropped| by {
        WithoutIdLength(before, id);
      }
      transactionHistory := kept;
      assert History() == records;
      assert CalculateTotalFee() == fee0 - SumOf(dropped, FeeOf);
      assert CountTransactions() == count0 - |dropped|;
      assert SumValue().0 == sums0.0 - SumOf(dropped, ReceivedBy(walletID));
      assert SumValue().1 == sums0.1 - SumOf(dropped, SentBy(walletID));
    }

    /** Overwrites amount and fee of the first transaction whose ID is `id` (the
        values the user enters); without such a transaction nothing changes. The
        same object appearing again later in the history shows the change there too. */
    method EditTransaction(id: string, newAmount: real, newFee: real) returns (found: bool)
      modifies transactionHistory
      ensures found <==> FirstWithId(old(History()), id).Some?
      ensures transactionHistory == old(transactionHistory)
      ensures !found ==> History() == old(History())
      ensures found ==>
        var target := transactionHistory[FirstWithId(old(History()), id).value];
        forall k :: 0 <= k < |transactionHistory| ==>
          History()[k] == if transactionHistory[k] == target
                          then old(History()[k]).(amount := newAmount, fee := newFee)
                          else old(History()[k])
      ensures Distinct(transactionHistory) ==>
                History() == EditFirst(old(History()), id, newAmount, newFee)
      ensures CountTransactions() == old(CountTransactions())
    {
      var i := 0;
      while i < |transactionHistory|
        invariant 0 <= i <= |transactionHistory|
        invariant forall k :: 0 <= k < i ==> History()[k].transactionID != Some(id)
      {
        var t := transactionHistory[i];
        if t.transactionID == Some(id) {
          assert FirstWithId(History(), id) == Some(i);
          t.amount := newAmount;
          t.fee := newFee;
          found := true;
          return;
        }
        i := i + 1;
      }
      found := false;
    }

    /** `sortTransactions("value")` sorts the history by amount, largest first,
        keeping equal amounts in their order; any other key changes nothing. */
    method SortTransactions(sortBy: string)
      modifies this
      ensures sortBy == "value" ==> History() == SortByAmount(old(History()))
      ensures sortBy != "value" ==> transactionHistory == old(transactionHistory)
      ensures multiset(transactionHistory) == multiset(old(transactionHistory))
      ensures Distinct(old(transactionHistory)) ==> Distinct(transactionHistory)
      ensures CalculateTotalFee() == old(CalculateTotalFee())
      ensures CountTransactions() == old(CountTransactions())
      ensures SumValue().0 == old(SumValue().0) && SumValue().1 == old(SumValue().1)
      ensures walletID == old(walletID) && walletName == old(walletName)
      ensures totalBalance == old(totalBalance)
    {
      if sortBy == "value" {
        ghost var before := History();
        var sorted := SortedByAmount(transactionHistory);
        ghost var records := Records(sorted);
        assert records == SortByAmount(before) by {
          SortedRecords(transactionHistory);
        }
        assert Distinct(transactionHistory) ==> Distinct(sorted) by {
          SortedDistinct(transactionHistory);
        }
        assert SumOf(records, FeeOf) == SumOf(before, FeeOf) by {
          SortKeepsSums(before, FeeOf);
        }
        assert SumOf(records, ReceivedBy(walletID)) == SumOf(before, ReceivedBy(walletID)) by {
          SortKeepsSums(before, ReceivedBy(walletID));
        }
        assert SumOf(records, SentBy(walletID)) == SumOf(before, SentBy(walletID)) by {
          SortKeepsSums(before, SentBy(walletID));
        }
        assert |records| == |before| by {
          assert multiset(records) == multiset(before);
          assert |multiset(records)| == |records|;
        }
        transactionHistory := sorted;
        assert History() == records;
      }
    }
  }

  // ---------------------------------------------------------------- the same, on objects

  lemma {:induction false} RecordsAppend(a: seq<Transaction>, b: seq<Transaction>)
    ensures Records(a + b) == Records(a) + Records(b)
  {
    var l := Records(a + b);
    var r := Records(a) + Records(b);
    forall k | 0 <= k < |l| ensures l[k] == r[k] {
      if k < |a| {
        assert (a + b)[k] == a[k];
      } else {
        assert (a + b)[k] == b[k - |a|];
      }
    }
  }

  lemma {:induction false} RecordsInit(s: seq<Transaction>)
    requires s != []
    ensures Records(s)[..|s| - 1] == Records(s[..|s| - 1])
    ensures Records(s)[|s| - 1] == s[|s| - 1].Record()
  {
  }

  lemma {:induction false} RecordsTail(s: seq<Transaction>)
    requires s != []
    ensures Records(s)[1..] == Records(s[1..])
  {
  }

  /** The positions whose transaction does not carry `id`, in increasing order. */
  function KeptIndices(ts: seq<Transaction>, id: string): (r: seq<nat>)
    reads ts
    ensures forall j :: 0 <= j < |r| ==> r[j] < |ts| && ts[r[j]].transactionID != Some(id)
    ensures forall j, j' :: 0 <= j < j' < |r| ==> r[j] < r[j']
    ensures forall k :: 0 <= k < |ts| && ts[k].transactionID != Some(id) ==> k in r
  {
    if ts == [] then []
    else
      var n := |ts| - 1;
      KeptIndices(ts[..n], id) + (if ts[n].transactionID != Some(id) then [n] else [])
  }

  /** `[t for t in ts if t.transactionID != id]`, on the objects themselves. */
  function Kept(ts: seq<Transaction>, id: string): (r: seq<Transaction>)
    reads ts
    ensures multiset(r) <= multiset(ts)
    ensures Distinct(ts) ==> Distinct(r)
  {
    if ts == [] then []
    else
      var init := ts[..|ts| - 1];
      var last := ts[|ts| - 1];
      var kept := Kept(init, id);
      assert ts == init + [last];
      DistinctInit(ts);
      assert Distinct(ts) ==> last !in multiset(kept);
      kept + (if last.transactionID != Some(id) then [last] else [])
  }

  /** The kept objects are the objects at exactly the positions `KeptIndices`
      lists, in that order. */
  lemma {:induction false} KeptAtIndices(ts: seq<Transaction>, id: string)
    ensures |Kept(ts, id)| == |KeptIndices(ts, id)|
    ensures forall j :: 0 <= j < |Kept(ts, id)| ==> Kept(ts, id)[j] == ts[KeptIndices(ts, id)[j]]
  {
    if ts != [] {
      var init := ts[..|ts| - 1];
      var last := ts[|ts| - 1];
      KeptAtIndices(init, id);
      SnocAt(ts, Kept(init, id), KeptIndices(init, id), last.transactionID != Some(id));
    }
  }

  /** Appending the last object when it is kept, and its position with it, keeps
      the kept objects at their listed positions. */
  lemma {:induction false} SnocAt(ts: seq<Transaction>, kept: seq<Transaction>, idx: seq<nat>, keep: bool)
    requires ts != [] && |kept| == |idx|
    requires forall j :: 0 <= j < |kept| ==> idx[j] < |ts| - 1 && kept[j] == ts[..|ts| - 1][idx[j]]
    ensures var r := kept + (if keep then [ts[|ts| - 1]] else []);
            var positions := idx + (if keep then [|ts| - 1] else []);
            |r| == |positions| && forall j :: 0 <= j < |r| ==> r[j] == ts[positions[j]]
  {
  }

  /** The kept objects carry exactly the kept field values. */
  lemma {:induction false} KeptRecords(ts: seq<Transaction>, id: string)
    ensures Records(Kept(ts, id)) == WithoutId(Records(ts), id)
  {
    if ts != [] {
      var init := ts[..|ts| - 1];
      var last := ts[|ts| - 1];
      KeptRecords(init, id);
      RecordsInit(ts);
      RecordsAppend(Kept(init, id), if last.transactionID != Some(id) then [last] else []);
    }
  }

  /** `InsertByAmount`, on the objects themselves. */
  function InsertObject(t: Transaction, s: seq<Transaction>): (r: seq<Transaction>)
    reads s, t
    ensures multiset(r) == multiset(s) + multiset{t}
    ensures Distinct(s) && t !in s ==> Distinct(r)
  {
    if s == [] then [t]
    else if s[0].amount >= t.amount then
      var rest := InsertObject(t, s[1..]);
      assert s == [s[0]] + s[1..];
      assert Distinct(s) && t !in s ==> s[0] !in multiset(rest);
      [s[0]] + rest
    else
      [t] + s
  }

  lemma {:induction false} InsertObjectRecords(t: Transaction, s: seq<Transaction>)
    ensures Records(InsertObject(t, s)) == InsertByAmount(t.Record(), Records(s))
  {
    if s == [] {
      assert Records([t]) == [t.Record()];
    } else if s[0].amount >= t.amount {
      InsertObjectRecords(t, s[1..]);
      RecordsTail(s);
      RecordsAppend([s[0]], InsertObject(t, s[1..]));
    } else {
      RecordsAppend([t], s);
    }
  }

  /** The stable non-increasing sort of `list.sort(key=amount, reverse=True)`, on
      the objects themselves. */
  function SortedByAmount(ts: seq<Transaction>): (r: seq<Transaction>)
    reads ts
    ensures multiset(r) == multiset(ts)
  {
    if ts == [] then []
    else
      var init := ts[..|ts| - 1];
      var sorted := SortedByAmount(init);
      assert ts == init + [ts[|ts| - 1]];
      assert forall k :: 0 <= k < |sorted| ==> sorted[k] in multiset(init);
      InsertObject(ts[|ts| - 1], sorted)
  }

  /** Sorting keeps the objects distinct. */
  lemma {:induction false} SortedDistinct(ts: seq<Transaction>)
    ensures Distinct(ts) ==> Distinct(SortedByAmount(ts))
  {
    if ts != [] && Distinct(ts) {
      var init := ts[..|ts| - 1];
      var last := ts[|ts| - 1];
      SortedDistinct(init);
      DistinctInit(ts);
      var sorted := SortedByAmount(init);
      assert ts == init + [last];
      assert last !in multiset(init);
      var r := InsertObject(last, sorted);
    }
  }

  /** An object not yet present can be appended to distinct objects. */
  lemma DistinctSnoc(ts: seq<Transaction>, t: Transaction)
    requires Distinct(ts) && t !in ts
    ensures Distinct(ts + [t])
  {
  }

  /** Without its last object a sequence of distinct objects stays distinct and no
      longer holds that object. */
  lemma {:induction false} DistinctInit(ts: seq<Transaction>)
    requires ts != []
    ensures Distinct(ts) ==> Distinct(ts[..|ts| - 1]) && ts[|ts| - 1] !in ts[..|ts| - 1]
  {
  }

  /** The sorted objects carry the sorted field values. */
  lemma {:induction false} SortedRecords(ts: seq<Transaction>)
    ensures Records(SortedByAmount(ts)) == SortByAmount(Records(ts))
  {
    if ts != [] {
      var init := ts[..|ts| - 1];
      SortedRecords(init);
      RecordsInit(ts);
      InsertObjectRecords(ts[|ts| - 1], SortedByAmount(init));
    }
  }
}
