/** The menu loop of Manage_CryptoWallet.py over its global `list_wallet`.
    Each branch is a method of `WalletApp`; the lines the user types are a
    sequence the branch consumes from the front (running out of lines, or a line
    `float()`/`int()` rejects, ends the program with an exception), and the file
    option 1 reads is given as the wallet records it holds, or None when it is
    missing. */
module WalletMenu {
  import opened Wrappers
  import opened Text
  import opened Transactions
  import opened Wallets
  import opened Sequences

  /** The menu's options besides 0. */
  const Choices: set<int> := set c | 1 <= c <= 19

  const Deposit: string := "nạp"
  const Withdrawal: string := "rút"
  const Purchase: string := "mua"
  const Sale: string := "bán"

  /** Option 2's sender and recipient for a transaction type: deposits come from
      "system" and withdrawals go to it, purchases come from "market" and sales go
      to it; any other type leaves both ends empty. */
  function Endpoints(kind: string, walletID: string): (r: (string, string))
    ensures kind == Deposit ==> r == ("system", walletID)
    ensures kind == Withdrawal ==> r == (walletID, "system")
    ensures kind == Purchase ==> r == ("market", walletID)
    ensures kind == Sale ==> r == (walletID, "market")
    ensures kind !in {Deposit, Withdrawal, Purchase, Sale} ==> r == ("", "")
  {
    if kind == Deposit then ("system", walletID)
    else if kind == Withdrawal then (walletID, "system")
    else if kind == Purchase then ("market", walletID)
    else if kind == Sale then (walletID, "market")
    else ("", "")
  }

  /** The wallet option 2 appends: the entered ID, name and balance, holding one
      transaction with the entered ID, type, value and fee. */
  function NewWalletRecord(walletID: string, walletName: string, balance: real,
                           txID: string, kind: string, value: real, fee: real): WalletRecord
  {
    var ends := Endpoints(kind, walletID);
    WalletRecord(walletID, walletName, balance,
                 [TxRecord(Some(txID), ends.0, ends.1, value, fee, Some(kind))])
  }

  /** Whether option 2's transaction goes from the new wallet to itself: a
      deposit or withdrawal of the wallet called "system", a purchase or sale of
      the wallet called "market", or a transaction of any other type (both ends
      empty) of the wallet whose ID is empty. */
  predicate OwnTransfer(walletID: string, kind: string) {
    (walletID == "system" && (kind == Deposit || kind == Withdrawal))
    || (walletID == "market" && (kind == Purchase || kind == Sale))
    || (walletID == "" && kind !in {Deposit, Withdrawal, Purchase, Sale})
  }

  /** What the new wallet's own aggregates make of its single transaction: a
      transfer to itself counts as incoming for the balance (value less fee) and
      cancels out in received minus sent; otherwise a deposit or purchase brings in
      the value less the fee, a withdrawal or sale costs the value plus the fee,
      and any other type (both ends empty) does nothing. */
  lemma {:induction false} NewWalletBalance(walletID: string, walletName: string, balance: real,
                         txID: string, kind: string, value: real, fee: real)
    ensures var h := NewWalletRecord(walletID, walletName, balance, txID, kind, value, fee).transactionHistory;
      && SumOf(h, BalanceOf(walletID))
         == (if OwnTransfer(walletID, kind) then value - fee
             else if kind == Deposit || kind == Purchase then value - fee
             else if kind == Withdrawal || kind == Sale then -(value + fee)
             else 0.0)
      && SumOf(h, ReceivedBy(walletID)) - SumOf(h, SentBy(walletID))
         == (if OwnTransfer(walletID, kind) then 0.0
             else if kind == Deposit || kind == Purchase then value
             else if kind == Withdrawal || kind == Sale then -value
             else 0.0)
  {
    var h := NewWalletRecord(walletID, walletName, balance, txID, kind, value, fee).transactionHistory;
    assert h[..0] == [];
  }

  /** The number of wallets holding a transaction with the ID. */
  function Holding(ws: seq<WalletRecord>, id: string): (n: nat)
    ensures n <= |ws|
  {
    if ws == [] then 0
    else Holding(ws[..|ws| - 1], id)
         + (if FirstWithId(ws[|ws| - 1].transactionHistory, id).Some? then 1 else 0)
  }

  /** The `k`-th answer, when there is one and it is a number. */
  function Answer(answers: seq<Option<real>>, k: nat): Option<real> {
    if k < |answers| then answers[k] else None
  }

  /** Each line as `float()` reads it. */
  function AsNumbers(lines: seq<string>): (r: seq<Option<real>>)
    ensures |r| == |lines|
  {
    seq(|lines|, k requires 0 <= k < |lines| => ParseFloat(lines[k]))
  }

  /** Whether the `i`-th wallet holds the ID but the two answers it would take
      are not both there and numeric. */
  predicate StuckAt(ws: seq<WalletRecord>, id: string, answers: seq<Option<real>>, i: nat)
    requires i < |ws|
  {
    FirstWithId(ws[i].transactionHistory, id).Some?
    && (Answer(answers, 2 * Holding(ws[..i], id)).None?
        || Answer(answers, 2 * Holding(ws[..i], id) + 1).None?)
  }

  /** Option 5 on the wallets' records: in list order, every wallet holding the ID
      takes the next two answers as the new amount and fee of its first such
      transaction. None when an answer is missing or is not a number; otherwise
      the new records and how many answers were used. */
  function EditAll(ws: seq<WalletRecord>, id: string, answers: seq<Option<real>>)
    : Option<(seq<WalletRecord>, nat)>
  {
    if ws == [] then Some(([], 0))
    else
      match EditAll(ws[..|ws| - 1], id, answers)
      case None => None
      case Some((done, used)) =>
        var w := ws[|ws| - 1];
        if FirstWithId(w.transactionHistory, id).None? then
          Some((done + [w], used))
        else if Answer(answers, used).Some? && Answer(answers, used + 1).Some? then
          var edited := EditFirst(w.transactionHistory, id,
                                  Answer(answers, used).value, Answer(answers, used + 1).value);
          Some((done + [w.(transactionHistory := edited)], used + 2))
        else None
  }

  /** The wallet at position `i` after option 5 when no wallet got stuck. */
  function EditedAt(ws: seq<WalletRecord>, id: string, answers: seq<Option<real>>, i: nat): WalletRecord
    requires i < |ws|
  {
    if FirstWithId(ws[i].transactionHistory, id).None? then ws[i]
    else ws[i].(transactionHistory := EditFirst(ws[i].transactionHistory, id,
                  Answer(answers, 2 * Holding(ws[..i], id)).GetOr(0.0),
                  Answer(answers, 2 * Holding(ws[..i], id) + 1).GetOr(0.0)))
  }

  /** Option 5 uses two answers for every wallet holding the ID and keeps the
      number of wallets. */
  lemma {:induction false} EditAllCounts(ws: seq<WalletRecord>, id: string, answers: seq<Option<real>>)
    ensures EditAll(ws, id, answers).Some? ==>
      |EditAll(ws, id, answers).value.0| == |ws|
      && EditAll(ws, id, answers).value.1 == 2 * Holding(ws, id)
      && EditAll(ws, id, answers).value.1 <= |answers|
  {
    if ws != [] {
      EditAllCounts(ws[..|ws| - 1], id, answers);
    }
  }

  /** Option 5 fails exactly when some wallet holding the ID finds its two answers
      missing or not numeric. */
  lemma {:induction false} EditAllFails(ws: seq<WalletRecord>, id: string, answers: seq<Option<real>>)
    ensures EditAll(ws, id, answers).None? <==> exists i :: 0 <= i < |ws| && StuckAt(ws, id, answers, i)
  {
    if ws != [] {
      var n := |ws| - 1;
      var init := ws[..n];
      EditAllFails(init, id, answers);
      if EditAll(init, id, answers).None? {
        var i :| 0 <= i < n && StuckAt(init, id, answers, i);
        StuckAtInit(ws, id, answers, i);
        assert StuckAt(ws, id, answers, i);
      } else {
        forall i | 0 <= i < n ensures !StuckAt(ws, id, answers, i) {
          StuckAtInit(ws, id, answers, i);
        }
        assert EditAll(ws, id, answers).None? <==> StuckAt(ws, id, answers, n) by {
          EditAllCounts(init, id, answers);
        }
      }
    }
  }

  /** Whether a wallet is stuck depends only on the wallets up to it. */
  lemma StuckAtInit(ws: seq<WalletRecord>, id: string, answers: seq<Option<real>>, i: nat)
    requires i < |ws| - 1
    ensures StuckAt(ws, id, answers, i) == StuckAt(ws[..|ws| - 1], id, answers, i)
  {
    assert ws[..i] == ws[..|ws| - 1][..i];
  }

  /** When option 5 goes through, wallet `i` is edited with answers 2k and 2k+1,
      k being the number of earlier wallets holding the ID. */
  lemma {:induction false} EditAllAt(ws: seq<WalletRecord>, id: string, answers: seq<Option<real>>)
    ensures EditAll(ws, id, answers).Some? ==>
      |EditAll(ws, id, answers).value.0| == |ws|
      && forall i :: 0 <= i < |ws| ==> EditAll(ws, id, answers).value.0[i] == EditedAt(ws, id, answers, i)
  {
    EditAllCounts(ws, id, answers);
    if ws != [] && EditAll(ws, id, answers).Some? {
      var n := |ws| - 1;
      var init := ws[..n];
      EditAllAt(init, id, answers);
      EditAllCounts(init, id, answers);
      var edited := EditAll(ws, id, answers).value.0;
      var done := EditAll(init, id, answers).value.0;
      forall i | 0 <= i < |ws| ensures edited[i] == EditedAt(ws, id, answers, i) {
        if i < n {
          assert ws[..i] == init[..i];
          assert edited[i] == done[i];
        }
      }
    }
  }

  /** When no wallet holds the ID, option 5 reads no answers and changes nothing. */
  lemma {:induction false} EditAllAbsent(ws: seq<WalletRecord>, id: string, answers: seq<Option<real>>)
    requires forall i :: 0 <= i < |ws| ==> FirstWithId(ws[i].transactionHistory, id).None?
    ensures EditAll(ws, id, answers) == Some((ws, 0))
  {
    if ws != [] {
      EditAllAbsent(ws[..|ws| - 1], id, answers);
      assert ws[..|ws| - 1] + [ws[|ws| - 1]] == ws;
    }
  }

  /** Option 6 on the wallets' records: every wallet drops the transactions with
      the ID; the wallets themselves stay, in order. */
  function RemoveAll(ws: seq<WalletRecord>, id: string): (r: seq<WalletRecord>)
    ensures |r| == |ws|
    ensures forall i :: 0 <= i < |ws| ==>
      r[i] == ws[i].(transactionHistory := WithoutId(ws[i].transactionHistory, id))
  {
    seq(|ws|, i requires 0 <= i < |ws| =>
      ws[i].(transactionHistory := WithoutId(ws[i].transactionHistory, id)))
  }

  /** Repeating option 6 with the same ID changes nothing more. */
  lemma {:induction false} RemoveAllIdempotent(ws: seq<WalletRecord>, id: string)
    ensures RemoveAll(RemoveAll(ws, id), id) == RemoveAll(ws, id)
  {
    forall i | 0 <= i < |ws| {
      WithoutIdIdempotent(ws[i].transactionHistory, id);
    }
  }

  /** Option 14 on the wallets' records: with "value" every history is sorted by
      amount, largest first; any other answer changes nothing. */
  function SortAll(ws: seq<WalletRecord>, sortBy: string): (r: seq<WalletRecord>)
    ensures |r| == |ws|
    ensures sortBy != "value" ==> r == ws
    ensures sortBy == "value" ==> forall i :: 0 <= i < |ws| ==>
      r[i] == ws[i].(transactionHistory := SortByAmount(ws[i].transactionHistory))
  {
    if sortBy == "value" then
      seq(|ws|, i requires 0 <= i < |ws| =>
        ws[i].(transactionHistory := SortByAmount(ws[i].transactionHistory)))
    else ws
  }

  /** Option 14 changes no wallet's fee total, buy and sell totals or balance. */
  lemma {:induction false} SortAllKeepsSums(ws: seq<WalletRecord>, sortBy: string, m: Measure)
    ensures forall i :: 0 <= i < |ws| ==>
      SumOf(SortAll(ws, sortBy)[i].transactionHistory, m) == SumOf(ws[i].transactionHistory, m)
  {
    forall i | 0 <= i < |ws| {
      SortKeepsSums(ws[i].transactionHistory, m);
    }
  }

  /** Whether option 1 stops with an exception on these records: building the
      first wallet fails once the name `w` no longer denotes the CryptoWallet
      module, and building the first transaction fails once `tx` no longer
      denotes the Transaction module. */
  predicate LoadFails(recs: seq<WalletRecord>, walletNameRebound: bool, txNameRebound: bool) {
    (walletNameRebound && recs != [])
    || (txNameRebound && exists i :: 0 <= i < |recs| && recs[i].transactionHistory != [])
  }

  /** Whether option 2's seven answers are there and the three numeric ones are
      numbers, and the names `w` and `tx` still denote their modules. */
  predicate AddNewAccepts(lines: seq<string>, walletNameRebound: bool, txNameRebound: bool) {
    |lines| >= 7
    && ParseFloat(lines[2]).Some? && ParseFloat(lines[5]).Some? && ParseFloat(lines[6]).Some?
    && !walletNameRebound && !txNameRebound
  }

  /** Lines 115-119: a transaction rebuilt from its record, field by field, and
      added at the end of the wallet's history. */
  method AddRebuilt(wallet: CryptoWallet, d: TxRecord) returns (t: Transaction)
    modifies wallet
    ensures fresh(t) && t.Record() == d
    ensures wallet.transactionHistory == old(wallet.transactionHistory) + [t]
    ensures wallet.History() == old(wallet.History()) + [d]
    ensures wallet.walletID == old(wallet.walletID) && wallet.walletName == old(wallet.walletName)
    ensures wallet.totalBalance == old(wallet.totalBalance)
  {
    t := new Transaction(d.sender, d.recipient, d.amount);
    t.transactionID := d.transactionID;
    t.fee := d.fee;
    t.transactionType := d.transactionType;
    assert t.Record() == d;
    wallet.AddTransaction(t);
  }

  /** Lines 112-119: a wallet built from one record, its transactions rebuilt
      field by field and added in record order. */
  method BuildWallet(rec: WalletRecord) returns (wallet: CryptoWallet)
    ensures fresh(wallet)
    ensures wallet.ToDict() == rec
    ensures Distinct(wallet.transactionHistory)
    ensures forall k :: 0 <= k < |wallet.transactionHistory| ==> fresh(wallet.transactionHistory[k])
  {
    wallet := new CryptoWallet(rec.walletID, rec.walletName, rec.totalBalance, []);
    for j := 0 to |rec.transactionHistory|
      invariant fresh(wallet)
      invariant wallet.walletID == rec.walletID && wallet.walletName == rec.walletName
      invariant wallet.totalBalance == rec.totalBalance
      invariant wallet.History() == rec.transactionHistory[..j]
      invariant Distinct(wallet.transactionHistory)
      invariant forall k :: 0 <= k < |wallet.transactionHistory| ==> fresh(wallet.transactionHistory[k])
    {
      ghost var objects := wallet.transactionHistory;
      var t := AddRebuilt(wallet, rec.transactionHistory[j]);
      assert Distinct(wallet.transactionHistory) by {
        assert t !in objects;
        DistinctSnoc(objects, t);
      }
      assert wallet.History() == rec.transactionHistory[..j + 1] by {
        assert rec.transactionHistory[..j + 1] == rec.transactionHistory[..j] + [t.Record()];
      }
    }
    assert rec.transactionHistory[..|rec.transactionHistory|] == rec.transactionHistory;
  }

  /** A wallet stuck among the first `k` stays stuck in the whole list. */
  lemma {:induction false} EditAllPrefixFails(ws: seq<WalletRecord>, id: string, answers: seq<Option<real>>, k: nat)
    requires k <= |ws| && EditAll(ws[..k], id, answers).None?
    ensures EditAll(ws, id, answers).None?
  {
    EditAllFails(ws[..k], id, answers);
    var i :| 0 <= i < k && StuckAt(ws[..k], id, answers, i);
    assert ws[..k][..i] == ws[..i];
    assert StuckAt(ws, id, answers, i);
    EditAllFails(ws, id, answers);
  }

  /** One more wallet through option 5, as `EditAll` takes it. */
  lemma {:induction false} EditAllNext(ws: seq<WalletRecord>, id: string, answers: seq<Option<real>>, i: nat,
                    done: seq<WalletRecord>, used: nat)
    requires i < |ws| && EditAll(ws[..i], id, answers) == Some((done, used))
    ensures FirstWithId(ws[i].transactionHistory, id).None? ==>
              EditAll(ws[..i + 1], id, answers) == Some((done + [ws[i]], used))
    ensures FirstWithId(ws[i].transactionHistory, id).Some?
            && used + 1 < |answers| && answers[used].Some? && answers[used + 1].Some? ==>
              EditAll(ws[..i + 1], id, answers)
              == Some((done + [ws[i].(transactionHistory := EditFirst(ws[i].transactionHistory, id,
                                        answers[used].value, answers[used + 1].value))], used + 2))
    ensures FirstWithId(ws[i].transactionHistory, id).Some?
            && !(used + 1 < |answers| && answers[used].Some? && answers[used + 1].Some?) ==>
              EditAll(ws[..i + 1], id, answers).None?
  {
    assert ws[..i + 1][..i] == ws[..i];
  }

  /** Lines 129-154: the wallet option 2 builds from the entered values. */
  method NewWallet(walletID: string, walletName: string, balance: real,
                   txID: string, kind: string, value: real, fee: real) returns (wallet: CryptoWallet)
    ensures fresh(wallet)
    ensures wallet.ToDict() == NewWalletRecord(walletID, walletName, balance, txID, kind, value, fee)
    ensures Distinct(wallet.transactionHistory)
    ensures forall k :: 0 <= k < |wallet.transactionHistory| ==> fresh(wallet.transactionHistory[k])
  {
    wallet := new CryptoWallet(walletID, walletName, balance, []);
    var ends := Endpoints(kind, walletID);
    var t := new Transaction(ends.0, ends.1, value);
    t.transactionID := Some(txID);
    t.fee := fee;
    t.transactionType := Some(kind);
    wallet.AddTransaction(t);
    assert wallet.History() == [t.Record()];
  }

  /** No transaction object occurs in both histories. */
  predicate Apart(a: seq<Transaction>, b: seq<Transaction>) {
    forall k, l :: 0 <= k < |a| && 0 <= l < |b| ==> a[k] != b[l]
  }

  /** No transaction object occurs twice, within one history or across two. */
  predicate Disjoint(hs: seq<seq<Transaction>>) {
    (forall i :: 0 <= i < |hs| ==> Distinct(hs[i]))
    && (forall i, j :: 0 <= i < |hs| && 0 <= j < |hs| && i != j ==> Apart(hs[i], hs[j]))
  }

  /** Objects drawn from a history apart from another are apart from it too. */
  lemma ApartDrawn(a: seq<Transaction>, b: seq<Transaction>, c: seq<Transaction>)
    requires Apart(a, b)
    requires forall k :: 0 <= k < |c| ==> c[k] in a
    ensures Apart(c, b) && Apart(b, c)
  {
    forall k, l | 0 <= k < |c| && 0 <= l < |b| ensures c[k] != b[l] {
      var k' :| 0 <= k' < |a| && a[k'] == c[k];
    }
  }

  /** A history replaced by distinct objects drawn from it keeps the histories
      disjoint. */
  lemma DisjointReplace(hs: seq<seq<Transaction>>, i: nat, h: seq<Transaction>)
    requires Disjoint(hs) && i < |hs| && Distinct(h)
    requires forall k :: 0 <= k < |h| ==> h[k] in hs[i]
    ensures Disjoint(hs[i := h])
  {
    var r := hs[i := h];
    forall a, b | 0 <= a < |r| && 0 <= b < |r| && a != b ensures Apart(r[a], r[b]) {
      if a == i {
        ApartDrawn(hs[i], hs[b], h);
      } else if b == i {
        ApartDrawn(hs[i], hs[a], h);
      }
    }
  }

  /** A history replaced by some of its own objects keeps the histories disjoint,
      provided those objects stay distinct whenever the history was. */
  lemma DisjointShrink(hs: seq<seq<Transaction>>, i: nat, h: seq<Transaction>)
    requires Disjoint(hs) && i < |hs|
    requires Distinct(hs[i]) ==> Distinct(h)
    requires multiset(h) <= multiset(hs[i])
    ensures Disjoint(hs[i := h])
  {
    forall k | 0 <= k < |h| ensures h[k] in hs[i] {
      assert h[k] in multiset(h);
    }
    DisjointReplace(hs, i, h);
  }

  /** A history replaced by a reordering of itself keeps the histories disjoint. */
  lemma DisjointPermute(hs: seq<seq<Transaction>>, i: nat, h: seq<Transaction>)
    requires Disjoint(hs) && i < |hs| && multiset(h) == multiset(hs[i])
    ensures Disjoint(hs[i := h])
  {
    forall k | 0 <= k < |h| ensures h[k] in hs[i] {
      assert h[k] in multiset(h);
    }
    forall a, b | 0 <= a < b < |h| ensures h[a] != h[b] {
      if h[a] == h[b] {
        DuplicateCounted(h, a, b);
        DistinctCounted(hs[i], h[a]);
        assert false;
      }
    }
    DisjointReplace(hs, i, h);
  }

  /** An object at two positions occurs at least twice. */
  lemma DuplicateCounted(s: seq<Transaction>, a: nat, b: nat)
    requires a < b < |s| && s[a] == s[b]
    ensures multiset(s)[s[a]] >= 2
  {
    assert s == s[..a] + [s[a]] + s[a + 1..b] + [s[b]] + s[b + 1..];
  }

  /** In a sequence of distinct objects each occurs at most once. */
  lemma {:induction false} DistinctCounted(s: seq<Transaction>, t: Transaction)
    requires Distinct(s)
    ensures multiset(s)[t] <= 1
  {
    if s != [] {
      var init := s[..|s| - 1];
      DistinctCounted(init, t);
      assert s == init + [s[|s| - 1]];
      assert s[|s| - 1] !in init;
    }
  }

  /** A history of distinct objects found in no other history can join them. */
  lemma DisjointAppend(hs: seq<seq<Transaction>>, h: seq<Transaction>)
    requires Disjoint(hs) && Distinct(h)
    requires forall j :: 0 <= j < |hs| ==> Apart(h, hs[j])
    ensures Disjoint(hs + [h])
  {
    var r := hs + [h];
    forall a, b | 0 <= a < |r| && 0 <= b < |r| && a != b ensures Apart(r[a], r[b]) {
      if a == |hs| {
        assert r[a] == h && r[b] == hs[b];
      } else if b == |hs| {
        assert r[b] == h && r[a] == hs[a] && Apart(h, hs[a]);
      } else {
        assert r[a] == hs[a] && r[b] == hs[b];
      }
    }
  }

  /** Line 183's `w.removeTransaction(id)`, seen from the list: what the wallet's
      records become, and which of its objects it may still hold. */
  method RemoveFrom(wallet: CryptoWallet, id: string)
    modifies wallet
    ensures wallet.History() == WithoutId(old(wallet.History()), id)
    ensures multiset(wallet.transactionHistory) <= multiset(old(wallet.transactionHistory))
    ensures Distinct(old(wallet.transactionHistory)) ==> Distinct(wallet.transactionHistory)
    ensures wallet.walletID == old(wallet.walletID) && wallet.walletName == old(wallet.walletName)
    ensures wallet.totalBalance == old(wallet.totalBalance)
  {
    wallet.RemoveTransaction(id);
  }

  /** What one pass of the menu loop can see and change: the wallets' records in
      list order, and whether `w` and `tx` have been rebound. */
  datatype MenuState = MenuState(wallets: seq<WalletRecord>, walletNameRebound: bool, txNameRebound: bool)

  /** The result of one pass: how the loop goes on, the state after it and the
      answers left for the next pass. */
  datatype Pass = Pass(outcome: Outcome, after: MenuState, rest: seq<string>)

  /** The `for w in list_wallet` loop of options 3 to 19 rebinds `w` once the
      list is non-empty, and option 13 rebinds `tx` with it. */
  function Rebound(s: MenuState, choice: int): (r: MenuState)
    ensures r.wallets == s.wallets
    ensures r.walletNameRebound <==> s.walletNameRebound || s.wallets != []
    ensures r.txNameRebound <==> s.txNameRebound || (choice == 13 && s.wallets != [])
  {
    if s.wallets == [] then s
    else s.(walletNameRebound := true, txNameRebound := s.txNameRebound || choice == 13)
  }

  /** One pass of the menu loop on records, for a choice already read: 0 exits;
      1 loads the file's wallets; 2 appends the wallet built from seven answers;
      5, 6 and 14 edit, remove from and sort every history; 3 to 19 rebind the
      loop names when they go through; any other number changes nothing. When
      the outcome is Crash the state and rest are of no further use. */
  function Transition(choice: int, answers: seq<string>, file: Option<seq<WalletRecord>>,
                      s: MenuState): Pass
  {
    if choice == 0 then Pass(Exit, s, answers)
    else if choice == 1 then
      match file
      case None => Pass(Continue, s, answers)
      case Some(recs) =>
        if LoadFails(recs, s.walletNameRebound, s.txNameRebound) then Pass(Crash, s, answers)
        else Pass(Continue, s.(wallets := s.wallets + recs), answers)
    else if choice == 2 then
      if !AddNewAccepts(answers, s.walletNameRebound, s.txNameRebound) then Pass(Crash, s, answers)
      else
        var added := NewWalletRecord(answers[0], answers[1], ParseFloat(answers[2]).value, answers[3],
                                     answers[4], ParseFloat(answers[5]).value, ParseFloat(answers[6]).value);
        Pass(Continue, s.(wallets := s.wallets + [added]), answers[7..])
    else if choice == 5 then
      if answers == [] then Pass(Crash, s, answers)
      else
        match EditAll(s.wallets, answers[0], AsNumbers(answers[1..]))
        case None => Pass(Crash, s, answers)
        case Some((ws, used)) =>
          EditAllCounts(s.wallets, answers[0], AsNumbers(answers[1..]));
          Pass(Continue, Rebound(s.(wallets := ws), choice), answers[1 + used..])
    else if choice == 6 then
      if answers == [] then Pass(Crash, s, answers)
      else Pass(Continue, Rebound(s.(wallets := RemoveAll(s.wallets, answers[0])), choice), answers[1..])
    else if choice == 14 then
      if answers == [] then Pass(Crash, s, answers)
      else Pass(Continue, Rebound(s.(wallets := SortAll(s.wallets, answers[0])), choice), answers[1..])
    else if choice in Choices then Pass(Continue, Rebound(s, choice), answers)
    else Pass(Continue, s, answers)
  }

  /** Only 0 ends the loop; only options 1 and 2 add wallets, and then at the
      end of the list; every other pass that goes through keeps the number of
      wallets, and apart from 5, 6 and 14 their records too. A pass never
      consumes more answers than there are. */
  lemma TransitionWallets(choice: int, answers: seq<string>, file: Option<seq<WalletRecord>>, s: MenuState)
    ensures var p := Transition(choice, answers, file, s);
      && (p.outcome == Exit <==> choice == 0)
      && (p.outcome == Continue && choice == 1 ==>
            p.after.wallets == s.wallets + (if file.Some? then file.value else []))
      && (p.outcome == Continue && choice == 2 ==>
            |p.after.wallets| == |s.wallets| + 1 && p.after.wallets[..|s.wallets|] == s.wallets)
      && (p.outcome == Continue && choice !in {1, 2} ==> |p.after.wallets| == |s.wallets|)
      && (p.outcome == Continue && choice !in {1, 2, 5, 6, 14} ==> p.after.wallets == s.wallets)
      && |p.rest| <= |answers|
      && (choice !in Choices ==> p == Pass(if choice == 0 then Exit else Continue, s, answers))
  {
    var p := Transition(choice, answers, file, s);
    if choice == 1 && file.None? {
      assert s.wallets + [] == s.wallets;
    }
    if choice == 2 && p.outcome == Continue {
      assert p.after.wallets[..|s.wallets|] == s.wallets;
    }
    if choice == 5 && answers != [] {
      EditAllCounts(s.wallets, answers[0], AsNumbers(answers[1..]));
    }
  }

  /** The state of the menu script: the global `list_wallet`, and whether the
      script's own loops have rebound the module names `w` and `tx`. */
  class WalletApp {
    var listWallet: seq<CryptoWallet>
    /** `for w in list_wallet` in options 3 to 19 rebinds `w`, the name the script
        imported the CryptoWallet module under, as soon as the list is non-empty. */
    var walletNameRebound: bool
    /** Option 13's `tx = w.findMaxTransaction()` rebinds `tx`, the name of the
        Transaction module, as soon as the list is non-empty. */
    var txNameRebound: bool

    constructor ()
      ensures listWallet == [] && !walletNameRebound && !txNameRebound
      ensures Valid()
    {
      listWallet := [];
      walletNameRebound := false;
      txNameRebound := false;
    }

    /** Every transaction object some listed wallet holds. */
    ghost function Held(): set<Transaction>
      reads this, listWallet
    {
      set i, k | 0 <= i < |listWallet| && 0 <= k < |listWallet[i].transactionHistory|
        :: listWallet[i].transactionHistory[k]
    }

    /** The history of every listed wallet, in list order. */
    ghost function Histories(): (r: seq<seq<Transaction>>)
      reads this, listWallet
      ensures |r| == |listWallet|
      ensures forall i {:trigger r[i]} :: 0 <= i < |listWallet| ==> r[i] == listWallet[i].transactionHistory
    {
      seq(|listWallet|, i requires 0 <= i < |listWallet| reads this, listWallet =>
        listWallet[i].transactionHistory)
    }

    /** What the script keeps true: no wallet is listed twice, and no transaction
        object occurs twice, within a history or across histories. */
    ghost predicate Valid()
      reads this, listWallet
    {
      (forall i, j :: 0 <= i < j < |listWallet| ==> listWallet[i] != listWallet[j])
      && Disjoint(Histories())
    }

    /** Option 1: every wallet record of the file becomes a new wallet appended to
        the list, with the same ID, name and balance and its transactions
        rebuilt in order with all six fields; a missing file changes nothing. */
    method Load(file: Option<seq<WalletRecord>>) returns (outcome: Outcome)
      requires Valid()
      modifies this
      ensures Valid()
      ensures walletNameRebound == old(walletNameRebound) && txNameRebound == old(txNameRebound)
      ensures file.None? ==> outcome == Continue && listWallet == old(listWallet)
      ensures file.Some? && LoadFails(file.value, old(walletNameRebound), old(txNameRebound)) ==>
                outcome == Crash
      ensures file.Some? && !LoadFails(file.value, old(walletNameRebound), old(txNameRebound)) ==>
                outcome == Continue
                && Dicts() == old(Dicts()) + file.value
                && listWallet[..|old(listWallet)|] == old(listWallet)
    {
      if file.None? {
        return Continue;
      }
      var recs := file.value;
      if LoadFails(recs, walletNameRebound, txNameRebound) {
        return Crash;
      }
      ghost var start := Dicts();
      ghost var n0 := |listWallet|;
      for i := 0 to |recs|
        invariant Valid()
        invariant walletNameRebound == old(walletNameRebound) && txNameRebound == old(txNameRebound)
        invariant |listWallet| == n0 + i
        invariant listWallet[..n0] == old(listWallet)
        invariant Dicts() == start + recs[..i]
      {
        LoadOne(recs[i]);
        assert Dicts() == start + recs[..i + 1] by {
          assert recs[..i + 1] == recs[..i] + [recs[i]];
        }
      }
      assert recs[..|recs|] == recs;
      return Continue;
    }

    /** One iteration of the loading loop: the wallet rebuilt from `rec` is
        appended to the list. */
    method LoadOne(rec: WalletRecord)
      requires Valid()
      modifies this
      ensures Valid()
      ensures walletNameRebound == old(walletNameRebound) && txNameRebound == old(txNameRebound)
      ensures |listWallet| == |old(listWallet)| + 1 && listWallet[..|old(listWallet)|] == old(listWallet)
      ensures Dicts() == old(Dicts()) + [rec]
    {
      ghost var dicts := Dicts();
      var wallet := BuildWallet(rec);
      assert Dicts() == dicts by {
        forall j | 0 <= j < |listWallet| ensures Dicts()[j] == dicts[j] {
        }
      }
      Append(wallet);
      assert listWallet[..|old(listWallet)|] == old(listWallet);
    }

    /** Option 2: seven answers (wallet ID, name, balance, transaction ID, type,
        value, fee) make one new wallet holding one transaction, appended to the
        list; the entered fee replaces the default one. A missing answer, a
        non-numeric balance, value or fee, or a rebound module name stops the
        program. */
    method AddNew(lines: seq<string>) returns (outcome: Outcome, rest: seq<string>)
      requires Valid()
      modifies this
      ensures Valid()
      ensures walletNameRebound == old(walletNameRebound) && txNameRebound == old(txNameRebound)
      ensures outcome != Exit
      ensures outcome == Crash <==> !AddNewAccepts(lines, old(walletNameRebound), old(txNameRebound))
      ensures outcome == Continue ==>
                AddNewAccepts(lines, old(walletNameRebound), old(txNameRebound))
                && rest == lines[7..]
                && |listWallet| == |old(listWallet)| + 1 && listWallet[..|old(listWallet)|] == old(listWallet)
                && Dicts() == old(Dicts()) + [NewWalletRecord(lines[0], lines[1], ParseFloat(lines[2]).value,
                                                              lines[3], lines[4], ParseFloat(lines[5]).value,
                                                              ParseFloat(lines[6]).value)]
    {
      if !AddNewAccepts(lines, walletNameRebound, txNameRebound) {
        return Crash, lines;
      }
      var balance, value, fee := ParseFloat(lines[2]).value, ParseFloat(lines[5]).value, ParseFloat(lines[6]).value;
      AddParsed(lines[0], lines[1], balance, lines[3], lines[4], value, fee);
      return Continue, lines[7..];
    }

    /** Option 5: the first answer is a transaction ID; every wallet holding it,
        in list order, takes the next two answers as the new amount and fee of its
        first transaction with that ID. Running out of answers or a non-numeric
        one stops the program. */
    method Edit(lines: seq<string>) returns (outcome: Outcome, rest: seq<string>)
      requires Valid()
      modifies Held()
      ensures Valid()
      ensures outcome != Exit
      ensures lines == [] ==> outcome == Crash
      ensures lines != [] ==>
                (outcome == Crash <==> EditAll(old(Dicts()), lines[0], AsNumbers(lines[1..])).None?)
      ensures outcome == Continue ==>
                lines != [] && EditAll(old(Dicts()), lines[0], AsNumbers(lines[1..])).Some?
                && var e := EditAll(old(Dicts()), lines[0], AsNumbers(lines[1..])).value;
                   Dicts() == e.0 && 1 + e.1 <= |lines| && rest == lines[1 + e.1..]
    {
      if lines == [] {
        return Crash, lines;
      }
      var ok, used := EditWith(lines[0], AsNumbers(lines[1..]));
      if !ok {
        return Crash, lines;
      }
      return Continue, lines[1 + used..];
    }

    /** Lines 177-178 with the answers after the ID, each as `float()` reads it. */
    method EditWith(id: string, answers: seq<Option<real>>) returns (ok: bool, used: nat)
      requires Valid()
      modifies Held()
      ensures Valid()
      ensures ok <==> EditAll(old(Dicts()), id, answers).Some?
      ensures ok ==> Dicts() == EditAll(old(Dicts()), id, answers).value.0
                     && used == EditAll(old(Dicts()), id, answers).value.1 <= |answers|
    {
      ghost var ws := Dicts();
      used := 0;
      var i := 0;
      while i < |listWallet|
        invariant listWallet == old(listWallet) && Held() == old(Held())
        invariant Valid()
        invariant i <= |listWallet| && |Dicts()| == |ws|
        invariant EditAll(ws[..i], id, answers) == Some((Dicts()[..i], used))
        invariant Dicts()[i..] == ws[i..]
      {
        ok, used := EditNext(i, id, answers, used, ws);
        if !ok {
          return false, used;
        }
        i := i + 1;
      }
      assert ws[..i] == ws && Dicts()[..i] == Dicts();
      EditAllCounts(ws, id, answers);
      return true, used;
    }

    /** One pass of the loop at lines 177-178: the `i`-th wallet, when it holds
        the ID, takes the next two answers; false when they are not both there
        and numeric, in which case option 5 as a whole fails. */
    method EditNext(i: nat, id: string, answers: seq<Option<real>>, used: nat, ghost ws: seq<WalletRecord>)
      returns (ok: bool, next: nat)
      requires Valid() && i < |listWallet| && |Dicts()| == |ws|
      requires EditAll(ws[..i], id, answers) == Some((Dicts()[..i], used))
      requires Dicts()[i..] == ws[i..]
      modifies listWallet[i].transactionHistory
      ensures Valid() && |Dicts()| == |ws|
      ensures ok ==> EditAll(ws[..i + 1], id, answers) == Some((Dicts()[..i + 1], next))
                     && Dicts()[i + 1..] == ws[i + 1..]
      ensures !ok ==> EditAll(ws, id, answers).None?
    {
      ghost var cur := Dicts();
      ghost var done := cur[..i];
      assert cur[i] == ws[i];
      if FirstWithId(listWallet[i].History(), id).None? {
        assert EditAll(ws[..i + 1], id, answers) == Some((done + [cur[i]], used)) by {
          EditAllNext(ws, id, answers, i, done, used);
        }
        assert cur[..i + 1] == done + [cur[i]];
        return true, used;
      }
      if used + 1 >= |answers| || answers[used].None? || answers[used + 1].None? {
        assert EditAll(ws, id, answers).None? by {
          EditAllNext(ws, id, answers, i, done, used);
          EditAllPrefixFails(ws, id, answers, i + 1);
        }
        return false, used;
      }
      var found := EditOne(i, id, answers[used].value, answers[used + 1].value);
      ghost var after := Dicts();
      assert EditAll(ws[..i + 1], id, answers) == Some((done + [after[i]], used + 2)) by {
        EditAllNext(ws, id, answers, i, done, used);
      }
      assert after[..i + 1] == done + [after[i]] && after[i + 1..] == ws[i + 1..] by {
        UpdateSplits(cur, after, i);
      }
      return true, used + 2;
    }

    /** Option 6: the answer is a transaction ID, removed from every wallet's
        history; the wallets stay, in order. The loop variable rebinds `w`. */
    method Remove(lines: seq<string>) returns (outcome: Outcome, rest: seq<string>)
      requires Valid()
      modifies listWallet
      ensures Valid()
      ensures outcome == Crash <==> lines == []
      ensures lines != [] ==>
                outcome == Continue && rest == lines[1..] && Dicts() == RemoveAll(old(Dicts()), lines[0])
    {
      if lines == [] {
        return Crash, lines;
      }
      var id := lines[0];
      ghost var ws := Dicts();
      for i := 0 to |listWallet|
        invariant Valid()
        invariant |Dicts()| == |ws|
        invariant forall j :: 0 <= j < i ==> Dicts()[j] == RemoveAll(ws, id)[j]
        invariant forall j :: i <= j < |ws| ==> Dicts()[j] == ws[j]
      {
        RemoveOne(i, id);
      }
      return Continue, lines[1..];
    }

    /** Option 14: the answer is the sort key, applied to every wallet's history. */
    method Sort(lines: seq<string>) returns (outcome: Outcome, rest: seq<string>)
      requires Valid()
      modifies listWallet
      ensures Valid()
      ensures outcome == Crash <==> lines == []
      ensures lines != [] ==>
                outcome == Continue && rest == lines[1..] && Dicts() == SortAll(old(Dicts()), lines[0])
    {
      if lines == [] {
        return Crash, lines;
      }
      var sortBy := lines[0];
      ghost var ws := Dicts();
      for i := 0 to |listWallet|
        invariant Valid()
        invariant |Dicts()| == |ws|
        invariant forall j :: 0 <= j < i ==> Dicts()[j] == SortAll(ws, sortBy)[j]
        invariant forall j :: i <= j < |ws| ==> Dicts()[j] == ws[j]
      {
        SortOne(i, sortBy);
      }
      return Continue, lines[1..];
    }

    /** Options 3 to 19 all loop `for w in list_wallet`, which rebinds `w` to the
        last wallet once the list is non-empty; option 13 also rebinds `tx` to that
        wallet's largest transaction. The options other than 5, 6 and 14 change
        nothing else: they display, plot or save what the wallets compute. */
    method Rebind(choice: int)
      requires 3 <= choice <= 19
      requires Valid()
      modifies this
      ensures Valid()
      ensures listWallet == old(listWallet) && Dicts() == old(Dicts())
      ensures walletNameRebound == (old(walletNameRebound) || old(listWallet) != [])
      ensures txNameRebound == (old(txNameRebound) || (choice == 13 && old(listWallet) != []))
      ensures State() == Rebound(old(State()), choice)
    {
      ghost var hs := Histories();
      if listWallet != [] {
        walletNameRebound := true;
        if choice == 13 {
          txNameRebound := true;
        }
      }
      assert Histories() == hs by {
        forall j | 0 <= j < |listWallet| ensures Histories()[j] == hs[j] {
        }
      }
      assert Dicts() == old(Dicts()) by {
        forall j | 0 <= j < |listWallet| ensures Dicts()[j] == old(Dicts())[j] {
        }
      }
    }

    /** Lines 129-155 once the answers are read: the new wallet is appended. */
    method AddParsed(walletID: string, walletName: string, balance: real,
                     txID: string, kind: string, value: real, fee: real)
      requires Valid()
      modifies this
      ensures Valid()
      ensures walletNameRebound == old(walletNameRebound) && txNameRebound == old(txNameRebound)
      ensures Dicts() == old(Dicts()) + [NewWalletRecord(walletID, walletName, balance, txID, kind, value, fee)]
      ensures |listWallet| == |old(listWallet)| + 1 && listWallet[..|old(listWallet)|] == old(listWallet)
    {
      var wallet := NewWallet(walletID, walletName, balance, txID, kind, value, fee);
      Append(wallet);
    }

    /** One pass through the menu loop: the first line is the choice, read with
        `int()`, the rest are the answers its branch reads, and `file` is what
        option 1 would find on disk. */
    method Step(lines: seq<string>, file: Option<seq<WalletRecord>>) returns (outcome: Outcome, rest: seq<string>)
      requires Valid()
      modifies this, listWallet, Held()
      ensures Valid()
      ensures lines == [] || ParseInt(lines[0]).None? ==> outcome == Crash
      ensures outcome == Exit <==> lines != [] && ParseInt(lines[0]) == Some(0)
      ensures lines != [] && ParseInt(lines[0]).Some? ==>
                var p := Transition(ParseInt(lines[0]).value, lines[1..], file, old(State()));
                outcome == p.outcome && (outcome != Crash ==> State() == p.after && rest == p.rest)
      ensures lines != [] && ParseInt(lines[0]).Some? && ParseInt(lines[0]).value !in Choices ==>
                listWallet == old(listWallet)
    {
      if lines == [] || ParseInt(lines[0]).None? {
        return Crash, lines;
      }
      outcome, rest := Dispatch(ParseInt(lines[0]).value, lines[1..], file);
    }

    /** The branch for a choice: 0 ends the loop, 1 to 19 run their option, and
        anything else changes nothing and goes round again. */
    method Dispatch(choice: int, answers: seq<string>, file: Option<seq<WalletRecord>>)
      returns (outcome: Outcome, rest: seq<string>)
      requires Valid()
      modifies this, listWallet, Held()
      ensures Valid()
      ensures outcome == Exit <==> choice == 0
      ensures var p := Transition(choice, answers, file, old(State()));
                outcome == p.outcome && (outcome != Crash ==> State() == p.after && rest == p.rest)
      ensures choice !in Choices ==> listWallet == old(listWallet)
    {
      rest := answers;
      if choice == 0 {
        return Exit, rest;
      } else if choice == 1 {
        outcome := Load(file);
      } else if choice == 2 {
        outcome, rest := AddNew(answers);
      } else if choice == 5 {
        outcome, rest := EditPass(answers, file);
      } else if choice == 6 {
        outcome, rest := RemovePass(answers, file);
      } else if choice == 14 {
        outcome, rest := SortPass(answers, file);
      } else if choice in Choices {
        outcome := Continue;
        Rebind(choice);
      } else {
        outcome := Continue;
      }
    }

    /** Option 5: edit every history with the next answers; a pass that goes through
        then rebinds the loop names. */
    method EditPass(answers: seq<string>, file: Option<seq<WalletRecord>>)
      returns (outcome: Outcome, rest: seq<string>)
      requires Valid()
      modifies this, listWallet, Held()
      ensures Valid()
      ensures var p := Transition(5, answers, file, old(State()));
                outcome == p.outcome && (outcome != Crash ==> State() == p.after && rest == p.rest)
    {
      ghost var s0 := State();
      outcome, rest := Edit(answers);
      if outcome == Continue {
        ghost var e := EditAll(s0.wallets, answers[0], AsNumbers(answers[1..])).value;
        assert Transition(5, answers, file, s0) == Pass(Continue, Rebound(s0.(wallets := e.0), 5), answers[1 + e.1..]);
        assert State() == s0.(wallets := e.0);
        Rebind(5);
      }
    }

    /** Option 6: remove one id from every history; a pass that goes through
        then rebinds the loop names. */
    method RemovePass(answers: seq<string>, file: Option<seq<WalletRecord>>)
      returns (outcome: Outcome, rest: seq<string>)
      requires Valid()
      modifies this, listWallet, Held()
      ensures Valid()
      ensures var p := Transition(6, answers, file, old(State()));
                outcome == p.outcome && (outcome != Crash ==> State() == p.after && rest == p.rest)
    {
      ghost var s0 := State();
      outcome, rest := Remove(answers);
      if outcome == Continue {
        ghost var mid := State();
        assert mid == s0.(wallets := mid.wallets);
        Rebind(6);
      }
    }

    /** Option 14: sort every history by one key; a pass that goes through
        then rebinds the loop names. */
    method SortPass(answers: seq<string>, file: Option<seq<WalletRecord>>)
      returns (outcome: Outcome, rest: seq<string>)
      requires Valid()
      modifies this, listWallet, Held()
      ensures Valid()
      ensures var p := Transition(14, answers, file, old(State()));
                outcome == p.outcome && (outcome != Crash ==> State() == p.after && rest == p.rest)
    {
      ghost var s0 := State();
      outcome, rest := Sort(answers);
      if outcome == Continue {
        ghost var mid := State();
        assert mid == s0.(wallets := mid.wallets);
        Rebind(14);
      }
    }

    /** `list_wallet.append(wallet)` for a wallet sharing no object with the list. */
    method Append(wallet: CryptoWallet)
      requires Valid()
      requires wallet !in listWallet && Distinct(wallet.transactionHistory)
      requires forall k :: 0 <= k < |wallet.transactionHistory| ==> wallet.transactionHistory[k] !in Held()
      modifies this
      ensures Valid()
      ensures walletNameRebound == old(walletNameRebound) && txNameRebound == old(txNameRebound)
      ensures listWallet == old(listWallet) + [wallet]
      ensures Dicts() == old(Dicts()) + [wallet.ToDict()]
    {
      ghost var hs := Histories();
      forall j | 0 <= j < |hs| ensures Apart(wallet.transactionHistory, hs[j]) {
        forall k, l | 0 <= k < |wallet.transactionHistory| && 0 <= l < |hs[j]|
          ensures wallet.transactionHistory[k] != hs[j][l]
        {
          assert hs[j][l] in Held();
        }
      }
      DisjointAppend(hs, wallet.transactionHistory);
      listWallet := listWallet + [wallet];
      assert Histories() == hs + [wallet.transactionHistory];
    }

    /** Line 178 for one wallet: `editTransaction` on the `i`-th wallet with the
        two numbers entered; the other wallets are untouched. */
    method EditOne(i: nat, id: string, newAmount: real, newFee: real) returns (found: bool)
      requires Valid() && i < |listWallet|
      modifies listWallet[i].transactionHistory
      ensures Valid()
      ensures found <==> FirstWithId(old(Dicts())[i].transactionHistory, id).Some?
      ensures Dicts() == old(Dicts())[i := old(Dicts())[i].(transactionHistory :=
                EditFirst(old(Dicts())[i].transactionHistory, id, newAmount, newFee))]
    {
      ghost var before := Dicts();
      var wallet := listWallet[i];
      found := wallet.EditTransaction(id, newAmount, newFee);
      forall j | 0 <= j < |listWallet| && j != i
        ensures listWallet[j].ToDict() == before[j]
      {
        assert Apart(Histories()[j], Histories()[i]);
        forall k | 0 <= k < |listWallet[j].transactionHistory|
          ensures listWallet[j].transactionHistory[k] !in wallet.transactionHistory
        {
        }
      }
    }

    /** Line 183 for one wallet: `removeTransaction` on the `i`-th wallet. */
    method RemoveOne(i: nat, id: string)
      requires Valid() && i < |listWallet|
      modifies listWallet[i]
      ensures Valid()
      ensures Dicts() == old(Dicts())[i := old(Dicts())[i].(transactionHistory :=
                WithoutId(old(Dicts())[i].transactionHistory, id))]
    {
      ghost var before := Dicts();
      ghost var hs := Histories();
      ghost var after := before[i].(transactionHistory := WithoutId(before[i].transactionHistory, id));
      var wallet := listWallet[i];
      RemoveFrom(wallet, id);
      assert wallet.ToDict() == after;
      forall j | 0 <= j < |listWallet| && j != i
        ensures listWallet[j].transactionHistory == hs[j] && listWallet[j].ToDict() == before[j]
      {
        assert listWallet[j] != wallet;
      }
      assert Dicts() == before[i := after];
      assert Histories() == hs[i := wallet.transactionHistory];
      DisjointShrink(hs, i, wallet.transactionHistory);
    }

    /** Line 218 for one wallet: `sortTransactions` on the `i`-th wallet. */
    method SortOne(i: nat, sortBy: string)
      requires Valid() && i < |listWallet|
      modifies listWallet[i]
      ensures Valid()
      ensures Dicts() == old(Dicts())[i := if sortBy == "value"
                then old(Dicts())[i].(transactionHistory := SortByAmount(old(Dicts())[i].transactionHistory))
                else old(Dicts())[i]]
    {
      ghost var before := Dicts();
      ghost var hs := Histories();
      ghost var after := if sortBy == "value"
        then before[i].(transactionHistory := SortByAmount(before[i].transactionHistory))
        else before[i];
      var wallet := listWallet[i];
      wallet.SortTransactions(sortBy);
      assert wallet.ToDict() == after;
      forall j | 0 <= j < |listWallet| && j != i
        ensures listWallet[j].transactionHistory == hs[j] && listWallet[j].ToDict() == before[j]
      {
        assert listWallet[j] != wallet;
      }
      DisjointPermute(hs, i, wallet.transactionHistory);
      assert Histories() == hs[i := wallet.transactionHistory];
      assert Dicts() == before[i := after];
    }

    /** The records and the two flags, as `Transition` sees them. */
    ghost function State(): MenuState
      reads this, listWallet, Held()
    {
      MenuState(Dicts(), walletNameRebound, txNameRebound)
    }

    /** `[w.to_dict() for w in list_wallet]` */
    ghost function Dicts(): (r: seq<WalletRecord>)
      reads this, listWallet, Held()
      ensures |r| == |listWallet|
      ensures forall i {:trigger r[i]} :: 0 <= i < |listWallet| ==> r[i] == listWallet[i].ToDict()
    {
      seq(|listWallet|, i requires 0 <= i < |listWallet| reads this, listWallet, Held() =>
        listWallet[i].ToDict())
    }
  }
}
