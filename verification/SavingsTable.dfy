/** The savings read model in the database: the transaction table with its unique id, the
    per-user running total, and the trigger that keeps the second up to date with the first. */
module SavingsTable {

  type User = string

  const MIN_BIGINT: int := -0x8000_0000_0000_0000
  const MAX_BIGINT: int := 0x7FFF_FFFF_FFFF_FFFF
  const MAX_INTEGER: int := 0x7FFF_FFFF
  const EXECUTED := "executed"

  datatype Moment = Never | At(time: nat)

  datatype Row = Row(totalSaved: int, transactionCount: int, lastTransactionAt: Moment)

  datatype Transaction = Transaction(
    transactionId: string, userAccount: User, gasCost: int, status: string, createdAt: nat)

  datatype Tables = Tables(history: map<string, Transaction>, savings: map<User, Row>)

  /** A user's row, or what the API answers for a user without one. */
  function RowOf(t: Tables, user: User): Row {
    if user in t.savings then t.savings[user] else Row(0, 0, Never)
  }

  /** The row after one executed transaction. */
  function Credited(row: Row, tx: Transaction): Row {
    Row(row.totalSaved + tx.gasCost, row.transactionCount + 1, At(tx.createdAt))
  }

  predicate FitsColumns(row: Row) {
    MIN_BIGINT <= row.totalSaved <= MAX_BIGINT && row.transactionCount <= MAX_INTEGER
  }

  /** The statement goes through unless the id is taken, a number does not fit its column, or
      the database refuses for a reason outside this model (`admitted`). */
  predicate Accepts(t: Tables, tx: Transaction, admitted: bool) {
    && admitted
    && tx.transactionId !in t.history
    && MIN_BIGINT <= tx.gasCost <= MAX_BIGINT
    && (tx.status == EXECUTED ==> FitsColumns(Credited(RowOf(t, tx.userAccount), tx)))
  }

  function Inserted(t: Tables, tx: Transaction): Tables {
    Tables(t.history[tx.transactionId := tx],
           if tx.status == EXECUTED
           then t.savings[tx.userAccount := Credited(RowOf(t, tx.userAccount), tx)]
           else t.savings)
  }

  function Insert(t: Tables, tx: Transaction, admitted: bool): Tables {
    if Accepts(t, tx, admitted) then Inserted(t, tx) else t
  }

  /** A post is recorded exactly if it is admitted, its id is new and its cost is a 64-bit integer,
      and, if it is executed, the user's new total is one too and the new count fits 32 bits. It
      then adds its own row to the history, and an executed one adds its cost and one to what the
      user had and dates it; no other row of either table changes. A refused post changes nothing. */
  lemma PostIsRecordedIff(t: Tables, tx: Transaction, admitted: bool)
    ensures var total := (if tx.userAccount in t.savings then t.savings[tx.userAccount].totalSaved else 0) + tx.gasCost;
      var count := (if tx.userAccount in t.savings then t.savings[tx.userAccount].transactionCount else 0) + 1;
      var after := Insert(t, tx, admitted);
      && (Accepts(t, tx, admitted) <==>
            && admitted && tx.transactionId !in t.history
            && -9_223_372_036_854_775_808 <= tx.gasCost <= 9_223_372_036_854_775_807
            && (tx.status == "executed" ==>
                  && -9_223_372_036_854_775_808 <= total <= 9_223_372_036_854_775_807
                  && count <= 2_147_483_647))
      && (!Accepts(t, tx, admitted) ==> after == t)
      && (Accepts(t, tx, admitted) ==> after.history == t.history[tx.transactionId := tx])
      && (Accepts(t, tx, admitted) && tx.status != "executed" ==> after.savings == t.savings)
      && (Accepts(t, tx, admitted) && tx.status == "executed" ==>
            after.savings == t.savings[tx.userAccount := Row(
              totalSaved := total, transactionCount := count, lastTransactionAt := At(tx.createdAt))])
  {
  }

  class Database {
    var history: map<string, Transaction>
    var savings: map<User, Row>

    ghost function Contents(): Tables
      reads this
    {
      Tables(history, savings)
    }

    constructor (t: Tables)
      ensures Contents() == t
    {
      history, savings := t.history, t.savings;
    }

    /** The trigger function: an upsert that fails when a column overflows. */
    method UpdateUserGasSavings(tx: Transaction) returns (ok: bool)
      modifies this`savings
      ensures ok <==> FitsColumns(Credited(RowOf(old(Contents()), tx.userAccount), tx))
      ensures savings ==
        if ok then old(savings)[tx.userAccount := Credited(RowOf(old(Contents()), tx.userAccount), tx)]
        else old(savings)
    {
      var row := Row(tx.gasCost, 1, At(tx.createdAt));
      if tx.userAccount in savings {
        var current := savings[tx.userAccount];
        row := Row(current.totalSaved + tx.gasCost, current.transactionCount + 1, At(tx.createdAt));
      }
      if !FitsColumns(row) {
        return false;
      }
      savings := savings[tx.userAccount := row];
      ok := true;
    }

    /** The INSERT statement with its trigger, one atomic unit: a trigger that fails takes
        the new history row with it. */
    method InsertTransaction(tx: Transaction, admitted: bool) returns (ok: bool)
      modifies this
      ensures ok <==> Accepts(old(Contents()), tx, admitted)
      ensures Contents() == Insert(old(Contents()), tx, admitted)
    {
      if !admitted || !(MIN_BIGINT <= tx.gasCost <= MAX_BIGINT) || tx.transactionId in history {
        return false;
      }
      var saved := history;
      history := history[tx.transactionId := tx];
      ok := true;
      if tx.status == EXECUTED {
        ok := UpdateUserGasSavings(tx);
        if !ok {
          history := saved;
        }
      }
    }
  }

  // ---- Any sequence of posts -------------------------------------------------------------

  datatype Post = Post(tx: Transaction, admitted: bool)

  function InsertAll(t: Tables, posts: seq<Post>): Tables {
    if posts == [] then t
    else Insert(InsertAll(t, posts[..|posts| - 1]), posts[|posts| - 1].tx, posts[|posts| - 1].admitted)
  }

  /** The transactions that were actually recorded, in order. */
  function Recorded(t: Tables, posts: seq<Post>): seq<Transaction> {
    if posts == [] then []
    else
      var last := posts[|posts| - 1];
      var done := Recorded(t, posts[..|posts| - 1]);
      if Accepts(InsertAll(t, posts[..|posts| - 1]), last.tx, last.admitted) then done + [last.tx] else done
  }

  predicate Credits(tx: Transaction, user: User) {
    tx.userAccount == user && tx.status == EXECUTED
  }

  function CreditedCost(txs: seq<Transaction>, user: User): int {
    if txs == [] then 0
    else CreditedCost(txs[..|txs| - 1], user) + if Credits(txs[|txs| - 1], user) then txs[|txs| - 1].gasCost else 0
  }

  function CreditedCount(txs: seq<Transaction>, user: User): nat {
    if txs == [] then 0
    else CreditedCount(txs[..|txs| - 1], user) + if Credits(txs[|txs| - 1], user) then 1 else 0
  }

  /** When the user was last credited, given when it was at the start. */
  function LastCredited(txs: seq<Transaction>, user: User, start: Moment): Moment {
    if txs == [] then start
    else if Credits(txs[|txs| - 1], user) then At(txs[|txs| - 1].createdAt)
    else LastCredited(txs[..|txs| - 1], user, start)
  }

  /** A row brought up to date in one go. */
  function Folded(start: Row, txs: seq<Transaction>, user: User): Row {
    Row(start.totalSaved + CreditedCost(txs, user),
        start.transactionCount + CreditedCount(txs, user),
        LastCredited(txs, user, start.lastTransactionAt))
  }

  lemma FoldedOneMore(start: Row, done: seq<Transaction>, tx: Transaction, user: User)
    ensures Folded(start, done + [tx], user) ==
      if Credits(tx, user) then Credited(Folded(start, done, user), tx) else Folded(start, done, user)
  {
    assert (done + [tx])[..|done|] == done;
  }

  lemma InsertCredits(t: Tables, tx: Transaction, admitted: bool, user: User)
    ensures RowOf(Insert(t, tx, admitted), user) ==
      if Accepts(t, tx, admitted) && Credits(tx, user) then Credited(RowOf(t, user), tx) else RowOf(t, user)
  {
  }

  /** The incremental row is the fold it stands for: the baseline plus every executed
      transaction recorded since, whatever was posted and however often. */
  lemma {:induction false} RunningTotalIsTheFold(t: Tables, posts: seq<Post>, user: User)
    ensures RowOf(InsertAll(t, posts), user) == Folded(RowOf(t, user), Recorded(t, posts), user)
  {
    if posts != [] {
      var front, last := posts[..|posts| - 1], posts[|posts| - 1];
      RunningTotalIsTheFold(t, front, user);
      InsertCredits(InsertAll(t, front), last.tx, last.admitted, user);
      FoldedOneMore(RowOf(t, user), Recorded(t, front), last.tx, user);
    }
  }

  /** `done` are the rows that `history` has beyond `base`, each under its own id. */
  ghost predicate Accounts(base: map<string, Transaction>, done: seq<Transaction>, history: map<string, Transaction>) {
    && (forall i, j :: 0 <= i < j < |done| ==> done[i].transactionId != done[j].transactionId)
    && (forall i :: 0 <= i < |done| ==> done[i].transactionId !in base)
    && (forall i :: 0 <= i < |done| ==>
          done[i].transactionId in history && history[done[i].transactionId] == done[i])
    && (forall id :: id in base ==> id in history && history[id] == base[id])
    && (forall id :: id in history ==> id in base || history[id] in done)
  }

  lemma AccountsOneMore(base: map<string, Transaction>, done: seq<Transaction>, history: map<string, Transaction>,
                        tx: Transaction)
    requires Accounts(base, done, history) && tx.transactionId !in history
    ensures Accounts(base, done + [tx], history[tx.transactionId := tx])
  {
    var all := done + [tx];
    assert forall i :: 0 <= i < |done| ==> all[i] == done[i] && done[i].transactionId in history;
    assert all[|done|] == tx;
    assert forall x :: x in done ==> x in all;
  }

  /** Every id is recorded at most once, none twice, none that was there before; the history
      holds exactly the old rows and the recorded ones. */
  lemma {:induction false} EachIdCountsOnce(t: Tables, posts: seq<Post>)
    ensures Accounts(t.history, Recorded(t, posts), InsertAll(t, posts).history)
  {
    if posts != [] {
      var front := posts[..|posts| - 1];
      EachIdCountsOnce(t, front);
      var last := posts[|posts| - 1];
      if Accepts(InsertAll(t, front), last.tx, last.admitted) {
        AccountsOneMore(t.history, Recorded(t, front), InsertAll(t, front).history, last.tx);
      }
    }
  }

  /** Posting an id again, with whatever content, changes nothing. */
  lemma RepostIsIgnored(t: Tables, posts: seq<Post>, tx: Transaction, again: Transaction, admitted: bool)
    requires tx in Recorded(t, posts) && again.transactionId == tx.transactionId
    ensures Insert(InsertAll(t, posts), again, admitted) == InsertAll(t, posts)
  {
    EachIdCountsOnce(t, posts);
  }
}
