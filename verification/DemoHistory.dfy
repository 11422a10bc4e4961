/** The demo SDK's transaction history: newest first, bounded, and summed over a window; and the
    running savings counter beside it. */
module DemoHistory {
  import opened Arithmetic
  import opened MapTotals

  datatype Entry = Entry(gasSaved: int, timestamp: int)

  /** What changes history or counter: a sponsored transaction (both), one announced over the
      socket (history only), a total announced over the socket or a polled increment (counter
      only), and a reset. */
  datatype Operation =
    | Sponsor(entry: Entry)
    | Add(entry: Entry)
    | SetTotal(total: int)
    | Poll(increment: int)
    | Reset

  predicate Records(operation: Operation) {
    operation.Sponsor? || operation.Add?
  }

  const CAPACITY: nat := 100
  const WEEK: int := 7 * 24 * 60 * 60 * 1000

  /** The newest `n` entries of a newest-first list. */
  function Newest(entries: seq<Entry>, n: nat): seq<Entry> {
    entries[..Min(n, |entries|)]
  }

  /** Everything added since the last reset, newest first and never cut. */
  function SinceReset(operations: seq<Operation>): seq<Entry> {
    if operations == [] then []
    else
      match operations[|operations| - 1]
      case Reset => []
      case Sponsor(entry) => [entry] + SinceReset(operations[..|operations| - 1])
      case Add(entry) => [entry] + SinceReset(operations[..|operations| - 1])
      case _ => SinceReset(operations[..|operations| - 1])
  }

  /** The counter those operations lead to. An announced total of zero reads as none given. */
  function Counter(operations: seq<Operation>): int {
    if operations == [] then 0
    else
      var before := Counter(operations[..|operations| - 1]);
      match operations[|operations| - 1]
      case Sponsor(entry) => before + entry.gasSaved
      case Add(_) => before
      case SetTotal(total) => if total != 0 then total else before
      case Poll(increment) => before + increment
      case Reset => 0
  }

  /** The filter and reduce of the weekly figure, and how many entries pass the filter. */
  function WindowSum(entries: seq<Entry>, since: int): int {
    if entries == [] then 0
    else (if entries[0].timestamp > since then entries[0].gasSaved else 0) + WindowSum(entries[1..], since)
  }

  function InWindow(entries: seq<Entry>, since: int): nat {
    if entries == [] then 0
    else (if entries[0].timestamp > since then 1 else 0) + InWindow(entries[1..], since)
  }

  /** The positions inside a window with what each of them saved. */
  function SavingsSince(entries: seq<Entry>, since: int): map<nat, int> {
    map i: nat | i < |entries| && entries[i].timestamp > since :: entries[i].gasSaved
  }

  lemma SavingsOneMore(entries: seq<Entry>, since: int)
    requires entries != []
    ensures var n := |entries| - 1;
      SavingsSince(entries, since) ==
        if entries[n].timestamp > since then SavingsSince(entries[..n], since)[n := entries[n].gasSaved]
        else SavingsSince(entries[..n], since)
  {
  }

  /** The fold is the sum of what the entries in the window saved, and the count is theirs. */
  lemma {:induction false} WindowSumIsTheSum(entries: seq<Entry>, since: int)
    ensures WindowSum(entries, since) == Sum(SavingsSince(entries, since))
    ensures InWindow(entries, since) == |SavingsSince(entries, since)|
  {
    if entries == [] {
      assert SavingsSince(entries, since) == map[];
    } else {
      var n: nat := |entries| - 1;
      var all, front := SavingsSince(entries, since), SavingsSince(entries[..n], since);
      WindowSumIsTheSum(entries[..n], since);
      assert entries == entries[..n] + [entries[n]];
      WindowSumSplits(entries[..n], [entries[n]], since);
      SavingsOneMore(entries, since);
      assert WindowSum([], since) == 0 && [entries[n]][1..] == [];
      if entries[n].timestamp > since {
        assert all - {n} == front;
        SumRemove(all, n);
      }
    }
  }

  /** `slice(0, limit)` with its reading of negative limits. */
  function Slice(entries: seq<Entry>, limit: int): seq<Entry> {
    if limit >= 0 then Newest(entries, limit)
    else if -limit <= |entries| then entries[..|entries| + limit]
    else []
  }

  /** The entry comes first, the others move back by one, and what is then beyond a hundred goes. */
  predicate Prepended(before: seq<Entry>, entry: Entry, after: seq<Entry>) {
    && |after| == (if |before| < 100 then |before| + 1 else 100)
    && after[0] == entry
    && forall i :: 0 < i < |after| ==> after[i] == before[i - 1]
  }

  class History {
    var transactionHistory: seq<Entry>
    var gasSavings: int
    ghost var operations: seq<Operation>

    ghost predicate Valid()
      reads this
    {
      && transactionHistory == Newest(SinceReset(operations), CAPACITY)
      && |transactionHistory| <= 100
      && gasSavings == Counter(operations)
    }

    constructor ()
      ensures Valid() && operations == [] && gasSavings == 0
    {
      transactionHistory, gasSavings, operations := [], 0, [];
    }

    /** Put in front, then cut to capacity when that made the list too long. */
    method AddTransactionToHistory(entry: Entry)
      modifies this`transactionHistory
      ensures transactionHistory == Newest([entry] + old(transactionHistory), CAPACITY)
      ensures Prepended(old(transactionHistory), entry, transactionHistory)
    {
      transactionHistory := [entry] + transactionHistory;
      if |transactionHistory| > CAPACITY {
        transactionHistory := transactionHistory[..CAPACITY];
      }
    }

    /** A transaction the SDK sponsored itself: counted, then recorded. */
    method QuickSponsor(entry: Entry)
      requires Valid()
      modifies this
      ensures Valid() && operations == old(operations) + [Sponsor(entry)]
      ensures gasSavings == old(gasSavings) + entry.gasSaved
      ensures Prepended(old(transactionHistory), entry, transactionHistory)
    {
      operations := operations + [Sponsor(entry)];
      assert operations[..|operations| - 1] == old(operations);
      gasSavings := gasSavings + entry.gasSaved;
      AddTransactionToHistory(entry);
    }

    /** A completed transaction announced over the socket: recorded, not counted. */
    method TransactionCompleted(entry: Entry)
      requires Valid()
      modifies this
      ensures Valid() && operations == old(operations) + [Add(entry)]
      ensures gasSavings == old(gasSavings)
      ensures Prepended(old(transactionHistory), entry, transactionHistory)
    {
      operations := operations + [Add(entry)];
      assert operations[..|operations| - 1] == old(operations);
      AddTransactionToHistory(entry);
    }

    /** A total announced over the socket replaces the counter, unless it is zero. */
    method GasSavingsUpdated(total: int)
      requires Valid()
      modifies this
      ensures Valid() && operations == old(operations) + [SetTotal(total)]
      ensures gasSavings == if total != 0 then total else old(gasSavings)
      ensures transactionHistory == old(transactionHistory)
    {
      operations := operations + [SetTotal(total)];
      assert operations[..|operations| - 1] == old(operations);
      if total != 0 {
        gasSavings := total;
      }
    }

    method PollIncrement(increment: int)
      requires Valid()
      modifies this
      ensures Valid() && operations == old(operations) + [Poll(increment)]
      ensures gasSavings == old(gasSavings) + increment
      ensures transactionHistory == old(transactionHistory)
    {
      operations := operations + [Poll(increment)];
      assert operations[..|operations| - 1] == old(operations);
      gasSavings := gasSavings + increment;
    }

    method ResetDemo()
      requires Valid()
      modifies this
      ensures Valid() && operations == old(operations) + [Reset]
      ensures transactionHistory == [] && gasSavings == 0
    {
      operations := operations + [Reset];
      gasSavings := 0;
      transactionHistory := [];
    }

    method GetTransactionHistory(limit: int) returns (listed: seq<Entry>)
      requires Valid()
      ensures limit >= 0 ==> listed == Newest(SinceReset(operations), Min(limit, CAPACITY))
      ensures listed <= transactionHistory <= SinceReset(operations)
      ensures |transactionHistory| == if |SinceReset(operations)| < 100 then |SinceReset(operations)| else 100
      ensures limit >= 0 ==> |listed| == if limit < |transactionHistory| then limit else |transactionHistory|
      ensures limit < 0 ==> |listed| == if -limit < |transactionHistory| then |transactionHistory| + limit else 0
      ensures listed == Slice(Newest(SinceReset(operations), CAPACITY), limit)
    {
      if limit >= 0 {
        listed := transactionHistory[..Min(limit, |transactionHistory|)];
      } else {
        var end := |transactionHistory| + limit;
        listed := if end >= 0 then transactionHistory[..end] else [];
      }
    }

    /** The weekly figure: what the stored entries of the last 7 * 24 * 60 * 60 * 1000 milliseconds
        saved, summed. */
    method WeeklyTotal(now: int) returns (total: int)
      requires Valid()
      ensures total == WindowSum(Newest(SinceReset(operations), CAPACITY), now - WEEK)
      ensures total == Sum(map i: nat | i < |transactionHistory| && transactionHistory[i].timestamp > now - 604_800_000
                             :: transactionHistory[i].gasSaved)
    {
      total := 0;
      for i := 0 to |transactionHistory|
        invariant total == WindowSum(transactionHistory[..i], now - WEEK)
      {
        assert transactionHistory[..i + 1] == transactionHistory[..i] + [transactionHistory[i]];
        WindowSumSplits(transactionHistory[..i], [transactionHistory[i]], now - WEEK);
        if transactionHistory[i].timestamp > now - WEEK {
          total := total + transactionHistory[i].gasSaved;
        }
      }
      assert transactionHistory[..|transactionHistory|] == transactionHistory;
      WindowSumIsTheSum(transactionHistory, now - WEEK);
      assert SavingsSince(transactionHistory, now - WEEK) ==
        map i: nat | i < |transactionHistory| && transactionHistory[i].timestamp > now - 604_800_000
          :: transactionHistory[i].gasSaved;
    }
  }

  // ---- What cutting costs ----------------------------------------------------------------

  ghost predicate NewestFirst(entries: seq<Entry>) {
    forall i, j :: 0 <= i < j < |entries| ==> entries[i].timestamp >= entries[j].timestamp
  }

  ghost predicate Nonnegative(entries: seq<Entry>) {
    forall i :: 0 <= i < |entries| ==> entries[i].gasSaved >= 0
  }

  lemma {:induction false} WindowSumSplits(front: seq<Entry>, back: seq<Entry>, since: int)
    ensures WindowSum(front + back, since) == WindowSum(front, since) + WindowSum(back, since)
    ensures InWindow(front + back, since) == InWindow(front, since) + InWindow(back, since)
  {
    if front == [] {
      assert front + back == back;
    } else {
      WindowSumSplits(front[1..], back, since);
      assert (front + back)[1..] == front[1..] + back;
    }
  }

  lemma {:induction false} NonnegativeWindow(entries: seq<Entry>, since: int)
    requires Nonnegative(entries)
    ensures WindowSum(entries, since) >= 0
    ensures InWindow(entries, since) == 0 ==> WindowSum(entries, since) == 0
    ensures (forall i :: 0 <= i < |entries| ==> entries[i].gasSaved > 0) && InWindow(entries, since) > 0 ==>
      WindowSum(entries, since) > 0
  {
    if entries != [] {
      NonnegativeWindow(entries[1..], since);
    }
  }

  /** In a newest-first list the entries inside the window come first. */
  lemma {:induction false} WindowIsAPrefix(entries: seq<Entry>, since: int)
    requires NewestFirst(entries)
    ensures InWindow(entries, since) <= |entries|
    ensures forall i :: 0 <= i < |entries| ==> (entries[i].timestamp > since <==> i < InWindow(entries, since))
  {
    if entries != [] {
      WindowIsAPrefix(entries[1..], since);
      assert forall i :: 0 < i < |entries| ==> entries[i] == entries[1..][i - 1];
    }
  }

  lemma {:induction false} NoneInWindow(entries: seq<Entry>, since: int)
    requires forall i :: 0 <= i < |entries| ==> entries[i].timestamp <= since
    ensures InWindow(entries, since) == 0
  {
    if entries != [] {
      NoneInWindow(entries[1..], since);
    }
  }

  /** The stored history never overstates the window, and states it exactly when at most a
      hundred entries fall into it; with positive savings exactly then only. */
  lemma CutWindowSum(entries: seq<Entry>, since: int)
    requires NewestFirst(entries) && Nonnegative(entries)
    ensures var stored := WindowSum(Newest(entries, CAPACITY), since);
      var truth := WindowSum(entries, since);
      && stored <= truth
      && (InWindow(entries, since) <= CAPACITY ==> stored == truth)
      && ((forall i :: 0 <= i < |entries| ==> entries[i].gasSaved > 0) && stored == truth ==>
            InWindow(entries, since) <= CAPACITY)
  {
    var cut := Min(CAPACITY, |entries|);
    var front, back := entries[..cut], entries[cut..];
    assert entries == front + back;
    WindowSumSplits(front, back, since);
    NonnegativeWindow(back, since);
    WindowIsAPrefix(entries, since);
    if InWindow(entries, since) <= CAPACITY {
      forall i | 0 <= i < |back| ensures back[i].timestamp <= since {
        assert back[i] == entries[cut + i];
      }
      NoneInWindow(back, since);
    } else {
      assert back[0] == entries[cut] && back[0].timestamp > since;
    }
  }

  /** Additions at nondecreasing times keep the list newest first, across resets. */
  ghost predicate Timely(operations: seq<Operation>) {
    forall i, j :: 0 <= i < j < |operations| && Records(operations[i]) && Records(operations[j]) ==>
      operations[i].entry.timestamp <= operations[j].entry.timestamp
  }

  /** The operations that record an entry and come after the last reset, and those that record one
      after a given position. */
  function Kept(operations: seq<Operation>): set<nat> {
    set i: nat | i < |operations| && Records(operations[i]) && NoResetAfter(operations, i)
  }

  predicate NoResetAfter(operations: seq<Operation>, i: nat) {
    forall j :: i < j < |operations| ==> !operations[j].Reset?
  }

  function RecordsAfter(operations: seq<Operation>, i: nat): set<nat> {
    set j: nat | i < j < |operations| && Records(operations[j])
  }

  /** The uncut history has one entry for each of them, newest first: an entry's place is the number
      of entries recorded after it. */
  lemma {:induction false} UncutHistoryIs(operations: seq<Operation>)
    ensures |SinceReset(operations)| == |Kept(operations)|
    ensures forall i: nat :: i in Kept(operations) ==>
      && |RecordsAfter(operations, i)| < |SinceReset(operations)|
      && SinceReset(operations)[|RecordsAfter(operations, i)|] == operations[i].entry
  {
    if operations == [] {
      assert Kept(operations) == {};
    } else {
      var n := |operations| - 1;
      var front := operations[..n];
      UncutHistoryIs(front);
      KeptOneMore(operations);
      forall i: nat | i in Kept(operations)
        ensures |RecordsAfter(operations, i)| < |SinceReset(operations)|
        ensures SinceReset(operations)[|RecordsAfter(operations, i)|] == operations[i].entry
      {
        RecordsAfterOneMore(operations, i);
      }
    }
  }

  lemma KeptOneMore(operations: seq<Operation>)
    requires operations != []
    ensures var n := |operations| - 1;
      Kept(operations) ==
        if operations[n].Reset? then {}
        else Kept(operations[..n]) + if Records(operations[n]) then {n} else {}
  {
    var n := |operations| - 1;
    forall i: nat | i < n ensures NoResetAfter(operations, i) <==>
      NoResetAfter(operations[..n], i) && !operations[n].Reset?
    {
      assert NoResetAfter(operations, i) ==> !operations[n].Reset?;
    }
  }

  lemma RecordsAfterOneMore(operations: seq<Operation>, i: nat)
    requires i < |operations|
    ensures var n := |operations| - 1;
      |RecordsAfter(operations, i)| ==
        if i == n then 0 else |RecordsAfter(operations[..n], i)| + if Records(operations[n]) then 1 else 0
  {
    var n := |operations| - 1;
    var after, before := RecordsAfter(operations, i), RecordsAfter(operations[..n], i);
    if i == n {
      assert after == {};
    } else {
      assert after == if Records(operations[n]) then before + {n} else before;
    }
  }

  lemma {:induction false} SinceResetIsNewestFirst(operations: seq<Operation>)
    requires Timely(operations)
    ensures NewestFirst(SinceReset(operations))
    ensures forall x :: x in SinceReset(operations) ==> Add(x) in operations || Sponsor(x) in operations
  {
    if operations != [] {
      var front := operations[..|operations| - 1];
      SinceResetIsNewestFirst(front);
      assert forall x :: x in front ==> x in operations;
      var rest := SinceReset(front);
      forall k | 0 <= k < |rest| && Records(operations[|operations| - 1])
        ensures rest[k].timestamp <= operations[|operations| - 1].entry.timestamp
      {
        assert rest[k] in rest;
        var i :| 0 <= i < |front| && Records(front[i]) && front[i].entry == rest[k];
        assert operations[i] == front[i];
      }
    }
  }

  /** After any run of operations whose entries come at nondecreasing times, the weekly figure is at
      most the true one over everything since the last reset, and equal to it when at most a
      hundred entries fall in the week. */
  lemma WeeklyFigureIsHonest(operations: seq<Operation>, now: int)
    requires Timely(operations)
    requires forall x :: x in operations && Records(x) ==> x.entry.gasSaved >= 0
    ensures var all := SinceReset(operations);
      && WindowSum(Newest(all, CAPACITY), now - WEEK) <= WindowSum(all, now - WEEK)
      && (InWindow(all, now - WEEK) <= CAPACITY ==>
            WindowSum(Newest(all, CAPACITY), now - WEEK) == WindowSum(all, now - WEEK))
  {
    SinceResetIsNewestFirst(operations);
    var all := SinceReset(operations);
    forall i | 0 <= i < |all| ensures all[i].gasSaved >= 0 {
      assert all[i] in all;
    }
    CutWindowSum(all, now - WEEK);
  }

  // ---- Counter against history -----------------------------------------------------------

  /** Operations that set the counter whatever it was. */
  predicate Restarts(operation: Operation) {
    operation.Reset? || (operation.SetTotal? && operation.total != 0)
  }

  /** The position after the last of them. */
  function LastRestart(operations: seq<Operation>): (k: nat)
    ensures k <= |operations| && (k == 0 || Restarts(operations[k - 1]))
    ensures forall i :: k <= i < |operations| ==> !Restarts(operations[i])
  {
    if operations == [] then 0
    else if Restarts(operations[|operations| - 1]) then |operations|
    else LastRestart(operations[..|operations| - 1])
  }

  /** What the operations up to a restart leave in the counter. */
  function StartValue(operations: seq<Operation>): int {
    if operations == [] || !operations[|operations| - 1].SetTotal? then 0
    else operations[|operations| - 1].total
  }

  function SumOver(operations: seq<Operation>, amount: Operation -> int): int {
    if operations == [] then 0
    else SumOver(operations[..|operations| - 1], amount) + amount(operations[|operations| - 1])
  }

  function Sponsored(): Operation -> int { (o: Operation) => if o.Sponsor? then o.entry.gasSaved else 0 }

  function Added(): Operation -> int { (o: Operation) => if o.Add? then o.entry.gasSaved else 0 }

  function Polled(): Operation -> int { (o: Operation) => if o.Poll? then o.increment else 0 }

  function SavedInAll(entries: seq<Entry>): int {
    if entries == [] then 0 else entries[0].gasSaved + SavedInAll(entries[1..])
  }

  /** From any point on without a restart, the counter gains what is sponsored and polled, and the
      uncut history what is sponsored and announced. */
  lemma {:induction false} WithoutRestart(operations: seq<Operation>, k: nat)
    requires k <= |operations| && forall i :: k <= i < |operations| ==> !Restarts(operations[i])
    ensures Counter(operations) ==
      Counter(operations[..k]) + SumOver(operations[k..], Sponsored()) + SumOver(operations[k..], Polled())
    ensures SavedInAll(SinceReset(operations)) == SavedInAll(SinceReset(operations[..k]))
      + SumOver(operations[k..], Sponsored()) + SumOver(operations[k..], Added())
  {
    if k == |operations| {
      assert operations[..k] == operations;
    } else {
      var front := operations[..|operations| - 1];
      WithoutRestart(front, k);
      assert front[..k] == operations[..k];
      assert operations[k..][..|operations[k..]| - 1] == front[k..];
    }
  }

  /** The counter in closed form: the last nonzero total announced since the last reset, or zero,
      plus everything sponsored and polled after it. */
  lemma CounterInClosedForm(operations: seq<Operation>)
    ensures var k := LastRestart(operations);
      Counter(operations) == StartValue(operations[..k])
        + SumOver(operations[k..], Sponsored()) + SumOver(operations[k..], Polled())
  {
    WithoutRestart(operations, LastRestart(operations));
  }

  /** So it equals the sum over everything recorded since the last reset, beyond what the stored
      history keeps, if and only if the total it restarted from and what was polled since make up
      for what was recorded before that restart and announced since; in particular while only
      sponsored transactions and resets come in. */
  lemma CounterSumsTheUncutHistoryIff(operations: seq<Operation>)
    ensures var k := LastRestart(operations);
      Counter(operations) == SavedInAll(SinceReset(operations)) <==>
        StartValue(operations[..k]) + SumOver(operations[k..], Polled())
          == SavedInAll(SinceReset(operations[..k])) + SumOver(operations[k..], Added())
    ensures (forall x :: x in operations ==> x.Sponsor? || x.Reset?) ==>
      Counter(operations) == SavedInAll(SinceReset(operations))
  {
    WithoutRestart(operations, LastRestart(operations));
    if forall x :: x in operations ==> x.Sponsor? || x.Reset? {
      OnlySponsored(operations);
    }
  }

  lemma {:induction false} OnlySponsored(operations: seq<Operation>)
    requires forall x :: x in operations ==> x.Sponsor? || x.Reset?
    ensures Counter(operations) == SavedInAll(SinceReset(operations))
  {
    if operations != [] {
      OnlySponsored(operations[..|operations| - 1]);
      assert operations[|operations| - 1] in operations;
    }
  }
}
