/** The API in front of the savings table: a GET handler with a cache and a POST handler that
    invalidates it, split at their await points and interleaved freely.

    Time is the number of steps taken. `readAt`, `insertedAt`, `deletedAt` and `diedAt` are
    bookkeeping of this model about when things happened; no handler looks at them. */
module SavingsApi {
  import opened SavingsTable

  type RequestId = nat

  /** A row on its way from the table, with the number of steps done when it had been read. */
  datatype Read = Read(row: Row, readAt: nat)

  datatype Get =
    | Arrived(user: User)
    | Missed(user: User)
    | Fetched(user: User, read: Read)
    | Ready(user: User, read: Read)

  datatype PendingPost = PendingPost(user: User, insertedAt: nat)

  datatype Response = Response(user: User, read: Read)

  datatype Api = Api(
    tables: Tables,
    cache: map<User, Read>,
    gets: map<RequestId, Get>,
    posts: map<RequestId, PendingPost>,
    served: seq<Response>,
    clock: nat,
    deletedAt: map<User, nat>,
    diedAt: map<User, nat>)

  datatype Step =
    | GetArrives(id: RequestId, user: User)
    | LookUp(id: RequestId)                // the cache answers the handler's get
    | Query(id: RequestId)                 // the database answers the select
    | Store(id: RequestId)                 // the cache carries out setEx
    | Answer(id: RequestId)
    | GetDies(id: RequestId)               // an await rejects: status 500
    | InsertRow(id: RequestId, tx: Transaction, admitted: bool)
    | Invalidate(id: RequestId)            // the cache carries out del
    | PostDies(id: RequestId)              // the del never happens: status 500
    | Expire(user: User)

  // ---- The await segments ----------------------------------------------------------------

  function LookedUp(a: Api, user: User): Get {
    if user in a.cache then Ready(user, a.cache[user]) else Missed(user)
  }

  function Queried(a: Api, user: User): Get {
    Fetched(user, Read(RowOf(a.tables, user), a.clock + 1))
  }

  predicate GetIsAt(a: Api, id: RequestId, step: Step) {
    id in a.gets &&
    match step
    case LookUp(_) => a.gets[id].Arrived?
    case Query(_) => a.gets[id].Missed?
    case Store(_) => a.gets[id].Fetched?
    case Answer(_) => a.gets[id].Ready?
    case _ => false
  }

  /** The step belongs to a request that is at that point; otherwise it does nothing. */
  predicate Enabled(a: Api, step: Step) {
    match step
    case GetArrives(id, _) => id !in a.gets
    case InsertRow(id, tx, admitted) => id !in a.posts && Accepts(a.tables, tx, admitted)
    case Invalidate(id) => id in a.posts
    case PostDies(id) => id in a.posts
    case GetDies(_) => true
    case Expire(_) => true
    case _ => GetIsAt(a, step.id, step)
  }

  function Act(a: Api, step: Step): (b: Api)
    requires Enabled(a, step)
    ensures b.clock == a.clock
  {
    match step
    case GetArrives(id, user) => a.(gets := a.gets[id := Arrived(user)])
    case LookUp(id) => a.(gets := a.gets[id := LookedUp(a, a.gets[id].user)])
    case Query(id) => a.(gets := a.gets[id := Queried(a, a.gets[id].user)])
    case Store(id) =>
      var get := a.gets[id];
      a.(cache := a.cache[get.user := get.read], gets := a.gets[id := Ready(get.user, get.read)])
    case Answer(id) =>
      a.(gets := a.gets - {id}, served := a.served + [Response(a.gets[id].user, a.gets[id].read)])
    case GetDies(id) => a.(gets := a.gets - {id})
    case InsertRow(id, tx, _) =>
      a.(tables := Inserted(a.tables, tx), posts := a.posts[id := PendingPost(tx.userAccount, a.clock)])
    case Invalidate(id) =>
      var user := a.posts[id].user;
      a.(cache := a.cache - {user}, posts := a.posts - {id}, deletedAt := a.deletedAt[user := a.clock])
    case PostDies(id) => a.(posts := a.posts - {id}, diedAt := a.diedAt[a.posts[id].user := a.clock])
    case Expire(user) => a.(cache := a.cache - {user})
  }

  function Next(a: Api, step: Step): (b: Api)
    ensures b.clock == a.clock + 1
  {
    if Enabled(a, step) then Act(a, step).(clock := a.clock + 1) else a.(clock := a.clock + 1)
  }

  function Run(a: Api, steps: seq<Step>): Api {
    if steps == [] then a else Next(Run(a, steps[..|steps| - 1]), steps[|steps| - 1])
  }

  /** A server with no request in progress, over any tables. The cache may outlive a server, so
      it need not be cold: any users may have an entry, read when the table stood as it does. */
  function Start(t: Tables, warm: set<User>): Api {
    Api(t, map user | user in warm :: Read(RowOf(t, user), 0), map[], map[], [], 0, map[], map[])
  }

  /** The table as it was after the first `time` steps. */
  function TablesAt(t: Tables, warm: set<User>, steps: seq<Step>, time: nat): Tables
    requires time <= |steps|
  {
    Run(Start(t, warm), steps[..time]).tables
  }

  // ---- Where every row in flight comes from ----------------------------------------------

  predicate Carries(get: Get, user: User, read: Read) {
    (get.Fetched? || get.Ready?) && get.user == user && get.read == read
  }

  /** A row for a user is in the cache, in a handler, or already sent. */
  predicate InFlight(a: Api, user: User, read: Read) {
    || (user in a.cache && a.cache[user] == read)
    || (exists id :: id in a.gets && Carries(a.gets[id], user, read))
    || Response(user, read) in a.served
  }

  /** A handler's row was there before the step, came out of the cache, or is fresh. */
  lemma StepReadsGet(a: Api, step: Step, id: RequestId, user: User, read: Read)
    requires id in Next(a, step).gets && Carries(Next(a, step).gets[id], user, read)
    ensures (id in a.gets && Carries(a.gets[id], user, read))
         || (user in a.cache && a.cache[user] == read)
         || (step.Query? && read == Read(RowOf(a.tables, user), a.clock + 1))
  {
    if id in a.gets && Next(a, step).gets[id] == a.gets[id] {
    } else {
      assert Enabled(a, step);
      assert step.LookUp? || step.Query? || step.Store?;
    }
  }

  /** A cached or served row was there before the step or was in a handler. */
  lemma StepKeepsRead(a: Api, step: Step, user: User, read: Read)
    requires (user in Next(a, step).cache && Next(a, step).cache[user] == read)
          || Response(user, read) in Next(a, step).served
    ensures InFlight(a, user, read)
  {
    if Enabled(a, step) && (step.Store? || step.Answer?) {
      assert Carries(a.gets[step.id], a.gets[step.id].user, a.gets[step.id].read);
    }
  }

  /** After one step, a row in flight was in flight before or has just been read. */
  lemma StepReads(a: Api, step: Step, user: User, read: Read)
    requires InFlight(Next(a, step), user, read)
    ensures InFlight(a, user, read) || (step.Query? && read == Read(RowOf(a.tables, user), a.clock + 1))
  {
    var b := Next(a, step);
    if id :| id in b.gets && Carries(b.gets[id], user, read) {
      StepReadsGet(a, step, id, user, read);
    } else {
      StepKeepsRead(a, step, user, read);
    }
  }

  lemma {:induction false} ClockCountsSteps(t: Tables, warm: set<User>, steps: seq<Step>)
    ensures Run(Start(t, warm), steps).clock == |steps|
  {
    if steps != [] {
      ClockCountsSteps(t, warm, steps[..|steps| - 1]);
    }
  }

  lemma QueryKeepsTables(a: Api, step: Step)
    requires step.Query?
    ensures Next(a, step).tables == a.tables
  {
  }

  /** Under every interleaving, a row that is cached, in flight or served is what the table
      held at the moment the row was read. */
  lemma {:induction false} RowsComeFromTheTable(t: Tables, warm: set<User>, steps: seq<Step>, user: User, read: Read)
    requires InFlight(Run(Start(t, warm), steps), user, read)
    ensures read.readAt <= |steps| && (read.readAt > 0 ==> steps[read.readAt - 1].Query?)
    ensures read.row == RowOf(TablesAt(t, warm, steps, read.readAt), user)
  {
    if steps != [] {
      var front := steps[..|steps| - 1];
      var before := Run(Start(t, warm), front);
      StepReads(before, steps[|steps| - 1], user, read);
      ClockCountsSteps(t, warm, front);
      if InFlight(before, user, read) {
        RowsComeFromTheTable(t, warm, front, user, read);
        assert front[..read.readAt] == steps[..read.readAt];
      } else {
        assert steps[..read.readAt] == steps;
        QueryKeepsTables(before, steps[|steps| - 1]);
      }
    } else {
      assert steps[..read.readAt] == [];
    }
  }

  // ---- How the table moves ---------------------------------------------------------------

  /** The step records an executed transaction of the user. */
  predicate Credits(a: Api, step: Step, user: User) {
    && step.InsertRow? && Enabled(a, step)
    && SavingsTable.Credits(step.tx, user)
  }

  lemma StepCredits(a: Api, step: Step, user: User)
    ensures RowOf(Next(a, step).tables, user) ==
      if Credits(a, step, user) then Credited(RowOf(a.tables, user), step.tx) else RowOf(a.tables, user)
  {
  }

  // ---- Served totals never run ahead -----------------------------------------------------

  predicate CostsAreNonnegative(steps: seq<Step>) {
    forall i :: 0 <= i < |steps| && steps[i].InsertRow? ==> steps[i].tx.gasCost >= 0
  }

  lemma {:induction false} TotalsGrow(t: Tables, warm: set<User>, steps: seq<Step>, time: nat, user: User)
    requires time <= |steps| && CostsAreNonnegative(steps)
    ensures RowOf(TablesAt(t, warm, steps, time), user).totalSaved
         <= RowOf(Run(Start(t, warm), steps).tables, user).totalSaved
  {
    if time == |steps| {
      assert steps[..time] == steps;
    } else {
      var front := steps[..|steps| - 1];
      TotalsGrow(t, warm, front, time, user);
      StepCredits(Run(Start(t, warm), front), steps[|steps| - 1], user);
      assert front[..time] == steps[..time];
    }
  }

  /** With nonnegative costs every answered total is one the table held before the answer and
      is at most the current total. */
  lemma ServedTotalsAreBehind(t: Tables, warm: set<User>, steps: seq<Step>, i: nat)
    requires CostsAreNonnegative(steps)
    requires i < |Run(Start(t, warm), steps).served|
    ensures var now := Run(Start(t, warm), steps);
      var answer := now.served[i];
      && answer.read.readAt <= |steps|
      && answer.read.row == RowOf(TablesAt(t, warm, steps, answer.read.readAt), answer.user)
      && answer.read.row.totalSaved <= RowOf(now.tables, answer.user).totalSaved
  {
    var answer := Run(Start(t, warm), steps).served[i];
    RowsComeFromTheTable(t, warm, steps, answer.user, answer.read);
    TotalsGrow(t, warm, steps, answer.read.readAt, answer.user);
  }

  // ---- Each request gets its own answer --------------------------------------------------

  /** The step is the arrival of a request under an id not in progress. */
  predicate Arrives(a: Api, step: Step, id: RequestId) {
    step.GetArrives? && step.id == id && id !in a.gets
  }

  /** The step sends the response of the request in progress under an id. */
  predicate Answers(a: Api, step: Step, id: RequestId) {
    step == Answer(id) && id in a.gets && a.gets[id].Ready?
  }

  lemma StepKeepsUser(a: Api, step: Step, id: RequestId)
    requires id in Next(a, step).gets
    ensures if Arrives(a, step, id) then Next(a, step).gets[id].user == step.user
            else id in a.gets && Next(a, step).gets[id].user == a.gets[id].user
  {
  }

  /** Nothing is sent but by answering, and an answer goes to the user of its request. */
  lemma StepServes(a: Api, step: Step)
    ensures Next(a, step).served ==
      if step.Answer? && Answers(a, step, step.id)
      then a.served + [Response(a.gets[step.id].user, a.gets[step.id].read)]
      else a.served
  {
  }

  /** The request now in progress under an id goes back to its arrival at step `n`, for a user. */
  ghost predicate LastArrival(a: Api, steps: seq<Step>, n: int, id: RequestId, user: User) {
    && 0 <= n < |steps| && steps[n] == GetArrives(id, user) && id !in Run(a, steps[..n]).gets
    && forall k :: n < k < |steps| ==> !Arrives(Run(a, steps[..k]), steps[k], id)
  }

  lemma LastArrivalNow(a: Api, front: seq<Step>, last: Step, id: RequestId)
    requires Arrives(Run(a, front), last, id)
    ensures LastArrival(a, front + [last], |front|, id, last.user)
  {
    assert (front + [last])[..|front|] == front;
  }

  lemma LastArrivalStays(a: Api, front: seq<Step>, last: Step, n: int, id: RequestId, user: User)
    requires LastArrival(a, front, n, id, user) && !Arrives(Run(a, front), last, id)
    ensures LastArrival(a, front + [last], n, id, user)
  {
    var steps := front + [last];
    assert forall k :: 0 <= k < |front| ==> steps[..k] == front[..k];
    assert steps[..|front|] == front;
  }

  /** Under every interleaving a request in progress goes back to an arrival, unless it was there
      from the start, and carries the user it arrived with. */
  lemma {:induction false} EveryGetArrived(a: Api, steps: seq<Step>, id: RequestId) returns (n: int)
    requires id in Run(a, steps).gets && id !in a.gets
    ensures LastArrival(a, steps, n, id, Run(a, steps).gets[id].user)
  {
    var front, last := steps[..|steps| - 1], steps[|steps| - 1];
    assert front + [last] == steps;
    StepKeepsUser(Run(a, front), last, id);
    if Arrives(Run(a, front), last, id) {
      LastArrivalNow(a, front, last, id);
      n := |front|;
    } else {
      n := EveryGetArrived(a, front, id);
      LastArrivalStays(a, front, last, n, id, Run(a, front).gets[id].user);
    }
  }

  lemma LastArrivalIsUnique(a: Api, steps: seq<Step>, m: int, n: int, id: RequestId, user: User, other: User)
    requires LastArrival(a, steps, m, id, user) && LastArrival(a, steps, n, id, other)
    ensures m == n && user == other
  {
  }

  /** Under every interleaving, the answer to a request for a user is a response for that user: what
      is sent under an id carries the user of the last arrival under it. */
  lemma AnswersItsRequest(a: Api, steps: seq<Step>, n: int, id: RequestId, user: User)
    requires id !in a.gets && LastArrival(a, steps, n, id, user) && Answers(Run(a, steps), Answer(id), id)
    ensures Run(a, steps + [Answer(id)]).served ==
      Run(a, steps).served + [Response(user, Run(a, steps).gets[id].read)]
  {
    var m := EveryGetArrived(a, steps, id);
    LastArrivalIsUnique(a, steps, m, n, id, Run(a, steps).gets[id].user, user);
    RunAppend(a, steps, Answer(id));
    StepServes(Run(a, steps), Answer(id));
  }

  /** On a server that began with no request in progress, every answer goes back to a request, and
      gives that request's user a row the table held for that user. */
  lemma EveryAnswerHasItsRequest(t: Tables, warm: set<User>, steps: seq<Step>, id: RequestId)
    returns (n: int, user: User)
    requires Answers(Run(Start(t, warm), steps), Answer(id), id)
    ensures LastArrival(Start(t, warm), steps, n, id, user)
    ensures var read := Run(Start(t, warm), steps).gets[id].read;
      && Run(Start(t, warm), steps + [Answer(id)]).served ==
           Run(Start(t, warm), steps).served + [Response(user, read)]
      && read.readAt <= |steps|
      && read.row == RowOf(TablesAt(t, warm, steps, read.readAt), user)
  {
    var read := Run(Start(t, warm), steps).gets[id].read;
    user := Run(Start(t, warm), steps).gets[id].user;
    n := EveryGetArrived(Start(t, warm), steps, id);
    AnswersItsRequest(Start(t, warm), steps, n, id, user);
    assert Carries(Run(Start(t, warm), steps).gets[id], user, read);
    RowsComeFromTheTable(t, warm, steps, user, read);
  }

  /** A user's cache entry is written by a request for that user with the row it has fetched,
      removed by a POST's delete for that user or by expiry, and otherwise left alone. */
  lemma StepCaches(a: Api, step: Step, user: User)
    ensures var b := Next(a, step);
      if step.Store? && step.id in a.gets && a.gets[step.id].Fetched? && a.gets[step.id].user == user
      then user in b.cache && b.cache[user] == a.gets[step.id].read
      else if step == Expire(user) || (step.Invalidate? && step.id in a.posts && a.posts[step.id].user == user)
      then user !in b.cache
      else (user in b.cache <==> user in a.cache) && (user in a.cache ==> b.cache[user] == a.cache[user])
  {
  }

  // ---- When a cached row is stale, and why -----------------------------------------------

  /** Some step of the run from `time` on credits the user. */
  ghost predicate CreditedSince(t: Tables, warm: set<User>, steps: seq<Step>, time: nat, user: User)
    requires time <= |steps|
  {
    exists i :: time <= i < |steps| && Credits(Run(Start(t, warm), steps[..i]), steps[i], user)
  }

  lemma CreditedSinceStep(t: Tables, warm: set<User>, steps: seq<Step>, time: nat, user: User)
    requires time < |steps|
    ensures var front := steps[..|steps| - 1];
      CreditedSince(t, warm, steps, time, user) <==>
        CreditedSince(t, warm, front, time, user) || Credits(Run(Start(t, warm), front), steps[|steps| - 1], user)
  {
    var front := steps[..|steps| - 1];
    assert forall i :: 0 <= i < |front| ==> front[..i] == steps[..i];
    if CreditedSince(t, warm, front, time, user) {
      var i :| time <= i < |front| && Credits(Run(Start(t, warm), front[..i]), front[i], user);
      assert Credits(Run(Start(t, warm), steps[..i]), steps[i], user);
    }
  }

  /** The count of a row tells whether anything was credited since. */
  lemma {:induction false} CountsTellCredits(t: Tables, warm: set<User>, steps: seq<Step>, time: nat, user: User)
    requires time <= |steps|
    ensures var past := RowOf(TablesAt(t, warm, steps, time), user);
      var now := RowOf(Run(Start(t, warm), steps).tables, user);
      if CreditedSince(t, warm, steps, time, user) then past.transactionCount < now.transactionCount else now == past
  {
    if time == |steps| {
      assert steps[..time] == steps;
    } else {
      var front := steps[..|steps| - 1];
      CountsTellCredits(t, warm, front, time, user);
      StepCredits(Run(Start(t, warm), front), steps[|steps| - 1], user);
      CreditedSinceStep(t, warm, steps, time, user);
      assert front[..time] == steps[..time];
    }
  }

  /** A cached row differs from the table exactly when an executed transaction of that user
      was recorded after the row was read. */
  lemma EntryIsStaleIff(t: Tables, warm: set<User>, steps: seq<Step>, user: User)
    requires user in Run(Start(t, warm), steps).cache
    ensures var now := Run(Start(t, warm), steps);
      var entry := now.cache[user];
      && entry.readAt <= |steps|
      && (entry.row != RowOf(now.tables, user) <==> CreditedSince(t, warm, steps, entry.readAt, user))
  {
    var entry := Run(Start(t, warm), steps).cache[user];
    RowsComeFromTheTable(t, warm, steps, user, entry);
    CountsTellCredits(t, warm, steps, entry.readAt, user);
  }

  /** The three excuses for a row last known to be right at `time`: a POST that inserted since
      and has not deleted yet, a POST that died since before its delete, or a delete since. */
  predicate Excused(a: Api, user: User, time: nat) {
    || (exists id :: id in a.posts && a.posts[id].user == user && a.posts[id].insertedAt >= time)
    || (user in a.diedAt && a.diedAt[user] >= time)
    || (user in a.deletedAt && a.deletedAt[user] >= time)
  }

  /** Excuses survive every step, and a crediting step creates one. */
  lemma StepExcuses(a: Api, step: Step, user: User, time: nat)
    requires time <= a.clock
    requires Excused(a, user, time) || Credits(a, step, user)
    ensures Excused(Next(a, step), user, time)
  {
    var b := Next(a, step);
    if Credits(a, step, user) {
      assert step.id in b.posts && b.posts[step.id].user == user;
    } else if id :| id in a.posts && a.posts[id].user == user && a.posts[id].insertedAt >= time {
      if id in b.posts {
        assert b.posts[id] == a.posts[id];
      }
    }
  }

  lemma {:induction false} CreditsAreExcused(t: Tables, warm: set<User>, steps: seq<Step>, time: nat, user: User)
    requires time <= |steps| && CreditedSince(t, warm, steps, time, user)
    ensures Excused(Run(Start(t, warm), steps), user, time)
  {
    var front := steps[..|steps| - 1];
    CreditedSinceStep(t, warm, steps, time, user);
    ClockCountsSteps(t, warm, front);
    if CreditedSince(t, warm, front, time, user) {
      CreditsAreExcused(t, warm, front, time, user);
    }
    StepExcuses(Run(Start(t, warm), front), steps[|steps| - 1], user, time);
  }

  /** Under every interleaving, a stale cache entry has one of the three excuses, dated after
      the read it came from. */
  lemma StaleEntriesAreExcused(t: Tables, warm: set<User>, steps: seq<Step>, user: User)
    requires user in Run(Start(t, warm), steps).cache
    requires Run(Start(t, warm), steps).cache[user].row != RowOf(Run(Start(t, warm), steps).tables, user)
    ensures Excused(Run(Start(t, warm), steps), user, Run(Start(t, warm), steps).cache[user].readAt)
  {
    EntryIsStaleIff(t, warm, steps, user);
    CreditsAreExcused(t, warm, steps, Run(Start(t, warm), steps).cache[user].readAt, user);
  }

  lemma RunAppend(a: Api, steps: seq<Step>, step: Step)
    ensures Run(a, steps + [step]) == Next(Run(a, steps), step)
  {
    assert (steps + [step])[..|steps|] == steps;
  }

  lemma RunTwo(a: Api, s1: Step, s2: Step)
    ensures Run(a, [s1]) == Next(a, s1)
    ensures Run(a, [s1, s2]) == Next(Next(a, s1), s2)
  {
    assert Run(a, []) == a;
    assert [s1, s2][..1] == [s1];
  }

  lemma RunFour(a: Api, s1: Step, s2: Step, s3: Step, s4: Step)
    ensures Run(a, [s1, s2, s3]) == Next(Next(Next(a, s1), s2), s3)
    ensures Run(a, [s1, s2, s3, s4]) == Next(Next(Next(Next(a, s1), s2), s3), s4)
  {
    RunTwo(a, s1, s2);
    assert [s1, s2] + [s3] == [s1, s2, s3];
    RunAppend(a, [s1, s2], s3);
    assert [s1, s2, s3] + [s4] == [s1, s2, s3, s4];
    RunAppend(a, [s1, s2, s3], s4);
  }

  /** A GET that misses the cache and reads the table, up to its store. */
  lemma GetReads(t: Tables, user: User)
    ensures var a := Run(Start(t, {}), [GetArrives(0, user), LookUp(0), Query(0)]);
      a == Start(t, {}).(gets := map[0 := Fetched(user, Read(RowOf(t, user), 3))], clock := 3)
  {
    var s0 := Start(t, {});
    var s1 := Next(s0, GetArrives(0, user));
    assert s1 == s0.(gets := map[0 := Arrived(user)], clock := 1);
    var s2 := Next(s1, LookUp(0));
    assert s2 == s0.(gets := map[0 := Missed(user)], clock := 2);
    RunFour(s0, GetArrives(0, user), LookUp(0), Query(0), Query(0));
  }

  lemma PostCompletes(a: Api, tx: Transaction)
    requires a.posts == map[] && Accepts(a.tables, tx, true)
    ensures var b := Next(Next(a, InsertRow(0, tx, true)), Invalidate(0));
      && b.posts == map[] && b.gets == a.gets && b.diedAt == a.diedAt
      && b.tables == Inserted(a.tables, tx)
  {
    var mid := Next(a, InsertRow(0, tx, true));
    assert mid.posts == map[0 := PendingPost(tx.userAccount, a.clock)];
  }

  lemma GetCompletes(a: Api, user: User, read: Read)
    requires a.gets == map[0 := Fetched(user, read)]
    ensures var b := Next(Next(a, Store(0)), Answer(0));
      && b.gets == map[] && b.posts == a.posts && b.diedAt == a.diedAt && b.tables == a.tables
      && user in b.cache && b.cache[user] == read
  {
    var mid := Next(a, Store(0));
    assert mid.gets == map[0 := Ready(user, read)];
  }

  /** The third excuse is real: a GET that read the table before a POST's insert and stores
      after its delete leaves a stale entry behind with every handler finished. */
  lemma RaceLeavesStaleEntry(t: Tables, tx: Transaction)
    requires Accepts(t, tx, true) && tx.status == EXECUTED
    ensures var user := tx.userAccount;
      var steps := [GetArrives(0, user), LookUp(0), Query(0)]
                   + [InsertRow(0, tx, true)] + [Invalidate(0)] + [Store(0)] + [Answer(0)];
      var end := Run(Start(t, {}), steps);
      && end.gets == map[] && end.posts == map[] && end.diedAt == map[]
      && user in end.cache && end.cache[user].row != RowOf(end.tables, user)
  {
    var user := tx.userAccount;
    var s3 := [GetArrives(0, user), LookUp(0), Query(0)];
    var s4 := s3 + [InsertRow(0, tx, true)];
    var s5 := s4 + [Invalidate(0)];
    var s6 := s5 + [Store(0)];
    GetReads(t, user);
    RunAppend(Start(t, {}), s3, InsertRow(0, tx, true));
    RunAppend(Start(t, {}), s4, Invalidate(0));
    RunAppend(Start(t, {}), s5, Store(0));
    RunAppend(Start(t, {}), s6, Answer(0));
    PostCompletes(Run(Start(t, {}), s3), tx);
    GetCompletes(Run(Start(t, {}), s5), user, Read(RowOf(t, user), 3));
  }

  // ---- Whole requests --------------------------------------------------------------------

  function GetSteps(id: RequestId, user: User): seq<Step> {
    [GetArrives(id, user), LookUp(id), Query(id), Store(id), Answer(id)]
  }

  lemma RunFive(a: Api, s1: Step, s2: Step, s3: Step, s4: Step, s5: Step)
    ensures Run(a, [s1, s2, s3, s4, s5]) == Next(Next(Next(Next(Next(a, s1), s2), s3), s4), s5)
  {
    RunFour(a, s1, s2, s3, s4);
    assert [s1, s2, s3, s4] + [s5] == [s1, s2, s3, s4, s5];
    RunAppend(a, [s1, s2, s3, s4], s5);
  }

  lemma ArriveStep(a: Api, id: RequestId, user: User)
    requires id !in a.gets
    ensures Next(a, GetArrives(id, user)) == a.(gets := a.gets[id := Arrived(user)], clock := a.clock + 1)
  {
  }

  lemma HitStep(a: Api, id: RequestId, user: User)
    requires id in a.gets && a.gets[id] == Arrived(user) && user in a.cache
    ensures Next(a, LookUp(id)) == a.(gets := a.gets[id := Ready(user, a.cache[user])], clock := a.clock + 1)
  {
  }

  lemma MissSteps(a: Api, id: RequestId, user: User)
    requires id in a.gets && a.gets[id] == Arrived(user) && user !in a.cache
    ensures Next(Next(a, LookUp(id)), Query(id)) ==
      a.(gets := a.gets[id := Fetched(user, Read(RowOf(a.tables, user), a.clock + 2))], clock := a.clock + 2)
  {
    var b := Next(a, LookUp(id));
    assert b == a.(gets := a.gets[id := Missed(user)], clock := a.clock + 1);
    assert b.gets[id := Fetched(user, Read(RowOf(a.tables, user), a.clock + 2))]
        == a.gets[id := Fetched(user, Read(RowOf(a.tables, user), a.clock + 2))];
  }

  lemma StoreStep(a: Api, id: RequestId, user: User, read: Read)
    requires id in a.gets && a.gets[id] == Fetched(user, read)
    ensures Next(a, Store(id)) ==
      a.(gets := a.gets[id := Ready(user, read)], cache := a.cache[user := read], clock := a.clock + 1)
  {
  }

  lemma AnswerStep(a: Api, id: RequestId, user: User, read: Read)
    requires id in a.gets && a.gets[id] == Ready(user, read)
    ensures Next(a, Answer(id)) ==
      a.(gets := a.gets - {id}, served := a.served + [Response(user, read)], clock := a.clock + 1)
  {
  }

  /** Steps that a request is already past only take time. */
  lemma PastSteps(a: Api, id: RequestId)
    requires id in a.gets && a.gets[id].Ready?
    ensures Next(Next(a, Query(id)), Store(id)) == a.(clock := a.clock + 2)
  {
    assert Next(a, Query(id)) == a.(clock := a.clock + 1);
  }

  /** A request carried on to its answer. */
  function Finished(a: Api, id: RequestId): Api {
    Next(Next(Next(Next(a, LookUp(id)), Query(id)), Store(id)), Answer(id))
  }

  lemma GetFromArrival(a: Api, id: RequestId, user: User)
    requires id !in a.gets
    ensures Run(a, GetSteps(id, user)) ==
      Finished(a.(gets := a.gets[id := Arrived(user)], clock := a.clock + 1), id)
  {
    RunFive(a, GetArrives(id, user), LookUp(id), Query(id), Store(id), Answer(id));
    ArriveStep(a, id, user);
  }

  lemma HitIsServed(a: Api, id: RequestId, user: User)
    requires id in a.gets && a.gets[id] == Arrived(user) && user in a.cache
    ensures Finished(a, id) ==
      a.(gets := a.gets - {id}, served := a.served + [Response(user, a.cache[user])], clock := a.clock + 4)
  {
    HitStep(a, id, user);
    var hit := Next(a, LookUp(id));
    PastSteps(hit, id);
    AnswerStep(Next(Next(hit, Query(id)), Store(id)), id, user, a.cache[user]);
    assert hit.gets - {id} == a.gets - {id};
  }

  lemma MissIsFetched(a: Api, id: RequestId, user: User)
    requires id in a.gets && a.gets[id] == Arrived(user) && user !in a.cache
    ensures var read := Read(RowOf(a.tables, user), a.clock + 2);
      Finished(a, id) ==
      a.(gets := a.gets - {id}, served := a.served + [Response(user, read)], cache := a.cache[user := read],
         clock := a.clock + 4)
  {
    var read := Read(RowOf(a.tables, user), a.clock + 2);
    MissSteps(a, id, user);
    var fetched := Next(Next(a, LookUp(id)), Query(id));
    StoreStep(fetched, id, user, read);
    AnswerStep(Next(fetched, Store(id)), id, user, read);
    assert fetched.gets[id := Ready(user, read)] - {id} == a.gets - {id};
  }

  /** A GET carried out without interruption, whatever else is in progress, sends exactly one
      response: for its user, with the user's cache entry if there is one and leaving everything
      else as it is, and otherwise with the user's row of the table, which it also caches. */
  lemma GetServesOnce(a: Api, id: RequestId, user: User)
    requires id !in a.gets
    ensures var b := Run(a, GetSteps(id, user));
      if user in a.cache
      then b == a.(served := a.served + [Response(user, a.cache[user])], clock := a.clock + 5)
      else
        var read := Read(RowOf(a.tables, user), a.clock + 3);
        b == a.(served := a.served + [Response(user, read)], cache := a.cache[user := read], clock := a.clock + 5)
  {
    GetFromArrival(a, id, user);
    var arrived := a.(gets := a.gets[id := Arrived(user)], clock := a.clock + 1);
    assert arrived.gets - {id} == a.gets;
    if user in a.cache {
      HitIsServed(arrived, id, user);
    } else {
      MissIsFetched(arrived, id, user);
    }
  }

  /** So a GET on a server whose cache agrees with the table answers what the table says. */
  lemma GetServesTheTable(a: Api, id: RequestId, user: User)
    requires id !in a.gets && Coherent(a)
    ensures var b := Run(a, GetSteps(id, user));
      && |b.served| == |a.served| + 1 && b.served[..|a.served|] == a.served
      && b.served[|a.served|].user == user && b.served[|a.served|].read.row == RowOf(a.tables, user)
      && b.served[|a.served|].read.row ==
           (if user in a.tables.savings then a.tables.savings[user] else Row(0, 0, Never))
      && b.tables == a.tables && Coherent(b)
  {
    GetServesOnce(a, id, user);
  }

  /** A POST carried out without interruption, whatever else is in progress: a refused one does
      nothing; a recorded one inserts its row and removes its user's cache entry, and no other. */
  lemma PostInsertsAndClears(a: Api, id: RequestId, tx: Transaction, admitted: bool)
    requires id !in a.posts
    ensures Run(a, [InsertRow(id, tx, admitted), Invalidate(id)]) ==
      if Accepts(a.tables, tx, admitted)
      then a.(tables := Insert(a.tables, tx, admitted), cache := a.cache - {tx.userAccount},
              deletedAt := a.deletedAt[tx.userAccount := a.clock + 1], clock := a.clock + 2)
      else a.(clock := a.clock + 2)
  {
    RunTwo(a, InsertRow(id, tx, admitted), Invalidate(id));
    assert a.posts[id := PendingPost(tx.userAccount, a.clock)] - {id} == a.posts;
  }

  // ---- One handler at a time -------------------------------------------------------------

  /** A whole request, run to its end before the next one starts. A GET may fail after any
      number of its steps; a POST whose insert goes through also gets its delete through. */
  datatype Request =
    | GetRequest(user: User, failsAfter: nat)
    | PostRequest(tx: Transaction, admitted: bool)
    | Expiry(user: User)

  function StepsOf(request: Request): seq<Step> {
    match request
    case GetRequest(user, failsAfter) =>
      var all := GetSteps(0, user);
      if failsAfter < 5 then all[..failsAfter] + [GetDies(0)] else all
    case PostRequest(tx, admitted) => [InsertRow(0, tx, admitted), Invalidate(0)]
    case Expiry(user) => [Expire(user)]
  }

  function Handle(a: Api, requests: seq<Request>): Api {
    if requests == [] then a
    else Run(Handle(a, requests[..|requests| - 1]), StepsOf(requests[|requests| - 1]))
  }

  /** Every cached row is the table's. */
  ghost predicate Coherent(a: Api) {
    forall user :: user in a.cache ==> a.cache[user].row == RowOf(a.tables, user)
  }

  /** What holds at every point inside a GET that runs alone. */
  ghost predicate AloneInGet(a: Api) {
    && a.posts == map[] && a.gets.Keys <= {0} && Coherent(a)
    && (0 in a.gets && (a.gets[0].Fetched? || a.gets[0].Ready?) ==>
          a.gets[0].read.row == RowOf(a.tables, a.gets[0].user))
  }

  predicate GetStep(step: Step) {
    match step
    case GetArrives(id, _) => id == 0
    case LookUp(_) => true
    case Query(_) => true
    case Store(_) => true
    case Answer(_) => true
    case GetDies(_) => true
    case _ => false
  }

  lemma GetStepAlone(a: Api, step: Step)
    requires AloneInGet(a) && GetStep(step)
    ensures AloneInGet(Next(a, step))
  {
    if Enabled(a, step) {
      assert Next(a, step).tables == a.tables && Next(a, step).posts == a.posts;
    }
  }

  lemma {:induction false} GetRunsAlone(a: Api, steps: seq<Step>)
    requires AloneInGet(a) && forall i :: 0 <= i < |steps| ==> GetStep(steps[i])
    ensures AloneInGet(Run(a, steps))
  {
    if steps != [] {
      GetRunsAlone(a, steps[..|steps| - 1]);
      GetStepAlone(Run(a, steps[..|steps| - 1]), steps[|steps| - 1]);
    }
  }

  /** Each GET ends, one way or another, with no request in progress. */
  lemma GetFinishes(a: Api, user: User, failsAfter: nat)
    requires AloneInGet(a) && a.gets == map[]
    ensures var b := Run(a, StepsOf(GetRequest(user, failsAfter)));
      Coherent(b) && b.gets == map[] && b.posts == map[]
  {
    var steps := StepsOf(GetRequest(user, failsAfter));
    var front := steps[..|steps| - 1];
    GetRunsAlone(a, steps);
    GetRunsAlone(a, front);
    if failsAfter >= 5 {
      assert front == [GetArrives(0, user), LookUp(0), Query(0), Store(0)];
      GetReachesAnswer(a, user);
      AnswerEnds(Run(a, front));
    } else {
      DeathEnds(Run(a, front));
    }
  }

  lemma AnswerEnds(a: Api)
    requires a.gets.Keys == {0} && a.gets[0].Ready?
    ensures Next(a, Answer(0)).gets == map[]
  {
  }

  lemma DeathEnds(a: Api)
    requires a.gets.Keys <= {0}
    ensures Next(a, GetDies(0)).gets == map[]
  {
  }

  lemma GetReachesAnswer(a: Api, user: User)
    requires a.gets == map[]
    ensures var b := Run(a, [GetArrives(0, user), LookUp(0), Query(0), Store(0)]);
      b.gets.Keys == {0} && b.gets[0].Ready?
  {
    var b1 := Next(a, GetArrives(0, user));
    assert b1.gets == map[0 := Arrived(user)];
    var b2 := Next(b1, LookUp(0));
    GetLooksUp(b1, user);
    var b3 := Next(b2, Query(0));
    GetQueries(b2);
    GetStores(b3);
    RunFour(a, GetArrives(0, user), LookUp(0), Query(0), Store(0));
  }

  lemma GetLooksUp(a: Api, user: User)
    requires a.gets == map[0 := Arrived(user)]
    ensures Next(a, LookUp(0)).gets.Keys == {0}
    ensures Next(a, LookUp(0)).gets[0].Missed? || Next(a, LookUp(0)).gets[0].Ready?
  {
  }

  lemma GetQueries(a: Api)
    requires a.gets.Keys == {0} && (a.gets[0].Missed? || a.gets[0].Ready?)
    ensures Next(a, Query(0)).gets.Keys == {0}
    ensures Next(a, Query(0)).gets[0].Fetched? || Next(a, Query(0)).gets[0].Ready?
  {
  }

  lemma GetStores(a: Api)
    requires a.gets.Keys == {0} && (a.gets[0].Fetched? || a.gets[0].Ready?)
    ensures Next(a, Store(0)).gets.Keys == {0} && Next(a, Store(0)).gets[0].Ready?
  {
  }

  /** A POST that runs alone either changes nothing or clears the entry it made stale. */
  lemma PostFinishes(a: Api, tx: Transaction, admitted: bool)
    requires Coherent(a) && a.posts == map[]
    ensures var b := Run(a, StepsOf(PostRequest(tx, admitted)));
      Coherent(b) && b.gets == a.gets && b.posts == map[]
  {
    var mid := Next(a, InsertRow(0, tx, admitted));
    RunTwo(a, InsertRow(0, tx, admitted), Invalidate(0));
    InsertAlone(a, tx, admitted);
    if Accepts(a.tables, tx, admitted) {
      DeleteClears(a, mid, tx.userAccount);
    }
  }

  lemma InsertAlone(a: Api, tx: Transaction, admitted: bool)
    requires a.posts == map[]
    ensures var mid := Next(a, InsertRow(0, tx, admitted));
      && mid.cache == a.cache && mid.gets == a.gets
      && (Accepts(a.tables, tx, admitted) ==>
            mid.posts.Keys == {0} && mid.posts[0].user == tx.userAccount && mid.tables == Inserted(a.tables, tx))
      && (!Accepts(a.tables, tx, admitted) ==> mid == a.(clock := a.clock + 1))
  {
  }

  lemma DeleteClears(a: Api, mid: Api, user: User)
    requires Coherent(a) && mid.cache == a.cache && mid.posts.Keys == {0} && mid.posts[0].user == user
    requires forall other :: other != user ==> RowOf(mid.tables, other) == RowOf(a.tables, other)
    ensures Coherent(Next(mid, Invalidate(0))) && Next(mid, Invalidate(0)).posts == map[]
    ensures Next(mid, Invalidate(0)).gets == mid.gets
  {
  }

  lemma ExpiryFinishes(a: Api, user: User)
    requires Coherent(a)
    ensures var b := Run(a, StepsOf(Expiry(user)));
      Coherent(b) && b.gets == a.gets && b.posts == a.posts
  {
    RunAppend(a, [], Expire(user));
  }

  /** With handlers run one at a time and deletes going through, cache and table agree after
      every request. */
  lemma {:induction false} SequentialHandlersStayCoherent(t: Tables, warm: set<User>, requests: seq<Request>)
    ensures var a := Handle(Start(t, warm), requests);
      Coherent(a) && a.gets == map[] && a.posts == map[]
  {
    if requests != [] {
      var before := Handle(Start(t, warm), requests[..|requests| - 1]);
      SequentialHandlersStayCoherent(t, warm, requests[..|requests| - 1]);
      match requests[|requests| - 1]
      case GetRequest(user, failsAfter) => GetFinishes(before, user, failsAfter);
      case PostRequest(tx, admitted) => PostFinishes(before, tx, admitted);
      case Expiry(user) => ExpiryFinishes(before, user);
    }
  }
}
