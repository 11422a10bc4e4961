/** The API server as the object its handlers share: one database, one cache, and the requests
    in progress. Each method is what one handler does between two awaits; the scheduler below
    interleaves them freely, and what holds of all runs of `SavingsApi` holds of the object. */
module ApiServer {
  import opened SavingsTable
  import opened SavingsApi

  class Server {
    const db: Database
    var cache: map<User, Read>
    var gets: map<RequestId, Get>
    var posts: map<RequestId, PendingPost>
    var served: seq<Response>
    var clock: nat
    var deletedAt: map<User, nat>
    var diedAt: map<User, nat>

    ghost function Snapshot(): Api
      reads this, db
    {
      Api(db.Contents(), cache, gets, posts, served, clock, deletedAt, diedAt)
    }

    /** Where the server began and every step it has taken since. */
    ghost const tables: Tables
    ghost const warm: set<User>
    ghost var taken: seq<Step>

    ghost predicate Valid()
      reads this, db
    {
      Snapshot() == Run(Start(tables, warm), taken)
    }

    /** A new process over a database and whatever the cache still holds of it. */
    constructor (db: Database, warm: set<User>)
      ensures this.db == db && this.tables == db.Contents() && this.warm == warm
      ensures taken == [] && Valid()
    {
      this.db := db;
      this.tables, this.warm, this.taken := db.Contents(), warm, [];
      cache := map user | user in warm :: Read(RowOf(Tables(db.history, db.savings), user), 0);
      gets, posts, served, clock := map[], map[], [], 0;
      deletedAt, diedAt := map[], map[];
    }

    method Receive(id: RequestId, user: User)
      requires id !in gets
      modifies this
      ensures taken == old(taken)
      ensures Snapshot() == Next(old(Snapshot()), GetArrives(id, user))
    {
      gets := gets[id := Arrived(user)];
      clock := clock + 1;
    }

    /** The cache answers: a hit is what the response will carry, a miss goes on to the table. */
    method ReadCache(id: RequestId)
      requires GetIsAt(Snapshot(), id, LookUp(id))
      modifies this
      ensures taken == old(taken)
      ensures Snapshot() == Next(old(Snapshot()), LookUp(id))
    {
      var user := gets[id].user;
      if user in cache {
        gets := gets[id := Ready(user, cache[user])];
      } else {
        gets := gets[id := Missed(user)];
      }
      clock := clock + 1;
    }

    method ReadTable(id: RequestId)
      requires GetIsAt(Snapshot(), id, Query(id))
      modifies this
      ensures taken == old(taken)
      ensures Snapshot() == Next(old(Snapshot()), Query(id))
    {
      var user := gets[id].user;
      var row := Row(0, 0, Never);
      if user in db.savings {
        row := db.savings[user];
      }
      gets := gets[id := Fetched(user, Read(row, clock + 1))];
      clock := clock + 1;
    }

    method WriteCache(id: RequestId)
      requires GetIsAt(Snapshot(), id, Store(id))
      modifies this
      ensures taken == old(taken)
      ensures Snapshot() == Next(old(Snapshot()), Store(id))
    {
      var get := gets[id];
      cache := cache[get.user := get.read];
      gets := gets[id := Ready(get.user, get.read)];
      clock := clock + 1;
    }

    method Respond(id: RequestId) returns (row: Row)
      requires GetIsAt(Snapshot(), id, Answer(id))
      modifies this
      ensures taken == old(taken)
      ensures Snapshot() == Next(old(Snapshot()), Answer(id))
      ensures row == old(gets)[id].read.row
    {
      row := gets[id].read.row;
      served := served + [Response(gets[id].user, gets[id].read)];
      gets := gets - {id};
      clock := clock + 1;
    }

    method FailGet(id: RequestId)
      modifies this
      ensures taken == old(taken)
      ensures Snapshot() == Next(old(Snapshot()), GetDies(id))
    {
      gets := gets - {id};
      clock := clock + 1;
    }

    /** The INSERT with its trigger; a refused insert ends the handler with an error. */
    method RecordTransaction(id: RequestId, tx: Transaction, admitted: bool) returns (ok: bool)
      requires id !in posts
      modifies this, db
      ensures taken == old(taken)
      ensures ok <==> Accepts(old(db.Contents()), tx, admitted)
      ensures Snapshot() == Next(old(Snapshot()), InsertRow(id, tx, admitted))
    {
      ok := db.InsertTransaction(tx, admitted);
      if ok {
        posts := posts[id := PendingPost(tx.userAccount, clock)];
      }
      clock := clock + 1;
    }

    method InvalidateCache(id: RequestId)
      requires id in posts
      modifies this
      ensures taken == old(taken)
      ensures Snapshot() == Next(old(Snapshot()), Invalidate(id))
    {
      var user := posts[id].user;
      cache := cache - {user};
      posts := posts - {id};
      deletedAt := deletedAt[user := clock];
      clock := clock + 1;
    }

    method FailPost(id: RequestId)
      requires id in posts
      modifies this
      ensures taken == old(taken)
      ensures Snapshot() == Next(old(Snapshot()), PostDies(id))
    {
      diedAt := diedAt[posts[id].user := clock];
      posts := posts - {id};
      clock := clock + 1;
    }

    method ExpireEntry(user: User)
      modifies this
      ensures taken == old(taken)
      ensures Snapshot() == Next(old(Snapshot()), Expire(user))
    {
      cache := cache - {user};
      clock := clock + 1;
    }

    /** A step whose request is not at that point only takes time. */
    method Wait(step: Step)
      requires !Enabled(Snapshot(), step)
      modifies this`clock
      ensures Snapshot() == Next(old(Snapshot()), step)
    {
      clock := clock + 1;
    }

    /** One step by whichever request it belongs to. */
    method Perform(step: Step)
      modifies this, db
      ensures taken == old(taken)
      ensures Snapshot() == Next(old(Snapshot()), step)
    {
      match step
      case GetArrives(id, user) =>
        if id !in gets { Receive(id, user); } else { Wait(step); }
      case LookUp(id) =>
        if id in gets && gets[id].Arrived? { ReadCache(id); } else { Wait(step); }
      case Query(id) =>
        if id in gets && gets[id].Missed? { ReadTable(id); } else { Wait(step); }
      case Store(id) =>
        if id in gets && gets[id].Fetched? { WriteCache(id); } else { Wait(step); }
      case Answer(id) =>
        if id in gets && gets[id].Ready? { var _ := Respond(id); } else { Wait(step); }
      case GetDies(id) => FailGet(id);
      case InsertRow(id, tx, admitted) =>
        if id !in posts { var _ := RecordTransaction(id, tx, admitted); } else { Wait(step); }
      case Invalidate(id) =>
        if id in posts { InvalidateCache(id); } else { Wait(step); }
      case PostDies(id) =>
        if id in posts { FailPost(id); } else { Wait(step); }
      case Expire(user) => ExpireEntry(user);
    }

    method Take(step: Step)
      requires Valid()
      modifies this, db
      ensures Valid() && taken == old(taken) + [step]
    {
      RunAppend(Start(tables, warm), taken, step);
      Perform(step);
      taken := taken + [step];
    }

    /** Any interleaving of any requests. */
    method Play(steps: seq<Step>)
      requires Valid()
      modifies this, db
      ensures Valid() && taken == old(taken) + steps
    {
      for i := 0 to |steps|
        invariant Valid() && taken == old(taken) + steps[..i]
      {
        Take(steps[i]);
        assert steps[..i + 1] == steps[..i] + [steps[i]];
      }
      assert steps[..|steps|] == steps;
    }

    /** Whatever the server has answered so far, the table held before, and if no posted cost
        was negative no answered total exceeds what the database says now. */
    lemma AnswersAreBehind()
      requires Valid() && CostsAreNonnegative(taken)
      ensures forall i :: 0 <= i < |served| ==>
        && served[i].read.readAt <= |taken|
        && served[i].read.row == RowOf(TablesAt(tables, warm, taken, served[i].read.readAt), served[i].user)
        && served[i].read.row.totalSaved <= RowOf(db.Contents(), served[i].user).totalSaved
    {
      forall i | 0 <= i < |served|
        ensures served[i].read.readAt <= |taken|
        ensures served[i].read.row == RowOf(TablesAt(tables, warm, taken, served[i].read.readAt), served[i].user)
        ensures served[i].read.row.totalSaved <= RowOf(db.Contents(), served[i].user).totalSaved
      {
        ServedTotalsAreBehind(tables, warm, taken, i);
      }
    }

    /** Whatever the server has in its cache agrees with the database, or a POST for that user
        is between insert and delete, or one died there, or a delete came after the read. */
    lemma CacheIsRightOrExcused(user: User)
      requires Valid() && user in cache
      ensures cache[user].row == RowOf(db.Contents(), user)
        || (exists id :: id in posts && posts[id].user == user && posts[id].insertedAt >= cache[user].readAt)
        || (user in diedAt && diedAt[user] >= cache[user].readAt)
        || (user in deletedAt && deletedAt[user] >= cache[user].readAt)
    {
      if cache[user].row != RowOf(db.Contents(), user) {
        StaleEntriesAreExcused(tables, warm, taken, user);
      }
    }
  }
}
