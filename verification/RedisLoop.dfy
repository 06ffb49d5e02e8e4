/**
 The retry loop of one Redis call, run against whatever the other clients of the server execute
 between its read and its transaction.
 */
module RedisLoop {
  import opened Redis

  /** The database after others have executed the commands of these operations. */
  function After(db: Db, writes: seq<Op>): Db
    decreases |writes|
  {
    if writes == [] then db else Commit(After(db, writes[..|writes| - 1]), writes[|writes| - 1])
  }

  function AfterAll(db: Db, rounds: seq<seq<Op>>): Db
    decreases |rounds|
  {
    if rounds == [] then db else After(AfterAll(db, rounds[..|rounds| - 1]), rounds[|rounds| - 1])
  }

  /** What the Redis server holds, and a client's calls to it. */
  class Database {
    var db: Db

    /** Other clients at work; whether the watched key was touched. */
    method Interfere(watched: RedisKey, writes: seq<Op>) returns (touched: bool)
      modifies this
      ensures db == After(old(db), writes)
      ensures !touched ==> Look(db, watched) == Look(old(db), watched)
    {
      touched := false;
      assert writes[..0] == [];
      for i := 0 to |writes|
        invariant db == After(old(db), writes[..i])
        invariant !touched ==> Look(db, watched) == Look(old(db), watched)
      {
        assert writes[..i + 1][..i] == writes[..i];
        if watched in Touched(db, writes[i]) {
          touched := true;
        } else {
          CommitTouches(db, writes[i], watched);
        }
        db := Commit(db, writes[i]);
      }
      assert writes[..|writes|] == writes;
    }

    /**
     Attempt after attempt, each with the variables the last one left, until a transaction goes
     through or the function returns early.  The call has the effect and the result of an atomic
     operation in the middle of what the others do, and makes at most one attempt more than
     there are rounds in which they interfere.
     */
    method ExecuteWatch(op: Op, others: seq<seq<Op>>) returns (result: Result, rounds: nat, attempts: nat)
      requires !op.Delete?
      modifies this
      ensures rounds <= |others| && attempts <= rounds + 1
      ensures (db, result) == Atomic(AfterAll(old(db), others[..rounds]), op)
    {
      var vars := Vars([], false, 0);
      rounds, attempts := 0, 0;
      assert others[..0] == [];
      while true
        invariant rounds <= |others| && attempts == rounds
        invariant db == AfterAll(old(db), others[..rounds])
        decreases |others| - rounds
      {
        attempts := attempts + 1;
        ReadIsAtomic(db, op, vars);
        var outcome := Read(db, op, vars);
        if outcome.Return? {
          return outcome.result, rounds, attempts;
        }
        vars := outcome.vars;
        ghost var read := db;
        if rounds < |others| {
          assert others[..rounds + 1][..rounds] == others[..rounds];
          var touched := Interfere(WatchedKey(op), others[rounds]);
          rounds := rounds + 1;
          if touched {
            continue;
          }
        }
        DueDependsOnWatchedKey(read, db, op, vars);
        db := Commit(db, op);
        return Answer(op, vars), rounds, attempts;
      }
    }
  }
}
