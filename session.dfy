/**
 * The database session. `db` is what the session sees (rows added,
 * flushed and changed so far); `committed` is what the database holds.
 * `Commit` publishes the working state; `Rollback` (what closing a session
 * without committing amounts to) discards it.
 */
module Store {
  import opened Models

  class Session {
    var db: Db
    var committed: Db

    constructor (initial: Db)
      ensures db == initial && committed == initial
    {
      db := initial;
      committed := initial;
    }

    method Commit()
      modifies this
      ensures committed == old(db) && db == old(db)
    {
      committed := db;
    }

    method Rollback()
      modifies this
      ensures db == old(committed) && committed == old(committed)
    {
      db := committed;
    }
  }
}
