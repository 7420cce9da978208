/**
 * The versioned schema-migration runner (app/db_migration.py).
 *
 * The `schema_migrations` table is a set of version strings. What a
 * migration function does to the schema is recorded as its version in
 * `ran`, the log of migration functions executed. The whole run is one
 * transaction, and the model takes the schema changes as part of it: when
 * the run fails, every change it made is rolled back. That holds on a
 * backend with transactional DDL; MySQL commits DDL implicitly.
 */
module Migration {
  import opened Wrappers

  /** `_MIGRATIONS`: the versions, in the order they are applied. */
  const Migrations: seq<string> := ["0001_initial"]

  /** The insert of a version already in `schema_migrations` violates its primary key. */
  datatype MigrationError = DuplicateVersion(version: string)

  /** The versions of `migrations` not yet applied, in list order. */
  function Pending(migrations: seq<string>, applied: set<string>): (r: seq<string>)
    ensures |r| <= |migrations|
  {
    if migrations == [] then []
    else
      var last := migrations[|migrations| - 1];
      Pending(migrations[..|migrations| - 1], applied) + if last in applied then [] else [last]
  }

  /** The versions occurring in `s`. */
  function Elements(s: seq<string>): (r: set<string>)
    ensures forall v :: v in r <==> v in s
  {
    set v | v in s
  }

  /** A version is pending exactly when it is listed and not applied. */
  lemma {:induction false} PendingMembers(migrations: seq<string>, applied: set<string>)
    ensures forall v :: v in Pending(migrations, applied) <==> v in migrations && v !in applied
  {
    if migrations != [] {
      var init := migrations[..|migrations| - 1];
      PendingMembers(init, applied);
      assert migrations == init + [migrations[|migrations| - 1]];
    }
  }

  predicate NoRepeats(s: seq<string>) {
    forall i, j | 0 <= i < j < |s| :: s[i] != s[j]
  }

  /** The pending versions of a prefix of the list are a prefix of the pending versions of the list. */
  lemma {:induction false} PendingPrefix(migrations: seq<string>, applied: set<string>, n: nat)
    requires n <= |migrations|
    ensures Pending(migrations[..n], applied) <= Pending(migrations, applied)
  {
    if n < |migrations| {
      var init := migrations[..|migrations| - 1];
      PendingPrefix(init, applied, n);
      assert init[..n] == migrations[..n];
    } else {
      assert migrations[..n] == migrations;
    }
  }

  /** Once every listed version is applied, nothing is pending: a second run applies nothing. */
  lemma {:induction false} NothingPendingAfterRun(migrations: seq<string>, applied: set<string>)
    ensures Pending(migrations, applied + Elements(Pending(migrations, applied))) == []
  {
    var after := applied + Elements(Pending(migrations, applied));
    PendingMembers(migrations, applied);
    PendingMembers(migrations, after);
    forall v | v in migrations
      ensures v in after
    {
    }
    NoElementsIsEmpty(Pending(migrations, after));
  }

  lemma NoElementsIsEmpty(s: seq<string>)
    requires forall v :: v !in s
    ensures s == []
  {
    var first := if s == [] then "" else s[0];
    assert s != [] ==> first in s;
  }

  /** A list without repeated versions never makes a run fail. */
  lemma {:induction false} DistinctListHasDistinctPending(migrations: seq<string>, applied: set<string>)
    requires NoRepeats(migrations)
    ensures NoRepeats(Pending(migrations, applied))
  {
    if migrations != [] {
      var init := migrations[..|migrations| - 1];
      var last := migrations[|migrations| - 1];
      assert NoRepeats(init);
      DistinctListHasDistinctPending(init, applied);
      PendingMembers(init, applied);
      assert last !in init;
    }
  }

  /** The shipped list runs `0001_initial` on a fresh database and nothing on an up-to-date one. */
  lemma ShippedMigrations()
    ensures NoRepeats(Migrations)
    ensures Pending(Migrations, {}) == ["0001_initial"]
    ensures Pending(Migrations, {"0001_initial"}) == []
  {
    assert Migrations[..0] == [];
  }

  /** The database as the runner sees it. */
  class MigrationDb {
    /** Whether `schema_migrations` exists. */
    var hasTable: bool
    /** The versions recorded in `schema_migrations`. */
    var versions: set<string>
    /** The migration functions executed so far, in order. */
    var ran: seq<string>

    /** A missing table holds no versions. */
    predicate Valid()
      reads this
    {
      !hasTable ==> versions == {}
    }

    constructor ()
      ensures Valid() && !hasTable && versions == {} && ran == []
    {
      hasTable := false;
      versions := {};
      ran := [];
    }

    /** `_get_applied_versions`: creates the table when missing and reads its versions. */
    method AppliedVersions() returns (applied: set<string>)
      requires Valid()
      modifies this
      ensures Valid() && hasTable && versions == old(versions) && ran == old(ran)
      ensures applied == versions
    {
      hasTable := true;
      applied := versions;
    }

    /**
     * `run_migrations`. With auto-migration off nothing happens. Otherwise
     * every listed version that was not applied when the run began has its
     * migration run and its version recorded, in list order. A version
     * listed twice is inserted twice; the second insert fails and the
     * whole transaction, taken to include the schema changes, is rolled back.
     */
    method RunMigrations(migrations: seq<string>, autoMigrate: bool) returns (r: Result<(), MigrationError>)
      requires Valid()
      modifies this
      ensures Valid()
      ensures r.Ok? <==> !autoMigrate || NoRepeats(Pending(migrations, old(versions)))
      ensures !autoMigrate || r.Err? ==> hasTable == old(hasTable) && versions == old(versions) && ran == old(ran)
      ensures autoMigrate && r.Ok? ==> hasTable
      ensures autoMigrate && r.Ok? ==> versions == old(versions) + Elements(Pending(migrations, old(versions)))
      ensures autoMigrate && r.Ok? ==> ran == old(ran) + Pending(migrations, old(versions))
    {
      if !autoMigrate {
        return Ok(());
      }
      var savedTable, savedVersions, savedRan := hasTable, versions, ran;
      var applied := AppliedVersions();
      var duplicate := ApplyPending(migrations, applied);
      if duplicate.Some? {
        hasTable, versions, ran := savedTable, savedVersions, savedRan;
        return Err(DuplicateVersion(duplicate.value));
      }
      return Ok(());
    }

    /**
     * The loop of `run_migrations` over the list, against the versions
     * `applied` read when the run began. It stops at the first insert that
     * repeats a version, returning that version.
     */
    method ApplyPending(migrations: seq<string>, applied: set<string>) returns (duplicate: Option<string>)
      requires hasTable && versions == applied
      modifies this
      ensures hasTable
      ensures duplicate.None? <==> NoRepeats(Pending(migrations, applied))
      ensures duplicate.None? ==> versions == applied + Elements(Pending(migrations, applied))
      ensures duplicate.None? ==> ran == old(ran) + Pending(migrations, applied)
    {
      var i := 0;
      while i < |migrations|
        invariant 0 <= i <= |migrations|
        invariant hasTable
        invariant NoRepeats(Pending(migrations[..i], applied))
        invariant ran == old(ran) + Pending(migrations[..i], applied)
        invariant versions == applied + Elements(Pending(migrations[..i], applied))
      {
        var version := migrations[i];
        PendingStep(migrations, applied, i);
        if version !in applied {
          ran := ran + [version];
          InsertStep(migrations, applied, i);
          if version in versions {
            return Some(version);
          }
          versions := versions + {version};
        }
        i := i + 1;
      }
      assert migrations[..i] == migrations;
      return None;
    }
  }

  /** One more listed version adds itself to the pending ones unless it is applied. */
  lemma PendingStep(migrations: seq<string>, applied: set<string>, i: nat)
    requires i < |migrations|
    ensures Pending(migrations[..i + 1], applied)
            == Pending(migrations[..i], applied) + if migrations[i] in applied then [] else [migrations[i]]
    ensures Elements(Pending(migrations[..i + 1], applied))
            == Elements(Pending(migrations[..i], applied)) + if migrations[i] in applied then {} else {migrations[i]}
  {
    assert migrations[..i + 1][..i] == migrations[..i];
  }

  /**
   * Inserting an unapplied version: one already inserted by this run spoils
   * the whole list; a new one keeps the inserted versions distinct.
   */
  lemma InsertStep(migrations: seq<string>, applied: set<string>, i: nat)
    requires i < |migrations| && migrations[i] !in applied
    requires NoRepeats(Pending(migrations[..i], applied))
    ensures migrations[i] in applied + Elements(Pending(migrations[..i], applied)) ==> !NoRepeats(Pending(migrations, applied))
    ensures migrations[i] !in applied + Elements(Pending(migrations[..i], applied)) ==> NoRepeats(Pending(migrations[..i + 1], applied))
  {
    var done := Pending(migrations[..i], applied);
    var version := migrations[i];
    PendingStep(migrations, applied, i);
    if version in done {
      PendingPrefix(migrations, applied, i + 1);
      RepeatSpoilsList(done, version, Pending(migrations, applied));
    } else {
      AppendKeepsNoRepeats(done, version);
    }
  }

  lemma AppendKeepsNoRepeats(p: seq<string>, v: string)
    requires NoRepeats(p) && v !in p
    ensures NoRepeats(p + [v])
  {
  }

  /** A list whose prefix `p + [v]` repeats `v` has a repeat. */
  lemma RepeatSpoilsList(p: seq<string>, v: string, s: seq<string>)
    requires v in p && p + [v] <= s
    ensures !NoRepeats(s)
  {
    var k :| 0 <= k < |p| && p[k] == v;
    assert s[k] == v && s[|p|] == v;
  }
}
