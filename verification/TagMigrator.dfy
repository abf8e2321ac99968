/**
  SetTableTagsBatch (tag.go): a batch tag update on a server that stores the tags of
  its subtables. Any query may fail and the statement may be refused.
 */
module TagMigrator {
  import opened Common
  import opened Builder
  import opened Schema
  import opened Catalog
  import opened Migrator
  import opened TagUpdate

  datatype BatchError = Invalid(reason: TagError) | NotPhysical(cause: MigrationError) | ServerRefused

  ghost predicate AllPhysical(cat: Catalog, updates: seq<TableTagUpdate>) {
    forall u <- updates :: !IsVirtual(cat, u.table)
  }

  class TagMigrator {
    const migrator: Migrator
    const interpolate: bool
    var store: Store

    constructor (migrator: Migrator, interpolate: bool, store: Store)
      ensures this.migrator == migrator && this.interpolate == interpolate && this.store == store
    {
      this.migrator, this.interpolate, this.store := migrator, interpolate, store;
    }

    /** The server reads the statement it is sent, and does what it says or nothing. */
    method ExecUpdate(statement: string, values: seq<Value>) returns (accepted: bool)
      modifies this`store
      ensures accepted ==> Effect(old(store), statement, BoundAll(interpolate, values)) == Some(store)
      ensures !accepted ==> store == old(store)
    {
      accepted := *;
      var after := Effect(store, statement, BoundAll(interpolate, values));
      accepted := accepted && after.Some?;
      if accepted {
        store := after.value;
      }
    }

    /** The first table that is virtual, or whose type could not be asked for. */
    method EnsureAllPhysical(updates: seq<TableTagUpdate>) returns (error: Option<MigrationError>)
      modifies migrator`failures
      ensures error.None? ==> AllPhysical(migrator.catalog, updates)
      ensures migrator.failures >= old(migrator.failures)
      ensures migrator.failures == old(migrator.failures) ==> (error.None? <==> AllPhysical(migrator.catalog, updates))
      ensures migrator.failures == old(migrator.failures) && error.Some? ==>
              exists u <- updates ::
                IsVirtual(migrator.catalog, u.table) && error == Some(VirtualTableUnsupported(u.table))
    {
      for i := 0 to |updates|
        invariant forall j :: 0 <= j < i ==> !IsVirtual(migrator.catalog, updates[j].table)
        invariant migrator.failures >= old(migrator.failures)
      {
        assert updates[i] in updates;
        error := migrator.EnsurePhysicalTable(updates[i].table);
        if error.Some? {
          return;
        }
      }
      error := None;
    }

    /**
      SetTableTagsBatch. Without an error the tags are what the single updates would have
      made of them, one after the other; after an error they are what they were. When every
      query is answered and the server does not refuse, exactly the acceptable batches on
      physical tables succeed.
     */
    method SetTableTagsBatch(updates: seq<TableTagUpdate>) returns (error: Option<BatchError>)
      modifies this`store, migrator`failures
      ensures updates == [] ==> error == Some(Invalid(TagUpdateRequired))
      ensures error.None? ==> Accepted(updates) && AllPhysical(migrator.catalog, updates)
      ensures error.None? && (forall u <- updates :: Nameable(u)) ==>
              OneByOne(interpolate, old(store), updates) == Some(store)
      ensures error.Some? ==> store == old(store)
      ensures migrator.failures == old(migrator.failures) && error != Some(ServerRefused) ==>
              (error.None? <==> Accepted(updates) && AllPhysical(migrator.catalog, updates))
      ensures migrator.failures == old(migrator.failures) && updates != [] && AllPhysical(migrator.catalog, updates) ==>
              (!Accepted(updates) <==>
                 FirstError({}, updates).Some? && error == Some(Invalid(FirstError({}, updates).value)))
      ensures migrator.failures == old(migrator.failures) && !AllPhysical(migrator.catalog, updates) && updates != []
              ==>
              exists u <- updates ::
                IsVirtual(migrator.catalog, u.table) && error == Some(NotPhysical(VirtualTableUnsupported(u.table)))
    {
      hide FirstError, IsVirtual, Accepted, AllPhysical, Effect, OneByOne, StatementText, StatementValues, Nameable;
      if updates == [] {
        NothingIsNotAccepted();
        return Some(Invalid(TagUpdateRequired));
      }
      var virtual := EnsureAllPhysical(updates);
      if virtual.Some? {
        return Some(NotPhysical(virtual.value));
      }
      var statement, values, invalid := BuildTableTagUpdateSQL(updates);
      if invalid.Some? {
        return Some(Invalid(invalid.value));
      }
      var accepted := ExecUpdate(statement, values);
      if !accepted {
        return Some(ServerRefused);
      }
      if forall u <- updates :: Nameable(u) {
        BatchMeansItsParts(interpolate, old(store), updates, updates);
      }
      error := None;
    }
  }
}
