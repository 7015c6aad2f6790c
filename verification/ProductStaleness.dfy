/** How stale a cached answer can be, in every interleaving of readers, writers, orders and replication. */
module ProductStaleness {
  import opened Results
  import opened Clock
  import opened Catalog
  import opened ProductTable
  import opened ProductQuery
  import opened ProductCache

  /**
   Bounded staleness of getProductById: whatever interleaving led here, a DTO served at
   time t is what an uncached lookup would have returned from the read database at some
   instant of [t - 120 s - delay, t], where `delay` bounds the time from a query for this
   product to the cache write that follows it, if one does.
   */
  lemma ServedDetailIsRecent(s: State, delay: Time, r: ReaderId)
    requires r in s.readers && s.readers[r].stage.Served?
    requires ReachableFor(s, OfProduct(s.readers[r].id), delay)
    ensures var Served(dto, source, servedAt) := s.readers[r].stage;
            && TrueThen(s, s.readers[r].id, dto, source)
            && servedAt - 120_000 - delay <= source.at <= servedAt
  {
    ReachableForInv(s, OfProduct(s.readers[r].id), delay);
    assert ReaderOk(s, delay, s.readers[r]);
  }

  /** A NotFound is never stale: the read database had no active row at the query's instant. */
  lemma NotFoundIsExact(s: State, r: ReaderId)
    requires Reachable(s)
    requires r in s.readers && s.readers[r].stage.NotFound?
    ensures var source := s.readers[r].stage.source;
            HeldThen(s, source) && FindActive(s.log[source.version], s.readers[r].id).None?
  {
    ReachableInv(s, OfProduct(s.readers[r].id));
    assert ReaderOk(s, s.now, s.readers[r]);
  }

  /**
   The same for getProducts with 60 s. A cached list may have been computed for another
   query with the same key; rows and total come from two instants, both in the bound.
   */
  lemma ServedListIsRecent(s: State, delay: Time, r: ReaderId)
    requires r in s.listReaders && s.listReaders[r].stage.ListServed?
    requires ReachableFor(s, OfList(KeyOf(s.listReaders[r].query)), delay)
    ensures var ListServed(listing, rows, counted, servedAt) := s.listReaders[r].stage;
            && TrueListing(s, s.listReaders[r].query, listing, rows, counted)
            && servedAt - 60_000 - delay <= rows.at <= counted.at <= servedAt
  {
    ReachableForInv(s, OfList(KeyOf(s.listReaders[r].query)), delay);
    assert ListReaderOk(s, delay, s.listReaders[r]);
  }

  /**
   And it is the page the query asks for: whatever products were created, edited and deleted,
   the built filter selects from both versions exactly the rows that satisfy the query.
   */
  lemma ServedListIsAsked(s: State, r: ReaderId)
    requires Reachable(s)
    requires r in s.listReaders && s.listReaders[r].stage.ListServed?
    requires FromSchema(s.listReaders[r].query) && s.listReaders[r].query.maxPrice != Some(0.0)
    ensures var reader := s.listReaders[r];
            && HeldThen(s, reader.stage.rows) && HeldThen(s, reader.stage.counted)
            && reader.stage.listing
                 == AskedListing(s.log[reader.stage.rows.version], s.log[reader.stage.counted.version], reader.query)
  {
    var reader := s.listReaders[r];
    ReachableInv(s, OfList(KeyOf(reader.query)));
    assert ListReaderOk(s, s.now, reader);
    ListingIsAsked(s.log[reader.stage.rows.version], s.log[reader.stage.counted.version], reader.query);
  }

  /** Along the versions of every run, a deleted product stays deleted and no owner changes. */
  lemma DeletionIsFinal(s: State, i: nat, j: nat, id: Id)
    requires Reachable(s)
    requires i <= j < |s.log| && Find(s.log[i], id).Some?
    ensures Find(s.log[j], id).Some?
    ensures Find(s.log[j], id).value.sellerId == Find(s.log[i], id).value.sellerId
    ensures FindActive(s.log[i], id).None? ==> FindActive(s.log[j], id).None?
  {
    ReachableInv(s, OfProduct(id));
    EvolvesAt(s, i, j, id);
  }

  /** The product is deleted in version `i`, and version `i` has reached the read database. */
  predicate DeletedBy(s: State, i: nat, id: Id) {
    i < |s.since| && i < |s.log| && Find(s.log[i], id).Some? && !Find(s.log[i], id).value.isActive
  }

  /** Where an active row of the product was read, its deletion had not arrived before. */
  lemma ReadBeforeDeletion(s: State, i: nat, id: Id, source: Source)
    requires Inv(s) && DeletedBy(s, i, id) && HeldThen(s, source)
    requires FindActive(s.log[source.version], id).Some?
    ensures source.at <= s.since[i]
  {
    if i <= source.version {
      EvolvesAt(s, i, source.version, id);
    }
    assert source.at <= s.since[source.version + 1] <= s.since[i];
  }

  /**
   So once the deletion of a product has reached the read database, getProductById serves the
   product no later than 120 s + delay after that moment, by any interleaving.
   */
  lemma DeletedIsNotServedLate(s: State, delay: Time, i: nat, r: ReaderId)
    requires r in s.readers && s.readers[r].stage.Served?
    requires ReachableFor(s, OfProduct(s.readers[r].id), delay)
    requires DeletedBy(s, i, s.readers[r].id)
    ensures s.readers[r].stage.servedAt <= s.since[i] + 120_000 + delay
  {
    ReachableForInv(s, OfProduct(s.readers[r].id), delay);
    ServedDetailIsRecent(s, delay, r);
    ReadBeforeDeletion(s, i, s.readers[r].id, s.readers[r].stage.source);
  }

  /**
   Lists are never invalidated, so a list goes on showing a deleted product; it does so no
   later than 60 s + delay after the deletion has reached the read database.
   */
  lemma DeletedIsNotListedLate(s: State, delay: Time, i: nat, r: ReaderId, id: Id)
    requires r in s.listReaders && s.listReaders[r].stage.ListServed?
    requires ReachableFor(s, OfList(KeyOf(s.listReaders[r].query)), delay)
    requires DeletedBy(s, i, id) && Shows(s.listReaders[r].stage.listing, id)
    ensures s.listReaders[r].stage.servedAt <= s.since[i] + 60_000 + delay
  {
    var reader := s.listReaders[r];
    ReachableForInv(s, OfList(KeyOf(reader.query)), delay);
    ServedListIsRecent(s, delay, r);
    var rows := s.log[reader.stage.rows.version];
    ListedIsActive(rows, s.log[reader.stage.counted.version], reader.query, id);
    var p :| p in rows && p.id == id && p.isActive;
    FindFinds(rows, p);
    ReadBeforeDeletion(s, i, id, reader.stage.rows);
  }

  /** Only the owner's writes reach the primary, although ownership is checked on a lagging replica. */
  lemma OnlyOwnersWrite(s: State, w: WriterId)
    requires Reachable(s)
    requires w in s.writers && s.writers[w].stage.Checked?
    ensures s.log != []
    ensures Find(Primary(s), s.writers[w].id).Some?
    ensures Find(Primary(s), s.writers[w].id).value.sellerId == s.writers[w].sellerId
  {
    ReachableInv(s, OfProduct(s.writers[w].id));
    assert WriterOk(s, s.writers[w]);
  }

  /* ---- What an invalidation achieves ---- */

  lemma {:induction false} UncachedStays(s: State, es: seq<Event>, id: Id)
    requires SinceInv(s) && id !in s.details && CanRun(s, es)
    requires forall e | e in es :: !e.CacheSet?
    ensures SinceInv(Run(s, es)) && id !in Run(s, es).details
    decreases |es|
  {
    if es != [] {
      SinceKept(s, es[0]);
      assert es == [es[0]] + es[1..];
      UncachedStays(Next(s, es[0]), es[1..], id);
    }
  }

  /**
   After a writer's invalidation, and until some reader writes to the cache again, whoever asks
   for the product goes to the read database.
   */
  lemma InvalidatedIsReadAfresh(s: State, w: WriterId, es: seq<Event>, r: ReaderId)
    requires SinceInv(s) && Enabled(s, Invalidate(w)) && Versioned(Next(s, Invalidate(w)))
    requires CanRun(Next(s, Invalidate(w)), es) && forall e | e in es :: !e.CacheSet?
    requires var s' := Run(Next(s, Invalidate(w)), es);
             Versioned(s') && Enabled(s', CacheGet(r)) && s'.readers[r].id == s.writers[w].id
    ensures Next(Run(Next(s, Invalidate(w)), es), CacheGet(r)).readers[r].stage == Missed
  {
    SinceKept(s, Invalidate(w));
    UncachedStays(Next(s, Invalidate(w)), es, s.writers[w].id);
  }
}
