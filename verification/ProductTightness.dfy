/** Runs that show the bounds on staleness cannot be lowered. */
module ProductTightness {
  import opened Results
  import opened Clock
  import opened Catalog
  import opened ProductTable
  import opened ProductQuery
  import opened ProductCache
  import opened ProductStaleness

  /* ---- The bound is tight ---- */

  /** `es` leads to `s`, and keeps to `delay` for every product and every list. */
  ghost predicate Leads(es: seq<Event>, s: State, delay: Time) {
    && CanRun(Start, es) && Run(Start, es) == s && Versioned(s)
    && forall scope :: PromptRun(Start, es, scope, delay)
  }

  lemma {:induction false} RunAppend(s: State, es: seq<Event>, e: Event)
    requires Versioned(s) && CanRun(s, es) && Versioned(Run(s, es)) && Enabled(Run(s, es), e)
    ensures CanRun(s, es + [e]) && Run(s, es + [e]) == Next(Run(s, es), e)
    decreases |es|
  {
    if es == [] {
      assert CanRun(Next(s, e), (es + [e])[1..]);
      assert Run(Next(s, e), (es + [e])[1..]) == Next(s, e);
    } else {
      RunAppend(Next(s, es[0]), es[1..], e);
      assert (es + [e])[1..] == es[1..] + [e];
    }
  }

  lemma {:induction false} PromptAppend(s: State, es: seq<Event>, e: Event, scope: Scope, delay: Time)
    requires Versioned(s) && CanRun(s, es) && Versioned(Run(s, es)) && Enabled(Run(s, es), e)
    requires PromptRun(s, es, scope, delay) && Prompt(Run(s, es), e, scope, delay)
    ensures CanRun(s, es + [e]) && PromptRun(s, es + [e], scope, delay)
    decreases |es|
  {
    RunAppend(s, es, e);
    if es == [] {
      assert (es + [e])[1..] == [];
    } else {
      PromptAppend(Next(s, es[0]), es[1..], e, scope, delay);
      assert (es + [e])[1..] == es[1..] + [e];
    }
  }

  predicate AlwaysPrompt(s: State, e: Event, delay: Time)
    requires Versioned(s) && Enabled(s, e)
  {
    && (e.CacheSet? ==> s.now <= s.readers[e.r].stage.source.at + delay)
    && (e.ListSet? ==> s.now <= s.listReaders[e.r].stage.rows.at + delay)
  }

  lemma Extend(es: seq<Event>, s: State, e: Event, delay: Time) returns (es': seq<Event>, s': State)
    requires Leads(es, s, delay) && Enabled(s, e) && AlwaysPrompt(s, e, delay)
    ensures es' == es + [e] && s' == Next(s, e) && Leads(es', s', delay)
  {
    es', s' := es + [e], Next(s, e);
    RunAppend(Start, es, e);
    forall scope ensures PromptRun(Start, es', scope, delay) {
      PromptAppend(Start, es, e, scope, delay);
    }
  }

  /** The product of the run, and the writer that deletes it. */
  function Doomed(id: Id, sellerId: Id, data: CreateData): Product {
    Created(id, sellerId, data, 0)
  }

  function Deleter(id: Id, sellerId: Id, stage: WriteStage): map<WriterId, Writer> {
    map[0 := Writer(id, sellerId, SoftDelete, stage)]
  }

  /** What the run's list reader has read and counted. */
  function Counted(q: PageQuery): map<ReaderId, ListReader> {
    map[0 := ListReader(q, HasTotal(Source(1, 0), Source(1, 0)))]
  }

  lemma ProductReplicated(id: Id, sellerId: Id, data: CreateData, delay: Time) returns (es: seq<Event>, s: State)
    ensures Leads(es, s, delay)
    ensures s == State(0, [[], [Doomed(id, sellerId, data)]], [0, 0], map[], map[], map[], map[], map[])
  {
    es, s := Extend([], Start, Create(id, sellerId, data), delay);
    assert [] + [Doomed(id, sellerId, data)] == [Doomed(id, sellerId, data)];
    es, s := Extend(es, s, Replicate, delay);
  }

  lemma ListMisses(id: Id, sellerId: Id, data: CreateData, q: PageQuery, delay: Time) returns (es: seq<Event>, s: State)
    ensures Leads(es, s, delay)
    ensures s == State(0, [[], [Doomed(id, sellerId, data)]], [0, 0], map[], map[], map[], map[0 := ListReader(q, ListMissed)], map[])
  {
    es, s := ProductReplicated(id, sellerId, data, delay);
    es, s := Extend(es, s, ReadList(0, q), delay);
    es, s := Extend(es, s, ListGet(0), delay);
  }

  /** A list reader reads and counts the product. */
  lemma ListRead(id: Id, sellerId: Id, data: CreateData, q: PageQuery, delay: Time) returns (es: seq<Event>, s: State)
    ensures Leads(es, s, delay)
    ensures s == State(0, [[], [Doomed(id, sellerId, data)]], [0, 0], map[], map[], map[], Counted(q), map[])
  {
    es, s := ListMisses(id, sellerId, data, q, delay);
    es, s := Extend(es, s, FindRows(0), delay);
    es, s := Extend(es, s, CountRows(0), delay);
  }

  /** Another reader loads the product. */
  lemma BothLoaded(id: Id, sellerId: Id, data: CreateData, q: PageQuery, delay: Time) returns (es: seq<Event>, s: State)
    ensures Leads(es, s, delay)
    ensures var p := Doomed(id, sellerId, data);
            s == State(0, [[], [p]], [0, 0], map[], map[], map[0 := Reader(id, Loaded(ToDto(p), Source(1, 0)))],
                       Counted(q), map[])
  {
    es, s := ListRead(id, sellerId, data, q, delay);
    es, s := Extend(es, s, Read(0, id), delay);
    es, s := Extend(es, s, CacheGet(0), delay);
    assert s.readers == map[0 := Reader(id, Missed)];
    assert FindActive([Doomed(id, sellerId, data)], id) == Some(Doomed(id, sellerId, data));
    es, s := Extend(es, s, FindOne(0), delay);
  }

  /** The owner deletes the product behind both readers' backs. */
  lemma OwnerDeletes(id: Id, sellerId: Id, data: CreateData, q: PageQuery, delay: Time) returns (es: seq<Event>, s: State)
    ensures Leads(es, s, delay)
    ensures var p := Doomed(id, sellerId, data);
            s == State(0, [[], [p], [Deactivated(p, 0)]], [0, 0], map[], map[],
                       map[0 := Reader(id, Loaded(ToDto(p), Source(1, 0)))], Counted(q), Deleter(id, sellerId, Applied))
  {
    var p := Doomed(id, sellerId, data);
    es, s := BothLoaded(id, sellerId, data, q, delay);
    es, s := Extend(es, s, Write(0, id, sellerId, SoftDelete), delay);
    es, s := Extend(es, s, CheckOwner(0), delay);
    assert s.writers == Deleter(id, sellerId, Checked);
    es, s := Extend(es, s, Apply(0), delay);
    assert Rewrite([p], Deactivated(p, 0)) == [Deactivated(p, 0)];
  }

  /** The deletion reaches the read database at once, the invalidation is done, and `delay` passes. */
  lemma DeletionArrives(id: Id, sellerId: Id, data: CreateData, q: PageQuery, delay: Time) returns (es: seq<Event>, s: State)
    ensures Leads(es, s, delay)
    ensures var p := Doomed(id, sellerId, data);
            s == State(delay, [[], [p], [Deactivated(p, 0)]], [0, 0, 0], map[], map[],
                       map[0 := Reader(id, Loaded(ToDto(p), Source(1, 0)))], Counted(q), Deleter(id, sellerId, Done))
  {
    es, s := OwnerDeletes(id, sellerId, data, q, delay);
    es, s := Extend(es, s, Replicate, delay);
    es, s := Extend(es, s, Invalidate(0), delay);
    es, s := Extend(es, s, Tick(delay), delay);
  }

  lemma DetailCachedLate(id: Id, sellerId: Id, data: CreateData, delay: Time, elapsed: Time) returns (es: seq<Event>, s: State)
    ensures Leads(es, s, delay) && s.now == delay + elapsed
    ensures var p := Doomed(id, sellerId, data);
            && s.log == [[], [p], [Deactivated(p, 0)]] && s.since == [0, 0, 0]
            && s.details == map[id := DetailEntry(ToDto(p), Source(1, 0), delay + DETAIL_TTL)]
            && s.readers.Keys == {0}
            && s.writers == Deleter(id, sellerId, Done)
  {
    es, s := DeletionArrives(id, sellerId, data, Query(1, 1, None, None, None, None, None, None, None), delay);
    es, s := Extend(es, s, CacheSet(0), delay);
    es, s := Extend(es, s, Tick(elapsed), delay);
  }

  /**
   The bounds cannot be lowered: for every `delay` and every time short of 120 s there is a run
   that keeps to `delay`, in which a product's deletion reaches the read database at time 0, its
   invalidation is done, and the product is still served at `delay` plus that time.
   */
  lemma BoundIsTight(id: Id, sellerId: Id, data: CreateData, delay: Time, elapsed: Time) returns (es: seq<Event>, s: State)
    requires elapsed < 120_000
    ensures CanRun(Start, es) && Run(Start, es) == s && forall scope :: PromptRun(Start, es, scope, delay)
    ensures DeletedBy(s, 2, id) && s.since[2] == 0 && s.writers == Deleter(id, sellerId, Done)
    ensures 1 in s.readers
    ensures s.readers[1] == Reader(id, Served(ToDto(Doomed(id, sellerId, data)), Source(1, 0), delay + elapsed))
  {
    es, s := DetailCachedLate(id, sellerId, data, delay, elapsed);
    es, s := Extend(es, s, Read(1, id), delay);
    es, s := Extend(es, s, CacheGet(1), delay);
  }

  lemma ListCachedLate(id: Id, sellerId: Id, data: CreateData, q: PageQuery, delay: Time, elapsed: Time)
    returns (es: seq<Event>, s: State)
    ensures Leads(es, s, delay) && s.now == delay + elapsed
    ensures var p := Doomed(id, sellerId, data);
            && s.log == [[], [p], [Deactivated(p, 0)]] && s.since == [0, 0, 0]
            && s.lists == map[KeyOf(q) := ListEntry(ListingOf([p], [p], q), q, Source(1, 0), Source(1, 0), delay + LIST_TTL)]
            && s.listReaders.Keys == {0}
            && s.writers == Deleter(id, sellerId, Done)
  {
    es, s := DeletionArrives(id, sellerId, data, q, delay);
    es, s := Extend(es, s, ListSet(0), delay);
    es, s := Extend(es, s, Tick(elapsed), delay);
  }

  /**
   The bound of lists cannot be lowered either: a list computed before a product's deletion is
   served at `delay` plus any time short of 60 s after the deletion has reached the read
   database, and for every query the product meets its first page then shows the product.
   */
  lemma ListBoundIsTight(id: Id, sellerId: Id, data: CreateData, q: PageQuery, delay: Time, elapsed: Time)
    returns (es: seq<Event>, s: State)
    requires elapsed < 60_000
    ensures CanRun(Start, es) && Run(Start, es) == s && forall scope :: PromptRun(Start, es, scope, delay)
    ensures DeletedBy(s, 2, id) && s.since[2] == 0 && s.writers == Deleter(id, sellerId, Done)
    ensures 1 in s.listReaders
    ensures var p := Doomed(id, sellerId, data);
            && s.listReaders[1]
                 == ListReader(q, ListServed(ListingOf([p], [p], q), Source(1, 0), Source(1, 0), delay + elapsed))
            && (q.page == 1 && Meets(WhereOf(q), p) ==> ListingOf([p], [p], q).products == [ToDto(p)])
  {
    es, s := ListCachedLate(id, sellerId, data, q, delay, elapsed);
    es, s := Extend(es, s, ReadList(1, q), delay);
    es, s := Extend(es, s, ListGet(1), delay);
    if q.page == 1 && Meets(WhereOf(q), Doomed(id, sellerId, data)) {
      OnlyRowListed(Doomed(id, sellerId, data), q);
    }
  }

  /* ---- A late write, from any state ---- */

  lemma RunCons(s: State, e: Event, es: seq<Event>)
    requires Versioned(s) && Enabled(s, e) && Versioned(Next(s, e)) && CanRun(Next(s, e), es)
    ensures CanRun(s, [e] + es) && Run(s, [e] + es) == Run(Next(s, e), es)
  {
    assert ([e] + es)[1..] == es;
  }

  /**
   Nor is that run special: from any state, a reader that writes its DTO makes it the answer for
   any time short of 120 s, however late it writes and whatever was invalidated before.
   */
  lemma LateWriteIsServed(s: State, r: ReaderId, next: ReaderId, elapsed: Time)
    requires Versioned(s)
    requires r in s.readers && s.readers[r].stage.Loaded? && next !in s.readers
    requires elapsed < 120_000
    ensures var es := [CacheSet(r), Tick(elapsed), Read(next, s.readers[r].id), CacheGet(next)];
            && CanRun(s, es)
            && next in Run(s, es).readers
            && Run(s, es).readers[next].stage == Served(s.readers[r].stage.dto, s.readers[r].stage.source, s.now + elapsed)
  {
    var write, wait, read, get := CacheSet(r), Tick(elapsed), Read(next, s.readers[r].id), CacheGet(next);
    var s1 := Next(s, write);
    var s2 := Next(s1, wait);
    var s3 := Next(s2, read);
    RunCons(s3, get, []);
    RunCons(s2, read, [get]);
    RunCons(s1, wait, [read, get]);
    RunCons(s, write, [wait, read, get]);
  }
}
