/**
 The product caches under full interleaving: readers, writers, orders and replication, one
 step at a time. Writes go to the primary; `log` holds its committed versions. The read
 database applies them in order; `since[i]` is when it applied version i. Readers see the
 read database and the cache; writers check ownership on the read database.

 A `Source` is history: which version a value was read from, and when.
 */
module ProductCache {
  import opened Results
  import opened Clock
  import opened Catalog
  import opened ProductTable
  import opened ProductQuery

  type ReaderId = nat
  type WriterId = nat

  datatype Source = Source(version: nat, at: Time)

  datatype DetailEntry = DetailEntry(dto: ProductDto, source: Source, expiresAt: Time)

  datatype ListEntry = ListEntry(listing: Listing, query: PageQuery, rows: Source, counted: Source, expiresAt: Time)

  datatype ReadStage =
    | Arrived
    | Missed
    | Loaded(dto: ProductDto, source: Source)
    | Served(dto: ProductDto, source: Source, servedAt: Time)
    | NotFound(source: Source)

  datatype Reader = Reader(id: Id, stage: ReadStage)

  datatype ListStage =
    | ListArrived
    | ListMissed
    | HasRows(rows: Source)
    | HasTotal(rows: Source, counted: Source)
    | ListServed(listing: Listing, rows: Source, counted: Source, servedAt: Time)

  datatype ListReader = ListReader(query: PageQuery, stage: ListStage)

  datatype WriteStage = Requested | Checked | Applied | Done | ProductMissing | NotOwner

  datatype Writer = Writer(id: Id, sellerId: Id, change: Change, stage: WriteStage)

  datatype State = State(
    now: Time,
    log: seq<Table>,
    since: seq<Time>,
    details: map<Id, DetailEntry>,
    lists: map<ListKey, ListEntry>,
    readers: map<ReaderId, Reader>,
    listReaders: map<ReaderId, ListReader>,
    writers: map<WriterId, Writer>)

  const Start := State(0, [[]], [0], map[], map[], map[], map[], map[])

  datatype Event =
    | Tick(elapsed: Time)
    | Replicate
    | Create(id: Id, sellerId: Id, data: CreateData)
    | OrderCommits(items: seq<Item>)
    | Read(r: ReaderId, id: Id)
    | CacheGet(r: ReaderId)
    | FindOne(r: ReaderId)
    | CacheSet(r: ReaderId)
    | ReadList(r: ReaderId, query: PageQuery)
    | ListGet(r: ReaderId)
    | FindRows(r: ReaderId)
    | CountRows(r: ReaderId)
    | ListSet(r: ReaderId)
    | Write(w: WriterId, id: Id, sellerId: Id, change: Change)
    | CheckOwner(w: WriterId)
    | Apply(w: WriterId)
    | Invalidate(w: WriterId)

  function Primary(s: State): Table
    requires s.log != []
  {
    s.log[|s.log| - 1]
  }

  function ReadVersion(s: State): int {
    |s.since| - 1
  }

  function Replica(s: State): Table
    requires 1 <= |s.since| <= |s.log|
  {
    s.log[ReadVersion(s)]
  }

  function Here(s: State): Source
    requires s.since != []
  {
    Source(ReadVersion(s), s.now)
  }

  predicate DetailLive(s: State, id: Id) {
    id in s.details && s.now < s.details[id].expiresAt
  }

  predicate ListLive(s: State, key: ListKey) {
    key in s.lists && s.now < s.lists[key].expiresAt
  }

  predicate Versioned(s: State) {
    1 <= |s.since| <= |s.log|
  }

  predicate Enabled(s: State, e: Event)
    requires Versioned(s)
  {
    match e
    case Tick(_) => true
    case Replicate => |s.since| < |s.log|
    case Create(id, _, data) => Find(Primary(s), id).None?
    case OrderCommits(items) => AllExist(Primary(s), items)
    case Read(r, _) => r !in s.readers
    case CacheGet(r) => r in s.readers && s.readers[r].stage.Arrived?
    case FindOne(r) => r in s.readers && s.readers[r].stage.Missed?
    case CacheSet(r) => r in s.readers && s.readers[r].stage.Loaded?
    case ReadList(r, _) => r !in s.listReaders
    case ListGet(r) => r in s.listReaders && s.listReaders[r].stage.ListArrived?
    case FindRows(r) => r in s.listReaders && s.listReaders[r].stage.ListMissed?
    case CountRows(r) => r in s.listReaders && s.listReaders[r].stage.HasRows?
    case ListSet(r) => r in s.listReaders && s.listReaders[r].stage.HasTotal?
    case Write(w, _, _, _) => w !in s.writers
    case CheckOwner(w) => w in s.writers && s.writers[w].stage.Requested?
    case Apply(w) => w in s.writers && s.writers[w].stage.Checked?
    case Invalidate(w) => w in s.writers && s.writers[w].stage.Applied?
  }

  function NextLog(s: State, e: Event): seq<Table>
    requires Versioned(s) && Enabled(s, e)
  {
    match e
    case Create(id, sellerId, data) => s.log + [Primary(s) + [Created(id, sellerId, data, s.now)]]
    case OrderCommits(items) => s.log + [Decrement(Primary(s), items, s.now)]
    case Apply(w) =>
      var found := Find(Primary(s), s.writers[w].id);
      if found.Some? then s.log + [Rewrite(Primary(s), Changed(found.value, s.writers[w].change, s.now))] else s.log
    case _ => s.log
  }

  function NextReader(s: State, e: Event): Reader
    requires Versioned(s) && Enabled(s, e) && (e.Read? || e.CacheGet? || e.FindOne? || e.CacheSet?)
  {
    if e.Read? then Reader(e.id, Arrived) else
    var reader := s.readers[e.r];
    match e
    case CacheGet(_) =>
      if DetailLive(s, reader.id) then
        reader.(stage := Served(s.details[reader.id].dto, s.details[reader.id].source, s.now))
      else
        reader.(stage := Missed)
    case FindOne(_) =>
      var found := FindActive(Replica(s), reader.id);
      reader.(stage := if found.Some? then Loaded(ToDto(found.value), Here(s)) else NotFound(Here(s)))
    case CacheSet(_) => reader.(stage := Served(reader.stage.dto, reader.stage.source, s.now))
  }

  /** The table a query saw. */
  function TableAt(s: State, source: Source): Table {
    if source.version < |s.log| then s.log[source.version] else []
  }

  /** The listing a list reader has put together. */
  function Assembled(s: State, reader: ListReader): Listing
    requires reader.stage.HasTotal?
  {
    ListingOf(TableAt(s, reader.stage.rows), TableAt(s, reader.stage.counted), reader.query)
  }

  function NextListReader(s: State, e: Event): ListReader
    requires Versioned(s) && Enabled(s, e) && (e.ReadList? || e.ListGet? || e.FindRows? || e.CountRows? || e.ListSet?)
  {
    if e.ReadList? then ListReader(e.query, ListArrived) else
    var reader := s.listReaders[e.r];
    match e
    case ListGet(_) =>
      var key := KeyOf(reader.query);
      if ListLive(s, key) then
        reader.(stage := ListServed(s.lists[key].listing, s.lists[key].rows, s.lists[key].counted, s.now))
      else
        reader.(stage := ListMissed)
    case FindRows(_) => reader.(stage := HasRows(Here(s)))
    case CountRows(_) => reader.(stage := HasTotal(reader.stage.rows, Here(s)))
    case ListSet(_) =>
      reader.(stage := ListServed(Assembled(s, reader), reader.stage.rows, reader.stage.counted, s.now))
  }

  function NextWriter(s: State, e: Event): Writer
    requires Versioned(s) && Enabled(s, e) && (e.Write? || e.CheckOwner? || e.Apply? || e.Invalidate?)
  {
    if e.Write? then Writer(e.id, e.sellerId, e.change, Requested) else
    var writer := s.writers[e.w];
    match e
    case CheckOwner(_) =>
      var found := Find(Replica(s), writer.id);
      writer.(stage := if found.None? then ProductMissing
                       else if found.value.sellerId != writer.sellerId then NotOwner
                       else Checked)
    case Apply(_) => writer.(stage := if Find(Primary(s), writer.id).Some? then Applied else ProductMissing)
    case Invalidate(_) => writer.(stage := Done)
  }

  function NextDetails(s: State, e: Event): map<Id, DetailEntry>
    requires Versioned(s) && Enabled(s, e)
  {
    match e
    case CacheSet(r) =>
      var reader := s.readers[r];
      s.details[reader.id := DetailEntry(reader.stage.dto, reader.stage.source, s.now + DETAIL_TTL)]
    case Invalidate(w) => s.details - {s.writers[w].id}
    case _ => s.details
  }

  function NextLists(s: State, e: Event): map<ListKey, ListEntry>
    requires Versioned(s) && Enabled(s, e)
  {
    if e.ListSet? then
      var reader := s.listReaders[e.r];
      s.lists[KeyOf(reader.query) :=
        ListEntry(Assembled(s, reader), reader.query, reader.stage.rows, reader.stage.counted, s.now + LIST_TTL)]
    else
      s.lists
  }

  function Next(s: State, e: Event): State
    requires Versioned(s) && Enabled(s, e)
  {
    State(
      if e.Tick? then s.now + e.elapsed else s.now,
      NextLog(s, e),
      if e.Replicate? then s.since + [s.now] else s.since,
      NextDetails(s, e),
      NextLists(s, e),
      if e.Read? || e.CacheGet? || e.FindOne? || e.CacheSet? then s.readers[e.r := NextReader(s, e)] else s.readers,
      if e.ReadList? || e.ListGet? || e.FindRows? || e.CountRows? || e.ListSet?
        then s.listReaders[e.r := NextListReader(s, e)] else s.listReaders,
      if e.Write? || e.CheckOwner? || e.Apply? || e.Invalidate? then s.writers[e.w := NextWriter(s, e)] else s.writers)
  }

  predicate CanRun(s: State, es: seq<Event>)
    requires Versioned(s)
    decreases |es|
  {
    es == [] || (Enabled(s, es[0]) && CanRun(Next(s, es[0]), es[1..]))
  }

  function Run(s: State, es: seq<Event>): State
    requires Versioned(s) && CanRun(s, es)
    decreases |es|
  {
    if es == [] then s else Run(Next(s, es[0]), es[1..])
  }

  /* ---- The table's history ---- */

  lemma LogGrows(s: State, e: Event)
    requires Versioned(s) && Enabled(s, e)
    ensures s.log <= NextLog(s, e)
  {
  }

  /** Deletion is final, ownership constant, prices positive and ids distinct, along the whole log. */
  lemma LogKept(s: State, e: Event)
    requires Versioned(s) && LogOk(s.log) && Enabled(s, e)
    ensures LogOk(Next(s, e).log)
  {
    var t := Primary(s);
    match e
    case Create(id, sellerId, data) =>
      AppendIsSound(t, Created(id, sellerId, data, s.now));
      LogOkAppend(s.log, t + [Created(id, sellerId, data, s.now)]);
    case OrderCommits(items) =>
      DecrementIsSound(t, items, s.now);
      LogOkAppend(s.log, Decrement(t, items, s.now));
    case Apply(w) =>
      var found := Find(t, s.writers[w].id);
      if found.Some? {
        var p := Changed(found.value, s.writers[w].change, s.now);
        FindIsRow(t, s.writers[w].id);
        RewriteIsSound(t, s.writers[w].id, p);
        LogOkAppend(s.log, Rewrite(t, p));
      }
    case _ =>
  }

  /* ---- Bounded staleness ---- */

  predicate SinceInv(s: State) {
    && Versioned(s)
    && (forall i, j | 0 <= i <= j < |s.since| :: s.since[i] <= s.since[j])
    && s.since[ReadVersion(s)] <= s.now
  }

  /** At the instant `source.at`, the read database held version `source.version`. */
  predicate HeldThen(s: State, source: Source) {
    && source.version < |s.since| <= |s.log|
    && s.since[source.version] <= source.at <= s.now
    && (source.version + 1 < |s.since| ==> source.at <= s.since[source.version + 1])
  }

  /** `dto` is what an uncached lookup of `id` would have returned at `source`. */
  predicate TrueThen(s: State, id: Id, dto: ProductDto, source: Source) {
    && HeldThen(s, source)
    && FindActive(s.log[source.version], id).Some?
    && dto == ToDto(FindActive(s.log[source.version], id).value)
  }

  predicate DetailOk(s: State, delay: Time, id: Id)
    requires id in s.details
  {
    var entry := s.details[id];
    TrueThen(s, id, entry.dto, entry.source) && entry.expiresAt <= entry.source.at + delay + DETAIL_TTL
  }

  predicate ReaderOk(s: State, delay: Time, reader: Reader) {
    match reader.stage
    case Loaded(dto, source) => TrueThen(s, reader.id, dto, source)
    case Served(dto, source, servedAt) =>
      TrueThen(s, reader.id, dto, source) && source.at <= servedAt <= source.at + DETAIL_TTL + delay
    case NotFound(source) => HeldThen(s, source) && FindActive(s.log[source.version], reader.id).None?
    case _ => true
  }

  predicate TrueListing(s: State, q: PageQuery, listing: Listing, rows: Source, counted: Source) {
    && HeldThen(s, rows) && HeldThen(s, counted) && rows.at <= counted.at
    && listing == ListingOf(s.log[rows.version], s.log[counted.version], q)
  }

  predicate ListOk(s: State, delay: Time, key: ListKey)
    requires key in s.lists
  {
    var entry := s.lists[key];
    && KeyOf(entry.query) == key
    && TrueListing(s, entry.query, entry.listing, entry.rows, entry.counted)
    && entry.expiresAt <= entry.rows.at + delay + LIST_TTL
  }

  predicate ListReaderOk(s: State, delay: Time, reader: ListReader) {
    match reader.stage
    case HasRows(rows) => HeldThen(s, rows)
    case HasTotal(rows, counted) => HeldThen(s, rows) && HeldThen(s, counted) && rows.at <= counted.at
    case ListServed(listing, rows, counted, servedAt) =>
      && TrueListing(s, reader.query, listing, rows, counted)
      && counted.at <= servedAt <= rows.at + LIST_TTL + delay
    case _ => true
  }

  ghost predicate DetailsInv(s: State, delay: Time, id: Id) {
    && (id in s.details ==> DetailOk(s, delay, id))
    && (forall r | r in s.readers && s.readers[r].id == id :: ReaderOk(s, delay, s.readers[r]))
  }

  ghost predicate ListsInv(s: State, delay: Time, key: ListKey) {
    && (key in s.lists ==> ListOk(s, delay, key))
    && (forall r | r in s.listReaders && KeyOf(s.listReaders[r].query) == key :: ListReaderOk(s, delay, s.listReaders[r]))
  }

  /** What a promise about time is about: one product's entry, or one list's. */
  datatype Scope = OfProduct(id: Id) | OfList(key: ListKey)

  /** A cache write of the entry comes no later than `delay` after its reader's (first) query. */
  predicate Prompt(s: State, e: Event, scope: Scope, delay: Time)
    requires Versioned(s) && Enabled(s, e)
  {
    match scope
    case OfProduct(id) => e.CacheSet? && s.readers[e.r].id == id ==> s.now <= s.readers[e.r].stage.source.at + delay
    case OfList(key) =>
      e.ListSet? && KeyOf(s.listReaders[e.r].query) == key ==> s.now <= s.listReaders[e.r].stage.rows.at + delay
  }

  ghost predicate PromptRun(s: State, es: seq<Event>, scope: Scope, delay: Time)
    requires Versioned(s) && CanRun(s, es)
    decreases |es|
  {
    es == [] || (Prompt(s, es[0], scope, delay) && PromptRun(Next(s, es[0]), es[1..], scope, delay))
  }

  lemma SinceKept(s: State, e: Event)
    requires SinceInv(s) && Enabled(s, e)
    ensures SinceInv(Next(s, e))
  {
    LogGrows(s, e);
  }

  /** Later steps do not change what was true at an earlier instant. */
  lemma PastKept(s: State, e: Event, source: Source)
    requires SinceInv(s) && Enabled(s, e) && HeldThen(s, source)
    ensures SinceInv(Next(s, e)) && HeldThen(Next(s, e), source)
    ensures Next(s, e).log[source.version] == s.log[source.version]
  {
    SinceKept(s, e);
    LogGrows(s, e);
  }

  lemma DetailsKept(s: State, e: Event, delay: Time, id: Id)
    requires SinceInv(s) && DetailsInv(s, delay, id) && Enabled(s, e) && Prompt(s, e, OfProduct(id), delay)
    ensures DetailsInv(Next(s, e), delay, id)
  {
    var s' := Next(s, e);
    SinceKept(s, e);
    if id in s'.details {
      if e.CacheSet? && id == s.readers[e.r].id {
        assert ReaderOk(s, delay, s.readers[e.r]);
      } else {
        assert DetailOk(s, delay, id);
      }
      PastKept(s, e, s'.details[id].source);
    }
    forall r | r in s'.readers && s'.readers[r].id == id ensures ReaderOk(s', delay, s'.readers[r]) {
      ReaderKept(s, e, delay, id, r);
    }
  }

  lemma ReaderStaysOk(s: State, e: Event, delay: Time, reader: Reader)
    requires SinceInv(s) && Enabled(s, e) && ReaderOk(s, delay, reader)
    ensures ReaderOk(Next(s, e), delay, reader)
  {
    if reader.stage.Loaded? || reader.stage.Served? || reader.stage.NotFound? {
      PastKept(s, e, reader.stage.source);
    }
  }

  /** The reader a step moves is right already in the state before the step. */
  lemma ReaderMoves(s: State, e: Event, delay: Time, id: Id)
    requires SinceInv(s) && DetailsInv(s, delay, id) && Enabled(s, e) && Prompt(s, e, OfProduct(id), delay)
    requires e.Read? || e.CacheGet? || e.FindOne? || e.CacheSet?
    requires NextReader(s, e).id == id
    ensures ReaderOk(s, delay, NextReader(s, e))
  {
    if !e.Read? {
      var reader := s.readers[e.r];
      assert ReaderOk(s, delay, reader);
      if e.CacheGet? && DetailLive(s, reader.id) {
        assert DetailOk(s, delay, reader.id);
      }
    }
  }

  lemma ReaderKept(s: State, e: Event, delay: Time, id: Id, r: ReaderId)
    requires SinceInv(s) && DetailsInv(s, delay, id) && Enabled(s, e) && Prompt(s, e, OfProduct(id), delay)
    requires r in Next(s, e).readers && Next(s, e).readers[r].id == id
    ensures ReaderOk(Next(s, e), delay, Next(s, e).readers[r])
  {
    var reader := Next(s, e).readers[r];
    if r in s.readers && reader == s.readers[r] {
      assert ReaderOk(s, delay, reader);
    } else {
      ReaderMoves(s, e, delay, id);
    }
    ReaderStaysOk(s, e, delay, reader);
  }

  lemma ListsKept(s: State, e: Event, delay: Time, key: ListKey)
    requires SinceInv(s) && ListsInv(s, delay, key) && Enabled(s, e) && Prompt(s, e, OfList(key), delay)
    ensures ListsInv(Next(s, e), delay, key)
  {
    var s' := Next(s, e);
    SinceKept(s, e);
    if key in s'.lists {
      if e.ListSet? && key == KeyOf(s.listReaders[e.r].query) {
        assert ListReaderOk(s, delay, s.listReaders[e.r]);
      } else {
        assert ListOk(s, delay, key);
      }
      PastKept(s, e, s'.lists[key].rows);
      PastKept(s, e, s'.lists[key].counted);
    }
    forall r | r in s'.listReaders && KeyOf(s'.listReaders[r].query) == key
      ensures ListReaderOk(s', delay, s'.listReaders[r])
    {
      ListReaderKept(s, e, delay, key, r);
    }
  }

  lemma ListReaderStaysOk(s: State, e: Event, delay: Time, reader: ListReader)
    requires SinceInv(s) && Enabled(s, e) && ListReaderOk(s, delay, reader)
    ensures ListReaderOk(Next(s, e), delay, reader)
  {
    if reader.stage.HasRows? || reader.stage.HasTotal? || reader.stage.ListServed? {
      PastKept(s, e, reader.stage.rows);
    }
    if reader.stage.HasTotal? || reader.stage.ListServed? {
      PastKept(s, e, reader.stage.counted);
    }
  }

  lemma ListReaderMoves(s: State, e: Event, delay: Time, key: ListKey)
    requires SinceInv(s) && ListsInv(s, delay, key) && Enabled(s, e) && Prompt(s, e, OfList(key), delay)
    requires e.ReadList? || e.ListGet? || e.FindRows? || e.CountRows? || e.ListSet?
    requires KeyOf(NextListReader(s, e).query) == key
    ensures ListReaderOk(s, delay, NextListReader(s, e))
  {
    if !e.ReadList? {
      var reader := s.listReaders[e.r];
      assert ListReaderOk(s, delay, reader);
      if e.ListGet? && ListLive(s, key) {
        var entry := s.lists[key];
        assert ListOk(s, delay, key);
        SameKeySameListing(entry.query, reader.query, s.log[entry.rows.version], s.log[entry.counted.version]);
      }
    }
  }

  lemma ListReaderKept(s: State, e: Event, delay: Time, key: ListKey, r: ReaderId)
    requires SinceInv(s) && ListsInv(s, delay, key) && Enabled(s, e) && Prompt(s, e, OfList(key), delay)
    requires r in Next(s, e).listReaders && KeyOf(Next(s, e).listReaders[r].query) == key
    ensures ListReaderOk(Next(s, e), delay, Next(s, e).listReaders[r])
  {
    var reader := Next(s, e).listReaders[r];
    if r in s.listReaders && reader == s.listReaders[r] {
      assert ListReaderOk(s, delay, reader);
    } else {
      ListReaderMoves(s, e, delay, key);
    }
    ListReaderStaysOk(s, e, delay, reader);
  }

  /* ---- Writers ---- */

  /** A writer past its check owns the product, on the primary as well. */
  predicate WriterOk(s: State, writer: Writer)
    requires s.log != []
  {
    writer.stage.Checked? || writer.stage.Applied? || writer.stage.Done? ==>
      var found := Find(Primary(s), writer.id);
      found.Some? && found.value.sellerId == writer.sellerId
  }

  ghost predicate WritersInv(s: State)
    requires s.log != []
  {
    forall w | w in s.writers :: WriterOk(s, s.writers[w])
  }

  /** Neither the product nor its seller goes away under a writer. */
  lemma WriterStaysOk(s: State, e: Event, writer: Writer)
    requires Versioned(s) && LogOk(s.log) && WriterOk(s, writer) && Enabled(s, e)
    ensures Next(s, e).log != [] && WriterOk(Next(s, e), writer)
  {
    LogGrows(s, e);
    LogKept(s, e);
    var s' := Next(s, e);
    assert s'.log[|s.log| - 1] == Primary(s);
    EvolvesAt(s', |s.log| - 1, |s'.log| - 1, writer.id);
  }

  /** The writer a step moves is right already before the step: what the read database shows is true of the primary. */
  lemma WriterMoves(s: State, e: Event)
    requires Versioned(s) && LogOk(s.log) && WritersInv(s) && Enabled(s, e)
    requires e.Write? || e.CheckOwner? || e.Apply? || e.Invalidate?
    ensures WriterOk(s, NextWriter(s, e))
  {
    if !e.Write? {
      assert WriterOk(s, s.writers[e.w]);
      if e.CheckOwner? {
        EvolvesAt(s, ReadVersion(s), |s.log| - 1, s.writers[e.w].id);
      }
    }
  }

  lemma WritersKept(s: State, e: Event)
    requires SinceInv(s) && LogOk(s.log) && WritersInv(s) && Enabled(s, e)
    ensures SinceInv(Next(s, e)) && WritersInv(Next(s, e))
  {
    var s' := Next(s, e);
    SinceKept(s, e);
    forall w | w in s'.writers ensures WriterOk(s', s'.writers[w]) {
      if w in s.writers && s'.writers[w] == s.writers[w] {
        assert WriterOk(s, s.writers[w]);
      } else {
        WriterMoves(s, e);
      }
      WriterStaysOk(s, e, s'.writers[w]);
    }
  }

  /* ---- Runs ---- */

  ghost predicate Inv(s: State) {
    SinceInv(s) && LogOk(s.log) && WritersInv(s)
  }

  ghost predicate TimedInv(s: State, scope: Scope, delay: Time) {
    match scope
    case OfProduct(id) => DetailsInv(s, delay, id)
    case OfList(key) => ListsInv(s, delay, key)
  }

  lemma StepKeepsInv(s: State, e: Event)
    requires Inv(s) && Enabled(s, e)
    ensures Inv(Next(s, e))
  {
    SinceKept(s, e);
    LogKept(s, e);
    WritersKept(s, e);
  }

  lemma {:induction false} RunKeepsInv(s: State, es: seq<Event>, scope: Scope, delay: Time)
    requires Inv(s) && TimedInv(s, scope, delay) && CanRun(s, es) && PromptRun(s, es, scope, delay)
    ensures Inv(Run(s, es)) && TimedInv(Run(s, es), scope, delay)
    decreases |es|
  {
    if es != [] {
      StepKeepsInv(s, es[0]);
      match scope {
        case OfProduct(id) => DetailsKept(s, es[0], delay, id);
        case OfList(key) => ListsKept(s, es[0], delay, key);
      }
      RunKeepsInv(Next(s, es[0]), es[1..], scope, delay);
    }
  }

  /** What runs that keep to `delay` for one entry lead to. */
  ghost predicate ReachableFor(s: State, scope: Scope, delay: Time) {
    exists es :: CanRun(Start, es) && PromptRun(Start, es, scope, delay) && Run(Start, es) == s
  }

  ghost predicate Reachable(s: State) {
    exists es :: CanRun(Start, es) && Run(Start, es) == s
  }

  lemma StartOk(scope: Scope, delay: Time)
    ensures Inv(Start) && TimedInv(Start, scope, delay)
  {
    FirstLogOk();
  }

  lemma ReachableForInv(s: State, scope: Scope, delay: Time)
    requires ReachableFor(s, scope, delay)
    ensures Inv(s) && TimedInv(s, scope, delay)
  {
    var es :| CanRun(Start, es) && PromptRun(Start, es, scope, delay) && Run(Start, es) == s;
    StartOk(scope, delay);
    RunKeepsInv(Start, es, scope, delay);
  }

  lemma {:induction false} RunIsPrompt(s: State, es: seq<Event>, scope: Scope)
    requires SinceInv(s) && CanRun(s, es)
    ensures s.now <= Run(s, es).now && PromptRun(s, es, scope, Run(s, es).now)
    decreases |es|
  {
    if es != [] {
      SinceKept(s, es[0]);
      RunIsPrompt(Next(s, es[0]), es[1..], scope);
    }
  }

  /** Every run keeps to some delay, so what does not speak of time holds in every run. */
  lemma ReachableInv(s: State, scope: Scope)
    requires Reachable(s)
    ensures Inv(s) && TimedInv(s, scope, s.now)
  {
    var es :| CanRun(Start, es) && Run(Start, es) == s;
    StartOk(scope, 0);
    RunIsPrompt(Start, es, scope);
    ReachableForInv(s, scope, s.now);
  }

  lemma EvolvesAt(s: State, i: nat, j: nat, id: Id)
    requires LogOk(s.log) && i <= j < |s.log|
    ensures RowEvolves(s.log[i], s.log[j], id)
  {
    assert Evolves(s.log[i], s.log[j]);
  }
}
