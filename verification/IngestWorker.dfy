/**
 The ingest attempt as the worker runs it: stores that its functions update in place, the
 in-memory duplicate index, and `IngestMarkdown`, whose every durable write is proved to be a
 step of the protocol in `IngestProtocol`.
*/
module IngestWorker {
  import opened Common
  import opened IngestProtocol
  import opened IngestInvariant
  import opened IngestTheorems

  datatype IngestResult = IngestResult(book: BookId, wasDuplicate: bool, rows: nat)

  /** Postgres, Milvus and MinIO, as far as an ingest touches them. */
  class Stores {
    var tasks: map<TaskId, Option<BookId>>
    var books: map<BookId, Book>
    var objects: set<Key>
    var vectors: map<BookId, multiset<Row>>
    var library: set<(UserId, BookId)>
    ghost var minted: map<BookId, TaskId>

    ghost function View(): (d: Durable)
      reads this
    {
      Durable(tasks, books, objects, vectors, library, minted)
    }

    method ReadClaim(t: TaskId) returns (claimed: Option<BookId>)
      ensures claimed == ReadClaimOf(View(), t)
    {
      claimed := None;
      if t in tasks {
        claimed := tasks[t];
      }
    }

    method RecordClaim(t: TaskId, b: BookId)
      modifies this`tasks
      ensures View() == ClaimRecorded(old(View()), t, b)
    {
      if t in tasks && tasks[t].None? {
        tasks := tasks[t := Some(b)];
      }
    }

    method BookCommitted(b: BookId) returns (committed: bool)
      ensures committed <==> b in View().books
    {
      committed := b in books;
    }

    method ScrubPartialVectors(b: BookId)
      modifies this`vectors
      ensures View() == Scrubbed(old(View()), b)
      ensures VectorsOf(View(), b) == multiset{}
    {
      vectors := vectors - {b};
    }

    method InsertVectors(b: BookId, rows: seq<Row>)
      modifies this`vectors
      ensures View() == old(View()).(vectors := old(vectors)[b := VectorsOf(old(View()), b) + multiset(rows)])
    {
      var present := if b in vectors then vectors[b] else multiset{};
      vectors := vectors[b := present + multiset(rows)];
    }

    method PutOriginal(key: Key)
      modifies this`objects
      ensures View() == OriginalPut(old(View()), key)
    {
      objects := objects + {key};
    }

    /** False is the primary-key IntegrityError; nothing is written then. */
    method InsertBookWithChunks(b: BookId, signature: Signature, pointer: Option<Key>, chunks: seq<string>)
      returns (ok: bool)
      modifies this`books
      ensures ok <==> b !in old(books)
      ensures View() == if ok then BookInserted(old(View()), b, Book(signature, pointer, chunks)) else old(View())
    {
      ok := b !in books;
      if ok {
        books := books[b := Book(signature, pointer, chunks)];
      }
    }

    /** False is the foreign-key IntegrityError of a row naming no book. */
    method UpsertUserLibrary(u: UserId, b: BookId) returns (ok: bool)
      modifies this`library
      ensures ok <==> b in books
      ensures View() == if ok then LibraryUpserted(old(View()), u, b) else old(View())
    {
      ok := b in books;
      if ok {
        library := library + {(u, b)};
      }
    }

    method PointerIsNull(b: BookId) returns (isNull: bool)
      ensures isNull <==> b in books && books[b].pointer.None?
    {
      isNull := b in books && books[b].pointer.None?;
    }

    method SetPointerIfNull(b: BookId, key: Key)
      modifies this`books
      ensures View() == PointerSet(old(View()), b, key)
    {
      if b in books && books[b].pointer.None? {
        books := books[b := books[b].(pointer := Some(key))];
      }
    }

    /** SELECT book_id, minhash_signature FROM global_books */
    method FetchSignatures() returns (rows: seq<(BookId, Signature)>)
      ensures IsTable(rows, Signatures(View()))
    {
      rows := [];
      var rest := books.Keys;
      assert Signatures(View()) - rest == map[];
      while rest != {}
        invariant rest <= books.Keys
        invariant IsTable(rows, Signatures(View()) - rest)
        decreases rest
      {
        var b := AnyOf(rest);
        RowRead(rows, Signatures(View()), rest, b);
        rows := rows + [(b, books[b].signature)];
        rest := rest - {b};
      }
      assert Signatures(View()) - rest == Signatures(View());
    }
  }

  lemma RowRead(rows: seq<(BookId, Signature)>, table: map<BookId, Signature>, rest: set<BookId>, b: BookId)
    requires IsTable(rows, table - rest) && b in rest && b in table
    ensures IsTable(rows + [(b, table[b])], table - (rest - {b}))
  {
    TableExtends(rows, table - rest, b, table[b]);
    assert (table - rest)[b := table[b]] == table - (rest - {b});
  }

  /** `rows` lists the pairs of `table`, each key once. */
  ghost predicate IsTable(rows: seq<(BookId, Signature)>, table: map<BookId, Signature>)
    decreases |rows|
  {
    if rows == [] then table == map[]
    else
      var (b, signature) := rows[|rows| - 1];
      b in table && table[b] == signature && IsTable(rows[..|rows| - 1], table - {b})
  }

  lemma TableExtends(rows: seq<(BookId, Signature)>, table: map<BookId, Signature>, b: BookId, signature: Signature)
    requires IsTable(rows, table) && b !in table
    ensures IsTable(rows + [(b, signature)], table[b := signature])
  {
    assert (rows + [(b, signature)])[..|rows|] == rows;
    assert table[b := signature] - {b} == table;
  }

  lemma {:induction false} TablePrefix(rows: seq<(BookId, Signature)>, table: map<BookId, Signature>, k: nat)
    returns (part: map<BookId, Signature>)
    requires IsTable(rows, table) && k <= |rows|
    ensures IsTable(rows[..k], part)
    ensures k == |rows| ==> part == table
    ensures k < |rows| ==> rows[k].0 !in part
    decreases |rows|
  {
    var n := |rows|;
    if k == n {
      part := table;
      assert rows[..k] == rows;
    } else if k == n - 1 {
      part := table - {rows[k].0};
    } else {
      part := TablePrefix(rows[..n - 1], table - {rows[n - 1].0}, k);
      assert rows[..n - 1][..k] == rows[..k];
    }
  }

  lemma {:induction false} TableUnique(rows: seq<(BookId, Signature)>, t1: map<BookId, Signature>, t2: map<BookId, Signature>)
    requires IsTable(rows, t1) && IsTable(rows, t2)
    ensures t1 == t2
    decreases |rows|
  {
    if rows != [] {
      var b := rows[|rows| - 1].0;
      TableUnique(rows[..|rows| - 1], t1 - {b}, t2 - {b});
      assert t1 == (t1 - {b})[b := rows[|rows| - 1].1];
      assert t2 == (t2 - {b})[b := rows[|rows| - 1].1];
    }
  }

  const DEFAULT_THRESHOLD := 0.85

  /** worker/dedup.py `Dedup`: the LSH and the signature map, loaded on first use. */
  class Dedup {
    const collides: Lsh  // shares an LSH bucket
    const jaccard: (Signature, Signature) -> real
    const threshold: real
    var lsh: Option<map<BookId, Signature>>
    var sigs: map<BookId, Signature>

    ghost predicate Valid()
      reads this
    {
      lsh.Some? ==> lsh.value == sigs
    }

    /** What the index will hold once loaded. */
    ghost function Loaded(books: map<BookId, Book>): (index: map<BookId, Signature>)
      reads this
    {
      if lsh.Some? then lsh.value else map b | b in books :: books[b].signature
    }

    /** What counts as a match at the threshold asked for: a bucket in common, post-filtered if it is stricter. */
    ghost function Matches(asked: real): Lsh
    {
      (held, sig) => collides(held, sig) && (asked == threshold || jaccard(sig, held) >= asked)
    }

    constructor (collides: Lsh, jaccard: (Signature, Signature) -> real, threshold: real)
      ensures Valid() && this.collides == collides && this.jaccard == jaccard && this.threshold == threshold && lsh.None?
    {
      this.collides, this.jaccard, this.threshold := collides, jaccard, threshold;
      lsh := None;
      sigs := map[];
    }

    method LoadFrom(rows: seq<(BookId, Signature)>, ghost table: map<BookId, Signature>)
      requires IsTable(rows, table)
      modifies this`lsh, this`sigs
      ensures Valid() && lsh == Some(table)
    {
      var built: map<BookId, Signature> := map[];
      for k := 0 to |rows|
        invariant IsTable(rows[..k], built)
      {
        ghost var part := TablePrefix(rows, table, k);
        TableUnique(rows[..k], built, part);
        TableExtends(rows[..k], built, rows[k].0, rows[k].1);
        assert rows[..k + 1] == rows[..k] + [rows[k]];
        built := built[rows[k].0 := rows[k].1];
      }
      assert rows[..|rows|] == rows;
      TableUnique(rows, built, table);
      lsh, sigs := Some(built), built;
    }

    method EnsureLoaded(stores: Stores)
      requires Valid()
      modifies this`lsh, this`sigs
      ensures Valid() && lsh == Some(old(Loaded(stores.books)))
    {
      if lsh.None? {
        var rows := stores.FetchSignatures();
        LoadFrom(rows, Signatures(stores.View()));
      }
    }

    /** False is the ValueError of a threshold looser than the index was built for; nothing is loaded then. */
    method FindDuplicate(stores: Stores, sig: Signature, asked: real) returns (ok: bool, found: Option<BookId>)
      requires Valid()
      modifies this`lsh, this`sigs
      ensures Valid() && (ok <==> asked >= threshold)
      ensures lsh == if ok then Some(old(Loaded(stores.books))) else old(lsh)
      ensures ok && found.Some? ==> found.value in lsh.value && Matches(asked)(lsh.value[found.value], sig)
      ensures ok && found.Some? && asked > threshold ==>
                forall b :: b in lsh.value && collides(lsh.value[b], sig) ==>
                  jaccard(sig, lsh.value[b]) <= jaccard(sig, lsh.value[found.value])
      ensures ok && found.None? ==> forall b :: b in lsh.value ==> !Matches(asked)(lsh.value[b], sig)
      ensures !ok ==> found.None?
    {
      found := None;
      ok := asked >= threshold;
      if !ok {
        return;
      }
      EnsureLoaded(stores);
      var candidates := set b | b in lsh.value && collides(lsh.value[b], sig);
      if candidates == {} {
        assert forall b :: b in lsh.value ==> b !in candidates;
      } else if asked == threshold {
        var first := AnyOf(candidates);
        found := Some(first);
      } else {
        found := BestMatch(candidates, sig, asked);
        assert forall b :: b in lsh.value && collides(lsh.value[b], sig) ==> b in candidates;
      }
    }

    /** The candidate of the highest similarity, if it reaches the threshold. */
    method BestMatch(candidates: set<BookId>, sig: Signature, asked: real) returns (best: Option<BookId>)
      requires candidates <= sigs.Keys
      ensures best.Some? ==> best.value in candidates && jaccard(sig, sigs[best.value]) >= asked
      ensures best.Some? ==> forall b :: b in candidates ==> jaccard(sig, sigs[b]) <= jaccard(sig, sigs[best.value])
      ensures best.None? ==> forall b :: b in candidates ==> jaccard(sig, sigs[b]) < asked
    {
      best := None;
      var rest := candidates;
      while rest != {}
        invariant rest <= candidates
        invariant best.Some? ==> best.value in candidates && jaccard(sig, sigs[best.value]) >= asked
        invariant forall b :: b in candidates - rest ==>
                    if best.Some? then jaccard(sig, sigs[b]) <= jaccard(sig, sigs[best.value]) else jaccard(sig, sigs[b]) < asked
        decreases rest
      {
        var b := AnyOf(rest);
        var j := jaccard(sig, sigs[b]);
        if j >= asked && (best.None? || j > jaccard(sig, sigs[best.value])) {
          best := Some(b);
        }
        rest := rest - {b};
      }
    }

    /** False is the ValueError of a key the LSH already holds. */
    method Add(stores: Stores, b: BookId, signature: Signature) returns (ok: bool)
      requires Valid() && lsh.Some?
      modifies this`lsh, this`sigs
      ensures Valid() && lsh.Some?
      ensures ok <==> b !in old(lsh.value)
      ensures lsh.value == if ok then old(lsh.value)[b := signature] else old(lsh.value)
    {
      EnsureLoaded(stores);
      ok := b !in lsh.value;
      if ok {
        lsh := Some(lsh.value[b := signature]);
        sigs := sigs[b := signature];
      }
    }
  }

  // ----- what one attempt does --------------------------------------------------------

  /** Which calls to the stores, the chunker and the embedder raise, by the action that makes them. */
  type Raises = Pc -> bool

  /** What is left when an attempt is over; no result means that it raised. */
  datatype Final = Final(d: Durable, index: map<BookId, Signature>, result: Option<IngestResult>)

  /** Drawing a uuid and inserting into the loaded index call nothing that can be down. */
  predicate CallsOut(pc: Pc) {
    !pc.Mint? && !pc.AddIndex?
  }

  /** What a raising call leaves behind: nothing, or the first `flushed` rows of the Milvus insert. */
  function CutShort(d: Durable, pc: Pc, flushed: nat): Durable {
    if pc.InsertVectors? then RowsAdded(d, pc.book, multiset(Flushed(Rows(pc.chunks), flushed))) else d
  }

  function Flushed(rows: seq<Row>, flushed: nat): seq<Row> {
    rows[..if flushed < |rows| then flushed else |rows|]
  }

  /** The attempt from `pc` on: the protocol's actions, one after the other. */
  function Attempted(t: TaskId, m: Message, o: Oracle, raises: Raises, flushed: nat,
                     d: Durable, index: map<BookId, Signature>, pc: Pc): Final
    decreases Remaining(pc)
  {
    if pc.Done? then Final(d, index, Some(IngestResult(pc.book, pc.wasDuplicate, pc.rows)))
    else if CallsOut(pc) && raises(pc) then Final(CutShort(d, pc, flushed), index, None)
    else
      var r := Action(d, index, t, m, pc, o);
      ActionsTerminate(d, index, t, m, pc, o);
      if r.pc.None? then Final(r.d, r.index, None)
      else Attempted(t, m, o, raises, flushed, r.d, r.index, r.pc.value)
  }

  /** One action on the way. */
  lemma Goes(t: TaskId, m: Message, o: Oracle, raises: Raises, flushed: nat,
             d: Durable, index: map<BookId, Signature>, pc: Pc, d': Durable, pc': Pc)
    requires !pc.Done? && !(CallsOut(pc) && raises(pc))
    requires Action(d, index, t, m, pc, o) == Outcome(d', index, Some(pc'))
    ensures Attempted(t, m, o, raises, flushed, d, index, pc) == Attempted(t, m, o, raises, flushed, d', index, pc')
  {
  }

  /**
   `ingest_markdown` after the duplicate lookup matched: library row first, then the backfill of a
   NULL pointer.
  */
  method FinishAsDuplicate(stores: Stores, ghost t: TaskId, m: Message, existing: BookId, ghost o: Oracle,
                           raises: Raises, ghost flushed: nat, ghost index: map<BookId, Signature>)
    returns (r: Option<IngestResult>)
    modifies stores`library, stores`objects, stores`books
    ensures Final(stores.View(), index, r)
            == Attempted(t, m, o, raises, flushed, old(stores.View()), index, DupLibrary(existing))
  {
    if raises(DupLibrary(existing)) {
      return None;
    }
    var ok := stores.UpsertUserLibrary(m.user, existing);
    if !ok {
      return None;
    }
    if m.hasOriginal {
      Goes(t, m, o, raises, flushed, old(stores.View()), index, DupLibrary(existing), stores.View(), DupReadPointer(existing));
      r := BackfillOriginal(stores, t, m, existing, o, raises, flushed, index);
      return;
    }
    Goes(t, m, o, raises, flushed, old(stores.View()), index, DupLibrary(existing), stores.View(), Done(existing, true, 0));
    return Some(IngestResult(existing, true, 0));
  }

  method BackfillOriginal(stores: Stores, ghost t: TaskId, m: Message, existing: BookId, ghost o: Oracle,
                          raises: Raises, ghost flushed: nat, ghost index: map<BookId, Signature>)
    returns (r: Option<IngestResult>)
    requires m.hasOriginal
    modifies stores`objects, stores`books
    ensures Final(stores.View(), index, r)
            == Attempted(t, m, o, raises, flushed, old(stores.View()), index, DupReadPointer(existing))
  {
    if raises(DupReadPointer(existing)) {
      return None;
    }
    ghost var d := stores.View();
    var isNull := stores.PointerIsNull(existing);
    if isNull {
      var key := Key(existing, m.filename);
      Goes(t, m, o, raises, flushed, d, index, DupReadPointer(existing), d, DupPutOriginal(existing));
      if raises(DupPutOriginal(existing)) {
        return None;
      }
      stores.PutOriginal(key);
      Goes(t, m, o, raises, flushed, d, index, DupPutOriginal(existing), stores.View(), DupSetPointer(existing, key));
      d := stores.View();
      if raises(DupSetPointer(existing, key)) {
        return None;
      }
      stores.SetPointerIfNull(existing, key);
      Goes(t, m, o, raises, flushed, d, index, DupSetPointer(existing, key), stores.View(), Done(existing, true, 0));
    } else {
      Goes(t, m, o, raises, flushed, d, index, DupReadPointer(existing), d, Done(existing, true, 0));
    }
    return Some(IngestResult(existing, true, 0));
  }

  /** The end of the new-book path: one transaction, then the library row and the index entry. */
  method CommitNewBook(stores: Stores, dedup: Dedup, ghost t: TaskId, m: Message, b: BookId, pointer: Option<Key>,
                       chunks: seq<string>, ghost o: Oracle, raises: Raises, ghost flushed: nat)
    returns (r: Option<IngestResult>)
    requires dedup.Valid() && dedup.lsh.Some?
    modifies stores`library, stores`books, dedup`lsh, dedup`sigs
    ensures dedup.Valid() && dedup.lsh.Some?
    ensures Final(stores.View(), dedup.lsh.value, r)
            == Attempted(t, m, o, raises, flushed, old(stores.View()), old(dedup.lsh.value), CommitBook(b, pointer, chunks))
  {
    ghost var index := dedup.lsh.value;
    if raises(CommitBook(b, pointer, chunks)) {
      return None;
    }
    var inserted := stores.InsertBookWithChunks(b, m.signature, pointer, chunks);
    if !inserted {
      return None;
    }
    Goes(t, m, o, raises, flushed, old(stores.View()), index, CommitBook(b, pointer, chunks),
         stores.View(), AddLibrary(b, |chunks|));
    r := ListNewBook(stores, dedup, t, m, b, |chunks|, o, raises, flushed);
  }

  method ListNewBook(stores: Stores, dedup: Dedup, ghost t: TaskId, m: Message, b: BookId, rows: nat, ghost o: Oracle,
                     raises: Raises, ghost flushed: nat)
    returns (r: Option<IngestResult>)
    requires dedup.Valid() && dedup.lsh.Some?
    modifies stores`library, dedup`lsh, dedup`sigs
    ensures dedup.Valid() && dedup.lsh.Some?
    ensures Final(stores.View(), dedup.lsh.value, r)
            == Attempted(t, m, o, raises, flushed, old(stores.View()), old(dedup.lsh.value), AddLibrary(b, rows))
  {
    ghost var index := dedup.lsh.value;
    if raises(AddLibrary(b, rows)) {
      return None;
    }
    var listed := stores.UpsertUserLibrary(m.user, b);
    if !listed {
      return None;
    }
    Goes(t, m, o, raises, flushed, old(stores.View()), index, AddLibrary(b, rows), stores.View(), AddIndex(b, rows));
    var added := dedup.Add(stores, b, m.signature);
    if !added {
      return None;
    }
    r := Some(IngestResult(b, false, rows));
  }

  /** The new-book path from the original upload on: object, chunks, vectors, then the commit. */
  method FinishAsNewBook(stores: Stores, dedup: Dedup, ghost t: TaskId, m: Message, b: BookId,
                         chunks: seq<string>, ghost o: Oracle, raises: Raises, flushed: nat)
    returns (r: Option<IngestResult>)
    requires dedup.Valid() && dedup.lsh.Some? && o.chunks == chunks
    modifies stores`library, stores`objects, stores`books, stores`vectors, dedup`lsh, dedup`sigs
    ensures dedup.Valid() && dedup.lsh.Some?
    ensures Final(stores.View(), dedup.lsh.value, r)
            == Attempted(t, m, o, raises, flushed, old(stores.View()), old(dedup.lsh.value), PutOriginal(b))
  {
    ghost var index := dedup.lsh.value;
    if raises(PutOriginal(b)) {
      return None;
    }
    var pointer: Option<Key> := None;
    if m.hasOriginal {
      stores.PutOriginal(Key(b, m.filename));
      pointer := Some(Key(b, m.filename));
    }
    Goes(t, m, o, raises, flushed, old(stores.View()), index, PutOriginal(b), stores.View(), ChunkText(b, pointer));
    r := ChunkAndInsert(stores, dedup, t, m, b, pointer, chunks, o, raises, flushed);
  }

  method ChunkAndInsert(stores: Stores, dedup: Dedup, ghost t: TaskId, m: Message, b: BookId, pointer: Option<Key>,
                        chunks: seq<string>, ghost o: Oracle, raises: Raises, flushed: nat)
    returns (r: Option<IngestResult>)
    requires dedup.Valid() && dedup.lsh.Some? && o.chunks == chunks
    modifies stores`library, stores`books, stores`vectors, dedup`lsh, dedup`sigs
    ensures dedup.Valid() && dedup.lsh.Some?
    ensures Final(stores.View(), dedup.lsh.value, r)
            == Attempted(t, m, o, raises, flushed, old(stores.View()), old(dedup.lsh.value), ChunkText(b, pointer))
  {
    ghost var index := dedup.lsh.value;
    ghost var d := stores.View();
    if raises(ChunkText(b, pointer)) {
      return None;
    }
    if chunks != [] {
      Goes(t, m, o, raises, flushed, d, index, ChunkText(b, pointer), d, InsertVectors(b, pointer, chunks));
      r := EmbedAndInsert(stores, dedup, t, m, b, pointer, chunks, o, raises, flushed);
    } else {
      Goes(t, m, o, raises, flushed, d, index, ChunkText(b, pointer), d, CommitBook(b, pointer, chunks));
      r := CommitNewBook(stores, dedup, t, m, b, pointer, chunks, o, raises, flushed);
    }
  }

  /** The embedder may raise, or the insert, of which some rows may have been flushed. */
  method EmbedAndInsert(stores: Stores, dedup: Dedup, ghost t: TaskId, m: Message, b: BookId, pointer: Option<Key>,
                        chunks: seq<string>, ghost o: Oracle, raises: Raises, flushed: nat)
    returns (r: Option<IngestResult>)
    requires dedup.Valid() && dedup.lsh.Some?
    modifies stores`library, stores`books, stores`vectors, dedup`lsh, dedup`sigs
    ensures dedup.Valid() && dedup.lsh.Some?
    ensures Final(stores.View(), dedup.lsh.value, r)
            == Attempted(t, m, o, raises, flushed, old(stores.View()), old(dedup.lsh.value), InsertVectors(b, pointer, chunks))
  {
    var rows := Rows(chunks);
    if raises(InsertVectors(b, pointer, chunks)) {
      stores.InsertVectors(b, Flushed(rows, flushed));
      return None;
    }
    stores.InsertVectors(b, rows);
    Goes(t, m, o, raises, flushed, old(stores.View()), dedup.lsh.value, InsertVectors(b, pointer, chunks),
         stores.View(), CommitBook(b, pointer, chunks));
    r := CommitNewBook(stores, dedup, t, m, b, pointer, chunks, o, raises, flushed);
  }

  /** The new-book path up to its id: a redelivered task converges on its claim, whose leftover vectors go first. */
  method IngestNewBook(stores: Stores, dedup: Dedup, taskId: Option<TaskId>, ghost t: TaskId, m: Message, drawn: BookId,
                       chunks: seq<string>, ghost o: Oracle, raises: Raises, flushed: nat)
    returns (r: Option<IngestResult>)
    requires dedup.Valid() && dedup.lsh.Some? && o.chunks == chunks && o.drawn == drawn
    requires if taskId.Some? then taskId.value == t else t !in stores.tasks
    modifies stores, dedup`lsh, dedup`sigs
    ensures dedup.Valid() && dedup.lsh.Some?
    ensures Final(stores.View(), dedup.lsh.value, r)
            == Attempted(t, m, o, raises, flushed, old(stores.View()), old(dedup.lsh.value), ReadClaim)
  {
    ghost var index := dedup.lsh.value;
    if raises(ReadClaim) {
      return None;
    }
    ghost var d := stores.View();
    var claimed: Option<BookId> := None;
    if taskId.Some? {
      claimed := stores.ReadClaim(taskId.value);
    }
    if claimed.None? {
      Goes(t, m, o, raises, flushed, d, index, ReadClaim, d, Mint);
      r := IngestUnclaimed(stores, dedup, taskId, t, m, drawn, chunks, o, raises, flushed);
      return;
    }
    var b := claimed.value;
    Goes(t, m, o, raises, flushed, d, index, ReadClaim, d, CheckCommitted(b));
    if raises(CheckCommitted(b)) {
      return None;
    }
    var committed := stores.BookCommitted(b);
    if committed {
      Goes(t, m, o, raises, flushed, d, index, CheckCommitted(b), d, ConvergeLibrary(b));
      if raises(ConvergeLibrary(b)) {
        return None;
      }
      var listed := stores.UpsertUserLibrary(m.user, b);
      Goes(t, m, o, raises, flushed, d, index, ConvergeLibrary(b), stores.View(), Done(b, true, 0));
      return Some(IngestResult(b, true, 0));
    }
    Goes(t, m, o, raises, flushed, d, index, CheckCommitted(b), d, Scrub(b));
    if raises(Scrub(b)) {
      return None;
    }
    stores.ScrubPartialVectors(b);
    Goes(t, m, o, raises, flushed, d, index, Scrub(b), stores.View(), PutOriginal(b));
    r := FinishAsNewBook(stores, dedup, t, m, b, chunks, o, raises, flushed);
  }

  /** No claim yet: the drawn id is recorded before anything is written under it. */
  method IngestUnclaimed(stores: Stores, dedup: Dedup, taskId: Option<TaskId>, ghost t: TaskId, m: Message, drawn: BookId,
                         chunks: seq<string>, ghost o: Oracle, raises: Raises, flushed: nat)
    returns (r: Option<IngestResult>)
    requires dedup.Valid() && dedup.lsh.Some? && o.chunks == chunks && o.drawn == drawn
    requires if taskId.Some? then taskId.value == t else t !in stores.tasks
    modifies stores, dedup`lsh, dedup`sigs
    ensures dedup.Valid() && dedup.lsh.Some?
    ensures Final(stores.View(), dedup.lsh.value, r)
            == Attempted(t, m, o, raises, flushed, old(stores.View()), old(dedup.lsh.value), Mint)
  {
    ghost var index := dedup.lsh.value;
    var b := drawn;
    stores.minted := stores.minted[b := t];
    ghost var d := stores.View();
    Goes(t, m, o, raises, flushed, old(stores.View()), index, Mint, d, RecordClaim(b));
    if raises(RecordClaim(b)) {
      return None;
    }
    if taskId.Some? {
      stores.RecordClaim(taskId.value, b);
    }
    Goes(t, m, o, raises, flushed, d, index, RecordClaim(b), stores.View(), PutOriginal(b));
    r := FinishAsNewBook(stores, dedup, t, m, b, chunks, o, raises, flushed);
  }

  /**
   One attempt.  `drawn` is what uuid4 returns, `chunks` what the chunker returns, `raises` says which
   calls raise, and `flushed` how many rows a raising insert leaves behind.  `taskId` is absent on the
   manual path, which has no row.  The attempt is the chain of actions that `AttemptIsPath` finds in
   the protocol; a duplicate index built for a stricter threshold than the default refuses it.
  */
  method IngestMarkdown(stores: Stores, dedup: Dedup, taskId: Option<TaskId>, ghost t: TaskId, m: Message, drawn: BookId,
                        chunks: seq<string>, raises: Raises, flushed: nat)
    returns (r: Option<IngestResult>, ghost o: Oracle)
    requires dedup.Valid()
    requires if taskId.Some? then taskId.value == t else t !in stores.tasks
    modifies stores, dedup`lsh, dedup`sigs
    ensures dedup.Valid()
    ensures o.drawn == drawn && o.chunks == chunks
    ensures if raises(Lookup) || dedup.threshold > DEFAULT_THRESHOLD
            then r.None? && stores.View() == old(stores.View()) && dedup.lsh == old(dedup.lsh)
            else
              && OracleOk(dedup.Matches(DEFAULT_THRESHOLD), old(stores.View()), old(dedup.Loaded(stores.books)), m, Lookup, o)
              && dedup.lsh.Some?
              && Final(stores.View(), dedup.lsh.value, r)
                 == Attempted(t, m, o, raises, flushed, old(stores.View()), old(dedup.Loaded(stores.books)), Lookup)
  {
    o := Oracle(None, drawn, chunks);
    if raises(Lookup) {
      return None, o;
    }
    var ok, existing := dedup.FindDuplicate(stores, m.signature, DEFAULT_THRESHOLD);
    if !ok {
      return None, o;
    }
    o := Oracle(existing, drawn, chunks);
    Goes(t, m, o, raises, flushed, stores.View(), dedup.lsh.value, Lookup, stores.View(),
         if existing.Some? then DupLibrary(existing.value) else ReadClaim);
    if existing.Some? {
      r := FinishAsDuplicate(stores, t, m, existing.value, o, raises, flushed, dedup.lsh.value);
      return;
    }
    r := IngestNewBook(stores, dedup, taskId, t, m, drawn, chunks, o, raises, flushed);
  }

  // ----- an attempt is a path of the protocol --------------------------------------------

  /** The whole system seen from one attempt: `c` is everything else. */
  ghost function Snap(c: State, t: TaskId, d: Durable, index: map<BookId, Signature>, a: Attempt): State {
    State(d, c.queue, c.running[t := a], c.index[a.proc := index])
  }

  /** Consecutive states of the attempt of `t`, one action apart; nothing else moves. */
  ghost predicate Path(lsh: Lsh, tr: seq<State>, t: TaskId, o: Oracle) {
    && tr != []
    && forall i :: 0 <= i < |tr| - 1 ==> PathStep(lsh, tr, t, o, i)
  }

  ghost predicate PathStep(lsh: Lsh, tr: seq<State>, t: TaskId, o: Oracle, i: nat)
    requires i + 1 < |tr|
  {
    Enabled(lsh, tr[i], Act(t, o)) && tr[i + 1] == Step(lsh, tr[i], Act(t, o))
  }

  ghost function Last(tr: seq<State>): State
    requires tr != []
  {
    tr[|tr| - 1]
  }

  /** How an exception ends an attempt: with nothing written, or inside its Milvus insert. */
  ghost predicate Cuts(lsh: Lsh, s: State, t: TaskId, e: Event, d: Durable) {
    && (e == Fail(t) || (e.TornInsert? && e.task == t))
    && Enabled(lsh, s, e) && Step(lsh, s, e).d == d
  }

  /**
   The whole outcome of one attempt as the protocol sees it: its actions `tr`, then its result, the
   integrity error its last action raised, or the event `cut` by which another exception ended it.
  */
  ghost predicate Refines(lsh: Lsh, t: TaskId, o: Oracle, tr: seq<State>, cut: Option<Event>, f: Final) {
    && Path(lsh, tr, t, o)
    && (if cut.Some? then f.result.None? && Cuts(lsh, Last(tr), t, cut.value, f.d)
        else if f.result.Some?
        then Last(tr).d == f.d && t in Last(tr).running
             && Last(tr).running[t].pc == Done(f.result.value.book, f.result.value.wasDuplicate, f.result.value.rows)
        else Last(tr).d == f.d && t !in Last(tr).running)
  }

  lemma FlushedIsPart(rows: seq<Row>, flushed: nat)
    ensures multiset(Flushed(rows, flushed)) <= multiset(rows)
  {
    assert rows == Flushed(rows, flushed) + rows[|Flushed(rows, flushed)|..];
  }

  lemma TornInsertCuts(lsh: Lsh, s: State, t: TaskId, rows: multiset<Row>)
    requires t in s.running && s.running[t].pc.InsertVectors? && rows <= multiset(Rows(s.running[t].pc.chunks))
    ensures Cuts(lsh, s, t, TornInsert(t, rows), RowsAdded(s.d, s.running[t].pc.book, rows))
  {
  }

  lemma CutIsEvent(lsh: Lsh, s: State, t: TaskId, raises: Raises, flushed: nat) returns (cut: Event)
    requires t in s.running
    ensures Cuts(lsh, s, t, cut, CutShort(s.d, s.running[t].pc, flushed))
  {
    var pc := s.running[t].pc;
    if pc.InsertVectors? {
      var rows := multiset(Flushed(Rows(pc.chunks), flushed));
      FlushedIsPart(Rows(pc.chunks), flushed);
      TornInsertCuts(lsh, s, t, rows);
      cut := TornInsert(t, rows);
    } else {
      cut := Fail(t);
    }
  }

  /** The acting attempt's new place in the whole state, whatever the action did. */
  lemma Placed(c: State, t: TaskId, d: Durable, index: map<BookId, Signature>, a: Attempt, r: Outcome)
    requires r.pc.Some?
    ensures var s, a' := Snap(c, t, d, index, a), Advanced(d, t, a, r.pc.value);
            State(r.d, s.queue, s.running[t := a'], s.index[a.proc := r.index]) == Snap(c, t, r.d, r.index, a')
  {
    var a' := Advanced(d, t, a, r.pc.value);
    assert c.running[t := a][t := a'] == c.running[t := a'];
    assert c.index[a.proc := index][a.proc := r.index] == c.index[a.proc := r.index];
  }

  lemma PathGrows(lsh: Lsh, s: State, tr: seq<State>, t: TaskId, o: Oracle)
    requires Path(lsh, tr, t, o) && Enabled(lsh, s, Act(t, o)) && tr[0] == Step(lsh, s, Act(t, o))
    ensures Path(lsh, [s] + tr, t, o) && Last([s] + tr) == Last(tr)
  {
    var more := [s] + tr;
    forall i | 0 <= i < |more| - 1 ensures PathStep(lsh, more, t, o, i) {
      if i > 0 {
        assert PathStep(lsh, tr, t, o, i - 1);
      }
    }
  }

  /** No uuid is drawn before Mint, and only Lookup starts an attempt. */
  lemma BeforeMint(d: Durable, index: map<BookId, Signature>, t: TaskId, m: Message, pc: Pc, o: Oracle)
    requires !pc.Done?
    ensures var r := Action(d, index, t, m, pc, o);
            r.pc.Some? ==> !r.pc.value.Lookup? && (Remaining(r.pc.value) >= 10 ==> r.d.minted == d.minted)
  {
  }

  /**
   What the worker's code does is what the protocol allows: its outcome is reached by actions of the
   attempt alone, each enabled, with at most one event of failure at the end.
  */
  lemma {:induction false} AttemptIsPath(lsh: Lsh, c: State, t: TaskId, m: Message, o: Oracle, raises: Raises, flushed: nat,
                                         d: Durable, index: map<BookId, Signature>, a: Attempt)
    returns (tr: seq<State>, cut: Option<Event>)
    requires t in c.queue && c.queue[t] == m
    requires a.pc.Lookup? ==> OracleOk(lsh, d, index, m, a.pc, o)
    requires Remaining(a.pc) >= 10 ==> o.drawn !in d.minted
    ensures tr != [] && tr[0] == Snap(c, t, d, index, a)
    ensures Refines(lsh, t, o, tr, cut, Attempted(t, m, o, raises, flushed, d, index, a.pc))
    ensures cut.Some? ==> t in Last(tr).running && CallsOut(Last(tr).running[t].pc) && raises(Last(tr).running[t].pc)
    decreases Remaining(a.pc)
  {
    var s := Snap(c, t, d, index, a);
    tr, cut := [s], None;
    if a.pc.Done? {
    } else if CallsOut(a.pc) && raises(a.pc) {
      var e := CutIsEvent(lsh, s, t, raises, flushed);
      cut := Some(e);
    } else {
      var r := Action(d, index, t, m, a.pc, o);
      ActionsTerminate(d, index, t, m, a.pc, o);
      if r.pc.None? {
        tr := [Step(lsh, s, Act(t, o))];
      } else {
        BeforeMint(d, index, t, m, a.pc, o);
        Placed(c, t, d, index, a, r);
        tr, cut := AttemptIsPath(lsh, c, t, m, o, raises, flushed, r.d, r.index, Advanced(d, t, a, r.pc.value));
      }
      PathGrows(lsh, s, tr, t, o);
      tr := [s] + tr;
    }
  }

  lemma {:induction false} PathKeepsInv(lsh: Lsh, tr: seq<State>, t: TaskId, o: Oracle, k: nat)
    requires Path(lsh, tr, t, o) && Inv(tr[0]) && k < |tr|
    ensures Inv(tr[k])
  {
    if k > 0 {
      PathKeepsInv(lsh, tr, t, o, k - 1);
      assert PathStep(lsh, tr, t, o, k - 1);
      StepKeepsInv(lsh, tr[k - 1], Act(t, o));
    }
  }

  /** Started in a state the invariant allows, no action of a path raises. */
  lemma PathGoesOn(lsh: Lsh, tr: seq<State>, t: TaskId, o: Oracle)
    requires Path(lsh, tr, t, o) && Inv(tr[0]) && t in tr[0].running
    ensures t in Last(tr).running
  {
    var k := |tr| - 1;
    if k > 0 {
      assert PathStep(lsh, tr, t, o, k - 1);
      PathKeepsInv(lsh, tr, t, o, k - 1);
      var s := tr[k - 1];
      assert AttemptOk(s, t);
      ActionAdvances(lsh, s.d, s.index[s.running[t].proc], t, s.queue[t], s.running[t].pc, o);
    }
  }

  lemma CutIsSafe(lsh: Lsh, s: State, t: TaskId, e: Event, d: Durable)
    requires Inv(s) && Cuts(lsh, s, t, e, d)
    ensures ClaimsOk(d) && BooksOk(d)
  {
    StepKeepsInv(lsh, s, e);
  }

  lemma DoneIsServed(s: State, t: TaskId)
    requires AttemptOk(s, t) && s.running[t].pc.Done?
    ensures s.running[t].pc.book in s.d.books && (s.queue[t].user, s.running[t].pc.book) in s.d.library
  {
  }

  lemma PathIsSafe(lsh: Lsh, tr: seq<State>, t: TaskId, o: Oracle, cut: Option<Event>, f: Final)
    requires Refines(lsh, t, o, tr, cut, f) && Inv(tr[0]) && t in tr[0].running
    ensures ClaimsOk(f.d) && BooksOk(f.d)
    ensures f.result.None? ==> cut.Some?
    ensures f.result.Some? ==> t in tr[0].queue && f.result.value.book in f.d.books
                               && (tr[0].queue[t].user, f.result.value.book) in f.d.library
  {
    PathGoesOn(lsh, tr, t, o);
    PathKeepsInv(lsh, tr, t, o, |tr| - 1);
    PathKeepsQueue(lsh, tr, t, o, |tr| - 1);
    if cut.Some? {
      CutIsSafe(lsh, Last(tr), t, cut.value, f.d);
    } else {
      assert AttemptOk(Last(tr), t);
      DoneIsServed(Last(tr), t);
    }
  }

  /** Some call of the attempt raised. */
  ghost predicate AnyRaises(raises: Raises) {
    exists pc :: CallsOut(pc) && raises(pc)
  }

  /**
   From any state the invariant allows, the worker's code leaves claims and books consistent wherever it
   stops, and it fails only if a call raised: never by an integrity error of its own.
  */
  lemma AttemptIsSafe(lsh: Lsh, c: State, t: TaskId, m: Message, o: Oracle, raises: Raises, flushed: nat,
                      d: Durable, index: map<BookId, Signature>, a: Attempt)
    requires t in c.queue && c.queue[t] == m && a.pc.Lookup?
    requires o.drawn !in d.minted && OracleOk(lsh, d, index, m, Lookup, o)
    requires Inv(Snap(c, t, d, index, a))
    ensures var f := Attempted(t, m, o, raises, flushed, d, index, Lookup);
            && ClaimsOk(f.d) && BooksOk(f.d)
            && (f.result.None? ==> AnyRaises(raises))
            && (f.result.Some? ==> f.result.value.book in f.d.books && (m.user, f.result.value.book) in f.d.library)
  {
    var tr, cut := AttemptIsPath(lsh, c, t, m, o, raises, flushed, d, index, a);
    PathIsSafe(lsh, tr, t, o, cut, Attempted(t, m, o, raises, flushed, d, index, Lookup));
  }

  lemma {:induction false} PathKeepsQueue(lsh: Lsh, tr: seq<State>, t: TaskId, o: Oracle, k: nat)
    requires Path(lsh, tr, t, o) && k < |tr|
    ensures tr[k].queue == tr[0].queue
  {
    if k > 0 {
      PathKeepsQueue(lsh, tr, t, o, k - 1);
      assert PathStep(lsh, tr, t, o, k - 1);
    }
  }
}
