/** The invariant of the ingest protocol, kept by every step. */
module IngestInvariant {
  import opened Common
  import opened IngestProtocol

  // ----- durable state ----------------------------------------------------------

  ghost predicate ClaimsOk(d: Durable) {
    && (forall t :: t in d.tasks && d.tasks[t].Some? ==>
          d.tasks[t].value in d.minted && d.minted[d.tasks[t].value] == t)
    && (forall b :: b in d.minted && d.minted[b] in d.tasks && (b in d.books || VectorsOf(d, b) != multiset{}) ==>
          d.tasks[d.minted[b]] == Some(b))
  }

  ghost predicate BooksOk(d: Durable) {
    && d.books.Keys <= d.minted.Keys
    && d.vectors.Keys <= d.minted.Keys
    && (forall b :: b in d.books ==> VectorsOf(d, b) == multiset(Rows(d.books[b].chunks)))
    && (forall b :: b in d.books && d.books[b].pointer.Some? ==>
          d.books[b].pointer.value in d.objects && d.books[b].pointer.value.book == b)
    && (forall u, b :: (u, b) in d.library ==> b in d.books)
  }

  ghost predicate IndexOk(d: Durable, index: map<BookId, Signature>) {
    forall b :: b in index ==> b in d.books && index[b] == d.books[b].signature
  }

  // ----- one attempt ----------------------------------------------------------------

  /** The attempt of `t` owns the uncommitted book id `b`, and its claim is recorded if it has a row. */
  ghost predicate Owns(d: Durable, t: TaskId, b: BookId) {
    && b in d.minted && d.minted[b] == t && b !in d.books
    && (t in d.tasks ==> d.tasks[t] == Some(b))
  }

  ghost predicate PointerOk(d: Durable, b: BookId, pointer: Option<Key>) {
    pointer.Some? ==> pointer.value in d.objects && pointer.value.book == b
  }

  ghost predicate Landed(d: Durable, t: TaskId, m: Message, b: BookId, rows: nat) {
    && b in d.books && |d.books[b].chunks| == rows && d.books[b].signature == m.signature
    && b in d.minted && d.minted[b] == t
    && (t in d.tasks ==> d.tasks[t] == Some(b))
  }

  ghost predicate PcOk(d: Durable, index: map<BookId, Signature>, t: TaskId, m: Message, pc: Pc) {
    match pc
    case Lookup => true
    case DupLibrary(b) => b in d.books
    case DupReadPointer(b) => b in d.books && (m.user, b) in d.library
    case DupPutOriginal(b) => b in d.books && (m.user, b) in d.library
    case DupSetPointer(b, key) => b in d.books && (m.user, b) in d.library && key in d.objects && key.book == b
    case ReadClaim => true
    case CheckCommitted(b) => t in d.tasks && d.tasks[t] == Some(b)
    case ConvergeLibrary(b) => t in d.tasks && d.tasks[t] == Some(b) && b in d.books
    case Scrub(b) => t in d.tasks && Owns(d, t, b)
    case Mint => t in d.tasks ==> d.tasks[t].None?
    case RecordClaim(b) =>
      && b in d.minted && d.minted[b] == t && b !in d.books && VectorsOf(d, b) == multiset{}
      && (t in d.tasks ==> d.tasks[t].None?)
    case PutOriginal(b) => Owns(d, t, b) && VectorsOf(d, b) == multiset{}
    case ChunkText(b, pointer) => Owns(d, t, b) && VectorsOf(d, b) == multiset{} && PointerOk(d, b, pointer)
    case InsertVectors(b, pointer, chunks) => Owns(d, t, b) && VectorsOf(d, b) == multiset{} && PointerOk(d, b, pointer)
    case CommitBook(b, pointer, chunks) =>
      Owns(d, t, b) && VectorsOf(d, b) == multiset(Rows(chunks)) && PointerOk(d, b, pointer)
    case AddLibrary(b, rows) => Landed(d, t, m, b, rows) && b !in index
    case AddIndex(b, rows) => Landed(d, t, m, b, rows) && b !in index && (m.user, b) in d.library
    case Done(b, wasDuplicate, rows) =>
      && b in d.books && (m.user, b) in d.library
      && (!wasDuplicate ==> Landed(d, t, m, b, rows))
  }

  /** The history bits tell whether vectors of an API task are orphaned when its attempt ends. */
  ghost predicate HistoryOk(d: Durable, t: TaskId, a: Attempt) {
    match a.pc
    case Lookup => true
    case DupLibrary(_) => a.hit && (Orphaned(d, t) <==> a.debt)
    case DupReadPointer(_) => a.hit && (Orphaned(d, t) <==> a.debt)
    case DupPutOriginal(_) => a.hit && (Orphaned(d, t) <==> a.debt)
    case DupSetPointer(_, _) => a.hit && (Orphaned(d, t) <==> a.debt)
    case Done(_, _, _) =>
      if a.hit then Orphaned(d, t) <==> a.debt else t in d.tasks ==> !Orphaned(d, t)
    case _ => !a.hit
  }

  ghost predicate AttemptOk(s: State, t: TaskId) {
    && t in s.running && t in s.queue
    && (s.running[t].pc.Lookup? || s.running[t].proc in s.index)
    && PcOk(s.d, IndexOf(s, s.running[t].proc), t, s.queue[t], s.running[t].pc)
    && HistoryOk(s.d, t, s.running[t])
  }

  ghost function IndexOf(s: State, p: ProcId): map<BookId, Signature> {
    if p in s.index then s.index[p] else map[]
  }

  ghost predicate Inv(s: State) {
    && ClaimsOk(s.d) && BooksOk(s.d)
    && (forall b :: b in s.d.minted ==> s.d.minted[b] in s.queue)
    && (forall t :: t in s.queue ==> (s.queue[t].fromApi <==> t in s.d.tasks))
    && (forall p :: p in s.index ==> IndexOk(s.d, s.index[p]))
    && (forall t :: t in s.running ==> AttemptOk(s, t))
  }

  // ----- what an action of `t` leaves alone -------------------------------------------

  /** Everything another task relies on: only book ids minted by `t` are touched, the rest only grows. */
  ghost predicate Frame(d: Durable, e: Durable, t: TaskId) {
    && (forall b :: b in d.minted ==> b in e.minted && e.minted[b] == d.minted[b])
    && (forall b :: b in e.minted && b !in d.minted ==> e.minted[b] == t && VectorsOf(e, b) == multiset{} && b !in e.books)
    && (forall b :: b in d.books ==> b in e.books && e.books[b].signature == d.books[b].signature
                                     && e.books[b].chunks == d.books[b].chunks)
    && (forall b :: b in e.books && b !in d.books ==> b in d.minted && d.minted[b] == t)
    && (forall b :: b in d.minted && d.minted[b] != t ==> VectorsOf(e, b) == VectorsOf(d, b))
    && e.tasks.Keys == d.tasks.Keys
    && (forall u :: u in d.tasks && u != t ==> e.tasks[u] == d.tasks[u])
    && d.objects <= e.objects && d.library <= e.library
  }

  lemma OrphanFrame(d: Durable, e: Durable, t: TaskId, u: TaskId)
    requires Frame(d, e, t) && u != t
    requires BooksOk(d)
    ensures Orphaned(e, u) <==> Orphaned(d, u)
  {
    if Orphaned(d, u) {
      var b :| b in d.minted && d.minted[b] == u && b !in d.books && VectorsOf(d, b) != multiset{};
      assert b in e.minted && e.minted[b] == u && b !in e.books && VectorsOf(e, b) != multiset{};
    }
    if Orphaned(e, u) {
      var b :| b in e.minted && e.minted[b] == u && b !in e.books && VectorsOf(e, b) != multiset{};
      assert b in d.minted && d.minted[b] == u && b !in d.books && VectorsOf(d, b) != multiset{};
    }
  }

  /** An action of `t` keeps the assertion of every other running attempt. */
  lemma OtherAttemptKept(d: Durable, e: Durable, i: map<BookId, Signature>, j: map<BookId, Signature>,
                         t: TaskId, u: TaskId, m: Message, pc: Pc)
    requires Frame(d, e, t) && u != t && BooksOk(d)
    requires PcOk(d, i, u, m, pc)
    requires forall b :: b in j && b !in i ==> b in d.minted && d.minted[b] == t
    ensures PcOk(e, j, u, m, pc)
  {
  }

  // ----- the acting attempt and the durable state ----------------------------------

  ghost predicate IndexGrowth(d: Durable, i: map<BookId, Signature>, j: map<BookId, Signature>, t: TaskId) {
    forall b :: b in j && b !in i ==> b in d.minted && d.minted[b] == t
  }

  /** What one durable write by an attempt of `t` must establish. */
  ghost predicate WriteOk(d: Durable, e: Durable, t: TaskId) {
    Frame(d, e, t) && ClaimsOk(e) && BooksOk(e)
  }

  lemma NoWrite(d: Durable, t: TaskId)
    requires ClaimsOk(d) && BooksOk(d)
    ensures WriteOk(d, d, t)
  {
  }

  lemma LibraryWrite(d: Durable, t: TaskId, u: UserId, b: BookId)
    requires ClaimsOk(d) && BooksOk(d) && b in d.books
    ensures WriteOk(d, LibraryUpserted(d, u, b), t)
  {
  }

  lemma ObjectWrite(d: Durable, t: TaskId, key: Key)
    requires ClaimsOk(d) && BooksOk(d)
    ensures WriteOk(d, OriginalPut(d, key), t)
  {
    var e := OriginalPut(d, key);
    assert forall b :: VectorsOf(e, b) == VectorsOf(d, b);
  }

  lemma PointerWrite(d: Durable, t: TaskId, b: BookId, key: Key)
    requires ClaimsOk(d) && BooksOk(d) && key in d.objects && key.book == b
    ensures WriteOk(d, PointerSet(d, b, key), t)
  {
    if b in d.books && d.books[b].pointer.None? {
      var e := d.(books := d.books[b := d.books[b].(pointer := Some(key))]);
      assert forall c :: VectorsOf(e, c) == VectorsOf(d, c);
      assert e.books.Keys == d.books.Keys;
      forall c | c in e.books
        ensures e.books[c].signature == d.books[c].signature && e.books[c].chunks == d.books[c].chunks
        ensures e.books[c].pointer.Some? ==> e.books[c].pointer.value in e.objects && e.books[c].pointer.value.book == c
      {
      }
      assert BooksOk(e) by {
        forall c | c in e.books ensures VectorsOf(e, c) == multiset(Rows(e.books[c].chunks)) {
          assert VectorsOf(d, c) == multiset(Rows(d.books[c].chunks));
        }
      }
      assert ClaimsOk(e);
      assert Frame(d, e, t);
    } else {
      NoWrite(d, t);
    }
  }

  lemma ScrubWrite(d: Durable, t: TaskId, b: BookId)
    requires ClaimsOk(d) && BooksOk(d) && Owns(d, t, b)
    ensures WriteOk(d, Scrubbed(d, b), t)
  {
    var e := Scrubbed(d, b);
    assert forall c :: c != b ==> VectorsOf(e, c) == VectorsOf(d, c);
  }

  lemma MintWrite(d: Durable, t: TaskId, b: BookId)
    requires ClaimsOk(d) && BooksOk(d) && b !in d.minted
    ensures WriteOk(d, d.(minted := d.minted[b := t]), t)
  {
    var e := d.(minted := d.minted[b := t]);
    assert forall c :: VectorsOf(e, c) == VectorsOf(d, c);
    assert VectorsOf(d, b) == multiset{} && b !in d.books;
  }

  lemma ClaimWrite(d: Durable, t: TaskId, b: BookId)
    requires ClaimsOk(d) && BooksOk(d)
    requires b in d.minted && d.minted[b] == t && (t in d.tasks ==> d.tasks[t].None?)
    ensures WriteOk(d, ClaimRecorded(d, t, b), t)
  {
    if t in d.tasks {
      var e := d.(tasks := d.tasks[t := Some(b)]);
      assert forall c :: VectorsOf(e, c) == VectorsOf(d, c);
      assert BooksOk(e);
      assert ClaimsOk(e);
      assert Frame(d, e, t);
    } else {
      NoWrite(d, t);
    }
  }

  lemma VectorWrite(d: Durable, t: TaskId, b: BookId, rows: multiset<Row>)
    requires ClaimsOk(d) && BooksOk(d) && Owns(d, t, b)
    ensures WriteOk(d, RowsAdded(d, b, rows), t)
  {
    var e := RowsAdded(d, b, rows);
    assert forall c :: c != b ==> VectorsOf(e, c) == VectorsOf(d, c);
  }

  lemma BookWrite(d: Durable, t: TaskId, b: BookId, book: Book)
    requires ClaimsOk(d) && BooksOk(d) && Owns(d, t, b)
    requires VectorsOf(d, b) == multiset(Rows(book.chunks)) && PointerOk(d, b, book.pointer)
    ensures WriteOk(d, BookInserted(d, b, book), t)
  {
    var e := BookInserted(d, b, book);
    assert forall c :: VectorsOf(e, c) == VectorsOf(d, c);
  }

  /** Every action keeps the durable invariant and touches only what its task owns. */
  lemma ActionWrites(d: Durable, index: map<BookId, Signature>, t: TaskId, m: Message, pc: Pc, o: Oracle)
    requires ClaimsOk(d) && BooksOk(d) && PcOk(d, index, t, m, pc)
    requires pc.Mint? ==> o.drawn !in d.minted
    ensures WriteOk(d, Action(d, index, t, m, pc, o).d, t)
  {
    NoWrite(d, t);
    match pc
    case DupLibrary(b) => LibraryWrite(d, t, m.user, b);
    case DupPutOriginal(b) => ObjectWrite(d, t, Key(b, m.filename));
    case DupSetPointer(b, key) => PointerWrite(d, t, b, key);
    case ConvergeLibrary(b) => LibraryWrite(d, t, m.user, b);
    case Scrub(b) => ScrubWrite(d, t, b);
    case Mint => MintWrite(d, t, o.drawn);
    case RecordClaim(b) => ClaimWrite(d, t, b);
    case PutOriginal(b) => ObjectWrite(d, t, Key(b, m.filename));
    case InsertVectors(b, pointer, chunks) => VectorWrite(d, t, b, multiset(Rows(chunks)));
    case CommitBook(b, pointer, chunks) => BookWrite(d, t, b, Book(m.signature, pointer, chunks));
    case AddLibrary(b, rows) => LibraryWrite(d, t, m.user, b);
    case _ =>
  }

  lemma IndexFrame(d: Durable, e: Durable, t: TaskId, index: map<BookId, Signature>)
    requires Frame(d, e, t) && IndexOk(d, index)
    ensures IndexOk(e, index)
  {
  }

  lemma ActionKeepsIndex(d: Durable, index: map<BookId, Signature>, t: TaskId, m: Message, pc: Pc, o: Oracle)
    requires PcOk(d, index, t, m, pc) && IndexOk(d, index)
    requires Frame(d, Action(d, index, t, m, pc, o).d, t)
    ensures IndexOk(Action(d, index, t, m, pc, o).d, Action(d, index, t, m, pc, o).index)
    ensures IndexGrowth(d, index, Action(d, index, t, m, pc, o).index, t)
  {
    if !pc.AddIndex? {
      assert Action(d, index, t, m, pc, o).index == index;
      IndexFrame(d, Action(d, index, t, m, pc, o).d, t, index);
    }
  }

  ghost predicate Advances(d: Durable, index: map<BookId, Signature>, t: TaskId, m: Message, pc: Pc, o: Oracle) {
    var r := Action(d, index, t, m, pc, o);
    r.pc.Some? && PcOk(r.d, r.index, t, m, r.pc.value)
  }

  ghost predicate OnDuplicatePath(pc: Pc) {
    pc.Lookup? || pc.DupLibrary? || pc.DupReadPointer? || pc.DupPutOriginal? || pc.DupSetPointer?
  }

  ghost predicate OnClaimPath(pc: Pc) {
    pc.ReadClaim? || pc.CheckCommitted? || pc.ConvergeLibrary? || pc.Scrub? || pc.Mint? || pc.RecordClaim?
  }

  lemma DuplicatePathAdvances(lsh: Lsh, d: Durable, index: map<BookId, Signature>, t: TaskId, m: Message, pc: Pc, o: Oracle)
    requires IndexOk(d, index) && PcOk(d, index, t, m, pc) && OracleOk(lsh, d, index, m, pc, o)
    requires OnDuplicatePath(pc)
    ensures Advances(d, index, t, m, pc, o)
  {
  }

  lemma ClaimPathAdvances(lsh: Lsh, d: Durable, index: map<BookId, Signature>, t: TaskId, m: Message, pc: Pc, o: Oracle)
    requires ClaimsOk(d) && d.books.Keys <= d.minted.Keys && d.vectors.Keys <= d.minted.Keys
    requires PcOk(d, index, t, m, pc) && OracleOk(lsh, d, index, m, pc, o)
    requires OnClaimPath(pc)
    ensures Advances(d, index, t, m, pc, o)
  {
    var e := Action(d, index, t, m, pc, o).d;
    match pc
    case CheckCommitted(b) => assert b in d.minted && d.minted[b] == t;
    case Mint => assert VectorsOf(e, o.drawn) == multiset{};
    case RecordClaim(b) => assert VectorsOf(e, b) == VectorsOf(d, b);
    case _ =>
  }

  lemma NewBookPathAdvances(d: Durable, index: map<BookId, Signature>, t: TaskId, m: Message, pc: Pc, o: Oracle)
    requires IndexOk(d, index) && PcOk(d, index, t, m, pc) && !pc.Done?
    requires !OnDuplicatePath(pc) && !OnClaimPath(pc)
    ensures Advances(d, index, t, m, pc, o)
  {
    var e := Action(d, index, t, m, pc, o).d;
    match pc
    case PutOriginal(b) => assert VectorsOf(e, b) == VectorsOf(d, b);
    case ChunkText(b, pointer) => assert Rows([]) == [];
    case InsertVectors(b, pointer, chunks) => assert VectorsOf(e, b) == multiset{} + multiset(Rows(chunks));
    case CommitBook(b, pointer, chunks) => assert b !in index;
    case _ =>
  }

  /** The acting attempt never meets a primary-key, foreign-key or duplicate-key failure, and reaches its next assertion. */
  lemma ActionAdvances(lsh: Lsh, d: Durable, index: map<BookId, Signature>, t: TaskId, m: Message, pc: Pc, o: Oracle)
    requires ClaimsOk(d) && BooksOk(d) && IndexOk(d, index) && PcOk(d, index, t, m, pc) && !pc.Done?
    requires OracleOk(lsh, d, index, m, pc, o)
    ensures Advances(d, index, t, m, pc, o)
  {
    if OnDuplicatePath(pc) {
      DuplicatePathAdvances(lsh, d, index, t, m, pc, o);
    } else if OnClaimPath(pc) {
      ClaimPathAdvances(lsh, d, index, t, m, pc, o);
    } else {
      NewBookPathAdvances(d, index, t, m, pc, o);
    }
  }

  lemma CommittedClaimLeavesNoOrphan(d: Durable, t: TaskId, b: BookId)
    requires ClaimsOk(d) && t in d.tasks && d.tasks[t] == Some(b) && b in d.books
    ensures !Orphaned(d, t)
  {
  }

  /** Actions on the duplicate path leave the task's own vectors and book ids as they are. */
  lemma DuplicatePathKeepsOrphans(d: Durable, index: map<BookId, Signature>, t: TaskId, m: Message, pc: Pc, o: Oracle)
    requires OnDuplicatePath(pc)
    ensures Orphaned(Action(d, index, t, m, pc, o).d, t) <==> Orphaned(d, t)
  {
    var e := Action(d, index, t, m, pc, o).d;
    assert e.minted == d.minted && e.books.Keys == d.books.Keys && e.vectors == d.vectors;
    assert forall b :: VectorsOf(e, b) == VectorsOf(d, b);
    if Orphaned(d, t) {
      var b :| b in d.minted && d.minted[b] == t && b !in d.books && VectorsOf(d, b) != multiset{};
      assert b in e.minted && e.minted[b] == t && b !in e.books && VectorsOf(e, b) != multiset{};
    }
  }

  ghost predicate HistoryAdvances(d: Durable, index: map<BookId, Signature>, t: TaskId, m: Message, a: Attempt, o: Oracle) {
    var r := Action(d, index, t, m, a.pc, o);
    r.pc.Some? ==> HistoryOk(r.d, t, Advanced(d, t, a, r.pc.value))
  }

  lemma LaterPathKeepsHistory(d: Durable, index: map<BookId, Signature>, t: TaskId, m: Message, a: Attempt, o: Oracle)
    requires HistoryOk(d, t, a) && !a.pc.Done? && !OnDuplicatePath(a.pc)
    requires (a.pc.AddIndex? || a.pc.ConvergeLibrary?) && t in d.tasks ==> !Orphaned(Action(d, index, t, m, a.pc, o).d, t)
    ensures HistoryAdvances(d, index, t, m, a, o)
  {
    LaterPathShape(d, index, t, m, a.pc, o);
  }

  /** Past the lookup's miss an attempt stays off the duplicate path, and ends only by AddIndex or ConvergeLibrary. */
  lemma LaterPathShape(d: Durable, index: map<BookId, Signature>, t: TaskId, m: Message, pc: Pc, o: Oracle)
    requires !pc.Done? && !OnDuplicatePath(pc)
    ensures var r := Action(d, index, t, m, pc, o);
      && r.d.tasks.Keys == d.tasks.Keys
      && (r.pc.Some? ==> !OnDuplicatePath(r.pc.value))
      && (r.pc.Some? && r.pc.value.Done? ==> pc.AddIndex? || pc.ConvergeLibrary?)
  {
    ActionKeepsTaskRows(d, index, t, m, pc, o);
    if OnClaimPath(pc) {
      ClaimPathShape(d, index, t, m, pc, o);
    }
  }

  lemma ClaimPathShape(d: Durable, index: map<BookId, Signature>, t: TaskId, m: Message, pc: Pc, o: Oracle)
    requires OnClaimPath(pc)
    ensures var r := Action(d, index, t, m, pc, o);
      r.pc.Some? ==> !OnDuplicatePath(r.pc.value) && (r.pc.value.Done? ==> pc.ConvergeLibrary?)
  {
  }

  lemma ActionKeepsTaskRows(d: Durable, index: map<BookId, Signature>, t: TaskId, m: Message, pc: Pc, o: Oracle)
    ensures Action(d, index, t, m, pc, o).d.tasks.Keys == d.tasks.Keys
  {
  }

  lemma ActionKeepsHistory(d: Durable, index: map<BookId, Signature>, t: TaskId, m: Message, a: Attempt, o: Oracle)
    requires PcOk(d, index, t, m, a.pc) && HistoryOk(d, t, a) && !a.pc.Done?
    requires ClaimsOk(Action(d, index, t, m, a.pc, o).d)
    ensures HistoryAdvances(d, index, t, m, a, o)
  {
    if OnDuplicatePath(a.pc) {
      DuplicatePathKeepsOrphans(d, index, t, m, a.pc, o);
    } else {
      if t in d.tasks && (a.pc.AddIndex? || a.pc.ConvergeLibrary?) {
        CommittedClaimLeavesNoOrphan(Action(d, index, t, m, a.pc, o).d, t, a.pc.book);
      }
      LaterPathKeepsHistory(d, index, t, m, a, o);
    }
  }

  // ----- one step of the system ---------------------------------------------------

  /** The shape of a step in which `t` acts, without the details of the action. */
  ghost predicate Acted(s: State, n: State, t: TaskId) {
    && n.running.Keys <= s.running.Keys && n.queue == s.queue
    && n.index.Keys == s.index.Keys
    && (forall u :: u in s.running && u != t ==> u in n.running && n.running[u] == s.running[u])
    && (forall p :: p in s.index ==> IndexGrowth(s.d, s.index[p], n.index[p], t))
  }

  lemma OtherAttemptStep(s: State, n: State, t: TaskId, u: TaskId)
    requires BooksOk(s.d) && AttemptOk(s, u) && u != t && Frame(s.d, n.d, t) && Acted(s, n, t)
    ensures AttemptOk(n, u)
  {
    var b := s.running[u];
    OtherAttemptKept(s.d, n.d, IndexOf(s, b.proc), IndexOf(n, b.proc), t, u, s.queue[u], b.pc);
    OrphanFrame(s.d, n.d, t, u);
  }

  lemma ActedKeepsInv(s: State, n: State, t: TaskId)
    requires Inv(s) && t in s.running && Acted(s, n, t) && WriteOk(s.d, n.d, t)
    requires t in n.running ==> AttemptOk(n, t)
    requires forall p :: p in n.index ==> IndexOk(n.d, n.index[p])
    ensures Inv(n)
  {
    assert t in s.queue by { assert AttemptOk(s, t); }
    forall u | u in n.running ensures AttemptOk(n, u) {
      if u != t {
        OtherAttemptStep(s, n, t, u);
      }
    }
  }

  lemma ActKeepsInv(lsh: Lsh, s: State, t: TaskId, o: Oracle)
    requires Inv(s) && Enabled(lsh, s, Act(t, o))
    ensures Inv(Step(lsh, s, Act(t, o)))
  {
    var n := Step(lsh, s, Act(t, o));
    var a, m := s.running[t], s.queue[t];
    var i := s.index[a.proc];
    assert AttemptOk(s, t);
    var r := Action(s.d, i, t, m, a.pc, o);
    ActionWrites(s.d, i, t, m, a.pc, o);
    ActionAdvances(lsh, s.d, i, t, m, a.pc, o);
    ActionKeepsHistory(s.d, i, t, m, a, o);
    ActionKeepsIndex(s.d, i, t, m, a.pc, o);
    AssembleAct(s, n, t, m, r, Advanced(s.d, t, a, r.pc.value));
  }

  lemma AssembleAct(s: State, n: State, t: TaskId, m: Message, r: Outcome, a: Attempt)
    requires Inv(s) && t in s.running && t in s.queue && s.queue[t] == m
    requires a.proc == s.running[t].proc && a.proc in s.index
    requires n == State(r.d, s.queue, s.running[t := a], s.index[a.proc := r.index])
    requires WriteOk(s.d, r.d, t) && IndexOk(r.d, r.index) && IndexGrowth(s.d, s.index[a.proc], r.index, t)
    requires PcOk(r.d, r.index, t, m, a.pc) && HistoryOk(r.d, t, a)
    ensures Inv(n)
  {
    forall p | p in n.index ensures IndexOk(n.d, n.index[p]) {
      if p != a.proc {
        IndexFrame(s.d, n.d, t, s.index[p]);
      }
    }
    ActedKeepsInv(s, n, t);
  }

  /** An insert cut short leaves rows under the book the attempt owns, and the attempt is over. */
  lemma TornKeepsInv(lsh: Lsh, s: State, t: TaskId, rows: multiset<Row>)
    requires Inv(s) && Enabled(lsh, s, TornInsert(t, rows))
    ensures Inv(Step(lsh, s, TornInsert(t, rows)))
  {
    var b := s.running[t].pc.book;
    assert AttemptOk(s, t);
    VectorWrite(s.d, t, b, rows);
    var n := Torn(s, t, b, rows);
    forall p | p in n.index ensures IndexOk(n.d, n.index[p]) {
      IndexFrame(s.d, n.d, t, s.index[p]);
    }
    ActedKeepsInv(s, n, t);
  }

  /** Steps that write nothing durable and let no attempt act. */
  lemma AttemptUnmoved(s: State, n: State, u: TaskId)
    requires AttemptOk(s, u) && n.d == s.d
    requires u in n.running && n.running[u] == s.running[u] && u in n.queue && n.queue[u] == s.queue[u]
    requires s.running[u].proc in s.index ==>
               s.running[u].proc in n.index && n.index[s.running[u].proc] == s.index[s.running[u].proc]
    ensures AttemptOk(n, u)
  {
  }

  lemma UploadRowKeepsInv(lsh: Lsh, s: State, t: TaskId)
    requires Inv(s) && Enabled(lsh, s, UploadRow(t))
    ensures Inv(Step(lsh, s, UploadRow(t)))
  {
    var n := Step(lsh, s, UploadRow(t));
    assert forall b :: VectorsOf(n.d, b) == VectorsOf(s.d, b);
    forall u | u in n.running ensures AttemptOk(n, u) {
      assert AttemptOk(s, u) && u != t;
      assert Orphaned(n.d, u) <==> Orphaned(s.d, u);
    }
  }

  lemma StepKeepsInv(lsh: Lsh, s: State, e: Event)
    requires Inv(s) && Enabled(lsh, s, e)
    ensures Inv(Step(lsh, s, e))
  {
    var n := Step(lsh, s, e);
    match e
    case UploadRow(t) => UploadRowKeepsInv(lsh, s, t);
    case Act(t, o) => ActKeepsInv(lsh, s, t, o);
    case TornInsert(t, rows) => TornKeepsInv(lsh, s, t, rows);
    case _ => QuietStepKeepsInv(lsh, s, e);
  }

  lemma MessageKeepsInv(s: State, t: TaskId, m: Message)
    requires Inv(s) && t !in s.queue && (m.fromApi <==> t in s.d.tasks)
    ensures Inv(s.(queue := s.queue[t := m]))
  {
    var n := s.(queue := s.queue[t := m]);
    forall u | u in n.running ensures AttemptOk(n, u) { assert AttemptOk(s, u); AttemptUnmoved(s, n, u); }
  }

  lemma LoadKeepsInv(s: State, p: ProcId)
    requires Inv(s) && p !in s.index
    ensures Inv(s.(index := s.index[p := Signatures(s.d)]))
  {
    var n := s.(index := s.index[p := Signatures(s.d)]);
    forall u | u in n.running ensures AttemptOk(n, u) { assert AttemptOk(s, u); AttemptUnmoved(s, n, u); }
  }

  /** Deliver, Return, Fail and Crash: attempts appear at the lookup or disappear. */
  lemma AttemptsKeepInv(s: State, n: State)
    requires Inv(s) && n.d == s.d && n.queue == s.queue
    requires forall p :: p in n.index ==> p in s.index && n.index[p] == s.index[p]
    requires forall u :: u in n.running ==>
               if u in s.running
               then n.running[u] == s.running[u] && (s.running[u].proc in s.index ==> s.running[u].proc in n.index)
               else u in s.queue && n.running[u].pc.Lookup?
    ensures Inv(n)
  {
    forall u | u in n.running ensures AttemptOk(n, u) {
      if u in s.running { assert AttemptOk(s, u); AttemptUnmoved(s, n, u); }
    }
  }

  /** Every event but UploadRow, Act and TornInsert leaves the durable state alone. */
  lemma QuietStepKeepsInv(lsh: Lsh, s: State, e: Event)
    requires Inv(s) && Enabled(lsh, s, e) && !e.UploadRow? && !e.Act? && !e.TornInsert?
    ensures Inv(Step(lsh, s, e))
  {
    if e.UploadSend? || e.ManualSend? {
      MessageKeepsInv(s, e.task, e.message);
    } else if e.LoadIndex? {
      LoadKeepsInv(s, e.proc);
    } else {
      AttemptsKeepInv(s, Step(lsh, s, e));
    }
  }

  lemma {:induction false} RunKeepsInv(lsh: Lsh, ss: seq<State>, es: seq<Event>, i: nat)
    requires Run(lsh, ss, es) && i < |ss|
    ensures Inv(ss[i])
  {
    if i > 0 {
      RunKeepsInv(lsh, ss, es, i - 1);
      assert StepAt(lsh, ss, es, i - 1);
      StepKeepsInv(lsh, ss[i - 1], es[i - 1]);
    }
  }
}
