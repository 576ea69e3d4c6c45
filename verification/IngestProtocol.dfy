/**
 The crash and redelivery protocol of one book ingest (worker/ingest.py,
 worker/dedup.py, api/uploads.py), as a step system.

 What survives a crash is `Durable`: Postgres, Milvus and MinIO.  What a crash
 loses is the running attempts and the per-process duplicate index.  Every
 durable write of the source is a step of its own, so a crash may fall between
 any two of them, and attempts of different tasks interleave freely.  The Milvus
 insert alone is not atomic: an attempt may end with any part of it flushed.
*/
module IngestProtocol {
  import opened Common

  type TaskId = int
  type BookId = int
  type ProcId = int
  type UserId = int
  type Signature = seq<int>  // MinHash hash values

  /** Whether two signatures share an LSH bucket; the MinHash mathematics is not modelled. */
  type Lsh = (Signature, Signature) -> bool

  /** `originals/{book_id}/{sanitized filename}` */
  datatype Key = Key(book: BookId, name: string)

  /** A `global_books` row with its `chunks` rows, which share one transaction. */
  datatype Book = Book(signature: Signature, pointer: Option<Key>, chunks: seq<string>)

  /** A Milvus row of one book. */
  datatype Row = Row(index: nat, text: string)

  /** The task message.  `fromApi` says that POST /upload sent it. */
  datatype Message = Message(user: UserId, filename: string, signature: Signature,
                             hasOriginal: bool, fromApi: bool)

  /**
   `tasks` is upload_tasks (task id to the recorded claim).  `minted` is a history
   variable: which task's attempt drew a book id from uuid4.
  */
  datatype Durable = Durable(
    tasks: map<TaskId, Option<BookId>>,
    books: map<BookId, Book>,
    objects: set<Key>,
    vectors: map<BookId, multiset<Row>>,
    library: set<(UserId, BookId)>,
    minted: map<BookId, TaskId>)

  /** The next action of an attempt, with the local variables it still needs. */
  datatype Pc =
    | Lookup
    | DupLibrary(book: BookId)
    | DupReadPointer(book: BookId)
    | DupPutOriginal(book: BookId)
    | DupSetPointer(book: BookId, key: Key)
    | ReadClaim
    | CheckCommitted(book: BookId)
    | ConvergeLibrary(book: BookId)
    | Scrub(book: BookId)
    | Mint
    | RecordClaim(book: BookId)
    | PutOriginal(book: BookId)
    | ChunkText(book: BookId, pointer: Option<Key>)
    | InsertVectors(book: BookId, pointer: Option<Key>, chunks: seq<string>)
    | CommitBook(book: BookId, pointer: Option<Key>, chunks: seq<string>)
    | AddLibrary(book: BookId, rows: nat)
    | AddIndex(book: BookId, rows: nat)
    | Done(book: BookId, wasDuplicate: bool, rows: nat)

  /**
   `hit` and `debt` are history: did the duplicate lookup match, and did the task
   already have vectors under an uncommitted book when it looked?
  */
  datatype Attempt = Attempt(proc: ProcId, pc: Pc, hit: bool, debt: bool)

  /** `index` holds the loaded duplicate index of each process; absent means not loaded yet. */
  datatype State = State(
    d: Durable,
    queue: map<TaskId, Message>,
    running: map<TaskId, Attempt>,
    index: map<ProcId, map<BookId, Signature>>)

  /** The answers an attempt gets from outside: LSH candidate, uuid4, and the chunker. */
  datatype Oracle = Oracle(found: Option<BookId>, drawn: BookId, chunks: seq<string>)

  datatype Event =
    | UploadRow(task: TaskId)
    | UploadSend(task: TaskId, message: Message)
    | ManualSend(task: TaskId, message: Message)
    | Deliver(task: TaskId, proc: ProcId)
    | LoadIndex(proc: ProcId)
    | Act(task: TaskId, oracle: Oracle)
    | Return(task: TaskId)
    | Fail(task: TaskId)
    | TornInsert(task: TaskId, rows: multiset<Row>)
    | Crash(proc: ProcId)

  // ----- durable operations ---------------------------------------------------

  function Rows(chunks: seq<string>): seq<Row> {
    seq(|chunks|, i requires 0 <= i < |chunks| => Row(i, chunks[i]))
  }

  function VectorsOf(d: Durable, b: BookId): multiset<Row> {
    if b in d.vectors then d.vectors[b] else multiset{}
  }

  function ReadClaimOf(d: Durable, t: TaskId): Option<BookId> {
    if t in d.tasks then d.tasks[t] else None
  }

  /** UPDATE ... WHERE task_id = t AND book_id IS NULL */
  function ClaimRecorded(d: Durable, t: TaskId, b: BookId): Durable {
    if t in d.tasks && d.tasks[t].None? then d.(tasks := d.tasks[t := Some(b)]) else d
  }

  function Scrubbed(d: Durable, b: BookId): Durable {
    d.(vectors := d.vectors - {b})
  }

  function RowsAdded(d: Durable, b: BookId, rows: multiset<Row>): Durable {
    d.(vectors := d.vectors[b := VectorsOf(d, b) + rows])
  }

  function VectorsInserted(d: Durable, b: BookId, chunks: seq<string>): Durable {
    RowsAdded(d, b, multiset(Rows(chunks)))
  }

  function OriginalPut(d: Durable, key: Key): Durable {
    d.(objects := d.objects + {key})
  }

  /** UPDATE ... WHERE book_id = b AND text_pointer IS NULL */
  function PointerSet(d: Durable, b: BookId, key: Key): Durable {
    if b in d.books && d.books[b].pointer.None?
    then d.(books := d.books[b := d.books[b].(pointer := Some(key))])
    else d
  }

  function BookInserted(d: Durable, b: BookId, book: Book): Durable {
    d.(books := d.books[b := book])
  }

  function LibraryUpserted(d: Durable, u: UserId, b: BookId): Durable {
    d.(library := d.library + {(u, b)})
  }

  /** The task left vectors under a book that is not committed. */
  ghost predicate Orphaned(d: Durable, t: TaskId) {
    exists b :: b in d.minted && d.minted[b] == t && b !in d.books && VectorsOf(d, b) != multiset{}
  }

  // ----- one action of an attempt -----------------------------------------------

  /** Outcome of one action; `pc.None?` means the action raised. */
  datatype Outcome = Outcome(d: Durable, index: map<BookId, Signature>, pc: Option<Pc>)

  function Action(d: Durable, index: map<BookId, Signature>, t: TaskId, m: Message, pc: Pc, o: Oracle): Outcome
  {
    match pc
    case Lookup =>
      Outcome(d, index, Some(if o.found.Some? then DupLibrary(o.found.value) else ReadClaim))
    case DupLibrary(b) =>
      if b in d.books  // fk_user_library_book_id
      then Outcome(LibraryUpserted(d, m.user, b), index,
                   Some(if m.hasOriginal then DupReadPointer(b) else Done(b, true, 0)))
      else Outcome(d, index, None)
    case DupReadPointer(b) =>
      Outcome(d, index, Some(if b !in d.books || d.books[b].pointer.Some? then Done(b, true, 0) else DupPutOriginal(b)))
    case DupPutOriginal(b) =>
      Outcome(OriginalPut(d, Key(b, m.filename)), index, Some(DupSetPointer(b, Key(b, m.filename))))
    case DupSetPointer(b, key) =>
      Outcome(PointerSet(d, b, key), index, Some(Done(b, true, 0)))
    case ReadClaim =>
      Outcome(d, index, Some(match ReadClaimOf(d, t) case Some(b) => CheckCommitted(b) case None => Mint))
    case CheckCommitted(b) =>
      Outcome(d, index, Some(if b in d.books then ConvergeLibrary(b) else Scrub(b)))
    case ConvergeLibrary(b) =>
      if b in d.books
      then Outcome(LibraryUpserted(d, m.user, b), index, Some(Done(b, true, 0)))
      else Outcome(d, index, None)
    case Scrub(b) =>
      Outcome(Scrubbed(d, b), index, Some(PutOriginal(b)))
    case Mint =>
      Outcome(d.(minted := d.minted[o.drawn := t]), index, Some(RecordClaim(o.drawn)))
    case RecordClaim(b) =>
      Outcome(ClaimRecorded(d, t, b), index, Some(PutOriginal(b)))
    case PutOriginal(b) =>
      if m.hasOriginal
      then Outcome(OriginalPut(d, Key(b, m.filename)), index, Some(ChunkText(b, Some(Key(b, m.filename)))))
      else Outcome(d, index, Some(ChunkText(b, None)))
    case ChunkText(b, pointer) =>
      Outcome(d, index, Some(if o.chunks == [] then CommitBook(b, pointer, []) else InsertVectors(b, pointer, o.chunks)))
    case InsertVectors(b, pointer, chunks) =>
      Outcome(VectorsInserted(d, b, chunks), index, Some(CommitBook(b, pointer, chunks)))
    case CommitBook(b, pointer, chunks) =>
      if b !in d.books  // primary key
      then Outcome(BookInserted(d, b, Book(m.signature, pointer, chunks)), index, Some(AddLibrary(b, |chunks|)))
      else Outcome(d, index, None)
    case AddLibrary(b, rows) =>
      if b in d.books
      then Outcome(LibraryUpserted(d, m.user, b), index, Some(AddIndex(b, rows)))
      else Outcome(d, index, None)
    case AddIndex(b, rows) =>
      if b !in index  // MinHashLSH.insert refuses a key it already holds
      then Outcome(d, index[b := m.signature], Some(Done(b, false, rows)))
      else Outcome(d, index, None)
    case Done(_, _, _) => Outcome(d, index, Some(pc))
  }

  /** What the outside may answer: an LSH candidate of this index or a true miss, and a new uuid. */
  ghost predicate OracleOk(lsh: Lsh, d: Durable, index: map<BookId, Signature>, m: Message, pc: Pc, o: Oracle) {
    match pc
    case Lookup =>
      if o.found.Some?
      then o.found.value in index && lsh(index[o.found.value], m.signature)
      else forall b :: b in index ==> !lsh(index[b], m.signature)
    case Mint => o.drawn !in d.minted
    case _ => true
  }

  // ----- the step system ------------------------------------------------------

  function Signatures(d: Durable): map<BookId, Signature> {
    map b | b in d.books :: d.books[b].signature
  }

  ghost predicate Enabled(lsh: Lsh, s: State, e: Event) {
    match e
    case UploadRow(t) => t !in s.d.tasks && t !in s.queue
    case UploadSend(t, m) => t in s.d.tasks && t !in s.queue && m.fromApi
    case ManualSend(t, m) => t !in s.d.tasks && t !in s.queue && !m.fromApi
    case Deliver(t, p) => t in s.queue && t !in s.running
    case LoadIndex(p) => p !in s.index
    case Act(t, o) =>
      && t in s.queue && t in s.running && !s.running[t].pc.Done?
      && s.running[t].proc in s.index
      && OracleOk(lsh, s.d, s.index[s.running[t].proc], s.queue[t], s.running[t].pc, o)
    case Return(t) => t in s.running && s.running[t].pc.Done?
    case Fail(t) => t in s.running
    case TornInsert(t, rows) =>
      t in s.running && s.running[t].pc.InsertVectors? && rows <= multiset(Rows(s.running[t].pc.chunks))
    case Crash(p) => true
  }

  ghost function Step(lsh: Lsh, s: State, e: Event): State
    requires Enabled(lsh, s, e)
  {
    match e
    case UploadRow(t) => s.(d := s.d.(tasks := s.d.tasks[t := None]))
    case UploadSend(t, m) => s.(queue := s.queue[t := m])
    case ManualSend(t, m) => s.(queue := s.queue[t := m])
    case Deliver(t, p) => s.(running := s.running[t := Attempt(p, Lookup, false, false)])
    case LoadIndex(p) => s.(index := s.index[p := Signatures(s.d)])
    case Act(t, o) => ActStep(s, t, o)
    case Return(t) => s.(running := s.running - {t})
    case Fail(t) => s.(running := s.running - {t})
    case TornInsert(t, rows) => Torn(s, t, s.running[t].pc.book, rows)
    case Crash(p) => s.(running := map t | t in s.running && s.running[t].proc != p :: s.running[t],
                        index := s.index - {p})
  }

  /** The attempt ends inside its Milvus insert, with only some of the rows flushed. */
  function Torn(s: State, t: TaskId, b: BookId, rows: multiset<Row>): State {
    s.(d := RowsAdded(s.d, b, rows), running := s.running - {t})
  }

  /** History recorded at the lookup, unchanged afterwards. */
  ghost function Advanced(d: Durable, t: TaskId, a: Attempt, pc: Pc): Attempt {
    if a.pc.Lookup? then Attempt(a.proc, pc, pc.DupLibrary?, Orphaned(d, t)) else a.(pc := pc)
  }

  ghost function ActStep(s: State, t: TaskId, o: Oracle): State
    requires t in s.queue && t in s.running && s.running[t].proc in s.index
  {
    var a := s.running[t];
    var r := Action(s.d, s.index[a.proc], t, s.queue[t], a.pc, o);
    State(r.d, s.queue,
          if r.pc.None? then s.running - {t} else s.running[t := Advanced(s.d, t, a, r.pc.value)],
          s.index[a.proc := r.index])
  }

  ghost predicate Initial(s: State) {
    s == State(Durable(map[], map[], {}, map[], {}, map[]), map[], map[], map[])
  }

  /** `ss` is the sequence of states of a run that takes the events `es`. */
  ghost predicate Run(lsh: Lsh, ss: seq<State>, es: seq<Event>) {
    && |ss| == |es| + 1
    && Initial(ss[0])
    && forall i :: 0 <= i < |es| ==> StepAt(lsh, ss, es, i)
  }

  ghost predicate StepAt(lsh: Lsh, ss: seq<State>, es: seq<Event>, i: nat)
    requires i < |es| && |ss| == |es| + 1
  {
    Enabled(lsh, ss[i], es[i]) && ss[i + 1] == Step(lsh, ss[i], es[i])
  }
}
