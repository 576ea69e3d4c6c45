/** What the ingest protocol guarantees over whole runs, for every crash schedule and interleaving. */
module IngestTheorems {
  import opened Common
  import opened IngestProtocol
  import opened IngestInvariant

  // ----- committed books and their Milvus rows --------------------------------------

  /** A chunk list gives each Milvus row exactly once: index k carries chunk k and nothing else. */
  lemma {:induction false} RowsMultiplicity(chunks: seq<string>, r: Row)
    ensures multiset(Rows(chunks))[r] == if r.index < |chunks| && chunks[r.index] == r.text then 1 else 0
  {
    if chunks != [] {
      var n := |chunks| - 1;
      RowsMultiplicity(chunks[..n], r);
      assert Rows(chunks) == Rows(chunks[..n]) + [Row(n, chunks[n])];
    }
  }

  ghost predicate RowsAgree(d: Durable, b: BookId)
    requires b in d.books
  {
    var chunks := d.books[b].chunks;
    forall r :: VectorsOf(d, b)[r] == if r.index < |chunks| && chunks[r.index] == r.text then 1 else 0
  }

  /**
   In every reachable state: a committed book's Milvus rows are exactly its chunk rows, library rows
   and loaded duplicate-index entries name committed books, and a set pointer names a stored object.
  */
  lemma CommittedStateIsConsistent(lsh: Lsh, ss: seq<State>, es: seq<Event>, i: nat)
    requires Run(lsh, ss, es) && i < |ss|
    ensures var d := ss[i].d;
      && (forall b :: b in d.books ==> RowsAgree(d, b))
      && (forall u, b :: (u, b) in d.library ==> b in d.books)
      && (forall b :: b in d.books && d.books[b].pointer.Some? ==> d.books[b].pointer.value in d.objects)
      && (forall p, b :: p in ss[i].index && b in ss[i].index[p] ==>
            b in d.books && ss[i].index[p][b] == d.books[b].signature)
  {
    RunKeepsInv(lsh, ss, es, i);
    var d := ss[i].d;
    forall b | b in d.books ensures RowsAgree(d, b) {
      forall r ensures VectorsOf(d, b)[r] == if r.index < |d.books[b].chunks| && d.books[b].chunks[r.index] == r.text then 1 else 0 {
        RowsMultiplicity(d.books[b].chunks, r);
      }
    }
    forall p, b | p in ss[i].index && b in ss[i].index[p]
      ensures b in d.books && ss[i].index[p][b] == d.books[b].signature
    {
      assert IndexOk(d, ss[i].index[p]);
    }
  }

  // ----- what never changes once written -----------------------------------------------

  ghost predicate Persists(d: Durable, e: Durable) {
    && (forall t :: t in d.tasks ==> t in e.tasks && (d.tasks[t].Some? ==> e.tasks[t] == d.tasks[t]))
    && (forall b :: b in d.books ==>
          && b in e.books && e.books[b].chunks == d.books[b].chunks && e.books[b].signature == d.books[b].signature
          && (d.books[b].pointer.Some? ==> e.books[b].pointer == d.books[b].pointer))
    && d.objects <= e.objects && d.library <= e.library
  }

  lemma ActionPersists(d: Durable, index: map<BookId, Signature>, t: TaskId, m: Message, pc: Pc, o: Oracle)
    ensures Persists(d, Action(d, index, t, m, pc, o).d)
  {
    match pc
    case DupSetPointer(b, key) => PointerPersists(d, b, key);
    case CommitBook(b, pointer, chunks) => BookPersists(d, b, Book(m.signature, pointer, chunks));
    case RecordClaim(b) => ClaimPersists(d, t, b);
    case Scrub(b) => UnchangedPersist(d, Scrubbed(d, b));
    case Mint => UnchangedPersist(d, d.(minted := d.minted[o.drawn := t]));
    case InsertVectors(b, pointer, chunks) => UnchangedPersist(d, VectorsInserted(d, b, chunks));
    case _ => OutputsPersist(d, index, t, m, pc, o);
  }

  lemma OutputsPersist(d: Durable, index: map<BookId, Signature>, t: TaskId, m: Message, pc: Pc, o: Oracle)
    requires !pc.DupSetPointer? && !pc.CommitBook? && !pc.RecordClaim? && !pc.Scrub? && !pc.Mint? && !pc.InsertVectors?
    ensures Persists(d, Action(d, index, t, m, pc, o).d)
  {
    var e := Action(d, index, t, m, pc, o).d;
    assert e == d.(objects := e.objects, library := e.library) && d.objects <= e.objects && d.library <= e.library;
    UnchangedPersist(d, e);
  }

  /** Writes to the objects, the library, the vectors and the history of drawn ids. */
  lemma UnchangedPersist(d: Durable, e: Durable)
    requires e.tasks == d.tasks && e.books == d.books && d.objects <= e.objects && d.library <= e.library
    ensures Persists(d, e)
  {
  }

  lemma ClaimPersists(d: Durable, t: TaskId, b: BookId)
    ensures Persists(d, ClaimRecorded(d, t, b))
  {
  }

  lemma PointerPersists(d: Durable, b: BookId, key: Key)
    ensures Persists(d, PointerSet(d, b, key))
  {
  }

  lemma BookPersists(d: Durable, b: BookId, book: Book)
    ensures b !in d.books ==> Persists(d, BookInserted(d, b, book))
  {
  }

  /** Claims, committed books, set pointers, stored objects and library rows survive every step of every run. */
  lemma {:induction false} WritesPersist(lsh: Lsh, ss: seq<State>, es: seq<Event>, i: nat, j: nat)
    requires Run(lsh, ss, es) && i <= j < |ss|
    ensures Persists(ss[i].d, ss[j].d)
    decreases j - i
  {
    if i < j {
      WritesPersist(lsh, ss, es, i, j - 1);
      var s, e := ss[j - 1], es[j - 1];
      assert StepAt(lsh, ss, es, j - 1);
      if e.Act? {
        var a := s.running[e.task];
        ActionPersists(s.d, s.index[a.proc], e.task, s.queue[e.task], a.pc, e.oracle);
      }
    }
  }

  // ----- the claim ----------------------------------------------------------------------

  /** Event `i` commits book `b` for task `t`. */
  ghost predicate Commits(ss: seq<State>, es: seq<Event>, i: nat, t: TaskId, b: BookId)
    requires i < |es| && |ss| == |es| + 1
  {
    && es[i].Act? && es[i].task == t && t in ss[i].running
    && ss[i].running[t].pc.CommitBook? && ss[i].running[t].pc.book == b
  }

  /** A commit by an API task stores a new book, under the id its claim row names. */
  lemma CommitFollowsClaim(lsh: Lsh, ss: seq<State>, es: seq<Event>, i: nat, t: TaskId, b: BookId)
    requires Run(lsh, ss, es) && i < |es| && Commits(ss, es, i, t, b)
    ensures b !in ss[i].d.books && b in ss[i + 1].d.books
    ensures t in ss[i].d.tasks ==> ss[i].d.tasks[t] == Some(b)
  {
    RunKeepsInv(lsh, ss, es, i);
    assert StepAt(lsh, ss, es, i);
    assert AttemptOk(ss[i], t);
  }

  /** However often an API task is redelivered, it commits at most one book in a whole run. */
  lemma AtMostOneCommitPerTask(lsh: Lsh, ss: seq<State>, es: seq<Event>, i: nat, j: nat, t: TaskId, b: BookId, c: BookId)
    requires Run(lsh, ss, es) && i <= j < |es|
    requires Commits(ss, es, i, t, b) && Commits(ss, es, j, t, c)
    requires t in ss[i].d.tasks
    ensures i == j && b == c
  {
    CommitFollowsClaim(lsh, ss, es, i, t, b);
    CommitFollowsClaim(lsh, ss, es, j, t, c);
    WritesPersist(lsh, ss, es, i, j);
    if i < j {
      WritesPersist(lsh, ss, es, i + 1, j);
    }
  }

  /** Every Milvus row an API task leaves under an uncommitted book carries the id its claim row records. */
  lemma LeftoverVectorsAreClaimed(lsh: Lsh, ss: seq<State>, es: seq<Event>, i: nat, b: BookId)
    requires Run(lsh, ss, es) && i < |ss|
    requires VectorsOf(ss[i].d, b) != multiset{} && b !in ss[i].d.books
    ensures b in ss[i].d.minted && ss[i].d.minted[b] in ss[i].queue
    ensures var t := ss[i].d.minted[b]; ss[i].queue[t].fromApi ==> t in ss[i].d.tasks && ss[i].d.tasks[t] == Some(b)
  {
    RunKeepsInv(lsh, ss, es, i);
  }

  /** An attempt that reaches its end leaves its user's library naming a committed book, for the rest of the run. */
  lemma FinishedAttemptServesUser(lsh: Lsh, ss: seq<State>, es: seq<Event>, i: nat, j: nat, t: TaskId)
    requires Run(lsh, ss, es) && i <= j < |ss|
    requires t in ss[i].running && ss[i].running[t].pc.Done?
    ensures t in ss[i].queue
    ensures var b := ss[i].running[t].pc.book; (ss[i].queue[t].user, b) in ss[j].d.library && b in ss[j].d.books
    ensures !ss[i].running[t].pc.wasDuplicate ==>
              |ss[j].d.books[ss[i].running[t].pc.book].chunks| == ss[i].running[t].pc.rows
  {
    RunKeepsInv(lsh, ss, es, i);
    assert AttemptOk(ss[i], t);
    WritesPersist(lsh, ss, es, i, j);
  }

  /** No reachable action meets a primary-key, foreign-key or duplicate-LSH-key failure. */
  lemma NoIntegrityFailure(lsh: Lsh, ss: seq<State>, es: seq<Event>, i: nat)
    requires Run(lsh, ss, es) && i < |es| && es[i].Act?
    ensures es[i].task in ss[i + 1].running
  {
    RunKeepsInv(lsh, ss, es, i);
    assert StepAt(lsh, ss, es, i);
    var s, t := ss[i], es[i].task;
    assert AttemptOk(s, t);
    ActionAdvances(lsh, s.d, s.index[s.running[t].proc], t, s.queue[t], s.running[t].pc, es[i].oracle);
  }

  /** Actions an attempt may still need. */
  function Remaining(pc: Pc): nat {
    match pc
    case Lookup => 12
    case ReadClaim => 11
    case CheckCommitted(_) => 10
    case Mint => 10
    case Scrub(_) => 9
    case RecordClaim(_) => 9
    case PutOriginal(_) => 7
    case ChunkText(_, _) => 6
    case InsertVectors(_, _, _) => 5
    case CommitBook(_, _, _) => 4
    case AddLibrary(_, _) => 3
    case AddIndex(_, _) => 2
    case DupLibrary(_) => 5
    case DupReadPointer(_) => 4
    case DupPutOriginal(_) => 3
    case DupSetPointer(_, _) => 2
    case ConvergeLibrary(_) => 2
    case Done(_, _, _) => 0
  }

  /** An undisturbed attempt ends: each action moves it strictly closer to Done. */
  lemma ActionsTerminate(d: Durable, index: map<BookId, Signature>, t: TaskId, m: Message, pc: Pc, o: Oracle)
    requires !pc.Done?
    ensures Closer(Action(d, index, t, m, pc, o), pc)
  {
    if OnDuplicatePath(pc) {
      DuplicatePathTerminates(d, index, t, m, pc, o);
    } else if OnClaimPath(pc) {
      ClaimPathTerminates(d, index, t, m, pc, o);
    } else {
      NewBookPathTerminates(d, index, t, m, pc, o);
    }
  }

  predicate Closer(r: Outcome, pc: Pc) {
    r.pc.Some? ==> Remaining(r.pc.value) < Remaining(pc)
  }

  lemma DuplicatePathTerminates(d: Durable, index: map<BookId, Signature>, t: TaskId, m: Message, pc: Pc, o: Oracle)
    requires OnDuplicatePath(pc)
    ensures Closer(Action(d, index, t, m, pc, o), pc)
  {
  }

  lemma NewBookPathTerminates(d: Durable, index: map<BookId, Signature>, t: TaskId, m: Message, pc: Pc, o: Oracle)
    requires !OnDuplicatePath(pc) && !OnClaimPath(pc) && !pc.Done?
    ensures Closer(Action(d, index, t, m, pc, o), pc)
  {
  }

  lemma ClaimPathTerminates(d: Durable, index: map<BookId, Signature>, t: TaskId, m: Message, pc: Pc, o: Oracle)
    requires OnClaimPath(pc)
    ensures Closer(Action(d, index, t, m, pc, o), pc)
  {
  }

  // ----- when the vectors of a crashed attempt stay behind -------------------------------

  /** The attempt of `t` that looks up at event `i` is still the one running at state `j`. */
  ghost predicate SameAttempt(ss: seq<State>, es: seq<Event>, i: nat, j: nat, t: TaskId)
    requires i < j < |ss| && |ss| == |es| + 1
  {
    && es[i].Act? && es[i].task == t && t in ss[i].running && ss[i].running[t].pc.Lookup?
    && forall k :: i < k <= j ==> t in ss[k].running
  }

  lemma {:induction false} HistoryBitsAreHistory(lsh: Lsh, ss: seq<State>, es: seq<Event>, i: nat, j: nat, t: TaskId)
    requires Run(lsh, ss, es) && i < j < |ss| && SameAttempt(ss, es, i, j, t)
    ensures var a := ss[j].running[t];
      && !a.pc.Lookup?
      && a.hit == es[i].oracle.found.Some?
      && (a.debt <==> Orphaned(ss[i].d, t))
    decreases j
  {
    assert StepAt(lsh, ss, es, j - 1);
    if i < j - 1 {
      HistoryBitsAreHistory(lsh, ss, es, i, j - 1, t);
      var s := ss[j - 1];
      if es[j - 1].Act? && es[j - 1].task == t {
        ActionsTerminate(s.d, s.index[s.running[t].proc], t, s.queue[t], s.running[t].pc, es[j - 1].oracle);
      }
    }
  }

  /**
   The module promises "zero orphans" after a redelivery (worker/ingest.py:70-74).  Exactly: when an
   API task's attempt ends, vectors of the task under an uncommitted book remain if and only if they
   were there when the attempt looked for duplicates and the lookup matched.
  */
  lemma OrphansIffLookupMatched(lsh: Lsh, ss: seq<State>, es: seq<Event>, i: nat, j: nat, t: TaskId)
    requires Run(lsh, ss, es) && i < j < |ss| && SameAttempt(ss, es, i, j, t)
    requires ss[j].running[t].pc.Done? && t in ss[j].d.tasks
    ensures Orphaned(ss[j].d, t) <==> es[i].oracle.found.Some? && Orphaned(ss[i].d, t)
  {
    RunKeepsInv(lsh, ss, es, j);
    assert AttemptOk(ss[j], t);
    HistoryBitsAreHistory(lsh, ss, es, i, j, t);
  }
}
