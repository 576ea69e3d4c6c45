/** A run in which a finished, redelivered task leaves orphan vectors behind: the duplicate lookup comes before the claim. */
module IngestWitness {
  import opened Common
  import opened IngestProtocol

  const SAME: Lsh := (x: Signature, y: Signature) => x == y
  const MESSAGE := Message(7, "a.epub", [1], true, true)
  const FIRST := Oracle(None, 10, ["x"])    // task 1: misses, draws book 10
  const SECOND := Oracle(None, 20, ["x"])   // task 2: misses, draws book 20
  const AGAIN := Oracle(Some(20), 30, [])   // task 1 again: matches book 20

  ghost function Last(ss: seq<State>): State
    requires ss != []
  {
    ss[|ss| - 1]
  }

  lemma Push(ss: seq<State>, es: seq<Event>, e: Event) returns (ss': seq<State>, es': seq<Event>)
    requires Run(SAME, ss, es) && Enabled(SAME, Last(ss), e)
    ensures Run(SAME, ss', es') && Last(ss') == Step(SAME, Last(ss), e)
  {
    ss', es' := ss + [Step(SAME, Last(ss), e)], es + [e];
    forall i | 0 <= i < |es'| ensures StepAt(SAME, ss', es', i) {
      if i < |es| {
        assert StepAt(SAME, ss, es, i);
      }
    }
  }

  /** Task `t` is the only one running, on process `p`, at `pc`. */
  ghost predicate Alone(s: State, t: TaskId, p: ProcId, pc: Pc) {
    && t in s.queue && s.queue[t] == MESSAGE && s.running.Keys == {t}
    && s.running[t].proc == p && p in s.index && s.running[t].pc == pc
  }

  lemma Do(ss: seq<State>, es: seq<Event>, t: TaskId, p: ProcId, pc: Pc, o: Oracle)
    returns (ss': seq<State>, es': seq<Event>)
    requires Run(SAME, ss, es) && Alone(Last(ss), t, p, pc) && !pc.Done?
    requires OracleOk(SAME, Last(ss).d, Last(ss).index[p], MESSAGE, pc, o)
    requires Action(Last(ss).d, Last(ss).index[p], t, MESSAGE, pc, o).pc.Some?
    ensures Run(SAME, ss', es') && Last(ss').queue == Last(ss).queue
    ensures var r := Action(Last(ss).d, Last(ss).index[p], t, MESSAGE, pc, o);
      Alone(Last(ss'), t, p, r.pc.value) && Last(ss').d == r.d && Last(ss').index == Last(ss).index[p := r.index]
  {
    ss', es' := Push(ss, es, Act(t, o));
  }

  function Minted(d: Durable, t: TaskId, b: BookId): Durable {
    d.(minted := d.minted[b := t])
  }

  function Flushed(d: Durable, t: TaskId, o: Oracle): Durable {
    VectorsInserted(OriginalPut(ClaimRecorded(Minted(d, t, o.drawn), t, o.drawn), Key(o.drawn, MESSAGE.filename)), o.drawn, o.chunks)
  }

  // A first attempt up to its flushed vectors.
  lemma Flush(ss: seq<State>, es: seq<Event>, t: TaskId, p: ProcId, o: Oracle)
    returns (ss': seq<State>, es': seq<Event>)
    requires Run(SAME, ss, es) && Alone(Last(ss), t, p, Lookup)
    requires Last(ss).index[p] == map[] && o.found.None? && o.drawn !in Last(ss).d.minted && o.chunks != []
    requires t in Last(ss).d.tasks && Last(ss).d.tasks[t] == None
    ensures Run(SAME, ss', es') && Last(ss').queue == Last(ss).queue && Last(ss').index == Last(ss).index
    ensures Last(ss').d == Flushed(Last(ss).d, t, o)
    ensures Alone(Last(ss'), t, p, CommitBook(o.drawn, Some(Key(o.drawn, MESSAGE.filename)), o.chunks))
  {
    ss', es' := Miss(ss, es, t, p, o);
    ss', es' := Claim(ss', es', t, p, o);
    ss', es' := FlushRest(ss', es', t, p, o);
  }

  lemma Miss(ss: seq<State>, es: seq<Event>, t: TaskId, p: ProcId, o: Oracle)
    returns (ss': seq<State>, es': seq<Event>)
    requires Run(SAME, ss, es) && Alone(Last(ss), t, p, Lookup)
    requires Last(ss).index[p] == map[] && o.found.None? && t in Last(ss).d.tasks && Last(ss).d.tasks[t] == None
    ensures Run(SAME, ss', es') && Last(ss').queue == Last(ss).queue && Last(ss').index == Last(ss).index
    ensures Last(ss').d == Last(ss).d && Alone(Last(ss'), t, p, Mint)
  {
    ss', es' := Do(ss, es, t, p, Lookup, o);
    ss', es' := Do(ss', es', t, p, ReadClaim, o);
  }

  lemma Claim(ss: seq<State>, es: seq<Event>, t: TaskId, p: ProcId, o: Oracle)
    returns (ss': seq<State>, es': seq<Event>)
    requires Run(SAME, ss, es) && Alone(Last(ss), t, p, Mint) && o.drawn !in Last(ss).d.minted
    ensures Run(SAME, ss', es') && Last(ss').queue == Last(ss).queue && Last(ss').index == Last(ss).index
    ensures Last(ss').d == ClaimRecorded(Minted(Last(ss).d, t, o.drawn), t, o.drawn)
    ensures Alone(Last(ss'), t, p, PutOriginal(o.drawn))
  {
    ss', es' := Do(ss, es, t, p, Mint, o);
    ss', es' := Do(ss', es', t, p, RecordClaim(o.drawn), o);
  }

  lemma FlushRest(ss: seq<State>, es: seq<Event>, t: TaskId, p: ProcId, o: Oracle)
    returns (ss': seq<State>, es': seq<Event>)
    requires Run(SAME, ss, es) && Alone(Last(ss), t, p, PutOriginal(o.drawn)) && o.chunks != []
    ensures Run(SAME, ss', es') && Last(ss').queue == Last(ss).queue && Last(ss').index == Last(ss).index
    ensures Last(ss').d == VectorsInserted(OriginalPut(Last(ss).d, Key(o.drawn, MESSAGE.filename)), o.drawn, o.chunks)
    ensures Alone(Last(ss'), t, p, CommitBook(o.drawn, Some(Key(o.drawn, MESSAGE.filename)), o.chunks))
  {
    var b, key := o.drawn, Some(Key(o.drawn, MESSAGE.filename));
    ss', es' := Do(ss, es, t, p, PutOriginal(b), o);
    ss', es' := Do(ss', es', t, p, ChunkText(b, key), o);
    ss', es' := Do(ss', es', t, p, InsertVectors(b, key, o.chunks), o);
  }

  // The end of a first attempt: transaction, library row, index entry.
  lemma Finish(ss: seq<State>, es: seq<Event>, t: TaskId, p: ProcId, o: Oracle)
    returns (ss': seq<State>, es': seq<Event>)
    requires Run(SAME, ss, es)
    requires var key := Some(Key(o.drawn, MESSAGE.filename)); Alone(Last(ss), t, p, CommitBook(o.drawn, key, o.chunks))
    requires o.drawn !in Last(ss).d.books && o.drawn !in Last(ss).index[p]
    ensures Run(SAME, ss', es') && Last(ss').queue == Last(ss).queue
    ensures Last(ss').index == Last(ss).index[p := Last(ss).index[p][o.drawn := MESSAGE.signature]]
    ensures var book := Book(MESSAGE.signature, Some(Key(o.drawn, MESSAGE.filename)), o.chunks);
      Last(ss').d == LibraryUpserted(BookInserted(Last(ss).d, o.drawn, book), MESSAGE.user, o.drawn)
    ensures Alone(Last(ss'), t, p, Done(o.drawn, false, |o.chunks|))
  {
    var b, key := o.drawn, Some(Key(o.drawn, MESSAGE.filename));
    ss', es' := Commit(ss, es, t, p, b, key, o);
    ss', es' := FinishRest(ss', es', t, p, b, |o.chunks|, o);
  }

  lemma Commit(ss: seq<State>, es: seq<Event>, t: TaskId, p: ProcId, b: BookId, key: Option<Key>, o: Oracle)
    returns (ss': seq<State>, es': seq<Event>)
    requires Run(SAME, ss, es) && Alone(Last(ss), t, p, CommitBook(b, key, o.chunks)) && b !in Last(ss).d.books
    ensures Run(SAME, ss', es') && Last(ss').queue == Last(ss).queue && Last(ss').index == Last(ss).index
    ensures Last(ss').d == BookInserted(Last(ss).d, b, Book(MESSAGE.signature, key, o.chunks)) && b in Last(ss').d.books
    ensures Alone(Last(ss'), t, p, AddLibrary(b, |o.chunks|))
  {
    ss', es' := Do(ss, es, t, p, CommitBook(b, key, o.chunks), o);
  }

  lemma AddToLibrary(ss: seq<State>, es: seq<Event>, t: TaskId, p: ProcId, b: BookId, rows: nat, o: Oracle)
    returns (ss': seq<State>, es': seq<Event>)
    requires Run(SAME, ss, es) && Alone(Last(ss), t, p, AddLibrary(b, rows)) && b in Last(ss).d.books
    ensures Run(SAME, ss', es') && Last(ss').queue == Last(ss).queue && Last(ss').index == Last(ss).index
    ensures Last(ss').d == LibraryUpserted(Last(ss).d, MESSAGE.user, b)
    ensures Alone(Last(ss'), t, p, AddIndex(b, rows))
  {
    ss', es' := Do(ss, es, t, p, AddLibrary(b, rows), o);
  }

  lemma AddToIndex(ss: seq<State>, es: seq<Event>, t: TaskId, p: ProcId, b: BookId, rows: nat, o: Oracle)
    returns (ss': seq<State>, es': seq<Event>)
    requires Run(SAME, ss, es) && Alone(Last(ss), t, p, AddIndex(b, rows)) && b !in Last(ss).index[p]
    ensures Run(SAME, ss', es') && Last(ss').queue == Last(ss).queue && Last(ss').d == Last(ss).d
    ensures Last(ss').index == Last(ss).index[p := Last(ss).index[p][b := MESSAGE.signature]]
    ensures Alone(Last(ss'), t, p, Done(b, false, rows))
  {
    ss', es' := Do(ss, es, t, p, AddIndex(b, rows), o);
  }

  lemma FinishRest(ss: seq<State>, es: seq<Event>, t: TaskId, p: ProcId, b: BookId, rows: nat, o: Oracle)
    returns (ss': seq<State>, es': seq<Event>)
    requires Run(SAME, ss, es) && Alone(Last(ss), t, p, AddLibrary(b, rows))
    requires b in Last(ss).d.books && b !in Last(ss).index[p]
    ensures Run(SAME, ss', es') && Last(ss').queue == Last(ss).queue
    ensures Last(ss').index == Last(ss).index[p := Last(ss).index[p][b := MESSAGE.signature]]
    ensures Last(ss').d == LibraryUpserted(Last(ss).d, MESSAGE.user, b)
    ensures Alone(Last(ss'), t, p, Done(b, false, rows))
  {
    ss', es' := AddToLibrary(ss, es, t, p, b, rows, o);
    ss', es' := AddToIndex(ss', es', t, p, b, rows, o);
  }

  // Both uploads are queued; task 1 runs on process 1, with an empty index.
  lemma Start() returns (ss: seq<State>, es: seq<Event>)
    ensures Run(SAME, ss, es) && Alone(Last(ss), 1, 1, Lookup)
    ensures Last(ss).d == Durable(map[1 := None, 2 := None], map[], {}, map[], {}, map[])
    ensures Last(ss).queue == map[1 := MESSAGE, 2 := MESSAGE] && Last(ss).index == map[1 := map[]]
  {
    ss, es := [State(Durable(map[], map[], {}, map[], {}, map[]), map[], map[], map[])], [];
    ss, es := Push(ss, es, UploadRow(1));
    ss, es := Push(ss, es, UploadSend(1, MESSAGE));
    ss, es := Push(ss, es, UploadRow(2));
    ss, es := Push(ss, es, UploadSend(2, MESSAGE));
    ss, es := Push(ss, es, Deliver(1, 1));
    ss, es := Push(ss, es, LoadIndex(1));
  }

  // Task 1 flushes vectors under book 10 and its process crashes.
  lemma CrashAfterFlush() returns (ss: seq<State>, es: seq<Event>)
    ensures Run(SAME, ss, es)
    ensures Last(ss).queue == map[1 := MESSAGE, 2 := MESSAGE] && Last(ss).running == map[] && Last(ss).index == map[]
    ensures var d := Last(ss).d;
      && d.tasks == map[1 := Some(10), 2 := None] && d.books == map[] && d.minted == map[10 := 1]
      && Row(0, "x") in VectorsOf(d, 10)
  {
    ss, es := Start();
    var d0 := Last(ss).d;
    ss, es := Flush(ss, es, 1, 1, FIRST);
    ss, es := Push(ss, es, Crash(1));
    assert Rows(["x"]) == [Row(0, "x")];
    assert ClaimRecorded(Minted(d0, 1, 10), 1, 10).tasks == map[1 := Some(10), 2 := None];
  }

  lemma OtherTaskFlushes() returns (ss: seq<State>, es: seq<Event>)
    ensures Run(SAME, ss, es) && Last(ss).queue == map[1 := MESSAGE, 2 := MESSAGE] && Last(ss).index == map[2 := map[]]
    ensures Alone(Last(ss), 2, 2, CommitBook(20, Some(Key(20, MESSAGE.filename)), SECOND.chunks))
    ensures var d := Last(ss).d;
      && d.books == map[] && 10 in d.minted && d.minted[10] == 1 && Row(0, "x") in VectorsOf(d, 10)
  {
    ss, es := CrashAfterFlush();
    ss, es := Push(ss, es, Deliver(2, 2));
    ss, es := Push(ss, es, LoadIndex(2));
    assert Last(ss).index == map[2 := map[]];
    ss, es := Flush(ss, es, 2, 2, SECOND);
  }

  // Task 2 then commits the same text as book 20 on process 2.
  lemma OtherTaskCommits() returns (ss: seq<State>, es: seq<Event>)
    ensures Run(SAME, ss, es) && Last(ss).queue == map[1 := MESSAGE, 2 := MESSAGE]
    ensures Alone(Last(ss), 2, 2, Done(20, false, 1)) && Last(ss).index == map[2 := map[20 := [1]]]
    ensures var d := Last(ss).d;
      && 10 in d.minted && d.minted[10] == 1 && 10 !in d.books && Row(0, "x") in VectorsOf(d, 10)
      && 20 in d.books && d.books[20].pointer.Some?
  {
    ss, es := OtherTaskFlushes();
    ss, es := Finish(ss, es, 2, 2, SECOND);
  }

  /**
   The promise "zero orphans" (worker/ingest.py:70-74) fails: task 1 crashes after its flush, task 2
   commits the same text, and task 1, redelivered, matches task 2's book and ends successfully with
   its own vectors still in Milvus under an uncommitted book id.
  */
  lemma RedeliveredTaskMayLeaveOrphans() returns (ss: seq<State>, es: seq<Event>)
    ensures Run(SAME, ss, es)
    ensures var s := Last(ss); 1 in s.running && s.running[1].pc == Done(20, true, 0) && Orphaned(s.d, 1)
  {
    ss, es := OtherTaskCommits();
    ss, es := Push(ss, es, Return(2));
    ss, es := Push(ss, es, Deliver(1, 2));
    assert Last(ss).running.Keys == {1};
    ss, es := Do(ss, es, 1, 2, Lookup, AGAIN);
    ss, es := Do(ss, es, 1, 2, DupLibrary(20), AGAIN);
    ss, es := Do(ss, es, 1, 2, DupReadPointer(20), AGAIN);
    var d := Last(ss).d;
    assert 10 in d.minted && d.minted[10] == 1 && 10 !in d.books && VectorsOf(d, 10) != multiset{};
  }
}
