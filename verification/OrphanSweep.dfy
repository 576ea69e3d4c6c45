/** One pass of worker/scripts/sweep_orphans.py over the stores, and what it leaves of a redelivered task. */
module OrphanSweep {
  import opened Common
  import opened IngestProtocol
  import opened IngestInvariant
  import opened IngestTheorems

  // ----- what the script deletes -----------------------------------------------------------

  ghost predicate Claimed(d: Durable, b: BookId) {
    exists t :: t in d.tasks && d.tasks[t] == Some(b)
  }

  ghost predicate Referenced(d: Durable, b: BookId) {
    exists u :: (u, b) in d.library
  }

  /** Vectors without a book, or a book without chunks and vectors. */
  predicate Candidate(d: Durable, b: BookId) {
    if b in d.books then d.books[b].chunks == [] && VectorsOf(d, b) == multiset{} else VectorsOf(d, b) != multiset{}
  }

  /** One candidate that a library names aborts the whole sweep. */
  ghost predicate Refuses(d: Durable) {
    exists b :: Candidate(d, b) && Referenced(d, b)
  }

  ghost predicate Deleted(d: Durable, b: BookId) {
    Candidate(d, b) && !Claimed(d, b) && !Refuses(d)
  }

  ghost function Swept(d: Durable): Durable {
    d.(books := map b | b in d.books && !Deleted(d, b) :: d.books[b],
       vectors := map b | b in d.vectors && !Deleted(d, b) :: d.vectors[b])
  }

  // ----- one sweep ---------------------------------------------------------------------------

  lemma SweptVectors(d: Durable, b: BookId)
    ensures VectorsOf(Swept(d), b) == if Deleted(d, b) then multiset{} else VectorsOf(d, b)
  {
  }

  /** In a consistent state the sweep aborts exactly if some library names a book without chunks. */
  lemma RefusesIff(d: Durable)
    requires BooksOk(d)
    ensures Refuses(d) <==> exists u, b :: (u, b) in d.library && d.books[b].chunks == []
  {
    if Refuses(d) {
      var b :| Candidate(d, b) && Referenced(d, b);
      var u :| (u, b) in d.library;
      assert d.books[b].chunks == [];
    }
    if u, b :| (u, b) in d.library && d.books[b].chunks == [] {
      assert Rows([]) == [];
      assert Candidate(d, b) && Referenced(d, b);
    }
  }

  /** A sweep keeps claims and books consistent: no chunk, no referenced book and no vector of a book goes. */
  lemma SweepKeepsBooks(d: Durable)
    requires ClaimsOk(d) && BooksOk(d)
    ensures ClaimsOk(Swept(d)) && BooksOk(Swept(d))
    ensures forall b :: b in d.books && (d.books[b].chunks != [] || Referenced(d, b) || Claimed(d, b)) ==>
              b in Swept(d).books && Swept(d).books[b] == d.books[b] && VectorsOf(Swept(d), b) == VectorsOf(d, b)
  {
    var e := Swept(d);
    forall b
      ensures VectorsOf(e, b) == if Deleted(d, b) then multiset{} else VectorsOf(d, b)
    {
      SweptVectors(d, b);
    }
    forall u, b | (u, b) in e.library
      ensures b in e.books
    {
      assert Referenced(d, b);
    }
    assert forall b :: b in e.books ==> !Deleted(d, b);
  }

  /** Of the vectors without a book it leaves exactly the claimed ones. */
  lemma SweepLeavesClaimed(d: Durable, b: BookId)
    requires BooksOk(d) && !Refuses(d) && b !in d.books
    ensures VectorsOf(Swept(d), b) != multiset{} <==> VectorsOf(d, b) != multiset{} && Claimed(d, b)
  {
    SweptVectors(d, b);
  }

  /** So it never removes the orphans of a task of the upload API. */
  lemma SweepLeavesTaskOrphans(d: Durable, t: TaskId)
    requires ClaimsOk(d) && t in d.tasks && Orphaned(d, t)
    ensures Orphaned(Swept(d), t)
  {
    var b :| b in d.minted && d.minted[b] == t && b !in d.books && VectorsOf(d, b) != multiset{};
    assert Claimed(d, b);
    SweptVectors(d, b);
    assert b in Swept(d).minted && b !in Swept(d).books;
  }

  /** At rest, with no loaded index naming a book it deletes, a sweep keeps the protocol's invariant. */
  lemma SweepAtRestKeepsInv(s: State)
    requires Inv(s) && s.running == map[] && forall p :: p in s.index ==> IndexOk(Swept(s.d), s.index[p])
    ensures Inv(s.(d := Swept(s.d)))
  {
    SweepKeepsBooks(s.d);
  }

  // ----- over runs -------------------------------------------------------------------------------

  /** The task itself scrubs its claimed id, or commits it. */
  ghost predicate Converges(ss: seq<State>, es: seq<Event>, i: nat, t: TaskId)
    requires i < |es| && |ss| == |es| + 1
  {
    && es[i].Act? && es[i].task == t && t in ss[i].running
    && (ss[i].running[t].pc.Scrub? || ss[i].running[t].pc.CommitBook?)
  }

  lemma RowsStay(d: Durable, e: Durable, t: TaskId)
    requires Orphaned(d, t)
    requires forall b :: b in d.minted ==> b in e.minted && e.minted[b] == d.minted[b]
    requires forall b :: b in e.books ==> b in d.books
    requires forall b :: VectorsOf(d, b) <= VectorsOf(e, b)
    ensures Orphaned(e, t)
  {
    var b :| b in d.minted && d.minted[b] == t && b !in d.books && VectorsOf(d, b) != multiset{};
    assert VectorsOf(d, b) <= VectorsOf(e, b);
    assert b in e.minted && e.minted[b] == t && b !in e.books && VectorsOf(e, b) != multiset{};
  }

  lemma OwnActionKeepsOrphans(d: Durable, index: map<BookId, Signature>, t: TaskId, m: Message, pc: Pc, o: Oracle)
    requires Orphaned(d, t) && !pc.Scrub? && !pc.CommitBook? && (pc.Mint? ==> o.drawn !in d.minted)
    ensures Orphaned(Action(d, index, t, m, pc, o).d, t)
  {
    RowsStay(d, Action(d, index, t, m, pc, o).d, t);
  }

  lemma StepKeepsOrphans(lsh: Lsh, ss: seq<State>, es: seq<Event>, i: nat, t: TaskId)
    requires Run(lsh, ss, es) && i < |es| && Orphaned(ss[i].d, t) && !Converges(ss, es, i, t)
    ensures Orphaned(ss[i + 1].d, t)
  {
    var s, e := ss[i], es[i];
    assert StepAt(lsh, ss, es, i);
    RunKeepsInv(lsh, ss, es, i);
    if e.Act? {
      assert AttemptOk(s, e.task);
      var a := s.running[e.task];
      if e.task == t {
        OwnActionKeepsOrphans(s.d, s.index[a.proc], t, s.queue[t], a.pc, e.oracle);
      } else {
        ActionWrites(s.d, s.index[a.proc], e.task, s.queue[e.task], a.pc, e.oracle);
        OrphanFrame(s.d, ss[i + 1].d, e.task, t);
      }
    } else if e.TornInsert? {
      RowsStay(s.d, ss[i + 1].d, t);
    } else if e.UploadRow? {
      RowsStay(s.d, ss[i + 1].d, t);
    }
  }

  lemma {:induction false} OrphansStay(lsh: Lsh, ss: seq<State>, es: seq<Event>, i: nat, j: nat, t: TaskId)
    requires Run(lsh, ss, es) && i <= j < |ss| && Orphaned(ss[i].d, t)
    requires forall k :: i <= k < j ==> !Converges(ss, es, k, t)
    ensures Orphaned(ss[j].d, t)
    decreases j - i
  {
    if i < j {
      OrphansStay(lsh, ss, es, i, j - 1, t);
      StepKeepsOrphans(lsh, ss, es, j - 1, t);
    }
  }

  /**
   What a finished attempt of an API task leaves orphaned stays, whatever runs and however often the sweep
   is made, until another attempt of that task misses the duplicate lookup and scrubs.
  */
  lemma OrphansOutliveSweeps(lsh: Lsh, ss: seq<State>, es: seq<Event>, i: nat, j: nat, n: nat, t: TaskId)
    requires Run(lsh, ss, es) && i < j <= n < |ss| && SameAttempt(ss, es, i, j, t)
    requires ss[j].running[t].pc.Done? && t in ss[j].d.tasks
    requires es[i].oracle.found.Some? && Orphaned(ss[i].d, t)
    requires forall k :: j <= k < n ==> !Converges(ss, es, k, t)
    ensures Orphaned(ss[n].d, t) && Orphaned(Swept(ss[n].d), t)
  {
    OrphansIffLookupMatched(lsh, ss, es, i, j, t);
    OrphansStay(lsh, ss, es, j, n, t);
    RunKeepsInv(lsh, ss, es, n);
    WritesPersist(lsh, ss, es, j, n);
    SweepLeavesTaskOrphans(ss[n].d, t);
  }
}
