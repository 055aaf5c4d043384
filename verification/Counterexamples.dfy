/** Runs of the checkpoint store that show why the conditions of its theorems are needed. */
module Counterexamples {
  import opened Bytes
  import opened Collections
  import opened MetaStream
  import opened FreeList
  import opened Allocations
  import opened Checkpoint
  import opened AsWrittenStore
  import opened Space
  import opened AsWrittenRuns

  /** A run that ends where the code's order goes wrong: one block committed, read once, and nothing freed before. */
  function BadRun(): seq<Event>
  {
    [Done(Open(0)), Done(Write(0, [7])), Done(Close(0)), Done(CommitHeader(0)), Done(ReadBlock(0))]
  }

  /** What fails as written does fail: after `BadRun`, a commit and a reopen, a live block is handed out. */
  lemma AsWrittenCounterexample() returns (es: seq<Event>)
    ensures IsRun(Create(), es) && AsWrittenUnsafeAfter(Final(Create(), es))
  {
    hide *;
    es := BadRun();
    BadRunStates();
    UnsafeAfterRun(es);
  }

  /**
    It fails of the code as written by itself: those five operations all return, and stopping the machine right after
    the next commit leaves an allocator that hands out a live block.
   */
  lemma AsWrittenStops() returns (es: seq<RawEvent>, e: RawEvent)
    ensures RawRun(Create(), es) && SafeReopens(Create(), true, es)
    ensures RawPossible(RawFinal(Create(), es), e) && e.Stopped?
    ensures var s' := RawAfter(RawFinal(Create(), es), e); !NeverHandsOut(s'.m, Live(s'.last))
  {
    hide Inv, Agrees, IsRun, Final, AllReturn, RawRun, RawFinal, RawPossible, SafeReopens, RawAfter, CountsAfter,
      Create, BadRun, Live, NeverHandsOut, Restored, SameStates, SaveFreeList;
    BadRunStates();
    AsWrittenReturns(BadRun());
    es := Raws(BadRun());
    NoStops(Create(), true, es);
    var s := RawFinal(Create(), es);
    LastCommit(s, Final(Create(), BadRun()));
    e := Stopped(CommitHeader(0), |DoAsWritten(s, CommitHeader(0)).value.log|);
    CommitsBadly(s, CountsAtEnd(Create(), true, es), e);
    AsWrittenAtomicity(es, e);
  }

  lemma {:induction false} NoStops(a: Store, counts: bool, es: seq<RawEvent>)
    requires RawRun(a, es) && forall i :: 0 <= i < |es| ==> es[i].Returned?
    ensures SafeReopens(a, counts, es)
    decreases |es|
  {
    hide RawPossible, RawAfter, CountsAfter;
    if es != [] {
      NoStops(RawAfter(a, es[0]), CountsAfter(a, counts, es[0]), es[1..]);
    }
  }

  lemma LastCommit(s: Store, b: Store)
    requires SameStates(s, b) && b.m == Manager([], [0], 1, 0, 2, 0)
    ensures s.m == b.m && CanAttempt(s, CommitHeader(0)) && DoAsWritten(s, CommitHeader(0)).Some?
    ensures RawPossible(s, Stopped(CommitHeader(0), |DoAsWritten(s, CommitHeader(0)).value.log|))
  {
    hide SaveFreeList, SaveFreeListAsWritten, Apply, MetaOf;
    AsWrittenSavesIff(s.m);
    SaveOne(s.m);
    SavedInOne(s.disk, s.m);
  }

  lemma CommitsBadly(s: Store, counts: bool, e: RawEvent)
    requires RawPossible(s, e) && e.Stopped? && e.op == CommitHeader(0)
    requires e.cut == |DoAsWritten(s, e.op).value.log| && s.m.usedBlocks == [0] && s.m.freeList == []
    ensures !CountsAfter(s, counts, e)
  {
  }

  lemma {:induction false} UnsafeAfterRun(es: seq<Event>)
    requires IsRun(Create(), es) && Final(Create(), es).m == Manager([], [0], 1, 0, 2, 0)
    ensures AsWrittenUnsafeAfter(Final(Create(), es))
  {
    hide Final, Create, IsRun, AsWrittenUnsafeAfter, Inv, SaveFreeList;
    CreateInv();
    RunInv(Create(), es);
    var s := Final(Create(), es);
    SaveOne(s.m);
    UnsafeAfterOneRead(s);
  }

  ghost predicate AsWrittenUnsafeAfter(s: Store)
  {
    && Enabled(s, CommitHeader(0))
    && !NeverHandsOut(AsWrittenReopened(s, 0), Live(Do(s, CommitHeader(0)).s.last))
  }

  lemma UnsafeAfterOneRead(s: Store)
    requires Inv(s) && s.m.freeList == [] && |s.m.usedBlocks| == 1 && Enabled(s, CommitHeader(0))
    ensures AsWrittenUnsafeAfter(s)
  {
    hide Inv, NeverHandsOut, Do, AsWrittenReopened, Live;
    AsWrittenBlockCountIff(s, 0);
  }

  /** The first three steps of `BadRun` leave one closed stream of one byte in block 0. */
  lemma BadRunWrites() returns (s1: Store, s2: Store, s3: Store)
    ensures var es := BadRun();
            && Possible(Create(), es[0]) && s1 == After(Create(), es[0])
            && Possible(s1, es[1]) && s2 == After(s1, es[1])
            && Possible(s2, es[2]) && s3 == After(s2, es[2])
            && ReturnsAsWritten(s1, es[1].op)
    ensures s3.m == Manager([], [], 1, INVALID_BLOCK, 1, 1)
    ensures s3.writers.Keys == {0} && s3.writers[0].closed
    ensures s3.writers[0].chain == [0] && s3.writers[0].bytes == [7]
  {
    var es := BadRun();
    s1 := After(Create(), es[0]);
    s2 := After(s1, es[1]);
    s3 := After(s2, es[2]);
    assert [0] + [] == [0] && [] + [7] == [7];
    assert s1.writers == map[0 := OpenStream(Writer(0, ZeroBuffer(), LINK), [0], [], false)];
    assert s2.m == s1.m && s2.writers[0].chain == [0] && s2.writers[0].bytes == [7];
  }

  /** The next two commit it and read it. */
  lemma BadRunReads(s3: Store) returns (s4: Store, s5: Store)
    requires s3.m == Manager([], [], 1, INVALID_BLOCK, 1, 1)
    requires s3.writers.Keys == {0} && s3.writers[0].closed
    requires s3.writers[0].chain == [0] && s3.writers[0].bytes == [7]
    ensures var es := BadRun();
            && Possible(s3, es[3]) && s4 == After(s3, es[3])
            && Possible(s4, es[4]) && s5 == After(s4, es[4])
    ensures s4.m == Manager([], [], 1, 0, 2, 0) && s4.writers == map[] && 0 in Live(s4.last)
    ensures s5.m == Manager([], [0], 1, 0, 2, 0) && s5.writers == map[]
  {
    hide MetaOf, Apply;
    var es := BadRun();
    s4 := After(s3, es[3]);
    assert 0 in Live(s4.last) by {
      assert 0 in s4.last.streams && 0 in s4.last.streams[0].chain;
    }
    s5 := After(s4, es[4]);
    assert [] + [0] == [0];
  }

  lemma BadRunStates()
    ensures IsRun(Create(), BadRun())
    ensures Final(Create(), BadRun()).m == Manager([], [0], 1, 0, 2, 0)
    ensures Final(Create(), BadRun()).writers == map[] && AllReturn(Create(), BadRun())
  {
    hide Possible, After, Create, IsRun, Final, Live, AllReturn;
    var s1, s2, s3 := BadRunWrites();
    var s4, s5 := BadRunReads(s3);
    BadRunReturns(s1, s2, s3, s4);
    FirstFour(s1, s2, s3, s4);
    RunSnoc(Create(), BadRun()[..4], BadRun()[4]);
    assert BadRun()[..4] + [BadRun()[4]] == BadRun();
  }

  lemma BadRunReturns(s1: Store, s2: Store, s3: Store, s4: Store)
    requires var es := BadRun();
             && Possible(Create(), es[0]) && s1 == After(Create(), es[0])
             && Possible(s1, es[1]) && s2 == After(s1, es[1]) && ReturnsAsWritten(s1, es[1].op)
             && Possible(s2, es[2]) && s3 == After(s2, es[2])
             && Possible(s3, es[3]) && s4 == After(s3, es[3]) && s3.m.usedBlocks == []
             && Possible(s4, es[4])
    ensures IsRun(Create(), BadRun()) && AllReturn(Create(), BadRun())
  {
    var es := BadRun();
    hide After, Create, Do;
    assert es[4..][1..] == [];
    assert IsRun(s4, es[4..]) && AllReturn(s4, es[4..]);
    assert es[3..][1..] == es[4..];
    assert IsRun(s3, es[3..]) && AllReturn(s3, es[3..]);
    assert es[2..][1..] == es[3..];
    assert IsRun(s2, es[2..]) && AllReturn(s2, es[2..]);
    assert es[1..][1..] == es[2..];
    assert IsRun(s1, es[1..]) && AllReturn(s1, es[1..]);
  }

  lemma SaveOne(m: Manager)
    requires m == Manager([], [0], 1, 0, 2, 0)
    ensures SaveFreeList(m).m.maxBlock == 2
  {
    var o := OpenWriter(m);
    var chunks := FreeListChunks([0]);
    assert chunks == [Le(1, 8), Le(0, 8)] by {
      assert IdChunks([0]) == [Le(0, 8)] + IdChunks([0][1..]);
    }
    var tail := chunks[1..];
    assert tail == [Le(0, 8)];
    var end := tail[1..];
    assert |end| == 0;
    var r1 := WriteData(o.m, o.w, chunks[0]);
    assert r1.m == o.m && r1.w.offset == LINK + 8;
    var r2 := WriteData(r1.m, r1.w, tail[0]);
    assert r2.m == o.m;
    assert WriteChunks(r2.m, r2.w, end).m == o.m;
  }

  /**
    The condition on the meta block is needed: committing once more the meta block that was read since leaves a
    header whose own meta block is the next block handed out.
   */
  lemma MetaCounterexample() returns (es: seq<Event>)
    ensures IsRun(Create(), es) && IsRun(Create(), es + [Done(CommitHeader(0))])
    ensures var s, s' := Final(Create(), es), Final(Create(), es + [Done(CommitHeader(0))]);
            && !SafeMeta(s, 0) && !LeadsSafely(s, 0, s')
            && ActiveHeader(s'.disk, s'.m).metaBlock == 0
            && Enabled(s', Open(1)) && Do(s', Open(1)).ids == [0]
  {
    es := BadRun();
    hide Inv, IsRun, Final, Create, BadRun, LeadsSafely, CanLead, SaveFreeList;
    BadRunStates();
    var s := Final(Create(), es);
    SaveOne(s.m);
    RunSnoc(Create(), es, Done(CommitHeader(0)));
    CreateInv();
    RunInv(Create(), es);
    CommitInv(s, 0);
    MetaSafeIff(s, 0);
    ReadIsUnsafe(s, 0);
    var s' := Do(s, CommitHeader(0)).s;
    assert s'.m.freeList == [0] && s'.m.maxBlock == 2 && s'.m.metaBlock == 0;
    assert ActiveHeader(s'.disk, s'.m) == s'.last.header by {
      ActiveIsLast(s');
    }
    assert s'.writers == map[];
  }

  lemma ActiveIsLast(s: Store)
    requires Inv(s)
    ensures ActiveHeader(s.disk, s.m) == s.last.header
  {
  }

  lemma ReadIsUnsafe(s: Store, meta: nat)
    requires s.writers == map[] && meta in s.m.usedBlocks && meta != INVALID_BLOCK
    ensures !SafeMeta(s, meta)
  {
    forall st: Stream | st.chain != [] && st.chain[0] == meta
      ensures !CanLead(s, meta, st)
    {
      assert meta in st.chain;
    }
  }

  /** A commit can lose a block: the second of two commits that read nothing and name no stream loses the first's. */
  lemma LosingCommit() returns (es: seq<Event>)
    ensures IsRun(Create(), es) && Lost(Final(Create(), es), 0)
  {
    hide Inv, Possible, After, Create, IsRun, Final, Live, Lost, Do;
    var s1, s2, s3 := BadRunWrites();
    var s4, s5 := BadRunReads(s3);
    es := BadRun()[..4];
    FirstFour(s1, s2, s3, s4);
    CreateInv();
    RunInv(Create(), es);
    var op := CommitHeader(INVALID_BLOCK);
    CommitNothing(s4);
    RunSnoc(Create(), es, Done(op));
    es := es + [Done(op)];
  }

  lemma CommitNothing(s: Store)
    requires Inv(s) && s.m == Manager([], [], 1, 0, 2, 0) && 0 in Live(s.last)
    ensures Possible(s, Done(CommitHeader(INVALID_BLOCK)))
    ensures Lost(After(s, Done(CommitHeader(INVALID_BLOCK))), 0)
  {
    assert Enabled(s, CommitHeader(INVALID_BLOCK));
    MetaBlocks(s, INVALID_BLOCK);
    assert MetaOf(s, INVALID_BLOCK) == NoStream();
    hide Inv, Do, Live, MetaOf, Lost, Enabled;
    CommitLosesExactly(s, INVALID_BLOCK, 0);
    CommitLost(s, INVALID_BLOCK, 0);
  }

  lemma FirstFour(s1: Store, s2: Store, s3: Store, s4: Store)
    requires var es := BadRun();
             && Possible(Create(), es[0]) && s1 == After(Create(), es[0])
             && Possible(s1, es[1]) && s2 == After(s1, es[1])
             && Possible(s2, es[2]) && s3 == After(s2, es[2])
             && Possible(s3, es[3]) && s4 == After(s3, es[3])
    ensures IsRun(Create(), BadRun()[..4]) && Final(Create(), BadRun()[..4]) == s4
  {
    var es := BadRun()[..4];
    hide Possible, After, Create;
    assert es[3..][1..] == [];
    assert IsRun(s3, es[3..]) && Final(s3, es[3..]) == s4;
    assert es[2..][1..] == es[3..];
    assert IsRun(s2, es[2..]) && Final(s2, es[2..]) == s4;
    assert es[1..][1..] == es[2..];
    assert IsRun(s1, es[1..]) && Final(s1, es[1..]) == s4;
  }
}
