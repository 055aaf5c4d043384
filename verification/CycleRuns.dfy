/**
  Whole cycles and whole runs of the worker: what they keep of every connection, which connections are lost to a failed
  insertion into the map, and when the number of open connections is the size of the map.
 */
module CycleRuns {
  import opened Bytes
  import opened Collections
  import opened Connections
  import opened EventCycle

  // ---------------------------------------------------------------- one pass over a queue

  /** A connection and the queue it is in. */
  datatype Spot = Spot(c: Conn, p: Option<Place>)

  function ReadSpot(c: Conn, r: ReadResult): Spot
  {
    match Clipped(r)
    case Again => Spot(c, None)
    case EndOrError => Spot(c, Some(Closing))
    case Data(bytes) => Spot(c.(input := c.input + bytes), Some(Processing))
  }

  function ReplySpot(c: Conn, r: Reply): Spot
  {
    var d := Replied(c, Unseen(c), r);
    Spot(d, AfterProcess(d))
  }

  function WriteSpot(c: Conn, results: seq<WriteResult>, pollOk: bool): Spot
  {
    var d := Flush(c, results);
    if d.closed then Spot(d, Some(Closing)) else Spot(d.(closed := !pollOk), None)
  }

  function Reads(w: World): (nat, Conn) -> Spot
  {
    (i: nat, c: Conn) => ReadSpot(c, w.read(i))
  }

  function Replies(w: World): (nat, Conn) -> Spot
  {
    (i: nat, c: Conn) => ReplySpot(c, w.reply(i))
  }

  function Writes(w: World): (nat, Conn) -> Spot
  {
    (i: nat, c: Conn) => WriteSpot(c, w.write(i), w.pollOk(i))
  }

  function PassOne(q: Phase, id: ConnId, i: nat, f: (nat, Conn) -> Spot): Phase
  {
    if id !in q.t.conns then q
    else
      var s := f(i, q.t.conns[id]);
      Moved(q, id, s.c, s.p)
  }

  /** The connection at each of the first `n` positions of a queue is taken from where it is to where `f` says. */
  function Pass(q: Phase, ids: seq<ConnId>, n: nat, f: (nat, Conn) -> Spot): Phase
  {
    if n == 0 || n > |ids| then q else PassOne(Pass(q, ids, n - 1, f), ids[n - 1], n - 1, f)
  }

  lemma {:induction false} ReadIsPass(q: Phase, ids: seq<ConnId>, n: nat, w: World)
    requires n <= |ids|
    ensures ReadUpTo(q, ids, n, w.read) == Pass(q, ids, n, Reads(w))
  {
    hide Moved, Clipped;
    if n > 0 {
      ReadIsPass(q, ids, n - 1, w);
    }
  }

  lemma {:induction false} ProcessIsPass(q: Phase, ids: seq<ConnId>, n: nat, w: World)
    requires n <= |ids|
    ensures ProcessUpTo(q, ids, n, w.reply) == Pass(q, ids, n, Replies(w))
  {
    hide Moved, Replied, Unseen, AfterProcess;
    if n > 0 {
      ProcessIsPass(q, ids, n - 1, w);
    }
  }

  lemma {:induction false} WriteIsPass(q: Phase, ids: seq<ConnId>, n: nat, w: World)
    requires n <= |ids|
    ensures WriteUpTo(q, ids, n, w) == Pass(q, ids, n, Writes(w))
  {
    hide Moved, Flush;
    if n > 0 {
      WriteIsPass(q, ids, n - 1, w);
    }
  }

  /** Connection `id` is live, is `c` and stands at `p`. */
  ghost predicate StandsAt(t: Table, id: ConnId, c: Conn, p: Option<Place>)
  {
    id in t.conns && t.conns[id] == c && PlaceOf(t, id) == p
  }

  lemma MovedSpots(q: Phase, x: ConnId, d: Conn, r: Option<Place>, id: ConnId, c: Conn, p: Option<Place>)
    ensures StandsAt(Moved(q, x, d, r).t, x, d, r)
    ensures x != id && StandsAt(q.t, id, c, p) ==> StandsAt(Moved(q, x, d, r).t, id, c, p)
  {
  }

  /** A pass leaves the connections outside its queue where they are. */
  lemma {:induction false} PassOther(q: Phase, ids: seq<ConnId>, n: nat, f: (nat, Conn) -> Spot,
                                     id: ConnId, c: Conn, p: Option<Place>)
    requires n <= |ids| && StandsAt(q.t, id, c, p) && forall i :: 0 <= i < n ==> ids[i] != id
    ensures StandsAt(Pass(q, ids, n, f).t, id, c, p)
  {
    hide StandsAt, Moved;
    if n > 0 {
      PassOther(q, ids, n - 1, f, id, c, p);
      var r := Pass(q, ids, n - 1, f);
      if ids[n - 1] in r.t.conns {
        var s := f(n - 1, r.t.conns[ids[n - 1]]);
        MovedSpots(r, ids[n - 1], s.c, s.p, id, c, p);
      }
    }
  }

  /** A pass takes a connection of its queue once, from where it was before the pass. */
  lemma {:induction false} PassThis(q: Phase, ids: seq<ConnId>, n: nat, f: (nat, Conn) -> Spot, j: nat,
                                    c: Conn, p: Option<Place>)
    requires j < n <= |ids| && NoDup(ids) && StandsAt(q.t, ids[j], c, p)
    ensures var s := f(j, c); StandsAt(Pass(q, ids, n, f).t, ids[j], s.c, s.p)
  {
    hide StandsAt, Moved, NoDup;
    var r, s := Pass(q, ids, n - 1, f), f(j, c);
    if n - 1 == j {
      Distinct(ids, j);
      PassOther(q, ids, j, f, ids[j], c, p);
      StandsFacts(r.t, ids[j], c, p);
      MovedSpots(r, ids[j], s.c, s.p, ids[j], c, p);
    } else {
      PassThis(q, ids, n - 1, f, j, c, p);
      Distinct(ids, n - 1);
      if ids[n - 1] in r.t.conns {
        var u := f(n - 1, r.t.conns[ids[n - 1]]);
        MovedSpots(r, ids[n - 1], u.c, u.p, ids[j], s.c, s.p);
      }
    }
  }

  lemma Distinct(ids: seq<ConnId>, j: nat)
    requires NoDup(ids) && j < |ids|
    ensures forall i :: 0 <= i < j ==> ids[i] != ids[j]
  {
  }

  lemma StandsFacts(t: Table, id: ConnId, c: Conn, p: Option<Place>)
    requires StandsAt(t, id, c, p)
    ensures id in t.conns && t.conns[id] == c && PlaceOf(t, id) == p
  {
  }

  lemma {:induction false} PassLost(q: Phase, ids: seq<ConnId>, n: nat, f: (nat, Conn) -> Spot)
    ensures Pass(q, ids, n, f).t.lost == q.t.lost
  {
    if 0 < n <= |ids| {
      PassLost(q, ids, n - 1, f);
    }
  }

  /** The queues only grow. */
  ghost predicate Longer(q: Phase, r: Phase)
  {
    q.preads <= r.preads && q.ins <= r.ins && q.outs <= r.outs && q.closes <= r.closes
  }

  lemma MovedLonger(q: Phase, id: ConnId, c: Conn, p: Option<Place>)
    ensures Longer(q, Moved(q, id, c, p))
    ensures p == Some(Reading) ==> Moved(q, id, c, p).preads == q.preads + [id]
    ensures p == Some(Processing) ==> Moved(q, id, c, p).ins == q.ins + [id]
    ensures p == Some(Writing) ==> Moved(q, id, c, p).outs == q.outs + [id]
  {
  }

  lemma LongerTrans(a: Phase, b: Phase, c: Phase)
    requires Longer(a, b) && Longer(b, c)
    ensures Longer(a, c)
  {
    PrefixTrans(a.preads, b.preads, c.preads);
    PrefixTrans(a.ins, b.ins, c.ins);
    PrefixTrans(a.outs, b.outs, c.outs);
    PrefixTrans(a.closes, b.closes, c.closes);
  }

  lemma {:induction false} PassLonger(q: Phase, ids: seq<ConnId>, m: nat, n: nat, f: (nat, Conn) -> Spot)
    requires m <= n <= |ids|
    ensures Longer(Pass(q, ids, m, f), Pass(q, ids, n, f))
    decreases n
  {
    hide Longer, Moved;
    if m == n {
      LongerSelf(Pass(q, ids, m, f));
    } else {
      PassLonger(q, ids, m, n - 1, f);
      var r := Pass(q, ids, n - 1, f);
      if ids[n - 1] in r.t.conns {
        var s := f(n - 1, r.t.conns[ids[n - 1]]);
        MovedLonger(r, ids[n - 1], s.c, s.p);
        LongerTrans(Pass(q, ids, m, f), r, Pass(q, ids, n, f));
      }
    }
  }

  lemma LongerSelf(q: Phase)
    ensures Longer(q, q)
  {
  }

  lemma PrefixAt(a: seq<ConnId>, id: ConnId, b: seq<ConnId>)
    requires a + [id] <= b
    ensures |a| < |b| && b[|a|] == id
  {
    assert b[|a|] == (a + [id])[|a|];
  }

  /** A connection that a pass sends to a later queue joins it behind those sent there before it. */
  lemma {:induction false} PassJoins(q: Phase, ids: seq<ConnId>, j: nat, f: (nat, Conn) -> Spot, c: Conn,
                                     p: Option<Place>)
    requires j < |ids| && NoDup(ids) && StandsAt(q.t, ids[j], c, p)
    ensures var before, after, s := Pass(q, ids, j, f), Pass(q, ids, |ids|, f), f(j, c);
            && (s.p == Some(Processing) ==> |before.ins| < |after.ins| && after.ins[|before.ins|] == ids[j])
            && (s.p == Some(Writing) ==> |before.outs| < |after.outs| && after.outs[|before.outs|] == ids[j])
  {
    hide NoDup, Moved, StandsAt, Longer;
    var before, after, s := Pass(q, ids, j, f), Pass(q, ids, |ids|, f), f(j, c);
    Distinct(ids, j);
    PassOther(q, ids, j, f, ids[j], c, p);
    StandsFacts(before.t, ids[j], c, p);
    var next := Moved(before, ids[j], s.c, s.p);
    assert Pass(q, ids, j + 1, f) == next;
    MovedLonger(before, ids[j], s.c, s.p);
    PassLonger(q, ids, j + 1, |ids|, f);
    LongerFacts(next, after);
    if s.p == Some(Processing) {
      PrefixAt(before.ins, ids[j], after.ins);
    }
    if s.p == Some(Writing) {
      PrefixAt(before.outs, ids[j], after.outs);
    }
  }

  lemma LongerFacts(q: Phase, r: Phase)
    requires Longer(q, r)
    ensures q.preads <= r.preads && q.ins <= r.ins && q.outs <= r.outs && q.closes <= r.closes
  {
  }

  /** Whoever stands at the close queue is in it. */
  ghost predicate Listed(q: Phase)
  {
    Only(q.t, q.closes, Closing)
  }

  lemma MovedListed(q: Phase, id: ConnId, c: Conn, p: Option<Place>)
    requires Listed(q)
    ensures Listed(Moved(q, id, c, p))
  {
    OnlyAfter(q.t, id, c, p, q.closes, Closing);
  }

  lemma {:induction false} PassListed(q: Phase, ids: seq<ConnId>, n: nat, f: (nat, Conn) -> Spot)
    requires Listed(q)
    ensures Listed(Pass(q, ids, n, f))
  {
    hide Listed, Moved;
    if 0 < n <= |ids| {
      PassListed(q, ids, n - 1, f);
      var r := Pass(q, ids, n - 1, f);
      if ids[n - 1] in r.t.conns {
        var s := f(n - 1, r.t.conns[ids[n - 1]]);
        MovedListed(r, ids[n - 1], s.c, s.p);
      }
    }
  }

  // ---------------------------------------------------------------- every pass keeps the table sound

  lemma ReadSpotFits(c: Conn, r: ReadResult)
    requires Fits(c, Some(Reading))
    ensures var s := ReadSpot(c, r);
            && Fits(s.c, s.p) && Later(c, s.c) && s.c.fd == c.fd
            && (s.p.None? || s.p.value == Processing || s.p.value == Closing)
  {
    hide Fits, Later, Clipped;
    ReadFits(c, if Clipped(r).Data? then Clipped(r).bytes else []);
    LaterSelf(c);
  }

  lemma ReplySpotFits(c: Conn, r: Reply)
    requires Fits(c, Some(Processing))
    ensures var s := ReplySpot(c, r);
            && Fits(s.c, s.p) && Later(c, s.c) && s.c.fd == c.fd
            && (s.p.None? || s.p.value == Writing || s.p.value == Closing)
  {
    assert c.input == c.seen + Unseen(c);
    hide Fits, Later, Unseen;
    RepliedFits(c, Unseen(c), r);
  }

  lemma WriteSpotFits(c: Conn, results: seq<WriteResult>, pollOk: bool)
    requires Fits(c, Some(Writing))
    ensures var s := WriteSpot(c, results, pollOk);
            Fits(s.c, s.p) && Later(c, s.c) && s.c.fd == c.fd && (s.p.None? || s.p.value == Closing)
  {
    hide Fits, Later, Flush;
    FlushFits(c, results, !pollOk);
    LaterFd(c, Flush(c, results));
  }

  lemma {:induction false} ReadPass(q: Phase, preads: seq<ConnId>, n: nat, w: World)
    requires ReadingFrom(q.t, preads, 0, q.ins, q.outs, q.closes) && n <= |preads|
    ensures var r := Pass(q, preads, n, Reads(w));
            ReadingFrom(r.t, preads, n, r.ins, r.outs, r.closes) && Extends(q.t, r.t)
  {
    hide ReadingFrom, Extends, Set, Fits, Later, TableOk, ReadSpot;
    if n == 0 {
      ExtendsSelf(q.t);
    } else {
      ReadPass(q, preads, n - 1, w);
      var r := Pass(q, preads, n - 1, Reads(w));
      ReadingFacts(r.t, preads, n - 1, r.ins, r.outs, r.closes);
      var id := preads[n - 1];
      var c := r.t.conns[id];
      var s := ReadSpot(c, w.read(n - 1));
      ReadSpotFits(c, w.read(n - 1));
      ReadStep(r.t, preads, n - 1, r.ins, r.outs, r.closes, s.c, s.p);
      SetExtends(r.t, id, s.c, s.p);
      ReadingOk(Set(r.t, id, s.c, s.p), preads, n, Add(r.ins, s.p == Some(Processing), id), r.outs,
                Add(r.closes, s.p == Some(Closing), id));
      ExtendsTrans(q.t, r.t, Set(r.t, id, s.c, s.p));
    }
  }

  lemma ReadingOk(t: Table, preads: seq<ConnId>, n: nat, ins: seq<ConnId>, outs: seq<ConnId>, closes: seq<ConnId>)
    requires ReadingFrom(t, preads, n, ins, outs, closes)
    ensures TableOk(t)
  {
  }

  lemma {:induction false} ProcessPass(q: Phase, ins: seq<ConnId>, n: nat, w: World)
    requires ProcessingFrom(q.t, ins, 0, q.outs, q.closes) && n <= |ins|
    ensures var r := Pass(q, ins, n, Replies(w));
            ProcessingFrom(r.t, ins, n, r.outs, r.closes) && Extends(q.t, r.t)
  {
    hide ProcessingFrom, Extends, Set, Fits, Later, TableOk, ReplySpot;
    if n == 0 {
      ExtendsSelf(q.t);
    } else {
      ProcessPass(q, ins, n - 1, w);
      var r := Pass(q, ins, n - 1, Replies(w));
      ProcessingFacts(r.t, ins, n - 1, r.outs, r.closes);
      var id := ins[n - 1];
      var c := r.t.conns[id];
      var s := ReplySpot(c, w.reply(n - 1));
      ReplySpotFits(c, w.reply(n - 1));
      ProcessStep(r.t, ins, n - 1, r.outs, r.closes, s.c, s.p);
      SetExtends(r.t, id, s.c, s.p);
      ProcessingOk(Set(r.t, id, s.c, s.p), ins, n, Add(r.outs, s.p == Some(Writing), id),
                   Add(r.closes, s.p == Some(Closing), id));
      ExtendsTrans(q.t, r.t, Set(r.t, id, s.c, s.p));
    }
  }

  lemma ProcessingFacts(t: Table, ins: seq<ConnId>, i: nat, outs: seq<ConnId>, closes: seq<ConnId>)
    requires ProcessingFrom(t, ins, i, outs, closes) && i < |ins|
    ensures TableOk(t) && ins[i] in t.conns && Fits(t.conns[ins[i]], Some(Processing))
  {
    QueueHead(t, ins, i, Processing);
    QueuedFits(t, ins[i]);
  }

  lemma ProcessingOk(t: Table, ins: seq<ConnId>, n: nat, outs: seq<ConnId>, closes: seq<ConnId>)
    requires ProcessingFrom(t, ins, n, outs, closes)
    ensures TableOk(t)
  {
  }

  lemma {:induction false} WritePass(q: Phase, outs: seq<ConnId>, n: nat, w: World)
    requires WritingFrom(q.t, outs, 0, q.closes) && n <= |outs|
    ensures var r := Pass(q, outs, n, Writes(w)); WritingFrom(r.t, outs, n, r.closes) && Extends(q.t, r.t)
  {
    hide WritingFrom, Extends, Set, Fits, Later, TableOk, WriteSpot;
    if n == 0 {
      ExtendsSelf(q.t);
    } else {
      WritePass(q, outs, n - 1, w);
      var r := Pass(q, outs, n - 1, Writes(w));
      SendingFacts(r.t, outs, n - 1, r.closes);
      var id := outs[n - 1];
      var c := r.t.conns[id];
      var s := WriteSpot(c, w.write(n - 1), w.pollOk(n - 1));
      WriteSpotFits(c, w.write(n - 1), w.pollOk(n - 1));
      WriteStep(r.t, outs, n - 1, r.closes, s.c, s.p);
      SetExtends(r.t, id, s.c, s.p);
      WritingOk(Set(r.t, id, s.c, s.p), outs, n, Add(r.closes, s.p == Some(Closing), id));
      ExtendsTrans(q.t, r.t, Set(r.t, id, s.c, s.p));
    }
  }

  lemma WritingOk(t: Table, outs: seq<ConnId>, n: nat, closes: seq<ConnId>)
    requires WritingFrom(t, outs, n, closes)
    ensures TableOk(t)
  {
  }

  lemma {:induction false} ClosePass(t: Table, closes: seq<ConnId>, n: nat)
    requires ClosingFrom(t, closes, 0) && n <= |closes|
    ensures var u := CloseUpTo(t, closes, n);
            ClosingFrom(u, closes, n) && Extends(t, u) && u.lost <= t.lost
  {
    hide ClosingFrom, Extends, Close, TableOk;
    if n == 0 {
      ExtendsSelf(t);
    } else {
      ClosePass(t, closes, n - 1);
      var u := CloseUpTo(t, closes, n - 1);
      ClosingOk(u, closes, n - 1);
      CloseStep(u, closes, n - 1);
      CloseExtends(u, closes[n - 1]);
      CloseFrame(u, closes[n - 1]);
      ClosingOk(Close(u, closes[n - 1]), closes, n);
      ExtendsTrans(t, u, Close(u, closes[n - 1]));
    }
  }

  /** Closing frees exactly the connections of the close queue. */
  lemma {:induction false} CloseSpots(t: Table, closes: seq<ConnId>, n: nat, id: ConnId, c: Conn, p: Option<Place>)
    requires n <= |closes| && StandsAt(t, id, c, p)
    ensures var u := CloseUpTo(t, closes, n);
            if id in closes[..n] then id !in u.conns && id in u.gone && u.gone[id] == c
            else StandsAt(u, id, c, p) && (id in u.lost <==> id in t.lost)
  {
    if n > 0 {
      CloseSpots(t, closes, n - 1, id, c, p);
      assert closes[..n] == closes[..n - 1] + [closes[n - 1]];
    }
  }

  // ---------------------------------------------------------------- accepting

  lemma SortedOk(q: Phase, id: ConnId, past: set<int>)
    requires Accepting(q.t, q.attachs, q.preads, q.outs, q.closes, past) && q.ins == []
    requires id in q.t.conns && q.t.conns[id].fd !in past && id !in q.t.place
    requires q.t.conns[id].fd in q.t.hmap ==> q.t.hmap[q.t.conns[id].fd] == id
    ensures var r := Sorted(q, id);
            && Accepting(r.t, r.attachs, r.preads, r.outs, r.closes, past + {q.t.conns[id].fd})
            && r.ins == [] && Extends(q.t, r.t)
  {
    hide Accepting, Extends, Set, Fits, Later, TableOk, Sorted, NeedOf;
    var c := q.t.conns[id];
    IdleFits(q.t, q.attachs, q.preads, q.outs, q.closes, past, id);
    AcceptedOk(q.t, q.attachs, q.preads, q.outs, q.closes, past);
    LaterSelf(c);
    AcceptStep(q.t, q.attachs, q.preads, q.outs, q.closes, past, id, NeedOf(c));
    SetExtends(q.t, id, c, Some(NeedOf(c)));
    SortedIs(q, id);
  }

  /** One event keeps the table sound. */
  lemma AcceptOnOk(q: Phase, e: Event, listenFd: int, wakeFd: int, past: set<int>)
    requires Accepting(q.t, q.attachs, q.preads, q.outs, q.closes, past) && q.ins == [] && e.fd !in past
    ensures var r := AcceptOn(q, e, listenFd, wakeFd);
            && Accepting(r.t, r.attachs, r.preads, r.outs, r.closes, past + {e.fd})
            && r.ins == [] && Extends(q.t, r.t)
  {
    hide Accepting, Extends, Open, TableOk, Sorted;
    AcceptedOk(q.t, q.attachs, q.preads, q.outs, q.closes, past);
    if e.fd == wakeFd {
      PastGrows(q.t, q.attachs, q.preads, q.outs, q.closes, past, e.fd);
      ExtendsSelf(q.t);
    } else if e.fd in q.t.hmap {
      InMap(q.t, e.fd);
      NotPlaced(q, past, q.t.hmap[e.fd]);
      SortedOk(q, q.t.hmap[e.fd], past);
    } else if e.fd == listenFd || !e.mallocOk {
      PastGrows(q.t, q.attachs, q.preads, q.outs, q.closes, past, e.fd);
      ExtendsSelf(q.t);
    } else {
      var q1 := q.(t := Open(q.t, e.fd, e.insertOk));
      OpenAccepts(q.t, q.attachs, q.preads, q.outs, q.closes, past, e.fd, e.insertOk);
      OpenFacts(q.t, e.fd, e.insertOk);
      SortedOk(q1, q.t.nextId, past);
      var r := Sorted(q1, q.t.nextId);
      AcceptedOk(r.t, r.attachs, r.preads, r.outs, r.closes, past + {e.fd});
      ExtendsTrans(q.t, q1.t, r.t);
    }
  }

  lemma NotPlaced(q: Phase, past: set<int>, id: ConnId)
    requires Accepting(q.t, q.attachs, q.preads, q.outs, q.closes, past) && id in q.t.conns && q.t.conns[id].fd !in past
    ensures id !in q.t.place
  {
  }

  lemma OpenFacts(t: Table, fd: int, insertOk: bool)
    ensures var u := Open(t, fd, insertOk);
            && t.nextId in u.conns && u.conns[t.nextId] == NewConn(fd) && u.place == t.place
            && u.hmap == (if insertOk then t.hmap[fd := t.nextId] else t.hmap)
            && u.lost == (if insertOk then t.lost else t.lost + {t.nextId}) && u.nextId == t.nextId + 1
            && (forall id :: id in t.conns && id != t.nextId ==> id in u.conns && u.conns[id] == t.conns[id])
  {
  }

  /** The event opens a connection. */
  predicate Opens(hmap: map<int, ConnId>, e: Event, listenFd: int, wakeFd: int)
  {
    e.fd != wakeFd && e.fd !in hmap && e.fd != listenFd && e.mallocOk
  }

  /** What one event does to the queues, the map and the lost connections. */
  lemma AcceptOnFrame(q: Phase, e: Event, listenFd: int, wakeFd: int)
    requires forall fd :: fd in q.t.hmap ==> q.t.hmap[fd] in q.t.conns
    ensures var r := AcceptOn(q, e, listenFd, wakeFd);
            && Longer(q, r) && (Listed(q) ==> Listed(r))
            && (forall fd :: fd != e.fd ==> (fd in r.t.hmap <==> fd in q.t.hmap))
            && r.t.lost == (if Opens(q.t.hmap, e, listenFd, wakeFd) && !e.insertOk then q.t.lost + {q.t.nextId}
                            else q.t.lost)
            && (Opens(q.t.hmap, e, listenFd, wakeFd) ==>
                  && StandsAt(r.t, q.t.nextId, NewConn(e.fd), Some(Reading))
                  && r.preads == q.preads + [q.t.nextId])
  {
    hide Longer, Listed, Moved, StandsAt, Open;
    LongerSelf(q);
    if Opens(q.t.hmap, e, listenFd, wakeFd) {
      var id := q.t.nextId;
      var q1 := q.(t := Open(q.t, e.fd, e.insertOk));
      OpenFacts(q.t, e.fd, e.insertOk);
      SortedFrame(q1, id);
      SameQueues(q, q1);
      LongerTrans(q, q1, Sorted(q1, id));
    } else if e.fd != wakeFd && e.fd in q.t.hmap {
      SortedFrame(q, q.t.hmap[e.fd]);
    }
  }

  lemma SameQueues(q: Phase, r: Phase)
    requires r == q.(t := r.t) && r.t.place == q.t.place
    ensures Longer(q, r) && (Listed(q) ==> Listed(r))
  {
  }

  lemma SortedFrame(q: Phase, id: ConnId)
    requires id in q.t.conns
    ensures var c, r := q.t.conns[id], Sorted(q, id);
            && Longer(q, r) && (Listed(q) ==> Listed(r)) && r.t.hmap == q.t.hmap && r.t.lost == q.t.lost
            && StandsAt(r.t, id, c, Some(NeedOf(c)))
            && (NeedOf(c) == Reading ==> r.preads == q.preads + [id])
            && (NeedOf(c) == Writing ==> r.outs == q.outs + [id])
  {
    var c := q.t.conns[id];
    hide Longer, Listed, StandsAt;
    MovedLonger(q, id, c, Some(NeedOf(c)));
    MovedSpots(q, id, c, Some(NeedOf(c)), id, c, Some(NeedOf(c)));
    if Listed(q) {
      MovedListed(q, id, c, Some(NeedOf(c)));
    }
  }

  /** One event leaves the connections of other descriptors alone, and all lost ones: the map leads to none of them. */
  lemma AcceptOnSpots(q: Phase, e: Event, listenFd: int, wakeFd: int, past: set<int>,
                      id: ConnId, c: Conn, p: Option<Place>)
    requires Accepting(q.t, q.attachs, q.preads, q.outs, q.closes, past)
    requires StandsAt(q.t, id, c, p) && (c.fd != e.fd || id in q.t.lost)
    ensures var r := AcceptOn(q, e, listenFd, wakeFd);
            StandsAt(r.t, id, c, p) && (id in r.t.lost <==> id in q.t.lost)
  {
    hide Accepting, Moved, Open, TableOk;
    AcceptedOk(q.t, q.attachs, q.preads, q.outs, q.closes, past);
    MapFacts(q.t);
    NextIsNewId(q.t);
    if e.fd != wakeFd && e.fd in q.t.hmap {
      var x := q.t.hmap[e.fd];
      SortedFrame(q, x);
      MovedSpots(q, x, q.t.conns[x], Some(NeedOf(q.t.conns[x])), id, c, p);
    } else if Opens(q.t.hmap, e, listenFd, wakeFd) {
      var x := q.t.nextId;
      var q1 := q.(t := Open(q.t, e.fd, e.insertOk));
      OpenFacts(q.t, e.fd, e.insertOk);
      SortedFrame(q1, x);
      MovedSpots(q1, x, NewConn(e.fd), Some(NeedOf(NewConn(e.fd))), id, c, p);
    }
  }

  lemma MapFacts(t: Table)
    requires TableOk(t)
    ensures forall fd :: fd in t.hmap ==> t.hmap[fd] in t.conns && t.conns[t.hmap[fd]].fd == fd && t.hmap[fd] !in t.lost
    ensures forall id :: id in t.lost ==> id in t.conns
  {
  }

  lemma NextIsNewId(t: Table)
    requires TableOk(t)
    ensures t.nextId !in t.conns && forall id :: id in t.conns ==> id < t.nextId
  {
    forall id | id in t.conns
      ensures id < t.nextId
    {
      assert ConnOk(t, id);
    }
  }

  // ---------------------------------------------------------------- the phases of a cycle

  function Started(t: Table): Phase
  {
    Phase(t.(place := map[]), [], [], [], [], [])
  }

  /** After the first `n` events. */
  function AcceptedTo(t: Table, w: World, n: nat, listenFd: int, wakeFd: int): Phase
    requires n <= |w.events|
  {
    AcceptUpTo(Started(t), w.events, n, listenFd, wakeFd)
  }

  function Accepted(t: Table, w: World, listenFd: int, wakeFd: int): Phase
  {
    AcceptedTo(t, w, |w.events|, listenFd, wakeFd)
  }

  /** After the first `n` reads. */
  function ReceivedTo(t: Table, w: World, n: nat, listenFd: int, wakeFd: int): Phase
  {
    var q := Accepted(t, w, listenFd, wakeFd);
    Pass(q, q.preads, n, Reads(w))
  }

  function Received(t: Table, w: World, listenFd: int, wakeFd: int): Phase
  {
    ReceivedTo(t, w, |Accepted(t, w, listenFd, wakeFd).preads|, listenFd, wakeFd)
  }

  /** After the first `n` callbacks. */
  function AnsweredTo(t: Table, w: World, n: nat, listenFd: int, wakeFd: int): Phase
  {
    var q := Received(t, w, listenFd, wakeFd);
    Pass(q, q.ins, n, Replies(w))
  }

  function Answered(t: Table, w: World, listenFd: int, wakeFd: int): Phase
  {
    AnsweredTo(t, w, |Received(t, w, listenFd, wakeFd).ins|, listenFd, wakeFd)
  }

  function Sent(t: Table, w: World, listenFd: int, wakeFd: int): Phase
  {
    var q := Answered(t, w, listenFd, wakeFd);
    Pass(q, q.outs, |q.outs|, Writes(w))
  }

  lemma CycleIs(t: Table, w: World, listenFd: int, wakeFd: int)
    ensures var q := Sent(t, w, listenFd, wakeFd);
            CycleOf(t, w, listenFd, wakeFd) == q.(t := CloseUpTo(q.t, q.closes, |q.closes|))
  {
    hide Pass, AcceptUpTo, ReadUpTo, ProcessUpTo, WriteUpTo, CloseUpTo;
    var q1 := Accepted(t, w, listenFd, wakeFd);
    ReadIsPass(q1, q1.preads, |q1.preads|, w);
    var q2 := Received(t, w, listenFd, wakeFd);
    ProcessIsPass(q2, q2.ins, |q2.ins|, w);
    var q3 := Answered(t, w, listenFd, wakeFd);
    WriteIsPass(q3, q3.outs, |q3.outs|, w);
  }

  /** A table between cycles. */
  ghost predicate Sound(t: Table)
  {
    TableOk(t) && NoneAt(t, Processing)
  }

  lemma {:induction false} AcceptPass(t: Table, w: World, n: nat, listenFd: int, wakeFd: int)
    requires Sound(t) && DistinctFds(w.events) && n <= |w.events|
    ensures var r := AcceptedTo(t, w, n, listenFd, wakeFd);
            && Accepting(r.t, r.attachs, r.preads, r.outs, r.closes, FdsOf(w.events[..n]))
            && r.ins == [] && Extends(t, r.t) && Listed(r)
  {
    hide Accepting, Extends, TableOk, FdsOf, AcceptOn, Listed;
    if n == 0 {
      NoFds(w.events);
      ResetOk(t);
      ResetAccepts(t);
      ResetExtends(t);
      NoneListed(t);
    } else {
      AcceptPass(t, w, n - 1, listenFd, wakeFd);
      var r := AcceptedTo(t, w, n - 1, listenFd, wakeFd);
      FdsStep(w.events, n - 1);
      AcceptOnOk(r, w.events[n - 1], listenFd, wakeFd, FdsOf(w.events[..n - 1]));
      AcceptedOk(r.t, r.attachs, r.preads, r.outs, r.closes, FdsOf(w.events[..n - 1]));
      MapFacts(r.t);
      AcceptOnFrame(r, w.events[n - 1], listenFd, wakeFd);
      var s := AcceptOn(r, w.events[n - 1], listenFd, wakeFd);
      AcceptedOk(s.t, s.attachs, s.preads, s.outs, s.closes, FdsOf(w.events[..n]));
      ExtendsTrans(t, r.t, s.t);
    }
  }

  lemma NoneListed(t: Table)
    ensures Listed(Started(t))
  {
  }

  /** The states that the phases of a cycle go through. */
  lemma CyclePhases(t: Table, w: World, listenFd: int, wakeFd: int)
    requires Sound(t) && DistinctFds(w.events)
    ensures var q := Accepted(t, w, listenFd, wakeFd);
            Extends(t, q.t) && Queued(q.t, q.preads, Reading) && TableOk(q.t)
    ensures var q := Received(t, w, listenFd, wakeFd);
            Extends(t, q.t) && ProcessingFrom(q.t, q.ins, 0, q.outs, q.closes)
    ensures var q := Answered(t, w, listenFd, wakeFd);
            Extends(t, q.t) && WritingFrom(q.t, q.outs, 0, q.closes)
    ensures var q := Sent(t, w, listenFd, wakeFd);
            && Extends(t, q.t) && ClosingFrom(q.t, q.closes, 0) && Listed(q)
            && q.t.lost == Accepted(t, w, listenFd, wakeFd).t.lost
  {
    hide Accepting, Extends, TableOk, FdsOf, AcceptUpTo, Listed, Pass, ReadingFrom, ProcessingFrom, WritingFrom,
      ClosingFrom, Queued, Packets, Slots;
    AcceptPass(t, w, |w.events|, listenFd, wakeFd);
    var q1 := Accepted(t, w, listenFd, wakeFd);
    AcceptedQueues(q1, FdsOf(w.events[..|w.events|]));
    ToReading(q1.t, q1.attachs, q1.preads, q1.outs, q1.closes, FdsOf(w.events[..|w.events|]), []);
    ReadPass(q1, q1.preads, |q1.preads|, w);
    PassListed(q1, q1.preads, |q1.preads|, Reads(w));
    PassLost(q1, q1.preads, |q1.preads|, Reads(w));
    var q2 := Received(t, w, listenFd, wakeFd);
    ReadingOk(q2.t, q1.preads, |q1.preads|, q2.ins, q2.outs, q2.closes);
    ExtendsTrans(t, q1.t, q2.t);
    ToProcessing(q2.t, q1.preads, q2.ins, q2.outs, q2.closes);
    ProcessPass(q2, q2.ins, |q2.ins|, w);
    PassListed(q2, q2.ins, |q2.ins|, Replies(w));
    PassLost(q2, q2.ins, |q2.ins|, Replies(w));
    var q3 := Answered(t, w, listenFd, wakeFd);
    ProcessingOk(q3.t, q2.ins, |q2.ins|, q3.outs, q3.closes);
    ExtendsTrans(t, q2.t, q3.t);
    ToWriting(q3.t, q2.ins, q3.outs, q3.closes);
    WritePass(q3, q3.outs, |q3.outs|, w);
    PassListed(q3, q3.outs, |q3.outs|, Writes(w));
    PassLost(q3, q3.outs, |q3.outs|, Writes(w));
    var q4 := Sent(t, w, listenFd, wakeFd);
    WritingOk(q4.t, q3.outs, |q3.outs|, q4.closes);
    ExtendsTrans(t, q3.t, q4.t);
    ToClosing(q4.t, q3.outs, q4.closes);
  }

  lemma AcceptedQueues(q: Phase, past: set<int>)
    requires Accepting(q.t, q.attachs, q.preads, q.outs, q.closes, past)
    ensures Queued(q.t, q.preads, Reading) && TableOk(q.t)
  {
  }

  /**
    A cycle keeps the table sound, and every connection there was lives on, later, or was closed once and for all, but
    never while in background work.
   */
  lemma CycleKeeps(t: Table, w: World, listenFd: int, wakeFd: int)
    requires Sound(t) && DistinctFds(w.events)
    ensures var u := CycleOf(t, w, listenFd, wakeFd).t;
            Sound(u) && Extends(t, u) && u.lost <= Accepted(t, w, listenFd, wakeFd).t.lost
  {
    hide Extends, TableOk, NoneAt, Accepted, Sent, CycleOf, CloseUpTo, Listed, ProcessingFrom, WritingFrom,
      ClosingFrom, Queued;
    CyclePhases(t, w, listenFd, wakeFd);
    CycleIs(t, w, listenFd, wakeFd);
    var q := Sent(t, w, listenFd, wakeFd);
    ClosePass(q.t, q.closes, |q.closes|);
    FromClosing(CloseUpTo(q.t, q.closes, |q.closes|), q.closes);
    ExtendsTrans(t, q.t, CloseUpTo(q.t, q.closes, |q.closes|));
  }

  // ---------------------------------------------------------------- one connection through a cycle

  lemma OutOfQueue(t: Table, s: seq<ConnId>, at: Place, id: ConnId, c: Conn, p: Option<Place>)
    requires Queued(t, s, at) && StandsAt(t, id, c, p) && p != Some(at)
    ensures forall i :: 0 <= i < |s| ==> s[i] != id
  {
  }

  lemma QueueOfProcessing(q: Phase)
    requires ProcessingFrom(q.t, q.ins, 0, q.outs, q.closes)
    ensures Queued(q.t, q.ins, Processing) && NoDup(q.ins)
  {
    assert q.ins[0..] == q.ins;
  }

  lemma QueueOfWriting(q: Phase)
    requires WritingFrom(q.t, q.outs, 0, q.closes)
    ensures Queued(q.t, q.outs, Writing) && NoDup(q.outs)
  {
    assert q.outs[0..] == q.outs;
  }

  lemma QueueOfClosing(q: Phase)
    requires ClosingFrom(q.t, q.closes, 0)
    ensures Queued(q.t, q.closes, Closing)
  {
    assert q.closes[0..] == q.closes;
  }

  /** A connection that no one reads from, calls back on or writes to in this cycle stands where it stood. */
  lemma ThroughReads(t: Table, w: World, listenFd: int, wakeFd: int, id: ConnId, c: Conn, p: Option<Place>)
    requires Sound(t) && DistinctFds(w.events) && p != Some(Reading)
    requires StandsAt(Accepted(t, w, listenFd, wakeFd).t, id, c, p)
    ensures StandsAt(Received(t, w, listenFd, wakeFd).t, id, c, p)
  {
    hide Sound, Accepted, Queued, StandsAt, TableOk, Extends, ProcessingFrom, WritingFrom, ClosingFrom, Listed, Pass,
      Answered, Sent;
    CyclePhases(t, w, listenFd, wakeFd);
    var q := Accepted(t, w, listenFd, wakeFd);
    OutOfQueue(q.t, q.preads, Reading, id, c, p);
    PassOther(q, q.preads, |q.preads|, Reads(w), id, c, p);
  }

  lemma ThroughReplies(t: Table, w: World, listenFd: int, wakeFd: int, id: ConnId, c: Conn, p: Option<Place>)
    requires Sound(t) && DistinctFds(w.events) && p != Some(Processing)
    requires StandsAt(Received(t, w, listenFd, wakeFd).t, id, c, p)
    ensures StandsAt(Answered(t, w, listenFd, wakeFd).t, id, c, p)
  {
    hide Sound, Accepted, Received, Queued, StandsAt, TableOk, Extends, ProcessingFrom, WritingFrom, ClosingFrom,
      Listed, Pass, Sent;
    CyclePhases(t, w, listenFd, wakeFd);
    var q := Received(t, w, listenFd, wakeFd);
    QueueOfProcessing(q);
    OutOfQueue(q.t, q.ins, Processing, id, c, p);
    PassOther(q, q.ins, |q.ins|, Replies(w), id, c, p);
  }

  lemma ThroughWrites(t: Table, w: World, listenFd: int, wakeFd: int, id: ConnId, c: Conn, p: Option<Place>)
    requires Sound(t) && DistinctFds(w.events) && p != Some(Writing)
    requires StandsAt(Answered(t, w, listenFd, wakeFd).t, id, c, p)
    ensures StandsAt(Sent(t, w, listenFd, wakeFd).t, id, c, p)
  {
    hide Sound, Accepted, Received, Answered, Queued, StandsAt, TableOk, Extends, ProcessingFrom, WritingFrom,
      ClosingFrom, Listed, Pass;
    CyclePhases(t, w, listenFd, wakeFd);
    var q := Answered(t, w, listenFd, wakeFd);
    QueueOfWriting(q);
    OutOfQueue(q.t, q.outs, Writing, id, c, p);
    PassOther(q, q.outs, |q.outs|, Writes(w), id, c, p);
  }

  /** The end of the cycle frees exactly the connections that stand at the close queue. */
  lemma AtTheEnd(t: Table, w: World, listenFd: int, wakeFd: int, id: ConnId, c: Conn, p: Option<Place>)
    requires Sound(t) && DistinctFds(w.events)
    requires StandsAt(Sent(t, w, listenFd, wakeFd).t, id, c, p)
    ensures var u := CycleOf(t, w, listenFd, wakeFd).t;
            if p == Some(Closing) then id !in u.conns && id !in u.lost && id in u.gone && u.gone[id] == c
            else StandsAt(u, id, c, p) && (id in u.lost <==> id in Accepted(t, w, listenFd, wakeFd).t.lost)
  {
    hide Sound, Accepted, Sent, Queued, StandsAt, TableOk, Extends, ProcessingFrom, WritingFrom, ClosingFrom, Listed,
      CycleOf, CloseUpTo;
    CyclePhases(t, w, listenFd, wakeFd);
    CycleKeeps(t, w, listenFd, wakeFd);
    CycleIs(t, w, listenFd, wakeFd);
    var q := Sent(t, w, listenFd, wakeFd);
    QueueOfClosing(q);
    CloseSpots(q.t, q.closes, |q.closes|, id, c, p);
    assert q.closes[..|q.closes|] == q.closes;
    if p == Some(Closing) {
      ListedIn(q, id, c);
      SoundLost(CycleOf(t, w, listenFd, wakeFd).t);
    } else {
      OutOfQueue(q.t, q.closes, Closing, id, c, p);
    }
  }

  lemma ListedIn(q: Phase, id: ConnId, c: Conn)
    requires Listed(q) && StandsAt(q.t, id, c, Some(Closing))
    ensures id in q.closes
  {
  }

  lemma SoundLost(t: Table)
    requires Sound(t)
    ensures forall id :: id in t.lost ==> id in t.conns
  {
  }

  /** From the end of the reads on, for a connection with nothing to process or to write. */
  lemma AfterReads(t: Table, w: World, listenFd: int, wakeFd: int, id: ConnId, c: Conn, p: Option<Place>)
    requires Sound(t) && DistinctFds(w.events) && p != Some(Processing) && p != Some(Writing)
    requires StandsAt(Received(t, w, listenFd, wakeFd).t, id, c, p)
    ensures var u := CycleOf(t, w, listenFd, wakeFd).t;
            if p == Some(Closing) then id !in u.conns && id !in u.lost && id in u.gone && u.gone[id] == c
            else StandsAt(u, id, c, p) && (id in u.lost <==> id in Accepted(t, w, listenFd, wakeFd).t.lost)
  {
    hide *;
    ThroughReplies(t, w, listenFd, wakeFd, id, c, p);
    ThroughWrites(t, w, listenFd, wakeFd, id, c, p);
    AtTheEnd(t, w, listenFd, wakeFd, id, c, p);
  }

  // ---------------------------------------------------------------- lost connections

  /** Events that lead to other connections, and any event at all if the connection is lost, leave it alone. */
  lemma {:induction false} AcceptKeeps(t: Table, w: World, m: nat, n: nat, listenFd: int, wakeFd: int,
                                       id: ConnId, c: Conn, p: Option<Place>)
    requires Sound(t) && DistinctFds(w.events) && m <= n <= |w.events|
    requires StandsAt(AcceptedTo(t, w, m, listenFd, wakeFd).t, id, c, p)
    requires || id in AcceptedTo(t, w, m, listenFd, wakeFd).t.lost
             || forall k :: m <= k < n ==> w.events[k].fd != c.fd
    ensures var q, r := AcceptedTo(t, w, m, listenFd, wakeFd), AcceptedTo(t, w, n, listenFd, wakeFd);
            StandsAt(r.t, id, c, p) && (id in r.t.lost <==> id in q.t.lost) && Longer(q, r)
    decreases n
  {
    hide Sound, Accepting, StandsAt, TableOk, Extends, Listed, AcceptOn, Longer, FdsOf;
    var q := AcceptedTo(t, w, m, listenFd, wakeFd);
    if m == n {
      LongerSelf(q);
    } else {
      AcceptKeeps(t, w, m, n - 1, listenFd, wakeFd, id, c, p);
      var r, e := AcceptedTo(t, w, n - 1, listenFd, wakeFd), w.events[n - 1];
      AcceptPass(t, w, n - 1, listenFd, wakeFd);
      AcceptedOk(r.t, r.attachs, r.preads, r.outs, r.closes, FdsOf(w.events[..n - 1]));
      MapFacts(r.t);
      AcceptOnFrame(r, e, listenFd, wakeFd);
      AcceptOnSpots(r, e, listenFd, wakeFd, FdsOf(w.events[..n - 1]), id, c, p);
      LongerTrans(q, r, AcceptOn(r, e, listenFd, wakeFd));
    }
  }

  /**
    A lost connection stays lost: the map never leads to it, so no later cycle reads from it, calls back on it, writes
    to it or closes it.
   */
  lemma LostStays(t: Table, w: World, listenFd: int, wakeFd: int, id: ConnId)
    requires Sound(t) && DistinctFds(w.events) && id in t.lost
    ensures var u := CycleOf(t, w, listenFd, wakeFd).t;
            id in t.conns && id in u.lost && id in u.conns && u.conns[id] == t.conns[id]
  {
    hide Sound, CycleOf, AcceptUpTo, Longer, TableOk, Received, AcceptOn;
    SoundLost(t);
    var c := t.conns[id];
    assert StandsAt(AcceptedTo(t, w, 0, listenFd, wakeFd).t, id, c, None) by {
      NoEvents(t, w, listenFd, wakeFd);
    }
    AcceptKeeps(t, w, 0, |w.events|, listenFd, wakeFd, id, c, None) by {
      NoEvents(t, w, listenFd, wakeFd);
    }
    NoEvents(t, w, listenFd, wakeFd);
    ThroughReads(t, w, listenFd, wakeFd, id, c, None);
    AfterReads(t, w, listenFd, wakeFd, id, c, None);
  }

  lemma NoEvents(t: Table, w: World, listenFd: int, wakeFd: int)
    ensures AcceptedTo(t, w, 0, listenFd, wakeFd) == Started(t)
  {
  }

  /** Event `i` of the cycle opens a connection. */
  predicate OpensAt(t: Table, w: World, i: nat, listenFd: int, wakeFd: int)
  {
    i < |w.events| && Opens(t.hmap, w.events[i], listenFd, wakeFd)
  }

  /** The connection that event `i` opens, if it opens one. */
  function NewId(t: Table, w: World, i: nat, listenFd: int, wakeFd: int): ConnId
    requires i <= |w.events|
  {
    AcceptedTo(t, w, i, listenFd, wakeFd).t.nextId
  }

  /** Whether a descriptor is in the map is up to its own event alone. */
  lemma {:induction false} MapUntouched(t: Table, w: World, n: nat, listenFd: int, wakeFd: int, fd: int)
    requires Sound(t) && DistinctFds(w.events) && n <= |w.events| && forall k :: 0 <= k < n ==> w.events[k].fd != fd
    ensures fd in AcceptedTo(t, w, n, listenFd, wakeFd).t.hmap <==> fd in t.hmap
  {
    hide Sound, Accepting, TableOk, Extends, Listed, AcceptOn, Longer, FdsOf, StandsAt;
    if n > 0 {
      MapUntouched(t, w, n - 1, listenFd, wakeFd, fd);
      var r := AcceptedTo(t, w, n - 1, listenFd, wakeFd);
      AcceptPass(t, w, n - 1, listenFd, wakeFd);
      AcceptedOk(r.t, r.attachs, r.preads, r.outs, r.closes, FdsOf(w.events[..n - 1]));
      MapFacts(r.t);
      AcceptOnFrame(r, w.events[n - 1], listenFd, wakeFd);
    }
  }

  /** One more event: what it adds to the lost connections and to the read queue. */
  lemma AcceptNext(t: Table, w: World, i: nat, listenFd: int, wakeFd: int)
    requires Sound(t) && DistinctFds(w.events) && i < |w.events|
    ensures var q, r := AcceptedTo(t, w, i, listenFd, wakeFd), AcceptedTo(t, w, i + 1, listenFd, wakeFd);
            var e := w.events[i];
            && q.t.nextId !in q.t.lost && q.t.nextId !in t.conns
            && r.t.lost == (if OpensAt(t, w, i, listenFd, wakeFd) && !e.insertOk then q.t.lost + {q.t.nextId}
                            else q.t.lost)
            && (OpensAt(t, w, i, listenFd, wakeFd) ==>
                  && StandsAt(r.t, q.t.nextId, NewConn(e.fd), Some(Reading))
                  && r.preads == q.preads + [q.t.nextId])
  {
    var q := AcceptedTo(t, w, i, listenFd, wakeFd);
    assert AcceptedTo(t, w, i + 1, listenFd, wakeFd) == AcceptOn(q, w.events[i], listenFd, wakeFd);
    assert TableOk(t);
    hide Sound, Accepting, TableOk, Listed, AcceptOn, Longer, FdsOf, StandsAt, AcceptUpTo;
    AcceptPass(t, w, i, listenFd, wakeFd);
    AcceptedOk(q.t, q.attachs, q.preads, q.outs, q.closes, FdsOf(w.events[..i]));
    MapFacts(q.t);
    NextIsNewId(q.t);
    NextIsNewId(t);
    assert forall id :: id in t.conns ==> id < q.t.nextId;
    hide Extends;
    MapUntouched(t, w, i, listenFd, wakeFd, w.events[i].fd);
    AcceptOnFrame(q, w.events[i], listenFd, wakeFd);
  }

  /** A connection opened by event `i` is new, waits to be read, and is lost if its insertion failed. */
  lemma Opened(t: Table, w: World, i: nat, listenFd: int, wakeFd: int)
    requires Sound(t) && DistinctFds(w.events) && OpensAt(t, w, i, listenFd, wakeFd)
    ensures var q, id, j := Accepted(t, w, listenFd, wakeFd), NewId(t, w, i, listenFd, wakeFd),
                            |AcceptedTo(t, w, i, listenFd, wakeFd).preads|;
            && id !in t.conns && StandsAt(q.t, id, NewConn(w.events[i].fd), Some(Reading))
            && j < |q.preads| && q.preads[j] == id
            && (id in q.t.lost <==> !w.events[i].insertOk)
  {
    hide Sound, StandsAt, AcceptUpTo, Longer;
    AcceptNext(t, w, i, listenFd, wakeFd);
    var before, next := AcceptedTo(t, w, i, listenFd, wakeFd), AcceptedTo(t, w, i + 1, listenFd, wakeFd);
    var id := before.t.nextId;
    AcceptKeeps(t, w, i + 1, |w.events|, listenFd, wakeFd, id, NewConn(w.events[i].fd), Some(Reading));
    LongerFacts(next, Accepted(t, w, listenFd, wakeFd));
    PrefixAt(before.preads, id, Accepted(t, w, listenFd, wakeFd).preads);
  }

  /** Every connection lost in this cycle was opened by one of its events, whose insertion failed. */
  lemma {:induction false} LostFrom(t: Table, w: World, n: nat, listenFd: int, wakeFd: int, id: ConnId) returns (i: nat)
    requires Sound(t) && DistinctFds(w.events) && n <= |w.events|
    requires id in AcceptedTo(t, w, n, listenFd, wakeFd).t.lost && id !in t.lost
    ensures OpensAt(t, w, i, listenFd, wakeFd) && !w.events[i].insertOk && id == NewId(t, w, i, listenFd, wakeFd)
    decreases n
  {
    if n == 0 {
      NoEvents(t, w, listenFd, wakeFd);
      assert false;
    } else {
      hide Sound, StandsAt, AcceptUpTo;
      AcceptNext(t, w, n - 1, listenFd, wakeFd);
      if id in AcceptedTo(t, w, n - 1, listenFd, wakeFd).t.lost {
        i := LostFrom(t, w, n - 1, listenFd, wakeFd, id);
      } else {
        i := n - 1;
      }
    }
  }

  /**
    What becomes of the connection that event `i` opens, as far as the inputs of the cycle decide it. It is read once.
    A read that would block leaves it open, an end or an error closes it, and data goes to the callback. After that it
    stays open in background work; with a response, unless the flush leaves it closed; and without one, unless the
    callback closes it.
   */
  predicate Survives(t: Table, w: World, i: nat, listenFd: int, wakeFd: int)
    requires i < |w.events|
  {
    match Clipped(w.read(|AcceptedTo(t, w, i, listenFd, wakeFd).preads|))
    case Again => true
    case EndOrError => false
    case Data(bytes) => SurvivesReply(t, w, i, bytes, listenFd, wakeFd)
  }

  predicate SurvivesReply(t: Table, w: World, i: nat, bytes: seq<Byte>, listenFd: int, wakeFd: int)
    requires i < |w.events|
  {
    var j := |AcceptedTo(t, w, i, listenFd, wakeFd).preads|;
    var k := |ReceivedTo(t, w, j, listenFd, wakeFd).ins|;
    var r := w.reply(k);
    || r.background
    || (if r.response == [] then !r.close
        else !Flush(Replied(NewConn(w.events[i].fd).(input := bytes), bytes, r),
                    w.write(|AnsweredTo(t, w, k, listenFd, wakeFd).outs|)).closed)
  }

  /** A connection at position `j` of the read queue, after the reads. */
  lemma ReadTo(t: Table, w: World, j: nat, listenFd: int, wakeFd: int, id: ConnId, c: Conn)
    requires Sound(t) && DistinctFds(w.events)
    requires j < |Accepted(t, w, listenFd, wakeFd).preads| && Accepted(t, w, listenFd, wakeFd).preads[j] == id
    requires StandsAt(Accepted(t, w, listenFd, wakeFd).t, id, c, Some(Reading))
    ensures var s, q := ReadSpot(c, w.read(j)), Received(t, w, listenFd, wakeFd);
            var k := |ReceivedTo(t, w, j, listenFd, wakeFd).ins|;
            && StandsAt(q.t, id, s.c, s.p)
            && (s.p == Some(Processing) ==> k < |q.ins| && q.ins[k] == id)
  {
    hide Sound, StandsAt, AcceptedTo, Pass, Queued, Extends, TableOk, ProcessingFrom, WritingFrom, ClosingFrom, Listed,
      NoDup, Answered, Sent, ReadSpot;
    CyclePhases(t, w, listenFd, wakeFd);
    var q := Accepted(t, w, listenFd, wakeFd);
    QueuedDistinct(q.t, q.preads, Reading);
    PassThis(q, q.preads, |q.preads|, Reads(w), j, c, Some(Reading));
    PassJoins(q, q.preads, j, Reads(w), c, Some(Reading));
  }

  /** The connection that event `i` opens, after the reads. */
  lemma OpenedRead(t: Table, w: World, i: nat, listenFd: int, wakeFd: int)
    requires Sound(t) && DistinctFds(w.events) && OpensAt(t, w, i, listenFd, wakeFd)
    ensures var id, j := NewId(t, w, i, listenFd, wakeFd), |AcceptedTo(t, w, i, listenFd, wakeFd).preads|;
            var s, q := ReadSpot(NewConn(w.events[i].fd), w.read(j)), Received(t, w, listenFd, wakeFd);
            var k := |ReceivedTo(t, w, j, listenFd, wakeFd).ins|;
            && StandsAt(q.t, id, s.c, s.p)
            && (s.p == Some(Processing) ==> k < |q.ins| && q.ins[k] == id)
  {
    hide Sound, StandsAt, AcceptedTo, ReceivedTo, Accepted, Received, ReadSpot;
    Opened(t, w, i, listenFd, wakeFd);
    ReadTo(t, w, |AcceptedTo(t, w, i, listenFd, wakeFd).preads|, listenFd, wakeFd, NewId(t, w, i, listenFd, wakeFd),
           NewConn(w.events[i].fd));
  }

  lemma QueuedDistinct(t: Table, s: seq<ConnId>, p: Place)
    requires Queued(t, s, p)
    ensures NoDup(s)
  {
  }

  /** A connection at position `k` of the process queue, after the callbacks. */
  lemma RepliedTo(t: Table, w: World, k: nat, listenFd: int, wakeFd: int, id: ConnId, c: Conn)
    requires Sound(t) && DistinctFds(w.events)
    requires k < |Received(t, w, listenFd, wakeFd).ins| && Received(t, w, listenFd, wakeFd).ins[k] == id
    requires StandsAt(Received(t, w, listenFd, wakeFd).t, id, c, Some(Processing))
    ensures var s, q := ReplySpot(c, w.reply(k)), Answered(t, w, listenFd, wakeFd);
            var l := |AnsweredTo(t, w, k, listenFd, wakeFd).outs|;
            && StandsAt(q.t, id, s.c, s.p)
            && (s.p == Some(Writing) ==> l < |q.outs| && q.outs[l] == id)
  {
    hide Sound, StandsAt, Accepted, Received, Pass, Queued, Extends, TableOk, ProcessingFrom, WritingFrom, ClosingFrom,
      Listed, NoDup, Sent, ReplySpot;
    CyclePhases(t, w, listenFd, wakeFd);
    var q := Received(t, w, listenFd, wakeFd);
    QueueOfProcessing(q);
    PassThis(q, q.ins, |q.ins|, Replies(w), k, c, Some(Processing));
    PassJoins(q, q.ins, k, Replies(w), c, Some(Processing));
  }

  /** A connection at position `l` of the write queue, after the writes. */
  lemma FlushedTo(t: Table, w: World, l: nat, listenFd: int, wakeFd: int, id: ConnId, c: Conn)
    requires Sound(t) && DistinctFds(w.events)
    requires l < |Answered(t, w, listenFd, wakeFd).outs| && Answered(t, w, listenFd, wakeFd).outs[l] == id
    requires StandsAt(Answered(t, w, listenFd, wakeFd).t, id, c, Some(Writing))
    ensures var s := WriteSpot(c, w.write(l), w.pollOk(l)); StandsAt(Sent(t, w, listenFd, wakeFd).t, id, s.c, s.p)
  {
    hide Sound, StandsAt, Accepted, Received, Answered, Pass, Queued, Extends, TableOk, ProcessingFrom, WritingFrom,
      ClosingFrom, Listed, NoDup, WriteSpot;
    CyclePhases(t, w, listenFd, wakeFd);
    var q := Answered(t, w, listenFd, wakeFd);
    QueueOfWriting(q);
    PassThis(q, q.outs, |q.outs|, Writes(w), l, c, Some(Writing));
  }

  /** A connection whose insertion failed is lost at the end of its cycle exactly if it survives the cycle. */
  lemma LostIffSurvives(t: Table, w: World, i: nat, listenFd: int, wakeFd: int)
    requires Sound(t) && DistinctFds(w.events) && OpensAt(t, w, i, listenFd, wakeFd) && !w.events[i].insertOk
    ensures NewId(t, w, i, listenFd, wakeFd) !in t.conns
    ensures NewId(t, w, i, listenFd, wakeFd) in CycleOf(t, w, listenFd, wakeFd).t.lost <==>
              Survives(t, w, i, listenFd, wakeFd)
  {
    hide Sound, StandsAt, AcceptedTo, ReceivedTo, Accepted, Received, CycleOf, Clipped, SurvivesReply, NewConn,
      Answered, Sent;
    Opened(t, w, i, listenFd, wakeFd);
    OpenedRead(t, w, i, listenFd, wakeFd);
    var id, j := NewId(t, w, i, listenFd, wakeFd), |AcceptedTo(t, w, i, listenFd, wakeFd).preads|;
    var c := NewConn(w.events[i].fd);
    var s := ReadSpot(c, w.read(j));
    if Clipped(w.read(j)).Data? {
      LostIffSurvivesReply(t, w, i, Clipped(w.read(j)).bytes, listenFd, wakeFd);
    } else {
      AfterReads(t, w, listenFd, wakeFd, id, s.c, s.p);
    }
  }

  lemma LostIffSurvivesReply(t: Table, w: World, i: nat, bytes: seq<Byte>, listenFd: int, wakeFd: int)
    requires Sound(t) && DistinctFds(w.events) && OpensAt(t, w, i, listenFd, wakeFd) && !w.events[i].insertOk
    requires Clipped(w.read(|AcceptedTo(t, w, i, listenFd, wakeFd).preads|)) == Data(bytes)
    ensures NewId(t, w, i, listenFd, wakeFd) in CycleOf(t, w, listenFd, wakeFd).t.lost <==>
              SurvivesReply(t, w, i, bytes, listenFd, wakeFd)
  {
    hide Sound, StandsAt, AcceptedTo, ReceivedTo, AnsweredTo, Accepted, Received, CycleOf, Clipped, Answered, Sent,
      Flush;
    Opened(t, w, i, listenFd, wakeFd);
    OpenedRead(t, w, i, listenFd, wakeFd);
    var id, j := NewId(t, w, i, listenFd, wakeFd), |AcceptedTo(t, w, i, listenFd, wakeFd).preads|;
    var k := |ReceivedTo(t, w, j, listenFd, wakeFd).ins|;
    var c := NewConn(w.events[i].fd).(input := bytes);
    assert [] + bytes == bytes && Unseen(c) == bytes;
    RepliedTo(t, w, k, listenFd, wakeFd, id, c);
    var s := ReplySpot(c, w.reply(k));
    if s.p == Some(Writing) {
      var l := |AnsweredTo(t, w, k, listenFd, wakeFd).outs|;
      FlushedTo(t, w, l, listenFd, wakeFd, id, s.c);
      var f := WriteSpot(s.c, w.write(l), w.pollOk(l));
      AtTheEnd(t, w, listenFd, wakeFd, id, f.c, f.p);
    } else {
      ThroughWrites(t, w, listenFd, wakeFd, id, s.c, s.p);
      AtTheEnd(t, w, listenFd, wakeFd, id, s.c, s.p);
    }
  }

  /** Event `i` opens a connection, its insertion fails, and the connection outlives the cycle. */
  predicate LeaksAt(t: Table, w: World, i: nat, listenFd: int, wakeFd: int)
  {
    OpensAt(t, w, i, listenFd, wakeFd) && !w.events[i].insertOk && Survives(t, w, i, listenFd, wakeFd)
  }

  ghost predicate NoLeak(t: Table, w: World, listenFd: int, wakeFd: int)
  {
    forall i: nat :: !LeaksAt(t, w, i, listenFd, wakeFd)
  }

  /** A cycle forgets no lost connection, and loses one exactly if one of its events leaks. */
  lemma CycleLost(t: Table, w: World, listenFd: int, wakeFd: int)
    requires Sound(t) && DistinctFds(w.events)
    ensures var u := CycleOf(t, w, listenFd, wakeFd).t;
            t.lost <= u.lost && (u.lost == t.lost <==> NoLeak(t, w, listenFd, wakeFd))
  {
    hide Sound, CycleOf, Survives, Extends, OpensAt, NewId, AcceptedTo;
    var u := CycleOf(t, w, listenFd, wakeFd).t;
    forall id | id in t.lost
      ensures id in u.lost
    {
      LostStays(t, w, listenFd, wakeFd, id);
    }
    CycleKeeps(t, w, listenFd, wakeFd);
    SoundLost(t);
    if i: nat :| LeaksAt(t, w, i, listenFd, wakeFd) {
      LostIffSurvives(t, w, i, listenFd, wakeFd);
    }
    if id :| id in u.lost && id !in t.lost {
      var i := LostFrom(t, w, |w.events|, listenFd, wakeFd, id);
      LostIffSurvives(t, w, i, listenFd, wakeFd);
      assert LeaksAt(t, w, i, listenFd, wakeFd);
    }
  }

  // ---------------------------------------------------------------- what a cycle does to one connection

  /** Event `i` is for connection `id`, which is `c` when its turn comes: one in the map, or a new one. */
  ghost predicate IsFor(t: Table, w: World, i: nat, listenFd: int, wakeFd: int, id: ConnId, c: Conn)
  {
    && i < |w.events|
    && var fd := w.events[i].fd;
       if fd in t.hmap then fd != wakeFd && t.hmap[fd] == id && id in t.conns && t.conns[id] == c
       else
         && fd != wakeFd && fd != listenFd && w.events[i].mallocOk
         && id == NewId(t, w, i, listenFd, wakeFd) && c == Conn(fd, false, [], 0, false, [], [], [], [])
  }

  /** A connection of the map, when the turn of its event comes and after that. */
  lemma SortedAt(t: Table, w: World, i: nat, listenFd: int, wakeFd: int, id: ConnId, c: Conn)
    requires Sound(t) && DistinctFds(w.events) && IsFor(t, w, i, listenFd, wakeFd, id, c) && w.events[i].fd in t.hmap
    ensures var q, r := AcceptedTo(t, w, i, listenFd, wakeFd), Accepted(t, w, listenFd, wakeFd);
            && StandsAt(r.t, id, c, Some(NeedOf(c)))
            && (NeedOf(c) == Reading ==> |q.preads| < |r.preads| && r.preads[|q.preads|] == id)
            && (NeedOf(c) == Writing ==> |q.outs| < |r.outs| && r.outs[|q.outs|] == id)
  {
    var q, e := AcceptedTo(t, w, i, listenFd, wakeFd), w.events[i];
    var next := AcceptOn(q, e, listenFd, wakeFd);
    assert AcceptedTo(t, w, i + 1, listenFd, wakeFd) == next;
    MappedAt(t, w, i, listenFd, wakeFd, id, c);
    hide Sound, StandsAt, AcceptUpTo, Longer, NeedOf, Listed;
    StandsFacts(q.t, id, c, None);
    SortedFrame(q, id);
    assert next == Sorted(q, id);
    AcceptKeeps(t, w, i + 1, |w.events|, listenFd, wakeFd, id, c, Some(NeedOf(c)));
    LongerFacts(next, Accepted(t, w, listenFd, wakeFd));
    if NeedOf(c) == Reading {
      PrefixAt(q.preads, id, Accepted(t, w, listenFd, wakeFd).preads);
    }
    if NeedOf(c) == Writing {
      PrefixAt(q.outs, id, Accepted(t, w, listenFd, wakeFd).outs);
    }
  }

  /** A connection of the map waits for its event as it was before the cycle, and the map leads to it. */
  lemma MappedAt(t: Table, w: World, i: nat, listenFd: int, wakeFd: int, id: ConnId, c: Conn)
    requires Sound(t) && DistinctFds(w.events) && IsFor(t, w, i, listenFd, wakeFd, id, c) && w.events[i].fd in t.hmap
    ensures var q := AcceptedTo(t, w, i, listenFd, wakeFd);
            && StandsAt(q.t, id, c, None) && c.fd == w.events[i].fd
            && c.fd in q.t.hmap && q.t.hmap[c.fd] == id
  {
    var q := AcceptedTo(t, w, i, listenFd, wakeFd);
    assert TableOk(t);
    hide Sound, AcceptUpTo, TableOk, Accepting, Extends, Listed, Longer;
    NoEvents(t, w, listenFd, wakeFd);
    MapFacts(t);
    assert StandsAt(AcceptedTo(t, w, 0, listenFd, wakeFd).t, id, c, None);
    AcceptKeeps(t, w, 0, i, listenFd, wakeFd, id, c, None);
    AcceptPass(t, w, i, listenFd, wakeFd);
    AcceptedOk(q.t, q.attachs, q.preads, q.outs, q.closes, FdsOf(w.events[..i]));
    MappedBack(q.t, id);
  }

  lemma MappedBack(t: Table, id: ConnId)
    requires TableOk(t) && id in t.conns && id !in t.lost
    ensures t.conns[id].fd in t.hmap && t.hmap[t.conns[id].fd] == id
  {
    assert ConnOk(t, id);
  }

  /** Where a connection stands once all events are sorted, by its state alone. */
  function Waits(c: Conn): Place
  {
    if c.bg then Attaching else if c.out != [] then Writing else if c.closed then Closing else Reading
  }

  lemma StandsToWait(t: Table, w: World, i: nat, listenFd: int, wakeFd: int, id: ConnId, c: Conn)
    requires Sound(t) && DistinctFds(w.events) && IsFor(t, w, i, listenFd, wakeFd, id, c)
    ensures var q, r := AcceptedTo(t, w, i, listenFd, wakeFd), Accepted(t, w, listenFd, wakeFd);
            && StandsAt(r.t, id, c, Some(Waits(c)))
            && (Waits(c) == Reading ==> |q.preads| < |r.preads| && r.preads[|q.preads|] == id)
            && (Waits(c) == Writing ==> |q.outs| < |r.outs| && r.outs[|q.outs|] == id)
  {
    assert NeedOf(c) == Waits(c);
    hide Sound, StandsAt, AcceptedTo, Accepted, NeedOf;
    if w.events[i].fd in t.hmap {
      SortedAt(t, w, i, listenFd, wakeFd, id, c);
    } else {
      assert c == NewConn(w.events[i].fd);
      Opened(t, w, i, listenFd, wakeFd);
    }
  }

  /** After the cycle connection `id` is `d`, freed or not. */
  ghost predicate EndsAs(u: Table, id: ConnId, d: Conn, freed: bool)
  {
    if freed then id !in u.conns && id in u.gone && u.gone[id] == d else id in u.conns && u.conns[id] == d
  }

  /** It is flushed, as number `l` of the cycle; if that leaves it open, a failed poll update marks it closed. */
  ghost predicate FlushEnds(u: Table, w: World, id: ConnId, d: Conn, l: nat)
  {
    var f := Flush(d, w.write(l));
    if f.closed then EndsAs(u, id, f, true) else EndsAs(u, id, f.(closed := !w.pollOk(l)), false)
  }

  /** Its packet is answered, as number `k` of the cycle: background work, or flush the response, or close, or stay. */
  ghost predicate ReplyEnds(u: Table, t: Table, w: World, k: nat, listenFd: int, wakeFd: int, id: ConnId, c: Conn,
                            bytes: seq<Byte>)
  {
    var r := w.reply(k);
    var d := Conn(c.fd, r.close, r.response, 0, r.background, c.input + bytes, c.input + bytes,
                  c.produced + r.response, c.sent);
    if r.background then EndsAs(u, id, d, false)
    else if r.response == [] then EndsAs(u, id, d, r.close)
    else FlushEnds(u, w, id, d, |AnsweredTo(t, w, k, listenFd, wakeFd).outs|)
  }

  /** It is read, as number `j` of the cycle: it stays, or is closed, or at most 16383 bytes go to the callback. */
  ghost predicate ReadEnds(u: Table, t: Table, w: World, j: nat, listenFd: int, wakeFd: int, id: ConnId, c: Conn)
  {
    match w.read(j)
    case Again => EndsAs(u, id, c, false)
    case EndOrError => EndsAs(u, id, c, true)
    case Data(bytes) =>
      if bytes == [] then EndsAs(u, id, c, true)
      else
        ReplyEnds(u, t, w, |ReceivedTo(t, w, j, listenFd, wakeFd).ins|, listenFd, wakeFd, id, c,
                  if |bytes| < 16384 then bytes else bytes[..16383])
  }

  /**
    What a cycle does to a connection that has an event, from its state and the outcomes of its read, its callback and
    its flush: background work is left alone, unsent output is flushed before a pending close, and otherwise it is read.
   */
  lemma CycleOutcome(t: Table, w: World, i: nat, listenFd: int, wakeFd: int, id: ConnId, c: Conn)
    requires Sound(t) && DistinctFds(w.events) && IsFor(t, w, i, listenFd, wakeFd, id, c)
    ensures var u, q := CycleOf(t, w, listenFd, wakeFd).t, AcceptedTo(t, w, i, listenFd, wakeFd);
            if c.bg then EndsAs(u, id, c, false)
            else if c.out != [] then FlushEnds(u, w, id, c, |q.outs|)
            else if c.closed then EndsAs(u, id, c, true)
            else ReadEnds(u, t, w, |q.preads|, listenFd, wakeFd, id, c)
  {
    assert i < |w.events|;
    hide Sound, StandsAt, AcceptedTo, Accepted, Received, ReceivedTo, AnsweredTo, Answered, Sent, CycleOf, IsFor,
      FlushEnds, ReadEnds;
    StandsToWait(t, w, i, listenFd, wakeFd, id, c);
    var q := AcceptedTo(t, w, i, listenFd, wakeFd);
    if c.bg {
      QuietEnds(t, w, listenFd, wakeFd, id, c, Attaching);
    } else if c.out != [] {
      WaitingFlushed(t, w, listenFd, wakeFd, id, c, |q.outs|);
    } else if c.closed {
      QuietEnds(t, w, listenFd, wakeFd, id, c, Closing);
    } else {
      WaitingRead(t, w, |q.preads|, listenFd, wakeFd, id, c);
    }
  }

  lemma StandsEnds(u: Table, id: ConnId, c: Conn, p: Option<Place>)
    requires StandsAt(u, id, c, p)
    ensures EndsAs(u, id, c, false)
  {
  }

  /** From the end of the reads on, for a connection with nothing to process or to write. */
  lemma SettledEnds(t: Table, w: World, listenFd: int, wakeFd: int, id: ConnId, c: Conn, p: Option<Place>)
    requires Sound(t) && DistinctFds(w.events) && p != Some(Processing) && p != Some(Writing)
    requires StandsAt(Received(t, w, listenFd, wakeFd).t, id, c, p)
    ensures EndsAs(CycleOf(t, w, listenFd, wakeFd).t, id, c, p == Some(Closing))
  {
    hide Sound, StandsAt, Accepted, Received, CycleOf;
    AfterReads(t, w, listenFd, wakeFd, id, c, p);
    if p != Some(Closing) {
      StandsEnds(CycleOf(t, w, listenFd, wakeFd).t, id, c, p);
    }
  }

  lemma SentEnds(t: Table, w: World, listenFd: int, wakeFd: int, id: ConnId, c: Conn, p: Option<Place>)
    requires Sound(t) && DistinctFds(w.events) && StandsAt(Sent(t, w, listenFd, wakeFd).t, id, c, p)
    ensures EndsAs(CycleOf(t, w, listenFd, wakeFd).t, id, c, p == Some(Closing))
  {
    hide Sound, StandsAt, Accepted, Sent, CycleOf;
    AtTheEnd(t, w, listenFd, wakeFd, id, c, p);
    if p != Some(Closing) {
      StandsEnds(CycleOf(t, w, listenFd, wakeFd).t, id, c, p);
    }
  }

  lemma QuietEnds(t: Table, w: World, listenFd: int, wakeFd: int, id: ConnId, c: Conn, p: Place)
    requires Sound(t) && DistinctFds(w.events) && (p == Attaching || p == Closing)
    requires StandsAt(Accepted(t, w, listenFd, wakeFd).t, id, c, Some(p))
    ensures EndsAs(CycleOf(t, w, listenFd, wakeFd).t, id, c, p == Closing)
  {
    hide Sound, StandsAt, Accepted, Received, CycleOf, EndsAs;
    ThroughReads(t, w, listenFd, wakeFd, id, c, Some(p));
    SettledEnds(t, w, listenFd, wakeFd, id, c, Some(p));
  }

  /** A connection at position `l` of the write queue. */
  lemma QueuedFlushed(t: Table, w: World, l: nat, listenFd: int, wakeFd: int, id: ConnId, c: Conn)
    requires Sound(t) && DistinctFds(w.events)
    requires l < |Answered(t, w, listenFd, wakeFd).outs| && Answered(t, w, listenFd, wakeFd).outs[l] == id
    requires StandsAt(Answered(t, w, listenFd, wakeFd).t, id, c, Some(Writing))
    ensures FlushEnds(CycleOf(t, w, listenFd, wakeFd).t, w, id, c, l)
  {
    hide Sound, StandsAt, Answered, Sent, CycleOf, EndsAs, Flush;
    FlushedTo(t, w, l, listenFd, wakeFd, id, c);
    var f := Flush(c, w.write(l));
    if f.closed {
      SentEnds(t, w, listenFd, wakeFd, id, f, Some(Closing));
    } else {
      SentEnds(t, w, listenFd, wakeFd, id, f.(closed := !w.pollOk(l)), None);
    }
  }

  /** The write queue keeps its head through the reads and the callbacks. */
  lemma OutsKept(t: Table, w: World, listenFd: int, wakeFd: int)
    ensures Accepted(t, w, listenFd, wakeFd).outs <= Answered(t, w, listenFd, wakeFd).outs
  {
    hide Accepted;
    var q := Accepted(t, w, listenFd, wakeFd);
    PassLonger(q, q.preads, 0, |q.preads|, Reads(w));
    var r := Received(t, w, listenFd, wakeFd);
    PassLonger(r, r.ins, 0, |r.ins|, Replies(w));
    PrefixTrans(q.outs, r.outs, Answered(t, w, listenFd, wakeFd).outs);
  }

  /** Output that was waiting before the cycle. */
  lemma WaitingFlushed(t: Table, w: World, listenFd: int, wakeFd: int, id: ConnId, c: Conn, l: nat)
    requires Sound(t) && DistinctFds(w.events)
    requires l < |Accepted(t, w, listenFd, wakeFd).outs| && Accepted(t, w, listenFd, wakeFd).outs[l] == id
    requires StandsAt(Accepted(t, w, listenFd, wakeFd).t, id, c, Some(Writing))
    ensures FlushEnds(CycleOf(t, w, listenFd, wakeFd).t, w, id, c, l)
  {
    hide Sound, StandsAt, Accepted, Received, Answered, CycleOf, FlushEnds;
    ThroughReads(t, w, listenFd, wakeFd, id, c, Some(Writing));
    ThroughReplies(t, w, listenFd, wakeFd, id, c, Some(Writing));
    OutsKept(t, w, listenFd, wakeFd);
    QueuedFlushed(t, w, l, listenFd, wakeFd, id, c);
  }

  lemma WaitingRead(t: Table, w: World, j: nat, listenFd: int, wakeFd: int, id: ConnId, c: Conn)
    requires Sound(t) && DistinctFds(w.events) && !c.bg && c.out == [] && !c.closed
    requires j < |Accepted(t, w, listenFd, wakeFd).preads| && Accepted(t, w, listenFd, wakeFd).preads[j] == id
    requires StandsAt(Accepted(t, w, listenFd, wakeFd).t, id, c, Some(Reading))
    ensures ReadEnds(CycleOf(t, w, listenFd, wakeFd).t, t, w, j, listenFd, wakeFd, id, c)
  {
    WaitingFits(t, w, listenFd, wakeFd, id, c);
    hide Sound, StandsAt, Accepted, Received, ReceivedTo, AnsweredTo, Answered, CycleOf, EndsAs, ReplyEnds, ReadSpot;
    ReadTo(t, w, j, listenFd, wakeFd, id, c);
    var r, s := w.read(j), ReadSpot(c, w.read(j));
    ReadSpotIs(c, r);
    if r.Data? && r.bytes != [] {
      WaitingReply(t, w, |ReceivedTo(t, w, j, listenFd, wakeFd).ins|, listenFd, wakeFd, id, c,
                   if |r.bytes| < 16384 then r.bytes else r.bytes[..16383]);
    } else {
      SettledEnds(t, w, listenFd, wakeFd, id, s.c, s.p);
    }
  }

  lemma ReadSpotIs(c: Conn, r: ReadResult)
    ensures r == Again ==> ReadSpot(c, r) == Spot(c, None)
    ensures r == EndOrError || r == Data([]) ==> ReadSpot(c, r) == Spot(c, Some(Closing))
    ensures r.Data? && r.bytes != [] ==>
              ReadSpot(c, r) == Spot(c.(input := c.input + if |r.bytes| < 16384 then r.bytes else r.bytes[..16383]),
                                     Some(Processing))
  {
    if r.Data? && |r.bytes| < 16384 {
      assert r.bytes[..|r.bytes|] == r.bytes;
    }
  }

  lemma WaitingFits(t: Table, w: World, listenFd: int, wakeFd: int, id: ConnId, c: Conn)
    requires Sound(t) && DistinctFds(w.events) && StandsAt(Accepted(t, w, listenFd, wakeFd).t, id, c, Some(Reading))
    ensures c.seen == c.input
  {
    hide Sound, Accepted, Received, Answered, Sent, Extends, Queued, ProcessingFrom, WritingFrom, ClosingFrom, Listed,
      TableOk;
    CyclePhases(t, w, listenFd, wakeFd);
    QueuedFits(Accepted(t, w, listenFd, wakeFd).t, id);
  }

  lemma WaitingReply(t: Table, w: World, k: nat, listenFd: int, wakeFd: int, id: ConnId, c: Conn, bytes: seq<Byte>)
    requires Sound(t) && DistinctFds(w.events) && c.seen == c.input && !c.closed
    requires k < |Received(t, w, listenFd, wakeFd).ins| && Received(t, w, listenFd, wakeFd).ins[k] == id
    requires StandsAt(Received(t, w, listenFd, wakeFd).t, id, c.(input := c.input + bytes), Some(Processing))
    ensures ReplyEnds(CycleOf(t, w, listenFd, wakeFd).t, t, w, k, listenFd, wakeFd, id, c, bytes)
  {
    hide Sound, StandsAt, Accepted, Received, ReceivedTo, AnsweredTo, Answered, CycleOf, EndsAs, FlushEnds, Sent;
    var b, r := c.(input := c.input + bytes), w.reply(k);
    assert Unseen(b) == bytes;
    RepliedTo(t, w, k, listenFd, wakeFd, id, b);
    var s := ReplySpot(b, r);
    assert s.c == Conn(c.fd, r.close, r.response, 0, r.background, c.input + bytes, c.input + bytes,
                       c.produced + r.response, c.sent);
    if s.p == Some(Writing) {
      QueuedFlushed(t, w, |AnsweredTo(t, w, k, listenFd, wakeFd).outs|, listenFd, wakeFd, id, s.c);
    } else {
      ThroughWrites(t, w, listenFd, wakeFd, id, s.c, s.p);
      SentEnds(t, w, listenFd, wakeFd, id, s.c, s.p);
    }
  }

  /** A connection without an event, and a lost one in any case, is left as it is. */
  lemma Untouched(t: Table, w: World, listenFd: int, wakeFd: int, id: ConnId)
    requires Sound(t) && DistinctFds(w.events) && id in t.conns
    requires id in t.lost || forall k :: 0 <= k < |w.events| ==> w.events[k].fd != t.conns[id].fd
    ensures EndsAs(CycleOf(t, w, listenFd, wakeFd).t, id, t.conns[id], false)
  {
    hide Sound, CycleOf, AcceptUpTo, Longer, TableOk, Received, AcceptOn, EndsAs;
    var c := t.conns[id];
    NoEvents(t, w, listenFd, wakeFd);
    assert StandsAt(AcceptedTo(t, w, 0, listenFd, wakeFd).t, id, c, None);
    AcceptKeeps(t, w, 0, |w.events|, listenFd, wakeFd, id, c, None);
    hide StandsAt;
    ThroughReads(t, w, listenFd, wakeFd, id, c, None);
    SettledEnds(t, w, listenFd, wakeFd, id, c, None);
  }

  /** How many of the first `n` events find a new descriptor, which is no special one, and memory for its connection. */
  function NewOnes(t: Table, w: World, n: nat, listenFd: int, wakeFd: int): nat
    requires n <= |w.events|
  {
    if n == 0 then 0
    else
      var e := w.events[n - 1];
      NewOnes(t, w, n - 1, listenFd, wakeFd) +
      if e.fd != wakeFd && e.fd != listenFd && e.fd !in t.hmap && e.mallocOk then 1 else 0
  }

  lemma SortedOpened(q: Phase, id: ConnId)
    ensures Sorted(q, id).t.openedCalls == q.t.openedCalls
  {
  }

  lemma {:induction false} AcceptOpened(t: Table, w: World, n: nat, listenFd: int, wakeFd: int)
    requires Sound(t) && DistinctFds(w.events) && n <= |w.events|
    ensures AcceptedTo(t, w, n, listenFd, wakeFd).t.openedCalls
         == t.openedCalls + NewOnes(t, w, n, listenFd, wakeFd)
  {
    hide Sound, Sorted;
    if n > 0 {
      AcceptOpened(t, w, n - 1, listenFd, wakeFd);
      var q, e := AcceptedTo(t, w, n - 1, listenFd, wakeFd), w.events[n - 1];
      MapUntouched(t, w, n - 1, listenFd, wakeFd, e.fd);
      if e.fd in q.t.hmap {
        SortedOpened(q, q.t.hmap[e.fd]);
      }
      SortedOpened(q.(t := Open(q.t, e.fd, e.insertOk)), q.t.nextId);
    }
  }

  lemma {:induction false} PassOpened(q: Phase, ids: seq<ConnId>, n: nat, f: (nat, Conn) -> Spot)
    ensures Pass(q, ids, n, f).t.openedCalls == q.t.openedCalls
  {
    if 0 < n <= |ids| {
      PassOpened(q, ids, n - 1, f);
    }
  }

  lemma {:induction false} CloseOpened(t: Table, ids: seq<ConnId>, n: nat)
    requires n <= |ids|
    ensures CloseUpTo(t, ids, n).openedCalls == t.openedCalls
  {
    if n > 0 {
      CloseOpened(t, ids, n - 1);
    }
  }

  /** Each new descriptor opens one connection, with one opened callback; nothing else does. */
  lemma {:induction false} CycleOpens(t: Table, w: World, listenFd: int, wakeFd: int)
    requires Sound(t) && DistinctFds(w.events)
    ensures CycleOf(t, w, listenFd, wakeFd).t.openedCalls
         == t.openedCalls + NewOnes(t, w, |w.events|, listenFd, wakeFd)
  {
    hide Sound, CycleOf, AcceptUpTo, Pass, CloseUpTo;
    AcceptOpened(t, w, |w.events|, listenFd, wakeFd);
    CycleIs(t, w, listenFd, wakeFd);
    var q1 := Accepted(t, w, listenFd, wakeFd);
    PassOpened(q1, q1.preads, |q1.preads|, Reads(w));
    var q2 := Received(t, w, listenFd, wakeFd);
    PassOpened(q2, q2.ins, |q2.ins|, Replies(w));
    var q3 := Answered(t, w, listenFd, wakeFd);
    PassOpened(q3, q3.outs, |q3.outs|, Writes(w));
    var q4 := Sent(t, w, listenFd, wakeFd);
    CloseOpened(q4.t, q4.closes, |q4.closes|);
  }

  /**
    Two cycles: a connection whose output was sent and whose poll update succeeded is open and not marked closed, and at
    its next event it is read.
   */
  lemma {:induction false} SentIsReadNext(t: Table, w: World, i: nat, v: World, j: nat, listenFd: int, wakeFd: int,
                                          id: ConnId, c: Conn)
    requires Sound(t) && DistinctFds(w.events) && IsFor(t, w, i, listenFd, wakeFd, id, c) && !c.bg && c.out != []
    requires var l := |AcceptedTo(t, w, i, listenFd, wakeFd).outs|;
             Flush(c, w.write(l)).out == [] && !Flush(c, w.write(l)).closed && w.pollOk(l)
    requires DistinctFds(v.events) && j < |v.events| && v.events[j].fd == c.fd && c.fd != wakeFd
    requires var u := CycleOf(t, w, listenFd, wakeFd).t; c.fd in u.hmap && u.hmap[c.fd] == id
    ensures var u := CycleOf(t, w, listenFd, wakeFd).t;
            && id in u.conns && !u.conns[id].closed && u.conns[id].out == []
            && ReadEnds(CycleOf(u, v, listenFd, wakeFd).t, u, v, |AcceptedTo(u, v, j, listenFd, wakeFd).preads|,
                        listenFd, wakeFd, id, u.conns[id])
  {
    assert Draining(c) by {
      StandsDraining(t, w, i, listenFd, wakeFd, id, c);
    }
    hide Sound, CycleOf, AcceptedTo, ReadEnds, Extends, Accepted, Flush, Draining, Accounted;
    CycleOutcome(t, w, i, listenFd, wakeFd, id, c);
    CycleKeeps(t, w, listenFd, wakeFd);
    var l := |AcceptedTo(t, w, i, listenFd, wakeFd).outs|;
    FlushAccounts(c, w.write(l));
    var u := CycleOf(t, w, listenFd, wakeFd).t;
    CycleOutcome(u, v, j, listenFd, wakeFd, id, u.conns[id]);
  }

  lemma StandsDraining(t: Table, w: World, i: nat, listenFd: int, wakeFd: int, id: ConnId, c: Conn)
    requires Sound(t) && DistinctFds(w.events) && IsFor(t, w, i, listenFd, wakeFd, id, c)
    ensures Draining(c)
  {
    if w.events[i].fd in t.hmap {
      assert ConnOk(t, id);
    }
  }

  // ---------------------------------------------------------------- whole runs

  ghost predicate DistinctTurns(turns: seq<Turn>)
  {
    forall i :: 0 <= i < |turns| && turns[i].Turn? ==> DistinctFds(turns[i].w.events)
  }

  lemma TurnSound(t: Table, turn: Turn, listenFd: int, wakeFd: int)
    requires Sound(t) && (turn.Turn? ==> DistinctFds(turn.w.events))
    ensures Sound(AfterTurn(t, turn, listenFd, wakeFd))
  {
    hide CycleOf, Extends, TableOk, NoneAt, Fits, Set;
    if turn.Turn? {
      CycleKeeps(t, turn.w, listenFd, wakeFd);
    } else if turn.id in t.conns {
      var c := t.conns[turn.id].(bg := false);
      QuietFits(t, turn.id);
      SetOk(t, turn.id, c, None);
      SetNoneAt(t, turn.id, c, None, Processing);
    }
  }

  /** No event of the run opens a connection whose insertion fails and which outlives its own cycle. */
  ghost predicate NoLeaks(t: Table, turns: seq<Turn>, listenFd: int, wakeFd: int)
    decreases |turns|
  {
    turns == [] ||
    ((turns[0].Turn? ==> NoLeak(t, turns[0].w, listenFd, wakeFd)) &&
     NoLeaks(AfterTurn(t, turns[0], listenFd, wakeFd), turns[1..], listenFd, wakeFd))
  }

  lemma {:induction false} RunLost(t: Table, turns: seq<Turn>, listenFd: int, wakeFd: int)
    requires Sound(t) && DistinctTurns(turns)
    ensures var u := RunOf(t, turns, listenFd, wakeFd);
            Sound(u) && t.lost <= u.lost && (u.lost == t.lost <==> NoLeaks(t, turns, listenFd, wakeFd))
    decreases |turns|
  {
    hide Sound, CycleOf, NoLeak;
    if turns != [] {
      var turn, u := turns[0], AfterTurn(t, turns[0], listenFd, wakeFd);
      TurnSound(t, turn, listenFd, wakeFd);
      RunLost(u, turns[1..], listenFd, wakeFd);
      if turn.Turn? {
        CycleLost(t, turn.w, listenFd, wakeFd);
      }
    }
  }

  lemma EmptySound()
    ensures Sound(EmptyTable())
  {
  }

  /**
    Over every run from the start, opened callbacks minus closed callbacks is the size of the map if and only if every
    connection whose insertion into the map failed was closed in its own cycle.
   */
  lemma {:induction false} CountsMapIff(turns: seq<Turn>, listenFd: int, wakeFd: int)
    requires DistinctTurns(turns)
    ensures var t := RunOf(EmptyTable(), turns, listenFd, wakeFd);
            t.openedCalls - t.closedCalls == |t.hmap| <==> NoLeaks(EmptyTable(), turns, listenFd, wakeFd)
  {
    hide Sound, RunOf, NoLeaks;
    EmptySound();
    RunLost(EmptyTable(), turns, listenFd, wakeFd);
    CountsLost(RunOf(EmptyTable(), turns, listenFd, wakeFd));
  }

  lemma CountsLost(t: Table)
    requires Sound(t)
    ensures t.openedCalls - t.closedCalls == |t.hmap| <==> t.lost == {}
  {
    assert Counts(t);
    hide Sound, TableOk;
    assert |t.lost| == 0 <==> t.lost == {};
  }

  /** One event on a new descriptor, whose connection cannot be inserted into the map, and one read. */
  function OneEvent(fd: int, r: ReadResult): World
  {
    World([Event(fd, true, false)], _ => r, _ => Reply([], false, false), _ => [], _ => true)
  }

  /** One such event breaks the count for good if its read would block, and does no harm if its read ends. */
  lemma {:induction false} OneEventLeaks(fd: int, r: ReadResult, listenFd: int, wakeFd: int)
    requires fd != listenFd && fd != wakeFd && !r.Data?
    ensures var t := RunOf(EmptyTable(), [Turn(OneEvent(fd, r))], listenFd, wakeFd);
            t.openedCalls - t.closedCalls == |t.hmap| <==> r == EndOrError
  {
    var w := OneEvent(fd, r);
    var turns := [Turn(w)];
    hide RunOf, AcceptedTo, CycleOf, SurvivesReply;
    assert LeaksAt(EmptyTable(), w, 0, listenFd, wakeFd) <==> r == Again;
    assert NoLeak(EmptyTable(), w, listenFd, wakeFd) <==> r == EndOrError by {
      assert forall i: nat :: LeaksAt(EmptyTable(), w, i, listenFd, wakeFd) ==> i == 0;
    }
    hide NoLeak, LeaksAt;
    assert turns[1..] == [];
    assert NoLeaks(EmptyTable(), turns, listenFd, wakeFd) <==> NoLeak(EmptyTable(), w, listenFd, wakeFd);
    CountsMapIff(turns, listenFd, wakeFd);
  }

  /** `d` is `c` some time later, whatever became of its background work. */
  predicate Grown(c: Conn, d: Conn)
  {
    d.fd == c.fd && c.input <= d.input && c.seen <= d.seen && c.produced <= d.produced && c.sent <= d.sent
  }

  /** Every connection of `t` lives on with longer histories, or was closed once and for all. */
  ghost predicate Since(t: Table, u: Table)
  {
    && (forall id :: id in t.gone ==> id in u.gone && u.gone[id] == t.gone[id])
    && (forall id :: id in t.conns ==>
          if id in u.conns then Grown(t.conns[id], u.conns[id]) else id in u.gone && Grown(t.conns[id], u.gone[id]))
  }

  lemma GrownTrans(a: Conn, b: Conn, c: Conn)
    requires Grown(a, b) && Grown(b, c)
    ensures Grown(a, c)
  {
    PrefixTrans(a.input, b.input, c.input);
    PrefixTrans(a.seen, b.seen, c.seen);
    PrefixTrans(a.produced, b.produced, c.produced);
    PrefixTrans(a.sent, b.sent, c.sent);
  }

  lemma SinceTrans(t: Table, u: Table, v: Table)
    requires Since(t, u) && Since(u, v) && TableOk(v)
    ensures Since(t, v)
  {
    hide Grown, Fits, Ended, Counts;
    forall id | id in t.conns
      ensures if id in v.conns then Grown(t.conns[id], v.conns[id]) else id in v.gone && Grown(t.conns[id], v.gone[id])
    {
      if id in u.conns {
        GrownTrans(t.conns[id], u.conns[id], if id in v.conns then v.conns[id] else v.gone[id]);
      } else {
        assert id in v.gone;
        assert id in v.conns ==> ConnOk(v, id);
      }
    }
  }

  lemma ExtendsSince(t: Table, u: Table)
    requires Extends(t, u)
    ensures Since(t, u)
    ensures forall id :: id in t.conns && t.conns[id].bg ==> id in u.conns && u.conns[id] == t.conns[id]
  {
  }

  lemma EndedSince(t: Table, id: ConnId)
    requires id in t.conns
    ensures var u := Set(t, id, t.conns[id].(bg := false), None);
            Since(t, u) && forall x :: x in t.conns && x != id ==> x in u.conns && u.conns[x] == t.conns[x]
  {
  }

  lemma SinceSelf(t: Table)
    ensures Since(t, t)
  {
  }

  /**
    Over every run no history is ever shortened, no connection is closed twice or comes back, and a connection in
    background work is neither changed nor closed until that work ends.
   */
  lemma {:induction false} RunKeeps(t: Table, turns: seq<Turn>, listenFd: int, wakeFd: int, id: ConnId)
    requires Sound(t) && DistinctTurns(turns)
    ensures var u := RunOf(t, turns, listenFd, wakeFd);
            && Sound(u) && Since(t, u)
            && (id in t.conns && t.conns[id].bg && BackgroundEnds(id) !in turns ==>
                  id in u.conns && u.conns[id] == t.conns[id])
    decreases |turns|
  {
    hide Sound, CycleOf, Since, Extends, Set;
    if turns == [] {
      SinceSelf(t);
    } else {
      var turn, u := turns[0], AfterTurn(t, turns[0], listenFd, wakeFd);
      TurnSound(t, turn, listenFd, wakeFd);
      RunKeeps(u, turns[1..], listenFd, wakeFd, id);
      if turn.Turn? {
        CycleKeeps(t, turn.w, listenFd, wakeFd);
        ExtendsSince(t, u);
      } else if turn.id in t.conns {
        EndedSince(t, turn.id);
        assert turn.id == id ==> BackgroundEnds(id) in turns;
      } else {
        SinceSelf(t);
      }
      SoundOk(RunOf(t, turns, listenFd, wakeFd));
      SinceTrans(t, u, RunOf(t, turns, listenFd, wakeFd));
    }
  }

  lemma SoundOk(t: Table)
    requires Sound(t)
    ensures TableOk(t)
  {
  }
}
