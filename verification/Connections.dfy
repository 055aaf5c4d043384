/**
  The connections of one worker as values: each connection's buffers and history, the table that maps descriptors to
  connections, which queue of the cycle holds a connection, and what every update of the table keeps.
 */
module Connections {
  import opened Bytes
  import opened Collections

  type ConnId = nat

  /**
    `struct net_conn`; the length of `out` is `outlen`. The last four fields are history: all bytes read from the
    descriptor, all bytes handed to the process callback, all response bytes the callback produced, and all bytes the
    descriptor accepted.
   */
  datatype Conn = Conn(fd: int, closed: bool, out: seq<Byte>, outoff: nat, bg: bool,
                       input: seq<Byte>, seen: seq<Byte>, produced: seq<Byte>, sent: seq<Byte>)

  function NewConn(fd: int): Conn
  {
    Conn(fd, false, [], 0, false, [], [], [], [])
  }

  /** What was sent, followed by what is still in the buffer, is what was produced. */
  predicate Accounted(c: Conn)
  {
    && c.outoff <= |c.out| && (c.out != [] ==> c.outoff < |c.out|)
    && c.sent + c.out[c.outoff..] == c.produced
  }

  // ---------------------------------------------------------------- flushing

  /** The outcome of one `write`; `Wrote(n)` is capped by what was asked for. */
  datatype WriteResult = Wrote(n: nat) | Interrupted | WouldBlock | Failed

  function Min(a: nat, b: nat): nat
  {
    if a < b then a else b
  }

  /** `k` more bytes of the buffer were accepted. */
  function Advance(c: Conn, k: nat): Conn
    requires c.outoff + k <= |c.out|
  {
    c.(sent := c.sent + c.out[c.outoff..c.outoff + k], outoff := c.outoff + k)
  }

  /** `flush_conn` against the results the calls of `write` give, in order; past the end of the list they block. */
  function Flush(c: Conn, results: seq<WriteResult>): Conn
    decreases |results|
  {
    if c.outoff >= |c.out| then c.(out := [], outoff := 0)
    else if results == [] then c
    else
      match results[0]
      case Interrupted => Flush(c, results[1..])
      case WouldBlock => c
      case Failed => c.(closed := true)
      case Wrote(n) => if n == 0 then c else Flush(Advance(c, Min(n, |c.out| - c.outoff)), results[1..])
  }

  /** Between two writes the buffer may be used up but not yet released. */
  predicate Draining(c: Conn)
  {
    c.outoff <= |c.out| && c.sent + c.out[c.outoff..] == c.produced
  }

  lemma AdvanceDrains(c: Conn, k: nat)
    requires Draining(c) && c.outoff + k <= |c.out|
    ensures Draining(Advance(c, k)) && c.sent <= Advance(c, k).sent
  {
    var d := Advance(c, k);
    var part, rest := c.out[c.outoff..c.outoff + k], c.out[c.outoff + k..];
    assert c.out[c.outoff..] == part + rest;
    assert c.sent + (part + rest) == (c.sent + part) + rest;
  }

  /** Whatever `write` does, no response byte is lost, repeated or reordered, and only the buffer is touched. */
  lemma {:induction false} FlushAccounts(c: Conn, results: seq<WriteResult>)
    requires Draining(c)
    ensures var d := Flush(c, results);
            && Accounted(d) && c.sent <= d.sent && d.produced == c.produced
            && d.fd == c.fd && d.bg == c.bg && d.input == c.input && d.seen == c.seen && (c.closed ==> d.closed)
            && (d.out == [] <==> d.sent == d.produced)
            && (d.out != [] ==> d.out == c.out)
    decreases |results|
  {
    hide Accounted, Draining;
    DrainingBounds(c);
    if c.outoff >= |c.out| {
      Finished(c);
    } else {
      Unfinished(c);
      Unfinished(c.(closed := true));
      if results != [] {
        match results[0]
        case Interrupted => FlushAccounts(c, results[1..]);
        case WouldBlock =>
        case Failed =>
        case Wrote(n) =>
          if n > 0 {
            var k := Min(n, |c.out| - c.outoff);
            AdvanceDrains(c, k);
            FlushAccounts(Advance(c, k), results[1..]);
          }
      }
    }
  }

  lemma DrainingBounds(c: Conn)
    requires Draining(c)
    ensures c.outoff <= |c.out| && Draining(c.(closed := true))
  {
  }

  lemma Finished(c: Conn)
    requires Draining(c) && c.outoff >= |c.out|
    ensures Accounted(c.(out := [], outoff := 0)) && c.sent == c.produced
  {
    assert c.out[c.outoff..] == [];
  }

  lemma Unfinished(c: Conn)
    requires Draining(c) && c.outoff < |c.out|
    ensures Accounted(c) && c.sent != c.produced
  {
    assert |c.sent + c.out[c.outoff..]| > |c.sent|;
  }

  /** The bytes a list of results offers room for, if none of them stops the loop. */
  function Room(results: seq<WriteResult>): nat
  {
    if results == [] then 0
    else (if results[0].Wrote? then results[0].n else 0) + Room(results[1..])
  }

  /** If no call stops the loop and there is room for everything, everything is sent and the buffer released. */
  lemma {:induction false} FlushCompletes(c: Conn, results: seq<WriteResult>)
    requires Draining(c) && |c.out| - c.outoff <= Room(results)
    requires forall i :: 0 <= i < |results| ==> results[i].Interrupted? || (results[i].Wrote? && results[i].n > 0)
    ensures var d := Flush(c, results); d.out == [] && d.sent == c.produced && d.closed == c.closed
    decreases |results|
  {
    if c.outoff >= |c.out| {
      assert c.out[c.outoff..] == [];
    } else {
      var tail := results[1..];
      assert forall i :: 0 <= i < |tail| ==> tail[i] == results[i + 1];
      if results[0].Interrupted? {
        FlushCompletes(c, tail);
      } else {
        var k := Min(results[0].n, |c.out| - c.outoff);
        AdvanceDrains(c, k);
        FlushCompletes(Advance(c, k), tail);
      }
    }
  }

  /** The first result that stops the loop while there is something left to send. */
  function Stop(results: seq<WriteResult>): (k: nat)
    ensures k <= |results|
  {
    if results == [] then 0
    else if results[0].Interrupted? || (results[0].Wrote? && results[0].n > 0) then 1 + Stop(results[1..])
    else 0
  }

  /** `n` more bytes were sent, the buffer is released if those were all, and a failure marks the connection closed. */
  function SentMore(c: Conn, n: nat, failed: bool): Conn
    requires c.outoff + n <= |c.out|
  {
    var all := c.outoff + n == |c.out|;
    Conn(c.fd, c.closed || (!all && failed), if all then [] else c.out, if all then 0 else c.outoff + n, c.bg,
         c.input, c.seen, c.produced, c.sent + c.out[c.outoff..c.outoff + n])
  }

  /** How many bytes go out: the results before the one that stops the loop make room for so many. */
  function Goes(c: Conn, results: seq<WriteResult>): (n: nat)
    requires c.outoff <= |c.out|
    ensures c.outoff + n <= |c.out|
  {
    Min(Room(results[..Stop(results)]), |c.out| - c.outoff)
  }

  /**
    Exactly how far a flush gets: that many bytes are sent, and the connection is marked closed if something is left
    and the result that stopped the loop is a failure.
   */
  lemma {:induction false} FlushExact(c: Conn, results: seq<WriteResult>)
    requires c.outoff <= |c.out|
    ensures Flush(c, results)
         == SentMore(c, Goes(c, results), Stop(results) < |results| && results[Stop(results)].Failed?)
    decreases |results|
  {
    var k := Stop(results);
    hide SentMore, Room;
    if c.outoff == |c.out| {
      SentAll(c, k < |results| && results[k].Failed?);
    } else if k == 0 {
      assert results[..k] == [];
      NoRoom();
      SentNone(c, results != [] && results[0].Failed?);
    } else {
      var rest := results[1..];
      RoomStep(results, k);
      if results[0].Interrupted? {
        FlushExact(c, rest);
      } else {
        var m := Min(results[0].n, |c.out| - c.outoff);
        FlushExact(Advance(c, m), rest);
        SentInTwo(c, m, Goes(Advance(c, m), rest), k < |results| && results[k].Failed?);
      }
    }
  }

  lemma NoRoom()
    ensures Room([]) == 0
  {
  }

  lemma RoomStep(results: seq<WriteResult>, k: nat)
    requires 0 < k <= |results|
    ensures Room(results[..k]) == (if results[0].Wrote? then results[0].n else 0) + Room(results[1..][..k - 1])
  {
    assert results[..k][0] == results[0] && results[..k][1..] == results[1..][..k - 1];
  }

  lemma SentAll(c: Conn, failed: bool)
    requires c.outoff == |c.out|
    ensures SentMore(c, 0, failed) == c.(out := [], outoff := 0)
  {
    assert c.out[c.outoff..c.outoff] == [] && c.sent + [] == c.sent;
  }

  lemma SentNone(c: Conn, failed: bool)
    requires c.outoff < |c.out|
    ensures SentMore(c, 0, failed) == if failed then c.(closed := true) else c
  {
    assert c.out[c.outoff..c.outoff] == [] && c.sent + [] == c.sent;
  }

  lemma SentInTwo(c: Conn, m: nat, n: nat, failed: bool)
    requires c.outoff + m + n <= |c.out|
    ensures SentMore(Advance(c, m), n, failed) == SentMore(c, m + n, failed)
  {
    SliceInTwo(c.sent, c.out, c.outoff, m, n);
    assert Advance(c, m).out == c.out && Advance(c, m).outoff == c.outoff + m;
  }

  lemma SliceInTwo<T>(head: seq<T>, s: seq<T>, i: nat, m: nat, n: nat)
    requires i + m + n <= |s|
    ensures head + s[i..i + m] + s[i + m..i + m + n] == head + s[i..i + m + n]
  {
    assert s[i..i + m] + s[i + m..i + m + n] == s[i..i + m + n];
    Assoc(head, s[i..i + m], s[i + m..i + m + n]);
  }

  // ---------------------------------------------------------------- the table

  /** The queue of the running cycle that a connection is in. */
  datatype Place = Attaching | Reading | Processing | Writing | Closing

  /**
    `hmap` is the worker's map from descriptors; `conns` the connections allocated and not yet freed; `lost` those
    whose insertion into the map failed; `gone` the freed ones as they were when freed.
   */
  datatype Table = Table(conns: map<ConnId, Conn>, hmap: map<int, ConnId>, lost: set<ConnId>,
                         place: map<ConnId, Place>, nextId: nat, openedCalls: nat, closedCalls: nat,
                         gone: map<ConnId, Conn>)

  function EmptyTable(): Table
  {
    Table(map[], map[], {}, map[], 0, 0, 0, map[])
  }

  function PlaceOf(t: Table, id: ConnId): Option<Place>
  {
    if id in t.place then Some(t.place[id]) else None
  }

  /**
    What a connection must be to stand where it stands: bytes read and not yet processed only in the process queue,
    no unsent output when it is read or processed, and never in background work when the cycle will act on it.
   */
  predicate Fits(c: Conn, p: Option<Place>)
  {
    && Accounted(c)
    && c.seen <= c.input && (p == Some(Processing) || c.seen == c.input)
    && (p == Some(Reading) || p == Some(Processing) ==> c.out == [])
    && (p.Some? && p != Some(Attaching) ==> !c.bg)
  }

  predicate ConnOk(t: Table, id: ConnId)
    requires id in t.conns
  {
    var c := t.conns[id];
    && id < t.nextId && id !in t.gone
    && Fits(c, PlaceOf(t, id))
    && (id !in t.lost ==> c.fd in t.hmap && t.hmap[c.fd] == id)
    && (id in t.place && c.fd in t.hmap ==> t.hmap[c.fd] == id)
  }

  /** A freed connection had nothing unprocessed, no background work, and had sent a prefix of its responses. */
  predicate Ended(c: Conn)
  {
    !c.bg && c.seen == c.input && c.sent <= c.produced
  }

  ghost predicate TableOk(t: Table)
  {
    ConnsOk(t) && MapOk(t) && GoneOk(t) && Counts(t)
  }

  ghost predicate ConnsOk(t: Table)
  {
    && (forall id :: id in t.conns ==> ConnOk(t, id))
    && (forall id :: id in t.place ==> id in t.conns)
  }

  /** The map leads from a descriptor to its own connection, and never to a lost one. */
  ghost predicate MapOk(t: Table)
  {
    && (forall fd :: fd in t.hmap ==>
          t.hmap[fd] in t.conns && t.conns[t.hmap[fd]].fd == fd && t.hmap[fd] !in t.lost)
    && (forall id :: id in t.lost ==> id in t.conns)
  }

  ghost predicate GoneOk(t: Table)
  {
    forall id :: id in t.gone ==> id < t.nextId && Ended(t.gone[id])
  }

  /** Every opened connection is either open or closed once; the open ones are those mapped and those lost. */
  predicate Counts(t: Table)
  {
    && t.openedCalls == t.nextId && t.closedCalls == |t.gone|
    && t.openedCalls - t.closedCalls == |t.conns|
    && |t.conns| == |t.hmap| + |t.lost|
  }

  /** `conn_new`, the insertion into the map, which may fail, and the opened callback. */
  function Open(t: Table, fd: int, insertOk: bool): Table
  {
    var id := t.nextId;
    t.(conns := t.conns[id := NewConn(fd)], nextId := id + 1, openedCalls := t.openedCalls + 1,
       hmap := if insertOk then t.hmap[fd := id] else t.hmap,
       lost := if insertOk then t.lost else t.lost + {id})
  }

  /** Connection `id` becomes `c` and moves to queue `p`, or to none. */
  function Set(t: Table, id: ConnId, c: Conn, p: Option<Place>): Table
  {
    t.(conns := t.conns[id := c], place := if p.Some? then t.place[id := p.value] else t.place - {id})
  }

  lemma SetFrame(t: Table, id: ConnId, c: Conn, p: Option<Place>)
    ensures var u := Set(t, id, c, p); u.hmap == t.hmap && u.lost == t.lost && u.conns == t.conns[id := c]
  {
  }

  /** The closed callback, the removal from the map and `conn_free`. */
  function Close(t: Table, id: ConnId): Table
    requires id in t.conns
  {
    var c := t.conns[id];
    t.(conns := t.conns - {id}, hmap := t.hmap - {c.fd}, lost := t.lost - {id}, place := t.place - {id},
       closedCalls := t.closedCalls + 1, gone := t.gone[id := c])
  }

  lemma CardAdd<X, Y>(m: map<X, Y>, x: X, y: Y)
    requires x !in m
    ensures |m[x := y]| == |m| + 1
  {
    assert m[x := y].Keys == m.Keys + {x};
  }

  lemma CardRemove<X, Y>(m: map<X, Y>, x: X)
    ensures |m - {x}| == if x in m then |m| - 1 else |m|
  {
    assert (m - {x}).Keys == m.Keys - {x};
    if x !in m {
      assert m - {x} == m;
    }
  }

  lemma SetRemove<X>(s: set<X>, x: X)
    ensures |s - {x}| == if x in s then |s| - 1 else |s|
  {
    if x !in s {
      assert s - {x} == s;
    }
  }

  lemma CardUpdate<X, Y>(m: map<X, Y>, x: X, y: Y)
    requires x in m
    ensures |m[x := y]| == |m|
  {
    assert m[x := y].Keys == m.Keys;
  }

  lemma OpenConns(t: Table, fd: int, insertOk: bool)
    requires ConnsOk(t) && fd !in t.hmap
    requires forall id :: id in t.place && id in t.conns ==> t.conns[id].fd != fd
    requires t.nextId !in t.gone
    ensures ConnsOk(Open(t, fd, insertOk)) && t.nextId !in t.conns && t.nextId !in t.place
  {
    var u := Open(t, fd, insertOk);
    assert Fits(NewConn(fd), None);
    hide Fits;
    forall i | i in u.conns
      ensures ConnOk(u, i)
    {
      if i != t.nextId {
        assert ConnOk(t, i);
        assert PlaceOf(u, i) == PlaceOf(t, i);
      }
    }
  }

  lemma OpenRest(t: Table, fd: int, insertOk: bool)
    requires MapOk(t) && GoneOk(t) && fd !in t.hmap && t.nextId !in t.conns
    ensures MapOk(Open(t, fd, insertOk)) && GoneOk(Open(t, fd, insertOk)) && t.nextId !in t.gone
    ensures t.nextId !in t.lost
  {
    hide Ended;
  }

  lemma OpenCounts(t: Table, fd: int, insertOk: bool)
    requires Counts(t) && fd !in t.hmap && t.nextId !in t.conns && t.nextId !in t.lost
    ensures Counts(Open(t, fd, insertOk))
  {
    CardAdd(t.conns, t.nextId, NewConn(fd));
    CardAdd(t.hmap, fd, t.nextId);
  }

  lemma NextIsNew(t: Table)
    requires ConnsOk(t)
    ensures t.nextId !in t.conns
  {
    assert t.nextId in t.conns ==> ConnOk(t, t.nextId);
  }

  lemma OpenOk(t: Table, fd: int, insertOk: bool)
    requires TableOk(t) && fd !in t.hmap
    requires forall id :: id in t.place && id in t.conns ==> t.conns[id].fd != fd
    ensures TableOk(Open(t, fd, insertOk)) && t.nextId !in t.conns && t.nextId !in t.place
  {
    hide ConnsOk, MapOk, GoneOk, Counts, Open;
    NextIsNew(t);
    OpenRest(t, fd, insertOk);
    OpenConns(t, fd, insertOk);
    OpenCounts(t, fd, insertOk);
  }

  lemma SetConns(t: Table, id: ConnId, c: Conn, p: Option<Place>)
    requires ConnsOk(t) && id in t.conns && c.fd == t.conns[id].fd && Fits(c, p)
    requires p.Some? && c.fd in t.hmap ==> t.hmap[c.fd] == id
    ensures ConnsOk(Set(t, id, c, p))
  {
    var u := Set(t, id, c, p);
    hide Fits;
    assert PlaceOf(u, id) == p;
    forall i | i in u.conns
      ensures ConnOk(u, i)
    {
      assert ConnOk(t, i);
      assert i != id ==> PlaceOf(u, i) == PlaceOf(t, i);
    }
  }

  lemma SetRest(t: Table, id: ConnId, c: Conn, p: Option<Place>)
    requires MapOk(t) && GoneOk(t) && Counts(t) && id in t.conns && c.fd == t.conns[id].fd
    ensures MapOk(Set(t, id, c, p)) && GoneOk(Set(t, id, c, p)) && Counts(Set(t, id, c, p))
  {
    hide Ended;
    CardUpdate(t.conns, id, c);
  }

  lemma SetOk(t: Table, id: ConnId, c: Conn, p: Option<Place>)
    requires TableOk(t) && id in t.conns && c.fd == t.conns[id].fd && Fits(c, p)
    requires p.Some? && c.fd in t.hmap ==> t.hmap[c.fd] == id
    ensures TableOk(Set(t, id, c, p))
  {
    hide ConnsOk, MapOk, GoneOk, Counts, Set, Fits;
    SetConns(t, id, c, p);
    SetRest(t, id, c, p);
  }

  lemma CloseConns(t: Table, id: ConnId)
    requires ConnsOk(t) && id in t.conns && MapOk(t) && (t.conns[id].fd in t.hmap ==> t.hmap[t.conns[id].fd] == id)
    ensures ConnsOk(Close(t, id))
  {
    var u := Close(t, id);
    hide Fits;
    forall i | i in u.conns
      ensures ConnOk(u, i)
    {
      assert ConnOk(t, i);
      assert PlaceOf(u, i) == PlaceOf(t, i);
      assert i !in t.lost ==> t.conns[i].fd != t.conns[id].fd;
    }
  }

  lemma CloseMap(t: Table, id: ConnId)
    requires MapOk(t) && id in t.conns && (t.conns[id].fd in t.hmap ==> t.hmap[t.conns[id].fd] == id)
    ensures MapOk(Close(t, id))
  {
  }

  lemma CloseGone(t: Table, id: ConnId)
    requires GoneOk(t) && id in t.conns && id < t.nextId && Ended(t.conns[id])
    ensures GoneOk(Close(t, id))
  {
    hide Ended;
  }

  lemma CloseCounts(t: Table, id: ConnId)
    requires Counts(t) && id in t.conns && id !in t.gone && (id in t.lost <==> t.conns[id].fd !in t.hmap)
    ensures Counts(Close(t, id))
  {
    CardRemove(t.conns, id);
    CardRemove(t.hmap, t.conns[id].fd);
    CardAdd(t.gone, id, t.conns[id]);
    SetRemove(t.lost, id);
  }

  /** What is known of a connection about to be closed. */
  lemma ClosingFacts(t: Table, id: ConnId)
    requires ConnsOk(t) && MapOk(t) && PlaceOf(t, id) == Some(Closing)
    ensures id in t.conns && id < t.nextId && id !in t.gone && Ended(t.conns[id])
    ensures t.conns[id].fd in t.hmap ==> t.hmap[t.conns[id].fd] == id
    ensures id in t.lost <==> t.conns[id].fd !in t.hmap
  {
    assert ConnOk(t, id);
  }

  lemma CloseOk(t: Table, id: ConnId)
    requires TableOk(t) && PlaceOf(t, id) == Some(Closing)
    ensures id in t.conns && TableOk(Close(t, id))
  {
    hide ConnsOk, MapOk, GoneOk, Counts, Close, Ended;
    ClosingFacts(t, id);
    CloseConns(t, id);
    CloseMap(t, id);
    CloseGone(t, id);
    CloseCounts(t, id);
  }

  /** `ts_reset`: every queue is emptied. */
  lemma ResetOk(t: Table)
    requires TableOk(t) && NoneAt(t, Processing)
    ensures TableOk(t.(place := map[]))
  {
    var u := t.(place := map[]);
    forall i | i in u.conns
      ensures ConnOk(u, i)
    {
      assert ConnOk(t, i);
    }
  }

  // ---------------------------------------------------------------- queues

  /** The connections of `s` are live, pairwise different and all in queue `p`, so no other queue holds them. */
  ghost predicate Queued(t: Table, s: seq<ConnId>, p: Place)
  {
    NoDup(s) && forall i :: 0 <= i < |s| ==> s[i] in t.conns && PlaceOf(t, s[i]) == Some(p)
  }

  /** Only connections of `s` are in queue `p`. */
  ghost predicate Only(t: Table, s: seq<ConnId>, p: Place)
  {
    forall id :: id in t.place && t.place[id] == p ==> id in s
  }

  ghost predicate NoneAt(t: Table, p: Place)
  {
    forall id :: id in t.place ==> t.place[id] != p
  }

  /** Moving a connection that is not in `s` leaves the queue `s` as it is. */
  lemma SetKeepsQueue(t: Table, id: ConnId, c: Conn, p: Option<Place>, s: seq<ConnId>, q: Place)
    requires Queued(t, s, q) && PlaceOf(t, id) != Some(q)
    ensures Queued(Set(t, id, c, p), s, q)
  {
  }

  lemma SetJoinsQueue(t: Table, id: ConnId, c: Conn, s: seq<ConnId>, q: Place)
    requires Queued(t, s, q) && PlaceOf(t, id) != Some(q)
    ensures Queued(Set(t, id, c, Some(q)), s + [id], q)
  {
  }

  /** The connection at the head of what is left of a queue leaves it. */
  lemma SetLeavesQueue(t: Table, id: ConnId, c: Conn, p: Option<Place>, s: seq<ConnId>, i: nat, q: Place)
    requires i < |s| && Queued(t, s[i..], q) && id == s[i] && p != Some(q)
    ensures Queued(Set(t, id, c, p), s[i + 1..], q)
  {
    var rest, tail := s[i..], s[i + 1..];
    assert forall j :: 0 <= j < |tail| ==> tail[j] == rest[j + 1] && tail[j] != rest[0];
  }

  /** The connection at the head of what is left of the close queue is freed; the others stay. */
  lemma CloseLeavesQueue(t: Table, s: seq<ConnId>, i: nat, q: Place)
    requires i < |s| && Queued(t, s[i..], q) && s[i] in t.conns
    ensures Queued(Close(t, s[i]), s[i + 1..], q)
  {
    var rest, tail := s[i..], s[i + 1..];
    assert forall j :: 0 <= j < |tail| ==> tail[j] == rest[j + 1] && tail[j] != rest[0];
  }

  lemma SetNoneAt(t: Table, id: ConnId, c: Conn, p: Option<Place>, at: Place)
    requires NoneAt(t, at) && p != Some(at)
    ensures NoneAt(Set(t, id, c, p), at)
  {
  }

  lemma CloseNoneAt(t: Table, id: ConnId, at: Place)
    requires NoneAt(t, at) && id in t.conns
    ensures NoneAt(Close(t, id), at)
  {
  }

  lemma QueueHead(t: Table, s: seq<ConnId>, i: nat, q: Place)
    requires i < |s| && Queued(t, s[i..], q)
    ensures s[i] in t.conns && PlaceOf(t, s[i]) == Some(q)
  {
    assert s[i..][0] == s[i];
  }

  // ---------------------------------------------------------------- what a run keeps

  /** `d` is `c` some time later: histories only grow, and background work is left alone. */
  predicate Later(c: Conn, d: Conn)
  {
    && d.fd == c.fd && c.input <= d.input && c.seen <= d.seen && c.produced <= d.produced && c.sent <= d.sent
    && (c.bg ==> d == c)
  }

  /** Every connection of `t` lives on, later, or was closed once and for all, but never while in background work. */
  ghost predicate Extends(t: Table, u: Table)
  {
    && (forall id :: id in t.gone ==> id in u.gone && u.gone[id] == t.gone[id])
    && (forall id :: id in t.conns ==>
          if id in u.conns then Later(t.conns[id], u.conns[id])
          else id in u.gone && !t.conns[id].bg && Later(t.conns[id], u.gone[id]))
    && t.nextId <= u.nextId
  }

  lemma PrefixTrans<T>(a: seq<T>, b: seq<T>, c: seq<T>)
    requires a <= b <= c
    ensures a <= c
  {
  }

  lemma LaterTrans(a: Conn, b: Conn, c: Conn)
    requires Later(a, b) && Later(b, c)
    ensures Later(a, c)
  {
    PrefixTrans(a.input, b.input, c.input);
    PrefixTrans(a.seen, b.seen, c.seen);
    PrefixTrans(a.produced, b.produced, c.produced);
    PrefixTrans(a.sent, b.sent, c.sent);
  }

  lemma LaterSelf(c: Conn)
    ensures Later(c, c)
  {
  }

  lemma ExtendsSelf(t: Table)
    ensures Extends(t, t)
  {
  }

  lemma ExtendsTrans(t: Table, u: Table, v: Table)
    requires Extends(t, u) && Extends(u, v)
    requires TableOk(v)
    ensures Extends(t, v)
  {
    hide Later, Fits, Ended, Counts;
    forall id | id in t.conns
      ensures if id in v.conns then Later(t.conns[id], v.conns[id])
              else id in v.gone && !t.conns[id].bg && Later(t.conns[id], v.gone[id])
    {
      if id in u.conns {
        var c := if id in v.conns then v.conns[id] else v.gone[id];
        LaterTrans(t.conns[id], u.conns[id], c);
        BgLater(t.conns[id], u.conns[id]);
      } else {
        assert id in v.gone;
        assert id in v.conns ==> ConnOk(v, id);
      }
    }
  }

  lemma BgLater(c: Conn, d: Conn)
    requires Later(c, d)
    ensures c.bg ==> d.bg
  {
  }

  lemma OpenExtends(t: Table, fd: int, insertOk: bool)
    requires TableOk(t)
    ensures Extends(t, Open(t, fd, insertOk))
  {
    NextIsNew(t);
    hide TableOk;
    forall i | i in t.conns
      ensures Later(t.conns[i], t.conns[i])
    {
      LaterSelf(t.conns[i]);
    }
    hide Later;
  }

  lemma SetExtends(t: Table, id: ConnId, c: Conn, p: Option<Place>)
    requires TableOk(t) && id in t.conns && Later(t.conns[id], c)
    ensures Extends(t, Set(t, id, c, p))
  {
    forall i | i in t.conns
      ensures Later(t.conns[i], Set(t, id, c, p).conns[i])
    {
      LaterSelf(t.conns[i]);
    }
  }

  lemma CloseExtends(t: Table, id: ConnId)
    requires TableOk(t) && PlaceOf(t, id) == Some(Closing)
    ensures id in t.conns && Extends(t, Close(t, id))
  {
    hide Later, Counts, Accounted;
    assert ConnOk(t, id);
    forall i | i in t.conns
      ensures Later(t.conns[i], t.conns[i])
    {
      LaterSelf(t.conns[i]);
    }
  }
}
