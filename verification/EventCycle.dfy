/**
  One worker of the network server: the cycle that sorts the events of one wait into queues, reads, processes, writes
  and closes. What the operating system and the callbacks do is an input of every cycle.
 */
module EventCycle {
  import opened Bytes
  import opened Collections
  import opened Connections

  const PACKET_SIZE := 16384

  /** An event of the wait: its descriptor, and whether memory for a new connection and its map entry is found. */
  datatype Event = Event(fd: int, mallocOk: bool, insertOk: bool)

  datatype ReadResult = Data(bytes: seq<Byte>) | Again | EndOrError

  /** What the process callback does: the response it leaves, whether it closes or goes to the background. */
  datatype Reply = Reply(response: seq<Byte>, close: bool, background: bool)

  /** All inputs of one cycle; the functions give the outcome for each position of the queue of their phase. */
  datatype World = World(events: seq<Event>, read: nat -> ReadResult, reply: nat -> Reply,
                         write: nat -> seq<WriteResult>, pollOk: nat -> bool)

  ghost predicate DistinctFds(events: seq<Event>)
  {
    forall i, j :: 0 <= i < j < |events| ==> events[i].fd != events[j].fd
  }

  ghost function FdsOf(events: seq<Event>): set<int>
  {
    set i | 0 <= i < |events| :: events[i].fd
  }

  /** A read never returns more than it was asked for, nor nothing. */
  function Clipped(r: ReadResult): ReadResult
  {
    if r.Data? then
      if r.bytes == [] then EndOrError else Data(r.bytes[..Min(|r.bytes|, PACKET_SIZE - 1)])
    else r
  }

  lemma ClippedData(r: ReadResult)
    ensures Clipped(r).Data? ==> 0 < |Clipped(r).bytes| < PACKET_SIZE
  {
  }

  // ---------------------------------------------------------------- what a cycle does

  /** The table and the queues, in the middle of a cycle. */
  datatype Phase = Phase(t: Table, attachs: seq<ConnId>, preads: seq<ConnId>, ins: seq<ConnId>, outs: seq<ConnId>,
                         closes: seq<ConnId>)

  function Add(q: seq<ConnId>, here: bool, id: ConnId): seq<ConnId>
  {
    if here then q + [id] else q
  }

  /** Connection `id` becomes `c` and joins queue `p`, or none. */
  function Moved(q: Phase, id: ConnId, c: Conn, p: Option<Place>): Phase
  {
    Phase(Set(q.t, id, c, p), Add(q.attachs, p == Some(Attaching), id), Add(q.preads, p == Some(Reading), id),
          Add(q.ins, p == Some(Processing), id), Add(q.outs, p == Some(Writing), id),
          Add(q.closes, p == Some(Closing), id))
  }

  /** Background work first, then unsent output, then a pending close; otherwise there may be something to read. */
  function NeedOf(c: Conn): Place
  {
    if c.bg then Attaching else if |c.out| > 0 then Writing else if c.closed then Closing else Reading
  }

  function Sorted(q: Phase, id: ConnId): Phase
  {
    if id in q.t.conns then Moved(q, id, q.t.conns[id], Some(NeedOf(q.t.conns[id]))) else q
  }

  /** One event of `ts_accept`. */
  function AcceptOn(q: Phase, e: Event, listenFd: int, wakeFd: int): Phase
  {
    if e.fd == wakeFd then q
    else if e.fd in q.t.hmap then Sorted(q, q.t.hmap[e.fd])
    else if e.fd == listenFd || !e.mallocOk then q
    else Sorted(q.(t := Open(q.t, e.fd, e.insertOk)), q.t.nextId)
  }

  function AcceptUpTo(q: Phase, events: seq<Event>, n: nat, listenFd: int, wakeFd: int): Phase
    requires n <= |events|
  {
    if n == 0 then q else AcceptOn(AcceptUpTo(q, events, n - 1, listenFd, wakeFd), events[n - 1], listenFd, wakeFd)
  }

  /** One connection of `ts_read`. */
  function ReadOn(q: Phase, id: ConnId, r: ReadResult): Phase
  {
    if id !in q.t.conns then q
    else
      var c := q.t.conns[id];
      match Clipped(r)
      case Again => Moved(q, id, c, None)
      case EndOrError => Moved(q, id, c, Some(Closing))
      case Data(bytes) => Moved(q, id, c.(input := c.input + bytes), Some(Processing))
  }

  function ReadUpTo(q: Phase, ids: seq<ConnId>, n: nat, read: nat -> ReadResult): Phase
    requires n <= |ids|
  {
    if n == 0 then q else ReadOn(ReadUpTo(q, ids, n - 1, read), ids[n - 1], read(n - 1))
  }

  /** What the process callback leaves: the packet is seen, and the response replaces the output buffer. */
  function Replied(c: Conn, packet: seq<Byte>, r: Reply): Conn
  {
    c.(seen := c.seen + packet, out := r.response, outoff := 0, produced := c.produced + r.response,
       closed := c.closed || r.close, bg := r.background)
  }

  function AfterProcess(c: Conn): Option<Place>
  {
    if c.bg then None else if |c.out| > 0 then Some(Writing) else if c.closed then Some(Closing) else None
  }

  /** What was read and not yet seen. */
  function Unseen(c: Conn): seq<Byte>
  {
    if |c.seen| <= |c.input| then c.input[|c.seen|..] else []
  }

  /** One connection of `ts_process`: the callback sees what was read since its last call. */
  function ProcessOn(q: Phase, id: ConnId, r: Reply): Phase
  {
    if id !in q.t.conns then q
    else
      var d := Replied(q.t.conns[id], Unseen(q.t.conns[id]), r);
      Moved(q, id, d, AfterProcess(d))
  }

  function ProcessUpTo(q: Phase, ids: seq<ConnId>, n: nat, reply: nat -> Reply): Phase
    requires n <= |ids|
  {
    if n == 0 then q else ProcessOn(ProcessUpTo(q, ids, n - 1, reply), ids[n - 1], reply(n - 1))
  }

  /** One connection of `ts_write`. */
  function WriteOn(q: Phase, id: ConnId, results: seq<WriteResult>, pollOk: bool): Phase
  {
    if id !in q.t.conns then q
    else
      var d := Flush(q.t.conns[id], results);
      if d.closed then Moved(q, id, d, Some(Closing)) else Moved(q, id, d.(closed := !pollOk), None)
  }

  function WriteUpTo(q: Phase, ids: seq<ConnId>, n: nat, w: World): Phase
    requires n <= |ids|
  {
    if n == 0 then q else WriteOn(WriteUpTo(q, ids, n - 1, w), ids[n - 1], w.write(n - 1), w.pollOk(n - 1))
  }

  function CloseUpTo(t: Table, ids: seq<ConnId>, n: nat): Table
    requires n <= |ids|
  {
    if n == 0 then t
    else
      var u := CloseUpTo(t, ids, n - 1);
      if ids[n - 1] in u.conns then Close(u, ids[n - 1]) else u
  }

  /** The whole cycle. */
  function CycleOf(t: Table, w: World, listenFd: int, wakeFd: int): Phase
  {
    var q1 := AcceptUpTo(Phase(t.(place := map[]), [], [], [], [], []), w.events, |w.events|, listenFd, wakeFd);
    var q2 := ReadUpTo(q1, q1.preads, |q1.preads|, w.read);
    var q3 := ProcessUpTo(q2, q2.ins, |q2.ins|, w.reply);
    var q4 := WriteUpTo(q3, q3.outs, |q3.outs|, w);
    q4.(t := CloseUpTo(q4.t, q4.closes, |q4.closes|))
  }

  // ---------------------------------------------------------------- what each phase keeps

  ghost predicate Accepting(t: Table, attachs: seq<ConnId>, preads: seq<ConnId>, outs: seq<ConnId>,
                            closes: seq<ConnId>, past: set<int>)
  {
    && TableOk(t) && NoneAt(t, Processing)
    && Queued(t, attachs, Attaching) && Queued(t, preads, Reading)
    && Queued(t, outs, Writing) && Queued(t, closes, Closing)
    && (forall id :: id in t.place && id in t.conns ==> t.conns[id].fd in past)
  }

  /** The first `i` connections to be read have been; what was read waits in `ins`. */
  ghost predicate ReadingFrom(t: Table, preads: seq<ConnId>, i: nat, ins: seq<ConnId>, outs: seq<ConnId>,
                              closes: seq<ConnId>)
  {
    && i <= |preads| && TableOk(t)
    && Queued(t, preads[i..], Reading) && Queued(t, ins, Processing) && Only(t, ins, Processing)
    && Queued(t, outs, Writing) && Queued(t, closes, Closing)
  }

  ghost predicate ProcessingFrom(t: Table, ins: seq<ConnId>, i: nat, outs: seq<ConnId>, closes: seq<ConnId>)
  {
    && i <= |ins| && TableOk(t)
    && Queued(t, ins[i..], Processing) && Only(t, ins[i..], Processing)
    && Queued(t, outs, Writing) && Queued(t, closes, Closing)
  }

  ghost predicate WritingFrom(t: Table, outs: seq<ConnId>, i: nat, closes: seq<ConnId>)
  {
    && i <= |outs| && TableOk(t) && NoneAt(t, Processing)
    && Queued(t, outs[i..], Writing) && Queued(t, closes, Closing)
  }

  ghost predicate ClosingFrom(t: Table, closes: seq<ConnId>, i: nat)
  {
    i <= |closes| && TableOk(t) && NoneAt(t, Processing) && Queued(t, closes[i..], Closing)
  }

  // ---------------------------------------------------------------- packets

  /** Packet `k` lies in a slot of its own below `top`, ends with a zero, and is what connection `ins[k]` last read. */
  ghost predicate PacketAt(conns: map<ConnId, Conn>, id: ConnId, off: nat, len: nat, buf: seq<Byte>)
  {
    && 0 < len < PACKET_SIZE && off + PACKET_SIZE <= |buf| && buf[off + len] == 0
    && id in conns && conns[id].input == conns[id].seen + buf[off..off + len]
  }

  ghost predicate Slots(offs: seq<nat>, top: nat)
  {
    && (forall k :: 0 <= k < |offs| ==> offs[k] + PACKET_SIZE <= top)
    && (forall k, l :: 0 <= k < l < |offs| ==> offs[k] + PACKET_SIZE <= offs[l])
  }

  ghost predicate Packets(conns: map<ConnId, Conn>, ins: seq<ConnId>, offs: seq<nat>, lens: seq<nat>,
                          buf: seq<Byte>, i: nat)
  {
    && |ins| == |offs| == |lens|
    && forall k :: i <= k < |ins| ==> PacketAt(conns, ins[k], offs[k], lens[k], buf)
  }

  /** Changing other connections, and the buffer only above the slots in use, leaves the packets as they are. */
  lemma PacketsKept(conns: map<ConnId, Conn>, conns': map<ConnId, Conn>, ins: seq<ConnId>, offs: seq<nat>,
                    lens: seq<nat>, buf: seq<Byte>, buf': seq<Byte>, i: nat, top: nat)
    requires Packets(conns, ins, offs, lens, buf, i) && Slots(offs, top)
    requires |buf'| == |buf| && top <= |buf| && buf'[..top] == buf[..top]
    requires forall k :: i <= k < |ins| && ins[k] in conns ==> ins[k] in conns' && conns'[ins[k]] == conns[ins[k]]
    ensures Packets(conns', ins, offs, lens, buf', i)
  {
    forall k | i <= k < |ins|
      ensures PacketAt(conns', ins[k], offs[k], lens[k], buf')
    {
      var off, len := offs[k], lens[k];
      assert PacketAt(conns, ins[k], off, len, buf);
      assert buf'[off..off + len] == buf'[..top][off..off + len];
      assert buf[off..off + len] == buf[..top][off..off + len];
      assert buf'[off + len] == buf'[..top][off + len] == buf[..top][off + len];
    }
  }

  lemma SlotsGrow(offs: seq<nat>, top: nat)
    requires Slots(offs, top)
    ensures Slots(offs, top + PACKET_SIZE) && Slots(offs + [top], top + PACKET_SIZE)
  {
  }

  lemma PacketsAdd(conns: map<ConnId, Conn>, ins: seq<ConnId>, offs: seq<nat>, lens: seq<nat>, buf: seq<Byte>,
                   id: ConnId, off: nat, len: nat)
    requires Packets(conns, ins, offs, lens, buf, 0) && PacketAt(conns, id, off, len, buf)
    ensures Packets(conns, ins + [id], offs + [off], lens + [len], buf, 0)
  {
    hide PacketAt;
  }

  // ---------------------------------------------------------------- callbacks

  lemma RepliedFits(c: Conn, packet: seq<Byte>, r: Reply)
    requires Fits(c, Some(Processing)) && c.input == c.seen + packet
    ensures var d := Replied(c, packet, r);
            Fits(d, AfterProcess(d)) && Later(c, d)
  {
    assert c.out[c.outoff..] == [];
    assert c.sent == c.produced;
    assert r.response[0..] == r.response;
  }

  lemma ReadFits(c: Conn, bytes: seq<Byte>)
    requires Fits(c, Some(Reading))
    ensures Fits(c, None) && Fits(c, Some(Closing))
    ensures var d := c.(input := c.input + bytes); Fits(d, Some(Processing)) && Later(c, d) && d.input == d.seen + bytes
  {
  }

  lemma {:induction false} FlushFits(c: Conn, results: seq<WriteResult>, closed: bool)
    requires Fits(c, Some(Writing))
    ensures var d := Flush(c, results);
            && Fits(d, Some(Closing)) && Later(c, d)
            && Fits(d.(closed := closed), None) && Later(c, d.(closed := closed))
  {
    hide Flush, Fits, Later, Accounted, Draining;
    WritingParts(c);
    FlushAccounts(c, results);
    FlushedFits(c, Flush(c, results), closed);
  }

  lemma WritingParts(c: Conn)
    requires Fits(c, Some(Writing))
    ensures Draining(c) && !c.bg && c.seen == c.input
  {
  }

  lemma FlushedFits(c: Conn, d: Conn, closed: bool)
    requires Accounted(d) && d.produced == c.produced && c.sent <= d.sent
    requires d.fd == c.fd && d.bg == c.bg && d.input == c.input && d.seen == c.seen && !c.bg && c.seen == c.input
    ensures Fits(d, Some(Closing)) && Later(c, d) && Fits(d.(closed := closed), None) && Later(c, d.(closed := closed))
  {
  }

  // ---------------------------------------------------------------- one step of each phase

  /** The queue `q` of place `at` after `id`, which is not in it, moved to `p`. */
  lemma QueueAfter(t: Table, id: ConnId, c: Conn, p: Option<Place>, q: seq<ConnId>, at: Place)
    requires Queued(t, q, at) && PlaceOf(t, id) != Some(at)
    ensures Queued(Set(t, id, c, p), Add(q, p == Some(at), id), at)
  {
    hide Queued, Set, PlaceOf;
    if p == Some(at) {
      SetJoinsQueue(t, id, c, q, at);
    } else {
      SetKeepsQueue(t, id, c, p, q, at);
    }
  }

  /** A queued connection may be moved to any other queue that it fits. */
  lemma MoveOk(t: Table, id: ConnId, c: Conn, p: Option<Place>)
    requires TableOk(t) && id in t.place && id in t.conns && c.fd == t.conns[id].fd && Fits(c, p)
    ensures TableOk(Set(t, id, c, p))
  {
    assert ConnOk(t, id);
    hide TableOk, Fits, Set;
    SetOk(t, id, c, p);
  }

  lemma AcceptStep(t: Table, attachs: seq<ConnId>, preads: seq<ConnId>, outs: seq<ConnId>, closes: seq<ConnId>,
                   past: set<int>, id: ConnId, p: Place)
    requires Accepting(t, attachs, preads, outs, closes, past)
    requires id in t.conns && t.conns[id].fd !in past && Fits(t.conns[id], Some(p)) && p != Processing
    requires t.conns[id].fd in t.hmap ==> t.hmap[t.conns[id].fd] == id
    ensures Accepting(Set(t, id, t.conns[id], Some(p)), Add(attachs, p == Attaching, id), Add(preads, p == Reading, id),
                      Add(outs, p == Writing, id), Add(closes, p == Closing, id), past + {t.conns[id].fd})
  {
    hide TableOk, Fits, Queued;
    SetOk(t, id, t.conns[id], Some(p));
    QueueAfter(t, id, t.conns[id], Some(p), attachs, Attaching);
    QueueAfter(t, id, t.conns[id], Some(p), preads, Reading);
    QueueAfter(t, id, t.conns[id], Some(p), outs, Writing);
    QueueAfter(t, id, t.conns[id], Some(p), closes, Closing);
  }

  lemma ReadStep(t: Table, preads: seq<ConnId>, i: nat, ins: seq<ConnId>, outs: seq<ConnId>, closes: seq<ConnId>,
                 c: Conn, p: Option<Place>)
    requires ReadingFrom(t, preads, i, ins, outs, closes) && i < |preads| && preads[i] in t.conns
    requires c.fd == t.conns[preads[i]].fd && Fits(c, p) && (p.None? || p.value == Processing || p.value == Closing)
    ensures ReadingFrom(Set(t, preads[i], c, p), preads, i + 1, Add(ins, p == Some(Processing), preads[i]), outs,
                        Add(closes, p == Some(Closing), preads[i]))
  {
    var id := preads[i];
    QueueHead(t, preads, i, Reading);
    hide TableOk, Fits, Queued, Only, Set;
    MoveOk(t, id, c, p);
    SetLeavesQueue(t, id, c, p, preads, i, Reading);
    QueueAfter(t, id, c, p, ins, Processing);
    QueueAfter(t, id, c, p, outs, Writing);
    QueueAfter(t, id, c, p, closes, Closing);
    OnlyAfter(t, id, c, p, ins, Processing);
  }

  lemma OnlyAfter(t: Table, id: ConnId, c: Conn, p: Option<Place>, q: seq<ConnId>, at: Place)
    requires Only(t, q, at)
    ensures Only(Set(t, id, c, p), Add(q, p == Some(at), id), at)
  {
    var r := Add(q, p == Some(at), id);
    assert forall x :: x in q ==> x in r;
    assert p == Some(at) ==> r[|q|] == id;
  }

  lemma OnlyLeaves(t: Table, c: Conn, p: Option<Place>, q: seq<ConnId>, i: nat, at: Place)
    requires i < |q| && Only(t, q[i..], at) && p != Some(at)
    ensures Only(Set(t, q[i], c, p), q[i + 1..], at)
  {
    assert q[i..] == [q[i]] + q[i + 1..];
  }

  lemma ProcessStep(t: Table, ins: seq<ConnId>, i: nat, outs: seq<ConnId>, closes: seq<ConnId>, c: Conn,
                    p: Option<Place>)
    requires ProcessingFrom(t, ins, i, outs, closes) && i < |ins| && ins[i] in t.conns
    requires c.fd == t.conns[ins[i]].fd && Fits(c, p) && (p.None? || p.value == Writing || p.value == Closing)
    ensures ProcessingFrom(Set(t, ins[i], c, p), ins, i + 1, Add(outs, p == Some(Writing), ins[i]),
                           Add(closes, p == Some(Closing), ins[i]))
  {
    var id := ins[i];
    QueueHead(t, ins, i, Processing);
    hide TableOk, Fits, Queued, Only, Set;
    MoveOk(t, id, c, p);
    SetLeavesQueue(t, id, c, p, ins, i, Processing);
    OnlyLeaves(t, c, p, ins, i, Processing);
    QueueAfter(t, id, c, p, outs, Writing);
    QueueAfter(t, id, c, p, closes, Closing);
  }

  lemma WriteStep(t: Table, outs: seq<ConnId>, i: nat, closes: seq<ConnId>, c: Conn, p: Option<Place>)
    requires WritingFrom(t, outs, i, closes) && i < |outs| && outs[i] in t.conns
    requires c.fd == t.conns[outs[i]].fd && Fits(c, p) && (p.None? || p.value == Closing)
    ensures WritingFrom(Set(t, outs[i], c, p), outs, i + 1, Add(closes, p == Some(Closing), outs[i]))
  {
    var id := outs[i];
    QueueHead(t, outs, i, Writing);
    hide TableOk, Fits, Queued, NoneAt, Set;
    MoveOk(t, id, c, p);
    SetNoneAt(t, id, c, p, Processing);
    SetLeavesQueue(t, id, c, p, outs, i, Writing);
    QueueAfter(t, id, c, p, closes, Closing);
  }

  lemma CloseStep(t: Table, closes: seq<ConnId>, i: nat)
    requires ClosingFrom(t, closes, i) && i < |closes|
    ensures closes[i] in t.conns && ClosingFrom(Close(t, closes[i]), closes, i + 1)
  {
    QueueHead(t, closes, i, Closing);
    hide TableOk, Queued, NoneAt, Close;
    CloseOk(t, closes[i]);
    CloseLeavesQueue(t, closes, i, Closing);
    CloseNoneAt(t, closes[i], Processing);
  }

  /** A connection waiting in a queue fits that queue. */
  lemma QueuedFits(t: Table, id: ConnId)
    requires TableOk(t) && id in t.place
    ensures id in t.conns && Fits(t.conns[id], Some(t.place[id]))
  {
    assert id in t.conns ==> ConnOk(t, id);
  }

  // ---------------------------------------------------------------- from phase to phase

  lemma ResetExtends(t: Table)
    ensures Extends(t, t.(place := map[]))
  {
    ExtendsSelf(t);
  }

  lemma ToReading(t: Table, attachs: seq<ConnId>, preads: seq<ConnId>, outs: seq<ConnId>, closes: seq<ConnId>,
                  past: set<int>, buf: seq<Byte>)
    requires Accepting(t, attachs, preads, outs, closes, past)
    ensures ReadingFrom(t, preads, 0, [], outs, closes) && Packets(t.conns, [], [], [], buf, 0) && Slots([], 0)
  {
    assert preads[0..] == preads;
    hide TableOk;
  }

  lemma ToProcessing(t: Table, preads: seq<ConnId>, ins: seq<ConnId>, outs: seq<ConnId>, closes: seq<ConnId>)
    requires ReadingFrom(t, preads, |preads|, ins, outs, closes)
    ensures ProcessingFrom(t, ins, 0, outs, closes)
  {
    assert ins[0..] == ins;
    hide TableOk, Queued;
  }

  lemma ToWriting(t: Table, ins: seq<ConnId>, outs: seq<ConnId>, closes: seq<ConnId>)
    requires ProcessingFrom(t, ins, |ins|, outs, closes)
    ensures WritingFrom(t, outs, 0, closes)
  {
    assert outs[0..] == outs && ins[|ins|..] == [];
    hide TableOk, Queued;
  }

  lemma ToClosing(t: Table, outs: seq<ConnId>, closes: seq<ConnId>)
    requires WritingFrom(t, outs, |outs|, closes)
    ensures ClosingFrom(t, closes, 0)
  {
    assert closes[0..] == closes;
    hide TableOk, Queued;
  }

  lemma FromClosing(t: Table, closes: seq<ConnId>)
    requires ClosingFrom(t, closes, |closes|)
    ensures TableOk(t) && NoneAt(t, Processing)
  {
  }

  /** `flush_conn`. */
  method FlushConn(c: Conn, results: seq<WriteResult>) returns (d: Conn)
    requires c.outoff <= |c.out|
    ensures d == Flush(c, results)
  {
    d := c;
    var rest := results;
    while d.outoff < |d.out|
      invariant d.outoff <= |d.out| && Flush(d, rest) == Flush(c, results)
      decreases |rest|
    {
      if rest == [] {
        return;
      }
      var r := rest[0];
      rest := rest[1..];
      match r
      case Interrupted =>
      case WouldBlock => return;
      case Failed =>
        d := d.(closed := true);
        return;
      case Wrote(n) =>
        if n == 0 {
          return;
        }
        d := Advance(d, Min(n, |d.out| - d.outoff));
    }
    d := d.(out := [], outoff := 0);
  }

  // ---------------------------------------------------------------- the worker

  class Worker {
    const queuesize: nat
    const listenFd: int
    const wakeFd: int
    /** One slot of `PACKET_SIZE` bytes for every connection that can be read in a cycle. */
    const inpkts: array<Byte>
    var table: Table
    var attachs: seq<ConnId>
    var preads: seq<ConnId>
    var ins: seq<ConnId>
    var outs: seq<ConnId>
    var closes: seq<ConnId>
    var pktOffs: seq<nat>
    var pktLens: seq<nat>

    ghost function Now(): Phase
      reads this
    {
      Phase(table, attachs, preads, ins, outs, closes)
    }

    /** How many connections `ts_accept` has sorted in so far. */
    ghost function Entries(): nat
      reads this`attachs, this`preads, this`outs, this`closes
    {
      |attachs| + |preads| + |outs| + |closes|
    }

    /** Between cycles. */
    ghost predicate Valid()
      reads this
    {
      TableOk(table) && NoneAt(table, Processing) && Separate()
    }

    /** The map never holds the listening or the wake descriptor. */
    ghost predicate Separate()
      reads this`table
    {
      && listenFd !in table.hmap && wakeFd !in table.hmap
      && inpkts.Length == PACKET_SIZE * queuesize
    }

    constructor (queuesize: nat, listenFd: int, wakeFd: int)
      ensures Valid() && table == EmptyTable() && fresh(inpkts)
      ensures this.queuesize == queuesize && this.listenFd == listenFd && this.wakeFd == wakeFd
    {
      this.queuesize, this.listenFd, this.wakeFd := queuesize, listenFd, wakeFd;
      inpkts := new Byte[PACKET_SIZE * queuesize](_ => 0);
      table := EmptyTable();
      attachs, preads, ins, outs, closes := [], [], [], [], [];
      pktOffs, pktLens := [], [];
    }

    /** Appends to a queue; the arrays of the source have room for `queuesize` entries. */
    method Push(q: seq<ConnId>, id: ConnId) returns (r: seq<ConnId>)
      requires |q| < queuesize
      ensures r == q + [id]
    {
      r := q + [id];
    }

    /** `ts_reset`. */
    method Reset()
      requires Valid()
      modifies this
      ensures Accepting(table, attachs, preads, outs, closes, {}) && Separate()
      ensures attachs == preads == ins == outs == closes == [] && pktOffs == pktLens == []
      ensures table == old(table).(place := map[])
    {
      hide TableOk, Accepting, NoneAt;
      ResetOk(table);
      ResetAccepts(table);
      attachs, preads, ins, outs, closes := [], [], [], [], [];
      pktOffs, pktLens := [], [];
      table := table.(place := map[]);
    }

    /** The connection of an event: found in the map, or opened when memory is found; none for other descriptors. */
    method FindOrOpen(e: Event, ghost past: set<int>) returns (found: Option<ConnId>)
      requires Accepting(table, attachs, preads, outs, closes, past) && e.fd !in past && Separate()
      modifies this`table
      ensures Accepting(table, attachs, preads, outs, closes, past) && Separate()
      ensures found.None? ==> table == old(table)
      ensures found.Some? ==> found.value in table.conns && table.conns[found.value].fd == e.fd
                              && found.value !in table.place
                              && (e.fd in table.hmap ==> table.hmap[e.fd] == found.value)
      ensures AcceptOn(old(Now()), e, listenFd, wakeFd) == if found.None? then Now() else Sorted(Now(), found.value)
      ensures Extends(old(table), table)
      ensures e.insertOk ==> table.lost == old(table).lost
    {
      hide Extends, Sorted, TableOk, NoneAt, Queued;
      ExtendsSelf(table);
      AcceptedOk(table, attachs, preads, outs, closes, past);
      if e.fd == wakeFd {
        return None;
      }
      if e.fd in table.hmap {
        InMap(table, e.fd);
        return Some(table.hmap[e.fd]);
      }
      if e.fd == listenFd || !e.mallocOk {
        return None;
      }
      found := Some(table.nextId);
      OpenAccepts(table, attachs, preads, outs, closes, past, e.fd, e.insertOk);
      table := Open(table, e.fd, e.insertOk);
    }

    method AcceptOne(e: Event, ghost past: set<int>)
      requires Accepting(table, attachs, preads, outs, closes, past) && e.fd !in past && Separate()
      requires Entries() < queuesize
      modifies this`table, this`attachs, this`preads, this`outs, this`closes
      ensures Accepting(table, attachs, preads, outs, closes, past + {e.fd}) && Separate()
      ensures Entries() <= old(Entries()) + 1
      ensures Now() == AcceptOn(old(Now()), e, listenFd, wakeFd)
      ensures Extends(old(table), table)
      ensures e.insertOk ==> table.lost == old(table).lost
    {
      hide Accepting, Extends, TableOk, AcceptOn, Sorted;
      var found := FindOrOpen(e, past);
      match found
      case None =>
        PastGrows(table, attachs, preads, outs, closes, past, e.fd);
      case Some(id) =>
        ghost var mid := table;
        Enqueue(id, past);
        AcceptedOk(table, attachs, preads, outs, closes, past + {e.fd});
        ExtendsTrans(old(table), mid, table);
    }

    /** Sorts a connection into the queue of what it needs next. */
    method Enqueue(id: ConnId, ghost past: set<int>)
      requires Accepting(table, attachs, preads, outs, closes, past) && Separate()
      requires id in table.conns && table.conns[id].fd !in past && id !in table.place
      requires table.conns[id].fd in table.hmap ==> table.hmap[table.conns[id].fd] == id
      requires Entries() < queuesize
      modifies this`table, this`attachs, this`preads, this`outs, this`closes
      ensures Accepting(table, attachs, preads, outs, closes, past + {old(table).conns[id].fd}) && Separate()
      ensures Entries() == old(Entries()) + 1
      ensures Now() == Sorted(old(Now()), id)
      ensures Extends(old(table), table) && table.lost == old(table).lost
    {
      hide *;
      var c := table.conns[id];
      IdleFits(table, attachs, preads, outs, closes, past, id);
      AcceptedOk(table, attachs, preads, outs, closes, past);
      LaterSelf(c);
      ghost var q := Now();
      NowIs();
      var p := SortIn(id, c);
      AcceptStep(q.t, q.attachs, q.preads, q.outs, q.closes, past, id, p);
      SetExtends(table, id, c, Some(p));
      SetFrame(table, id, c, Some(p));
      SeparateKept(Set(table, id, c, Some(p)));
      SortedIs(q, id);
      table := Set(table, id, c, Some(p));
      NowIs();
      SeparateAgain();
    }

    lemma NowIs()
      ensures Now() == Phase(table, attachs, preads, ins, outs, closes)
    {
    }

    lemma SeparateAgain()
      requires listenFd !in table.hmap && wakeFd !in table.hmap && inpkts.Length == PACKET_SIZE * queuesize
      ensures Separate()
    {
    }

    lemma SeparateKept(t: Table)
      requires Separate() && t.hmap == table.hmap
      ensures listenFd !in t.hmap && wakeFd !in t.hmap && inpkts.Length == PACKET_SIZE * queuesize
    {
    }

    /** Background work first, then unsent output, then a pending close; otherwise there may be something to read. */
    method SortIn(id: ConnId, c: Conn) returns (p: Place)
      requires Entries() < queuesize
      modifies this`attachs, this`preads, this`outs, this`closes
      ensures p == NeedOf(c)
      ensures attachs == Add(old(attachs), p == Attaching, id) && preads == Add(old(preads), p == Reading, id)
      ensures outs == Add(old(outs), p == Writing, id) && closes == Add(old(closes), p == Closing, id)
      ensures Entries() == old(Entries()) + 1
    {
      if c.bg {
        p := Attaching;
        attachs := Push(attachs, id);
      } else if |c.out| > 0 {
        p := Writing;
        outs := Push(outs, id);
      } else if c.closed {
        p := Closing;
        closes := Push(closes, id);
      } else {
        p := Reading;
        preads := Push(preads, id);
      }
    }

    /** `ts_accept`. */
    method Accept(events: seq<Event>)
      requires Accepting(table, attachs, preads, outs, closes, {}) && Separate()
      requires attachs == preads == outs == closes == []
      requires |events| <= queuesize && DistinctFds(events)
      modifies this`table, this`attachs, this`preads, this`outs, this`closes
      ensures Accepting(table, attachs, preads, outs, closes, FdsOf(events)) && Separate()
      ensures Entries() <= queuesize
      ensures Now() == AcceptUpTo(old(Now()), events, |events|, listenFd, wakeFd)
      ensures Extends(old(table), table)
      ensures (forall i :: 0 <= i < |events| ==> events[i].insertOk) ==> table.lost == old(table).lost
    {
      hide Accepting, Extends, TableOk, FdsOf, AcceptOn;
      ExtendsSelf(table);
      NoFds(events);
      for i := 0 to |events|
        invariant Accepting(table, attachs, preads, outs, closes, FdsOf(events[..i])) && Separate()
        invariant Entries() <= i
        invariant Now() == AcceptUpTo(old(Now()), events, i, listenFd, wakeFd)
        invariant Extends(old(table), table)
        invariant (forall k :: 0 <= k < i ==> events[k].insertOk) ==> table.lost == old(table).lost
      {
        FdsStep(events, i);
        ghost var before := table;
        AcceptOne(events[i], FdsOf(events[..i]));
        AcceptedOk(table, attachs, preads, outs, closes, FdsOf(events[..i + 1]));
        ExtendsTrans(old(table), before, table);
      }
      assert events[..|events|] == events;
    }

    /** What is true while the connections of `preads` are being read. */
    ghost predicate Receiving(i: nat)
      reads this, inpkts
    {
      && Separate() && ReadingFrom(table, preads, i, ins, outs, closes)
      && |preads| <= queuesize && |ins| + |outs| + |closes| + (|preads| - i) <= queuesize
      && Packets(table.conns, ins, pktOffs, pktLens, inpkts[..], 0) && Slots(pktOffs, i * PACKET_SIZE)
    }

    /** Puts a packet and the zero after it into the buffer. */
    method Store(off: nat, bytes: seq<Byte>)
      requires 0 < |bytes| < PACKET_SIZE && off + PACKET_SIZE <= inpkts.Length
      modifies inpkts
      ensures inpkts[..off] == old(inpkts[..off])
      ensures inpkts[off..off + |bytes|] == bytes && inpkts[off + |bytes|] == 0
    {
      forall k | 0 <= k < |bytes| {
        inpkts[off + k] := bytes[k];
      }
      inpkts[off + |bytes|] := 0;
    }

    /** One connection of `ts_read`, with `handle_read`. */
    method ReadOne(i: nat, r: ReadResult)
      requires Receiving(i) && i < |preads|
      modifies this`table, this`ins, this`closes, this`pktOffs, this`pktLens, inpkts
      ensures Receiving(i + 1) && Extends(old(table), table) && table.lost == old(table).lost
      ensures Now() == ReadOn(old(Now()), preads[i], r)
    {
      hide Receiving, Extends, Moved, Clipped;
      ReceivingHead(i);
      ClippedData(r);
      match Clipped(r)
      case Again =>
        LeaveUnread(i);
      case EndOrError =>
        CloseUnread(i);
      case Data(bytes) =>
        TakePacket(i, bytes);
    }

    /** Nothing to read yet. */
    method LeaveUnread(i: nat)
      requires Receiving(i) && i < |preads|
      modifies this`table
      ensures Receiving(i + 1) && Extends(old(table), table) && table.lost == old(table).lost
      ensures preads[i] in old(table).conns && Now() == Moved(old(Now()), preads[i], old(table).conns[preads[i]], None)
    {
      hide ReadingFrom, Packets, Extends, TableOk, Fits, Later, Set, Slots;
      var id := preads[i];
      ReadingFacts(table, preads, i, ins, outs, closes);
      var c := table.conns[id];
      ReadFits(c, []);
      LaterSelf(c);
      ReadStep(table, preads, i, ins, outs, closes, c, None);
      SetExtends(table, id, c, None);
      SetFrame(table, id, c, None);
      SlotsGrow(pktOffs, i * PACKET_SIZE);
      OthersKept(table, preads, i, ins, outs, closes, c);
      PacketsKept(table.conns, table.conns[id := c], ins, pktOffs, pktLens, inpkts[..], inpkts[..], 0, i * PACKET_SIZE);
      table := Set(table, id, c, None);
    }

    /** End of stream, or an error that is not a retry. */
    method CloseUnread(i: nat)
      requires Receiving(i) && i < |preads|
      modifies this`table, this`closes
      ensures Receiving(i + 1) && Extends(old(table), table) && table.lost == old(table).lost
      ensures preads[i] in old(table).conns
      ensures Now() == Moved(old(Now()), preads[i], old(table).conns[preads[i]], Some(Closing))
    {
      hide ReadingFrom, Packets, Extends, TableOk, Fits, Later, Set, Slots;
      var id := preads[i];
      ReadingFacts(table, preads, i, ins, outs, closes);
      var c := table.conns[id];
      ReadFits(c, []);
      LaterSelf(c);
      ReadStep(table, preads, i, ins, outs, closes, c, Some(Closing));
      SetExtends(table, id, c, Some(Closing));
      SetFrame(table, id, c, Some(Closing));
      SlotsGrow(pktOffs, i * PACKET_SIZE);
      OthersKept(table, preads, i, ins, outs, closes, c);
      PacketsKept(table.conns, table.conns[id := c], ins, pktOffs, pktLens, inpkts[..], inpkts[..], 0, i * PACKET_SIZE);
      closes := Push(closes, id);
      table := Set(table, id, c, Some(Closing));
    }

    /** A packet was read into slot `i`. */
    method TakePacket(i: nat, bytes: seq<Byte>)
      requires Receiving(i) && i < |preads| && 0 < |bytes| < PACKET_SIZE
      modifies this`table, this`ins, this`pktOffs, this`pktLens, inpkts
      ensures Receiving(i + 1) && Extends(old(table), table) && table.lost == old(table).lost
      ensures preads[i] in old(table).conns
      ensures var c := old(table).conns[preads[i]];
              Now() == Moved(old(Now()), preads[i], c.(input := c.input + bytes), Some(Processing))
    {
      hide ReadingFrom, Packets, Extends, TableOk, Fits, Later, Set, Slots;
      var id := preads[i];
      var off := i * PACKET_SIZE;
      ReadingFacts(table, preads, i, ins, outs, closes);
      var c := table.conns[id];
      var d := c.(input := c.input + bytes);
      ReadFits(c, bytes);
      ReadStep(table, preads, i, ins, outs, closes, d, Some(Processing));
      SetExtends(table, id, d, Some(Processing));
      SetFrame(table, id, d, Some(Processing));
      SlotsGrow(pktOffs, off);
      OthersKept(table, preads, i, ins, outs, closes, d);
      ghost var buf := inpkts[..];
      Store(off, bytes);
      PacketsKept(table.conns, table.conns[id := d], ins, pktOffs, pktLens, buf, inpkts[..], 0, off);
      PacketsAdd(table.conns[id := d], ins, pktOffs, pktLens, inpkts[..], id, off, |bytes|);
      ins := Push(ins, id);
      pktOffs := pktOffs + [off];
      pktLens := pktLens + [|bytes|];
      table := Set(table, id, d, Some(Processing));
    }

    /** `ts_read`. */
    method Read(w: World)
      requires Receiving(0)
      modifies this`table, this`ins, this`closes, this`pktOffs, this`pktLens, inpkts
      ensures Receiving(|preads|) && Extends(old(table), table) && table.lost == old(table).lost
      ensures Now() == ReadUpTo(old(Now()), preads, |preads|, w.read)
    {
      hide Receiving, Extends, TableOk, ReadOn;
      ExtendsSelf(table);
      for i := 0 to |preads|
        invariant Receiving(i) && Extends(old(table), table) && table.lost == old(table).lost
        invariant Now() == ReadUpTo(old(Now()), preads, i, w.read)
      {
        ghost var before := table;
        ReadOne(i, w.read(i));
        ReceivingOk(i + 1);
        ExtendsTrans(old(table), before, table);
      }
    }

    lemma ReceivingHead(i: nat)
      requires Receiving(i) && i < |preads|
      ensures preads[i] in table.conns
    {
      hide TableOk, Fits, Packets, Slots;
      ReadingFacts(table, preads, i, ins, outs, closes);
    }

    lemma ReceivingOk(i: nat)
      requires Receiving(i)
      ensures TableOk(table)
    {
    }

    /** What is true while the packets are being processed. */
    ghost predicate Answering(i: nat)
      reads this, inpkts
    {
      && Separate() && ProcessingFrom(table, ins, i, outs, closes)
      && |outs| + |closes| + (|ins| - i) <= queuesize
      && Packets(table.conns, ins, pktOffs, pktLens, inpkts[..], i)
    }

    /** The process callback, on a live connection outside background work with no unsent output. */
    method CallProcess(id: ConnId, packet: seq<Byte>, r: Reply) returns (c: Conn)
      requires id in table.conns && table.conns[id].out == [] && !table.conns[id].bg
      requires table.conns[id].input == table.conns[id].seen + packet
      ensures c == Replied(table.conns[id], packet, r)
    {
      c := Replied(table.conns[id], packet, r);
    }

    /**
      One connection of `ts_process`. The callback finds a live connection outside background work that has sent all
      its responses, and is given something: exactly the bytes read from the connection since the last call.
     */
    method ProcessOne(i: nat, r: Reply)
      requires Answering(i) && i < |ins|
      modifies this`table, this`outs, this`closes
      ensures Answering(i + 1) && Extends(old(table), table) && table.lost == old(table).lost
      ensures ins[i] in old(table).conns
      ensures var c := old(table).conns[ins[i]];
              !c.bg && c.out == [] && c.sent == c.produced && Unseen(c) != [] && c.input == c.seen + Unseen(c)
      ensures Now() == ProcessOn(old(Now()), ins[i], r)
    {
      hide ProcessingFrom, Packets, PacketAt, Extends, TableOk, Later, Fits, Set, AfterProcess, Replied, Unseen;
      var id := ins[i];
      AnsweringFacts(table, ins, i, outs, closes, pktOffs, pktLens, inpkts[..]);
      var c := table.conns[id];
      var packet := inpkts[pktOffs[i]..pktOffs[i] + pktLens[i]];
      var d := CallProcess(id, packet, r);
      UnseenIs(c, packet);
      RepliedFits(c, packet, r);
      RepliedFd(c, packet, r);
      ghost var o, k := outs, closes;
      var p := Route(id, d);
      ProcessStep(table, ins, i, o, k, d, p);
      SetExtends(table, id, d, p);
      SetFrame(table, id, d, p);
      RestKept(table, ins, i, outs, closes, o, k, d, pktOffs, pktLens, inpkts[..]);
      table := Set(table, id, d, p);
    }

    /** Where a connection goes after its callback. */
    method Route(id: ConnId, c: Conn) returns (p: Option<Place>)
      requires |outs| + |closes| < queuesize
      modifies this`outs, this`closes
      ensures p == AfterProcess(c) && (p.None? || p.value == Writing || p.value == Closing)
      ensures outs == Add(old(outs), p == Some(Writing), id) && closes == Add(old(closes), p == Some(Closing), id)
      ensures |outs| + |closes| <= old(|outs| + |closes|) + 1
    {
      if c.bg {
        p := None;
      } else if |c.out| > 0 {
        outs := Push(outs, id);
        p := Some(Writing);
      } else if c.closed {
        closes := Push(closes, id);
        p := Some(Closing);
      } else {
        p := None;
      }
    }

    /** `ts_process`. */
    method Process(w: World)
      requires Answering(0)
      modifies this`table, this`outs, this`closes
      ensures Answering(|ins|) && Extends(old(table), table) && table.lost == old(table).lost
      ensures Now() == ProcessUpTo(old(Now()), ins, |ins|, w.reply)
    {
      hide Answering, Extends, TableOk, ProcessOn;
      ExtendsSelf(table);
      for i := 0 to |ins|
        invariant Answering(i) && Extends(old(table), table) && table.lost == old(table).lost
        invariant Now() == ProcessUpTo(old(Now()), ins, i, w.reply)
      {
        ghost var before := table;
        ProcessOne(i, w.reply(i));
        AnsweringOk(i + 1);
        ExtendsTrans(old(table), before, table);
      }
    }

    lemma AnsweringOk(i: nat)
      requires Answering(i)
      ensures TableOk(table)
    {
    }

    /** What is true while output is being written. */
    ghost predicate Sending(i: nat)
      reads this
    {
      && Separate() && WritingFrom(table, outs, i, closes)
      && |closes| + (|outs| - i) <= queuesize
    }

    /** One connection of `ts_write`. */
    method WriteOne(i: nat, results: seq<WriteResult>, pollOk: bool)
      requires Sending(i) && i < |outs|
      modifies this`table, this`closes
      ensures Sending(i + 1) && Extends(old(table), table) && table.lost == old(table).lost
      ensures Now() == WriteOn(old(Now()), outs[i], results, pollOk)
    {
      hide WritingFrom, Extends, TableOk, Later, Fits, Set, Flush;
      var id := outs[i];
      SendingFacts(table, outs, i, closes);
      var c := table.conns[id];
      var d := FlushConn(c, results);
      FlushFits(c, results, !pollOk);
      ghost var k := closes;
      var p := None;
      if d.closed {
        closes := Push(closes, id);
        p := Some(Closing);
      } else {
        d := d.(closed := !pollOk);
      }
      LaterFd(c, d);
      WriteStep(table, outs, i, k, d, p);
      SetExtends(table, id, d, p);
      SetFrame(table, id, d, p);
      table := Set(table, id, d, p);
    }

    /** `ts_write`. */
    method Write(w: World)
      requires Sending(0)
      modifies this`table, this`closes
      ensures Sending(|outs|) && Extends(old(table), table) && table.lost == old(table).lost
      ensures Now() == WriteUpTo(old(Now()), outs, |outs|, w)
    {
      hide Sending, Extends, TableOk, WriteOn;
      ExtendsSelf(table);
      for i := 0 to |outs|
        invariant Sending(i) && Extends(old(table), table) && table.lost == old(table).lost
        invariant Now() == WriteUpTo(old(Now()), outs, i, w)
      {
        ghost var before := table;
        WriteOne(i, w.write(i), w.pollOk(i));
        SendingOk(i + 1);
        ExtendsTrans(old(table), before, table);
      }
    }

    lemma SendingOk(i: nat)
      requires Sending(i)
      ensures TableOk(table)
    {
    }

    /** `ts_close`: every queued connection gets its closed callback, leaves the map and is freed. */
    method CloseAll()
      requires Separate() && ClosingFrom(table, closes, 0)
      modifies this`table
      ensures Separate() && ClosingFrom(table, closes, |closes|) && Extends(old(table), table)
      ensures table.lost <= old(table).lost && table == CloseUpTo(old(table), closes, |closes|)
    {
      hide ClosingFrom, Extends, TableOk, Close;
      ExtendsSelf(table);
      for i := 0 to |closes|
        invariant Separate() && ClosingFrom(table, closes, i) && Extends(old(table), table)
        invariant table.lost <= old(table).lost && table == CloseUpTo(old(table), closes, i)
      {
        ghost var before := table;
        CloseOne(i);
        ClosingOk(table, closes, i + 1);
        ExtendsTrans(old(table), before, table);
      }
    }

    /** One connection of `ts_close`. */
    method CloseOne(i: nat)
      requires Separate() && ClosingFrom(table, closes, i) && i < |closes|
      modifies this`table
      ensures Separate() && ClosingFrom(table, closes, i + 1) && Extends(old(table), table)
      ensures closes[i] in old(table).conns && table == Close(old(table), closes[i])
      ensures table.lost <= old(table).lost
    {
      hide ClosingFrom, Extends, TableOk, Close;
      ClosingOk(table, closes, i);
      CloseStep(table, closes, i);
      CloseExtends(table, closes[i]);
      CloseFrame(table, closes[i]);
      table := Close(table, closes[i]);
    }

    /**
      One turn of the worker's loop on at most `queuesize` events of different descriptors. Every queue stays within
      its array, and every connection there was is later or ended.
     */
    method Cycle(w: World)
      requires Valid() && |w.events| <= queuesize && DistinctFds(w.events)
      modifies this, inpkts
      ensures Valid() && Extends(old(table), table)
      ensures |attachs| <= queuesize && |preads| <= queuesize && |ins| <= queuesize
      ensures |outs| <= queuesize && |closes| <= queuesize
      ensures InsertsOk(w) ==> table.lost <= old(table).lost
      ensures Now() == CycleOf(old(table), w, listenFd, wakeFd)
    {
      hide Accepting, ReadingFrom, ProcessingFrom, WritingFrom, ClosingFrom, TableOk, NoneAt, Extends, Packets, Slots,
        AcceptUpTo, ReadUpTo, ProcessUpTo, WriteUpTo, CloseUpTo;
      ResetExtends(table);
      Reset();
      ghost var t1 := table;
      Accept(w.events);
      ghost var t2 := table;
      ToReading(table, attachs, preads, outs, closes, FdsOf(w.events), inpkts[..]);
      Read(w);
      ghost var t3 := table;
      ToProcessing(table, preads, ins, outs, closes);
      Process(w);
      ghost var t4 := table;
      ToWriting(table, ins, outs, closes);
      Write(w);
      ghost var t5 := table;
      ToClosing(table, outs, closes);
      CloseAll();
      FromClosing(table, closes);
      ExtendsTrans(t4, t5, table);
      ExtendsTrans(t3, t4, table);
      ExtendsTrans(t2, t3, table);
      ExtendsTrans(t1, t2, table);
      ExtendsTrans(old(table), t1, table);
    }

    /** Background work on a connection ends; the source leaves what starts and ends it to its callers. */
    method EndBackground(id: ConnId)
      requires Valid() && id in table.conns
      modifies this`table
      ensures Valid() && table.lost == old(table).lost
      ensures table == Set(old(table), id, old(table).conns[id].(bg := false), None)
    {
      var c := table.conns[id].(bg := false);
      QuietFits(table, id);
      SetOk(table, id, c, None);
      SetNoneAt(table, id, c, None, Processing);
      table := Set(table, id, c, None);
    }

    /** Any run from the start: cycles on any inputs, with background work ending in between. */
    method Run(turns: seq<Turn>)
      requires Valid() && table == EmptyTable()
      requires TurnsOk(turns, queuesize)
      modifies this, inpkts
      ensures Valid() && Lawful(table)
      ensures table == RunOf(EmptyTable(), turns, listenFd, wakeFd)
      ensures NoInsertFails(turns) ==> table.openedCalls - table.closedCalls == |table.hmap|
    {
      hide TableOk, Lawful, Extends, NoneAt, CycleOf;
      for n := 0 to |turns|
        invariant Valid()
        invariant RunOf(table, turns[n..], listenFd, wakeFd) == RunOf(EmptyTable(), turns, listenFd, wakeFd)
        invariant NoInsertFails(turns) ==> table.lost == {}
      {
        assert turns[n..][1..] == turns[n + 1..];
        match turns[n]
        case Turn(w) =>
          Cycle(w);
        case BackgroundEnds(id) =>
          if id in table.conns {
            EndBackground(id);
          }
      }
      TableLaws(table);
      LawfulCounts(table);
    }
  }

  lemma NoFds(events: seq<Event>)
    ensures FdsOf(events[..0]) == {}
  {
  }

  lemma FdsStep(events: seq<Event>, i: nat)
    requires i < |events| && DistinctFds(events)
    ensures FdsOf(events[..i + 1]) == FdsOf(events[..i]) + {events[i].fd} && events[i].fd !in FdsOf(events[..i])
  {
    var a, b := events[..i], events[..i + 1];
    assert forall k :: 0 <= k < i ==> b[k] == a[k];
    assert b[i] == events[i];
    forall fd | fd in FdsOf(b)
      ensures fd in FdsOf(a) || fd == events[i].fd
    {
      var k :| 0 <= k < |b| && b[k].fd == fd;
    }
    forall fd | fd in FdsOf(a)
      ensures fd in FdsOf(b)
    {
      var k :| 0 <= k < |a| && a[k].fd == fd;
      assert b[k].fd == fd;
    }
  }

  lemma ReadingFacts(t: Table, preads: seq<ConnId>, i: nat, ins: seq<ConnId>, outs: seq<ConnId>, closes: seq<ConnId>)
    requires ReadingFrom(t, preads, i, ins, outs, closes) && i < |preads|
    ensures TableOk(t) && preads[i] in t.conns && Fits(t.conns[preads[i]], Some(Reading))
  {
    QueueHead(t, preads, i, Reading);
    QueuedFits(t, preads[i]);
  }

  /** The connection being read is none of those that wait to be processed. */
  lemma OthersKept(t: Table, preads: seq<ConnId>, i: nat, ins: seq<ConnId>, outs: seq<ConnId>, closes: seq<ConnId>,
                   c: Conn)
    requires ReadingFrom(t, preads, i, ins, outs, closes) && i < |preads|
    ensures var u := t.conns[preads[i] := c];
            forall k :: 0 <= k < |ins| && ins[k] in t.conns ==> ins[k] in u && u[ins[k]] == t.conns[ins[k]]
  {
    QueueHead(t, preads, i, Reading);
  }

  /** The packet at the head of what is left is what its connection has read and not yet seen. */
  lemma AnsweringFacts(t: Table, ins: seq<ConnId>, i: nat, outs: seq<ConnId>, closes: seq<ConnId>, offs: seq<nat>,
                       lens: seq<nat>, buf: seq<Byte>)
    requires ProcessingFrom(t, ins, i, outs, closes) && i < |ins| && Packets(t.conns, ins, offs, lens, buf, i)
    ensures TableOk(t) && |ins| == |offs| == |lens|
    ensures ins[i] in t.conns && Fits(t.conns[ins[i]], Some(Processing))
    ensures t.conns[ins[i]].out == [] && !t.conns[ins[i]].bg && t.conns[ins[i]].sent == t.conns[ins[i]].produced
    ensures 0 < lens[i] && offs[i] + lens[i] <= |buf|
    ensures t.conns[ins[i]].input == t.conns[ins[i]].seen + buf[offs[i]..offs[i] + lens[i]]
  {
    QueueHead(t, ins, i, Processing);
    QueuedFits(t, ins[i]);
    assert PacketAt(t.conns, ins[i], offs[i], lens[i], buf);
    assert t.conns[ins[i]].out[t.conns[ins[i]].outoff..] == [];
  }

  lemma UnseenIs(c: Conn, packet: seq<Byte>)
    requires c.input == c.seen + packet
    ensures Unseen(c) == packet
  {
  }

  lemma RepliedFd(c: Conn, packet: seq<Byte>, r: Reply)
    ensures Replied(c, packet, r).fd == c.fd
  {
  }

  lemma LaterFd(c: Conn, d: Conn)
    requires Later(c, d)
    ensures d.fd == c.fd
  {
  }

  /** The packets after the one just processed are as they were. */
  lemma RestKept(t: Table, ins: seq<ConnId>, i: nat, outs: seq<ConnId>, closes: seq<ConnId>, o: seq<ConnId>,
                 k: seq<ConnId>, c: Conn, offs: seq<nat>, lens: seq<nat>, buf: seq<Byte>)
    requires ProcessingFrom(t, ins, i, o, k) && i < |ins| && Packets(t.conns, ins, offs, lens, buf, i)
    ensures Packets(t.conns[ins[i] := c], ins, offs, lens, buf, i + 1)
  {
    var rest := ins[i..];
    forall j | i + 1 <= j < |ins|
      ensures PacketAt(t.conns[ins[i] := c], ins[j], offs[j], lens[j], buf)
    {
      assert PacketAt(t.conns, ins[j], offs[j], lens[j], buf);
      assert rest[0] == ins[i] && rest[j - i] == ins[j];
    }
  }

  lemma SendingFacts(t: Table, outs: seq<ConnId>, i: nat, closes: seq<ConnId>)
    requires WritingFrom(t, outs, i, closes) && i < |outs|
    ensures TableOk(t) && outs[i] in t.conns && Fits(t.conns[outs[i]], Some(Writing))
    ensures t.conns[outs[i]].outoff <= |t.conns[outs[i]].out|
  {
    QueueHead(t, outs, i, Writing);
    QueuedFits(t, outs[i]);
  }

  lemma ClosingOk(t: Table, closes: seq<ConnId>, i: nat)
    requires ClosingFrom(t, closes, i)
    ensures TableOk(t) && (i < |closes| ==> closes[i] in t.conns && PlaceOf(t, closes[i]) == Some(Closing))
  {
    if i < |closes| {
      QueueHead(t, closes, i, Closing);
    }
  }

  lemma CloseFrame(t: Table, id: ConnId)
    requires id in t.conns
    ensures forall fd :: fd in Close(t, id).hmap ==> fd in t.hmap
    ensures Close(t, id).lost <= t.lost
  {
  }

  datatype Turn = Turn(w: World) | BackgroundEnds(id: ConnId)

  function AfterTurn(t: Table, turn: Turn, listenFd: int, wakeFd: int): Table
  {
    match turn
    case Turn(w) => CycleOf(t, w, listenFd, wakeFd).t
    case BackgroundEnds(id) => if id in t.conns then Set(t, id, t.conns[id].(bg := false), None) else t
  }

  /** The table after a run. */
  function RunOf(t: Table, turns: seq<Turn>, listenFd: int, wakeFd: int): Table
    decreases |turns|
  {
    if turns == [] then t else RunOf(AfterTurn(t, turns[0], listenFd, wakeFd), turns[1..], listenFd, wakeFd)
  }

  ghost predicate InsertsOk(w: World)
  {
    forall i :: 0 <= i < |w.events| ==> w.events[i].insertOk
  }

  ghost predicate TurnsOk(turns: seq<Turn>, queuesize: nat)
  {
    forall i :: 0 <= i < |turns| && turns[i].Turn? ==>
      |turns[i].w.events| <= queuesize && DistinctFds(turns[i].w.events)
  }

  ghost predicate NoInsertFails(turns: seq<Turn>)
  {
    forall i :: 0 <= i < |turns| && turns[i].Turn? ==> InsertsOk(turns[i].w)
  }

  lemma QuietFits(t: Table, id: ConnId)
    requires TableOk(t) && NoneAt(t, Processing) && id in t.conns
    ensures Fits(t.conns[id].(bg := false), None)
  {
    assert ConnOk(t, id);
  }

  /**
    What holds between any two cycles. Every opened connection is open or was closed exactly once. On every open
    connection the bytes sent followed by the bytes still buffered are the responses produced, so an empty buffer
    means that all were sent; on a closed one the bytes sent are a prefix of them. Everything read was processed.
   */
  ghost predicate Lawful(t: Table)
  {
    && t.conns.Keys !! t.gone.Keys && t.openedCalls - t.closedCalls == |t.conns| == |t.hmap| + |t.lost|
    && (forall id :: id in t.conns ==>
          var c := t.conns[id];
          && c.outoff <= |c.out| && c.sent + c.out[c.outoff..] == c.produced
          && (c.out == [] <==> c.sent == c.produced) && c.seen == c.input)
    && (forall id :: id in t.gone ==> t.gone[id].sent <= t.gone[id].produced && t.gone[id].seen == t.gone[id].input)
    && (forall fd :: fd in t.hmap ==> t.hmap[fd] in t.conns && t.conns[t.hmap[fd]].fd == fd)
  }

  lemma TableLaws(t: Table)
    requires TableOk(t) && NoneAt(t, Processing)
    ensures Lawful(t)
  {
    forall id | id in t.conns
      ensures var c := t.conns[id];
              && id !in t.gone && c.outoff <= |c.out| && c.sent + c.out[c.outoff..] == c.produced
              && (c.out == [] <==> c.sent == c.produced) && c.seen == c.input
    {
      var c := t.conns[id];
      assert ConnOk(t, id);
      if c.out != [] {
        Unfinished(c);
      } else {
        assert c.out[c.outoff..] == [];
      }
    }
  }

  lemma LawfulCounts(t: Table)
    requires Lawful(t)
    ensures t.openedCalls - t.closedCalls == |t.hmap| + |t.lost|
  {
  }

  lemma ResetAccepts(t: Table)
    requires TableOk(t.(place := map[]))
    ensures Accepting(t.(place := map[]), [], [], [], [], {})
  {
    hide TableOk;
  }

  lemma AcceptedOk(t: Table, attachs: seq<ConnId>, preads: seq<ConnId>, outs: seq<ConnId>, closes: seq<ConnId>,
                   past: set<int>)
    requires Accepting(t, attachs, preads, outs, closes, past)
    ensures TableOk(t)
  {
  }

  lemma InMap(t: Table, fd: int)
    requires TableOk(t) && fd in t.hmap
    ensures t.hmap[fd] in t.conns && t.conns[t.hmap[fd]].fd == fd
  {
  }

  lemma OpenAccepts(t: Table, attachs: seq<ConnId>, preads: seq<ConnId>, outs: seq<ConnId>, closes: seq<ConnId>,
                    past: set<int>, fd: int, insertOk: bool)
    requires Accepting(t, attachs, preads, outs, closes, past) && fd !in past && fd !in t.hmap
    ensures Accepting(Open(t, fd, insertOk), attachs, preads, outs, closes, past)
    ensures t.nextId !in t.place && Extends(t, Open(t, fd, insertOk))
  {
    hide TableOk;
    OpenOk(t, fd, insertOk);
    OpenExtends(t, fd, insertOk);
    hide Extends;
  }

  lemma PastGrows(t: Table, attachs: seq<ConnId>, preads: seq<ConnId>, outs: seq<ConnId>, closes: seq<ConnId>,
                  past: set<int>, fd: int)
    requires Accepting(t, attachs, preads, outs, closes, past)
    ensures Accepting(t, attachs, preads, outs, closes, past + {fd})
  {
    hide TableOk, Queued, NoneAt;
  }

  lemma SortedIs(q: Phase, id: ConnId)
    requires id in q.t.conns
    ensures var c := q.t.conns[id];
            var p := NeedOf(c);
            Sorted(q, id) == Phase(Set(q.t, id, c, Some(p)), Add(q.attachs, p == Attaching, id),
                                   Add(q.preads, p == Reading, id), q.ins, Add(q.outs, p == Writing, id),
                                   Add(q.closes, p == Closing, id))
  {
  }

  /** A connection in no queue fits the queue its state calls for. */
  lemma IdleFits(t: Table, attachs: seq<ConnId>, preads: seq<ConnId>, outs: seq<ConnId>, closes: seq<ConnId>,
                 past: set<int>, id: ConnId)
    requires Accepting(t, attachs, preads, outs, closes, past) && id in t.conns && id !in t.place
    ensures Fits(t.conns[id], Some(NeedOf(t.conns[id]))) && NeedOf(t.conns[id]) != Processing
  {
    assert ConnOk(t, id);
  }
}
