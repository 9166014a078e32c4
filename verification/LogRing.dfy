/**
  The asynchronous logger, type 1 (cm/src/logger.c:128-157, 206-262, 489-622, 730-812): a ring of six
  blocks between the writers and the logger thread.  Every section under the mutex is one atomic
  step.  Record text is a parameter, and so is `need`, the estimate of its size that a writer makes
  before it formats the record.
 */
module LogRing {
  import opened Bytes

  const MAX_NUM_LOG_BUFFER_BLOCK: nat := 6

  datatype Block = Block(logData: seq<byte>, fullFlag: bool)

  // ----- The ring as a queue -----

  /** Closed blocks, oldest first, and the block being written; none is being written when six are closed. */
  datatype Queue = Queue(closed: seq<seq<byte>>, current: seq<byte>)

  function Pending(q: Queue): seq<byte> {
    Flatten(q.closed) + q.current
  }

  predicate QueueOk(q: Queue) {
    && |q.closed| <= MAX_NUM_LOG_BUFFER_BLOCK
    && (|q.closed| == MAX_NUM_LOG_BUFFER_BLOCK ==> q.current == [])
    && forall i :: 0 <= i < |q.closed| ==> q.closed[i] != []
  }

  function Close(q: Queue): Queue {
    Queue(q.closed + [q.current], [])
  }

  /** Would the record bring the current block to `size`, so that it is closed first? */
  predicate ClosesFirst(current: seq<byte>, size: nat, need: nat) {
    size != 0 && current != [] && need + |current| >= size
  }

  datatype Written = Written(queue: Queue, accepted: bool)

  function Write(q: Queue, size: nat, rec: seq<byte>, need: nat): Written {
    if |q.closed| == MAX_NUM_LOG_BUFFER_BLOCK then Written(q, false)
    else
      var p := if ClosesFirst(q.current, size, need) then Close(q) else q;
      if |p.closed| == MAX_NUM_LOG_BUFFER_BLOCK then Written(p, false)
      else
        var r := Queue(p.closed, p.current + rec);
        Written(if |r.current| >= size then Close(r) else r, true)
  }

  datatype Drained = Drained(queue: Queue, output: seq<byte>)

  /** What the logger thread writes out next. */
  function Drain(q: Queue): Drained {
    if q.closed != [] then Drained(Queue(q.closed[1..], q.current), q.closed[0])
    else Drained(Queue([], []), q.current)
  }

  lemma {:induction false} FlattenSnoc(parts: seq<seq<byte>>, last: seq<byte>)
    ensures Flatten(parts + [last]) == Flatten(parts) + last
    decreases |parts|
  {
    if parts == [] {
      assert parts + [last] == [last] && Flatten([last][1..]) == [];
    } else {
      assert (parts + [last])[1..] == parts[1..] + [last];
      FlattenSnoc(parts[1..], last);
    }
  }

  lemma ClosePending(q: Queue)
    ensures Pending(Close(q)) == Pending(q)
  {
    FlattenSnoc(q.closed, q.current);
  }

  /**
    A record is appended whole or not at all; one that is dropped leaves no trace in the stream.  It is
    dropped when six blocks are closed already, and also when five are and the writer expects that the
    sixth, not empty, would reach its size: even if the record would fit.
   */
  lemma WriteAppends(q: Queue, size: nat, rec: seq<byte>, need: nat)
    requires QueueOk(q) && (rec != [] || size > 0)
    ensures var w := Write(q, size, rec, need);
            && QueueOk(w.queue)
            && Pending(w.queue) == Pending(q) + (if w.accepted then rec else [])
            && (!w.accepted ==> |w.queue.closed| == MAX_NUM_LOG_BUFFER_BLOCK)
            && (!w.accepted <==> |q.closed| == 6 || (|q.closed| == 5 && q.current != [] && 0 < size <= |q.current| + need))
  {
    if |q.closed| < MAX_NUM_LOG_BUFFER_BLOCK {
      var p := if ClosesFirst(q.current, size, need) then Close(q) else q;
      ClosePending(q);
      if |p.closed| < MAX_NUM_LOG_BUFFER_BLOCK {
        ClosePending(Queue(p.closed, p.current + rec));
      }
    }
  }

  /** The thread takes the oldest bytes; it finds none only when nothing is pending. */
  lemma DrainTakesOldest(q: Queue)
    requires QueueOk(q)
    ensures var d := Drain(q);
            QueueOk(d.queue) && Pending(q) == d.output + Pending(d.queue) && (d.output == [] ==> Pending(q) == [])
  {
  }

  // ----- Whole runs -----

  datatype Event = WriteEvent(rec: seq<byte>, need: nat) | DrainEvent

  datatype History = History(queue: Queue, accepted: seq<byte>, emitted: seq<byte>)

  /** Any interleaving of the writers and the logger thread. */
  function Run(events: seq<Event>, size: nat): History {
    if events == [] then History(Queue([], []), [], [])
    else
      var h := Run(events[..|events| - 1], size);
      match events[|events| - 1]
      case WriteEvent(rec, need) =>
        var w := Write(h.queue, size, rec, need);
        History(w.queue, h.accepted + (if w.accepted then rec else []), h.emitted)
      case DrainEvent =>
        var d := Drain(h.queue);
        History(d.queue, h.accepted, h.emitted + d.output)
  }

  predicate RecordsOk(events: seq<Event>, size: nat) {
    forall i :: 0 <= i < |events| && events[i].WriteEvent? ==> events[i].rec != [] || size > 0
  }

  /** First in, first out: what was written out, and what is pending, is what was accepted, in order. */
  lemma {:induction false} RunIsFifo(events: seq<Event>, size: nat)
    requires RecordsOk(events, size)
    ensures var h := Run(events, size); QueueOk(h.queue) && h.emitted + Pending(h.queue) == h.accepted
    decreases |events|
  {
    if events == [] {
      NothingPending();
    } else {
      hide Pending, Write, Drain, QueueOk;
      var front := events[..|events| - 1];
      RunIsFifo(front, size);
      var h := Run(front, size);
      match events[|events| - 1]
      case WriteEvent(rec, need) => WriteAppends(h.queue, size, rec, need);
      case DrainEvent => DrainTakesOldest(h.queue);
    }
  }

  /** Blocks hold fewer than `most` octets, and the one being written fewer than `size`. */
  predicate BlocksBelow(q: Queue, size: nat, most: nat) {
    && (forall i :: 0 <= i < |q.closed| ==> |q.closed[i]| < most)
    && (q.current == [] || |q.current| < size)
  }

  /** The writer expects at least the octets the record has. */
  predicate NeedsOk(events: seq<Event>, most: nat) {
    forall i :: 0 <= i < |events| && events[i].WriteEvent? ==> |events[i].rec| <= events[i].need && |events[i].rec| < most
  }

  /**
    As long as no record is longer than its writer expected, a block reaches its size only with a record
    of that length alone in it: over any run blocks stay below the size and below the longest record.
   */
  lemma {:induction false} BlocksStayBelow(events: seq<Event>, size: nat, most: nat)
    requires NeedsOk(events, most) && size <= most
    ensures BlocksBelow(Run(events, size).queue, size, most)
    decreases |events|
  {
    if events != [] {
      var front := events[..|events| - 1];
      BlocksStayBelow(front, size, most);
      var q := Run(front, size).queue;
      match events[|events| - 1]
      case WriteEvent(rec, need) => WriteStaysBelow(q, size, rec, need, most);
      case DrainEvent =>
    }
  }

  lemma WriteStaysBelow(q: Queue, size: nat, rec: seq<byte>, need: nat, most: nat)
    requires BlocksBelow(q, size, most) && |rec| <= need && |rec| < most && size <= most
    ensures BlocksBelow(Write(q, size, rec, need).queue, size, most)
  {
  }

  lemma NothingPending()
    ensures QueueOk(Queue([], [])) && Pending(Queue([], [])) == []
  {
  }

  function DrainTimes(q: Queue, n: nat): Drained
    decreases n
  {
    if n == 0 then Drained(q, [])
    else
      var d := Drain(q);
      var r := DrainTimes(d.queue, n - 1);
      Drained(r.queue, d.output + r.output)
  }

  /** When the writers pause, seven turns of the thread write everything out. */
  lemma {:induction false} SevenTurnsSuffice(q: Queue, n: nat)
    requires QueueOk(q) && n > |q.closed|
    ensures DrainTimes(q, n) == Drained(Queue([], []), Pending(q))
    decreases n
  {
    var d := Drain(q);
    DrainTakesOldest(q);
    if q.closed != [] {
      SevenTurnsSuffice(d.queue, n - 1);
    } else {
      DrainedEmpty(n - 1);
      assert Pending(q) == q.current;
    }
  }

  lemma {:induction false} DrainedEmpty(n: nat)
    ensures DrainTimes(Queue([], []), n) == Drained(Queue([], []), [])
    decreases n
  {
    if n > 0 { DrainedEmpty(n - 1); }
  }

  // ----- The ring itself -----

  /** The position `i` blocks further on. */
  function Ahead(read: nat, i: nat): (p: nat)
    ensures p < MAX_NUM_LOG_BUFFER_BLOCK
  {
    (read + i) % MAX_NUM_LOG_BUFFER_BLOCK
  }

  /** How many blocks are closed; when the positions meet, the flag tells none from all. */
  function ClosedBlocks(blocks: seq<Block>, read: nat, write: nat): nat
    requires |blocks| == MAX_NUM_LOG_BUFFER_BLOCK && read < |blocks| && write < |blocks|
  {
    if blocks[write].fullFlag then MAX_NUM_LOG_BUFFER_BLOCK
    else if write >= read then write - read
    else write + MAX_NUM_LOG_BUFFER_BLOCK - read
  }

  /** The block `i` places behind the read position. */
  function BlockAt(blocks: seq<Block>, read: nat, i: nat): Block
    requires |blocks| == MAX_NUM_LOG_BUFFER_BLOCK
  {
    blocks[Ahead(read, i)]
  }

  /**
    The blocks from the read to the write position are exactly the full ones (all six when the
    positions meet on a full block), full blocks are not empty, and those beyond the write position are.
   */
  predicate RingOk(blocks: seq<Block>, read: nat, write: nat) {
    && |blocks| == MAX_NUM_LOG_BUFFER_BLOCK && read < |blocks| && write < |blocks|
    && (blocks[write].fullFlag ==> read == write)
    && (forall i :: 0 <= i < MAX_NUM_LOG_BUFFER_BLOCK ==>
          var b := BlockAt(blocks, read, i);
          && b.fullFlag == (i < ClosedBlocks(blocks, read, write))
          && (b.fullFlag ==> b.logData != [])
          && (i > ClosedBlocks(blocks, read, write) ==> b.logData == []))
  }

  function QueueOf(blocks: seq<Block>, read: nat, write: nat): Queue
    requires RingOk(blocks, read, write)
  {
    var n := ClosedBlocks(blocks, read, write);
    Queue(seq(n, i requires 0 <= i < n => BlockAt(blocks, read, i).logData),
          if blocks[write].fullFlag then [] else blocks[write].logData)
  }

  lemma AheadInverts(read: nat, p: nat)
    requires read < MAX_NUM_LOG_BUFFER_BLOCK && p < MAX_NUM_LOG_BUFFER_BLOCK
    ensures Ahead(read, if p >= read then p - read else p + MAX_NUM_LOG_BUFFER_BLOCK - read) == p
  {
  }

  lemma AheadDiffers(read: nat, i: nat, j: nat)
    requires i < j < MAX_NUM_LOG_BUFFER_BLOCK && read < MAX_NUM_LOG_BUFFER_BLOCK
    ensures Ahead(read, i) != Ahead(read, j)
  {
  }

  lemma AheadAgain(read: nat, i: nat)
    ensures Ahead(Ahead(read, 1), i) == Ahead(read, i + 1)
  {
  }

  /** Marking the current block full and moving on closes it. */
  lemma RingCloses(blocks: seq<Block>, read: nat, write: nat)
    requires RingOk(blocks, read, write) && !blocks[write].fullFlag && blocks[write].logData != []
    ensures var blocks', write' := blocks[write := blocks[write].(fullFlag := true)], Ahead(write, 1);
            RingOk(blocks', read, write') && QueueOf(blocks', read, write') == Close(QueueOf(blocks, read, write))
  {
    var blocks', write' := blocks[write := blocks[write].(fullFlag := true)], Ahead(write, 1);
    var n := ClosedBlocks(blocks, read, write);
    AheadInverts(read, write);
    AheadAgain(read, n);
    assert n < MAX_NUM_LOG_BUFFER_BLOCK - 1 ==> !BlockAt(blocks, read, n + 1).fullFlag;
    assert write' == Ahead(read, n + 1);
    forall i | 0 <= i < MAX_NUM_LOG_BUFFER_BLOCK && i != n
      ensures BlockAt(blocks', read, i) == BlockAt(blocks, read, i)
    {
      if i < n { AheadDiffers(read, i, n); } else { AheadDiffers(read, n, i); }
    }
    assert BlockAt(blocks', read, n) == blocks[write].(fullFlag := true);
    assert BlockAt(blocks', read, 0).fullFlag;
    ClosedAhead(blocks', read, n + 1);
  }

  lemma ClosedAhead(blocks: seq<Block>, read: nat, n: nat)
    requires |blocks| == MAX_NUM_LOG_BUFFER_BLOCK && read < |blocks| && n <= MAX_NUM_LOG_BUFFER_BLOCK
    requires n < MAX_NUM_LOG_BUFFER_BLOCK ==> !BlockAt(blocks, read, n).fullFlag
    requires n == MAX_NUM_LOG_BUFFER_BLOCK ==> BlockAt(blocks, read, 0).fullFlag
    ensures ClosedBlocks(blocks, read, Ahead(read, n)) == n
  {
    assert n == MAX_NUM_LOG_BUFFER_BLOCK ==> Ahead(read, n) == Ahead(read, 0);
  }

  /** Writing into the current block. */
  lemma RingWrites(blocks: seq<Block>, read: nat, write: nat, data: seq<byte>)
    requires RingOk(blocks, read, write) && !blocks[write].fullFlag
    ensures var blocks' := blocks[write := blocks[write].(logData := data)];
            RingOk(blocks', read, write) && QueueOf(blocks', read, write) == QueueOf(blocks, read, write).(current := data)
  {
    var blocks' := blocks[write := blocks[write].(logData := data)];
    var n := ClosedBlocks(blocks, read, write);
    AheadInverts(read, write);
    forall i | 0 <= i < MAX_NUM_LOG_BUFFER_BLOCK && i != n
      ensures BlockAt(blocks', read, i) == BlockAt(blocks, read, i)
    {
      if i < n { AheadDiffers(read, i, n); } else { AheadDiffers(read, n, i); }
    }
  }

  /** Emptying the block at the read position and moving on brings every block one place forward. */
  lemma BlocksMove(blocks: seq<Block>, read: nat)
    requires |blocks| == MAX_NUM_LOG_BUFFER_BLOCK && read < |blocks|
    ensures var blocks', read' := blocks[read := Block([], false)], Ahead(read, 1);
            && (forall i :: 0 <= i < MAX_NUM_LOG_BUFFER_BLOCK - 1 ==> BlockAt(blocks', read', i) == BlockAt(blocks, read, i + 1))
            && BlockAt(blocks', read', MAX_NUM_LOG_BUFFER_BLOCK - 1) == Block([], false)
  {
    var blocks', read' := blocks[read := Block([], false)], Ahead(read, 1);
    forall i | 0 <= i < MAX_NUM_LOG_BUFFER_BLOCK - 1
      ensures BlockAt(blocks', read', i) == BlockAt(blocks, read, i + 1)
    {
      AheadAgain(read, i);
      AheadDiffers(read, 0, i + 1);
    }
    AheadAgain(read, MAX_NUM_LOG_BUFFER_BLOCK - 1);
  }

  lemma OneFewer(blocks: seq<Block>, read: nat, write: nat)
    requires RingOk(blocks, read, write) && blocks[read].fullFlag
    ensures var blocks', read' := blocks[read := Block([], false)], Ahead(read, 1);
            var n := ClosedBlocks(blocks, read, write);
            && n > 0 && ClosedBlocks(blocks', read', write) == n - 1
            && !blocks'[write].fullFlag
  {
    var blocks', read' := blocks[read := Block([], false)], Ahead(read, 1);
    var n := ClosedBlocks(blocks, read, write);
    assert Ahead(read, 0) == read && BlockAt(blocks, read, 0).fullFlag;
    assert n > 0;
    AheadInverts(read, write);
    assert write == Ahead(read, n);
    BlocksMove(blocks, read);
    AheadAgain(read, n - 1);
    ClosedAhead(blocks', read', n - 1);
  }

  /** The full block at the read position is emptied and released. */
  lemma RingReleases(blocks: seq<Block>, read: nat, write: nat)
    requires RingOk(blocks, read, write) && blocks[read].fullFlag
    ensures var blocks', read' := blocks[read := Block([], false)], Ahead(read, 1);
            && RingOk(blocks', read', write)
            && QueueOf(blocks, read, write).closed != []
            && QueueOf(blocks', read', write) ==
                 Queue(QueueOf(blocks, read, write).closed[1..], QueueOf(blocks, read, write).current)
  {
    OneFewer(blocks, read, write);
    BlocksMove(blocks, read);
    hide Ahead, ClosedBlocks, BlockAt;
  }

  class AsyncLog {
    const logBufferingSize: nat
    const blocks: array<Block>
    var gpReadBuffer: nat
    var gpWriteBuffer: nat

    /** InitAsyncLogger */
    constructor (logBufferingSize: nat)
      ensures Valid() && Abs() == Queue([], []) && this.logBufferingSize == logBufferingSize && fresh(blocks)
    {
      this.logBufferingSize := logBufferingSize;
      blocks := new Block[MAX_NUM_LOG_BUFFER_BLOCK](_ => Block([], false));
      gpReadBuffer, gpWriteBuffer := 0, 0;
    }

    ghost predicate Valid()
      reads this, blocks
    {
      RingOk(blocks[..], gpReadBuffer, gpWriteBuffer)
    }

    ghost function Abs(): Queue
      reads this, blocks
      requires Valid()
    {
      QueueOf(blocks[..], gpReadBuffer, gpWriteBuffer)
    }

    /** The current block is full: on to the next one. */
    method CloseCurrent()
      requires Valid() && !blocks[gpWriteBuffer].fullFlag && blocks[gpWriteBuffer].logData != []
      modifies this`gpWriteBuffer, blocks
      ensures Valid() && Abs() == Close(old(Abs())) && gpWriteBuffer == Ahead(old(gpWriteBuffer), 1)
    {
      RingCloses(blocks[..], gpReadBuffer, gpWriteBuffer);
      blocks[gpWriteBuffer] := blocks[gpWriteBuffer].(fullFlag := true);
      gpWriteBuffer := Ahead(gpWriteBuffer, 1);
    }

    /** AsyncWriteMsg and LoggerWriteMem: the record is accepted, or dropped for want of a free block. */
    method WriteRecord(rec: seq<byte>, need: nat) returns (accepted: bool)
      requires Valid() && (rec != [] || logBufferingSize > 0)
      modifies this`gpWriteBuffer, blocks
      ensures Valid() && Written(Abs(), accepted) == Write(old(Abs()), logBufferingSize, rec, need)
    {
      if blocks[gpWriteBuffer].fullFlag {
        return false;
      } else if logBufferingSize != 0 && |blocks[gpWriteBuffer].logData| != 0
                && need + |blocks[gpWriteBuffer].logData| >= logBufferingSize {
        CloseCurrent();
        if blocks[gpWriteBuffer].fullFlag {
          return false;
        }
      }
      RingWrites(blocks[..], gpReadBuffer, gpWriteBuffer, blocks[gpWriteBuffer].logData + rec);
      blocks[gpWriteBuffer] := blocks[gpWriteBuffer].(logData := blocks[gpWriteBuffer].logData + rec);
      if |blocks[gpWriteBuffer].logData| >= logBufferingSize {
        CloseCurrent();
      }
      return true;
    }

    /** One turn of LoggerEntryFunc, once it holds the mutex; it waits when there is nothing to write. */
    method WriteOut() returns (waits: bool, output: seq<byte>)
      requires Valid()
      modifies this`gpReadBuffer, blocks
      ensures Valid() && waits == (Pending(old(Abs())) == [])
      ensures if waits then Abs() == old(Abs()) && output == [] else Drained(Abs(), output) == Drain(old(Abs()))
    {
      QueueIsOk(blocks[..], gpReadBuffer, gpWriteBuffer);
      output := blocks[gpReadBuffer].logData;
      waits := |output| == 0;
      if waits {
        return;
      }
      if blocks[gpReadBuffer].fullFlag {
        RingReleases(blocks[..], gpReadBuffer, gpWriteBuffer);
        blocks[gpReadBuffer] := Block([], false);
        gpReadBuffer := Ahead(gpReadBuffer, 1);
      } else {
        RingWrites(blocks[..], gpReadBuffer, gpWriteBuffer, []);
        blocks[gpReadBuffer] := blocks[gpReadBuffer].(logData := []);
      }
    }
  }

  lemma QueueIsOk(blocks: seq<Block>, read: nat, write: nat)
    requires RingOk(blocks, read, write)
    ensures var q := QueueOf(blocks, read, write);
            && QueueOk(q) && (q.closed != [] <==> blocks[read].fullFlag)
            && (q.closed != [] ==> q.closed[0] == blocks[read].logData)
            && (q.closed == [] ==> q.current == blocks[read].logData && read == write)
            && (Pending(q) == [] <==> blocks[read].logData == [])
  {
    assert Ahead(read, 0) == read && BlockAt(blocks, read, 0) == blocks[read];
    var q := QueueOf(blocks, read, write);
    if q.closed != [] { assert q.closed[0] != [] && Pending(q) == q.closed[0] + Flatten(q.closed[1..]) + q.current; }
  }
}
