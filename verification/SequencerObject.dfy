/** The PDS-wide sequencer Durable Object: one counter, one log, live fan-out.

    Each method is one step of the single-threaded object: nothing suspends between the
    counter read and the last socket send. */
module SequencerObject {
  import opened Wrappers
  import opened RepoData
  import opened FirehoseLog

  /** A subscriber's connection. `joined` and `head` are the length of the log and the
      counter at the time it subscribed, kept for the statements only. */
  datatype Socket = Socket(cursor: Option<int>, joined: nat, head: nat, alive: bool, sent: seq<Frame>)

  ghost predicate AllSendable(log: seq<Row>) { forall i :: 0 <= i < |log| ==> CanSend(log[i]) }

  ghost function SeqsOf(log: seq<Row>): set<int> { set i | 0 <= i < |log| :: log[i].seqNo }

  ghost function Frames(log: seq<Row>): seq<Frame>
    requires AllSendable(log)
  {
    seq(|log|, i requires 0 <= i < |log| => FrameOf(log[i]))
  }

  /** The replayed backlog of a cursor, then every row logged after the subscription. */
  ghost function Owed(log: seq<Row>, sock: Socket): seq<Frame>
    requires sock.joined <= |log| && AllSendable(log)
  {
    (if sock.cursor.Some? then Deliverable(log[..sock.joined], sock.cursor.value, MaxSeq(log[..sock.joined])) else []) +
    Frames(log[sock.joined..])
  }

  function Below(n: nat): (r: set<int>)
    ensures forall k :: k in r <==> 1 <= k < n
  {
    if n <= 1 then {} else Below(n - 1) + {n - 1}
  }

  /** Logged seqs are positive, increasing and below the counter, and every other seq below
      it was lost to an enqueue that failed after allocation. */
  ghost predicate Ledger(next: nat, log: seq<Row>, gaps: set<int>) {
    && Sorted(log) && AllSendable(log) && MaxSeq(log) < next
    && gaps !! SeqsOf(log) && gaps + SeqsOf(log) == Below(next)
  }

  /** Rows logged since the socket joined have seqs its counter had not reached, and a live
      socket has been sent what it is owed. */
  ghost predicate SocketOk(next: nat, log: seq<Row>, sock: Socket)
    requires AllSendable(log)
  {
    && sock.joined <= |log| && sock.head <= next
    && (forall i :: sock.joined <= i < |log| ==> sock.head <= log[i].seqNo)
    && (sock.alive ==> sock.sent == Owed(log, sock))
  }

  ghost predicate Delivered(next: nat, log: seq<Row>, sockets: seq<Socket>)
    requires AllSendable(log)
  {
    forall k :: 0 <= k < |sockets| ==> SocketOk(next, log, sockets[k])
  }

  lemma LedgerGap(next: nat, log: seq<Row>, gaps: set<int>)
    requires Ledger(next, log, gaps)
    ensures Ledger(next + 1, log, gaps + {next})
  {
    SeqsBelow(log);
    LedgerPositive(next, log);
    assert Below(next + 1) == Below(next) + {next};
  }

  lemma LedgerRow(next: nat, log: seq<Row>, gaps: set<int>, body: CommitBody)
    requires Ledger(next, log, gaps)
    ensures Ledger(next + 1, log + [Row(next, Some(body), false)], gaps)
  {
    SeqsBelow(log);
    LedgerPositive(next, log);
    SeqsGrow(log, Row(next, Some(body), false));
    assert Below(next + 1) == Below(next) + {next};
    assert next !in Below(next);
  }

  lemma LedgerPositive(next: nat, log: seq<Row>)
    requires Sorted(log) && MaxSeq(log) < next
    ensures 1 <= next
  {
  }

  lemma SeqsBelow(log: seq<Row>)
    requires Sorted(log)
    ensures forall n :: n in SeqsOf(log) ==> 1 <= n <= MaxSeq(log)
  {
    assert forall i :: 0 <= i < |log| ==> log[i].seqNo <= MaxSeq(log);
  }

  function SentTo(sock: Socket, frame: Frame): Socket {
    if sock.alive then sock.(sent := sock.sent + [frame]) else sock
  }

  lemma RowKeepsSocket(next: nat, log: seq<Row>, row: Row, sock: Socket)
    requires AllSendable(log) && SocketOk(next, log, sock) && CanSend(row) && row.seqNo == next
    ensures AllSendable(log + [row]) && SocketOk(next + 1, log + [row], SentTo(sock, FrameOf(row)))
  {
    OwedGrows(log, row, sock);
    assert forall i :: 0 <= i < |log| ==> (log + [row])[i] == log[i];
  }

  /** Sends one frame to every socket; a dead one just misses it. */
  method FanOut(sockets: seq<Socket>, frame: Frame) returns (r: seq<Socket>)
    ensures |r| == |sockets|
    ensures forall k :: 0 <= k < |r| ==> r[k] == SentTo(sockets[k], frame)
  {
    r := sockets;
    for k := 0 to |r|
      invariant |r| == |sockets|
      invariant forall j :: k <= j < |r| ==> r[j] == sockets[j]
      invariant forall j :: 0 <= j < k ==> r[j] == SentTo(sockets[j], frame)
    {
      if r[k].alive {
        r := r[k := r[k].(sent := r[k].sent + [frame])];
      }
    }
  }

  /** The logged frames with `seq > after`, ascending. */
  method Replay(log: seq<Row>, after: int) returns (sent: seq<Frame>)
    requires Sorted(log) && AllSendable(log)
    ensures sent == Deliverable(log, after, MaxSeq(log))
  {
    sent := [];
    for i := 0 to |log|
      invariant sent == Deliverable(log[..i], after, MaxSeq(log))
    {
      assert log[..i + 1] == log[..i] + [log[i]];
      DeliverableAppend(log[..i], log[i], after, MaxSeq(log));
      if after < log[i].seqNo {
        sent := sent + [FrameOf(log[i])];
      }
    }
    assert log[..|log|] == log;
  }

  class Sequencer {
    var next: nat
    var log: seq<Row>
    var sockets: seq<Socket>
    /** Seqs allocated to enqueues that failed before logging. */
    ghost var gaps: set<int>

    ghost predicate Valid()
      reads this
    {
      Ledger(next, log, gaps) && Delivered(next, log, sockets)
    }

    constructor ()
      ensures Valid() && next == 1 && log == [] && sockets == [] && gaps == {}
    {
      next, log, sockets, gaps := 1, [], [], {};
    }

    /** `body` is `None` when the request's commit or op CID does not parse, which the code
        only notices after the counter has moved. */
    method Enqueue(body: Option<CommitBody>) returns (r: Option<nat>)
      requires Valid()
      modifies this
      ensures Valid()
      ensures next == old(next) + 1
      ensures body.None? ==> r == None && log == old(log) && sockets == old(sockets) && gaps == old(gaps) + {old(next)}
      ensures body.Some? ==> r == Some(old(next)) && gaps == old(gaps)
      ensures body.Some? ==> log == old(log) + [Row(old(next), body, false)]
      ensures |sockets| == |old(sockets)|
      ensures forall k :: 0 <= k < |sockets| ==>
                sockets[k] ==
                if body.Some? then SentTo(old(sockets)[k], Frame(old(next), body.value)) else old(sockets)[k]
    {
      var seqNo := next;
      next := seqNo + 1;
      if body.None? {
        LedgerGap(seqNo, log, gaps);
        gaps := gaps + {seqNo};
        return None;
      }
      var row := Row(seqNo, body, false);
      LedgerRow(seqNo, log, gaps, body.value);
      log := log + [row];
      sockets := FanOut(sockets, FrameOf(row));
      forall j | 0 <= j < |sockets| ensures SocketOk(next, log, sockets[j]) {
        RowKeepsSocket(seqNo, old(log), row, old(sockets)[j]);
      }
      r := Some(seqNo);
    }

    /** Accepts a socket and replays the backlog of its cursor. */
    method Subscribe(cursor: Option<int>) returns (id: nat)
      requires Valid()
      modifies this
      ensures Valid() && next == old(next) && log == old(log) && gaps == old(gaps)
      ensures id == |old(sockets)| && |sockets| == id + 1 && sockets[..id] == old(sockets)
      ensures sockets[id].cursor == cursor && sockets[id].alive
      ensures sockets[id].joined == |log| && sockets[id].head == next
      ensures sockets[id].sent == if cursor.Some? then Deliverable(log, cursor.value, MaxSeq(log)) else []
    {
      id := |sockets|;
      var sent: seq<Frame> := [];
      if cursor.Some? {
        sent := Replay(log, cursor.value);
      }
      assert log[..|log|] == log && Frames(log[|log|..]) == [];
      sockets := sockets + [Socket(cursor, |log|, next, true, sent)];
    }

    /** A peer goes away; later sends to it fail and are ignored. */
    method Drop(id: nat)
      requires Valid() && id < |sockets|
      modifies this
      ensures Valid() && next == old(next) && log == old(log) && gaps == old(gaps)
      ensures sockets == old(sockets)[id := old(sockets)[id].(alive := false)]
    {
      sockets := sockets[id := sockets[id].(alive := false)];
    }
  }

  lemma SeqsGrow(log: seq<Row>, row: Row)
    ensures SeqsOf(log + [row]) == SeqsOf(log) + {row.seqNo}
  {
    var longer := log + [row];
    assert forall i :: 0 <= i < |log| ==> longer[i] == log[i];
    assert longer[|log|] == row;
  }

  lemma OwedGrows(log: seq<Row>, row: Row, sock: Socket)
    requires sock.joined <= |log| && CanSend(row) && AllSendable(log)
    ensures Owed(log + [row], sock) == Owed(log, sock) + [FrameOf(row)]
  {
    assert (log + [row])[..sock.joined] == log[..sock.joined];
    assert (log + [row])[sock.joined..] == log[sock.joined..] + [row];
    assert Frames(log[sock.joined..] + [row]) == Frames(log[sock.joined..]) + [FrameOf(row)];
  }

  /** The same specification as the embedded server. A live socket with cursor `c` has been
      sent the ordered suffix of the log after `c` exactly when no row logged since it
      subscribed has a seq within `c`; a cursor not beyond the head makes that certain. */
  lemma SocketSendsSuffixIff(log: seq<Row>, sock: Socket)
    requires Sorted(log) && AllSendable(log)
    requires sock.joined <= |log| && sock.cursor.Some? && sock.sent == Owed(log, sock)
    ensures sock.sent == Deliverable(log, sock.cursor.value, MaxSeq(log)) <==>
            (sock.joined == |log| || sock.cursor.value < log[sock.joined].seqNo)
  {
    var c, n := sock.cursor.value, sock.joined;
    SuffixSplit(log, n, c);
    TailAllDueIff(log, n, c);
  }

  lemma TailAllDueIff(log: seq<Row>, n: nat, c: int)
    requires Sorted(log) && AllSendable(log) && n <= |log|
    ensures Deliverable(log[n..], c, MaxSeq(log)) == Frames(log[n..]) <==> (n == |log| || c < log[n].seqNo)
  {
    var tail := log[n..];
    if n < |log| {
      if c < log[n].seqNo {
        forall i | 0 <= i < |tail| ensures c < tail[i].seqNo <= MaxSeq(log) {
          assert tail[i] == log[n + i];
        }
        AllLater(tail, c, MaxSeq(log));
      } else {
        FewerLater(tail, c, MaxSeq(log));
      }
    }
  }

  /** A cursor that was not beyond the head when the socket joined gets the ordered suffix
      of the log at every later time. */
  lemma LiveSocketSendsSuffix(next: nat, log: seq<Row>, gaps: set<int>, sock: Socket)
    requires Ledger(next, log, gaps) && SocketOk(next, log, sock)
    requires sock.alive && sock.cursor.Some? && sock.cursor.value < sock.head
    ensures sock.sent == Deliverable(log, sock.cursor.value, MaxSeq(log))
  {
    SocketSendsSuffixIff(log, sock);
  }

  lemma {:induction false} SuffixSplit(log: seq<Row>, n: nat, c: int)
    requires Sorted(log) && n <= |log|
    ensures Deliverable(log, c, MaxSeq(log)) ==
            Deliverable(log[..n], c, MaxSeq(log[..n])) + Deliverable(log[n..], c, MaxSeq(log))
  {
    Concat(log[..n], log[n..], c, MaxSeq(log));
    assert log[..n] + log[n..] == log;
    if 0 < n {
      assert log[..n][n - 1] == log[n - 1];
      DeliverableSame(log[..n], c, MaxSeq(log[..n]), MaxSeq(log));
    }
  }

  lemma {:induction false} Concat(a: seq<Row>, b: seq<Row>, lo: int, hi: int)
    ensures Deliverable(a + b, lo, hi) == Deliverable(a, lo, hi) + Deliverable(b, lo, hi)
  {
    if b == [] {
      assert a + b == a;
    } else {
      var front, last := b[..|b| - 1], b[|b| - 1];
      assert b == front + [last] && a + b == (a + front) + [last];
      Concat(a, front, lo, hi);
      DeliverableAppend(a + front, last, lo, hi);
      DeliverableAppend(front, last, lo, hi);
    }
  }

  lemma {:induction false} AllLater(rows: seq<Row>, lo: int, hi: int)
    requires AllSendable(rows) && forall i :: 0 <= i < |rows| ==> lo < rows[i].seqNo <= hi
    ensures Deliverable(rows, lo, hi) == Frames(rows)
  {
    if rows == [] {
    } else {
      var n := |rows| - 1;
      AllLater(rows[..n], lo, hi);
      assert rows[n] == rows[|rows| - 1];
    }
  }

  lemma {:induction false} FewerLater(rows: seq<Row>, lo: int, hi: int)
    requires rows != [] && rows[0].seqNo <= lo
    ensures |Deliverable(rows, lo, hi)| < |rows|
  {
    var n := |rows| - 1;
    if n == 0 {
    } else {
      FewerLater(rows[..n], lo, hi);
    }
  }
}
