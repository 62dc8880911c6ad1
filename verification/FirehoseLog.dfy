/** The durable event log and the one specification both firehose servers refine:
    a subscriber is sent the deliverable rows of a seq interval, in order, once each. */
module FirehoseLog {
  import opened Wrappers
  import opened RepoData

  /** A `repo_seq` row. `event` is `None` when the stored bytes do not decode. */
  datatype Row = Row(seqNo: int, event: Option<CommitBody>, invalidated: bool)

  /** A `#commit` frame on the wire: a body with its seq injected. */
  datatype Frame = Frame(seqNo: int, body: CommitBody)

  predicate Visible(r: Row) { !r.invalidated }

  predicate CanSend(r: Row) { Visible(r) && r.event.Some? }

  function FrameOf(r: Row): Frame
    requires r.event.Some?
  {
    Frame(r.seqNo, r.event.value)
  }

  ghost predicate Sorted(log: seq<Row>) {
    && (forall i :: 0 <= i < |log| ==> 0 < log[i].seqNo)
    && (forall i, j :: 0 <= i < j < |log| ==> log[i].seqNo < log[j].seqNo)
  }

  /** Highest assigned seq, 0 for an empty log. */
  function MaxSeq(log: seq<Row>): int {
    if log == [] then 0 else log[|log| - 1].seqNo
  }

  /** A row's frame, if the row is deliverable and its seq lies in the interval. */
  function FrameIn(r: Row, lo: int, hi: int): seq<Frame> {
    if CanSend(r) && lo < r.seqNo <= hi then [FrameOf(r)] else []
  }

  /** The specification: frames of the deliverable rows with `lo < seq <= hi`, in log order. */
  function Deliverable(log: seq<Row>, lo: int, hi: int): seq<Frame> {
    if log == [] then []
    else
      var r := log[|log| - 1];
      Deliverable(log[..|log| - 1], lo, hi) + FrameIn(r, lo, hi)
  }

  /** The rows a backfill may still read: not invalidated and after `after`. */
  function VisibleAfter(log: seq<Row>, after: int): seq<Row> {
    if log == [] then []
    else
      var r := log[|log| - 1];
      VisibleAfter(log[..|log| - 1], after) + (if Visible(r) && after < r.seqNo then [r] else [])
  }

  /** `backfill_page`: ascending, not invalidated, after the cursor, capped. The cap is hard, and a
      page is only short when there is no more to read. */
  function BackfillPage(log: seq<Row>, after: int, limit: nat): (page: seq<Row>)
    ensures page <= VisibleAfter(log, after) && |page| <= limit
    ensures |page| < limit ==> page == VisibleAfter(log, after)
  {
    var rows := VisibleAfter(log, after);
    if |rows| <= limit then rows else rows[..limit]
  }

  /** Appending a row changes the interval only if the row lies in it. */
  lemma {:induction false} DeliverableAppend(log: seq<Row>, r: Row, lo: int, hi: int)
    ensures Deliverable(log + [r], lo, hi) ==
            Deliverable(log, lo, hi) + FrameIn(r, lo, hi)
  {
    assert (log + [r])[..|log|] == log;
  }

  lemma {:induction false} VisibleAppend(log: seq<Row>, r: Row, after: int)
    ensures VisibleAfter(log + [r], after) ==
            VisibleAfter(log, after) + (if Visible(r) && after < r.seqNo then [r] else [])
  {
    assert (log + [r])[..|log|] == log;
  }

  /** Two upper bounds that no deliverable row separates give the same interval. */
  lemma {:induction false} DeliverableSame(log: seq<Row>, lo: int, hi: int, hi': int)
    requires hi <= hi'
    requires forall i :: 0 <= i < |log| && CanSend(log[i]) && lo < log[i].seqNo ==>
               (log[i].seqNo <= hi <==> log[i].seqNo <= hi')
    ensures Deliverable(log, lo, hi) == Deliverable(log, lo, hi')
  {
    if log == [] {
    } else {
      DeliverableSame(log[..|log| - 1], lo, hi, hi');
      assert log[|log| - 1] == log[|log| - 1];
    }
  }

  /** Moving the upper bound over row `k`, when nothing deliverable lies between, sends that row alone. */
  lemma {:induction false} DeliverableExtend(log: seq<Row>, lo: int, hi: int, k: nat)
    requires Sorted(log) && k < |log|
    requires lo <= hi < log[k].seqNo
    requires forall i :: 0 <= i < k && CanSend(log[i]) ==> log[i].seqNo <= hi
    ensures Deliverable(log, lo, log[k].seqNo) ==
            Deliverable(log, lo, hi) + (if CanSend(log[k]) then [FrameOf(log[k])] else [])
  {
    var n := |log| - 1;
    if k == n {
      DeliverableSame(log[..n], lo, hi, log[k].seqNo);
    } else {
      DeliverableExtend(log[..n], lo, hi, k);
    }
  }

  /** An interval is its two halves. */
  lemma {:induction false} DeliverableSplit(log: seq<Row>, lo: int, mid: int, hi: int)
    requires Sorted(log) && lo <= mid <= hi
    ensures Deliverable(log, lo, hi) == Deliverable(log, lo, mid) + Deliverable(log, mid, hi)
  {
    if log == [] {
    } else {
      var n := |log| - 1;
      SortedFront(log);
      DeliverableSplit(log[..n], lo, mid, hi);
      if log[n].seqNo <= mid {
        DeliverableNone(log[..n], mid, hi, log[n].seqNo);
      }
      Regroup(Deliverable(log[..n], lo, hi), Deliverable(log[..n], lo, mid), Deliverable(log[..n], mid, hi),
              FrameIn(log[n], lo, hi), FrameIn(log[n], lo, mid), FrameIn(log[n], mid, hi));
    }
  }

  lemma SortedFront(log: seq<Row>)
    requires Sorted(log) && log != []
    ensures var front := log[..|log| - 1];
      Sorted(front) && forall i :: 0 <= i < |front| ==> front[i].seqNo < log[|log| - 1].seqNo
  {
  }

  lemma Regroup(all: seq<Frame>, a: seq<Frame>, b: seq<Frame>, x: seq<Frame>, y: seq<Frame>, z: seq<Frame>)
    requires all == a + b && ((y == [] && x == z) || (b == [] && z == [] && x == y))
    ensures all + x == (a + y) + (b + z)
  {
  }

  lemma {:induction false} DeliverableNone(log: seq<Row>, lo: int, hi: int, max: int)
    requires max <= lo && forall i :: 0 <= i < |log| ==> log[i].seqNo < max
    ensures Deliverable(log, lo, hi) == []
  {
    if log == [] {
    } else {
      assert log[|log| - 1].seqNo < max;
      DeliverableNone(log[..|log| - 1], lo, hi, max);
    }
  }

  /** A prefix of the log is enough for an interval that ends before the rest. */
  lemma {:induction false} DeliverablePrefix(log: seq<Row>, n: nat, lo: int, hi: int)
    requires n <= |log| && forall i :: n <= i < |log| ==> hi < log[i].seqNo
    ensures Deliverable(log[..n], lo, hi) == Deliverable(log, lo, hi)
  {
    if n == |log| {
      assert log[..n] == log;
    } else {
      var m := |log| - 1;
      assert log[..m][..n] == log[..n] && hi < log[m].seqNo;
      DeliverablePrefix(log[..m], n, lo, hi);
    }
  }

  /** The head of the remaining rows is the first visible row past the cursor. */
  lemma {:induction false} VisibleHead(log: seq<Row>, after: int) returns (k: nat)
    requires Sorted(log) && VisibleAfter(log, after) != []
    ensures k < |log| && log[k] == VisibleAfter(log, after)[0] && Visible(log[k]) && after < log[k].seqNo
    ensures forall i :: 0 <= i < k && Visible(log[i]) ==> log[i].seqNo <= after
    ensures VisibleAfter(log, log[k].seqNo) == VisibleAfter(log, after)[1..]
  {
    var n := |log| - 1;
    var rest := VisibleAfter(log[..n], after);
    if rest == [] {
      k := n;
      VisibleNone(log[..n], after);
      NoneVisible(log[..n], log[n].seqNo);
    } else {
      k := VisibleHead(log[..n], after);
      assert log[..n][k] == log[k] && log[k].seqNo < log[n].seqNo;
      assert forall i :: 0 <= i < k ==> log[..n][i] == log[i];
      assert VisibleAfter(log, log[k].seqNo) ==
             VisibleAfter(log[..n], log[k].seqNo) + (if Visible(log[n]) then [log[n]] else []);
    }
  }

  lemma {:induction false} VisibleNone(log: seq<Row>, after: int)
    requires VisibleAfter(log, after) == []
    ensures forall i :: 0 <= i < |log| && Visible(log[i]) ==> log[i].seqNo <= after
  {
    if log == [] {
    } else {
      VisibleNone(log[..|log| - 1], after);
    }
  }

  lemma {:induction false} NoneVisible(log: seq<Row>, after: int)
    requires forall i :: 0 <= i < |log| && Visible(log[i]) ==> log[i].seqNo <= after
    ensures VisibleAfter(log, after) == []
  {
    if log == [] {
    } else {
      assert log[|log| - 1] == log[|log| - 1];
      NoneVisible(log[..|log| - 1], after);
    }
  }

  /** A frame is due exactly when some deliverable row of the interval carries it. */
  lemma {:induction false} DeliverableMembers(log: seq<Row>, lo: int, hi: int)
    ensures forall f :: f in Deliverable(log, lo, hi) ==>
              exists i :: 0 <= i < |log| && CanSend(log[i]) && lo < log[i].seqNo <= hi && f == FrameOf(log[i])
    ensures forall i :: 0 <= i < |log| && CanSend(log[i]) && lo < log[i].seqNo <= hi ==>
              FrameOf(log[i]) in Deliverable(log, lo, hi)
  {
    if log == [] {
    } else {
      var n := |log| - 1;
      var front := log[..n];
      DeliverableMembers(front, lo, hi);
      assert forall i :: 0 <= i < n ==> front[i] == log[i];
      forall f | f in Deliverable(log, lo, hi)
        ensures exists i :: 0 <= i < |log| && CanSend(log[i]) && lo < log[i].seqNo <= hi && f == FrameOf(log[i])
      {
        if f in Deliverable(front, lo, hi) {
          var i :| 0 <= i < n && CanSend(front[i]) && lo < front[i].seqNo <= hi && f == FrameOf(front[i]);
          assert CanSend(log[i]) && f == FrameOf(log[i]);
        } else {
          assert CanSend(log[n]) && f == FrameOf(log[n]);
        }
      }
    }
  }

  /** Due frames ascend strictly and stay inside the interval. */
  lemma {:induction false} DeliverableAscends(log: seq<Row>, lo: int, hi: int)
    requires Sorted(log)
    ensures forall i :: 0 <= i < |Deliverable(log, lo, hi)| ==> lo < Deliverable(log, lo, hi)[i].seqNo <= hi
    ensures forall i :: 0 <= i < |Deliverable(log, lo, hi)| ==> Deliverable(log, lo, hi)[i].seqNo <= MaxSeq(log)
    ensures forall i, j :: 0 <= i < j < |Deliverable(log, lo, hi)| ==>
              Deliverable(log, lo, hi)[i].seqNo < Deliverable(log, lo, hi)[j].seqNo
  {
    if log == [] {
    } else {
      var n := |log| - 1;
      DeliverableAscends(log[..n], lo, hi);
      assert n > 0 ==> log[n - 1].seqNo < log[n].seqNo;
    }
  }
}
