/** Two firehose servers, one stream: over the same log and from the same cursor, a drained
    embedded subscriber and a live sequencer socket have been sent the same frames. */
module FirehoseAgreement {
  import Machine = FirehoseMachine
  import Sequencer = SequencerObject

  lemma ServersAgree(s: Machine.State, steps: seq<Machine.Step>, next: nat, gaps: set<int>, sock: Sequencer.Socket)
    requires Machine.Init(s) && Machine.Legal(s, steps) && Machine.PublishesInOrder(steps)
    requires var t := Machine.Exec(s, steps);
      && t.sub.phase.Live? && t.sub.pos == |t.published| && t.pending == []
      && Sequencer.Ledger(next, t.log, gaps) && Sequencer.SocketOk(next, t.log, sock)
      && sock.alive && sock.cursor.Some? && sock.cursor.value < sock.head && t.sub.cursor == sock.cursor
    ensures Machine.Exec(s, steps).sub.session.sent == sock.sent
  {
    Machine.DrainedStreamIsSuffix(s, steps);
    Sequencer.LiveSocketSendsSuffix(next, Machine.Exec(s, steps).log, gaps, sock);
  }
}
