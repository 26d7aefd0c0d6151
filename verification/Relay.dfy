/** Messages across protocols: what is sent, as bytes, and what the receiver makes of it. */
module Relay {
  import opened Types
  import opened DedupRing
  import opened Session
  import opened Books
  import opened Routines
  import opened Runs
  import opened Phases
  import opened Outcome
  import opened Delivery
  import UdpCodec
  import TcpCodec

  /** The bytes that go out for a transmission. */
  function Wire(x: Sent): string {
    if x.peer.protocol == Udp then UdpCodec.Compose(x.msg) else TcpCodec.Compose(x.msg)
  }

  /** What a parser of the given protocol reads from bytes. */
  function Read(protocol: Protocol, bytes: string): Option<Message> {
    if protocol == Udp then UdpCodec.Parse(bytes) else TcpCodec.Parse(bytes)
  }

  /** Every retransmission is, byte for byte and to the same peer, its first transmission. */
  lemma ByteIdentical(cfg: Config, es: seq<Event>, i: nat)
    requires Legal(cfg, es) && i < |Run(cfg, es).resent|
    ensures var s := Run(cfg, es);
            var x := s.resent[i];
            x.number < |s.sent| && x.sent.peer == s.sent[x.number].peer && Wire(x.sent) == Wire(s.sent[x.number])
  {
    hide Run, Legal, Wire;
    Retransmissions(cfg, es, 0);
  }

  /** Both parsers return only what the grammar admits. */
  lemma ReadAccepts(protocol: Protocol, bytes: string)
    ensures Read(protocol, bytes).Some? ==> Accepted(Read(protocol, bytes).value)
  {
    hide UdpCodec.Parse, TcpCodec.Parse, TcpCodec.CString;
    if protocol == Udp {
      UdpCodec.ParseAccepts(bytes);
    } else if TcpCodec.Parse(bytes).Some? {
      var m := TcpCodec.Parse(bytes).value;
      TcpCodec.ParseSound(bytes, m);
      TcpCodec.SentenceSplit(TcpCodec.CString(bytes), m);
    }
  }

  lemma {:induction false} RelayAt(listeners: seq<Client>, name: string, content: string, n: nat, k: nat)
    requires k < |listeners|
    ensures |Relays(listeners, name, content, n)| == |listeners|
    ensures Relays(listeners, name, content, n)[k] == Sent(listeners[k].AsPeer(), Msg(IdOf(n + k), name, content))
  {
    hide IdOf;
    RelayCount(listeners, name, content, n);
    if k > 0 { RelayAt(listeners[1..], name, content, n + 1, k - 1); }
  }

  /** A relayed MSG reads, at a TCP receiver always and at a UDP receiver for send ids below 128, as it was said. */
  lemma ReadsAsSaid(p: Peer, m: Message, id: nat)
    requires m.Msg? && Accepted(m) && (p.protocol == Udp ==> id < 0x80)
    ensures Read(p.protocol, Wire(Sent(p, Msg(id, m.displayName, m.content)))) ==
            Some(Msg(if p.protocol == Udp then id else 0, m.displayName, m.content))
  {
    hide UdpCodec.Parse, UdpCodec.Compose, TcpCodec.Parse, TcpCodec.Compose, IsDisplayName, IsContent;
    var x := Msg(id, m.displayName, m.content);
    if p.protocol == Udp {
      UdpCodec.RoundTrip(x);
    } else {
      TcpCodec.RoundTrip(x);
    }
  }

  /**
   Relaying keeps meaning across protocols: whatever bytes a MSG was read from, every copy that a
   listener is sent reads as the same display name and content.
   */
  lemma RelayKeepsMeaning(from: Protocol, bytes: string, listeners: seq<Client>, n: nat, k: nat)
    requires Read(from, bytes).Some? && Read(from, bytes).value.Msg? && k < |listeners|
    requires listeners[k].protocol == Udp ==> IdOf(n + k) < 0x80
    ensures var m := Read(from, bytes).value;
            |Relays(listeners, m.displayName, m.content, n)| == |listeners|
    ensures var m := Read(from, bytes).value;
            var got := Read(listeners[k].protocol, Wire(Relays(listeners, m.displayName, m.content, n)[k]));
            got.Some? && got.value.Msg? && got.value.displayName == m.displayName && got.value.content == m.content
  {
    hide Read, Wire, Relays, IdOf, Accepted;
    var m := Read(from, bytes).value;
    ReadAccepts(from, bytes);
    RelayAt(listeners, m.displayName, m.content, n, k);
    ReadsAsSaid(listeners[k].AsPeer(), m, IdOf(n + k));
  }

  /**
   From bytes to bytes, in every run: when an open client sends bytes that read as a fresh MSG, then
   after its own confirmation everything the server sends is one datagram or text for each other open
   client of the channel, and each (at UDP for send ids below 128) reads as the same name and content.
   */
  lemma SaidIsHeard(cfg: Config, es: seq<Event>, fd: int, addr: Addr, bytes: string, k: nat)
    requires Legal(cfg, es) && !Run(cfg, es).stopped
    requires var cs := Run(cfg, es).clients;
             var i := FindFd(cs, fd);
             && i < |cs| && cs[i].phase == Open
             && Read(cs[i].protocol, bytes).Some? && Read(cs[i].protocol, bytes).value.Msg?
             && (cs[i].protocol == Udp ==> Read(cs[i].protocol, bytes).value.id !in Recent(cs[i].seen))
    ensures var s := Run(cfg, es);
            var i := FindFd(s.clients, fd);
            var m := Read(s.clients[i].protocol, bytes).value;
            var r := Step(cfg, s, Receive(fd, addr, m));
            var n := |s.sent| + if s.clients[i].protocol == Udp then 1 else 0;
            var hearers := Audience(s.clients, i, 0);
            && |r.sent| == n + |hearers|
            && (k < |hearers| && (hearers[k].protocol == Udp ==> IdOf(n + k) < 0x80) ==>
                  && r.sent[n + k].peer == hearers[k].AsPeer()
                  && var got := Read(hearers[k].protocol, Wire(r.sent[n + k]));
                     got.Some? && got.value.Msg? && got.value.displayName == m.displayName && got.value.content == m.content)
  {
    hide Run, Legal, Step, Read, Wire, Audience, Relays, Recent, IdOf, Queued, Record;
    var s := Run(cfg, es);
    var i := FindFd(s.clients, fd);
    var m := Read(s.clients[i].protocol, bytes).value;
    var n := |s.sent| + if s.clients[i].protocol == Udp then 1 else 0;
    var hearers := Audience(s.clients, i, 0);
    var e := Receive(fd, addr, m);
    Isolation(cfg, es, e);
    var u := Taken(s, e);
    assert u.clients == s.clients[i := u.clients[i]];
    AudienceFrame(s.clients, i, u.clients[i]);
    RelayCount(hearers, m.displayName, m.content, n);
    if k < |hearers| && (hearers[k].protocol == Udp ==> IdOf(n + k) < 0x80) {
      RelayAt(hearers, m.displayName, m.content, n, k);
      RelayKeepsMeaning(s.clients[i].protocol, bytes, hearers, n, k);
    }
  }

  // ----- Confirmations on the wire -----

  /** The send number is still waiting for its confirmation. */
  ghost predicate Unconfirmed(s: State, number: nat) { exists p | p in s.buffer :: p.number == number }

  /**
   A UDP client confirms a buffered datagram with the bytes its own composer makes: in the window this
   takes the datagram out of the buffer if and only if its id is below 128.
   */
  lemma AnswerCounts(cfg: Config, es: seq<Event>, fd: int, addr: Addr, k: nat)
    requires Legal(cfg, es) && Narrow(cfg, es) && !Run(cfg, es).stopped
    requires var s := Run(cfg, es); FindFd(s.clients, fd) < |s.clients| && k < |s.buffer|
    ensures var s := Run(cfg, es);
            var p := s.buffer[k];
            var got := Read(Udp, UdpCodec.Compose(Confirm(p.Id())));
            && got.Some? && got.value.Confirm?
            && (Unconfirmed(Step(cfg, s, Receive(fd, addr, got.value)), p.number) <==> p.Id() >= 0x80)
  {
    hide Run, Legal, Narrow, Step, UdpCodec.Parse, UdpCodec.Compose, IdOf, Sound, Arrival, FindId, DistinctIds, Without;
    var s := Run(cfg, es);
    var p := s.buffer[k];
    IdIsWord(p.number);
    UdpCodec.ConfirmReads(p.Id());
    var ref := UdpCodec.Parse(UdpCodec.Compose(Confirm(p.Id()))).value.ref;
    var e := Receive(fd, addr, Confirm(ref));
    var tail := ConfirmBuffer(cfg, es, e);
    RunSound(cfg, es, false, false);
    var j := FindId(s.buffer, ref);
    if j == |s.buffer| {
      assert p in s.buffer;
    } else {
      KeptUnlessTaken(cfg, s, j, k, tail);
      if p.Id() < 0x80 {
        BufferOrder(cfg, es);
        DistinctFound(s.buffer, j, k);
      }
    }
  }

  /** The buffer after a CONFIRM: without the datagram it names, and perhaps with a BYE sent just now. */
  lemma ConfirmBuffer(cfg: Config, es: seq<Event>, e: Event) returns (tail: seq<Pending>)
    requires Legal(cfg, es) && Arrives(Run(cfg, es), e) && e.msg.Confirm?
    requires e.UdpOpen? ==> Unused(Run(cfg, es), e.fd)
    ensures var s := Run(cfg, es);
            var j := FindId(s.buffer, e.msg.ref);
            && Step(cfg, s, e).buffer == (if j == |s.buffer| then s.buffer else Without(s.buffer, j) + tail)
            && forall q | q in tail :: q.number == |s.sent|
  {
    hide Run, Legal, Narrow, Step, Dismissed, IdOf, Arrival, DistinctIds, Unused, FindId, Queued, Goodbye;
    ConfirmTakesOne(cfg, es, e);
    var s := Run(cfg, es);
    var (t, i) := Arrival(s, e);
    var j, c, n := FindId(s.buffer, e.msg.ref), t.clients[i], |s.sent|;
    GoodbyeQueued(cfg, c, n);
    tail := if j < |s.buffer| && s.buffer[j].msg.Bye? then Queued(cfg, n, Goodbye(c, n)) else [];
  }

  lemma IdIsWord(n: nat)
    ensures IdOf(n) < 0x1_0000
  {
  }

  lemma DistinctFound(b: seq<Pending>, j: nat, k: nat)
    requires DistinctIds(b) && j < |b| && k < |b| && b[j].Id() == b[k].Id()
    ensures j == k
  {
    hide IdOf;
  }

  /** Taking datagram `j` out of the buffer, and adding a newer one, leaves every other one there. */
  lemma KeptUnlessTaken(cfg: Config, s: State, j: nat, k: nat, tail: seq<Pending>)
    requires Sound(cfg, s, Free) && j < |s.buffer| && k < |s.buffer|
    requires forall q | q in tail :: q.number == |s.sent|
    ensures (exists p | p in Without(s.buffer, j) + tail :: p.number == s.buffer[k].number) <==> j != k
  {
    hide Numbered, Conserved, Confirmed, Repeats, Roll, Addressed, Confirms, Farewells, Executions, Kept, Without;
    WithoutAt(s.buffer, j);
    var w := Without(s.buffer, j);
    if j != k {
      var i := if k < j then k else k - 1;
      assert w[i] == s.buffer[k] && (w + tail)[i] in w + tail;
    } else {
      assert forall i | 0 <= i < |w| :: w[i].number != s.buffer[k].number;
    }
  }

  /** The message of an event was read from bytes, by one of the two parsers. */
  ghost predicate FromBytes(e: Event) {
    e.Receive? || e.UdpOpen? ==> exists protocol, d :: UdpCodec.IsBytes(d) && Read(protocol, d) == Some(e.msg)
  }

  lemma ReadRefs(protocol: Protocol, d: string, ref: nat)
    requires UdpCodec.IsBytes(d) && Read(protocol, d) == Some(Confirm(ref))
    ensures !UdpCodec.Unreadable(ref)
  {
    hide UdpCodec.Parse, TcpCodec.Parse, TcpCodec.CString;
    if protocol == Udp {
      UdpCodec.ReadableRefs(ref);
    } else {
      TcpCodec.ParseSound(d, Confirm(ref));
    }
  }

  /**
   In every run whose messages were read from bytes, no datagram with an id from 32513 to 32767 is
   ever confirmed by anyone: it leaves the buffer only with a client.
   */
  lemma NeverConfirmed(cfg: Config, es: seq<Event>, k: nat)
    requires Legal(cfg, es) && k < |Run(cfg, es).retired| && forall j | 0 <= j < |es| :: FromBytes(es[j])
    ensures var x := Run(cfg, es).retired[k]; UdpCodec.Unreadable(IdOf(x.number)) ==> x.WithClient?
  {
    hide Run, Legal, Read, IdOf;
    var x := Run(cfg, es).retired[k];
    if x.ByConfirm? {
      Conservation(cfg, es, 0);
      var j := ConfirmedByEvent(cfg, es, k);
      assert FromBytes(es[j]);
      var protocol, d :| UdpCodec.IsBytes(d) && Read(protocol, d) == Some(es[j].msg);
      ReadRefs(protocol, d, x.ref);
    }
  }
}
