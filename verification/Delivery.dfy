/** What one received message causes: confirmations, execution, relaying. */
module Delivery {
  import opened Types
  import opened DedupRing
  import opened Session
  import opened Books
  import opened Routines
  import opened Runs
  import opened Phases
  import opened Outcome

  // ----- Confirmations -----

  /** The confirmations that event `e` obliges the server to send: (client, id). */
  function Owed(s: State, e: Event): seq<(int, nat)> {
    if s.stopped then []
    else if e.Receive? && !e.msg.Confirm? then
      var i := FindFd(s.clients, e.fd);
      if i < |s.clients| && s.clients[i].protocol == Udp then [(s.clients[i].serial, e.msg.MessageId())] else []
    else if e.UdpOpen? && !e.msg.Confirm? && FindAddr(s.clients, e.addr) == |s.clients|
    then [(s.joined, e.msg.MessageId())]
    else []
  }

  function AllOwed(cfg: Config, es: seq<Event>): seq<(int, nat)> {
    if es == [] then [] else AllOwed(cfg, es[..|es| - 1]) + Owed(Run(cfg, es[..|es| - 1]), es[|es| - 1])
  }

  lemma ProcessReceipts(cfg: Config, s: State, i: nat, m: Message)
    requires i < |s.clients|
    ensures Process(cfg, s, i, m).receipts ==
            s.receipts + if s.clients[i].protocol == Udp && !m.Confirm? then [(s.clients[i].serial, m.MessageId())] else []
  {
    hide Dispatch, Contains, Record;
  }

  lemma StepReceipts(cfg: Config, s: State, e: Event)
    ensures Step(cfg, s, e).receipts == s.receipts + Owed(s, e)
  {
    hide Process, Transmit, Close, Sweep, DestroyAll, HangUp;
    if e.Receive? {
      var i := FindFd(s.clients, e.fd);
      if i < |s.clients| { ProcessReceipts(cfg, Update(s, i, Heard(s.clients[i], e.addr)), i, e.msg); }
    } else if e.UdpOpen? {
      ProcessReceipts(cfg, Enlist(s, Newcomer(s, e.fd, Udp, e.addr)), |s.clients|, e.msg);
    }
  }

  lemma {:induction false} RunReceipts(cfg: Config, es: seq<Event>)
    ensures Run(cfg, es).receipts == AllOwed(cfg, es)
  {
    hide Step, Owed;
    if es != [] {
      RunReceipts(cfg, es[..|es| - 1]);
      StepReceipts(cfg, Run(cfg, es[..|es| - 1]), es[|es| - 1]);
    }
  }

  /**
   In every run the CONFIRMs sent are, in order, exactly those owed: one for each parsed message
   other than CONFIRM from a UDP client, repeated or not, carrying its id.
   */
  lemma OneConfirmEach(cfg: Config, es: seq<Event>)
    requires Legal(cfg, es)
    ensures Confirms(Run(cfg, es).sent) == AllOwed(cfg, es)
  {
    hide Run, Legal, AllOwed;
    RunSound(cfg, es, false, false);
    RunReceipts(cfg, es);
  }

  // ----- Arrival -----

  /** A message that parses and reaches `process_msg`: from a client, or the first datagram of an unknown address. */
  predicate Arrives(s: State, e: Event) {
    && !s.stopped
    && (|| (e.Receive? && FindFd(s.clients, e.fd) < |s.clients|)
        || (e.UdpOpen? && FindAddr(s.clients, e.addr) == |s.clients|))
  }

  /**
   The state in which the message is considered, and the position of the client that sent it: a
   datagram brings the sender's address along, an unknown sender is registered.
   */
  function Arrival(s: State, e: Event): (r: (State, nat))
    requires Arrives(s, e)
    ensures r.1 < |r.0.clients| && r.0 == s.(clients := r.0.clients, joined := r.0.joined)
  {
    if e.Receive? then
      var i := FindFd(s.clients, e.fd);
      var c := s.clients[i];
      (s.(clients := s.clients[i := if c.protocol == Udp then c.(addr := e.addr) else c]), i)
    else
      var c := Client(s.joined, e.fd, Udp, e.addr, Accept, "", "", "", EMPTY, []);
      (s.(clients := s.clients + [c], joined := s.joined + 1), |s.clients|)
  }

  /** The client that sent it, as it stands then. */
  function Sender(s: State, e: Event): Client
    requires Arrives(s, e)
  {
    Arrival(s, e).0.clients[Arrival(s, e).1]
  }

  lemma ArrivalProcessed(cfg: Config, s: State, e: Event)
    requires Arrives(s, e)
    ensures Step(cfg, s, e) == Process(cfg, Arrival(s, e).0, Arrival(s, e).1, e.msg)
  {
    hide Process;
  }

  lemma SoundRing(cfg: Config, s: State, i: nat)
    requires Sound(cfg, s, Free) && i < |s.clients|
    ensures Represents(s.clients[i].ring, s.clients[i].seen)
  {
    hide Ledger, Addressed, Confirms, Farewells, Executions, Kept, Represents;
  }

  lemma ArrivalRing(cfg: Config, s: State, e: Event)
    requires Sound(cfg, s, Free) && Arrives(s, e)
    ensures Represents(Sender(s, e).ring, Sender(s, e).seen)
  {
    hide Sound, Represents;
    if e.Receive? { SoundRing(cfg, s, FindFd(s.clients, e.fd)); } else { EmptyRing(); }
  }

  lemma EmptyRing()
    ensures Represents(EMPTY, [])
  {
  }

  /** The descriptor of a first datagram is a new one. */
  lemma ArrivalSound(cfg: Config, s: State, e: Event)
    requires Sound(cfg, s, Free) && Arrives(s, e) && (e.UdpOpen? ==> Unused(s, e.fd))
    ensures Sound(cfg, Arrival(s, e).0, Free)
  {
    hide Sound, Unused;
    if e.Receive? {
      var i := FindFd(s.clients, e.fd);
      UpdateSound(cfg, s, i, Heard(s.clients[i], e.addr), Free);
    } else {
      EnlistSound(cfg, s, Newcomer(s, e.fd, Udp, e.addr), Free);
    }
  }

  lemma SoundAddressed(cfg: Config, s: State)
    requires Sound(cfg, s, Free)
    ensures Addressed(s.clients, s.buffer)
  {
  }

  /** A message other than CONFIRM whose id, at UDP, is not in the window of its sender. */
  predicate Fresh(s: State, e: Event) {
    && Arrives(s, e) && !e.msg.Confirm?
    && (Sender(s, e).protocol == Udp ==> e.msg.MessageId() !in Recent(Sender(s, e).seen))
  }

  /** Neither the stop flag nor the End phase bars the message. */
  predicate Heeded(s: State, e: Event)
    requires Arrives(s, e)
  {
    e.msg.Bye? || (!s.stopFlag && Sender(s, e).phase != End)
  }

  /** The state once a fresh message has been confirmed and recorded, which only datagrams are. */
  function Noticed(s: State, e: Event): (r: State)
    requires Arrives(s, e)
    ensures |r.clients| == |Arrival(s, e).0.clients|
  {
    var (t, i) := Arrival(s, e);
    var c, id := t.clients[i], e.msg.MessageId();
    if c.protocol == Tcp then t
    else
      t.(clients := t.clients[i := c.(ring := Record(c.ring, id), seen := c.seen + [id])],
         sent := t.sent + [Sent(c.AsPeer(), Confirm(id))],
         receipts := t.receipts + [(c.serial, id)])
  }

  /** The same, with the execution noted. */
  function Taken(s: State, e: Event): (r: State)
    requires Arrives(s, e)
    ensures |r.clients| == |Arrival(s, e).0.clients| && r == Noticed(s, e).(executed := r.executed)
  {
    var c, r := Sender(s, e), Noticed(s, e);
    if c.protocol == Tcp then r
    else r.(executed := s.executed + [Execution(c.serial, |c.seen|, e.msg.MessageId())])
  }

  lemma ProcessFresh(cfg: Config, s: State, e: Event)
    requires Arrives(s, e) && !e.msg.Confirm?
    requires Sender(s, e).protocol == Udp ==> !Contains(Sender(s, e).ring, e.msg.MessageId())
    ensures var (t, i) := Arrival(s, e);
            Process(cfg, t, i, e.msg) ==
            if Heeded(s, e) then Dispatch(cfg, Taken(s, e), i, e.msg) else Noticed(s, e)
  {
    hide Contains, Record, Dispatch;
  }

  /**
   What decides about a fresh message, in every run: it is confirmed and recorded, and then dispatched
   if and only if neither the stop flag nor the End phase bars it; otherwise nothing else happens.
   */
  lemma FreshIsDispatched(cfg: Config, es: seq<Event>, e: Event)
    requires Legal(cfg, es) && Fresh(Run(cfg, es), e)
    ensures var s := Run(cfg, es);
            && (Heeded(s, e) ==> Step(cfg, s, e) == Dispatch(cfg, Taken(s, e), Arrival(s, e).1, e.msg))
            && (!Heeded(s, e) ==> Step(cfg, s, e) == Noticed(s, e))
  {
    hide Run, Legal, Sound, Contains, Recent, Represents, Dispatch, Process, Step, Noticed, Taken, Arrival, Heeded;
    var s := Run(cfg, es);
    RunSound(cfg, es, false, false);
    ArrivalRing(cfg, s, e);
    ContainsIsRecent(Sender(s, e).ring, Sender(s, e).seen, e.msg.MessageId());
    ArrivalProcessed(cfg, s, e);
    ProcessFresh(cfg, s, e);
  }

  /** A message that is barred is confirmed and recorded, and changes nothing else. */
  lemma Disregarded(cfg: Config, es: seq<Event>, e: Event)
    requires Legal(cfg, es) && Fresh(Run(cfg, es), e) && !e.msg.Bye?
    requires Run(cfg, es).stopFlag || Sender(Run(cfg, es), e).phase == End
    ensures var s := Run(cfg, es);
            var (t, i) := Arrival(s, e);
            var c, id := t.clients[i], e.msg.MessageId();
            Step(cfg, s, e) ==
            if c.protocol == Tcp then t
            else t.(clients := t.clients[i := c.(ring := Record(c.ring, id), seen := c.seen + [id])],
                    sent := t.sent + [Sent(c.AsPeer(), Confirm(id))],
                    receipts := t.receipts + [(c.serial, id)])
  {
    hide Run, Legal, Recent, Dispatch, Step, Record;
    FreshIsDispatched(cfg, es, e);
  }

  lemma ProcessExecuted(cfg: Config, s: State, i: nat, m: Message)
    requires i < |s.clients| && s.clients[i].protocol == Udp && !m.Confirm?
    ensures var c := s.clients[i];
            Process(cfg, s, i, m).executed ==
            s.executed + if !Contains(c.ring, m.MessageId()) && (m.Bye? || (!s.stopFlag && c.phase != End))
                         then [Execution(c.serial, |c.seen|, m.MessageId())] else []
  {
    hide Dispatch, Contains, Record;
  }

  /** A UDP message is executed exactly when its id is not in the window and neither stop flag nor End phase bars it. */
  lemma ExecutesIffFresh(cfg: Config, es: seq<Event>, e: Event)
    requires Legal(cfg, es) && Arrives(Run(cfg, es), e) && !e.msg.Confirm? && Sender(Run(cfg, es), e).protocol == Udp
    ensures var s := Run(cfg, es);
            var c, id := Sender(s, e), e.msg.MessageId();
            Step(cfg, s, e).executed ==
            s.executed + if id !in Recent(c.seen) && (e.msg.Bye? || (!s.stopFlag && c.phase != End))
                         then [Execution(c.serial, |c.seen|, id)] else []
  {
    hide Run, Legal, Sound, Process, Contains, Recent, Represents, Step;
    var s := Run(cfg, es);
    var (t, i) := Arrival(s, e);
    RunSound(cfg, es, false, false);
    ArrivalRing(cfg, s, e);
    ContainsIsRecent(t.clients[i].ring, t.clients[i].seen, e.msg.MessageId());
    ArrivalProcessed(cfg, s, e);
    ProcessExecuted(cfg, t, i, e.msg);
  }

  /** A repeated message is confirmed again and changes nothing else. */
  lemma RepeatOnlyConfirmed(cfg: Config, es: seq<Event>, fd: int, addr: Addr, m: Message)
    requires Legal(cfg, es) && !Run(cfg, es).stopped && !m.Confirm?
    requires var cs := Run(cfg, es).clients;
             FindFd(cs, fd) < |cs| && cs[FindFd(cs, fd)].protocol == Udp
             && m.MessageId() in Recent(cs[FindFd(cs, fd)].seen)
    ensures var s := Run(cfg, es);
            var i := FindFd(s.clients, fd);
            var c := s.clients[i].(addr := addr);
            Step(cfg, s, Receive(fd, addr, m)) ==
            s.(clients := s.clients[i := c],
               sent := s.sent + [Sent(c.AsPeer(), Confirm(m.MessageId()))],
               receipts := s.receipts + [(c.serial, m.MessageId())])
  {
    hide Run, Legal, Sound, Contains, Recent, Represents, Dispatch, Record;
    var s := Run(cfg, es);
    var i := FindFd(s.clients, fd);
    RunSound(cfg, es, false, false);
    SoundRing(cfg, s, i);
    ContainsIsRecent(s.clients[i].ring, s.clients[i].seen, m.MessageId());
  }

  // ----- Acknowledgement -----

  lemma ConfirmIsAcknowledged(cfg: Config, s: State, e: Event)
    requires Arrives(s, e) && e.msg.Confirm?
    ensures Step(cfg, s, e) == Acknowledge(cfg, Arrival(s, e).0, Arrival(s, e).1, e.msg.ref)
  {
    hide Acknowledge, Contains, Record, Step, Arrival;
    ArrivalProcessed(cfg, s, e);
  }

  /** The whole state after client `i` confirmed the datagram at position `k`, the first with that id. */
  function Acknowledged(cfg: Config, t: State, i: nat, k: nat): State
    requires i < |t.clients| && k < |t.buffer|
  {
    var p := t.buffer[k];
    var r := t.(buffer := t.buffer[..k] + t.buffer[k + 1..], retired := t.retired + [ByConfirm(p.number, p.Id())]);
    if p.msg.Bye? then Sends(cfg, r.(clients := Dismissed(t.clients, i)), Goodbye(t.clients[i], |t.sent|)) else r
  }

  lemma AddressedClear(cs: seq<Client>, b: seq<Pending>, i: nat)
    requires Addressed(cs, b) && i < |cs|
    ensures Clear(cs[i], b)
  {
  }

  lemma AcknowledgeSettles(cfg: Config, t: State, i: nat, ref: nat)
    requires Sound(cfg, t, Free) && i < |t.clients|
    ensures var k := FindId(t.buffer, ref);
            Acknowledge(cfg, t, i, ref) == if k == |t.buffer| then t else Acknowledged(cfg, t, i, k)
  {
    hide Sound, Close, IdOf, Dismissed, Addressed, FindId, Sends, Clear;
    var k := FindId(t.buffer, ref);
    if k < |t.buffer| {
      var x := ByConfirm(t.buffer[k].number, ref);
      RetireSound(cfg, t, k, x, Free);
      SoundAddressed(cfg, Drop(t, k, x));
      AddressedClear(t.clients, Drop(t, k, x).buffer, i);
      if t.buffer[k].msg.Bye? { CloseWhole(cfg, Drop(t, k, x), i); }
    }
  }

  lemma FirstFound(b: seq<Pending>, ref: nat, k: nat)
    requires k <= |b| && (k < |b| ==> b[k].Id() == ref) && forall j | 0 <= j < k :: b[j].Id() != ref
    ensures FindId(b, ref) == k
  {
    hide IdOf;
  }

  /**
   A CONFIRM, from a client or as the first datagram of an unknown sender, takes out of the buffer the
   first datagram with the id it names, and no other; in the window there is at most one. If that was
   a BYE, whosever it was, the client that confirms it is closed: it is sent a BYE unless it had ended,
   and a UDP client has to confirm that.
   */
  lemma ConfirmTakesOne(cfg: Config, es: seq<Event>, e: Event)
    requires Legal(cfg, es) && Arrives(Run(cfg, es), e) && e.msg.Confirm?
    requires e.UdpOpen? ==> Unused(Run(cfg, es), e.fd)
    ensures var s := Run(cfg, es);
            var (t, i) := Arrival(s, e);
            var b, ref := s.buffer, e.msg.ref;
            && ((forall p | p in b :: p.Id() != ref) ==> Step(cfg, s, e) == t)
            && (forall k | 0 <= k < |b| && b[k].Id() == ref && forall j | 0 <= j < k :: b[j].Id() != ref ::
                  Step(cfg, s, e) == Acknowledged(cfg, t, i, k))
    ensures Narrow(cfg, es) ==> DistinctIds(Run(cfg, es).buffer)
  {
    hide Run, Legal, Narrow, Sound, IdOf, Step, DistinctIds, Acknowledged, FindId, Arrival, Unused, Acknowledge;
    var s := Run(cfg, es);
    var (t, i) := Arrival(s, e);
    var b, ref := s.buffer, e.msg.ref;
    assert Narrow(cfg, es) ==> DistinctIds(b) by { BufferOrder(cfg, es); }
    RunSound(cfg, es, false, false);
    ArrivalSound(cfg, s, e);
    ConfirmIsAcknowledged(cfg, s, e);
    AcknowledgeSettles(cfg, t, i, ref);
    if forall p | p in b :: p.Id() != ref { FirstFound(b, ref, |b|); }
    forall k | 0 <= k < |b| && b[k].Id() == ref && forall j | 0 <= j < k :: b[j].Id() != ref
      ensures Step(cfg, s, e) == Acknowledged(cfg, t, i, k)
    {
      FirstFound(b, ref, k);
    }
  }

  // ----- What each message does, once dispatched -----

  /** MSG: name and content go, unchanged, once to exactly the other open clients of the channel. */
  lemma Speaking(cfg: Config, s: State, i: nat, m: Message)
    requires Assembled(s.clients, i) && s.clients[i].phase == Open && s.clients[i].channel != "" && m.Msg?
    ensures Dispatch(cfg, s, i, m) ==
            Sends(cfg, s.(clients := s.clients[i := s.clients[i].(displayName := m.displayName)]),
                  Relays(Audience(s.clients, i, 0), m.displayName, m.content, |s.sent|))
  {
    hide Forward, Relays, Audience, IdOf, Close, Assembled, Sends;
    InAssembly(s.clients, i);
    var d := s.clients[i].(displayName := m.displayName);
    Reassembled(s.clients, i, d);
    Announce(cfg, s, i, d, m);
    AudienceFrame(s.clients, i, d);
    var t, out := Update(s, i, d), Relays(Audience(s.clients, i, 0), m.displayName, m.content, |s.sent|);
    SendsClients(cfg, t, out, t.clients);
    assert t.clients[i := d] == t.clients;
    assert Speak(cfg, s, i, m) == Sends(cfg, t, out);
  }

  /** AUTH of an accepted client: its new channel is told, and it is answered OK under the id it used. */
  lemma Authorizing(cfg: Config, s: State, i: nat, m: Message)
    requires Assembled(s.clients, i) && s.clients[i].phase == Accept && m.Auth?
    ensures var d := s.clients[i].(username := m.username, displayName := m.displayName, channel := "default");
            var hearers, n := Audience(s.clients[i := d], i, 0), |s.sent|;
            Dispatch(cfg, s, i, m) ==
            Sends(cfg, s.(clients := s.clients[i := d.(phase := Open)]),
                  Relays(hearers, "Server", JoinText(d), n)
                  + [Sent(d.AsPeer(), Reply(IdOf(n + |hearers|), true, m.id, "Joined default channel."))])
  {
    hide Forward, Relays, Audience, IdOf, Close, Assembled, Sends, Transmit;
    InAssembly(s.clients, i);
    var d := s.clients[i].(username := m.username, displayName := m.displayName, channel := "default");
    Reassembled(s.clients, i, d);
    Announce(cfg, s, i, d, Joined(d));
    var t, hearers := Update(s, i, d), Audience(s.clients[i := d], i, 0);
    var out := Relays(hearers, "Server", JoinText(d), |s.sent|);
    var u := s.(clients := s.clients[i := d.(phase := Open)]);
    SendsClients(cfg, t, out, u.clients);
    assert t.clients[i := d.(phase := Open)] == u.clients;
    var a := Authorize(cfg, s, i, m);
    assert a == Sends(cfg, u, out);
    AnswerSent(cfg, u, out, d.AsPeer(), Reply(0, true, m.id, "Joined default channel."));
  }

  /** An answer after other transmissions. */
  lemma AnswerSent(cfg: Config, s: State, out: seq<Sent>, p: Peer, m: Message)
    ensures Transmit(cfg, Sends(cfg, s, out), p, m) == Sends(cfg, s, out + [Sent(p, m.WithId(IdOf(|s.sent| + |out|)))])
  {
    hide IdOf, Transmit, Sends;
    SendsClients(cfg, s, out, s.clients);
    TransmitSends(cfg, Sends(cfg, s, out), p, m);
    SendsAdd(cfg, s, out, [Sent(p, m.WithId(IdOf(|s.sent| + |out|)))]);
  }

  /** AUTH of an open client is answered NOK, which a UDP client has to confirm, and changes nothing else. */
  lemma AuthorizingTwice(cfg: Config, s: State, i: nat, m: Message)
    requires i < |s.clients| && s.clients[i].phase == Open && m.Auth?
    ensures var c := s.clients[i];
            var text := "User is already authorized as " + c.displayName;
            Dispatch(cfg, s, i, m) == Sends(cfg, s, [Sent(c.AsPeer(), Reply(IdOf(|s.sent|), false, m.id, text))])
  {
    hide IdOf, Close, Sends, Transmit;
    var c := s.clients[i];
    var nok := Reply(0, false, m.id, "User is already authorized as " + c.displayName);
    TransmitSends(cfg, s, c.AsPeer(), nok);
    SendsClients(cfg, s, [Sent(c.AsPeer(), nok.WithId(IdOf(|s.sent|)))], s.clients);
  }

  /** ERR of an open client changes nothing. */
  lemma Complaining(cfg: Config, s: State, i: nat, m: Message)
    requires i < |s.clients| && s.clients[i].phase == Open && m.Err?
    ensures Dispatch(cfg, s, i, m) == s
  {
  }

  /** JOIN: the old channel hears the old name leave, the new one hears the new name join, the client hears OK. */
  lemma Joining(cfg: Config, s: State, i: nat, m: Message)
    requires Assembled(s.clients, i) && s.clients[i].phase == Open && s.clients[i].channel != ""
    requires m.Join? && m.channel != ""
    ensures var c := s.clients[i];
            var d := c.(channel := m.channel, displayName := m.displayName);
            var before, after := Audience(s.clients, i, 0), Audience(s.clients[i := d], i, 0);
            var n, text := |s.sent|, "You joined " + m.channel + " channel.";
            Dispatch(cfg, s, i, m) ==
            Sends(cfg, s.(clients := s.clients[i := d]),
                  Relays(before, "Server", LeaveText(c), n) + Relays(after, "Server", JoinText(d), n + |before|)
                  + [Sent(d.AsPeer(), Reply(IdOf(n + |before| + |after|), true, m.id, text))])
  {
    hide Forward, Relays, Audience, IdOf, Close, Assembled, Sends, Transmit, Move;
    InAssembly(s.clients, i);
    var c := s.clients[i];
    var d := c.(channel := m.channel, displayName := m.displayName);
    Moving(cfg, s, i, m);
    var before, after := Audience(s.clients, i, 0), Audience(s.clients[i := d], i, 0);
    var out := Relays(before, "Server", LeaveText(c), |s.sent|) + Relays(after, "Server", JoinText(d), |s.sent| + |before|);
    var u := s.(clients := s.clients[i := d]);
    SendsClients(cfg, u, out, u.clients);
    AnswerSent(cfg, u, out, d.AsPeer(), Reply(0, true, m.id, "You joined " + m.channel + " channel."));
    assert u.clients[i] == d;
  }

  lemma Moving(cfg: Config, s: State, i: nat, m: Message)
    requires Assembled(s.clients, i) && s.clients[i].phase == Open && s.clients[i].channel != ""
    requires m.Join? && m.channel != ""
    ensures var c := s.clients[i];
            var d := c.(channel := m.channel, displayName := m.displayName);
            var before, after := Audience(s.clients, i, 0), Audience(s.clients[i := d], i, 0);
            var leave := Relays(before, "Server", LeaveText(c), |s.sent|);
            var join := Relays(after, "Server", JoinText(d), |s.sent| + |before|);
            && Move(cfg, s, i, m) == Sends(cfg, s.(clients := s.clients[i := d]), leave + join)
            && |leave + join| == |before| + |after|
  {
    hide Forward, Relays, Audience, IdOf, Assembled, Sends;
    InAssembly(s.clients, i);
    var c := s.clients[i];
    var d := c.(channel := m.channel, displayName := m.displayName);
    assert s.clients[i := c] == s.clients && Update(s, i, c) == s;
    Announce(cfg, s, i, c, Left(c));
    var before := Audience(s.clients, i, 0);
    var leave := Relays(before, "Server", LeaveText(c), |s.sent|);
    SendsClients(cfg, s, leave, s.clients[i := d]);
    var l := Sends(cfg, s, leave);
    Reassembled(s.clients, i, d);
    Announce(cfg, l, i, d, Joined(d));
    var join := Relays(Audience(s.clients[i := d], i, 0), "Server", JoinText(d), |s.sent| + |before|);
    var u := s.(clients := s.clients[i := d]);
    SendsAdd(cfg, u, leave, join);
    SendsClients(cfg, u, leave + join, u.clients);
    assert u.clients[i := d] == u.clients;
  }

  /** Anything but AUTH, BYE and CONFIRM from a client that is not authorized earns an ERR and dismissal. */
  lemma Trespassing(cfg: Config, s: State, i: nat, m: Message)
    requires i < |s.clients| && s.clients[i].phase == Accept && Clear(s.clients[i], s.buffer)
    requires !m.Auth? && !m.Bye? && !m.Confirm?
    ensures Dispatch(cfg, s, i, m) ==
            Sends(cfg, s.(clients := Dismissed(s.clients, i)),
                  [Sent(s.clients[i].AsPeer(), Err(IdOf(|s.sent|), "Server", "Client is not yet authorized."))])
  {
    hide Close, IdOf, Dismissed, Sends, Transmit, Clear;
    Expelled(cfg, s, i, s, "Client is not yet authorized.");
  }

  /** An ERR to client `i` of `s`, which is in phase Error or about to be, and its dismissal. */
  lemma Expelled(cfg: Config, s: State, i: nat, t: State, text: string)
    requires i < |s.clients| && Clear(s.clients[i], s.buffer) && (t == s || t == SetPhase(s, i, Error))
    ensures var e := Transmit(cfg, t, s.clients[i].AsPeer(), Err(0, "Server", text));
            && e.clients == t.clients
            && Close(cfg, SetPhase(SetPhase(e, i, Error), i, End), i) ==
               Sends(cfg, s.(clients := Dismissed(s.clients, i)),
                     [Sent(s.clients[i].AsPeer(), Err(IdOf(|s.sent|), "Server", text))])
  {
    hide Close, IdOf, Dismissed, Sends, Transmit, Clear;
    var c := s.clients[i];
    var out := [Sent(c.AsPeer(), Err(IdOf(|s.sent|), "Server", text))];
    TransmitSends(cfg, t, c.AsPeer(), Err(0, "Server", text));
    SendsClients(cfg, t, out, t.clients);
    var f := SetPhase(Sends(cfg, t, out), i, Error);
    ClearKept(cfg, c, t, out);
    ClearAlike(c, f.clients[i], f.buffer);
    CloseMarked(cfg, f, i);
    DismissedAlike(s.clients, i, c.(phase := Error));
    assert f.clients == s.clients[i := c.(phase := Error)];
    SendsClients(cfg, t, out, Dismissed(s.clients, i));
  }

  lemma ClearAlike(c: Client, d: Client, b: seq<Pending>)
    requires Clear(c, b) && c.fd == d.fd && c.protocol == d.protocol
    ensures Clear(d, b)
  {
  }

  /** A REPLY, which only servers send, earns an open client an ERR and dismissal. */
  lemma Impersonating(cfg: Config, s: State, i: nat, m: Message)
    requires i < |s.clients| && s.clients[i].phase == Open && m.Reply? && Clear(s.clients[i], s.buffer)
    ensures Dispatch(cfg, s, i, m) ==
            Sends(cfg, s.(clients := Dismissed(s.clients, i)),
                  [Sent(s.clients[i].AsPeer(), Err(IdOf(|s.sent|), "Server", "Reply cannot be sent by client."))])
  {
    hide Close, IdOf, Dismissed, Sends, Transmit, Clear;
    var t := SetPhase(s, i, Error);
    Expelled(cfg, s, i, t, "Reply cannot be sent by client.");
    var e := Transmit(cfg, t, s.clients[i].AsPeer(), Err(0, "Server", "Reply cannot be sent by client."));
    assert SetPhase(e, i, Error) == e by { assert e.clients[i := e.clients[i]] == e.clients; }
  }

  /**
   BYE, in whatever phase: a client that was never authorized is sent an ERR; its circle hears it
   leave; it is dismissed without an answer.
   */
  lemma Departing(cfg: Config, s: State, i: nat, m: Message)
    requires Assembled(s.clients, i) && AtRest(s.clients[i]) && Clear(s.clients[i], s.buffer) && m.Bye?
    ensures var c, n := s.clients[i], |s.sent|;
            var err := (if c.phase == Accept
                        then [Sent(c.AsPeer(), Err(IdOf(n), "Server", "Client is not yet authorized."))] else []);
            Dispatch(cfg, s, i, m) ==
            Sends(cfg, s.(clients := Dismissed(s.clients, i)),
                  err + Relays(Audience(s.clients, i, 0, Circle(c)), "Server", LeaveText(c), n + |err|))
  {
    hide Forward, Relays, Audience, IdOf, Close, Assembled, Dismissed, Sends, Transmit, Clear, Circle;
    InAssembly(s.clients, i);
    var c, n := s.clients[i], |s.sent|;
    var err := if c.phase == Accept then [Sent(c.AsPeer(), Err(IdOf(n), "Server", "Client is not yet authorized."))] else [];
    var s1 := Check(cfg, s, i, m).0;
    if c.phase == Accept {
      TransmitSends(cfg, s, c.AsPeer(), Err(0, "Server", "Client is not yet authorized."));
    } else {
      SendsNone(cfg, s);
    }
    assert s1 == Sends(cfg, s, err);
    SendsClients(cfg, s, err, s.clients);
    ClearKept(cfg, c, s, err);
    assert s1.clients[i := c] == s1.clients && Update(s1, i, c) == s1;
    Announce(cfg, s1, i, c, Left(c));
    var out := Relays(Audience(s.clients, i, 0, Circle(c)), "Server", LeaveText(c), n + |err|);
    RelaysClear(cfg, s1, i, 0, "Server", LeaveText(c), c, n + |err|);
    SendsClients(cfg, s1, out, s1.clients);
    CloseMarked(cfg, Sends(cfg, s1, out), i);
    SendsAdd(cfg, s, err, out);
    SendsClients(cfg, s, err + out, Dismissed(s.clients, i));
  }

  // ----- What each message does, in every run -----

  /** What the case lemmas need, of the state in which a fresh message is dispatched. */
  lemma TakenFit(cfg: Config, es: seq<Event>, e: Event)
    requires Legal(cfg, es) && Arrives(Run(cfg, es), e) && !e.msg.Confirm? && (e.UdpOpen? ==> Unused(Run(cfg, es), e.fd))
    ensures var s := Run(cfg, es);
            var u, i := Taken(s, e), Arrival(s, e).1;
            var c := u.clients[i];
            && Assembled(u.clients, i) && AtRest(c) && Clear(c, u.buffer) && c.phase == Sender(s, e).phase
            && (c.phase == Open ==> !s.stopFlag && c.channel != "")
  {
    hide Run, Legal, Sound, Record, Unused;
    var s := Run(cfg, es);
    RunSound(cfg, es, false, false);
    ArrivalSound(cfg, s, e);
    var (t, i) := Arrival(s, e);
    SoundAddressed(cfg, t);
    AddressedClear(t.clients, t.buffer, i);
    ArrivalAssembled(cfg, es, e);
    Reassembled(t.clients, i, Taken(s, e).clients[i]);
    ClearAlike(t.clients[i], Taken(s, e).clients[i], t.buffer);
  }

  /** At every arrival in every run, everybody is at rest and nobody shares a descriptor. */
  lemma ArrivalAssembled(cfg: Config, es: seq<Event>, e: Event)
    requires Legal(cfg, es) && Arrives(Run(cfg, es), e) && (e.UdpOpen? ==> Unused(Run(cfg, es), e.fd))
    ensures var s := Run(cfg, es);
            var (t, i) := Arrival(s, e);
            Assembled(t.clients, i) && AtRest(t.clients[i]) && (t.clients[i].phase == Open ==> !s.stopFlag)
  {
    hide Run, Legal, Ledger, Addressed, Confirms, Farewells, Executions, Kept, Represents, Buried;
    RunSound(cfg, es, false, false);
    RunOrderly(cfg, es, false);
  }

  /**
   Channel isolation: in every run, a fresh MSG from an open client is sent once, name and content
   unchanged, to exactly the other open clients of its channel, in list order; the sender takes the
   name, and nothing else changes.
   */
  lemma Isolation(cfg: Config, es: seq<Event>, e: Event)
    requires Legal(cfg, es) && Fresh(Run(cfg, es), e) && e.msg.Msg? && (e.UdpOpen? ==> Unused(Run(cfg, es), e.fd))
    requires Sender(Run(cfg, es), e).phase == Open
    ensures var s, m := Run(cfg, es), e.msg;
            var u, i := Taken(s, e), Arrival(s, e).1;
            Step(cfg, s, e) ==
            Sends(cfg, u.(clients := u.clients[i := u.clients[i].(displayName := m.displayName)]),
                  Relays(Audience(u.clients, i, 0), m.displayName, m.content, |u.sent|))
  {
    hide Run, Legal, Recent, Dispatch, Step, Taken, Arrival, Unused, Sends, Relays, Audience, Assembled;
    TakenFit(cfg, es, e);
    FreshIsDispatched(cfg, es, e);
    Speaking(cfg, Taken(Run(cfg, es), e), Arrival(Run(cfg, es), e).1, e.msg);
  }

  /** JOIN of an open client, in every run: it leaves under its old name and joins under the new one. */
  lemma Moves(cfg: Config, es: seq<Event>, e: Event)
    requires Legal(cfg, es) && Fresh(Run(cfg, es), e) && e.msg.Join? && (e.UdpOpen? ==> Unused(Run(cfg, es), e.fd))
    requires Sender(Run(cfg, es), e).phase == Open && e.msg.channel != ""
    ensures var s, m := Run(cfg, es), e.msg;
            var u, i := Taken(s, e), Arrival(s, e).1;
            var c, n, text := u.clients[i], |u.sent|, "You joined " + m.channel + " channel.";
            var d := c.(channel := m.channel, displayName := m.displayName);
            var before, after := Audience(u.clients, i, 0), Audience(u.clients[i := d], i, 0);
            Step(cfg, s, e) ==
            Sends(cfg, u.(clients := u.clients[i := d]),
                  Relays(before, "Server", "User " + c.displayName + " left " + c.channel + ".", n)
                  + Relays(after, "Server", "User " + m.displayName + " joined " + m.channel + ".", n + |before|)
                  + [Sent(d.AsPeer(), Reply(IdOf(n + |before| + |after|), true, m.id, text))])
  {
    hide Run, Legal, Recent, Dispatch, Step, Taken, Arrival, Unused, Sends, Relays, Audience, Assembled, IdOf;
    TakenFit(cfg, es, e);
    FreshIsDispatched(cfg, es, e);
    Joining(cfg, Taken(Run(cfg, es), e), Arrival(Run(cfg, es), e).1, e.msg);
  }

  /** AUTH of an accepted client, in every run that was not interrupted: it is open, in the default channel. */
  lemma Admitted(cfg: Config, es: seq<Event>, e: Event)
    requires Legal(cfg, es) && Fresh(Run(cfg, es), e) && e.msg.Auth? && (e.UdpOpen? ==> Unused(Run(cfg, es), e.fd))
    requires Sender(Run(cfg, es), e).phase == Accept && !Run(cfg, es).stopFlag
    ensures var s, m := Run(cfg, es), e.msg;
            var u, i := Taken(s, e), Arrival(s, e).1;
            var d := u.clients[i].(username := m.username, displayName := m.displayName,
                                   channel := "default", phase := Open);
            var hearers, n := Audience(u.clients[i := d], i, 0), |u.sent|;
            Step(cfg, s, e) ==
            Sends(cfg, u.(clients := u.clients[i := d]),
                  Relays(hearers, "Server", "User " + m.displayName + " joined default.", n)
                  + [Sent(d.AsPeer(), Reply(IdOf(n + |hearers|), true, m.id, "Joined default channel."))])
  {
    hide Run, Legal, Recent, Dispatch, Step, Taken, Arrival, Unused, Sends, Relays, Audience, Assembled, IdOf;
    TakenFit(cfg, es, e);
    FreshIsDispatched(cfg, es, e);
    var u, i, m := Taken(Run(cfg, es), e), Arrival(Run(cfg, es), e).1, e.msg;
    Authorizing(cfg, u, i, m);
    var d := u.clients[i].(username := m.username, displayName := m.displayName, channel := "default");
    AudienceFrame(u.clients[i := d], i, d.(phase := Open));
    assert u.clients[i := d][i := d.(phase := Open)] == u.clients[i := d.(phase := Open)];
    assert JoinText(d) == "User " + m.displayName + " joined default.";
  }

  /** AUTH of an open client, in every run: NOK under its id, and no other effect. */
  lemma AdmittedOnce(cfg: Config, es: seq<Event>, e: Event)
    requires Legal(cfg, es) && Fresh(Run(cfg, es), e) && e.msg.Auth? && (e.UdpOpen? ==> Unused(Run(cfg, es), e.fd))
    requires Sender(Run(cfg, es), e).phase == Open
    ensures var s := Run(cfg, es);
            var u, c := Taken(s, e), Sender(s, e);
            var text := "User is already authorized as " + c.displayName;
            Step(cfg, s, e) == Sends(cfg, u, [Sent(c.AsPeer(), Reply(IdOf(|u.sent|), false, e.msg.id, text))])
  {
    hide Run, Legal, Recent, Dispatch, Step, Unused, Sends, Assembled, IdOf, Record;
    TakenFit(cfg, es, e);
    FreshIsDispatched(cfg, es, e);
    AuthorizingTwice(cfg, Taken(Run(cfg, es), e), Arrival(Run(cfg, es), e).1, e.msg);
  }

  /** ERR of an open client, in every run: it is confirmed and recorded, and that is all. */
  lemma ErrorNoted(cfg: Config, es: seq<Event>, e: Event)
    requires Legal(cfg, es) && Fresh(Run(cfg, es), e) && e.msg.Err? && (e.UdpOpen? ==> Unused(Run(cfg, es), e.fd))
    requires Sender(Run(cfg, es), e).phase == Open
    ensures Step(cfg, Run(cfg, es), e) == Taken(Run(cfg, es), e)
  {
    hide Run, Legal, Recent, Dispatch, Step, Taken, Arrival, Unused, Assembled;
    TakenFit(cfg, es, e);
    FreshIsDispatched(cfg, es, e);
    Complaining(cfg, Taken(Run(cfg, es), e), Arrival(Run(cfg, es), e).1, e.msg);
  }

  /**
   What a client may not say, in every run that was not interrupted: REPLY if it is open, anything but
   AUTH, BYE and CONFIRM if it is not authorized. It is sent one ERR, and is dismissed without a BYE.
   */
  lemma ThrownOut(cfg: Config, es: seq<Event>, e: Event)
    requires Legal(cfg, es) && Fresh(Run(cfg, es), e) && (e.UdpOpen? ==> Unused(Run(cfg, es), e.fd))
    requires var s, c := Run(cfg, es), Sender(Run(cfg, es), e);
             (c.phase == Open && e.msg.Reply?) || (c.phase == Accept && !s.stopFlag && !e.msg.Auth? && !e.msg.Bye?)
    ensures var s, c := Run(cfg, es), Sender(Run(cfg, es), e);
            var u, i := Taken(s, e), Arrival(s, e).1;
            var text := if c.phase == Open then "Reply cannot be sent by client." else "Client is not yet authorized.";
            Step(cfg, s, e) ==
            Sends(cfg, u.(clients := Dismissed(u.clients, i)), [Sent(c.AsPeer(), Err(IdOf(|u.sent|), "Server", text))])
  {
    hide Run, Legal, Recent, Dispatch, Step, Unused, Sends, Dismissed, Assembled, Clear, IdOf, Record;
    TakenFit(cfg, es, e);
    FreshIsDispatched(cfg, es, e);
    var u, i := Taken(Run(cfg, es), e), Arrival(Run(cfg, es), e).1;
    if u.clients[i].phase == Open { Impersonating(cfg, u, i, e.msg); } else { Trespassing(cfg, u, i, e.msg); }
  }

  /**
   BYE, in every run, interrupted or not, and in every phase: whoever hears the sender hears it leave;
   those are the other open clients of its channel, or, if it never had one, the other accepted clients.
   */
  lemma Leaves(cfg: Config, es: seq<Event>, e: Event)
    requires Legal(cfg, es) && Fresh(Run(cfg, es), e) && e.msg.Bye? && (e.UdpOpen? ==> Unused(Run(cfg, es), e.fd))
    ensures var s, c := Run(cfg, es), Sender(Run(cfg, es), e);
            var u, i := Taken(s, e), Arrival(s, e).1;
            var n, text := |u.sent|, "User " + c.displayName + " left " + c.channel + ".";
            var err := (if c.phase == Accept
                        then [Sent(c.AsPeer(), Err(IdOf(n), "Server", "Client is not yet authorized."))] else []);
            var hearers := Audience(u.clients, i, 0, if c.channel == "" then Accept else Open);
            Step(cfg, s, e) ==
            Sends(cfg, u.(clients := Dismissed(u.clients, i)), err + Relays(hearers, "Server", text, n + |err|))
  {
    hide Run, Legal, Recent, Dispatch, Step, Unused, Sends, Dismissed, Relays, Audience, Assembled, Clear, IdOf, Record;
    TakenFit(cfg, es, e);
    FreshIsDispatched(cfg, es, e);
    Departing(cfg, Taken(Run(cfg, es), e), Arrival(Run(cfg, es), e).1, e.msg);
  }
}
