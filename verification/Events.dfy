/** What every event but a message and an idle tick does to the whole state, in every run. */
module Events {
  import opened Types
  import opened DedupRing
  import opened Session
  import opened Books
  import opened Routines
  import opened Runs
  import opened Phases
  import opened Outcome
  import opened Delivery

  /** After the server has stopped, nothing happens any more. */
  lemma StoppedForGood(cfg: Config, es: seq<Event>, e: Event)
    requires Run(cfg, es).stopped
    ensures Run(cfg, es + [e]) == Run(cfg, es)
  {
    hide Admit, Hear, Grumble, Tick, Close, HangUp, Transmit;
    assert (es + [e])[..|es|] == es;
  }

  /** A TCP connection becomes an accepted client without a name or a channel, at the end of the list. */
  lemma Accepts(cfg: Config, s: State, fd: int, addr: Addr)
    requires !s.stopped
    ensures Step(cfg, s, TcpAccept(fd, addr)) ==
            s.(clients := s.clients + [Client(s.joined, fd, Tcp, addr, Accept, "", "", "", EMPTY, [])],
               joined := s.joined + 1)
  {
  }

  /** A first datagram from the address of a client is answered with an ERR on its new descriptor, and dropped. */
  lemma Refuses(cfg: Config, s: State, fd: int, addr: Addr, m: Message)
    requires !s.stopped && exists c | c in s.clients :: c.addr == addr
    ensures Step(cfg, s, UdpOpen(fd, addr, m)) ==
            Sends(cfg, s,
                  [Sent(Peer(-1, fd, Udp, addr), Err(IdOf(|s.sent|), "Server", "This address is currently in use."))])
  {
    hide IdOf, Process, Sends, Transmit;
    var c :| c in s.clients && c.addr == addr;
    var i :| 0 <= i < |s.clients| && s.clients[i] == c;
    TransmitSends(cfg, s, Peer(-1, fd, Udp, addr), Err(0, "Server", "This address is currently in use."));
  }

  /** An unparsable datagram on the welcome socket is answered with an ERR that nobody owns. */
  lemma WelcomeNoise(cfg: Config, s: State, fd: int, addr: Addr)
    requires !s.stopped
    ensures Step(cfg, s, UdpNoise(fd, addr)) ==
            Sends(cfg, s, [Sent(Peer(-1, fd, Udp, addr), Err(IdOf(|s.sent|), "Server", "Received message contains error."))])
  {
    hide IdOf, Sends, Transmit;
    TransmitSends(cfg, s, Peer(-1, fd, Udp, addr), Err(0, "Server", "Received message contains error."));
  }

  /** An unparsable message of a client is answered with an ERR; a datagram leaves its address. */
  lemma ClientNoise(cfg: Config, s: State, i: nat, addr: Addr)
    requires !s.stopped && i < |s.clients| && forall j | 0 <= j < i :: s.clients[j].fd != s.clients[i].fd
    ensures var c := s.clients[i];
            var d := if c.protocol == Udp then c.(addr := addr) else c;
            Step(cfg, s, Noise(c.fd, addr)) ==
            Sends(cfg, s.(clients := s.clients[i := d]),
                  [Sent(d.AsPeer(), Err(IdOf(|s.sent|), "Server", "Received message contains error."))])
  {
    hide IdOf, Sends, Transmit;
    var d := Heard(s.clients[i], addr);
    assert FindFd(s.clients, s.clients[i].fd) == i;
    TransmitSends(cfg, Update(s, i, d), d.AsPeer(), Err(0, "Server", "Received message contains error."));
  }

  /** Nothing is read from a descriptor that no client has. */
  lemma NobodyThere(cfg: Config, s: State, fd: int, addr: Addr, m: Message)
    requires !s.stopped && forall c | c in s.clients :: c.fd != fd
    ensures Step(cfg, s, Receive(fd, addr, m)) == s && Step(cfg, s, Noise(fd, addr)) == s && Step(cfg, s, Fin(fd)) == s
  {
    hide Process, Transmit, Close;
    assert FindFd(s.clients, fd) == |s.clients|;
  }

  // ----- FIN -----

  lemma RunFinds(cfg: Config, es: seq<Event>, i: nat)
    requires Legal(cfg, es) && i < |Run(cfg, es).clients|
    ensures var s := Run(cfg, es); FindFd(s.clients, s.clients[i].fd) == i && Clear(s.clients[i], s.buffer)
  {
    hide Run, Legal, Ledger, Confirms, Farewells, Executions, Kept, Represents;
    RunSound(cfg, es, false, false);
  }

  /**
   FIN of a TCP client in any phase, in every run: it is sent a BYE unless it had ended, it is
   dismissed, and nothing leaves the buffer; in the window it is gone, and nobody else is. A UDP
   client has no FIN.
   */
  lemma HangsUp(cfg: Config, es: seq<Event>, i: nat)
    requires Legal(cfg, es) && !Run(cfg, es).stopped && i < |Run(cfg, es).clients|
    ensures var s := Run(cfg, es);
            var c := s.clients[i];
            && (c.protocol == Udp ==> Step(cfg, s, Fin(c.fd)) == s)
            && (c.protocol == Tcp ==>
                  && Step(cfg, s, Fin(c.fd)) ==
                     Sends(cfg, s.(clients := Dismissed(s.clients, i)),
                           if c.phase == End then [] else [Sent(c.AsPeer(), Bye(IdOf(|s.sent|)))])
                  && (Narrow(cfg, es) ==> Dismissed(s.clients, i) == s.clients[..i] + s.clients[i + 1..]))
  {
    hide Run, Legal, Narrow, IdOf, Sends, Dismissed, Close, Clear;
    var s := Run(cfg, es);
    RunFinds(cfg, es, i);
    CloseWhole(cfg, s, i);
    if Narrow(cfg, es) && s.clients[i].protocol == Tcp { DismissedGone(cfg, es, i); }
  }

  lemma DismissedGone(cfg: Config, es: seq<Event>, i: nat)
    requires Legal(cfg, es) && Narrow(cfg, es) && i < |Run(cfg, es).clients| && Run(cfg, es).clients[i].protocol == Tcp
    ensures Dismissed(Run(cfg, es).clients, i) == Run(cfg, es).clients[..i] + Run(cfg, es).clients[i + 1..]
  {
    hide Run, Legal, Narrow, Sound, FindClientId, IdOf;
    var s := Run(cfg, es);
    RunSound(cfg, es, true, false);
    WindowFinds(cfg, s, i, Window(Oldest(s), false));
    WindowUnlinks(s.clients, i);
  }

  lemma WindowUnlinks(cs: seq<Client>, i: nat)
    requires i < |cs| && cs[i].protocol == Tcp && FindClientId(cs, cs[i].Id()) == i
    ensures Dismissed(cs, i) == cs[..i] + cs[i + 1..]
  {
    hide FindClientId, IdOf;
    SameFound(cs, cs[i := cs[i].(phase := End)], cs[i].Id());
  }

  // ----- SIGINT -----

  /** One BYE to each client that has not ended, in list order, numbered from `n`. */
  function Goodbyes(cs: seq<Client>, n: nat): seq<Sent>
    decreases |cs|
  {
    if cs == [] then []
    else if cs[0].phase == End then Goodbyes(cs[1..], n)
    else [Sent(cs[0].AsPeer(), Bye(IdOf(n)))] + Goodbyes(cs[1..], n + 1)
  }

  /** The UDP clients, all of them ended. */
  function Survivors(cs: seq<Client>): seq<Client> {
    if cs == [] then []
    else (if cs[0].protocol == Udp then [cs[0].(phase := End)] else []) + Survivors(cs[1..])
  }

  /** What closing the client at position `i` does to those before and after it, whatever is unlinked. */
  lemma DismissedAround(cs: seq<Client>, i: nat)
    requires i < |cs| && forall j | 0 <= j < i :: cs[j].phase == End
    ensures var ds := Dismissed(cs, i);
            var k := if cs[i].protocol == Tcp then i else i + 1;
            && k <= |ds| && ds[k..] == cs[i + 1..] && forall j | 0 <= j < k :: ds[j].phase == End
  {
    hide IdOf, FindClientId;
    var ended := cs[i := cs[i].(phase := End)];
    SameFound(cs, ended, cs[i].Id());
    var m := FindClientId(ended, cs[i].Id());
    if cs[i].protocol == Tcp {
      assert m <= i;
      var ds := Without(ended, m);
      assert ds[i..] == cs[i + 1..];
    }
  }

  lemma GoodbyesUnfold(cs: seq<Client>, i: nat, n: nat)
    requires i < |cs|
    ensures Goodbyes(cs[i..], n) == Goodbye(cs[i], n) + Goodbyes(cs[i + 1..], n + |Goodbye(cs[i], n)|)
  {
    hide IdOf;
    assert cs[i..][1..] == cs[i + 1..] && cs[i..][0] == cs[i];
  }

  /** The handler from position `i`, when everybody before it has ended. */
  lemma {:induction false} HangUpWhole(cfg: Config, s: State, i: nat)
    requires Sound(cfg, s, Free) && i <= |s.clients| && forall j | 0 <= j < i :: s.clients[j].phase == End
    ensures var r := HangUp(cfg, s, i);
            && r == Sends(cfg, s.(clients := r.clients), Goodbyes(s.clients[i..], |s.sent|))
            && forall j | 0 <= j < |r.clients| :: r.clients[j].phase == End
    decreases |s.clients| - i
  {
    hide Sound, Close, IdOf, Sends, Dismissed, Goodbyes, Goodbye, Clear;
    var cs, n := s.clients, |s.sent|;
    if i == |cs| {
      assert cs[i..] == [];
      NoGoodbyes(n);
      SendsNone(cfg, s);
    } else {
      var c, bye := cs[i], Goodbye(cs[i], n);
      GoodbyesUnfold(cs, i, n);
      if c.phase == End {
        HangUpWhole(cfg, s, i + 1);
        NoGoodbye(c, n);
        assert [] + Goodbyes(cs[i + 1..], n) == Goodbyes(cs[i + 1..], n);
      } else {
        var t := Close(cfg, s, i);
        CloseSound(cfg, s, i, Free);
        CloseShape(cfg, s, i);
        SoundAddressed(cfg, s);
        AddressedClear(cs, s.buffer, i);
        CloseWhole(cfg, s, i);
        DismissedAround(cs, i);
        var u := s.(clients := Dismissed(cs, i));
        SendsClients(cfg, u, bye, u.clients);
        HangUpWhole(cfg, t, if c.protocol == Tcp then i else i + 1);
        var r := HangUp(cfg, s, i);
        SendsClients(cfg, u, bye, r.clients);
        SendsAdd(cfg, s.(clients := r.clients), bye, Goodbyes(cs[i + 1..], n + |bye|));
      }
    }
  }

  lemma NoGoodbyes(n: nat)
    ensures Goodbyes([], n) == []
  {
  }

  lemma NoGoodbye(c: Client, n: nat)
    requires c.phase == End
    ensures Goodbye(c, n) == []
  {
  }

  lemma SurvivorsUnfold(cs: seq<Client>, i: nat)
    requires i < |cs|
    ensures Survivors(cs[i..]) == (if cs[i].protocol == Udp then [cs[i].(phase := End)] else []) + Survivors(cs[i + 1..])
  {
    assert cs[i..][1..] == cs[i + 1..] && cs[i..][0] == cs[i];
  }

  /** In the window only UDP clients are left. */
  lemma {:induction false} HangUpLeaves(cfg: Config, s: State, i: nat, w: Scope)
    requires Sound(cfg, s, w) && w.Window? && i <= |s.clients| && Room(w, HangUp(cfg, s, i).sent)
    requires forall j | i <= j < |s.clients| :: s.clients[j].phase == End ==> s.clients[j].protocol == Udp
    ensures HangUp(cfg, s, i).clients == s.clients[..i] + Survivors(s.clients[i..])
    decreases |s.clients| - i
  {
    hide Sound, Close, Survivors;
    var cs := s.clients;
    if i == |cs| {
      assert cs[i..] == [] && cs[..i] == cs;
      NoSurvivors();
    } else {
      var c := cs[i];
      SurvivorsUnfold(cs, i);
      if c.phase == End {
        HangUpLeaves(cfg, s, i + 1, w);
        assert c.(phase := End) == c && cs[..i + 1] == cs[..i] + [c];
      } else {
        var t := Close(cfg, s, i);
        CloseShape(cfg, s, i);
        CloseSound(cfg, s, i, w);
        CloseEffect(cfg, s, i, w);
        if c.protocol == Tcp {
          assert t.clients[..i] == cs[..i] && t.clients[i..] == cs[i + 1..];
          HangUpLeaves(cfg, t, i, w);
        } else {
          assert t.clients[..i + 1] == cs[..i] + [c.(phase := End)] && t.clients[i + 1..] == cs[i + 1..];
          HangUpLeaves(cfg, t, i + 1, w);
        }
      }
    }
  }

  lemma NoSurvivors()
    ensures Survivors([]) == []
  {
  }

  /**
   SIGINT, in every run: the stop flag is set, each client that had not ended is sent one BYE, in list
   order, and nothing else is sent; a BYE at UDP has to be confirmed and nothing leaves the buffer;
   everybody who is still listed has ended.
   */
  lemma Interrupted(cfg: Config, es: seq<Event>)
    requires Legal(cfg, es) && !Run(cfg, es).stopped
    ensures var s, r := Run(cfg, es), Step(cfg, Run(cfg, es), Interrupt);
            && r == Sends(cfg, s.(stopFlag := true, clients := r.clients), Goodbyes(s.clients, |s.sent|))
            && forall j | 0 <= j < |r.clients| :: r.clients[j].phase == End
  {
    hide Run, Legal, Sound, HangUp, Sends, Goodbyes;
    var s := Run(cfg, es);
    RunSound(cfg, es, false, false);
    TimersSound(cfg, s, s.(stopFlag := true), Free);
    HangUpWhole(cfg, s.(stopFlag := true), 0);
    assert s.clients[0..] == s.clients;
  }

  /** In the window the clients left after SIGINT are exactly the UDP ones, in order. */
  lemma InterruptLeaves(cfg: Config, es: seq<Event>)
    requires Legal(cfg, es) && Narrow(cfg, es + [Interrupt]) && !Run(cfg, es).stopped
    ensures Step(cfg, Run(cfg, es), Interrupt).clients == Survivors(Run(cfg, es).clients)
  {
    hide Run, Legal, Sound, HangUp, Survivors;
    assert (es + [Interrupt])[..|es|] == es;
    var s := Run(cfg, es);
    var t := s.(stopFlag := true);
    RunSound(cfg, es, true, false);
    var w := Window(Oldest(s), false);
    TimersSound(cfg, s, t, w);
    forall j | 0 <= j < |s.clients| ensures s.clients[j].phase == End ==> s.clients[j].protocol == Udp {
      EndedIsUdp(cfg, es, j);
    }
    HangUpLeaves(cfg, t, 0, w);
    assert s.clients[0..] == s.clients && s.clients[..0] == [];
  }
}
