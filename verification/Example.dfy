/** Concrete runs: one that meets every hypothesis of the theorems, and those that show why each is needed. */
module Example {
  import opened Types
  import opened DedupRing
  import opened Session
  import opened Books
  import opened Routines
  import opened Runs
  import opened Phases
  import opened Outcome
  import opened Delivery
  import opened Reaper
  import opened Timer
  import opened Shutdown
  import opened Expiry

  const ADDR := Addr(1, 1)
  const LOGIN := Auth(7, "u", "d", "s")
  const CFG := Config(250, 3)

  /** A UDP client logs in, and the server is interrupted. */
  const EVENTS := [UdpOpen(5, ADDR, LOGIN), Interrupt]

  function LoggedIn(): State {
    var c := Noted(Client(0, 5, Udp, ADDR, Open, "u", "d", "default", EMPTY, []), 7);
    var reply := Reply(IdOf(1), true, 7, "Joined default channel.");
    State([c], [Pending(1, c.AsPeer(), reply, 250, 0)], false, STOP_TIMEOUT, false, 1,
          [Sent(c.AsPeer(), Confirm(7)), Sent(c.AsPeer(), reply)], [], [], [(0, 7)], [Execution(0, 0, 7)])
  }

  function Interrupted(): State {
    var s := LoggedIn();
    var c := s.clients[0].(phase := End);
    s.(clients := [c], stopFlag := true, sent := s.sent + [Sent(c.AsPeer(), Bye(IdOf(2)))],
       buffer := s.buffer + [Pending(2, c.AsPeer(), Bye(IdOf(2)), 250, 0)])
  }

  lemma Login()
    ensures Step(CFG, Start(), EVENTS[0]) == LoggedIn()
  {
    hide Record, IdOf;
    var s := Enlist(Start(), Newcomer(Start(), 5, Udp, ADDR));
    var c := s.clients[0];
    assert !Contains(EMPTY, 7);
    var s1 := Transmit(CFG, s.(receipts := s.receipts + [(c.serial, 7)]), c.AsPeer(), Confirm(7));
    var s2 := Update(s1, 0, Noted(c, 7)).(executed := s1.executed + [Execution(c.serial, |c.seen|, 7)]);
    assert s2 == LoggedIn().(clients := [Noted(c, 7)], buffer := [], sent := [Sent(c.AsPeer(), Confirm(7))]);
    assert Step(CFG, Start(), EVENTS[0]) == Dispatch(CFG, s2, 0, LOGIN);
    var d := s2.clients[0].(username := "u", displayName := "d", channel := "default");
    var t := Update(s2, 0, d);
    assert Forward(CFG, t, d, Joined(d), 1) == t;
    assert Forward(CFG, t, d, Joined(d), 0) == t;
    assert Authorize(CFG, s2, 0, LOGIN) == SetPhase(t, 0, Open);
  }

  lemma Interruption()
    ensures Step(CFG, LoggedIn(), Interrupt) == Interrupted()
  {
    hide Record, IdOf;
    var s := LoggedIn().(stopFlag := true);
    var r := Close(CFG, s, 0);
    assert HangUp(CFG, r, 1) == r;
  }

  /** The hypotheses of `Expiry.ShutdownTerminates` hold, with two datagrams still unconfirmed. */
  lemma HypothesesMet()
    ensures Legal(CFG, EVENTS) && Narrow(CFG, EVENTS) && Sheltered(CFG, EVENTS) && NarrowInSilence(CFG, EVENTS)
    ensures Run(CFG, EVENTS) == Interrupted() && |Interrupted().buffer| == 2
  {
    hide Step, IdOf, Record;
    Login();
    Interruption();
    var first := [EVENTS[0]];
    assert first[..0] == [] && EVENTS[..1] == first;
    assert Run(CFG, []) == Start() && Run(CFG, first) == LoggedIn() && Run(CFG, EVENTS) == Interrupted();
    assert Legal(CFG, first) && Narrow(CFG, first) && Sheltered(CFG, first);
    assert Interrupted().clients[1..] == [];
    RoomySilence(CFG, EVENTS);
  }

  // ----- A BYE confirmed by another client -----

  /** After the interrupt somebody else confirms the BYE of the client that logged in. */
  const STRANGER := UdpOpen(6, Addr(2, 2), Confirm(2))

  lemma WaitingIds()
    ensures var b := Interrupted().buffer; b[0].Id() == 1 && b[1].Id() == 2 && b[1].msg.Bye?
    ensures |Interrupted().sent| == 3 && IdOf(3) == 3
  {
    IdOfIsMod(1);
    IdOfIsMod(2);
    IdOfIsMod(3);
  }

  /** The stranger as it is registered. */
  const GUEST := Client(1, 6, Udp, Addr(2, 2), Accept, "", "", "", EMPTY, [])

  lemma GuestArrives()
    ensures var s := Interrupted();
            && Arrives(s, STRANGER) && Unused(s, 6)
            && Arrival(s, STRANGER) == (s.(clients := s.clients + [GUEST], joined := 2), 1)
  {
    hide Record, IdOf;
  }

  lemma GuestEnds()
    ensures var s := Interrupted();
            var t, c := s.(clients := s.clients + [GUEST], joined := 2), GUEST.(phase := End);
            var r := Acknowledged(CFG, t, 1, 1);
            && r.clients == s.clients + [c]
            && r.retired == [ByConfirm(2, 2)]
            && r.sent == s.sent + [Sent(c.AsPeer(), Bye(3))]
            && r.buffer == [s.buffer[0], Pending(3, c.AsPeer(), Bye(3), 250, 0)]
  {
    hide IdOf, Record, Queued;
    WaitingIds();
    var s := Interrupted();
    assert s.buffer[..1] + s.buffer[2..] == [s.buffer[0]];
    GoodbyeQueued(CFG, GUEST, 3);
    assert (s.clients + [GUEST])[1 := GUEST.(phase := End)] == s.clients + [GUEST.(phase := End)];
  }

  /**
   The run is legal. The stranger's confirmation retires the other client's BYE; the stranger itself
   is ended and sent a BYE, which it has to confirm, and the client that logged in stays.
   */
  lemma ForeignFarewell()
    ensures Legal(CFG, EVENTS + [STRANGER])
    ensures var s, r, c := Interrupted(), Run(CFG, EVENTS + [STRANGER]), GUEST.(phase := End);
            && r.clients == s.clients + [c]
            && r.retired == [ByConfirm(2, 2)]
            && r.sent == s.sent + [Sent(c.AsPeer(), Bye(3))]
            && r.buffer == [s.buffer[0], Pending(3, c.AsPeer(), Bye(3), 250, 0)]
  {
    hide Run, Legal, Step, IdOf, Record, Acknowledged, Interrupted, Arrival, Unused, Arrives;
    var es := EVENTS + [STRANGER];
    HypothesesMet();
    WaitingIds();
    GuestArrives();
    assert es[..|es| - 1] == EVENTS && es[|es| - 1] == STRANGER;
    ExtendsRun(CFG, es);
    ConfirmTakesOne(CFG, EVENTS, STRANGER);
    GuestEnds();
  }

  lemma ExtendsRun(cfg: Config, es: seq<Event>)
    requires es != []
    ensures Run(cfg, es) == Step(cfg, Run(cfg, es[..|es| - 1]), es[|es| - 1])
    ensures Legal(cfg, es) <==> Legal(cfg, es[..|es| - 1]) && Admissible(Run(cfg, es[..|es| - 1]), es[|es| - 1])
  {
    hide Step, Admissible;
  }

  // ----- A datagram that nobody owns -----

  /** The error that an unparsable datagram on the welcome socket is answered with. */
  function Orphaned(cfg: Config): State {
    var x := Sent(Peer(-1, 3, Udp, ADDR), Err(IdOf(0), "Server", "Received message contains error."));
    Start().(sent := [x], buffer := [Pending(0, x.peer, x.msg, cfg.timeout, 0)])
  }

  lemma OneNoise(cfg: Config)
    ensures var es := [UdpNoise(3, ADDR)];
            Legal(cfg, es) && Narrow(cfg, es) && Run(cfg, es) == Orphaned(cfg)
  {
    hide IdOf;
    var es := [UdpNoise(3, ADDR)];
    assert es[..0] == [] && Run(cfg, []) == Start();
    assert Step(cfg, Start(), es[0]) == Orphaned(cfg);
  }

  /** Alone on the server the datagram only ages, until it is spent. */
  lemma {:induction false} AgesAlone(cfg: Config, s: State, n: nat)
    requires s.clients == [] && |s.buffer| == 1 && !s.stopped && s.buffer[0].retry <= cfg.retries
    requires n + 1 == Life(cfg, s.buffer[0])
    ensures var r := Ticks(cfg, s, n);
            r.clients == [] && |r.buffer| == 1 && |Doomed(cfg, r, 1)| == 1
    decreases n
  {
    hide Life, Aged, Spent, Tick, Doom, FindFd;
    OneTickOlder(cfg, s.buffer[0]);
    if n == 0 {
      OneDoomed(cfg, s);
    } else {
      TickAlone(cfg, s);
      AgesAlone(cfg, Step(cfg, s, Idle), n - 1);
    }
  }

  lemma OneDoomed(cfg: Config, s: State)
    requires |s.buffer| == 1 && Spent(cfg, s.buffer[0])
    ensures |Doomed(cfg, s, 1)| == 1
  {
    hide Spent, FindFd;
    assert Doomed(cfg, s, 0) == [];
    SweepDoom(cfg, s, 1);
  }

  lemma TickAlone(cfg: Config, s: State)
    requires s.clients == [] && |s.buffer| == 1 && !s.stopped && !Spent(cfg, s.buffer[0])
    ensures var r := Step(cfg, s, Idle); r.clients == [] && r.buffer == [Aged(cfg, s.buffer[0])] && !r.stopped
  {
    hide Aged, Spent;
    var t := Countdown(s);
    assert Doomed(cfg, t, 0) == [];
    SweepDoom(cfg, t, 1);
    NothingDoomed(cfg, Sweep(cfg, t, 1).0);
  }

  /**
   Whatever the configuration, a single unparsable datagram and silence make the destruction list
   of a server without clients longer than its array.
   */
  lemma DoomListOverflows(cfg: Config)
    ensures var p := Orphaned(cfg).buffer[0];
            var s := Run(cfg, [UdpNoise(3, ADDR)] + Silence(Life(cfg, p) - 1));
            && Legal(cfg, [UdpNoise(3, ADDR)] + Silence(Life(cfg, p) - 1))
            && |s.clients| == 0 && |Doomed(cfg, s, |s.buffer|)| == 1
  {
    hide Run, Legal, Narrow, Life, Ticks, Silence, IdOf, Doomed;
    var es, p := [UdpNoise(3, ADDR)], Orphaned(cfg).buffer[0];
    OneNoise(cfg);
    LifeBounded(cfg, p);
    AgesAlone(cfg, Orphaned(cfg), Life(cfg, p) - 1);
    RunTicks(cfg, es, Life(cfg, p) - 1);
    SilenceLegal(cfg, es, Life(cfg, p) - 1);
  }

  lemma NoiseThenInterrupt(cfg: Config)
    ensures var es := [UdpNoise(3, ADDR), Interrupt];
            Legal(cfg, es) && Narrow(cfg, es) && Run(cfg, es) == Orphaned(cfg).(stopFlag := true)
  {
    hide IdOf, Orphaned;
    var es := [UdpNoise(3, ADDR), Interrupt];
    OneNoise(cfg);
    assert es[..1] == [UdpNoise(3, ADDR)];
    assert Orphaned(cfg).clients == [] && !Orphaned(cfg).stopped && |Orphaned(cfg).sent| == 1 by { OrphanedShape(cfg); }
  }

  lemma OrphanedRoomy(cfg: Config)
    ensures Roomy(Orphaned(cfg).(stopFlag := true))
  {
    hide IdOf;
  }

  lemma OrphanedShape(cfg: Config)
    ensures var s := Orphaned(cfg);
            && s.clients == [] && !s.stopped && |s.sent| == 1 && |s.buffer| == 1
            && s.buffer[0].number == 0 && s.buffer[0].peer.fd == 3
  {
  }

  /** A server interrupted after such a datagram never stops in silence, although the run is legal and in the window. */
  lemma OrphanedServerHangs(cfg: Config, k: nat)
    ensures var es := [UdpNoise(3, ADDR), Interrupt];
            && Legal(cfg, es) && Narrow(cfg, es) && !Owned(Run(cfg, es).clients, Run(cfg, es).buffer)
            && !Run(cfg, es + Silence(k)).stopped
  {
    hide Run, Legal, Narrow, Ticks, Silence, IdOf, Orphaned, Sound;
    var es := [UdpNoise(3, ADDR), Interrupt];
    NoiseThenInterrupt(cfg);
    OrphanedShape(cfg);
    var s := Run(cfg, es);
    assert !HasFd(s.clients, s.buffer[0].peer.fd);
    RunSound(cfg, es, true, false);
    OrphanedRoomy(cfg);
    RoomyFits(cfg, s, false);
    OrphanHangs(cfg, s, 0, 3, k);
    RunTicks(cfg, es, k);
  }

  // ----- Beyond the id window -----

  /** `n` TCP clients connect and say nothing. */
  function Crowd(n: nat): seq<Event> {
    if n == 0 then [] else Crowd(n - 1) + [TcpAccept(n + 9, ADDR)]
  }

  function Silent(i: nat): Client { Client(i, i + 10, Tcp, ADDR, Accept, "", "", "", EMPTY, []) }

  function Crowded(n: nat): (s: State)
    ensures |s.clients| == n && forall i | 0 <= i < n :: s.clients[i] == Silent(i)
    ensures s == Start().(clients := s.clients, joined := n)
  {
    Start().(clients := seq(n, i requires 0 <= i < n => Silent(i)), joined := n)
  }

  lemma CrowdGrows(cfg: Config, n: nat)
    ensures Step(cfg, Crowded(n), TcpAccept(n + 10, ADDR)) == Crowded(n + 1)
    ensures Admissible(Crowded(n), TcpAccept(n + 10, ADDR))
  {
    hide Crowded;
    var s, r := Crowded(n), Step(cfg, Crowded(n), TcpAccept(n + 10, ADDR));
    assert r.clients == s.clients + [Silent(n)];
    assert r.clients == Crowded(n + 1).clients;
  }

  lemma {:induction false} CrowdRuns(cfg: Config, n: nat)
    ensures |Crowd(n)| == n && Legal(cfg, Crowd(n)) && Run(cfg, Crowd(n)) == Crowded(n)
  {
    hide Crowded, Step, Admissible;
    if n > 0 {
      CrowdRuns(cfg, n - 1);
      var es := Crowd(n);
      assert es[..|es| - 1] == Crowd(n - 1) && es[|es| - 1] == TcpAccept(n + 9, ADDR);
      CrowdGrows(cfg, n - 1);
    } else {
      assert Crowded(0).clients == [];
    }
  }

  /**
   The window is needed: when the first of 65537 silent TCP clients is still there and the last one
   hangs up, the first is unlinked in its place, and the last stays as an ended TCP client.
   */
  lemma WrongClientUnlinked(cfg: Config)
    ensures var es := Crowd(0x1_0001) + [Fin(0x1_000A)];
            var cs := Run(cfg, es).clients;
            && Legal(cfg, es)
            && |cs| == 0x1_0000 && cs[0xFFFF] == Silent(0x1_0000).(phase := End)
            && forall i | 0 <= i < |cs| :: cs[i].serial != 0
  {
    hide Crowded, Crowd, IdOf, Close;
    var n := 0x1_0001;
    var es, s := Crowd(n) + [Fin(0x1_000A)], Crowded(n);
    CrowdRuns(cfg, n);
    assert es[..|es| - 1] == Crowd(n) && es[|es| - 1] == Fin(0x1_000A);
    var i := FindFd(s.clients, 0x1_000A);
    assert s.clients[0x1_0000].fd == 0x1_000A;
    assert i == 0x1_0000;
    CloseClients(cfg, s, i);
    IdOfIsMod(0);
    IdOfIsMod(0x1_0000);
    assert s.clients[0].Id() == s.clients[i].Id();
    assert Run(cfg, es) == Close(cfg, s, i);
  }
}
