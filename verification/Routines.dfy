/** The invariant survives every routine, and hence every event of every run. */
module Routines {
  import opened Types
  import opened DedupRing
  import opened Session
  import opened Books

  lemma {:induction false} ForwardSound(cfg: Config, s: State, from: Client, m: Message, j: nat, w: Scope)
    requires Sound(cfg, s, w) && j <= |s.clients| && !m.Confirm? && !m.Bye?
    requires Room(w, Forward(cfg, s, from, m, j).sent)
    ensures Sound(cfg, Forward(cfg, s, from, m, j), w)
    decreases |s.clients| - j
  {
    hide Sound, Reachable;
    if j < |s.clients| {
      var c := s.clients[j];
      var t := if Reaches(from, from.channel, c) then Transmit(cfg, s, c.AsPeer(), m) else s;
      if t != s {
        ClientReachable(cfg, s, j, w);
        TransmitSound(cfg, s, c.AsPeer(), m, w);
      }
      ForwardSound(cfg, t, from, m, j + 1, w);
    }
  }

  // ----- Deletion -----

  ghost predicate DistinctIds(b: seq<Pending>) {
    forall i, j | 0 <= i < j < |b| :: b[i].Id() != b[j].Id()
  }

  lemma WindowDistinct(cfg: Config, s: State, w: Scope)
    requires Sound(cfg, s, w) && w.Window?
    ensures DistinctIds(s.buffer)
  {
    hide Conserved, Repeats, Numbered, Confirmed, Roll, Addressed, Confirms, Farewells, Executions, IdOf;
    forall i, j | 0 <= i < j < |s.buffer| ensures s.buffer[i].Id() != s.buffer[j].Id() {
      IdsDiffer(s.buffer[i].number, s.buffer[j].number);
    }
  }

  lemma SpreadDistinct(cs: seq<Client>, joined: nat, i: nat)
    requires Roll(cs, joined) && Spread(cs) && i < |cs|
    ensures FindClientId(cs, cs[i].Id()) == i
  {
    hide IdOf, Represents;
    var k := FindClientId(cs, cs[i].Id());
    if k < i { IdsDiffer(cs[k].serial, cs[i].serial); }
  }

  /** The datagrams not sent on `fd`, in order. */
  function Others(b: seq<Pending>, fd: int): seq<Pending> {
    if b == [] then []
    else (if b[0].peer.fd == fd then [] else [b[0]]) + Others(b[1..], fd)
  }

  lemma {:induction false} OthersAre(b: seq<Pending>, fd: int)
    ensures forall p :: p in Others(b, fd) <==> p in b && p.peer.fd != fd
  {
    if b != [] { OthersAre(b[1..], fd); }
  }

  lemma DistinctWithout(b: seq<Pending>, k: nat)
    requires DistinctIds(b) && k < |b|
    ensures DistinctIds(Without(b, k)) && FindId(b, b[k].Id()) == k
    ensures Without(b, k)[..k] == b[..k] && Without(b, k)[k..] == b[k..][1..]
  {
    hide IdOf, FindId;
    var w := Without(b, k);
    forall i, j | 0 <= i < j < |w| ensures w[i].Id() != w[j].Id() {
      assert b[if i < k then i else i + 1].Id() != b[if j < k then j else j + 1].Id();
    }
  }

  lemma OthersUnfold(b: seq<Pending>, fd: int)
    ensures Others(b, fd) == if b == [] then [] else (if b[0].peer.fd == fd then [] else [b[0]]) + Others(b[1..], fd)
  {
  }

  /** With distinct ids, removing by id while iterating removes exactly the datagrams on `fd`. */
  lemma {:induction false} PurgeExact(s: State, c: Client, k: nat)
    requires DistinctIds(s.buffer) && k <= |s.buffer|
    ensures Purge(s, c, k).buffer == s.buffer[..k] + Others(s.buffer[k..], c.fd)
    decreases |s.buffer| - k
  {
    hide DistinctIds, FindId, Without, Others, Purge;
    var b := s.buffer;
    PurgeUnfold(s, c, k);
    if k == |b| {
      OthersUnfold([], c.fd);
      assert b[..k] == b && b[k..] == [];
    } else if b[k].peer.fd == c.fd {
      DistinctWithout(b, k);
      PurgeExact(Drop(s, k, WithClient(b[k].number, c.serial, c.fd)), c, k);
      OthersUnfold(b[k..], c.fd);
      assert b[k..][0] == b[k];
    } else {
      PurgeExact(s, c, k + 1);
      PassOver(b, c.fd, k);
    }
  }

  lemma PassOver(b: seq<Pending>, fd: int, k: nat)
    requires k < |b| && b[k].peer.fd != fd
    ensures b[..k + 1] + Others(b[k + 1..], fd) == b[..k] + Others(b[k..], fd)
  {
    hide Others;
    OthersUnfold(b[k..], fd);
    assert b[k..][0] == b[k] && b[k..][1..] == b[k + 1..];
    assert b[..k + 1] == b[..k] + [b[k]];
  }

  lemma {:induction false} PurgeSound(cfg: Config, s: State, c: Client, k: nat, w: Scope)
    requires Sound(cfg, s, w) && k <= |s.buffer|
    ensures Sound(cfg, Purge(s, c, k), w)
    decreases |s.buffer| - k
  {
    hide Sound, IdOf;
    if k < |s.buffer| {
      if s.buffer[k].peer.fd == c.fd {
        var j := FindId(s.buffer, s.buffer[k].Id());
        if w.Window? { WindowDistinct(cfg, s, w); }
        var e := WithClient(s.buffer[j].number, c.serial, c.fd);
        RetireSound(cfg, s, j, e, w);
        PurgeSound(cfg, Drop(s, j, e), c, k, w);
      } else {
        PurgeSound(cfg, s, c, k + 1, w);
      }
    }
  }

  /** In the window, `delete_client` takes away the client and its datagrams and nothing else. */
  lemma DeleteExact(cfg: Config, s: State, i: nat, w: Scope)
    requires Sound(cfg, s, w) && w.Window? && i < |s.clients|
    ensures Delete(s, i).clients == Without(s.clients, i)
    ensures Delete(s, i).buffer == Others(s.buffer, s.clients[i].fd)
  {
    hide Sound, Purge, FindClientId, DistinctIds;
    WindowDistinct(cfg, s, w);
    PurgeExact(s, s.clients[i], 0);
    assert s.buffer[..0] == [] && s.buffer[0..] == s.buffer;
    WindowFinds(cfg, s, i, w);
  }

  lemma DeleteSound(cfg: Config, s: State, i: nat, w: Scope)
    requires Sound(cfg, s, w) && i < |s.clients|
    ensures Sound(cfg, Delete(s, i), w)
  {
    hide Sound, Purge, IdOf;
    PurgeSound(cfg, s, s.clients[i], 0, w);
    var r := Purge(s, s.clients[i], 0);
    var k := FindClientId(r.clients, s.clients[i].Id());
    if w.Window? {
      DeleteExact(cfg, s, i, w);
      assert r.buffer == Others(s.buffer, s.clients[i].fd);
      WindowFinds(cfg, s, i, w);
      OthersAre(s.buffer, s.clients[i].fd);
      forall j | 0 <= j < |r.buffer| ensures r.buffer[j].peer.fd != s.clients[k].fd {
        assert r.buffer[j] in r.buffer;
      }
    }
    RemoveSound(cfg, r, k, w);
  }

  lemma WindowFinds(cfg: Config, s: State, i: nat, w: Scope)
    requires Sound(cfg, s, w) && w.Window? && i < |s.clients|
    ensures FindClientId(s.clients, s.clients[i].Id()) == i
  {
    hide Ledger, Addressed, Confirms, Farewells, Executions, Roll, Spread;
    SpreadDistinct(s.clients, s.joined, i);
  }

  lemma CloseSound(cfg: Config, s: State, i: nat, w: Scope)
    requires Sound(cfg, s, w) && i < |s.clients|
    requires Room(w, Close(cfg, s, i).sent)
    ensures Sound(cfg, Close(cfg, s, i), w)
  {
    hide Sound, Farewell, Delete;
    FarewellSound(cfg, s, i, w);
    DeleteSound(cfg, Farewell(cfg, s, i), i, w);
  }

  // ----- Messages -----

  lemma AcknowledgeSound(cfg: Config, s: State, i: nat, ref: nat, w: Scope)
    requires Sound(cfg, s, w) && i < |s.clients|
    requires Room(w, Acknowledge(cfg, s, i, ref).sent)
    ensures Sound(cfg, Acknowledge(cfg, s, i, ref), w)
  {
    hide Sound, Close, IdOf;
    var k := FindId(s.buffer, ref);
    if k < |s.buffer| {
      var e := ByConfirm(s.buffer[k].number, ref);
      RetireSound(cfg, s, k, e, w);
      if s.buffer[k].msg.Bye? {
        CloseSound(cfg, Drop(s, k, e), i, w);
      }
    }
  }

  /** Updating a client and telling its channel. */
  lemma AnnounceSound(cfg: Config, s: State, i: nat, c: Client, m: Message, w: Scope)
    requires Sound(cfg, s, w) && i < |s.clients| && !m.Confirm? && !m.Bye?
    requires var d := s.clients[i];
             SameIdentity(d, c) && c.ring == d.ring && c.seen == d.seen && (d.phase == End ==> c.phase == End)
    requires Room(w, Forward(cfg, Update(s, i, c), c, m, 0).sent)
    ensures var r := Forward(cfg, Update(s, i, c), c, m, 0);
            Sound(cfg, r, w) && r == s.(clients := s.clients[i := c], sent := r.sent, buffer := r.buffer)
  {
    hide Sound, Forward;
    UpdateSound(cfg, s, i, c, w);
    ForwardSound(cfg, Update(s, i, c), c, m, 0, w);
    ForwardKeepsClients(cfg, Update(s, i, c), c, m, 0);
  }

  lemma ExecuteSound(cfg: Config, s: State, i: nat, m: Message, w: Scope)
    requires Sound(cfg, s, w) && i < |s.clients|
    requires s.clients[i].phase == End ==> m.Bye? || m.Confirm?
    requires Room(w, Execute(cfg, s, i, m).0.sent)
    ensures Sound(cfg, Execute(cfg, s, i, m).0, w)
  {
    hide Sound, Forward, Close, Acknowledge;
    var c := s.clients[i];
    match m
    case Confirm(ref) => AcknowledgeSound(cfg, s, i, ref, w);
    case Reply(_, _, _, _) => PhaseSound(cfg, s, i, Error, w);
    case Auth(_, user, name, _) =>
      if c.phase != Open && c.phase != Error {
        var d := c.(username := user, displayName := name, channel := "default");
        AnnounceSound(cfg, s, i, d, Joined(d), w);
        PhaseSound(cfg, Forward(cfg, Update(s, i, d), d, Joined(d), 0), i, Open, w);
      }
    case Join(_, channel, name) =>
      assert Update(s, i, c) == s;
      AnnounceSound(cfg, s, i, c, Left(c), w);
      var l := NotifyLeave(cfg, s, i);
      var d := c.(channel := channel, displayName := name);
      AnnounceSound(cfg, l, i, d, Joined(d), w);
      PhaseSound(cfg, Forward(cfg, Update(l, i, d), d, Joined(d), 0), i, Open, w);
    case Msg(_, name, _) =>
      var d := c.(displayName := name);
      AnnounceSound(cfg, s, i, d, m, w);
      PhaseSound(cfg, Forward(cfg, Update(s, i, d), d, m, 0), i, Open, w);
    case Err(_, _, _) =>
    case Bye(_) =>
      assert Update(s, i, c) == s;
      AnnounceSound(cfg, s, i, c, Left(c), w);
      var l := NotifyLeave(cfg, s, i);
      PhaseSound(cfg, l, i, End, w);
      CloseSound(cfg, SetPhase(l, i, End), i, w);
  }

  lemma DispatchSound(cfg: Config, s: State, i: nat, m: Message, w: Scope)
    requires Sound(cfg, s, w) && i < |s.clients|
    requires s.clients[i].phase == End ==> m.Bye? || m.Confirm?
    requires Room(w, Dispatch(cfg, s, i, m).sent)
    ensures Sound(cfg, Dispatch(cfg, s, i, m), w)
  {
    hide Sound, Reachable, Execute, Close, Transmit;
    ClientReachable(cfg, s, i, w);
    var (s1, ok) := Check(cfg, s, i, m);
    if s1 != s {
      TransmitSound(cfg, s, s.clients[i].AsPeer(), Err(0, "Server", "Client is not yet authorized."), w);
    }
    var s2 := s1;
    if ok {
      var (e, answer) := Execute(cfg, s1, i, m);
      ExecuteSound(cfg, s1, i, m, w);
      s2 := e;
      if answer.Some? {
        ClientReachable(cfg, e, i, w);
        TransmitSound(cfg, e, e.clients[i].AsPeer(), answer.value, w);
        s2 := Transmit(cfg, e, e.clients[i].AsPeer(), answer.value);
      }
    } else {
      PhaseSound(cfg, s1, i, Error, w);
      s2 := SetPhase(s1, i, Error);
    }
    if !m.Bye? && !m.Confirm? && s2.clients[i].phase == Error {
      PhaseSound(cfg, s2, i, End, w);
      CloseSound(cfg, SetPhase(s2, i, End), i, w);
    }
  }

  lemma ProcessSound(cfg: Config, s: State, i: nat, m: Message, w: Scope)
    requires Sound(cfg, s, w) && i < |s.clients|
    requires Room(w, Process(cfg, s, i, m).sent)
    ensures Sound(cfg, Process(cfg, s, i, m), w)
  {
    hide Sound, Reachable, Dispatch, Contains, Record;
    var c, id := s.clients[i], m.MessageId();
    if c.protocol == Udp && !m.Confirm? {
      ClientReachable(cfg, s, i, w);
      var s1 := Transmit(cfg, s.(receipts := s.receipts + [(c.serial, id)]), c.AsPeer(), Confirm(id));
      ConfirmSound(cfg, s, c.AsPeer(), id, w);
      if !Contains(c.ring, id) {
        var s2 := Update(s1, i, Noted(c, id));
        if Ignored(s2, c, m) {
          NotedSound(cfg, s1, i, id, w);
        } else {
          ExecutionSound(cfg, s1, i, id, w);
          DispatchSound(cfg, s2.(executed := s2.executed + [Execution(c.serial, |c.seen|, id)]), i, m, w);
        }
      }
    } else if !Ignored(s, c, m) {
      DispatchSound(cfg, s, i, m, w);
    }
  }

  // ----- Idle time and interrupt -----

  lemma DestroySound(cfg: Config, s: State, fd: int, w: Scope)
    requires Sound(cfg, s, w)
    requires Room(w, Destroy(cfg, s, fd).sent)
    ensures Sound(cfg, Destroy(cfg, s, fd), w)
  {
    hide Sound, Close, Delete, Forward;
    var i := FindFd(s.clients, fd);
    if i == |s.clients| {
    } else if s.clients[i].phase == End {
      DeleteSound(cfg, s, i, w);
    } else {
      var r := Close(cfg, s, i);
      CloseSound(cfg, s, i, w);
      if s.clients[i].protocol == Udp {
        CloseShape(cfg, s, i);
        ForwardSound(cfg, r, r.clients[i], Left(r.clients[i]), 0, w);
      }
    }
  }

  lemma {:induction false} DestroyAllSound(cfg: Config, s: State, doomed: seq<Option<int>>, w: Scope)
    requires Sound(cfg, s, w)
    requires Room(w, DestroyAll(cfg, s, doomed).sent)
    ensures Sound(cfg, DestroyAll(cfg, s, doomed), w)
    decreases |doomed|
  {
    hide Sound, Destroy;
    if doomed != [] {
      var t := if doomed[0].Some? then Destroy(cfg, s, doomed[0].value) else s;
      if doomed[0].Some? { DestroySound(cfg, s, doomed[0].value, w); }
      DestroyAllSound(cfg, t, doomed[1..], w);
    }
  }

  lemma {:induction false} HangUpSound(cfg: Config, s: State, i: nat, w: Scope)
    requires Sound(cfg, s, w) && i <= |s.clients|
    requires Room(w, HangUp(cfg, s, i).sent)
    ensures Sound(cfg, HangUp(cfg, s, i), w)
    decreases |s.clients| - i
  {
    hide Sound, Close;
    if i == |s.clients| {
    } else if s.clients[i].phase == End {
      HangUpSound(cfg, s, i + 1, w);
    } else {
      CloseShape(cfg, s, i);
      CloseSound(cfg, s, i, w);
      HangUpSound(cfg, Close(cfg, s, i), if s.clients[i].protocol == Tcp then i else i + 1, w);
    }
  }

  // ----- Events -----

  /** What is assumed of an event: descriptors are new where they should be, and fields fit their arrays. */
  ghost predicate Admissible(s: State, e: Event) {
    match e
    case TcpAccept(fd, _) => Unused(s, fd)
    case UdpOpen(fd, _, m) => Unused(s, fd) && Fits(m)
    case UdpNoise(fd, _) => !HasFd(s.clients, fd)
    case Receive(_, _, m) => Fits(m)
    case _ => true
  }

  /** The events that leave a datagram nobody owns: an error to a refused or unknown sender. */
  predicate Orphaning(s: State, e: Event) {
    !s.stopped && (e.UdpNoise? || (e.UdpOpen? && FindAddr(s.clients, e.addr) < |s.clients|))
  }

  /** No two of the clients alive after the event share a queue id. */
  ghost predicate ClientsFit(s: State, e: Event) {
    e.TcpAccept? || e.UdpOpen? ==> forall i | 0 <= i < |s.clients| :: s.joined - s.clients[i].serial < 0x1_0000
  }

  lemma AdmitSound(cfg: Config, s: State, fd: int, addr: Addr, m: Message, w: Scope)
    requires Sound(cfg, s, w) && Unused(s, fd) && Room(w, Admit(cfg, s, fd, addr, m).sent)
    requires w.Window? ==> ClientsFit(s, UdpOpen(fd, addr, m))
    requires w.Window? && w.owned && !s.stopped ==> !Orphaning(s, UdpOpen(fd, addr, m))
    requires !s.stopped
    ensures Sound(cfg, Admit(cfg, s, fd, addr, m), w)
  {
    hide Sound, Process;
    if FindAddr(s.clients, addr) < |s.clients| {
      TransmitSound(cfg, s, Peer(-1, fd, Udp, addr), Err(0, "Server", "This address is currently in use."), w);
    } else {
      var c := Newcomer(s, fd, Udp, addr);
      NewcomerSpread(cfg, s, c, w);
      EnlistSound(cfg, s, c, w);
      ProcessSound(cfg, Enlist(s, c), |s.clients|, m, w);
    }
  }

  lemma HearSound(cfg: Config, s: State, fd: int, addr: Addr, m: Message, w: Scope)
    requires Sound(cfg, s, w) && Room(w, Hear(cfg, s, fd, addr, m).sent)
    ensures Sound(cfg, Hear(cfg, s, fd, addr, m), w)
  {
    hide Sound, Process;
    var i := FindFd(s.clients, fd);
    if i < |s.clients| {
      var c := Heard(s.clients[i], addr);
      UpdateSound(cfg, s, i, c, w);
      ProcessSound(cfg, Update(s, i, c), i, m, w);
    }
  }

  lemma GrumbleSound(cfg: Config, s: State, fd: int, addr: Addr, w: Scope)
    requires Sound(cfg, s, w) && Room(w, Grumble(cfg, s, fd, addr).sent)
    ensures Sound(cfg, Grumble(cfg, s, fd, addr), w)
  {
    hide Sound;
    var i := FindFd(s.clients, fd);
    if i < |s.clients| {
      var c := Heard(s.clients[i], addr);
      UpdateSound(cfg, s, i, c, w);
      ClientReachable(cfg, Update(s, i, c), i, w);
      TransmitSound(cfg, Update(s, i, c), c.AsPeer(), Err(0, "Server", "Received message contains error."), w);
    }
  }

  lemma TickSound(cfg: Config, s: State, w: Scope)
    requires Sound(cfg, s, w) && Room(w, Tick(cfg, s).sent)
    ensures Sound(cfg, Tick(cfg, s), w)
  {
    hide Sound, Sweep, DestroyAll;
    var t := Countdown(s);
    TimersSound(cfg, s, t, w);
    if !t.stopped {
      SweepSound(cfg, t, |t.buffer|, w);
      var (u, doomed) := Sweep(cfg, t, |t.buffer|);
      DestroyAllSound(cfg, u, doomed, w);
    }
  }

  /** Every event keeps the invariant. */
  lemma StepSound(cfg: Config, s: State, e: Event, w: Scope)
    requires Sound(cfg, s, w) && Admissible(s, e)
    requires w.Window? ==> ClientsFit(s, e)
    requires w.Window? && w.owned ==> !Orphaning(s, e)
    requires Room(w, Step(cfg, s, e).sent)
    ensures Sound(cfg, Step(cfg, s, e), w)
  {
    hide Sound, Admit, Hear, Grumble, Tick, Close, HangUp;
    if !s.stopped {
      match e
      case TcpAccept(fd, addr) =>
        var c := Newcomer(s, fd, Tcp, addr);
        NewcomerSpread(cfg, s, c, w);
        EnlistSound(cfg, s, c, w);
      case UdpOpen(fd, addr, m) => AdmitSound(cfg, s, fd, addr, m, w);
      case UdpNoise(fd, addr) =>
        TransmitSound(cfg, s, Peer(-1, fd, Udp, addr), Err(0, "Server", "Received message contains error."), w);
      case Receive(fd, addr, m) => HearSound(cfg, s, fd, addr, m, w);
      case Noise(fd, addr) => GrumbleSound(cfg, s, fd, addr, w);
      case Fin(fd) =>
        var i := FindFd(s.clients, fd);
        if i < |s.clients| && s.clients[i].protocol == Tcp { CloseSound(cfg, s, i, w); }
      case Idle => TickSound(cfg, s, w);
      case Interrupt =>
        TimersSound(cfg, s, s.(stopFlag := true), w);
        HangUpSound(cfg, s.(stopFlag := true), 0, w);
    }
  }

  lemma NewcomerSpread(cfg: Config, s: State, c: Client, w: Scope)
    requires Sound(cfg, s, w) && c == Newcomer(s, c.fd, c.protocol, c.addr)
    requires w.Window? ==> forall i | 0 <= i < |s.clients| :: s.joined - s.clients[i].serial < 0x1_0000
    ensures w.Window? ==> Spread(s.clients + [c])
  {
    hide Ledger, Roll, Addressed, Confirms, Farewells, Executions;
  }

  lemma TimersSound(cfg: Config, s: State, t: State, w: Scope)
    requires Sound(cfg, s, w) && t == s.(stopFlag := t.stopFlag, stopTimer := t.stopTimer, stopped := t.stopped)
    ensures Sound(cfg, t, w)
  {
    hide Ledger, Roll, Addressed, Confirms, Farewells, Executions, Kept;
  }
}
