/**
 The server as the program runs it: lists, counters and timers updated in place by loops. Every
 method is proved to do to the state exactly what its function in `Session` says.
 */
module ServerObject {
  import opened Types
  import opened DedupRing
  import opened Session
  import opened Runs

  class Server {
    const cfg: Config
    var clients: seq<Client>
    var buffer: seq<Pending>
    var msgCnt: nat       // of which the program keeps 32 bits, see `IdOf`
    var clientCnt: nat    // likewise
    var stopFlag: bool
    var stopTimeout: int
    var stopped: bool

    ghost var sent: seq<Sent>
    ghost var resent: seq<Resent>
    ghost var retired: seq<Retired>
    ghost var receipts: seq<(int, nat)>
    ghost var executed: seq<Execution>

    ghost predicate Valid()
      reads this
    {
      msgCnt == |sent|
    }

    ghost function View(): State
      reads this
    {
      State(clients, buffer, stopFlag, stopTimeout, stopped, clientCnt, sent, resent, retired, receipts, executed)
    }

    constructor (cfg: Config)
      ensures Valid() && View() == Start() && this.cfg == cfg
    {
      this.cfg := cfg;
      clients, buffer := [], [];
      msgCnt, clientCnt := 0, 0;
      stopFlag, stopTimeout, stopped := false, STOP_TIMEOUT, false;
      sent, resent, retired, receipts, executed := [], [], [], [], [];
    }

    // ----- Searching the lists -----

    method GetClientByFd(fd: int) returns (i: nat)
      ensures i == FindFd(clients, fd)
    {
      i := 0;
      while i < |clients| && clients[i].fd != fd
        invariant i <= |clients|
        invariant forall j | 0 <= j < i :: clients[j].fd != fd
      {
        i := i + 1;
      }
    }

    method GetClientByAddr(addr: Addr) returns (i: nat)
      ensures i == FindAddr(clients, addr)
    {
      i := 0;
      while i < |clients| && clients[i].addr != addr
        invariant i <= |clients|
        invariant forall j | 0 <= j < i :: clients[j].addr != addr
      {
        i := i + 1;
      }
    }

    /** `queue_get` on the message buffer; also where `queue_remove` unlinks. */
    method FindMessage(id: nat) returns (i: nat)
      ensures i == FindId(buffer, id)
    {
      i := 0;
      while i < |buffer| && buffer[i].Id() != id
        invariant i <= |buffer|
        invariant forall j | 0 <= j < i :: buffer[j].Id() != id
      {
        i := i + 1;
      }
    }

    method FindClient(id: nat) returns (i: nat)
      ensures i == FindClientId(clients, id)
    {
      i := 0;
      while i < |clients| && clients[i].Id() != id
        invariant i <= |clients|
        invariant forall j | 0 <= j < i :: clients[j].Id() != id
      {
        i := i + 1;
      }
    }

    // ----- Sending -----

    /** `send_msg`, first transmission. */
    method SendMsg(p: Peer, m: Message)
      requires Valid()
      modifies this
      ensures Valid() && View() == Transmit(cfg, old(View()), p, m)
    {
      var n := msgCnt;
      msgCnt := msgCnt + 1;
      var out := m.WithId(IdOf(n));
      sent := sent + [Sent(p, out)];
      if p.protocol == Udp && !m.Confirm? {
        buffer := buffer + [Pending(n, p, out, cfg.timeout, 0)];
      }
    }

    /** `forward_msg_channel`. */
    method ForwardMsgChannel(from: Client, m: Message)
      requires Valid()
      modifies this
      ensures Valid() && View() == Forward(cfg, old(View()), from, m, 0)
    {
      var j := 0;
      while j < |clients|
        invariant Valid() && j <= |clients| && clients == old(clients)
        invariant Forward(cfg, old(View()), from, m, 0) == Forward(cfg, View(), from, m, j)
      {
        var c := clients[j];
        if c.phase == End {
          j := j + 1;
          continue;
        }
        if SameClient(from, c) || c.channel != from.channel {
          j := j + 1;
          continue;
        }
        SendMsg(c.AsPeer(), m);
        j := j + 1;
      }
    }

    method NotifyJoinOf(i: nat)
      requires Valid() && i < |clients|
      modifies this
      ensures Valid() && View() == NotifyJoin(cfg, old(View()), i)
      ensures clients == old(clients)
    {
      ForwardKeepsClients(cfg, View(), clients[i], Joined(clients[i]), 0);
      ForwardMsgChannel(clients[i], Joined(clients[i]));
    }

    method NotifyLeaveOf(i: nat)
      requires Valid() && i < |clients|
      modifies this
      ensures Valid() && View() == NotifyLeave(cfg, old(View()), i)
      ensures clients == old(clients)
    {
      ForwardKeepsClients(cfg, View(), clients[i], Left(clients[i]), 0);
      ForwardMsgChannel(clients[i], Left(clients[i]));
    }

    // ----- Closing and deleting -----

    /** `delete_client`: walks the buffer while unlinking from it by id. */
    method DeleteClient(i: nat)
      requires Valid() && i < |clients|
      modifies this
      ensures Valid() && View() == Delete(old(View()), i)
    {
      hide Purge, FindId, FindClientId, IdOf;
      var c := clients[i];
      var k := 0;
      PurgeUnfold(View(), c, 0);
      while k < |buffer|
        invariant Valid() && k <= |buffer|
        invariant clients == old(clients)
        invariant Purge(old(View()), c, 0) == Purge(View(), c, k)
        decreases |buffer| - k
      {
        PurgeUnfold(View(), c, k);
        if buffer[k].peer.fd == c.fd {
          var j := FindMessage(buffer[k].Id());
          retired := retired + [WithClient(buffer[j].number, c.serial, c.fd)];
          buffer := buffer[..j] + buffer[j + 1..];
        } else {
          k := k + 1;
        }
      }
      PurgeUnfold(View(), c, k);
      var j := FindClient(c.Id());
      clients := clients[..j] + clients[j + 1..];
    }

    /** `close_client`. */
    method CloseClient(i: nat)
      requires Valid() && i < |clients|
      modifies this
      ensures Valid() && View() == Close(cfg, old(View()), i)
    {
      var c := clients[i];
      if c.phase != End {
        clients := clients[i := c.(phase := End)];
        SendMsg(c.AsPeer(), Bye(0));
      }
      if c.protocol == Tcp {
        DeleteClient(i);
      }
    }

    // ----- Receiving -----

    /** `check_state_transition`. */
    method CheckStateTransition(i: nat, m: Message) returns (ok: bool)
      requires Valid() && i < |clients|
      modifies this
      ensures Valid() && (View(), ok) == Check(cfg, old(View()), i, m)
    {
      var c := clients[i];
      if (c.phase == Accept || c.phase == Authenticating) && !m.Confirm? && !m.Auth? {
        SendMsg(c.AsPeer(), Err(0, "Server", "Client is not yet authorized."));
        return m.Bye?;
      }
      if c.phase == End && !m.Bye? && !m.Confirm? {
        return false;
      }
      return true;
    }

    method AcknowledgeFrom(i: nat, ref: nat)
      requires Valid() && i < |clients|
      modifies this
      ensures Valid() && View() == Acknowledge(cfg, old(View()), i, ref)
    {
      var k := FindMessage(ref);
      if k < |buffer| {
        var item := buffer[k];
        retired := retired + [ByConfirm(item.number, ref)];
        buffer := buffer[..k] + buffer[k + 1..];
        if item.msg.Bye? {
          CloseClient(i);
        }
      }
    }

    /** `execute_msg`. */
    method ExecuteMsg(i: nat, m: Message) returns (answer: Option<Message>)
      requires Valid() && i < |clients|
      modifies this
      ensures Valid() && (View(), answer) == Execute(cfg, old(View()), i, m)
    {
      hide Forward, Close, Acknowledge;
      answer := None;
      var c := clients[i];
      match m
      case Confirm(ref) => AcknowledgeFrom(i, ref);
      case Reply(_, _, _, _) =>
        answer := Some(Err(0, "Server", "Reply cannot be sent by client."));
        clients := clients[i := c.(phase := Error)];
      case Auth(id, user, name, _) =>
        if c.phase == Open || c.phase == Error {
          answer := Some(Reply(0, false, id, "User is already authorized as " + c.displayName));
        } else {
          clients := clients[i := c.(username := user, displayName := name, channel := "default")];
          answer := Some(Reply(0, true, id, "Joined default channel."));
          NotifyJoinOf(i);
          clients := clients[i := clients[i].(phase := Open)];
        }
      case Join(id, channel, name) =>
        NotifyLeaveOf(i);
        clients := clients[i := c.(channel := channel, displayName := name)];
        answer := Some(Reply(0, true, id, "You joined " + channel + " channel."));
        NotifyJoinOf(i);
        clients := clients[i := clients[i].(phase := Open)];
      case Msg(_, name, _) =>
        clients := clients[i := c.(displayName := name)];
        ForwardKeepsClients(cfg, View(), clients[i], m, 0);
        ForwardMsgChannel(clients[i], m);
        clients := clients[i := clients[i].(phase := Open)];
      case Err(_, _, _) =>
      case Bye(_) =>
        NotifyLeaveOf(i);
        clients := clients[i := clients[i].(phase := End)];
        CloseClient(i);
    }

    method DispatchMsg(i: nat, m: Message)
      requires Valid() && i < |clients|
      modifies this
      ensures Valid() && View() == Dispatch(cfg, old(View()), i, m)
    {
      hide Execute, Close, Transmit;
      var ok := CheckStateTransition(i, m);
      if !ok {
        clients := clients[i := clients[i].(phase := Error)];
      } else {
        var answer := ExecuteMsg(i, m);
        if answer.Some? {
          SendMsg(clients[i].AsPeer(), answer.value);
        }
      }
      if m.Bye? || m.Confirm? {
        return;
      }
      if clients[i].phase == Error {
        clients := clients[i := clients[i].(phase := End)];
        CloseClient(i);
      }
    }

    /** `process_msg`. */
    method ProcessMsg(i: nat, m: Message)
      requires Valid() && i < |clients|
      modifies this
      ensures Valid() && View() == Process(cfg, old(View()), i, m)
    {
      hide Dispatch, Contains, Transmit;
      var c := clients[i];
      var id := m.MessageId();
      if c.protocol == Udp && !m.Confirm? {
        receipts := receipts + [(c.serial, id)];
        SendMsg(c.AsPeer(), Confirm(id));
        var known := IsMsgConfirmed(c.ring, id);
        if known {
          return;
        }
        clients := clients[i := Noted(c, id)];
      }
      if stopFlag && !m.Confirm? && !m.Bye? {
        return;
      }
      if c.phase == End && !m.Confirm? && !m.Bye? {
        return;
      }
      if c.protocol == Udp && !m.Confirm? {
        executed := executed + [Execution(c.serial, |c.seen|, id)];
      }
      DispatchMsg(i, m);
    }

    // ----- Idle time -----

    /** `get_next_timeout`: the minimum starts at zero, and no unsigned timer lies below it. */
    method GetNextTimeout() returns (least: int)
      ensures least == 0
    {
      least := 0;
      var k := 0;
      while k < |buffer|
        invariant k <= |buffer| && least == 0
      {
        var t := buffer[k].timer;
        if t < least {
          least := t;
        }
        k := k + 1;
      }
    }

    /** Whether the destruction list already holds the client on `fd`. */
    method IsDoomed(doomed: seq<Option<int>>, fd: int) returns (found: bool)
      ensures found == (Some(fd) in doomed)
    {
      found := false;
      var i := 0;
      while i < |doomed|
        invariant i <= |doomed|
        invariant found == (Some(fd) in doomed[..i])
      {
        if doomed[i] == Some(fd) {
          found := true;
        }
        i := i + 1;
      }
      assert doomed[..i] == doomed;
    }

    /** The first loop of `udp_timeout`. */
    method SweepBuffer() returns (doomed: seq<Option<int>>)
      requires Valid()
      modifies this
      ensures Valid() && (View(), doomed) == Sweep(cfg, old(View()), |old(buffer)|)
    {
      hide Sweep, Aged, Due, Spent, Doom, FindFd;
      SweepStarts(cfg, View());
      doomed := [];
      var k := 0;
      while k < |buffer|
        invariant Valid() && k <= |buffer| == |old(buffer)|
        invariant clients == old(clients)
        invariant (View(), doomed) == Sweep(cfg, old(View()), k)
      {
        SweepSteps(cfg, old(View()), k);
        var p := buffer[k];
        ItemAges(cfg, p);
        var q := p.(timer := Age(p.timer));
        if q.timer == 0 {
          if p.retry < cfg.retries {
            resent := resent + [Resent(p.number, Sent(p.peer, p.msg))];
            q := q.(retry := p.retry + 1, timer := cfg.timeout);
          } else {
            var known := IsDoomed(doomed, p.peer.fd);
            EntryFor(clients, doomed, p.peer.fd);
            if !known {
              var i := GetClientByFd(p.peer.fd);
              doomed := doomed + [if i < |clients| then Some(p.peer.fd) else None];
            }
          }
        }
        buffer := buffer[k := q];
        k := k + 1;
      }
    }

    method DestroyClient(fd: int)
      requires Valid()
      modifies this
      ensures Valid() && View() == Destroy(cfg, old(View()), fd)
    {
      var i := GetClientByFd(fd);
      if i < |clients| {
        var c := clients[i];
        if c.phase != End {
          CloseShape(cfg, View(), i);
          CloseClient(i);
          if c.protocol == Udp {
            NotifyLeaveOf(i);
          }
        } else {
          DeleteClient(i);
        }
      }
    }

    /** `udp_timeout`. */
    method UdpTimeoutTick()
      requires Valid()
      modifies this
      ensures Valid() && View() == UdpTimeout(cfg, old(View()))
    {
      var doomed := SweepBuffer();
      ghost var swept := View();
      var i := 0;
      while i < |doomed|
        invariant Valid() && i <= |doomed|
        invariant DestroyAll(cfg, swept, doomed) == DestroyAll(cfg, View(), doomed[i..])
      {
        if doomed[i].Some? {
          DestroyClient(doomed[i].value);
        }
        assert doomed[i..][1..] == doomed[i + 1..];
        i := i + 1;
      }
    }

    /** The idle branch of the main loop, with its computation of the interval. */
    method IdleBranch()
      requires Valid() && !stopped
      modifies this
      ensures Valid() && View() == Tick(cfg, old(View()))
    {
      hide UdpTimeout;
      var next := GetNextTimeout();
      next := if next > POLL_INTERVAL then POLL_INTERVAL else next;
      next := if next == 0 then POLL_INTERVAL else next;
      if stopFlag && |buffer| == 0 {
        if stopTimeout <= 0 {
          stopped := true;
          return;
        } else {
          stopTimeout := stopTimeout - next;
        }
      } else {
        stopTimeout := STOP_TIMEOUT;
      }
      UdpTimeoutTick();
    }

    /** `sigint_handler`. */
    method SigintHandler()
      requires Valid()
      modifies this
      ensures Valid() && View() == HangUp(cfg, old(View()).(stopFlag := true), 0)
    {
      stopFlag := true;
      ghost var start := View();
      var i := 0;
      while i < |clients|
        invariant Valid() && i <= |clients|
        invariant HangUp(cfg, start, 0) == HangUp(cfg, View(), i)
        decreases |clients| - i
      {
        var c := clients[i];
        if c.phase != End {
          CloseShape(cfg, View(), i);
          CloseClient(i);
          if c.protocol != Tcp {
            i := i + 1;
          }
        } else {
          i := i + 1;
        }
      }
    }

    // ----- The event loop -----

    method Register(fd: int, protocol: Protocol, addr: Addr)
      requires Valid()
      modifies this
      ensures Valid() && View() == Enlist(old(View()), Newcomer(old(View()), fd, protocol, addr))
    {
      clients := clients + [Client(clientCnt, fd, protocol, addr, Accept, "", "", "", EMPTY, [])];
      clientCnt := clientCnt + 1;
    }

    /** `udp_polling`, once the datagram has been parsed. */
    method UdpPolling(fd: int, addr: Addr, m: Message)
      requires Valid()
      modifies this
      ensures Valid() && View() == Admit(cfg, old(View()), fd, addr, m)
    {
      hide Process;
      var i := GetClientByAddr(addr);
      if i < |clients| {
        SendMsg(Peer(-1, fd, Udp, addr), Err(0, "Server", "This address is currently in use."));
        return;
      }
      Register(fd, Udp, addr);
      ProcessMsg(|clients| - 1, m);
    }

    /** `process_msg_sock`, for one read: a message, or none if it does not parse. */
    method ProcessMsgSock(fd: int, addr: Addr, m: Option<Message>)
      requires Valid()
      modifies this
      ensures Valid()
      ensures View() == if m.Some? then Hear(cfg, old(View()), fd, addr, m.value) else Grumble(cfg, old(View()), fd, addr)
    {
      hide Process, Transmit;
      var i := GetClientByFd(fd);
      if i == |clients| {
        return;
      }
      if clients[i].protocol == Udp {
        clients := clients[i := clients[i].(addr := addr)];
      } else {
        assert clients[i := clients[i]] == clients;
      }
      if m.Some? {
        ProcessMsg(i, m.value);
      } else {
        SendMsg(clients[i].AsPeer(), Err(0, "Server", "Received message contains error."));
      }
    }

    /** One turn of the event loop. */
    method Turn(e: Event)
      requires Valid()
      modifies this
      ensures Valid() && View() == Step(cfg, old(View()), e)
    {
      hide Admit, Hear, Grumble, Tick, HangUp, Close, Transmit;
      if stopped {
        return;
      }
      match e
      case TcpAccept(fd, addr) => Register(fd, Tcp, addr);
      case UdpOpen(fd, addr, m) => UdpPolling(fd, addr, m);
      case UdpNoise(fd, addr) => SendMsg(Peer(-1, fd, Udp, addr), Err(0, "Server", "Received message contains error."));
      case Receive(fd, addr, m) => ProcessMsgSock(fd, addr, Some(m));
      case Noise(fd, addr) => ProcessMsgSock(fd, addr, None);
      case Fin(fd) =>
        var i := GetClientByFd(fd);
        if i < |clients| && clients[i].protocol == Tcp {
          CloseClient(i);
        }
      case Idle => IdleBranch();
      case Interrupt => SigintHandler();
    }

    /** A whole run of a freshly started server is the run the theorems speak of. */
    method Serve(es: seq<Event>)
      requires Valid() && View() == Start()
      modifies this
      ensures Valid() && View() == Run(cfg, es)
    {
      hide Step;
      var k := 0;
      assert es[..0] == [];
      while k < |es|
        invariant Valid() && k <= |es| && View() == Run(cfg, es[..k])
      {
        Turn(es[k]);
        assert es[..k + 1][..k] == es[..k];
        k := k + 1;
      }
      assert es[..k] == es;
    }
  }
}
