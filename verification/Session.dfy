/**
 The session engine as functions on its state: what each routine of the server does to the
 client list, the buffer of unconfirmed datagrams, the counters and the stop timer.

 Fields marked "history" are read by no branch; they record the run for the theorems.
 */
module Session {
  import opened Types
  import opened DedupRing

  const POLL_INTERVAL := 75
  const STOP_TIMEOUT := 500

  datatype Phase = Accept | Authenticating | Open | Error | End

  /** Where a message is sent. `serial` (history) is the addressed client, -1 for a refused sender. */
  datatype Peer = Peer(serial: int, fd: int, protocol: Protocol, addr: Addr)

  /**
   A connected client. `serial` is the untruncated value of the client counter, of which the
   server keeps only `Id()`; `seen` (history) lists every identifier recorded in `ring`.
   */
  datatype Client = Client(
    serial: nat, fd: int, protocol: Protocol, addr: Addr, phase: Phase,
    username: string, displayName: string, channel: string, ring: Ring, seen: seq<nat>)
  {
    function Id(): nat { IdOf(serial) }
    function AsPeer(): Peer { Peer(serial, fd, protocol, addr) }
  }

  /** An unconfirmed datagram. `number` is the untruncated send number behind `Id()`. */
  datatype Pending = Pending(number: nat, peer: Peer, msg: Message, timer: nat, retry: nat) {
    function Id(): nat { IdOf(number) }
  }

  /** History: a first transmission. Its index in `State.sent` is its send number. */
  datatype Sent = Sent(peer: Peer, msg: Message) {
    /** Exactly these are buffered until confirmed. */
    predicate Tracked() { peer.protocol == Udp && !msg.Confirm? }
  }

  /** History: a retransmission of send number `number`. */
  datatype Resent = Resent(number: nat, sent: Sent)

  /** History: why a datagram left the buffer. */
  datatype Retired =
    | ByConfirm(number: nat, ref: nat)
    | WithClient(number: nat, serial: nat, fd: int)

  /** History: client `serial` executed the message it recorded as number `position`. */
  datatype Execution = Execution(serial: nat, position: nat, id: nat)

  datatype State = State(
    clients: seq<Client>,
    buffer: seq<Pending>,
    stopFlag: bool,
    stopTimer: int,
    stopped: bool,
    joined: nat,                      // value of the client counter, untruncated
    sent: seq<Sent>,                  // history; its length is the message counter, untruncated
    resent: seq<Resent>,              // history
    retired: seq<Retired>,            // history
    receipts: seq<(int, nat)>,        // history: (client, id) of every datagram to be confirmed
    executed: seq<Execution>)         // history

  function Start(): State {
    State([], [], false, STOP_TIMEOUT, false, 0, [], [], [], [], [])
  }

  // ----- The two lists -----

  /** Position of the first client on descriptor `fd`, or the length of the list. */
  function FindFd(cs: seq<Client>, fd: int): (i: nat)
    ensures i <= |cs|
    ensures i < |cs| ==> cs[i].fd == fd
    ensures forall j | 0 <= j < i :: cs[j].fd != fd
  {
    if cs == [] || cs[0].fd == fd then 0 else 1 + FindFd(cs[1..], fd)
  }

  function FindAddr(cs: seq<Client>, addr: Addr): (i: nat)
    ensures i <= |cs|
    ensures i < |cs| ==> cs[i].addr == addr
    ensures forall j | 0 <= j < i :: cs[j].addr != addr
  {
    if cs == [] || cs[0].addr == addr then 0 else 1 + FindAddr(cs[1..], addr)
  }

  /** Position of the first client with queue id `id`, or the length of the list. */
  function FindClientId(cs: seq<Client>, id: nat): (i: nat)
    ensures i <= |cs|
    ensures i < |cs| ==> cs[i].Id() == id
    ensures forall j | 0 <= j < i :: cs[j].Id() != id
  {
    if cs == [] || cs[0].Id() == id then 0 else 1 + FindClientId(cs[1..], id)
  }

  /** Position of the first buffered datagram with queue id `id`, or the length of the buffer. */
  function FindId(b: seq<Pending>, id: nat): (i: nat)
    ensures i <= |b|
    ensures i < |b| ==> b[i].Id() == id
    ensures forall j | 0 <= j < i :: b[j].Id() != id
  {
    if b == [] || b[0].Id() == id then 0 else 1 + FindId(b[1..], id)
  }

  function Without<T>(s: seq<T>, i: nat): (r: seq<T>)
    requires i < |s|
    ensures |r| == |s| - 1
  {
    s[..i] + s[i + 1..]
  }

  function Update(s: State, i: nat, c: Client): State
    requires i < |s.clients|
  {
    s.(clients := s.clients[i := c])
  }

  function SetPhase(s: State, i: nat, p: Phase): State
    requires i < |s.clients|
  {
    Update(s, i, s.clients[i].(phase := p))
  }

  /** No routine below `process_msg` unsends a message or touches the counter of clients and the timers. */
  predicate Follows(s: State, r: State) {
    && s.sent <= r.sent
    && r.joined == s.joined
    && r.receipts == s.receipts && r.executed == s.executed
    && r.stopFlag == s.stopFlag && r.stopTimer == s.stopTimer && r.stopped == s.stopped
  }

  // ----- Sending -----

  /** `send_msg` for a first transmission. */
  function Transmit(cfg: Config, s: State, p: Peer, m: Message): (r: State)
    ensures Follows(s, r) && r == s.(sent := r.sent, buffer := r.buffer)
  {
    var n := |s.sent|;
    var x := Sent(p, m.WithId(IdOf(n)));
    s.(sent := s.sent + [x],
       buffer := if x.Tracked() then s.buffer + [Pending(n, x.peer, x.msg, cfg.timeout, 0)] else s.buffer)
  }

  /** `cmp_clients`. */
  predicate SameClient(a: Client, b: Client) { a.fd == b.fd && a.username == b.username }

  /** Whom `forward_msg_channel` serves. */
  predicate Reaches(from: Client, channel: string, c: Client) {
    c.phase != End && !SameClient(from, c) && c.channel == channel
  }

  /** `forward_msg_channel`, from list position `j` on. */
  function Forward(cfg: Config, s: State, from: Client, m: Message, j: nat): (r: State)
    requires j <= |s.clients|
    ensures Follows(s, r)
    decreases |s.clients| - j
  {
    if j == |s.clients| then s
    else
      var c := s.clients[j];
      Forward(cfg, if Reaches(from, from.channel, c) then Transmit(cfg, s, c.AsPeer(), m) else s, from, m, j + 1)
  }

  function Joined(c: Client): Message { Msg(0, "Server", "User " + c.displayName + " joined " + c.channel + ".") }

  function Left(c: Client): Message { Msg(0, "Server", "User " + c.displayName + " left " + c.channel + ".") }

  function NotifyJoin(cfg: Config, s: State, i: nat): (r: State)
    requires i < |s.clients|
    ensures Follows(s, r)
  {
    Forward(cfg, s, s.clients[i], Joined(s.clients[i]), 0)
  }

  function NotifyLeave(cfg: Config, s: State, i: nat): (r: State)
    requires i < |s.clients|
    ensures Follows(s, r)
  {
    Forward(cfg, s, s.clients[i], Left(s.clients[i]), 0)
  }

  function SendError(cfg: Config, s: State, p: Peer, text: string): (r: State)
    ensures Follows(s, r)
  {
    Transmit(cfg, s, p, Err(0, "Server", text))
  }

  // ----- Closing and deleting -----

  /** One datagram leaves the buffer. */
  function Drop(s: State, j: nat, e: Retired): State
    requires j < |s.buffer|
  {
    s.(buffer := Without(s.buffer, j), retired := s.retired + [e])
  }

  /** The loop of `delete_client`, from buffer position `k`: it removes by id while it iterates. */
  function Purge(s: State, c: Client, k: nat): (r: State)
    requires k <= |s.buffer|
    ensures r == s.(buffer := r.buffer, retired := r.retired)
    decreases |s.buffer| - k
  {
    if k == |s.buffer| then s
    else if s.buffer[k].peer.fd == c.fd then
      var j := FindId(s.buffer, s.buffer[k].Id());
      Purge(Drop(s, j, WithClient(s.buffer[j].number, c.serial, c.fd)), c, k)
    else Purge(s, c, k + 1)
  }

  /** `delete_client`. */
  function Delete(s: State, i: nat): (r: State)
    requires i < |s.clients|
    ensures Follows(s, r) && r.sent == s.sent
  {
    var r := Purge(s, s.clients[i], 0);
    r.(clients := Without(r.clients, FindClientId(r.clients, s.clients[i].Id())))
  }

  /** The part of `close_client` both protocols share. */
  function Farewell(cfg: Config, s: State, i: nat): (r: State)
    requires i < |s.clients|
    ensures Follows(s, r)
    ensures |r.clients| == |s.clients| && r.clients[i] == s.clients[i].(phase := End)
  {
    if s.clients[i].phase != End
    then Transmit(cfg, SetPhase(s, i, End), s.clients[i].AsPeer(), Bye(0))
    else s
  }

  /** `close_client`. */
  function Close(cfg: Config, s: State, i: nat): (r: State)
    requires i < |s.clients|
    ensures Follows(s, r)
  {
    var r := Farewell(cfg, s, i);
    if s.clients[i].protocol == Tcp then Delete(r, i) else r
  }

  // ----- Receiving -----

  /** `check_state_transition`: the state after a possible error message, and the verdict. */
  function Check(cfg: Config, s: State, i: nat, m: Message): (r: (State, bool))
    requires i < |s.clients|
    ensures Follows(s, r.0) && r.0.clients == s.clients
  {
    var c := s.clients[i];
    if (c.phase == Accept || c.phase == Authenticating) && !m.Confirm? && !m.Auth?
    then (SendError(cfg, s, c.AsPeer(), "Client is not yet authorized."), m.Bye?)
    else (s, c.phase == End ==> m.Bye? || m.Confirm?)
  }

  /** The CONFIRM case of `execute_msg`. */
  function Acknowledge(cfg: Config, s: State, i: nat, ref: nat): (r: State)
    requires i < |s.clients|
    ensures Follows(s, r)
  {
    var k := FindId(s.buffer, ref);
    if k == |s.buffer| then s
    else
      var r := Drop(s, k, ByConfirm(s.buffer[k].number, ref));
      if s.buffer[k].msg.Bye? then Close(cfg, r, i) else r
  }

  function Authorize(cfg: Config, s: State, i: nat, m: Message): (r: State)
    requires i < |s.clients| && m.Auth?
    ensures Follows(s, r) && |r.clients| == |s.clients|
  {
    var c := s.clients[i].(username := m.username, displayName := m.displayName, channel := "default");
    var r := NotifyJoin(cfg, Update(s, i, c), i);
    ForwardKeepsClients(cfg, Update(s, i, c), c, Joined(c), 0);
    SetPhase(r, i, Open)
  }

  function Move(cfg: Config, s: State, i: nat, m: Message): (r: State)
    requires i < |s.clients| && m.Join?
    ensures Follows(s, r) && |r.clients| == |s.clients|
  {
    var l := NotifyLeave(cfg, s, i);
    ForwardKeepsClients(cfg, s, s.clients[i], Left(s.clients[i]), 0);
    var c := s.clients[i].(channel := m.channel, displayName := m.displayName);
    var r := NotifyJoin(cfg, Update(l, i, c), i);
    ForwardKeepsClients(cfg, Update(l, i, c), c, Joined(c), 0);
    SetPhase(r, i, Open)
  }

  function Speak(cfg: Config, s: State, i: nat, m: Message): (r: State)
    requires i < |s.clients| && m.Msg?
    ensures Follows(s, r) && |r.clients| == |s.clients|
  {
    var c := s.clients[i].(displayName := m.displayName);
    var r := Forward(cfg, Update(s, i, c), c, m, 0);
    ForwardKeepsClients(cfg, Update(s, i, c), c, m, 0);
    SetPhase(r, i, Open)
  }

  function Depart(cfg: Config, s: State, i: nat): (r: State)
    requires i < |s.clients|
    ensures Follows(s, r)
  {
    var l := NotifyLeave(cfg, s, i);
    ForwardKeepsClients(cfg, s, s.clients[i], Left(s.clients[i]), 0);
    Close(cfg, SetPhase(l, i, End), i)
  }

  /** `execute_msg`: the new state and the answer to send, if any. */
  function Execute(cfg: Config, s: State, i: nat, m: Message): (r: (State, Option<Message>))
    requires i < |s.clients|
    ensures Follows(s, r.0)
    ensures !m.Bye? && !m.Confirm? ==> |r.0.clients| == |s.clients|
    ensures r.1.Some? ==> !m.Bye? && !m.Confirm? && !r.1.value.Bye? && !r.1.value.Confirm?
  {
    var c := s.clients[i];
    match m
    case Confirm(ref) => (Acknowledge(cfg, s, i, ref), None)
    case Reply(_, _, _, _) =>
      (SetPhase(s, i, Error), Some(Err(0, "Server", "Reply cannot be sent by client.")))
    case Auth(id, _, _, _) =>
      if c.phase == Open || c.phase == Error
      then (s, Some(Reply(0, false, id, "User is already authorized as " + c.displayName)))
      else (Authorize(cfg, s, i, m), Some(Reply(0, true, id, "Joined default channel.")))
    case Join(id, channel, _) => (Move(cfg, s, i, m), Some(Reply(0, true, id, "You joined " + channel + " channel.")))
    case Msg(_, _, _) => (Speak(cfg, s, i, m), None)
    case Err(_, _, _) => (s, None)
    case Bye(_) => (Depart(cfg, s, i), None)
  }

  /** The tail of `process_msg`, once a message is known to be fresh and admissible. */
  function Dispatch(cfg: Config, s: State, i: nat, m: Message): (r: State)
    requires i < |s.clients|
    ensures Follows(s, r)
  {
    hide Execute, Check, Close, Transmit;
    var (s1, ok) := Check(cfg, s, i, m);
    var s2 :=
      if !ok then SetPhase(s1, i, Error)
      else
        var (e, answer) := Execute(cfg, s1, i, m);
        if answer.Some? then Transmit(cfg, e, e.clients[i].AsPeer(), answer.value) else e;
    if m.Bye? || m.Confirm? then s2
    else if s2.clients[i].phase == Error then Close(cfg, SetPhase(s2, i, End), i)
    else s2
  }

  /** Whether the stop flag or the client's phase makes `process_msg` ignore the message. */
  predicate Ignored(s: State, c: Client, m: Message) {
    (s.stopFlag || c.phase == End) && !m.Confirm? && !m.Bye?
  }

  function Noted(c: Client, id: nat): Client {
    c.(ring := Record(c.ring, id), seen := c.seen + [id])
  }

  /** `process_msg`. */
  function Process(cfg: Config, s: State, i: nat, m: Message): (r: State)
    requires i < |s.clients|
    ensures s.sent <= r.sent && r.joined == s.joined
    ensures r.stopFlag == s.stopFlag && r.stopTimer == s.stopTimer && r.stopped == s.stopped
  {
    var c := s.clients[i];
    if c.protocol == Udp && !m.Confirm? then
      var s1 := Transmit(cfg, s.(receipts := s.receipts + [(c.serial, m.MessageId())]), c.AsPeer(), Confirm(m.MessageId()));
      if Contains(c.ring, m.MessageId()) then s1
      else
        var s2 := Update(s1, i, Noted(c, m.MessageId()));
        if Ignored(s2, c, m) then s2
        else Dispatch(cfg, s2.(executed := s2.executed + [Execution(c.serial, |c.seen|, m.MessageId())]), i, m)
    else if Ignored(s, c, m) then s
    else Dispatch(cfg, s, i, m)
  }

  function Newcomer(s: State, fd: int, protocol: Protocol, addr: Addr): Client {
    Client(s.joined, fd, protocol, addr, Accept, "", "", "", EMPTY, [])
  }

  function Enlist(s: State, c: Client): State {
    s.(clients := s.clients + [c], joined := s.joined + 1)
  }

  // ----- Idle time -----

  /** One idle interval on a uint16 timer. */
  function Age(timer: nat): nat { (timer - POLL_INTERVAL) % 0x1_0000 }

  predicate Due(p: Pending) { Age(p.timer) == 0 }

  predicate Spent(cfg: Config, p: Pending) { Due(p) && p.retry >= cfg.retries }

  function Aged(cfg: Config, p: Pending): Pending {
    if Due(p) && p.retry < cfg.retries then p.(timer := cfg.timeout, retry := p.retry + 1)
    else p.(timer := Age(p.timer))
  }

  /** Adds the client on `fd` to the destruction list unless it is there; `None` is the null pointer. */
  function Doom(cs: seq<Client>, doomed: seq<Option<int>>, fd: int): seq<Option<int>> {
    if Some(fd) in doomed then doomed
    else doomed + [if FindFd(cs, fd) < |cs| then Some(fd) else None]
  }

  /** The first loop of `udp_timeout`: buffer, retransmissions and destruction list after `k` items. */
  function Sweep(cfg: Config, s: State, k: nat): (r: (State, seq<Option<int>>))
    requires k <= |s.buffer|
    ensures r.0 == s.(buffer := r.0.buffer, resent := r.0.resent)
    ensures |r.0.buffer| == |s.buffer|
    ensures forall j | 0 <= j < |s.buffer| :: r.0.buffer[j] == if j < k then Aged(cfg, s.buffer[j]) else s.buffer[j]
  {
    if k == 0 then (s, [])
    else
      var (t, doomed) := Sweep(cfg, s, k - 1);
      var p := s.buffer[k - 1];
      var t' := t.(buffer := t.buffer[k - 1 := Aged(cfg, p)]);
      if Due(p) && p.retry < cfg.retries
      then (t'.(resent := t.resent + [Resent(p.number, Sent(p.peer, p.msg))]), doomed)
      else (t', if Spent(cfg, p) then Doom(s.clients, doomed, p.peer.fd) else doomed)
  }

  /** One entry of the second loop of `udp_timeout`. */
  function Destroy(cfg: Config, s: State, fd: int): (r: State)
    ensures Follows(s, r)
  {
    var i := FindFd(s.clients, fd);
    if i == |s.clients| then s
    else if s.clients[i].phase == End then Delete(s, i)
    else
      var r := Close(cfg, s, i);
      if s.clients[i].protocol == Udp then NotifyLeave(cfg, r, i) else r
  }

  /** The second loop of `udp_timeout`. */
  function DestroyAll(cfg: Config, s: State, doomed: seq<Option<int>>): (r: State)
    ensures Follows(s, r)
    decreases |doomed|
  {
    if doomed == [] then s
    else DestroyAll(cfg, if doomed[0].Some? then Destroy(cfg, s, doomed[0].value) else s, doomed[1..])
  }

  /** `udp_timeout`. */
  function UdpTimeout(cfg: Config, s: State): (r: State)
    ensures Follows(s, r)
  {
    var (t, doomed) := Sweep(cfg, s, |s.buffer|);
    DestroyAll(cfg, t, doomed)
  }

  /** The stop timer on an idle tick. */
  function Countdown(s: State): State {
    if s.stopFlag && s.buffer == [] then
      if s.stopTimer <= 0 then s.(stopped := true) else s.(stopTimer := s.stopTimer - POLL_INTERVAL)
    else s.(stopTimer := STOP_TIMEOUT)
  }

  /** `sigint_handler`, from list position `i`. */
  function HangUp(cfg: Config, s: State, i: nat): (r: State)
    requires i <= |s.clients|
    ensures Follows(s, r)
    decreases |s.clients| - i
  {
    if i == |s.clients| then s
    else if s.clients[i].phase == End then HangUp(cfg, s, i + 1)
    else
      CloseShape(cfg, s, i);
      HangUp(cfg, Close(cfg, s, i), if s.clients[i].protocol == Tcp then i else i + 1)
  }

  // ----- The event loop -----

  datatype Event =
    | TcpAccept(fd: int, addr: Addr)
    | UdpOpen(fd: int, addr: Addr, msg: Message)   // a datagram on the welcome socket
    | UdpNoise(welcome: int, addr: Addr)           // an unparsable one
    | Receive(fd: int, addr: Addr, msg: Message)   // a message on a client's socket
    | Noise(fd: int, addr: Addr)                   // an unparsable one
    | Fin(fd: int)
    | Idle
    | Interrupt

  /** Reading a datagram overwrites the client's address; reading from a TCP socket does not. */
  function Heard(c: Client, addr: Addr): Client {
    if c.protocol == Udp then c.(addr := addr) else c
  }

  /** `udp_polling`, once the datagram has been parsed. */
  function Admit(cfg: Config, s: State, fd: int, addr: Addr, m: Message): (r: State)
    ensures s.sent <= r.sent
  {
    if FindAddr(s.clients, addr) < |s.clients|
    then SendError(cfg, s, Peer(-1, fd, Udp, addr), "This address is currently in use.")
    else Process(cfg, Enlist(s, Newcomer(s, fd, Udp, addr)), |s.clients|, m)
  }

  /** `process_msg_sock`, for one message that parses. */
  function Hear(cfg: Config, s: State, fd: int, addr: Addr, m: Message): (r: State)
    ensures s.sent <= r.sent
  {
    var i := FindFd(s.clients, fd);
    if i == |s.clients| then s else Process(cfg, Update(s, i, Heard(s.clients[i], addr)), i, m)
  }

  /** `process_msg_sock`, for one that does not. */
  function Grumble(cfg: Config, s: State, fd: int, addr: Addr): (r: State)
    ensures s.sent <= r.sent
  {
    var i := FindFd(s.clients, fd);
    if i == |s.clients| then s
    else
      var c := Heard(s.clients[i], addr);
      SendError(cfg, Update(s, i, c), c.AsPeer(), "Received message contains error.")
  }

  /** The idle branch of the main loop. */
  function Tick(cfg: Config, s: State): (r: State)
    ensures s.sent <= r.sent
  {
    var t := Countdown(s);
    if t.stopped then t else UdpTimeout(cfg, t)
  }

  function Step(cfg: Config, s: State, e: Event): (r: State)
    ensures s.sent <= r.sent
  {
    if s.stopped then s else
    match e
    case TcpAccept(fd, addr) => Enlist(s, Newcomer(s, fd, Tcp, addr))
    case UdpOpen(fd, addr, m) => Admit(cfg, s, fd, addr, m)
    case UdpNoise(fd, addr) => SendError(cfg, s, Peer(-1, fd, Udp, addr), "Received message contains error.")
    case Receive(fd, addr, m) => Hear(cfg, s, fd, addr, m)
    case Noise(fd, addr) => Grumble(cfg, s, fd, addr)
    case Fin(fd) =>
      var i := FindFd(s.clients, fd);
      if i == |s.clients| || s.clients[i].protocol == Udp then s else Close(cfg, s, i)
    case Idle => Tick(cfg, s)
    case Interrupt => HangUp(cfg, s.(stopFlag := true), 0)
  }

  // ----- Shapes the definitions rely on -----

  lemma {:induction false} ForwardKeepsClients(cfg: Config, s: State, from: Client, m: Message, j: nat)
    requires j <= |s.clients|
    ensures var r := Forward(cfg, s, from, m, j);
            r == s.(sent := r.sent, buffer := r.buffer)
    decreases |s.clients| - j
  {
    if j < |s.clients| {
      var c := s.clients[j];
      ForwardKeepsClients(cfg, if Reaches(from, from.channel, c) then Transmit(cfg, s, c.AsPeer(), m) else s, from, m, j + 1);
    }
  }

  lemma CloseShape(cfg: Config, s: State, i: nat)
    requires i < |s.clients|
    ensures |Close(cfg, s, i).clients| == |s.clients| - if s.clients[i].protocol == Tcp then 1 else 0
  {
  }

  lemma PurgeUnfold(s: State, c: Client, k: nat)
    requires k <= |s.buffer|
    ensures Purge(s, c, k) ==
            if k == |s.buffer| then s
            else if s.buffer[k].peer.fd == c.fd then
              var j := FindId(s.buffer, s.buffer[k].Id());
              Purge(Drop(s, j, WithClient(s.buffer[j].number, c.serial, c.fd)), c, k)
            else Purge(s, c, k + 1)
  {
  }

  lemma SweepStarts(cfg: Config, s: State)
    ensures Sweep(cfg, s, 0) == (s, [])
  {
  }

  lemma SweepSteps(cfg: Config, s: State, k: nat)
    requires k < |s.buffer|
    ensures var (t, doomed) := Sweep(cfg, s, k);
            var p := s.buffer[k];
            var u := t.(buffer := t.buffer[k := Aged(cfg, p)]);
            Sweep(cfg, s, k + 1) ==
            if Due(p) && p.retry < cfg.retries
            then (u.(resent := t.resent + [Resent(p.number, Sent(p.peer, p.msg))]), doomed)
            else (u, if Spent(cfg, p) then Doom(s.clients, doomed, p.peer.fd) else doomed)
  {
  }

  lemma ItemAges(cfg: Config, p: Pending)
    ensures Due(p) <==> Age(p.timer) == 0
    ensures Spent(cfg, p) <==> Age(p.timer) == 0 && p.retry >= cfg.retries
    ensures Aged(cfg, p) == if Age(p.timer) == 0 && p.retry < cfg.retries
                            then p.(timer := cfg.timeout, retry := p.retry + 1) else p.(timer := Age(p.timer))
  {
  }

  lemma EntryFor(cs: seq<Client>, doomed: seq<Option<int>>, fd: int)
    ensures Doom(cs, doomed, fd) == if Some(fd) in doomed then doomed
                                    else doomed + [if FindFd(cs, fd) < |cs| then Some(fd) else None]
  {
  }
}
