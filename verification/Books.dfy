/** What every routine of the session engine keeps, on every input and in every state of every run. */
module Books {
  import opened Types
  import opened DedupRing
  import opened Session

  // ----- The delivery ledger -----

  function Numbers(b: seq<Pending>): (r: seq<nat>)
    ensures |r| == |b| && forall i | 0 <= i < |b| :: r[i] == b[i].number
  {
    seq(|b|, i requires 0 <= i < |b| => b[i].number)
  }

  function RetiredNumbers(q: seq<Retired>): (r: seq<nat>)
    ensures |r| == |q| && forall i | 0 <= i < |q| :: r[i] == q[i].number
  {
    seq(|q|, i requires 0 <= i < |q| => q[i].number)
  }

  /** The send numbers that had to be confirmed, in order. */
  function TrackedNumbers(sent: seq<Sent>): seq<nat> {
    if sent == [] then []
    else
      var n := |sent| - 1;
      TrackedNumbers(sent[..n]) + if sent[n].Tracked() then [n] else []
  }

  function TimesResent(resent: seq<Resent>, number: nat): nat {
    if resent == [] then 0
    else
      var k := |resent| - 1;
      TimesResent(resent[..k], number) + if resent[k].number == number then 1 else 0
  }

  /** Every buffered datagram is the first transmission it copies, in the order of the sends. */
  ghost predicate Copies(b: seq<Pending>, sent: seq<Sent>) {
    && (forall i, j | 0 <= i < j < |b| :: b[i].number < b[j].number)
    && (forall i | 0 <= i < |b| ::
          b[i].number < |sent| && sent[b[i].number] == Sent(b[i].peer, b[i].msg) && sent[b[i].number].Tracked())
  }

  ghost predicate Numbered(sent: seq<Sent>) {
    forall n | 0 <= n < |sent| :: sent[n].msg.Confirm? || sent[n].msg.MessageId() == IdOf(n)
  }

  /** Nothing is lost and nothing is counted twice. */
  ghost predicate Conserved(b: seq<Pending>, sent: seq<Sent>, retired: seq<Retired>) {
    multiset(Numbers(b)) + multiset(RetiredNumbers(retired)) == multiset(TrackedNumbers(sent))
  }

  ghost predicate Confirmed(retired: seq<Retired>) {
    forall i | 0 <= i < |retired| :: retired[i].ByConfirm? ==> retired[i].ref == IdOf(retired[i].number)
  }

  /** Retransmissions repeat the first transmission, and the retry counter counts them. */
  ghost predicate Repeats(cfg: Config, b: seq<Pending>, sent: seq<Sent>, resent: seq<Resent>) {
    && (forall i | 0 <= i < |resent| ::
          resent[i].number < |sent| && sent[resent[i].number] == resent[i].sent && resent[i].sent.Tracked())
    && (forall i | 0 <= i < |b| :: b[i].retry == TimesResent(resent, b[i].number))
    && (forall n: nat :: TimesResent(resent, n) <= cfg.retries)
  }

  ghost predicate Ledger(cfg: Config, b: seq<Pending>, sent: seq<Sent>, resent: seq<Resent>, retired: seq<Retired>) {
    Copies(b, sent) && Numbered(sent) && Conserved(b, sent, retired) && Confirmed(retired) && Repeats(cfg, b, sent, resent)
  }

  // ----- Clients and their history -----

  ghost predicate Roll(cs: seq<Client>, joined: nat) {
    && (forall i, j | 0 <= i < j < |cs| :: cs[i].serial < cs[j].serial && cs[i].fd != cs[j].fd)
    && (forall i | 0 <= i < |cs| :: cs[i].serial < joined && Represents(cs[i].ring, cs[i].seen))
  }

  /** A buffered datagram on a live descriptor belongs to the UDP client that has it. */
  ghost predicate Addressed(cs: seq<Client>, b: seq<Pending>) {
    forall i, k | 0 <= i < |cs| && 0 <= k < |b| && b[k].peer.fd == cs[i].fd ::
      cs[i].protocol == Udp && b[k].peer.serial == cs[i].serial
  }

  function Confirms(sent: seq<Sent>): seq<(int, nat)> {
    if sent == [] then []
    else
      var n := |sent| - 1;
      Confirms(sent[..n]) + if sent[n].msg.Confirm? then [(sent[n].peer.serial, sent[n].msg.ref)] else []
  }

  /** BYE goes to clients only, at most once to each, and never to one that has not ended. */
  ghost predicate Farewells(cs: seq<Client>, sent: seq<Sent>, joined: nat) {
    && (forall n | 0 <= n < |sent| :: sent[n].peer.serial < joined && (sent[n].msg.Bye? ==> sent[n].peer.serial >= 0))
    && (forall n, k | 0 <= n < k < |sent| && sent[n].msg.Bye? && sent[k].msg.Bye? ::
          sent[n].peer.serial != sent[k].peer.serial)
    && (forall i, n | 0 <= i < |cs| && 0 <= n < |sent| && cs[i].phase != End && sent[n].msg.Bye? ::
          sent[n].peer.serial != cs[i].serial)
  }

  /** Executions follow the order of recording; an identifier comes back only outside the window. */
  ghost predicate Executions(cs: seq<Client>, ex: seq<Execution>, joined: nat) {
    && (forall k | 0 <= k < |ex| :: ex[k].serial < joined)
    && (forall i, k | 0 <= i < |cs| && 0 <= k < |ex| && ex[k].serial == cs[i].serial ::
          ex[k].position < |cs[i].seen| && cs[i].seen[ex[k].position] == ex[k].id)
    && (forall j, k | 0 <= j < k < |ex| && ex[j].serial == ex[k].serial ::
          ex[j].position < ex[k].position && (ex[j].id == ex[k].id ==> ex[k].position - ex[j].position > Depth(ex[k].position)))
  }

  /** How far apart serial numbers of live clients may be before two share a queue id. */
  ghost predicate Spread(cs: seq<Client>) {
    forall i, j | 0 <= i < j < |cs| :: cs[j].serial - cs[i].serial < 0x1_0000
  }

  /** Every buffered datagram was sent on the descriptor of a live client. */
  ghost predicate Owned(cs: seq<Client>, b: seq<Pending>) {
    forall k | 0 <= k < |b| :: HasFd(cs, b[k].peer.fd)
  }

  ghost predicate HasFd(cs: seq<Client>, fd: int) {
    exists i :: 0 <= i < |cs| && cs[i].fd == fd
  }

  /** What was dropped with a client had been sent to that client. */
  ghost predicate Attributed(retired: seq<Retired>, sent: seq<Sent>) {
    forall i | 0 <= i < |retired| && retired[i].WithClient? ::
      retired[i].number < |sent| && sent[retired[i].number].peer.fd == retired[i].fd
  }

  /**
   What a theorem assumes of the run: nothing; or that all send numbers in play lie in a window
   of 2^16 from `floor`, and (if `owned`) that every buffered datagram has a live owner.
   */
  datatype Scope = Free | Window(floor: nat, owned: bool)

  ghost predicate Kept(cs: seq<Client>, b: seq<Pending>, sent: seq<Sent>, retired: seq<Retired>, w: Scope) {
    w.Window? ==>
      && Spread(cs)
      && w.floor <= |sent| <= w.floor + 0x1_0000
      && (forall k | 0 <= k < |b| :: b[k].number >= w.floor)
      && Attributed(retired, sent)
      && (w.owned ==> Owned(cs, b))
  }

  /** The window is wide enough for everything sent so far. */
  ghost predicate Room(w: Scope, sent: seq<Sent>) {
    w.Window? ==> |sent| <= w.floor + 0x1_0000
  }

  ghost predicate Sound(cfg: Config, s: State, w: Scope) {
    && Kept(s.clients, s.buffer, s.sent, s.retired, w)
    && Ledger(cfg, s.buffer, s.sent, s.resent, s.retired)
    && Roll(s.clients, s.joined)
    && Addressed(s.clients, s.buffer)
    && Confirms(s.sent) == s.receipts
    && Farewells(s.clients, s.sent, s.joined)
    && Executions(s.clients, s.executed, s.joined)
  }

  // ----- Elementary steps -----

  /** A peer that no live client contradicts; where ownership is assumed, a live one. */
  ghost predicate Reachable(cs: seq<Client>, joined: nat, p: Peer, w: Scope) {
    && p.serial < joined
    && (forall i | 0 <= i < |cs| && cs[i].fd == p.fd :: cs[i].protocol == p.protocol && cs[i].serial == p.serial)
    && (w.Window? && w.owned ==> HasFd(cs, p.fd))
  }

  /** A descriptor the system may hand out: no client has it and no buffered datagram was sent on it. */
  ghost predicate Unused(s: State, fd: int) {
    && !HasFd(s.clients, fd)
    && forall k | 0 <= k < |s.buffer| :: s.buffer[k].peer.fd != fd
  }

  lemma TrackedSnoc(sent: seq<Sent>, x: Sent)
    ensures TrackedNumbers(sent + [x]) == TrackedNumbers(sent) + if x.Tracked() then [|sent|] else []
    ensures Confirms(sent + [x]) == Confirms(sent) + if x.msg.Confirm? then [(x.peer.serial, x.msg.ref)] else []
  {
    assert (sent + [x])[..|sent|] == sent;
  }

  lemma TransmitCopies(cfg: Config, s: State, p: Peer, m: Message)
    requires Copies(s.buffer, s.sent)
    ensures var r := Transmit(cfg, s, p, m); Copies(r.buffer, r.sent)
  {
    hide Message.WithId, IdOf;
  }

  lemma TransmitConserves(cfg: Config, s: State, p: Peer, m: Message)
    requires Conserved(s.buffer, s.sent, s.retired)
    ensures var r := Transmit(cfg, s, p, m); Conserved(r.buffer, r.sent, r.retired)
  {
    hide TrackedNumbers, Message.WithId, IdOf, RetiredNumbers;
    var r, n := Transmit(cfg, s, p, m), |s.sent|;
    TrackedSnoc(s.sent, r.sent[n]);
    if r.sent[n].Tracked() {
      assert Numbers(r.buffer) == Numbers(s.buffer) + [n];
    }
  }

  lemma TransmitRepeats(cfg: Config, s: State, p: Peer, m: Message)
    requires Repeats(cfg, s.buffer, s.sent, s.resent)
    ensures var r := Transmit(cfg, s, p, m); Repeats(cfg, r.buffer, r.sent, r.resent)
  {
    NeverResent(s.resent, |s.sent|, s.sent);
  }

  lemma {:induction false} NeverResent(resent: seq<Resent>, n: nat, sent: seq<Sent>)
    requires forall i | 0 <= i < |resent| :: resent[i].number < |sent|
    requires n >= |sent|
    ensures TimesResent(resent, n) == 0
  {
    if resent != [] { NeverResent(resent[..|resent| - 1], n, sent); }
  }

  lemma TransmitLedger(cfg: Config, s: State, p: Peer, m: Message)
    requires Ledger(cfg, s.buffer, s.sent, s.resent, s.retired)
    ensures var r := Transmit(cfg, s, p, m); Ledger(cfg, r.buffer, r.sent, r.resent, r.retired)
  {
    hide Copies, Conserved, Repeats, IdOf;
    TransmitCopies(cfg, s, p, m);
    TransmitConserves(cfg, s, p, m);
    TransmitRepeats(cfg, s, p, m);
  }

  lemma TransmitKept(cfg: Config, s: State, p: Peer, m: Message, w: Scope)
    requires Kept(s.clients, s.buffer, s.sent, s.retired, w) && Reachable(s.clients, s.joined, p, w)
    requires Room(w, Transmit(cfg, s, p, m).sent)
    ensures var r := Transmit(cfg, s, p, m); Kept(r.clients, r.buffer, r.sent, r.retired, w)
  {
    hide Message.WithId, IdOf, Spread;
  }

  lemma TransmitFarewells(cfg: Config, s: State, p: Peer, m: Message)
    requires Farewells(s.clients, s.sent, s.joined) && p.serial < s.joined
    requires m.Bye? ==> p.serial >= 0
    requires m.Bye? ==> forall i | 0 <= i < |s.clients| && s.clients[i].serial == p.serial :: s.clients[i].phase == End
    requires m.Bye? ==> forall n | 0 <= n < |s.sent| && s.sent[n].msg.Bye? :: s.sent[n].peer.serial != p.serial
    ensures Farewells(s.clients, Transmit(cfg, s, p, m).sent, s.joined)
  {
    hide Message.WithId, IdOf;
  }

  /** Sending anything but CONFIRM and BYE. */
  lemma TransmitSound(cfg: Config, s: State, p: Peer, m: Message, w: Scope)
    requires Sound(cfg, s, w) && Reachable(s.clients, s.joined, p, w) && !m.Confirm? && !m.Bye?
    requires Room(w, Transmit(cfg, s, p, m).sent)
    ensures Sound(cfg, Transmit(cfg, s, p, m), w)
  {
    hide Ledger, Message.WithId, IdOf, Executions, Roll, Confirms, Kept, Farewells;
    TransmitLedger(cfg, s, p, m);
    TransmitKept(cfg, s, p, m, w);
    TransmitFarewells(cfg, s, p, m);
    TrackedSnoc(s.sent, Transmit(cfg, s, p, m).sent[|s.sent|]);
  }

  /** Confirming a received datagram. */
  lemma ConfirmSound(cfg: Config, s: State, p: Peer, id: nat, w: Scope)
    requires Sound(cfg, s, w) && Reachable(s.clients, s.joined, p, w)
    requires Room(w, Transmit(cfg, s, p, Confirm(id)).sent)
    ensures Sound(cfg, Transmit(cfg, s.(receipts := s.receipts + [(p.serial, id)]), p, Confirm(id)), w)
  {
    hide Ledger, Executions, Roll, Confirms, Kept, Farewells;
    var t := s.(receipts := s.receipts + [(p.serial, id)]);
    TransmitLedger(cfg, t, p, Confirm(id));
    TransmitKept(cfg, t, p, Confirm(id), w);
    TransmitFarewells(cfg, t, p, Confirm(id));
    TrackedSnoc(s.sent, Transmit(cfg, t, p, Confirm(id)).sent[|s.sent|]);
  }

  ghost predicate SameIdentity(c: Client, d: Client) {
    c.serial == d.serial && c.fd == d.fd && c.protocol == d.protocol
  }

  lemma OwnedFrame(cs: seq<Client>, i: nat, c: Client, b: seq<Pending>)
    requires i < |cs| && SameIdentity(cs[i], c)
    ensures Owned(cs, b) ==> Owned(cs[i := c], b)
  {
    forall fd | HasFd(cs, fd) ensures HasFd(cs[i := c], fd) {
      var j :| 0 <= j < |cs| && cs[j].fd == fd;
      assert cs[i := c][j].fd == fd;
    }
  }

  /** Changing a client without touching its identity or its ring, and without reviving it. */
  lemma UpdateSound(cfg: Config, s: State, i: nat, c: Client, w: Scope)
    requires Sound(cfg, s, w) && i < |s.clients|
    requires var d := s.clients[i];
             SameIdentity(d, c) && c.ring == d.ring && c.seen == d.seen && (d.phase == End ==> c.phase == End)
    ensures Sound(cfg, Update(s, i, c), w)
  {
    hide Ledger, Confirms, Owned, Attributed, Represents;
    OwnedFrame(s.clients, i, c, s.buffer);
  }

  lemma PhaseSound(cfg: Config, s: State, i: nat, p: Phase, w: Scope)
    requires Sound(cfg, s, w) && i < |s.clients| && (s.clients[i].phase == End ==> p == End)
    ensures Sound(cfg, SetPhase(s, i, p), w)
  {
    hide Sound;
    UpdateSound(cfg, s, i, s.clients[i].(phase := p), w);
  }

  lemma ClientReachable(cfg: Config, s: State, i: nat, w: Scope)
    requires Sound(cfg, s, w) && i < |s.clients|
    ensures Reachable(s.clients, s.joined, s.clients[i].AsPeer(), w)
  {
    hide Ledger, Confirms, Represents, Farewells, Executions, Addressed, Kept;
  }

  lemma FarewellSound(cfg: Config, s: State, i: nat, w: Scope)
    requires Sound(cfg, s, w) && i < |s.clients|
    requires Room(w, Farewell(cfg, s, i).sent)
    ensures Sound(cfg, Farewell(cfg, s, i), w)
  {
    hide Ledger, Message.WithId, IdOf, Executions, Confirms, Represents, Kept;
    if s.clients[i].phase != End {
      var t, p := SetPhase(s, i, End), s.clients[i].AsPeer();
      PhaseSound(cfg, s, i, End, w);
      ClientReachable(cfg, t, i, w);
      TransmitLedger(cfg, t, p, Bye(0));
      TransmitKept(cfg, t, p, Bye(0), w);
      TransmitFarewells(cfg, t, p, Bye(0));
      TrackedSnoc(s.sent, Transmit(cfg, t, p, Bye(0)).sent[|s.sent|]);
      assert Addressed(t.clients, Transmit(cfg, t, p, Bye(0)).buffer);
    }
  }

  lemma WithoutNumbers<T>(s: seq<T>, k: nat)
    requires k < |s|
    ensures multiset(Without(s, k)) + multiset{s[k]} == multiset(s)
  {
    assert s == s[..k] + [s[k]] + s[k + 1..];
  }

  lemma RetireConserves(b: seq<Pending>, sent: seq<Sent>, retired: seq<Retired>, k: nat, e: Retired)
    requires Conserved(b, sent, retired) && k < |b| && e.number == b[k].number
    ensures Conserved(Without(b, k), sent, retired + [e])
  {
    hide TrackedNumbers;
    assert Numbers(Without(b, k)) == Without(Numbers(b), k);
    WithoutNumbers(Numbers(b), k);
    assert RetiredNumbers(retired + [e]) == RetiredNumbers(retired) + [e.number];
  }

  /** Retiring one buffered datagram. */
  lemma RetireSound(cfg: Config, s: State, k: nat, e: Retired, w: Scope)
    requires Sound(cfg, s, w) && k < |s.buffer| && e.number == s.buffer[k].number
    requires e.ByConfirm? ==> e.ref == s.buffer[k].Id()
    requires e.WithClient? && w.Window? ==> e.fd == s.buffer[k].peer.fd
    ensures Sound(cfg, Drop(s, k, e), w)
  {
    hide Conserved, Roll, Farewells, Executions, Confirms, Numbered, TimesResent, Spread, HasFd;
    RetireConserves(s.buffer, s.sent, s.retired, k, e);
  }

  lemma OwnedShrinks(cs: seq<Client>, k: nat, b: seq<Pending>)
    requires Owned(cs, b) && k < |cs| && forall j | 0 <= j < |b| :: b[j].peer.fd != cs[k].fd
    ensures Owned(Without(cs, k), b)
  {
    forall j | 0 <= j < |b| ensures HasFd(Without(cs, k), b[j].peer.fd) {
      var i :| 0 <= i < |cs| && cs[i].fd == b[j].peer.fd;
      assert i < k ==> Without(cs, k)[i] == cs[i];
      assert i > k ==> Without(cs, k)[i - 1] == cs[i];
    }
  }

  lemma WithoutAt<T>(s: seq<T>, k: nat)
    requires k < |s|
    ensures forall i | 0 <= i < |s| - 1 :: Without(s, k)[i] == s[if i < k then i else i + 1]
  {
  }

  lemma RemoveClients(cs: seq<Client>, k: nat, joined: nat, b: seq<Pending>)
    requires Roll(cs, joined) && Addressed(cs, b) && k < |cs|
    ensures Roll(Without(cs, k), joined) && Addressed(Without(cs, k), b)
  {
    hide Represents, Without;
    WithoutAt(cs, k);
  }

  lemma RemoveHistory(cs: seq<Client>, k: nat, joined: nat, sent: seq<Sent>, ex: seq<Execution>)
    requires Farewells(cs, sent, joined) && Executions(cs, ex, joined) && k < |cs|
    ensures Farewells(Without(cs, k), sent, joined) && Executions(Without(cs, k), ex, joined)
  {
    hide Without;
    WithoutAt(cs, k);
  }

  lemma RemoveSound(cfg: Config, s: State, k: nat, w: Scope)
    requires Sound(cfg, s, w) && k < |s.clients|
    requires w.Window? && w.owned ==> forall j | 0 <= j < |s.buffer| :: s.buffer[j].peer.fd != s.clients[k].fd
    ensures Sound(cfg, s.(clients := Without(s.clients, k)), w)
  {
    hide Ledger, Confirms, Owned, Attributed, Roll, Addressed, Farewells, Executions, Without;
    var cs := s.clients;
    if w.Window? && w.owned { OwnedShrinks(cs, k, s.buffer); }
    RemoveClients(cs, k, s.joined, s.buffer);
    RemoveHistory(cs, k, s.joined, s.sent, s.executed);
    assert forall i | 0 <= i < |cs| - 1 :: Without(cs, k)[i] == cs[if i < k then i else i + 1] by { WithoutAt(cs, k); }
  }

  lemma OwnedGrows(cs: seq<Client>, c: Client, b: seq<Pending>)
    requires Owned(cs, b)
    ensures Owned(cs + [c], b)
  {
    forall fd | HasFd(cs, fd) ensures HasFd(cs + [c], fd) {
      var i :| 0 <= i < |cs| && cs[i].fd == fd;
      assert (cs + [c])[i] == cs[i];
    }
  }

  lemma EnlistSound(cfg: Config, s: State, c: Client, w: Scope)
    requires Sound(cfg, s, w) && Unused(s, c.fd) && c == Newcomer(s, c.fd, c.protocol, c.addr)
    requires w.Window? ==> Spread(s.clients + [c])
    ensures Sound(cfg, Enlist(s, c), w)
  {
    hide Ledger, Confirms, Owned, Attributed, Spread;
    if w.Window? && w.owned { OwnedGrows(s.clients, c, s.buffer); }
  }

  /** Recording a fresh identifier. */
  lemma NotedSound(cfg: Config, s: State, i: nat, id: nat, w: Scope)
    requires Sound(cfg, s, w) && i < |s.clients|
    ensures Sound(cfg, Update(s, i, Noted(s.clients[i], id)), w)
  {
    hide Ledger, Confirms, Represents, Record, Owned, Attributed;
    RecordRepresents(s.clients[i].ring, s.clients[i].seen, id);
    OwnedFrame(s.clients, i, Noted(s.clients[i], id), s.buffer);
  }

  lemma ExecutionOrder(cs: seq<Client>, ex: seq<Execution>, joined: nat, i: nat, id: nat)
    requires Roll(cs, joined) && Executions(cs, ex, joined) && i < |cs| && id !in Recent(cs[i].seen)
    ensures Executions(cs[i := Noted(cs[i], id)], ex + [Execution(cs[i].serial, |cs[i].seen|, id)], joined)
  {
    hide Represents, Record;
    var c, n := cs[i], |cs[i].seen|;
    assert forall j | n - Depth(n) <= j < n :: c.seen[j] == Recent(c.seen)[j - (n - Depth(n))];
  }

  /** Executing what was just recorded, when the ring did not know it. */
  lemma ExecutionSound(cfg: Config, s: State, i: nat, id: nat, w: Scope)
    requires Sound(cfg, s, w) && i < |s.clients| && !Contains(s.clients[i].ring, id)
    ensures var c := s.clients[i];
            var t := Update(s, i, Noted(c, id));
            Sound(cfg, t.(executed := s.executed + [Execution(c.serial, |c.seen|, id)]), w)
  {
    hide Ledger, Confirms, Represents, Record, Contains, Farewells, Addressed, Executions, Recent, Kept;
    var c := s.clients[i];
    NotedSound(cfg, s, i, id, w);
    ContainsIsRecent(c.ring, c.seen, id);
    ExecutionOrder(s.clients, s.executed, s.joined, i, id);
  }

  lemma SweepRepeats(cfg: Config, b: seq<Pending>, sent: seq<Sent>, resent: seq<Resent>, k: nat)
    requires Copies(b, sent) && Repeats(cfg, b, sent, resent) && k < |b|
    requires b[k].retry < cfg.retries
    ensures Repeats(cfg, b[k := b[k].(timer := cfg.timeout, retry := b[k].retry + 1)], sent,
                    resent + [Resent(b[k].number, Sent(b[k].peer, b[k].msg))])
  {
    var r := resent + [Resent(b[k].number, Sent(b[k].peer, b[k].msg))];
    assert r[..|resent|] == resent;
    assert forall n: nat :: TimesResent(r, n) == TimesResent(resent, n) + if n == b[k].number then 1 else 0;
  }

  lemma AgeSound(cfg: Config, t: State, k: nat, w: Scope)
    requires Sound(cfg, t, w) && k < |t.buffer|
    ensures var p := t.buffer[k];
            var r := t.(buffer := t.buffer[k := Aged(cfg, p)]);
            Sound(cfg, if Due(p) && p.retry < cfg.retries
                       then r.(resent := t.resent + [Resent(p.number, Sent(p.peer, p.msg))]) else r, w)
  {
    hide Roll, Farewells, Executions, Confirms, Numbered, TimesResent, TrackedNumbers, Spread, HasFd, Attributed;
    var p := t.buffer[k];
    assert Numbers(t.buffer[k := Aged(cfg, p)]) == Numbers(t.buffer);
    if Due(p) && p.retry < cfg.retries {
      SweepRepeats(cfg, t.buffer, t.sent, t.resent, k);
    }
  }

  /** The sweep changes timers and retries, and nothing else the invariant speaks of. */
  lemma {:induction false} SweepSound(cfg: Config, s: State, k: nat, w: Scope)
    requires Sound(cfg, s, w) && k <= |s.buffer|
    ensures Sound(cfg, Sweep(cfg, s, k).0, w)
  {
    hide Sound, Aged;
    if k > 0 {
      SweepSound(cfg, s, k - 1, w);
      AgeSound(cfg, Sweep(cfg, s, k - 1).0, k - 1, w);
    }
  }
}
