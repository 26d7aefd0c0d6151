/** What becomes of one unconfirmed datagram, and of an interrupted server, when only idle ticks follow. */
module Expiry {
  import opened Types
  import opened Session
  import opened Books
  import opened Routines
  import opened Runs
  import opened Phases
  import opened Reaper
  import opened Timer
  import opened Shutdown

  // ----- The buffer only ever gains new send numbers -----

  /** Everything buffered in `r` was buffered in `s` or has been sent since. */
  ghost predicate Stems(s: State, r: State) {
    && |s.sent| <= |r.sent|
    && forall p | p in r.buffer :: p in s.buffer || p.number >= |s.sent|
  }

  lemma {:induction false} ForwardStems(cfg: Config, s: State, from: Client, m: Message, j: nat)
    requires j <= |s.clients|
    ensures Stems(s, Forward(cfg, s, from, m, j))
    decreases |s.clients| - j
  {
    hide Message.WithId, IdOf;
    if j < |s.clients| {
      var c := s.clients[j];
      ForwardStems(cfg, if Reaches(from, from.channel, c) then Transmit(cfg, s, c.AsPeer(), m) else s, from, m, j + 1);
    }
  }

  lemma {:induction false} PurgeStems(s: State, c: Client, k: nat)
    requires k <= |s.buffer|
    ensures Stems(s, Purge(s, c, k))
    decreases |s.buffer| - k
  {
    hide IdOf;
    if k < |s.buffer| {
      if s.buffer[k].peer.fd == c.fd {
        var j := FindId(s.buffer, s.buffer[k].Id());
        PurgeStems(Drop(s, j, WithClient(s.buffer[j].number, c.serial, c.fd)), c, k);
      } else {
        PurgeStems(s, c, k + 1);
      }
    }
  }

  lemma DestroyStems(cfg: Config, s: State, fd: int)
    ensures Stems(s, Destroy(cfg, s, fd))
  {
    hide Forward, Purge, FindClientId, IdOf, Message.WithId;
    var i := FindFd(s.clients, fd);
    if i < |s.clients| {
      PurgeStems(s, s.clients[i], 0);
      var f := Farewell(cfg, s, i);
      PurgeStems(f, f.clients[i], 0);
      ForwardStems(cfg, f, f.clients[i], Left(f.clients[i]), 0);
    }
  }

  lemma {:induction false} DestroyAllStems(cfg: Config, s: State, doomed: seq<Option<int>>)
    ensures Stems(s, DestroyAll(cfg, s, doomed))
    decreases |doomed|
  {
    hide Destroy;
    if doomed != [] {
      if doomed[0].Some? { DestroyStems(cfg, s, doomed[0].value); }
      DestroyAllStems(cfg, if doomed[0].Some? then Destroy(cfg, s, doomed[0].value) else s, doomed[1..]);
    }
  }

  /** After a tick the buffer holds aged survivors and new datagrams. */
  lemma TickSurvivors(cfg: Config, s: State, k: nat)
    requires k < |Tick(cfg, s).buffer| && Tick(cfg, s).buffer[k].number < |s.sent|
    ensures Tick(cfg, s).stopped || exists j :: 0 <= j < |s.buffer| && Tick(cfg, s).buffer[k] == Aged(cfg, s.buffer[j])
  {
    hide Sweep, DestroyAll, Aged;
    var t := Countdown(s);
    if !t.stopped {
      var (u, doomed) := Sweep(cfg, t, |t.buffer|);
      DestroyAllStems(cfg, u, doomed);
      assert Tick(cfg, s).buffer[k] in u.buffer;
    }
  }

  ghost predicate Buffered(s: State, number: nat) { exists k :: 0 <= k < |s.buffer| && s.buffer[k].number == number }

  /** A send number that has left the buffer never comes back. */
  lemma {:induction false} NeverReturns(cfg: Config, s: State, number: nat, n: nat)
    requires number < |s.sent| && !Buffered(s, number)
    ensures !Buffered(Ticks(cfg, s, n), number)
    decreases n
  {
    hide Tick, Aged;
    if n > 0 {
      var r := Step(cfg, s, Idle);
      if r != s && Buffered(r, number) {
        var k :| 0 <= k < |r.buffer| && r.buffer[k].number == number;
        TickSurvivors(cfg, s, k);
        StoppedKeepsBuffer(cfg, s);
        if !r.stopped {
          var j :| 0 <= j < |s.buffer| && r.buffer[k] == Aged(cfg, s.buffer[j]);
          AgedNumber(cfg, s.buffer[j]);
        }
        assert false;
      }
      NeverReturns(cfg, r, number, n - 1);
    }
  }

  lemma StoppedKeepsBuffer(cfg: Config, s: State)
    ensures Tick(cfg, s).stopped && !s.stopped ==> Tick(cfg, s).buffer == s.buffer
  {
    hide Sweep, DestroyAll;
  }

  lemma AgedNumber(cfg: Config, p: Pending)
    ensures Aged(cfg, p).number == p.number && Aged(cfg, p).peer == p.peer
  {
  }

  // ----- Expiry -----

  /** Client `serial` is listed on `fd`; it has ended, or has not. */
  ghost predicate Listed(cs: seq<Client>, serial: int, fd: int, ended: bool) {
    exists i :: 0 <= i < |cs| && cs[i].serial == serial && cs[i].fd == fd && (cs[i].phase == End) == ended
  }

  /** Between `s` and `r` the client of `p` was closed, and `p`, with no retransmission left, waits for its deletion. */
  ghost predicate ClosedOver(cfg: Config, s: State, r: State, p: Pending) {
    && Listed(s.clients, p.peer.serial, p.peer.fd, false)
    && Listed(r.clients, p.peer.serial, p.peer.fd, true)
    && p.(timer := 0, retry := cfg.retries) in r.buffer
  }

  lemma {:induction false} ReapedEnds(cs: seq<Client>, fds: set<int>)
    ensures forall c | c in Reaped(cs, fds) && c.fd in fds ::
              c.phase == End && exists d | d in cs :: SameIdentity(d, c) && d.phase != End
    ensures forall c | c in Reaped(cs, fds) && c.phase != End :: c in cs
  {
    if cs != [] {
      ReapedEnds(cs[1..], fds);
      forall c | c in Reaped(cs, fds) && c.fd in fds
        ensures c.phase == End && exists d | d in cs :: SameIdentity(d, c) && d.phase != End
      {
        if c in Reaped(cs[1..], fds) {
          var d :| d in cs[1..] && SameIdentity(d, c) && d.phase != End;
          assert d in cs;
        } else {
          assert cs[0] in cs && SameIdentity(cs[0], c);
        }
      }
    }
  }

  lemma SameNumber(cfg: Config, s: State, w: Scope, j: nat, k: nat)
    requires Sound(cfg, s, w) && j < |s.buffer| && k < |s.buffer| && s.buffer[j].number == s.buffer[k].number
    ensures j == k && s.buffer[k].number < |s.sent|
  {
    hide Numbered, Conserved, Confirmed, Repeats, Roll, Addressed, Confirms, Farewells, Executions, Kept;
  }

  /** What is left of a buffered datagram after a tick is the datagram one tick older. */
  lemma SurvivesAged(cfg: Config, s: State, k: nat)
    requires Ready(cfg, s, false) && !s.stopped && k < |s.buffer| && Buffered(Tick(cfg, s), s.buffer[k].number)
    ensures exists j :: 0 <= j < |Tick(cfg, s).buffer| && Tick(cfg, s).buffer[j] == Aged(cfg, s.buffer[k])
  {
    hide Ready, Sound, Tick, Aged;
    var p, r := s.buffer[k], Tick(cfg, s);
    var w := Window(Oldest(s), false);
    ReadySound(cfg, s);
    SameNumber(cfg, s, w, k, k);
    TickFlags(cfg, s);
    var j :| 0 <= j < |r.buffer| && r.buffer[j].number == p.number;
    TickSurvivors(cfg, s, j);
    var i :| 0 <= i < |s.buffer| && r.buffer[j] == Aged(cfg, s.buffer[i]);
    AgedNumber(cfg, s.buffer[i]);
    SameNumber(cfg, s, w, i, k);
  }

  /** As long as datagram `number`, sent on `fd`, is buffered, some client has that descriptor. */
  ghost predicate Sponsored(s: State, number: nat, fd: int) {
    forall p | p in s.buffer && p.number == number :: p.peer.fd == fd && HasFd(s.clients, fd)
  }

  lemma TouchedKeepsFd(s: State, r: State, i: nat, m: Message, fd: int)
    requires i < |s.clients| && Touched(s, r, i, m, true) && HasFd(s.clients, fd)
    requires s.clients[i].fd != fd || |r.clients| == |s.clients|
    ensures HasFd(r.clients, fd)
  {
    hide Unlinked;
    var j :| 0 <= j < |s.clients| && s.clients[j].fd == fd;
    if r.clients == Without(s.clients, i) {
      WithoutAt(s.clients, i);
      assert r.clients[if j < i then j else j - 1] == s.clients[j];
    } else {
      assert r.clients[j].fd == fd;
    }
  }

  /** Deleting a client takes its datagrams with it. */
  lemma DeleteSponsors(cfg: Config, s: State, i: nat, number: nat, fd: int, w: Scope)
    requires Sound(cfg, s, w) && w.Window? && i < |s.clients| && s.clients[i].fd == fd && Sponsored(s, number, fd)
    ensures Sponsored(Delete(s, i), number, fd)
  {
    hide Sound, Delete, HasFd;
    DeleteExact(cfg, s, i, w);
    OthersAre(s.buffer, fd);
  }

  lemma DestroySponsors(cfg: Config, s: State, gone: int, number: nat, fd: int, w: Scope)
    requires Sound(cfg, s, w) && w.Window? && Room(w, Destroy(cfg, s, gone).sent)
    requires number < |s.sent| && Sponsored(s, number, fd)
    ensures Sponsored(Destroy(cfg, s, gone), number, fd)
  {
    hide Sound, Close, Delete, Forward, HasFd, Touched, Farewell;
    var i, r := FindFd(s.clients, gone), Destroy(cfg, s, gone);
    DestroyStems(cfg, s, gone);
    if i < |s.clients| {
      DestroyTouched(cfg, s, gone, Bye(0), w);
      if gone != fd {
        if HasFd(s.clients, fd) { TouchedKeepsFd(s, r, i, Bye(0), fd); }
      } else if s.clients[i].phase == End {
        DeleteSponsors(cfg, s, i, number, fd, w);
      } else if s.clients[i].protocol == Udp {
        ClosedStaysListed(cfg, s, i);
        if HasFd(s.clients, fd) { TouchedKeepsFd(s, r, i, Bye(0), fd); }
      } else {
        CloseSponsors(cfg, s, i, number, fd, w);
      }
    }
  }

  lemma ClosedStaysListed(cfg: Config, s: State, i: nat)
    requires i < |s.clients| && s.clients[i].protocol == Udp
    ensures var r := Close(cfg, s, i);
            |r.clients| == |s.clients| && |NotifyLeave(cfg, r, i).clients| == |s.clients|
  {
    hide Close, Forward;
    CloseShape(cfg, s, i);
    var r := Close(cfg, s, i);
    ForwardKeepsClients(cfg, r, r.clients[i], Left(r.clients[i]), 0);
  }

  lemma CloseSponsors(cfg: Config, s: State, i: nat, number: nat, fd: int, w: Scope)
    requires Sound(cfg, s, w) && w.Window? && i < |s.clients| && Room(w, Close(cfg, s, i).sent)
    requires s.clients[i].protocol == Tcp && s.clients[i].fd == fd && number < |s.sent| && Sponsored(s, number, fd)
    ensures Sponsored(Close(cfg, s, i), number, fd)
  {
    hide Sound, Delete, IdOf, Message.WithId;
    var f := Farewell(cfg, s, i);
    FarewellSound(cfg, s, i, w);
    DeleteExact(cfg, f, i, w);
    OthersAre(f.buffer, fd);
    assert f.clients[i].fd == fd;
  }

  lemma {:induction false} DestroyAllSponsors(cfg: Config, s: State, doomed: seq<Option<int>>,
                                             number: nat, fd: int, w: Scope)
    requires Sound(cfg, s, w) && w.Window? && Room(w, DestroyAll(cfg, s, doomed).sent)
    requires number < |s.sent| && Sponsored(s, number, fd)
    ensures Sponsored(DestroyAll(cfg, s, doomed), number, fd)
    decreases |doomed|
  {
    hide Sound, Destroy, Sponsored;
    if doomed != [] {
      var t := if doomed[0].Some? then Destroy(cfg, s, doomed[0].value) else s;
      if doomed[0].Some? {
        DestroySound(cfg, s, doomed[0].value, w);
        DestroySponsors(cfg, s, doomed[0].value, number, fd, w);
      }
      DestroyAllSponsors(cfg, t, doomed[1..], number, fd, w);
    }
  }

  /** A tick that leaves an owned datagram buffered leaves its owner listed, whatever else is buffered. */
  lemma TickSponsors(cfg: Config, s: State, k: nat)
    requires Ready(cfg, s, false) && !s.stopped && k < |s.buffer| && HasFd(s.clients, s.buffer[k].peer.fd)
    requires Buffered(Tick(cfg, s), s.buffer[k].number)
    ensures HasFd(Tick(cfg, s).clients, s.buffer[k].peer.fd)
  {
    hide Sound, SilenceFits, Sweep, DestroyAll, HasFd, Aged;
    var w, p := Window(Oldest(s), false), s.buffer[k];
    var t := Countdown(s);
    TimersSound(cfg, s, t, w);
    SweepSound(cfg, t, |t.buffer|, w);
    var (u, doomed) := Sweep(cfg, t, |t.buffer|);
    SameNumber(cfg, s, w, k, k);
    forall q | q in u.buffer && q.number == p.number ensures q.peer.fd == p.peer.fd {
      var j :| 0 <= j < |u.buffer| && u.buffer[j] == q;
      AgedNumber(cfg, s.buffer[j]);
      SameNumber(cfg, s, w, j, k);
    }
    TickRoom(cfg, s);
    DestroyAllSponsors(cfg, u, doomed, p.number, p.peer.fd, w);
    var r := Tick(cfg, s);
    var j :| 0 <= j < |r.buffer| && r.buffer[j].number == p.number;
    assert r.buffer[j] in r.buffer;
  }

  /** The client on the descriptor of a buffered datagram is the one it was sent to. */
  lemma OwnerListed(cfg: Config, s: State, p: Pending) returns (c: Client)
    requires Ready(cfg, s, false) && p in s.buffer && HasFd(s.clients, p.peer.fd)
    ensures c in s.clients && c.serial == p.peer.serial && c.fd == p.peer.fd
  {
    hide Ledger, Roll, Confirms, Farewells, Executions, Spread, Attributed, SilenceFits;
    var k :| 0 <= k < |s.buffer| && s.buffer[k] == p;
    var i :| 0 <= i < |s.clients| && s.clients[i].fd == p.peer.fd;
    c := s.clients[i];
  }

  lemma SpentAges(cfg: Config, p: Pending)
    requires Spent(cfg, p) && p.retry <= cfg.retries
    ensures Aged(cfg, p) == p.(timer := 0, retry := cfg.retries)
  {
  }

  lemma InList(cs: seq<Client>, c: Client)
    requires c in cs
    ensures Listed(cs, c.serial, c.fd, c.phase == End)
  {
  }

  /** A condemned client that is still listed was closed just now. */
  lemma ReapedOwner(cs: seq<Client>, fds: set<int>, c: Client)
    requires c in Reaped(cs, fds) && c.fd in fds
    ensures c.phase == End && Listed(cs, c.serial, c.fd, false)
  {
    hide Reaped, Listed;
    ReapedEnds(cs, fds);
    var d :| d in cs && SameIdentity(d, c) && d.phase != End;
    InList(cs, d);
  }

  /** The last tick of a datagram's life: its client is deleted with it, or closed over it. */
  lemma SpentEnds(cfg: Config, s: State, k: nat)
    requires Ready(cfg, s, false) && !s.stopped && k < |s.buffer| && HasFd(s.clients, s.buffer[k].peer.fd)
    requires Spent(cfg, s.buffer[k]) && s.buffer[k].retry <= cfg.retries
    ensures var r, p := Tick(cfg, s), s.buffer[k]; !Buffered(r, p.number) || ClosedOver(cfg, s, r, p)
  {
    hide Ready, Tick, Spent, Reaped, Fds, Doomed, Condemned, Aged, Listed, HasFd;
    var r, p := Tick(cfg, s), s.buffer[k];
    if Buffered(r, p.number) {
      SpentAges(cfg, p);
      SurvivesAged(cfg, s, k);
      TickEffect(cfg, s);
      TickReady(cfg, s, false);
      SpentCondemns(cfg, s, k);
      TickSponsors(cfg, s, k);
      var c := OwnerListed(cfg, r, Aged(cfg, p));
      InList(r.clients, c);
      ReapedOwner(s.clients, Fds(Doomed(cfg, Countdown(s), |s.buffer|)), c);
    }
  }

  /** A client that has not ended after a tick had not ended before it. */
  lemma StillActive(cfg: Config, s: State, serial: int, fd: int)
    requires Ready(cfg, s, false) && s.buffer != [] && !s.stopped && Listed(Tick(cfg, s).clients, serial, fd, false)
    ensures Listed(s.clients, serial, fd, false)
  {
    hide Ready, Tick, Reaped, Fds, Doomed, Condemned;
    TickEffect(cfg, s);
    ReapedEnds(s.clients, Fds(Doomed(cfg, Countdown(s), |s.buffer|)));
    var r := Tick(cfg, s).clients;
    var i :| 0 <= i < |r| && r[i].serial == serial && r[i].fd == fd && r[i].phase != End;
    assert r[i] in r;
  }

  /**
   A datagram with a listed owner, left unconfirmed through idle ticks, has after exactly its `Life`
   left the buffer, or its client, which had not ended before, has been closed over it. Whether other
   datagrams have owners does not matter.
   */
  lemma {:induction false} Expires(cfg: Config, s: State, k: nat)
    requires Ready(cfg, s, false) && !s.stopped && k < |s.buffer| && HasFd(s.clients, s.buffer[k].peer.fd)
    requires s.buffer[k].retry <= cfg.retries
    ensures var p, r := s.buffer[k], Ticks(cfg, s, Life(cfg, s.buffer[k]));
            !Buffered(r, p.number) || ClosedOver(cfg, s, r, p)
    decreases Life(cfg, s.buffer[k])
  {
    hide Ready, Sound, Tick, Aged, Spent, ClosedOver, Life, HasFd;
    var p, r := s.buffer[k], Tick(cfg, s);
    OneTickOlder(cfg, p);
    LifeBounded(cfg, p);
    TickReady(cfg, s, false);
    TickFlags(cfg, s);
    ReadySound(cfg, s);
    SameNumber(cfg, s, Window(Oldest(s), false), k, k);
    assert Ticks(cfg, s, Life(cfg, p)) == Ticks(cfg, r, Life(cfg, p) - 1);
    if Spent(cfg, p) {
      SpentEnds(cfg, s, k);
    } else if Buffered(r, p.number) {
      SurvivesAged(cfg, s, k);
      TickSponsors(cfg, s, k);
      var j :| 0 <= j < |r.buffer| && r.buffer[j] == Aged(cfg, p);
      AgedNumber(cfg, p);
      Expires(cfg, r, j);
      if ClosedOver(cfg, r, Ticks(cfg, r, Life(cfg, p) - 1), r.buffer[j]) {
        ClosedBefore(cfg, s, k, j, Ticks(cfg, r, Life(cfg, p) - 1));
      }
    } else {
      NeverReturns(cfg, r, p.number, Life(cfg, p) - 1);
    }
  }

  lemma ClosedBefore(cfg: Config, s: State, k: nat, j: nat, u: State)
    requires Ready(cfg, s, false) && !s.stopped && k < |s.buffer| && j < |Tick(cfg, s).buffer|
    requires Tick(cfg, s).buffer[j] == Aged(cfg, s.buffer[k]) && ClosedOver(cfg, Tick(cfg, s), u, Tick(cfg, s).buffer[j])
    ensures ClosedOver(cfg, s, u, s.buffer[k])
  {
    var p := s.buffer[k];
    assert Aged(cfg, p).(timer := 0, retry := cfg.retries) == p.(timer := 0, retry := cfg.retries);
    hide Ready, Tick, Aged, Listed;
    AgedNumber(cfg, p);
    StillActive(cfg, s, p.peer.serial, p.peer.fd);
  }

  /** With a client that has ended, the datagram is gone at the end of its life. */
  lemma ExpiresEnded(cfg: Config, s: State, k: nat)
    requires Ready(cfg, s, false) && !s.stopped && k < |s.buffer| && HasFd(s.clients, s.buffer[k].peer.fd)
    requires s.buffer[k].retry <= cfg.retries
    requires Listed(s.clients, s.buffer[k].peer.serial, s.buffer[k].peer.fd, true)
    ensures !Buffered(Ticks(cfg, s, Life(cfg, s.buffer[k])), s.buffer[k].number)
  {
    hide Ready, Ticks, Life;
    Expires(cfg, s, k);
    ReadyDistinct(cfg, s);
  }

  /** However its client stood, an owned datagram is gone one full turn of the timer after its life. */
  lemma GoneForGood(cfg: Config, s: State, k: nat)
    requires Ready(cfg, s, false) && !s.stopped && k < |s.buffer| && HasFd(s.clients, s.buffer[k].peer.fd)
    requires s.buffer[k].retry <= cfg.retries
    ensures !Buffered(Ticks(cfg, s, Life(cfg, s.buffer[k]) + CYCLE), s.buffer[k].number)
  {
    hide Ready, Sound, Ticks, Tick, Life, Listed, Buffered, HasFd;
    var p := s.buffer[k];
    var n := Life(cfg, p);
    var r := Ticks(cfg, s, n);
    Expires(cfg, s, k);
    TicksReady(cfg, s, n);
    TicksAdd(cfg, s, n, CYCLE);
    ReadySound(cfg, s);
    SameNumber(cfg, s, Window(Oldest(s), false), k, k);
    if Buffered(r, p.number) {
      var q := p.(timer := 0, retry := cfg.retries);
      var j :| 0 <= j < |r.buffer| && r.buffer[j] == q;
      FullTurn(cfg, q);
      StoppedDrained(cfg, s, n);
      ListedHasFd(r.clients, q.peer.serial, q.peer.fd);
      ExpiresEnded(cfg, r, j);
    } else {
      TicksSent(cfg, s, n);
      NeverReturns(cfg, r, p.number, CYCLE);
    }
  }

  lemma ListedHasFd(cs: seq<Client>, serial: int, fd: int)
    requires Listed(cs, serial, fd, true)
    ensures HasFd(cs, fd)
  {
  }

  lemma FullTurn(cfg: Config, q: Pending)
    requires q.timer == 0 && q.retry == cfg.retries
    ensures Life(cfg, q) == CYCLE
  {
    assert TicksToZero(0) == CYCLE;
    assert (cfg.retries - q.retry) * TicksToZero(cfg.timeout) == 0;
  }

  lemma ReadyDistinct(cfg: Config, s: State)
    requires Ready(cfg, s, false)
    ensures forall i, j | 0 <= i < j < |s.clients| :: s.clients[i].serial != s.clients[j].serial
  {
    hide Sound, SilenceFits;
    SoundDistinct(cfg, s, Window(Oldest(s), false));
  }

  lemma {:induction false} TicksReady(cfg: Config, s: State, n: nat)
    requires Ready(cfg, s, false)
    ensures Ready(cfg, Ticks(cfg, s, n), false)
    decreases n
  {
    hide Ready, Tick;
    if n > 0 {
      if !s.stopped { TickReady(cfg, s, false); }
      TicksReady(cfg, Step(cfg, s, Idle), n - 1);
    }
  }

  lemma {:induction false} TicksSent(cfg: Config, s: State, n: nat)
    ensures s.sent <= Ticks(cfg, s, n).sent
    decreases n
  {
    hide Step;
    if n > 0 { TicksSent(cfg, Step(cfg, s, Idle), n - 1); }
  }

  /** A server that stops has nothing left to confirm. */
  lemma {:induction false} StoppedDrained(cfg: Config, s: State, n: nat)
    requires s.stopped ==> s.buffer == []
    ensures Ticks(cfg, s, n).stopped ==> Ticks(cfg, s, n).buffer == []
    decreases n
  {
    if n > 0 {
      StopsEmpty(cfg, s);
      hide Step;
      StoppedDrained(cfg, Step(cfg, s, Idle), n - 1);
    }
  }

  lemma StopsEmpty(cfg: Config, s: State)
    requires s.stopped ==> s.buffer == []
    ensures Step(cfg, s, Idle).stopped ==> Step(cfg, s, Idle).buffer == []
  {
    hide Sweep, DestroyAll;
  }

  lemma ReadySound(cfg: Config, s: State)
    requires Ready(cfg, s, false)
    ensures Sound(cfg, s, Window(Oldest(s), false))
  {
  }

  // ----- Datagrams nobody owns -----

  /** A datagram on a descriptor no client has. */
  ghost predicate Orphan(s: State, number: nat, fd: int) {
    !HasFd(s.clients, fd) && exists k :: 0 <= k < |s.buffer| && s.buffer[k].number == number && s.buffer[k].peer.fd == fd
  }

  lemma TouchedFds(s: State, r: State, i: nat, m: Message, fd: int)
    requires i < |s.clients| && Touched(s, r, i, m, true) && HasFd(r.clients, fd)
    ensures HasFd(s.clients, fd)
  {
    var j :| 0 <= j < |r.clients| && r.clients[j].fd == fd;
    if r.clients == Without(s.clients, i) {
      assert s.clients[if j < i then j else j + 1].fd == fd;
    } else {
      assert s.clients[j].fd == fd;
    }
  }

  lemma {:induction false} ForwardExtends(cfg: Config, s: State, from: Client, m: Message, j: nat)
    requires j <= |s.clients|
    ensures s.buffer <= Forward(cfg, s, from, m, j).buffer
    decreases |s.clients| - j
  {
    hide Message.WithId, IdOf;
    if j < |s.clients| {
      var c := s.clients[j];
      ForwardExtends(cfg, if Reaches(from, from.channel, c) then Transmit(cfg, s, c.AsPeer(), m) else s, from, m, j + 1);
    }
  }

  lemma InPrefix<T>(a: seq<T>, b: seq<T>, x: T)
    requires a <= b && x in a
    ensures x in b
  {
    var i :| 0 <= i < |a| && a[i] == x;
    assert b[i] == x;
  }

  /** Destroying a client leaves alone what was sent on other descriptors. */
  lemma DestroyKeeps(cfg: Config, s: State, fd: int, p: Pending, w: Scope)
    requires Sound(cfg, s, w) && w.Window? && Room(w, Destroy(cfg, s, fd).sent)
    requires p in s.buffer && !HasFd(s.clients, p.peer.fd)
    ensures p in Destroy(cfg, s, fd).buffer && !HasFd(Destroy(cfg, s, fd).clients, p.peer.fd)
  {
    hide Sound, Forward, Purge, FindClientId, IdOf, Message.WithId, Touched;
    var i := FindFd(s.clients, fd);
    if i < |s.clients| {
      DestroyTouched(cfg, s, fd, Bye(0), w);
      if HasFd(Destroy(cfg, s, fd).clients, p.peer.fd) {
        TouchedFds(s, Destroy(cfg, s, fd), i, Bye(0), p.peer.fd);
        assert false;
      }
      var f := Farewell(cfg, s, i);
      if s.clients[i].phase == End {
        DeleteExact(cfg, s, i, w);
        OthersAre(s.buffer, s.clients[i].fd);
      } else if s.clients[i].protocol == Udp {
        ForwardExtends(cfg, f, f.clients[i], Left(f.clients[i]), 0);
        InPrefix(s.buffer, Destroy(cfg, s, fd).buffer, p);
      } else {
        FarewellSound(cfg, s, i, w);
        DeleteExact(cfg, f, i, w);
        OthersAre(f.buffer, f.clients[i].fd);
      }
    }
  }

  lemma {:induction false} DestroyAllKeeps(cfg: Config, s: State, doomed: seq<Option<int>>, p: Pending, w: Scope)
    requires Sound(cfg, s, w) && w.Window? && Room(w, DestroyAll(cfg, s, doomed).sent)
    requires p in s.buffer && !HasFd(s.clients, p.peer.fd)
    ensures p in DestroyAll(cfg, s, doomed).buffer && !HasFd(DestroyAll(cfg, s, doomed).clients, p.peer.fd)
    decreases |doomed|
  {
    hide Sound, Destroy, HasFd;
    if doomed != [] {
      var t := if doomed[0].Some? then Destroy(cfg, s, doomed[0].value) else s;
      if doomed[0].Some? {
        DestroySound(cfg, s, doomed[0].value, w);
        DestroyKeeps(cfg, s, doomed[0].value, p, w);
      }
      DestroyAllKeeps(cfg, t, doomed[1..], p, w);
    }
  }

  lemma OrphanStays(cfg: Config, s: State, number: nat, fd: int)
    requires Ready(cfg, s, false) && !s.stopped && Orphan(s, number, fd)
    ensures !Tick(cfg, s).stopped && Orphan(Tick(cfg, s), number, fd)
  {
    hide Sound, SilenceFits, Sweep, DestroyAll, HasFd, Aged;
    var w := Window(Oldest(s), false);
    var t := Countdown(s);
    TimersSound(cfg, s, t, w);
    TickRoom(cfg, s);
    SweepSound(cfg, t, |t.buffer|, w);
    var (u, doomed) := Sweep(cfg, t, |t.buffer|);
    var k :| 0 <= k < |s.buffer| && s.buffer[k].number == number && s.buffer[k].peer.fd == fd;
    AgedNumber(cfg, s.buffer[k]);
    DestroyAllKeeps(cfg, u, doomed, u.buffer[k], w);
  }

  /** A server that waits for a confirmation from nobody waits for ever. */
  lemma {:induction false} OrphanHangs(cfg: Config, s: State, number: nat, fd: int, k: nat)
    requires Ready(cfg, s, false) && !s.stopped && Orphan(s, number, fd)
    ensures !Ticks(cfg, s, k).stopped
    decreases k
  {
    hide Ready, Tick, Orphan;
    if k > 0 {
      TickReady(cfg, s, false);
      OrphanStays(cfg, s, number, fd);
      OrphanHangs(cfg, Tick(cfg, s), number, fd, k - 1);
    }
  }

  // ----- Runs that end in silence -----

  function Silence(k: nat): seq<Event> {
    if k == 0 then [] else [Idle] + Silence(k - 1)
  }

  /** However long the silence lasts, the run stays in the window. */
  ghost predicate NarrowInSilence(cfg: Config, es: seq<Event>) {
    forall j: nat :: Narrow(cfg, es + Silence(j))
  }

  lemma SilenceSnoc(es: seq<Event>, j: nat)
    ensures es + Silence(j + 1) == (es + Silence(j)) + [Idle]
    ensures es + Silence(0) == es
  {
    SilenceEnds(j);
  }

  lemma {:induction false} SilenceEnds(j: nat)
    ensures Silence(j + 1) == Silence(j) + [Idle]
  {
    if j > 0 { SilenceEnds(j - 1); }
  }

  /** The silence of a run, seen from the state it starts in. */
  lemma NarrowFits(cfg: Config, es: seq<Event>)
    requires NarrowInSilence(cfg, es)
    ensures Narrow(cfg, es) && SilenceFits(cfg, Run(cfg, es))
  {
    hide Run, Narrow, Step, Ticks, Silence;
    SilenceSnoc(es, 0);
    assert Narrow(cfg, es + Silence(0));
    var s := Run(cfg, es);
    forall j: nat ensures |Ticks(cfg, s, j + 1).sent| <= Oldest(Ticks(cfg, s, j)) + 0x1_0000 {
      assert Narrow(cfg, es + Silence(j + 1));
      SilenceSnoc(es, j);
      NarrowStep(cfg, es + Silence(j));
      RunTicks(cfg, es, j);
      RunTicks(cfg, es, j + 1);
    }
  }

  lemma NarrowStep(cfg: Config, es: seq<Event>)
    ensures Narrow(cfg, es + [Idle]) <==> Narrow(cfg, es) && |Run(cfg, es + [Idle]).sent| <= Oldest(Run(cfg, es)) + 0x1_0000
  {
    hide Step;
    assert (es + [Idle])[..|es|] == es;
  }

  /** Room for a message to each active client for each active client is enough. */
  lemma RoomySilence(cfg: Config, es: seq<Event>)
    requires Legal(cfg, es) && Narrow(cfg, es) && Roomy(Run(cfg, es))
    ensures NarrowInSilence(cfg, es)
  {
    hide Run, Legal, Narrow, Sound, Roomy;
    RunSound(cfg, es, true, false);
    RoomyFits(cfg, Run(cfg, es), false);
    forall j: nat ensures Narrow(cfg, es + Silence(j)) { FitsNarrow(cfg, es, j); }
  }

  lemma {:induction false} FitsNarrow(cfg: Config, es: seq<Event>, j: nat)
    requires Narrow(cfg, es) && SilenceFits(cfg, Run(cfg, es))
    ensures Narrow(cfg, es + Silence(j))
  {
    hide Run, Narrow, Ticks, Silence;
    if j == 0 {
      SilenceSnoc(es, 0);
    } else {
      FitsNarrow(cfg, es, j - 1);
      SilenceSnoc(es, j - 1);
      NarrowStep(cfg, es + Silence(j - 1));
      RunTicks(cfg, es, j - 1);
      RunTicks(cfg, es, j);
      assert |Ticks(cfg, Run(cfg, es), (j - 1) + 1).sent| <= Oldest(Ticks(cfg, Run(cfg, es), j - 1)) + 0x1_0000;
    }
  }

  lemma {:induction false} RunTicks(cfg: Config, es: seq<Event>, k: nat)
    ensures Run(cfg, es + Silence(k)) == Ticks(cfg, Run(cfg, es), k)
    decreases k
  {
    hide Step;
    if k == 0 {
      assert es + [] == es;
    } else {
      assert es + Silence(k) == (es + [Idle]) + Silence(k - 1);
      assert (es + [Idle])[..|es|] == es;
      RunTicks(cfg, es + [Idle], k - 1);
    }
  }

  lemma StepStopTimer(cfg: Config, s: State, e: Event)
    requires s.stopTimer <= STOP_TIMEOUT
    ensures Step(cfg, s, e).stopTimer <= STOP_TIMEOUT
  {
    hide Process, Transmit, Close, Sweep, DestroyAll, HangUp;
  }

  lemma {:induction false} RunStopTimer(cfg: Config, es: seq<Event>)
    ensures Run(cfg, es).stopTimer <= STOP_TIMEOUT
  {
    hide Step;
    if es != [] {
      RunStopTimer(cfg, es[..|es| - 1]);
      StepStopTimer(cfg, Run(cfg, es[..|es| - 1]), es[|es| - 1]);
    }
  }

  /**
   In every run that goes silent, an unconfirmed datagram with a live owner is transmitted at most
   `1 + retries` times. Once its `Life` is over it has left the buffer, or its client, not ended
   before, has been closed over it; after one more turn of the timer it has left the buffer.
   */
  lemma ExpiresInRun(cfg: Config, es: seq<Event>, k: nat)
    requires Legal(cfg, es) && NarrowInSilence(cfg, es) && !Run(cfg, es).stopped
    requires var s := Run(cfg, es); k < |s.buffer| && HasFd(s.clients, s.buffer[k].peer.fd)
    ensures var s, p := Run(cfg, es), Run(cfg, es).buffer[k];
            && p.retry <= cfg.retries
            && var r := Run(cfg, es + Silence(Life(cfg, p)));
            && (!Buffered(r, p.number) || ClosedOver(cfg, s, r, p))
            && !Buffered(Run(cfg, es + Silence(Life(cfg, p) + CYCLE)), p.number)
            && TimesResent(Run(cfg, es + Silence(Life(cfg, p) + CYCLE)).resent, p.number) <= cfg.retries
  {
    hide Run, Legal, Narrow, NarrowInSilence, SilenceFits, Sound, HasFd;
    hide Ticks, Silence, ClosedOver, Buffered, Life, TimesResent;
    var s := Run(cfg, es);
    NarrowFits(cfg, es);
    RunSound(cfg, es, true, false);
    SoundRetry(cfg, s, Window(Oldest(s), false));
    var n := Life(cfg, s.buffer[k]);
    Expires(cfg, s, k);
    GoneForGood(cfg, s, k);
    RunTicks(cfg, es, n);
    RunTicks(cfg, es, n + CYCLE);
    SilenceLegal(cfg, es, n + CYCLE);
    Retransmissions(cfg, es + Silence(n + CYCLE), s.buffer[k].number);
  }

  lemma {:induction false} SilenceLegal(cfg: Config, es: seq<Event>, k: nat)
    requires Legal(cfg, es)
    ensures Legal(cfg, es + Silence(k))
    decreases k
  {
    hide Run, Unused, Fits, HasFd;
    if k == 0 {
      assert es + [] == es;
    } else {
      assert es + Silence(k) == (es + [Idle]) + Silence(k - 1);
      assert (es + [Idle])[..|es|] == es;
      SilenceLegal(cfg, es + [Idle], k - 1);
    }
  }

  /**
   Shutdown: however the run began, after an interrupt and then silence the server stops, within
   a number of ticks bounded by its clients, the retransmissions and the cycle of the timer.
   */
  lemma ShutdownTerminates(cfg: Config, es: seq<Event>, i: nat) returns (k: nat)
    requires Legal(cfg, es) && NarrowInSilence(cfg, es) && Sheltered(cfg, es) && i < |es| && es[i].Interrupt?
    ensures Run(cfg, es + Silence(k)).stopped
    ensures k <= Weight(Run(cfg, es).clients) * (cfg.retries + 1) * 0x1_0000 + 8
  {
    hide Run, Legal, Narrow, NarrowInSilence, SilenceFits, Sheltered, Sound, Active, Ticks, Silence;
    var s := Run(cfg, es);
    NarrowFits(cfg, es);
    RunSound(cfg, es, true, true);
    RunOrderly(cfg, es, true);
    RunStopTimer(cfg, es);
    if s.stopped {
      k := 0;
      NoTicks(cfg, s);
    } else {
      k := IdleServerStops(cfg, s);
      Reassociate(Weight(s.clients), cfg.retries + 1);
    }
    RunTicks(cfg, es, k);
    assert Weight(s.clients) * (cfg.retries + 1) * 0x1_0000 >= 0;
  }

  lemma NoTicks(cfg: Config, s: State)
    ensures Ticks(cfg, s, 0) == s
  {
  }

  lemma Reassociate(a: nat, b: nat)
    ensures a * (b * 0x1_0000) == a * b * 0x1_0000
  {
  }

  /** In silence an interrupted server stops if and only if every buffered datagram has a live owner. */
  lemma StopsIffOwned(cfg: Config, es: seq<Event>, i: nat)
    requires Legal(cfg, es) && NarrowInSilence(cfg, es) && i < |es| && es[i].Interrupt? && !Run(cfg, es).stopped
    ensures (exists k :: Run(cfg, es + Silence(k)).stopped) <==> Owned(Run(cfg, es).clients, Run(cfg, es).buffer)
  {
    hide Run, Legal, Narrow, NarrowInSilence, SilenceFits, Sound, Active, Ticks, Silence, HasFd;
    var s := Run(cfg, es);
    NarrowFits(cfg, es);
    RunSound(cfg, es, true, false);
    RunOrderly(cfg, es, true);
    RunStopTimer(cfg, es);
    if Owned(s.clients, s.buffer) {
      NowOwned(cfg, s);
      var k := IdleServerStops(cfg, s);
      RunTicks(cfg, es, k);
    } else {
      var j :| 0 <= j < |s.buffer| && !HasFd(s.clients, s.buffer[j].peer.fd);
      forall k: nat ensures !Run(cfg, es + Silence(k)).stopped {
        RunTicks(cfg, es, k);
        OrphanHangs(cfg, s, s.buffer[j].number, s.buffer[j].peer.fd, k);
      }
    }
  }

  lemma NowOwned(cfg: Config, s: State)
    requires Sound(cfg, s, Window(Oldest(s), false)) && Owned(s.clients, s.buffer)
    ensures Sound(cfg, s, Window(Oldest(s), true))
  {
    hide Ledger, Roll, Addressed, Confirms, Farewells, Executions, Spread, Attributed, Owned;
  }
}
