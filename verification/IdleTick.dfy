/** What an idle tick does to the whole state: timers, retransmissions, and clients that do not answer. */
module IdleTick {
  import opened Types
  import opened Session
  import opened Books
  import opened Routines
  import opened Runs
  import opened Phases
  import opened Outcome
  import opened Reaper
  import opened Shutdown
  import opened Expiry

  // ----- What is expected of a tick -----

  /** A tick of 75 ms on a timer that wraps at 2^16 hits zero. */
  predicate Elapses(p: Pending) { (p.timer - 75) % 0x1_0000 == 0 }

  function Older(cfg: Config, p: Pending): Pending {
    if Elapses(p) && p.retry < cfg.retries then p.(timer := cfg.timeout, retry := p.retry + 1)
    else p.(timer := (p.timer - 75) % 0x1_0000)
  }

  function OlderAll(cfg: Config, b: seq<Pending>): (r: seq<Pending>)
    ensures |r| == |b| && forall k | 0 <= k < |b| :: r[k] == Older(cfg, b[k])
  {
    seq(|b|, k requires 0 <= k < |b| => Older(cfg, b[k]))
  }

  /** The datagrams whose time is up and that may be sent again, in order. */
  function Reminders(cfg: Config, b: seq<Pending>): seq<Resent> {
    if b == [] then []
    else
      var n := |b| - 1;
      Reminders(cfg, b[..n])
      + if Elapses(b[n]) && b[n].retry < cfg.retries then [Resent(b[n].number, Sent(b[n].peer, b[n].msg))] else []
  }

  /** The descriptors of clients with a datagram that may not be sent again, by the first such datagram. */
  ghost function Victims(cfg: Config, cs: seq<Client>, b: seq<Pending>): seq<int> {
    if b == [] then []
    else
      var n := |b| - 1;
      var v, fd := Victims(cfg, cs, b[..n]), b[n].peer.fd;
      if Elapses(b[n]) && b[n].retry >= cfg.retries && HasFd(cs, fd) && fd !in v then v + [fd] else v
  }

  /**
   What their treatment sends, numbered from `n`: a BYE to each that has not ended, followed by its
   leave notice to whoever hears it by then.
   */
  function Toll(cs: seq<Client>, fds: seq<int>, n: nat): seq<Sent>
    decreases |fds|
  {
    if fds == [] then []
    else
      var i := FindFd(cs, fds[0]);
      if i == |cs| then Toll(cs, fds[1..], n)
      else if cs[i].phase == End then Toll(cs[..i] + cs[i + 1..], fds[1..], n)
      else
        var out := Parting(cs, i, n);
        out + Toll(cs[i := cs[i].(phase := End)], fds[1..], n + |out|)
  }

  function Parting(cs: seq<Client>, i: nat, n: nat): seq<Sent>
    requires i < |cs|
  {
    var c, ended := cs[i], cs[i := cs[i].(phase := End)];
    [Sent(c.AsPeer(), Bye(IdOf(n)))]
    + Relays(Audience(ended, i, 0, Circle(c)), "Server", "User " + c.displayName + " left " + c.channel + ".", n + 1)
  }

  /** The datagrams not sent on a descriptor in `dead`, in order. */
  function Spared(b: seq<Pending>, dead: set<int>): seq<Pending> {
    if b == [] then [] else (if b[0].peer.fd in dead then [] else [b[0]]) + Spared(b[1..], dead)
  }

  /** The descriptors among `fds` whose client has ended. */
  ghost function Dead(cs: seq<Client>, fds: set<int>): set<int> {
    set i | 0 <= i < |cs| && cs[i].fd in fds && cs[i].phase == End :: cs[i].fd
  }

  // ----- The sweep -----

  lemma AgesOlder(cfg: Config, p: Pending)
    ensures Aged(cfg, p) == Older(cfg, p)
    ensures Due(p) == Elapses(p) && Spent(cfg, p) == (Elapses(p) && p.retry >= cfg.retries)
  {
  }

  lemma {:induction false} SweepReminds(cfg: Config, s: State, k: nat)
    requires k <= |s.buffer|
    ensures Sweep(cfg, s, k).0.resent == s.resent + Reminders(cfg, s.buffer[..k])
  {
    hide Due, Aged, Spent, Elapses, Sweep, Doom;
    if k == 0 {
      SweepStarts(cfg, s);
    } else {
      SweepReminds(cfg, s, k - 1);
      SweepSteps(cfg, s, k - 1);
      AgesOlder(cfg, s.buffer[k - 1]);
      assert s.buffer[..k][..k - 1] == s.buffer[..k - 1];
    }
  }

  function Somes(d: seq<Option<int>>): seq<int> {
    if d == [] then [] else (if d[0].Some? then [d[0].value] else []) + Somes(d[1..])
  }

  lemma NoSomes()
    ensures Somes([]) == []
  {
  }

  lemma SomesCons(d: seq<Option<int>>)
    requires d != []
    ensures Somes(d) == (if d[0].Some? then [d[0].value] else []) + Somes(d[1..])
  {
  }

  lemma {:induction false} SomesSnoc(d: seq<Option<int>>, x: Option<int>)
    ensures Somes(d + [x]) == Somes(d) + if x.Some? then [x.value] else []
  {
    hide Somes;
    var e := if x.Some? then [x.value] else [];
    SomesCons(d + [x]);
    NoSomes();
    if d == [] {
      assert d + [x] == [x] && [x][1..] == [] && e + [] == e && [] + e == e;
    } else {
      SomesSnoc(d[1..], x);
      SomesCons(d);
      assert (d + [x])[1..] == d[1..] + [x];
      var h := if d[0].Some? then [d[0].value] else [];
      assert h + (Somes(d[1..]) + e) == h + Somes(d[1..]) + e;
    }
  }

  lemma {:induction false} SomesIn(d: seq<Option<int>>, fd: int)
    ensures fd in Somes(d) <==> Some(fd) in d
  {
    if d != [] { SomesIn(d[1..], fd); }
  }

  lemma {:induction false} DoomedVictims(cfg: Config, s: State, k: nat)
    requires k <= |s.buffer|
    ensures Somes(Doomed(cfg, s, k)) == Victims(cfg, s.clients, s.buffer[..k])
  {
    hide Spent, Elapses, Doomed, Somes, HasFd, FindFd;
    if k == 0 {
      EmptyDoom(cfg, s);
      assert Somes([]) == [] by { NoSomes(); }
    } else {
      var d, p := Doomed(cfg, s, k - 1), s.buffer[k - 1];
      DoomedVictims(cfg, s, k - 1);
      SweepDoom(cfg, s, k);
      AgesOlder(cfg, p);
      FindsFd(s.clients, p.peer.fd);
      SomesIn(d, p.peer.fd);
      SomesSnoc(d, if FindFd(s.clients, p.peer.fd) < |s.clients| then Some(p.peer.fd) else None);
      assert s.buffer[..k][..k - 1] == s.buffer[..k - 1];
    }
  }

  lemma SomesFds(d: seq<Option<int>>)
    ensures Fds(d) == set fd | fd in Somes(d)
  {
    hide Somes;
    forall fd ensures fd in Fds(d) <==> fd in Somes(d) {
      SomesIn(d, fd);
      if fd in Fds(d) { assert Some(fd) in d; }
    }
  }

  // ----- Destruction -----

  lemma {:induction false} SparedConcat(a: seq<Pending>, b: seq<Pending>, dead: set<int>)
    ensures Spared(a + b, dead) == Spared(a, dead) + Spared(b, dead)
  {
    if a == [] {
      assert a + b == b;
    } else {
      assert (a + b)[1..] == a[1..] + b;
      SparedConcat(a[1..], b, dead);
    }
  }

  lemma {:induction false} SparedAll(b: seq<Pending>, dead: set<int>)
    requires forall p | p in b :: p.peer.fd !in dead
    ensures Spared(b, dead) == b
  {
    if b != [] {
      assert b[0] in b;
      SparedAll(b[1..], dead);
    }
  }

  lemma {:induction false} SparedOthers(b: seq<Pending>, fd: int, dead: set<int>)
    ensures Spared(Others(b, fd), dead) == Spared(b, {fd} + dead)
  {
    if b != [] {
      SparedOthers(b[1..], fd, dead);
      var head := if b[0].peer.fd == fd then [] else [b[0]];
      SparedConcat(head, Others(b[1..], fd), dead);
      if head != [] { assert [b[0]][1..] == []; assert Spared([b[0]], dead) == if b[0].peer.fd in dead then [] else [b[0]]; }
    }
  }

  lemma {:induction false} QueuedPeer(cfg: Config, n: nat, out: seq<Sent>, p: Pending)
    requires p in Queued(cfg, n, out)
    ensures exists x | x in out :: x.peer == p.peer
    decreases |out|
  {
    var x := out[0];
    assert x in out;
    if p in Queued(cfg, n + 1, out[1..]) {
      QueuedPeer(cfg, n + 1, out[1..], p);
      var y :| y in out[1..] && y.peer == p.peer;
      assert y in out;
    }
  }

  ghost predicate AllRest(cs: seq<Client>) { forall i | 0 <= i < |cs| :: AtRest(cs[i]) }

  lemma EndedAssembled(cs: seq<Client>, i: nat)
    requires i < |cs| && AllRest(cs) && DistinctFds(cs)
    ensures Assembled(cs[i := cs[i].(phase := End)], i) && AllRest(cs[i := cs[i].(phase := End)])
    ensures DistinctFds(cs[i := cs[i].(phase := End)])
  {
    var ds := cs[i := cs[i].(phase := End)];
    forall j | 0 <= j < |ds| ensures AtRest(ds[j]) && ds[j].fd == cs[j].fd { }
    forall j | 0 <= j < |ds| && j != i ensures ds[j].fd != ds[i].fd {
      assert j < i ==> cs[j].fd != cs[i].fd;
      assert i < j ==> cs[i].fd != cs[j].fd;
    }
  }

  /** A client that has not ended gets a BYE, and its circle hears it leave. */
  lemma DestroyActive(cfg: Config, s: State, i: nat)
    requires i < |s.clients| && AllRest(s.clients) && DistinctFds(s.clients)
    requires s.clients[i].phase != End && s.clients[i].protocol == Udp
    ensures Destroy(cfg, s, s.clients[i].fd) ==
            Sends(cfg, s.(clients := s.clients[i := s.clients[i].(phase := End)]), Parting(s.clients, i, |s.sent|))
  {
    hide Close, Forward, IdOf, Sends, Assembled, AllRest, DistinctFds, Audience, Relays, Circle;
    var cs, c, n := s.clients, s.clients[i], |s.sent|;
    var ended := cs[i := c.(phase := End)];
    FoundAt(cs, i);
    CloseWhole(cfg, s, i);
    var bye := [Sent(c.AsPeer(), Bye(IdOf(n)))];
    var u := s.(clients := ended);
    var r := Sends(cfg, u, bye);
    assert Close(cfg, s, i) == r;
    SendsClients(cfg, u, bye, ended);
    EndedAssembled(cs, i);
    ForwardReaches(cfg, r, i, Left(ended[i]), 0);
    assert Circle(ended[i]) == Circle(c) by { SameCircle(c, ended[i]); }
    var out := Relays(Audience(ended, i, 0, Circle(c)), "Server", LeaveText(c), n + 1);
    SendsAdd(cfg, u, bye, out);
  }

  lemma SameCircle(c: Client, d: Client)
    requires c.channel == d.channel
    ensures Circle(c) == Circle(d)
  {
  }

  lemma FoundAt(cs: seq<Client>, i: nat)
    requires i < |cs| && DistinctFds(cs)
    ensures FindFd(cs, cs[i].fd) == i
  {
  }

  /** The descriptors that a parting message is sent on are not those of clients that had ended. */
  lemma PartingSpared(cfg: Config, cs: seq<Client>, i: nat, n: nat, fds: set<int>)
    requires i < |cs| && AllRest(cs) && DistinctFds(cs) && cs[i].fd !in fds
    ensures var dead := Dead(cs[i := cs[i].(phase := End)], fds);
            Spared(Queued(cfg, n, Parting(cs, i, n)), dead) == Queued(cfg, n, Parting(cs, i, n))
  {
    hide IdOf, Relays, Audience, Queued, Assembled;
    var c, ended := cs[i], cs[i := cs[i].(phase := End)];
    var out, dead := Parting(cs, i, n), Dead(ended, fds);
    EndedAssembled(cs, i);
    var hearers := Audience(ended, i, 0, Circle(c));
    AudienceListed(ended, i, 0, Circle(c));
    forall p | p in Queued(cfg, n, out) ensures p.peer.fd !in dead {
      QueuedPeer(cfg, n, out, p);
      var x :| x in out && x.peer == p.peer;
      if x != out[0] {
        RelaysTo(hearers, "Server", LeaveText(c), n + 1, x);
        var h :| h in hearers && x.peer == h.AsPeer();
        var j :| 0 <= j < |ended| && ended[j] == h;
        assert forall k | 0 <= k < |ended| && ended[k].fd == h.fd :: k == j;
      }
    }
    SparedAll(Queued(cfg, n, out), dead);
  }

  lemma DeadCons(cs: seq<Client>, i: nat, fds: set<int>)
    requires i < |cs| && DistinctFds(cs) && cs[i].fd !in fds
    ensures cs[i].phase == End ==> Dead(cs, {cs[i].fd} + fds) == {cs[i].fd} + Dead(Without(cs, i), fds)
    ensures cs[i].phase != End ==> Dead(cs, {cs[i].fd} + fds) == Dead(cs[i := cs[i].(phase := End)], fds)
  {
    var fd := cs[i].fd;
    if cs[i].phase == End {
      var ds := Without(cs, i);
      WithoutAt(cs, i);
      forall f ensures f in Dead(cs, {fd} + fds) <==> f in {fd} + Dead(ds, fds) {
        if f in Dead(cs, {fd} + fds) && f != fd {
          var j :| 0 <= j < |cs| && cs[j].fd == f && cs[j].fd in {fd} + fds && cs[j].phase == End;
          assert ds[if j < i then j else j - 1] == cs[j];
        }
        if f in Dead(ds, fds) {
          var j :| 0 <= j < |ds| && ds[j].fd == f && ds[j].fd in fds && ds[j].phase == End;
          assert cs[if j < i then j else j + 1] == ds[j];
        }
        assert cs[i].fd in Dead(cs, {fd} + fds);
      }
    } else {
      var ds := cs[i := cs[i].(phase := End)];
      forall f ensures f in Dead(cs, {fd} + fds) <==> f in Dead(ds, fds) {
        if f in Dead(cs, {fd} + fds) {
          var j :| 0 <= j < |cs| && cs[j].fd == f && cs[j].fd in {fd} + fds && cs[j].phase == End;
          assert ds[j] == cs[j];
          assert j < i ==> cs[j].fd != cs[i].fd;
          assert i < j ==> cs[i].fd != cs[j].fd;
        }
        if f in Dead(ds, fds) {
          var j :| 0 <= j < |ds| && ds[j].fd == f && ds[j].fd in fds && ds[j].phase == End;
          assert j != i && ds[j] == cs[j];
        }
      }
    }
  }

  /** What is sent and what stays buffered when the entries of the list are treated in turn. */
  ghost predicate Treated(cfg: Config, s: State, doomed: seq<Option<int>>, r: State) {
    var out := Toll(s.clients, Somes(doomed), |s.sent|);
    && r.sent == s.sent + out
    && r.buffer == Spared(s.buffer, Dead(s.clients, Fds(doomed))) + Queued(cfg, |s.sent|, out)
    && r == s.(clients := r.clients, sent := r.sent, buffer := r.buffer, retired := r.retired)
  }

  lemma TreatedNone(cfg: Config, s: State)
    ensures Treated(cfg, s, [], s)
  {
    assert Fds([]) == {};
    assert Dead(s.clients, {}) == {};
    SparedAll(s.buffer, {});
    assert s.buffer + [] == s.buffer && s.sent + [] == s.sent;
  }

  lemma TreatedNull(cfg: Config, s: State, doomed: seq<Option<int>>, r: State)
    requires doomed != [] && doomed[0].None? && DistinctEntries(doomed) && Treated(cfg, s, doomed[1..], r)
    ensures Treated(cfg, s, doomed, r)
  {
    hide Fds, DistinctEntries, Toll, Dead, Spared, Queued, Somes;
    SkipNull(doomed);
    SomesCons(doomed);
    assert [] + Somes(doomed[1..]) == Somes(doomed[1..]);
  }

  lemma TollUnfold(cs: seq<Client>, fds: seq<int>, i: nat, n: nat)
    requires fds != [] && i == FindFd(cs, fds[0]) < |cs|
    ensures cs[i].phase == End ==> Toll(cs, fds, n) == Toll(Without(cs, i), fds[1..], n)
    ensures cs[i].phase != End ==>
              var out := Parting(cs, i, n);
              Toll(cs, fds, n) == out + Toll(cs[i := cs[i].(phase := End)], fds[1..], n + |out|)
  {
    hide Parting;
  }

  lemma TreatedEnded(cfg: Config, s: State, doomed: seq<Option<int>>, i: nat, t: State, r: State)
    requires doomed != [] && doomed[0].Some? && DistinctEntries(doomed) && DistinctFds(s.clients)
    requires i < |s.clients| && s.clients[i].fd == doomed[0].value && s.clients[i].phase == End
    requires t == s.(clients := Without(s.clients, i), buffer := Others(s.buffer, s.clients[i].fd), retired := t.retired)
    requires Treated(cfg, t, doomed[1..], r)
    ensures Treated(cfg, s, doomed, r)
  {
    hide Fds, DistinctEntries, DistinctFds, Toll, Dead, Spared, Queued, Somes, Others, Without;
    ConsFds(doomed);
    SomesCons(doomed);
    assert ([doomed[0].value] + Somes(doomed[1..]))[1..] == Somes(doomed[1..]);
    FoundAt(s.clients, i);
    TollUnfold(s.clients, Somes(doomed), i, |s.sent|);
    DeadCons(s.clients, i, Fds(doomed[1..]));
    SparedOthers(s.buffer, s.clients[i].fd, Dead(t.clients, Fds(doomed[1..])));
  }

  lemma TreatedActive(cfg: Config, s: State, doomed: seq<Option<int>>, i: nat, t: State, r: State)
    requires doomed != [] && doomed[0].Some? && DistinctEntries(doomed) && DistinctFds(s.clients) && AllRest(s.clients)
    requires i < |s.clients| && s.clients[i].fd == doomed[0].value && s.clients[i].phase != End
    requires t == Sends(cfg, s.(clients := s.clients[i := s.clients[i].(phase := End)]), Parting(s.clients, i, |s.sent|))
    requires Treated(cfg, t, doomed[1..], r)
    ensures Treated(cfg, s, doomed, r)
  {
    hide Fds, DistinctEntries, DistinctFds, AllRest, Toll, Dead, Spared, Queued, Somes, Parting;
    ConsFds(doomed);
    SomesCons(doomed);
    assert ([doomed[0].value] + Somes(doomed[1..]))[1..] == Somes(doomed[1..]);
    FoundAt(s.clients, i);
    var n, out := |s.sent|, Parting(s.clients, i, |s.sent|);
    TollUnfold(s.clients, Somes(doomed), i, n);
    DeadCons(s.clients, i, Fds(doomed[1..]));
    PartingSpared(cfg, s.clients, i, n, Fds(doomed[1..]));
    var rest := Toll(t.clients, Somes(doomed[1..]), n + |out|);
    QueuedConcat(cfg, n, out, rest);
    SparedConcat(s.buffer, Queued(cfg, n, out), Dead(t.clients, Fds(doomed[1..])));
    assert s.sent + out + rest == s.sent + (out + rest);
  }

  /** Deleting a client that had ended. */
  lemma DestroyEnded(cfg: Config, s: State, i: nat, w: Scope)
    requires Sound(cfg, s, w) && w.Window? && i < |s.clients| && DistinctFds(s.clients) && s.clients[i].phase == End
    ensures var r := Destroy(cfg, s, s.clients[i].fd);
            r == s.(clients := Without(s.clients, i), buffer := Others(s.buffer, s.clients[i].fd), retired := r.retired)
  {
    hide Sound, Purge, FindClientId, IdOf, Without, Others, DistinctFds;
    FoundAt(s.clients, i);
    DeleteExact(cfg, s, i, w);
  }

  lemma RestWithout(cs: seq<Client>, i: nat)
    requires i < |cs| && AllRest(cs)
    ensures AllRest(Without(cs, i))
  {
    hide Without;
    WithoutAt(cs, i);
  }

  lemma {:induction false} DestroyAllTreats(cfg: Config, s: State, doomed: seq<Option<int>>, w: Scope)
    requires Sound(cfg, s, w) && w.Window? && Room(w, DestroyAll(cfg, s, doomed).sent)
    requires AllRest(s.clients) && DistinctEntries(doomed) && AllUdp(s.clients, Fds(doomed))
    ensures Treated(cfg, s, doomed, DestroyAll(cfg, s, doomed))
    decreases |doomed|
  {
    hide Sound, Destroy, AllUdp, DistinctFds, AllRest, Reaped, Fds, DistinctEntries, Treated,
         Sends, Parting, Others, Without;
    if doomed == [] {
      TreatedNone(cfg, s);
    } else if doomed[0].None? {
      SkipNull(doomed);
      DestroyAllTreats(cfg, s, doomed[1..], w);
      TreatedNull(cfg, s, doomed, DestroyAll(cfg, s, doomed));
    } else {
      var fd := doomed[0].value;
      ConsFds(doomed);
      UdpOf(s.clients, Fds(doomed), fd);
      var i := FindFd(s.clients, fd);
      var t := Destroy(cfg, s, fd);
      SoundFds(cfg, s, w);
      DestroySound(cfg, s, fd, w);
      DestroyReaps(cfg, s, fd, w);
      SoundFds(cfg, t, w);
      SmallerUdp(s.clients, Fds(doomed), Fds(doomed[1..]));
      StillUdp(s.clients, t.clients, fd, Fds(doomed[1..]));
      if s.clients[i].phase == End {
        DestroyEnded(cfg, s, i, w);
        RestWithout(s.clients, i);
        DestroyAllTreats(cfg, t, doomed[1..], w);
        TreatedEnded(cfg, s, doomed, i, t, DestroyAll(cfg, s, doomed));
      } else {
        DestroyActive(cfg, s, i);
        EndedAssembled(s.clients, i);
        SendsClients(cfg, s.(clients := s.clients[i := s.clients[i].(phase := End)]), Parting(s.clients, i, |s.sent|), []);
        DestroyAllTreats(cfg, t, doomed[1..], w);
        TreatedActive(cfg, s, doomed, i, t, DestroyAll(cfg, s, doomed));
      }
    }
  }

  // ----- The tick -----

  /**
   The whole effect of an idle tick that does not count down to the stop: every timer is older; what
   elapsed and may be sent again is sent again; of the clients with a datagram that may not, those
   that had ended are deleted with their datagrams, and the others get a BYE, to be confirmed, and
   their circle hears them leave; nothing else is sent, buffered or forgotten.
   */
  ghost predicate Elapsed(cfg: Config, s: State, r: State) {
    var fds := Victims(cfg, s.clients, s.buffer);
    var doomed := set fd | fd in fds;
    var out := Toll(s.clients, fds, |s.sent|);
    && r.clients == Reaped(s.clients, doomed)
    && r.sent == s.sent + out
    && r.buffer == Spared(OlderAll(cfg, s.buffer), Dead(s.clients, doomed)) + Queued(cfg, |s.sent|, out)
    && r.resent == s.resent + Reminders(cfg, s.buffer)
    && r == s.(clients := r.clients, sent := r.sent, buffer := r.buffer, resent := r.resent,
               retired := r.retired, stopTimer := 500)
  }

  lemma SweptBuffer(cfg: Config, s: State)
    ensures Sweep(cfg, s, |s.buffer|).0.buffer == OlderAll(cfg, s.buffer)
  {
    hide Sweep, Aged, Older;
    forall k | 0 <= k < |s.buffer| ensures Aged(cfg, s.buffer[k]) == Older(cfg, s.buffer[k]) {
      AgesOlder(cfg, s.buffer[k]);
    }
  }

  lemma TickWhole(cfg: Config, s: State)
    requires Sound(cfg, s, Window(Oldest(s), false)) && AllRest(s.clients) && !s.stopped && (s.stopFlag ==> s.buffer != [])
    requires |Tick(cfg, s).sent| <= Oldest(s) + 0x1_0000
    ensures Elapsed(cfg, s, Tick(cfg, s))
  {
    hide Sound, Sweep, DestroyAll, Reaped, Fds, AllUdp, AllRest, Spared, Dead, Toll, Victims,
         Somes, Queued, Reminders, OlderAll, Spent;
    var n, w := |s.buffer|, Window(Oldest(s), false);
    var t := s.(stopTimer := 500);
    assert Countdown(s) == t;
    TimersSound(cfg, s, t, w);
    SweepSound(cfg, t, n, w);
    var (u, doomed) := Sweep(cfg, t, n);
    SweptBuffer(cfg, t);
    SweepReminds(cfg, t, n);
    DoomList(cfg, t, n);
    DoomedVictims(cfg, t, n);
    assert t.buffer[..n] == t.buffer;
    SomesFds(doomed);
    CondemnedUdp(cfg, t, w, Fds(doomed));
    DestroyAllReaps(cfg, u, doomed, w);
    DestroyAllTreats(cfg, u, doomed, w);
  }

  lemma RunAtRest(cfg: Config, es: seq<Event>)
    requires Legal(cfg, es)
    ensures AllRest(Run(cfg, es).clients)
  {
    hide Run, Legal, Buried;
    RunOrderly(cfg, es, false);
  }

  /** The same in every run that stays in the window. */
  lemma IdleInRun(cfg: Config, es: seq<Event>)
    requires Legal(cfg, es) && Narrow(cfg, es + [Idle]) && !Run(cfg, es).stopped
    requires Run(cfg, es).stopFlag ==> Run(cfg, es).buffer != []
    ensures Elapsed(cfg, Run(cfg, es), Run(cfg, es + [Idle]))
  {
    hide Run, Legal, Narrow, Sound, Tick, Elapsed, AllRest;
    NarrowStep(cfg, es);
    RunExtends(cfg, es);
    RunSound(cfg, es, true, false);
    RunAtRest(cfg, es);
    TickWhole(cfg, Run(cfg, es));
  }

  lemma RunExtends(cfg: Config, es: seq<Event>)
    ensures Run(cfg, es + [Idle]) == Step(cfg, Run(cfg, es), Idle)
  {
    hide Step;
    assert (es + [Idle])[..|es|] == es;
  }

  // ----- Stopping -----

  /** With nothing to confirm, an interrupted server counts down by 75 and stops when it finds the timer at zero or below. */
  lemma CountsDownOne(cfg: Config, s: State)
    requires s.buffer == [] && s.stopFlag && !s.stopped
    ensures Step(cfg, s, Idle) == if s.stopTimer <= 0 then s.(stopped := true) else s.(stopTimer := s.stopTimer - 75)
  {
    hide Step;
    IdleOnEmpty(cfg, s);
  }

  lemma TickTimer(cfg: Config, s: State)
    requires !s.stopped
    ensures var r := Step(cfg, s, Idle);
            if s.stopFlag && s.buffer == []
            then r.stopped == (s.stopTimer <= 0) && (!r.stopped ==> r.stopTimer == s.stopTimer - 75)
            else !r.stopped && r.stopTimer == 500
  {
    hide Sweep, DestroyAll;
  }

  lemma {:induction false} StopsLater(cfg: Config, s: State, k: nat)
    requires !s.stopped && k <= 7 && (k > 0 ==> s.stopTimer > 75 * (k - 1))
    ensures !Ticks(cfg, s, k).stopped
    decreases k
  {
    hide Step;
    if k > 0 {
      TickTimer(cfg, s);
      StopsLater(cfg, Step(cfg, s, Idle), k - 1);
    }
  }

  lemma StepTimers(cfg: Config, s: State, e: Event)
    requires !s.stopFlag && !s.stopped && s.stopTimer == 500 && !e.Interrupt?
    ensures var r := Step(cfg, s, e); !r.stopFlag && !r.stopped && r.stopTimer == 500
  {
    hide Process, Transmit, Close, Sweep, DestroyAll;
  }

  lemma {:induction false} RunTimers(cfg: Config, es: seq<Event>)
    requires forall j | 0 <= j < |es| :: !es[j].Interrupt?
    ensures var s := Run(cfg, es); !s.stopFlag && !s.stopped && s.stopTimer == 500
  {
    hide Step;
    if es != [] {
      RunTimers(cfg, es[..|es| - 1]);
      StepTimers(cfg, Run(cfg, es[..|es| - 1]), es[|es| - 1]);
    }
  }

  lemma InterruptTimers(cfg: Config, s: State)
    requires !s.stopped
    ensures var r := Step(cfg, s, Interrupt); r.stopFlag && !r.stopped && r.stopTimer == s.stopTimer
  {
    hide HangUp;
  }

  /**
   The grace period: after the first SIGINT of any run the server lives for at least seven idle ticks,
   and with nothing to confirm it stops in the eighth.
   */
  lemma GracePeriod(cfg: Config, es: seq<Event>, k: nat)
    requires forall j | 0 <= j < |es| :: !es[j].Interrupt?
    ensures k <= 7 ==> !Run(cfg, es + [Interrupt] + Silence(k)).stopped
    ensures Run(cfg, es + [Interrupt]).buffer == [] ==> Run(cfg, es + [Interrupt] + Silence(8)).stopped
  {
    hide Run, Step, Ticks, Silence;
    var all := es + [Interrupt];
    RunTimers(cfg, es);
    var s := Run(cfg, all);
    assert s == Step(cfg, Run(cfg, es), Interrupt) by { RunInterrupted(cfg, es); }
    InterruptTimers(cfg, Run(cfg, es));
    RunTicks(cfg, all, k);
    RunTicks(cfg, all, 8);
    if k <= 7 { StopsLater(cfg, s, k); }
    if s.buffer == [] { var j := CountsDown(cfg, s); }
  }

  lemma RunInterrupted(cfg: Config, es: seq<Event>)
    ensures Run(cfg, es + [Interrupt]) == Step(cfg, Run(cfg, es), Interrupt)
  {
    hide Step;
    assert (es + [Interrupt])[..|es|] == es;
  }
}
