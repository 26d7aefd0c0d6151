/** The destruction list of `udp_timeout`: what it holds, and what destroying its entries does. */
module Reaper {
  import opened Types
  import opened DedupRing
  import opened Session
  import opened Books
  import opened Routines
  import opened Phases

  function Doomed(cfg: Config, s: State, k: nat): seq<Option<int>>
    requires k <= |s.buffer|
  {
    Sweep(cfg, s, k).1
  }

  /** Descriptor `fd` has a live client and a spent datagram among the first `k`. */
  ghost predicate Condemned(cfg: Config, s: State, k: nat, fd: int) {
    HasFd(s.clients, fd) && exists m :: 0 <= m < k && m < |s.buffer| && Spent(cfg, s.buffer[m]) && s.buffer[m].peer.fd == fd
  }

  /** Spent datagrams without a live client; each adds a null entry. */
  function Orphans(cfg: Config, s: State, k: nat): nat
    requires k <= |s.buffer|
  {
    if k == 0 then 0
    else
      Orphans(cfg, s, k - 1)
      + if Spent(cfg, s.buffer[k - 1]) && FindFd(s.clients, s.buffer[k - 1].peer.fd) == |s.clients| then 1 else 0
  }

  ghost function Fds(d: seq<Option<int>>): set<int> { set i | 0 <= i < |d| && d[i].Some? :: d[i].value }

  ghost predicate DistinctEntries(d: seq<Option<int>>) {
    forall i, j | 0 <= i < j < |d| && d[i].Some? && d[j].Some? :: d[i].value != d[j].value
  }

  lemma FindsFd(cs: seq<Client>, fd: int)
    ensures FindFd(cs, fd) < |cs| <==> HasFd(cs, fd)
  {
  }

  /** One more spent datagram on `fd`. */
  lemma DoomEffect(cs: seq<Client>, d: seq<Option<int>>, fd: int)
    requires DistinctEntries(d) && (fd in Fds(d) ==> HasFd(cs, fd))
    ensures var e := Doom(cs, d, fd);
            && DistinctEntries(e)
            && Fds(e) == Fds(d) + (if HasFd(cs, fd) then {fd} else {})
            && |e| - |Fds(e)| == |d| - |Fds(d)| + if HasFd(cs, fd) then 0 else 1
  {
    FindsFd(cs, fd);
    if Some(fd) in d {
      var i :| 0 <= i < |d| && d[i] == Some(fd);
      assert d[i].Some? && d[i].value == fd;
      assert Fds(d) == Fds(d) + {fd};
    } else {
      AppendFds(d, if HasFd(cs, fd) then Some(fd) else None);
      assert fd !in Fds(d);
    }
  }

  /** The list names each condemned client once, in no case twice, and counts every orphan. */
  lemma {:induction false} DoomList(cfg: Config, s: State, k: nat)
    requires k <= |s.buffer|
    ensures var d := Doomed(cfg, s, k);
            && DistinctEntries(d)
            && (forall fd :: fd in Fds(d) <==> Condemned(cfg, s, k, fd))
            && |d| == |Fds(d)| + Orphans(cfg, s, k)
  {
    hide Spent, Due, Fds, DistinctEntries, Doom, Aged, Condemned, HasFd;
    if k == 0 {
      EmptyDoom(cfg, s);
    } else {
      DoomList(cfg, s, k - 1);
      var d, p := Doomed(cfg, s, k - 1), s.buffer[k - 1];
      CondemnedStep(cfg, s, k);
      CondemnedLive(cfg, s, k - 1, p.peer.fd);
      DoomEffect(s.clients, d, p.peer.fd);
      FindsFd(s.clients, p.peer.fd);
      SweepDoom(cfg, s, k);
    }
  }

  lemma SweepDoom(cfg: Config, s: State, k: nat)
    requires 0 < k <= |s.buffer|
    ensures Doomed(cfg, s, k) ==
            var d := Doomed(cfg, s, k - 1);
            if Spent(cfg, s.buffer[k - 1]) then Doom(s.clients, d, s.buffer[k - 1].peer.fd) else d
  {
  }

  lemma EmptyDoom(cfg: Config, s: State)
    ensures Fds([]) == {} && DistinctEntries([]) && Doomed(cfg, s, 0) == []
    ensures forall fd :: !Condemned(cfg, s, 0, fd)
  {
  }

  lemma CondemnedLive(cfg: Config, s: State, k: nat, fd: int)
    ensures Condemned(cfg, s, k, fd) ==> HasFd(s.clients, fd)
  {
  }

  lemma CondemnedStep(cfg: Config, s: State, k: nat)
    requires 0 < k <= |s.buffer|
    ensures forall fd :: Condemned(cfg, s, k, fd) <==>
      Condemned(cfg, s, k - 1, fd) || (Spent(cfg, s.buffer[k - 1]) && s.buffer[k - 1].peer.fd == fd && HasFd(s.clients, fd))
  {
    hide Spent, HasFd;
  }

  lemma AppendFds(d: seq<Option<int>>, x: Option<int>)
    ensures Fds(d + [x]) == Fds(d) + if x.Some? then {x.value} else {}
  {
    var e := d + [x];
    forall f | f in Fds(d) ensures f in Fds(e) {
      var i :| 0 <= i < |d| && d[i].Some? && d[i].value == f;
      assert e[i] == d[i];
    }
    if x.Some? { assert e[|d|] == x; }
  }

  ghost function ClientFds(cs: seq<Client>): set<int> { set i | 0 <= i < |cs| :: cs[i].fd }

  lemma {:induction false} FewFds(cs: seq<Client>)
    ensures |ClientFds(cs)| <= |cs|
  {
    if cs == [] {
      assert ClientFds(cs) == {};
    } else {
      var n := |cs| - 1;
      FewFds(cs[..n]);
      assert ClientFds(cs) == ClientFds(cs[..n]) + {cs[n].fd};
    }
  }

  lemma SubsetSize<T>(a: set<T>, b: set<T>)
    requires a <= b
    ensures |a| <= |b|
  {
    assert |b| == |a| + |b - a| by { assert b == a + (b - a); }
  }

  /** The live clients that a spent datagram condemns. */
  ghost function CondemnedFds(cfg: Config, s: State): set<int> {
    set i, k | 0 <= i < |s.clients| && 0 <= k < |s.buffer|
               && Spent(cfg, s.buffer[k]) && s.buffer[k].peer.fd == s.clients[i].fd :: s.clients[i].fd
  }

  lemma CondemnedAre(cfg: Config, s: State, fd: int)
    ensures fd in CondemnedFds(cfg, s) <==> Condemned(cfg, s, |s.buffer|, fd)
  {
    hide Spent;
    if Condemned(cfg, s, |s.buffer|, fd) {
      var i :| 0 <= i < |s.clients| && s.clients[i].fd == fd;
      var k :| 0 <= k < |s.buffer| && Spent(cfg, s.buffer[k]) && s.buffer[k].peer.fd == fd;
      assert s.clients[i].fd in CondemnedFds(cfg, s);
    }
  }

  /**
   The list is written into an array of `queue_length(clients)` entries. It fits if and only if the
   condemned clients and the spent datagrams of nobody are together no more than the clients; when
   all datagrams are owned it always does.
   */
  lemma DoomListFits(cfg: Config, s: State)
    ensures var d := Doomed(cfg, s, |s.buffer|);
            && (|d| <= |s.clients| <==> |CondemnedFds(cfg, s)| + Orphans(cfg, s, |s.buffer|) <= |s.clients|)
            && (Owned(s.clients, s.buffer) ==> |d| <= |s.clients| && forall i | 0 <= i < |d| :: d[i].Some?)
  {
    hide Spent, Sweep;
    var n := |s.buffer|;
    var d := Doomed(cfg, s, n);
    DoomList(cfg, s, n);
    forall fd ensures fd in Fds(d) <==> fd in CondemnedFds(cfg, s) { CondemnedAre(cfg, s, fd); }
    assert Fds(d) == CondemnedFds(cfg, s);
    if Owned(s.clients, s.buffer) {
      NoOrphans(cfg, s, n);
      FewFds(s.clients);
      SubsetSize(Fds(d), ClientFds(s.clients));
      AllSome(d);
    }
  }

  lemma {:induction false} NoOrphans(cfg: Config, s: State, k: nat)
    requires Owned(s.clients, s.buffer) && k <= |s.buffer|
    ensures Orphans(cfg, s, k) == 0
  {
    hide Spent;
    if k > 0 {
      NoOrphans(cfg, s, k - 1);
      FindsFd(s.clients, s.buffer[k - 1].peer.fd);
    }
  }

  lemma {:induction false} AllSome(d: seq<Option<int>>)
    ensures |Fds(d)| <= |d|
    ensures |Fds(d)| == |d| ==> forall i | 0 <= i < |d| :: d[i].Some?
  {
    if d == [] {
      assert Fds(d) == {};
    } else {
      var n := |d| - 1;
      AllSome(d[..n]);
      assert d == d[..n] + [d[n]];
      AppendFds(d[..n], d[n]);
    }
  }

  // ----- What destruction does -----

  /** The clients after the condemned have been closed, or deleted if they had ended. */
  function Reaped(cs: seq<Client>, fds: set<int>): seq<Client> {
    if cs == [] then []
    else
      var c := cs[0];
      (if c.fd !in fds then [c] else if c.phase == End then [] else [c.(phase := End)]) + Reaped(cs[1..], fds)
  }

  lemma {:induction false} ReapedNone(cs: seq<Client>, fds: set<int>)
    requires forall c | c in cs :: c.fd !in fds
    ensures Reaped(cs, fds) == cs
  {
    if cs != [] { ReapedNone(cs[1..], fds); }
  }

  ghost predicate DistinctFds(cs: seq<Client>) { forall i, j | 0 <= i < j < |cs| :: cs[i].fd != cs[j].fd }

  lemma {:induction false} ReapedConcat(cs: seq<Client>, ds: seq<Client>, fds: set<int>)
    ensures Reaped(cs + ds, fds) == Reaped(cs, fds) + Reaped(ds, fds)
  {
    if cs == [] {
      assert cs + ds == ds;
    } else {
      assert (cs + ds)[1..] == cs[1..] + ds;
      ReapedConcat(cs[1..], ds, fds);
    }
  }

  lemma AroundOne(cs: seq<Client>, i: nat, d: Client)
    requires i < |cs| && DistinctFds(cs)
    ensures cs == cs[..i] + ([cs[i]] + cs[i + 1..]) && cs[i := d] == cs[..i] + ([d] + cs[i + 1..])
    ensures forall c | c in cs[..i] :: c.fd != cs[i].fd
    ensures forall c | c in cs[i + 1..] :: c.fd != cs[i].fd
  {
  }

  lemma ReapedOne(cs: seq<Client>, i: nat)
    requires i < |cs| && DistinctFds(cs)
    ensures Reaped(cs, {cs[i].fd}) == if cs[i].phase == End then Without(cs, i) else cs[i := cs[i].(phase := End)]
  {
    hide Reaped, DistinctFds;
    var a, c, b := cs[..i], cs[i], cs[i + 1..];
    var fds, d := {c.fd}, c.(phase := End);
    AroundOne(cs, i, d);
    ReapedConcat(a, [c] + b, fds);
    ReapedConcat([c], b, fds);
    ReapedNone(a, fds);
    ReapedNone(b, fds);
    ReapedSingle(c);
    calc {
      Reaped(cs, fds);
      a + (Reaped([c], fds) + b);
      if c.phase == End then a + b else a + ([d] + b);
    }
  }

  lemma ReapedSingle(c: Client)
    ensures Reaped([c], {c.fd}) == if c.phase == End then [] else [c.(phase := End)]
  {
    assert [c][1..] == [];
  }

  lemma {:induction false} ReapedTwice(cs: seq<Client>, a: set<int>, b: set<int>)
    requires a !! b
    ensures Reaped(Reaped(cs, a), b) == Reaped(cs, a + b)
  {
    if cs != [] {
      ReapedTwice(cs[1..], a, b);
      var c := cs[0];
      var head := if c.fd !in a then [c] else if c.phase == End then [] else [c.(phase := End)];
      assert Reaped(cs, a) == head + Reaped(cs[1..], a);
      if head == [] {
        assert Reaped(cs, a) == Reaped(cs[1..], a);
      } else {
        assert Reaped(cs, a)[0] == head[0] && Reaped(cs, a)[1..] == Reaped(cs[1..], a);
      }
    }
  }

  /** Destroying one live UDP client. */
  lemma DestroyReaps(cfg: Config, s: State, fd: int, w: Scope)
    requires Sound(cfg, s, w) && w.Window? && Room(w, Destroy(cfg, s, fd).sent)
    requires HasFd(s.clients, fd) && s.clients[FindFd(s.clients, fd)].protocol == Udp
    ensures Destroy(cfg, s, fd).clients == Reaped(s.clients, {fd})
  {
    hide Sound, Close, Forward, Purge, FindClientId, IdOf, Delete;
    var i := FindFd(s.clients, fd);
    SoundFds(cfg, s, w);
    ReapedOne(s.clients, i);
    if s.clients[i].phase == End {
      DeleteExact(cfg, s, i, w);
    } else {
      var r := Close(cfg, s, i);
      CloseEffect(cfg, s, i, w);
      ForwardKeepsClients(cfg, r, r.clients[i], Left(r.clients[i]), 0);
    }
  }

  lemma SoundFds(cfg: Config, s: State, w: Scope)
    requires Sound(cfg, s, w)
    ensures DistinctFds(s.clients)
  {
    hide Ledger, Addressed, Confirms, Farewells, Executions, Kept, Represents;
  }

  ghost predicate AllUdp(cs: seq<Client>, fds: set<int>) {
    forall fd | fd in fds :: HasFd(cs, fd) && cs[FindFd(cs, fd)].protocol == Udp
  }

  lemma {:induction false} ReapedKeeps(cs: seq<Client>, fds: set<int>, i: nat)
    requires i < |cs| && cs[i].fd !in fds
    ensures cs[i] in Reaped(cs, fds)
  {
    if i > 0 { ReapedKeeps(cs[1..], fds, i - 1); }
  }

  lemma StillUdp(cs: seq<Client>, ds: seq<Client>, fd: int, fds: set<int>)
    requires AllUdp(cs, fds) && fd !in fds && DistinctFds(ds) && ds == Reaped(cs, {fd})
    ensures AllUdp(ds, fds)
  {
    forall f | f in fds ensures HasFd(ds, f) && ds[FindFd(ds, f)].protocol == Udp {
      var i := FindFd(cs, f);
      FindsFd(cs, f);
      ReapedKeeps(cs, {fd}, i);
      var j :| 0 <= j < |ds| && ds[j] == cs[i];
      FindsFd(ds, f);
      assert FindFd(ds, f) == j;
    }
  }

  lemma ConsFds(doomed: seq<Option<int>>)
    requires doomed != [] && doomed[0].Some? && DistinctEntries(doomed)
    ensures Fds(doomed) == {doomed[0].value} + Fds(doomed[1..]) && doomed[0].value !in Fds(doomed[1..])
    ensures DistinctEntries(doomed[1..])
  {
    forall f | f in Fds(doomed) ensures f == doomed[0].value || f in Fds(doomed[1..]) {
      var i :| 0 <= i < |doomed| && doomed[i].Some? && doomed[i].value == f;
      if i > 0 { assert doomed[1..][i - 1] == doomed[i]; }
    }
  }

  lemma SkipNull(doomed: seq<Option<int>>)
    requires doomed != [] && doomed[0].None? && DistinctEntries(doomed)
    ensures Fds(doomed[1..]) == Fds(doomed) && DistinctEntries(doomed[1..])
  {
    assert doomed == [doomed[0]] + doomed[1..];
    forall f | f in Fds(doomed) ensures f in Fds(doomed[1..]) {
      var i :| 0 <= i < |doomed| && doomed[i].Some? && doomed[i].value == f;
      assert doomed[1..][i - 1] == doomed[i];
    }
  }

  /**
   Destroying the whole list closes or deletes each listed client exactly once, as it stood before
   the first entry, whatever the order; all others are untouched. Null entries are skipped.
   */
  lemma {:induction false} DestroyAllReaps(cfg: Config, s: State, doomed: seq<Option<int>>, w: Scope)
    requires Sound(cfg, s, w) && w.Window? && Room(w, DestroyAll(cfg, s, doomed).sent)
    requires DistinctEntries(doomed) && AllUdp(s.clients, Fds(doomed))
    ensures DestroyAll(cfg, s, doomed).clients == Reaped(s.clients, Fds(doomed))
    decreases |doomed|
  {
    hide Sound, Destroy, AllUdp, DistinctFds, Reaped, Fds, DistinctEntries;
    if doomed == [] {
      EmptyDoom(cfg, s);
      ReapedNone(s.clients, {});
    } else if doomed[0].None? {
      SkipNull(doomed);
      DestroyAllReaps(cfg, s, doomed[1..], w);
    } else {
      var fd := doomed[0].value;
      ConsFds(doomed);
      UdpOf(s.clients, Fds(doomed), fd);
      var t := Destroy(cfg, s, fd);
      DestroySound(cfg, s, fd, w);
      DestroyReaps(cfg, s, fd, w);
      SoundFds(cfg, t, w);
      SmallerUdp(s.clients, Fds(doomed), Fds(doomed[1..]));
      StillUdp(s.clients, t.clients, fd, Fds(doomed[1..]));
      DestroyAllReaps(cfg, t, doomed[1..], w);
      ReapedTwice(s.clients, {fd}, Fds(doomed[1..]));
    }
  }

  lemma UdpOf(cs: seq<Client>, fds: set<int>, fd: int)
    requires AllUdp(cs, fds) && fd in fds
    ensures HasFd(cs, fd) && FindFd(cs, fd) < |cs| && cs[FindFd(cs, fd)].protocol == Udp
  {
    FindsFd(cs, fd);
  }

  lemma SmallerUdp(cs: seq<Client>, a: set<int>, b: set<int>)
    requires AllUdp(cs, a) && b <= a
    ensures AllUdp(cs, b)
  {
  }
}
