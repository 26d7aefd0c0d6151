/** Idle time: every datagram expires, and an interrupted server stops. */
module Shutdown {
  import opened Types
  import opened Session
  import opened Books
  import opened Routines
  import opened Runs
  import opened Reaper
  import opened Timer

  // ----- Counting clients and sends -----

  /** Clients that have not ended. */
  function Active(cs: seq<Client>): (n: nat)
    ensures n <= |cs|
  {
    if cs == [] then 0 else (if cs[0].phase == End then 0 else 1) + Active(cs[1..])
  }

  /** What a client costs before it is gone: one tick to close it if need be, one to delete it. */
  function Weight(cs: seq<Client>): nat { |cs| + Active(cs) }

  lemma {:induction false} ActiveConcat(a: seq<Client>, b: seq<Client>)
    ensures Active(a + b) == Active(a) + Active(b)
  {
    if a == [] {
      assert a + b == b;
    } else {
      assert (a + b)[1..] == a[1..] + b;
      ActiveConcat(a[1..], b);
    }
  }

  lemma ActiveOne(cs: seq<Client>, i: nat, d: Client)
    requires i < |cs|
    ensures Active(cs[i := d]) == Active(cs) - (if cs[i].phase == End then 0 else 1) + (if d.phase == End then 0 else 1)
    ensures Active(Without(cs, i)) == Active(cs) - (if cs[i].phase == End then 0 else 1)
  {
    hide Active;
    var a, b := cs[..i], cs[i + 1..];
    assert cs == a + ([cs[i]] + b) && cs[i := d] == a + ([d] + b) && Without(cs, i) == a + b;
    ActiveConcat(a, [cs[i]] + b);
    ActiveConcat([cs[i]], b);
    ActiveConcat(a, [d] + b);
    ActiveConcat([d], b);
    ActiveConcat(a, b);
    ActiveSingle(cs[i]);
    ActiveSingle(d);
  }

  lemma ActiveSingle(c: Client)
    ensures Active([c]) == if c.phase == End then 0 else 1
  {
    assert [c][1..] == [];
  }

  /** A broadcast sends at most one message to each active client. */
  lemma {:induction false} ForwardCount(cfg: Config, s: State, from: Client, m: Message, j: nat)
    requires j <= |s.clients|
    ensures |Forward(cfg, s, from, m, j).sent| <= |s.sent| + Active(s.clients[j..])
    decreases |s.clients| - j
  {
    if j < |s.clients| {
      var c := s.clients[j];
      assert s.clients[j..][1..] == s.clients[j + 1..];
      ForwardCount(cfg, if Reaches(from, from.channel, c) then Transmit(cfg, s, c.AsPeer(), m) else s, from, m, j + 1);
    }
  }

  function Square(n: nat): nat { n * n }

  /** What a tick sends is paid for by the clients it ends. */
  ghost predicate Affordable(s: State, r: State) {
    |r.sent| + Square(Active(r.clients)) <= |s.sent| + Square(Active(s.clients))
  }

  lemma SquareStep(n: nat, k: nat)
    requires k < n
    ensures Square(k) + n <= Square(n)
  {
    assert Square(n) - Square(n - 1) == 2 * n - 1;
    SquareMonotone(k, n - 1);
  }

  lemma SquareMonotone(k: nat, n: nat)
    requires k <= n
    ensures Square(k) <= Square(n)
  {
    assert k * k <= k * n <= n * n;
  }

  lemma DestroyCount(cfg: Config, s: State, fd: int)
    ensures Affordable(s, Destroy(cfg, s, fd))
  {
    hide Square, Active, Forward, Purge, FindClientId, IdOf, Message.WithId;
    var i := FindFd(s.clients, fd);
    if i < |s.clients| {
      var n := Active(s.clients);
      if s.clients[i].phase == End {
        DeleteCount(s, i);
        SquareMonotone(Active(Delete(s, i).clients), n);
      } else {
        var f, d := Farewell(cfg, s, i), s.clients[i].(phase := End);
        assert f.clients == s.clients[i := d];
        ActiveOne(s.clients, i, d);
        if s.clients[i].protocol == Udp {
          ForwardCount(cfg, f, d, Left(d), 0);
          ForwardKeepsClients(cfg, f, d, Left(d), 0);
          assert f.clients[0..] == f.clients;
          SquareStep(n, n - 1);
        } else {
          DeleteCount(f, i);
          SquareStep(n, Active(Delete(f, i).clients));
        }
      }
    }
  }

  lemma DeleteCount(s: State, i: nat)
    requires i < |s.clients|
    ensures Active(Delete(s, i).clients) <= Active(s.clients)
  {
    hide Active, Purge, IdOf;
    var k := FindClientId(s.clients, s.clients[i].Id());
    ActiveOne(s.clients, k, s.clients[k]);
  }

  lemma {:induction false} DestroyAllCount(cfg: Config, s: State, doomed: seq<Option<int>>)
    ensures Affordable(s, DestroyAll(cfg, s, doomed))
    decreases |doomed|
  {
    hide Destroy, Square, Active;
    if doomed != [] {
      if doomed[0].Some? { DestroyCount(cfg, s, doomed[0].value); }
      DestroyAllCount(cfg, if doomed[0].Some? then Destroy(cfg, s, doomed[0].value) else s, doomed[1..]);
    }
  }

  lemma TickCount(cfg: Config, s: State)
    ensures Affordable(s, Tick(cfg, s))
  {
    hide Sweep, DestroyAll, Square, Active;
    var t := Countdown(s);
    if !t.stopped {
      var (u, doomed) := Sweep(cfg, t, |t.buffer|);
      DestroyAllCount(cfg, u, doomed);
    }
  }

  // ----- The measure -----

  /** `k` idle events. */
  function Ticks(cfg: Config, s: State, k: nat): State
    decreases k
  {
    if k == 0 then s else Ticks(cfg, Step(cfg, s, Idle), k - 1)
  }

  lemma {:induction false} TicksAdd(cfg: Config, s: State, a: nat, b: nat)
    ensures Ticks(cfg, Ticks(cfg, s, a), b) == Ticks(cfg, s, a + b)
    decreases a
  {
    hide Step;
    if a > 0 { TicksAdd(cfg, Step(cfg, s, Idle), a - 1, b); }
  }

  /** Nothing but idle ticks follows, and each of them keeps the send numbers in play within the window. */
  ghost predicate SilenceFits(cfg: Config, s: State) {
    forall j: nat :: |Ticks(cfg, s, j + 1).sent| <= Oldest(Ticks(cfg, s, j)) + 0x1_0000
  }

  /** Sound, owned if so asked, and in the window for as long as the silence lasts. */
  ghost predicate Ready(cfg: Config, s: State, owned: bool := true) {
    Sound(cfg, s, Window(Oldest(s), owned)) && SilenceFits(cfg, s)
  }

  /** That all datagrams are owned may be forgotten. */
  lemma ReadyAnyway(cfg: Config, s: State, owned: bool)
    requires Ready(cfg, s, owned)
    ensures Ready(cfg, s, false)
  {
    hide Ledger, Roll, Addressed, Confirms, Farewells, Executions, Spread, Attributed, Owned, SilenceFits;
  }

  lemma TickRoom(cfg: Config, s: State)
    requires SilenceFits(cfg, s) && !s.stopped
    ensures |Tick(cfg, s).sent| <= Oldest(s) + 0x1_0000
  {
    hide Tick;
    assert Ticks(cfg, s, 0) == s && Ticks(cfg, s, 0 + 1) == Ticks(cfg, Tick(cfg, s), 0) == Tick(cfg, s);
  }

  lemma TickFits(cfg: Config, s: State)
    requires SilenceFits(cfg, s)
    ensures SilenceFits(cfg, Step(cfg, s, Idle))
  {
    hide Step;
    var r := Step(cfg, s, Idle);
    forall j: nat ensures |Ticks(cfg, r, j + 1).sent| <= Oldest(Ticks(cfg, r, j)) + 0x1_0000 {
      assert Ticks(cfg, r, j) == Ticks(cfg, s, j + 1) && Ticks(cfg, r, j + 1) == Ticks(cfg, s, (j + 1) + 1);
    }
  }

  lemma TickReady(cfg: Config, s: State, owned: bool := true)
    requires Ready(cfg, s, owned) && !s.stopped
    ensures Ready(cfg, Tick(cfg, s), owned)
  {
    hide Sound, Tick, SilenceFits;
    var r, w := Tick(cfg, s), Window(Oldest(s), owned);
    TickRoom(cfg, s);
    TickSound(cfg, s, w);
    Refloor(cfg, r, w);
    TickFits(cfg, s);
  }

  /** Room for a message to each active client for each active client: enough, though seldom needed. */
  ghost predicate Roomy(s: State) {
    |s.sent| + Square(Active(s.clients)) <= Oldest(s) + 0x1_0000
  }

  lemma TickRoomy(cfg: Config, s: State, owned: bool)
    requires Sound(cfg, s, Window(Oldest(s), owned)) && Roomy(s) && !s.stopped
    ensures var r := Tick(cfg, s);
            Sound(cfg, r, Window(Oldest(r), owned)) && Roomy(r) && |r.sent| <= Oldest(s) + 0x1_0000
  {
    hide Sound, Tick, Square, Active;
    var r, w := Tick(cfg, s), Window(Oldest(s), owned);
    TickCount(cfg, s);
    TickSound(cfg, s, w);
    Refloor(cfg, r, w);
    OldestGrows(cfg, r, w);
  }

  lemma {:induction false} RoomyTicks(cfg: Config, s: State, owned: bool, j: nat)
    requires Sound(cfg, s, Window(Oldest(s), owned)) && Roomy(s)
    ensures |Ticks(cfg, s, j + 1).sent| <= Oldest(Ticks(cfg, s, j)) + 0x1_0000
    decreases j
  {
    hide Sound, Tick, Square, Active;
    var r := Step(cfg, s, Idle);
    if !s.stopped { TickRoomy(cfg, s, owned); }
    if j == 0 {
      assert Ticks(cfg, s, 1) == Ticks(cfg, r, 0) == r;
    } else {
      RoomyTicks(cfg, r, owned, j - 1);
      assert Ticks(cfg, s, j + 1) == Ticks(cfg, r, j);
    }
  }

  /** Room for everything that closing everybody may send keeps the whole silence in the window. */
  lemma RoomyFits(cfg: Config, s: State, owned: bool)
    requires Sound(cfg, s, Window(Oldest(s), owned)) && Roomy(s)
    ensures SilenceFits(cfg, s)
  {
    hide Sound, Ticks, Roomy;
    forall j: nat ensures |Ticks(cfg, s, j + 1).sent| <= Oldest(Ticks(cfg, s, j)) + 0x1_0000 {
      RoomyTicks(cfg, s, owned, j);
    }
  }

  lemma OldestGrows(cfg: Config, s: State, w: Scope)
    requires Sound(cfg, s, w) && w.Window?
    ensures Oldest(s) >= w.floor
  {
    hide Ledger, Roll, Addressed, Confirms, Farewells, Executions, Spread, Attributed, Owned;
  }

  lemma SoundRetry(cfg: Config, s: State, w: Scope)
    requires Sound(cfg, s, w)
    ensures forall k | 0 <= k < |s.buffer| :: s.buffer[k].retry <= cfg.retries
  {
    hide Roll, Addressed, Confirms, Farewells, Executions, Kept, Copies, Numbered, Conserved, Confirmed, TimesResent;
  }

  lemma SoundOwned(cfg: Config, s: State, w: Scope)
    requires Sound(cfg, s, w) && w.Window? && w.owned
    ensures Owned(s.clients, s.buffer)
    ensures s.buffer != [] ==> Weight(s.clients) >= 1
  {
    hide Ledger, Roll, Addressed, Confirms, Farewells, Executions, Active;
    if s.buffer != [] { assert HasFd(s.clients, s.buffer[0].peer.fd); }
  }

  function Times(a: nat, b: nat): nat { a * b }

  /** Ticks until the buffer is empty, at most. */
  function Measure(cfg: Config, s: State): nat
    requires forall k | 0 <= k < |s.buffer| :: s.buffer[k].retry <= cfg.retries
    requires s.buffer != [] ==> Weight(s.clients) >= 1
  {
    if s.buffer == [] then 0
    else Times(Weight(s.clients) - 1, LifeBound(cfg)) + Life(cfg, s.buffer[0])
  }

  lemma Measurable(cfg: Config, s: State)
    requires Ready(cfg, s)
    ensures forall k | 0 <= k < |s.buffer| :: s.buffer[k].retry <= cfg.retries
    ensures s.buffer != [] ==> Weight(s.clients) >= 1
  {
    hide Sound, SilenceFits, Active;
    SoundRetry(cfg, s, Window(Oldest(s), true));
    SoundOwned(cfg, s, Window(Oldest(s), true));
  }

  lemma {:induction false} ReapedLighter(cs: seq<Client>, fds: set<int>)
    ensures Weight(Reaped(cs, fds)) <= Weight(cs)
    ensures (exists i :: 0 <= i < |cs| && cs[i].fd in fds) ==> Weight(Reaped(cs, fds)) < Weight(cs)
  {
    if cs != [] {
      var tail := cs[1..];
      ReapedLighter(tail, fds);
      var c := cs[0];
      var head := if c.fd !in fds then [c] else if c.phase == End then [] else [c.(phase := End)];
      ActiveConcat(head, Reaped(tail, fds));
      if head != [] { ActiveSingle(head[0]); }
      if i :| 0 <= i < |cs| && cs[i].fd in fds {
        assert i > 0 ==> tail[i - 1].fd in fds;
      }
    }
  }

  /** The condemned are UDP clients: only datagrams are ever buffered. */
  lemma CondemnedUdp(cfg: Config, s: State, w: Scope, fds: set<int>)
    requires Sound(cfg, s, w) && forall fd | fd in fds :: Condemned(cfg, s, |s.buffer|, fd)
    ensures AllUdp(s.clients, fds)
  {
    hide Ledger, Roll, Confirms, Farewells, Executions, Kept, Spent;
    forall fd | fd in fds ensures HasFd(s.clients, fd) && s.clients[FindFd(s.clients, fd)].protocol == Udp {
      assert Condemned(cfg, s, |s.buffer|, fd);
      FindsFd(s.clients, fd);
    }
  }

  /**
   What one tick does: it closes or deletes exactly the clients on whose descriptor a datagram is
   spent, and if there is no spent datagram at all it only ages the buffer.
   */
  lemma TickEffect(cfg: Config, s: State)
    requires Ready(cfg, s, false) && s.buffer != [] && !s.stopped
    ensures var doomed := Doomed(cfg, Countdown(s), |s.buffer|);
            var fds := Fds(doomed);
            && (forall fd :: fd in fds <==> Condemned(cfg, s, |s.buffer|, fd))
            && Tick(cfg, s).clients == Reaped(s.clients, fds)
            && (doomed == [] ==>
                  && |Tick(cfg, s).buffer| == |s.buffer|
                  && forall k | 0 <= k < |s.buffer| :: Tick(cfg, s).buffer[k] == Aged(cfg, s.buffer[k]))
            && Tick(cfg, s).stopTimer == STOP_TIMEOUT
  {
    hide Sound, SilenceFits, Spent, Aged, Sweep, DestroyAll, Reaped, Fds, AllUdp;
    var n, w := |s.buffer|, Window(Oldest(s), false);
    var t := Countdown(s);
    TimersSound(cfg, s, t, w);
    var (u, doomed) := Sweep(cfg, t, n);
    SweepSound(cfg, t, n, w);
    DoomList(cfg, t, n);
    CondemnedSame(cfg, s, t);
    CondemnedUdp(cfg, t, w, Fds(doomed));
    TickRoom(cfg, s);
    DestroyAllReaps(cfg, u, doomed, w);
    if doomed == [] { NothingDoomed(cfg, u); }
  }

  /** In an owned state every entry of the destruction list is a condemned client. */
  lemma OwnedDoom(cfg: Config, s: State)
    requires Ready(cfg, s)
    ensures var doomed := Doomed(cfg, Countdown(s), |s.buffer|);
            doomed != [] ==> doomed[0].Some? && doomed[0].value in Fds(doomed)
  {
    hide Sound, SilenceFits, Spent, Sweep, Fds;
    ReadyOwned(cfg, s);
    DoomListFits(cfg, Countdown(s));
    var doomed := Doomed(cfg, Countdown(s), |s.buffer|);
    if doomed != [] { FirstDoomed(doomed); }
  }

  lemma FirstDoomed(doomed: seq<Option<int>>)
    requires doomed != [] && doomed[0].Some?
    ensures doomed[0].value in Fds(doomed)
  {
  }

  lemma NothingDoomed(cfg: Config, s: State)
    ensures DestroyAll(cfg, s, []) == s
  {
  }

  lemma CondemnedSame(cfg: Config, s: State, t: State)
    requires t.buffer == s.buffer && t.clients == s.clients
    ensures forall fd :: Condemned(cfg, t, |t.buffer|, fd) == Condemned(cfg, s, |s.buffer|, fd)
  {
  }

  /** A spent datagram condemns its owner. */
  lemma SpentCondemns(cfg: Config, s: State, k: nat)
    requires k < |s.buffer| && HasFd(s.clients, s.buffer[k].peer.fd) && Spent(cfg, s.buffer[k])
    ensures Condemned(cfg, s, |s.buffer|, s.buffer[k].peer.fd)
  {
    hide Spent;
  }

  lemma {:induction false} TimesMonotone(a: nat, b: nat, c: nat)
    requires a <= b
    ensures a * c <= b * c
    decreases b
  {
    if a < b {
      TimesMonotone(a, b - 1, c);
      assert b * c == (b - 1) * c + c;
    }
  }

  lemma MeasureArithmetic(w: nat, v: nat, bound: nat, life: nat, rest: nat)
    requires 1 <= v < w && 1 <= life && rest <= bound
    ensures Times(v - 1, bound) + rest < Times(w - 1, bound) + life
  {
    TimesMonotone(v, w - 1, bound);
    assert v * bound == (v - 1) * bound + bound;
  }

  /** Every idle tick brings an owned, non-empty buffer nearer to empty. */
  lemma MeasureDecreases(cfg: Config, s: State)
    requires Ready(cfg, s) && s.buffer != [] && !s.stopped
    ensures Ready(cfg, Tick(cfg, s))
    ensures forall k | 0 <= k < |s.buffer| :: s.buffer[k].retry <= cfg.retries
    ensures Weight(s.clients) >= 1
    ensures var r := Tick(cfg, s);
            && (forall k | 0 <= k < |r.buffer| :: r.buffer[k].retry <= cfg.retries)
            && (r.buffer != [] ==> Weight(r.clients) >= 1)
            && Measure(cfg, r) < Measure(cfg, s)
  {
    hide Ready, Sound, Tick, Weight, Spent, Aged, Life, Fds, Condemned, Reaped, Doomed, LifeBound, Times;
    var r := Tick(cfg, s);
    TickReady(cfg, s);
    Measurable(cfg, s);
    Measurable(cfg, r);
    ReadyAnyway(cfg, s, true);
    TickEffect(cfg, s);
    OwnedDoom(cfg, s);
    var p := s.buffer[0];
    LifeBounded(cfg, p);
    var doomed := Doomed(cfg, Countdown(s), |s.buffer|);
    var fds := Fds(doomed);
    if doomed == [] {
      EmptyDoom(cfg, s);
      OneTickOlder(cfg, p);
      if Spent(cfg, p) {
        ReadyOwned(cfg, s);
        SpentCondemns(cfg, s, 0);
        assert false;
      }
      ReapedNone(s.clients, fds);
    } else {
      CondemnedLive(cfg, s, |s.buffer|, doomed[0].value);
      ReapedLighter(s.clients, fds);
      if r.buffer == [] {
        MeasurePositive(Weight(s.clients), LifeBound(cfg), Life(cfg, p));
      } else {
        LifeBounded(cfg, r.buffer[0]);
        MeasureArithmetic(Weight(s.clients), Weight(r.clients), LifeBound(cfg), Life(cfg, p), Life(cfg, r.buffer[0]));
      }
    }
  }

  lemma MeasurePositive(w: nat, bound: nat, life: nat)
    requires w >= 1 && life >= 1
    ensures Times(w - 1, bound) + life >= 1
  {
  }

  lemma ReadyOwned(cfg: Config, s: State)
    requires Ready(cfg, s)
    ensures Owned(s.clients, s.buffer)
  {
    hide Sound, SilenceFits, Active;
    SoundOwned(cfg, s, Window(Oldest(s), true));
  }

  // ----- Idling to the end -----

  /** The buffer drains within `Measure` ticks. */
  lemma {:induction false} Drains(cfg: Config, s: State) returns (k: nat)
    requires Ready(cfg, s) && s.stopFlag && !s.stopped
    ensures forall j | 0 <= j < |s.buffer| :: s.buffer[j].retry <= cfg.retries
    ensures s.buffer != [] ==> Weight(s.clients) >= 1
    ensures k <= Measure(cfg, s)
    ensures var r := Ticks(cfg, s, k);
            r.buffer == [] && r.stopFlag && !r.stopped && (r == s || r.stopTimer == STOP_TIMEOUT)
    decreases if s.buffer == [] then 0 else 1, if s.buffer == [] then 0 else (Measurable(cfg, s); Measure(cfg, s))
  {
    hide Ready, Tick, Weight, Life, Times;
    Measurable(cfg, s);
    if s.buffer == [] {
      k := 0;
    } else {
      var r := Tick(cfg, s);
      MeasureDecreases(cfg, s);
      ReadyAnyway(cfg, s, true);
      TickEffect(cfg, s);
      TickFlags(cfg, s);
      var j := Drains(cfg, r);
      k := j + 1;
    }
  }

  lemma TickFlags(cfg: Config, s: State)
    ensures Tick(cfg, s).stopFlag == s.stopFlag
    ensures s.buffer != [] && !s.stopped ==> !Tick(cfg, s).stopped
  {
    hide Sweep, DestroyAll;
  }

  /** With nothing left to confirm, the stop timer runs down. */
  lemma {:induction false} CountsDown(cfg: Config, s: State) returns (k: nat)
    requires s.buffer == [] && s.stopFlag && !s.stopped
    ensures k == 1 + if s.stopTimer <= 0 then 0 else (s.stopTimer + POLL_INTERVAL - 1) / POLL_INTERVAL
    ensures Ticks(cfg, s, k).stopped
    decreases if s.stopTimer <= 0 then 0 else s.stopTimer
  {
    var r := Step(cfg, s, Idle);
    IdleOnEmpty(cfg, s);
    if s.stopTimer <= 0 {
      k := 1;
      assert Ticks(cfg, r, 0) == r;
    } else {
      hide Step;
      var j := CountsDown(cfg, r);
      k := j + 1;
    }
  }

  lemma IdleOnEmpty(cfg: Config, s: State)
    requires s.buffer == [] && s.stopFlag && !s.stopped
    ensures Step(cfg, s, Idle) == if s.stopTimer <= 0 then s.(stopped := true) else s.(stopTimer := s.stopTimer - POLL_INTERVAL)
  {
    var t := Countdown(s);
    if !t.stopped {
      assert Sweep(cfg, t, 0) == (t, []);
    }
  }

  /** An interrupted server that hears nothing more stops, within a bound known beforehand. */
  lemma IdleServerStops(cfg: Config, s: State) returns (k: nat)
    requires Ready(cfg, s) && s.stopFlag && !s.stopped && s.stopTimer <= STOP_TIMEOUT
    ensures Ticks(cfg, s, k).stopped
    ensures k <= Weight(s.clients) * LifeBound(cfg) + 8
  {
    hide Ready, Weight, Life, Ticks, Step, Times;
    var a := Drains(cfg, s);
    var b := CountsDown(cfg, Ticks(cfg, s, a));
    TicksAdd(cfg, s, a, b);
    k := a + b;
    if s.buffer != [] {
      LifeBounded(cfg, s.buffer[0]);
      MeasureBound(Weight(s.clients), LifeBound(cfg), Life(cfg, s.buffer[0]));
    } else {
      assert Weight(s.clients) * LifeBound(cfg) >= 0;
    }
  }

  lemma MeasureBound(w: nat, bound: nat, life: nat)
    requires w >= 1 && life <= bound
    ensures Times(w - 1, bound) + life <= w * bound
  {
    assert w * bound == (w - 1) * bound + bound;
  }
}
