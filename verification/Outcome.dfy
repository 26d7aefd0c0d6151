/**
 The terms in which the effect of an event is stated, none of them taken from the engine: what a
 list of transmissions does to the state, who hears whom, and what is left of a client that is closed.
 */
module Outcome {
  import opened Types
  import opened Session
  import opened Phases

  // ----- Transmissions -----

  /** What has to be confirmed of the transmissions `out`, numbered from `n`. */
  function Queued(cfg: Config, n: nat, out: seq<Sent>): seq<Pending>
    decreases |out|
  {
    if out == [] then []
    else
      var x := out[0];
      (if x.peer.protocol == Udp && !x.msg.Confirm? then [Pending(n, x.peer, x.msg, cfg.timeout, 0)] else [])
      + Queued(cfg, n + 1, out[1..])
  }

  /** The state once `out` has been sent. */
  function Sends(cfg: Config, s: State, out: seq<Sent>): State {
    s.(sent := s.sent + out, buffer := s.buffer + Queued(cfg, |s.sent|, out))
  }

  lemma {:induction false} QueuedConcat(cfg: Config, n: nat, a: seq<Sent>, b: seq<Sent>)
    ensures Queued(cfg, n, a + b) == Queued(cfg, n, a) + Queued(cfg, n + |a|, b)
    decreases |a|
  {
    if a == [] {
      assert a + b == b;
    } else {
      assert (a + b)[1..] == a[1..] + b;
      QueuedConcat(cfg, n + 1, a[1..], b);
    }
  }

  lemma SendsAdd(cfg: Config, s: State, a: seq<Sent>, b: seq<Sent>)
    ensures Sends(cfg, Sends(cfg, s, a), b) == Sends(cfg, s, a + b)
  {
    hide Queued;
    QueuedConcat(cfg, |s.sent|, a, b);
    assert s.sent + a + b == s.sent + (a + b);
  }

  lemma SendsNone(cfg: Config, s: State)
    ensures Sends(cfg, s, []) == s
  {
    assert s.sent + [] == s.sent && s.buffer + [] == s.buffer;
  }

  /** `send_msg` numbers a message and keeps it until it is confirmed, if it has to be. */
  lemma TransmitSends(cfg: Config, s: State, p: Peer, m: Message)
    ensures Transmit(cfg, s, p, m) == Sends(cfg, s, [Sent(p, m.WithId(IdOf(|s.sent|)))])
  {
    hide IdOf;
    var x := Sent(p, m.WithId(IdOf(|s.sent|)));
    assert [x][1..] == [] && s.buffer + [] == s.buffer;
    assert Queued(cfg, |s.sent| + 1, []) == [];
    assert Queued(cfg, |s.sent|, [x]) == if x.Tracked() then [Pending(|s.sent|, x.peer, x.msg, cfg.timeout, 0)] else [];
  }

  // ----- Broadcasts -----

  /**
   The other open clients of the channel of client `i`, from list position `j` on; with `Accept` for
   `phase`, the other accepted clients, if client `i` has no channel either.
   */
  function Audience(cs: seq<Client>, i: nat, j: nat, phase: Phase := Open): seq<Client>
    requires i < |cs| && j <= |cs|
    decreases |cs| - j
  {
    if j == |cs| then []
    else
      (if j != i && cs[j].phase == phase && cs[j].channel == cs[i].channel then [cs[j]] else [])
      + Audience(cs, i, j + 1, phase)
  }

  /** The phase of the clients that client `c` can reach. */
  function Circle(c: Client): Phase { if c.channel == "" then Accept else Open }

  /** One MSG to each listener, numbered from `n`. */
  function Relays(listeners: seq<Client>, name: string, content: string, n: nat): seq<Sent> {
    if listeners == [] then []
    else [Sent(listeners[0].AsPeer(), Msg(IdOf(n), name, content))] + Relays(listeners[1..], name, content, n + 1)
  }

  function LeaveText(c: Client): string { "User " + c.displayName + " left " + c.channel + "." }

  function JoinText(c: Client): string { "User " + c.displayName + " joined " + c.channel + "." }

  /** Everybody but client `i` is at rest and nobody shares its descriptor. */
  ghost predicate Assembled(cs: seq<Client>, i: nat) {
    i < |cs| && forall j | 0 <= j < |cs| && j != i :: AtRest(cs[j]) && cs[j].fd != cs[i].fd
  }

  /** In an orderly list, the broadcast reaches exactly the audience. */
  lemma AudienceReached(cs: seq<Client>, i: nat, j: nat)
    requires Assembled(cs, i) && j < |cs|
    ensures Reaches(cs[i], cs[i].channel, cs[j]) <==>
            j != i && cs[j].phase == Circle(cs[i]) && cs[j].channel == cs[i].channel
  {
  }

  lemma RelaysCons(c: Client, rest: seq<Client>, name: string, content: string, n: nat)
    ensures Relays([c] + rest, name, content, n) ==
            [Sent(c.AsPeer(), Msg(IdOf(n), name, content))] + Relays(rest, name, content, n + 1)
  {
    assert ([c] + rest)[1..] == rest;
  }

  lemma {:induction false} RelayCount(listeners: seq<Client>, name: string, content: string, n: nat)
    ensures |Relays(listeners, name, content, n)| == |listeners|
  {
    if listeners != [] { RelayCount(listeners[1..], name, content, n + 1); }
  }

  lemma AudienceUnfold(cs: seq<Client>, i: nat, j: nat, phase: Phase)
    requires i < |cs| && j <= |cs|
    ensures j == |cs| ==> Audience(cs, i, j, phase) == []
    ensures j < |cs| ==>
              Audience(cs, i, j, phase) ==
              (if j != i && cs[j].phase == phase && cs[j].channel == cs[i].channel then [cs[j]] else [])
              + Audience(cs, i, j + 1, phase)
  {
  }

  lemma ForwardUnfold(cfg: Config, s: State, from: Client, m: Message, j: nat)
    requires j <= |s.clients|
    ensures j == |s.clients| ==> Forward(cfg, s, from, m, j) == s
    ensures j < |s.clients| ==>
              var c := s.clients[j];
              Forward(cfg, s, from, m, j) ==
              Forward(cfg, if Reaches(from, from.channel, c) then Transmit(cfg, s, c.AsPeer(), m) else s, from, m, j + 1)
  {
    hide Message.WithId, IdOf, Reaches, Transmit;
  }

  /** A broadcast of client `i` is one MSG to each of its audience, in list order, and nothing else. */
  lemma {:induction false} ForwardReaches(cfg: Config, s: State, i: nat, m: Message, j: nat)
    requires Assembled(s.clients, i) && j <= |s.clients| && m.Msg?
    ensures Forward(cfg, s, s.clients[i], m, j) ==
            Sends(cfg, s, Relays(Audience(s.clients, i, j, Circle(s.clients[i])), m.displayName, m.content, |s.sent|))
    decreases |s.clients| - j
  {
    hide IdOf, Reaches, Assembled, Forward, Audience, Relays, Sends, Circle, Transmit;
    var cs, n := s.clients, |s.sent|;
    InAssembly(cs, i);
    var phase := Circle(cs[i]);
    ForwardUnfold(cfg, s, cs[i], m, j);
    AudienceUnfold(cs, i, j, phase);
    if j == |cs| {
      NoRelays(m.displayName, m.content, n);
      SendsNone(cfg, s);
    } else {
      var c, rest := cs[j], Audience(cs, i, j + 1, phase);
      AudienceReached(cs, i, j);
      if Reaches(cs[i], cs[i].channel, c) {
        ForwardOne(cfg, s, c, m);
        ForwardReaches(cfg, Transmit(cfg, s, c.AsPeer(), m), i, m, j + 1);
        RelaysCons(c, rest, m.displayName, m.content, n);
        SendsAdd(cfg, s, [Sent(c.AsPeer(), Msg(IdOf(n), m.displayName, m.content))],
                 Relays(rest, m.displayName, m.content, n + 1));
      } else {
        ForwardReaches(cfg, s, i, m, j + 1);
        assert [] + rest == rest;
      }
    }
  }

  lemma NoRelays(name: string, content: string, n: nat)
    ensures Relays([], name, content, n) == []
  {
  }

  lemma ForwardOne(cfg: Config, s: State, c: Client, m: Message)
    requires m.Msg?
    ensures var r := Transmit(cfg, s, c.AsPeer(), m);
            && r == Sends(cfg, s, [Sent(c.AsPeer(), Msg(IdOf(|s.sent|), m.displayName, m.content))])
            && r.clients == s.clients && |r.sent| == |s.sent| + 1
  {
    hide IdOf;
    TransmitSends(cfg, s, c.AsPeer(), m);
  }

  lemma InAssembly(cs: seq<Client>, i: nat)
    requires Assembled(cs, i)
    ensures i < |cs|
  {
  }

  /** Only the descriptor of the client itself matters. */
  lemma Reassembled(cs: seq<Client>, i: nat, d: Client)
    requires Assembled(cs, i) && d.fd == cs[i].fd
    ensures Assembled(cs[i := d], i)
  {
    var ds := cs[i := d];
    forall j | 0 <= j < |cs| && j != i ensures AtRest(ds[j]) && ds[j].fd != d.fd {
      assert ds[j] == cs[j];
    }
  }

  lemma {:induction false} AudienceSame(cs: seq<Client>, ds: seq<Client>, i: nat, j: nat, phase: Phase)
    requires |cs| == |ds| && i < |cs| && j <= |cs| && cs[i].channel == ds[i].channel
    requires forall k | 0 <= k < |cs| && k != i :: cs[k] == ds[k]
    ensures Audience(ds, i, j, phase) == Audience(cs, i, j, phase)
    decreases |cs| - j
  {
    hide Audience;
    AudienceUnfold(cs, i, j, phase);
    AudienceUnfold(ds, i, j, phase);
    if j < |cs| { AudienceSame(cs, ds, i, j + 1, phase); }
  }

  /** Changing anything of the sender but its channel leaves its audience alone. */
  lemma AudienceFrame(cs: seq<Client>, i: nat, d: Client, phase: Phase := Open)
    requires i < |cs| && d.channel == cs[i].channel
    ensures Audience(cs[i := d], i, 0, phase) == Audience(cs, i, 0, phase)
  {
    hide Audience;
    AudienceSame(cs, cs[i := d], i, 0, phase);
  }

  /** Who hears client `i` is another client, live and at rest. */
  lemma {:induction false} AudienceListed(cs: seq<Client>, i: nat, j: nat, phase: Phase)
    requires i < |cs| && j <= |cs|
    ensures forall c | c in Audience(cs, i, j, phase) :: c in cs && c.phase == phase
    ensures Assembled(cs, i) ==> forall c | c in Audience(cs, i, j, phase) :: c.fd != cs[i].fd
    decreases |cs| - j
  {
    if j < |cs| { AudienceListed(cs, i, j + 1, phase); }
  }

  lemma {:induction false} RelaysTo(listeners: seq<Client>, name: string, content: string, n: nat, x: Sent)
    requires x in Relays(listeners, name, content, n)
    ensures exists c | c in listeners :: x.peer == c.AsPeer()
  {
    hide IdOf;
    if x != Relays(listeners, name, content, n)[0] {
      RelaysTo(listeners[1..], name, content, n + 1, x);
      var c :| c in listeners[1..] && x.peer == c.AsPeer();
      assert c in listeners;
    } else {
      assert listeners[0] in listeners;
    }
  }

  /** A notice or message from client `i`, after it has become `d`. */
  lemma Announce(cfg: Config, s: State, i: nat, d: Client, m: Message)
    requires i < |s.clients| && Assembled(s.clients[i := d], i) && m.Msg?
    ensures var t := Update(s, i, d);
            var hearers := Audience(t.clients, i, 0, Circle(d));
            var out := Relays(hearers, m.displayName, m.content, |s.sent|);
            Forward(cfg, t, d, m, 0) == Sends(cfg, t, out) && |out| == |hearers|
  {
    hide Forward, Audience, Relays, Assembled, Sends;
    var t := Update(s, i, d);
    ForwardReaches(cfg, t, i, m, 0);
    RelayCount(Audience(t.clients, i, 0, Circle(d)), m.displayName, m.content, |s.sent|);
  }

  // ----- Closing -----

  /** The clients once client `i` is closed: ended if UDP, unlinked by id if TCP. */
  function Dismissed(cs: seq<Client>, i: nat): seq<Client>
    requires i < |cs|
  {
    var ended := cs[i := cs[i].(phase := End)];
    var k := FindClientId(ended, cs[i].Id());
    if cs[i].protocol == Udp || k == |ended| then ended else Without(ended, k)
  }

  lemma DismissedAlike(cs: seq<Client>, i: nat, d: Client)
    requires i < |cs| && d.(phase := End) == cs[i].(phase := End)
    ensures Dismissed(cs[i := d], i) == Dismissed(cs, i)
  {
    hide FindClientId, IdOf;
    assert d.serial == cs[i].serial && d.protocol == cs[i].protocol by {
      assert d.(phase := End).serial == cs[i].(phase := End).serial;
      assert d.(phase := End).protocol == cs[i].(phase := End).protocol;
    }
    assert cs[i := d][i := d.(phase := End)] == cs[i := cs[i].(phase := End)];
  }

  /** Nothing is buffered for a TCP client. */
  ghost predicate Clear(c: Client, b: seq<Pending>) {
    c.protocol == Tcp ==> forall k | 0 <= k < |b| :: b[k].peer.fd != c.fd
  }

  lemma {:induction false} QueuedElsewhere(cfg: Config, n: nat, out: seq<Sent>, fd: int)
    requires forall x | x in out && x.peer.fd == fd :: x.peer.protocol == Tcp
    ensures forall p | p in Queued(cfg, n, out) :: p.peer.fd != fd
    decreases |out|
  {
    if out != [] {
      assert out[0] in out;
      QueuedElsewhere(cfg, n + 1, out[1..], fd);
    }
  }

  lemma ClearKept(cfg: Config, c: Client, s: State, out: seq<Sent>)
    requires Clear(c, s.buffer) && forall x | x in out && x.peer.fd == c.fd :: x.peer.protocol == c.protocol
    ensures Clear(c, Sends(cfg, s, out).buffer)
  {
    hide Queued;
    if c.protocol == Tcp {
      QueuedElsewhere(cfg, |s.sent|, out, c.fd);
      var q := Queued(cfg, |s.sent|, out);
      forall k | 0 <= k < |s.buffer + q| ensures (s.buffer + q)[k].peer.fd != c.fd {
        assert k >= |s.buffer| ==> (s.buffer + q)[k] in q;
      }
    }
  }

  lemma RelaysClear(cfg: Config, s: State, i: nat, j: nat, name: string, content: string, c: Client, n: nat)
    requires Assembled(s.clients, i) && j <= |s.clients| && c.fd == s.clients[i].fd && Clear(c, s.buffer)
    ensures Clear(c, Sends(cfg, s, Relays(Audience(s.clients, i, j, Circle(s.clients[i])), name, content, n)).buffer)
  {
    hide Sends, Relays, Audience, Clear, Circle;
    InAssembly(s.clients, i);
    var hearers := Audience(s.clients, i, j, Circle(s.clients[i]));
    AudienceListed(s.clients, i, j, Circle(s.clients[i]));
    forall x | x in Relays(hearers, name, content, n) ensures x.peer.fd != c.fd {
      RelaysTo(hearers, name, content, n, x);
    }
    ClearKept(cfg, c, s, Relays(hearers, name, content, n));
  }

  lemma {:induction false} PurgeNothing(s: State, c: Client, k: nat)
    requires k <= |s.buffer| && forall j | k <= j < |s.buffer| :: s.buffer[j].peer.fd != c.fd
    ensures Purge(s, c, k) == s
    decreases |s.buffer| - k
  {
    if k < |s.buffer| { PurgeNothing(s, c, k + 1); }
  }

  /** The BYE that closing client `c` sends, if any. */
  function Goodbye(c: Client, n: nat): seq<Sent> {
    if c.phase != End then [Sent(c.AsPeer(), Bye(IdOf(n)))] else []
  }

  lemma GoodbyeQueued(cfg: Config, c: Client, n: nat)
    ensures Queued(cfg, n, Goodbye(c, n)) ==
            if c.phase != End && c.protocol == Udp then [Pending(n, c.AsPeer(), Bye(IdOf(n)), cfg.timeout, 0)] else []
  {
    hide IdOf;
    var x := Sent(c.AsPeer(), Bye(IdOf(n)));
    assert [x][1..] == [];
    assert Queued(cfg, n + 1, []) == [];
  }

  /** Closing a client: at most one BYE, which only a UDP client has to confirm, and nothing leaves the buffer. */
  lemma CloseWhole(cfg: Config, s: State, i: nat)
    requires i < |s.clients| && Clear(s.clients[i], s.buffer)
    ensures Close(cfg, s, i) ==
            Sends(cfg, s.(clients := Dismissed(s.clients, i)), Goodbye(s.clients[i], |s.sent|))
  {
    hide Purge, FindClientId, IdOf, Sends, Queued, Clear, Transmit;
    var c, f := s.clients[i], Farewell(cfg, s, i);
    var t := s.(clients := s.clients[i := c.(phase := End)]);
    if c.phase == End {
      assert s.clients[i := c] == s.clients;
      SendsNone(cfg, t);
    } else {
      TransmitSends(cfg, t, c.AsPeer(), Bye(0));
    }
    assert f == Sends(cfg, t, Goodbye(c, |s.sent|));
    ClearKept(cfg, c, t, Goodbye(c, |s.sent|));
    SendsClients(cfg, t, Goodbye(c, |s.sent|), Dismissed(s.clients, i));
    if c.protocol == Tcp { ClearPurge(f, f.clients[i], c); }
  }

  lemma ClearPurge(s: State, c: Client, d: Client)
    requires d.protocol == Tcp && Clear(d, s.buffer) && c.fd == d.fd
    ensures Purge(s, c, 0) == s
  {
    PurgeNothing(s, c, 0);
  }

  lemma SendsClients(cfg: Config, s: State, out: seq<Sent>, cs: seq<Client>)
    ensures Sends(cfg, s, out).clients == s.clients && |Sends(cfg, s, out).sent| == |s.sent| + |out|
    ensures Sends(cfg, s, out).(clients := cs) == Sends(cfg, s.(clients := cs), out)
  {
  }

  /** Closing a client that has already been marked as ended only removes it, if it is a TCP client. */
  lemma CloseMarked(cfg: Config, s: State, i: nat)
    requires i < |s.clients| && Clear(s.clients[i], s.buffer)
    ensures Close(cfg, SetPhase(s, i, End), i) == s.(clients := Dismissed(s.clients, i))
  {
    hide Sends, Dismissed, Close;
    var t := SetPhase(s, i, End);
    CloseWhole(cfg, t, i);
    SendsNone(cfg, t.(clients := Dismissed(t.clients, i)));
    DismissedAlike(s.clients, i, s.clients[i].(phase := End));
  }
}
