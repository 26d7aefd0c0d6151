/** The session automaton: phases, channels, and what happens to a client in each event. */
module Phases {
  import opened Types
  import opened DedupRing
  import opened Session
  import opened Books
  import opened Routines
  import opened Runs

  /** Between events a client is accepted without a channel, open with one, or ended (if `narrow`, then UDP). */
  predicate AtRest(c: Client, narrow: bool := false) {
    || (c.phase == Accept && c.channel == "")
    || (c.phase == Open && c.channel != "")
    || (c.phase == End && (narrow ==> c.protocol == Udp))
  }

  /** Datagrams dropped with a client belong to clients that are gone for good. */
  ghost predicate Buried(cs: seq<Client>, retired: seq<Retired>, joined: nat) {
    forall k | 0 <= k < |retired| && retired[k].WithClient? ::
      retired[k].serial < joined && forall i | 0 <= i < |cs| :: cs[i].serial != retired[k].serial
  }

  /** The automaton's invariant, for any run or (`narrow`) for runs that stay in the id window. */
  ghost predicate Orderly(s: State, narrow: bool) {
    && (forall i | 0 <= i < |s.clients| :: AtRest(s.clients[i], narrow) && (s.stopFlag ==> s.clients[i].phase != Open))
    && (narrow ==> Buried(s.clients, s.retired, s.joined))
    && (s.stopped ==> s.stopFlag)
  }

  /** What may become of one client: it keeps its identity, never leaves End, never opens during a stop. */
  ghost predicate Heir(c: Client, d: Client, stop: bool, narrow: bool) {
    SameIdentity(c, d) && AtRest(d, narrow) && (c.phase == End ==> d.phase == End) && (stop ==> d.phase != Open)
  }

  /** Client `i` has ended and the first client with its queue id, which may be another one, is unlinked. */
  ghost predicate Unlinked(cs: seq<Client>, ds: seq<Client>, i: nat)
    requires i < |cs|
  {
    var k := FindClientId(cs, cs[i].Id());
    && k <= i && |ds| == |cs| - 1
    && forall j | 0 <= j < |ds| ::
         var o := if j < k then j else j + 1;
         if o == i then SameIdentity(cs[i], ds[j]) && ds[j].phase == End else ds[j] == cs[o]
  }

  /** Only client `i` changes: it lives on, or is closed and unlinked, in the window itself. Only a CONFIRM confirms. */
  ghost predicate Touched(s: State, r: State, i: nat, m: Message, narrow: bool)
    requires i < |s.clients|
  {
    && s.retired <= r.retired
    && (forall k | |s.retired| <= k < |r.retired| ::
          if r.retired[k].ByConfirm? then m == Confirm(r.retired[k].ref)
          else narrow ==> r.retired[k].serial == s.clients[i].serial && r.clients == Without(s.clients, i))
    && (|| (Unlinked(s.clients, r.clients, i) && (narrow ==> r.clients == Without(s.clients, i)))
        || (|r.clients| == |s.clients| && r.clients == s.clients[i := r.clients[i]]
            && Heir(s.clients[i], r.clients[i], s.stopFlag, narrow)))
  }

  lemma {:induction false} PurgeDrops(s: State, c: Client, k: nat)
    requires k <= |s.buffer|
    ensures var r := Purge(s, c, k);
            && s.retired <= r.retired
            && forall j | |s.retired| <= j < |r.retired| :: r.retired[j].WithClient? && r.retired[j].serial == c.serial
    decreases |s.buffer| - k
  {
    if k < |s.buffer| {
      if s.buffer[k].peer.fd == c.fd {
        var j := FindId(s.buffer, s.buffer[k].Id());
        PurgeDrops(Drop(s, j, WithClient(s.buffer[j].number, c.serial, c.fd)), c, k);
      } else {
        PurgeDrops(s, c, k + 1);
      }
    }
  }

  /** Closing ends a UDP client and removes a TCP one. */
  lemma CloseEffect(cfg: Config, s: State, i: nat, w: Scope)
    requires Sound(cfg, s, w) && w.Window? && i < |s.clients| && Room(w, Close(cfg, s, i).sent)
    ensures var r, c := Close(cfg, s, i), s.clients[i];
            && s.retired <= r.retired
            && (c.protocol == Udp ==> r.clients == s.clients[i := c.(phase := End)] && r.retired == s.retired)
            && (c.protocol == Tcp ==>
                  && r.clients == Without(s.clients, i)
                  && forall k | |s.retired| <= k < |r.retired| :: r.retired[k].WithClient? && r.retired[k].serial == c.serial)
  {
    hide Sound, Purge, Message.WithId, IdOf, FindClientId;
    var f := Farewell(cfg, s, i);
    assert f.clients == s.clients[i := s.clients[i].(phase := End)] && f.retired == s.retired;
    if s.clients[i].protocol == Tcp {
      FarewellSound(cfg, s, i, w);
      DeleteExact(cfg, f, i, w);
      PurgeDrops(f, f.clients[i], 0);
      assert Without(f.clients, i) == Without(s.clients, i);
    }
  }

  lemma SameFound(cs: seq<Client>, ds: seq<Client>, id: nat)
    requires |cs| == |ds| && forall j | 0 <= j < |cs| :: cs[j].serial == ds[j].serial
    ensures FindClientId(cs, id) == FindClientId(ds, id)
  {
    hide IdOf;
  }

  /** What closing does to the list in any state: a UDP client ends, and with a TCP client the first of its id goes. */
  lemma CloseClients(cfg: Config, s: State, i: nat)
    requires i < |s.clients|
    ensures var r, c := Close(cfg, s, i), s.clients[i];
            var ended, k := s.clients[i := c.(phase := End)], FindClientId(s.clients, c.Id());
            && k <= i && s.retired <= r.retired
            && r.clients == (if c.protocol == Udp then ended else Without(ended, k))
            && (forall j | |s.retired| <= j < |r.retired| :: r.retired[j].WithClient? && r.retired[j].serial == c.serial)
            && (c.protocol == Udp ==> r.retired == s.retired)
  {
    hide Purge, Message.WithId, IdOf, FindClientId;
    var f := Farewell(cfg, s, i);
    assert f.clients == s.clients[i := s.clients[i].(phase := End)] && f.retired == s.retired;
    SameFound(s.clients, f.clients, s.clients[i].Id());
    PurgeDrops(f, f.clients[i], 0);
  }

  lemma UnlinkEnded(cs: seq<Client>, i: nat, d: Client)
    requires i < |cs| && SameIdentity(cs[i], d) && d.phase == End
    ensures var k := FindClientId(cs, cs[i].Id());
            && k <= i && Unlinked(cs, Without(cs[i := d], k), i)
            && (k == i ==> Without(cs[i := d], k) == Without(cs, i))
  {
    hide FindClientId, IdOf, Without;
    var ended, k := cs[i := d], FindClientId(cs, cs[i].Id());
    WithoutAt(ended, k);
    WithoutAt(cs, i);
    var ds := Without(ended, k);
    forall j | 0 <= j < |ds|
      ensures var o := if j < k then j else j + 1; ds[j] == if o == i then d else cs[o]
    {
    }
    if k == i {
      assert forall j | 0 <= j < |ds| :: ds[j] == Without(cs, i)[j];
    }
  }

  /** Closing client `i` of a state `t` that differs from `s` in that client, and in what a CONFIRM retired. */
  lemma CloseTouched(cfg: Config, s: State, t: State, i: nat, m: Message, w: Scope)
    requires i < |s.clients| == |t.clients| && t.clients == s.clients[i := t.clients[i]]
    requires SameIdentity(s.clients[i], t.clients[i])
    requires Sound(cfg, t, w) && Room(w, Close(cfg, t, i).sent)
    requires s.retired <= t.retired
    requires forall k | |s.retired| <= k < |t.retired| :: t.retired[k].ByConfirm? && m == Confirm(t.retired[k].ref)
    ensures Touched(s, Close(cfg, t, i), i, m, w.Window?)
  {
    hide Sound, Close, FindClientId, IdOf, Unlinked, Without;
    var d := t.clients[i].(phase := End);
    CloseClients(cfg, t, i);
    SameFound(s.clients, t.clients, t.clients[i].Id());
    assert t.clients[i := d] == s.clients[i := d];
    UnlinkEnded(s.clients, i, d);
    if t.clients[i].protocol == Tcp && w.Window? { WindowFinds(cfg, t, i, w); }
  }

  lemma CloseItself(cfg: Config, s: State, i: nat, m: Message, w: Scope)
    requires Sound(cfg, s, w) && i < |s.clients| && Room(w, Close(cfg, s, i).sent)
    ensures Touched(s, Close(cfg, s, i), i, m, w.Window?)
  {
    hide Sound, Close, Touched;
    assert s.clients == s.clients[i := s.clients[i]];
    CloseTouched(cfg, s, s, i, m, w);
  }

  lemma DeleteTouched(cfg: Config, s: State, i: nat, m: Message, w: Scope)
    requires Sound(cfg, s, w) && i < |s.clients| && s.clients[i].phase == End
    ensures Touched(s, Delete(s, i), i, m, w.Window?)
  {
    hide Sound, Purge, FindClientId, IdOf, Unlinked, Without;
    if w.Window? { DeleteExact(cfg, s, i, w); }
    PurgeDrops(s, s.clients[i], 0);
    assert s.clients[i := s.clients[i]] == s.clients;
    UnlinkEnded(s.clients, i, s.clients[i]);
  }

  /** Whatever the distance of serial numbers: a closed TCP client is gone exactly if no earlier client has its queue id. */
  lemma ClosedIsGone(cfg: Config, s: State, i: nat)
    requires Sound(cfg, s, Free) && i < |s.clients| && s.clients[i].protocol == Tcp
    ensures (forall c | c in Close(cfg, s, i).clients :: c.serial != s.clients[i].serial)
            <==> forall k | 0 <= k < i :: s.clients[k].Id() != s.clients[i].Id()
  {
    hide Sound, Close, IdOf;
    SoundDistinct(cfg, s, Free);
    CloseClients(cfg, s, i);
    var k, r := FindClientId(s.clients, s.clients[i].Id()), Close(cfg, s, i).clients;
    if k < i {
      assert r[i - 1].serial == s.clients[i].serial && r[i - 1] in r;
    }
  }

  lemma AcknowledgeTouched(cfg: Config, s: State, i: nat, ref: nat, w: Scope)
    requires Sound(cfg, s, w) && i < |s.clients| && Room(w, Acknowledge(cfg, s, i, ref).sent)
    requires AtRest(s.clients[i], w.Window?) && (s.stopFlag ==> s.clients[i].phase != Open)
    ensures Touched(s, Acknowledge(cfg, s, i, ref), i, Confirm(ref), w.Window?)
  {
    hide Sound, Close, IdOf, Unlinked;
    var k := FindId(s.buffer, ref);
    assert s.clients == s.clients[i := s.clients[i]];
    if k < |s.buffer| {
      var e := ByConfirm(s.buffer[k].number, ref);
      RetireSound(cfg, s, k, e, w);
      if s.buffer[k].msg.Bye? { CloseTouched(cfg, s, Drop(s, k, e), i, Confirm(ref), w); }
    }
  }

  /** The client part of the conversational messages. */
  lemma TalkEffect(cfg: Config, s: State, i: nat, m: Message)
    requires i < |s.clients| && Fits(m) && (m.Auth? || m.Join? || m.Msg? || m.Err? || m.Reply?)
    requires AtRest(s.clients[i]) && s.clients[i].phase != End && (s.clients[i].phase == Accept ==> m.Auth?)
    ensures var r := Execute(cfg, s, i, m).0;
            && r.retired == s.retired
            && |r.clients| == |s.clients| && r.clients == s.clients[i := r.clients[i]]
            && SameIdentity(s.clients[i], r.clients[i])
            && (if m.Reply? then r.clients[i].phase == Error
                else AtRest(r.clients[i]) && r.clients[i].phase == Open)
  {
    hide Forward;
    var c := s.clients[i];
    match m
    case Auth(_, user, name, _) =>
      if c.phase == Accept {
        var d := c.(username := user, displayName := name, channel := "default");
        ForwardKeepsClients(cfg, Update(s, i, d), d, Joined(d), 0);
      } else {
        assert s.clients == s.clients[i := c];
      }
    case Join(_, channel, name) =>
      ForwardKeepsClients(cfg, s, c, Left(c), 0);
      var d := c.(channel := channel, displayName := name);
      ForwardKeepsClients(cfg, Update(NotifyLeave(cfg, s, i), i, d), d, Joined(d), 0);
    case Msg(_, name, _) =>
      var d := c.(displayName := name);
      ForwardKeepsClients(cfg, Update(s, i, d), d, m, 0);
    case Err(_, _, _) => assert s.clients == s.clients[i := c];
    case Reply(_, _, _, _) =>
  }

  lemma DepartTouched(cfg: Config, s: State, i: nat, m: Message, w: Scope)
    requires Sound(cfg, s, w) && i < |s.clients| && Room(w, Depart(cfg, s, i).sent)
    ensures Touched(s, Depart(cfg, s, i), i, m, w.Window?)
  {
    hide Sound, Forward, Close, Touched;
    var c := s.clients[i];
    assert Update(s, i, c) == s;
    AnnounceSound(cfg, s, i, c, Left(c), w);
    var l := NotifyLeave(cfg, s, i);
    PhaseSound(cfg, l, i, End, w);
    CloseTouched(cfg, s, SetPhase(l, i, End), i, m, w);
  }

  lemma DispatchTouched(cfg: Config, s: State, i: nat, m: Message, w: Scope)
    requires Sound(cfg, s, w) && i < |s.clients| && Room(w, Dispatch(cfg, s, i, m).sent)
    requires Fits(m) && AtRest(s.clients[i], w.Window?) && (s.stopFlag ==> s.clients[i].phase != Open)
    requires s.stopFlag || s.clients[i].phase == End ==> m.Bye? || m.Confirm?
    ensures Touched(s, Dispatch(cfg, s, i, m), i, m, w.Window?)
  {
    hide Sound, Reachable, Close, Acknowledge, Depart, Message.WithId, Fits, Authorize, Move, Speak;
    var c := s.clients[i];
    ClientReachable(cfg, s, i, w);
    var (s1, ok) := Check(cfg, s, i, m);
    if s1 != s {
      TransmitSound(cfg, s, c.AsPeer(), Err(0, "Server", "Client is not yet authorized."), w);
    }
    if m.Confirm? {
      AcknowledgeTouched(cfg, s1, i, m.ref, w);
    } else if m.Bye? {
      DepartTouched(cfg, s1, i, m, w);
    } else {
      DispatchTalk(cfg, s, s1, ok, i, m, w);
    }
  }

  /** The messages that a live client may not be closed by, unless it broke the rules. */
  lemma DispatchTalk(cfg: Config, s: State, s1: State, ok: bool, i: nat, m: Message, w: Scope)
    requires Sound(cfg, s, w) && Sound(cfg, s1, w) && i < |s.clients|
    requires Room(w, Dispatch(cfg, s, i, m).sent) && (s1, ok) == Check(cfg, s, i, m)
    requires Fits(m) && AtRest(s.clients[i], w.Window?) && !m.Bye? && !m.Confirm? && !s.stopFlag && s.clients[i].phase != End
    ensures Touched(s, Dispatch(cfg, s, i, m), i, m, w.Window?)
  {
    hide Sound, Reachable, Close, Execute, Transmit, Fits;
    var s2;
    if ok {
      var (e, answer) := Execute(cfg, s1, i, m);
      ExecuteSound(cfg, s1, i, m, w);
      TalkEffect(cfg, s1, i, m);
      s2 := e;
      if answer.Some? {
        ClientReachable(cfg, e, i, w);
        TransmitSound(cfg, e, e.clients[i].AsPeer(), answer.value, w);
        s2 := Transmit(cfg, e, e.clients[i].AsPeer(), answer.value);
      }
    } else {
      PhaseSound(cfg, s1, i, Error, w);
      s2 := SetPhase(s1, i, Error);
    }
    if s2.clients[i].phase == Error {
      PhaseSound(cfg, s2, i, End, w);
      CloseTouched(cfg, s, SetPhase(s2, i, End), i, m, w);
    }
  }

  /** A change to client `i` that leaves identity and phase alone can be seen through. */
  lemma TouchedVia(s: State, t: State, r: State, i: nat, m: Message, narrow: bool)
    requires i < |s.clients| && |t.clients| == |s.clients| && t.clients == s.clients[i := t.clients[i]]
    requires SameIdentity(s.clients[i], t.clients[i]) && s.clients[i].phase == t.clients[i].phase
    requires t.retired == s.retired && t.stopFlag == s.stopFlag && Touched(t, r, i, m, narrow)
    ensures Touched(s, r, i, m, narrow)
  {
    hide FindClientId, IdOf;
    SameFound(s.clients, t.clients, s.clients[i].Id());
    assert Without(t.clients, i) == Without(s.clients, i);
  }

  lemma ProcessTouched(cfg: Config, s: State, i: nat, m: Message, w: Scope)
    requires Sound(cfg, s, w) && i < |s.clients| && Room(w, Process(cfg, s, i, m).sent)
    requires Fits(m) && AtRest(s.clients[i], w.Window?) && (s.stopFlag ==> s.clients[i].phase != Open)
    ensures Touched(s, Process(cfg, s, i, m), i, m, w.Window?)
  {
    hide Sound, Reachable, Dispatch, Contains, Record, Fits, Message.WithId;
    var c, id := s.clients[i], m.MessageId();
    assert s.clients == s.clients[i := c];
    if c.protocol == Udp && !m.Confirm? {
      ClientReachable(cfg, s, i, w);
      var s1 := Transmit(cfg, s.(receipts := s.receipts + [(c.serial, id)]), c.AsPeer(), Confirm(id));
      ConfirmSound(cfg, s, c.AsPeer(), id, w);
      if !Contains(c.ring, id) {
        var s2 := Update(s1, i, Noted(c, id));
        if !Ignored(s2, c, m) {
          ExecutionSound(cfg, s1, i, id, w);
          var s3 := s2.(executed := s2.executed + [Execution(c.serial, |c.seen|, id)]);
          DispatchTouched(cfg, s3, i, m, w);
          TouchedVia(s, s3, Dispatch(cfg, s3, i, m), i, m, w.Window?);
        }
      }
    } else if !Ignored(s, c, m) {
      DispatchTouched(cfg, s, i, m, w);
    }
  }

  lemma DestroyTouched(cfg: Config, s: State, fd: int, m: Message, w: Scope)
    requires Sound(cfg, s, w) && Room(w, Destroy(cfg, s, fd).sent)
    requires FindFd(s.clients, fd) < |s.clients|
    ensures Touched(s, Destroy(cfg, s, fd), FindFd(s.clients, fd), m, w.Window?)
  {
    hide Sound, Close, Delete, Forward, Unlinked, Heir, Without;
    var i := FindFd(s.clients, fd);
    if s.clients[i].phase == End {
      DeleteTouched(cfg, s, i, m, w);
    } else {
      var r := Close(cfg, s, i);
      CloseItself(cfg, s, i, m, w);
      if s.clients[i].protocol == Udp {
        CloseShape(cfg, s, i);
        ForwardKeepsClients(cfg, r, r.clients[i], Left(r.clients[i]), 0);
      }
    }
  }

  // ----- Whole events -----

  /** Clients come from clients: identity and End are inherited. */
  ghost predicate Lineage(s: State, r: State) {
    forall j | 0 <= j < |r.clients| :: r.clients[j].serial >= s.joined || Inherits(s.clients, r.clients[j])
  }

  ghost predicate Inherits(cs: seq<Client>, d: Client) {
    exists i :: 0 <= i < |cs| && SameIdentity(cs[i], d) && (cs[i].phase == End ==> d.phase == End)
  }

  lemma SelfLineage(s: State, r: State)
    requires r.clients == s.clients
    ensures Lineage(s, r)
  {
    forall j | 0 <= j < |r.clients| ensures Inherits(s.clients, r.clients[j]) {
      assert SameIdentity(s.clients[j], r.clients[j]);
    }
  }

  lemma LineageTrans(s: State, t: State, r: State)
    requires Lineage(s, t) && Lineage(t, r) && s.joined <= t.joined
    ensures Lineage(s, r)
  {
    forall j | 0 <= j < |r.clients| && r.clients[j].serial < s.joined ensures Inherits(s.clients, r.clients[j]) {
      var k :| 0 <= k < |t.clients| && SameIdentity(t.clients[k], r.clients[j]) && (t.clients[k].phase == End ==> r.clients[j].phase == End);
      var i :| 0 <= i < |s.clients| && SameIdentity(s.clients[i], t.clients[k]) && (s.clients[i].phase == End ==> t.clients[k].phase == End);
      assert SameIdentity(s.clients[i], r.clients[j]);
    }
  }

  lemma TouchedLineage(s: State, r: State, i: nat, m: Message, narrow: bool)
    requires i < |s.clients| && Touched(s, r, i, m, narrow)
    ensures Lineage(s, r)
  {
    hide FindClientId, IdOf;
    var k := FindClientId(s.clients, s.clients[i].Id());
    forall j | 0 <= j < |r.clients| ensures Inherits(s.clients, r.clients[j]) {
      var o := if |r.clients| < |s.clients| && j >= k then j + 1 else j;
      assert SameIdentity(s.clients[o], r.clients[j]);
    }
  }

  /** `Orderly`, with clients from position `n` on still allowed to be open during a stop. */
  ghost predicate OrderlyTo(s: State, n: nat, narrow: bool) {
    && (forall i | 0 <= i < |s.clients| :: AtRest(s.clients[i], narrow))
    && (s.stopFlag ==> forall i | 0 <= i < n && i < |s.clients| :: s.clients[i].phase != Open)
    && (narrow ==> Buried(s.clients, s.retired, s.joined))
    && (s.stopped ==> s.stopFlag)
  }

  ghost predicate Distinct(cs: seq<Client>, joined: nat) {
    && (forall i, j | 0 <= i < j < |cs| :: cs[i].serial != cs[j].serial)
    && (forall i | 0 <= i < |cs| :: cs[i].serial < joined)
  }

  lemma SoundDistinct(cfg: Config, s: State, w: Scope)
    requires Sound(cfg, s, w)
    ensures Distinct(s.clients, s.joined)
  {
    hide Ledger, Addressed, Confirms, Farewells, Executions, Kept, Represents;
  }

  /** In the window, what a change retires is retired with a client that it removes. */
  lemma TouchedBuries(s: State, r: State, i: nat, m: Message)
    requires Distinct(s.clients, s.joined) && i < |s.clients| && Touched(s, r, i, m, true) && r.joined == s.joined
    requires Buried(s.clients, s.retired, s.joined)
    ensures Buried(r.clients, r.retired, r.joined)
  {
    hide Unlinked, AtRest;
    if r.clients == Without(s.clients, i) { WithoutAt(s.clients, i); }
  }

  /** Unlinking at or before position `i` moves nobody but the ended client `i` to an earlier place than it had. */
  lemma UnlinkedCalm(cs: seq<Client>, ds: seq<Client>, i: nat, n: nat)
    requires i < |cs| && i <= n && Unlinked(cs, ds, i)
    requires forall j | 0 <= j < |cs| :: AtRest(cs[j])
    ensures forall j | 0 <= j < |ds| :: AtRest(ds[j])
    ensures (forall j | 0 <= j < n && j < |cs| :: cs[j].phase != Open) ==>
              forall j | 0 <= j < (if i < n then n - 1 else n) && j < |ds| :: ds[j].phase != Open
  {
    hide FindClientId, IdOf;
  }

  lemma TouchedOrderly(s: State, r: State, i: nat, n: nat, m: Message, narrow: bool)
    requires Distinct(s.clients, s.joined) && i < |s.clients| && i <= n && Touched(s, r, i, m, narrow)
    requires OrderlyTo(s, n, narrow) && r.stopFlag == s.stopFlag && r.joined == s.joined && r.stopped == s.stopped
    ensures OrderlyTo(r, if |r.clients| < |s.clients| && i < n then n - 1 else n, narrow)
    ensures |r.clients| == |s.clients| && s.stopFlag ==> r.clients[i].phase != Open
  {
    hide Buried, Unlinked, Without;
    if narrow { TouchedBuries(s, r, i, m); }
    if Unlinked(s.clients, r.clients, i) {
      UnlinkedCalm(s.clients, r.clients, i, n);
      UnlinkedShrinks(s.clients, r.clients, i);
      if narrow { WithoutAt(s.clients, i); }
    }
  }

  lemma UnlinkedShrinks(cs: seq<Client>, ds: seq<Client>, i: nat)
    requires i < |cs| && Unlinked(cs, ds, i)
    ensures |ds| == |cs| - 1
  {
    hide FindClientId, IdOf;
  }

  lemma {:induction false} DestroyAllOrderly(cfg: Config, s: State, doomed: seq<Option<int>>, w: Scope)
    requires Sound(cfg, s, w) && Room(w, DestroyAll(cfg, s, doomed).sent) && Orderly(s, w.Window?)
    ensures var r := DestroyAll(cfg, s, doomed); Orderly(r, w.Window?) && Lineage(s, r)
    ensures forall k | |s.retired| <= k < |DestroyAll(cfg, s, doomed).retired| :: DestroyAll(cfg, s, doomed).retired[k].WithClient?
    ensures s.retired <= DestroyAll(cfg, s, doomed).retired
    decreases |doomed|
  {
    hide Sound, Destroy, Buried, AtRest, SameIdentity, Lineage;
    if doomed == [] {
      SelfLineage(s, s);
    } else {
      var t := if doomed[0].Some? then Destroy(cfg, s, doomed[0].value) else s;
      assert Sound(cfg, t, w) && Orderly(t, w.Window?) && Lineage(s, t) && s.retired <= t.retired
             && forall k | |s.retired| <= k < |t.retired| :: t.retired[k].WithClient? by {
        if t != s { DestroyOrderly(cfg, s, doomed[0].value, w); } else { SelfLineage(s, s); }
      }
      DestroyAllOrderly(cfg, t, doomed[1..], w);
      LineageTrans(s, t, DestroyAll(cfg, t, doomed[1..]));
    }
  }

  lemma DestroyOrderly(cfg: Config, s: State, fd: int, w: Scope)
    requires Sound(cfg, s, w) && Room(w, Destroy(cfg, s, fd).sent) && Orderly(s, w.Window?)
    ensures var r := Destroy(cfg, s, fd);
            && Sound(cfg, r, w) && Orderly(r, w.Window?) && Lineage(s, r) && s.retired <= r.retired
            && forall k | |s.retired| <= k < |r.retired| :: r.retired[k].WithClient?
  {
    hide Sound, Buried, AtRest, Close, Delete, Forward;
    DestroySound(cfg, s, fd, w);
    var i, r := FindFd(s.clients, fd), Destroy(cfg, s, fd);
    if i < |s.clients| {
      DestroyTouched(cfg, s, fd, Bye(0), w);
      SoundDistinct(cfg, s, w);
      TouchedOrderly(s, r, i, |s.clients|, Bye(0), w.Window?);
      TouchedLineage(s, r, i, Bye(0), w.Window?);
    } else {
      SelfLineage(s, r);
    }
  }

  lemma {:induction false} HangUpOrderly(cfg: Config, s: State, i: nat, w: Scope)
    requires s.stopFlag && i <= |s.clients| && OrderlyTo(s, i, w.Window?)
    requires Sound(cfg, s, w) && Room(w, HangUp(cfg, s, i).sent)
    ensures var r := HangUp(cfg, s, i); Orderly(r, w.Window?) && Lineage(s, r) && s.retired <= r.retired
    ensures var r := HangUp(cfg, s, i); forall k | |s.retired| <= k < |r.retired| :: r.retired[k].WithClient?
    decreases |s.clients| - i
  {
    hide Sound, Close, Buried, AtRest, SameIdentity, Lineage;
    if i == |s.clients| {
      SelfLineage(s, s);
    } else if s.clients[i].phase == End {
      HangUpOrderly(cfg, s, i + 1, w);
    } else {
      var t := Close(cfg, s, i);
      CloseShape(cfg, s, i);
      CloseSound(cfg, s, i, w);
      CloseItself(cfg, s, i, Bye(0), w);
      SoundDistinct(cfg, s, w);
      TouchedOrderly(s, t, i, i, Bye(0), w.Window?);
      TouchedLineage(s, t, i, Bye(0), w.Window?);
      HangUpOrderly(cfg, t, if s.clients[i].protocol == Tcp then i else i + 1, w);
      LineageTrans(s, t, HangUp(cfg, s, i));
    }
  }

  /** Only an event that carries a CONFIRM retires a datagram as confirmed, and then the one it names. */
  ghost predicate Confirmations(s: State, e: Event, r: State) {
    && s.retired <= r.retired
    && forall k | |s.retired| <= k < |r.retired| && r.retired[k].ByConfirm? ::
         (e.Receive? || e.UdpOpen?) && e.msg == Confirm(r.retired[k].ref)
  }

  lemma TouchedStep(cfg: Config, s: State, t: State, r: State, i: nat, e: Event, w: Scope)
    requires Sound(cfg, t, w) && Orderly(t, w.Window?) && Lineage(s, t) && s.joined <= t.joined && s.retired == t.retired
    requires i < |t.clients| && r.stopFlag == t.stopFlag && r.joined == t.joined && r.stopped == t.stopped
    requires ((e.Receive? || e.UdpOpen?) && Touched(t, r, i, e.msg, w.Window?)) || Touched(t, r, i, Bye(0), w.Window?)
    ensures Orderly(r, w.Window?) && Lineage(s, r) && Confirmations(s, e, r)
  {
    hide Sound, Buried, AtRest, SameIdentity, Lineage;
    var m := if (e.Receive? || e.UdpOpen?) && Touched(t, r, i, e.msg, w.Window?) then e.msg else Bye(0);
    SoundDistinct(cfg, t, w);
    TouchedOrderly(t, r, i, |t.clients|, m, w.Window?);
    TouchedLineage(t, r, i, m, w.Window?);
    LineageTrans(s, t, r);
  }

  lemma EnlistOrderly(cfg: Config, s: State, c: Client, w: Scope)
    requires Sound(cfg, s, w) && Orderly(s, w.Window?) && c == Newcomer(s, c.fd, c.protocol, c.addr)
    ensures Orderly(Enlist(s, c), w.Window?) && Lineage(s, Enlist(s, c))
  {
    hide Sound;
    SoundDistinct(cfg, s, w);
    forall j | 0 <= j < |s.clients| ensures Inherits(s.clients, s.clients[j]) {
      assert SameIdentity(s.clients[j], s.clients[j]);
    }
  }

  lemma HeardOrderly(s: State, i: nat, addr: Addr, narrow: bool)
    requires Orderly(s, narrow) && i < |s.clients|
    ensures var t := Update(s, i, Heard(s.clients[i], addr)); Orderly(t, narrow) && Lineage(s, t)
  {
    var t := Update(s, i, Heard(s.clients[i], addr));
    forall j | 0 <= j < |t.clients| ensures Inherits(s.clients, t.clients[j]) {
      assert SameIdentity(s.clients[j], t.clients[j]);
    }
  }

  /** What one event does to the automaton: invariant, ancestry of clients, origin of confirmations. */
  ghost predicate Progress(s: State, e: Event, r: State, narrow: bool) {
    && Orderly(r, narrow) && Lineage(s, r) && Confirmations(s, e, r)
    && s.joined <= r.joined && (s.stopFlag ==> r.stopFlag)
  }

  lemma AdmitOrderly(cfg: Config, s: State, fd: int, addr: Addr, m: Message, w: Scope)
    requires Sound(cfg, s, w) && Orderly(s, w.Window?) && Unused(s, fd) && Fits(m)
    requires (w.Window? ==> ClientsFit(s, UdpOpen(fd, addr, m))) && Room(w, Admit(cfg, s, fd, addr, m).sent)
    ensures Progress(s, UdpOpen(fd, addr, m), Admit(cfg, s, fd, addr, m), w.Window?)
  {
    hide Sound, Process, Orderly, Lineage, Touched, Transmit, Fits;
    if FindAddr(s.clients, addr) < |s.clients| {
      QuietStep(s, Admit(cfg, s, fd, addr, m), w.Window?);
    } else {
      var c, i := Newcomer(s, fd, Udp, addr), |s.clients|;
      var t := Enlist(s, c);
      NewcomerSpread(cfg, s, c, w);
      EnlistSound(cfg, s, c, w);
      EnlistOrderly(cfg, s, c, w);
      ProcessAtRest(cfg, t, i, m, w);
      TouchedStep(cfg, s, t, Process(cfg, t, i, m), i, UdpOpen(fd, addr, m), w);
    }
  }

  lemma HearOrderly(cfg: Config, s: State, fd: int, addr: Addr, m: Message, w: Scope)
    requires Sound(cfg, s, w) && Orderly(s, w.Window?) && Fits(m) && Room(w, Hear(cfg, s, fd, addr, m).sent)
    ensures Progress(s, Receive(fd, addr, m), Hear(cfg, s, fd, addr, m), w.Window?)
  {
    hide Sound, Process, Orderly, Lineage, Touched, Transmit, Fits;
    var i := FindFd(s.clients, fd);
    if i < |s.clients| {
      var t := Update(s, i, Heard(s.clients[i], addr));
      UpdateSound(cfg, s, i, Heard(s.clients[i], addr), w);
      HeardOrderly(s, i, addr, w.Window?);
      ProcessAtRest(cfg, t, i, m, w);
      TouchedStep(cfg, s, t, Process(cfg, t, i, m), i, Receive(fd, addr, m), w);
    } else {
      SelfLineage(s, s);
    }
  }

  lemma GrumbleOrderly(cfg: Config, s: State, fd: int, addr: Addr, narrow: bool)
    requires Orderly(s, narrow)
    ensures Progress(s, Noise(fd, addr), Grumble(cfg, s, fd, addr), narrow)
  {
    hide Orderly, Lineage, Transmit;
    var i, r := FindFd(s.clients, fd), Grumble(cfg, s, fd, addr);
    if i < |s.clients| {
      var t := Update(s, i, Heard(s.clients[i], addr));
      HeardOrderly(s, i, addr, narrow);
      QuietStep(t, r, narrow);
      LineageTrans(s, t, r);
    } else {
      SelfLineage(s, s);
    }
  }

  lemma TickOrderly(cfg: Config, s: State, w: Scope)
    requires Sound(cfg, s, w) && Orderly(s, w.Window?) && Room(w, Tick(cfg, s).sent)
    ensures Progress(s, Idle, Tick(cfg, s), w.Window?)
  {
    hide Sound, Sweep, DestroyAll, Orderly, Lineage;
    var t := Countdown(s);
    TimersSound(cfg, s, t, w);
    QuietStep(s, t, w.Window?);
    if !t.stopped {
      SweepSound(cfg, t, |t.buffer|, w);
      var (u, doomed) := Sweep(cfg, t, |t.buffer|);
      QuietStep(t, u, w.Window?);
      DestroyAllOrderly(cfg, u, doomed, w);
      LineageTrans(s, t, u);
      LineageTrans(s, u, DestroyAll(cfg, u, doomed));
    }
  }

  lemma InterruptOrderly(cfg: Config, s: State, w: Scope)
    requires Sound(cfg, s, w) && Orderly(s, w.Window?) && Room(w, HangUp(cfg, s.(stopFlag := true), 0).sent)
    ensures var r := HangUp(cfg, s.(stopFlag := true), 0); Progress(s, Interrupt, r, w.Window?) && r.stopFlag
  {
    hide Sound, HangUp;
    var t := s.(stopFlag := true);
    TimersSound(cfg, s, t, w);
    SelfLineage(s, t);
    HangUpOrderly(cfg, t, 0, w);
    LineageTrans(s, t, HangUp(cfg, t, 0));
  }

  /** One event of the automaton. */
  lemma StepOrderly(cfg: Config, s: State, e: Event, w: Scope)
    requires Sound(cfg, s, w) && Admissible(s, e) && (w.Window? ==> ClientsFit(s, e))
    requires Room(w, Step(cfg, s, e).sent) && Orderly(s, w.Window?)
    ensures Progress(s, e, Step(cfg, s, e), w.Window?) && (e.Interrupt? ==> Step(cfg, s, e).stopFlag)
  {
    hide Sound, Admit, Hear, Grumble, Tick, Close, HangUp, Orderly, Lineage, Touched, Transmit, Fits;
    SelfLineage(s, s);
    StoppedFlag(s, w.Window?);
    if !s.stopped {
      match e
      case TcpAccept(fd, addr) => EnlistOrderly(cfg, s, Newcomer(s, fd, Tcp, addr), w);
      case UdpOpen(fd, addr, m) => AdmitOrderly(cfg, s, fd, addr, m, w);
      case UdpNoise(fd, addr) => QuietStep(s, Step(cfg, s, e), w.Window?);
      case Receive(fd, addr, m) => HearOrderly(cfg, s, fd, addr, m, w);
      case Noise(fd, addr) => GrumbleOrderly(cfg, s, fd, addr, w.Window?);
      case Fin(fd) =>
        var i := FindFd(s.clients, fd);
        if i < |s.clients| && s.clients[i].protocol == Tcp {
          CloseItself(cfg, s, i, Bye(0), w);
          TouchedStep(cfg, s, s, Close(cfg, s, i), i, e, w);
        }
      case Idle => TickOrderly(cfg, s, w);
      case Interrupt => InterruptOrderly(cfg, s, w);
    }
  }

  lemma QuietStep(s: State, r: State, narrow: bool)
    requires r.clients == s.clients && r.retired == s.retired && r.stopFlag == s.stopFlag && r.joined == s.joined
    requires r.stopped == s.stopped || r.stopFlag
    ensures Lineage(s, r) && (Orderly(s, narrow) ==> Orderly(r, narrow))
  {
    SelfLineage(s, r);
  }

  lemma StoppedFlag(s: State, narrow: bool)
    requires Orderly(s, narrow)
    ensures s.stopped ==> s.stopFlag
  {
  }

  lemma ProcessAtRest(cfg: Config, s: State, i: nat, m: Message, w: Scope)
    requires Sound(cfg, s, w) && Orderly(s, w.Window?) && i < |s.clients|
    requires Room(w, Process(cfg, s, i, m).sent) && Fits(m)
    ensures Touched(s, Process(cfg, s, i, m), i, m, w.Window?)
  {
    hide Sound, Process, Touched, Fits;
    ProcessTouched(cfg, s, i, m, w);
  }

  // ----- Runs -----

  lemma StartOrderly(narrow: bool)
    ensures Orderly(Start(), narrow)
  {
  }

  /** One event of a run that is legal and, if so asked, stays in the window. */
  lemma RunStep(cfg: Config, es: seq<Event>, narrow: bool)
    requires es != [] && Legal(cfg, es) && (narrow ==> Narrow(cfg, es)) && Orderly(Run(cfg, es[..|es| - 1]), narrow)
    ensures var e := es[|es| - 1];
            Progress(Run(cfg, es[..|es| - 1]), e, Run(cfg, es), narrow) && (e.Interrupt? ==> Run(cfg, es).stopFlag)
  {
    hide Sound, Step, Admissible, Progress, Orderly;
    var pre := es[..|es| - 1];
    RunSound(cfg, pre, narrow, false);
    StepOrderly(cfg, Run(cfg, pre), es[|es| - 1], ScopeOf(Run(cfg, pre), narrow, false));
  }

  /** The automaton's invariant in every state of every run. */
  lemma {:induction false} RunOrderly(cfg: Config, es: seq<Event>, narrow: bool)
    requires Legal(cfg, es) && (narrow ==> Narrow(cfg, es))
    ensures Orderly(Run(cfg, es), narrow)
    ensures (exists k :: 0 <= k < |es| && es[k].Interrupt?) ==> Run(cfg, es).stopFlag
  {
    hide Step, Admissible, Orderly, Confirmations, Lineage;
    if es == [] {
      StartOrderly(narrow);
    } else {
      var pre := es[..|es| - 1];
      RunOrderly(cfg, pre, narrow);
      RunStep(cfg, es, narrow);
      if k :| 0 <= k < |es| && es[k].Interrupt? {
        assert k < |pre| ==> pre[k].Interrupt?;
      }
    }
  }

  /** Between events every live client is accepted without a channel, open with one, or ended. */
  lemma Automaton(cfg: Config, es: seq<Event>, i: nat)
    requires Legal(cfg, es) && i < |Run(cfg, es).clients|
    ensures var c := Run(cfg, es).clients[i];
            && (c.phase == Accept || c.phase == Open || c.phase == End)
            && (c.phase == Accept ==> c.channel == "") && (c.phase == Open ==> c.channel != "")
  {
    hide Run, Legal;
    RunOrderly(cfg, es, false);
  }

  /** In the window only UDP clients wait in End. */
  lemma EndedIsUdp(cfg: Config, es: seq<Event>, i: nat)
    requires Legal(cfg, es) && Narrow(cfg, es) && i < |Run(cfg, es).clients|
    ensures Run(cfg, es).clients[i].phase == End ==> Run(cfg, es).clients[i].protocol == Udp
  {
    hide Run, Legal, Narrow;
    RunOrderly(cfg, es, true);
  }

  /** After an interrupt nobody is ever open again, whatever is accepted or received later. */
  lemma NobodyOpensAgain(cfg: Config, es: seq<Event>, k: nat)
    requires Legal(cfg, es) && k < |es| && es[k].Interrupt?
    ensures forall i | 0 <= i < |Run(cfg, es).clients| :: Run(cfg, es).clients[i].phase != Open
  {
    hide Run, Legal;
    RunOrderly(cfg, es, false);
  }

  /** A datagram retired with a client is retired with one that is gone for good. */
  lemma DroppedForGood(cfg: Config, es: seq<Event>, k: nat, i: nat)
    requires Legal(cfg, es) && Narrow(cfg, es)
    requires var s := Run(cfg, es); k < |s.retired| && s.retired[k].WithClient? && i < |s.clients|
    ensures Run(cfg, es).clients[i].serial != Run(cfg, es).retired[k].serial
  {
    hide Run, Legal, Narrow;
    RunOrderly(cfg, es, true);
  }

  /** What is retired as confirmed was named by a CONFIRM that the run received. */
  lemma {:induction false} ConfirmedByEvent(cfg: Config, es: seq<Event>, k: nat) returns (j: nat)
    requires Legal(cfg, es) && k < |Run(cfg, es).retired| && Run(cfg, es).retired[k].ByConfirm?
    ensures j < |es| && (es[j].Receive? || es[j].UdpOpen?) && es[j].msg == Confirm(Run(cfg, es).retired[k].ref)
  {
    hide Step, Admissible, Orderly, Lineage;
    var pre := es[..|es| - 1];
    RunOrderly(cfg, pre, false);
    RunStep(cfg, es, false);
    if k < |Run(cfg, pre).retired| {
      j := ConfirmedByEvent(cfg, pre, k);
    } else {
      j := |es| - 1;
    }
  }

  /** Over any stretch of a run, clients descend from clients. */
  lemma {:induction false} RunLineage(cfg: Config, es: seq<Event>, fs: seq<Event>)
    requires Legal(cfg, es + fs)
    ensures Lineage(Run(cfg, es), Run(cfg, es + fs)) && Run(cfg, es).joined <= Run(cfg, es + fs).joined
    decreases |fs|
  {
    hide Step, Admissible, Orderly, Confirmations, Lineage;
    if fs == [] {
      assert es + fs == es;
      SelfLineage(Run(cfg, es), Run(cfg, es));
    } else {
      var all, pre := es + fs, fs[..|fs| - 1];
      assert all[..|all| - 1] == es + pre;
      RunOrderly(cfg, es + pre, false);
      RunStep(cfg, all, false);
      RunLineage(cfg, es, pre);
      LineageTrans(Run(cfg, es), Run(cfg, es + pre), Run(cfg, all));
    }
  }

  lemma {:induction false} LegalPrefix(cfg: Config, es: seq<Event>, fs: seq<Event>)
    requires Legal(cfg, es + fs)
    ensures Legal(cfg, es)
    decreases |fs|
  {
    if fs == [] {
      assert es + fs == es;
    } else {
      assert (es + fs)[..|es + fs| - 1] == es + fs[..|fs| - 1];
      LegalPrefix(cfg, es, fs[..|fs| - 1]);
    }
  }

  /** End is never left: a client that has ended and is still there has ended. */
  lemma EndIsFinal(cfg: Config, es: seq<Event>, fs: seq<Event>, i: nat, j: nat)
    requires Legal(cfg, es + fs)
    requires i < |Run(cfg, es).clients| && j < |Run(cfg, es + fs).clients|
    requires Run(cfg, es).clients[i].serial == Run(cfg, es + fs).clients[j].serial
    requires Run(cfg, es).clients[i].phase == End
    ensures Run(cfg, es + fs).clients[j].phase == End
  {
    hide Run, Legal, Sound;
    LegalPrefix(cfg, es, fs);
    RunSound(cfg, es, false, false);
    SoundDistinct(cfg, Run(cfg, es), Free);
    RunLineage(cfg, es, fs);
  }
}
