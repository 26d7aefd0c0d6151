/** Lookup, addition, removal and purging in the sequences of the session engine are those of the linked list. */
module QueueBridge {
  import opened Types
  import opened Session
  import opened Routines
  import Q = LinkedQueue

  /** What the linked list holds for a sequence of the engine. */
  function Entries<T>(b: seq<T>, id: T -> nat): (r: seq<(nat, T)>)
    ensures |r| == |b| && forall i | 0 <= i < |b| :: r[i] == (id(b[i]), b[i])
  {
    seq(|b|, i requires 0 <= i < |b| => (id(b[i]), b[i]))
  }

  function MessageKey(p: Pending): nat { p.Id() }

  function ClientKey(c: Client): nat { c.Id() }

  function OwnerFd(p: Pending): int { p.peer.fd }

  lemma EntriesSnoc<T>(b: seq<T>, id: T -> nat, x: T)
    ensures Entries(b + [x], id) == Entries(b, id) + [(id(x), x)]
  {
  }

  /** Buffering a transmission and registering a client add one entry at the end, as `queue_add` does. */
  lemma AddIsAppend(cfg: Config, s: State, p: Peer, m: Message, c: Client)
    requires p.protocol == Udp && !m.Confirm? && c.serial == s.joined
    ensures var n := |s.sent|;
            var x := Pending(n, p, m.WithId(IdOf(n)), cfg.timeout, 0);
            Entries(Transmit(cfg, s, p, m).buffer, MessageKey) == Entries(s.buffer, MessageKey) + [(IdOf(n), x)]
    ensures Entries(Enlist(s, c).clients, ClientKey) == Entries(s.clients, ClientKey) + [(IdOf(s.joined), c)]
  {
    hide IdOf, Entries, Message.WithId;
    EntriesSnoc(s.buffer, MessageKey, Pending(|s.sent|, p, m.WithId(IdOf(|s.sent|)), cfg.timeout, 0));
    EntriesSnoc(s.clients, ClientKey, c);
  }

  /** The first position with an id is what `queue_get` finds and `queue_remove` unlinks. */
  lemma FirstIsFound<T>(b: seq<T>, id: T -> nat, n: nat, k: nat)
    requires k <= |b| && (k < |b| ==> id(b[k]) == n) && forall j | 0 <= j < k :: id(b[j]) != n
    ensures Q.IndexOf(Entries(b, id), n) == k
    ensures Q.Removed(Entries(b, id), n) == if k < |b| then Entries(Without(b, k), id) else Entries(b, id)
  {
    hide Q.IndexOf, Entries;
    var s := Entries(b, id);
    var i := Q.IndexOf(s, n);
    assert i < |b| ==> s[i].0 == id(b[i]);
    assert k < |b| ==> s[k].0 == id(b[k]);
    assert i == k;
    if k < |b| {
      assert Q.Cut(s, k) == Entries(Without(b, k), id);
    }
  }

  /** Finding and removing by id, in the message buffer and in the client list. */
  lemma RemoveIsRemoved(b: seq<Pending>, cs: seq<Client>, id: nat)
    ensures var k := FindId(b, id);
            && Q.IndexOf(Entries(b, MessageKey), id) == k
            && (k < |b| ==> Q.Removed(Entries(b, MessageKey), id) == Entries(Without(b, k), MessageKey))
    ensures var k := FindClientId(cs, id);
            && Q.IndexOf(Entries(cs, ClientKey), id) == k
            && (k < |cs| ==> Q.Removed(Entries(cs, ClientKey), id) == Entries(Without(cs, k), ClientKey))
  {
    hide IdOf, FindId, FindClientId, Q.IndexOf, Q.Removed, Entries, Without;
    FirstIsFound(b, MessageKey, id, FindId(b, id));
    FirstIsFound(cs, ClientKey, id, FindClientId(cs, id));
  }

  /** The engine's purge of a client's datagrams is the walk over the linked list. */
  lemma {:induction false} PurgeIsWalk(s: State, c: Client, k: nat)
    requires k <= |s.buffer|
    ensures Entries(Purge(s, c, k).buffer, MessageKey) == Q.Walk(Entries(s.buffer, MessageKey), OwnerFd, c.fd, k)
    decreases |s.buffer| - k
  {
    hide IdOf, Q.Removed, Q.IndexOf, FindId, Entries;
    if k < |s.buffer| {
      if s.buffer[k].peer.fd == c.fd {
        var j := FindId(s.buffer, s.buffer[k].Id());
        RemoveIsRemoved(s.buffer, [], s.buffer[k].Id());
        PurgeIsWalk(Drop(s, j, WithClient(s.buffer[j].number, c.serial, c.fd)), c, k);
      } else {
        PurgeIsWalk(s, c, k + 1);
      }
    }
  }

  lemma {:induction false} OthersAreNotOwned(b: seq<Pending>, fd: int)
    ensures Entries(Others(b, fd), MessageKey) == Q.NotOwned(Entries(b, MessageKey), OwnerFd, fd)
  {
    hide IdOf;
    if b != [] {
      OthersAreNotOwned(b[1..], fd);
      assert Entries(b, MessageKey)[1..] == Entries(b[1..], MessageKey);
    }
  }

  lemma EntriesDiffer(a: seq<Pending>, b: seq<Pending>)
    requires Entries(a, MessageKey) == Entries(b, MessageKey)
    ensures a == b
  {
    hide IdOf;
    assert |a| == |b|;
    forall i | 0 <= i < |a| ensures a[i] == b[i] {
      assert Entries(a, MessageKey)[i] == Entries(b, MessageKey)[i];
    }
  }

  /**
   Whatever the buffer, deleting a client leaves exactly the datagrams of the others, in order, if
   and only if none of its datagrams comes after one of somebody else's with the same 16-bit id.
   */
  lemma PurgeIffUnambiguous(s: State, c: Client)
    ensures Purge(s, c, 0).buffer == Others(s.buffer, c.fd) <==>
            forall i, j | 0 <= i < j < |s.buffer| && s.buffer[i].peer.fd != c.fd && s.buffer[j].peer.fd == c.fd ::
              s.buffer[i].Id() != s.buffer[j].Id()
  {
    hide IdOf, Purge, Others, Q.Walk, Q.NotOwned, Entries;
    var b, es := s.buffer, Entries(s.buffer, MessageKey);
    PurgeIsWalk(s, c, 0);
    OthersAreNotOwned(b, c.fd);
    Q.WalkIffUnambiguous(es, OwnerFd, c.fd);
    if Entries(Purge(s, c, 0).buffer, MessageKey) == Entries(Others(b, c.fd), MessageKey) {
      EntriesDiffer(Purge(s, c, 0).buffer, Others(b, c.fd));
    }
    if Q.Unambiguous(es, OwnerFd, c.fd) {
      forall i, j | 0 <= i < j < |b| && b[i].peer.fd != c.fd && b[j].peer.fd == c.fd ensures b[i].Id() != b[j].Id() {
        assert es[i].0 != es[j].0;
      }
    }
  }
}
