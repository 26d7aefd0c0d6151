/** Theorems about every run of the server from its start. */
module Runs {
  import opened Types
  import opened DedupRing
  import opened Session
  import opened Books
  import opened Routines

  /** The state after the events `es`, taken in order. */
  function Run(cfg: Config, es: seq<Event>): State {
    if es == [] then Start() else Step(cfg, Run(cfg, es[..|es| - 1]), es[|es| - 1])
  }

  /** Every event is one that may happen in its state. */
  ghost predicate Legal(cfg: Config, es: seq<Event>) {
    es == [] || (Legal(cfg, es[..|es| - 1]) && Admissible(Run(cfg, es[..|es| - 1]), es[|es| - 1]))
  }

  /** The oldest send number still in play. */
  function Oldest(s: State): nat { if s.buffer == [] then |s.sent| else s.buffer[0].number }

  /** The event keeps send numbers and client numbers within windows of 2^16. */
  ghost predicate StaysNarrow(cfg: Config, s: State, e: Event) {
    ClientsFit(s, e) && |Step(cfg, s, e).sent| <= Oldest(s) + 0x1_0000
  }

  ghost predicate Narrow(cfg: Config, es: seq<Event>) {
    es == [] || (Narrow(cfg, es[..|es| - 1]) && StaysNarrow(cfg, Run(cfg, es[..|es| - 1]), es[|es| - 1]))
  }

  /** No event addressed a sender without a client. */
  ghost predicate Sheltered(cfg: Config, es: seq<Event>) {
    es == [] || (Sheltered(cfg, es[..|es| - 1]) && !Orphaning(Run(cfg, es[..|es| - 1]), es[|es| - 1]))
  }

  ghost function ScopeOf(s: State, narrow: bool, owned: bool): Scope {
    if narrow then Window(Oldest(s), owned) else Free
  }

  /** The window may be taken from the oldest send number in play. */
  lemma Refloor(cfg: Config, s: State, w: Scope)
    requires Sound(cfg, s, w) && w.Window?
    ensures Sound(cfg, s, Window(Oldest(s), w.owned))
  {
    hide Conserved, Repeats, Numbered, Confirmed, Roll, Addressed, Confirms, Farewells, Executions, Attributed, Owned, Spread;
  }

  lemma StartSound(cfg: Config, w: Scope)
    requires w.Window? ==> w.floor == 0
    ensures Sound(cfg, Start(), w)
  {
  }

  lemma StepNarrow(cfg: Config, s: State, e: Event, narrow: bool, owned: bool)
    requires Sound(cfg, s, ScopeOf(s, narrow, owned)) && Admissible(s, e)
    requires narrow ==> StaysNarrow(cfg, s, e)
    requires owned ==> narrow && !Orphaning(s, e)
    ensures var r := Step(cfg, s, e); Sound(cfg, r, ScopeOf(r, narrow, owned))
  {
    hide Sound, Step;
    var w := ScopeOf(s, narrow, owned);
    StepSound(cfg, s, e, w);
    if narrow { Refloor(cfg, Step(cfg, s, e), w); }
  }

  /** The invariant holds in every state of every run, in the window if the run stays in it. */
  lemma {:induction false} RunSound(cfg: Config, es: seq<Event>, narrow: bool, owned: bool)
    requires Legal(cfg, es)
    requires narrow ==> Narrow(cfg, es)
    requires owned ==> narrow && Sheltered(cfg, es)
    ensures var s := Run(cfg, es); Sound(cfg, s, ScopeOf(s, narrow, owned))
  {
    hide Sound, Step, Admissible, StaysNarrow, Orphaning;
    if es == [] {
      StartSound(cfg, ScopeOf(Start(), narrow, owned));
    } else {
      var pre := es[..|es| - 1];
      RunSound(cfg, pre, narrow, owned);
      StepNarrow(cfg, Run(cfg, pre), es[|es| - 1], narrow, owned);
    }
  }

  // ----- What the invariant says -----

  lemma {:induction false} TrackedOnce(sent: seq<Sent>, n: nat)
    ensures multiset(TrackedNumbers(sent))[n] == if n < |sent| && sent[n].Tracked() then 1 else 0
  {
    if sent != [] { TrackedOnce(sent[..|sent| - 1], n); }
  }

  /** How often send number `n` is waiting for its confirmation, and how often it stopped waiting. */
  ghost function Waiting(s: State, n: nat): nat { multiset(Numbers(s.buffer))[n] }

  ghost function Settled(s: State, n: nat): nat { multiset(RetiredNumbers(s.retired))[n] }

  /**
   Conservation: every first transmission of a datagram that needs a confirmation is, exactly
   once, still buffered or retired; nothing else ever was. What a CONFIRM retired carried its id.
   */
  lemma Conservation(cfg: Config, es: seq<Event>, n: nat)
    requires Legal(cfg, es)
    ensures var s := Run(cfg, es);
            && Waiting(s, n) + Settled(s, n) == (if n < |s.sent| && s.sent[n].Tracked() then 1 else 0)
            && (forall i | 0 <= i < |s.retired| && s.retired[i].ByConfirm? :: s.retired[i].ref == IdOf(s.retired[i].number))
  {
    hide Run, Legal, IdOf;
    RunSound(cfg, es, false, false);
    TrackedOnce(Run(cfg, es).sent, n);
  }

  /** In the window, a datagram dropped with a client had been sent on that client's descriptor. */
  lemma DroppedWithOwner(cfg: Config, es: seq<Event>)
    requires Legal(cfg, es) && Narrow(cfg, es)
    ensures var s := Run(cfg, es);
            forall i | 0 <= i < |s.retired| && s.retired[i].WithClient? ::
              s.retired[i].number < |s.sent| && s.sent[s.retired[i].number].peer.fd == s.retired[i].fd
  {
    hide Run, Legal, Narrow;
    RunSound(cfg, es, true, false);
  }

  /** The buffer is in send order, each entry carries its send number modulo 2^16; in the window ids differ. */
  lemma BufferOrder(cfg: Config, es: seq<Event>)
    requires Legal(cfg, es)
    ensures var b := Run(cfg, es).buffer;
            && (forall i, j | 0 <= i < j < |b| :: b[i].number < b[j].number)
            && (forall i | 0 <= i < |b| :: b[i].msg.MessageId() == b[i].number % 0x1_0000)
    ensures Narrow(cfg, es) ==> DistinctIds(Run(cfg, es).buffer)
  {
    hide Run, Legal, Narrow, DistinctIds, Conserved, Repeats, Roll, Addressed, Confirms, Farewells, Executions, IdOf;
    RunSound(cfg, es, false, false);
    var s := Run(cfg, es);
    forall i | 0 <= i < |s.buffer| ensures s.buffer[i].msg.MessageId() == s.buffer[i].number % 0x1_0000 {
      IdOfIsMod(s.buffer[i].number);
    }
    if Narrow(cfg, es) {
      RunSound(cfg, es, true, false);
      WindowDistinct(cfg, s, ScopeOf(s, true, false));
    }
  }

  /** A retransmission repeats its first transmission, and there are never more than allowed. */
  lemma Retransmissions(cfg: Config, es: seq<Event>, n: nat)
    requires Legal(cfg, es)
    ensures var s := Run(cfg, es);
            && (forall i | 0 <= i < |s.resent| ::
                  s.resent[i].number < |s.sent| && s.resent[i].sent == s.sent[s.resent[i].number])
            && TimesResent(s.resent, n) <= cfg.retries
  {
    hide Run, Legal, TimesResent;
    RunSound(cfg, es, false, false);
  }

  /** A client executes an identifier again only once more than `Depth` newer ones were recorded. */
  lemma AtMostOnce(cfg: Config, es: seq<Event>, j: nat, k: nat)
    requires Legal(cfg, es) && j < k < |Run(cfg, es).executed|
    requires var ex := Run(cfg, es).executed; ex[j].serial == ex[k].serial && ex[j].id == ex[k].id
    ensures var ex := Run(cfg, es).executed; ex[k].position - ex[j].position > Depth(ex[k].position)
  {
    hide Run, Legal;
    RunSound(cfg, es, false, false);
  }

  /** No client is sent a second first-transmission of BYE. */
  lemma OneFarewell(cfg: Config, es: seq<Event>, n: nat, k: nat)
    requires Legal(cfg, es) && n < k < |Run(cfg, es).sent|
    requires var sent := Run(cfg, es).sent; sent[n].msg.Bye? && sent[k].msg.Bye?
    ensures Run(cfg, es).sent[n].peer.serial != Run(cfg, es).sent[k].peer.serial
  {
    hide Run, Legal;
    RunSound(cfg, es, false, false);
  }

  /** Refusals and noise on the welcome socket apart, every buffered datagram has a live owner. */
  lemma AlwaysOwned(cfg: Config, es: seq<Event>)
    requires Legal(cfg, es) && Narrow(cfg, es) && Sheltered(cfg, es)
    ensures Owned(Run(cfg, es).clients, Run(cfg, es).buffer)
  {
    hide Run, Legal, Narrow, Sheltered;
    RunSound(cfg, es, true, true);
  }
}
