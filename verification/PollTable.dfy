/** The growable table of polled descriptors. */
module PollTable {

  const WELCOME := 2
  const DELTA := 128

  // ----- The table as a sequence of slots; zero marks a free one -----

  /** The first free slot from the last welcome socket on, or the length of the table. */
  function FirstFree(s: seq<int>, i: nat): (k: nat)
    requires i <= |s|
    ensures i <= k <= |s| && (k < |s| ==> s[k] == 0) && forall j | i <= j < k :: s[j] != 0
    decreases |s| - i
  {
    if i == |s| || s[i] == 0 then i else FirstFree(s, i + 1)
  }

  function Zeros(n: nat): (z: seq<int>)
    ensures |z| == n && forall i | 0 <= i < n :: z[i] == 0
  {
    if n == 0 then [] else Zeros(n - 1) + [0]
  }

  function Added(s: seq<int>, fd: int): seq<int>
    requires |s| >= 1
  {
    var k := FirstFree(s, WELCOME - 1);
    (if k == |s| then s + Zeros(DELTA) else s)[k := fd]
  }

  function Marked(s: seq<int>, cnt: nat, fd: int): (r: seq<int>)
    ensures |r| == |s|
    ensures forall i | 0 <= i < |s| :: r[i] == if WELCOME <= i < WELCOME + cnt && s[i] == fd then -1 else s[i]
  {
    seq(|s|, i requires 0 <= i < |s| => if WELCOME <= i < WELCOME + cnt && s[i] == fd then -1 else s[i])
  }

  /** The second loop of `del_poll_fd`, from slot `j`: new slots and new count. */
  function Compacted(s: seq<int>, cnt: nat, j: nat, offset: nat): (seq<int>, nat)
    requires WELCOME <= j && WELCOME + cnt <= |s|
    decreases WELCOME + cnt - j
  {
    if j >= WELCOME + cnt then (s, cnt)
    else if s[j] == -1 then
      if j + offset < |s| then Compacted(s[j := s[j + offset]], cnt - 1, j + 1, offset + 1)
      else Compacted(s, cnt - 1, j + 1, offset)
    else Compacted(s, cnt, j + 1, offset)
  }

  function Deleted(s: seq<int>, cnt: nat, fd: int): (seq<int>, nat)
    requires WELCOME + cnt <= |s|
  {
    Compacted(Marked(s, cnt, fd), cnt, WELCOME, 1)
  }

  function Active(s: seq<int>, cnt: nat): seq<int>
    requires WELCOME + cnt <= |s|
  {
    s[WELCOME..WELCOME + cnt]
  }

  // ----- The table in memory -----

  class Table {
    var fds: array<int>
    var cnt: nat

    ghost predicate Valid()
      reads this
    {
      WELCOME + cnt <= fds.Length && fds.Length >= DELTA
    }

    constructor (tcp: int, udp: int)
      ensures Valid() && fresh(fds) && cnt == 0
      ensures fds[..] == [tcp, udp] + Zeros(DELTA - WELCOME)
    {
      var a := new int[DELTA](i => 0);
      a[0], a[1] := tcp, udp;
      fds, cnt := a, 0;
      new;
      assert fds[..] == [tcp, udp] + Zeros(DELTA - WELCOME);
    }

    /** `resize_poll_fd`. */
    method Resize()
      requires Valid()
      modifies this
      ensures fds.Length == old(fds.Length) + 128 && cnt == old(cnt) && fresh(fds)
      ensures fds[..] == old(fds[..]) + Zeros(DELTA)
    {
      var a := new int[fds.Length + DELTA](i => 0);
      var i := 0;
      while i < fds.Length
        invariant i <= fds.Length && fds == old(fds) && cnt == old(cnt)
        invariant a[..i] == fds[..i] && fds[..] == old(fds[..])
        invariant forall k | i <= k < a.Length :: a[k] == 0
      {
        a[i] := fds[i];
        i := i + 1;
      }
      assert a[..] == a[..i] + a[i..];
      assert a[i..] == Zeros(DELTA);
      fds := a;
    }

    /** `get_free_poll_fd`. */
    method GetFree() returns (index: nat)
      requires Valid()
      modifies this
      ensures cnt == old(cnt) && (fds == old(fds) || fresh(fds)) && fds.Length >= old(fds.Length)
      ensures index == FirstFree(old(fds[..]), WELCOME - 1) < fds.Length
      ensures fds[..] == if index == old(fds.Length) then old(fds[..]) + Zeros(DELTA) else old(fds[..])
    {
      index := WELCOME - 1;
      while index < fds.Length
        invariant WELCOME - 1 <= index <= fds.Length && fds == old(fds) && fds[..] == old(fds[..])
        invariant FirstFree(old(fds[..]), WELCOME - 1) == FirstFree(old(fds[..]), index)
      {
        if fds[index] == 0 {
          return;
        }
        index := index + 1;
      }
      Resize();
      index := fds.Length - DELTA;
    }

    /** `add_poll_fd`. */
    method Add(fd: int)
      requires Valid()
      modifies this, fds
      ensures fds[..] == Added(old(fds[..]), fd) && cnt == old(cnt) + 1
      ensures fds == old(fds) || fresh(fds)
      ensures Packed(old(fds[..]), old(cnt)) && fd != 0 ==>
                Valid() && Packed(fds[..], cnt) && Active(fds[..], cnt) == old(Active(fds[..], cnt)) + [fd]
    {
      ghost var s, n := fds[..], cnt;
      var index := GetFree();
      cnt := cnt + 1;
      fds[index] := fd;
      if Packed(s, n) && fd != 0 { AddKeepsPacked(s, n, fd); }
    }

    /** `del_poll_fd`. */
    method Delete(fd: int)
      requires Valid()
      modifies this, fds
      ensures Valid() && fds == old(fds)
      ensures (fds[..], cnt) == Deleted(old(fds[..]), old(cnt), fd)
    {
      var i := WELCOME;
      while i < cnt + WELCOME
        invariant WELCOME <= i <= cnt + WELCOME && fds == old(fds) && cnt == old(cnt)
        invariant forall k | 0 <= k < fds.Length ::
          fds[k] == if WELCOME <= k < i && old(fds[k]) == fd then -1 else old(fds[k])
      {
        if fds[i] == fd {
          fds[i] := -1;
        }
        i := i + 1;
      }
      assert fds[..] == Marked(old(fds[..]), cnt, fd);
      var j, offset := WELCOME, 1;
      while j < WELCOME + cnt
        invariant WELCOME <= j && offset >= 1 && fds == old(fds) && Valid()
        invariant Compacted(fds[..], cnt, j, offset) == Deleted(old(fds[..]), old(cnt), fd)
        decreases WELCOME + cnt - j
      {
        if fds[j] == -1 {
          cnt := cnt - 1;
          if j + offset < fds.Length {
            ghost var s := fds[..];
            fds[j] := fds[j + offset];
            assert fds[..] == s[j := s[j + offset]];
            offset := offset + 1;
          }
        }
        j := j + 1;
      }
    }
  }

  // ----- Adding only -----

  /** Welcome sockets and active descriptors fill the front, free slots the back. */
  ghost predicate Packed(s: seq<int>, cnt: nat) {
    && WELCOME + cnt <= |s|
    && (forall i | 0 <= i < WELCOME + cnt :: s[i] != 0)
    && (forall i | WELCOME + cnt <= i < |s| :: s[i] == 0)
  }

  lemma AddKeepsPacked(s: seq<int>, cnt: nat, fd: int)
    requires Packed(s, cnt) && fd != 0
    ensures WELCOME + cnt < |Added(s, fd)| && Packed(Added(s, fd), cnt + 1)
    ensures Active(Added(s, fd), cnt + 1) == Active(s, cnt) + [fd]
  {
    var k := FirstFree(s, WELCOME - 1);
    assert WELCOME + cnt < |s| ==> s[WELCOME + cnt] == 0;
    assert k == WELCOME + cnt;
  }

  function AddedAll(s: seq<int>, fds: seq<int>): (r: seq<int>)
    requires |s| >= 1
    ensures |r| >= 1
  {
    if fds == [] then s else Added(AddedAll(s, fds[..|fds| - 1]), fds[|fds| - 1])
  }

  lemma StartPacked(tcp: int, udp: int)
    requires tcp != 0 && udp != 0
    ensures Packed([tcp, udp] + Zeros(DELTA - WELCOME), 0)
  {
    hide Zeros;
  }

  /** Through any number of additions and resizes the active range holds what was added, in order. */
  lemma {:induction false} AddRun(tcp: int, udp: int, fds: seq<int>)
    requires tcp != 0 && udp != 0 && forall i | 0 <= i < |fds| :: fds[i] != 0
    ensures var s := AddedAll([tcp, udp] + Zeros(DELTA - WELCOME), fds);
            WELCOME + |fds| <= |s| && Packed(s, |fds|) && Active(s, |fds|) == fds
  {
    hide Zeros, Added, Packed;
    var start := [tcp, udp] + Zeros(DELTA - WELCOME);
    StartPacked(tcp, udp);
    if fds == [] {
      assert AddedAll(start, fds) == start && WELCOME <= |start|;
    } else {
      var n := |fds| - 1;
      AddRun(tcp, udp, fds[..n]);
      AddKeepsPacked(AddedAll(start, fds[..n]), n, fds[n]);
      assert fds == fds[..n] + [fds[n]];
    }
  }

  // ----- Deleting -----

  ghost predicate Proper(s: seq<int>, cnt: nat) {
    && WELCOME + cnt <= |s|
    && (forall i, j | WELCOME <= i < j < WELCOME + cnt :: s[i] != s[j])
    && (forall i | WELCOME <= i < WELCOME + cnt :: s[i] != -1)
  }

  lemma {:induction false} CompactedClean(s: seq<int>, cnt: nat, j: nat, offset: nat)
    requires WELCOME <= j && WELCOME + cnt <= |s|
    requires forall i | j <= i < WELCOME + cnt :: s[i] != -1
    ensures Compacted(s, cnt, j, offset) == (s, cnt)
    decreases WELCOME + cnt - j
  {
    if j < WELCOME + cnt { CompactedClean(s, cnt, j + 1, offset); }
  }

  lemma {:induction false} CompactedSkip(s: seq<int>, cnt: nat, j: nat, p: nat, offset: nat)
    requires WELCOME <= j <= p < WELCOME + cnt <= |s|
    requires forall i | j <= i < p :: s[i] != -1
    ensures Compacted(s, cnt, j, offset) == Compacted(s, cnt, p, offset)
    decreases p - j
  {
    if j < p { CompactedSkip(s, cnt, j + 1, p, offset); }
  }

  /** Deleting the active entry `p` overwrites one slot, with its successor or, at the end of the table, with -1. */
  lemma DeletedSlots(s: seq<int>, cnt: nat, p: nat)
    requires Proper(s, cnt) && p < cnt
    ensures var q := WELCOME + p;
            Deleted(s, cnt, s[q]) == (s[q := if q + 1 < |s| then s[q + 1] else -1], cnt - 1)
  {
    var q := WELCOME + p;
    var m := Marked(s, cnt, s[q]);
    assert m == s[q := -1];
    CompactedSkip(m, cnt, WELCOME, q, 1);
    var t := if q + 1 < |m| then m[q := m[q + 1]] else m;
    CompactedClean(t, cnt - 1, q + 1, if q + 1 < |m| then 2 else 1);
    assert Deleted(s, cnt, s[q]) == (t, cnt - 1);
    assert t == s[q := if q + 1 < |s| then s[q + 1] else -1];
  }

  /** Deleting the active entry `p` copies its successor over it and forgets the last entry. */
  lemma DeleteExact(s: seq<int>, cnt: nat, p: nat)
    requires Proper(s, cnt) && p < cnt
    ensures var (t, n) := Deleted(s, cnt, s[WELCOME + p]);
            && n == cnt - 1 && |t| == |s|
            && forall i | 0 <= i < n :: Active(t, n)[i] == Active(s, cnt)[if i == p then p + 1 else i]
  {
    hide Deleted;
    DeletedSlots(s, cnt, p);
    var (t, n) := Deleted(s, cnt, s[WELCOME + p]);
    var a, b := Active(s, cnt), Active(t, n);
    forall i | 0 <= i < n ensures b[i] == a[if i == p then p + 1 else i] {
      assert b[i] == t[WELCOME + i] && a[i] == s[WELCOME + i];
    }
  }

  /** A descriptor that is not polled leaves the table alone. */
  lemma DeleteAbsent(s: seq<int>, cnt: nat, fd: int)
    requires Proper(s, cnt) && fd !in Active(s, cnt)
    ensures Deleted(s, cnt, fd) == (s, cnt)
  {
    assert forall i | WELCOME <= i < WELCOME + cnt :: s[i] == Active(s, cnt)[i - WELCOME];
    assert Marked(s, cnt, fd) == s;
    CompactedClean(s, cnt, WELCOME, 1);
  }

  lemma ActiveDistinct(s: seq<int>, cnt: nat)
    requires Proper(s, cnt)
    ensures forall i, j | 0 <= i < j < cnt :: Active(s, cnt)[i] != Active(s, cnt)[j]
  {
    var a := Active(s, cnt);
    assert forall i | 0 <= i < cnt :: a[i] == s[WELCOME + i];
  }

  /**
   Deletion leaves the old range without the descriptor exactly when that was one of the last two
   entries; otherwise the last entry is no longer polled.
   */
  lemma DeleteIffNearEnd(s: seq<int>, cnt: nat, p: nat)
    requires Proper(s, cnt) && p < cnt
    ensures var (t, n) := Deleted(s, cnt, s[WELCOME + p]);
            var a := Active(s, cnt);
            && WELCOME + n <= |t|
            && (Active(t, n) == a[..p] + a[p + 1..] <==> p + 2 >= cnt)
            && (p + 2 < cnt ==> a[cnt - 1] !in Active(t, n))
  {
    DeleteExact(s, cnt, p);
    ActiveDistinct(s, cnt);
    var (t, n) := Deleted(s, cnt, s[WELCOME + p]);
    NearEnd(Active(s, cnt), Active(t, n), p);
  }

  lemma NearEnd(a: seq<int>, b: seq<int>, p: nat)
    requires |b| == |a| - 1 && p < |a| && forall i, j | 0 <= i < j < |a| :: a[i] != a[j]
    requires forall i | 0 <= i < |b| :: b[i] == a[if i == p then p + 1 else i]
    ensures b == a[..p] + a[p + 1..] <==> p + 2 >= |a|
    ensures p + 2 < |a| ==> a[|a| - 1] !in b
  {
    var c := a[..p] + a[p + 1..];
    if p + 2 < |a| {
      assert b[p + 1] == a[p + 1] && c[p + 1] == a[p + 2];
    } else {
      assert forall i | 0 <= i < |b| :: b[i] == c[i];
    }
  }

  /**
   A new descriptor after a deletion: it joins the active range exactly when the deleted entry was
   the last one and the table had a free slot; otherwise it is not polled at all.
   */
  lemma DeleteThenAdd(s: seq<int>, cnt: nat, p: nat, fd: int)
    requires Packed(s, cnt) && Proper(s, cnt) && p < cnt && fd > 0
    requires forall i | WELCOME <= i < WELCOME + cnt && i != WELCOME + p :: s[i] != fd
    ensures var (t, n) := Deleted(s, cnt, s[WELCOME + p]);
            && |t| == |s| && n + 1 == cnt
            && (Active(Added(t, fd), cnt) == Active(t, n) + [fd] <==> p + 1 == cnt && WELCOME + cnt < |s|)
            && (!(p + 1 == cnt && WELCOME + cnt < |s|) ==> fd !in Active(Added(t, fd), cnt))
  {
    hide Deleted, FirstFree;
    DeletedSlots(s, cnt, p);
    var (t, n) := Deleted(s, cnt, s[WELCOME + p]);
    var r, k := Added(t, fd), FirstFree(t, WELCOME - 1);
    var last := WELCOME + n;
    assert Active(r, cnt)[n] == r[last];
    if p + 1 == cnt && WELCOME + cnt < |s| {
      assert t[last] == 0;
      assert k == last;
      assert Active(r, cnt) == Active(t, n) + [fd];
    } else {
      assert t[last] != 0;
      assert k > last;
      forall i | 0 <= i < cnt ensures Active(r, cnt)[i] != fd {
        assert Active(r, cnt)[i] == r[WELCOME + i] == t[WELCOME + i];
        assert WELCOME + i == WELCOME + p || t[WELCOME + i] == s[WELCOME + i];
      }
    }
  }
}
