/** The binary datagram format: composer, splitter and parser. */
module UdpCodec {
  import opened Types

  const NUL: char := '\0'

  /** `%c` keeps the low eight bits of its argument. */
  function LowByte(n: nat): char { (n % 0x100) as char }

  function EncodeId(id: nat): string { [LowByte(id / 0x100), LowByte(id)] }

  function Compose(m: Message): string {
    match m
    case Confirm(ref) => [LowByte(0x00)] + EncodeId(ref)
    case Reply(id, result, ref, content) =>
      [LowByte(0x01)] + EncodeId(id) + [LowByte(if result then 1 else 0)]
      + [LowByte(ref / 0x100 * 0x100), LowByte(ref)] + content + [NUL]
    case Auth(id, user, name, secret) =>
      [LowByte(0x02)] + EncodeId(id) + user + [NUL] + name + [NUL] + secret + [NUL]
    case Join(id, channel, name) => [LowByte(0x03)] + EncodeId(id) + channel + [NUL] + name + [NUL]
    case Msg(id, name, content) => [LowByte(0x04)] + EncodeId(id) + name + [NUL] + content + [NUL]
    case Err(id, name, content) => [LowByte(0xFE)] + EncodeId(id) + name + [NUL] + content + [NUL]
    case Bye(id) => [LowByte(0xFF)] + EncodeId(id)
  }

  // ----- Reading a datagram -----

  /** The receive buffer is zeroed, so reading past the datagram yields NUL. */
  function At(d: string, i: nat): char { if i < |d| then d[i] else NUL }

  /** `char` is signed. */
  function Signed(c: char): int { if (c as int) < 0x80 then c as int else c as int - 0x100 }

  /** Identifiers are read base 255 and truncated to uint16. */
  function DecodeId(high: char, low: char): nat { (Signed(high) * 0xFF + Signed(low)) % 0x1_0000 }

  function IdAt(d: string, i: nat): nat { DecodeId(At(d, i), At(d, i + 1)) }

  /** How many separators `t` holds. */
  function Count(t: string, c: char): nat {
    if t == "" then 0 else Count(t[..|t| - 1], c) + if t[|t| - 1] == c then 1 else 0
  }

  /** The stretches of `t` between separators; one more than there are separators. */
  function Pieces(t: string, c: char): (ps: seq<string>)
    ensures |ps| == 1 + Count(t, c)
  {
    if t == "" then [""]
    else
      var n := |t| - 1;
      var ps := Pieces(t[..n], c);
      if t[n] == c then ps + [""] else ps[..|ps| - 1] + [ps[|ps| - 1] + [t[n]]]
  }

  function Min(a: int, b: int): int { if a < b then a else b }

  /** The first pieces of the datagram from offset `s`, when it holds at least `want` of them. */
  function Fields(d: string, s: nat, want: nat): Option<seq<string>> {
    if s <= |d| && |Pieces(d[s..], NUL)| >= want then Some(Pieces(d[s..], NUL)) else None
  }

  function Parse(d: string): Option<Message> {
    var id := IdAt(d, 1);
    var kind := At(d, 0) as int;
    if kind == 0x00 then
      if |d| == 3 then Some(Confirm(id)) else None
    else if kind == 0x01 then
      var f := Fields(d, 6, 1);
      if |d| >= 8 && f.Some? && IsContent(f.value[0], CONTENT_LENGTH + 1)
      then Some(Reply(id, At(d, 3) != NUL, IdAt(d, 4), f.value[0])) else None
    else if kind == 0x02 then
      var f := Fields(d, 3, 3);
      if |d| >= 9 && f.Some? && IsToken(f.value[0], ID_LENGTH + 1) && IsDisplayName(f.value[1], ID_LENGTH + 1)
         && IsToken(f.value[2], SECRET_LENGTH + 1)
      then Some(Auth(id, f.value[0], f.value[1], f.value[2])) else None
    else if kind == 0x03 then
      var f := Fields(d, 3, 2);
      if |d| >= 7 && f.Some? && IsToken(f.value[0], ID_LENGTH + 1) && IsDisplayName(f.value[1], ID_LENGTH + 1)
      then Some(Join(id, f.value[0], f.value[1])) else None
    else if kind == 0x04 || kind == 0xFE then
      var f := Fields(d, 3, 2);
      if |d| >= 7 && f.Some? && IsDisplayName(f.value[0], ID_LENGTH + 1) && IsContent(f.value[1], CONTENT_LENGTH + 1)
      then Some(if kind == 0x04 then Msg(id, f.value[0], f.value[1]) else Err(id, f.value[0], f.value[1])) else None
    else if kind == 0xFF then
      if |d| == 3 then Some(Bye(id)) else None
    else None
  }

  // ----- The imperative splitter and parser -----

  /** Row `r` of the slots holds the C string `p`, padded with NUL. */
  ghost predicate Holds(slots: array2<char>, r: nat, p: string)
    reads slots
  {
    && r < slots.Length0
    && |p| <= slots.Length1
    && (forall j {:trigger slots[r, j]} | 0 <= j < |p| :: slots[r, j] == p[j])
    && (forall j {:trigger slots[r, j]} | |p| <= j < slots.Length1 :: slots[r, j] == NUL)
  }

  /** Rows `0..|ps|` hold `ps`; the rows after them are still zeroed. */
  ghost predicate HoldsAll(slots: array2<char>, ps: seq<string>)
    reads slots
  {
    && |ps| <= slots.Length0
    && (forall r {:trigger ps[r]} | 0 <= r < |ps| :: Holds(slots, r, ps[r]))
    && (forall r | |ps| <= r < slots.Length0 :: Holds(slots, r, ""))
  }

  lemma PiecesSnoc(t: string, c: char, x: char)
    ensures Count(t + [x], c) == Count(t, c) + (if x == c then 1 else 0)
    ensures Pieces(t + [x], c) ==
            var ps := Pieces(t, c);
            if x == c then ps + [""] else ps[..|ps| - 1] + [ps[|ps| - 1] + [x]]
  {
    assert (t + [x])[..|t|] == t;
  }

  /** Pieces that are closed by a separator do not depend on what follows. */
  lemma {:induction false} PiecesPrefix(t: string, u: string, c: char)
    ensures Count(t, c) <= Count(t + u, c)
    ensures Pieces(t, c)[..Count(t, c)] == Pieces(t + u, c)[..Count(t, c)]
    decreases |u|
  {
    hide Pieces, Count;
    if u == "" {
      assert t + u == t;
    } else {
      var n := |u| - 1;
      PiecesPrefix(t, u[..n], c);
      assert t + u == (t + u[..n]) + [u[n]];
      PiecesSnoc(t + u[..n], c, u[n]);
    }
  }

  /** The state of the splitting loop: `m` pieces are closed and the next one is `j` long. */
  ghost predicate Splitting(slots: array2<char>, t: string, c: char, max: nat, m: nat, j: nat)
    reads slots
  {
    && m == Count(t, c) <= max
    && (m < max ==> j == |Pieces(t, c)[m]| <= |t| && HoldsAll(slots, Pieces(t, c)))
    && (m == max ==> HoldsAll(slots, Pieces(t, c)[..max]))
  }

  lemma StartSplitting(slots: array2<char>, c: char, max: nat)
    requires 1 <= max <= slots.Length0 && HoldsAll(slots, [])
    ensures Splitting(slots, "", c, max, 0, 0)
  {
    assert Pieces("", c) == [""];
    assert HoldsAll(slots, [""]) by {
      assert Holds(slots, 0, "");
    }
  }

  lemma CloseSlot(slots: array2<char>, t: string, c: char, max: nat, m: nat, j: nat)
    requires max <= slots.Length0 && m < max && Splitting(slots, t, c, max, m, j)
    ensures Splitting(slots, t + [c], c, max, m + 1, 0)
  {
    hide Pieces, Count, Holds;
    PiecesSnoc(t, c, c);
    var ps := Pieces(t, c);
    if m + 1 < max {
      assert Holds(slots, m + 1, "");
    } else {
      assert (ps + [""])[..max] == ps;
    }
  }

  /** One character of a piece goes into the current slot. */
  method WriteChar(slots: array2<char>, ghost t: string, c: char, max: nat, m: nat, j: nat, x: char)
    requires max <= slots.Length0 && m < max && Splitting(slots, t, c, max, m, j)
    requires x != c && |t| < slots.Length1
    modifies slots
    ensures Splitting(slots, t + [x], c, max, m, j + 1)
  {
    hide Pieces, Count;
    ghost var ps := Pieces(t, c);
    assert Holds(slots, m, ps[m]);
    slots[m, j] := x;
    PiecesSnoc(t, c, x);
    ghost var qs := ps[..m] + [ps[m] + [x]];
    forall r | 0 <= r < |qs| ensures Holds(slots, r, qs[r]) {
      if r < m { assert qs[r] == ps[r] && old(Holds(slots, r, ps[r])); }
    }
    forall r | |qs| <= r < slots.Length0 ensures Holds(slots, r, "") {
      assert old(Holds(slots, r, ""));
    }
  }

  /** `split_l`: splits `str[s..len]` at `c` into at most `max` zeroed slots. */
  method SplitL(str: string, c: char, s: nat, slots: array2<char>, max: nat, len: nat) returns (m: int)
    requires len <= |str| && 1 <= max <= slots.Length0 && len <= slots.Length1 && HoldsAll(slots, [])
    modifies slots
    ensures s > len ==> m == -1 && HoldsAll(slots, [])
    ensures s <= len ==> m == Min(Count(str[s..len], c), max - 1)
    ensures s <= len ==> HoldsAll(slots, Pieces(str[s..len], c)[..m + 1])
  {
    hide Pieces, Count, HoldsAll, Splitting;
    var i, j := s, 0;
    m := 0;
    if s <= len {
      assert str[s..s] == "";
      StartSplitting(slots, c, max);
    }
    while i < len && m < max
      invariant s > len ==> i == s && m == 0 && HoldsAll(slots, [])
      invariant s <= len ==> s <= i <= len && 0 <= m <= max && j >= 0 && Splitting(slots, str[s..i], c, max, m, j)
    {
      assert str[s..i + 1] == str[s..i] + [str[i]];
      if str[i] == c {
        CloseSlot(slots, str[s..i], c, max, m, j);
        j := 0;
        m := m + 1;
      } else {
        WriteChar(slots, str[s..i], c, max, m, j, str[i]);
        j := j + 1;
      }
      i := i + 1;
    }
    if s <= len { DoneSplitting(slots, str[s..i], str[i..len], c, max, m, j); }
    assert s <= len ==> str[s..i] + str[i..len] == str[s..len];
    if i != len || (i == len && m == max) {
      m := m - 1;
    }
  }

  /** When the loop ends, the slots hold the first pieces of the whole text. */
  lemma DoneSplitting(slots: array2<char>, t: string, u: string, c: char, max: nat, m: nat, j: nat)
    requires 1 <= max <= slots.Length0 && Splitting(slots, t, c, max, m, j) && (u == "" || m == max)
    ensures var k := if m == max then m - 1 else m;
            k == Min(Count(t + u, c), max - 1) && HoldsAll(slots, Pieces(t + u, c)[..k + 1])
  {
    hide Pieces, Count, HoldsAll;
    PiecesPrefix(t, u, c);
    if m < max {
      assert t + u == t;
      assert Pieces(t, c)[..m + 1] == Pieces(t, c);
    }
  }

  // ----- The parser in memory -----

  lemma {:induction false} PiecesCover(t: string, c: char)
    ensures forall i | 0 <= i < |Pieces(t, c)| :: |Pieces(t, c)[i]| <= |t| && c !in Pieces(t, c)[i]
  {
    if t != "" { PiecesCover(t[..|t| - 1], c); }
  }

  /** Reads the C string in a slot. */
  method ReadSlot(slots: array2<char>, r: nat, ghost p: string) returns (text: string)
    requires Holds(slots, r, p) && NUL !in p
    ensures text == p
  {
    text := "";
    while |text| < slots.Length1 && slots[r, |text|] != NUL
      invariant |text| <= |p| && text == p[..|text|]
    {
      text := text + [slots[r, |text|]];
    }
  }

  const STRING_LENGTH := 2048

  /** Splits the datagram from `s` into `want` fields, if it has that many. */
  method ReadFields(d: string, s: nat, want: nat) returns (f: seq<string>, m: int)
    requires |d| <= STRING_LENGTH && 1 <= want <= 3
    ensures m == want - 1 <==> Fields(d, s, want).Some?
    ensures m == want - 1 ==> f == Fields(d, s, want).value[..want]
    ensures |f| == m + 1
  {
    hide Pieces, Count;
    var slots := new char[3, STRING_LENGTH]((i, j) => NUL);
    m := SplitL(d, NUL, s, slots, want, |d|);
    f := [];
    if m >= 0 {
      ghost var ps := Pieces(d[s..|d|], NUL);
      assert d[s..|d|] == d[s..];
      PiecesCover(d[s..], NUL);
      while |f| < m + 1
        invariant |f| <= m + 1 && f == ps[..|f|] && HoldsAll(slots, ps[..m + 1])
      {
        var text := ReadSlot(slots, |f|, ps[..m + 1][|f|]);
        f := f + [text];
      }
    }
  }

  /** `parse_udp`. */
  method ParseUdp(d: string) returns (r: Option<Message>)
    requires |d| <= STRING_LENGTH
    ensures r == Parse(d)
  {
    hide Pieces, Count, IsToken, IsDisplayName, IsContent, DecodeId;
    var id := IdAt(d, 1);
    var kind := At(d, 0) as int;
    r := None;
    if kind == 0x00 {
      if |d| == 3 { r := Some(Confirm(id)); }
    } else if kind == 0x01 {
      var f, m := ReadFields(d, 6, 1);
      if |d| >= 8 && m == 0 && IsContent(f[0], CONTENT_LENGTH + 1) {
        r := Some(Reply(id, At(d, 3) != NUL, IdAt(d, 4), f[0]));
      }
    } else if kind == 0x02 {
      var f, m := ReadFields(d, 3, 3);
      if |d| >= 9 && m == 2 && IsToken(f[0], ID_LENGTH + 1) && IsDisplayName(f[1], ID_LENGTH + 1)
         && IsToken(f[2], SECRET_LENGTH + 1) {
        r := Some(Auth(id, f[0], f[1], f[2]));
      }
    } else if kind == 0x03 {
      var f, m := ReadFields(d, 3, 2);
      if |d| >= 7 && m == 1 && IsToken(f[0], ID_LENGTH + 1) && IsDisplayName(f[1], ID_LENGTH + 1) {
        r := Some(Join(id, f[0], f[1]));
      }
    } else if kind == 0x04 || kind == 0xFE {
      var f, m := ReadFields(d, 3, 2);
      if |d| >= 7 && m == 1 && IsDisplayName(f[0], ID_LENGTH + 1) && IsContent(f[1], CONTENT_LENGTH + 1) {
        r := Some(if kind == 0x04 then Msg(id, f[0], f[1]) else Err(id, f[0], f[1]));
      }
    } else if kind == 0xFF {
      if |d| == 3 { r := Some(Bye(id)); }
    }
  }

  // ----- Round trip -----

  /** Base 256 out, base 255 of signed bytes in: exactly the ids below 128 survive. */
  lemma IdRoundTrip(id: nat)
    requires id < 0x1_0000
    ensures DecodeId(EncodeId(id)[0], EncodeId(id)[1]) == id <==> id < 0x80
  {
    var h, l := id / 0x100, id % 0x100;
    assert EncodeId(id)[0] as int == h && EncodeId(id)[1] as int == l;
  }

  /** The high byte of a reply's reference is not sent at all. */
  lemma RefRoundTrip(ref: nat)
    requires ref < 0x1_0000
    ensures DecodeId(LowByte(ref / 0x100 * 0x100), LowByte(ref)) == ref <==> ref < 0x80 || ref >= 0xFF80
  {
    var h, l := ref / 0x100, ref % 0x100;
    assert LowByte(h * 0x100) as int == 0 && LowByte(ref) as int == l;
  }

  /** The identifiers of `m` come back as they were sent. */
  predicate IsBytes(d: string) { forall i | 0 <= i < |d| :: (d[i] as int) < 0x100 }

  /** The references that no three bytes are read as. */
  predicate Unreadable(ref: nat) { 32513 <= ref <= 32767 }

  /** Two signed digits in base 255 that stand for `v`. */
  function Digits(v: int): (r: (int, int))
    requires -0x8000 <= v <= 32512
    ensures -0x80 <= r.0 < 0x80 && -0x80 <= r.1 < 0x80 && r.0 * 0xFF + r.1 == v
  {
    var a := if v == 32512 then 127 else (v + 0x80) / 0xFF;
    (a, v - a * 0xFF)
  }

  function ByteOf(a: int): (c: char)
    requires -0x80 <= a < 0x80
    ensures (c as int) < 0x100 && Signed(c) == a
  {
    (if a < 0 then a + 0x100 else a) as char
  }

  lemma DecodeGap(high: char, low: char)
    requires (high as int) < 0x100 && (low as int) < 0x100
    ensures DecodeId(high, low) < 0x1_0000 && !Unreadable(DecodeId(high, low))
  {
    var v := Signed(high) * 0xFF + Signed(low);
    assert -0x8000 <= v <= 32512;
    assert v < 0 ==> DecodeId(high, low) == v + 0x1_0000;
  }

  /** A reference can be sent to the server if and only if it is a 16-bit number outside the gap. */
  lemma ReadableRefs(ref: nat)
    ensures (exists d :: IsBytes(d) && Parse(d) == Some(Confirm(ref))) <==> ref < 0x1_0000 && !Unreadable(ref)
  {
    hide DecodeId, Fields, IsContent, IsToken, IsDisplayName;
    if d :| IsBytes(d) && Parse(d) == Some(Confirm(ref)) {
      DecodeGap(d[1], d[2]);
    }
    if ref < 0x1_0000 && !Unreadable(ref) {
      var v := if ref <= 32512 then ref else ref - 0x1_0000;
      var (a, b) := Digits(v);
      var d := [NUL, ByteOf(a), ByteOf(b)];
      DecodesTo(ByteOf(a), ByteOf(b), ref);
      assert IsBytes(d) && Parse(d) == Some(Confirm(ref));
    }
  }

  lemma DecodesTo(high: char, low: char, ref: nat)
    requires ref < 0x1_0000
    requires var v := Signed(high) * 0xFF + Signed(low); v == ref || v == ref - 0x1_0000
    ensures DecodeId(high, low) == ref
  {
  }

  /** What a client's own CONFIRM of `ref` is read as: a CONFIRM, of `ref` exactly if that is below 128. */
  lemma ConfirmReads(ref: nat)
    requires ref < 0x1_0000
    ensures var got := Parse(Compose(Confirm(ref)));
            got.Some? && got.value.Confirm? && (got.value.ref == ref <==> ref < 0x80)
  {
    hide DecodeId, EncodeId, LowByte;
    var d := Compose(Confirm(ref));
    RoundTripShort(Confirm(ref));
    Header(0x00, ref, "");
  }

  predicate IdsSurvive(m: Message) {
    match m
    case Confirm(ref) => ref < 0x80
    case Reply(id, _, ref, _) => id < 0x80 && (ref < 0x80 || ref >= 0xFF80)
    case _ => m.MessageId() < 0x80
  }

  predicate IdsAreWords(m: Message) {
    m.MessageId() < 0x1_0000 && (m.Confirm? || m.Reply? ==> m.ref < 0x1_0000)
  }

  lemma {:induction false} PiecesJoin(a: string, b: string, c: char)
    ensures Pieces(a + [c] + b, c) == Pieces(a, c) + Pieces(b, c)
    decreases |b|
  {
    hide Pieces;
    if b == "" {
      PiecesSnoc(a, c, c);
      assert a + [c] + b == a + [c];
      NoSeparator("", c);
    } else {
      var n := |b| - 1;
      PiecesJoin(a, b[..n], c);
      assert a + [c] + b == (a + [c] + b[..n]) + [b[n]] && b == b[..n] + [b[n]];
      PiecesSnoc(a + [c] + b[..n], c, b[n]);
      PiecesSnoc(b[..n], c, b[n]);
    }
  }

  lemma {:induction false} NoSeparator(a: string, c: char)
    requires c !in a
    ensures Pieces(a, c) == [a]
  {
    if a != "" {
      var n := |a| - 1;
      NoSeparator(a[..n], c);
      assert a == a[..n] + [a[n]];
    }
  }

  /** A field, its terminator, and the rest. */
  lemma FieldFirst(a: string, rest: string)
    requires NUL !in a
    ensures Pieces(a + [NUL] + rest, NUL) == [a] + Pieces(rest, NUL)
  {
    NoSeparator(a, NUL);
    PiecesJoin(a, rest, NUL);
  }

  /** What the fixed three-byte header of a datagram reads as. */
  lemma Header(kind: nat, id: nat, body: string)
    requires kind < 0x100 && id < 0x1_0000
    ensures var d := [LowByte(kind)] + EncodeId(id) + body;
            && At(d, 0) as int == kind && d[3..] == body && |d| == 3 + |body|
            && (IdAt(d, 1) == id <==> id < 0x80)
            && (forall i: nat :: At(d, 3 + i) == At(body, i))
  {
    IdRoundTrip(id);
  }

  lemma ComposeReply(m: Message)
    requires m.Reply?
    ensures Compose(m) == [LowByte(0x01)] + EncodeId(m.id)
                          + ([LowByte(if m.result then 1 else 0), LowByte(m.ref / 0x100 * 0x100), LowByte(m.ref)] + (m.content + [NUL] + ""))
  {
  }

  lemma ComposeAuth(m: Message)
    requires m.Auth?
    ensures Compose(m) == [LowByte(0x02)] + EncodeId(m.id)
                          + (m.username + [NUL] + (m.displayName + [NUL] + (m.secret + [NUL] + "")))
  {
  }

  lemma ComposePair(kind: nat, id: nat, a: string, b: string)
    ensures [LowByte(kind)] + EncodeId(id) + a + [NUL] + b + [NUL]
         == [LowByte(kind)] + EncodeId(id) + (a + [NUL] + (b + [NUL] + ""))
  {
  }

  lemma PairPieces(a: string, b: string)
    requires NUL !in a && NUL !in b
    ensures Pieces(a + [NUL] + (b + [NUL] + ""), NUL) == [a, b, ""]
  {
    FieldFirst(a, b + [NUL] + "");
    FieldFirst(b, "");
    NoSeparator("", NUL);
  }

  lemma FieldsHaveNoNul(m: Message)
    requires Accepted(m)
    ensures m.Reply? ==> NUL !in m.content
    ensures m.Auth? ==> NUL !in m.username && NUL !in m.displayName && NUL !in m.secret
    ensures m.Join? ==> NUL !in m.channel && NUL !in m.displayName
    ensures m.Msg? || m.Err? ==> NUL !in m.displayName && NUL !in m.content
  {
  }

  /**
   Parsing what was composed returns the message, for every message the grammar admits, exactly
   when its identifiers survive the two encodings.
   */
  lemma RoundTrip(m: Message)
    requires Accepted(m) && IdsAreWords(m)
    ensures Parse(Compose(m)) == Some(m) <==> IdsSurvive(m)
  {
    hide Pieces, Count, DecodeId, EncodeId, IsToken, IsDisplayName, IsContent, LowByte;
    FieldsHaveNoNul(m);
    match m
    case Confirm(ref) => RoundTripShort(m);
    case Bye(id) => RoundTripShort(m);
    case Reply(id, result, ref, content) => RoundTripReply(m);
    case Auth(id, user, name, secret) => RoundTripAuth(m);
    case Join(id, channel, name) =>
      ComposePair(0x03, id, channel, name);
      Header(0x03, id, channel + [NUL] + (name + [NUL] + ""));
      PairPieces(channel, name);
      NonEmpty(m);
    case Msg(id, name, content) =>
      ComposePair(0x04, id, name, content);
      Header(0x04, id, name + [NUL] + (content + [NUL] + ""));
      PairPieces(name, content);
      NonEmpty(m);
    case Err(id, name, content) =>
      ComposePair(0xFE, id, name, content);
      Header(0xFE, id, name + [NUL] + (content + [NUL] + ""));
      PairPieces(name, content);
      NonEmpty(m);
  }

  lemma NonEmpty(m: Message)
    requires Accepted(m)
    ensures m.Reply? ==> m.content != ""
    ensures m.Auth? ==> m.username != "" && m.displayName != "" && m.secret != ""
    ensures m.Join? ==> m.channel != "" && m.displayName != ""
    ensures m.Msg? || m.Err? ==> m.displayName != "" && m.content != ""
  {
  }

  lemma RoundTripShort(m: Message)
    requires IdsAreWords(m) && (m.Confirm? || m.Bye?)
    ensures Parse(Compose(m)) == Some(m) <==> IdsSurvive(m)
  {
    hide DecodeId, EncodeId, LowByte;
    var kind, id := if m.Confirm? then 0x00 else 0xFF, if m.Confirm? then m.ref else m.id;
    Header(kind, id, "");
    assert Compose(m) == [LowByte(kind)] + EncodeId(id) + "";
  }

  lemma RoundTripAuth(m: Message)
    requires m.Auth? && Accepted(m) && IdsAreWords(m)
    ensures Parse(Compose(m)) == Some(m) <==> IdsSurvive(m)
  {
    hide Pieces, Count, DecodeId, EncodeId, IsToken, IsDisplayName, LowByte;
    FieldsHaveNoNul(m);
    NonEmpty(m);
    var tail := m.displayName + [NUL] + (m.secret + [NUL] + "");
    ComposeAuth(m);
    Header(0x02, m.id, m.username + [NUL] + tail);
    FieldFirst(m.username, tail);
    PairPieces(m.displayName, m.secret);
  }

  lemma RoundTripReply(m: Message)
    requires m.Reply? && Accepted(m) && IdsAreWords(m)
    ensures Parse(Compose(m)) == Some(m) <==> IdsSurvive(m)
  {
    hide Pieces, Count, DecodeId, EncodeId, IsContent;
    FieldsHaveNoNul(m);
    NonEmpty(m);
    var text := m.content + [NUL] + "";
    var body := [LowByte(if m.result then 1 else 0), LowByte(m.ref / 0x100 * 0x100), LowByte(m.ref)] + text;
    var d := Compose(m);
    ComposeReply(m);
    Header(0x01, m.id, body);
    assert At(d, 3) == At(body, 0) && At(d, 4) == At(body, 1) && At(d, 5) == At(body, 2);
    assert d[6..] == d[3..][3..] == text;
    RefRoundTrip(m.ref);
    FieldFirst(m.content, "");
    NoSeparator("", NUL);
  }

  /** Whatever the parser returns obeys the grammar, with every upper bound one too high. */
  lemma ParseAccepts(d: string)
    ensures Parse(d).Some? ==> Accepted(Parse(d).value) && IdsAreWords(Parse(d).value)
  {
    hide Pieces, Count, IsToken, IsDisplayName, IsContent;
  }
}
