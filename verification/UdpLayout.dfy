/** The datagrams byte by byte: what is composed, and exactly what is accepted. */
module UdpLayout {
  import opened Types
  import opened UdpCodec

  /** The first byte of a datagram. */
  function TypeCode(m: Message): nat {
    match m
    case Confirm(_) => 0
    case Reply(_, _, _, _) => 1
    case Auth(_, _, _, _) => 2
    case Join(_, _, _) => 3
    case Msg(_, _, _) => 4
    case Err(_, _, _) => 254
    case Bye(_) => 255
  }

  /** The identifier in the second and third byte. */
  function HeaderId(m: Message): nat { if m.Confirm? then m.ref else m.id }

  function Terminated(field: string): string { field + ['\0'] }

  /** What follows the header. The reference of a REPLY is reduced to its low byte. */
  function Payload(m: Message): string {
    match m
    case Confirm(_) => ""
    case Bye(_) => ""
    case Reply(_, result, ref, content) =>
      [if result then 1 as char else 0 as char, 0 as char, (ref % 256) as char] + Terminated(content)
    case Auth(_, user, name, secret) => Terminated(user) + Terminated(name) + Terminated(secret)
    case Join(_, channel, name) => Terminated(channel) + Terminated(name)
    case Msg(_, name, content) => Terminated(name) + Terminated(content)
    case Err(_, name, content) => Terminated(name) + Terminated(content)
  }

  /** Identifiers are written in base 256, high byte first. */
  lemma IdBytes(id: nat)
    requires id < 0x1_0000
    ensures var b := EncodeId(id); |b| == 2 && IsBytes(b) && b[0] as int * 256 + b[1] as int == id
  {
    assert id / 0x100 < 0x100;
  }

  lemma LowRef(ref: nat)
    ensures LowByte(ref / 0x100 * 0x100) as int == 0 && LowByte(ref) as int == ref % 256
  {
    assert ref / 0x100 * 0x100 % 0x100 == 0;
  }

  lemma Framed(kind: nat, id: nat, body: string)
    requires kind < 256 && id < 0x1_0000
    ensures var d := [LowByte(kind)] + EncodeId(id) + body;
            |d| == 3 + |body| && d[0] as int == kind && d[1] as int * 256 + d[2] as int == id && d[3..] == body
  {
    hide LowByte;
    IdBytes(id);
    SmallByte(kind);
  }

  lemma SmallByte(kind: nat)
    requires kind < 256
    ensures LowByte(kind) as int == kind
  {
  }

  /** Every datagram is its type, its identifier in two bytes, and its fields, each with a terminator. */
  lemma Layout(m: Message)
    requires IdsAreWords(m)
    ensures var d := Compose(m);
            && |d| >= 3 && d[0] as int == TypeCode(m)
            && d[1] as int * 256 + d[2] as int == HeaderId(m)
            && d[3..] == Payload(m)
  {
    hide EncodeId, LowByte;
    Framed(TypeCode(m), HeaderId(m), Payload(m));
    assert Compose(m) == [LowByte(TypeCode(m))] + EncodeId(HeaderId(m)) + Payload(m) by { ComposeParts(m); }
  }

  lemma ComposeParts(m: Message)
    ensures Compose(m) == [LowByte(TypeCode(m))] + EncodeId(HeaderId(m)) + Payload(m)
  {
    hide EncodeId, LowByte;
    var h := [LowByte(TypeCode(m))] + EncodeId(HeaderId(m));
    match m
    case Confirm(_) => assert h + "" == h;
    case Bye(_) => assert h + "" == h;
    case Reply(_, result, ref, content) =>
      LowRef(ref);
      SmallByte(if result then 1 else 0);
      assert Compose(m) == h + Payload(m);
    case Auth(_, user, name, secret) =>
      assert h + user + [NUL] + name + [NUL] + secret + [NUL] == h + (user + [NUL] + (name + [NUL]) + (secret + [NUL]));
    case Join(_, a, b) => assert h + a + [NUL] + b + [NUL] == h + (a + [NUL] + (b + [NUL]));
    case Msg(_, a, b) => assert h + a + [NUL] + b + [NUL] == h + (a + [NUL] + (b + [NUL]));
    case Err(_, a, b) => assert h + a + [NUL] + b + [NUL] == h + (a + [NUL] + (b + [NUL]));
  }

  // ----- No two messages have the same datagram -----

  lemma TwoFields(a: string, b: string, c: string, d: string)
    requires NUL !in a && NUL !in b && NUL !in c && NUL !in d
    requires Terminated(a) + Terminated(b) == Terminated(c) + Terminated(d)
    ensures a == c && b == d
  {
    hide Pieces;
    assert Terminated(a) + Terminated(b) == a + [NUL] + (b + [NUL] + "");
    assert Terminated(c) + Terminated(d) == c + [NUL] + (d + [NUL] + "");
    PairPieces(a, b);
    PairPieces(c, d);
    assert [a, b, ""][0] == [c, d, ""][0] && [a, b, ""][1] == [c, d, ""][1];
  }

  lemma ThreeFields(a: string, b: string, c: string, x: string, y: string, z: string)
    requires NUL !in a && NUL !in b && NUL !in c && NUL !in x && NUL !in y && NUL !in z
    requires Terminated(a) + Terminated(b) + Terminated(c) == Terminated(x) + Terminated(y) + Terminated(z)
    ensures a == x && b == y && c == z
  {
    hide Pieces;
    var u, v := b + [NUL] + (c + [NUL] + ""), y + [NUL] + (z + [NUL] + "");
    assert Terminated(a) + Terminated(b) + Terminated(c) == a + [NUL] + u;
    assert Terminated(x) + Terminated(y) + Terminated(z) == x + [NUL] + v;
    FieldFirst(a, u);
    FieldFirst(x, v);
    PairPieces(b, c);
    PairPieces(y, z);
    var p, q := [a] + [b, c, ""], [x] + [y, z, ""];
    assert p == q;
    assert p[0] == a && p[1] == b && p[2] == c && q[0] == x && q[1] == y && q[2] == z;
  }

  lemma SameReply(m: Message, n: Message)
    requires m.Reply? && n.Reply? && Payload(m) == Payload(n)
    ensures m.result == n.result && m.content == n.content && m.ref % 256 == n.ref % 256
  {
    var p, q := Payload(m), Payload(n);
    assert p[0] == q[0] && p[2] == q[2];
    assert p[3..] == Terminated(m.content) && q[3..] == Terminated(n.content);
    assert Terminated(m.content)[..|m.content|] == m.content && Terminated(n.content)[..|n.content|] == n.content;
  }

  /** Composed datagrams tell messages apart, but for the high byte of the reference of a REPLY. */
  lemma ComposeInjective(m: Message, n: Message)
    requires Accepted(m) && Accepted(n) && IdsAreWords(m) && IdsAreWords(n) && Compose(m) == Compose(n)
    ensures m == n || (m.Reply? && n.Reply? && m == n.(ref := m.ref) && m.ref % 256 == n.ref % 256)
  {
    hide Compose, IsToken, IsDisplayName, IsContent;
    Layout(m);
    Layout(n);
    FieldsHaveNoNul(m);
    FieldsHaveNoNul(n);
    match m
    case Confirm(_) =>
    case Bye(_) =>
    case Reply(_, _, _, _) => SameReply(m, n);
    case Auth(_, a, b, c) => ThreeFields(a, b, c, n.username, n.displayName, n.secret);
    case Join(_, a, b) => TwoFields(a, b, n.channel, n.displayName);
    case Msg(_, a, b) => TwoFields(a, b, n.displayName, n.content);
    case Err(_, a, b) => TwoFields(a, b, n.displayName, n.content);
  }

  // ----- What is accepted -----

  /** `t` begins with these fields, each followed by a terminator; the last one may also end the datagram. */
  predicate Leads(t: string, fields: seq<string>)
    requires fields != []
    decreases |fields|
  {
    var f := fields[0];
    && f <= t
    && (|fields| == 1 ==> |t| == |f| || t[|f|] == NUL)
    && (|fields| > 1 ==> |t| > |f| && t[|f|] == NUL && Leads(t[|f| + 1..], fields[1..]))
  }

  /** The bytes are read as `id`: two digits base 255, a byte above 127 being negative, in 16 bits. */
  predicate Read(high: char, low: char, id: nat) {
    var h, l := high as int, low as int;
    id == (255 * (if h > 127 then h - 256 else h) + (if l > 127 then l - 256 else l)) % 65536
  }

  lemma ReadIffDecoded(high: char, low: char, id: nat)
    ensures DecodeId(high, low) == id <==> Read(high, low, id)
  {
  }

  /** The datagrams that stand for `m`. */
  predicate Datagram(d: string, m: Message) {
    && |d| >= 3 && d[0] as int == TypeCode(m) && Read(d[1], d[2], HeaderId(m)) && FieldsWithin(m, 1)
    && match m
       case Confirm(_) => |d| == 3
       case Bye(_) => |d| == 3
       case Reply(_, result, ref, content) =>
         |d| >= 8 && (result <==> d[3] as int != 0) && Read(d[4], d[5], ref) && Leads(d[6..], [content])
       case Auth(_, user, name, secret) => |d| >= 9 && Leads(d[3..], [user, name, secret])
       case Join(_, channel, name) => |d| >= 7 && Leads(d[3..], [channel, name])
       case Msg(_, name, content) => |d| >= 7 && Leads(d[3..], [name, content])
       case Err(_, name, content) => |d| >= 7 && Leads(d[3..], [name, content])
  }

  /** The position of the first terminator, or the length. */
  function FirstNul(t: string): (k: nat)
    ensures k <= |t| && NUL !in t[..k] && (k < |t| ==> t[k] == NUL)
  {
    if t == "" || t[0] == NUL then 0
    else
      var k := 1 + FirstNul(t[1..]);
      assert t[..k] == [t[0]] + t[1..][..k - 1];
      k
  }

  lemma SplitAt(t: string, k: nat)
    requires k < |t| && t[k] == NUL
    ensures t == t[..k] + [NUL] + t[k + 1..]
  {
  }

  lemma PiecesOf(t: string)
    ensures var k := FirstNul(t);
            Pieces(t, NUL) == if k == |t| then [t] else [t[..k]] + Pieces(t[k + 1..], NUL)
  {
    hide Pieces, FirstNul, Count;
    var k := FirstNul(t);
    if k == |t| {
      assert t[..k] == t;
      NoSeparator(t, NUL);
    } else {
      SplitAt(t, k);
      FieldFirst(t[..k], t[k + 1..]);
    }
  }

  lemma FirstNulAt(t: string, f: string)
    requires NUL !in f && f <= t && (|t| == |f| || t[|f|] == NUL)
    ensures FirstNul(t) == |f| && t[..|f|] == f
  {
    hide FirstNul;
    var k := FirstNul(t);
    assert forall i | 0 <= i < |f| :: t[i] == f[i] && f[i] in f;
    assert forall i | 0 <= i < k :: t[i] == t[..k][i] && t[..k][i] in t[..k];
  }

  /** The first pieces are the leading fields. */
  lemma {:induction false} LeadsIffPieces(t: string, fields: seq<string>)
    requires fields != [] && forall i | 0 <= i < |fields| :: NUL !in fields[i]
    ensures Leads(t, fields) <==> |Pieces(t, NUL)| >= |fields| && Pieces(t, NUL)[..|fields|] == fields
    decreases |fields|
  {
    hide Pieces, FirstNul;
    var f, k, ps := fields[0], FirstNul(t), Pieces(t, NUL);
    PiecesOf(t);
    assert ps[0] == t[..k] by { assert k == |t| ==> t[..k] == t; }
    if f <= t && (|t| == |f| || t[|f|] == NUL) { FirstNulAt(t, f); }
    if |fields| > 1 && k < |t| {
      LeadsIffPieces(t[k + 1..], fields[1..]);
      var rest := Pieces(t[k + 1..], NUL);
      assert ps == [t[..k]] + rest;
      if |ps| >= |fields| {
        assert ps[..|fields|] == [t[..k]] + rest[..|fields| - 1];
        assert fields == [f] + fields[1..];
      }
    } else if |fields| == 1 {
      assert |ps| >= 1 ==> ps[..1] == [ps[0]];
      assert fields == [f];
    }
  }

  lemma HeadPieces(t: string, fields: seq<string>, n: nat)
    requires n == |fields| >= 1 && forall i | 0 <= i < |fields| :: NUL !in fields[i]
    ensures Leads(t, fields) <==> |Pieces(t, NUL)| >= n && forall i | 0 <= i < n :: Pieces(t, NUL)[i] == fields[i]
  {
    hide Pieces, Leads;
    LeadsIffPieces(t, fields);
    var ps := Pieces(t, NUL);
    if |ps| >= n && forall i | 0 <= i < n :: ps[i] == fields[i] { assert ps[..n] == fields; }
    if Leads(t, fields) { assert forall i | 0 <= i < n :: ps[i] == ps[..n][i]; }
  }

  /** The parser accepts exactly these datagrams, for exactly these messages. */
  lemma ParseIffDatagram(d: string, m: Message)
    ensures Parse(d) == Some(m) <==> Datagram(d, m)
  {
    hide Pieces, DecodeId, Read, IsToken, IsDisplayName, IsContent, Leads, TypeCode, HeaderId;
    if Parse(d) == Some(m) { ParsedIsDatagram(d, m); }
    if Datagram(d, m) { DatagramIsParsed(d, m); }
  }

  lemma ParsedIsDatagram(d: string, m: Message)
    requires Parse(d) == Some(m)
    ensures Datagram(d, m)
  {
    hide Pieces, DecodeId, Read, IsToken, IsDisplayName, IsContent, Leads;
    ReadIffDecoded(d[1], d[2], HeaderId(m));
    if m.Reply? { ReadIffDecoded(d[4], d[5], m.ref); }
    ParseAccepts(d);
    FieldsHaveNoNul(m);
    match m
    case Confirm(_) =>
    case Bye(_) =>
    case Reply(_, _, _, content) => HeadPieces(d[6..], [content], 1);
    case Auth(_, a, b, c) => HeadPieces(d[3..], [a, b, c], 3);
    case Join(_, a, b) => HeadPieces(d[3..], [a, b], 2);
    case Msg(_, a, b) => HeadPieces(d[3..], [a, b], 2);
    case Err(_, a, b) => HeadPieces(d[3..], [a, b], 2);
  }

  lemma DatagramIsParsed(d: string, m: Message)
    requires Datagram(d, m)
    ensures Parse(d) == Some(m)
  {
    hide Pieces, DecodeId, Read, IsToken, IsDisplayName, IsContent, Leads;
    ReadIffDecoded(d[1], d[2], HeaderId(m));
    if m.Reply? { ReadIffDecoded(d[4], d[5], m.ref); }
    FieldsHaveNoNul(m);
    match m
    case Confirm(_) =>
    case Bye(_) =>
    case Reply(_, _, _, content) => HeadPieces(d[6..], [content], 1);
    case Auth(_, a, b, c) => HeadPieces(d[3..], [a, b, c], 3);
    case Join(_, a, b) => HeadPieces(d[3..], [a, b], 2);
    case Msg(_, a, b) => HeadPieces(d[3..], [a, b], 2);
    case Err(_, a, b) => HeadPieces(d[3..], [a, b], 2);
  }
}
