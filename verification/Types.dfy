/** The values the chat server exchanges: addresses, messages, fields and identifiers. */
module Types {

  datatype Option<+T> = None | Some(value: T)

  datatype Protocol = Udp | Tcp

  datatype Addr = Addr(host: nat, port: nat)

  /** Server arguments: `timeout` is a uint16 number of milliseconds, `retries` a uint8. */
  datatype Config = Config(timeout: nat, retries: nat)

  /** One chat message. A CONFIRM carries no identifier of its own on the wire. */
  datatype Message =
    | Confirm(ref: nat)
    | Reply(id: nat, result: bool, ref: nat, content: string)
    | Auth(id: nat, username: string, displayName: string, secret: string)
    | Join(id: nat, channel: string, displayName: string)
    | Msg(id: nat, displayName: string, content: string)
    | Err(id: nat, displayName: string, content: string)
    | Bye(id: nat)
  {
    function MessageId(): nat { if Confirm? then 0 else id }

    function WithId(n: nat): (m: Message)
      ensures m.Confirm? == Confirm? && m.Bye? == Bye?
    {
      match this
      case Confirm(ref) => Confirm(ref)
      case Reply(_, result, ref, content) => Reply(n, result, ref, content)
      case Auth(_, user, name, secret) => Auth(n, user, name, secret)
      case Join(_, channel, name) => Join(n, channel, name)
      case Msg(_, name, content) => Msg(n, name, content)
      case Err(_, name, content) => Err(n, name, content)
      case Bye(_) => Bye(n)
    }

    /** The same message with every identifier cleared, as a TCP text carries none. */
    function WithoutIds(): Message {
      if Reply? then Reply(0, result, 0, content) else WithId(0)
    }
  }

  /** A counter that runs over uint32 is truncated to a uint16 identifier. */
  function IdOf(n: nat): nat { n % 0x1_0000_0000 % 0x1_0000 }

  /** Truncation through uint32 loses nothing: the identifier counts modulo 2^16 for ever. */
  lemma IdOfIsMod(n: nat)
    ensures IdOf(n) == n % 0x1_0000
  {
    var q, r := n / 0x1_0000_0000, n % 0x1_0000_0000;
    assert n == (q * 0x1_0000) * 0x1_0000 + r;
    ModShift(r, q * 0x1_0000);
  }

  lemma ModShift(r: nat, k: nat)
    ensures (k * 0x1_0000 + r) % 0x1_0000 == r % 0x1_0000
  {
    var q, p := r / 0x1_0000, r % 0x1_0000;
    assert k * 0x1_0000 + r == (k + q) * 0x1_0000 + p;
  }

  /** Fewer than 2^16 apart, two distinct numbers have distinct identifiers. */
  lemma IdsDiffer(a: nat, b: nat)
    requires a < b < a + 0x1_0000
    ensures IdOf(a) != IdOf(b)
  {
    IdOfIsMod(a);
    IdOfIsMod(b);
  }

  // Character classes of the field grammar, in the C locale.

  predicate IsIdChar(c: char) { '0' <= c <= '9' || 'A' <= c <= 'Z' || 'a' <= c <= 'z' || c == '-' }

  predicate IsGraph(c: char) { '!' <= c <= '~' }

  predicate IsPrint(c: char) { ' ' <= c <= '~' }

  const ID_LENGTH := 20
  const SECRET_LENGTH := 128
  const CONTENT_LENGTH := 1400

  predicate IsToken(s: string, bound: nat) { 1 <= |s| <= bound && forall i | 0 <= i < |s| :: IsIdChar(s[i]) }

  predicate IsDisplayName(s: string, bound: nat) { 1 <= |s| <= bound && forall i | 0 <= i < |s| :: IsGraph(s[i]) }

  predicate IsContent(s: string, bound: nat) { 1 <= |s| <= bound && forall i | 0 <= i < |s| :: IsPrint(s[i]) }

  /** Every field obeys its character class and is at most `slack` longer than the documented bound. */
  predicate FieldsWithin(m: Message, slack: int) {
    match m
    case Confirm(_) => true
    case Reply(_, _, _, content) => IsContentWithin(content, slack)
    case Auth(_, user, name, secret) =>
      IsTokenWithin(user, ID_LENGTH, slack) && IsNameWithin(name, slack) && IsTokenWithin(secret, SECRET_LENGTH, slack)
    case Join(_, channel, name) => IsTokenWithin(channel, ID_LENGTH, slack) && IsNameWithin(name, slack)
    case Msg(_, name, content) => IsNameWithin(name, slack) && IsContentWithin(content, slack)
    case Err(_, name, content) => IsNameWithin(name, slack) && IsContentWithin(content, slack)
    case Bye(_) => true
  }

  predicate IsTokenWithin(s: string, bound: nat, slack: int) { bound + slack >= 0 && IsToken(s, bound + slack) }

  predicate IsNameWithin(s: string, slack: int) { ID_LENGTH + slack >= 0 && IsDisplayName(s, ID_LENGTH + slack) }

  predicate IsContentWithin(s: string, slack: int) { CONTENT_LENGTH + slack >= 0 && IsContent(s, CONTENT_LENGTH + slack) }

  /** What both parsers let through: the upper bounds of the regular expressions are one too high. */
  predicate Accepted(m: Message) { FieldsWithin(m, 1) }

  /** Every field leaves room for its terminator in the C array that holds it. */
  predicate Fits(m: Message) { FieldsWithin(m, -1) }

  // ----- The fields in the terms of RFC 5234 -----

  /** ALPHA, DIGIT and "-" of appendix B.1. */
  predicate AllIdCodes(s: string) {
    forall i | 0 <= i < |s| ::
      var n := s[i] as int; 0x41 <= n <= 0x5A || 0x61 <= n <= 0x7A || 0x30 <= n <= 0x39 || n == 0x2D
  }

  /** Codes from `low` (VCHAR from 0x21, with SP from 0x20) to 0x7E. */
  predicate AllCodesFrom(s: string, low: nat) { forall i | 0 <= i < |s| :: low <= s[i] as int <= 0x7E }

  /** The documented fields, with their bounds in figures, each of them `slack` longer. */
  lemma FieldsInFigures(m: Message, slack: int)
    requires slack >= -1
    ensures FieldsWithin(m, slack) <==>
            match m
            case Confirm(_) => true
            case Bye(_) => true
            case Reply(_, _, _, content) => 1 <= |content| <= 1400 + slack && AllCodesFrom(content, 0x20)
            case Auth(_, user, name, secret) =>
              && 1 <= |user| <= 20 + slack && AllIdCodes(user)
              && 1 <= |name| <= 20 + slack && AllCodesFrom(name, 0x21)
              && 1 <= |secret| <= 128 + slack && AllIdCodes(secret)
            case Join(_, channel, name) =>
              && 1 <= |channel| <= 20 + slack && AllIdCodes(channel)
              && 1 <= |name| <= 20 + slack && AllCodesFrom(name, 0x21)
            case Msg(_, name, content) =>
              && 1 <= |name| <= 20 + slack && AllCodesFrom(name, 0x21)
              && 1 <= |content| <= 1400 + slack && AllCodesFrom(content, 0x20)
            case Err(_, name, content) =>
              && 1 <= |name| <= 20 + slack && AllCodesFrom(name, 0x21)
              && 1 <= |content| <= 1400 + slack && AllCodesFrom(content, 0x20)
  {
    forall s: string ensures (forall i | 0 <= i < |s| :: IsIdChar(s[i])) <==> AllIdCodes(s) { IdCodes(s); }
    forall s: string ensures (forall i | 0 <= i < |s| :: IsGraph(s[i])) <==> AllCodesFrom(s, 0x21) { GraphCodes(s); }
    forall s: string ensures (forall i | 0 <= i < |s| :: IsPrint(s[i])) <==> AllCodesFrom(s, 0x20) { PrintCodes(s); }
  }

  lemma IdCodes(s: string)
    ensures (forall i | 0 <= i < |s| :: IsIdChar(s[i])) <==> AllIdCodes(s)
  {
    assert forall i | 0 <= i < |s| :: IsIdChar(s[i]) <==>
      var n := s[i] as int; 0x41 <= n <= 0x5A || 0x61 <= n <= 0x7A || 0x30 <= n <= 0x39 || n == 0x2D;
  }

  lemma GraphCodes(s: string)
    ensures (forall i | 0 <= i < |s| :: IsGraph(s[i])) <==> AllCodesFrom(s, 0x21)
  {
    assert forall i | 0 <= i < |s| :: IsGraph(s[i]) <==> 0x21 <= s[i] as int <= 0x7E;
  }

  lemma PrintCodes(s: string)
    ensures (forall i | 0 <= i < |s| :: IsPrint(s[i])) <==> AllCodesFrom(s, 0x20)
  {
    assert forall i | 0 <= i < |s| :: IsPrint(s[i]) <==> 0x20 <= s[i] as int <= 0x7E;
  }
}
