/** The text format of the TCP variant: composer, parser and grammar. */
module TcpCodec {
  import opened Types

  const CRLF := "\r\n"

  /** `compose_tcp`; a CONFIRM has no text and leaves the buffer empty. */
  function Compose(m: Message): string {
    match m
    case Confirm(_) => ""
    case Reply(_, result, _, content) => "REPLY " + (if result then "OK" else "NOK") + " IS " + content + CRLF
    case Auth(_, user, name, secret) => "AUTH " + user + " AS " + name + " USING " + secret + CRLF
    case Join(_, channel, name) => "JOIN " + channel + " AS " + name + CRLF
    case Msg(_, name, content) => "MSG FROM " + name + " IS " + content + CRLF
    case Err(_, name, content) => "ERR FROM " + name + " IS " + content + CRLF
    case Bye(_) => "BYE" + CRLF
  }

  // ----- The grammar of the documentation -----

  /**
   `text` is the sentence of the documented grammar that carries the fields of `m`, with keywords in
   upper case only and every upper bound of a repetition raised by `slack`.
   */
  ghost predicate Sentence(text: string, m: Message, slack: nat) {
    match m
    case Confirm(_) => false
    case Auth(id, user, name, secret) =>
      id == 0 && IsToken(user, ID_LENGTH + slack) && IsDisplayName(name, ID_LENGTH + slack)
      && IsToken(secret, SECRET_LENGTH + slack)
      && text == "AUTH" + " " + user + " AS " + name + " USING " + secret + CRLF
    case Join(id, channel, name) =>
      id == 0 && IsToken(channel, ID_LENGTH + slack) && IsDisplayName(name, ID_LENGTH + slack)
      && text == "JOIN" + " " + channel + " AS " + name + CRLF
    case Msg(id, name, content) =>
      id == 0 && IsDisplayName(name, ID_LENGTH + slack) && IsContent(content, CONTENT_LENGTH + slack)
      && text == "MSG FROM" + " " + name + " IS " + content + CRLF
    case Err(id, name, content) =>
      id == 0 && IsDisplayName(name, ID_LENGTH + slack) && IsContent(content, CONTENT_LENGTH + slack)
      && text == "ERR FROM" + " " + name + " IS " + content + CRLF
    case Reply(id, result, ref, content) =>
      id == 0 && ref == 0 && IsContent(content, CONTENT_LENGTH + slack)
      && text == "REPLY" + " " + (if result then "OK" else "NOK") + " IS " + content + CRLF
    case Bye(id) => id == 0 && text == "BYE" + CRLF
  }

  // ----- The parser -----

  /** The buffer read as a C string. */
  function CString(buf: string): (t: string)
    ensures t <= buf && '\0' !in t
    ensures '\0' !in buf ==> t == buf
  {
    if buf == "" || buf[0] == '\0' then "" else [buf[0]] + CString(buf[1..])
  }

  /** `^p.*\r\n$`. */
  predicate Framed(t: string, p: string) {
    |p| + 2 <= |t| && p <= t && t[|t| - 2..] == CRLF
  }

  function Body(t: string, p: string): string
    requires Framed(t, p)
  {
    t[|p|..|t| - 2]
  }

  function FirstSpace(t: string): (k: nat)
    ensures k <= |t| && ' ' !in t[..k] && (k < |t| ==> t[k] == ' ')
  {
    if t == "" || t[0] == ' ' then 0
    else
      var k := 1 + FirstSpace(t[1..]);
      assert t[..k] == [t[0]] + t[1..][..k - 1];
      k
  }

  /** After the keyword `key`: the longest word without spaces, and what follows it. */
  function Word(t: string, key: string): Option<(string, string)> {
    if key <= t then
      var rest := t[|key|..];
      Some((rest[..FirstSpace(rest)], rest[FirstSpace(rest)..]))
    else None
  }

  function ParseJoin(b: string): Option<Message> {
    var w := Word(b, " ");
    if w.None? then None else
    var v := Word(w.value.1, " AS ");
    if v.None? || v.value.1 != "" then None
    else if IsToken(w.value.0, ID_LENGTH + 1) && IsDisplayName(v.value.0, ID_LENGTH + 1)
    then Some(Join(0, w.value.0, v.value.0)) else None
  }

  function ParseAuth(b: string): Option<Message> {
    var w := Word(b, " ");
    if w.None? then None else
    var v := Word(w.value.1, " AS ");
    if v.None? then None else
    var u := Word(v.value.1, " USING ");
    if u.None? || u.value.1 != "" then None
    else if IsToken(w.value.0, ID_LENGTH + 1) && IsDisplayName(v.value.0, ID_LENGTH + 1) && IsToken(u.value.0, SECRET_LENGTH + 1)
    then Some(Auth(0, w.value.0, v.value.0, u.value.0)) else None
  }

  /** A display name and a content, as in MSG and ERR. */
  function ParseSpeech(b: string): Option<(string, string)> {
    var w := Word(b, " ");
    if w.None? || !(" IS " <= w.value.1) then None
    else
      var content := w.value.1[4..];
      if IsDisplayName(w.value.0, ID_LENGTH + 1) && IsContent(content, CONTENT_LENGTH + 1)
      then Some((w.value.0, content)) else None
  }

  function ParseReply(b: string, result: bool): Option<Message> {
    if " IS " <= b && IsContent(b[4..], CONTENT_LENGTH + 1) then Some(Reply(0, result, 0, b[4..])) else None
  }

  /** `parse_tcp`: the first keyword that fits decides, and its full pattern must then match. */
  function Parse(buf: string): Option<Message> {
    var t := CString(buf);
    if Framed(t, "JOIN") then ParseJoin(Body(t, "JOIN"))
    else if Framed(t, "AUTH") then ParseAuth(Body(t, "AUTH"))
    else if Framed(t, "MSG FROM") then
      var s := ParseSpeech(Body(t, "MSG FROM"));
      if s.Some? then Some(Msg(0, s.value.0, s.value.1)) else None
    else if Framed(t, "ERR FROM") then
      var s := ParseSpeech(Body(t, "ERR FROM"));
      if s.Some? then Some(Err(0, s.value.0, s.value.1)) else None
    else if Framed(t, "REPLY OK") then ParseReply(Body(t, "REPLY OK"), true)
    else if Framed(t, "REPLY NOK") then ParseReply(Body(t, "REPLY NOK"), false)
    else if t == "BYE" + CRLF then Some(Bye(0))
    else None
  }

  // ----- Parsing is deriving -----

  lemma {:induction false} FirstSpaceAfter(word: string, rest: string)
    requires ' ' !in word && (rest == "" || rest[0] == ' ')
    ensures FirstSpace(word + rest) == |word|
  {
    if word == "" {
      assert word + rest == rest;
    } else {
      assert (word + rest)[1..] == word[1..] + rest;
      FirstSpaceAfter(word[1..], rest);
    }
  }

  lemma WordOf(key: string, word: string, rest: string)
    requires ' ' !in word && (rest == "" || rest[0] == ' ')
    ensures Word(key + word + rest, key) == Some((word, rest))
  {
    hide FirstSpace;
    FirstSpaceAfter(word, rest);
    assert (key + word + rest)[|key|..] == word + rest;
  }

  lemma WordIs(t: string, key: string)
    requires Word(t, key).Some?
    ensures var (word, rest) := Word(t, key).value;
            t == key + word + rest && ' ' !in word && (rest == "" || rest[0] == ' ')
  {
    hide FirstSpace;
    var r := t[|key|..];
    assert t == key + r;
    assert r == r[..FirstSpace(r)] + r[FirstSpace(r)..];
  }

  lemma FramedBody(p: string, b: string)
    ensures Framed(p + b + CRLF, p) && Body(p + b + CRLF, p) == b
  {
  }

  lemma FramedIs(t: string, p: string)
    requires Framed(t, p)
    ensures t == p + Body(t, p) + CRLF
  {
  }

  lemma NoSpace(s: string, bound: nat)
    ensures IsToken(s, bound) || IsDisplayName(s, bound) ==> ' ' !in s
  {
  }

  lemma JoinBody(b: string, m: Message)
    ensures ParseJoin(b) == Some(m) <==>
            && m.Join? && m.id == 0 && IsToken(m.channel, ID_LENGTH + 1) && IsDisplayName(m.displayName, ID_LENGTH + 1)
            && b == " " + m.channel + (" AS " + m.displayName + "")
  {
    hide Word, IsToken, IsDisplayName;
    if ParseJoin(b) == Some(m) {
      WordIs(b, " ");
      WordIs(Word(b, " ").value.1, " AS ");
    } else if m.Join? && IsToken(m.channel, ID_LENGTH + 1) && IsDisplayName(m.displayName, ID_LENGTH + 1) {
      NoSpace(m.channel, ID_LENGTH + 1);
      NoSpace(m.displayName, ID_LENGTH + 1);
      WordOf(" ", m.channel, " AS " + m.displayName + "");
      WordOf(" AS ", m.displayName, "");
    }
  }

  lemma AuthBody(b: string, m: Message)
    ensures ParseAuth(b) == Some(m) <==>
            && m.Auth? && m.id == 0 && IsToken(m.username, ID_LENGTH + 1) && IsDisplayName(m.displayName, ID_LENGTH + 1)
            && IsToken(m.secret, SECRET_LENGTH + 1)
            && b == " " + m.username + (" AS " + m.displayName + (" USING " + m.secret + ""))
  {
    hide Word, IsToken, IsDisplayName;
    if ParseAuth(b) == Some(m) {
      WordIs(b, " ");
      var w := Word(b, " ").value.1;
      WordIs(w, " AS ");
      WordIs(Word(w, " AS ").value.1, " USING ");
    } else if m.Auth? && IsToken(m.username, ID_LENGTH + 1) && IsDisplayName(m.displayName, ID_LENGTH + 1)
              && IsToken(m.secret, SECRET_LENGTH + 1) {
      NoSpace(m.username, ID_LENGTH + 1);
      NoSpace(m.displayName, ID_LENGTH + 1);
      NoSpace(m.secret, SECRET_LENGTH + 1);
      var tail := " USING " + m.secret + "";
      WordOf(" ", m.username, " AS " + m.displayName + tail);
      WordOf(" AS ", m.displayName, tail);
      WordOf(" USING ", m.secret, "");
    }
  }

  lemma SpeechBody(b: string, name: string, content: string)
    ensures ParseSpeech(b) == Some((name, content)) <==>
            && IsDisplayName(name, ID_LENGTH + 1) && IsContent(content, CONTENT_LENGTH + 1)
            && b == " " + name + (" IS " + content)
  {
    hide Word, IsDisplayName, IsContent;
    if ParseSpeech(b) == Some((name, content)) {
      WordIs(b, " ");
      var w := Word(b, " ").value.1;
      assert w == " IS " + w[4..];
    } else if IsDisplayName(name, ID_LENGTH + 1) && IsContent(content, CONTENT_LENGTH + 1) {
      NoSpace(name, ID_LENGTH + 1);
      WordOf(" ", name, " IS " + content);
      assert (" IS " + content)[4..] == content;
    }
  }

  lemma ReplyBody(b: string, result: bool, m: Message)
    ensures ParseReply(b, result) == Some(m) <==>
            && m.Reply? && m.id == 0 && m.ref == 0 && m.result == result && IsContent(m.content, CONTENT_LENGTH + 1)
            && b == " IS " + m.content
  {
    hide IsContent;
    if " IS " <= b { assert b == " IS " + b[4..]; }
    if m.Reply? { assert (" IS " + m.content)[4..] == m.content; }
  }

  /** The sentence of `m`, keyword, body and line end apart. */
  function Keyword(m: Message): string {
    match m
    case Confirm(_) => "CONFIRM"
    case Reply(_, result, _, _) => if result then "REPLY OK" else "REPLY NOK"
    case Auth(_, _, _, _) => "AUTH"
    case Join(_, _, _) => "JOIN"
    case Msg(_, _, _) => "MSG FROM"
    case Err(_, _, _) => "ERR FROM"
    case Bye(_) => "BYE"
  }

  function BodyOf(m: Message): string {
    match m
    case Reply(_, _, _, content) => " IS " + content
    case Auth(_, user, name, secret) => " " + user + (" AS " + name + (" USING " + secret + ""))
    case Join(_, channel, name) => " " + channel + (" AS " + name + "")
    case Msg(_, name, content) => " " + name + (" IS " + content)
    case Err(_, name, content) => " " + name + (" IS " + content)
    case _ => ""
  }

  lemma SentenceSplit(t: string, m: Message)
    ensures Sentence(t, m, 1) <==>
            && !m.Confirm? && m == m.WithoutIds() && Accepted(m) && t == Keyword(m) + BodyOf(m) + CRLF
  {
    hide IsToken, IsDisplayName, IsContent;
    match m
    case Reply(_, result, _, content) =>
      assert "REPLY" + " " + "OK" == "REPLY OK" && "REPLY" + " " + "NOK" == "REPLY NOK";
      Regroup2(Keyword(m), " IS ", content, CRLF);
    case Auth(_, user, name, secret) => Regroup6("AUTH", " ", user, " AS ", name, " USING ", secret, CRLF);
    case Join(_, channel, name) => Regroup4("JOIN", " ", channel, " AS ", name, CRLF);
    case Msg(_, name, content) => Regroup4("MSG FROM", " ", name, " IS ", content, CRLF);
    case Err(_, name, content) => Regroup4("ERR FROM", " ", name, " IS ", content, CRLF);
    case Bye(_) => assert "BYE" + "" + CRLF == "BYE" + CRLF;
    case Confirm(_) =>
  }

  lemma Regroup2(k: string, a: string, b: string, e: string)
    ensures k + a + b + e == k + (a + b) + e
  {
  }

  lemma Regroup4(k: string, a: string, b: string, c: string, d: string, e: string)
    ensures k + a + b + c + d + e == k + (a + b + (c + d)) + e == k + (a + b + (c + d + "")) + e
  {
    assert c + d + "" == c + d;
  }

  lemma Regroup6(k: string, a: string, b: string, c: string, d: string, f: string, g: string, e: string)
    ensures k + a + b + c + d + f + g + e == k + (a + b + (c + d + (f + g + ""))) + e
  {
    assert f + g + "" == f + g;
    Regroup2(k + a + b + c + d, f, g, e);
    Regroup4(k, a, b, c, d, "");
  }

  lemma Unframed(t: string, m: Message, q: string)
    requires !m.Confirm? && t == Keyword(m) + BodyOf(m) + CRLF
    requires q in ["JOIN", "AUTH", "MSG FROM", "ERR FROM", "REPLY OK", "REPLY NOK"]
    requires q == "JOIN" ==> !m.Join?
    requires q == "AUTH" ==> !m.Auth?
    requires q == "MSG FROM" ==> !m.Msg?
    requires q == "ERR FROM" ==> !m.Err?
    requires q == "REPLY OK" ==> !(m.Reply? && m.result)
    requires q == "REPLY NOK" ==> !(m.Reply? && !m.result)
    ensures !Framed(t, q)
  {
    hide BodyOf;
    var k := Keyword(m);
    assert k <= t;
    assert k[0] != q[0] || k[6] != q[6] by {
      assert |k| > 6 || k[0] != q[0];
    }
  }

  /** What the parser returns is what the sentence says. */
  lemma ParseSound(buf: string, m: Message)
    requires Parse(buf) == Some(m)
    ensures Sentence(CString(buf), m, 1)
  {
    hide CString, ParseJoin, ParseAuth, ParseSpeech, ParseReply, IsToken, IsDisplayName, IsContent, Sentence;
    var t := CString(buf);
    SentenceSplit(t, m);
    if Framed(t, "JOIN") {
      FramedIs(t, "JOIN");
      JoinBody(Body(t, "JOIN"), m);
    } else if Framed(t, "AUTH") {
      FramedIs(t, "AUTH");
      AuthBody(Body(t, "AUTH"), m);
    } else if Framed(t, "MSG FROM") {
      FramedIs(t, "MSG FROM");
      SpeechBody(Body(t, "MSG FROM"), m.displayName, m.content);
    } else if Framed(t, "ERR FROM") {
      FramedIs(t, "ERR FROM");
      SpeechBody(Body(t, "ERR FROM"), m.displayName, m.content);
    } else if Framed(t, "REPLY OK") {
      FramedIs(t, "REPLY OK");
      ReplyBody(Body(t, "REPLY OK"), true, m);
    } else if Framed(t, "REPLY NOK") {
      FramedIs(t, "REPLY NOK");
      ReplyBody(Body(t, "REPLY NOK"), false, m);
    } else {
      assert "BYE" + "" + CRLF == t;
    }
  }

  /** Every sentence is parsed, into its fields. */
  lemma ParseComplete(buf: string, m: Message)
    requires Sentence(CString(buf), m, 1)
    ensures Parse(buf) == Some(m)
  {
    hide CString, ParseJoin, ParseAuth, ParseSpeech, ParseReply, IsToken, IsDisplayName, IsContent, Framed, BodyOf, Sentence;
    var t := CString(buf);
    SentenceSplit(t, m);
    FramedBody(Keyword(m), BodyOf(m));
    BodyParses(m);
    if !m.Join? { Unframed(t, m, "JOIN"); }
    if !m.Auth? { Unframed(t, m, "AUTH"); }
    if !m.Msg? { Unframed(t, m, "MSG FROM"); }
    if !m.Err? { Unframed(t, m, "ERR FROM"); }
    if !(m.Reply? && m.result) { Unframed(t, m, "REPLY OK"); }
    if !(m.Reply? && !m.result) { Unframed(t, m, "REPLY NOK"); }
    if m.Bye? {
      EmptyBody(m);
      assert "BYE" + "" + CRLF == "BYE" + CRLF;
    }
  }

  lemma EmptyBody(m: Message)
    ensures m.Bye? ==> BodyOf(m) == ""
  {
  }

  lemma BodyParses(m: Message)
    requires Accepted(m) && m == m.WithoutIds()
    ensures m.Join? ==> ParseJoin(BodyOf(m)) == Some(m)
    ensures m.Auth? ==> ParseAuth(BodyOf(m)) == Some(m)
    ensures m.Msg? || m.Err? ==> ParseSpeech(BodyOf(m)) == Some((m.displayName, m.content))
    ensures m.Reply? ==> ParseReply(BodyOf(m), m.result) == Some(m)
  {
    hide ParseJoin, ParseAuth, ParseSpeech, ParseReply, IsToken, IsDisplayName, IsContent;
    match m
    case Join(_, _, _) => JoinBody(BodyOf(m), m);
    case Auth(_, _, _, _) => AuthBody(BodyOf(m), m);
    case Msg(_, name, content) => SpeechBody(BodyOf(m), name, content);
    case Err(_, name, content) => SpeechBody(BodyOf(m), name, content);
    case Reply(_, result, _, _) => ReplyBody(BodyOf(m), result, m);
    case _ =>
  }

  // ----- Theorems -----

  /** The parser accepts exactly the documented grammar with each upper bound raised by one. */
  lemma ParseIsGrammar(buf: string, m: Message)
    ensures Parse(buf) == Some(m) <==> Sentence(CString(buf), m, 1)
  {
    hide Parse, Sentence, CString;
    if Parse(buf) == Some(m) { ParseSound(buf, m); }
    if Sentence(CString(buf), m, 1) { ParseComplete(buf, m); }
  }

  /** In particular every sentence of the documented grammar, read case-sensitively. */
  lemma ParseAcceptsDocumented(buf: string, m: Message)
    requires Sentence(CString(buf), m, 0)
    ensures Parse(buf) == Some(m)
  {
    hide Parse, CString;
    assert Sentence(CString(buf), m, 1);
    ParseComplete(buf, m);
  }

  /** What is parsed is a sentence of the documented grammar exactly when no field is one character too long. */
  lemma DocumentedIffWithin(buf: string, m: Message)
    requires Parse(buf) == Some(m)
    ensures Sentence(CString(buf), m, 0) <==> FieldsWithin(m, 0)
  {
    hide Parse, CString;
    ParseSound(buf, m);
  }

  /** A display name of 21 characters is parsed, although the text is no sentence of the grammar. */
  lemma OneTooLong()
    ensures var name := "ddddddddddddddddddddd";
            var text := "JOIN" + " " + "c" + " AS " + name + CRLF;
            Parse(text) == Some(Join(0, "c", name)) && forall m :: !Sentence(text, m, 0)
  {
    hide Parse, CString;
    var name := "ddddddddddddddddddddd";
    var text := "JOIN" + " " + "c" + " AS " + name + CRLF;
    var j := Join(0, "c", name);
    assert IsToken("c", 21) && IsDisplayName(name, 21);
    assert Sentence(text, j, 1);
    SentencePrintable(text, j);
    ParseComplete(text, j);
    forall m ensures !Sentence(text, m, 0) {
      if Sentence(text, m, 0) {
        assert Sentence(text, m, 1);
        UniqueSplit(text, m, j);
        assert false;
      }
    }
  }

  lemma UpperCaseFirst(t: string, m: Message)
    requires Sentence(t, m, 1)
    ensures t != "" && t[0] in {'A', 'B', 'E', 'J', 'M', 'R'}
  {
  }

  /** Keywords in lower case, which RFC 5234 admits, are not parsed. */
  lemma LowerCaseRejected()
    ensures Parse("bye" + CRLF) == None
  {
    hide Parse, CString, Sentence;
    var text := "bye" + CRLF;
    assert text[0] == 'b' && '\0' !in text;
    if Parse(text).Some? {
      ParseSound(text, Parse(text).value);
      UpperCaseFirst(text, Parse(text).value);
    }
  }

  /** A text has at most one division into fields. */
  lemma UniqueSplit(t: string, m: Message, n: Message)
    requires Sentence(t, m, 1) && Sentence(t, n, 1)
    ensures m == n
  {
    hide Parse;
    SentencePrintable(t, m);
    ParseComplete(t, m);
    ParseComplete(t, n);
  }

  ghost predicate NulFree(s: string) { forall i | 0 <= i < |s| :: s[i] != '\0' }

  lemma NulFreeConcat(a: string, b: string)
    requires NulFree(a) && NulFree(b)
    ensures NulFree(a + b)
  {
  }

  lemma FieldsNulFree(s: string, bound: nat)
    ensures IsToken(s, bound) || IsDisplayName(s, bound) || IsContent(s, bound) ==> NulFree(s)
  {
  }

  lemma PartNulFree(key: string, field: string, rest: string)
    requires NulFree(key) && NulFree(field) && NulFree(rest)
    ensures NulFree(key + field) && NulFree(key + field + rest)
  {
    NulFreeConcat(key, field);
    NulFreeConcat(key + field, rest);
  }

  lemma BodyNulFree(m: Message)
    requires Accepted(m)
    ensures NulFree(BodyOf(m))
  {
    hide NulFree, IsToken, IsDisplayName, IsContent;
    assert NulFree("") && NulFree(" ") && NulFree(" AS ") && NulFree(" USING ") && NulFree(" IS ") by { LiteralsNulFree(); }
    match m
    case Reply(_, _, _, content) =>
      FieldsNulFree(content, CONTENT_LENGTH + 1);
      PartNulFree(" IS ", content, "");
    case Auth(_, user, name, secret) =>
      FieldsNulFree(user, ID_LENGTH + 1);
      FieldsNulFree(name, ID_LENGTH + 1);
      FieldsNulFree(secret, SECRET_LENGTH + 1);
      PartNulFree(" USING ", secret, "");
      PartNulFree(" AS ", name, " USING " + secret + "");
      PartNulFree(" ", user, " AS " + name + (" USING " + secret + ""));
    case Join(_, channel, name) =>
      FieldsNulFree(channel, ID_LENGTH + 1);
      FieldsNulFree(name, ID_LENGTH + 1);
      PartNulFree(" AS ", name, "");
      PartNulFree(" ", channel, " AS " + name + "");
    case Msg(_, name, content) => SpeechNulFree(name, content);
    case Err(_, name, content) => SpeechNulFree(name, content);
    case _ =>
  }

  lemma SpeechNulFree(name: string, content: string)
    requires IsDisplayName(name, ID_LENGTH + 1) && IsContent(content, CONTENT_LENGTH + 1)
    ensures NulFree(" " + name + (" IS " + content))
  {
    hide NulFree, IsDisplayName, IsContent;
    LiteralsNulFree();
    FieldsNulFree(name, ID_LENGTH + 1);
    FieldsNulFree(content, CONTENT_LENGTH + 1);
    PartNulFree(" IS ", content, "");
    PartNulFree(" ", name, " IS " + content);
  }

  lemma LiteralsNulFree()
    ensures NulFree("") && NulFree(" ") && NulFree(" AS ") && NulFree(" USING ") && NulFree(" IS ") && NulFree(CRLF)
  {
  }

  lemma SentencePrintable(t: string, m: Message)
    requires Sentence(t, m, 1)
    ensures CString(t) == t
  {
    hide Sentence, BodyOf, CString;
    SentenceSplit(t, m);
    LiteralsNulFree();
    BodyNulFree(m);
    assert NulFree(Keyword(m));
    PartNulFree(Keyword(m), BodyOf(m), CRLF);
  }

  lemma ComposeIsSentence(m: Message)
    requires Accepted(m) && !m.Confirm?
    ensures Sentence(Compose(m), m.WithoutIds(), 1)
  {
    hide IsToken, IsDisplayName, IsContent;
    match m
    case Reply(_, result, _, content) => assert "REPLY" + " " == "REPLY ";
    case Auth(_, _, _, _) => assert "AUTH" + " " == "AUTH ";
    case Join(_, _, _) => assert "JOIN" + " " == "JOIN ";
    case Msg(_, _, _) => assert "MSG FROM" + " " == "MSG FROM ";
    case Err(_, _, _) => assert "ERR FROM" + " " == "ERR FROM ";
    case Bye(_) =>
  }

  /** Parsing what was composed restores every message but a CONFIRM, up to its identifiers. */
  lemma RoundTrip(m: Message)
    requires Accepted(m) && !m.Confirm?
    ensures Parse(Compose(m)) == Some(m.WithoutIds())
  {
    hide Parse, Compose, Sentence;
    ComposeIsSentence(m);
    SentencePrintable(Compose(m), m.WithoutIds());
    ParseComplete(Compose(m), m.WithoutIds());
  }
}
