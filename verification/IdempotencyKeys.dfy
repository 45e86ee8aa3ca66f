/** Send keys: of a message, of its attachments, and of the chunks a long body is
    sent in. */
module IdempotencyKeys {
  import opened Common

  /** A chat id is a number, or `number#topic:number` for a topic of a forum. */
  datatype Chat = Plain(id: int) | Topic(id: int, topic: int)

  /** A send: the message itself or an attachment of it, whole or one chunk. */
  datatype Send = Send(platform: string, chat: Chat, message: int, attachment: Option<nat>, chunk: Option<nat>)

  function Digit(d: nat): char
    requires d < 10
  {
    '0' + d as char
  }

  function Digits(n: nat): string {
    if n < 10 then [Digit(n)] else Digits(n / 10) + [Digit(n % 10)]
  }

  /** `str(n)` */
  function Number(n: int): string {
    if n < 0 then "-" + Digits(-n) else Digits(n)
  }

  /** `_topic_source_chat_id` */
  function ChatId(chat: Chat): string {
    match chat
    case Plain(id) => Number(id)
    case Topic(id, topic) => Number(id) + "#topic:" + Number(topic)
  }

  /** `CanonicalMessage.idempotency_key` */
  function MessageKey(platform: string, chatId: string, messageId: string): string {
    platform + ":" + chatId + ":" + messageId
  }

  /** `_attachment_idempotency_key` and, for a chunk, `_chunk_idempotency_key` */
  function Key(s: Send): string {
    var base := MessageKey(s.platform, ChatId(s.chat), Number(s.message));
    var whole := if s.attachment.Some? then base + ":attachment:" + Number(s.attachment.value) else base;
    if s.chunk.Some? then whole + ":chunk:" + Number(s.chunk.value) else whole
  }

  // ----- decimal numbers

  function Value(s: string): int {
    if s == "" then 0 else Value(s[..|s| - 1]) * 10 + (s[|s| - 1] as int - '0' as int)
  }

  predicate IsDecimal(c: char) {
    '0' <= c <= '9'
  }

  lemma {:induction false} DigitsAreDecimal(n: nat)
    ensures Digits(n) != "" && forall c | c in Digits(n) :: IsDecimal(c)
    ensures Value(Digits(n)) == n
  {
    if n < 10 {
      assert [Digit(n)][..0] == "";
    } else {
      DigitsAreDecimal(n / 10);
      var s := Digits(n);
      assert s[..|s| - 1] == Digits(n / 10);
    }
  }

  predicate IsNumeral(s: string) {
    forall c | c in s :: c == '-' || IsDecimal(c)
  }

  lemma NumberIsInjective(m: int, n: int)
    ensures IsNumeral(Number(m)) && (Number(m) == Number(n) ==> m == n)
  {
    DigitsAreDecimal(if m < 0 then -m else m);
    DigitsAreDecimal(if n < 0 then -n else n);
    if Number(m) == Number(n) {
      assert m >= 0 ==> Number(m)[0] in Digits(m);
      assert n >= 0 ==> Number(n)[0] in Digits(n);
      if m < 0 {
        assert Number(m)[1..] == Digits(-m) && Number(n)[1..] == Digits(-n);
      }
    }
  }

  // ----- parts between colons

  predicate IsPart(s: string) {
    ':' !in s
  }

  /** `":".join(parts)` */
  function Joined(parts: seq<string>): string
    requires parts != []
  {
    if |parts| == 1 then parts[0] else parts[0] + ":" + Joined(parts[1..])
  }

  /** The text before the first colon. */
  function Head(s: string): string {
    if s == "" || s[0] == ':' then "" else [s[0]] + Head(s[1..])
  }

  lemma {:induction false} HeadOfPart(p: string, rest: string)
    requires IsPart(p)
    ensures Head(p) == p && Head(p + ":" + rest) == p
  {
    if p == "" {
      assert p + ":" + rest == ":" + rest;
    } else {
      assert p[0] in p && IsPart(p[1..]);
      HeadOfPart(p[1..], rest);
      assert (p + ":" + rest)[1..] == p[1..] + ":" + rest;
    }
  }

  /** Parts without colons can be read back from their join. */
  lemma {:induction false} JoinIsInjective(a: seq<string>, b: seq<string>)
    requires a != [] && b != [] && Joined(a) == Joined(b)
    requires forall p | p in a :: IsPart(p)
    requires forall p | p in b :: IsPart(p)
    ensures a == b
  {
    assert a[0] in a && b[0] in b;
    HeadOfPart(a[0], if |a| == 1 then "" else Joined(a[1..]));
    HeadOfPart(b[0], if |b| == 1 then "" else Joined(b[1..]));
    assert Head(Joined(a)) == a[0] && Head(Joined(b)) == b[0];
    assert |Joined(a)| == |a[0]| <==> |a| == 1;
    assert |Joined(b)| == |b[0]| <==> |b| == 1;
    if |a| > 1 {
      assert Joined(a)[|a[0]| + 1..] == Joined(a[1..]) && Joined(b)[|b[0]| + 1..] == Joined(b[1..]);
      JoinIsInjective(a[1..], b[1..]);
      assert a == [a[0]] + a[1..] && b == [b[0]] + b[1..];
    }
  }

  function ChatParts(chat: Chat): seq<string> {
    match chat
    case Plain(id) => [Number(id)]
    case Topic(id, topic) => [Number(id) + "#topic", Number(topic)]
  }

  function Suffix(name: string, n: Option<nat>): seq<string> {
    if n.Some? then [name, Number(n.value)] else []
  }

  function Parts(s: Send): seq<string> {
    [s.platform] + ChatParts(s.chat) + [Number(s.message)] + Suffix("attachment", s.attachment) + Suffix("chunk", s.chunk)
  }

  lemma {:induction false} JoinMore(parts: seq<string>, more: seq<string>)
    requires parts != [] && more != []
    ensures Joined(parts + more) == Joined(parts) + ":" + Joined(more)
  {
    if |parts| == 1 {
      assert (parts + more)[1..] == more;
    } else {
      JoinMore(parts[1..], more);
      assert (parts + more)[1..] == parts[1..] + more;
    }
  }

  lemma JoinTwo(a: string, b: string)
    ensures Joined([a, b]) == a + ":" + b
  {
    assert [a, b][1..] == [b];
  }

  lemma ChatPartsJoin(chat: Chat)
    ensures Joined(ChatParts(chat)) == ChatId(chat)
  {
    if chat.Topic? {
      JoinTwo(Number(chat.id) + "#topic", Number(chat.topic));
      assert "#topic" + ":" == "#topic:";
    }
  }

  lemma SuffixJoins(parts: seq<string>, name: string, n: Option<nat>)
    requires parts != []
    ensures Joined(parts + Suffix(name, n)) ==
      if n.Some? then Joined(parts) + (":" + name + ":") + Number(n.value) else Joined(parts)
  {
    if n.Some? {
      JoinMore(parts, Suffix(name, n));
      JoinTwo(name, Number(n.value));
    } else {
      assert parts + Suffix(name, n) == parts;
    }
  }

  lemma KeyIsJoined(s: Send)
    ensures Joined(Parts(s)) == Key(s)
  {
    var chat := [s.platform] + ChatParts(s.chat);
    JoinMore([s.platform], ChatParts(s.chat));
    ChatPartsJoin(s.chat);
    JoinMore(chat, [Number(s.message)]);
    var base := chat + [Number(s.message)];
    assert Joined(base) == MessageKey(s.platform, ChatId(s.chat), Number(s.message));
    SuffixJoins(base, "attachment", s.attachment);
    SuffixJoins(base + Suffix("attachment", s.attachment), "chunk", s.chunk);
    assert ":" + "attachment" + ":" == ":attachment:" && ":" + "chunk" + ":" == ":chunk:";
  }

  lemma PartsAreParts(s: Send)
    requires IsPart(s.platform)
    ensures forall p | p in Parts(s) :: IsPart(p)
  {
    NumberIsInjective(s.chat.id, 0);
    NumberIsInjective(if s.chat.Topic? then s.chat.topic else 0, 0);
    NumberIsInjective(s.message, 0);
    NumberIsInjective(if s.attachment.Some? then s.attachment.value else 0, 0);
    NumberIsInjective(if s.chunk.Some? then s.chunk.value else 0, 0);
  }

  lemma ChatPartsAreInjective(a: Chat, b: Chat)
    ensures ChatParts(a) == ChatParts(b) ==> a == b
  {
    NumberIsInjective(a.id, b.id);
    if a.Topic? && b.Topic? {
      NumberIsInjective(a.topic, b.topic);
      if ChatParts(a) == ChatParts(b) {
        var x := Number(a.id) + "#topic";
        var y := Number(b.id) + "#topic";
        assert x == ChatParts(a)[0] && y == ChatParts(b)[0];
        assert x[..|x| - 6] == Number(a.id) && y[..|y| - 6] == Number(b.id);
      }
    }
  }

  /** The tail after the message id, by its length and its first word. */
  function Tail(s: Send): seq<string> {
    Suffix("attachment", s.attachment) + Suffix("chunk", s.chunk)
  }

  lemma TailIsInjective(a: Send, b: Send)
    requires Tail(a) == Tail(b)
    ensures a.attachment == b.attachment && a.chunk == b.chunk
  {
    assert "attachment"[0] == 'a' && "chunk"[0] == 'c';
    if a.attachment.Some? || b.attachment.Some? {
      assert Tail(a)[0] == Tail(b)[0] && Tail(a)[1] == Tail(b)[1];
      NumberIsInjective(a.attachment.value, b.attachment.value);
      assert Tail(a)[2..] == Suffix("chunk", a.chunk) && Tail(b)[2..] == Suffix("chunk", b.chunk);
    } else {
      assert Tail(a) == Suffix("chunk", a.chunk) && Tail(b) == Suffix("chunk", b.chunk);
    }
    assert Suffix("chunk", a.chunk) == Suffix("chunk", b.chunk);
    if a.chunk.Some? {
      assert Suffix("chunk", a.chunk)[1] == Suffix("chunk", b.chunk)[1];
      NumberIsInjective(a.chunk.value, b.chunk.value);
    }
  }

  /** The parts by position; their number is even exactly for a topic. */
  lemma PartsByPosition(s: Send)
    ensures var n := |ChatParts(s.chat)|;
      && n == (if s.chat.Topic? then 2 else 1)
      && |Parts(s)| == 2 + n + |Tail(s)| && |Tail(s)| % 2 == 0
      && Parts(s)[0] == s.platform
      && Parts(s)[1..1 + n] == ChatParts(s.chat)
      && Parts(s)[1 + n] == Number(s.message)
      && Parts(s)[2 + n..] == Tail(s)
  {
    assert Parts(s) == [s.platform] + ChatParts(s.chat) + [Number(s.message)] + Tail(s);
  }

  lemma PartsAreInjective(a: Send, b: Send)
    requires Parts(a) == Parts(b)
    ensures a == b
  {
    PartsByPosition(a);
    PartsByPosition(b);
    assert a.chat.Topic? <==> b.chat.Topic?;
    ChatPartsAreInjective(a.chat, b.chat);
    NumberIsInjective(a.message, b.message);
    TailIsInjective(a, b);
  }

  /** No two sends share a key: different messages, attachments or chunks have
      different keys, although topic chat ids contain the separator. */
  lemma KeysNeverCollide(a: Send, b: Send)
    requires IsPart(a.platform) && IsPart(b.platform)
    ensures Key(a) == Key(b) <==> a == b
  {
    if Key(a) == Key(b) {
      KeyIsJoined(a);
      KeyIsJoined(b);
      PartsAreParts(a);
      PartsAreParts(b);
      JoinIsInjective(Parts(a), Parts(b));
      PartsAreInjective(a, b);
    }
  }

  /** The form of the ids is what keeps keys apart: with free texts they collide. */
  lemma FreeTextsCollide()
    ensures MessageKey("telegram", "1:2", "3") == MessageKey("telegram", "1", "2:3")
  {
    assert MessageKey("telegram", "1:2", "3") == "telegram:1:2:3";
    assert MessageKey("telegram", "1", "2:3") == "telegram:1:2:3";
  }
}
