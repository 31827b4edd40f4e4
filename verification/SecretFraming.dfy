/**
 * How a secret is written as text and read back: written by Email/server/crypto.js,
 * read there and by backend/import_email_folder.py (`decrypt_node_pass`).
 *
 * The text is "iv.tag.ciphertext", each part in unpadded base64url (section 5 of
 * RFC 4648). The cipher and UTF-8 are parameters.
 */
module SecretFraming {
  import opened Common

  type byte = x: int | 0 <= x < 256
  type sextet = x: int | 0 <= x < 64

  // ------------------------------------------------------------------- base64url

  function CharOf(v: sextet): char
  {
    if v < 26 then 'A' + v as char
    else if v < 52 then 'a' + (v - 26) as char
    else if v < 62 then '0' + (v - 52) as char
    else if v == 62 then '-' else '_'
  }

  /** Both readers also take the characters of plain base64. */
  function ValueOf(c: char): Option<sextet>
  {
    if 'A' <= c <= 'Z' then Some(c as int - 'A' as int)
    else if 'a' <= c <= 'z' then Some(c as int - 'a' as int + 26)
    else if '0' <= c <= '9' then Some(c as int - '0' as int + 52)
    else if c == '-' || c == '+' then Some(62)
    else if c == '_' || c == '/' then Some(63)
    else None
  }

  /** The six-bit groups of three bytes; zero bits fill up the last group of fewer. */
  function Sextet0(a: byte): sextet { (a as int) / 4 }
  function Sextet1(a: byte, b: int): sextet requires 0 <= b < 256 { (a as int) % 4 * 16 + b / 16 }
  function Sextet2(b: byte, c: int): sextet requires 0 <= c < 256 { (b as int) % 16 * 4 + c / 64 }
  function Sextet3(c: byte): sextet { (c as int) % 64 }

  function Sextets(b: seq<byte>): seq<sextet>
  {
    if |b| == 0 then []
    else if |b| == 1 then [Sextet0(b[0]), Sextet1(b[0], 0)]
    else if |b| == 2 then [Sextet0(b[0]), Sextet1(b[0], b[1]), Sextet2(b[1], 0)]
    else [Sextet0(b[0]), Sextet1(b[0], b[1]), Sextet2(b[1], b[2]), Sextet3(b[2])] + Sextets(b[3..])
  }

  function Chars(v: seq<sextet>): string
  {
    seq(|v|, i requires 0 <= i < |v| => CharOf(v[i]))
  }

  /** `toString('base64url')`. */
  function Encode(b: seq<byte>): string { Chars(Sextets(b)) }

  function Values(s: string): Option<seq<sextet>>
  {
    if s == "" then Some([])
    else
      var rest := Values(s[1..]);
      if ValueOf(s[0]).None? || rest.None? then None else Some([ValueOf(s[0]).value] + rest.value)
  }

  /** Six bits and the next two, four and the next four, two and the last six. */
  function Byte0(a: sextet, b: sextet): byte { (a as int) * 4 + (b as int) / 16 }
  function Byte1(b: sextet, c: sextet): byte { (b as int) % 16 * 16 + (c as int) / 4 }
  function Byte2(c: sextet, d: sextet): byte { (c as int) % 4 * 64 + d as int }

  /** The bytes of whole groups of four, and of two or three left over; the bits left over are dropped. */
  function Bytes(v: seq<sextet>): seq<byte>
  {
    if |v| < 2 then []
    else if |v| == 2 then [Byte0(v[0], v[1])]
    else if |v| == 3 then [Byte0(v[0], v[1]), Byte1(v[1], v[2])]
    else [Byte0(v[0], v[1]), Byte1(v[1], v[2]), Byte2(v[2], v[3])] + Bytes(v[4..])
  }

  /** `Buffer.from(s, 'base64url')`. */
  function DecodeUnpadded(s: string): Option<seq<byte>>
  {
    var v := Values(s);
    if v.None? then None else Some(Bytes(v.value))
  }

  const PADDING: string := "==="

  /** `s += "=" * ((4 - len(s) % 4) % 4)`. */
  function Pad(s: string): (r: string)
    ensures |r| % 4 == 0 && s <= r
  {
    s + PADDING[..(4 - |s| % 4) % 4]
  }

  function PaddingOf(s: string): nat
    requires |s| % 4 == 0
  {
    if |s| == 0 || s[|s| - 1] != '=' then 0 else if s[|s| - 2] != '=' then 1 else 2
  }

  /** `base64.urlsafe_b64decode`, which wants whole groups of four. */
  function DecodePadded(s: string): Option<seq<byte>>
  {
    if |s| % 4 != 0 then None
    else
      var v := Values(s[..|s| - PaddingOf(s)]);
      if v.None? then None else Some(Bytes(v.value))
  }

  // ------------------------------------------------------------------ the text

  /** `split('.')`. */
  function Split(s: string): (parts: seq<string>)
    ensures |parts| >= 1
  {
    if s == "" then [""]
    else
      var rest := Split(s[1..]);
      if s[0] == '.' then [""] + rest else [[s[0]] + rest[0]] + rest[1..]
  }

  /**
   * The cipher under one key, and UTF-8. Where bytes are not valid the JavaScript
   * reader puts replacement characters in the text and Python raises.
   */
  datatype Crypto = Crypto(
    seal: (seq<byte>, seq<byte>) -> (seq<byte>, seq<byte>),
    unseal: (seq<byte>, seq<byte>, seq<byte>) -> Option<seq<byte>>,
    utf8: string -> seq<byte>,
    text: seq<byte> -> string,
    valid: seq<byte> -> bool)

  const TAG_LENGTH: nat := 16

  /** What is asked of them: tags are sixteen bytes, opening undoes sealing and decoding undoes encoding. */
  ghost predicate Sound(c: Crypto)
  {
    && (forall iv, plain :: |c.seal(iv, plain).0| == TAG_LENGTH)
    && (forall iv, plain :: c.unseal(iv, c.seal(iv, plain).0, c.seal(iv, plain).1) == Some(plain))
    && (forall s :: c.text(c.utf8(s)) == s && c.valid(c.utf8(s)))
  }

  /** `encryptSecret`, with its random iv. */
  function EncryptSecret(c: Crypto, iv: seq<byte>, plain: string): string
  {
    if plain == "" then ""
    else
      var (tag, data) := c.seal(iv, c.utf8(plain));
      Encode(iv) + "." + Encode(tag) + "." + Encode(data)
  }

  /** `decryptSecret`: the first three parts, any more are ignored; None stands for null. */
  function DecryptSecret(c: Crypto, payload: string): Option<string>
  {
    var parts := Split(payload);
    if payload == "" || |parts| < 3 then None
    else
      var iv, tag, data := DecodeUnpadded(parts[0]), DecodeUnpadded(parts[1]), DecodeUnpadded(parts[2]);
      if iv.None? || tag.None? || data.None? then None
      else
        var plain := c.unseal(iv.value, tag.value, data.value);
        if plain.None? then None else Some(c.text(plain.value))
  }

  /** `AESGCM.decrypt`: the tag is the last sixteen bytes of what it is given. */
  function UnsealJoined(c: Crypto, iv: seq<byte>, joined: seq<byte>): Option<seq<byte>>
  {
    if |joined| < TAG_LENGTH then None
    else c.unseal(iv, joined[|joined| - TAG_LENGTH..], joined[..|joined| - TAG_LENGTH])
  }

  /** The Python reader without its fallback; None stands for an exception. */
  function DecryptNative(c: Crypto, parts: seq<string>): Option<string>
    requires |parts| == 3
  {
    var iv, tag, data := DecodePadded(Pad(parts[0])), DecodePadded(Pad(parts[1])), DecodePadded(Pad(parts[2]));
    if iv.None? || tag.None? || data.None? then None
    else
      var plain := UnsealJoined(c, iv.value, data.value + tag.value);
      if plain.None? || !c.valid(plain.value) then None else Some(c.text(plain.value))
  }

  /** What `str.strip` takes off. */
  predicate IsSpace(c: char)
  {
    || '\t' <= c <= '\r' || '\U{001C}' <= c <= ' ' || c == '\U{0085}' || c == '\U{00A0}' || c == '\U{1680}'
    || '\U{2000}' <= c <= '\U{200A}' || c in {'\U{2028}', '\U{2029}', '\U{202F}', '\U{205F}', '\U{3000}'}
  }

  function TrimStart(s: string): string
  {
    if s != "" && IsSpace(s[0]) then TrimStart(s[1..]) else s
  }

  function TrimEnd(s: string): string
  {
    if s != "" && IsSpace(s[|s| - 1]) then TrimEnd(s[..|s| - 1]) else s
  }

  /** Reading a process's output as text makes every line end a newline. */
  function Newlines(s: string): string
  {
    if s == "" then ""
    else if s[0] != '\r' then [s[0]] + Newlines(s[1..])
    else if |s| > 1 && s[1] == '\n' then ['\n'] + Newlines(s[2..])
    else ['\n'] + Newlines(s[1..])
  }

  /** Each of the three line ends becomes one newline, and nothing else changes. */
  lemma NewlinesAre(c: char, s: string)
    ensures c != '\r' ==> Newlines([c] + s) == [c] + Newlines(s)
    ensures Newlines("\r\n" + s) == "\n" + Newlines(s)
    ensures (s == "" || s[0] != '\n') ==> Newlines("\r" + s) == "\n" + Newlines(s)
  {
    assert ([c] + s)[1..] == s && ("\r" + s)[1..] == s && ("\r\n" + s)[2..] == s;
  }

  /** What is left of a text that is printed on a line and read back from the process. */
  function Printed(s: string): string { TrimEnd(TrimStart(Newlines(s + "\n"))) }

  /** What a reader shows, nothing and null being the same. */
  function Reading(plain: Option<string>): string { if plain.Some? then plain.value else "" }

  /** `decrypt_node_pass`: exactly three parts; after an exception the other reader is asked, and prints what it has. */
  function DecryptNodePass(c: Crypto, payload: string): string
  {
    var parts := Split(payload);
    if |parts| != 3 then ""
    else
      var plain := DecryptNative(c, parts);
      if plain.Some? then plain.value
      else
        Printed(Reading(DecryptSecret(c, payload)))
  }

  // ------------------------------------------------------------- coding round trips

  lemma ValueOfChar(v: sextet)
    ensures ValueOf(CharOf(v)) == Some(v) && CharOf(v) != '=' && CharOf(v) != '.'
  {
  }

  ghost predicate Clean(s: string)
  {
    forall i :: 0 <= i < |s| ==> s[i] != '=' && s[i] != '.'
  }

  lemma CharsAreClean(v: seq<sextet>)
    ensures Clean(Chars(v))
  {
    forall i | 0 <= i < |v| ensures Chars(v)[i] != '=' && Chars(v)[i] != '.' {
      ValueOfChar(v[i]);
    }
  }

  lemma {:induction false} ValuesOfChars(v: seq<sextet>)
    ensures Values(Chars(v)) == Some(v)
  {
    if v != [] {
      var s := Chars(v);
      ValueOfChar(v[0]);
      ValuesOfChars(v[1..]);
      assert s[1..] == Chars(v[1..]);
      assert v == [v[0]] + v[1..];
    }
  }

  lemma SplitBytes(a: byte, b: byte, c: byte)
    ensures Byte0(Sextet0(a), Sextet1(a, b)) == a
    ensures Byte1(Sextet1(a, b), Sextet2(b, c)) == b
    ensures Byte2(Sextet2(b, c), Sextet3(c)) == c
  {
  }

  lemma BytesOfGroup(p: sextet, q: sextet, r: sextet, s: sextet, rest: seq<sextet>)
    ensures Bytes([p, q, r, s] + rest) == [Byte0(p, q), Byte1(q, r), Byte2(r, s)] + Bytes(rest)
  {
    assert ([p, q, r, s] + rest)[4..] == rest;
  }

  lemma BytesOfRest(p: sextet, q: sextet, r: sextet)
    ensures Bytes([p, q]) == [Byte0(p, q)] && Bytes([p, q, r]) == [Byte0(p, q), Byte1(q, r)]
  {
  }

  lemma BytesOfOne(a: byte)
    ensures Bytes([Sextet0(a), Sextet1(a, 0)]) == [a]
  {
    BytesOfRest(Sextet0(a), Sextet1(a, 0), 0);
    SplitBytes(a, 0, 0);
  }

  lemma BytesOfTwo(a: byte, b: byte)
    ensures Bytes([Sextet0(a), Sextet1(a, b), Sextet2(b, 0)]) == [a, b]
  {
    BytesOfRest(Sextet0(a), Sextet1(a, b), Sextet2(b, 0));
    SplitBytes(a, b, 0);
  }

  lemma {:induction false} BytesOfSextets(b: seq<byte>)
    ensures Bytes(Sextets(b)) == b
  {
    if |b| == 1 {
      BytesOfOne(b[0]);
      assert b == [b[0]];
    } else if |b| == 2 {
      BytesOfTwo(b[0], b[1]);
      assert b == [b[0], b[1]];
    } else if |b| >= 3 {
      var rest := Sextets(b[3..]);
      assert Sextets(b) == [Sextet0(b[0]), Sextet1(b[0], b[1]), Sextet2(b[1], b[2]), Sextet3(b[2])] + rest;
      BytesOfSextets(b[3..]);
      BytesOfGroup(Sextet0(b[0]), Sextet1(b[0], b[1]), Sextet2(b[1], b[2]), Sextet3(b[2]), rest);
      SplitBytes(b[0], b[1], b[2]);
      assert b == [b[0], b[1], b[2]] + b[3..];
    }
  }

  /** Unpadded base64url can be read back whatever the number of bytes. */
  lemma DecodeUndoesEncode(b: seq<byte>)
    ensures DecodeUnpadded(Encode(b)) == Some(b) && Clean(Encode(b))
  {
    var v := Sextets(b);
    BytesOfSextets(b);
    ValuesOfChars(v);
    CharsAreClean(v);
  }

  /** Its length: four for three bytes, one more than what is left over; so never one more than fours. */
  lemma {:induction false} LengthOfEncoded(b: seq<byte>, groups: nat, left: nat)
    requires |b| == 3 * groups + left && left < 3
    ensures |Encode(b)| == 4 * groups + (if left == 0 then 0 else left + 1)
  {
    if groups > 0 {
      LengthOfEncoded(b[3..], groups - 1, left);
      assert |Sextets(b)| == 4 + |Sextets(b[3..])|;
    }
  }

  lemma NeverOneMore(b: seq<byte>)
    ensures |Encode(b)| % 4 != 1
  {
    var groups, left := |b| / 3, |b| % 3;
    LengthOfEncoded(b, groups, left);
    FoursAndMore(|Encode(b)|, groups, if left == 0 then 0 else left + 1);
  }

  lemma FoursAndMore(n: nat, groups: nat, more: nat)
    requires n == 4 * groups + more && more < 4
    ensures n % 4 == more
  {
  }

  /** So can it after filling it up with '='. */
  lemma DecodeUndoesPaddedEncode(b: seq<byte>)
    ensures DecodePadded(Pad(Encode(b))) == Some(b)
  {
    DecodeUndoesEncode(b);
    assert |Encode(b)| % 4 != 1 by {
      NeverOneMore(b);
    }
    PaddedAsUnpadded(Encode(b));
  }

  // ---------------------------------------------------------------- reading it back

  lemma {:induction false} SplitFirst(s: string, rest: string)
    requires Clean(s)
    ensures Split(s + "." + rest) == [s] + Split(rest)
  {
    var all := s + "." + rest;
    if s == "" {
      assert all[0] == '.' && all[1..] == rest;
    } else {
      SplitFirst(s[1..], rest);
      assert all[0] == s[0] && all[1..] == s[1..] + "." + rest;
      assert [s[0]] + s[1..] == s;
    }
  }

  lemma {:induction false} SplitLast(s: string)
    requires Clean(s)
    ensures Split(s) == [s]
  {
    if s != "" {
      SplitLast(s[1..]);
      assert [s[0]] + s[1..] == s;
    }
  }

  lemma SplitThree(a: string, b: string, c: string)
    requires Clean(a) && Clean(b) && Clean(c)
    ensures Split(a + "." + b + "." + c) == [a, b, c]
  {
    assert a + "." + b + "." + c == a + "." + (b + "." + c);
    SplitFirst(a, b + "." + c);
    SplitFirst(b, c);
    SplitLast(c);
  }

  /** Both readers recover every non-empty secret, whatever its length and that of the iv. */
  lemma ReadersUndoWriter(c: Crypto, iv: seq<byte>, plain: string)
    requires Sound(c) && plain != ""
    ensures var payload := EncryptSecret(c, iv, plain);
            DecryptSecret(c, payload) == Some(plain) && DecryptNodePass(c, payload) == plain
  {
    var (tag, data) := c.seal(iv, c.utf8(plain));
    var payload := EncryptSecret(c, iv, plain);
    DecodeUndoesEncode(iv);
    DecodeUndoesEncode(tag);
    DecodeUndoesEncode(data);
    SplitThree(Encode(iv), Encode(tag), Encode(data));
    assert Split(payload) == [Encode(iv), Encode(tag), Encode(data)];
    assert DecryptSecret(c, payload) == Some(plain);
    DecodeUndoesPaddedEncode(iv);
    DecodeUndoesPaddedEncode(tag);
    DecodeUndoesPaddedEncode(data);
    assert UnsealJoined(c, iv, data + tag) == c.unseal(iv, tag, data) by {
      var joined := data + tag;
      assert joined[|joined| - TAG_LENGTH..] == tag && joined[..|joined| - TAG_LENGTH] == data;
    }
  }

  /** The empty secret is written as nothing, which neither reader takes for a secret. */
  lemma EmptySecret(c: Crypto, iv: seq<byte>)
    ensures EncryptSecret(c, iv, "") == "" && DecryptSecret(c, "") == None && DecryptNodePass(c, "") == ""
  {
  }

  /** With another part behind the third the two readers differ: one ignores it, the other refuses. */
  lemma FourthPart(c: Crypto, iv: seq<byte>, plain: string, more: string)
    requires Sound(c) && plain != ""
    ensures var payload := EncryptSecret(c, iv, plain) + "." + more;
            DecryptSecret(c, payload) == Some(plain) && DecryptNodePass(c, payload) == ""
  {
    var (tag, data) := c.seal(iv, c.utf8(plain));
    DecodeUndoesEncode(iv);
    DecodeUndoesEncode(tag);
    DecodeUndoesEncode(data);
    var a, b, d := Encode(iv), Encode(tag), Encode(data);
    var payload := EncryptSecret(c, iv, plain) + "." + more;
    assert Split(payload) == [a] + ([b] + ([d] + Split(more))) by {
      assert payload == a + "." + (b + "." + (d + "." + more));
      SplitFirst(a, b + "." + (d + "." + more));
      SplitFirst(b, d + "." + more);
      SplitFirst(d, more);
    }
  }

  // ------------------------------------------------------- where the readers agree

  predicate Agree(c: Crypto, payload: string) { DecryptNodePass(c, payload) == Reading(DecryptSecret(c, payload)) }

  /** Only characters of base64 or base64url, and dots. */
  ghost predicate Plain(payload: string)
  {
    forall i :: 0 <= i < |payload| ==> payload[i] == '.' || ValueOf(payload[i]).Some?
  }

  ghost predicate Word(s: string) { forall i :: 0 <= i < |s| ==> ValueOf(s[i]).Some? }

  lemma {:induction false} PartsAreWords(s: string)
    requires Plain(s)
    ensures forall k :: 0 <= k < |Split(s)| ==> Word(Split(s)[k])
  {
    if s != "" {
      PartsAreWords(s[1..]);
      var rest := Split(s[1..]);
      assert Word(rest[0]);
    }
  }

  lemma {:induction false} WordDecodes(s: string)
    requires Word(s)
    ensures Values(s).Some? && Clean(s)
  {
    if s != "" {
      WordDecodes(s[1..]);
    }
  }

  /** The bytes of a part as the JavaScript reader sees them. */
  function Read(s: string): seq<byte>
  {
    var b := DecodeUnpadded(s);
    if b.Some? then b.value else []
  }

  /** The Python decoder refuses a part with one character too many and else reads it alike. */
  predicate ReadOrRefused(s: string) { DecodePadded(Pad(s)) == if |s| % 4 == 1 then None else Some(Read(s)) }

  /** There is a part with one character too many. */
  predicate Ragged(parts: seq<string>) { exists k :: 0 <= k < |parts| && |parts[k]| % 4 == 1 }

  /** Fewer than three parts, or exactly three, none ragged, with a tag of sixteen bytes. */
  predicate ReadAlike(payload: string)
  {
    var parts := Split(payload);
    |parts| < 3 || (|parts| == 3 && !Ragged(parts) && |Read(parts[1])| == TAG_LENGTH)
  }

  function TextOf(c: Crypto, plain: Option<seq<byte>>): Option<string>
  {
    if plain.None? then None else Some(c.text(plain.value))
  }

  function StrictTextOf(c: Crypto, plain: Option<seq<byte>>): Option<string>
  {
    if plain.Some? && !c.valid(plain.value) then None else TextOf(c, plain)
  }

  lemma ReadOfWord(s: string)
    requires Word(s)
    ensures DecodeUnpadded(s) == Some(Read(s))
    ensures ReadOrRefused(s)
  {
    WordDecodes(s);
    if |s| % 4 == 1 {
      OneTooMany(s);
    } else {
      PaddedAsUnpadded(s);
    }
  }

  /** What is asked of the cipher by the JavaScript reader. */
  lemma ScriptUnseals(c: Crypto, payload: string)
    requires Plain(payload) && |Split(payload)| >= 3
    ensures var parts := Split(payload);
            DecryptSecret(c, payload) == TextOf(c, c.unseal(Read(parts[0]), Read(parts[1]), Read(parts[2])))
  {
    var parts := Split(payload);
    PartsAreWords(payload);
    ReadOfWord(parts[0]);
    ReadOfWord(parts[1]);
    ReadOfWord(parts[2]);
  }

  /** And by the Python reader. */
  lemma PythonUnseals(c: Crypto, parts: seq<string>)
    requires |parts| == 3 && ReadOrRefused(parts[0]) && ReadOrRefused(parts[1]) && ReadOrRefused(parts[2])
    ensures DecryptNative(c, parts) ==
            if Ragged(parts) then None
            else StrictTextOf(c, UnsealJoined(c, Read(parts[0]), Read(parts[2]) + Read(parts[1])))
  {
    assert Ragged(parts) <==> |parts[0]| % 4 == 1 || |parts[1]| % 4 == 1 || |parts[2]| % 4 == 1;
  }

  lemma {:induction false} NoValueOfPadding(s: string, i: nat)
    requires i < |s| && s[i] == '='
    ensures Values(s).None?
  {
    if i > 0 {
      NoValueOfPadding(s[1..], i - 1);
    }
  }

  lemma OneTooMany(s: string)
    requires Clean(s) && |s| % 4 == 1
    ensures DecodePadded(Pad(s)) == None
  {
    var padded := Pad(s);
    assert PaddingOf(padded) == 2 && |padded| == |s| + 3;
    NoValueOfPadding(padded[..|padded| - 2], |s|);
  }

  lemma NothingPrinted()
    ensures Printed("") == ""
  {
    assert Newlines("\n"[1..]) == "";
    assert Newlines("\n") == "\n";
    assert "" + "\n" == "\n";
  }

  /** With a tag of sixteen bytes both readers ask the cipher the same. */
  lemma SameQuestion(c: Crypto, parts: seq<string>)
    requires |parts| == 3 && |Read(parts[1])| == TAG_LENGTH
    ensures UnsealJoined(c, Read(parts[0]), Read(parts[2]) + Read(parts[1])) ==
            c.unseal(Read(parts[0]), Read(parts[1]), Read(parts[2]))
  {
    var tag, data := Read(parts[1]), Read(parts[2]);
    var joined := data + tag;
    assert joined[|joined| - TAG_LENGTH..] == tag && joined[..|joined| - TAG_LENGTH] == data;
  }

  /** What the JavaScript reader opens, if it opens anything, is valid UTF-8. */
  predicate OpensValid(c: Crypto, payload: string)
  {
    var parts := Split(payload);
    |parts| >= 3 ==>
      var plain := c.unseal(Read(parts[0]), Read(parts[1]), Read(parts[2])); plain.Some? ==> c.valid(plain.value)
  }

  /**
   * Where the readers agree with one cipher, when tags are sixteen bytes: if the
   * JavaScript reader has nothing to show, or there are three parts and either none is
   * ragged and what was opened is valid, or what it shows survives being printed.
   */
  lemma ReadersAgree(c: Crypto, payload: string)
    requires Plain(payload) && (|Split(payload)| == 3 ==> |Read(Split(payload)[1])| == TAG_LENGTH)
    ensures var shown, parts := Reading(DecryptSecret(c, payload)), Split(payload);
            Agree(c, payload) <==>
              || shown == ""
              || (|parts| == 3 && ((!Ragged(parts) && OpensValid(c, payload)) || Printed(shown) == shown))
  {
    var parts := Split(payload);
    NothingPrinted();
    if |parts| == 3 {
      PartsAreWords(payload);
      ScriptUnseals(c, payload);
      ReadOfWord(parts[0]);
      ReadOfWord(parts[1]);
      ReadOfWord(parts[2]);
      PythonUnseals(c, parts);
      SameQuestion(c, parts);
    }
  }

  /**
   * A cipher that opens only what comes with a tag of sixteen bytes, or whatever it is given; the
   * text starts with a space.
   */
  function Opening(picky: bool): Crypto
  {
    Crypto((iv, plain) => ([], plain),
           (iv, tag: seq<byte>, data) => if picky && |tag| != TAG_LENGTH then None else Some([]),
           plain => [], b => " x", b => true)
  }

  lemma SpaceIsTrimmed()
    ensures Printed(" x") == "x"
  {
    assert " x" + "\n" == " x\n" && " x\n"[1..] == "x\n" && "x\n"[1..] == "\n" && "\n"[1..] == "";
    assert Newlines("") == "" && Newlines("\n") == "\n" && Newlines("x\n") == "x\n" && Newlines(" x\n") == " x\n";
    assert TrimStart("x\n") == "x\n";
    assert TrimStart(" x\n") == TrimStart(" x\n"[1..]) == "x\n";
    assert "x\n"[..1] == "x";
    assert TrimEnd("x\n") == TrimEnd("x\n"[..1]) == "x";
  }

  /** Only that cipher can be asked something the other reader does not ask: a tag from elsewhere. */
  predicate AsksElsewhere(parts: seq<string>)
  {
    |parts| == 3 && !Ragged(parts) && |Read(parts[1])| + |Read(parts[2])| >= TAG_LENGTH
  }

  lemma OthersDisagree(payload: string)
    requires Plain(payload) && !ReadAlike(payload)
    ensures !Agree(Opening(AsksElsewhere(Split(payload))), payload)
  {
    var parts := Split(payload);
    var c := Opening(AsksElsewhere(parts));
    SpaceIsTrimmed();
    PartsAreWords(payload);
    ScriptUnseals(c, payload);
    if |parts| == 3 {
      ReadOfWord(parts[0]);
      ReadOfWord(parts[1]);
      ReadOfWord(parts[2]);
      PythonUnseals(c, parts);
    }
  }

  /**
   * The exact condition: on which texts the readers agree, whatever the cipher, as long as it opens
   * valid texts only.
   */
  lemma ReadersAgreeExactly(payload: string)
    requires Plain(payload)
    ensures (forall c: Crypto :: OpensValid(c, payload) ==> Agree(c, payload)) <==> ReadAlike(payload)
  {
    if ReadAlike(payload) {
      forall c: Crypto | OpensValid(c, payload) ensures Agree(c, payload) {
        ReadersAgree(c, payload);
      }
    } else {
      OthersDisagree(payload);
      assert OpensValid(Opening(AsksElsewhere(Split(payload))), payload);
    }
  }

  /** On text without '=' the two decoders agree. */
  lemma PaddedAsUnpadded(s: string)
    requires Clean(s) && |s| % 4 != 1
    ensures DecodePadded(Pad(s)) == DecodeUnpadded(s)
  {
    var padded := Pad(s);
    assert PaddingOf(padded) == |padded| - |s|;
    assert padded[..|s|] == s;
  }
}
