/** Re-encoding of stored vault keys. A key may have been written in any of four base64 spellings
    (sections 4 and 5 of RFC 4648, each with and without padding); the engine reads only the first. */
module VaultKey {
  import opened Options

  type byte = b: nat | b < 256
  type sextet = v: nat | v < 64

  datatype Alphabet = Standard | UrlSafe
  datatype Engine = Engine(alphabet: Alphabet, padded: bool)

  const STANDARD := Engine(Standard, true)
  const STANDARD_NO_PAD := Engine(Standard, false)
  const URL_SAFE := Engine(UrlSafe, true)
  const URL_SAFE_NO_PAD := Engine(UrlSafe, false)
  const ENGINES := [STANDARD, STANDARD_NO_PAD, URL_SAFE, URL_SAFE_NO_PAD]

  // ---- Symbols ---------------------------------------------------------------------------------

  function Symbol(a: Alphabet, v: sextet): char {
    if v < 26 then ('A' as int + v) as char
    else if v < 52 then ('a' as int + v - 26) as char
    else if v < 62 then ('0' as int + v - 52) as char
    else if v == 62 then (if a.Standard? then '+' else '-')
    else (if a.Standard? then '/' else '_')
  }

  function ValueOf(a: Alphabet, c: char): Option<sextet> {
    if 'A' <= c <= 'Z' then Some(c as int - 'A' as int)
    else if 'a' <= c <= 'z' then Some(c as int - 'a' as int + 26)
    else if '0' <= c <= '9' then Some(c as int - '0' as int + 52)
    else if c == (if a.Standard? then '+' else '-') then Some(62)
    else if c == (if a.Standard? then '/' else '_') then Some(63)
    else None
  }

  const LETTERS_AND_DIGITS := "ABCDEFGHIJKLMNOPQRSTUVWXYZ" + "abcdefghijklmnopqrstuvwxyz" + "0123456789"

  /** The tables of sections 4 and 5 of RFC 4648. */
  function Table(a: Alphabet): (s: string)
    ensures |s| == 64
  {
    LETTERS_AND_DIGITS + if a.Standard? then "+/" else "-_"
  }

  /** Each six-bit value is written as its entry in the table. */
  lemma SymbolInTable(a: Alphabet, v: sextet)
    ensures Symbol(a, v) == Table(a)[v]
  {
    assert forall i :: 0 <= i < 26 ==> "ABCDEFGHIJKLMNOPQRSTUVWXYZ"[i] == ('A' as int + i) as char;
    assert forall i :: 0 <= i < 26 ==> "abcdefghijklmnopqrstuvwxyz"[i] == ('a' as int + i) as char;
    assert forall i :: 0 <= i < 10 ==> "0123456789"[i] == ('0' as int + i) as char;
  }

  lemma SymbolValue(a: Alphabet, v: sextet)
    ensures ValueOf(a, Symbol(a, v)) == Some(v)
  {
  }

  lemma ValueSymbol(a: Alphabet, c: char)
    requires ValueOf(a, c).Some?
    ensures Symbol(a, ValueOf(a, c).value) == c && c != '='
  {
  }

  function Values(a: Alphabet, s: string): Option<seq<sextet>> {
    if s == "" then Some([])
    else
      match (ValueOf(a, s[0]), Values(a, s[1..]))
      case (Some(v), Some(vs)) => Some([v] + vs)
      case _ => None
  }

  function Symbols(a: Alphabet, vs: seq<sextet>): (s: string)
    ensures |s| == |vs|
  {
    seq(|vs|, i requires 0 <= i < |vs| => Symbol(a, vs[i]))
  }

  lemma {:induction false} ValuesOfSymbols(a: Alphabet, vs: seq<sextet>)
    ensures Values(a, Symbols(a, vs)) == Some(vs)
  {
    if vs != [] {
      ValuesOfSymbols(a, vs[1..]);
      SymbolValue(a, vs[0]);
      assert Symbols(a, vs)[1..] == Symbols(a, vs[1..]);
      assert vs == [vs[0]] + vs[1..];
    }
  }

  lemma {:induction false} SymbolsOfValues(a: Alphabet, s: string)
    requires Values(a, s).Some?
    ensures Symbols(a, Values(a, s).value) == s && '=' !in s
  {
    if s != "" {
      SymbolsOfValues(a, s[1..]);
      ValueSymbol(a, s[0]);
      assert s == [s[0]] + s[1..];
    }
  }

  lemma {:induction false} ValuesAgree(a: Alphabet, b: Alphabet, s: string)
    requires Values(a, s).Some? && Values(b, s).Some?
    ensures Values(a, s) == Values(b, s)
  {
    if s != "" {
      ValuesAgree(a, b, s[1..]);
    }
  }

  // ---- Groups of bits --------------------------------------------------------------------------

  /** Three bytes as four six-bit digits. */
  function Digits(b0: byte, b1: byte, b2: byte): (r: seq<sextet>)
    ensures |r| == 4
  {
    [b0 / 4, b0 % 4 * 16 + b1 / 16, b1 % 16 * 4 + b2 / 64, b2 % 64]
  }

  function Bytes(v0: sextet, v1: sextet, v2: sextet, v3: sextet): (r: seq<byte>)
    ensures |r| == 3
  {
    var b0: byte := v0 * 4 + v1 / 16;
    var b1: byte := v1 % 16 * 16 + v2 / 4;
    var b2: byte := v2 % 4 * 64 + v3;
    [b0, b1, b2]
  }

  /** Three bytes and their four digits spell one number of 24 bits. */
  lemma DigitsSpellBytes(b0: byte, b1: byte, b2: byte)
    ensures
      var d := Digits(b0, b1, b2);
      d[0] as int * 262144 + d[1] as int * 4096 + d[2] as int * 64 + d[3] == b0 as int * 65536 + b1 as int * 256 + b2
  {
  }

  lemma DivModOf(q: nat, r: nat, m: nat)
    requires (m == 4 || m == 16 || m == 64) && r < m
    ensures (q * m + r) / m == q && (q * m + r) % m == r
  {
  }

  lemma BytesOfDigits(b0: byte, b1: byte, b2: byte)
    ensures var d := Digits(b0, b1, b2); Bytes(d[0], d[1], d[2], d[3]) == [b0, b1, b2]
  {
  }

  /** Zero bytes at the end leave zero bits at the end. */
  lemma FillBits(b0: byte, b1: byte)
    ensures Digits(b0, b1, 0)[3] == 0 && Digits(b0, b1, 0)[2] % 4 == 0
    ensures Digits(b0, 0, 0)[2] == 0 && Digits(b0, 0, 0)[1] % 16 == 0
  {
  }

  lemma DigitsOfBytes(v0: sextet, v1: sextet, v2: sextet, v3: sextet)
    ensures var b := Bytes(v0, v1, v2, v3); Digits(b[0], b[1], b[2]) == [v0, v1, v2, v3]
  {
    var b := Bytes(v0, v1, v2, v3);
    assert b[0] / 4 == v0 && b[0] % 4 == v1 / 16 by { DivModOf(v0, v1 / 16, 4); }
    assert b[1] / 16 == v1 % 16 && b[1] % 16 == v2 / 4 by { DivModOf(v1 % 16, v2 / 4, 16); }
    assert b[2] / 64 == v2 % 4 && b[2] % 64 == v3 by { DivModOf(v2 % 4, v3, 64); }
  }

  /** Zero bits at the end leave zero bytes at the end. */
  lemma FillBytes(v0: sextet, v1: sextet, v2: sextet)
    ensures v2 % 4 == 0 ==> Bytes(v0, v1, v2, 0)[2] == 0
    ensures v1 % 16 == 0 ==> Bytes(v0, v1, 0, 0)[1] == 0
  {
  }

  /** The six-bit digits of the bytes, the last one filled with zero bits. */
  function Pack(bytes: seq<byte>): seq<sextet> {
    if bytes == [] then []
    else if |bytes| == 1 then Digits(bytes[0], 0, 0)[..2]
    else if |bytes| == 2 then Digits(bytes[0], bytes[1], 0)[..3]
    else Digits(bytes[0], bytes[1], bytes[2]) + Pack(bytes[3..])
  }

  /** Back to bytes: a lone last digit, or fill bits that are not zero, are refused. */
  function Unpack(vs: seq<sextet>): Option<seq<byte>> {
    if vs == [] then Some([])
    else if |vs| == 1 then None
    else if |vs| == 2 then
      if vs[1] % 16 != 0 then None else Some(Bytes(vs[0], vs[1], 0, 0)[..1])
    else if |vs| == 3 then
      if vs[2] % 4 != 0 then None else Some(Bytes(vs[0], vs[1], vs[2], 0)[..2])
    else
      match Unpack(vs[4..])
      case None => None
      case Some(rest) => Some(Bytes(vs[0], vs[1], vs[2], vs[3]) + rest)
  }

  lemma UnpackGroup(group: seq<sextet>, rest: seq<sextet>)
    requires |group| == 4 && Unpack(rest).Some?
    ensures Unpack(group + rest) == Some(Bytes(group[0], group[1], group[2], group[3]) + Unpack(rest).value)
  {
  }

  lemma PackGroup(group: seq<byte>, rest: seq<byte>)
    requires |group| == 3
    ensures Pack(group + rest) == Digits(group[0], group[1], group[2]) + Pack(rest)
  {
  }

  lemma {:induction false} UnpackPack(bytes: seq<byte>)
    ensures Unpack(Pack(bytes)) == Some(bytes)
  {
    if |bytes| == 1 {
      BytesOfDigits(bytes[0], 0, 0);
      FillBits(bytes[0], 0);
      assert bytes == [bytes[0], 0, 0][..1];
    } else if |bytes| == 2 {
      BytesOfDigits(bytes[0], bytes[1], 0);
      FillBits(bytes[0], bytes[1]);
      assert bytes == [bytes[0], bytes[1], 0][..2];
    } else if |bytes| > 2 {
      BytesOfDigits(bytes[0], bytes[1], bytes[2]);
      UnpackPack(bytes[3..]);
      UnpackGroup(Digits(bytes[0], bytes[1], bytes[2]), Pack(bytes[3..]));
      assert bytes == [bytes[0], bytes[1], bytes[2]] + bytes[3..];
    }
  }

  /** The number of digits, and so the place of the padding, depends on the number of bytes alone. */
  lemma {:induction false} PackLength(bytes: seq<byte>)
    ensures |Pack(bytes)| == (|bytes| * 4 + 2) / 3
  {
    if |bytes| > 2 {
      PackLength(bytes[3..]);
    }
  }

  lemma {:induction false} PackUnpack(vs: seq<sextet>)
    requires Unpack(vs).Some?
    ensures Pack(Unpack(vs).value) == vs
  {
    if |vs| == 2 {
      DigitsOfBytes(vs[0], vs[1], 0, 0);
      FillBytes(vs[0], vs[1], 0);
    } else if |vs| == 3 {
      DigitsOfBytes(vs[0], vs[1], vs[2], 0);
      FillBytes(vs[0], vs[1], vs[2]);
    } else if |vs| > 3 {
      DigitsOfBytes(vs[0], vs[1], vs[2], vs[3]);
      PackUnpack(vs[4..]);
      PackGroup(Bytes(vs[0], vs[1], vs[2], vs[3]), Unpack(vs[4..]).value);
      assert vs == [vs[0], vs[1], vs[2], vs[3]] + vs[4..];
    }
  }

  // ---- Engines ---------------------------------------------------------------------------------

  function Padding(n: nat): string {
    if n % 4 == 2 then "==" else if n % 4 == 3 then "=" else ""
  }

  function Encode(e: Engine, bytes: seq<byte>): string {
    var vs := Pack(bytes);
    Symbols(e.alphabet, vs) + if e.padded then Padding(|vs|) else ""
  }

  /** The text without its padding, if the padding is what the engine demands: an unpadded engine
      wants none, a padded one wants whole groups of four and at most two '='. */
  function Unpadded(e: Engine, s: string): Option<string> {
    if !e.padded then Some(s)
    else if |s| % 4 != 0 then None
    else if |s| > 0 && s[|s| - 2..] == "==" then Some(s[..|s| - 2])
    else if |s| > 0 && s[|s| - 1] == '=' then Some(s[..|s| - 1])
    else Some(s)
  }

  function Decode(e: Engine, s: string): Option<seq<byte>> {
    match Unpadded(e, s)
    case None => None
    case Some(body) =>
      match Values(e.alphabet, body)
      case None => None
      case Some(vs) => Unpack(vs)
  }

  lemma UnpaddedOfPadded(e: Engine, body: string)
    requires '=' !in body && |body| % 4 != 1
    ensures Unpadded(e, body + if e.padded then Padding(|body|) else "") == Some(body)
  {
    var pad := if e.padded then Padding(|body|) else "";
    var s := body + pad;
    if pad == "==" {
      assert s[|s| - 2..] == "==" && s[..|s| - 2] == body;
    } else if pad == "=" {
      assert s[|s| - 2..][0] == body[|body| - 1] && s[..|s| - 1] == body;
    } else {
      assert s == body;
      assert |s| >= 2 ==> s[|s| - 2..][1] == body[|body| - 1];
    }
  }

  lemma PaddedOfUnpadded(e: Engine, s: string)
    requires Unpadded(e, s).Some?
    ensures var body := Unpadded(e, s).value; s == body + if e.padded then Padding(|body|) else ""
  {
    if e.padded && |s| > 0 {
      assert s == s[..|s| - 1] + [s[|s| - 1]];
      assert s == s[..|s| - 2] + s[|s| - 2..];
    }
  }

  lemma DecodeEncode(e: Engine, bytes: seq<byte>)
    ensures Decode(e, Encode(e, bytes)) == Some(bytes)
  {
    var vs := Pack(bytes);
    UnpackPack(bytes);
    PackLength(bytes);
    ValuesOfSymbols(e.alphabet, vs);
    SymbolsOfValues(e.alphabet, Symbols(e.alphabet, vs));
    UnpaddedOfPadded(e, Symbols(e.alphabet, vs));
  }

  /** Every accepted text is the encoding of what it decodes to: one spelling per engine. */
  lemma EncodeDecode(e: Engine, s: string)
    requires Decode(e, s).Some?
    ensures Encode(e, Decode(e, s).value) == s
  {
    var body := Unpadded(e, s).value;
    SymbolsOfValues(e.alphabet, body);
    PackUnpack(Values(e.alphabet, body).value);
    PaddedOfUnpadded(e, s);
  }

  /** A test vector of section 10 of RFC 4648. */
  lemma TestVector()
    ensures Encode(STANDARD, [0x66, 0x6F]) == "Zm8=" && Encode(URL_SAFE_NO_PAD, [0x66, 0x6F]) == "Zm8"
  {
    assert Pack([0x66, 0x6F]) == [25, 38, 60];
    assert Symbols(Standard, [25, 38, 60]) == "Zm8" && Symbols(UrlSafe, [25, 38, 60]) == "Zm8";
  }

  /** The length of `s` up to its first '='. */
  function FirstPad(s: string): nat {
    if s == "" || s[0] == '=' then 0 else 1 + FirstPad(s[1..])
  }

  lemma {:induction false} FirstPadAfter(body: string, pad: string)
    requires '=' !in body && (pad == "" || pad[0] == '=')
    ensures FirstPad(body + pad) == |body|
  {
    if body == "" {
      assert body + pad == pad;
    } else {
      assert (body + pad)[1..] == body[1..] + pad;
      FirstPadAfter(body[1..], pad);
    }
  }

  /** A text accepted by two engines means the same bytes to both. */
  lemma EnginesAgree(e: Engine, f: Engine, s: string)
    requires Decode(e, s).Some? && Decode(f, s).Some?
    ensures Decode(e, s) == Decode(f, s)
  {
    BodyOf(e, s);
    BodyOf(f, s);
    ValuesAgree(e.alphabet, f.alphabet, s[..FirstPad(s)]);
  }

  /** What an accepting engine reads is the text before the first '='. */
  lemma BodyOf(e: Engine, s: string)
    requires Decode(e, s).Some?
    ensures FirstPad(s) <= |s| && Unpadded(e, s) == Some(s[..FirstPad(s)])
  {
    var body := Unpadded(e, s).value;
    SymbolsOfValues(e.alphabet, body);
    PaddedOfUnpadded(e, s);
    FirstPadAfter(body, if e.padded then Padding(|body|) else "");
  }

  // ---- Canonicalisation ------------------------------------------------------------------------

  /** Unicode white space, as `str::trim` removes it. */
  predicate IsWhitespace(c: char) {
    var n := c as int;
    9 <= n <= 13 || n == 0x20 || n == 0x85 || n == 0xA0 || n == 0x1680 || 0x2000 <= n <= 0x200A
    || n == 0x2028 || n == 0x2029 || n == 0x202F || n == 0x205F || n == 0x3000
  }

  function TrimStart(s: string): string {
    if s != "" && IsWhitespace(s[0]) then TrimStart(s[1..]) else s
  }

  function TrimEnd(s: string): string {
    if s != "" && IsWhitespace(s[|s| - 1]) then TrimEnd(s[..|s| - 1]) else s
  }

  function Trim(s: string): string {
    TrimEnd(TrimStart(s))
  }

  datatype Canonical = Ok(key: string) | NotBase64 | WrongLength(found: nat)

  /** `iter().find_map(|e| e.decode(raw).ok())`. */
  function FirstDecoded(engines: seq<Engine>, raw: string): Option<seq<byte>> {
    if engines == [] then None
    else if Decode(engines[0], raw).Some? then Decode(engines[0], raw)
    else FirstDecoded(engines[1..], raw)
  }

  function CanonicalWith(engines: seq<Engine>, key: string): Canonical {
    match FirstDecoded(engines, Trim(key))
    case None => NotBase64
    case Some(bytes) => if |bytes| != 32 then WrongLength(|bytes|) else Ok(Encode(STANDARD, bytes))
  }

  function CanonicalVaultKey(key: string): Canonical {
    CanonicalWith(ENGINES, key)
  }

  /** A fresh key, given its 32 random bytes. */
  function GenerateVaultKey(random: seq<byte>): string
    requires |random| == 32
  {
    Encode(STANDARD, random)
  }

  lemma {:induction false} FirstDecodedSound(engines: seq<Engine>, raw: string)
    ensures FirstDecoded(engines, raw).Some? <==> exists e :: e in engines && Decode(e, raw).Some?
    ensures forall e :: e in engines && Decode(e, raw).Some? ==> Decode(e, raw) == FirstDecoded(engines, raw)
  {
    if engines != [] {
      FirstDecodedSound(engines[1..], raw);
      assert engines == [engines[0]] + engines[1..];
      if Decode(engines[0], raw).Some? {
        forall e | e in engines && Decode(e, raw).Some?
          ensures Decode(e, raw) == Decode(engines[0], raw)
        {
          EnginesAgree(e, engines[0], raw);
        }
      }
    }
  }

  /** The answer depends on which engines are tried, never on their order or repetition. */
  lemma OrderIrrelevant(engines: seq<Engine>, others: seq<Engine>, key: string)
    requires forall e :: e in engines <==> e in others
    ensures CanonicalWith(engines, key) == CanonicalWith(others, key)
  {
    FirstDecodedSound(engines, Trim(key));
    FirstDecodedSound(others, Trim(key));
  }

  lemma AllEnginesListed(e: Engine)
    ensures e in ENGINES
  {
    assert e == ENGINES[if e.alphabet.Standard? then if e.padded then 0 else 1 else if e.padded then 2 else 3];
  }

  /** All spellings of a key are found again. */
  lemma FirstDecodedSpelling(e: Engine, bytes: seq<byte>)
    ensures FirstDecoded(ENGINES, Encode(e, bytes)) == Some(bytes)
  {
    AllEnginesListed(e);
    DecodeEncode(e, bytes);
    FirstDecodedSound(ENGINES, Encode(e, bytes));
  }

  /** Exactly which keys are accepted and what they become: the trimmed text is one of the four
      spellings of 32 bytes, and the answer is their standard padded spelling. */
  lemma CanonicalIff(key: string, out: string)
    ensures CanonicalVaultKey(key) == Ok(out) <==>
            exists e, bytes: seq<byte> ::
              |bytes| == 32 && Trim(key) == Encode(e, bytes) && out == Encode(STANDARD, bytes)
  {
    if CanonicalVaultKey(key) == Ok(out) {
      var e, bytes := DecodedSpelling(key);
      assert |bytes| == 32 && Trim(key) == Encode(e, bytes) && out == Encode(STANDARD, bytes);
    }
    if e, bytes: seq<byte> :| |bytes| == 32 && Trim(key) == Encode(e, bytes) && out == Encode(STANDARD, bytes) {
      FirstDecodedSpelling(e, bytes);
    }
  }

  lemma DecodedSpelling(key: string) returns (e: Engine, bytes: seq<byte>)
    requires !CanonicalVaultKey(key).NotBase64?
    ensures Trim(key) == Encode(e, bytes) && FirstDecoded(ENGINES, Trim(key)) == Some(bytes)
  {
    FirstDecodedSound(ENGINES, Trim(key));
    e :| e in ENGINES && Decode(e, Trim(key)).Some?;
    bytes := Decode(e, Trim(key)).value;
    EncodeDecode(e, Trim(key));
  }

  /** Exactly which keys are refused for their length. */
  lemma WrongLengthIff(key: string, n: nat)
    ensures CanonicalVaultKey(key) == WrongLength(n) <==>
            n != 32 && exists e, bytes: seq<byte> :: |bytes| == n && Trim(key) == Encode(e, bytes)
  {
    if CanonicalVaultKey(key) == WrongLength(n) {
      var e, bytes := DecodedSpelling(key);
      assert |bytes| == n && Trim(key) == Encode(e, bytes);
    }
    if n != 32 {
      if e, bytes: seq<byte> :| |bytes| == n && Trim(key) == Encode(e, bytes) {
        FirstDecodedSpelling(e, bytes);
      }
    }
  }

  lemma EncodeHasNoWhitespace(e: Engine, bytes: seq<byte>)
    ensures forall i :: 0 <= i < |Encode(e, bytes)| ==> !IsWhitespace(Encode(e, bytes)[i])
  {
  }

  ghost predicate Blank(s: string) {
    forall i :: 0 <= i < |s| ==> IsWhitespace(s[i])
  }

  lemma {:induction false} TrimStartBlank(front: string, s: string)
    requires Blank(front) && (s == "" || !IsWhitespace(s[0]))
    ensures TrimStart(front + s) == s
    decreases |front|
  {
    if front == "" {
      assert front + s == s;
    } else {
      assert (front + s)[1..] == front[1..] + s;
      TrimStartBlank(front[1..], s);
    }
  }

  lemma {:induction false} TrimEndBlank(s: string, back: string)
    requires Blank(back) && (s == "" || !IsWhitespace(s[|s| - 1]))
    ensures TrimEnd(s + back) == s
    decreases |back|
  {
    if back == "" {
      assert s + back == s;
    } else {
      var t := s + back;
      assert t[..|t| - 1] == s + back[..|back| - 1];
      TrimEndBlank(s, back[..|back| - 1]);
    }
  }

  /** White space around a spelling does not matter. */
  lemma TrimAround(front: string, s: string, back: string)
    requires Blank(front) && Blank(back) && s != ""
    requires !IsWhitespace(s[0]) && !IsWhitespace(s[|s| - 1])
    ensures Trim(front + s + back) == s
  {
    assert front + s + back == front + (s + back);
    TrimStartBlank(front, s + back);
    TrimEndBlank(s, back);
  }

  /** Among the ASCII characters the space and the five from tabulator to carriage return are white. */
  lemma AsciiWhitespace(c: char)
    requires c as int < 128
    ensures IsWhitespace(c) <==> c == ' ' || '\t' <= c <= '\r'
  {
  }

  lemma {:induction false} TrimStartSplits(s: string) returns (front: string)
    ensures s == front + TrimStart(s) && Blank(front)
    ensures TrimStart(s) != "" ==> !IsWhitespace(TrimStart(s)[0])
  {
    if s != "" && IsWhitespace(s[0]) {
      front := TrimStartSplits(s[1..]);
      assert s == [s[0]] + s[1..];
      front := [s[0]] + front;
    } else {
      front := "";
    }
  }

  lemma {:induction false} TrimEndSplits(s: string) returns (back: string)
    ensures s == TrimEnd(s) + back && Blank(back)
    ensures TrimEnd(s) != "" ==> !IsWhitespace(TrimEnd(s)[|TrimEnd(s)| - 1])
  {
    if s != "" && IsWhitespace(s[|s| - 1]) {
      back := TrimEndSplits(s[..|s| - 1]);
      assert s == s[..|s| - 1] + [s[|s| - 1]];
      back := back + [s[|s| - 1]];
    } else {
      back := "";
    }
  }

  /** Trimming takes white space off both ends, and as much of it as there is. */
  lemma TrimSplits(s: string) returns (front: string, back: string)
    ensures s == front + Trim(s) + back && Blank(front) && Blank(back)
    ensures Trim(s) != "" ==> !IsWhitespace(Trim(s)[0]) && !IsWhitespace(Trim(s)[|Trim(s)| - 1])
  {
    front := TrimStartSplits(s);
    back := TrimEndSplits(TrimStart(s));
    assert Trim(s) != "" ==> Trim(s)[0] == TrimStart(s)[0];
  }

  /** Every spelling of 32 bytes, with any white space around it, becomes their standard padded
      spelling. */
  lemma EverySpellingHeals(e: Engine, bytes: seq<byte>, front: string, back: string)
    requires |bytes| == 32 && Blank(front) && Blank(back)
    ensures CanonicalVaultKey(front + Encode(e, bytes) + back) == Ok(Encode(STANDARD, bytes))
  {
    var s := Encode(e, bytes);
    PackLength(bytes);
    EncodeHasNoWhitespace(e, bytes);
    TrimAround(front, s, back);
    FirstDecodedSpelling(e, bytes);
  }

  /** A canonical key is its own canonical form, and so is every generated key. */
  lemma CanonicalIdempotent(key: string)
    requires CanonicalVaultKey(key).Ok?
    ensures CanonicalVaultKey(CanonicalVaultKey(key).key) == CanonicalVaultKey(key)
  {
    var _, bytes := DecodedSpelling(key);
    EverySpellingHeals(STANDARD, bytes, "", "");
    assert "" + Encode(STANDARD, bytes) + "" == Encode(STANDARD, bytes);
  }

  lemma GeneratedIsCanonical(random: seq<byte>)
    requires |random| == 32
    ensures CanonicalVaultKey(GenerateVaultKey(random)) == Ok(GenerateVaultKey(random))
    ensures Decode(STANDARD, GenerateVaultKey(random)) == Some(random)
  {
    DecodeEncode(STANDARD, random);
    EverySpellingHeals(STANDARD, random, "", "");
    assert "" + Encode(STANDARD, random) + "" == Encode(STANDARD, random);
  }

  /** The key material is never changed: two keys with one canonical form hold the same bytes. */
  lemma KeyMaterialKept(e: Engine, a: seq<byte>, f: Engine, b: seq<byte>)
    requires |a| == |b| == 32
    requires CanonicalVaultKey(Encode(e, a)) == CanonicalVaultKey(Encode(f, b))
    ensures a == b
  {
    EverySpellingHeals(e, a, "", "");
    EverySpellingHeals(f, b, "", "");
    assert "" + Encode(e, a) + "" == Encode(e, a) && "" + Encode(f, b) + "" == Encode(f, b);
    DecodeEncode(STANDARD, a);
    DecodeEncode(STANDARD, b);
  }
}
