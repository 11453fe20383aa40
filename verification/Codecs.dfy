/** The opaque texts the server hands out: page cursors (cmd/server/query.go) and bearer tokens
    (cmd/server/auth.go). */
module Codecs {
  import opened Strings

  // ----- base64url without padding, section 5 of RFC 4648 -----

  predicate IsByteString(s: string) { forall i :: 0 <= i < |s| ==> s[i] as int < 256 }

  type Bytes = s: string | IsByteString(s)

  predicate IsBase64Url(c: char) {
    'A' <= c <= 'Z' || 'a' <= c <= 'z' || '0' <= c <= '9' || c == '-' || c == '_'
  }

  predicate AllBase64Url(s: string) { forall i :: 0 <= i < |s| ==> IsBase64Url(s[i]) }

  function SextetValue(c: char): (v: nat)
    requires IsBase64Url(c)
    ensures v < 64
  {
    if 'A' <= c <= 'Z' then c as int - 'A' as int
    else if 'a' <= c <= 'z' then c as int - 'a' as int + 26
    else if '0' <= c <= '9' then c as int - '0' as int + 52
    else if c == '-' then 62
    else 63
  }

  function Sextet(v: nat): (c: char)
    requires v < 64
    ensures IsBase64Url(c) && SextetValue(c) == v
  {
    if v < 26 then ('A' as int + v) as char
    else if v < 52 then ('a' as int + v - 26) as char
    else if v < 62 then ('0' as int + v - 52) as char
    else if v == 62 then '-'
    else '_'
  }

  /** Three bytes make four sextets, most significant bits first. */
  function Quad(x: nat, y: nat, z: nat): (s: string)
    requires x < 256 && y < 256 && z < 256
    ensures |s| == 4 && AllBase64Url(s)
  {
    [Sextet(x / 4), Sextet(x % 4 * 16 + y / 16), Sextet(y % 16 * 4 + z / 64), Sextet(z % 64)]
  }

  /** A last group of one or two bytes is padded with zero bits and cut to two or three sextets. */
  function Base64(b: Bytes): (s: string)
    ensures AllBase64Url(s)
    ensures s == "" <==> b == ""
  {
    if b == "" then ""
    else if |b| == 1 then Quad(b[0] as int, 0, 0)[..2]
    else if |b| == 2 then Quad(b[0] as int, b[1] as int, 0)[..3]
    else Quad(b[0] as int, b[1] as int, b[2] as int) + Base64(b[3..])
  }

  function Triple(s0: char, s1: char, s2: char, s3: char): (b: Bytes)
    requires IsBase64Url(s0) && IsBase64Url(s1) && IsBase64Url(s2) && IsBase64Url(s3)
    ensures |b| == 3
  {
    var v0, v1, v2, v3 := SextetValue(s0), SextetValue(s1), SextetValue(s2), SextetValue(s3);
    [(v0 * 4 + v1 / 16) as char, (v1 % 16 * 16 + v2 / 4) as char, (v2 % 4 * 64 + v3) as char]
  }

  /** Decoding alphabet characters; leftover low bits are ignored, as Go's non-strict decoder does,
      and a single leftover character is an error. */
  function Unbase64(s: string): (b: Option<Bytes>)
    requires AllBase64Url(s)
  {
    if s == "" then Some("")
    else if |s| == 1 then None
    else if |s| == 2 then Some(Triple(s[0], s[1], 'A', 'A')[..1])
    else if |s| == 3 then Some(Triple(s[0], s[1], s[2], 'A')[..2])
    else
      match Unbase64(s[4..])
      case None => None
      case Some(rest) => Some(Triple(s[0], s[1], s[2], s[3]) + rest)
  }

  /** Go's decoder skips line breaks wherever they stand. */
  function DropLineBreaks(s: string): string {
    if s == "" then ""
    else (if s[0] == '\r' || s[0] == '\n' then "" else [s[0]]) + DropLineBreaks(s[1..])
  }

  function DecodeBase64(s: string): Option<Bytes> {
    var clean := DropLineBreaks(s);
    if AllBase64Url(clean) then Unbase64(clean) else None
  }

  lemma NoLineBreaks(s: string)
    requires AllBase64Url(s)
    ensures DropLineBreaks(s) == s
  {
  }

  lemma QuadArithmetic(x: nat, y: nat, z: nat)
    requires x < 256 && y < 256 && z < 256
    ensures x / 4 * 4 + (x % 4 * 16 + y / 16) / 16 == x
    ensures (x % 4 * 16 + y / 16) % 16 * 16 + (y % 16 * 4 + z / 64) / 4 == y
    ensures (y % 16 * 4 + z / 64) % 4 * 64 + z % 64 == z
  {
  }

  lemma TripleOfQuad(x: char, y: char, z: char)
    requires x as int < 256 && y as int < 256 && z as int < 256
    ensures var s := Quad(x as int, y as int, z as int);
            && Triple(s[0], s[1], s[2], s[3]) == [x, y, z]
            && Triple(s[0], s[1], s[2], 'A')[..2] == [x, y]
            && Triple(s[0], s[1], 'A', 'A')[..1] == [x]
  {
    QuadValues(x as int, y as int, z as int);
    QuadArithmetic(x as int, y as int, z as int);
    QuadArithmetic(x as int, y as int, 0);
    QuadArithmetic(x as int, 0, 0);
  }

  lemma QuadValues(x: nat, y: nat, z: nat)
    requires x < 256 && y < 256 && z < 256
    ensures var s := Quad(x, y, z);
            && SextetValue(s[0]) == x / 4 && SextetValue(s[1]) == x % 4 * 16 + y / 16
            && SextetValue(s[2]) == y % 16 * 4 + z / 64 && SextetValue(s[3]) == z % 64
  {
  }

  lemma OneByte(b: Bytes)
    requires |b| == 1
    ensures Unbase64(Base64(b)) == Some(b)
  {
    TripleOfQuad(b[0], 0 as char, 0 as char);
    assert b == [b[0]];
  }

  lemma SplitTwo(b: string)
    requires |b| == 2
    ensures b == [b[0], b[1]]
  {
  }

  lemma TwoBytes(b: Bytes)
    requires |b| == 2
    ensures Unbase64(Base64(b)) == Some(b)
  {
    SplitTwo(b);
    TripleOfQuad(b[0], b[1], 0 as char);
  }

  lemma ThreeBytes(x: char, y: char, z: char, rest: Bytes)
    requires x as int < 256 && y as int < 256 && z as int < 256
    requires Unbase64(Base64(rest)) == Some(rest)
    ensures Unbase64(Quad(x as int, y as int, z as int) + Base64(rest)) == Some([x, y, z] + rest)
  {
    var q, r := Quad(x as int, y as int, z as int), Base64(rest);
    assert (q + r)[4..] == r;
    TripleOfQuad(x, y, z);
  }

  lemma SplitThree(b: string)
    requires |b| >= 3
    ensures b == [b[0], b[1], b[2]] + b[3..]
  {
  }

  lemma {:induction false} Base64RoundTrip(b: Bytes)
    ensures Unbase64(Base64(b)) == Some(b)
  {
    if |b| == 1 {
      OneByte(b);
    } else if |b| == 2 {
      TwoBytes(b);
    } else if b != "" {
      SplitThree(b);
      Base64RoundTrip(b[3..]);
      ThreeBytes(b[0], b[1], b[2], b[3..]);
    }
  }

  lemma DecodeEncoded(b: Bytes)
    ensures DecodeBase64(Base64(b)) == Some(b)
  {
    NoLineBreaks(Base64(b));
    Base64RoundTrip(b);
  }

  /** The four characters of a group are base-64 digits of the number whose base-256 digits are the three
      bytes. */
  lemma QuadIsNumber(x: nat, y: nat, z: nat)
    requires x < 256 && y < 256 && z < 256
    ensures var s := Quad(x, y, z);
            SextetValue(s[0]) * 262144 + SextetValue(s[1]) * 4096 + SextetValue(s[2]) * 64 + SextetValue(s[3])
            == x * 65536 + y * 256 + z
  {
    QuadValues(x, y, z);
  }

  /** Texts from section 10 of RFC 4648, without padding, and one that uses the two characters of its
      section 5. */
  lemma KnownTexts()
    ensures Base64("f") == "Zg" && Base64("fo") == "Zm8" && Base64("foo") == "Zm9v"
    ensures Base64("\U{FB}\U{FF}") == "-_8"
  {
    assert "foo"[3..] == "";
  }

  /** Line breaks are skipped wherever they stand. */
  lemma {:induction false} BreaksDoNotMatter(a: string, x: char, b: string)
    requires x == '\r' || x == '\n'
    ensures DecodeBase64(a + [x] + b) == DecodeBase64(a + b)
  {
    DropsBreak(a, x, b);
  }

  lemma {:induction false} DropsBreak(a: string, x: char, b: string)
    requires x == '\r' || x == '\n'
    ensures DropLineBreaks(a + [x] + b) == DropLineBreaks(a + b)
  {
    if a == "" {
      assert a + [x] + b == [x] + b && ([x] + b)[1..] == b && a + b == b;
    } else {
      assert (a + [x] + b)[1..] == a[1..] + [x] + b && (a + b)[1..] == a[1..] + b;
      DropsBreak(a[1..], x, b);
    }
  }

  /** Leftover bits are ignored, a lone last character is not a byte, and padding is refused. */
  lemma KnownDecodings()
    ensures Unbase64("Zg") == Unbase64("Zh") == Some("f") && Unbase64("Z").None? && DecodeBase64("Zg==").None?
  {
    assert Triple('Z', 'g', 'A', 'A')[0] == Triple('Z', 'h', 'A', 'A')[0] == 'f';
    assert Triple('Z', 'g', 'A', 'A')[..1] == Triple('Z', 'h', 'A', 'A')[..1] == "f";
    assert !IsBase64Url("Zg=="[2]);
    NoBreaksHere();
  }

  lemma NoBreaksHere()
    ensures DropLineBreaks("Zg==") == "Zg=="
  {
    assert "Zg=="[1..] == "g==" && "g=="[1..] == "==" && "=="[1..] == "=" && "="[1..] == "";
  }

  // ----- Page cursors -----

  const MAX_INT64: nat := 0x7fff_ffff_ffff_ffff
  const MAX_UINT64: nat := 0xffff_ffff_ffff_ffff
  const CURSOR_VERSION := "v1:"

  function Int64(n: nat): int
    requires n <= MAX_UINT64
  {
    if n <= MAX_INT64 then n else n - MAX_UINT64 - 1
  }

  function ParseUint(s: string): Option<nat> {
    if s != "" && AllDigits(s) && Value(s) <= MAX_UINT64 then Some(Value(s)) else None
  }

  function CursorPayload(index: nat): Bytes { CURSOR_VERSION + Dec(index) }

  function EncodeCursor(index: nat): string {
    Base64(CursorPayload(index))
  }

  function DecodePayload(payload: string): (r: Option<nat>)
    ensures r.Some? ==> r.value <= MAX_INT64
  {
    if |payload| < 3 || payload[..3] != CURSOR_VERSION then None else
    match ParseUint(payload[3..])
    case None => None
    case Some(index) => if index > MAX_INT64 then None else Some(index)
  }

  /** None is the "invalid cursor" error. */
  function DecodeCursor(raw: string): (r: Option<nat>)
    ensures r.Some? ==> r.value <= MAX_INT64 && Int64(r.value) == r.value
  {
    match DecodeBase64(TrimSpace(raw))
    case None => None
    case Some(payload) => DecodePayload(payload)
  }

  lemma EncodedIsTight(b: Bytes)
    ensures TrimSpace(Base64(b)) == Base64(b)
  {
    TightIsTrimmed(Base64(b));
  }

  lemma CursorOf(payload: Bytes)
    ensures DecodeCursor(Base64(payload)) == DecodePayload(payload)
  {
    EncodedIsTight(payload);
    DecodeEncoded(payload);
  }

  lemma PayloadRoundTrip(index: nat)
    requires index <= MAX_UINT64
    ensures DecodePayload(CursorPayload(index)) == if index <= MAX_INT64 then Some(index) else None
  {
    var payload := CursorPayload(index);
    assert payload[..3] == CURSOR_VERSION && payload[3..] == Dec(index);
    ValueOfDec(index);
  }

  /** A cursor survives the trip through a client exactly when it fits the int64 that PostgreSQL is
      given; every other uint64 is rejected instead of wrapping to a negative bound. */
  lemma CursorRoundTrip(index: nat)
    requires index <= MAX_UINT64
    ensures DecodeCursor(EncodeCursor(index)) == if index <= MAX_INT64 then Some(index) else None
    ensures Int64(index) == index <==> DecodeCursor(EncodeCursor(index)).Some?
  {
    CursorOf(CursorPayload(index));
    PayloadRoundTrip(index);
  }

  /** A cursor is accepted exactly if it is base64url of v1: and the digits of a number that fits int64,
      and then is that number. */
  lemma DecodeCursorExactly(raw: string, n: nat)
    ensures DecodeCursor(raw) == Some(n) <==>
              exists digits: string :: digits != "" && AllDigits(digits) && Value(digits) == n <= MAX_INT64
                                       && DecodeBase64(TrimSpace(raw)) == Some("v1:" + digits)
  {
    var decoded := DecodeBase64(TrimSpace(raw));
    if DecodeCursor(raw) == Some(n) {
      var payload := decoded.value;
      assert payload == "v1:" + payload[3..];
    }
    forall digits: string | digits != "" && AllDigits(digits) && Value(digits) == n <= MAX_INT64 && decoded == Some("v1:" + digits)
      ensures DecodeCursor(raw) == Some(n)
    {
      assert ("v1:" + digits)[3..] == digits && ("v1:" + digits)[..3] == "v1:";
    }
  }

  // ----- Tokens -----

  const TOKEN_PREFIX := "alog"

  function FormatToken(id: string, secret: string): string {
    TOKEN_PREFIX + "_" + id + "_" + secret
  }

  /** strings.SplitN(s, "_", 3): at most two cuts, at the first two separators. */
  function SplitInThree(s: string): seq<string> {
    var i := IndexOf(s, '_');
    if i == |s| then [s] else
    var rest := s[i + 1..];
    var j := IndexOf(rest, '_');
    if j == |rest| then [s[..i], rest] else [s[..i], rest[..j], rest[j + 1..]]
  }

  function ParseToken(token: string): Option<(string, string)> {
    var parts := SplitInThree(TrimSpace(token));
    if |parts| != 3 || parts[0] != TOKEN_PREFIX || parts[1] == "" || parts[2] == "" then None
    else Some((parts[1], parts[2]))
  }

  lemma SplitJoined(a: string, b: string, c: string)
    requires '_' !in a && '_' !in b
    ensures SplitInThree(a + "_" + b + "_" + c) == [a, b, c]
  {
    var rest := b + "_" + c;
    var s := a + "_" + rest;
    assert a + "_" + b + "_" + c == s;
    IndexOfFirst('_', a, rest);
    IndexOfFirst('_', b, c);
    assert s[..|a|] == a && s[|a| + 1..] == rest;
    assert rest[..|b|] == b && rest[|b| + 1..] == c;
  }

  lemma CutHere(s: string, i: nat)
    requires i < |s|
    ensures s == s[..i] + [s[i]] + s[i + 1..]
  {
  }

  lemma Associate(a: string, b: string, c: string)
    ensures a + "_" + (b + "_" + c) == a + "_" + b + "_" + c
  {
  }

  lemma JoinSplit(s: string)
    requires |SplitInThree(s)| == 3
    ensures var parts := SplitInThree(s);
            s == parts[0] + "_" + parts[1] + "_" + parts[2] && '_' !in parts[0] && '_' !in parts[1]
  {
    var i := IndexOf(s, '_');
    var rest := s[i + 1..];
    var j := IndexOf(rest, '_');
    CutHere(s, i);
    CutHere(rest, j);
    Associate(s[..i], rest[..j], rest[j + 1..]);
  }

  /** parseToken accepts exactly the trimmed formatToken texts with a separator-free, non-empty id
      and a non-empty secret, and returns those two; the secret may hold separators of its own. */
  lemma ParseTokenExactly(token: string, id: string, secret: string)
    ensures ParseToken(token) == Some((id, secret))
            <==> TrimSpace(token) == "alog_" + id + "_" + secret && id != "" && '_' !in id && secret != ""
  {
    var s := TrimSpace(token);
    assert FormatToken(id, secret) == "alog_" + id + "_" + secret;
    if '_' !in id {
      assert '_' !in TOKEN_PREFIX;
      SplitJoined(TOKEN_PREFIX, id, secret);
    }
    if |SplitInThree(s)| == 3 {
      JoinSplit(s);
    }
  }

  predicate IsHex(s: string) { forall i :: 0 <= i < |s| ==> '0' <= s[i] <= '9' || 'a' <= s[i] <= 'f' }

  /** Every issued token parses back: ids are hex, secrets base64url. */
  lemma TokenRoundTrip(id: string, secret: string)
    requires id != "" && IsHex(id) && secret != "" && AllBase64Url(secret)
    ensures ParseToken(FormatToken(id, secret)) == Some((id, secret))
  {
    TokenIsTight(FormatToken(id, secret), id, secret);
    ParseTokenExactly(FormatToken(id, secret), id, secret);
  }

  lemma TokenIsTight(token: string, id: string, secret: string)
    requires token == FormatToken(id, secret) && secret != "" && AllBase64Url(secret)
    ensures TrimSpace(token) == token == "alog_" + id + "_" + secret
  {
    assert token[0] == 'a' && token[|token| - 1] == secret[|secret| - 1];
    assert IsBase64Url(secret[|secret| - 1]);
    TightIsTrimmed(token);
  }
}
