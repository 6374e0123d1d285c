/** Opaque pagination cursors: unpadded base64url (sections 3.2, 4 and 5 of RFC 4648) around
    a signed payload (`HostedCursorCodec`). */
module CursorCodec {
  import opened Wrappers

  type Byte = n: int | 0 <= n < 256
  type Sextet = n: int | 0 <= n < 64

  // ---------------------------------------------------------------------
  // Base64url
  // ---------------------------------------------------------------------

  function Symbol(v: Sextet): char {
    if v < 26 then 'A' + v as char
    else if v < 52 then 'a' + (v - 26) as char
    else if v < 62 then '0' + (v - 52) as char
    else if v == 62 then '-' else '_'
  }

  /** The decoder translates `-_` to `+/`, so it also takes those as they stand. */
  function Value(c: char): Option<Sextet> {
    if 'A' <= c <= 'Z' then Some(c as int - 'A' as int)
    else if 'a' <= c <= 'z' then Some(c as int - 'a' as int + 26)
    else if '0' <= c <= '9' then Some(c as int - '0' as int + 52)
    else if c == '-' || c == '+' then Some(62)
    else if c == '_' || c == '/' then Some(63)
    else None
  }

  /** `urlsafe_b64encode(value).rstrip("=")`. */
  function EncodeBytes(bytes: seq<Byte>): string {
    if |bytes| == 0 then ""
    else if |bytes| == 1 then [Symbol(bytes[0] / 4), Symbol(bytes[0] % 4 * 16)]
    else if |bytes| == 2 then
      [Symbol(bytes[0] / 4), Symbol(bytes[0] % 4 * 16 + bytes[1] / 16), Symbol(bytes[1] % 16 * 4)]
    else
      [Symbol(bytes[0] / 4), Symbol(bytes[0] % 4 * 16 + bytes[1] / 16), Symbol(bytes[1] % 16 * 4 + bytes[2] / 64), Symbol(bytes[2] % 64)]
      + EncodeBytes(bytes[3..])
  }

  /** Data characters to bytes; left-over low bits of the last group are dropped. */
  function DecodeData(data: string): Option<seq<Byte>> {
    if data == "" then Some([])
    else if |data| == 1 then None
    else
      var a, b := Value(data[0]), Value(data[1]);
      if a.None? || b.None? then None
      else
        var first := a.value * 4 + b.value / 16;
        if |data| == 2 then Some([first])
        else
          var c := Value(data[2]);
          if c.None? then None
          else
            var second := b.value % 16 * 16 + c.value / 4;
            if |data| == 3 then Some([first, second])
            else
              var d, rest := Value(data[3]), DecodeData(data[4..]);
              if d.None? || rest.None? then None
              else Some([first, second, c.value % 4 * 64 + d.value] + rest.value)
  }

  /** Everything before the trailing `=` signs. */
  function Unpadded(text: string): (data: string)
    ensures data <= text
  {
    if text != "" && text[|text| - 1] == '=' then Unpadded(text[..|text| - 1]) else text
  }

  function Equals(n: nat): (s: string)
    ensures |s| == n && forall i :: 0 <= i < n ==> s[i] == '='
  {
    seq(n, _ => '=')
  }

  predicate Ascii(text: string) {
    forall i :: 0 <= i < |text| ==> text[i] as int < 128
  }

  /** `_decode`: pad to a multiple of four, then decode strictly: at most two `=` signs,
      after the data. */
  function DecodeText(text: string): Option<seq<Byte>> {
    if text == "" || !Ascii(text) then None
    else
      var padded := text + Equals((4 - |text| % 4) % 4);
      var data := Unpadded(padded);
      if |padded| - |data| > 2 then None else DecodeData(data)
  }

  lemma {:induction false} SymbolValue(v: Sextet)
    ensures Value(Symbol(v)) == Some(v) && Symbol(v) != '=' && Symbol(v) as int < 128
  {
  }

  lemma {:induction false} EncodedLength(bytes: seq<Byte>)
    ensures |EncodeBytes(bytes)| % 4 != 1 && (bytes != [] ==> EncodeBytes(bytes) != "")
  {
    if |bytes| >= 3 {
      EncodedLength(bytes[3..]);
    }
  }

  predicate Symbols(text: string) {
    forall i :: 0 <= i < |text| ==> text[i] != '=' && text[i] as int < 128
  }

  /** The encoder writes symbols only. */
  lemma {:induction false} EncodedSymbols(bytes: seq<Byte>)
    ensures Symbols(EncodeBytes(bytes))
  {
    if |bytes| >= 3 {
      EncodedSymbols(bytes[3..]);
    }
  }

  /** Decoding one whole group of symbols. */
  lemma {:induction false} DecodeGroup(w: Sextet, x: Sextet, y: Sextet, z: Sextet, tail: string)
    ensures var rest := DecodeData(tail);
      DecodeData([Symbol(w), Symbol(x), Symbol(y), Symbol(z)] + tail)
        == if rest.None? then None else Some([w * 4 + x / 16, x % 16 * 16 + y / 4, y % 4 * 64 + z] + rest.value)
  {
    SymbolValue(w);
    SymbolValue(x);
    SymbolValue(y);
    SymbolValue(z);
    var text := [Symbol(w), Symbol(x), Symbol(y), Symbol(z)] + tail;
    assert text[4..] == tail && text[0] == Symbol(w) && text[1] == Symbol(x) && text[2] == Symbol(y) && text[3] == Symbol(z);
  }

  lemma {:induction false} DecodeShort(w: Sextet, x: Sextet, y: Sextet)
    ensures DecodeData([Symbol(w), Symbol(x)]) == Some([w * 4 + x / 16])
    ensures DecodeData([Symbol(w), Symbol(x), Symbol(y)]) == Some([w * 4 + x / 16, x % 16 * 16 + y / 4])
  {
    SymbolValue(w);
    SymbolValue(x);
    SymbolValue(y);
  }

  lemma {:induction false} DecodeEncodedShort(bytes: seq<Byte>)
    requires 1 <= |bytes| <= 2
    ensures DecodeData(EncodeBytes(bytes)) == Some(bytes)
  {
    var a, b := bytes[0], if |bytes| > 1 then bytes[1] else 0;
    GroupInverse(a, b, 0);
    DecodeShort(a / 4, a % 4 * 16 + b / 16, b % 16 * 4);
    assert bytes == if |bytes| == 1 then [a] else [a, b];
  }

  /** The encoding of a whole group in front of the rest. */
  lemma {:induction false} EncodeGroup(bytes: seq<Byte>) returns (w: Sextet, x: Sextet, y: Sextet, z: Sextet)
    requires |bytes| >= 3
    ensures EncodeBytes(bytes) == [Symbol(w), Symbol(x), Symbol(y), Symbol(z)] + EncodeBytes(bytes[3..])
    ensures w * 4 + x / 16 == bytes[0] && x % 16 * 16 + y / 4 == bytes[1] && y % 4 * 64 + z == bytes[2]
  {
    var a, b, c := bytes[0], bytes[1], bytes[2];
    GroupInverse(a, b, c);
    w, x, y, z := a / 4, a % 4 * 16 + b / 16, b % 16 * 4 + c / 64, c % 64;
  }

  lemma {:induction false} DecodeEncodedData(bytes: seq<Byte>)
    ensures DecodeData(EncodeBytes(bytes)) == Some(bytes)
  {
    if |bytes| >= 3 {
      var rest := bytes[3..];
      var w, x, y, z := EncodeGroup(bytes);
      DecodeEncodedData(rest);
      DecodeGroup(w, x, y, z, EncodeBytes(rest));
      assert bytes == [bytes[0], bytes[1], bytes[2]] + rest;
      return;
    }
    if bytes != [] {
      DecodeEncodedShort(bytes);
    }
  }

  lemma {:induction false} GroupInverse(a: Byte, b: Byte, c: Byte)
    ensures var w, x, y, z := a / 4, a % 4 * 16 + b / 16, b % 16 * 4 + c / 64, c % 64;
      && w < 64 && x < 64 && y < 64 && z < 64
      && w * 4 + x / 16 == a && x % 16 * 16 + y / 4 == b && y % 4 * 64 + z == c
  {
  }

  lemma {:induction false} UnpaddedOfData(data: string, n: nat)
    requires forall i :: 0 <= i < |data| ==> data[i] != '='
    ensures Unpadded(data + Equals(n)) == data
  {
    var text := data + Equals(n);
    if n > 0 {
      assert text[..|text| - 1] == data + Equals(n - 1);
      UnpaddedOfData(data, n - 1);
    } else {
      assert text == data;
    }
  }

  /** Stripping the padding and putting it back is lossless for every non-empty length. */
  lemma {:induction false} DecodeEncoded(bytes: seq<Byte>)
    requires bytes != []
    ensures DecodeText(EncodeBytes(bytes)) == Some(bytes)
  {
    EncodedLength(bytes);
    EncodedSymbols(bytes);
    DecodeEncodedData(bytes);
    PaddingDecodes(EncodeBytes(bytes));
  }

  lemma {:induction false} PaddingDecodes(text: string)
    requires text != "" && Ascii(text) && |text| % 4 != 1 && forall i :: 0 <= i < |text| ==> text[i] != '='
    ensures DecodeText(text) == DecodeData(text)
  {
    UnpaddedOfData(text, (4 - |text| % 4) % 4);
  }

  /** No run of symbols one longer than a multiple of four is a cursor. */
  lemma {:induction false} BadLengthRejected(text: string)
    requires |text| % 4 == 1 && forall i :: 0 <= i < |text| ==> text[i] != '='
    ensures DecodeText(text) == None
  {
    UnpaddedOfData(text, 3);
  }

  // ---------------------------------------------------------------------
  // Signed payloads
  // ---------------------------------------------------------------------

  /** The members `decode` reads; absent or of another type is `None`. */
  datatype Claims = Claims(version: Option<int>, tenant: Option<string>, route: Option<string>, offset: Option<int>, exp: Option<int>)

  /** The codec's key and lifetime, with JSON and HMAC-SHA-256 as given functions. */
  datatype Codec = Codec(ttl: nat, dumps: Claims -> seq<Byte>, loads: seq<Byte> -> Option<Claims>, mac: seq<Byte> -> seq<Byte>)

  datatype Error = ValueError | InvalidCursor

  /** Loading what was dumped gives it back; a signature has 32 bytes. */
  ghost predicate Lawful(c: Codec) {
    && c.ttl >= 1
    && (forall claims :: c.loads(c.dumps(claims)) == Some(claims))
    && (forall raw :: |c.mac(raw)| == 32)
  }

  function Issue(tenant: string, route: string, offset: int, exp: int): Claims {
    Claims(Some(1), Some(tenant), Some(route), Some(offset), Some(exp))
  }

  function Encode(c: Codec, tenant: string, route: string, offset: int, now: int): Result<string, Error> {
    if offset < 0 then Err(ValueError)
    else
      var raw := c.dumps(Issue(tenant, route, offset, now + c.ttl));
      Ok(EncodeBytes(raw + c.mac(raw)))
  }

  /** `packed[:-32]` and `packed[-32:]`. */
  function Split(packed: seq<Byte>): (seq<Byte>, seq<Byte>) {
    if |packed| < 32 then ([], packed) else (packed[..|packed| - 32], packed[|packed| - 32..])
  }

  predicate Accepts(claims: Claims, tenant: string, route: string, now: int) {
    && claims.version == Some(1) && claims.tenant == Some(tenant) && claims.route == Some(route)
    && claims.offset.Some? && claims.offset.value >= 0
    && claims.exp.Some? && claims.exp.value > now
  }

  function Decode(c: Codec, cursor: string, tenant: string, route: string, now: int): Result<int, Error> {
    var packed := DecodeText(cursor);
    if packed.None? then Err(InvalidCursor)
    else
      var (raw, signature) := Split(packed.value);
      if signature != c.mac(raw) then Err(InvalidCursor)
      else
        var claims := c.loads(raw);
        if claims.None? || !Accepts(claims.value, tenant, route, now) then Err(InvalidCursor)
        else Ok(claims.value.offset.value)
  }

  /** A cursor decodes to its offset for the tenant and route it was issued to, strictly
      before it expires, and is refused in every other case: from the expiry second on, for
      another tenant, and for another route. */
  lemma {:induction false} CursorRoundTrip(c: Codec, tenant: string, route: string, offset: nat, issued: int,
    asTenant: string, asRoute: string, now: int)
    requires Lawful(c)
    ensures var cursor := Encode(c, tenant, route, offset, issued);
      && cursor.Ok?
      && Decode(c, cursor.value, asTenant, asRoute, now)
           == if asTenant == tenant && asRoute == route && now < issued + c.ttl then Ok(offset) else Err(InvalidCursor)
  {
    var claims := Issue(tenant, route, offset, issued + c.ttl);
    var raw := c.dumps(claims);
    assert c.loads(raw) == Some(claims);
    DecodeSigned(c, raw, claims, asTenant, asRoute, now);
  }

  lemma {:induction false} DecodeSigned(c: Codec, raw: seq<Byte>, claims: Claims, tenant: string, route: string, now: int)
    requires |c.mac(raw)| == 32 && c.loads(raw) == Some(claims)
    ensures Decode(c, EncodeBytes(raw + c.mac(raw)), tenant, route, now)
      == if Accepts(claims, tenant, route, now) then Ok(claims.offset.value) else Err(InvalidCursor)
  {
    SignedTextDecodes(c, raw);
  }

  lemma {:induction false} SignedTextDecodes(c: Codec, raw: seq<Byte>)
    requires |c.mac(raw)| == 32
    ensures DecodeText(EncodeBytes(raw + c.mac(raw))) == Some(raw + c.mac(raw))
    ensures Split(raw + c.mac(raw)) == (raw, c.mac(raw))
  {
    DecodeEncoded(raw + c.mac(raw));
    SplitExact(raw, c.mac(raw));
  }

  lemma {:induction false} SplitExact(raw: seq<Byte>, signature: seq<Byte>)
    requires |signature| == 32
    ensures Split(raw + signature) == (raw, signature)
  {
  }

  /** Only signed text decodes: an accepted cursor is a payload followed by that payload's
      own signature, and the offset is the payload's. */
  lemma {:induction false} DecodedWasSigned(c: Codec, cursor: string, tenant: string, route: string, now: int) returns (raw: seq<Byte>)
    requires Lawful(c) && Decode(c, cursor, tenant, route, now).Ok?
    ensures DecodeText(cursor) == Some(raw + c.mac(raw))
    ensures c.loads(raw).Some? && Accepts(c.loads(raw).value, tenant, route, now)
    ensures c.loads(raw).value.offset == Some(Decode(c, cursor, tenant, route, now).value)
  {
    var packed := DecodeText(cursor).value;
    raw := Split(packed).0;
    assert |packed| >= 32;
    assert packed == raw + packed[|packed| - 32..];
  }

  // ---------------------------------------------------------------------
  // The text itself
  // ---------------------------------------------------------------------

  /** The alphabet, by character codes: capital letters, small letters, digits, `-` and `_`. */
  function Code(v: Sextet): nat {
    if v < 26 then 65 + v else if v < 52 then 71 + v else if v < 62 then v - 4 else if v == 62 then 45 else 95
  }

  lemma {:induction false} SymbolExact(v: Sextet)
    ensures Symbol(v) as int == Code(v)
  {
  }

  lemma {:induction false} ValueExact(c: char, v: Sextet)
    ensures Value(c) == Some(v) <==> c as int == Code(v) || (v == 62 && c == '+') || (v == 63 && c == '/')
  {
    SymbolExact(v);
    SymbolValue(v);
    if Value(c) == Some(v) && c !in {'-', '_', '+', '/'} {
      LetterIs(c, v);
    }
  }

  lemma {:induction false} LetterIs(c: char, v: Sextet)
    requires Value(c) == Some(v) && c !in {'-', '_', '+', '/'}
    ensures c == Symbol(v)
  {
    if 'A' <= c <= 'Z' {
      assert c as int == Symbol(v) as int;
    } else if 'a' <= c <= 'z' {
      assert c as int == Symbol(v) as int;
    } else {
      assert c as int == Symbol(v) as int;
    }
  }

  /** Three bytes are written as the four digits of their number to base 64, and what is left
      as the digits it fills, with zero bits behind it. */
  lemma {:induction false} EncodeExact(bytes: seq<Byte>) returns (w: Sextet, x: Sextet, y: Sextet, z: Sextet)
    requires bytes != []
    ensures var a: int, b: int, c: int := bytes[0], if |bytes| > 1 then bytes[1] else 0, if |bytes| > 2 then bytes[2] else 0;
      ((w * 64 + x) * 64 + y) * 64 + z == (a * 256 + b) * 256 + c
    ensures |bytes| == 1 ==> EncodeBytes(bytes) == [Symbol(w), Symbol(x)]
    ensures |bytes| == 2 ==> EncodeBytes(bytes) == [Symbol(w), Symbol(x), Symbol(y)]
    ensures |bytes| >= 3 ==> EncodeBytes(bytes) == [Symbol(w), Symbol(x), Symbol(y), Symbol(z)] + EncodeBytes(bytes[3..])
  {
    var a, b, c := bytes[0], if |bytes| > 1 then bytes[1] else 0, if |bytes| > 2 then bytes[2] else 0;
    GroupInverse(a, b, c);
    w, x, y, z := a / 4, a % 4 * 16 + b / 16, b % 16 * 4 + c / 64, c % 64;
  }

  /** Data decodes exactly when every character has a value and no group has a single one. */
  lemma {:induction false} DecodeDataIff(data: string)
    ensures DecodeData(data).Some? <==> |data| % 4 != 1 && forall i :: 0 <= i < |data| ==> Value(data[i]).Some?
    ensures DecodeData(data).Some? ==> |DecodeData(data).value| == |data| * 3 / 4
  {
    if |data| > 3 {
      DecodeDataIff(data[4..]);
      assert data == data[..4] + data[4..];
      assert forall i :: 4 <= i < |data| ==> data[i] == data[4..][i - 4];
    }
  }

  /** What is issued: the claims and their signature, and never for a negative offset. */
  lemma {:induction false} IssueExact(c: Codec, tenant: string, route: string, offset: int, now: int)
    ensures var raw := c.dumps(Claims(Some(1), Some(tenant), Some(route), Some(offset), Some(now + c.ttl)));
      Encode(c, tenant, route, offset, now) == if offset < 0 then Err(ValueError) else Ok(EncodeBytes(raw + c.mac(raw)))
  {
  }

  /** When a cursor is accepted, whoever made it. */
  lemma {:induction false} DecodeIff(c: Codec, cursor: string, tenant: string, route: string, now: int, packed: seq<Byte>, o: int)
    requires Lawful(c) && DecodeText(cursor) == Some(packed)
    ensures Decode(c, cursor, tenant, route, now) == Ok(o) <==>
      && |packed| >= 32 && packed[|packed| - 32..] == c.mac(packed[..|packed| - 32])
      && var claims := c.loads(packed[..|packed| - 32]);
      && claims.Some? && claims.value.version == Some(1) && claims.value.tenant == Some(tenant) && claims.value.route == Some(route)
      && claims.value.offset == Some(o) && o >= 0 && claims.value.exp.Some? && now < claims.value.exp.value
    ensures Decode(c, cursor, tenant, route, now).Err? ==> Decode(c, cursor, tenant, route, now) == Err(InvalidCursor)
  {
    assert |c.mac(Split(packed).0)| == 32;
  }
}
