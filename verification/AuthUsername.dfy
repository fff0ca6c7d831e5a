/**
 The user name that carries custom-authorizer parameters. The MQTT 5 builder (source/iot/Mqtt5Client.cpp) and
 the MQTT 3.1.1 builder (source/iot/MqttClient.cpp) are written separately; both append query parameters to a
 user name and percent-encode the token signature (source/io/Uri.cpp).

 Strings hold bytes. The byte encoder is native code; it is taken to be percent-encoding by sections 2.1 and 2.3
 of RFC 3986, with upper-case digits.
 */
module AuthUsername {
  import opened Options
  import opened Sequences
  import StringSearch

  type ByteString = s: string | forall c :: c in s ==> c as int < 256

  // ---------- Percent-encoding ----------

  /** Section 2.3 of RFC 3986. */
  predicate Unreserved(c: char) {
    'A' <= c <= 'Z' || 'a' <= c <= 'z' || '0' <= c <= '9' || c in "-._~"
  }

  function HexDigit(n: int): char
    requires 0 <= n < 16
  {
    if n < 10 then '0' + n as char else 'A' + (n - 10) as char
  }

  function HexValue(c: char): Option<int> {
    if '0' <= c <= '9' then Some(c as int - '0' as int)
    else if 'A' <= c <= 'F' then Some(c as int - 'A' as int + 10)
    else if 'a' <= c <= 'f' then Some(c as int - 'a' as int + 10)
    else None
  }

  function EncodeByte(c: char): (r: string)
    requires c as int < 256
    ensures 1 <= |r| <= 3
  {
    if Unreserved(c) then [c] else ['%', HexDigit(c as int / 16), HexDigit(c as int % 16)]
  }

  function Encode(s: ByteString): string {
    if s == "" then "" else EncodeByte(s[0]) + Encode(s[1..])
  }

  /** The reader of section 2.1: every `%` stands before two hexadecimal digits. */
  function Decode(s: string): Option<string> {
    if s == "" then Some("")
    else if s[0] != '%' then
      match Decode(s[1..]) case None => None case Some(rest) => Some([s[0]] + rest)
    else if |s| < 3 || HexValue(s[1]).None? || HexValue(s[2]).None? then None
    else
      match Decode(s[3..])
      case None => None
      case Some(rest) => Some([(16 * HexValue(s[1]).value + HexValue(s[2]).value) as char] + rest)
  }

  lemma {:induction false} EncodeFits(s: ByteString)
    ensures |Encode(s)| <= 3 * |s|
  {
    if s != "" {
      EncodeFits(s[1..]);
    }
  }

  lemma {:induction false} EncodeSnoc(s: ByteString, c: char)
    requires c as int < 256
    ensures Encode(s + [c]) == Encode(s) + EncodeByte(c)
  {
    if s == "" {
      assert [c][1..] == "";
      assert Encode([c]) == EncodeByte(c) + "";
      assert s + [c] == [c];
    } else {
      EncodeSnoc(s[1..], c);
      assert (s + [c])[1..] == s[1..] + [c];
      assert Encode(s + [c]) == EncodeByte(s[0]) + (Encode(s[1..]) + EncodeByte(c));
    }
  }

  lemma ReadByte(c: char, rest: string)
    requires c as int < 256 && Decode(rest).Some?
    ensures Decode(EncodeByte(c) + rest) == Some([c] + Decode(rest).value)
  {
    var s := EncodeByte(c) + rest;
    if Unreserved(c) {
      assert s[1..] == rest;
    } else {
      assert s[3..] == rest && s[0] == '%';
      assert HexValue(s[1]) == Some(c as int / 16) && HexValue(s[2]) == Some(c as int % 16);
    }
  }

  lemma {:induction false} DecodeEncode(s: ByteString)
    ensures Decode(Encode(s)) == Some(s)
  {
    if s != "" {
      DecodeEncode(s[1..]);
      ReadByte(s[0], Encode(s[1..]));
      assert s == [s[0]] + s[1..];
    }
  }

  /** Nothing but unreserved characters and `%` comes out. */
  lemma {:induction false} EncodeAlphabet(s: ByteString)
    ensures forall c :: c in Encode(s) ==> Unreserved(c) || c == '%'
  {
    if s != "" {
      EncodeAlphabet(s[1..]);
    }
  }

  lemma {:induction false} EncodeUnreserved(s: ByteString)
    requires forall c :: c in s ==> Unreserved(c)
    ensures Encode(s) == s
  {
    if s != "" {
      assert s[0] in s;
      EncodeUnreserved(s[1..]);
      assert s == [s[0]] + s[1..];
    }
  }

  /** A byte is kept exactly if RFC 3986 calls it unreserved; otherwise it is written with two upper-case digits. */
  lemma EncodeOneByte(c: char)
    requires c as int < 256
    ensures Encode([c]) == [c] <==>
      'A' <= c <= 'Z' || 'a' <= c <= 'z' || '0' <= c <= '9' || c == '-' || c == '.' || c == '_' || c == '~'
    ensures Encode([c]) != [c] ==>
      && |Encode([c])| == 3 && Encode([c])[0] == '%'
      && Encode([c])[1] in "0123456789ABCDEF" && Encode([c])[2] in "0123456789ABCDEF"
      && Decode(Encode([c])) == Some([c])
  {
    EncodeSnoc("", c);
    assert "" + [c] == [c];
    DecodeEncode([c]);
    HexLetters(c as int / 16);
    HexLetters(c as int % 16);
  }

  lemma HexLetters(n: int)
    requires 0 <= n < 16
    ensures HexDigit(n) in "0123456789ABCDEF"
  {
    assert HexDigit(n) == "0123456789ABCDEF"[n];
  }

  /** Append to the first `len` bytes of a buffer that has the room. */
  method Append(buffer: array<char>, len: nat, e: string)
    requires len + |e| <= buffer.Length
    modifies buffer
    ensures buffer[..len + |e|] == old(buffer[..len]) + e
  {
    for j := 0 to |e|
      invariant buffer[..len + j] == old(buffer[..len]) + e[..j]
    {
      buffer[len + j] := e[j];
    }
  }

  /** `EncodeQueryParameterValue`: the native encoder appends into a buffer of three times the length. */
  method EncodeQueryParameterValue(value: ByteString) returns (r: string)
    ensures r == Encode(value)
    ensures Decode(r) == Some(value)
  {
    var buffer := new char[3 * |value|];
    var len := 0;
    for k := 0 to |value|
      invariant 0 <= len <= 3 * k
      invariant buffer[..len] == Encode(value[..k])
    {
      var e := EncodeByte(value[k]);
      Append(buffer, len, e);
      EncodeSnoc(value[..k], value[k]);
      assert value[..k + 1] == value[..k] + [value[k]];
      len := len + |e|;
    }
    assert value[..|value|] == value;
    DecodeEncode(value);
    r := buffer[..len];
  }

  // ---------- Token signatures ----------

  /** The part of a string before the first occurrence of a character. */
  function Upto(s: string, c: char): (p: string)
    ensures p <= s && c !in p && (p == s || s[|p|] == c)
  {
    if s == "" || s[0] == c then "" else [s[0]] + Upto(s[1..], c)
  }

  lemma {:induction false} UptoFirst(a: string, c: char, b: string)
    requires c !in a
    ensures Upto(a + [c] + b, c) == a
  {
    if a != "" {
      UptoFirst(a[1..], c, b);
      assert (a + [c] + b)[1..] == a[1..] + [c] + b;
    }
  }

  lemma {:induction false} UptoAll(a: string, c: char)
    requires c !in a
    ensures Upto(a, c) == a
  {
    if a != "" {
      UptoAll(a[1..], c);
    }
  }

  /** A signature with a `%` is taken to be encoded. Any other goes through `c_str` to the encoder. */
  function NormalisedSignature(s: ByteString): string {
    if '%' in s then s else Encode(Upto(s, '\0'))
  }

  lemma NormaliseIsBytes(s: ByteString)
    ensures forall c :: c in NormalisedSignature(s) ==> c as int < 256
  {
    if '%' !in s {
      EncodeAlphabet(Upto(s, '\0'));
      forall c | c in Encode(Upto(s, '\0')) ensures c as int < 256 {
        assert Unreserved(c) || c == '%';
      }
    }
  }

  /** What the builder of a signature does once is the same as doing it again. */
  lemma NormaliseTwice(s: ByteString)
    ensures (NormaliseIsBytes(s); NormalisedSignature(NormalisedSignature(s))) == NormalisedSignature(s)
  {
    NormaliseIsBytes(s);
    var r: ByteString := NormalisedSignature(s);
    if '%' !in r {
      EncodeAlphabet(Upto(s, '\0'));
      EncodeUnreserved(r);
      UptoAll(r, '\0');
    }
  }

  /** A signature with a `%` stays as it is; any other can be read back, up to its first null character. */
  lemma NormaliseDecodes(s: ByteString)
    ensures '%' in s ==> NormalisedSignature(s) == s
    ensures '%' !in s ==> Decode(NormalisedSignature(s)) == Some(Upto(s, '\0'))
    ensures '%' !in s ==> (Decode(NormalisedSignature(s)) == Some(s) <==> '\0' !in s)
  {
    if '%' !in s {
      DecodeEncode(Upto(s, '\0'));
      if '\0' !in s {
        UptoAll(s, '\0');
      }
    }
  }

  // ---------- Reading a user name ----------

  /** A parameter, or a piece of the query without `=`. */
  datatype Param = Param(key: string, value: string) | Bare(text: string)

  datatype Username = Username(base: string, params: seq<Param>)

  function Pieces(s: string): (ps: seq<string>)
    ensures |ps| >= 1
    ensures |ps| == 1 <==> '&' !in s
    ensures |ps| == 1 ==> ps[0] == s
  {
    if s == "" then [""]
    else Grow(s[0], Pieces(s[1..]))
  }

  /** A character in front starts a new piece or joins the first. */
  function Grow(c: char, ps: seq<string>): seq<string>
    requires |ps| >= 1
  {
    if c == '&' then [""] + ps else [[c] + ps[0]] + ps[1..]
  }

  function ReadParam(s: string): Param {
    var k := Upto(s, '=');
    if k == s then Bare(s) else Param(k, s[|k| + 1..])
  }

  function ReadParams(ps: seq<string>): (r: seq<Param>)
    ensures |r| == |ps|
  {
    if ps == [] then [] else [ReadParam(ps[0])] + ReadParams(ps[1..])
  }

  function Read(u: string): Username {
    var b := Upto(u, '?');
    if b == u then Username(u, []) else Username(b, ReadParams(Pieces(u[|b| + 1..])))
  }

  lemma GrowConcat(c: char, a: seq<string>, b: seq<string>)
    requires |a| >= 1
    ensures Grow(c, a + b) == Grow(c, a) + b
  {
    assert (a + b)[1..] == a[1..] + b;
  }

  lemma {:induction false} PiecesConcat(a: string, b: string)
    ensures Pieces(a + "&" + b) == Pieces(a) + Pieces(b)
  {
    var s := a + "&" + b;
    if a == "" {
      assert s[1..] == b;
    } else {
      PiecesConcat(a[1..], b);
      assert s[1..] == a[1..] + "&" + b;
      GrowConcat(a[0], Pieces(a[1..]), Pieces(b));
    }
  }

  lemma {:induction false} ReadParamsConcat(a: seq<string>, b: seq<string>)
    ensures ReadParams(a + b) == ReadParams(a) + ReadParams(b)
  {
    if a == [] {
      assert a + b == b;
    } else {
      ReadParamsConcat(a[1..], b);
      assert (a + b)[1..] == a[1..] + b;
      Associate([ReadParam(a[0])], ReadParams(a[1..]), ReadParams(b));
    }
  }

  // ---------- Adding a parameter ----------

  predicate Contains(s: string, needle: string) {
    exists i :: 0 <= i <= |s| && StringSearch.OccursAt(s, needle, i)
  }

  /** What is written for a parameter: a value that holds the prefix already is not given it again. */
  function Written(value: string, prefix: string): string {
    if Contains(value, prefix) then value else prefix + value
  }

  /** `AddToUsernameParameter`, the same in both files. */
  function AddParameter(u: string, value: string, prefix: string): string {
    u + (if '?' in u then "&" else "?") + Written(value, prefix)
  }

  /** The query grows by what is written, read on its own, and nothing before it changes. */
  lemma AddParameterReads(u: string, value: string, prefix: string)
    ensures Read(AddParameter(u, value, prefix)).base == Read(u).base
    ensures Read(AddParameter(u, value, prefix)).params == Read(u).params + ReadParams(Pieces(Written(value, prefix)))
  {
    var b, w := Upto(u, '?'), Written(value, prefix);
    if b == u {
      UptoFirst(u, '?', w);
      assert (u + "?" + w)[|u| + 1..] == w;
    } else {
      var q := u[|b| + 1..];
      assert u == b + "?" + q;
      assert '?' in u;
      assert u + "&" + w == b + "?" + (q + "&" + w);
      UptoFirst(b, '?', q + "&" + w);
      assert (b + "?" + (q + "&" + w))[|b| + 1..] == q + "&" + w;
      PiecesConcat(q, w);
      ReadParamsConcat(Pieces(q), Pieces(w));
    }
  }

  /** A key and a value that can be told apart again once they are written. */
  predicate Clean(key: string, value: string) {
    '=' !in key && '&' !in key && '&' !in value && !Contains(value, key + "=")
  }

  lemma PairReads(key: string, value: string)
    requires '=' !in key
    ensures ReadParam(key + "=" + value) == Param(key, value)
  {
    var w := key + "=" + value;
    UptoFirst(key, '=', value);
    assert w[|key| + 1..] == value;
  }

  lemma ReadBackIsClean(key: string, value: string)
    requires ReadParams(Pieces(Written(value, key + "="))) == [Param(key, value)]
    ensures Clean(key, value)
  {
    var w := Written(value, key + "=");
    assert ReadParam(w) == ReadParams(Pieces(w))[0];
    assert w == key + "=" + value;
    assert forall c :: c in key || c in value ==> c in w;
  }

  /** One parameter is read back as it was given exactly when it is clean. */
  lemma WrittenReads(key: string, value: string)
    ensures ReadParams(Pieces(Written(value, key + "="))) == [Param(key, value)] <==> Clean(key, value)
  {
    var w := Written(value, key + "=");
    if Clean(key, value) {
      PairReads(key, value);
      assert Pieces(w) == [w];
    }
    if ReadParams(Pieces(w)) == [Param(key, value)] {
      ReadBackIsClean(key, value);
    }
  }

  /** A value that brings its own prefix is written like the bare one, unless the bare one holds the prefix too. */
  lemma PrefixNotDoubled(u: string, value: string, key: string)
    ensures AddParameter(u, key + "=" + value, key + "=") == AddParameter(u, value, key + "=")
       <==> !Contains(value, key + "=")
  {
    var prefix := key + "=";
    assert StringSearch.OccursAt(prefix + value, prefix, 0);
    var sep := if '?' in u then "&" else "?";
    var long, short := u + sep + (prefix + value), u + sep + Written(value, prefix);
    assert Contains(value, prefix) ==> |long| != |short|;
  }

  // ---------- Adding several parameters ----------

  type Field = (string, string)

  function AddAll(u: string, fs: seq<Field>): string {
    if fs == [] then u
    else
      var f := fs[|fs| - 1];
      AddParameter(AddAll(u, fs[..|fs| - 1]), f.1, f.0 + "=")
  }

  lemma AddOneMore(u: string, fs: seq<Field>, f: Field)
    ensures AddAll(u, fs + [f]) == AddParameter(AddAll(u, fs), f.1, f.0 + "=")
  {
    assert (fs + [f])[..|fs|] == fs;
  }

  function Chunk(f: Field): seq<Param> {
    ReadParams(Pieces(Written(f.1, f.0 + "=")))
  }

  /** What the fields are read as, and what they were meant as. */
  function Chunks(fs: seq<Field>): seq<Param> {
    if fs == [] then [] else Chunks(fs[..|fs| - 1]) + Chunk(fs[|fs| - 1])
  }

  function Meant(fs: seq<Field>): (r: seq<Param>)
    ensures |r| == |fs|
  {
    if fs == [] then [] else Meant(fs[..|fs| - 1]) + [Param(fs[|fs| - 1].0, fs[|fs| - 1].1)]
  }

  predicate AllClean(fs: seq<Field>) {
    forall i :: 0 <= i < |fs| ==> Clean(fs[i].0, fs[i].1)
  }

  lemma {:induction false} AddAllChunks(u: string, fs: seq<Field>)
    ensures Read(AddAll(u, fs)).base == Read(u).base
    ensures Read(AddAll(u, fs)).params == Read(u).params + Chunks(fs)
  {
    if fs != [] {
      var rest, f := fs[..|fs| - 1], fs[|fs| - 1];
      AddAllChunks(u, rest);
      AddParameterReads(AddAll(u, rest), f.1, f.0 + "=");
      Associate(Read(u).params, Chunks(rest), Chunk(f));
    }
  }

  lemma {:induction false} ChunksLength(fs: seq<Field>)
    ensures |Chunks(fs)| >= |fs|
  {
    if fs != [] {
      ChunksLength(fs[..|fs| - 1]);
    }
  }

  lemma SplitLast<T>(a: seq<T>, b: seq<T>, c: seq<T>, x: T)
    requires |a| >= |c| && |b| >= 1
    ensures a + b == c + [x] <==> a == c && b == [x]
  {
    if a + b == c + [x] {
      assert |a| == |c| && a == (a + b)[..|a|] && b == (a + b)[|a|..];
    }
  }

  lemma {:induction false} ChunksMeant(fs: seq<Field>)
    ensures Chunks(fs) == Meant(fs) <==> AllClean(fs)
  {
    if fs != [] {
      var rest, f := fs[..|fs| - 1], fs[|fs| - 1];
      ChunksMeant(rest);
      ChunksLength(rest);
      WrittenReads(f.0, f.1);
      SplitLast(Chunks(rest), Chunk(f), Meant(rest), Param(f.0, f.1));
      AllCleanSnoc(fs);
    }
  }

  lemma AllCleanSnoc(fs: seq<Field>)
    requires fs != []
    ensures AllClean(fs) <==> AllClean(fs[..|fs| - 1]) && Clean(fs[|fs| - 1].0, fs[|fs| - 1].1)
  {
    assert forall i :: 0 <= i < |fs| - 1 ==> fs[..|fs| - 1][i] == fs[i];
  }

  /** Added to any user name, the fields are read back as they were given exactly when all of them are clean. */
  lemma AddAllReads(u: string, fs: seq<Field>)
    ensures Read(AddAll(u, fs)).base == Read(u).base
    ensures Read(AddAll(u, fs)).params == Read(u).params + Meant(fs) <==> AllClean(fs)
  {
    AddAllChunks(u, fs);
    ChunksMeant(fs);
    var before := Read(u).params;
    assert (before + Chunks(fs))[|before|..] == Chunks(fs);
    assert (before + Meant(fs))[|before|..] == Meant(fs);
  }

  lemma ContainsKey(before: string, key: string, rest: string)
    ensures Contains(before + key + "=" + rest, key + "=")
  {
    var value, prefix := before + key + "=" + rest, key + "=";
    assert value[|before|..|before| + |prefix|] == prefix;
    assert StringSearch.OccursAt(value, prefix, |before|);
  }

  lemma ChunkOfOne(f: Field)
    ensures Chunks([f]) == Chunk(f)
  {
    assert [f][..0] == [];
  }

  lemma KeyInTheMiddleChunk(before: string, key: string, rest: string)
    requires '=' !in before && '=' !in key && '&' !in before && '&' !in key && '&' !in rest
    ensures var value := before + key + "=" + rest;
      Chunk((key, value)) == [Param(before + key, rest)] && !Clean(key, value)
  {
    var value := before + key + "=" + rest;
    ContainsKey(before, key, rest);
    PairReads(before + key, rest);
    assert '&' !in value;
    assert Pieces(value) == [value];
  }

  /**
   A value that holds the key and `=` after something else is written without the key, and so is read as a
   parameter of another key.
   */
  lemma KeyInTheMiddle(u: string, before: string, key: string, rest: string)
    requires before != "" && '=' !in before && '=' !in key
    requires '&' !in before && '&' !in key && '&' !in rest
    ensures var value := before + key + "=" + rest;
      && Read(AddAll(u, [(key, value)])).params == Read(u).params + [Param(before + key, rest)]
      && before + key != key && !Clean(key, value)
  {
    var value := before + key + "=" + rest;
    AddAllChunks(u, [(key, value)]);
    ChunkOfOne((key, value));
    KeyInTheMiddleChunk(before, key, rest);
  }

  // ---------- The MQTT 5 builder ----------

  const NAME := "x-amz-customauthorizer-name"
  const SIGNATURE := "x-amz-customauthorizer-signature"

  class CustomAuthConfig {
    var username: Option<string>
    var authorizerName: Option<string>
    var tokenKeyName: Option<string>
    var tokenValue: Option<string>
    var tokenSignature: Option<string>

    /** `WithTokenSignature`. */
    method WithTokenSignature(signature: ByteString)
      modifies `tokenSignature
      ensures tokenSignature == Some(NormalisedSignature(signature))
    {
      if '%' in signature {
        tokenSignature := Some(signature);
      } else {
        var encoded := EncodeQueryParameterValue(Upto(signature, '\0'));
        tokenSignature := Some(encoded);
      }
    }

    /** Token signing is all or nothing. */
    predicate SigningComplete()
      reads this
    {
      tokenKeyName.Some? == tokenValue.Some? == tokenSignature.Some?
    }

    function Fields(): seq<Field>
      requires SigningComplete()
      reads this
    {
      (if authorizerName.Some? then [(NAME, authorizerName.value)] else []) +
      (if tokenKeyName.Some? then [(tokenKeyName.value, tokenValue.value), (SIGNATURE, tokenSignature.value)] else [])
    }
  }

  /** `buildMqtt5FinalUsername`: the second result is the reference parameter on return. */
  method BuildFinalUsername(config: CustomAuthConfig?, username: string) returns (ok: bool, final: string)
    ensures ok <==> config == null || config.SigningComplete()
    ensures !ok || config == null ==> final == username
    ensures ok && config != null ==>
      final == AddAll(if config.username.Some? then config.username.value else username, config.Fields())
  {
    ok, final := true, username;
    if config != null {
      var usingSigning := false;
      if config.tokenValue.Some? || config.tokenKeyName.Some? || config.tokenSignature.Some? {
        usingSigning := true;
        if !config.tokenValue.Some? || !config.tokenKeyName.Some? || !config.tokenSignature.Some? {
          return false, username;
        }
      }
      final := "";
      if config.username.None? {
        if username != "" {
          final := final + username;
        }
      } else {
        final := final + config.username.value;
      }
      ghost var base, fs := final, [];
      assert base == if config.username.Some? then config.username.value else username;
      if config.authorizerName.Some? {
        AddOneMore(base, fs, (NAME, config.authorizerName.value));
        fs := fs + [(NAME, config.authorizerName.value)];
        final := AddParameter(final, config.authorizerName.value, NAME + "=");
      }
      if usingSigning {
        AddOneMore(base, fs, (config.tokenKeyName.value, config.tokenValue.value));
        fs := fs + [(config.tokenKeyName.value, config.tokenValue.value)];
        final := AddParameter(final, config.tokenValue.value, config.tokenKeyName.value + "=");
        AddOneMore(base, fs, (SIGNATURE, config.tokenSignature.value));
        fs := fs + [(SIGNATURE, config.tokenSignature.value)];
        final := AddParameter(final, config.tokenSignature.value, SIGNATURE + "=");
      }
      assert fs == config.Fields();
    }
  }

  // ---------- The MQTT 3.1.1 builder ----------

  const INVALID_STATE := 1     // stands for AWS_ERROR_INVALID_STATE, one of the non-zero error codes

  function FieldsOf(name: string, signature: ByteString, key: string, value: string): seq<Field> {
    (if name != "" then [(NAME, name)] else []) +
    (if signature != "" then [(SIGNATURE, NormalisedSignature(signature))] else []) +
    (if key != "" && value != "" then [(key, value)] else [])
  }

  /** The middle of `WithCustomAuthorizer`. Here an empty string stands for a value that is not given. */
  method AddFields(base: string, name: string, signature: ByteString, key: string, value: string) returns (s: string)
    ensures s == AddAll(base, FieldsOf(name, signature, key, value))
  {
    s := base;
    ghost var fs := [];
    if name != "" {
      AddOneMore(base, fs, (NAME, name));
      fs := fs + [(NAME, name)];
      s := AddParameter(s, name, NAME + "=");
    }
    if signature != "" {
      var encoded: string := signature;
      if '%' !in signature {
        encoded := EncodeQueryParameterValue(Upto(signature, '\0'));
      }
      AddOneMore(base, fs, (SIGNATURE, encoded));
      fs := fs + [(SIGNATURE, encoded)];
      s := AddParameter(s, encoded, SIGNATURE + "=");
    }
    if key != "" && value != "" {
      AddOneMore(base, fs, (key, value));
      fs := fs + [(key, value)];
      s := AddParameter(s, value, key + "=");
    }
    assert fs == FieldsOf(name, signature, key, value);
  }

  class ConnectionConfigBuilder {
    const websocket: bool        // m_websocketConfig is set
    var isUsingCustomAuthorizer: bool
    var username: string
    var password: string
    var portOverride: Option<nat>
    var alpnList: string         // of m_contextOptions
    var lastError: int

    /** `alpn` is whether the platform supports ALPN, `alpnError` what setting the list reports. */
    method WithCustomAuthorizer(username: string, name: string, signature: ByteString, password: string,
                                key: string, value: string, alpn: bool, alpnError: int)
      modifies this
      ensures !alpn ==> lastError == INVALID_STATE && unchanged(`username) && unchanged(`password)
      ensures !alpn ==> unchanged(`portOverride) && unchanged(`alpnList) && unchanged(`isUsingCustomAuthorizer)
      ensures alpn ==> isUsingCustomAuthorizer && this.password == password
      ensures alpn && websocket ==> unchanged(`portOverride) && unchanged(`alpnList) && unchanged(`lastError)
      ensures alpn && !websocket ==> portOverride == Some(443)
      ensures alpn && !websocket && alpnError == 0 ==> alpnList == "mqtt" && unchanged(`lastError)
      ensures alpn && !websocket && alpnError != 0 ==> unchanged(`alpnList) && lastError == alpnError
      ensures alpn ==>
        this.username ==
          AddAll(if username != "" then username else old(this.username), FieldsOf(name, signature, key, value))
    {
      if !alpn {
        lastError := INVALID_STATE;
        return;
      }
      isUsingCustomAuthorizer := true;
      var s := "";
      if username == "" {
        if this.username != "" {
          s := s + this.username;
        }
      } else {
        s := s + username;
      }
      assert s == if username != "" then username else old(this.username);
      s := AddFields(s, name, signature, key, value);
      this.username := s;
      this.password := password;
      if !websocket {
        if alpnError != 0 {
          lastError := alpnError;
        } else {
          alpnList := "mqtt";
        }
        portOverride := Some(443);
      }
    }
  }

  // ---------- What the builders write ----------

  lemma ChunksSnoc(fs: seq<Field>, f: Field)
    ensures Chunks(fs + [f]) == Chunks(fs) + Chunk(f)
  {
    assert (fs + [f])[..|fs|] == fs;
  }

  lemma MeantSnoc(fs: seq<Field>, f: Field)
    ensures Meant(fs + [f]) == Meant(fs) + [Param(f.0, f.1)]
  {
    assert (fs + [f])[..|fs|] == fs;
  }

  /** One field, if it is given. */
  function Given(key: string, value: Option<string>): seq<Param> {
    if value.Some? then [Param(key, value.value)] else []
  }

  predicate GivenClean(key: string, value: Option<string>) {
    value.Some? ==> Clean(key, value.value)
  }

  /** What a field that is given is read as, clean or not. */
  function GivenChunk(key: string, value: Option<string>): seq<Param> {
    if value.Some? then ReadParams(Pieces(Written(value.value, key + "="))) else []
  }

  /** A list of no field or one. */
  predicate IsField(fs: seq<Field>, key: string, value: Option<string>) {
    fs == if value.Some? then [(key, value.value)] else []
  }

  lemma OneMoreField(fs: seq<Field>, b: seq<Field>, key: string, value: Option<string>)
    requires IsField(b, key, value)
    ensures Meant(fs + b) == Meant(fs) + Given(key, value)
    ensures Chunks(fs + b) == Chunks(fs) + GivenChunk(key, value)
    ensures AllClean(fs + b) <==> AllClean(fs) && GivenClean(key, value)
  {
    if value.Some? {
      var f := (key, value.value);
      MeantSnoc(fs, f);
      ChunksSnoc(fs, f);
      AllCleanSnoc(fs + [f]);
      assert (fs + [f])[..|fs|] == fs;
    } else {
      assert fs + b == fs;
    }
  }

  lemma FirstField(a: seq<Field>, key: string, value: Option<string>)
    requires IsField(a, key, value)
    ensures Meant(a) == Given(key, value) && Chunks(a) == GivenChunk(key, value)
    ensures AllClean(a) <==> GivenClean(key, value)
  {
    OneMoreField([], a, key, value);
    assert [] + a == a;
    assert [] + Given(key, value) == Given(key, value);
    assert [] + GivenChunk(key, value) == GivenChunk(key, value);
  }

  lemma FieldsInOrder(a: seq<Field>, ka: string, va: Option<string>, b: seq<Field>, kb: string,
                      vb: Option<string>, c: seq<Field>, kc: string, vc: Option<string>)
    requires IsField(a, ka, va) && IsField(b, kb, vb) && IsField(c, kc, vc)
    ensures Meant(a + b + c) == Given(ka, va) + Given(kb, vb) + Given(kc, vc)
    ensures Chunks(a + b + c) == GivenChunk(ka, va) + GivenChunk(kb, vb) + GivenChunk(kc, vc)
    ensures AllClean(a + b + c) <==> GivenClean(ka, va) && GivenClean(kb, vb) && GivenClean(kc, vc)
  {
    FirstField(a, ka, va);
    OneMoreField(a, b, kb, vb);
    OneMoreField(a + b, c, kc, vc);
  }

  /** Three fields, each of which may be missing, one after the other. */
  lemma ThreeFields(base: string, a: seq<Field>, ka: string, va: Option<string>, b: seq<Field>, kb: string,
                    vb: Option<string>, c: seq<Field>, kc: string, vc: Option<string>)
    requires IsField(a, ka, va) && IsField(b, kb, vb) && IsField(c, kc, vc)
    ensures var u := AddAll(base, a + b + c);
      && Read(u).base == Read(base).base
      && Read(u).params == Read(base).params + (GivenChunk(ka, va) + GivenChunk(kb, vb) + GivenChunk(kc, vc))
      && (Read(u).params == Read(base).params + (Given(ka, va) + Given(kb, vb) + Given(kc, vc)) <==>
            GivenClean(ka, va) && GivenClean(kb, vb) && GivenClean(kc, vc))
  {
    AddAllChunks(base, a + b + c);
    AddAllReads(base, a + b + c);
    FieldsInOrder(a, ka, va, b, kb, vb, c, kc, vc);
  }

  /**
   The MQTT 5 builder, for every configuration with complete signing values: the parameters of the base, then the
   authorizer's name, token and signature, each if given. They are read back as given exactly if each is clean.
   */
  lemma FinalUsernameReads(config: CustomAuthConfig, base: string)
    requires config.SigningComplete()
    ensures var u := AddAll(base, config.Fields());
      var key := if config.tokenKeyName.Some? then config.tokenKeyName.value else "";
      var name, token, signature := config.authorizerName, config.tokenValue, config.tokenSignature;
      && Read(u).base == Read(base).base
      && Read(u).params == Read(base).params +
           (GivenChunk("x-amz-customauthorizer-name", name) + GivenChunk(key, token) +
            GivenChunk("x-amz-customauthorizer-signature", signature))
      && (Read(u).params == Read(base).params +
            (Given("x-amz-customauthorizer-name", name) + Given(key, token) +
             Given("x-amz-customauthorizer-signature", signature)) <==>
          GivenClean("x-amz-customauthorizer-name", name) && GivenClean(key, token) &&
          GivenClean("x-amz-customauthorizer-signature", signature))
  {
    var key := if config.tokenKeyName.Some? then config.tokenKeyName.value else "";
    var name, token, signature := config.authorizerName, config.tokenValue, config.tokenSignature;
    var a := if name.Some? then [(NAME, name.value)] else [];
    var b := if token.Some? then [(key, token.value)] else [];
    var c := if signature.Some? then [(SIGNATURE, signature.value)] else [];
    assert config.Fields() == a + b + c;
    ThreeFields(base, a, NAME, name, b, key, token, c, SIGNATURE, signature);
  }

  /** An empty string stands for a value that is not given. */
  function NonEmpty(s: string): Option<string> {
    if s == "" then None else Some(s)
  }

  /**
   The MQTT 3.1.1 builder, for all arguments: the parameters of the base, then the authorizer's name, the signature
   and the token, each if given; a token is given by a key and a value. They are read back exactly if clean.
   */
  lemma AddedFieldsRead(base: string, name: string, signature: ByteString, key: string, value: string)
    ensures var u := AddAll(base, FieldsOf(name, signature, key, value));
      var sent := if signature == "" then None else Some(NormalisedSignature(signature));
      var token := if key == "" then None else NonEmpty(value);
      && Read(u).base == Read(base).base
      && Read(u).params == Read(base).params +
           (GivenChunk("x-amz-customauthorizer-name", NonEmpty(name)) +
            GivenChunk("x-amz-customauthorizer-signature", sent) + GivenChunk(key, token))
      && (Read(u).params == Read(base).params +
            (Given("x-amz-customauthorizer-name", NonEmpty(name)) +
             Given("x-amz-customauthorizer-signature", sent) + Given(key, token)) <==>
          GivenClean("x-amz-customauthorizer-name", NonEmpty(name)) &&
          GivenClean("x-amz-customauthorizer-signature", sent) && GivenClean(key, token))
  {
    var sent := if signature == "" then None else Some(NormalisedSignature(signature));
    var token := if key == "" then None else NonEmpty(value);
    var a := if name != "" then [(NAME, name)] else [];
    var b := if sent.Some? then [(SIGNATURE, sent.value)] else [];
    var c := if token.Some? then [(key, token.value)] else [];
    assert FieldsOf(name, signature, key, value) == a + b + c;
    ThreeFields(base, a, NAME, NonEmpty(name), b, SIGNATURE, sent, c, key, token);
  }

  // ---------- Both builders ----------

  lemma ContainsEquals(s: string, key: string)
    requires Contains(s, key + "=")
    ensures '=' in s
  {
    var needle := key + "=";
    var i :| 0 <= i <= |s| && StringSearch.OccursAt(s, needle, i);
    assert s[i..i + |needle|][|key|] == needle[|key|];
    assert s[i + |key|] == '=';
  }

  /** A signature that goes through the encoder can be a parameter of any key. */
  lemma EncodedSignatureIsClean(key: string, signature: ByteString)
    requires '=' !in key && '&' !in key && '%' !in signature
    ensures Clean(key, NormalisedSignature(signature))
  {
    EncodeAlphabet(Upto(signature, '\0'));
    if Contains(NormalisedSignature(signature), key + "=") {
      ContainsEquals(NormalisedSignature(signature), key);
    }
  }

  lemma ChunksOfThree(f: Field, g: Field, h: Field)
    ensures Chunks([f, g, h]) == Chunk(f) + Chunk(g) + Chunk(h)
  {
    assert [f][..0] == [] && [f, g][..1] == [f] && [f, g, h][..2] == [f, g];
    assert Chunks([f]) == Chunk(f);
    assert Chunks([f, g]) == Chunk(f) + Chunk(g);
  }

  lemma MeantOfThree(f: Field, g: Field, h: Field)
    ensures Meant([f, g, h]) == [Param(f.0, f.1), Param(g.0, g.1), Param(h.0, h.1)]
  {
    assert [f][..0] == [] && [f, g][..1] == [f] && [f, g, h][..2] == [f, g];
    assert Meant([f]) == [Param(f.0, f.1)];
    assert Meant([f, g]) == [Param(f.0, f.1), Param(g.0, g.1)];
  }

  lemma SwappedMultiset<T>(a: seq<T>, b: seq<T>, c: seq<T>, d: seq<T>)
    ensures multiset(a + (b + c + d)) == multiset(a + (b + d + c))
  {
  }

  /** Two fields written in the other order give the same parameters. */
  lemma SwappedParameters(base: string, f: Field, g: Field, h: Field)
    ensures multiset(Read(AddAll(base, [f, g, h])).params) == multiset(Read(AddAll(base, [f, h, g])).params)
  {
    AddAllChunks(base, [f, g, h]);
    AddAllChunks(base, [f, h, g]);
    ChunksOfThree(f, g, h);
    ChunksOfThree(f, h, g);
    SwappedMultiset(Read(base).params, Chunk(f), Chunk(g), Chunk(h));
  }

  lemma CleanSwaps(f: Field, g: Field, h: Field)
    ensures AllClean([f, g, h]) <==> Clean(f.0, f.1) && Clean(g.0, g.1) && Clean(h.0, h.1)
    ensures AllClean([f, g, h]) <==> AllClean([f, h, g])
  {
    var a, b := [f, g, h], [f, h, g];
    assert a[0] == b[0] == f && a[1] == b[2] == g && a[2] == b[1] == h;
  }

  /**
   With every signing field given, the two builders make user names with the same base and the same parameters,
   in different order. Both are read back as the fields that were given exactly when these are clean.
   */
  lemma BuildersAgree(config: CustomAuthConfig, base: string, name: string, signature: ByteString,
                      key: string, value: string)
    requires name != "" && signature != "" && key != "" && value != ""
    requires config.authorizerName == Some(name) && config.tokenKeyName == Some(key)
    requires config.tokenValue == Some(value) && config.tokenSignature == Some(NormalisedSignature(signature))
    ensures
      var u5, u3 := AddAll(base, config.Fields()), AddAll(base, FieldsOf(name, signature, key, value));
      var n, t, s := Param(NAME, name), Param(key, value), Param(SIGNATURE, NormalisedSignature(signature));
      var clean := Clean(NAME, name) && Clean(key, value) && Clean(SIGNATURE, NormalisedSignature(signature));
      && Read(u5).base == Read(u3).base == Read(base).base
      && multiset(Read(u5).params) == multiset(Read(u3).params)
      && (Read(u5).params == Read(base).params + [n, t, s] <==> clean)
      && (Read(u3).params == Read(base).params + [n, s, t] <==> clean)
      && (clean ==> (Read(u5) == Read(u3) <==> t == s))
  {
    var f, g, h := (NAME, name), (key, value), (SIGNATURE, NormalisedSignature(signature));
    assert config.Fields() == [f, g, h];
    assert FieldsOf(name, signature, key, value) == [f, h, g];
    AddAllReads(base, [f, g, h]);
    AddAllReads(base, [f, h, g]);
    MeantOfThree(f, g, h);
    MeantOfThree(f, h, g);
    CleanSwaps(f, g, h);
    SwappedParameters(base, f, g, h);
    var before := Read(base).params;
    var n, t, s := Param(f.0, f.1), Param(g.0, g.1), Param(h.0, h.1);
    assert (before + [n, t, s])[|before| + 1] == t && (before + [n, s, t])[|before| + 1] == s;
  }
}
