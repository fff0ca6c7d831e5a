/**
 The IoT SDK metrics (source/mqtt/IoTSDKMetrics.cpp): the encoders that turn client options into a
 feature list, and the builder that combines the list with metrics supplied by the user.
 */
module SdkMetrics {
  import opened FeatureList
  import opened Numbers
  import opened Options
  import opened Sequences
  import opened TlsInfo

  // ---------- Option values and their one-character codes ----------

  datatype JitterMode = JitterDefault | JitterNone | JitterFull | JitterDecorrelated
  datatype SessionBehavior = SessionDefault | Clean | RejoinPostSuccess | RejoinAlways
  datatype QueueBehavior =
    | QueueDefault | FailNonQos1PublishOnDisconnect | FailQos0PublishOnDisconnect | FailAllOnDisconnect
  datatype OutboundAliasing = OutboundDefault | Manual | LRU | OutboundDisabled
  datatype InboundAliasing = InboundDefault | InboundEnabled | InboundDisabled
  datatype Platform = Posix | Windows | Apple
  datatype Proxy = Proxy(hasTls: bool, tunneling: bool)

  /** The code of a default or unset value: the feature is left out of the list. */
  const OMIT: char := '\0'

  function JitterCode(mode: JitterMode): char {
    match mode
    case JitterNone => 'A'
    case JitterFull => 'B'
    case JitterDecorrelated => 'C'
    case JitterDefault => OMIT
  }

  function SessionCode(behavior: SessionBehavior): char {
    match behavior
    case Clean => 'A'
    case RejoinPostSuccess => 'B'
    case RejoinAlways => 'C'
    case SessionDefault => OMIT
  }

  function QueueCode(behavior: QueueBehavior): char {
    match behavior
    case FailNonQos1PublishOnDisconnect => 'A'
    case FailQos0PublishOnDisconnect => 'B'
    case FailAllOnDisconnect => 'C'
    case QueueDefault => OMIT
  }

  function OutboundCode(aliasing: OutboundAliasing): char {
    match aliasing
    case Manual => 'A'
    case LRU => 'B'
    case OutboundDisabled => 'C'
    case OutboundDefault => OMIT
  }

  function InboundCode(aliasing: InboundAliasing): char {
    match aliasing
    case InboundEnabled => 'A'
    case InboundDisabled => 'B'
    case InboundDefault => OMIT
  }

  function SocketCode(platform: Platform): char {
    match platform
    case Posix => 'A'
    case Windows => 'B'
    case Apple => 'C'
  }

  function ProxyCode(proxy: Proxy): char {
    if proxy.hasTls && proxy.tunneling then 'B' else 'A'
  }

  function CertificateCode(source: CertificateSource): char {
    match source
    case CertificateFiles => 'A'
    case Pkcs11 => 'B'
    case WindowsCertStore => 'C'
    case Pkcs12File => 'E'
    case NoCertificate => OMIT
  }

  function CipherCode(pref: CipherPref): char {
    if 1 <= pref <= 11 then ('A' as int + pref - 1) as char else OMIT
  }

  function VersionCode(version: TlsVersion): char {
    match version
    case SSLv3 => 'A'
    case TLSv1 => 'B'
    case TLSv1_1 => 'C'
    case TLSv1_2 => 'D'
    case TLSv1_3 => 'E'
    case SystemVersion => OMIT
  }

  // ---------- Lists of codes ----------

  datatype Code = Code(id: char, value: char)

  function CodeToken(c: Code): string {
    [c.id, '/', c.value]
  }

  /** The tokens of the codes that are not left out. */
  function CodeTokens(cs: seq<Code>): (ts: seq<string>)
    ensures forall t :: t in ts ==> |t| == 3
  {
    if cs == [] then []
    else
      var before, c := CodeTokens(cs[..|cs| - 1]), cs[|cs| - 1];
      if c.value == OMIT then before else before + [CodeToken(c)]
  }

  /** The features a list of codes stands for. */
  function CodeMap(cs: seq<Code>): Features {
    if cs == [] then map[]
    else
      var before, c := CodeMap(cs[..|cs| - 1]), cs[|cs| - 1];
      if c.value == OMIT then before else before[c.id := [c.value]]
  }

  /** `appendFeature`. */
  function AppendFeature(list: string, id: char, value: char): string {
    if value == OMIT then list
    else (if list == "" then "" else list + ",") + [id, '/', value]
  }

  lemma AppendAddsCode(cs: seq<Code>, c: Code)
    ensures AppendFeature(Join(CodeTokens(cs)), c.id, c.value) == Join(CodeTokens(cs + [c]))
  {
    var ts := CodeTokens(cs);
    assert (cs + [c])[..|cs + [c]| - 1] == cs;
    if c.value != OMIT {
      if ts == [] {
        assert CodeTokens(cs + [c]) == [CodeToken(c)];
      } else {
        assert ts[0] in ts;
        JoinNotEmpty(ts);
        JoinSnoc(ts, CodeToken(c));
      }
    }
  }

  /** Known ids in ascending order, and no value that would break the list. */
  predicate InOrder(cs: seq<Code>) {
    && (forall i :: 0 <= i < |cs| ==> ValidId(cs[i].id) && cs[i].value != ',')
    && (forall i, j :: 0 <= i < j < |cs| ==> cs[i].id < cs[j].id)
  }

  lemma {:induction false} CodeTokensAscend(cs: seq<Code>)
    requires InOrder(cs)
    ensures Ascending(CodeTokens(cs))
    ensures forall t :: t in CodeTokens(cs) ==> CommaFree(t) && exists i :: 0 <= i < |cs| && t == CodeToken(cs[i])
  {
    if cs != [] {
      var n := |cs| - 1;
      CodeTokensAscend(cs[..n]);
      var ts := CodeTokens(cs[..n]);
      forall k | 0 <= k < |ts| ensures ts[k][0] < cs[n].id {
        assert ts[k] in ts;
      }
    }
  }

  /** A list made from codes in order is canonical. */
  lemma CodesAreCanonical(cs: seq<Code>)
    requires InOrder(cs)
    ensures Canonical(Join(CodeTokens(cs)))
  {
    CodeTokensAscend(cs);
    if CodeTokens(cs) != [] {
      SplitJoin(CodeTokens(cs));
    }
  }

  lemma {:induction false} FoldCodes(cs: seq<Code>)
    requires InOrder(cs)
    ensures Fold(CodeTokens(cs)) == CodeMap(cs)
  {
    if cs != [] {
      var n := |cs| - 1;
      FoldCodes(cs[..n]);
      var ts := CodeTokens(cs);
      if cs[n].value != OMIT {
        assert ts[..|ts| - 1] == CodeTokens(cs[..n]) && ts[|ts| - 1] == CodeToken(cs[n]);
        assert CodeToken(cs[n])[2..] == [cs[n].value];
      }
    }
  }

  lemma {:induction false} CodeMapAt(cs: seq<Code>, i: nat)
    requires InOrder(cs) && i < |cs|
    ensures if cs[i].value == OMIT then cs[i].id !in CodeMap(cs)
            else cs[i].id in CodeMap(cs) && CodeMap(cs)[cs[i].id] == [cs[i].value]
    decreases |cs|
  {
    var n := |cs| - 1;
    if i < n {
      CodeMapAt(cs[..n], i);
    } else {
      CodeMapBelow(cs[..n], cs[n].id);
    }
  }

  lemma {:induction false} CodeMapBelow(cs: seq<Code>, id: char)
    requires forall i :: 0 <= i < |cs| ==> cs[i].id != id
    ensures id !in CodeMap(cs)
  {
    if cs != [] {
      CodeMapBelow(cs[..|cs| - 1], id);
    }
  }

  /** Parsing a list made from codes in order gives back each code that is not left out, and no other id. */
  lemma CodesDecode(cs: seq<Code>, i: nat, id: char)
    requires InOrder(cs)
    ensures var m := Parse(Join(CodeTokens(cs)));
      && (i < |cs| && cs[i].value != OMIT ==> cs[i].id in m && m[cs[i].id] == [cs[i].value])
      && (i < |cs| && cs[i].value == OMIT ==> cs[i].id !in m)
      && ((forall j :: 0 <= j < |cs| ==> cs[j].id != id) ==> id !in m)
  {
    CodeTokensAscend(cs);
    FoldCodes(cs);
    if CodeTokens(cs) == [] {
      ParseEmpty();
    } else {
      SplitJoin(CodeTokens(cs));
    }
    if i < |cs| {
      CodeMapAt(cs, i);
    }
    if forall j :: 0 <= j < |cs| ==> cs[j].id != id {
      CodeMapBelow(cs, id);
    }
  }

  // ---------- The encoders ----------

  datatype Mqtt5Options = Mqtt5Options(
    jitter: JitterMode,
    session: SessionBehavior,
    queue: QueueBehavior,
    outbound: OutboundAliasing,
    inbound: InboundAliasing,
    proxy: Option<Proxy>,
    tls: Option<Info>)

  datatype Mqtt311Options = Mqtt311Options(proxy: Option<Proxy>, useTls: bool, tls: Info)

  function ProxyCodes(proxy: Option<Proxy>): seq<Code> {
    if proxy.Some? then [Code('H', ProxyCode(proxy.value))] else []
  }

  function TlsCodes(tls: Option<Info>): seq<Code> {
    if tls.Some? then
      [Code('I', CertificateCode(tls.value.certificate)),
       Code('J', CipherCode(tls.value.cipher)),
       Code('K', VersionCode(tls.value.version))]
    else
      []
  }

  function TransportCodes(platform: Platform, proxy: Option<Proxy>, tls: Option<Info>): seq<Code> {
    [Code('G', SocketCode(platform))] + ProxyCodes(proxy) + TlsCodes(tls)
  }

  function ClientCodes(o: Mqtt5Options): seq<Code> {
    [Code('A', JitterCode(o.jitter)), Code('B', SessionCode(o.session)), Code('C', QueueCode(o.queue)),
     Code('D', OutboundCode(o.outbound)), Code('E', InboundCode(o.inbound)), Code('F', '5')]
  }

  /** Feature by feature, what the MQTT5 encoder reports. */
  function Mqtt5Codes(o: Mqtt5Options, platform: Platform): seq<Code> {
    ClientCodes(o) + TransportCodes(platform, o.proxy, o.tls)
  }

  function Mqtt311Codes(o: Mqtt311Options, platform: Platform): seq<Code> {
    [Code('F', '3')] + TransportCodes(platform, o.proxy, if o.useTls then Some(o.tls) else None)
  }

  function Encoded(cs: seq<Code>): string {
    Join(CodeTokens(cs))
  }

  method Append(list: string, id: char, value: char, ghost cs: seq<Code>) returns (r: string)
    requires list == Encoded(cs)
    ensures r == Encoded(cs + [Code(id, value)])
  {
    AppendAddsCode(cs, Code(id, value));
    r := AppendFeature(list, id, value);
  }

  method AppendThree(list: string, a: Code, b: Code, c: Code, ghost cs: seq<Code>) returns (r: string)
    requires list == Encoded(cs)
    ensures r == Encoded(cs + [a, b, c])
  {
    r := Append(list, a.id, a.value, cs);
    ghost var cs1 := cs + [a];
    r := Append(r, b.id, b.value, cs1);
    ghost var cs2 := cs1 + [b];
    r := Append(r, c.id, c.value, cs2);
    assert cs2 + [c] == cs + [a, b, c];
  }

  method AppendProxyAndTls(list: string, proxy: Option<Proxy>, tls: Option<Info>, ghost cs: seq<Code>)
    returns (r: string)
    requires list == Encoded(cs)
    ensures r == Encoded(cs + ProxyCodes(proxy) + TlsCodes(tls))
  {
    r := list;
    ghost var cs1 := cs + ProxyCodes(proxy);
    if proxy.Some? {
      r := Append(r, 'H', ProxyCode(proxy.value), cs);
    } else {
      assert cs1 == cs;
    }
    if tls.Some? {
      r := AppendThree(r, Code('I', CertificateCode(tls.value.certificate)), Code('J', CipherCode(tls.value.cipher)),
                       Code('K', VersionCode(tls.value.version)), cs1);
    } else {
      assert cs1 + TlsCodes(tls) == cs1;
    }
  }

  method AppendTransport(list: string, platform: Platform, proxy: Option<Proxy>, tls: Option<Info>, ghost cs: seq<Code>)
    returns (r: string)
    requires list == Encoded(cs)
    ensures r == Encoded(cs + TransportCodes(platform, proxy, tls))
  {
    r := Append(list, 'G', SocketCode(platform), cs);
    ghost var cs1 := cs + [Code('G', SocketCode(platform))];
    r := AppendProxyAndTls(r, proxy, tls, cs1);
    var socket := [Code('G', SocketCode(platform))];
    Associate(cs, socket, ProxyCodes(proxy));
    Associate(cs, socket + ProxyCodes(proxy), TlsCodes(tls));
  }

  method EncodeMqtt5(o: Mqtt5Options, platform: Platform) returns (r: string)
    ensures r == Encoded(Mqtt5Codes(o, platform))
    ensures Canonical(r) && Mqtt5Shown(Parse(r), o, platform)
  {
    var a, b, c := Code('A', JitterCode(o.jitter)), Code('B', SessionCode(o.session)), Code('C', QueueCode(o.queue));
    var d, e, f := Code('D', OutboundCode(o.outbound)), Code('E', InboundCode(o.inbound)), Code('F', '5');
    r := AppendThree("", a, b, c, []);
    r := AppendThree(r, d, e, f, [] + [a, b, c]);
    assert [] + [a, b, c] + [d, e, f] == ClientCodes(o);
    r := AppendTransport(r, platform, o.proxy, o.tls, ClientCodes(o));
    Mqtt5ListSays(o, platform);
  }

  method EncodeMqtt311(o: Mqtt311Options, platform: Platform) returns (r: string)
    ensures r == Encoded(Mqtt311Codes(o, platform))
    ensures Canonical(r) && Mqtt311Shown(Parse(r), o, platform)
  {
    r := Append("", 'F', '3', []);
    ghost var cs := [Code('F', '3')];
    assert [] + cs == cs;
    r := AppendTransport(r, platform, o.proxy, if o.useTls then Some(o.tls) else None, cs);
    Mqtt311ListSays(o, platform);
  }

  /** Codes in order, with ids from `lo` to `hi`. */
  predicate InOrderWithin(cs: seq<Code>, lo: char, hi: char) {
    InOrder(cs) && forall i :: 0 <= i < |cs| ==> lo <= cs[i].id <= hi
  }

  lemma ConcatInOrder(a: seq<Code>, b: seq<Code>, lo: char, mid: char, mid': char, hi: char)
    requires InOrderWithin(a, lo, mid) && mid < mid' && InOrderWithin(b, mid', hi) && lo <= mid && mid' <= hi
    ensures InOrderWithin(a + b, lo, hi)
  {
  }

  lemma TransportInOrder(platform: Platform, proxy: Option<Proxy>, tls: Option<Info>)
    ensures InOrderWithin(TransportCodes(platform, proxy, tls), 'G', 'K')
  {
    var socket := [Code('G', SocketCode(platform))];
    ConcatInOrder(socket, ProxyCodes(proxy), 'G', 'G', 'H', 'H');
    assert InOrderWithin(TlsCodes(tls), 'I', 'K');
    ConcatInOrder(socket + ProxyCodes(proxy), TlsCodes(tls), 'G', 'H', 'I', 'K');
  }

  lemma Mqtt5InOrder(o: Mqtt5Options, platform: Platform)
    ensures InOrder(Mqtt5Codes(o, platform))
  {
    TransportInOrder(platform, o.proxy, o.tls);
    ConcatInOrder(ClientCodes(o), TransportCodes(platform, o.proxy, o.tls), 'A', 'F', 'G', 'K');
  }

  lemma Mqtt311InOrder(o: Mqtt311Options, platform: Platform)
    ensures InOrder(Mqtt311Codes(o, platform))
  {
    var tls := if o.useTls then Some(o.tls) else None;
    TransportInOrder(platform, o.proxy, tls);
    ConcatInOrder([Code('F', '3')], TransportCodes(platform, o.proxy, tls), 'F', 'F', 'G', 'K');
  }

  /** Both encoders list their features in order of id, so what they produce is canonical. */
  lemma EncodersAreCanonical(o5: Mqtt5Options, o3: Mqtt311Options, platform: Platform)
    ensures InOrder(Mqtt5Codes(o5, platform)) && Canonical(Encoded(Mqtt5Codes(o5, platform)))
    ensures InOrder(Mqtt311Codes(o3, platform)) && Canonical(Encoded(Mqtt311Codes(o3, platform)))
  {
    Mqtt5InOrder(o5, platform);
    Mqtt311InOrder(o3, platform);
    CodesAreCanonical(Mqtt5Codes(o5, platform));
    CodesAreCanonical(Mqtt311Codes(o3, platform));
  }

  // ---------- What an encoded list says ----------

  predicate Has(m: Features, id: char, value: string) {
    id in m && m[id] == value
  }

  predicate JitterShown(m: Features, mode: JitterMode) {
    match mode
    case JitterDefault => 'A' !in m
    case JitterNone => Has(m, 'A', "A")
    case JitterFull => Has(m, 'A', "B")
    case JitterDecorrelated => Has(m, 'A', "C")
  }

  predicate SessionShown(m: Features, behavior: SessionBehavior) {
    match behavior
    case SessionDefault => 'B' !in m
    case Clean => Has(m, 'B', "A")
    case RejoinPostSuccess => Has(m, 'B', "B")
    case RejoinAlways => Has(m, 'B', "C")
  }

  predicate QueueShown(m: Features, behavior: QueueBehavior) {
    match behavior
    case QueueDefault => 'C' !in m
    case FailNonQos1PublishOnDisconnect => Has(m, 'C', "A")
    case FailQos0PublishOnDisconnect => Has(m, 'C', "B")
    case FailAllOnDisconnect => Has(m, 'C', "C")
  }

  predicate OutboundShown(m: Features, aliasing: OutboundAliasing) {
    match aliasing
    case OutboundDefault => 'D' !in m
    case Manual => Has(m, 'D', "A")
    case LRU => Has(m, 'D', "B")
    case OutboundDisabled => Has(m, 'D', "C")
  }

  predicate InboundShown(m: Features, aliasing: InboundAliasing) {
    match aliasing
    case InboundDefault => 'E' !in m
    case InboundEnabled => Has(m, 'E', "A")
    case InboundDisabled => Has(m, 'E', "B")
  }

  predicate SocketShown(m: Features, platform: Platform) {
    match platform
    case Posix => Has(m, 'G', "A")
    case Windows => Has(m, 'G', "B")
    case Apple => Has(m, 'G', "C")
  }

  /** A proxy counts as https exactly with TLS and tunnelling. */
  predicate ProxyShown(m: Features, proxy: Option<Proxy>) {
    match proxy
    case None => 'H' !in m
    case Some(p) => Has(m, 'H', "B") == (p.hasTls && p.tunneling) && Has(m, 'H', "A") == !(p.hasTls && p.tunneling)
  }

  predicate CertificateShown(m: Features, source: CertificateSource) {
    match source
    case NoCertificate => 'I' !in m
    case CertificateFiles => Has(m, 'I', "A")
    case Pkcs11 => Has(m, 'I', "B")
    case WindowsCertStore => Has(m, 'I', "C")
    case Pkcs12File => Has(m, 'I', "E")
  }

  /** The eleven known preferences are lettered in order. */
  predicate CipherShown(m: Features, pref: CipherPref) {
    if 1 <= pref <= 11 then Has(m, 'J', "ABCDEFGHIJK"[pref - 1..pref]) else 'J' !in m
  }

  predicate VersionShown(m: Features, version: TlsVersion) {
    match version
    case SystemVersion => 'K' !in m
    case SSLv3 => Has(m, 'K', "A")
    case TLSv1 => Has(m, 'K', "B")
    case TLSv1_1 => Has(m, 'K', "C")
    case TLSv1_2 => Has(m, 'K', "D")
    case TLSv1_3 => Has(m, 'K', "E")
  }

  predicate TlsShown(m: Features, tls: Option<Info>) {
    match tls
    case None => 'I' !in m && 'J' !in m && 'K' !in m
    case Some(info) =>
      CertificateShown(m, info.certificate) && CipherShown(m, info.cipher) && VersionShown(m, info.version)
  }

  predicate TransportShown(m: Features, platform: Platform, proxy: Option<Proxy>, tls: Option<Info>) {
    SocketShown(m, platform) && ProxyShown(m, proxy) && TlsShown(m, tls)
  }

  /** The features say, option by option, what an MQTT5 client was configured with. */
  predicate Mqtt5Shown(m: Features, o: Mqtt5Options, platform: Platform) {
    && JitterShown(m, o.jitter) && SessionShown(m, o.session) && QueueShown(m, o.queue)
    && OutboundShown(m, o.outbound) && InboundShown(m, o.inbound)
    && Has(m, 'F', "5") && TransportShown(m, platform, o.proxy, o.tls)
  }

  predicate Mqtt311Shown(m: Features, o: Mqtt311Options, platform: Platform) {
    && (forall id :: id in m ==> id !in "ABCDE")
    && Has(m, 'F', "3") && TransportShown(m, platform, o.proxy, if o.useTls then Some(o.tls) else None)
  }

  lemma CodeShown(cs: seq<Code>, c: Code)
    requires InOrder(cs) && c in cs
    ensures var m := Parse(Encoded(cs)); if c.value == OMIT then c.id !in m else Has(m, c.id, [c.value])
  {
    var i :| 0 <= i < |cs| && cs[i] == c;
    CodesDecode(cs, i, c.id);
  }

  lemma NoCodeShown(cs: seq<Code>, id: char)
    requires InOrder(cs) && forall c :: c in cs ==> c.id != id
    ensures id !in Parse(Encoded(cs))
  {
    assert forall j :: 0 <= j < |cs| ==> cs[j] in cs;
    CodesDecode(cs, |cs|, id);
  }

  lemma ClientMeaning(cs: seq<Code>, o: Mqtt5Options)
    requires InOrder(cs) && forall c :: c in ClientCodes(o) ==> c in cs
    ensures var m := Parse(Encoded(cs));
      && JitterShown(m, o.jitter) && SessionShown(m, o.session) && QueueShown(m, o.queue)
      && OutboundShown(m, o.outbound) && InboundShown(m, o.inbound) && Has(m, 'F', "5")
  {
    var codes := ClientCodes(o);
    forall i | 0 <= i < 6
      ensures var m, c := Parse(Encoded(cs)), codes[i]; if c.value == OMIT then c.id !in m else Has(m, c.id, [c.value])
    {
      assert codes[i] in codes;
      CodeShown(cs, codes[i]);
    }
    assert codes[0] == Code('A', JitterCode(o.jitter)) && codes[1] == Code('B', SessionCode(o.session));
    assert codes[2] == Code('C', QueueCode(o.queue)) && codes[3] == Code('D', OutboundCode(o.outbound));
    assert codes[4] == Code('E', InboundCode(o.inbound)) && codes[5] == Code('F', '5');
  }

  lemma CipherMeaning(m: Features, pref: CipherPref)
    requires var v := CipherCode(pref); if v == OMIT then 'J' !in m else Has(m, 'J', [v])
    ensures CipherShown(m, pref)
  {
    if 1 <= pref <= 11 {
      assert "ABCDEFGHIJK"[pref - 1] as int == 'A' as int + pref - 1;
      assert "ABCDEFGHIJK"[pref - 1..pref] == [CipherCode(pref)];
    }
  }

  lemma TlsMeaning(cs: seq<Code>, info: Info)
    requires InOrder(cs) && forall c :: c in TlsCodes(Some(info)) ==> c in cs
    ensures TlsShown(Parse(Encoded(cs)), Some(info))
  {
    var codes := TlsCodes(Some(info));
    assert codes[0] in codes && codes[1] in codes && codes[2] in codes;
    CodeShown(cs, Code('I', CertificateCode(info.certificate)));
    CodeShown(cs, Code('J', CipherCode(info.cipher)));
    CodeShown(cs, Code('K', VersionCode(info.version)));
    CipherMeaning(Parse(Encoded(cs)), info.cipher);
  }

  /** The transport codes are in the list, and no others with their ids. */
  ghost predicate HoldsTransport(cs: seq<Code>, platform: Platform, proxy: Option<Proxy>, tls: Option<Info>) {
    forall c :: c in TransportCodes(platform, proxy, tls) <==> c in cs && c.id >= 'G'
  }

  lemma TransportHeld(a: seq<Code>, platform: Platform, proxy: Option<Proxy>, tls: Option<Info>)
    requires forall c :: c in a ==> c.id < 'G'
    ensures HoldsTransport(a + TransportCodes(platform, proxy, tls), platform, proxy, tls)
  {
    var codes := TransportCodes(platform, proxy, tls);
    TransportInOrder(platform, proxy, tls);
    forall c | c in codes ensures c.id >= 'G' {
      var i :| 0 <= i < |codes| && codes[i] == c;
    }
  }

  lemma ProxyMeaning(cs: seq<Code>, platform: Platform, proxy: Option<Proxy>, tls: Option<Info>)
    requires InOrder(cs) && HoldsTransport(cs, platform, proxy, tls)
    ensures ProxyShown(Parse(Encoded(cs)), proxy)
  {
    var codes := TransportCodes(platform, proxy, tls);
    if proxy.Some? {
      assert codes[1] == Code('H', ProxyCode(proxy.value)) && codes[1] in codes;
      CodeShown(cs, codes[1]);
    } else {
      assert forall c :: c in codes ==> c.id != 'H';
      NoCodeShown(cs, 'H');
    }
  }

  lemma NoTlsMeaning(cs: seq<Code>, platform: Platform, proxy: Option<Proxy>)
    requires InOrder(cs) && HoldsTransport(cs, platform, proxy, None)
    ensures TlsShown(Parse(Encoded(cs)), None)
  {
    var codes := TransportCodes(platform, proxy, None);
    assert forall c :: c in codes ==> c.id <= 'H';
    NoCodeShown(cs, 'I');
    NoCodeShown(cs, 'J');
    NoCodeShown(cs, 'K');
  }

  lemma TransportMeaning(cs: seq<Code>, platform: Platform, proxy: Option<Proxy>, tls: Option<Info>)
    requires InOrder(cs) && HoldsTransport(cs, platform, proxy, tls)
    ensures TransportShown(Parse(Encoded(cs)), platform, proxy, tls)
  {
    var codes := TransportCodes(platform, proxy, tls);
    assert codes[0] == Code('G', SocketCode(platform)) && codes[0] in codes;
    CodeShown(cs, codes[0]);
    ProxyMeaning(cs, platform, proxy, tls);
    if tls.Some? {
      assert forall c :: c in TlsCodes(tls) ==> c in codes;
      TlsMeaning(cs, tls.value);
    } else {
      NoTlsMeaning(cs, platform, proxy);
    }
  }

  lemma Mqtt5Meaning(o: Mqtt5Options, platform: Platform)
    ensures Mqtt5Shown(Parse(Encoded(Mqtt5Codes(o, platform))), o, platform)
  {
    var cs := Mqtt5Codes(o, platform);
    Mqtt5InOrder(o, platform);
    ClientMeaning(cs, o);
    TransportHeld(ClientCodes(o), platform, o.proxy, o.tls);
    TransportMeaning(cs, platform, o.proxy, o.tls);
  }

  lemma ProtocolMeaning(cs: seq<Code>)
    requires InOrder(cs) && cs != [] && cs[0] == Code('F', '3')
    ensures var m := Parse(Encoded(cs)); Has(m, 'F', "3") && forall id :: id in m ==> id !in "ABCDE"
  {
    CodeShown(cs, cs[0]);
    forall id | id in "ABCDE" ensures id !in Parse(Encoded(cs)) {
      assert forall i :: 0 <= i < |cs| ==> cs[0].id <= cs[i].id;
      NoCodeShown(cs, id);
    }
  }

  lemma Mqtt311Meaning(o: Mqtt311Options, platform: Platform)
    ensures Mqtt311Shown(Parse(Encoded(Mqtt311Codes(o, platform))), o, platform)
  {
    var tls := if o.useTls then Some(o.tls) else None;
    var cs := Mqtt311Codes(o, platform);
    Mqtt311InOrder(o, platform);
    assert cs[0] == Code('F', '3');
    ProtocolMeaning(cs);
    TransportHeld([Code('F', '3')], platform, o.proxy, tls);
    TransportMeaning(cs, platform, o.proxy, tls);
  }

  /** The list is canonical, and says option by option what the client was configured with. */
  lemma Mqtt5ListSays(o: Mqtt5Options, platform: Platform)
    ensures var r := Encoded(Mqtt5Codes(o, platform)); Canonical(r) && Mqtt5Shown(Parse(r), o, platform)
  {
    Mqtt5InOrder(o, platform);
    CodesAreCanonical(Mqtt5Codes(o, platform));
    Mqtt5Meaning(o, platform);
  }

  lemma Mqtt311ListSays(o: Mqtt311Options, platform: Platform)
    ensures var r := Encoded(Mqtt311Codes(o, platform)); Canonical(r) && Mqtt311Shown(Parse(r), o, platform)
  {
    Mqtt311InOrder(o, platform);
    CodesAreCanonical(Mqtt311Codes(o, platform));
    Mqtt311Meaning(o, platform);
  }

  // ---------- Building the metrics ----------

  const DEFAULT_LIBRARY := "IoTDeviceSDK/CPP"
  const FEATURE_VERSION := 1
  const FEATURE_VERSION_TEXT := "1"

  const CRT_VERSION_KEY := "CRTVersion"
  const VERSION_KEY := "IoTSDKMetricsVersion"
  const FEATURE_KEY := "IoTSDKFeature"

  predicate Reserved(key: string) {
    key == CRT_VERSION_KEY || key == VERSION_KEY || key == FEATURE_KEY
  }

  /** The contents of an `AWSIoTMetrics`. */
  datatype Contents = Contents(libraryName: string, metadata: map<string, string>)

  /** The user's feature list counts only if the user's metrics version is the library's. */
  function UserFeatures(user: Option<Contents>): string {
    if user.None? then ""
    else
      var m := user.value.metadata;
      var version := if VERSION_KEY in m then m[VERSION_KEY] else "";
      var features := if FEATURE_KEY in m then m[FEATURE_KEY] else "";
      if version != "" && Atoi(version) == FEATURE_VERSION then features else ""
  }

  /** The user's entries under keys that are not reserved. */
  function Kept(m: map<string, string>): map<string, string> {
    map key | key in m && !Reserved(key) :: m[key]
  }

  /** What the builder produces, key by key. */
  function Built(crt: string, user: Option<Contents>, crtVersion: string): Contents {
    var kept := if user.Some? then Kept(user.value.metadata) else map[];
    Contents(
      if user.Some? && user.value.libraryName != "" then user.value.libraryName else DEFAULT_LIBRARY,
      kept[CRT_VERSION_KEY := crtVersion]
          [FEATURE_KEY := Merged(crt, UserFeatures(user))]
          [VERSION_KEY := FEATURE_VERSION_TEXT])
  }

  lemma VersionFirst(m: map<string, string>, crtVersion: string)
    ensures map[CRT_VERSION_KEY := crtVersion] + Kept(m) == Kept(m)[CRT_VERSION_KEY := crtVersion]
  {
  }

  class AWSIoTMetrics {
    var libraryName: string
    var metadata: map<string, string>
    var rawMetadata: seq<(string, string)>   // the entries last exposed to C; they point into `metadata`

    function View(): Contents
      reads this
    {
      Contents(libraryName, metadata)
    }

    constructor ()
      ensures View() == Contents(DEFAULT_LIBRARY, map[]) && rawMetadata == []
    {
      libraryName := DEFAULT_LIBRARY;
      metadata := map[];
      rawMetadata := [];
    }
  }

  /** The value under a key, or the empty string. */
  function Lookup(m: map<string, string>, key: string): string {
    if key in m then m[key] else ""
  }

  /** Copy every entry of the user whose key is not reserved. */
  method KeepUserEntries(user: map<string, string>, out: AWSIoTMetrics)
    modifies out`metadata
    ensures out.metadata == old(out.metadata) + Kept(user)
  {
    var rest := user.Keys;
    while rest != {}
      invariant rest <= user.Keys
      invariant out.metadata ==
        old(out.metadata) + (map key | key in user && key !in rest && !Reserved(key) :: user[key])
      decreases rest
    {
      var key :| key in rest;
      if key != FEATURE_KEY && key != VERSION_KEY && key != CRT_VERSION_KEY {
        out.metadata := out.metadata[key := user[key]];
      }
      rest := rest - {key};
    }
    assert Kept(user) == map key | key in user && key !in rest && !Reserved(key) :: user[key];
  }

  method CreateMetricsFromFeatureList(crt: string, user: AWSIoTMetrics?, out: AWSIoTMetrics, crtVersion: string)
    requires user != out
    modifies out
    ensures out.View() == Built(crt, if user == null then None else Some(user.View()), crtVersion)
    ensures out.rawMetadata == []
  {
    out.libraryName := DEFAULT_LIBRARY;
    out.metadata := map[];
    out.rawMetadata := [];
    if user != null && user.libraryName != "" {
      out.libraryName := user.libraryName;
    }
    out.metadata := out.metadata[CRT_VERSION_KEY := crtVersion];
    var features := "";
    if user != null {
      var version := Lookup(user.metadata, VERSION_KEY);
      if version != "" && Atoi(version) == FEATURE_VERSION {
        features := Lookup(user.metadata, FEATURE_KEY);
      }
      KeepUserEntries(user.metadata, out);
      VersionFirst(user.metadata, crtVersion);
    }
    var merged := MergeFeatureLists(crt, features);
    out.metadata := out.metadata[FEATURE_KEY := merged];
    out.metadata := out.metadata[VERSION_KEY := FEATURE_VERSION_TEXT];
  }

  // ---------- What the metrics mean ----------

  /** The user's metrics carry a version, and it reads as 1. */
  predicate VersionMatches(user: Option<Contents>) {
    && user.Some? && "IoTSDKMetricsVersion" in user.value.metadata
    && var version := user.value.metadata["IoTSDKMetricsVersion"]; version != "" && Atoi(version) == 1
  }

  /**
   Three keys are the library's, all others the user's. The features are the library's list as it is, unless the
   user's version matches; then the user's features override it. The library name is the user's if it has one.
   */
  lemma BuiltMeans(crt: string, user: Option<Contents>, crtVersion: string, key: string)
    ensures var b := Built(crt, user, crtVersion);
      b.libraryName == if user.Some? && user.value.libraryName != "" then user.value.libraryName else "IoTDeviceSDK/CPP"
    ensures var m := Built(crt, user, crtVersion).metadata;
      && "CRTVersion" in m && m["CRTVersion"] == crtVersion
      && "IoTSDKMetricsVersion" in m && m["IoTSDKMetricsVersion"] == "1" && "IoTSDKFeature" in m
    ensures key != "CRTVersion" && key != "IoTSDKMetricsVersion" && key != "IoTSDKFeature" ==>
      var m := Built(crt, user, crtVersion).metadata;
      && (key in m <==> user.Some? && key in user.value.metadata)
      && (key in m ==> m[key] == user.value.metadata[key])
  {
  }

  lemma BuiltFeatures(crt: string, user: Option<Contents>, crtVersion: string)
    ensures var m := Built(crt, user, crtVersion).metadata;
      && "IoTSDKFeature" in m
      && (!VersionMatches(user) ==> m["IoTSDKFeature"] == crt)
      && (VersionMatches(user) ==>
            var features := Lookup(user.value.metadata, "IoTSDKFeature");
            && Parse(m["IoTSDKFeature"]) == Parse(crt) + Parse(features)
            && (if features == "" then m["IoTSDKFeature"] == crt else Canonical(m["IoTSDKFeature"])))
  {
    if VersionMatches(user) {
      var features := Lookup(user.value.metadata, "IoTSDKFeature");
      MergeOverrides(crt, features);
      MergeIsCanonical(crt, features);
    }
  }

  lemma VersionTextReads()
    ensures Atoi(FEATURE_VERSION_TEXT) == FEATURE_VERSION
  {
    assert Decimal(1) == "1";
    assert "" + (Decimal(1) + "") == "1";
    NumberReads("", 1, "");
  }

  /** Metrics built here and handed back in by the user have their features accepted. */
  lemma FeaturesComeBack(crt: string, user: Option<Contents>, crtVersion: string)
    ensures UserFeatures(Some(Built(crt, user, crtVersion))) == Merged(crt, UserFeatures(user))
  {
    VersionTextReads();
  }

  lemma MergeAbsorbs(crt: string, user: string)
    requires Canonical(crt)
    ensures Merged(crt, Merged(crt, user)) == Merged(crt, user)
  {
    var merged := Merged(crt, user);
    MergeOverrides(crt, user);
    CanonicalIffFixed(crt);
    assert Parse(crt) + (Parse(crt) + Parse(user)) == Parse(crt) + Parse(user);
    if merged == "" {
      if user != "" {
        ParseEmpty();
        assert Parse(crt) == map[];
        assert Print(Parse(crt)) == "";
      }
    } else if user == "" {
      ParseEmpty();
      assert Parse(crt) + Parse(user) == Parse(crt);
    }
  }

  /** On a canonical feature list, building metrics from metrics already built changes nothing. */
  lemma RebuildIsIdentity(crt: string, user: Option<Contents>, crtVersion: string)
    requires Canonical(crt)
    ensures Built(crt, Some(Built(crt, user, crtVersion)), crtVersion) == Built(crt, user, crtVersion)
  {
    MergeAbsorbs(crt, UserFeatures(user));
    FeaturesComeBack(crt, user, crtVersion);
    var first := Built(crt, user, crtVersion);
    var second := Built(crt, Some(first), crtVersion);
    assert second.metadata == first.metadata;
  }

  /** Exactly canonical feature lists are stable when the metrics they give are fed back in. */
  lemma StableIffCanonical(crt: string, crtVersion: string)
    ensures var m := Built(crt, None, crtVersion); Built(crt, Some(m), crtVersion) == m <==> Canonical(crt)
  {
    if Canonical(crt) {
      RebuildIsIdentity(crt, None, crtVersion);
    } else {
      var first := Built(crt, None, crtVersion);
      FeaturesComeBack(crt, None, crtVersion);
      CanonicalIffFixed(crt);
      assert Parse(crt) + Parse(crt) == Parse(crt);
      assert Built(crt, Some(first), crtVersion).metadata[FEATURE_KEY] == Print(Parse(crt));
      assert first.metadata[FEATURE_KEY] == crt;
    }
  }

  /** Metrics of a client, fed back into the same client, stay the same. */
  lemma ClientMetricsAreStable(o5: Mqtt5Options, o3: Mqtt311Options, platform: Platform, user: Option<Contents>,
                               v: string)
    ensures var crt := Encoded(Mqtt5Codes(o5, platform));
      Built(crt, Some(Built(crt, user, v)), v) == Built(crt, user, v)
    ensures var crt := Encoded(Mqtt311Codes(o3, platform));
      Built(crt, Some(Built(crt, user, v)), v) == Built(crt, user, v)
  {
    EncodersAreCanonical(o5, o3, platform);
    RebuildIsIdentity(Encoded(Mqtt5Codes(o5, platform)), user, v);
    RebuildIsIdentity(Encoded(Mqtt311Codes(o3, platform)), user, v);
  }
}
