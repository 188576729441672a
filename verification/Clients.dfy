/** What a client writes, byte by byte, and what a connection makes of it. */
module Clients {
  import opened Basics
  import opened Text
  import opened Varint
  import opened Decoders
  import opened TypeNames
  import opened Views
  import opened Blocks
  import opened BlockRoundTrip
  import opened Compressed
  import opened CompressedRoundTrip
  import opened Protocol
  import opened Parsing
  import opened Delivery
  import opened Chunking
  import opened Sending

  /** A Rust string: UTF-8, with a length of a word. */
  ghost predicate Name(b: bytes) { Utf8(b) && |b| < TWO_64 }

  /** The client info in a query, by interface. */
  datatype SentInfo =
    | NoInfo
    | TcpInfo(
        kind: byte, user: bytes, queryId: bytes, address: bytes, osUser: bytes, hostname: bytes, client: bytes,
        major: u64, minor: u64, revision: u64, quota: bytes, patch: u64)
    | HttpInfo(kind: byte, user: bytes, queryId: bytes, address: bytes, verb: byte, agent: bytes)
    | OtherInfo(kind: byte, user: bytes, queryId: bytes, address: bytes, interface: byte)

  datatype Setting = MaxBlockSize(n: u64) | MaxThreads(n: u64)

  datatype Asked = Asked(
    id: bytes, info: SentInfo, settings: seq<Setting>, stage: u64, compression: u64, text: bytes)

  ghost predicate SoundInfo(i: SentInfo) {
    match i
    case NoInfo => true
    case TcpInfo(kind, user, queryId, address, osUser, hostname, client, _, _, _, quota, _) =>
      && kind > 0 && Name(user) && Name(queryId) && Name(address)
      && Name(osUser) && Name(hostname) && Name(client) && Name(quota)
    case HttpInfo(kind, user, queryId, address, _, agent) =>
      kind > 0 && Name(user) && Name(queryId) && Name(address) && Name(agent)
    case OtherInfo(kind, user, queryId, address, interface) =>
      kind > 0 && Name(user) && Name(queryId) && Name(address) && interface != 1 && interface != 2
  }

  ghost predicate SoundAsked(a: Asked) { Name(a.id) && Name(a.text) && SoundInfo(a.info) }

  ghost predicate SoundHello(h: Hello) {
    Name(h.clientName) && Name(h.database) && Name(h.user) && Name(h.password)
  }

  // ---------- the bytes ----------

  function ThreeBlobs(a: bytes, b: bytes, c: bytes): bytes { EncodeBlob(a) + (EncodeBlob(b) + EncodeBlob(c)) }

  function ThreeNumbers(x: u64, y: u64, z: u64): bytes { Leb128(x) + (Leb128(y) + Leb128(z)) }

  function HelloBytes(h: Hello): bytes {
    [0] + (EncodeBlob(h.clientName)
           + (ThreeNumbers(h.major, h.minor, h.revision) + ThreeBlobs(h.database, h.user, h.password)))
  }

  /** The quota key and the patch version are there from their revisions on. */
  function TcpTail(osUser: bytes, hostname: bytes, client: bytes, major: u64, minor: u64, revision: u64,
                   quota: bytes, patch: u64): bytes {
    ThreeBlobs(osUser, hostname, client)
    + (ThreeNumbers(major, minor, revision)
       + ((if revision >= 54060 then EncodeBlob(quota) else []) + (if revision >= 54401 then Leb128(patch) else [])))
  }

  function InfoHead(kind: byte, user: bytes, queryId: bytes, address: bytes, interface: byte, tail: bytes): bytes {
    [kind] + (ThreeBlobs(user, queryId, address) + ([interface] + tail))
  }

  function InfoBytes(i: SentInfo): bytes {
    match i
    case NoInfo => [0]
    case TcpInfo(kind, user, queryId, address, osUser, hostname, client, major, minor, revision, quota, patch) =>
      InfoHead(kind, user, queryId, address, 1, TcpTail(osUser, hostname, client, major, minor, revision, quota, patch))
    case HttpInfo(kind, user, queryId, address, verb, agent) =>
      InfoHead(kind, user, queryId, address, 2, [verb] + EncodeBlob(agent))
    case OtherInfo(kind, user, queryId, address, interface) => InfoHead(kind, user, queryId, address, interface, [])
  }

  function SettingName(s: Setting): bytes {
    match s case MaxBlockSize(_) => Ascii("max_block_size") case MaxThreads(_) => Ascii("max_threads")
  }

  /** The settings, and what comes after them. */
  function SettingsBytes(settings: seq<Setting>, rest: bytes): bytes {
    if |settings| == 0 then rest
    else EncodeBlob(SettingName(settings[0])) + (Leb128(settings[0].n) + SettingsBytes(settings[1..], rest))
  }

  /** A query for a server that was told this revision: client info from revision 54032 on. */
  function AskedBytes(a: Asked, revision: u64): bytes {
    [1] + (EncodeBlob(a.id)
           + ((if revision >= 54032 then InfoBytes(a.info) else [])
              + SettingsBytes(a.settings,
                              EncodeBlob([]) + (Leb128(a.stage) + (Leb128(a.compression) + EncodeBlob(a.text))))))
  }

  // ---------- runs of strings and numbers ----------

  lemma StrsRead(s: bytes, p: nat, a: bytes, b: bytes, c: bytes)
    requires Name(a) && Name(b) && Name(c) && Holds(s, p, ThreeBlobs(a, b, c))
    ensures p + |ThreeBlobs(a, b, c)| <= |s|
    ensures Strs(s, p, 3) == Ok([a, b, c], p + |ThreeBlobs(a, b, c)|)
  {
    hide Holds, EncodeBlob, Str, Strs, Utf8;
    HoldsInside(s, p, ThreeBlobs(a, b, c));
    HoldsSplit(s, p, EncodeBlob(a), EncodeBlob(b) + EncodeBlob(c));
    HoldsSplit(s, p + |EncodeBlob(a)|, EncodeBlob(b), EncodeBlob(c));
    StrRoundTrip(s, p, a);
    StrRoundTrip(s, p + |EncodeBlob(a)|, b);
    StrRoundTrip(s, p + |EncodeBlob(a)| + |EncodeBlob(b)|, c);
    StrsAreThree(s, p);
  }

  lemma NumbersRead(s: bytes, p: nat, x: u64, y: u64, z: u64)
    requires Holds(s, p, ThreeNumbers(x, y, z))
    ensures p + |ThreeNumbers(x, y, z)| <= |s|
    ensures Uvarints(s, p, 3) == Ok([x, y, z], p + |ThreeNumbers(x, y, z)|)
  {
    hide Holds, Leb128, Uvarint, Uvarints;
    HoldsInside(s, p, ThreeNumbers(x, y, z));
    HoldsSplit(s, p, Leb128(x), Leb128(y) + Leb128(z));
    HoldsSplit(s, p + |Leb128(x)|, Leb128(y), Leb128(z));
    UvarintRoundTrip(s, p, x);
    UvarintRoundTrip(s, p + |Leb128(x)|, y);
    UvarintRoundTrip(s, p + |Leb128(x)| + |Leb128(y)|, z);
    UvarintsAreThree(s, p);
  }

  /** One byte, as a word and as a number. */
  lemma ByteRead(s: bytes, p: nat, b: byte)
    requires Holds(s, p, [b])
    ensures p + 1 <= |s| && Word(s, p, 1) == Ok(b, p + 1)
    ensures b < 128 ==> Uvarint(s, p) == Ok(b, p + 1)
  {
    HoldsInside(s, p, [b]);
    HoldsFirst(s, p, [b]);
    assert ToLittleEndian(b, 1) == [b] && Pow256(1) == 256;
    WordRoundTrip(s, p, b, 1);
    if b < 128 {
      assert Leb128(b) == [b];
      UvarintRoundTrip(s, p, b);
    }
  }

  // ---------- hello ----------

  /** The bytes of a hello, followed by anything, are read as that hello, field by field, and exactly they are consumed.
      Without a user it is refused. */
  lemma HelloReads(h: Hello, s: bytes, p: nat, wire: Wire)
    requires SoundHello(h) && Holds(s, p, HelloBytes(h))
    ensures p <= |s|
    ensures h.user == [] ==> ReadPacket(s, p, wire) == Err(NoUser)
    ensures h.user != [] ==>
              var d := ReadPacket(s, p, wire);
              && d.Ok? && d.pos == p + |HelloBytes(h)| && d.value.HelloPacket?
              && var r := d.value.hello;
              && r.clientName == h.clientName && r.major == h.major && r.minor == h.minor && r.revision == h.revision
              && r.database == h.database && r.user == h.user && r.password == h.password && r.patch == 0
  {
    hide Holds, EncodeBlob, ThreeBlobs, ThreeNumbers, Str, Strs, Uvarint, Uvarints, Utf8;
    var name := EncodeBlob(h.clientName);
    var numbers, texts := ThreeNumbers(h.major, h.minor, h.revision), ThreeBlobs(h.database, h.user, h.password);
    HoldsInside(s, p, HelloBytes(h));
    HoldsSplit(s, p, [0], name + (numbers + texts));
    HoldsSplit(s, p + 1, name, numbers + texts);
    HoldsSplit(s, p + 1 + |name|, numbers, texts);
    ByteRead(s, p, 0);
    StrRoundTrip(s, p + 1, h.clientName);
    NumbersRead(s, p + 1 + |name|, h.major, h.minor, h.revision);
    StrsRead(s, p + 1 + |name| + |numbers|, h.database, h.user, h.password);
  }

  // ---------- client info ----------

  /** What is read after the interface. */
  ghost function ReadTail(s: bytes, p: nat, info: ClientInfo): Dec<ClientInfo>
    requires p <= |s|
  {
    var (info1, p1) :- ReadInterface(s, p, info);
    var (info2, p2) :- ReadQuotaKey(s, p1, info1);
    ReadPatch(s, p2, info2)
  }

  lemma HeadReads(s: bytes, p: nat, kind: byte, user: bytes, queryId: bytes, address: bytes, interface: byte,
                  tail: bytes)
    requires kind > 0 && Name(user) && Name(queryId) && Name(address)
    requires Holds(s, p, InfoHead(kind, user, queryId, address, interface, tail))
    ensures var q := p + |InfoHead(kind, user, queryId, address, interface, tail)| - |tail|;
            && p <= q <= |s| && Holds(s, q, tail)
            && ReadClientInfo(s, p)
               == ReadTail(s, q, NO_INFO.(queryKind := kind, initialUser := user, initialQueryId := queryId,
                                          initialAddress := address, interface := interface))
  {
    hide Holds, ThreeBlobs, Strs, Word, Utf8, ReadInterface, ReadQuotaKey, ReadPatch;
    var texts := ThreeBlobs(user, queryId, address);
    HoldsInside(s, p, InfoHead(kind, user, queryId, address, interface, tail));
    HoldsSplit(s, p, [kind], texts + ([interface] + tail));
    HoldsSplit(s, p + 1, texts, [interface] + tail);
    HoldsSplit(s, p + 1 + |texts|, [interface], tail);
    ByteRead(s, p, kind);
    StrsRead(s, p + 1, user, queryId, address);
    ByteRead(s, p + 1 + |texts|, interface);
  }

  lemma TcpReads(s: bytes, p: nat, i: SentInfo, info: ClientInfo)
    requires i.TcpInfo? && SoundInfo(i) && info.interface == 1
    requires Holds(s, p, TcpTail(i.osUser, i.hostname, i.client, i.major, i.minor, i.revision, i.quota, i.patch))
    ensures p <= |s|
    ensures ReadTail(s, p, info)
         == Ok(info.(osUser := i.osUser, hostname := i.hostname, clientName := i.client,
                     major := i.major, minor := i.minor, revision := i.revision,
                     patch := if i.revision >= 54401 then i.patch else i.revision,
                     quotaKey := if i.revision >= 54060 then i.quota else info.quotaKey),
               p + |TcpTail(i.osUser, i.hostname, i.client, i.major, i.minor, i.revision, i.quota, i.patch)|)
  {
    hide Holds, ThreeBlobs, ThreeNumbers, EncodeBlob, Leb128, Str, Strs, Uvarint, Uvarints, Utf8;
    var texts, numbers := ThreeBlobs(i.osUser, i.hostname, i.client), ThreeNumbers(i.major, i.minor, i.revision);
    var quota := if i.revision >= 54060 then EncodeBlob(i.quota) else [];
    var patch := if i.revision >= 54401 then Leb128(i.patch) else [];
    HoldsInside(s, p, texts + (numbers + (quota + patch)));
    HoldsSplit(s, p, texts, numbers + (quota + patch));
    HoldsSplit(s, p + |texts|, numbers, quota + patch);
    HoldsSplit(s, p + |texts| + |numbers|, quota, patch);
    StrsRead(s, p, i.osUser, i.hostname, i.client);
    NumbersRead(s, p + |texts|, i.major, i.minor, i.revision);
    if i.revision >= 54060 {
      StrRoundTrip(s, p + |texts| + |numbers|, i.quota);
    }
    if i.revision >= 54401 {
      UvarintRoundTrip(s, p + |texts| + |numbers| + |quota|, i.patch);
    }
  }

  lemma HttpReads(s: bytes, p: nat, verb: byte, agent: bytes, info: ClientInfo)
    requires Name(agent) && info.interface == 2 && info.revision == 0 && Holds(s, p, [verb] + EncodeBlob(agent))
    ensures p <= |s|
    ensures ReadTail(s, p, info) == Ok(info.(httpMethod := verb, userAgent := agent), p + |[verb] + EncodeBlob(agent)|)
  {
    hide Holds, EncodeBlob, Str, Strs, Uvarints, Word, Utf8;
    HoldsInside(s, p, [verb] + EncodeBlob(agent));
    HoldsSplit(s, p, [verb], EncodeBlob(agent));
    ByteRead(s, p, verb);
    StrRoundTrip(s, p + 1, agent);
  }

  /** The client info that was sent, before the interface is overwritten. */
  ghost predicate InfoIs(r: ClientInfo, i: SentInfo) {
    match i
    case NoInfo => r.queryKind == 0
    case TcpInfo(kind, user, queryId, address, osUser, hostname, client, major, minor, revision, quota, patch) =>
      && r.queryKind == kind && r.initialUser == user && r.initialQueryId == queryId && r.initialAddress == address
      && r.osUser == osUser && r.hostname == hostname && r.clientName == client
      && r.major == major && r.minor == minor && r.revision == revision
      && r.patch == (if revision >= 54401 then patch else revision)
      && r.quotaKey == (if revision >= 54060 then quota else [])
      && r.httpMethod == 0 && r.userAgent == []
    case HttpInfo(kind, user, queryId, address, verb, agent) =>
      && r.queryKind == kind && r.initialUser == user && r.initialQueryId == queryId && r.initialAddress == address
      && r.httpMethod == verb && r.userAgent == agent && NoTcp(r)
    case OtherInfo(kind, user, queryId, address, _) =>
      && r.queryKind == kind && r.initialUser == user && r.initialQueryId == queryId && r.initialAddress == address
      && r.httpMethod == 0 && r.userAgent == [] && NoTcp(r)
  }

  ghost predicate NoTcp(r: ClientInfo) {
    && r.osUser == [] && r.hostname == [] && r.clientName == [] && r.quotaKey == []
    && r.major == 0 && r.minor == 0 && r.patch == 0 && r.revision == 0
  }

  lemma InfoReads(s: bytes, p: nat, i: SentInfo)
    requires SoundInfo(i) && Holds(s, p, InfoBytes(i))
    ensures p <= |s|
    ensures var d := ReadClientInfo(s, p);
            d.Ok? && d.pos == p + |InfoBytes(i)| && InfoIs(d.value, i) && (i.NoInfo? ==> d.value == NO_INFO)
  {
    hide Holds, InfoHead, TcpTail, EncodeBlob, ReadClientInfo, ReadTail, Utf8, Word;
    match i
    case NoInfo =>
      ByteRead(s, p, 0);
      KindZero(s, p);
    case TcpInfo(kind, user, queryId, address, osUser, hostname, client, major, minor, revision, quota, patch) =>
      var tail := TcpTail(osUser, hostname, client, major, minor, revision, quota, patch);
      HeadReads(s, p, kind, user, queryId, address, 1, tail);
      TcpReads(s, p + |InfoBytes(i)| - |tail|, i, NO_INFO.(
        queryKind := kind, initialUser := user, initialQueryId := queryId, initialAddress := address, interface := 1));
    case HttpInfo(kind, user, queryId, address, verb, agent) =>
      var tail := [verb] + EncodeBlob(agent);
      HeadReads(s, p, kind, user, queryId, address, 2, tail);
      HttpReads(s, p + |InfoBytes(i)| - |tail|, verb, agent, NO_INFO.(
        queryKind := kind, initialUser := user, initialQueryId := queryId, initialAddress := address, interface := 2));
    case OtherInfo(kind, user, queryId, address, interface) =>
      HeadReads(s, p, kind, user, queryId, address, interface, []);
      OtherReads(s, p + |InfoBytes(i)|, NO_INFO.(
        queryKind := kind, initialUser := user, initialQueryId := queryId, initialAddress := address,
        interface := interface));
  }

  lemma KindZero(s: bytes, p: nat)
    requires p <= |s| && Word(s, p, 1) == Ok(0, p + 1)
    ensures ReadClientInfo(s, p) == Ok(NO_INFO, p + 1)
  {
    hide Word;
  }

  lemma OtherReads(s: bytes, p: nat, info: ClientInfo)
    requires p <= |s| && info.interface != 1 && info.interface != 2 && info.revision == 0
    ensures ReadTail(s, p, info) == Ok(info, p)
  {
    hide Strs, Uvarints, Word, Str, Uvarint;
  }

  // ---------- settings ----------

  lemma SettingNames(t: Setting)
    ensures SettingName(t) != [] && Name(SettingName(t)) && KnownSetting(SettingName(t))
  {
    AsciiIsUtf8(SettingName(t));
  }

  /** Known settings, each with its number, up to an empty name. */
  lemma {:induction false} SettingsRead(s: bytes, p: nat, settings: seq<Setting>, rest: bytes)
    requires Holds(s, p, SettingsBytes(settings, EncodeBlob([]) + rest))
    ensures var q := p + |SettingsBytes(settings, EncodeBlob([]) + rest)| - |rest|;
            p <= q <= |s| && Holds(s, q, rest) && ReadSettings(s, p) == Ok(|settings|, q)
    decreases |settings|
  {
    hide Holds, EncodeBlob, Leb128, Str, Uvarint, KnownSetting, ReadSettings, SettingName, Utf8;
    HoldsInside(s, p, SettingsBytes(settings, EncodeBlob([]) + rest));
    SettingsStep(s, p);
    if |settings| == 0 {
      HoldsSplit(s, p, EncodeBlob([]), rest);
      AsciiIsUtf8([]);
      StrRoundTrip(s, p, []);
    } else {
      var t := settings[0];
      var name, number := EncodeBlob(SettingName(t)), Leb128(t.n);
      var more := SettingsBytes(settings[1..], EncodeBlob([]) + rest);
      HoldsSplit(s, p, name, number + more);
      HoldsSplit(s, p + |name|, number, more);
      SettingNames(t);
      StrRoundTrip(s, p, SettingName(t));
      UvarintRoundTrip(s, p + |name|, t.n);
      SettingsRead(s, p + |name| + |number|, settings[1..], rest);
    }
  }

  /** A setting of any other name is refused, after any known ones. */
  lemma {:induction false} StrangeSetting(s: bytes, p: nat, settings: seq<Setting>, name: bytes)
    requires Name(name) && name != [] && name != Ascii("max_block_size") && name != Ascii("max_threads")
    requires Holds(s, p, SettingsBytes(settings, EncodeBlob(name)))
    ensures p <= |s| && ReadSettings(s, p) == Err(UnknownSetting(name))
    decreases |settings|
  {
    hide Holds, EncodeBlob, Leb128, Str, Uvarint, ReadSettings, SettingName, Utf8;
    HoldsInside(s, p, SettingsBytes(settings, EncodeBlob(name)));
    SettingsStep(s, p);
    if |settings| == 0 {
      StrRoundTrip(s, p, name);
    } else {
      hide KnownSetting;
      var t := settings[0];
      var title, number := EncodeBlob(SettingName(t)), Leb128(t.n);
      var more := SettingsBytes(settings[1..], EncodeBlob(name));
      HoldsSplit(s, p, title, number + more);
      HoldsSplit(s, p + |title|, number, more);
      SettingNames(t);
      StrRoundTrip(s, p, SettingName(t));
      UvarintRoundTrip(s, p + |title|, t.n);
      StrangeSetting(s, p + |title| + |number|, settings[1..], name);
    }
  }

  // ---------- query ----------

  /** The client info of a query: the one sent, or else that of the hello; the interface is TCP in any case. */
  ghost predicate Understood(r: ClientInfo, sent: SentInfo, hello: Hello) {
    && r.interface == 1
    && if hello.revision >= 54032 && !sent.NoInfo? then InfoIs(r, sent)
       else
         && r.queryKind == 1 && r.clientName == hello.clientName && r.major == hello.major && r.minor == hello.minor
         && r.patch == hello.patch && r.revision == hello.revision
         && r.initialUser == [] && r.initialQueryId == [] && r.initialAddress == []
         && r.osUser == [] && r.hostname == [] && r.httpMethod == 0 && r.userAgent == [] && r.quotaKey == []
  }

  ghost predicate Answers(q: Query, a: Asked, hello: Hello) {
    && q.id == a.id && q.text == a.text && q.stage == a.stage && q.compression == a.compression
    && Understood(q.info, a.info, hello)
  }

  lemma OptionalReads(s: bytes, p: nat, i: SentInfo, hello: Hello)
    requires SoundInfo(i) && p <= |s|
    requires Holds(s, p, if hello.revision >= 54032 then InfoBytes(i) else [])
    ensures var d := ReadOptionalInfo(s, p, hello);
            && d.Ok? && d.pos == p + |if hello.revision >= 54032 then InfoBytes(i) else []|
            && Understood(FillInfo(d.value, hello), i, hello)
  {
    hide Holds, InfoBytes, ReadClientInfo, Utf8;
    if hello.revision >= 54032 {
      InfoReads(s, p, i);
    }
  }

  /** The bytes of a query, followed by anything, are read as that query, field by field, and exactly they are
      consumed. */
  lemma QueryReads(a: Asked, hello: Hello, s: bytes, p: nat, wire: Wire)
    requires SoundAsked(a) && wire.hello == Some(hello) && Holds(s, p, AskedBytes(a, hello.revision))
    ensures p <= |s|
    ensures var d := ReadPacket(s, p, wire);
            && d.Ok? && d.pos == p + |AskedBytes(a, hello.revision)|
            && d.value.QueryPacket? && Answers(d.value.query, a, hello)
  {
    hide Holds, EncodeBlob, Leb128, Str, Uvarint, Uvarints, Utf8, InfoBytes, SettingsBytes, ReadSettings, Understood;
    hide ReadOptionalInfo, FillInfo, SoundInfo;
    var id, text := EncodeBlob(a.id), EncodeBlob(a.text);
    var info := if hello.revision >= 54032 then InfoBytes(a.info) else [];
    var numbers := Leb128(a.stage) + (Leb128(a.compression) + text);
    var settings := SettingsBytes(a.settings, EncodeBlob([]) + numbers);
    HoldsInside(s, p, AskedBytes(a, hello.revision));
    HoldsSplit(s, p, [1], id + (info + settings));
    HoldsSplit(s, p + 1, id, info + settings);
    HoldsSplit(s, p + 1 + |id|, info, settings);
    ByteRead(s, p, 1);
    StrRoundTrip(s, p + 1, a.id);
    OptionalReads(s, p + 1 + |id|, a.info, hello);
    SettingsRead(s, p + 1 + |id| + |info|, a.settings, numbers);
    LastReads(a, s, p + 1 + |id| + |info| + |settings| - |numbers|);
  }

  lemma LastReads(a: Asked, s: bytes, p: nat)
    requires Name(a.text) && Holds(s, p, Leb128(a.stage) + (Leb128(a.compression) + EncodeBlob(a.text)))
    ensures p <= |s|
    ensures var q := p + |Leb128(a.stage)| + |Leb128(a.compression)|;
            && q <= |s| && Uvarints(s, p, 2) == Ok([a.stage, a.compression], q)
            && Str(s, q) == Ok(a.text, q + |EncodeBlob(a.text)|)
  {
    hide Holds, EncodeBlob, Leb128, Str, Uvarint, Uvarints, Utf8;
    HoldsInside(s, p, Leb128(a.stage) + (Leb128(a.compression) + EncodeBlob(a.text)));
    HoldsSplit(s, p, Leb128(a.stage), Leb128(a.compression) + EncodeBlob(a.text));
    HoldsSplit(s, p + |Leb128(a.stage)|, Leb128(a.compression), EncodeBlob(a.text));
    UvarintRoundTrip(s, p, a.stage);
    UvarintRoundTrip(s, p + |Leb128(a.stage)|, a.compression);
    StrRoundTrip(s, p + |Leb128(a.stage)| + |Leb128(a.compression)|, a.text);
    UvarintsAreTwo(s, p);
  }

  // ---------- the other packets ----------

  /** Ping and cancel are one byte. A query before any hello is refused, and so is every code that is not one of six. */
  lemma ShortPackets(s: bytes, p: nat, code: u64, wire: Wire)
    requires Holds(s, p, Leb128(code))
    ensures p <= |s|
    ensures code == 4 ==> ReadPacket(s, p, wire) == Ok(Ping, p + 1)
    ensures code == 3 ==> ReadPacket(s, p, wire) == Ok(Cancel, p + 1)
    ensures code == 1 && wire.hello.None? ==> ReadPacket(s, p, wire) == Err(UnexpectedPacket)
    ensures code == 5 || code == 6 || code > 7 ==> ReadPacket(s, p, wire) == Err(UnknownPacket(code))
  {
    hide Holds, Uvarint, ReadData, ReadQuery, ReadHello;
    HoldsInside(s, p, Leb128(code));
    UvarintRoundTrip(s, p, code);
    assert code < 128 ==> Leb128(code) == [code];
  }

  // ---------- blocks ----------

  /** A stored block that a client can send: written plain, or compressed into a frame that is not too big. */
  ghost predicate SoundSent(b: Block, codec: Codec, compress: bool) {
    && SoundBlock(b) && AllPlain(b.columns) && AllPrintable(b.columns)
    && (compress ==> SoundCodec(codec, Write(b)) && 9 + |codec.deflate(Write(b))| <= 0x4000_0000)
  }

  /** A data packet, or one with a scalar: the name of a table, and the block. */
  function BlockBytes(code: byte, table: bytes, b: Block, codec: Codec, compress: bool): bytes
    requires SoundBlock(b)
  {
    [code] + (EncodeBlob(table) + if compress then WriteCompressed(codec, b) else Write(b))
  }

  /** The bytes of a block, followed by anything, are read as that block, in the form that the connection expects. */
  lemma BlockReads(code: byte, table: bytes, b: Block, s: bytes, p: nat, wire: Wire)
    requires (code == 2 || code == 7) && Name(table) && SoundSent(b, wire.codec, wire.compress)
    requires Holds(s, p, BlockBytes(code, table, b, wire.codec, wire.compress))
    ensures p <= |s|
    ensures ReadPacket(s, p, wire)
         == Ok(DataPacket(Block(BlockInfo(1, b.info.overflows, 2, b.info.bucket, 0), b.columns)),
               p + |BlockBytes(code, table, b, wire.codec, wire.compress)|)
  {
    hide Holds, EncodeBlob, Uvarint, Str, Write, WriteCompressed, ReadData, SoundBlock, AllPrintable, SoundCodec, Utf8;
    hide AsLoaded, AllPlain;
    var name, body := EncodeBlob(table), WriteAs(wire, b);
    HoldsInside(s, p, [code] + (name + body));
    HoldsSplit(s, p, [code], name + body);
    HoldsSplit(s, p + 1, name, body);
    ByteRead(s, p, code);
    StrRoundTrip(s, p + 1, table);
    DataLoads(b, s, p + 1, p + 1 + |name|, wire);
    PlainColumns(b);
  }

  lemma PlainColumns(b: Block)
    requires SoundBlock(b) && AllPlain(b.columns)
    ensures AsLoaded(b.columns) == b.columns
  {
    PlainLoadedAs(b.columns);
  }

  // ---------- whole streams ----------

  datatype Message =
    | SaysHello(hello: Hello)
    | Asks(asked: Asked)
    | Sends(code: byte, table: bytes, block: Block)
    | Pings
    | Cancels

  /** Messages in an order that makes sense: a user in every hello, no query before the first of them, blocks as the
      last query wants them, and compressed before any query. */
  ghost predicate Sensible(script: seq<Message>, codec: Codec, hello: Option<Hello>, compress: bool)
    decreases |script|
  {
    |script| > 0 ==>
      match script[0]
      case SaysHello(h) =>
        SoundHello(h) && h.user != [] && h.patch == 0 && Sensible(script[1..], codec, Some(h), compress)
      case Asks(a) => SoundAsked(a) && hello.Some? && Sensible(script[1..], codec, hello, a.compression > 0)
      case Sends(code, table, b) =>
        && (code == 2 || code == 7) && Name(table) && SoundSent(b, codec, compress)
        && Sensible(script[1..], codec, hello, compress)
      case _ => Sensible(script[1..], codec, hello, compress)
  }

  function Written(script: seq<Message>, codec: Codec, hello: Option<Hello>, compress: bool): bytes
    requires Sensible(script, codec, hello, compress)
    decreases |script|
  {
    if |script| == 0 then []
    else
      match script[0]
      case SaysHello(h) => HelloBytes(h) + Written(script[1..], codec, Some(h), compress)
      case Asks(a) => AskedBytes(a, hello.value.revision) + Written(script[1..], codec, hello, a.compression > 0)
      case Sends(code, table, b) =>
        BlockBytes(code, table, b, codec, compress) + Written(script[1..], codec, hello, compress)
      case Pings => [4] + Written(script[1..], codec, hello, compress)
      case Cancels => [3] + Written(script[1..], codec, hello, compress)
  }

  /** The packets are the messages, one by one. */
  ghost predicate Received(packets: seq<Packet>, script: seq<Message>, hello: Option<Hello>)
    decreases |script|
  {
    && |packets| == |script|
    && (|script| > 0 ==>
          match script[0]
          case SaysHello(h) => packets[0] == HelloPacket(h) && Received(packets[1..], script[1..], Some(h))
          case Asks(a) =>
            && packets[0].QueryPacket? && hello.Some? && Answers(packets[0].query, a, hello.value)
            && Received(packets[1..], script[1..], hello)
          case Sends(_, _, b) =>
            && packets[0] == DataPacket(Block(BlockInfo(1, b.info.overflows, 2, b.info.bucket, 0), b.columns))
            && Received(packets[1..], script[1..], hello)
          case Pings => packets[0] == Ping && Received(packets[1..], script[1..], hello)
          case Cancels => packets[0] == Cancel && Received(packets[1..], script[1..], hello))
  }

  lemma DeliverFirst(w: bytes, rest: bytes, wire: Wire)
    requires ReadPacket(w + rest, 0, wire).Ok? && ReadPacket(w + rest, 0, wire).pos == |w|
    ensures var packet := ReadPacket(w + rest, 0, wire).value;
            var later := Deliver(rest, After(wire, packet));
            Deliver(w + rest, wire) == Served([packet] + later.packets, later.outcome)
  {
    hide ReadPacket, After;
    assert (w + rest)[|w|..] == rest;
  }

  lemma AtStart(w: bytes, rest: bytes)
    ensures Holds(w + rest, 0, w)
  {
  }

  lemma NothingDelivered(wire: Wire)
    ensures Deliver([], wire) == Served([], CleanEnd)
  {
  }

  ghost predicate Then(r: Served, packet: Packet, later: Served) {
    r.packets == [packet] + later.packets && r.outcome == later.outcome
  }

  lemma HelloMessage(h: Hello, rest: bytes, wire: Wire)
    requires SoundHello(h) && h.user != [] && h.patch == 0
    ensures Then(Deliver(HelloBytes(h) + rest, wire), HelloPacket(h), Deliver(rest, wire.(hello := Some(h))))
  {
    hide ReadPacket, Deliver, HelloBytes, Holds, Utf8;
    AtStart(HelloBytes(h), rest);
    HelloReads(h, HelloBytes(h) + rest, 0, wire);
    DeliverFirst(HelloBytes(h), rest, wire);
  }

  lemma QueryMessage(a: Asked, hello: Hello, rest: bytes, wire: Wire) returns (q: Query)
    requires SoundAsked(a) && wire.hello == Some(hello)
    ensures Answers(q, a, hello)
    ensures Then(Deliver(AskedBytes(a, hello.revision) + rest, wire), QueryPacket(q),
                 Deliver(rest, wire.(compress := a.compression > 0)))
  {
    hide ReadPacket, Deliver, AskedBytes, Holds, SoundAsked, Understood;
    var w := AskedBytes(a, hello.revision);
    AtStart(w, rest);
    QueryReads(a, hello, w + rest, 0, wire);
    DeliverFirst(w, rest, wire);
    q := ReadPacket(w + rest, 0, wire).value.query;
  }

  lemma BlockMessage(code: byte, table: bytes, b: Block, rest: bytes, wire: Wire)
    requires (code == 2 || code == 7) && Name(table) && SoundSent(b, wire.codec, wire.compress)
    ensures SoundBlock(b)
    ensures Then(Deliver(BlockBytes(code, table, b, wire.codec, wire.compress) + rest, wire),
                 DataPacket(Block(BlockInfo(1, b.info.overflows, 2, b.info.bucket, 0), b.columns)), Deliver(rest, wire))
  {
    hide ReadPacket, Deliver, BlockBytes, Holds, Utf8, SoundBlock, AllPrintable, SoundCodec, AllPlain, Write;
    var w := BlockBytes(code, table, b, wire.codec, wire.compress);
    AtStart(w, rest);
    BlockReads(code, table, b, w + rest, 0, wire);
    DeliverFirst(w, rest, wire);
  }

  lemma ShortMessage(code: byte, rest: bytes, wire: Wire)
    requires code == 3 || code == 4
    ensures Then(Deliver([code] + rest, wire), if code == 3 then Cancel else Ping, Deliver(rest, wire))
  {
    hide ReadPacket, Deliver, Holds;
    AtStart([code], rest);
    assert Leb128(code) == [code];
    ShortPackets([code] + rest, 0, code, wire);
    DeliverFirst([code], rest, wire);
  }

  /** Whatever a client says, in an order that makes sense, is delivered: each message as its packet, and a clean
      end. */
  lemma {:induction false} ScriptDelivers(script: seq<Message>, codec: Codec, hello: Option<Hello>, compress: bool)
    requires Sensible(script, codec, hello, compress)
    ensures var r := Deliver(Written(script, codec, hello, compress), Wire(codec, hello, compress));
            r.outcome == CleanEnd && Received(r.packets, script, hello)
    decreases |script|
  {
    hide Deliver, HelloBytes, AskedBytes, BlockBytes, SoundHello, SoundAsked, SoundSent, Answers, Name;
    var wire := Wire(codec, hello, compress);
    if |script| == 0 {
      NothingDelivered(wire);
    } else {
      match script[0]
      case SaysHello(h) =>
        ScriptDelivers(script[1..], codec, Some(h), compress);
        HelloMessage(h, Written(script[1..], codec, Some(h), compress), wire);
      case Asks(a) =>
        ScriptDelivers(script[1..], codec, hello, a.compression > 0);
        var q := QueryMessage(a, hello.value, Written(script[1..], codec, hello, a.compression > 0), wire);
      case Sends(code, table, b) =>
        ScriptDelivers(script[1..], codec, hello, compress);
        BlockMessage(code, table, b, Written(script[1..], codec, hello, compress), wire);
      case Pings =>
        ScriptDelivers(script[1..], codec, hello, compress);
        ShortMessage(4, Written(script[1..], codec, hello, compress), wire);
      case Cancels =>
        ScriptDelivers(script[1..], codec, hello, compress);
        ShortMessage(3, Written(script[1..], codec, hello, compress), wire);
    }
  }

  /** The same however the bytes arrive. */
  lemma ScriptServed(script: seq<Message>, codec: Codec, pieces: seq<bytes>)
    requires Sensible(script, codec, None, true) && Flat(pieces) == Written(script, codec, None, true)
    ensures var r := Serve([], pieces, Wire(codec, None, true));
            r.outcome == CleanEnd && Received(r.packets, script, None)
  {
    hide Deliver, Serve, Written, Sensible, Received;
    ServeIsDeliver([], pieces, Wire(codec, None, true));
    assert [] + Flat(pieces) == Flat(pieces);
    ScriptDelivers(script, codec, None, true);
  }

  /** A stream that ends within a packet, wherever it is cut, delivers nothing of it and ends as a reset. */
  lemma CutOff(s: bytes, wire: Wire, k: nat)
    requires ReadPacket(s, 0, wire).Ok? && ReadPacket(s, 0, wire).pos == |s| && 0 < k < |s|
    ensures Deliver(s[..k], wire) == Served([], ResetByPeer)
  {
    hide ReadPacket;
    PacketPrompt(s, wire, k);
  }

  // ---------- sent by `send_client_data` ----------

  lemma OneChunk(m: nat, n: nat)
    requires 0 < n && m <= n
    ensures Cuts(m, n) == [Cut(0, m)]
  {
    if m > 0 {
      assert CutsFrom(0, m, n) == [Cut(0, m)] + CutsFrom(m, m, n);
    }
  }

  lemma NoTable()
    ensures EncodeBlob([]) == [0]
  {
  }

  /** The chunk of all rows is written as the column is. */
  lemma WholeColumn(c: NamedColumn)
    requires SoundNamed(c)
    ensures var chunk := NamedColumn(c.name, Chunk(c.data, 0, ViewLength(c.data)));
            SoundNamed(chunk) && WriteColumn(chunk) == WriteColumn(c)
  {
    ColumnChunkSound(c, Cut(0, ViewLength(c.data)));
    hide EncodeBlob, Print, Utf8, Utf8Items, SoundView;
  }

  lemma {:induction false} SameColumns(a: seq<NamedColumn>, b: seq<NamedColumn>)
    requires AllSound(a) && AllSound(b) && |a| == |b|
    requires forall i | 0 <= i < |a| :: WriteColumn(a[i]) == WriteColumn(b[i])
    ensures WriteColumns(a) == WriteColumns(b)
    decreases |a|
  {
    hide WriteColumn, SoundNamed;
    if |a| > 0 {
      SameColumns(a[1..], b[1..]);
    }
  }

  lemma WholeChunk(b: Block)
    requires SoundBlock(b)
    ensures var chunk, plain := ChunkOf(b, Cut(0, RowCount(b.columns))), Block(DEFAULT_INFO, b.columns);
            SoundBlock(chunk) && SoundBlock(plain) && Write(chunk) == Write(plain)
  {
    hide WriteColumn, WriteColumns, SoundNamed, WriteInfo, Leb128, ViewLength;
    var chunk := ChunkOf(b, Cut(0, RowCount(b.columns)));
    ChunkSound(b, Cut(0, RowCount(b.columns)));
    forall i | 0 <= i < |b.columns| ensures WriteColumn(chunk.columns[i]) == WriteColumn(b.columns[i]) {
      WholeColumn(b.columns[i]);
    }
    SameColumns(chunk.columns, b.columns);
    WholeRows(b);
  }

  lemma WholeRows(b: Block)
    requires SoundBlock(b)
    ensures RowCount(ChunkOf(b, Cut(0, RowCount(b.columns))).columns) == RowCount(b.columns)
  {
    hide SoundNamed;
  }

  /** A block of at most 1 048 576 rows is sent as its code, the name of no table, and the block itself. */
  lemma SmallBlockSent(wire: Wire, code: u64, b: Block)
    requires SoundBlock(b) && RowCount(b.columns) <= 1_048_576
    ensures AllSoundBlocks(Chunks(b, INSERT_BLOCK_SIZE)) && SoundBlock(Block(DEFAULT_INFO, b.columns))
    ensures SendData(wire, code, b)
         == Leb128(code) + ([0] + if wire.compress then WriteCompressed(wire.codec, Block(DEFAULT_INFO, b.columns))
                                  else Write(Block(DEFAULT_INFO, b.columns)))
  {
    hide Write, ChunkOf, RowCount, Leb128, SoundBlock, WriteFrame;
    ChunksSound(b, INSERT_BLOCK_SIZE);
    WholeChunk(b);
    OneChunk(RowCount(b.columns), INSERT_BLOCK_SIZE);
    var chunks := Chunks(b, INSERT_BLOCK_SIZE);
    WriteAllFirst(wire, chunks);
    NoTable();
  }

  /** A hello, a query, and a block sent by `send_client_data` in the form the query asks for, from a fresh
      connection. */
  lemma HelloQueryBlock(h: Hello, a: Asked, b: Block, codec: Codec)
    requires SoundHello(h) && h.user != [] && h.patch == 0 && SoundAsked(a)
    requires SoundBlock(b) && AllSoundBlocks(Chunks(b, INSERT_BLOCK_SIZE)) && RowCount(b.columns) <= 1_048_576
    requires SoundSent(Block(DEFAULT_INFO, b.columns), codec, a.compression > 0)
    ensures var sent := SendData(Wire(codec, None, a.compression > 0), 2, b);
            var r := Deliver(HelloBytes(h) + (AskedBytes(a, h.revision) + sent), Wire(codec, None, true));
            && r.outcome == CleanEnd && |r.packets| == 3 && r.packets[0] == HelloPacket(h)
            && r.packets[1].QueryPacket? && Answers(r.packets[1].query, a, h)
            && r.packets[2] == DataPacket(Block(BlockInfo(1, false, 2, 0xFFFF_FFFF, 0), b.columns))
  {
    hide Deliver, HelloBytes, AskedBytes, SoundHello, SoundAsked, SoundSent, SoundBlock, Answers, SendData, Write;
    hide WriteCompressed, RowCount;
    var codedWire := Wire(codec, None, a.compression > 0);
    var plain := Block(DEFAULT_INFO, b.columns);
    SmallBlockSent(codedWire, 2, b);
    var sent := SendData(codedWire, 2, b);
    assert sent == BlockBytes(2, [], plain, codec, a.compression > 0) + [] by {
      NoTable();
      assert Leb128(2) == [2];
    }
    AsciiIsUtf8([]);
    HelloMessage(h, AskedBytes(a, h.revision) + sent, Wire(codec, None, true));
    var q := QueryMessage(a, h, sent, Wire(codec, Some(h), true));
    BlockMessage(2, [], plain, [], Wire(codec, Some(h), a.compression > 0));
    NothingDelivered(Wire(codec, Some(h), a.compression > 0));
  }
}
