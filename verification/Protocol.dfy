/** Client packets: hello, query with its settings, data, ping and cancel. */
module Protocol {
  import opened Basics
  import opened Text
  import opened Varint
  import opened Decoders
  import opened Blocks
  import opened Compressed

  const CLIENT_HELLO := 0
  const CLIENT_QUERY := 1
  const CLIENT_DATA := 2
  const CLIENT_CANCEL := 3
  const CLIENT_PING := 4
  const CLIENT_SCALAR := 7

  const MIN_REVISION_WITH_CLIENT_INFO := 54032
  const MIN_REVISION_WITH_QUOTA_KEY := 54060
  const MIN_REVISION_WITH_VERSION_PATCH := 54401

  const TCP := 1
  const HTTP := 2
  const INITIAL_QUERY := 1

  datatype Hello = Hello(
    clientName: bytes, major: u64, minor: u64, revision: u64,
    database: bytes, user: bytes, password: bytes, patch: u64)

  datatype ClientInfo = ClientInfo(
    queryKind: nat, initialUser: bytes, initialQueryId: bytes, initialAddress: bytes, interface: nat,
    osUser: bytes, hostname: bytes, clientName: bytes,
    major: u64, minor: u64, patch: u64, revision: u64,
    httpMethod: nat, userAgent: bytes, quotaKey: bytes)

  const NO_INFO := ClientInfo(0, [], [], [], 0, [], [], [], 0, 0, 0, 0, 0, [], [])

  datatype Query = Query(id: bytes, info: ClientInfo, stage: u64, compression: u64, text: bytes)

  datatype Packet =
    | Ping
    | Cancel
    | HelloPacket(hello: Hello)
    | QueryPacket(query: Query)
    | DataPacket(block: Block)

  // ---------- runs of strings and numbers ----------

  function Strs(s: bytes, p: nat, n: nat): (d: Dec<seq<bytes>>)
    requires p <= |s|
    ensures d.Ok? ==> p + n <= d.pos <= |s| && |d.value| == n
    decreases n
  {
    if n == 0 then Ok([], p)
    else
      var (b, q) :- Str(s, p);
      var (rest, end) :- Strs(s, q, n - 1);
      Ok([b] + rest, end)
  }

  function Uvarints(s: bytes, p: nat, n: nat): (d: Dec<seq<u64>>)
    requires p <= |s|
    ensures d.Ok? ==> p + n <= d.pos <= |s| && |d.value| == n
    decreases n
  {
    if n == 0 then Ok([], p)
    else
      var (x, q) :- Uvarint(s, p);
      var (rest, end) :- Uvarints(s, q, n - 1);
      Ok([x] + rest, end)
  }

  lemma {:induction false} StrsLocal(s: bytes, t: bytes, p: nat, n: nat)
    requires p <= |s| && p <= |t|
    requires Settled(Strs(s, p, n), s, t)
    ensures Strs(t, p, n) == Strs(s, p, n)
    decreases n
  {
    hide Str, Agree;
    Shared(Strs(s, p, n), s, t);
    if n > 0 {
      StrLocal(s, t, p);
      if Str(s, p).Ok? {
        StrsLocal(s, t, Str(s, p).pos, n - 1);
      }
    }
  }

  lemma {:induction false} UvarintsLocal(s: bytes, t: bytes, p: nat, n: nat)
    requires p <= |s| && p <= |t|
    requires Settled(Uvarints(s, p, n), s, t)
    ensures Uvarints(t, p, n) == Uvarints(s, p, n)
    decreases n
  {
    hide Uvarint, Agree;
    Shared(Uvarints(s, p, n), s, t);
    if n > 0 {
      UvarintLocal(s, t, p);
      if Uvarint(s, p).Ok? {
        UvarintsLocal(s, t, Uvarint(s, p).pos, n - 1);
      }
    }
  }

  // ---------- hello ----------

  function ReadHello(s: bytes, p: nat): (d: Dec<Hello>)
    requires p <= |s|
    ensures d.Ok? ==> p < d.pos <= |s|
  {
    var (name, p1) :- Str(s, p);
    var (v, p2) :- Uvarints(s, p1, 3);
    var (t, p3) :- Strs(s, p2, 3);
    if t[1] == [] then Err(NoUser)
    else Ok(Hello(name, v[0], v[1], v[2], t[0], t[1], t[2], 0), p3)
  }

  lemma ReadHelloLocal(s: bytes, t: bytes, p: nat)
    requires p <= |s| && p <= |t|
    requires Settled(ReadHello(s, p), s, t)
    ensures ReadHello(t, p) == ReadHello(s, p)
  {
    hide Str, Uvarints, Strs, Agree;
    Shared(ReadHello(s, p), s, t);
    StrLocal(s, t, p);
    if Str(s, p).Ok? {
      var p1 := Str(s, p).pos;
      UvarintsLocal(s, t, p1, 3);
      if Uvarints(s, p1, 3).Ok? {
        StrsLocal(s, t, Uvarints(s, p1, 3).pos, 3);
      }
    }
  }

  // ---------- query ----------

  /** The part that depends on the interface. */
  function ReadInterface(s: bytes, p: nat, info: ClientInfo): (d: Dec<ClientInfo>)
    requires p <= |s|
    ensures d.Ok? ==> p <= d.pos <= |s|
  {
    if info.interface == TCP then
      var (t, p1) :- Strs(s, p, 3);
      var (v, p2) :- Uvarints(s, p1, 3);
      Ok(info.(osUser := t[0], hostname := t[1], clientName := t[2],
               major := v[0], minor := v[1], revision := v[2], patch := v[2]), p2)
    else if info.interface == HTTP then
      var (httpMethod, p1) :- Word(s, p, 1);
      var (agent, p2) :- Str(s, p1);
      Ok(info.(httpMethod := httpMethod, userAgent := agent), p2)
    else Ok(info, p)
  }

  function ReadQuotaKey(s: bytes, p: nat, info: ClientInfo): (d: Dec<ClientInfo>)
    requires p <= |s|
    ensures d.Ok? ==> p <= d.pos <= |s|
  {
    if info.revision >= MIN_REVISION_WITH_QUOTA_KEY then
      var (key, p1) :- Str(s, p);
      Ok(info.(quotaKey := key), p1)
    else Ok(info, p)
  }

  function ReadPatch(s: bytes, p: nat, info: ClientInfo): (d: Dec<ClientInfo>)
    requires p <= |s|
    ensures d.Ok? ==> p <= d.pos <= |s|
  {
    if info.interface == TCP && info.revision >= MIN_REVISION_WITH_VERSION_PATCH then
      var (patch, p1) :- Uvarint(s, p);
      Ok(info.(patch := patch), p1)
    else Ok(info, p)
  }

  /** `QueryClientInfo::read_from`: a kind of 0 ends it at once. */
  function ReadClientInfo(s: bytes, p: nat): (d: Dec<ClientInfo>)
    requires p <= |s|
    ensures d.Ok? ==> p < d.pos <= |s|
  {
    var (kind, p1) :- Word(s, p, 1);
    if kind == 0 then Ok(NO_INFO, p1)
    else
      var (t, p2) :- Strs(s, p1, 3);
      var (interface, p3) :- Word(s, p2, 1);
      var info := NO_INFO.(queryKind := kind, initialUser := t[0], initialQueryId := t[1],
                           initialAddress := t[2], interface := interface);
      var (info1, p4) :- ReadInterface(s, p3, info);
      var (info2, p5) :- ReadQuotaKey(s, p4, info1);
      ReadPatch(s, p5, info2)
  }

  predicate KnownSetting(name: bytes) {
    name == Ascii("max_block_size") || name == Ascii("max_threads")
  }

  /** The settings loop: pairs of a known name and a number up to an empty name. Gives their count. */
  function ReadSettings(s: bytes, p: nat): (d: Dec<nat>)
    requires p <= |s|
    ensures d.Ok? ==> p < d.pos <= |s|
    decreases |s| - p
  {
    var (name, p1) :- Str(s, p);
    if name == [] then Ok(0, p1)
    else if !KnownSetting(name) then Err(UnknownSetting(name))
    else
      var (_, p2) :- Uvarint(s, p1);
      var (n, end) :- ReadSettings(s, p2);
      Ok(n + 1, end)
  }

  /** A query without client info of its own gets the one of the hello. */
  function FillInfo(info: ClientInfo, hello: Hello): ClientInfo {
    (if info.queryKind == 0 then
       info.(queryKind := INITIAL_QUERY, clientName := hello.clientName,
             major := hello.major, minor := hello.minor, patch := hello.patch, revision := hello.revision)
     else info).(interface := TCP)
  }

  function ReadOptionalInfo(s: bytes, p: nat, hello: Hello): (d: Dec<ClientInfo>)
    requires p <= |s|
    ensures d.Ok? ==> p <= d.pos <= |s|
  {
    if hello.revision >= MIN_REVISION_WITH_CLIENT_INFO then ReadClientInfo(s, p) else Ok(NO_INFO, p)
  }

  function ReadQuery(s: bytes, p: nat, hello: Hello): (d: Dec<Query>)
    requires p <= |s|
    ensures d.Ok? ==> p < d.pos <= |s|
  {
    var (id, p1) :- Str(s, p);
    var (info, p2) :- ReadOptionalInfo(s, p1, hello);
    var (_, p3) :- ReadSettings(s, p2);
    var (v, p4) :- Uvarints(s, p3, 2);
    var (text, p5) :- Str(s, p4);
    Ok(Query(id, FillInfo(info, hello), v[0], v[1], text), p5)
  }

  lemma ReadInterfaceLocal(s: bytes, t: bytes, p: nat, info: ClientInfo)
    requires p <= |s| && p <= |t|
    requires Settled(ReadInterface(s, p, info), s, t)
    ensures ReadInterface(t, p, info) == ReadInterface(s, p, info)
  {
    hide Str, Uvarints, Strs, Word, Agree;
    Shared(ReadInterface(s, p, info), s, t);
    if info.interface == TCP {
      StrsLocal(s, t, p, 3);
      if Strs(s, p, 3).Ok? {
        UvarintsLocal(s, t, Strs(s, p, 3).pos, 3);
      }
    } else if info.interface == HTTP {
      WordLocal(s, t, p, 1);
      if Word(s, p, 1).Ok? {
        StrLocal(s, t, p + 1);
      }
    }
  }

  lemma ReadTailLocal(s: bytes, t: bytes, p: nat, info: ClientInfo)
    requires p <= |s| && p <= |t|
    ensures Settled(ReadQuotaKey(s, p, info), s, t) ==> ReadQuotaKey(t, p, info) == ReadQuotaKey(s, p, info)
    ensures Settled(ReadPatch(s, p, info), s, t) ==> ReadPatch(t, p, info) == ReadPatch(s, p, info)
  {
    hide Str, Uvarint, Agree;
    if Settled(Str(s, p), s, t) { StrLocal(s, t, p); }
    if Settled(Uvarint(s, p), s, t) { UvarintLocal(s, t, p); }
  }

  lemma ReadClientInfoLocal(s: bytes, t: bytes, p: nat)
    requires p <= |s| && p <= |t|
    requires Settled(ReadClientInfo(s, p), s, t)
    ensures ReadClientInfo(t, p) == ReadClientInfo(s, p)
  {
    hide Strs, Word, Agree, ReadInterface, ReadQuotaKey, ReadPatch;
    Shared(ReadClientInfo(s, p), s, t);
    WordLocal(s, t, p, 1);
    var d := Word(s, p, 1);
    if d.Ok? && d.value != 0 {
      StrsLocal(s, t, p + 1, 3);
      var e := Strs(s, p + 1, 3);
      if e.Ok? {
        WordLocal(s, t, e.pos, 1);
        var f := Word(s, e.pos, 1);
        if f.Ok? {
          var info := NO_INFO.(queryKind := d.value, initialUser := e.value[0], initialQueryId := e.value[1],
                               initialAddress := e.value[2], interface := f.value);
          ReadInterfaceLocal(s, t, f.pos, info);
          var g := ReadInterface(s, f.pos, info);
          if g.Ok? {
            ReadTailLocal(s, t, g.pos, g.value);
            var h := ReadQuotaKey(s, g.pos, g.value);
            if h.Ok? {
              ReadTailLocal(s, t, h.pos, h.value);
            }
          }
        }
      }
    }
  }

  lemma {:induction false} ReadSettingsLocal(s: bytes, t: bytes, p: nat)
    requires p <= |s| && p <= |t|
    requires Settled(ReadSettings(s, p), s, t)
    ensures ReadSettings(t, p) == ReadSettings(s, p)
    decreases |s| - p
  {
    hide Str, Uvarint, Agree, KnownSetting;
    Shared(ReadSettings(s, p), s, t);
    StrLocal(s, t, p);
    var d := Str(s, p);
    if d.Ok? && d.value != [] && KnownSetting(d.value) {
      UvarintLocal(s, t, d.pos);
      if Uvarint(s, d.pos).Ok? {
        ReadSettingsLocal(s, t, Uvarint(s, d.pos).pos);
      }
    }
  }

  lemma ReadQueryLocal(s: bytes, t: bytes, p: nat, hello: Hello)
    requires p <= |s| && p <= |t|
    requires Settled(ReadQuery(s, p, hello), s, t)
    ensures ReadQuery(t, p, hello) == ReadQuery(s, p, hello)
  {
    hide Str, Uvarints, Agree, ReadClientInfo, ReadSettings, FillInfo;
    Shared(ReadQuery(s, p, hello), s, t);
    StrLocal(s, t, p);
    if Str(s, p).Ok? {
      var p1 := Str(s, p).pos;
      if hello.revision >= MIN_REVISION_WITH_CLIENT_INFO {
        ReadClientInfoLocal(s, t, p1);
      }
      var d := ReadOptionalInfo(s, p1, hello);
      if d.Ok? {
        ReadSettingsLocal(s, t, d.pos);
        if ReadSettings(s, d.pos).Ok? {
          var p3 := ReadSettings(s, d.pos).pos;
          UvarintsLocal(s, t, p3, 2);
          if Uvarints(s, p3, 2).Ok? {
            StrLocal(s, t, Uvarints(s, p3, 2).pos);
          }
        }
      }
    }
  }

  // ---------- packets ----------

  /** What the reading side of a connection remembers between packets. */
  datatype Wire = Wire(codec: Codec, hello: Option<Hello>, compress: bool)

  /** `parse_data`: the name of a temporary table, then a block. */
  function ReadData(s: bytes, p: nat, wire: Wire): (d: Dec<Block>)
    requires p <= |s|
    ensures d.Ok? ==> p < d.pos <= |s|
  {
    var (_, q) :- Str(s, p);
    if wire.compress then CompressedLoad(wire.codec, s, q) else RawLoad(s, q)
  }

  /** The body of a packet after its code. */
  function ReadBody(s: bytes, p: nat, code: u64, wire: Wire): (d: Dec<Packet>)
    requires p <= |s|
    ensures d.Ok? ==> p <= d.pos <= |s|
  {
    if code == CLIENT_PING then Ok(Ping, p)
    else if code == CLIENT_CANCEL then Ok(Cancel, p)
    else if code == CLIENT_DATA || code == CLIENT_SCALAR then
      var (block, q) :- ReadData(s, p, wire);
      Ok(DataPacket(block), q)
    else if code == CLIENT_QUERY then
      if wire.hello.None? then Err(UnexpectedPacket)
      else
        var (query, q) :- ReadQuery(s, p, wire.hello.value);
        Ok(QueryPacket(query), q)
    else if code == CLIENT_HELLO then
      var (hello, q) :- ReadHello(s, p);
      Ok(HelloPacket(hello), q)
    else Err(UnknownPacket(code))
  }

  /** `Parser::parse_packet`. A packet takes at least one byte. */
  function ReadPacket(s: bytes, p: nat, wire: Wire): (d: Dec<Packet>)
    requires p <= |s|
    ensures d.Ok? ==> p < d.pos <= |s|
  {
    var (code, q) :- Uvarint(s, p);
    ReadBody(s, q, code, wire)
  }

  lemma ReadDataLocal(s: bytes, t: bytes, p: nat, wire: Wire)
    requires p <= |s| && p <= |t|
    requires Settled(ReadData(s, p, wire), s, t)
    ensures ReadData(t, p, wire) == ReadData(s, p, wire)
  {
    hide Str, Agree, CompressedLoad, RawLoad;
    Shared(ReadData(s, p, wire), s, t);
    StrLocal(s, t, p);
    if Str(s, p).Ok? {
      if wire.compress {
        CompressedLoadLocal(wire.codec, s, t, Str(s, p).pos);
      } else {
        RawLoadLocal(s, t, Str(s, p).pos);
      }
    }
  }

  lemma ReadBodyLocal(s: bytes, t: bytes, p: nat, code: u64, wire: Wire)
    requires p <= |s| && p <= |t|
    requires Settled(ReadBody(s, p, code, wire), s, t)
    ensures ReadBody(t, p, code, wire) == ReadBody(s, p, code, wire)
  {
    hide Agree, ReadData, ReadQuery, ReadHello;
    if code == CLIENT_DATA || code == CLIENT_SCALAR {
      ReadDataLocal(s, t, p, wire);
    } else if code == CLIENT_QUERY && wire.hello.Some? {
      ReadQueryLocal(s, t, p, wire.hello.value);
    } else if code == CLIENT_HELLO {
      ReadHelloLocal(s, t, p);
    }
  }

  /** Every reader is settled by the bytes it rests on: a packet by the bytes it consumed, an error by
      what had arrived. */
  lemma ReadPacketLocal(s: bytes, t: bytes, p: nat, wire: Wire)
    requires p <= |s| && p <= |t|
    requires Settled(ReadPacket(s, p, wire), s, t)
    ensures ReadPacket(t, p, wire) == ReadPacket(s, p, wire)
  {
    hide Agree, Uvarint, ReadBody;
    Shared(ReadPacket(s, p, wire), s, t);
    UvarintLocal(s, t, p);
    if Uvarint(s, p).Ok? {
      ReadBodyLocal(s, t, Uvarint(s, p).pos, Uvarint(s, p).value, wire);
    }
  }

  // ---------- errors ----------

  lemma StrErrors(s: bytes, p: nat)
    requires p <= |s|
    ensures Str(s, p).Err? ==> Str(s, p).error != WouldBlock
  {
    hide Blob, Utf8;
    BlobErrors(s, p);
  }

  lemma {:induction false} RunErrors(s: bytes, p: nat, n: nat)
    requires p <= |s|
    ensures Strs(s, p, n).Err? ==> Strs(s, p, n).error != WouldBlock
    ensures Uvarints(s, p, n).Err? ==> Uvarints(s, p, n).error != WouldBlock
    decreases n
  {
    hide Str, UvarintFrom;
    StrErrors(s, p);
    UvarintErrors(s, p, 0, 0);
    if n > 0 {
      if Str(s, p).Ok? { RunErrors(s, Str(s, p).pos, n - 1); }
      if Uvarint(s, p).Ok? { RunErrors(s, Uvarint(s, p).pos, n - 1); }
    }
  }

  lemma HelloErrors(s: bytes, p: nat)
    requires p <= |s|
    ensures ReadHello(s, p).Err? ==> ReadHello(s, p).error != WouldBlock
  {
    hide Str, Strs, Uvarints;
    StrErrors(s, p);
    if Str(s, p).Ok? {
      var p1 := Str(s, p).pos;
      RunErrors(s, p1, 3);
      if Uvarints(s, p1, 3).Ok? {
        RunErrors(s, Uvarints(s, p1, 3).pos, 3);
      }
    }
  }

  lemma InterfaceErrors(s: bytes, p: nat, info: ClientInfo)
    requires p <= |s|
    ensures ReadInterface(s, p, info).Err? ==> ReadInterface(s, p, info).error != WouldBlock
    ensures ReadQuotaKey(s, p, info).Err? ==> ReadQuotaKey(s, p, info).error != WouldBlock
    ensures ReadPatch(s, p, info).Err? ==> ReadPatch(s, p, info).error != WouldBlock
  {
    hide Str, Strs, Uvarints, UvarintFrom, Word;
    StrErrors(s, p);
    UvarintErrors(s, p, 0, 0);
    RunErrors(s, p, 3);
    if info.interface == TCP && Strs(s, p, 3).Ok? { RunErrors(s, Strs(s, p, 3).pos, 3); }
    if info.interface == HTTP && Word(s, p, 1).Ok? { StrErrors(s, p + 1); }
  }

  lemma ClientInfoErrors(s: bytes, p: nat)
    requires p <= |s|
    ensures ReadClientInfo(s, p).Err? ==> ReadClientInfo(s, p).error != WouldBlock
  {
    hide Strs, Word, ReadInterface, ReadQuotaKey, ReadPatch;
    var d := Word(s, p, 1);
    if d.Ok? && d.value != 0 {
      RunErrors(s, p + 1, 3);
      var e := Strs(s, p + 1, 3);
      if e.Ok? && Word(s, e.pos, 1).Ok? {
        var f := Word(s, e.pos, 1);
        var info := NO_INFO.(queryKind := d.value, initialUser := e.value[0], initialQueryId := e.value[1],
                             initialAddress := e.value[2], interface := f.value);
        InterfaceErrors(s, f.pos, info);
        var g := ReadInterface(s, f.pos, info);
        if g.Ok? {
          InterfaceErrors(s, g.pos, g.value);
          var h := ReadQuotaKey(s, g.pos, g.value);
          if h.Ok? {
            InterfaceErrors(s, h.pos, h.value);
          }
        }
      }
    }
  }

  lemma {:induction false} SettingsErrors(s: bytes, p: nat)
    requires p <= |s|
    ensures ReadSettings(s, p).Err? ==> ReadSettings(s, p).error != WouldBlock
    decreases |s| - p
  {
    hide Str, UvarintFrom, KnownSetting;
    StrErrors(s, p);
    var d := Str(s, p);
    if d.Ok? && d.value != [] && KnownSetting(d.value) {
      UvarintErrors(s, d.pos, 0, 0);
      if Uvarint(s, d.pos).Ok? {
        SettingsErrors(s, Uvarint(s, d.pos).pos);
      }
    }
  }

  lemma QueryErrors(s: bytes, p: nat, hello: Hello)
    requires p <= |s|
    ensures ReadQuery(s, p, hello).Err? ==> ReadQuery(s, p, hello).error != WouldBlock
  {
    hide Str, Uvarints, ReadClientInfo, ReadSettings, FillInfo;
    StrErrors(s, p);
    if Str(s, p).Ok? {
      var p1 := Str(s, p).pos;
      ClientInfoErrors(s, p1);
      var d := ReadOptionalInfo(s, p1, hello);
      if d.Ok? {
        SettingsErrors(s, d.pos);
        if ReadSettings(s, d.pos).Ok? {
          var p3 := ReadSettings(s, d.pos).pos;
          RunErrors(s, p3, 2);
          if Uvarints(s, p3, 2).Ok? {
            StrErrors(s, Uvarints(s, p3, 2).pos);
          }
        }
      }
    }
  }

  lemma DataErrors(s: bytes, p: nat, wire: Wire)
    requires p <= |s|
    ensures ReadData(s, p, wire).Err? ==> ReadData(s, p, wire).error != WouldBlock
  {
    hide Str, RawLoad, Inflate, FrameEnd, Rectangular;
    StrErrors(s, p);
    if Str(s, p).Ok? {
      var q := Str(s, p).pos;
      LoadedBlock(s, q);
      LoadedBlock(Inflate(wire.codec, s, q).data, 0);
    }
  }

  /** Missing bytes are never reported as an error of the stream. */
  lemma PacketErrors(s: bytes, p: nat, wire: Wire)
    requires p <= |s|
    ensures ReadPacket(s, p, wire).Err? ==> ReadPacket(s, p, wire).error != WouldBlock
  {
    hide UvarintFrom, ReadData, ReadQuery, ReadHello;
    UvarintErrors(s, p, 0, 0);
    if Uvarint(s, p).Ok? {
      var q := Uvarint(s, p).pos;
      DataErrors(s, q, wire);
      HelloErrors(s, q);
      if wire.hello.Some? {
        QueryErrors(s, q, wire.hello.value);
      }
    }
  }

  /** A packet is there as soon as its last byte is, and not before. */
  lemma PacketPrompt(s: bytes, wire: Wire, k: nat)
    requires ReadPacket(s, 0, wire).Ok? && k <= |s|
    ensures var d := ReadPacket(s, 0, wire);
            ReadPacket(s[..k], 0, wire) == if k < d.pos then More else d
  {
    hide ReadPacket;
    var d, e := ReadPacket(s, 0, wire), ReadPacket(s[..k], 0, wire);
    if k < d.pos {
      if !e.More? {
        ReadPacketLocal(s[..k], s, 0, wire);
        assert false;
      }
    } else {
      ReadPacketLocal(s, s[..k], 0, wire);
    }
  }

  /** The same of the block in a packet, compressed or not. */
  lemma PacketUsable(s: bytes, p: nat, wire: Wire)
    requires p <= |s| && ReadPacket(s, p, wire).Ok? && ReadPacket(s, p, wire).value.DataPacket?
    ensures AllUsable(ReadPacket(s, p, wire).value.block.columns)
  {
    hide Uvarint, Str, RawLoad, Inflate, FrameEnd, AllUsable, ReadQuery, ReadHello;
    var q := Str(s, Uvarint(s, p).pos).pos;
    if wire.compress {
      LoadedUsable(Inflate(wire.codec, s, q).data, 0);
    } else {
      LoadedUsable(s, q);
    }
  }
}
