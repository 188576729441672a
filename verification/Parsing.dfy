/** The packet parser as it runs over a reader. */
module Parsing {
  import opened Basics
  import opened Varint
  import opened Decoders
  import opened Blocks
  import opened Compressed
  import opened Protocol
  import opened Readers
  import opened Loading

  /** Three strings, one after the other. */
  function ThreeStrs(s: bytes, p: nat): Dec<seq<bytes>>
    requires p <= |s|
  {
    var (a, p1) :- Str(s, p);
    var (b, p2) :- Str(s, p1);
    var (c, p3) :- Str(s, p2);
    Ok([a, b, c], p3)
  }

  lemma StrsStep(s: bytes, p: nat, n: nat)
    requires p <= |s|
    ensures Strs(s, p, n) == if n == 0 then Ok([], p) else match Str(s, p)
      case More => More
      case Err(e) => Err(e)
      case Ok(a, q) => (match Strs(s, q, n - 1)
        case More => More
        case Err(e) => Err(e)
        case Ok(rest, end) => Ok([a] + rest, end))
  {
    hide Str;
  }

  lemma StrsAreTwo(s: bytes, p: nat)
    requires p <= |s|
    ensures Strs(s, p, 2) == match Str(s, p)
      case More => More
      case Err(e) => Err(e)
      case Ok(a, q) => (match Str(s, q)
        case More => More
        case Err(e) => Err(e)
        case Ok(b, end) => Ok([a, b], end))
  {
    hide Str, Strs;
    StrsStep(s, p, 2);
    if Str(s, p).Ok? {
      var q := Str(s, p).pos;
      StrsStep(s, q, 1);
      if Str(s, q).Ok? {
        StrsStep(s, Str(s, q).pos, 0);
        var a, b := Str(s, p).value, Str(s, q).value;
        assert [a] + ([b] + []) == [a, b];
      }
    }
  }

  lemma StrsAreThree(s: bytes, p: nat)
    requires p <= |s|
    ensures Strs(s, p, 3) == ThreeStrs(s, p)
  {
    hide Str, Strs;
    StrsStep(s, p, 3);
    if Str(s, p).Ok? {
      StrsAreTwo(s, Str(s, p).pos);
      var a, d := Str(s, p).value, Strs(s, Str(s, p).pos, 2);
      assert d.Ok? ==> [a] + d.value == [a, d.value[0], d.value[1]];
    }
  }

  method ReadThreeStrings(reader: Reader) returns (r: Result<seq<bytes>>)
    requires reader.Valid()
    modifies reader, reader.cursor
    ensures Matches(Strs(reader.Stream(), old(reader.Here()), 3), r, reader.Here(), reader.Stop())
    ensures r.Success? ==> reader.Valid() && |r.value| == 3
  {
    hide Inflate, FrameEnd, Ahead, Rest, Str, Strs;
    StrsAreThree(reader.Stream(), reader.Here());
    var a :- reader.ReadString();
    var b :- reader.ReadString();
    var c :- reader.ReadString();
    return Success([a, b, c]);
  }

  function ThreeUvarints(s: bytes, p: nat): Dec<seq<u64>>
    requires p <= |s|
  {
    var (a, p1) :- Uvarint(s, p);
    var (b, p2) :- Uvarint(s, p1);
    var (c, p3) :- Uvarint(s, p2);
    Ok([a, b, c], p3)
  }

  lemma UvarintsStep(s: bytes, p: nat, n: nat)
    requires p <= |s|
    ensures Uvarints(s, p, n) == if n == 0 then Ok([], p) else match Uvarint(s, p)
      case More => More
      case Err(e) => Err(e)
      case Ok(a, q) => (match Uvarints(s, q, n - 1)
        case More => More
        case Err(e) => Err(e)
        case Ok(rest, end) => Ok([a] + rest, end))
  {
    hide Uvarint;
  }

  lemma UvarintsAreTwo(s: bytes, p: nat)
    requires p <= |s|
    ensures Uvarints(s, p, 2) == match Uvarint(s, p)
      case More => More
      case Err(e) => Err(e)
      case Ok(a, q) => (match Uvarint(s, q)
        case More => More
        case Err(e) => Err(e)
        case Ok(b, end) => Ok([a, b], end))
  {
    hide Uvarint, Uvarints;
    UvarintsStep(s, p, 2);
    if Uvarint(s, p).Ok? {
      var q := Uvarint(s, p).pos;
      UvarintsStep(s, q, 1);
      if Uvarint(s, q).Ok? {
        UvarintsStep(s, Uvarint(s, q).pos, 0);
        var a, b := Uvarint(s, p).value, Uvarint(s, q).value;
        assert [a] + ([b] + []) == [a, b];
      }
    }
  }

  lemma UvarintsAreThree(s: bytes, p: nat)
    requires p <= |s|
    ensures Uvarints(s, p, 3) == ThreeUvarints(s, p)
  {
    hide Uvarint, Uvarints;
    UvarintsStep(s, p, 3);
    if Uvarint(s, p).Ok? {
      UvarintsAreTwo(s, Uvarint(s, p).pos);
      var a, d := Uvarint(s, p).value, Uvarints(s, Uvarint(s, p).pos, 2);
      assert d.Ok? ==> [a] + d.value == [a, d.value[0], d.value[1]];
    }
  }

  method ReadThreeUvarints(reader: Reader) returns (r: Result<seq<u64>>)
    requires reader.Valid()
    modifies reader, reader.cursor
    ensures Matches(Uvarints(reader.Stream(), old(reader.Here()), 3), r, reader.Here(), reader.Stop())
    ensures r.Success? ==> reader.Valid() && |r.value| == 3
  {
    hide Inflate, FrameEnd, Ahead, Rest, Uvarint, Uvarints;
    UvarintsAreThree(reader.Stream(), reader.Here());
    var a :- reader.ReadUvarint();
    var b :- reader.ReadUvarint();
    var c :- reader.ReadUvarint();
    return Success([a, b, c]);
  }

  method ParseHello(reader: Reader) returns (r: Result<Hello>)
    requires reader.Valid()
    modifies reader, reader.cursor
    ensures Matches(ReadHello(reader.Stream(), old(reader.Here())), r, reader.Here(), reader.Stop())
    ensures r.Success? ==> reader.Valid()
  {
    hide Inflate, FrameEnd, Ahead, Rest, Str, Uvarints, Strs;
    var name :- reader.ReadString();
    var v :- ReadThreeUvarints(reader);
    var t :- ReadThreeStrings(reader);
    if t[1] == [] {
      return Failure(NoUser);
    }
    return Success(Hello(name, v[0], v[1], v[2], t[0], t[1], t[2], 0));
  }

  method ParseInterface(reader: Reader, given: ClientInfo) returns (r: Result<ClientInfo>)
    requires reader.Valid()
    modifies reader, reader.cursor
    ensures Matches(ReadInterface(reader.Stream(), old(reader.Here()), given), r, reader.Here(), reader.Stop())
    ensures r.Success? ==> reader.Valid()
  {
    hide Inflate, FrameEnd, Ahead, Rest, Str, Uvarints, Strs, Word;
    var info := given;
    if info.interface == TCP {
      var t :- ReadThreeStrings(reader);
      info := info.(osUser := t[0], hostname := t[1], clientName := t[2]);
      var v :- ReadThreeUvarints(reader);
      info := info.(major := v[0], minor := v[1], revision := v[2], patch := v[2]);
    } else if info.interface == HTTP {
      var httpMethod :- reader.ReadWord(1);
      info := info.(httpMethod := httpMethod);
      var agent :- reader.ReadString();
      info := info.(userAgent := agent);
    }
    return Success(info);
  }

  method ParseClientInfo(reader: Reader) returns (r: Result<ClientInfo>)
    requires reader.Valid()
    modifies reader, reader.cursor
    ensures Matches(ReadClientInfo(reader.Stream(), old(reader.Here())), r, reader.Here(), reader.Stop())
    ensures r.Success? ==> reader.Valid()
  {
    hide Inflate, FrameEnd, Ahead, Rest, Str, Strs, Word, Uvarint, ReadInterface;
    var kind :- reader.ReadWord(1);
    var info := NO_INFO.(queryKind := kind);
    if kind == 0 {
      return Success(info);
    }
    var t :- ReadThreeStrings(reader);
    info := info.(initialUser := t[0], initialQueryId := t[1], initialAddress := t[2]);
    var interface :- reader.ReadWord(1);
    info := info.(interface := interface);
    info :- ParseInterface(reader, info);
    if info.revision >= MIN_REVISION_WITH_QUOTA_KEY {
      var key :- reader.ReadString();
      info := info.(quotaKey := key);
    }
    if info.interface == TCP && info.revision >= MIN_REVISION_WITH_VERSION_PATCH {
      var patch :- reader.ReadUvarint();
      info := info.(patch := patch);
    }
    return Success(info);
  }

  lemma SettingsStep(s: bytes, p: nat)
    requires p <= |s|
    ensures ReadSettings(s, p) == match Str(s, p)
      case More => More
      case Err(e) => Err(e)
      case Ok(name, q) =>
        if name == [] then Ok(0, q)
        else if !KnownSetting(name) then Err(UnknownSetting(name))
        else (match Uvarint(s, q)
          case More => More
          case Err(e) => Err(e)
          case Ok(_, next) => (match ReadSettings(s, next)
            case More => More
            case Err(e) => Err(e)
            case Ok(n, end) => Ok(n + 1, end)))
  {
    hide Str, Uvarint, KnownSetting;
  }

  /** `d` with `n` settings before it. */
  ghost function Counted(n: nat, d: Dec<nat>): Dec<nat> {
    match d case Ok(more, q) => Ok(n + more, q) case More => More case Err(e) => Err(e)
  }

  /** The settings loop. */
  method SkipSettings(reader: Reader) returns (r: Result<nat>)
    requires reader.Valid()
    modifies reader, reader.cursor
    ensures Matches(ReadSettings(reader.Stream(), old(reader.Here())), r, reader.Here(), reader.Stop())
    ensures r.Success? ==> reader.Valid()
  {
    hide Inflate, FrameEnd, Ahead, Rest, Str, Uvarint, KnownSetting, ReadSettings;
    var n := 0;
    while true
      invariant reader.Valid()
      invariant Counted(n, ReadSettings(reader.Stream(), reader.Here()))
             == ReadSettings(reader.Stream(), old(reader.Here()))
      decreases |reader.Stream()| - reader.Here()
    {
      SettingsStep(reader.Stream(), reader.Here());
      var name :- reader.ReadString();
      if name == [] {
        return Success(n);
      }
      if !KnownSetting(name) {
        return Failure(UnknownSetting(name));
      }
      var _ :- reader.ReadUvarint();
      n := n + 1;
    }
  }

  method ParseQuery(reader: Reader, hello: Hello) returns (r: Result<Query>)
    requires reader.Valid()
    modifies reader, reader.cursor
    ensures Matches(ReadQuery(reader.Stream(), old(reader.Here()), hello), r, reader.Here(), reader.Stop())
    ensures r.Success? ==> reader.Valid()
  {
    hide Inflate, FrameEnd, Ahead, Rest, Str, Uvarint, Uvarints, ReadSettings, ReadClientInfo;
    var id :- reader.ReadString();
    var info := NO_INFO;
    if hello.revision >= MIN_REVISION_WITH_CLIENT_INFO {
      info :- ParseClientInfo(reader);
    }
    if info.queryKind == 0 {
      info := info.(queryKind := INITIAL_QUERY);
      info := info.(clientName := hello.clientName);
      info := info.(major := hello.major, minor := hello.minor, patch := hello.patch, revision := hello.revision);
    }
    info := info.(interface := TCP);
    var _ :- SkipSettings(reader);
    UvarintsAreTwo(reader.Stream(), reader.Here());
    var stage :- reader.ReadUvarint();
    var compression :- reader.ReadUvarint();
    var text :- reader.ReadString();
    return Success(Query(id, info, stage, compression, text));
  }

  method ParseData(reader: Reader, codec: Codec, compress: bool) returns (r: Result<Block>)
    requires reader.Valid() && reader.codec.None?
    modifies reader, reader.cursor
    ensures forall hello :: Matches(ReadData(reader.Stream(), old(reader.Here()), Wire(codec, hello, compress)),
                                    r, reader.Here(), reader.Stop())
    ensures r.Success? ==> reader.Valid()
  {
    hide Inflate, FrameEnd, Ahead, Rest, Str, RawLoad, CompressedLoad;
    var _ :- reader.ReadString();
    r := LoadBlock(reader.cursor, codec, compress);
  }

  /** `parse_packet` of the parser, over a cursor. */
  method ParsePacket(cursor: Cursor, wire: Wire) returns (r: Result<Packet>)
    requires cursor.Valid()
    modifies cursor
    ensures Matches(ReadPacket(cursor.source, old(cursor.pos), wire), r, cursor.pos, WouldBlock)
    ensures r.Success? ==> cursor.Valid()
  {
    hide Inflate, FrameEnd, Ahead, Rest, Uvarint, ReadData, ReadQuery, ReadHello;
    var reader := new Reader(cursor, None);
    var code :- reader.ReadUvarint();
    if code == CLIENT_PING {
      return Success(Ping);
    } else if code == CLIENT_CANCEL {
      return Success(Cancel);
    } else if code == CLIENT_DATA || code == CLIENT_SCALAR {
      var block :- ParseData(reader, wire.codec, wire.compress);
      return Success(DataPacket(block));
    } else if code == CLIENT_QUERY {
      if wire.hello.None? {
        return Failure(UnexpectedPacket);
      }
      var query :- ParseQuery(reader, wire.hello.value);
      return Success(QueryPacket(query));
    } else if code == CLIENT_HELLO {
      var hello :- ParseHello(reader);
      return Success(HelloPacket(hello));
    }
    return Failure(UnknownPacket(code));
  }
}
