/** `Connection::read_packet`, its buffer, and the loop of a session over it. */
module Connecting {
  import opened Basics
  import opened Compressed
  import opened Protocol
  import opened Delivery
  import opened Readers
  import opened Parsing

  /** The receiving end of the stream: what each read will give. */
  class Socket {
    var pieces: seq<bytes>

    constructor (pieces: seq<bytes>)
      ensures this.pieces == pieces
    {
      this.pieces := pieces;
    }

    /** `read_buf`: at least one byte, or nothing at the end of the stream. */
    method ReadBuf() returns (piece: bytes)
      requires Pieces(pieces)
      modifies this
      ensures Pieces(pieces)
      ensures if |old(pieces)| == 0 then piece == [] && pieces == []
              else piece == old(pieces)[0] && piece != [] && pieces == old(pieces)[1..]
    {
      if |pieces| == 0 {
        return [];
      }
      piece := pieces[0];
      pieces := pieces[1..];
    }
  }

  /** What a caller of `read_packet` gets. */
  datatype Incoming = Got(packet: Packet) | Closed(outcome: Outcome)

  class Connection {
    const codec: Codec
    const socket: Socket
    var buffer: bytes
    var compress: bool

    /** A fresh connection takes blocks to be compressed until a query says otherwise. */
    constructor (socket: Socket, codec: Codec)
      ensures this.socket == socket && this.codec == codec && buffer == [] && compress
    {
      this.socket, this.codec := socket, codec;
      buffer, compress := [], true;
    }

    /** A packet off the front of the buffer, if it holds a whole one; otherwise the buffer stays. */
    method TryPacket(hello: Option<Hello>) returns (r: Result<Option<Packet>>)
      modifies this
      ensures var wire := Wire(codec, hello, old(compress));
        match ReadPacket(old(buffer), 0, wire)
        case Ok(packet, n) =>
          r == Success(Some(packet)) && buffer == old(buffer)[n..] && compress == After(wire, packet).compress
        case More => r == Success(None) && buffer == old(buffer) && compress == old(compress)
        case Err(e) => r == Failure(e)
    {
      hide ReadPacket;
      PacketErrors(buffer, 0, Wire(codec, hello, compress));
      var cursor := new Cursor(buffer);
      var read := ParsePacket(cursor, Wire(codec, hello, compress));
      match read {
        case Success(packet) =>
          if packet.QueryPacket? {
            compress := packet.query.compression > 0;
          }
          buffer := buffer[cursor.pos..];
          return Success(Some(packet));
        case Failure(e) =>
          if e == WouldBlock {
            return Success(None);
          }
          return Failure(e);
      }
    }

    /** `read_packet`: parse, and read more while there is no whole packet. */
    method ReadPacketLoop(hello: Option<Hello>) returns (r: Incoming)
      requires Pieces(socket.pieces)
      modifies this, socket
      ensures var wire := Wire(codec, hello, old(compress));
        match ReadNext(old(buffer), old(socket.pieces), wire)
        case Arrived(packet, rest, later) =>
          && r == Got(packet) && buffer == rest && socket.pieces == later
          && compress == After(wire, packet).compress
        case Over(outcome) => r == Closed(outcome)
      ensures Pieces(socket.pieces)
    {
      hide ReadPacket;
      while true
        invariant Pieces(socket.pieces) && compress == old(compress)
        invariant var wire := Wire(codec, hello, compress);
          ReadNext(buffer, socket.pieces, wire) == ReadNext(old(buffer), old(socket.pieces), wire)
        decreases |socket.pieces|
      {
        var parsed := TryPacket(hello);
        match parsed {
          case Failure(e) => return Closed(Failed(e));
          case Success(Some(packet)) => return Got(packet);
          case Success(None) =>
        }
        var piece := socket.ReadBuf();
        if piece == [] {
          return Closed(if buffer == [] then CleanEnd else ResetByPeer);
        }
        buffer := buffer + piece;
      }
    }
  }

  /** The loop of a session: the packets it hands on and how it ends. */
  method Run(connection: Connection) returns (packets: seq<Packet>, outcome: Outcome)
    requires Pieces(connection.socket.pieces)
    modifies connection, connection.socket
    ensures Served(packets, outcome)
         == Serve(old(connection.buffer), old(connection.socket.pieces),
                  Wire(connection.codec, None, old(connection.compress)))
  {
    hide ReadPacket, ReadNext;
    var hello: Option<Hello> := None;
    packets := [];
    while true
      invariant Pieces(connection.socket.pieces)
      invariant
        var served := Serve(connection.buffer, connection.socket.pieces,
                            Wire(connection.codec, hello, connection.compress));
        Served(packets + served.packets, served.outcome)
        == Serve(old(connection.buffer), old(connection.socket.pieces),
                 Wire(connection.codec, None, old(connection.compress)))
      decreases |connection.buffer| + |Flat(connection.socket.pieces)|
    {
      var incoming := connection.ReadPacketLoop(hello);
      match incoming {
        case Closed(end) =>
          assert packets + [] == packets;
          return packets, end;
        case Got(packet) =>
          packets := packets + [packet];
          if packet.HelloPacket? {
            hello := Some(packet.hello);
          }
      }
    }
  }
}
