/** Which packets a connection delivers, and how it ends: from the whole byte stream, and from a
    stream that arrives in pieces. */
module Delivery {
  import opened Basics
  import opened Protocol

  datatype Outcome = CleanEnd | ResetByPeer | Failed(error: Error)

  datatype Served = Served(packets: seq<Packet>, outcome: Outcome)

  /** What is remembered after a packet: the hello, and whether blocks come compressed. */
  function After(wire: Wire, packet: Packet): Wire {
    match packet
    case HelloPacket(hello) => wire.(hello := Some(hello))
    case QueryPacket(query) => wire.(compress := query.compression > 0)
    case _ => wire
  }

  function Cons(packet: Packet, rest: Served): Served {
    Served([packet] + rest.packets, rest.outcome)
  }

  /** The packets of a whole stream and what comes after the last one. */
  function Deliver(s: bytes, wire: Wire): Served
    decreases |s|
  {
    match ReadPacket(s, 0, wire)
    case Ok(packet, n) => Cons(packet, Deliver(s[n..], After(wire, packet)))
    case Err(e) => Served([], Failed(e))
    case More => Served([], if s == [] then CleanEnd else ResetByPeer)
  }

  // ---------- arrival in pieces ----------

  function Flat(pieces: seq<bytes>): bytes {
    if |pieces| == 0 then [] else pieces[0] + Flat(pieces[1..])
  }

  /** A read that gives nothing is the end of the stream, so no piece is empty. */
  ghost predicate Pieces(pieces: seq<bytes>) {
    forall i | 0 <= i < |pieces| :: |pieces[i]| > 0
  }

  /** How one `read_packet` ends: with a packet, leaving a buffer and pieces still to come, or for good. */
  datatype Arrival = Arrived(packet: Packet, buffer: bytes, pieces: seq<bytes>) | Over(outcome: Outcome)

  function ReadNext(buffer: bytes, pieces: seq<bytes>, wire: Wire): (r: Arrival)
    ensures r.Arrived? ==> |r.buffer| + |Flat(r.pieces)| < |buffer| + |Flat(pieces)|
    ensures r.Arrived? && Pieces(pieces) ==> Pieces(r.pieces)
    decreases |pieces|
  {
    match ReadPacket(buffer, 0, wire)
    case Ok(packet, n) => Arrived(packet, buffer[n..], pieces)
    case Err(e) => Over(Failed(e))
    case More =>
      if |pieces| == 0 then Over(if buffer == [] then CleanEnd else ResetByPeer)
      else ReadNext(buffer + pieces[0], pieces[1..], wire)
  }

  /** The session loop over `read_packet`. */
  function Serve(buffer: bytes, pieces: seq<bytes>, wire: Wire): Served
    decreases |buffer| + |Flat(pieces)|
  {
    match ReadNext(buffer, pieces, wire)
    case Over(outcome) => Served([], outcome)
    case Arrived(packet, rest, later) => Cons(packet, Serve(rest, later, After(wire, packet)))
  }

  lemma {:induction false} ReadNextWhole(buffer: bytes, pieces: seq<bytes>, wire: Wire)
    ensures var s := buffer + Flat(pieces);
      match ReadNext(buffer, pieces, wire)
      case Arrived(packet, rest, later) =>
        var d := ReadPacket(s, 0, wire);
        d.Ok? && d.value == packet && s[d.pos..] == rest + Flat(later)
      case Over(Failed(e)) => ReadPacket(s, 0, wire) == Err(e)
      case Over(outcome) => ReadPacket(s, 0, wire) == More && (outcome.CleanEnd? <==> s == [])
    decreases |pieces|
  {
    hide ReadPacket;
    var s := buffer + Flat(pieces);
    var d := ReadPacket(buffer, 0, wire);
    if !d.More? {
      ReadPacketLocal(buffer, s, 0, wire);
      if d.Ok? {
        assert s[d.pos..] == buffer[d.pos..] + Flat(pieces);
      }
    } else if |pieces| > 0 {
      ReadNextWhole(buffer + pieces[0], pieces[1..], wire);
      assert buffer + pieces[0] + Flat(pieces[1..]) == s;
    } else {
      assert s == buffer;
    }
  }

  /** The pieces do not matter: serving them one by one delivers the packets and the outcome of the
      whole stream. */
  lemma {:induction false} ServeIsDeliver(buffer: bytes, pieces: seq<bytes>, wire: Wire)
    ensures Serve(buffer, pieces, wire) == Deliver(buffer + Flat(pieces), wire)
    decreases |buffer| + |Flat(pieces)|
  {
    hide ReadPacket, ReadNext;
    ReadNextWhole(buffer, pieces, wire);
    match ReadNext(buffer, pieces, wire)
    case Over(_) =>
    case Arrived(packet, rest, later) => ServeIsDeliver(rest, later, After(wire, packet));
  }

  /** Two ways of cutting one stream are served alike. */
  lemma CutsDoNotMatter(pieces: seq<bytes>, others: seq<bytes>, wire: Wire)
    requires Flat(pieces) == Flat(others)
    ensures Serve([], pieces, wire) == Serve([], others, wire)
  {
    ServeIsDeliver([], pieces, wire);
    ServeIsDeliver([], others, wire);
  }
}
