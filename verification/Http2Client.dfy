/**
 From a client's header map to the request the application is handed: the HPACK
 encoder and decoder with the program's tables around the HTTP/2 frame machine.
 */
module Http2Client {
  import opened Bytes
  import opened Segments
  import opened Http2
  import opened Http2Requests
  import opened HeaderStrings
  import HuffTable
  import H = Hpack
  import opened StaticTables

  /** `HPACK::decode_headers` with the program's Huffman and static tables. */
  ghost function ProgramDecoder(): Decoder {
    block => H.DecodeInto(HuffTable.TheTable(), HpackTable(), map[], block)
  }

  /**
   A client encodes a header map without empty names, cuts the block and the body into frames as it likes, and
   sends them among frames of other streams: the application is handed that map and that body, once.
   */
  lemma RequestArrives(
    c: Conn, id: nat, h: Headers, fields: seq<Field>, fs: seq<Frame>, frags: seq<seq<Byte>>, chunks: seq<seq<Byte>>)
    requires H.Lists(fields, h) && [] !in h && forall i :: 0 <= i < |fields| ==> H.Fits(fields[i])
    requires |HpackTable()| >= 1 && frags != [] && Concat(frags) == H.EmitAll(HpackTable(), fields)
    requires id != 0 && id !in c.streams && Contents(Project(fs, id)) == RequestFrames(id, frags, chunks)
    requires |Concat(chunks)| <= MAX_BODY_BYTES && INITIAL_WINDOW + GrantedAll(Project(fs, id)) <= MAX_WINDOW
    requires Room(ProgramDecoder(), c, fs, id) && !ReceiveAll(ProgramDecoder(), c, fs).closing
    requires (forall i :: 0 <= i < |fs| ==> ValidFrame(fs[i])) && c.phase.FrameHeader?
    ensures Steady(Frames(ProgramDecoder()))
    ensures EventsOf(Run(Frames(ProgramDecoder()), c, WireAll(fs)).0.out, id)
            == EventsOf(c.out, id) + (CreditsFor(id, Project(fs, id)) + [Dispatch(id, h, Concat(chunks))])
  {
    hide *;
    HpackRoundTrip(h, fields);
    Decodes(Concat(frags));
    RequestFromBytes(ProgramDecoder(), c, id, fs, frags, chunks);
  }

  lemma Decodes(block: seq<Byte>)
    ensures ProgramDecoder()(block) == H.DecodeInto(HuffTable.TheTable(), HpackTable(), map[], block)
  {
  }
}
