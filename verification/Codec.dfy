/** The encoder and the decoder one after the other. */
module Codec {
  import opened Bytes
  import opened Varints
  import opened Fields
  import opened Encoding
  import opened RoundTrip
  import opened Encoder
  import opened InStream
  import D = Decoder

  /** Sizes a structure, encodes it into a buffer of that size with the field list fs, and decodes the buffer with
      any part gs of that list: both succeed, every byte is consumed, and the result shows the same values exactly if
      none of them is a proto3 zero that has another default. */
  method EncodeDecode(fs: seq<Field>, gs: seq<Field>, m: Msg) returns (encoded: bool, decoded: bool, left: nat, d: Msg)
    requires WellFormed(fs) && WellFormed(gs) && Part(gs, fs) && Fits(fs, m)
    ensures Encode(fs, m).Some? && (encoded <==> |Encode(fs, m).value| < U32)
    ensures encoded ==> decoded && left == 0 && (Agree(fs, gs, m, d) <==> Kept(fs, gs, m))
  {
    hide WellFormed, Fits, Part, Agree, Kept, Encode, EncMsg, Default;
    FitsEncodes(fs, m, |fs|);
    EncodeIsAll(fs, m);
    var sized, size := GetEncodedSize(fs, m);
    if !sized || size >= U32 {
      return false, false, 0, Msg([], map[]);
    }
    var buffer := new byte[size];
    var written;
    encoded, written := EncodeToBuffer(buffer, fs, m);
    assert buffer[..] == Encode(fs, m).value;
    Project(fs, gs, m);
    var s := new IStream(buffer[..]);
    decoded, d := D.Decode(s, gs);
    left := s.bytesLeft;
  }

  lemma {:induction false} EncodeIsAll(fs: seq<Field>, m: Msg)
    ensures Encode(fs, m) == EncMsg(fs, m, |fs|)
  {}
}
