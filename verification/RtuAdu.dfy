/** RTU application data units: unit, protocol data unit, checksum low byte first. */
module RtuAdu {
  import opened Common
  import opened Crc
  import opened Gf2

  const MAX_ADU := 256
  const MIN_ADU := 4
  const MAX_PDU := 253

  datatype Adu = Adu(unit: bv8, pdu: Octets)

  datatype Decoded = Valid(adu: Adu) | BadLength | BadUnit | BadChecksum

  predicate ValidUnit(unit: bv8) {
    1 <= unit <= 247
  }

  function Trailer(body: Octets): Octets {
    [Low(Checksum(body)), High(Checksum(body))]
  }

  function Encode(unit: bv8, pdu: Octets): Option<Octets> {
    if !ValidUnit(unit) || pdu == [] || |pdu| > MAX_PDU then None
    else
      var body := [unit] + pdu;
      Some(body + Trailer(body))
  }

  function Decode(frame: Octets): Decoded {
    var n := |frame|;
    if n < MIN_ADU || n > MAX_ADU then BadLength
    else if !ValidUnit(frame[0]) then BadUnit
    else if Joined(frame[n - 2], frame[n - 1]) != Checksum(frame[..n - 2]) then BadChecksum
    else Valid(Adu(frame[0], frame[1..n - 2]))
  }

  /** What was encoded is decoded. */
  lemma {:induction false} DecodeOfEncode(unit: bv8, pdu: Octets)
    requires Encode(unit, pdu).Some?
    ensures Decode(Encode(unit, pdu).value) == Valid(Adu(unit, pdu))
  {
    hide Checksum, Joined, Low, High;
    var body := [unit] + pdu;
    var frame := Encode(unit, pdu).value;
    assert frame[..|frame| - 2] == body;
    assert frame[1..|frame| - 2] == pdu;
    JoinedParts(Checksum(body));
  }

  /** A frame is accepted only if it is the encoding of what was read from it. */
  lemma {:induction false} EncodeOfDecode(frame: Octets)
    requires Decode(frame).Valid?
    ensures Encode(Decode(frame).adu.unit, Decode(frame).adu.pdu) == Some(frame)
  {
    hide Checksum, Joined, Low, High;
    var n := |frame|;
    var body := [frame[0]] + frame[1..n - 2];
    assert body == frame[..n - 2];
    PartsJoined(frame[n - 2], frame[n - 1]);
    assert frame == body + [frame[n - 2], frame[n - 1]];
  }

  /** The checksum test is a zero residue over the whole frame. */
  lemma {:induction false} AcceptedMeansZero(frame: Octets)
    requires Decode(frame).Valid?
    ensures Checksum(frame) == 0
  {
    hide Checksum, Joined;
    var n := |frame|;
    assert frame == frame[..n - 2] + [frame[n - 2], frame[n - 1]];
    ResidueZeroIff(frame[..n - 2], frame[n - 2], frame[n - 1]);
  }

  lemma {:induction false} CorruptionShows(frame: Octets, flips: Octets)
    requires Decode(frame).Valid? && |flips| == |frame| && FeedBits(0, Bits(flips)) != 0
    ensures !Decode(Flip(frame, flips)).Valid?
  {
    hide Checksum, FeedBits, Bits, Decode, Add;
    AcceptedMeansZero(frame);
    FlipsAdd(frame, flips);
    AddZero(FeedBits(0, Bits(flips)));
    if Decode(Flip(frame, flips)).Valid? {
      AcceptedMeansZero(Flip(frame, flips));
    }
  }

  /** Flipping an odd number of bits anywhere in a valid frame, trailer included, makes it invalid. */
  lemma {:induction false} OddFlipsRejected(frame: Octets, flips: Octets)
    requires Decode(frame).Valid? && |flips| == |frame| && OddBits(Bits(flips))
    ensures !Decode(Flip(frame, flips)).Valid?
  {
    hide FeedBits, Bits, OddBits, Decode;
    OddIsDetected(Bits(flips));
    CorruptionShows(frame, flips);
  }

  /** So does any change confined to sixteen consecutive bits in wire order. */
  lemma {:induction false} BurstRejected(frame: Octets, flips: Octets, from: nat)
    requires Decode(frame).Valid? && |flips| == |frame| && true in Bits(flips) && from + 16 <= 8 * |frame|
    requires forall i :: 0 <= i < |Bits(flips)| && Bits(flips)[i] ==> from <= i < from + 16
    ensures !Decode(Flip(frame, flips)).Valid?
  {
    hide FeedBits, Bits, Decode;
    BurstIsDetected(Bits(flips), from);
    CorruptionShows(frame, flips);
  }

  /** The trailer of a frame may be checked by the residue alone. */
  lemma {:induction false} ValidIffResidueZero(frame: Octets)
    ensures Decode(frame).Valid? <==> MIN_ADU <= |frame| <= MAX_ADU && ValidUnit(frame[0]) && Checksum(frame) == 0
  {
    hide Checksum, Joined;
    var n := |frame|;
    if n >= 2 {
      assert frame == frame[..n - 2] + [frame[n - 2], frame[n - 1]];
      ResidueZeroIff(frame[..n - 2], frame[n - 2], frame[n - 1]);
    }
  }
}
