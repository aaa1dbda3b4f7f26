/** Register reads and their replies, as protocol data units. */
module Pdu {
  import opened Common

  const MAX_PDU := 253
  const MAX_READ_REGISTERS := 125
  const READ_HOLDING: Byte := 3
  const READ_INPUT: Byte := 4

  datatype Table = HoldingRegisters | InputRegisters

  datatype ReadRequest = ReadRequest(function_: Byte, table: Table, offset: Uint16, quantity: Uint16)

  predicate ValidRead(r: ReadRequest) {
    && (r.function_ == READ_HOLDING || r.function_ == READ_INPUT)
    && r.table == (if r.function_ == READ_HOLDING then HoldingRegisters else InputRegisters)
    && 0 < r.quantity <= MAX_READ_REGISTERS
    && r.offset + r.quantity - 1 <= 0xffff
  }

  predicate Covers(r: ReadRequest, register: int) {
    r.offset <= register < r.offset + r.quantity
  }

  /** What a device with this register memory answers to a read of `n` registers. */
  function Registers(memory: Uint16 -> Uint16, offset: nat, n: nat): (words: seq<Uint16>)
    requires offset + n <= 0x1_0000
    ensures |words| == n
  {
    seq(n, i requires 0 <= i < n => memory(offset + i))
  }

  datatype Reply = Data(words: seq<Uint16>) | Exception(code: Byte) | Malformed

  function Word(high: Byte, low: Byte): Uint16 {
    high * 0x100 + low
  }

  function DecodeReply(r: ReadRequest, pdu: seq<Byte>): Reply
    requires ValidRead(r)
  {
    if |pdu| == 0 then Malformed
    else if pdu[0] == r.function_ + 0x80 then (if |pdu| != 2 then Malformed else Exception(pdu[1]))
    else if pdu[0] != r.function_ || |pdu| < 2 || pdu[1] != r.quantity * 2 then Malformed
    else if |pdu| != r.quantity * 2 + 2 || |pdu| > MAX_PDU then Malformed
    else Data(seq(r.quantity, i requires 0 <= i < r.quantity => Word(pdu[2 + 2 * i], pdu[3 + 2 * i])))
  }

  /** Registers as they go over the wire, high byte first. */
  function WordBytes(words: seq<Uint16>): (bytes: seq<Byte>)
    ensures |bytes| == 2 * |words|
  {
    seq(2 * |words|, i requires 0 <= i < 2 * |words| => if i % 2 == 0 then words[i / 2] / 0x100 else words[i / 2] % 0x100)
  }

  lemma {:induction false} WordOfBytes(words: seq<Uint16>, i: nat)
    requires i < |words|
    ensures Word(WordBytes(words)[2 * i], WordBytes(words)[2 * i + 1]) == words[i]
  {
    assert (2 * i) / 2 == i && (2 * i + 1) / 2 == i && (2 * i) % 2 == 0 && (2 * i + 1) % 2 == 1;
  }

  lemma {:induction false} BytesOfWord(high: Byte, low: Byte)
    ensures Word(high, low) / 0x100 == high && Word(high, low) % 0x100 == low
  {
  }

  /** A reply decodes to data exactly when it is the encoding of that data for this read. */
  lemma {:induction false} DataIff(r: ReadRequest, pdu: seq<Byte>, words: seq<Uint16>)
    requires ValidRead(r)
    ensures DecodeReply(r, pdu) == Data(words) <==> |words| == r.quantity && pdu == [r.function_, 2 * r.quantity] + WordBytes(words)
  {
    hide Word, WordBytes;
    if |words| == r.quantity && pdu == [r.function_, 2 * r.quantity] + WordBytes(words) {
      forall i | 0 <= i < r.quantity
        ensures Word(pdu[2 + 2 * i], pdu[3 + 2 * i]) == words[i]
      {
        WordOfBytes(words, i);
      }
      assert DecodeReply(r, pdu).words == words;
    }
    if DecodeReply(r, pdu) == Data(words) {
      forall k | 0 <= k < 2 * r.quantity
        ensures pdu[2 + k] == WordBytes(words)[k]
      {
        ByteIs(pdu, words, k);
      }
      assert pdu[2..] == WordBytes(words);
    }
  }

  lemma {:induction false} ByteIs(pdu: seq<Byte>, words: seq<Uint16>, k: nat)
    requires k < 2 * |words| == |pdu| - 2 && words[k / 2] == Word(pdu[2 + 2 * (k / 2)], pdu[3 + 2 * (k / 2)])
    ensures pdu[2 + k] == WordBytes(words)[k]
  {
    BytesOfWord(pdu[2 + 2 * (k / 2)], pdu[3 + 2 * (k / 2)]);
  }

  /** A device refuses by the function with its high bit set and one code. */
  lemma {:induction false} ExceptionIff(r: ReadRequest, pdu: seq<Byte>, code: Byte)
    requires ValidRead(r)
    ensures DecodeReply(r, pdu) == Exception(code) <==> pdu == [r.function_ + 0x80, code]
  {
  }
}
