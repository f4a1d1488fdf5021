/** A reader of the legacy transaction frame, as Bitcoin nodes have it, and the
    frame that the daemon writes (daemon/src/m6.rs). */
module LegacyFrame {
  import opened Prelude
  import opened Bytes
  import opened M6

  /** Each reader gives its value and the bytes that follow. */
  ghost function TakeInt(bytes: seq<u8>, width: nat): Option<(nat, seq<u8>)> {
    if |bytes| < width then None else Some((FromLE(bytes[..width]), bytes[width..]))
  }

  /** A compact size: one byte below 253, or two, four or eight behind a mark. */
  ghost function TakeVarInt(bytes: seq<u8>): Option<(nat, seq<u8>)> {
    if bytes == [] then None
    else if bytes[0] == 253 then TakeInt(bytes[1..], 2)
    else if bytes[0] == 254 then TakeInt(bytes[1..], 4)
    else if bytes[0] == 255 then TakeInt(bytes[1..], 8)
    else Some((bytes[0], bytes[1..]))
  }

  /** An output: eight bytes of value, then the script behind its length. */
  ghost function TakeOutput(bytes: seq<u8>): Option<(TxOut, seq<u8>)> {
    var value :- TakeInt(bytes, 8);
    var length :- TakeVarInt(value.1);
    if value.0 > U64_MAX || |length.1| < length.0 then None
    else Some((TxOut(value.0, length.1[..length.0]), length.1[length.0..]))
  }

  ghost function TakeOutputs(bytes: seq<u8>, n: nat): Option<(seq<TxOut>, seq<u8>)> {
    if n == 0 then Some(([], bytes))
    else
      var first :- TakeOutput(bytes);
      var rest :- TakeOutputs(first.1, n - 1);
      Some(([first.0] + rest.0, rest.1))
  }

  /** A version 2 transaction without inputs, to the last byte. */
  ghost function ReadFrame(bytes: seq<u8>): Option<Blinded> {
    var version :- TakeInt(bytes, 4);
    var inputs :- TakeVarInt(version.1);
    if version.0 != 2 || inputs.0 != 0 then None
    else
      var count :- TakeVarInt(inputs.1);
      var outputs :- TakeOutputs(count.1, count.0);
      var lock :- TakeInt(outputs.1, 4);
      if lock.0 > U32_MAX || lock.1 != [] then None else Some(Blinded(outputs.0, lock.0))
  }

  // ----------------------------------------------------------- what it reads back

  lemma {:induction false} IntReads(x: nat, width: nat, rest: seq<u8>)
    requires x < Pow256(width)
    ensures TakeInt(ToLE(x, width) + rest, width) == Some((x, rest))
  {
    hide ToLE; hide FromLE;
    LERoundTrip(x, width);
    assert (ToLE(x, width) + rest)[..width] == ToLE(x, width) && (ToLE(x, width) + rest)[width..] == rest;
  }

  lemma {:induction false} VarIntReads(n: nat, rest: seq<u8>)
    requires n <= U64_MAX
    ensures TakeVarInt(VarInt(n) + rest) == Some((n, rest))
  {
    hide ToLE; hide FromLE; hide TakeInt;
    Pow256Eight();
    assert Pow256(2) == 0x1_0000;
    hide Pow256;
    var width := if n <= U16_MAX then 2 else if n <= U32_MAX then 4 else 8;
    IntReads(n, width, rest);
    if n >= 0xFD {
      assert (VarInt(n) + rest)[1..] == ToLE(n, width) + rest;
    } else {
      assert (VarInt(n) + rest)[1..] == rest;
    }
  }

  lemma {:induction false} OutputReads(output: TxOut, rest: seq<u8>)
    requires |output.script| <= U64_MAX
    ensures TakeOutput(SerializeOutput(output) + rest) == Some((output, rest))
  {
    hide ToLE; hide FromLE; hide VarInt; hide TakeVarInt; hide TakeInt;
    Pow256Eight();
    var tail := VarInt(|output.script|) + (output.script + rest);
    assert SerializeOutput(output) + rest == ToLE(output.value, 8) + tail;
    IntReads(output.value, 8, tail);
    VarIntReads(|output.script|, output.script + rest);
    assert (output.script + rest)[..|output.script|] == output.script;
    assert (output.script + rest)[|output.script|..] == rest;
  }

  lemma {:induction false} OutputsRead(outputs: seq<TxOut>, rest: seq<u8>)
    requires forall i :: 0 <= i < |outputs| ==> |outputs[i].script| <= U64_MAX
    ensures TakeOutputs(SerializeOutputs(outputs) + rest, |outputs|) == Some((outputs, rest))
  {
    hide SerializeOutput; hide TakeOutput;
    if outputs == [] {
      assert SerializeOutputs(outputs) + rest == rest;
    } else {
      hide SerializeOutputs;
      OutputsFromFront(outputs);
      Assoc(SerializeOutput(outputs[0]), SerializeOutputs(outputs[1..]), rest);
      OutputReads(outputs[0], SerializeOutputs(outputs[1..]) + rest);
      OutputsRead(outputs[1..], rest);
      assert outputs == [outputs[0]] + outputs[1..];
    }
  }

  /** A reader of the frame finds the transaction again: version 2, no input,
      each output in order with its value and script, and the lock time. */
  lemma {:induction false} FrameReadsBack(tx: Blinded)
    requires FitsFrame(tx)
    ensures ReadFrame(SerializeLegacy(tx)) == Some(tx)
  {
    hide ToLE; hide FromLE; hide VarInt; hide TakeVarInt; hide TakeInt; hide TakeOutputs; hide SerializeOutputs; hide Pow256;
    Pow256Eight();
    FrameHead();
    var outputs := SerializeOutputs(tx.output) + (ToLE(tx.lockTime, 4) + []);
    var counted := VarInt(|tx.output|) + outputs;
    assert SerializeLegacy(tx) == ToLE(2, 4) + (VarInt(0) + counted);
    IntReads(2, 4, VarInt(0) + counted);
    VarIntReads(0, counted);
    VarIntReads(|tx.output|, outputs);
    OutputsRead(tx.output, ToLE(tx.lockTime, 4) + []);
    IntReads(tx.lockTime, 4, []);
  }
}
