/** Metadata at the end of a binary: its JSON, and the length of that in four little-endian bytes. */
module ReleasePayloads {
  import opened Basics
  import opened Releases

  datatype Malformed = Unserializable | TooLarge | MissingLength | LengthExceedsPayload | InvalidJson

  /** The JSON form of metadata, as the serializer writes it and reads it back. */
  datatype Json = Json(write: Metadata -> Option<Bytes>, read: Bytes -> Option<Metadata>)

  /** What is written reads back. */
  ghost predicate Faithful(json: Json)
  {
    forall m :: json.write(m).Some? ==> json.read(json.write(m).value) == Some(m)
  }

  const LENGTH_BYTES := 4
  const LENGTHS := 0x1_0000_0000

  function ToLittleEndian(n: nat): (bytes: Bytes)
    requires n < LENGTHS
    ensures |bytes| == LENGTH_BYTES
  {
    [(n % 256) as byte, (n / 256 % 256) as byte, (n / 0x1_0000 % 256) as byte, (n / 0x100_0000 % 256) as byte]
  }

  function FromLittleEndian(bytes: Bytes): nat
    requires |bytes| == LENGTH_BYTES
  {
    bytes[0] as nat + bytes[1] as nat * 256 + bytes[2] as nat * 0x1_0000 + bytes[3] as nat * 0x100_0000
  }

  lemma LengthRoundTrip(n: nat)
    requires n < LENGTHS
    ensures FromLittleEndian(ToLittleEndian(n)) == n
  {
    var second := n / 256;
    var third := second / 256;
    var fourth := third / 256;
    assert n / 0x1_0000 == third && n / 0x100_0000 == fourth < 256;
    assert n == 256 * second + n % 256 && second == 256 * third + second % 256 && third == 256 * fourth + third % 256;
  }

  lemma BytesRoundTrip(bytes: Bytes)
    requires |bytes| == LENGTH_BYTES
    ensures FromLittleEndian(bytes) < LENGTHS && ToLittleEndian(FromLittleEndian(bytes)) == bytes
  {
    var n := FromLittleEndian(bytes);
    assert n / 256 == bytes[1] as nat + bytes[2] as nat * 256 + bytes[3] as nat * 0x1_0000;
    assert n / 0x1_0000 == bytes[2] as nat + bytes[3] as nat * 256;
    assert n / 0x100_0000 == bytes[3] as nat;
  }

  /** A payload with metadata attached. */
  function Attached(payload: Bytes, metadata: Bytes): Bytes
    requires |metadata| < LENGTHS
  {
    payload + metadata + ToLittleEndian(|metadata|)
  }

  function Detach(json: Json, payload: Bytes): Result<(Bytes, Metadata), Malformed>
  {
    if |payload| < LENGTH_BYTES then Err(MissingLength)
    else
      var lengthStart := |payload| - LENGTH_BYTES;
      var length := FromLittleEndian(payload[lengthStart..]);
      if lengthStart < length then Err(LengthExceedsPayload)
      else
        var start := lengthStart - length;
        match json.read(payload[start..lengthStart])
        case None => Err(InvalidJson)
        case Some(metadata) => Ok((payload[..start], metadata))
  }

  class Payload {
    var bytes: Bytes

    constructor (bytes: Bytes)
      ensures this.bytes == bytes
    {
      this.bytes := bytes;
    }

    /** Appends the metadata, or changes nothing. */
    method Attach(json: Json, metadata: Metadata) returns (r: Result<(), Malformed>)
      modifies this
      ensures r.Ok? <==> json.write(metadata).Some? && |json.write(metadata).value| < LENGTHS
      ensures r.Ok? ==> bytes == Attached(old(bytes), json.write(metadata).value)
      ensures r.Err? ==> bytes == old(bytes)
    {
      var text := json.write(metadata);
      if text.None? {
        return Err(Unserializable);
      }
      if |text.value| >= LENGTHS {
        return Err(TooLarge);
      }
      bytes := bytes + text.value;
      bytes := bytes + ToLittleEndian(|text.value|);
      return Ok(());
    }

    /** Removes the metadata, or changes nothing. */
    method Strip(json: Json) returns (r: Result<(), Malformed>)
      modifies this
      ensures r.Ok? <==> Detach(json, old(bytes)).Ok?
      ensures bytes == if r.Ok? then Detach(json, old(bytes)).value.0 else old(bytes)
    {
      var detached := Detach(json, bytes);
      if detached.Err? {
        return Err(detached.error);
      }
      bytes := bytes[..|detached.value.0|];
      return Ok(());
    }
  }

  /** The last four bytes say how long the metadata before them is, the least significant first. */
  lemma AttachedLength(payload: Bytes, metadata: Bytes)
    requires |metadata| < 0x1_0000_0000
    ensures var all := Attached(payload, metadata);
            var n := |payload| + |metadata|;
            && |all| == n + 4 && all[..n] == payload + metadata
            && |metadata| == all[n] as int + 0x100 * all[n + 1] as int + 0x1_0000 * all[n + 2] as int
                             + 0x100_0000 * all[n + 3] as int
  {
    LengthRoundTrip(|metadata|);
  }

  /** A payload detaches exactly when it is some payload with readable metadata attached, and then into that. */
  lemma DetachExactlyWhen(json: Json, payload: Bytes, rest: Bytes, metadata: Metadata)
    ensures Detach(json, payload) == Ok((rest, metadata))
        <==> exists text ::
               |text| < LENGTHS && json.read(text) == Some(metadata) && payload == Attached(rest, text)
  {
    if Detach(json, payload) == Ok((rest, metadata)) {
      var lengthStart := |payload| - LENGTH_BYTES;
      BytesRoundTrip(payload[lengthStart..]);
      var text := payload[|rest|..lengthStart];
      assert payload == Attached(rest, text);
    }
    if text :| |text| < LENGTHS && json.read(text) == Some(metadata) && payload == Attached(rest, text) {
      LengthRoundTrip(|text|);
      var lengthStart := |payload| - LENGTH_BYTES;
      assert payload[lengthStart..] == ToLittleEndian(|text|);
      assert payload[|rest|..lengthStart] == text && payload[..|rest|] == rest;
    }
  }

  /** What is attached last detaches first, whatever the payload held before. */
  lemma DetachAfterAttach(json: Json, payload: Bytes, metadata: Metadata)
    requires Faithful(json) && json.write(metadata).Some? && |json.write(metadata).value| < LENGTHS
    ensures Detach(json, Attached(payload, json.write(metadata).value)) == Ok((payload, metadata))
  {
    var text := json.write(metadata).value;
    DetachExactlyWhen(json, Attached(payload, text), payload, metadata);
    assert json.read(text) == Some(metadata);
  }
}
