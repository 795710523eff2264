/**
  The frame record wire format (unix/shared/src/encoder_wire.rs): a writer that rolls a
  failed record back whole, and a reader that does not move when a record is incomplete.
  A record is a little-endian `u16` tag, a `u32` payload length and the payload.
*/
module Wire {
  import opened Wrappers

  type Byte = b: nat | b < 256

  const U32_MAX: nat := 0xFFFF_FFFF
  const HEADER: nat := 6

  datatype WireError = Truncated | TooLarge | AllocationFailed | InvalidValue

  // ---------------------------------------------------------- little endian

  function Pow256(n: nat): (r: nat)
    ensures r > 0
  {
    if n == 0 then 1 else 256 * Pow256(n - 1)
  }

  function ToLittleEndian(value: nat, n: nat): (r: seq<Byte>)
    ensures |r| == n
  {
    if n == 0 then [] else [value % 256] + ToLittleEndian(value / 256, n - 1)
  }

  function FromLittleEndian(bytes: seq<Byte>): nat {
    if bytes == [] then 0 else bytes[0] + 256 * FromLittleEndian(bytes[1..])
  }

  lemma {:induction false} DecodeEncode(value: nat, n: nat)
    requires value < Pow256(n)
    ensures FromLittleEndian(ToLittleEndian(value, n)) == value
  {
    if n > 0 {
      DecodeEncode(value / 256, n - 1);
      assert ToLittleEndian(value, n)[1..] == ToLittleEndian(value / 256, n - 1);
    }
  }

  lemma LowByte(low: Byte, high: nat)
    ensures (low + 256 * high) % 256 == low && (low + 256 * high) / 256 == high
  {
  }

  lemma {:induction false} EncodeDecode(bytes: seq<Byte>)
    ensures ToLittleEndian(FromLittleEndian(bytes), |bytes|) == bytes
    ensures FromLittleEndian(bytes) < Pow256(|bytes|)
  {
    if bytes != [] {
      EncodeDecode(bytes[1..]);
      LowByte(bytes[0], FromLittleEndian(bytes[1..]));
    }
  }

  // ----------------------------------------------------------------- fields

  datatype Field =
    | U8(value: nat)
    | U16(value: nat)
    | U32(value: nat)
    | U64(value: nat)
    | Raw(bytes: seq<Byte>)

  function Width(f: Field): nat {
    match f
    case U8(_) => 1
    case U16(_) => 2
    case U32(_) => 4
    case U64(_) => 8
    case Raw(bytes) => |bytes|
  }

  predicate Fits(f: Field) {
    f.Raw? || f.value < Pow256(Width(f))
  }

  function FieldBytes(f: Field): (r: seq<Byte>)
    ensures |r| == Width(f)
  {
    if f.Raw? then f.bytes else ToLittleEndian(f.value, Width(f))
  }

  // ---------------------------------------------------------------- records

  lemma {:induction false} LittleEndianAt(value: nat, n: nat, k: nat)
    requires k < n
    ensures ToLittleEndian(value, n)[k] as nat == (value / Pow256(k)) % 256
  {
    if k > 0 {
      LittleEndianAt(value / 256, n - 1, k - 1);
      DivideTwice(value, Pow256(k - 1));
    }
  }

  lemma DivideTwice(value: nat, d: nat)
    requires d > 0
    ensures value / 256 / d == value / (256 * d)
  {
    var q, r := value / 256 / d, (value / 256) % d;
    var low := value % 256;
    assert value == 256 * (q * d + r) + low == q * (256 * d) + (256 * r + low);
    assert 0 <= 256 * r + low < 256 * d;
    Quotient(value, 256 * d, q, 256 * r + low);
  }

  lemma Quotient(value: nat, d: nat, q: nat, r: nat)
    requires d > 0 && value == q * d + r && r < d
    ensures value / d == q
  {
    assert (value / d - q) * d == r - value % d;
    if value / d != q {
      AtLeastOnce(value / d - q, d);
    }
  }

  lemma AtLeastOnce(x: int, d: nat)
    requires x != 0
    ensures x * d >= d || x * d + d <= 0
  {
    if x > 0 {
      assert (x - 1) * d >= 0;
    } else {
      assert (-x - 1) * d >= 0;
    }
  }

  // A number takes one, two, four or eight bytes, the lowest first.
  lemma FieldLayout(value: nat, k: nat)
    ensures |FieldBytes(U8(value))| == 1 && |FieldBytes(U16(value))| == 2
    ensures |FieldBytes(U32(value))| == 4 && |FieldBytes(U64(value))| == 8
    ensures k < 8 ==> FieldBytes(U64(value))[k] as nat == (value / Pow256(k)) % 256
    ensures k < 4 ==> FieldBytes(U32(value))[k] as nat == (value / Pow256(k)) % 256
    ensures k < 2 ==> FieldBytes(U16(value))[k] as nat == (value / Pow256(k)) % 256
    ensures FieldBytes(U8(value)) == [value % 256]
  {
    if k < 8 {
      LittleEndianAt(value, 8, k);
    }
    if k < 4 {
      LittleEndianAt(value, 4, k);
    }
    if k < 2 {
      LittleEndianAt(value, 2, k);
    }
  }

  datatype Record = Record(tag: nat, payload: seq<Byte>)

  predicate ValidRecord(r: Record) {
    r.tag < 0x1_0000 && |r.payload| <= U32_MAX
  }

  function RecordBytes(r: Record): (b: seq<Byte>)
    ensures |b| == HEADER + |r.payload|
  {
    ToLittleEndian(r.tag, 2) + ToLittleEndian(|r.payload|, 4) + r.payload
  }

  function Stream(records: seq<Record>): seq<Byte> {
    if records == [] then [] else Stream(records[..|records| - 1]) + RecordBytes(records[|records| - 1])
  }

  lemma StreamAppend(records: seq<Record>, r: Record)
    ensures Stream(records + [r]) == Stream(records) + RecordBytes(r)
  {
    assert (records + [r])[..|records|] == records;
  }

  // The stream read from the front.
  lemma {:induction false} StreamFront(records: seq<Record>)
    requires records != []
    ensures Stream(records) == RecordBytes(records[0]) + Stream(records[1..])
  {
    var last := |records| - 1;
    if last > 0 {
      StreamFront(records[..last]);
      Inner(records);
      Regroup(RecordBytes(records[0]), Stream(records[1..last]), RecordBytes(records[last]));
    } else {
      assert records[..0] == [] && records[1..] == [];
    }
  }

  lemma Inner(records: seq<Record>)
    requires |records| > 1
    ensures
      var last := |records| - 1;
      && records[..last][0] == records[0] && records[..last][1..] == records[1..last]
      && Stream(records[1..]) == Stream(records[1..last]) + RecordBytes(records[last])
  {
    var last := |records| - 1;
    assert records[1..][..last - 1] == records[1..last];
  }

  lemma Regroup(a: seq<Byte>, b: seq<Byte>, c: seq<Byte>)
    ensures (a + b) + c == a + (b + c)
  {
  }

  // -------------------------------------------------------------- the writer

  /**
    What a record callback does with the writer: it puts fields, may look at each put's
    answer, and returns. Any callback that ends is such a tree.
  */
  datatype Script =
    | Return(error: Option<WireError>)
    | Put(field: Field, onOk: Script, onTooLarge: Script, onNoMemory: Script)

  /**
    `payload` and `error` are what `script` produces when the slab already holds `length`
    bytes: a put that would pass the limit is refused as too large, any other may be
    refused for want of memory, and a refused put writes nothing.
  */
  ghost predicate Plays(script: Script, length: nat, payload: seq<Byte>, error: Option<WireError>) {
    match script
    case Return(e) => payload == [] && error == e
    case Put(field, onOk, onTooLarge, onNoMemory) =>
      var bytes := FieldBytes(field);
      if length + |bytes| > U32_MAX then Plays(onTooLarge, length, payload, error)
      else
        || (bytes <= payload && Plays(onOk, length + |bytes|, payload[|bytes|..], error))
        || Plays(onNoMemory, length, payload, error)
  }

  class FrameSlab {
    var bytes: seq<Byte>
    ghost var records: seq<Record>

    // The slab is the stream of the records pushed so far, within the `u32` limit.
    ghost predicate Valid()
      reads this
    {
      && bytes == Stream(records)
      && |bytes| <= U32_MAX
      && (forall i :: 0 <= i < |records| ==> ValidRecord(records[i]))
    }

    constructor ()
      ensures Valid() && bytes == [] && records == []
    {
      bytes := [];
      records := [];
    }

    method Clear()
      modifies this
      ensures Valid() && bytes == [] && records == []
    {
      bytes := [];
      records := [];
    }

    // `append_vector`: all of `value` or none of it, and never past the limit.
    method Append(value: seq<Byte>) returns (error: Option<WireError>)
      requires |bytes| <= U32_MAX
      modifies this`bytes
      ensures error.None? ==> bytes == old(bytes) + value
      ensures error.Some? ==> bytes == old(bytes)
      ensures |bytes| <= U32_MAX
      ensures if |old(bytes)| + |value| > U32_MAX then error == Some(TooLarge)
              else error.None? || error == Some(AllocationFailed)
    {
      var length := |bytes| + |value|;
      if length > U32_MAX {
        return Some(TooLarge);
      }
      if * {
        return Some(AllocationFailed);
      }
      bytes := bytes + value;
      return None;
    }

    // Run a record callback on the writer.
    method Write(script: Script) returns (error: Option<WireError>, ghost payload: seq<Byte>)
      requires |bytes| <= U32_MAX
      modifies this`bytes
      ensures bytes == old(bytes) + payload && |bytes| <= U32_MAX
      ensures Plays(script, |old(bytes)|, payload, error)
      decreases script
    {
      match script
      case Return(e) =>
        error, payload := e, [];
      case Put(field, onOk, onTooLarge, onNoMemory) =>
        var put := Append(FieldBytes(field));
        ghost var rest;
        if put.None? {
          error, rest := Write(onOk);
          payload := FieldBytes(field) + rest;
          assert payload[|FieldBytes(field)|..] == rest;
        } else if put.value.TooLarge? {
          error, payload := Write(onTooLarge);
        } else {
          error, payload := Write(onNoMemory);
        }
    }

    // `overwrite`.
    method Overwrite(offset: nat, value: seq<Byte>)
      requires offset + |value| <= |bytes|
      modifies this`bytes
      ensures bytes == old(bytes)[..offset] + value + old(bytes)[offset + |value|..]
    {
      bytes := bytes[..offset] + value + bytes[offset + |value|..];
    }

    // `append_record`: the length is patched in once the payload is written.
    method AppendRecord(tag: nat, script: Script) returns (error: Option<WireError>, ghost payload: seq<Byte>)
      requires |bytes| <= U32_MAX && tag < 0x1_0000
      modifies this`bytes
      ensures |old(bytes)| <= |bytes| && bytes[..|old(bytes)|] == old(bytes)
      ensures error.None? ==> bytes == old(bytes) + RecordBytes(Record(tag, payload)) && |bytes| <= U32_MAX
      ensures error.None? ==> Plays(script, |old(bytes)| + HEADER, payload, None)
      ensures error.Some? ==>
                || (error.value.TooLarge? && |old(bytes)| + HEADER > U32_MAX)
                || error.value.AllocationFailed?
                || Plays(script, |old(bytes)| + HEADER, payload, error)
    {
      payload := [];
      error := AppendHeader(tag);
      if error.Some? {
        return;
      }
      var lengthOffset, payloadStart := |bytes| - 4, |bytes|;
      error, payload := Write(script);
      if error.Some? {
        return;
      }
      // The slab's own limit keeps the length within its field.
      PatchLength(lengthOffset, |bytes| - payloadStart, old(bytes), tag, payload);
    }

    method PatchLength(offset: nat, length: nat, ghost start: seq<Byte>, ghost tag: nat, ghost payload: seq<Byte>)
      requires bytes == start + ToLittleEndian(tag, 2) + ToLittleEndian(0, 4) + payload
      requires offset == |start| + 2 && length == |payload|
      modifies this`bytes
      ensures bytes == start + RecordBytes(Record(tag, payload)) && |bytes| == |old(bytes)|
    {
      PatchedHeader(start, tag, payload);
      Overwrite(offset, ToLittleEndian(length, 4));
    }

    method AppendHeader(tag: nat) returns (error: Option<WireError>)
      requires |bytes| <= U32_MAX
      modifies this`bytes
      ensures old(bytes) <= bytes && |bytes| <= U32_MAX
      ensures error.None? ==> bytes == old(bytes) + ToLittleEndian(tag, 2) + ToLittleEndian(0, 4)
      ensures error.Some? ==> (error.value.TooLarge? && |old(bytes)| + HEADER > U32_MAX) || error.value.AllocationFailed?
    {
      error := Append(ToLittleEndian(tag, 2));
      if error.None? {
        error := Append(ToLittleEndian(0, 4));
      }
    }

    /**
      `push_record`: the whole record, or no trace of it. A failure is the callback's own,
      or the slab's: out of room for the header, or out of memory.
    */
    method PushRecord(tag: nat, script: Script) returns (error: Option<WireError>, ghost payload: seq<Byte>)
      requires Valid() && tag < 0x1_0000
      modifies this
      ensures Valid()
      ensures error.None? ==>
                && records == old(records) + [Record(tag, payload)]
                && bytes == old(bytes) + RecordBytes(Record(tag, payload))
                && Plays(script, |old(bytes)| + HEADER, payload, None)
      ensures error.Some? ==> records == old(records) && bytes == old(bytes)
      ensures error.Some? ==>
                || (error.value.TooLarge? && |old(bytes)| + HEADER > U32_MAX)
                || error.value.AllocationFailed?
                || Plays(script, |old(bytes)| + HEADER, payload, error)
    {
      var start := |bytes|;
      error, payload := AppendRecord(tag, script);
      if error.Some? {
        bytes := bytes[..start];
      } else {
        StreamAppend(records, Record(tag, payload));
        records := records + [Record(tag, payload)];
      }
    }
  }

  // Writing the length over its placeholder completes the record.
  lemma PatchedHeader(start: seq<Byte>, tag: nat, payload: seq<Byte>)
    ensures var written := start + ToLittleEndian(tag, 2) + ToLittleEndian(0, 4) + payload;
            written[..|start| + 2] + ToLittleEndian(|payload|, 4) + written[|start| + 6..]
            == start + RecordBytes(Record(tag, payload))
  {
    var written := start + ToLittleEndian(tag, 2) + ToLittleEndian(0, 4) + payload;
    assert written[..|start| + 2] == start + ToLittleEndian(tag, 2);
    assert written[|start| + 6..] == payload;
    Regroup(start, ToLittleEndian(tag, 2), ToLittleEndian(|payload|, 4));
    Regroup(start, ToLittleEndian(tag, 2) + ToLittleEndian(|payload|, 4), payload);
  }

  // -------------------------------------------------------------- the reader

  // What is at the front of a byte stream.
  datatype Front = End | Whole(record: Record, rest: seq<Byte>) | Cut

  function FrontOf(bytes: seq<Byte>): Front {
    if bytes == [] then End
    else if |bytes| < HEADER then Cut
    else
      var length := FromLittleEndian(bytes[2..HEADER]);
      if |bytes| < HEADER + length then Cut
      else Whole(Record(FromLittleEndian(bytes[..2]), bytes[HEADER..HEADER + length]), bytes[HEADER + length..])
  }

  class WireReader {
    var remaining: seq<Byte>

    constructor (bytes: seq<Byte>)
      ensures remaining == bytes
    {
      remaining := bytes;
    }

    // `bytes(length)`: a range, or `Truncated` without moving.
    method Bytes(length: nat) returns (r: Result<seq<Byte>, WireError>)
      modifies this
      ensures if length <= |old(remaining)|
              then r == Ok(old(remaining)[..length]) && remaining == old(remaining)[length..]
              else r == Err(Truncated) && remaining == old(remaining)
    {
      if length > |remaining| {
        return Err(Truncated);
      }
      r := Ok(remaining[..length]);
      remaining := remaining[length..];
    }

    // `u8`, `u16`, `u32` and `u64`: a little-endian field of `n` bytes.
    method Fixed(n: nat) returns (r: Result<nat, WireError>)
      modifies this
      ensures if n <= |old(remaining)|
              then r == Ok(FromLittleEndian(old(remaining)[..n])) && remaining == old(remaining)[n..]
              else r == Err(Truncated) && remaining == old(remaining)
    {
      var taken := Bytes(n);
      match taken
      case Ok(chunk) => r := Ok(FromLittleEndian(chunk));
      case Err(e) => r := Err(e);
    }

    // `next_record`: the next whole record, nothing at the end, or an error in place.
    method NextRecord() returns (r: Result<Option<Record>, WireError>)
      modifies this
      ensures match FrontOf(old(remaining))
              case End => r == Ok(None) && remaining == old(remaining)
              case Whole(record, rest) => r == Ok(Some(record)) && remaining == rest
              case Cut => r == Err(Truncated) && remaining == old(remaining)
    {
      if remaining == [] {
        return Ok(None);
      }
      var cursor := new WireReader(remaining);
      var tag := cursor.Fixed(2);
      if tag.Err? {
        return Err(tag.error);
      }
      var length := cursor.Fixed(4);
      if length.Err? {
        return Err(length.error);
      }
      HeaderSlices(remaining);
      var payload := cursor.Bytes(length.value);
      if payload.Err? {
        return Err(payload.error);
      }
      PayloadSlices(remaining, length.value);
      remaining := cursor.remaining;
      return Ok(Some(Record(tag.value, payload.value)));
    }
  }

  lemma HeaderSlices(bytes: seq<Byte>)
    requires HEADER <= |bytes|
    ensures bytes[2..][..4] == bytes[2..HEADER] && bytes[2..][4..] == bytes[HEADER..]
  {
  }

  lemma PayloadSlices(bytes: seq<Byte>, length: nat)
    requires HEADER + length <= |bytes|
    ensures bytes[HEADER..][..length] == bytes[HEADER..HEADER + length]
    ensures bytes[HEADER..][length..] == bytes[HEADER + length..]
  {
  }

  // ------------------------------------------------------------- round trips

  // The records a reader gets out of a stream, and whether it then stops at a cut one.
  datatype Reading = Reading(records: seq<Record>, cut: bool)

  function ReadAll(bytes: seq<Byte>): Reading
    decreases |bytes|
  {
    match FrontOf(bytes)
    case End => Reading([], false)
    case Cut => Reading([], true)
    case Whole(record, rest) => var r := ReadAll(rest); Reading([record] + r.records, r.cut)
  }

  // A record at the front of a stream is read back, leaving exactly what follows it.
  lemma FrontOfRecord(r: Record, rest: seq<Byte>)
    requires ValidRecord(r)
    ensures FrontOf(RecordBytes(r) + rest) == Whole(r, rest)
  {
    var bytes := RecordBytes(r) + rest;
    assert bytes[..2] == ToLittleEndian(r.tag, 2);
    assert bytes[2..HEADER] == ToLittleEndian(|r.payload|, 4);
    assert Pow256(2) == 0x1_0000 && Pow256(4) == 0x1_0000_0000;
    DecodeEncode(r.tag, 2);
    DecodeEncode(|r.payload|, 4);
    assert bytes[HEADER..HEADER + |r.payload|] == r.payload;
    assert bytes[HEADER + |r.payload|..] == rest;
  }

  // Any proper, nonempty prefix of a record is cut.
  lemma FrontOfPartialRecord(r: Record, n: nat)
    requires ValidRecord(r) && 0 < n < |RecordBytes(r)|
    ensures FrontOf(RecordBytes(r)[..n]) == Cut
  {
    if n >= HEADER {
      var bytes := RecordBytes(r)[..n];
      assert bytes[2..HEADER] == ToLittleEndian(|r.payload|, 4);
      assert Pow256(4) == 0x1_0000_0000;
      DecodeEncode(|r.payload|, 4);
    }
  }

  // Reading the slab yields exactly the pushed records, in order, and ends cleanly.
  lemma {:induction false} ReadsBackExactly(records: seq<Record>)
    requires forall i :: 0 <= i < |records| ==> ValidRecord(records[i])
    ensures ReadAll(Stream(records)) == Reading(records, false)
  {
    if records != [] {
      StreamFront(records);
      TruncatedFront(records[0], Stream(records[1..]), |Stream(records)|);
      ReadsBackExactly(records[1..]);
      assert Stream(records)[..|Stream(records)|] == Stream(records);
      assert Stream(records[1..])[..|Stream(records[1..])|] == Stream(records[1..]);
      assert records == [records[0]] + records[1..];
    }
  }

  // After any pushes, failed ones included, the slab reads back as its records.
  lemma SlabReadsBack(slab: FrameSlab)
    requires slab.Valid()
    ensures ReadAll(slab.bytes) == Reading(slab.records, false)
  {
    ReadsBackExactly(slab.records);
  }

  // How many whole records the first `n` bytes of the stream hold.
  function Fitting(records: seq<Record>, n: nat): (k: nat)
    ensures k <= |records|
  {
    if records == [] || |RecordBytes(records[0])| > n then 0
    else 1 + Fitting(records[1..], n - |RecordBytes(records[0])|)
  }

  lemma {:induction false} FittingIsGreatest(records: seq<Record>, n: nat)
    ensures |Stream(records[..Fitting(records, n)])| <= n
    ensures Fitting(records, n) < |records| ==> n < |Stream(records[..Fitting(records, n) + 1])|
  {
    if records != [] {
      if |RecordBytes(records[0])| <= n {
        var w := Fitting(records[1..], n - |RecordBytes(records[0])|);
        FittingIsGreatest(records[1..], n - |RecordBytes(records[0])|);
        PrefixFront(records, w);
        if w + 1 < |records| {
          PrefixFront(records, w + 1);
        }
      } else {
        PrefixFront(records, 0);
      }
    }
  }

  lemma PrefixFront(records: seq<Record>, w: nat)
    requires w < |records|
    ensures |Stream(records[..w + 1])| == |RecordBytes(records[0])| + |Stream(records[1..][..w])|
  {
    StreamFront(records[..w + 1]);
    assert records[..w + 1][1..] == records[1..][..w];
  }

  // Reading the first `n` bytes yields the whole records they hold, and then reports a cut
  // record exactly when they do not end between two records.
  ghost predicate ReadsPrefix(records: seq<Record>, n: nat)
    requires n <= |Stream(records)|
  {
    var whole := records[..Fitting(records, n)];
    ReadAll(Stream(records)[..n]) == Reading(whole, n != |Stream(whole)|)
  }

  lemma StreamCons(r: Record, rest: seq<Record>)
    ensures Stream([r] + rest) == RecordBytes(r) + Stream(rest)
  {
    StreamFront([r] + rest);
    assert ([r] + rest)[1..] == rest;
  }

  lemma FittingCons(r: Record, rest: seq<Record>, n: nat)
    requires |RecordBytes(r)| <= n
    ensures
      var whole := rest[..Fitting(rest, n - |RecordBytes(r)|)];
      && ([r] + rest)[..Fitting([r] + rest, n)] == [r] + whole
      && Stream([r] + whole) == RecordBytes(r) + Stream(whole)
  {
    assert ([r] + rest)[1..] == rest;
    StreamCons(r, rest[..Fitting(rest, n - |RecordBytes(r)|)]);
  }

  lemma ReadsPrefixStep(r: Record, rest: seq<Record>, n: nat)
    requires ValidRecord(r) && |RecordBytes(r)| <= n <= |RecordBytes(r)| + |Stream(rest)|
    requires ReadsPrefix(rest, n - |RecordBytes(r)|)
    ensures n <= |Stream([r] + rest)| && ReadsPrefix([r] + rest, n)
  {
    StreamCons(r, rest);
    TruncatedFront(r, Stream(rest), n);
    FittingCons(r, rest, n);
  }

  lemma {:induction false} ReadsTruncatedPrefix(records: seq<Record>, n: nat)
    requires forall i :: 0 <= i < |records| ==> ValidRecord(records[i])
    requires n <= |Stream(records)|
    ensures ReadsPrefix(records, n)
  {
    if records != [] {
      if n < |RecordBytes(records[0])| {
        PartialIsCut(records, n);
        assert records[..0] == [];
      } else {
        StreamFront(records);
        ReadsTruncatedPrefix(records[1..], n - |RecordBytes(records[0])|);
        ReadsPrefixStep(records[0], records[1..], n);
        assert [records[0]] + records[1..] == records;
      }
    }
  }

  lemma TruncatedFront(r: Record, rest: seq<Byte>, n: nat)
    requires ValidRecord(r) && |RecordBytes(r)| <= n <= |RecordBytes(r) + rest|
    ensures
      var later := ReadAll(rest[..n - |RecordBytes(r)|]);
      ReadAll((RecordBytes(r) + rest)[..n]) == Reading([r] + later.records, later.cut)
  {
    var left := rest[..n - |RecordBytes(r)|];
    assert (RecordBytes(r) + rest)[..n] == RecordBytes(r) + left;
    FrontOfRecord(r, left);
  }

  lemma PartialIsCut(records: seq<Record>, n: nat)
    requires records != [] && ValidRecord(records[0]) && n < |RecordBytes(records[0])|
    ensures n <= |Stream(records)| && ReadAll(Stream(records)[..n]) == Reading([], n != 0)
  {
    StreamFront(records);
    assert Stream(records)[..n] == RecordBytes(records[0])[..n];
    if n > 0 {
      FrontOfPartialRecord(records[0], n);
    }
  }

  // The reader's fields give back what the writer's fields put in, and leave the rest.
  lemma FieldReadsBack(f: Field, rest: seq<Byte>)
    requires Fits(f)
    ensures var bytes := FieldBytes(f) + rest;
            && bytes[Width(f)..] == rest
            && (if f.Raw? then bytes[..Width(f)] == f.bytes else FromLittleEndian(bytes[..Width(f)]) == f.value)
  {
    var bytes := FieldBytes(f) + rest;
    assert bytes[..Width(f)] == FieldBytes(f);
    if !f.Raw? {
      DecodeEncode(f.value, Width(f));
    }
  }
}
