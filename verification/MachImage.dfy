/**
  The Mach-O identity parser (unix/shared/src/identity.rs) against the layout it reads:
  a 64-bit header whose load commands, each a kind, a size and a body, fill the declared
  extent end to end. Words are little-endian, as on both supported architectures.
*/
module MachImage {
  import opened Wire
  import opened Wrappers

  const LC_UUID: nat := 0x1b
  const MACH_MAGIC_64: nat := 0xfeed_facf
  const MACH_HEADER_64_SIZE: nat := 32
  const MAGIC: nat := 0
  const NCMDS: nat := 16
  const SIZEOFCMDS: nat := 20
  const LOAD_COMMAND_SIZE: nat := 8
  const LOAD_COMMAND_ALIGNMENT: nat := 8
  const UUID_COMMAND_SIZE: nat := 24
  const UUID_SIZE: nat := 16

  // ------------------------------------------------------------- the layout

  datatype Command = Command(kind: nat, body: seq<Byte>)

  predicate Proper(c: Command) {
    c.kind <= U32_MAX && LOAD_COMMAND_SIZE + |c.body| <= U32_MAX && |c.body| % LOAD_COMMAND_ALIGNMENT == 0
  }

  function CommandBytes(c: Command): (r: seq<Byte>)
    ensures |r| == LOAD_COMMAND_SIZE + |c.body|
  {
    ToLittleEndian(c.kind, 4) + ToLittleEndian(LOAD_COMMAND_SIZE + |c.body|, 4) + c.body
  }

  function Region(commands: seq<Command>): seq<Byte> {
    if commands == [] then [] else CommandBytes(commands[0]) + Region(commands[1..])
  }

  // `commands` are `count` commands that fill `region` exactly.
  predicate Tiles(region: seq<Byte>, count: int, commands: seq<Command>) {
    |commands| == count && (forall i :: 0 <= i < |commands| ==> Proper(commands[i])) && Region(commands) == region
  }

  function WordAt(bytes: seq<Byte>, offset: nat): nat
    requires offset + 4 <= |bytes|
  {
    FromLittleEndian(bytes[offset..offset + 4])
  }

  // The bytes past the header that belong to the load commands.
  predicate HasRegion(image: seq<Byte>) {
    |image| >= MACH_HEADER_64_SIZE && WordAt(image, MAGIC) == MACH_MAGIC_64
    && MACH_HEADER_64_SIZE + WordAt(image, SIZEOFCMDS) <= |image|
  }

  predicate WellFormed(image: seq<Byte>, commands: seq<Command>) {
    HasRegion(image)
    && Tiles(image[MACH_HEADER_64_SIZE..MACH_HEADER_64_SIZE + WordAt(image, SIZEOFCMDS)], WordAt(image, NCMDS), commands)
  }

  // The last UUID command names the image; one too short to hold a UUID spoils it.
  function UuidOf(commands: seq<Command>): (r: Option<seq<Byte>>)
    ensures r.Some? ==> |r.value| == UUID_SIZE
    ensures r.Some? ==> exists i :: 0 <= i < |commands| && commands[i].kind == LC_UUID
  {
    if commands == [] then None
    else
      var last := commands[|commands| - 1];
      if exists c :: c in commands && c.kind == LC_UUID && |c.body| < UUID_SIZE then None
      else if last.kind == LC_UUID then Some(last.body[..UUID_SIZE])
      else UuidOf(commands[..|commands| - 1])
  }

  // The command at `i` is a UUID command and none behind it is.
  predicate LastUuid(commands: seq<Command>, i: int) {
    0 <= i < |commands| && commands[i].kind == LC_UUID
    && forall j :: i < j < |commands| ==> commands[j].kind != LC_UUID
  }

  predicate LastUuidIs(commands: seq<Command>, i: int, uuid: seq<Byte>) {
    LastUuid(commands, i) && |commands[i].body| >= UUID_SIZE && uuid == commands[i].body[..UUID_SIZE]
  }

  predicate NoShortUuid(commands: seq<Command>) {
    forall c :: c in commands && c.kind == LC_UUID ==> |c.body| >= UUID_SIZE
  }

  // There is a UUID exactly when no UUID command is short and there is one, and it is the last one's.
  lemma {:induction false} UuidIsTheLast(commands: seq<Command>, uuid: seq<Byte>)
    ensures UuidOf(commands) == Some(uuid) <==> NoShortUuid(commands) && exists i :: LastUuidIs(commands, i, uuid)
  {
    if commands != [] && NoShortUuid(commands) {
      var n := |commands| - 1;
      if commands[n].kind == LC_UUID {
        assert LastUuidIs(commands, n, commands[n].body[..UUID_SIZE]);
        assert forall i :: LastUuidIs(commands, i, uuid) ==> i == n;
      } else {
        UuidIsTheLast(commands[..n], uuid);
        FrontUuids(commands, uuid);
      }
    }
  }

  lemma FrontUuids(commands: seq<Command>, uuid: seq<Byte>)
    requires commands != [] && commands[|commands| - 1].kind != LC_UUID
    ensures var front := commands[..|commands| - 1];
            && (NoShortUuid(commands) ==> NoShortUuid(front))
            && ((exists i :: LastUuidIs(front, i, uuid)) <==> exists i :: LastUuidIs(commands, i, uuid))
  {
    var front := commands[..|commands| - 1];
    if i :| LastUuidIs(front, i, uuid) {
      assert LastUuidIs(commands, i, uuid);
    }
    if i :| LastUuidIs(commands, i, uuid) {
      assert LastUuidIs(front, i, uuid);
    }
  }

  // --------------------------------------------------- the layout is unambiguous

  predicate BadFront(region: seq<Byte>) {
    |region| < LOAD_COMMAND_SIZE
    || WordAt(region, 4) < LOAD_COMMAND_SIZE
    || WordAt(region, 4) % LOAD_COMMAND_ALIGNMENT != 0
    || WordAt(region, 4) > |region|
  }

  // What the front of a filled region looks like.
  lemma FrontOfRegion(region: seq<Byte>, count: int, commands: seq<Command>)
    requires Tiles(region, count, commands) && count > 0
    ensures !BadFront(region)
    ensures WordAt(region, 0) == commands[0].kind
    ensures WordAt(region, 4) == LOAD_COMMAND_SIZE + |commands[0].body| <= |region|
    ensures commands[0].body == region[LOAD_COMMAND_SIZE..WordAt(region, 4)]
    ensures Tiles(region[WordAt(region, 4)..], count - 1, commands[1..])
  {
    assert Proper(commands[0]);
    FrontWords(commands[0], Region(commands[1..]));
  }

  lemma FrontWords(c: Command, rest: seq<Byte>)
    requires Proper(c)
    ensures
      var region := CommandBytes(c) + rest;
      && |region| >= LOAD_COMMAND_SIZE
      && WordAt(region, 0) == c.kind && WordAt(region, 4) == LOAD_COMMAND_SIZE + |c.body| <= |region|
      && c.body == region[LOAD_COMMAND_SIZE..WordAt(region, 4)] && rest == region[WordAt(region, 4)..]
  {
    assert Pow256(4) == U32_MAX + 1 by { assert Pow256(2) == 0x1_0000; }
    DecodeEncode(c.kind, 4);
    DecodeEncode(LOAD_COMMAND_SIZE + |c.body|, 4);
    var region := CommandBytes(c) + rest;
    assert region[0..4] == ToLittleEndian(c.kind, 4);
    assert region[4..8] == ToLittleEndian(LOAD_COMMAND_SIZE + |c.body|, 4);
  }

  lemma {:induction false} TilesOnce(region: seq<Byte>, count: int, a: seq<Command>, b: seq<Command>)
    requires Tiles(region, count, a) && Tiles(region, count, b)
    ensures a == b
    decreases |a|
  {
    if count > 0 {
      FrontOfRegion(region, count, a);
      FrontOfRegion(region, count, b);
      TilesOnce(region[WordAt(region, 4)..], count - 1, a[1..], b[1..]);
      assert a == [a[0]] + a[1..] && b == [b[0]] + b[1..];
    }
  }

  // An image has at most one reading.
  lemma WellFormedOnce(image: seq<Byte>, a: seq<Command>, b: seq<Command>)
    requires WellFormed(image, a) && WellFormed(image, b)
    ensures a == b
  {
    TilesOnce(image[MACH_HEADER_64_SIZE..MACH_HEADER_64_SIZE + WordAt(image, SIZEOFCMDS)], WordAt(image, NCMDS), a, b);
  }

  // The bytes behind the declared extent play no part.
  lemma OnlyTheExtentMatters(image: seq<Byte>, tail: seq<Byte>, commands: seq<Command>)
    requires HasRegion(image)
    ensures WellFormed(image + tail, commands) <==> WellFormed(image, commands)
  {
    assert (image + tail)[MAGIC..MAGIC + 4] == image[MAGIC..MAGIC + 4];
    assert (image + tail)[NCMDS..NCMDS + 4] == image[NCMDS..NCMDS + 4];
    assert (image + tail)[SIZEOFCMDS..SIZEOFCMDS + 4] == image[SIZEOFCMDS..SIZEOFCMDS + 4];
    var end := MACH_HEADER_64_SIZE + WordAt(image, SIZEOFCMDS);
    assert (image + tail)[MACH_HEADER_64_SIZE..end] == image[MACH_HEADER_64_SIZE..end];
  }

  // Every command is at least its own header, so the count fits the region.
  lemma {:induction false} CountFits(region: seq<Byte>, count: int, commands: seq<Command>)
    requires Tiles(region, count, commands)
    ensures LOAD_COMMAND_SIZE * count <= |region|
    decreases |commands|
  {
    if count > 0 {
      FrontOfRegion(region, count, commands);
      CountFits(region[WordAt(region, 4)..], count - 1, commands[1..]);
    }
  }

  lemma BadFrontDoesNotTile(region: seq<Byte>, count: int, commands: seq<Command>)
    requires count > 0 && BadFront(region)
    ensures !Tiles(region, count, commands)
  {
    if Tiles(region, count, commands) {
      FrontOfRegion(region, count, commands);
      assert false;
    }
  }

  // A readable front is the encoding of one proper command.
  lemma GoodFront(region: seq<Byte>)
    requires !BadFront(region)
    ensures var c := Command(WordAt(region, 0), region[LOAD_COMMAND_SIZE..WordAt(region, 4)]);
            Proper(c) && region[..WordAt(region, 4)] == CommandBytes(c)
  {
    var size := WordAt(region, 4);
    WordEncodes(region, 0);
    WordEncodes(region, 4);
    ThreeParts(region, size);
    FrontBytes(WordAt(region, 0), size, region[0..4], region[4..8], region[LOAD_COMMAND_SIZE..size]);
  }

  lemma FrontBytes(kind: nat, size: nat, first: seq<Byte>, second: seq<Byte>, body: seq<Byte>)
    requires ToLittleEndian(kind, 4) == first && ToLittleEndian(size, 4) == second && size == LOAD_COMMAND_SIZE + |body|
    ensures CommandBytes(Command(kind, body)) == first + second + body
  {
  }

  lemma WordEncodes(bytes: seq<Byte>, offset: nat)
    requires offset + 4 <= |bytes|
    ensures WordAt(bytes, offset) <= U32_MAX && ToLittleEndian(WordAt(bytes, offset), 4) == bytes[offset..offset + 4]
  {
    assert Pow256(4) == U32_MAX + 1 by { assert Pow256(2) == 0x1_0000; }
    EncodeDecode(bytes[offset..offset + 4]);
  }

  lemma ThreeParts(region: seq<Byte>, size: nat)
    requires 8 <= size <= |region|
    ensures region[..size] == region[0..4] + region[4..8] + region[8..size]
  {
  }

  lemma {:induction false} RegionAppend(commands: seq<Command>, c: Command)
    ensures Region(commands + [c]) == Region(commands) + CommandBytes(c)
  {
    if commands == [] {
      assert [c][1..] == [];
    } else {
      RegionAppend(commands[1..], c);
      assert (commands + [c])[1..] == commands[1..] + [c];
    }
  }

  // -------------------------------------------------------------- the parser

  function ReadU32(bytes: seq<Byte>, offset: nat): (r: Option<nat>)
    ensures r.Some? <==> offset + 4 <= |bytes|
  {
    if offset + 4 <= |bytes| then Some(WordAt(bytes, offset)) else None
  }

  function CommandExtent(image: seq<Byte>): Option<nat> {
    if |image| < MACH_HEADER_64_SIZE || ReadU32(image, MAGIC) != Some(MACH_MAGIC_64) then None
    else Some(MACH_HEADER_64_SIZE + WordAt(image, SIZEOFCMDS))
  }

  // What is known when `parsed` has been taken off the front of `region`, leaving `rest`.
  ghost predicate Parsed(region: seq<Byte>, count: int, parsed: seq<Command>, rest: seq<Byte>) {
    |parsed| <= count
    && (forall i :: 0 <= i < |parsed| ==> Proper(parsed[i]))
    && Region(parsed) + rest == region
    && forall commands :: Tiles(region, count, commands) ==>
                            parsed <= commands && Tiles(rest, count - |parsed|, commands[|parsed|..])
  }

  lemma ParsesOneMore(region: seq<Byte>, count: int, parsed: seq<Command>, rest: seq<Byte>)
    requires Parsed(region, count, parsed, rest) && |parsed| < count && !BadFront(rest)
    ensures var size := WordAt(rest, 4);
            var c := Command(WordAt(rest, 0), rest[LOAD_COMMAND_SIZE..size]);
            Parsed(region, count, parsed + [c], rest[size..])
  {
    var size := WordAt(rest, 4);
    var c := Command(WordAt(rest, 0), rest[LOAD_COMMAND_SIZE..size]);
    GoodFront(rest);
    RegionAppend(parsed, c);
    assert rest == rest[..size] + rest[size..];
    assert Region(parsed + [c]) + rest[size..] == region;
    forall commands | Tiles(region, count, commands)
      ensures parsed + [c] <= commands && Tiles(rest[size..], count - |parsed + [c]|, commands[|parsed + [c]|..])
    {
      var behind := commands[|parsed|..];
      FrontOfRegion(rest, count - |parsed|, behind);
      assert behind[0] == c && behind[1..] == commands[|parsed + [c]|..];
    }
  }

  lemma UuidAppend(parsed: seq<Command>, c: Command)
    requires forall d :: d in parsed && d.kind == LC_UUID ==> |d.body| >= UUID_SIZE
    ensures c.kind == LC_UUID && |c.body| >= UUID_SIZE ==> UuidOf(parsed + [c]) == Some(c.body[..UUID_SIZE])
    ensures c.kind != LC_UUID ==> UuidOf(parsed + [c]) == UuidOf(parsed)
  {
    assert (parsed + [c])[..|parsed|] == parsed;
    assert forall d :: d in parsed + [c] ==> d in parsed || d == c;
  }

  // One short UUID command anywhere leaves the image without an identity.
  lemma ShortUuidSpoils(commands: seq<Command>, i: nat)
    requires i < |commands| && commands[i].kind == LC_UUID && |commands[i].body| < UUID_SIZE
    ensures UuidOf(commands) == None
  {
    assert commands[i] in commands;
  }

  // `uuid` is what the reading of `region` gives, if it has a reading.
  ghost predicate Reads(region: seq<Byte>, count: nat, uuid: Option<seq<Byte>>) {
    (uuid.Some? ==> exists commands :: Tiles(region, count, commands))
    && forall commands :: Tiles(region, count, commands) ==> uuid == UuidOf(commands)
  }

  lemma TooManyReads(region: seq<Byte>, count: nat)
    requires count > |region| / LOAD_COMMAND_SIZE
    ensures Reads(region, count, None)
  {
    forall commands ensures !Tiles(region, count, commands) {
      if Tiles(region, count, commands) {
        CountFits(region, count, commands);
        assert false;
      }
    }
  }

  lemma BadFrontReads(region: seq<Byte>, count: nat, parsed: seq<Command>, rest: seq<Byte>)
    requires Parsed(region, count, parsed, rest) && |parsed| < count && BadFront(rest)
    ensures Reads(region, count, None)
  {
    forall commands ensures !Tiles(region, count, commands) {
      if |parsed| <= |commands| {
        BadFrontDoesNotTile(rest, count - |parsed|, commands[|parsed|..]);
      }
    }
  }

  lemma ShortUuidReads(region: seq<Byte>, count: nat, parsed: seq<Command>, rest: seq<Byte>)
    requires Parsed(region, count, parsed, rest) && parsed != []
    requires parsed[|parsed| - 1].kind == LC_UUID && |parsed[|parsed| - 1].body| < UUID_SIZE
    ensures Reads(region, count, None)
  {
    forall commands | Tiles(region, count, commands) ensures UuidOf(commands) == None {
      ShortUuidSpoils(commands, |parsed| - 1);
    }
  }

  // With every command taken, the region is filled exactly when nothing is left.
  lemma FinishedReads(region: seq<Byte>, count: nat, parsed: seq<Command>, rest: seq<Byte>)
    requires Parsed(region, count, parsed, rest) && |parsed| == count
    ensures Reads(region, count, if rest == [] then UuidOf(parsed) else None)
  {
    forall commands | Tiles(region, count, commands) ensures commands == parsed && rest == [] {
      assert commands[|parsed|..] == [];
    }
    if rest == [] {
      assert Region(parsed) + rest == Region(parsed);
      assert Tiles(region, count, parsed);
    }
  }

  method CommandsUuid(region: seq<Byte>, count: nat) returns (uuid: Option<seq<Byte>>)
    ensures Reads(region, count, uuid)
  {
    if count > |region| / LOAD_COMMAND_SIZE {
      TooManyReads(region, count);
      return None;
    }
    uuid := None;
    var commands := region;
    ghost var parsed := [];
    for i := 0 to count
      invariant |parsed| == i
      invariant Parsed(region, count, parsed, commands)
      invariant forall d :: d in parsed && d.kind == LC_UUID ==> |d.body| >= UUID_SIZE
      invariant uuid == UuidOf(parsed)
    {
      var kind, size := ReadU32(commands, 0), ReadU32(commands, 4);
      if kind.None? || size.None? || size.value < LOAD_COMMAND_SIZE || size.value % LOAD_COMMAND_ALIGNMENT != 0
         || size.value > |commands|
      {
        BadFrontReads(region, count, parsed, commands);
        return None;
      }
      var command := commands[..size.value];
      ghost var c := Command(kind.value, commands[LOAD_COMMAND_SIZE..size.value]);
      ParsesOneMore(region, count, parsed, commands);
      if kind.value == LC_UUID {
        if |command| < UUID_COMMAND_SIZE {
          ShortUuidReads(region, count, parsed + [c], commands[size.value..]);
          return None;
        }
        uuid := Some(command[LOAD_COMMAND_SIZE..UUID_COMMAND_SIZE]);
        assert uuid.value == c.body[..UUID_SIZE];
      }
      UuidAppend(parsed, c);
      parsed := parsed + [c];
      commands := commands[size.value..];
    }
    FinishedReads(region, count, parsed, commands);
    if commands != [] {
      return None;
    }
  }

  // `uuid` answers for `image`: the identity its one reading gives, if it has a reading.
  ghost predicate Answers(image: seq<Byte>, uuid: Option<seq<Byte>>) {
    (uuid.Some? ==> exists commands :: WellFormed(image, commands))
    && forall commands :: WellFormed(image, commands) ==> uuid == UuidOf(commands)
  }

  lemma AnswersTheRegion(image: seq<Byte>, region: seq<Byte>, count: nat, uuid: Option<seq<Byte>>)
    requires HasRegion(image) && count == WordAt(image, NCMDS)
    requires region == image[MACH_HEADER_64_SIZE..MACH_HEADER_64_SIZE + WordAt(image, SIZEOFCMDS)]
    requires Reads(region, count, uuid)
    ensures Answers(image, uuid)
  {
    forall commands | Tiles(region, count, commands) ensures WellFormed(image, commands) {
    }
  }

  method MachUuid(image: seq<Byte>) returns (uuid: Option<seq<Byte>>)
    ensures Answers(image, uuid)
  {
    var end := CommandExtent(image);
    if end.None? || end.value > |image| {
      return None;
    }
    var count := WordAt(image, NCMDS);
    var region := image[MACH_HEADER_64_SIZE..end.value];
    uuid := CommandsUuid(region, count);
    AnswersTheRegion(image, region, count, uuid);
  }

  /**
    The smallest image with a UUID, byte by byte: 32 bytes of header (magic number, twelve
    bytes that do not matter, the count and the size of the commands, eight more), and one
    command of 24 bytes.
  */
  function SmallestImage(other: seq<Byte>, flags: seq<Byte>, uuid: seq<Byte>): seq<Byte> {
    [0xcf, 0xfa, 0xed, 0xfe] + other + [1, 0, 0, 0] + [24, 0, 0, 0] + flags + ([0x1b, 0, 0, 0] + [24, 0, 0, 0] + uuid)
  }

  lemma WordOf(word: seq<Byte>)
    requires |word| == 4
    ensures FromLittleEndian(word) == word[0] as nat + 256 * word[1] as nat + 65536 * word[2] as nat + 16777216 * word[3] as nat
  {
    assert word == [word[0]] + ([word[1]] + ([word[2]] + [word[3]]));
    assert word[1..][1..] == word[2..] && word[2..][1..] == word[3..] && word[3..][1..] == [];
    assert FromLittleEndian(word[3..]) == word[3];
    assert FromLittleEndian(word[2..]) == word[2] as nat + 256 * word[3] as nat;
  }

  lemma SmallestHeader(other: seq<Byte>, flags: seq<Byte>, uuid: seq<Byte>)
    requires |other| == 12 && |flags| == 8 && |uuid| == 16
    ensures
      var image := SmallestImage(other, flags, uuid);
      && |image| == 56 && HasRegion(image) && WordAt(image, NCMDS) == 1 && WordAt(image, SIZEOFCMDS) == 24
      && image[32..56] == [0x1b, 0, 0, 0] + [24, 0, 0, 0] + uuid
  {
    var image := SmallestImage(other, flags, uuid);
    assert image[0..4] == [0xcf, 0xfa, 0xed, 0xfe] && image[16..20] == [1, 0, 0, 0] && image[20..24] == [24, 0, 0, 0];
    WordOf(image[0..4]);
    WordOf(image[16..20]);
    WordOf(image[20..24]);
  }

  lemma SmallestCommand(uuid: seq<Byte>)
    requires |uuid| == 16
    ensures Tiles([0x1b, 0, 0, 0] + [24, 0, 0, 0] + uuid, 1, [Command(0x1b, uuid)]) && UuidOf([Command(0x1b, uuid)]) == Some(uuid)
  {
    var words: seq<Byte> := [0x1b, 0, 0, 0];
    var size: seq<Byte> := [24, 0, 0, 0];
    WordOf(words);
    WordOf(size);
    EncodeDecode(words);
    EncodeDecode(size);
    var c := Command(0x1b, uuid);
    assert CommandBytes(c) == words + size + uuid;
    assert [c][1..] == [] && Region([c]) == CommandBytes(c) + Region([]);
    assert uuid[..16] == uuid;
  }

  // The reader finds the UUID of that image, and a command of twelve bytes is none.
  lemma SmallestImageIsRead(other: seq<Byte>, flags: seq<Byte>, uuid: seq<Byte>, answer: Option<seq<Byte>>)
    requires |other| == 12 && |flags| == 8 && |uuid| == 16
    requires Answers(SmallestImage(other, flags, uuid), answer)
    ensures answer == Some(uuid)
    ensures forall c: Command :: |c.body| == 4 ==> !Proper(c)
  {
    SmallestHeader(other, flags, uuid);
    SmallestCommand(uuid);
    assert WellFormed(SmallestImage(other, flags, uuid), [Command(0x1b, uuid)]);
  }
}
