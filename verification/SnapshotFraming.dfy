/** The length-prefixed binary frame around a snapshot. */
module SnapshotFraming {
  import opened Text
  import opened Results
  import opened ProjectTree
  import opened SnapshotCapture

  const MAX_METADATA_BYTES := 1024 * 1024
  const MAX_ENCODED_BYTES := MAX_DATA_BYTES + 8 * 1024 * 1024
  const MAX_VOLUMES := 16

  datatype Engine = ManagedWsl | OtherEngine(endpoint: string)

  datatype Contract = Contract(offeringId: string, planSha256: string, bindDirectories: seq<string>,
                               namedVolumes: seq<string>, sharedHostFolders: bool)

  datatype Volume = Volume(name: string, sha256: string, length: nat, bytes: seq<byte>)

  datatype Snapshot = Snapshot(schemaVersion: nat, contract: Contract, engine: Engine, daemonIdSha256: string,
                               files: seq<Entry>, volumes: seq<Volume>)

  function BlankFiles(files: seq<Entry>): (blank: seq<Entry>)
    ensures |blank| == |files|
    ensures forall i | 0 <= i < |files| :: blank[i] == files[i].(bytes := [])
  {
    seq(|files|, i requires 0 <= i < |files| => files[i].(bytes := []))
  }

  function BlankVolumes(volumes: seq<Volume>): (blank: seq<Volume>)
    ensures |blank| == |volumes|
    ensures forall i | 0 <= i < |volumes| :: blank[i] == volumes[i].(bytes := [])
  {
    seq(|volumes|, i requires 0 <= i < |volumes| => volumes[i].(bytes := []))
  }

  /** Payload bytes are skipped by the metadata serializer, which reads them back as empty. */
  function Blank(s: Snapshot): Snapshot {
    s.(files := BlankFiles(s.files), volumes := BlankVolumes(s.volumes))
  }

  /** The JSON text of a snapshot's metadata, and its reader. */
  datatype Codec = Codec(render: Snapshot -> seq<byte>, parse: seq<byte> -> Option<Snapshot>) {
    function Metadata(s: Snapshot): seq<byte> { render(Blank(s)) }

    function Header(text: seq<byte>): Option<Snapshot> {
      match parse(text)
      case None => None
      case Some(s) => Some(Blank(s))
    }

    /** What was rendered is read back. */
    ghost predicate Lawful() {
      forall s :: Header(Metadata(s)) == Some(Blank(s))
    }
  }

  /** `u32::to_le_bytes`. */
  function LittleEndian(n: nat): seq<byte>
    requires n < 0x1_0000_0000
  {
    [(n % 0x100) as byte, (n / 0x100 % 0x100) as byte, (n / 0x1_0000 % 0x100) as byte, (n / 0x100_0000) as byte]
  }

  function FromLittleEndian(b: seq<byte>): nat
    requires |b| == 4
  {
    b[0] as int + 0x100 * b[1] as int + 0x1_0000 * b[2] as int + 0x100_0000 * b[3] as int
  }

  lemma LittleEndianInverse(n: nat)
    requires n < 0x1_0000_0000
    ensures FromLittleEndian(LittleEndian(n)) == n
  {
    assert n == n % 0x100 + 0x100 * (n / 0x100);
    assert n / 0x100 == n / 0x100 % 0x100 + 0x100 * (n / 0x1_0000);
    assert n / 0x1_0000 == n / 0x1_0000 % 0x100 + 0x100 * (n / 0x100_0000);
  }

  /** The low byte comes first. */
  lemma LowByteFirst(n: nat)
    requires n < 0x1_0000_0000
    ensures var b := LittleEndian(n);
      |b| == 4 && n == b[0] as int + 256 * (b[1] as int + 256 * (b[2] as int + 256 * b[3] as int))
  {
    LittleEndianInverse(n);
  }

  function Flatten(bodies: seq<seq<byte>>): seq<byte> {
    if bodies == [] then [] else bodies[0] + Flatten(bodies[1..])
  }

  function Total(lengths: seq<nat>): nat {
    if lengths == [] then 0 else lengths[0] + Total(lengths[1..])
  }

  lemma {:induction false} FlattenConcat(a: seq<seq<byte>>, b: seq<seq<byte>>)
    ensures Flatten(a + b) == Flatten(a) + Flatten(b)
  {
    if a == [] {
      assert a + b == b;
    } else {
      assert (a + b)[1..] == a[1..] + b;
      FlattenConcat(a[1..], b);
    }
  }

  lemma {:induction false} TotalConcat(a: seq<nat>, b: seq<nat>)
    ensures Total(a + b) == Total(a) + Total(b)
  {
    if a == [] {
      assert a + b == b;
    } else {
      assert (a + b)[1..] == a[1..] + b;
      TotalConcat(a[1..], b);
    }
  }

  predicate HaveLengths(bodies: seq<seq<byte>>, lengths: seq<nat>) {
    |bodies| == |lengths| && forall i | 0 <= i < |bodies| :: |bodies[i]| == lengths[i]
  }

  lemma {:induction false} FlattenLength(bodies: seq<seq<byte>>, lengths: seq<nat>)
    requires HaveLengths(bodies, lengths)
    ensures |Flatten(bodies)| == Total(lengths)
  {
    if bodies != [] {
      FlattenLength(bodies[1..], lengths[1..]);
    }
  }

  /** With the lengths known, concatenation loses nothing. */
  lemma {:induction false} FlattenInjective(a: seq<seq<byte>>, b: seq<seq<byte>>, lengths: seq<nat>)
    requires HaveLengths(a, lengths) && HaveLengths(b, lengths) && Flatten(a) == Flatten(b)
    ensures a == b
  {
    if a != [] {
      assert a[0] == Flatten(a)[..lengths[0]] == Flatten(b)[..lengths[0]] == b[0];
      assert Flatten(a[1..]) == Flatten(a)[lengths[0]..] == Flatten(b[1..]);
      FlattenInjective(a[1..], b[1..], lengths[1..]);
    }
  }

  function FileBodies(files: seq<Entry>): (bodies: seq<seq<byte>>)
    ensures |bodies| == |files| && forall i | 0 <= i < |files| :: bodies[i] == files[i].bytes
  {
    seq(|files|, i requires 0 <= i < |files| => files[i].bytes)
  }

  function VolumeBodies(volumes: seq<Volume>): (bodies: seq<seq<byte>>)
    ensures |bodies| == |volumes| && forall i | 0 <= i < |volumes| :: bodies[i] == volumes[i].bytes
  {
    seq(|volumes|, i requires 0 <= i < |volumes| => volumes[i].bytes)
  }

  function FileLengths(files: seq<Entry>): (lengths: seq<nat>)
    ensures |lengths| == |files| && forall i | 0 <= i < |files| :: lengths[i] == files[i].length
  {
    seq(|files|, i requires 0 <= i < |files| => files[i].length)
  }

  function VolumeLengths(volumes: seq<Volume>): (lengths: seq<nat>)
    ensures |lengths| == |volumes| && forall i | 0 <= i < |volumes| :: lengths[i] == volumes[i].length
  {
    seq(|volumes|, i requires 0 <= i < |volumes| => volumes[i].length)
  }

  function Bodies(s: Snapshot): seq<seq<byte>> { FileBodies(s.files) + VolumeBodies(s.volumes) }

  function Lengths(s: Snapshot): seq<nat> { FileLengths(s.files) + VolumeLengths(s.volumes) }

  /** Recorded lengths are the lengths of the payloads. */
  predicate Consistent(s: Snapshot) { HaveLengths(Bodies(s), Lengths(s)) }

  predicate Countable(s: Snapshot) { |s.files| <= MAX_FILES && |s.volumes| <= MAX_VOLUMES }

  /**
   * `bytes` is a frame of `s`: a four-byte length, metadata of that length describing `s`, and
   * then every payload in order with nothing between or after them.
   */
  ghost predicate Frames(codec: Codec, bytes: seq<byte>, s: Snapshot) {
    && |bytes| >= 4
    && var length := FromLittleEndian(bytes[..4]);
    && length <= MAX_METADATA_BYTES && length <= |bytes| - 4
    && codec.Header(bytes[4..4 + length]) == Some(Blank(s))
    && Countable(s) && Consistent(s)
    && bytes[4 + length..] == Flatten(Bodies(s))
  }

  lemma BlankKeepsLengths(s: Snapshot)
    ensures Lengths(Blank(s)) == Lengths(s)
  {
  }

  lemma FrameLength(codec: Codec, bytes: seq<byte>, s: Snapshot)
    requires Frames(codec, bytes, s)
    ensures |bytes| == 4 + FromLittleEndian(bytes[..4]) + Total(Lengths(s))
  {
    FlattenLength(Bodies(s), Lengths(s));
  }

  /** A frame determines its snapshot. */
  lemma FrameUnique(codec: Codec, bytes: seq<byte>, s: Snapshot, s': Snapshot)
    requires Frames(codec, bytes, s) && Frames(codec, bytes, s')
    ensures s == s'
  {
    assert Blank(s) == Blank(s');
    BlankKeepsLengths(s);
    BlankKeepsLengths(s');
    FlattenInjective(Bodies(s), Bodies(s'), Lengths(s));
    assert |s.files| == |s'.files| && |s.volumes| == |s'.volumes|;
    forall i | 0 <= i < |s.files| ensures s.files[i] == s'.files[i] {
      assert Bodies(s)[i] == s.files[i].bytes && Bodies(s')[i] == s'.files[i].bytes;
      assert BlankFiles(s.files)[i] == BlankFiles(s'.files)[i];
    }
    forall i | 0 <= i < |s.volumes| ensures s.volumes[i] == s'.volumes[i] {
      assert Bodies(s)[|s.files| + i] == s.volumes[i].bytes && Bodies(s')[|s.files| + i] == s'.volumes[i].bytes;
      assert BlankVolumes(s.volumes)[i] == BlankVolumes(s'.volumes)[i];
    }
  }

  /** No proper prefix and no extension of a frame is a frame. */
  lemma FramePrefixFree(codec: Codec, bytes: seq<byte>, s: Snapshot, longer: seq<byte>, s': Snapshot)
    requires Frames(codec, bytes, s) && Frames(codec, longer, s') && bytes <= longer
    ensures bytes == longer
  {
    hide Flatten, Total, Consistent, Countable;
    assert bytes[..4] == longer[..4];
    var length := FromLittleEndian(bytes[..4]);
    assert bytes[4..4 + length] == longer[4..4 + length];
    FrameLength(codec, bytes, s);
    FrameLength(codec, longer, s');
    BlankKeepsLengths(s);
    BlankKeepsLengths(s');
  }

  function Encoding(codec: Codec, s: Snapshot): seq<byte>
    requires |codec.Metadata(s)| <= MAX_METADATA_BYTES
  {
    LittleEndian(|codec.Metadata(s)|) + codec.Metadata(s) + Flatten(FileBodies(s.files)) + Flatten(VolumeBodies(s.volumes))
  }

  /** Encoding a snapshot with true lengths and bounded counts yields a frame of it. */
  lemma EncodingFrames(codec: Codec, s: Snapshot)
    requires codec.Lawful() && |codec.Metadata(s)| <= MAX_METADATA_BYTES
    requires Countable(s) && Consistent(s)
    ensures Frames(codec, Encoding(codec, s), s)
  {
    hide Flatten, Total, FromLittleEndian;
    var text := codec.Metadata(s);
    var bytes := Encoding(codec, s);
    LittleEndianInverse(|text|);
    FlattenConcat(FileBodies(s.files), VolumeBodies(s.volumes));
    assert bytes[..4] == LittleEndian(|text|);
    assert bytes[4..4 + |text|] == text;
    assert bytes[4 + |text|..] == Flatten(Bodies(s));
  }

  /** With at most 256 MiB of data the final size check can never fire. */
  lemma EncodingSizeNeverExceeds(codec: Codec, s: Snapshot)
    requires |codec.Metadata(s)| <= MAX_METADATA_BYTES
    requires Consistent(s) && Total(Lengths(s)) <= MAX_DATA_BYTES
    ensures |Encoding(codec, s)| <= MAX_ENCODED_BYTES
  {
    FlattenConcat(FileBodies(s.files), VolumeBodies(s.volumes));
    FlattenLength(Bodies(s), Lengths(s));
  }

  method Encode(codec: Codec, s: Snapshot) returns (r: Result<seq<byte>, string>)
    ensures r.Ok? <==> |codec.Metadata(s)| <= MAX_METADATA_BYTES && |Encoding(codec, s)| <= MAX_ENCODED_BYTES
    ensures r.Ok? ==> |codec.Metadata(s)| <= 1048576 && |r.value| <= 276824064
    ensures r.Ok? ==> r.value == Encoding(codec, s)
  {
    hide LittleEndian, Total, HaveLengths, Blank;
    var metadata := codec.Metadata(s);
    if |metadata| > MAX_METADATA_BYTES {
      return Err("Snapshot metadata exceeds its limit.");
    }
    var frame := LittleEndian(|metadata|) + metadata;
    var output := frame;
    for i := 0 to |s.files|
      invariant output == frame + Flatten(FileBodies(s.files)[..i])
    {
      output := output + s.files[i].bytes;
      assert FileBodies(s.files)[..i + 1] == FileBodies(s.files)[..i] + [s.files[i].bytes];
      FlattenConcat(FileBodies(s.files)[..i], [s.files[i].bytes]);
    }
    assert FileBodies(s.files)[..|s.files|] == FileBodies(s.files);
    frame := output;
    for i := 0 to |s.volumes|
      invariant output == frame + Flatten(VolumeBodies(s.volumes)[..i])
    {
      output := output + s.volumes[i].bytes;
      assert VolumeBodies(s.volumes)[..i + 1] == VolumeBodies(s.volumes)[..i] + [s.volumes[i].bytes];
      FlattenConcat(VolumeBodies(s.volumes)[..i], [s.volumes[i].bytes]);
    }
    assert VolumeBodies(s.volumes)[..|s.volumes|] == VolumeBodies(s.volumes);
    if |output| > MAX_ENCODED_BYTES {
      return Err("Snapshot encoding exceeds its limit.");
    }
    return Ok(output);
  }

  /** Cuts consecutive payloads of the given lengths out of the frame; the remaining room never goes negative. */
  method TakeBodies(bytes: seq<byte>, lengths: seq<nat>, start: nat) returns (ok: bool, bodies: seq<seq<byte>>, offset: nat)
    requires start <= |bytes|
    ensures ok <==> start + Total(lengths) <= |bytes|
    ensures ok ==> offset == start + Total(lengths) && HaveLengths(bodies, lengths) && Flatten(bodies) == bytes[start..offset]
  {
    bodies, offset := [], start;
    for i := 0 to |lengths|
      invariant start <= offset == start + Total(lengths[..i]) <= |bytes|
      invariant HaveLengths(bodies, lengths[..i])
      invariant Flatten(bodies) == bytes[start..offset]
    {
      var room: nat := |bytes| - offset;
      assert lengths[..i + 1] == lengths[..i] + [lengths[i]];
      TotalConcat(lengths[..i], [lengths[i]]);
      if lengths[i] > room {
        assert lengths == lengths[..i + 1] + lengths[i + 1..];
        TotalConcat(lengths[..i + 1], lengths[i + 1..]);
        return false, bodies, offset;
      }
      var body := bytes[offset..offset + lengths[i]];
      FlattenConcat(bodies, [body]);
      bodies, offset := bodies + [body], offset + lengths[i];
    }
    assert lengths[..|lengths|] == lengths;
    ok := true;
  }

  function FillFiles(files: seq<Entry>, bodies: seq<seq<byte>>): (filled: seq<Entry>)
    requires |files| == |bodies|
    ensures |filled| == |files| && forall i | 0 <= i < |files| :: filled[i] == files[i].(bytes := bodies[i])
  {
    seq(|files|, i requires 0 <= i < |files| => files[i].(bytes := bodies[i]))
  }

  function FillVolumes(volumes: seq<Volume>, bodies: seq<seq<byte>>): (filled: seq<Volume>)
    requires |volumes| == |bodies|
    ensures |filled| == |volumes| && forall i | 0 <= i < |volumes| :: filled[i] == volumes[i].(bytes := bodies[i])
  {
    seq(|volumes|, i requires 0 <= i < |volumes| => volumes[i].(bytes := bodies[i]))
  }

  /** What the header of a frame says about the whole of it. */
  lemma FrameHeader(codec: Codec, bytes: seq<byte>, s: Snapshot)
    requires Frames(codec, bytes, s)
    ensures |bytes| >= 4
    ensures var length := FromLittleEndian(bytes[..4]);
      && length <= MAX_METADATA_BYTES && length <= |bytes| - 4
      && var header := codec.Header(bytes[4..4 + length]);
      && header.Some? && Countable(header.value)
      && |bytes| == 4 + length + Total(FileLengths(header.value.files)) + Total(VolumeLengths(header.value.volumes))
  {
    FrameLength(codec, bytes, s);
    assert FileLengths(Blank(s).files) == FileLengths(s.files);
    assert VolumeLengths(Blank(s).volumes) == VolumeLengths(s.volumes);
    TotalConcat(FileLengths(s.files), VolumeLengths(s.volumes));
  }

  function Filled(header: Snapshot, files: seq<seq<byte>>, volumes: seq<seq<byte>>): Snapshot
    requires |files| == |header.files| && |volumes| == |header.volumes|
  {
    header.(files := FillFiles(header.files, files), volumes := FillVolumes(header.volumes, volumes))
  }

  lemma FilledFrames(codec: Codec, bytes: seq<byte>, length: nat, header: Snapshot,
                     files: seq<seq<byte>>, volumes: seq<seq<byte>>)
    requires |bytes| >= 4 && length == FromLittleEndian(bytes[..4]) <= MAX_METADATA_BYTES
    requires length <= |bytes| - 4 && codec.Header(bytes[4..4 + length]) == Some(header)
    requires Countable(header) && Blank(header) == header
    requires HaveLengths(files, FileLengths(header.files)) && HaveLengths(volumes, VolumeLengths(header.volumes))
    requires bytes[4 + length..] == Flatten(files) + Flatten(volumes)
    ensures Frames(codec, bytes, Filled(header, files, volumes))
  {
    var filled := Filled(header, files, volumes);
    FlattenConcat(files, volumes);
    assert FileBodies(filled.files) == files && VolumeBodies(filled.volumes) == volumes;
    assert Blank(filled).files == Blank(header).files && Blank(filled).volumes == Blank(header).volumes;
  }

  /** Accepts exactly the frames, and returns the snapshot framed. */
  method DecodePlain(codec: Codec, bytes: seq<byte>) returns (r: Result<Snapshot, string>)
    ensures r.Ok? ==> Frames(codec, bytes, r.value)
    ensures r.Err? ==> forall s :: !Frames(codec, bytes, s)
  {
    hide Frames, Flatten, Total, Blank;
    forall s | Frames(codec, bytes, s) {
      FrameHeader(codec, bytes, s);
    }
    if |bytes| < 4 {
      return Err("Snapshot framing is incomplete.");
    }
    var length := FromLittleEndian(bytes[..4]);
    if length > MAX_METADATA_BYTES || length > |bytes| - 4 {
      return Err("Snapshot metadata framing is invalid.");
    }
    var header := codec.Header(bytes[4..4 + length]);
    if header.None? {
      return Err("Snapshot metadata is malformed.");
    }
    var s := header.value;
    if |s.files| > MAX_FILES || |s.volumes| > MAX_VOLUMES {
      return Err("Snapshot entry count exceeds its bound.");
    }
    var ok, files, volumes, offset;
    ok, files, offset := TakeBodies(bytes, FileLengths(s.files), 4 + length);
    if !ok {
      return Err("Snapshot file framing is incomplete.");
    }
    ghost var middle := offset;
    ok, volumes, offset := TakeBodies(bytes, VolumeLengths(s.volumes), offset);
    if !ok {
      return Err("Snapshot volume framing is incomplete.");
    }
    if offset != |bytes| {
      return Err("Snapshot contains unexpected trailing bytes.");
    }
    assert bytes[4 + length..] == bytes[4 + length..middle] + bytes[middle..];
    HeaderIsBlank(codec, bytes[4..4 + length]);
    FilledFrames(codec, bytes, length, s, files, volumes);
    return Ok(Filled(s, files, volumes));
  }

  lemma HeaderIsBlank(codec: Codec, text: seq<byte>)
    requires codec.Header(text).Some?
    ensures Blank(codec.Header(text).value) == codec.Header(text).value
  {
    var s := codec.parse(text).value;
    assert BlankFiles(BlankFiles(s.files)) == BlankFiles(s.files);
    assert BlankVolumes(BlankVolumes(s.volumes)) == BlankVolumes(s.volumes);
  }
}
