/** The write-ahead log as bytes: length-prefixed frames in rotated segments, and replay
    that tolerates a torn tail (crates/wal). */
module Wal {
  import opened Core

  newtype byte = x: int | 0 <= x < 256

  datatype Kind = WriteBatchKind | CheckpointKind | ManifestSyncKind | ConsolidationEventKind

  datatype Record = Record(
    lsn: nat,
    kind: Kind,
    payloadLen: nat,
    payloadCrc: nat,
    formatVersion: nat,
    payload: seq<byte>)

  /** The record serialisation and the payload checksum, taken as given. */
  datatype Codec = Codec(encode: Record -> seq<byte>, decode: seq<byte> -> Option<Record>, crc: seq<byte> -> nat)

  const U64_LIMIT: nat := 0x1_0000_0000_0000_0000
  const U32_LIMIT: nat := 0x1_0000_0000

  const U16_LIMIT: nat := 0x1_0000

  /** The fields of a record fit their widths, and the length is that of the payload. */
  predicate RecordOk(r: Record) {
    && r.lsn < U64_LIMIT
    && r.payloadLen == |r.payload| < U32_LIMIT
    && r.payloadCrc < U32_LIMIT
    && r.formatVersion < U16_LIMIT
  }

  /** Decoding undoes encoding, encodings have a 64-bit length and checksums 32 bits. */
  ghost predicate CodecOk(c: Codec) {
    && (forall r | RecordOk(r) :: c.decode(c.encode(r)) == Some(r) && |c.encode(r)| < U64_LIMIT)
    && (forall payload :: c.crc(payload) < U32_LIMIT)
  }

  // ---------------------------------------------------------------- the length prefix

  function LittleEndian(n: nat, width: nat): (bytes: seq<byte>)
    ensures |bytes| == width
  {
    if width == 0 then [] else [(n % 256) as byte] + LittleEndian(n / 256, width - 1)
  }

  function FromLittleEndian(bytes: seq<byte>): nat {
    if bytes == [] then 0 else bytes[0] as nat + 256 * FromLittleEndian(bytes[1..])
  }

  function Pow256(width: nat): (p: nat)
    ensures p > 0
  {
    if width == 0 then 1 else 256 * Pow256(width - 1)
  }

  lemma {:induction false} LittleEndianRoundTrip(n: nat, width: nat)
    requires n < Pow256(width)
    ensures FromLittleEndian(LittleEndian(n, width)) == n
  {
    if width > 0 {
      LittleEndianRoundTrip(n / 256, width - 1);
      assert LittleEndian(n, width)[1..] == LittleEndian(n / 256, width - 1);
    }
  }

  /** The byte at a position is the digit of that rank, the lowest first. */
  lemma {:induction false} LittleEndianAt(n: nat, width: nat, i: nat)
    requires i < width
    ensures |LittleEndian(n, width)| == width && LittleEndian(n, width)[i] as int == (n / Pow256(i)) % 256
  {
    if i > 0 {
      LittleEndianAt(n / 256, width - 1, i - 1);
      DivTwice(n, Pow256(i - 1));
    }
  }

  lemma DivTwice(n: nat, b: nat)
    requires b > 0
    ensures n / 256 / b == n / (256 * b)
  {
    var q, r, low := n / 256 / b, n / 256 % b, n % 256;
    assert n / 256 == b * q + r;
    assert n == (256 * b) * q + (256 * r + low);
    DivIs(n, 256 * b, q, 256 * r + low);
  }

  lemma DivIs(n: nat, b: nat, q: nat, r: nat)
    requires b > 0 && n == b * q + r && r < b
    ensures n / b == q
  {
    var d := n / b;
    assert b * (d - q) == r - n % b && b * (q - d) == n % b - r;
    if d > q {
      AtLeastOnce(b, d - q);
    } else if d < q {
      AtLeastOnce(b, q - d);
    }
  }

  lemma AtLeastOnce(b: nat, x: nat)
    requires x >= 1
    ensures b * x >= b
  {
  }

  lemma LengthPrefixRoundTrip(n: nat)
    requires n < U64_LIMIT
    ensures FromLittleEndian(LittleEndian(n, 8)) == n
  {
    assert Pow256(8) == 256 * (256 * (256 * (256 * Pow256(4)))) && Pow256(4) == 256 * (256 * (256 * (256 * Pow256(0))));
    LittleEndianRoundTrip(n, 8);
  }

  // ---------------------------------------------------------------- frames

  /** `encode_record`. */
  function Frame(c: Codec, r: Record): (frame: seq<byte>)
    ensures |frame| == 8 + |c.encode(r)|
  {
    LittleEndian(|c.encode(r)|, 8) + c.encode(r)
  }

  function Frames(c: Codec, rs: seq<Record>): seq<byte> {
    if rs == [] then [] else Frame(c, rs[0]) + Frames(c, rs[1..])
  }

  predicate ChecksumOk(c: Codec, r: Record) {
    r.payloadCrc == c.crc(r.payload)
  }

  function Prepend(a: seq<Record>, r: Result<seq<Record>>): Result<seq<Record>> {
    match r case Err(e) => Err(e) case Ok(b) => Ok(a + b)
  }

  lemma PrependTwice(a: seq<Record>, b: seq<Record>, r: Result<seq<Record>>)
    ensures Prepend(a, Prepend(b, r)) == Prepend(a + b, r)
  {
    if r.Ok? {
      assert a + (b + r.value) == (a + b) + r.value;
    }
  }

  lemma PrependNothing(a: seq<Record>, r: Result<seq<Record>>)
    ensures Prepend([], r) == r && Prepend(a, Ok([])) == Ok(a)
  {
    if r.Ok? {
      assert [] + r.value == r.value;
    }
    assert a + [] == a;
  }

  /** Replay of one segment: frame by frame, stopping quietly at an incomplete frame. */
  function Parse(c: Codec, bytes: seq<byte>): Result<seq<Record>>
    decreases |bytes|
  {
    if |bytes| < 8 then Ok([])
    else
      var end := 8 + FromLittleEndian(bytes[..8]);
      if end > |bytes| then Ok([])
      else match c.decode(bytes[8..end])
        case None => Err(Corruption)
        case Some(r) =>
          if !ChecksumOk(c, r) then Err(Corruption)
          else Prepend([r], Parse(c, bytes[end..]))
  }

  /** The inner loop of `replay_from_dir`. */
  method ParseSegment(c: Codec, bytes: seq<byte>) returns (r: Result<seq<Record>>)
    ensures r == Parse(c, bytes)
  {
    var records: seq<Record> := [];
    var offset := 0;
    PrependNothing([], Parse(c, bytes));
    assert bytes[0..] == bytes;
    while offset + 8 <= |bytes|
      invariant offset <= |bytes|
      invariant Parse(c, bytes) == Prepend(records, Parse(c, bytes[offset..]))
    {
      var frameLen := FromLittleEndian(bytes[offset..offset + 8]);
      var frameStart := offset + 8;
      var frameEnd := frameStart + frameLen;
      var rest := bytes[offset..];
      assert rest[..8] == bytes[offset..offset + 8];
      if frameEnd > |bytes| {
        PrependNothing(records, Ok([]));
        return Ok(records);
      }
      assert rest[8..8 + frameLen] == bytes[frameStart..frameEnd] && rest[8 + frameLen..] == bytes[frameEnd..];
      var decoded := c.decode(bytes[frameStart..frameEnd]);
      if decoded.None? || !ChecksumOk(c, decoded.value) {
        return Err(Corruption);
      }
      PrependTwice(records, [decoded.value], Parse(c, bytes[frameEnd..]));
      records := records + [decoded.value];
      offset := frameEnd;
    }
    PrependNothing(records, Ok([]));
    return Ok(records);
  }

  /** How many frames lie wholly within the first `cut` bytes. */
  function WholeFrames(c: Codec, rs: seq<Record>, cut: nat): (n: nat)
    ensures n <= |rs|
  {
    if rs == [] || |Frame(c, rs[0])| > cut then 0
    else 1 + WholeFrames(c, rs[1..], cut - |Frame(c, rs[0])|)
  }

  ghost predicate Sealed(c: Codec, rs: seq<Record>) {
    forall r | r in rs :: RecordOk(r) && ChecksumOk(c, r)
  }

  /** `WholeFrames` is what it says: those frames fit and the next does not. */
  lemma {:induction false} WholeFramesFit(c: Codec, rs: seq<Record>, cut: nat)
    ensures var n := WholeFrames(c, rs, cut);
            |Frames(c, rs[..n])| <= cut && (n < |rs| ==> cut < |Frames(c, rs[..n + 1])|)
  {
    if rs != [] && |Frame(c, rs[0])| <= cut {
      var n := WholeFrames(c, rs, cut);
      WholeFramesFit(c, rs[1..], cut - |Frame(c, rs[0])|);
      assert rs[..n][1..] == rs[1..][..n - 1];
      if n < |rs| {
        assert rs[..n + 1][1..] == rs[1..][..n];
      }
    } else if rs != [] {
      assert rs[..1][1..] == [];
    }
  }

  lemma ConsPrefix<T>(s: seq<T>, n: nat)
    requires n < |s|
    ensures s[..n + 1] == [s[0]] + s[1..][..n]
  {
  }

  /** Torn tails: whatever the cut, replay returns exactly the records whose frames are
      wholly present. */
  lemma {:induction false} TornTailReplay(c: Codec, rs: seq<Record>, cut: nat)
    requires CodecOk(c) && Sealed(c, rs) && cut <= |Frames(c, rs)|
    ensures Parse(c, Frames(c, rs)[..cut]) == Ok(rs[..WholeFrames(c, rs, cut)])
  {
    if rs != [] {
      var f, all := Frame(c, rs[0]), Frames(c, rs);
      var len := |c.encode(rs[0])|;
      LengthPrefixRoundTrip(len);
      if cut >= 8 {
        assert all[..cut][..8] == LittleEndian(len, 8);
        if cut >= |f| {
          assert all[..cut][8..|f|] == all[8..|f|] == f[8..];
          assert all[..cut][|f|..] == Frames(c, rs[1..])[..cut - |f|];
          TornTailReplay(c, rs[1..], cut - |f|);
          var n := WholeFrames(c, rs[1..], cut - |f|);
          ConsPrefix(rs, n);
        }
      }
    }
  }

  lemma {:induction false} AllFramesWhole(c: Codec, rs: seq<Record>)
    ensures WholeFrames(c, rs, |Frames(c, rs)|) == |rs|
  {
    if rs != [] {
      AllFramesWhole(c, rs[1..]);
    }
  }

  /** Framing round trip. */
  lemma FramesRoundTrip(c: Codec, rs: seq<Record>)
    requires CodecOk(c) && Sealed(c, rs)
    ensures Parse(c, Frames(c, rs)) == Ok(rs)
  {
    AllFramesWhole(c, rs);
    TornTailReplay(c, rs, |Frames(c, rs)|);
    assert Frames(c, rs)[..|Frames(c, rs)|] == Frames(c, rs) && rs[..|rs|] == rs;
  }

  lemma FrameFirst(c: Codec, r: Record, more: seq<byte>)
    requires CodecOk(c) && RecordOk(r)
    ensures var bytes := Frame(c, r) + more;
            && |bytes| >= 8 && 8 + FromLittleEndian(bytes[..8]) == |Frame(c, r)|
            && bytes[8..|Frame(c, r)|] == c.encode(r) && bytes[|Frame(c, r)|..] == more
  {
    var bytes := Frame(c, r) + more;
    LengthPrefixRoundTrip(|c.encode(r)|);
    assert bytes[..8] == LittleEndian(|c.encode(r)|, 8);
  }

  /** Whole frames replay exactly if the checksum of every record is that of its payload; one that
      is not makes the whole replay fail. */
  lemma {:induction false} ChecksumsDecide(c: Codec, rs: seq<Record>)
    requires CodecOk(c) && forall r | r in rs :: RecordOk(r)
    ensures Parse(c, Frames(c, rs)) ==
            if forall r | r in rs :: r.payloadCrc == c.crc(r.payload) then Ok(rs) else Err(Corruption)
  {
    if rs != [] {
      FrameFirst(c, rs[0], Frames(c, rs[1..]));
      ChecksumsDecide(c, rs[1..]);
      assert rs == [rs[0]] + rs[1..];
    }
  }

  /** A whole frame that does not decode makes the replay fail. */
  lemma UndecodableFrame(c: Codec, bytes: seq<byte>, more: seq<byte>)
    requires |bytes| < U64_LIMIT && c.decode(bytes) == None
    ensures Parse(c, LittleEndian(|bytes|, 8) + bytes + more) == Err(Corruption)
  {
    LengthPrefixRoundTrip(|bytes|);
    var all := LittleEndian(|bytes|, 8) + bytes + more;
    assert all[..8] == LittleEndian(|bytes|, 8) && all[8..8 + |bytes|] == bytes;
  }

  /** The length that replay reads when a frame was torn after `kept` bytes and more bytes
      follow: the frame's own length, unless the tear lies inside the length prefix. */
  function TornLength(c: Codec, r: Record, kept: nat, more: seq<byte>): nat
    requires kept < |Frame(c, r)| && kept + |more| >= 8
  {
    if kept >= 8 then |c.encode(r)| else FromLittleEndian(Frame(c, r)[..kept] + more[..8 - kept])
  }

  /** What is appended after a torn frame is swallowed without notice exactly while the length
      that replay reads there is not filled up. */
  lemma AppendAfterTornFrame(c: Codec, r: Record, kept: nat, more: seq<byte>)
    requires CodecOk(c) && RecordOk(r) && kept < |Frame(c, r)|
    ensures Parse(c, Frame(c, r)[..kept] + more) == Ok([]) <==>
            kept + |more| < 8 || kept + |more| < 8 + TornLength(c, r, kept, more)
  {
    var bytes := Frame(c, r)[..kept] + more;
    LengthPrefixRoundTrip(|c.encode(r)|);
    if kept >= 8 {
      assert bytes[..8] == LittleEndian(|c.encode(r)|, 8);
    } else if |bytes| >= 8 {
      assert bytes[..8] == Frame(c, r)[..kept] + more[..8 - kept];
    }
  }

  /** In particular, a frame torn after its length prefix swallows later bytes until there are
      as many as were torn off. */
  lemma AppendAfterTornBody(c: Codec, r: Record, kept: nat, more: seq<byte>)
    requires CodecOk(c) && RecordOk(r) && 8 <= kept < |Frame(c, r)|
    ensures Parse(c, Frame(c, r)[..kept] + more) == Ok([]) <==> kept + |more| < |Frame(c, r)|
  {
    AppendAfterTornFrame(c, r, kept, more);
  }

  lemma {:induction false} FramesConcat(c: Codec, a: seq<Record>, b: seq<Record>)
    ensures Frames(c, a + b) == Frames(c, a) + Frames(c, b)
  {
    if a == [] {
      assert a + b == b;
    } else {
      assert (a + b)[1..] == a[1..] + b;
      FramesConcat(c, a[1..], b);
    }
  }

  // ---------------------------------------------------------------- directories

  function TotalBytes(segments: seq<seq<byte>>): nat {
    if segments == [] then 0 else TotalBytes(segments[..|segments| - 1]) + |segments[|segments| - 1]|
  }

  /** `replay_from_dir` over the segments in id order. */
  function ReplayDir(c: Codec, segments: seq<seq<byte>>, maxBytes: nat): Result<seq<Record>> {
    if segments == [] then Ok([])
    else match ReplayDir(c, segments[..|segments| - 1], maxBytes)
      case Err(e) => Err(e)
      case Ok(rs) =>
        if TotalBytes(segments) > maxBytes then Err(Validation)
        else Prepend(rs, Parse(c, segments[|segments| - 1]))
  }

  /** A directory replays exactly if its segments together stay within the byte limit and each of
      them replays; beyond the limit alone the request is refused. */
  lemma {:induction false} DirReplaysIff(c: Codec, segments: seq<seq<byte>>, maxBytes: nat)
    ensures ReplayDir(c, segments, maxBytes).Ok? <==>
            TotalBytes(segments) <= maxBytes && forall i | 0 <= i < |segments| :: Parse(c, segments[i]).Ok?
    ensures (forall i | 0 <= i < |segments| :: Parse(c, segments[i]).Ok?) && TotalBytes(segments) > maxBytes ==>
              ReplayDir(c, segments, maxBytes) == Err(Validation)
  {
    if segments != [] {
      var front := segments[..|segments| - 1];
      assert forall i | 0 <= i < |front| :: front[i] == segments[i];
      DirReplaysIff(c, front, maxBytes);
    }
  }

  method ReplayFromDir(c: Codec, segments: seq<seq<byte>>, maxBytes: nat) returns (r: Result<seq<Record>>)
    ensures r == ReplayDir(c, segments, maxBytes)
  {
    var records: seq<Record> := [];
    var replayed := 0;
    for i := 0 to |segments|
      invariant replayed == TotalBytes(segments[..i])
      invariant ReplayDir(c, segments[..i], maxBytes) == Ok(records)
    {
      assert segments[..i + 1][..i] == segments[..i];
      replayed := replayed + |segments[i]|;
      if replayed > maxBytes {
        ErrPropagates(c, segments, maxBytes, i + 1);
        return Err(Validation);
      }
      var parsed := ParseSegment(c, segments[i]);
      if parsed.Err? {
        ErrPropagates(c, segments, maxBytes, i + 1);
        return parsed;
      }
      records := records + parsed.value;
    }
    assert segments[..|segments|] == segments;
    return Ok(records);
  }

  lemma {:induction false} ErrPropagates(c: Codec, segments: seq<seq<byte>>, maxBytes: nat, i: nat)
    requires i <= |segments| && ReplayDir(c, segments[..i], maxBytes).Err?
    ensures ReplayDir(c, segments, maxBytes) == ReplayDir(c, segments[..i], maxBytes)
    decreases |segments| - i
  {
    if i < |segments| {
      assert segments[..i + 1][..i] == segments[..i];
      ErrPropagates(c, segments, maxBytes, i + 1);
    } else {
      assert segments[..i] == segments;
    }
  }

  // ---------------------------------------------------------------- the log object

  function Flatten(parts: seq<seq<Record>>): seq<Record> {
    if parts == [] then [] else Flatten(parts[..|parts| - 1]) + parts[|parts| - 1]
  }

  ghost predicate Written(c: Codec, segments: seq<seq<byte>>, parts: seq<seq<Record>>) {
    && |segments| == |parts|
    && (forall i | 0 <= i < |parts| :: segments[i] == Frames(c, parts[i]) && Sealed(c, parts[i]))
  }

  /** Every segment is within the configured size or holds a single frame. */
  ghost predicate Sized(segments: seq<seq<byte>>, parts: seq<seq<Record>>, size: nat)
    requires |segments| == |parts|
  {
    forall i | 0 <= i < |parts| :: |segments[i]| <= size || |parts[i]| <= 1
  }

  ghost predicate Numbered(log: seq<Record>, first: nat) {
    forall i | 0 <= i < |log| :: log[i].lsn == first + i
  }

  /** Replay of several segments, the last of them cut anywhere, returns the records of the
      whole segments and of the whole frames before the cut, in order. */
  lemma {:induction false} ReplayWritten(c: Codec, segments: seq<seq<byte>>, parts: seq<seq<Record>>, cut: nat,
                                         maxBytes: nat)
    requires CodecOk(c) && Written(c, segments, parts) && segments != [] && cut <= |segments[|segments| - 1]|
    requires TotalBytes(segments) <= maxBytes
    ensures var last := |segments| - 1;
            var torn := segments[last := segments[last][..cut]];
            ReplayDir(c, torn, maxBytes) ==
              Ok(Flatten(parts[..last]) + parts[last][..WholeFrames(c, parts[last], cut)])
    decreases |segments|
  {
    var last := |segments| - 1;
    var torn := segments[last := segments[last][..cut]];
    assert torn[..last] == segments[..last];
    if last > 0 {
      var before := |segments[last - 1]|;
      assert segments[last - 1][..before] == segments[last - 1];
      ReplayWritten(c, segments[..last], parts[..last], before, maxBytes);
      assert segments[..last][last - 1 := segments[last - 1][..before]] == segments[..last];
      AllFramesWhole(c, parts[last - 1]);
      assert parts[last - 1][..|parts[last - 1]|] == parts[last - 1];
      assert parts[..last][..last - 1] == parts[..last - 1];
    }
    TornTailReplay(c, parts[last], cut);
  }

  lemma ReplayWhole(c: Codec, segments: seq<seq<byte>>, parts: seq<seq<Record>>, maxBytes: nat)
    requires CodecOk(c) && Written(c, segments, parts) && segments != [] && TotalBytes(segments) <= maxBytes
    ensures ReplayDir(c, segments, maxBytes) == Ok(Flatten(parts))
  {
    var last := |segments| - 1;
    ReplayWritten(c, segments, parts, |segments[last]|, maxBytes);
    assert segments[last][..|segments[last]|] == segments[last];
    AllFramesWhole(c, parts[last]);
    assert parts[last][..|parts[last]|] == parts[last];
  }

  ghost predicate LogOk(c: Codec, segments: seq<seq<byte>>, parts: seq<seq<Record>>, size: nat, nextLsn: nat) {
    && segments != [] && Written(c, segments, parts) && Sized(segments, parts, size)
    && nextLsn >= 1 + |Flatten(parts)| && Numbered(Flatten(parts), nextLsn - |Flatten(parts)|)
  }

  /** The number that an opened log gives to its next record. */
  function NextNumber(replayed: seq<Record>): nat {
    if replayed == [] then 1 else replayed[|replayed| - 1].lsn + 1
  }

  lemma FlattenLast(parts: seq<seq<Record>>)
    requires parts != []
    ensures Flatten(parts) == Flatten(parts[..|parts| - 1]) + parts[|parts| - 1]
  {
  }

  lemma NumberedPrefix(log: seq<Record>, first: nat, n: nat)
    requires Numbered(log, first) && n <= |log|
    ensures NextNumber(log[..n]) == if n == 0 then 1 else first + n
  {
  }

  /** A log whose last segment was torn goes on numbering right after its last whole record, so
      the numbers of what was torn off are given again. */
  lemma TornNumbersAreReused(c: Codec, segments: seq<seq<byte>>, parts: seq<seq<Record>>, cut: nat, maxBytes: nat,
                             first: nat)
    requires CodecOk(c) && Written(c, segments, parts) && segments != [] && cut <= |segments[|segments| - 1]|
    requires TotalBytes(segments) <= maxBytes && Numbered(Flatten(parts), first)
    ensures var last := |segments| - 1;
            var r := ReplayDir(c, segments[last := segments[last][..cut]], maxBytes);
            var whole := |Flatten(parts[..last])| + WholeFrames(c, parts[last], cut);
            r.Ok? && NextNumber(r.value) == if whole == 0 then 1 else first + whole
  {
    var last := |segments| - 1;
    var n := WholeFrames(c, parts[last], cut);
    ReplayWritten(c, segments, parts, cut, maxBytes);
    FlattenLast(parts);
    assert Flatten(parts[..last]) + parts[last][..n] == Flatten(parts)[..|Flatten(parts[..last])| + n];
    NumberedPrefix(Flatten(parts), first, |Flatten(parts[..last])| + n);
  }

  lemma OpenedOk(c: Codec, segments: seq<seq<byte>>, parts: seq<seq<Record>>, size: nat, n: nat, maxBytes: nat)
    requires CodecOk(c) && LogOk(c, segments, parts, size, n) && TotalBytes(segments) <= maxBytes
    ensures ReplayDir(c, segments, maxBytes) == Ok(Flatten(parts))
    ensures LogOk(c, segments, parts, size, NextNumber(Flatten(parts)))
    ensures NextNumber(Flatten(parts)) == if Flatten(parts) == [] then 1 else n
  {
    ReplayWhole(c, segments, parts, maxBytes);
    var all := Flatten(parts);
    NumberedPrefix(all, n - |all|, |all|);
    assert all[..|all|] == all;
  }

  /** `Wal::open`: a log over the segments found in a directory, `parts` being what was written to
      them and `n` the next number of the log that wrote it. A log that was closed in order is
      opened as it was; only an empty one starts again at 1. */
  method OpenLog(codec: Codec, segmentSize: nat, maxReplayBytes: nat, segments: seq<seq<byte>>,
                 ghost parts: seq<seq<Record>>, ghost n: nat)
    returns (r: Result<SegmentedLog>)
    requires CodecOk(codec)
    ensures var replayed := ReplayDir(codec, segments, maxReplayBytes);
            match r
            case Err(e) => replayed == Err(e)
            case Ok(log) =>
              && replayed.Ok? && fresh(log) && log.nextLsn == NextNumber(replayed.value)
              && log.segments == (if segments == [] then [[]] else segments)
              && log.codec == codec && log.segmentSize == segmentSize && log.maxReplayBytes == maxReplayBytes
    ensures LogOk(codec, segments, parts, segmentSize, n) && TotalBytes(segments) <= maxReplayBytes ==>
              && r.Ok? && r.value.Valid() && r.value.Contents() == Flatten(parts)
              && r.value.nextLsn == if Flatten(parts) == [] then 1 else n
  {
    var replayed := ReplayFromDir(codec, segments, maxReplayBytes);
    if LogOk(codec, segments, parts, segmentSize, n) && TotalBytes(segments) <= maxReplayBytes {
      OpenedOk(codec, segments, parts, segmentSize, n, maxReplayBytes);
    }
    if replayed.Err? {
      return Err(replayed.error);
    }
    var found := if segments == [] then [[]] else segments;
    var log := new SegmentedLog.Over(codec, segmentSize, maxReplayBytes, found, NextNumber(replayed.value), parts);
    r := Ok(log);
  }

  class SegmentedLog {
    const codec: Codec
    const segmentSize: nat
    const maxReplayBytes: nat
    /** Segment files in id order; the last is the active one. */
    var segments: seq<seq<byte>>
    var nextLsn: nat
    /** The records written to each segment. */
    ghost var parts: seq<seq<Record>>

    ghost predicate Valid()
      reads this
    {
      CodecOk(codec) && LogOk(codec, segments, parts, segmentSize, nextLsn)
    }

    ghost function Contents(): seq<Record>
      reads this
    {
      Flatten(parts)
    }

    constructor (codec: Codec, segmentSize: nat, maxReplayBytes: nat)
      requires CodecOk(codec)
      ensures Valid() && Contents() == [] && nextLsn == 1
      ensures this.codec == codec && this.segmentSize == segmentSize && this.maxReplayBytes == maxReplayBytes
    {
      this.codec, this.segmentSize, this.maxReplayBytes := codec, segmentSize, maxReplayBytes;
      segments, parts, nextLsn := [[]], [[]], 1;
    }

    constructor Over(codec: Codec, segmentSize: nat, maxReplayBytes: nat, segments: seq<seq<byte>>, nextLsn: nat,
                     ghost parts: seq<seq<Record>>)
      ensures this.codec == codec && this.segmentSize == segmentSize && this.maxReplayBytes == maxReplayBytes
      ensures this.segments == segments && this.nextLsn == nextLsn && this.parts == parts
    {
      this.codec, this.segmentSize, this.maxReplayBytes := codec, segmentSize, maxReplayBytes;
      this.segments, this.parts, this.nextLsn := segments, parts, nextLsn;
    }

    /** `rotate_if_needed`. */
    method RotateIfNeeded(incoming: nat)
      requires Valid()
      modifies this
      ensures Valid() && Contents() == old(Contents()) && nextLsn == old(nextLsn)
      ensures var active := old(segments[|segments| - 1]);
              segments == if active != [] && |active| + incoming > segmentSize then old(segments) + [[]]
                else old(segments)
    {
      var current := |segments[|segments| - 1]|;
      if current > 0 && current + incoming > segmentSize {
        assert (parts + [[]])[..|parts|] == parts;
        segments, parts := segments + [[]], parts + [[]];
        assert Flatten(parts) == old(Flatten(parts)) + [];
      }
    }

    /** `append`: one frame at the end of the active segment, numbered next. */
    method Append(kind: Kind, payload: seq<byte>) returns (r: Result<Record>)
      requires Valid()
      modifies this
      ensures Valid()
      ensures r.Ok? <==> |payload| < U32_LIMIT && old(nextLsn) < U64_LIMIT
      ensures r.Ok? ==> r.value.lsn == old(nextLsn) && r.value.kind == kind && r.value.payload == payload
      ensures r.Ok? ==>
                && r.value.payloadLen == |payload| && r.value.payloadCrc == codec.crc(payload)
                && r.value.formatVersion == 1
      ensures r.Ok? ==> Contents() == old(Contents()) + [r.value] && nextLsn == old(nextLsn) + 1
      ensures r.Err? ==> segments == old(segments) && Contents() == old(Contents()) && nextLsn == old(nextLsn)
    {
      if |payload| >= U32_LIMIT || nextLsn >= U64_LIMIT {
        return Err(Validation);
      }
      var record := Record(nextLsn, kind, |payload|, codec.crc(payload), 1, payload);
      var frame := Frame(codec, record);
      RotateIfNeeded(|frame|);
      var last := |segments| - 1;
      ExtendValid(codec, segments, parts, segmentSize, nextLsn, record);
      segments, nextLsn := segments[last := segments[last] + frame], nextLsn + 1;
      parts := parts[last := parts[last] + [record]];
      return Ok(record);
    }

    method Replay() returns (r: Result<seq<Record>>)
      requires Valid()
      ensures TotalBytes(segments) <= maxReplayBytes ==> r == Ok(Contents())
    {
      r := ReplayFromDir(codec, segments, maxReplayBytes);
      if TotalBytes(segments) <= maxReplayBytes {
        ReplayWhole(codec, segments, parts, maxReplayBytes);
      }
    }

    /** `truncate_all_segments`: the numbering restarts at 1. */
    method TruncateAllSegments()
      requires Valid()
      modifies this
      ensures Valid() && Contents() == [] && nextLsn == 1
    {
      segments, parts, nextLsn := [[]], [[]], 1;
    }
  }

  lemma EmptyFramesOnly(c: Codec, rs: seq<Record>)
    ensures Frames(c, rs) == [] <==> rs == []
  {
  }

  lemma ExtendWritten(c: Codec, segments: seq<seq<byte>>, parts: seq<seq<Record>>, r: Record)
    requires Written(c, segments, parts) && segments != [] && RecordOk(r) && ChecksumOk(c, r)
    ensures var last := |segments| - 1;
            var parts' := parts[last := parts[last] + [r]];
            && Written(c, segments[last := segments[last] + Frame(c, r)], parts')
            && Flatten(parts') == Flatten(parts) + [r]
  {
    var last := |segments| - 1;
    FramesConcat(c, parts[last], [r]);
    assert Frames(c, [r]) == Frame(c, r) + Frames(c, []);
    assert parts[last := parts[last] + [r]][..last] == parts[..last];
    assert Flatten(parts[..last]) + (parts[last] + [r]) == (Flatten(parts[..last]) + parts[last]) + [r];
  }

  lemma ExtendValid(c: Codec, segments: seq<seq<byte>>, parts: seq<seq<Record>>, size: nat, nextLsn: nat, r: Record)
    requires LogOk(c, segments, parts, size, nextLsn)
    requires RecordOk(r) && ChecksumOk(c, r) && r.lsn == nextLsn
    requires var active := segments[|segments| - 1]; active == [] || |active| + |Frame(c, r)| <= size
    ensures var last := |segments| - 1;
            var parts' := parts[last := parts[last] + [r]];
            && LogOk(c, segments[last := segments[last] + Frame(c, r)], parts', size, nextLsn + 1)
            && Flatten(parts') == Flatten(parts) + [r]
  {
    ExtendWritten(c, segments, parts, r);
    EmptyFramesOnly(c, parts[|segments| - 1]);
  }

  // ---------------------------------------------------------------- a codec

  function KindByte(k: Kind): byte {
    match k
    case WriteBatchKind => 0
    case CheckpointKind => 1
    case ManifestSyncKind => 2
    case ConsolidationEventKind => 3
  }

  function KindOf(b: byte): Kind {
    match b
    case 0 => WriteBatchKind
    case 1 => CheckpointKind
    case 2 => ManifestSyncKind
    case _ => ConsolidationEventKind
  }

  const HEADER_BYTES: nat := 19

  /** A plain fixed-width encoding of records. */
  function EncodeFixed(r: Record): seq<byte> {
    LittleEndian(r.lsn, 8) + LittleEndian(r.payloadLen, 4) + LittleEndian(r.payloadCrc, 4)
    + LittleEndian(r.formatVersion, 2) + [KindByte(r.kind)] + r.payload
  }

  function DecodeFixed(b: seq<byte>): Option<Record> {
    if |b| < HEADER_BYTES then None
    else Some(Record(FromLittleEndian(b[..8]), KindOf(b[18]), FromLittleEndian(b[8..12]), FromLittleEndian(b[12..16]),
                     FromLittleEndian(b[16..18]), b[19..]))
  }

  lemma FixedRoundTrip(r: Record)
    requires RecordOk(r)
    ensures DecodeFixed(EncodeFixed(r)) == Some(r) && |EncodeFixed(r)| < U64_LIMIT
  {
    var b := EncodeFixed(r);
    LengthPrefixRoundTrip(r.lsn);
    assert Pow256(4) == 256 * (256 * (256 * (256 * Pow256(0)))) && Pow256(2) == 256 * (256 * Pow256(0));
    LittleEndianRoundTrip(r.payloadLen, 4);
    LittleEndianRoundTrip(r.payloadCrc, 4);
    LittleEndianRoundTrip(r.formatVersion, 2);
    assert b[..8] == LittleEndian(r.lsn, 8) && b[8..12] == LittleEndian(r.payloadLen, 4);
    assert b[12..16] == LittleEndian(r.payloadCrc, 4) && b[16..18] == LittleEndian(r.formatVersion, 2);
    assert b[18] == KindByte(r.kind) && b[19..] == r.payload;
  }

  /** There are codecs as the log needs them. */
  lemma SomeCodecIsOk() returns (c: Codec)
    ensures CodecOk(c)
  {
    c := Codec(r => EncodeFixed(r), b => DecodeFixed(b), payload => |payload| % U32_LIMIT);
    forall r | RecordOk(r) ensures c.decode(c.encode(r)) == Some(r) && |c.encode(r)| < U64_LIMIT {
      FixedRoundTrip(r);
    }
  }
}
