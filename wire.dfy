/** The FPNN wire codec of src/fpnn/fpnn_client.py: the 12-byte header
    (FPNNHeader.pack), the quest and answer frames (FPNNQuest.raw,
    FPNNAnswer.raw) and the plaintext read side of the receive loop (the
    16-byte `<4sBBBBII` prefix, then the method name and payload). */
module Wire {
  import opened Bytes

  /** "FPNN" in ASCII: the magic every header starts with. */
  const Magic: seq<byte> := [0x46, 0x50, 0x4E, 0x4E]
  const FpnnVersion: int := 1
  const FlagMsgpack: int := 0x80
  const MtOneway: int := 0
  const MtTwoway: int := 1
  const MtAnswer: int := 2
  const HeaderSize: int := 12
  const PrefixSize: int := 16

  /** msgpack's encoding of the empty map `{}` (a fixmap of size 0): the
      payload of the acknowledgement the client sends for a server quest. */
  const EmptyMapPayload: seq<byte> := [0x80]

  /** FPNNHeader. The magic is always "FPNN", so it is not a field here. */
  datatype Header = Header(version: int, flag: int, mtype: int, ss: int, psize: int)

  predicate IsU8(n: int) { 0 <= n < 256 }
  predicate IsU32(n: int) { 0 <= n < TwoTo32 }

  /** The values `struct.pack('<4sBBBBI', ...)` accepts; anything else makes
      it raise struct.error. */
  predicate Packable(h: Header)
  {
    IsU8(h.version) && IsU8(h.flag) && IsU8(h.mtype) && IsU8(h.ss) && IsU32(h.psize)
  }

  /** FPNNHeader.pack: magic, four single bytes, psize as u32 little-endian. */
  function Pack(h: Header): (r: seq<byte>)
    requires Packable(h)
    ensures |r| == HeaderSize
    ensures r[..4] == Magic
    ensures r[4] == h.version && r[5] == h.flag && r[6] == h.mtype && r[7] == h.ss
    ensures DecodeU32LE(r[8..HeaderSize]) == h.psize
  {
    U32RoundTrip(h.psize);
    var r := Magic + [h.version as byte, h.flag as byte, h.mtype as byte, h.ss as byte] + U32LE(h.psize);
    assert r[8..HeaderSize] == U32LE(h.psize);
    r
  }

  /** The 7-tuple `struct.unpack('<4sBBBBII', buffer)` returns: the header
      fields followed by the u32 that follows the header. */
  datatype Prefix = Prefix(magic: seq<byte>, version: int, flag: int, mtype: int, ss: int, psize: int, seqNum: int)

  function HeaderOf(p: Prefix): Header
  {
    Header(p.version, p.flag, p.mtype, p.ss, p.psize)
  }

  /** struct.unpack('<4sBBBBII', b): defined on exactly 16 bytes, raising
      (None) on any other length. */
  function DecodePrefix(b: seq<byte>): (p: Option<Prefix>)
    ensures p.Some? <==> |b| == PrefixSize
    ensures p.Some? ==> Packable(HeaderOf(p.value)) && IsU32(p.value.seqNum) && |p.value.magic| == 4
  {
    if |b| != PrefixSize then None
    else Some(Prefix(b[..4], b[4], b[5], b[6], b[7], DecodeU32LE(b[8..12]), DecodeU32LE(b[12..16])))
  }

  /** Header round trip: unpacking a packed header followed by a u32 gives
      back the magic, every header field and the u32. */
  lemma PrefixRoundTrip(h: Header, s: int, more: seq<byte>)
    requires Packable(h) && IsU32(s)
    ensures DecodePrefix((Pack(h) + U32LE(s) + more)[..PrefixSize])
         == Some(Prefix(Magic, h.version, h.flag, h.mtype, h.ss, h.psize, s))
  {
    var b := Pack(h) + U32LE(s) + more;
    assert b[..PrefixSize][..4] == Pack(h)[..4];
    assert b[..PrefixSize][8..12] == Pack(h)[8..HeaderSize];
    assert b[..PrefixSize][12..16] == U32LE(s);
    U32RoundTrip(s);
  }

  /** The other direction: any 16 bytes are the packing of what they unpack
      to, so the prefix layout loses nothing. */
  lemma PrefixCanonical(b: seq<byte>)
    requires |b| == PrefixSize && b[..4] == Magic
    ensures Pack(HeaderOf(DecodePrefix(b).value)) + U32LE(DecodePrefix(b).value.seqNum) == b
  {
    var p := DecodePrefix(b).value;
    U32Canonical(b[8..12]);
    U32Canonical(b[12..16]);
    assert Pack(HeaderOf(p)) == b[..4] + b[4..8] + b[8..12];
  }

  /** FPNNQuest once constructed: method name, serialised params (opaque
      bytes), its kind and, when twoway, the sequence number it drew. */
  datatype Quest = Quest(name: string, payload: seq<byte>, oneway: bool, seqNum: int)

  /** The header a quest carries, with ss counting the method name's bytes. */
  function QuestHeader(q: Quest): Header
  {
    Header(FpnnVersion, FlagMsgpack, if q.oneway then MtOneway else MtTwoway, |Utf8(q.name)|, |q.payload|)
  }

  /** The sequence-number field: present only in twoway quests. */
  function SeqField(q: Quest): seq<byte>
    requires q.oneway || IsU32(q.seqNum)
  {
    if q.oneway then [] else U32LE(q.seqNum)
  }

  /** Whether FPNNQuest.raw can build the frame: it raises struct.error when
      the method name is 256 bytes or longer, the payload 2^32 bytes or
      longer, or the sequence number does not fit a u32. */
  predicate QuestEncodable(q: Quest)
  {
    Packable(QuestHeader(q)) && (q.oneway || IsU32(q.seqNum))
  }

  /** FPNNQuest.raw, with the method name written in full (see
      QuestRawAsWritten for the code as it stands). */
  function QuestRaw(q: Quest): (r: Option<seq<byte>>)
    ensures r.Some? <==> |Utf8(q.name)| < 256 && IsU32(|q.payload|) && (q.oneway || IsU32(q.seqNum))
    ensures r.Some? ==> |r.value| == HeaderSize + (if q.oneway then 0 else 4) + |Utf8(q.name)| + |q.payload|
  {
    if !QuestEncodable(q) then None
    else Some(Pack(QuestHeader(q)) + SeqField(q) + Utf8(q.name) + q.payload)
  }

  /** FPNNQuest.raw exactly as written: ss = len(method) counts characters,
      and `struct.pack('!%ds' % len(method), method.encode('utf-8'))` keeps
      only that many leading bytes of the UTF-8 encoding. */
  function QuestRawAsWritten(q: Quest): (r: Option<seq<byte>>)
    ensures r.Some? ==> |r.value| == HeaderSize + (if q.oneway then 0 else 4) + |q.name| + |q.payload|
  {
    var h := Header(FpnnVersion, FlagMsgpack, if q.oneway then MtOneway else MtTwoway, |q.name|, |q.payload|);
    if !Packable(h) || (!q.oneway && !IsU32(q.seqNum)) then None
    else Some(Pack(h) + SeqField(q) + Utf8(q.name)[..|q.name|] + q.payload)
  }

  /** For ASCII method names the code as written and the corrected encoding
      produce the same bytes. */
  lemma AsWrittenAgreesOnAscii(q: Quest)
    requires IsAscii(q.name)
    ensures QuestRawAsWritten(q) == QuestRaw(q)
  {
    Utf8Ascii(q.name);
    assert Utf8(q.name)[..|q.name|] == Utf8(q.name);
  }

  /** As written, two different one-character method names, U+00E9 and
      U+00C3, produce the same frame: both are cut to the single byte 0xC3. */
  lemma AsWrittenConflatesMethodNames()
    ensures QuestRawAsWritten(Quest("\U{E9}", [], true, 0)) == QuestRawAsWritten(Quest("\U{C3}", [], true, 0))
    ensures QuestRaw(Quest("\U{E9}", [], true, 0)) != QuestRaw(Quest("\U{C3}", [], true, 0))
  {
    var q1, q2 := Quest("\U{E9}", [], true, 0), Quest("\U{C3}", [], true, 0);
    assert Utf8(q1.name) == [0xC3, 0xA9];
    assert Utf8(q2.name) == [0xC3, 0x83];
    assert Utf8(q1.name)[..|q1.name|] == [0xC3] == Utf8(q2.name)[..|q2.name|];
    assert QuestRaw(q1).value[13] != QuestRaw(q2).value[13];
  }

  /** The quest encoding is injective: a frame determines the kind, the
      sequence number of a twoway quest, the method name and the payload. */
  lemma QuestRawInjective(q1: Quest, q2: Quest)
    requires QuestRaw(q1).Some? && QuestRaw(q1) == QuestRaw(q2)
    ensures q1.oneway == q2.oneway && q1.name == q2.name && q1.payload == q2.payload
    ensures !q1.oneway ==> q1.seqNum == q2.seqNum
  {
    var r := QuestRaw(q1).value;
    var h1, h2 := QuestHeader(q1), QuestHeader(q2);
    assert r[6] == h1.mtype == h2.mtype;
    assert q1.oneway == q2.oneway;
    assert r[7] == h1.ss == h2.ss;
    assert h1.psize == DecodeU32LE(r[8..HeaderSize]) == h2.psize;
    var k := HeaderSize + |SeqField(q1)|;
    assert r[HeaderSize..k] == SeqField(q1) == SeqField(q2);
    if !q1.oneway {
      U32Injective(q1.seqNum, q2.seqNum);
    }
    assert r[k..k + h1.ss] == Utf8(q1.name) == Utf8(q2.name);
    Utf8Injective(q1.name, q2.name);
    assert r[k + h1.ss..] == q1.payload == q2.payload;
  }

  /** The header of an answer: mtype answer, no method name. */
  function AnswerHeader(payload: seq<byte>): Header
  {
    Header(FpnnVersion, FlagMsgpack, MtAnswer, 0, |payload|)
  }

  /** FPNNAnswer.raw: header, the u32 sequence number, the payload. Raises
      (None) when the sequence number or payload length do not fit a u32. */
  function AnswerRaw(seqNum: int, payload: seq<byte>): (r: Option<seq<byte>>)
    ensures r.Some? <==> IsU32(seqNum) && IsU32(|payload|)
    ensures r.Some? ==> |r.value| == PrefixSize + |payload|
  {
    if !IsU32(seqNum) || !IsU32(|payload|) then None
    else Some(Pack(AnswerHeader(payload)) + U32LE(seqNum) + payload)
  }

  /** What the plaintext receive loop makes of one frame. */
  datatype Inbound =
    | AnswerIn(seqNum: int, payload: seq<byte>)
    | QuestIn(methodBytes: seq<byte>, seqNum: int, payload: seq<byte>)
    | OtherIn(mtype: int)

  /** One iteration of the plaintext receive loop over the bytes `b` the
      socket delivers: read 16 bytes and unpack them; for an answer read psize
      more bytes; for a twoway quest read ss bytes of method name, then psize
      bytes of payload; any other type reads nothing more. None when the bytes
      run out first (the loop would still be blocked reading). Returns the
      frame and the bytes after it. */
  function ReadFrame(b: seq<byte>): (r: Option<(Inbound, seq<byte>)>)
    ensures r.Some? ==> |r.value.1| <= |b| - PrefixSize && r.value.1 == b[|b| - |r.value.1|..]
  {
    if |b| < PrefixSize then None
    else
      var p := DecodePrefix(b[..PrefixSize]).value;
      var rest := b[PrefixSize..];
      if p.mtype == MtAnswer then
        if |rest| < p.psize then None
        else Some((AnswerIn(p.seqNum, rest[..p.psize]), rest[p.psize..]))
      else if p.mtype == MtTwoway then
        if |rest| < p.ss + p.psize then None
        else Some((QuestIn(rest[..p.ss], p.seqNum, rest[p.ss..p.ss + p.psize]), rest[p.ss + p.psize..]))
      else Some((OtherIn(p.mtype), rest))
  }

  /** The first 16 bytes of an answer frame unpack to mtype answer (index 3)
      and the answer's sequence number (index 6). */
  lemma AnswerPrefix(seqNum: int, payload: seq<byte>)
    requires AnswerRaw(seqNum, payload).Some?
    ensures DecodePrefix(AnswerRaw(seqNum, payload).value[..PrefixSize])
         == Some(Prefix(Magic, FpnnVersion, FlagMsgpack, MtAnswer, 0, |payload|, seqNum))
  {
    PrefixRoundTrip(AnswerHeader(payload), seqNum, payload);
  }

  /** Reading an answer frame off a stream gives back its sequence number and
      payload, and leaves the following bytes untouched. */
  lemma AnswerRoundTrip(seqNum: int, payload: seq<byte>, more: seq<byte>)
    requires AnswerRaw(seqNum, payload).Some?
    ensures ReadFrame(AnswerRaw(seqNum, payload).value + more) == Some((AnswerIn(seqNum, payload), more))
  {
    var raw := AnswerRaw(seqNum, payload).value;
    var b := raw + more;
    PrefixRoundTrip(AnswerHeader(payload), seqNum, payload + more);
    assert Pack(AnswerHeader(payload)) + U32LE(seqNum) + (payload + more) == b;
    assert b[PrefixSize..] == payload + more;
  }

  /** The first 16 bytes of a twoway quest frame unpack to mtype twoway, the
      method name's byte length, the payload length and the sequence number. */
  lemma TwowayQuestPrefix(q: Quest)
    requires !q.oneway && QuestRaw(q).Some?
    ensures DecodePrefix(QuestRaw(q).value[..PrefixSize])
         == Some(Prefix(Magic, FpnnVersion, FlagMsgpack, MtTwoway, |Utf8(q.name)|, |q.payload|, q.seqNum))
  {
    PrefixRoundTrip(QuestHeader(q), q.seqNum, Utf8(q.name) + q.payload);
    assert QuestRaw(q).value == Pack(QuestHeader(q)) + U32LE(q.seqNum) + (Utf8(q.name) + q.payload);
  }

  /** Reading a twoway quest frame off a stream gives back the method name's
      bytes, the sequence number and the payload, and leaves the following
      bytes untouched. */
  lemma TwowayQuestRoundTrip(q: Quest, more: seq<byte>)
    requires !q.oneway && QuestRaw(q).Some?
    ensures ReadFrame(QuestRaw(q).value + more) == Some((QuestIn(Utf8(q.name), q.seqNum, q.payload), more))
  {
    var m := Utf8(q.name);
    var b := QuestRaw(q).value + more;
    PrefixRoundTrip(QuestHeader(q), q.seqNum, m + q.payload + more);
    assert Pack(QuestHeader(q)) + U32LE(q.seqNum) + (m + q.payload + more) == b;
    var rest := b[PrefixSize..];
    assert rest == m + q.payload + more;
    assert rest[..|m|] == m;
    assert rest[|m|..|m| + |q.payload|] == q.payload;
    assert rest[|m| + |q.payload|..] == more;
  }
}
