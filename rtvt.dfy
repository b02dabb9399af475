/** RTVTClient of src/rtvt/rtvt_server_client.py on its win32 path, where it
    sits on FPNNTCPClient: the endpoint split of the constructor, the
    interpretation of the login and voiceStart answers, the per-stream
    tables `stream_queue` (pending audio bytes) and `stream_seq_map` (next
    chunk sequence number), and the 640-byte chunker of send_voice_variable.
    Quests are not sent over a socket here: each voice chunk handed to
    send_voice_async is recorded, and each synchronous quest's outcome is an
    input. */
module Rtvt {
  import opened Bytes

  /** The code every win32 method returns when sendQuestSync raised. */
  const SdkErrorCode: int := 10001

  /** The exceptions the modelled code can raise. */
  datatype Raised = ValueError | IndexError | KeyError

  /** One send_voice_async call: the 'voiceData' quest's stream, sequence
      number and audio bytes. */
  datatype VoiceQuest = VoiceQuest(streamId: int, seqNum: int, data: seq<byte>)

  /** The argument of send_voice_variable: bytes/bytearray, or anything
      else. */
  datatype VoiceData = BytesData(bytes: seq<byte>) | OtherData

  // ---------------------------------------------------------------------
  // The chunker, as a function of the buffered bytes

  /** The voice quests the chunker emits for buffer `buf` when the stream's
      counter holds `firstSeq`: whole chunks of 640 bytes (the chunk size
      send_voice_variable uses) from the front, with consecutive sequence
      numbers. */
  function Chunks(buf: seq<byte>, streamId: int, firstSeq: int): (r: seq<VoiceQuest>)
    ensures |r| == |buf| / 640
    decreases |buf|
  {
    if |buf| < 640 then []
    else [VoiceQuest(streamId, firstSeq, buf[..640])] + Chunks(buf[640..], streamId, firstSeq + 1)
  }

  /** The i-th emitted quest carries the i-th 640-byte slice of the buffer
      and the counter advanced by i. */
  lemma {:induction false} ChunkAt(buf: seq<byte>, streamId: int, firstSeq: int, i: int)
    requires 0 <= i < |buf| / 640
    ensures Chunks(buf, streamId, firstSeq)[i] == VoiceQuest(streamId, firstSeq + i, buf[640 * i .. 640 * (i + 1)])
    decreases i
  {
    if i > 0 {
      var tail := buf[640..];
      ChunkAt(tail, streamId, firstSeq + 1, i - 1);
      var lo := 640 * (i - 1);
      assert 640 * i == lo + 640 && 640 * (i + 1) == lo + 1280;
      assert tail[lo .. lo + 640] == buf[lo + 640 .. lo + 1280];
    }
  }

  /** What remains buffered: the bytes after the last whole chunk. */
  function Remainder(buf: seq<byte>): (r: seq<byte>)
    ensures |r| == |buf| % 640
    ensures |r| < 640
  {
    buf[640 * (|buf| / 640)..]
  }

  /** The audio bytes of a sequence of voice quests, in order. */
  function Payloads(qs: seq<VoiceQuest>): seq<byte>
  {
    if qs == [] then [] else qs[0].data + Payloads(qs[1..])
  }

  /** The emitted chunks followed by what remains buffered are exactly the
      buffer: no byte is lost, duplicated or reordered. */
  lemma {:induction false} ChunksThenRemainder(buf: seq<byte>, streamId: int, firstSeq: int)
    ensures Payloads(Chunks(buf, streamId, firstSeq)) + Remainder(buf) == buf
    decreases |buf|
  {
    if |buf| >= 640 {
      var tail := buf[640..];
      ChunksThenRemainder(tail, streamId, firstSeq + 1);
      var r := Chunks(buf, streamId, firstSeq);
      assert r[1..] == Chunks(tail, streamId, firstSeq + 1);
      assert Remainder(tail) == Remainder(buf);
      calc {
        Payloads(r) + Remainder(buf);
        buf[..640] + Payloads(Chunks(tail, streamId, firstSeq + 1)) + Remainder(tail);
        buf[..640] + tail;
      }
    }
  }

  /** Chunking does not depend on how the audio is split across calls:
      chunking `buf`, then chunking its remainder followed by `more` from
      the advanced counter, emits the same quests as chunking `buf + more`
      in one go. */
  lemma {:induction false} ChunksAppend(buf: seq<byte>, more: seq<byte>, streamId: int, firstSeq: int)
    ensures Chunks(buf, streamId, firstSeq) + Chunks(Remainder(buf) + more, streamId, firstSeq + |buf| / 640)
         == Chunks(buf + more, streamId, firstSeq)
    decreases |buf|
  {
    if |buf| < 640 {
      assert Remainder(buf) == buf;
    } else {
      var tail := buf[640..];
      ChunksAppend(tail, more, streamId, firstSeq + 1);
      assert (buf + more)[640..] == tail + more;
      assert (buf + more)[..640] == buf[..640];
      assert Remainder(tail) == Remainder(buf);
      assert |tail| / 640 + 1 == |buf| / 640;
    }
  }

  // ---------------------------------------------------------------------
  // The endpoint string

  /** Python's str.split(sep). */
  function Split(s: string, sep: char): (r: seq<string>)
    ensures |r| >= 1
    ensures forall i :: 0 <= i < |r| ==> sep !in r[i]
    decreases |s|
  {
    if s == [] then [[]]
    else
      var rest := Split(s[1..], sep);
      if s[0] == sep then [[]] + rest else [[s[0]] + rest[0]] + rest[1..]
  }

  /** sep.join(pieces). */
  function Join(pieces: seq<string>, sep: char): string
  {
    if pieces == [] then []
    else if |pieces| == 1 then pieces[0]
    else pieces[0] + [sep] + Join(pieces[1..], sep)
  }

  /** Splitting loses nothing: joining the pieces gives the string back. */
  lemma {:induction false} SplitJoin(s: string, sep: char)
    ensures Join(Split(s, sep), sep) == s
    decreases |s|
  {
    if s != [] {
      SplitJoin(s[1..], sep);
      var rest := Split(s[1..], sep);
      if s[0] != sep && |rest| > 1 {
        assert Join(rest, sep) == rest[0] + [sep] + Join(rest[1..], sep);
        assert Join([[s[0]] + rest[0]] + rest[1..], sep)
            == [s[0]] + rest[0] + [sep] + Join(rest[1..], sep) by {
          assert ([[s[0]] + rest[0]] + rest[1..])[1..] == rest[1..];
        }
      }
    }
  }

  /** A string without the separator is a single piece, and a separator
      between two such strings splits exactly there. */
  lemma {:induction false} SplitPair(a: string, b: string, sep: char)
    requires sep !in a && sep !in b
    ensures Split(a + [sep] + b, sep) == [a, b]
    decreases |a|
  {
    if a == [] {
      assert ([sep] + b)[1..] == b;
      SplitNone(b, sep);
    } else {
      SplitPair(a[1..], b, sep);
      assert (a + [sep] + b)[1..] == a[1..] + [sep] + b;
      assert [a[0]] + a[1..] == a;
    }
  }

  lemma {:induction false} SplitNone(s: string, sep: char)
    requires sep !in s
    ensures Split(s, sep) == [s]
    decreases |s|
  {
    if s != [] {
      SplitNone(s[1..], sep);
      assert [s[0]] + s[1..] == s;
    }
  }

  predicate IsDigit(c: char)
  {
    '0' <= c <= '9'
  }

  /** int(s) for a string of decimal digits; anything else is refused. */
  function ParseDigits(s: string): (r: Option<nat>)
    ensures r.Some? <==> s != [] && forall i :: 0 <= i < |s| ==> IsDigit(s[i])
  {
    if s == [] || !IsDigit(s[|s| - 1]) then None
    else
      var d := (s[|s| - 1] as int) - ('0' as int);
      if |s| == 1 then Some(d)
      else match ParseDigits(s[..|s| - 1])
        case None => None
        case Some(n) => Some(10 * n + d)
  }

  /** str(n). */
  function NatToString(n: nat): (r: string)
    ensures r != [] && forall i :: 0 <= i < |r| ==> IsDigit(r[i])
  {
    var last := [(('0' as int) + n % 10) as char];
    if n < 10 then last else NatToString(n / 10) + last
  }

  lemma {:induction false} ParseDigitsOfNatToString(n: nat)
    ensures ParseDigits(NatToString(n)) == Some(n)
  {
    if n >= 10 {
      ParseDigitsOfNatToString(n / 10);
      var s := NatToString(n);
      assert s[..|s| - 1] == NatToString(n / 10);
    }
  }

  /** The constructor's `arr = endpoint.split(":")`, `arr[0]` and
      `int(arr[1])`: an endpoint without ':' raises IndexError, a port that
      is not a number raises ValueError; text after a second ':' is
      ignored. */
  function ParseEndpoint(endpoint: string): (r: Result<(string, nat), Raised>)
    ensures r.Err? ==> r.error in {IndexError, ValueError}
    ensures (r == Err(IndexError)) <==> ':' !in endpoint
    ensures r.Ok? ==> ':' !in r.value.0 && r.value.0 <= endpoint
  {
    var arr := Split(endpoint, ':');
    SplitJoin(endpoint, ':');
    if |arr| < 2 then
      SplitNone(endpoint, ':');
      Err(IndexError)
    else match ParseDigits(arr[1])
      case None => Err(ValueError)
      case Some(port) =>
        assert endpoint == arr[0] + [':'] + Join(arr[1..], ':');
        Ok((arr[0], port))
  }

  /** "host:port" parses back to the host and port it was built from. */
  lemma EndpointRoundTrip(host: string, port: nat)
    requires ':' !in host
    ensures ParseEndpoint(host + ":" + NatToString(port)) == Ok((host, port))
  {
    var digits := NatToString(port);
    assert forall i :: 0 <= i < |digits| ==> digits[i] != ':';
    SplitPair(host, digits, ':');
    ParseDigitsOfNatToString(port);
  }

  // ---------------------------------------------------------------------
  // Answers of synchronous quests

  /** The msgpack values the interpretation looks at: booleans and
      integers, and everything else. */
  datatype Value = VBool(b: bool) | VInt(i: int) | VOther

  /** Python's `v == True`: True itself and the integer 1. */
  predicate EqualsTrue(v: Value)
  {
    match v
    case VBool(b) => b
    case VInt(i) => i == 1
    case VOther => false
  }

  /** What sendQuestSync does for the caller: returns the decoded answer,
      or raises. */
  datatype SyncOutcome<T> = Answered(answer: T) | SyncRaised

  /** login on win32: (answer['successed'] == True, 0) when the answer has
      the key, (False, 0) when it does not, (False, 10001) when the quest
      raised. */
  function LoginResult(outcome: SyncOutcome<map<string, Value>>): (r: (bool, int))
    ensures r.1 == SdkErrorCode <==> outcome.SyncRaised?
    ensures r.1 == 0 <==> outcome.Answered?
    ensures r.0 <==> outcome.Answered? && "successed" in outcome.answer && EqualsTrue(outcome.answer["successed"])
  {
    match outcome
    case SyncRaised => (false, SdkErrorCode)
    case Answered(answer) =>
      if "successed" in answer then (EqualsTrue(answer["successed"]), 0) else (false, 0)
  }

  /** What send_quest returns on the other platforms: an error answer with
      its code, or the answer's fields. */
  datatype TcpAnswer<T> = ErrorAnswer(errorCode: int) | Answer(answer: T)

  /** login on the other platforms: an error answer gives (False, its
      code); otherwise `answer.want("successed")` gives
      (successed == True, 0), and raises, giving (False, 10001), when the
      key is missing. */
  function LoginResultTcp(outcome: TcpAnswer<map<string, Value>>): (r: (bool, int))
    ensures outcome.ErrorAnswer? ==> r == (false, outcome.errorCode)
    ensures outcome.Answer? ==> (r.1 == 0 <==> "successed" in outcome.answer)
    ensures outcome.Answer? ==> (r.1 == SdkErrorCode <==> "successed" !in outcome.answer)
    ensures r.0 <==> outcome.Answer? && "successed" in outcome.answer && EqualsTrue(outcome.answer["successed"])
  {
    match outcome
    case ErrorAnswer(code) => (false, code)
    case Answer(answer) =>
      if "successed" in answer then (EqualsTrue(answer["successed"]), 0) else (false, SdkErrorCode)
  }

  // ---------------------------------------------------------------------
  // The client and its stream tables

  class RtvtClient {
    const host: string
    const port: nat
    var requireClose: bool
    var stop: bool
    /** stream_queue: the audio bytes each open stream has buffered. */
    var streamQueue: map<int, seq<byte>>
    /** stream_seq_map: the sequence number of each stream's next chunk. */
    var streamSeq: map<int, int>
    /** The send_voice_async calls made so far, in order. */
    var voiceSent: seq<VoiceQuest>

    /** The two tables name the same streams, every buffer holds less than
        one chunk, and every counter is at least 1. */
    ghost predicate Valid()
      reads this`streamQueue, this`streamSeq
    {
      && streamQueue.Keys == streamSeq.Keys
      && (forall id :: id in streamQueue ==> |streamQueue[id]| < 640)
      && (forall id :: id in streamSeq ==> streamSeq[id] >= 1)
    }

    constructor (host: string, port: nat)
      ensures Valid()
      ensures this.host == host && this.port == port && !requireClose
      ensures streamQueue == map[] && streamSeq == map[] && voiceSent == []
    {
      this.host, this.port := host, port;
      requireClose, stop := false, false;
      streamQueue, streamSeq, voiceSent := map[], map[], [];
    }

    /** RTVTClient(endpoint, pid, uid): split the endpoint, or raise. */
    static method Create(endpoint: string) returns (r: Result<RtvtClient, Raised>)
      ensures r.Err? <==> ParseEndpoint(endpoint).Err?
      ensures r.Err? ==> r.error == ParseEndpoint(endpoint).error
      ensures r.Ok? ==> fresh(r.value) && r.value.Valid() && r.value.streamQueue == map[]
                        && (r.value.host, r.value.port) == ParseEndpoint(endpoint).value
    {
      var parsed := ParseEndpoint(endpoint);
      if parsed.Err? {
        return Err(parsed.error);
      }
      var c := new RtvtClient(parsed.value.0, parsed.value.1);
      r := Ok(c);
    }

    /** send_voice_variable: append the bytes to the stream's buffer, then
        pop and send whole 640-byte chunks, each with the stream's counter,
        which advances once per chunk. Not bytes: ValueError. Unknown
        stream: nothing happens. */
    method SendVoiceVariable(streamId: int, data: VoiceData) returns (r: Result<int, Raised>)
      requires Valid()
      modifies this`streamQueue, this`streamSeq, this`voiceSent
      ensures Valid()
      ensures data.OtherData? ==> r == Err(ValueError)
      ensures data.BytesData? ==> r == Ok(0)
      ensures data.OtherData? || streamId !in old(streamQueue) ==>
                streamQueue == old(streamQueue) && streamSeq == old(streamSeq) && voiceSent == old(voiceSent)
      ensures data.BytesData? && streamId in old(streamQueue) ==>
                var buf := old(streamQueue)[streamId] + data.bytes;
                var first := old(streamSeq)[streamId];
                && voiceSent == old(voiceSent) + Chunks(buf, streamId, first)
                && streamQueue == old(streamQueue)[streamId := Remainder(buf)]
                && streamSeq == old(streamSeq)[streamId := first + |buf| / 640]
    {
      if data.OtherData? {
        return Err(ValueError);
      }
      if streamId !in streamQueue {
        return Ok(0);
      }
      streamQueue := streamQueue[streamId := streamQueue[streamId] + data.bytes];
      DrainChunks(streamId);
      r := Ok(0);
    }

    /** The loop of send_voice_variable: pop as many whole 640-byte chunks
        as the buffer held when the loop started, each sent with the
        stream's counter, which then advances. */
    method DrainChunks(streamId: int)
      requires streamId in streamQueue && streamId in streamSeq
      modifies this`streamQueue, this`streamSeq, this`voiceSent
      ensures var buf, first := old(streamQueue)[streamId], old(streamSeq)[streamId];
              && voiceSent == old(voiceSent) + Chunks(buf, streamId, first)
              && streamQueue == old(streamQueue)[streamId := Remainder(buf)]
              && streamSeq == old(streamSeq)[streamId := first + |buf| / 640]
    {
      ghost var buf, first := streamQueue[streamId], streamSeq[streamId];
      ghost var chunks := Chunks(buf, streamId, first);
      var sendLength := |streamQueue[streamId]| / 640;
      var i := 0;
      while i < sendLength
        invariant 0 <= i <= sendLength
        invariant streamQueue == old(streamQueue)[streamId := buf[640 * i..]]
        invariant streamSeq == old(streamSeq)[streamId := first + i]
        invariant voiceSent == old(voiceSent) + chunks[..i]
      {
        var chunk := streamQueue[streamId][..640];
        assert chunk == buf[640 * i .. 640 * (i + 1)];
        ChunkAt(buf, streamId, first, i);
        assert chunks[..i + 1] == chunks[..i] + [chunks[i]];
        streamQueue := streamQueue[streamId := streamQueue[streamId][640..]];
        voiceSent := voiceSent + [VoiceQuest(streamId, streamSeq[streamId], chunk)];
        streamSeq := streamSeq[streamId := streamSeq[streamId] + 1];
        i := i + 1;
      }
      assert chunks[..i] == chunks;
    }

    /** create_stream on win32: a raised voiceStart quest gives (-1, 10001)
        and changes nothing; an answer gives its streamId (0 when absent),
        whose buffer becomes empty and whose counter becomes 1, replacing
        any earlier state of that stream. */
    method CreateStream(outcome: SyncOutcome<Option<int>>) returns (streamId: int, code: int)
      requires Valid()
      modifies this`streamQueue, this`streamSeq
      ensures Valid()
      ensures outcome.SyncRaised? ==>
                streamId == -1 && code == SdkErrorCode && streamQueue == old(streamQueue) && streamSeq == old(streamSeq)
      ensures outcome.Answered? ==>
                && streamId == (if outcome.answer.Some? then outcome.answer.value else 0)
                && code == 0
                && streamQueue == old(streamQueue)[streamId := []]
                && streamSeq == old(streamSeq)[streamId := 1]
    {
      if outcome.SyncRaised? {
        return -1, SdkErrorCode;
      }
      streamId := 0;
      if outcome.answer.Some? {
        streamId := outcome.answer.value;
      }
      streamQueue := streamQueue[streamId := []];
      streamSeq := streamSeq[streamId := 1];
      code := 0;
    }

    /** create_stream on the other platforms: an error answer gives (-1,
        its code); an answer without a streamId makes `want` raise, giving
        (-1, 10001); otherwise the stream's buffer becomes empty and its
        counter 1, and (streamId, 0) is returned. */
    method CreateStreamTcp(outcome: TcpAnswer<Option<int>>) returns (streamId: int, code: int)
      requires Valid()
      modifies this`streamQueue, this`streamSeq
      ensures Valid()
      ensures outcome.ErrorAnswer? ==> streamId == -1 && code == outcome.errorCode
      ensures outcome.Answer? && outcome.answer.None? ==> streamId == -1 && code == SdkErrorCode
      ensures outcome.Answer? && outcome.answer.Some? ==>
                && streamId == outcome.answer.value && code == 0
                && streamQueue == old(streamQueue)[streamId := []]
                && streamSeq == old(streamSeq)[streamId := 1]
      ensures outcome.ErrorAnswer? || outcome.answer.None? ==>
                streamQueue == old(streamQueue) && streamSeq == old(streamSeq)
    {
      if outcome.ErrorAnswer? {
        return -1, outcome.errorCode;
      }
      if outcome.answer.None? {
        return -1, SdkErrorCode;
      }
      streamId := outcome.answer.value;
      streamQueue := streamQueue[streamId := []];
      streamSeq := streamSeq[streamId := 1];
      code := 0;
    }

    /** close_stream on win32: 0 once the voiceEnd quest is answered, 10001
        when it raised. The stream stays in both tables. */
    method CloseStream(streamId: int, outcome: SyncOutcome<()>) returns (code: int)
      ensures code == 0 <==> outcome.Answered?
      ensures code == SdkErrorCode <==> outcome.SyncRaised?
    {
      code := if outcome.SyncRaised? then SdkErrorCode else 0;
    }

    /** close_stream on the other platforms, where the quest's answer is an
        error code or success: an error code is returned as is; success
        deletes the stream from both tables, raising KeyError if it is not
        in them. */
    method CloseStreamTcp(streamId: int, errorCode: Option<int>) returns (r: Result<int, Raised>)
      requires Valid()
      modifies this`streamQueue, this`streamSeq
      ensures Valid()
      ensures errorCode.Some? ==> r == Ok(errorCode.value)
      ensures errorCode.None? ==> r == (if streamId in old(streamQueue) then Ok(0) else Err(KeyError))
      ensures errorCode.None? && streamId in old(streamQueue) ==>
                streamQueue == old(streamQueue) - {streamId} && streamSeq == old(streamSeq) - {streamId}
      ensures errorCode.Some? || streamId !in old(streamQueue) ==>
                streamQueue == old(streamQueue) && streamSeq == old(streamSeq)
    {
      if errorCode.Some? {
        return Ok(errorCode.value);
      }
      if streamId !in streamQueue {
        return Err(KeyError);
      }
      streamQueue := streamQueue - {streamId};
      streamSeq := streamSeq - {streamId};
      r := Ok(0);
    }

    /** delay_destory after its sleep: mark the client closing and stopped
        and forget every stream. */
    method DelayDestroy()
      modifies this`requireClose, this`stop, this`streamQueue, this`streamSeq
      ensures Valid()
      ensures requireClose && stop && streamQueue == map[] && streamSeq == map[]
    {
      requireClose, stop := true, true;
      streamQueue, streamSeq := map[], map[];
    }
  }
}
