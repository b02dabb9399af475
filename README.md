# RTVT Python SDK: FPNN client core and RTVT stream chunker

This project models, in Dafny, the sequential core of the real-time voice
translation (RTVT) Python SDK:

- **The FPNN protocol client** (`src/fpnn/fpnn_client.py`):
  - the binary frame codec: the 12-byte `FPNNHeader`, quest and answer frames, and the 16-byte `<4sBBBBII` prefix the receive loop unpacks;
  - the class-wide wrapping sequence counter of `FPNNQuest`;
  - the pending-callback dictionary `cbDict`, with `putCb`/`getCb` pop semantics;
  - the timeout rule and the two-phase timeout sweep;
  - the flush of every pending callback when the connection breaks;
  - `invokeCallback`'s routing of results, either to the FIFO async queue or to a sync callback's slot and semaphore;
  - the classification in `send` (oneway or twoway, registered or not) and its error path;
  - the `canEncryptor`/`isEncryptor` gate and the key and IV selection of `enableEncryptor`;
  - what the plaintext receive loop does with an answer and with a server quest.
- **The RTVT client** (`src/rtvt/rtvt_server_client.py`):
  - the `host:port` split of the constructor;
  - the interpretation of `login` and `voiceStart` answers;
  - the paired per-stream tables `stream_queue` and `stream_seq_map`;
  - the chunker of `send_voice_variable`, which cuts each stream's buffered audio into 640-byte `voiceData` quests with consecutive sequence numbers.

Modules, one file each:

| file | module | contents |
|---|---|---|
| `bytes.dfy` | `Bytes` | bytes, Option/Result, the u32 little-endian layout, UTF-8 encoding |
| `wire.dfy` | `Wire` | header, quest and answer frames, the 16-byte prefix, reading one frame |
| `seqnum.dfy` | `SeqNum` | `FPNNQuest.nextSeqNum` as a class over the shared counter, and its closed form |
| `registry.dfy` | `Registry` | callbacks and deliveries, the timeout rule, the value-level meaning of the sweep and the flush |
| `encryptor.dfy` | `Encryptor` | curve and strength normalisation, key and IV derivation |
| `client.dfy` | `Client` | class `FpnnClient`: the registry, the queues, the send path, the flags, the receive-loop branches |
| `rtvt.dfy` | `Rtvt` | the chunker, the endpoint parser, the answer interpretation, class `RtvtClient` with the stream tables |

Modelling choices:

- **Dictionary order.** `cbDict` is a `map` together with `cbOrder`, its keys in insertion order. Python dictionaries iterate in insertion order, so the flush and the sweep deliver in that order.
- **Sync callbacks.** A sync callback's "set the slot, release the semaphore" step is one entry appended to `syncSignals`.
- **Callback objects.** An `FpnnCallback` is a value whose `id` stands for the object's identity. `sendQuest` stamps the caller's object in place, and `cbDict` holds references to it. So stamping re-stamps every pending entry with that `id` (`Registry.Restamp`). Deliveries already queued keep the fields they had, which nothing downstream reads.
- **Sent bytes.** The bytes handed to `sendAll` are appended to `wire`.
- **At-most-once delivery.** Ghost registration tickets (`ticketOf`, `issued`, `resolved`) make it checkable that a registration is delivered at most once.
- **Inputs instead of effects.** These are all parameters:
  - socket outcomes (`connectOk`, `sendOk`);
  - the clock (`now`);
  - the ECDH shared secret and the hash functions;
  - the outcome of each synchronous quest.

## Model

| member | source | states |
|---|---|---|
| Bytes.U32RoundTrip | src/fpnn/fpnn_client.py:91 | unpacking a u32 that `struct.pack('<I')` produced gives the number back |
| Bytes.U32Canonical | src/fpnn/fpnn_client.py:346 | every 4 bytes are the packing of the u32 they unpack to |
| Bytes.Utf8Injective | src/fpnn/fpnn_client.py:93 | different method names have different UTF-8 encodings |
| Bytes.Utf8Ascii | src/fpnn/fpnn_client.py:74 | an ASCII method name encodes to one byte per character, that character's code |
| Bytes.Utf8LongerThanText | src/fpnn/fpnn_client.py:74 | a name with a non-ASCII character has more bytes than `len(method)` counts |
| Wire.Pack | src/fpnn/fpnn_client.py:57-64 | a header packs to exactly 12 bytes: "FPNN", version, flag, mtype, ss as single bytes, then psize as u32 little-endian |
| Wire.DecodePrefix | src/fpnn/fpnn_client.py:345-346 | `<4sBBBBII` accepts exactly 16 bytes, and its fields fit their widths |
| Wire.PrefixRoundTrip | src/fpnn/fpnn_client.py:345-351 | unpacking a packed header followed by a u32 returns every header field and the u32 |
| Wire.PrefixCanonical | src/fpnn/fpnn_client.py:346 | 16 bytes starting with "FPNN" are the packing of what they unpack to |
| Wire.QuestRaw | src/fpnn/fpnn_client.py:70-95 | a quest frame is built exactly when the name is under 256 bytes, the payload under 2^32 bytes, and a twoway sequence number fits a u32; its length is 12, plus 4 if twoway, plus name bytes, plus payload |
| Wire.QuestRawAsWritten | src/fpnn/fpnn_client.py:74-94 | the frame as written: ss = len(method) in characters, and the name truncated to that many bytes |
| Wire.AsWrittenAgreesOnAscii | src/fpnn/fpnn_client.py:92-94 | for ASCII names the code as written and the corrected frame coincide |
| Wire.AsWrittenConflatesMethodNames | src/fpnn/fpnn_client.py:92-94 | as written, method names U+00E9 and U+00C3 give the same frame, while the corrected frames differ |
| Wire.QuestRawInjective | src/fpnn/fpnn_client.py:88-95 | a quest frame determines the kind, the name, the payload and a twoway quest's sequence number |
| Wire.AnswerRaw | src/fpnn/fpnn_client.py:97-111 | an answer frame is built exactly when seq and payload length fit a u32, and is 16 + len(payload) bytes long |
| Wire.ReadFrame | src/fpnn/fpnn_client.py:345-368 | one frame of the plaintext receive loop consumes a prefix of the stream and returns the rest |
| Wire.AnswerPrefix | src/fpnn/fpnn_client.py:345-351 | the first 16 bytes of an answer unpack to mtype 2 at index 3 and the sequence number at index 6 |
| Wire.AnswerRoundTrip | src/fpnn/fpnn_client.py:348-356 | reading an answer frame returns its sequence number and payload and leaves the following bytes |
| Wire.TwowayQuestPrefix | src/fpnn/fpnn_client.py:363-367 | the first 16 bytes of a twoway quest unpack to mtype 1, the name length, the payload length and the sequence number |
| Wire.TwowayQuestRoundTrip | src/fpnn/fpnn_client.py:363-368 | reading a twoway quest frame returns its name bytes, sequence number and payload and leaves the following bytes |
| SeqNum.NextSeq | src/fpnn/fpnn_client.py:81-86 | the next number never exceeds 2147483647 and is at least 1 from any non-negative counter |
| SeqNum.Allocated | src/fpnn/fpnn_client.py:68-86 | after k draws the counter is within 0..2147483647, and not 0 once k > 0 |
| SeqNum.NextSeqIsSuccessor | src/fpnn/fpnn_client.py:83-86 | each draw returns the previous value + 1, except that after 2147483647 it returns 1 |
| SeqNum.AllocatedClosedForm | src/fpnn/fpnn_client.py:81-86 | the k-th draw returns ((k - 1) mod 2147483647) + 1 |
| SeqNum.AllocatedDistinctWithinPeriod | src/fpnn/fpnn_client.py:81-86 | no two of any 2147483647 consecutive draws are equal |
| SeqNum.SeqAllocator.Next | src/fpnn/fpnn_client.py:81-86 | the draw returns and stores the successor of the counter, within 1..2147483647 |
| Encryptor.CurveByName | src/fpnn/fpnn_client.py:249-260 | each supported curve name selects its curve, and any other name selects secp256k1 |
| Encryptor.NormalizeStrength | src/fpnn/fpnn_client.py:262-263 | the strength used is 128 or 256, and is the requested one when that is 128 or 256 |
| Encryptor.SelectKey | src/fpnn/fpnn_client.py:273-279 | for strength 128 the key is the secret's first up-to-16 bytes; for 256 it is 32 bytes |
| Encryptor.Derive | src/fpnn/fpnn_client.py:262-279 | the stored strength is always 128 or 256 |
| Encryptor.DerivedKeyFitsAes | src/fpnn/fpnn_client.py:270-279 | with a secret of its curve's length, the key has strength/8 bytes and the IV 16; it is secret[:16], the secret itself on 256-bit curves, or its SHA-256 |
| Registry.TimeoutRule | src/fpnn/fpnn_client.py:236-243 | the callback's own timeout applies if positive, else the default; an effective timeout of 0 or less never expires; otherwise expiry is now - createTime >= timeout |
| Registry.TimeoutMonotone | src/fpnn/fpnn_client.py:236-243 | a timed-out callback stays timed out as time advances |
| Registry.DeliveredExactlyOnce | src/fpnn/fpnn_client.py:458-466 | every invoked callback lands on the async queue or in its sync slot: never both, never neither |
| Registry.TimedOut | src/fpnn/fpnn_client.py:223-227 | the collected list holds exactly the timed-out keys of the dictionary |
| Registry.TimedOutDistinct | src/fpnn/fpnn_client.py:225-227 | the collected list names each key once |
| Registry.FilterFilter | src/fpnn/fpnn_client.py:219 | removing keys twice is removing both sets at once, so the dictionary order survives repeated pops |
| Registry.PoppedStep | src/fpnn/fpnn_client.py:228-229 | one more pop yields the key's callback if it is still present, and removes it |
| Registry.PoppedDistinct | src/fpnn/fpnn_client.py:228-231 | popping distinct present keys yields their callbacks in list order |
| Registry.SweepStep | src/fpnn/fpnn_client.py:228-231 | one pop and invoke extends the swept prefix by one key |
| Client.EncryptedQuestsNeverSent | src/fpnn/fpnn_client.py:437-439 | once encryption is on, every quest except "*key" fails before reaching the socket |
| Client.HandlerFor | src/fpnn/fpnn_client.py:375-383 | each of the four result names selects its processor method, and no other name selects any |
| Client.FpnnClient.constructor | src/fpnn/fpnn_client.py:121-144 | no socket, no processor, encryption off but allowed, empty dictionary and queues |
| Client.FpnnClient.SetQuestProcessor | src/fpnn/fpnn_client.py:160-161 | a processor is installed |
| Client.FpnnClient.PutCb | src/fpnn/fpnn_client.py:212-214 | the entry is stored, replacing any old one, which keeps its place in the order; the registry invariant holds |
| Client.FpnnClient.GetCb | src/fpnn/fpnn_client.py:216-220 | pop: returns the entry if present and removes it; a registration is resolved at most once |
| Client.FpnnClient.Invoke | src/fpnn/fpnn_client.py:458-466 | no callback: nothing; async: appended to the queue; sync: signalled, not queued |
| Client.FpnnClient.TakeAsync | src/fpnn/fpnn_client.py:320-331 | the async worker takes deliveries first in, first out |
| Client.FpnnClient.CollectTimedOut | src/fpnn/fpnn_client.py:223-227 | the first phase lists exactly the timed-out keys, in dictionary order |
| Client.FpnnClient.ExpireAll | src/fpnn/fpnn_client.py:228-231 | exactly the listed keys leave the dictionary, and only callbacks actually popped are failed with a timeout |
| Client.FpnnClient.ExpireNext | src/fpnn/fpnn_client.py:228-231 | one iteration of the second phase keeps the swept-prefix invariant |
| Client.FpnnClient.TimeoutSweep | src/fpnn/fpnn_client.py:222-231 | exactly the timed-out entries leave, each failed once with a timeout, in dictionary order; the others keep their callbacks and their relative key order |
| Client.FpnnClient.FlushAll | src/fpnn/fpnn_client.py:468-476 | every pending callback is failed once with "connection was broken", in order; the registry is empty; each pending registration becomes resolved, none a second time |
| Client.FpnnClient.FailAllPending | src/fpnn/fpnn_client.py:470-474 | the first loop invokes every pending callback in dictionary order |
| Client.FpnnClient.ClearRegistry | src/fpnn/fpnn_client.py:475-476 | the second loop empties the dictionary and resolves every pending registration |
| Client.FpnnClient.OnAnswer | src/fpnn/fpnn_client.py:350-362 | an answer pops its sequence number and delivers the payload to that callback, or to nothing if it was not pending; the other keys keep their order |
| Client.FpnnClient.Resolve | src/fpnn/fpnn_client.py:360-362 | getCb then invokeCallback |
| Client.FpnnClient.OnServerQuest | src/fpnn/fpnn_client.py:363-383 | a server quest is acknowledged with an empty answer under its sequence number, then handed to the processor method its name selects |
| Client.FpnnClient.HandleFrame | src/fpnn/fpnn_client.py:348-383 | an answer pops its entry and delivers the payload to the popped callback, writing nothing; a quest writes the empty-map ack under its sequence number and selects the processor method its name names (none without a processor, none if the ack raises), leaving the registry alone; other types change nothing |
| Client.FpnnClient.Transmit | src/fpnn/fpnn_client.py:426-456 | connect if needed, write, register; on failure the callback is failed with that exception and nothing is registered; `canEncryptor` falls only on success |
| Client.FpnnClient.EnsureSocket | src/fpnn/fpnn_client.py:432-433 | afterwards a socket exists, even when connecting failed |
| Client.FpnnClient.WriteAndRegister | src/fpnn/fpnn_client.py:435-456 | on a connected client: write, then register or fail the callback |
| Client.FpnnClient.WriteQuest | src/fpnn/fpnn_client.py:435-443 | the frame (the corrected `Wire.QuestRaw`) is written exactly when it builds, is not encrypted, and sendAll succeeds |
| Client.FpnnClient.Send | src/fpnn/fpnn_client.py:426-456 | oneway iff not "*key" and no callback; only twoway quests draw a number; registration only with a callback and success |
| Client.FpnnClient.SendQuest | src/fpnn/fpnn_client.py:403-408 | the caller's callback is stamped with timeout and creation time, re-stamping its other pending entries too, then sent: on success it is registered; on failure the stamped callback gets the exception; `wire`, `hasSocket` and `canEncryptor` as for send |
| Client.FpnnClient.RestampPending | src/fpnn/fpnn_client.py:404-406 | the pending entries that are the caller's callback object carry the new stamp; keys, order and tickets stay |
| Registry.Restamp | src/fpnn/fpnn_client.py:404-406 | stamping the callback object in place keeps the registry's keys |
| Registry.RestampSharesTimeout | src/fpnn/fpnn_client.py:404-406 | a pending entry of a reused callback times out exactly when the newly stamped callback would; entries of other callbacks are unchanged |
| Client.FpnnClient.SendQuestSync | src/fpnn/fpnn_client.py:410-417 | a fresh sync callback is either signalled with the send's exception at once or waits in the registry |
| Client.FpnnClient.EnableEncryptor | src/fpnn/fpnn_client.py:245-285 | refused exactly when `canEncryptor` is false; otherwise derived key material is stored, encryption turns on, and the "*key" quest goes out twoway without registering |
| Client.AnswerBeatsTimeout | src/fpnn/fpnn_client.py:216-231 | for any pending quest in any sweep list, an answer popping it first gives exactly one delivery to its callback, with the answer, followed by timeouts for only the other listed entries still pending |
| Rtvt.Chunks | src/rtvt/rtvt_server_client.py:263-268 | a buffer of n bytes yields n div 640 quests |
| Rtvt.ChunkAt | src/rtvt/rtvt_server_client.py:265-268 | the i-th quest carries bytes 640i..640(i+1) and the counter advanced by i |
| Rtvt.Remainder | src/rtvt/rtvt_server_client.py:262-266 | what stays buffered is (old length + data length) mod 640 bytes, under 640 |
| Rtvt.ChunksThenRemainder | src/rtvt/rtvt_server_client.py:262-266 | the chunks' bytes, followed by the remainder, are exactly the buffer |
| Rtvt.ChunksAppend | src/rtvt/rtvt_server_client.py:258-268 | feeding audio in two calls emits the same quests as feeding it in one |
| Rtvt.Split | src/rtvt/rtvt_server_client.py:17 | split always yields at least one piece, and no piece contains the separator |
| Rtvt.SplitJoin | src/rtvt/rtvt_server_client.py:17 | joining the pieces gives the endpoint back |
| Rtvt.SplitPair | src/rtvt/rtvt_server_client.py:17 | "a:b" with no ':' in a or b splits into exactly [a, b] |
| Rtvt.SplitNone | src/rtvt/rtvt_server_client.py:17 | a string without ':' is a single piece |
| Rtvt.ParseDigits | src/rtvt/rtvt_server_client.py:20 | `int` accepts exactly non-empty digit strings |
| Rtvt.ParseDigitsOfNatToString | src/rtvt/rtvt_server_client.py:20 | `int(str(n)) == n` |
| Rtvt.ParseEndpoint | src/rtvt/rtvt_server_client.py:17-20 | IndexError exactly when there is no ':'; otherwise ValueError or the host (a ':'-free prefix) and port |
| Rtvt.EndpointRoundTrip | src/rtvt/rtvt_server_client.py:17-20 | "host:port" parses back to host and port |
| Rtvt.LoginResult | src/rtvt/rtvt_server_client.py:102-113 | 10001 exactly when the quest raised; success exactly when 'successed' is present and equals True (True or 1) |
| Rtvt.LoginResultTcp | src/rtvt/rtvt_server_client.py:115-131 | an error answer's code is returned; otherwise code 0 exactly when 'successed' is present, else 10001 |
| Rtvt.RtvtClient.constructor | src/rtvt/rtvt_server_client.py:16-33 | both stream tables start empty |
| Rtvt.RtvtClient.Create | src/rtvt/rtvt_server_client.py:16-22 | a client exists exactly when the endpoint parses, with its host and port; otherwise the parser's exception |
| Rtvt.RtvtClient.SendVoiceVariable | src/rtvt/rtvt_server_client.py:258-271 | ValueError for non-bytes; unknown stream: nothing; otherwise the chunks of old buffer + data are sent, the remainder stays, the counter advances by the chunk count; the tables keep the same keys and buffers stay under 640 |
| Rtvt.RtvtClient.DrainChunks | src/rtvt/rtvt_server_client.py:263-268 | the loop sends exactly `Chunks` of the buffer and leaves `Remainder` |
| Rtvt.RtvtClient.CreateStream | src/rtvt/rtvt_server_client.py:145-158 | on an answer, the stream (0 if unnamed) gets an empty buffer and counter 1; on an exception (-1, 10001) and no change |
| Rtvt.RtvtClient.CreateStreamTcp | src/rtvt/rtvt_server_client.py:170-184 | an error answer returns its code; a missing streamId gives (-1, 10001); otherwise the stream is reset in both tables |
| Rtvt.RtvtClient.CloseStream | src/rtvt/rtvt_server_client.py:187-192 | 0 when answered, 10001 when the quest raised |
| Rtvt.RtvtClient.CloseStreamTcp | src/rtvt/rtvt_server_client.py:194-205 | an error code is returned; success deletes the stream from both tables, KeyError if absent |
| Rtvt.RtvtClient.DelayDestroy | src/rtvt/rtvt_server_client.py:60-66 | the client is closing and stopped, and both tables are empty |

## Left out

- Sockets, threads, locks, `threading.Timer` and `time.sleep` are not modelled. Each lock-guarded block is one method, and interleavings are not modelled beyond the answer-versus-sweep race in `Client.AnswerBeatsTimeout`.
- The clock is not modelled: `int(time.time())` is the parameter `now`.
- msgpack is not modelled. Payloads are opaque bytes and `msgpack.packb`/`unpackb` never fail. An `unpackb` failure on an answer, which would skip `getCb`, is not modelled.
- Cryptography is not modelled. The ECDH exchange, PEM parsing, MD5 and SHA-256 are inputs: the shared secret and two hash functions with their output lengths. A PEM or ECDH failure after `self.strength` is assigned is not modelled. `encrypt` itself is not modelled.
- Encrypted framing in `send` is modelled as a failure, `EncryptedFramingFailed`, because `.encode('utf-8')` is called on bytes. The encrypted receive path is not modelled.
- `recvAll` is not modelled. The receive loop's input is a byte sequence, and "not enough bytes yet" is `None`.
- Inbound oneway quests (mtype 0) are not modelled. They are read as `OtherIn` without consuming their name and payload, as the code does.
- A method name that is not valid UTF-8 is not modelled. `Client.FpnnClient.HandleFrame` requires the decoded name.
- The reconnect-on-error loop of `receiveThread`, the connected and close callbacks, `close`, `__del__`, `get_id` and the async worker's callback call are not modelled.
- Client.FpnnClient.SendQuestSync: the fresh FpnnCallback's identity is the parameter `id`. Nothing checks that it differs from the `id` of a pending entry.
- Client.FpnnClient.ExpireAll: about the registration tickets it states only that `resolved` grows. `Client.FpnnClient.TimeoutSweep` states exactly which entries are removed and delivered.
- Rtvt.ParseDigits: `int()` is modelled for plain ASCII decimal digits only. Signs, surrounding whitespace, underscores and non-ASCII Unicode decimal digits (such as "٨٠"), which Python's `int()` also accepts, fall under ValueError here.
- Client.FpnnClient.WriteQuest: the send path (`Transmit`, `Send`, `SendQuest`, `SendQuestSync`, `EnableEncryptor`) writes the corrected frame `Wire.QuestRaw`, not the frame the code builds (`Wire.QuestRawAsWritten`, see Findings). The two agree on every ASCII method name (`Wire.AsWrittenAgreesOnAscii`). For a non-ASCII name the code writes a truncated name, so it can send a frame where the model fails with `EncodeFailed` (a name of 130 × "é", whose 260 bytes exceed the ss byte).
- Rtvt.Chunks: `int(len(...) / 640)` goes through a float. It is modelled as integer division, which is exact for any real buffer length.
- Stream identifiers and sequence numbers are integers. Other msgpack types are not modelled, and neither is msgpack's float `1.0 == True`.
- Rtvt.RtvtClient.CloseStream: on win32 the stream stays in both tables. The model keeps that and states no table change.
- `send_voice` and `send_voice_async` are not modelled beyond their effect: each chunk is recorded in `voiceSent`. Their network effects are not modelled.
- The setters (`set_quest_timeout`, `set_connect_timeout`, `set_connection_callback`) and `reconnect`/`close` of `RTVTClient` are not modelled.
- `src/rtvt/rtvt_quest_processor_internal.py`, `src/rtvt/rtvt_quest_processor_internal_fpnn.py` and `test/demo.py` are not part of this model.

## Findings

| source | as written | input that shows it | evidently intended | confidence | as-written member | corrected member |
|---|---|---|---|---|---|---|
| src/fpnn/fpnn_client.py:74 | `ss = len(method)` counts characters, and `'%ds' % len(method)` keeps only that many bytes of `method.encode('utf-8')` | method names "é" (U+00E9) and "Ã" (U+00C3) are both sent as the single byte 0xC3 with ss = 1 (Wire.AsWrittenConflatesMethodNames) | ss is the byte length of the UTF-8 name and the whole name is sent, so a frame determines its method name (Wire.QuestRawInjective) | not executed | Wire.QuestRawAsWritten | Wire.QuestRaw |
