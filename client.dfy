/** FPNNTCPClient of src/fpnn/fpnn_client.py, with sockets, threads, locks
    and the clock taken out: the pending-callback registry `cbDict`, the
    async callback queue, the sync wait-handles, the send path with its
    oneway/twoway classification, the encryption flags, the timeout sweep,
    the flush on connection loss, and what the receive loop does with an
    answer or a server quest. Each lock-guarded block is one method. */
module Client {
  import opened Bytes
  import opened Wire
  import opened Registry
  import opened SeqNum
  import opened Encryptor

  /** The reserved method name of the key-exchange quest. */
  const KeyMethod: string := "*key"

  /** send's classification: a quest is oneway exactly when it has no
      callback and is not the key-exchange quest. */
  predicate IsOneway(name: string, hasCb: bool)
  {
    name != KeyMethod && !hasCb
  }

  /** The exception send's try block raises, if any, in the order the block
      runs: reconnect() when there is no socket yet, FPNNQuest.raw, the
      encrypted framing (which always raises: it calls `.encode('utf-8')` on
      bytes), sendAll. */
  function SendFailure(q: Quest, hadSocket: bool, encrypting: bool, connectOk: bool, sendOk: bool): Option<Failure>
  {
    if !hadSocket && !connectOk then Some(ConnectFailed)
    else if QuestRaw(q).None? then Some(EncodeFailed)
    else if encrypting && q.name != KeyMethod then Some(EncryptedFramingFailed)
    else if !sendOk then Some(SendFailed)
    else None
  }

  /** Once the encryptor is on, no quest other than the key exchange ever
      reaches the socket, whatever the transport does. */
  lemma EncryptedQuestsNeverSent(q: Quest, hadSocket: bool, connectOk: bool, sendOk: bool)
    requires q.name != KeyMethod
    ensures SendFailure(q, hadSocket, true, connectOk, sendOk).Some?
  {
  }

  /** The processor methods the receive loop can call. */
  datatype Handler = RecognizedResult | RecognizedTempResult | TranslatedResult | TranslatedTempResult

  /** The processor method a server quest's (decoded) method name selects;
      any other name calls nothing. */
  function HandlerFor(methodName: string): (h: Option<Handler>)
    ensures methodName == "recognizedResult" <==> h == Some(RecognizedResult)
    ensures methodName == "recognizedTempResult" <==> h == Some(RecognizedTempResult)
    ensures methodName == "translatedResult" <==> h == Some(TranslatedResult)
    ensures methodName == "translatedTempResult" <==> h == Some(TranslatedTempResult)
  {
    if methodName == "recognizedResult" then Some(RecognizedResult)
    else if methodName == "recognizedTempResult" then Some(RecognizedTempResult)
    else if methodName == "translatedResult" then Some(TranslatedResult)
    else if methodName == "translatedTempResult" then Some(TranslatedTempResult)
    else None
  }

  class FpnnClient {
    /** self.timeout: the connection's default quest timeout in seconds. */
    const defaultTimeout: int
    /** self.autoReconnect. It only decides whether send's exception
        handler calls reconnect() again, and that call changes nothing the
        model holds: the socket is already assigned by then, and connecting,
        the receive thread and the connect callback are not modelled. */
    const autoReconnect: bool
    /** self.socket is not None. */
    var hasSocket: bool
    /** self.processor is not None. */
    var hasProcessor: bool
    var isEncryptor: bool
    var canEncryptor: bool
    /** self.strength, self.key and self.iv, once enableEncryptor set them. */
    var keyMaterial: Option<KeyMaterial>
    /** cbDict: its entries, and its keys in insertion order. */
    var cbDict: map<int, Callback>
    var cbOrder: seq<int>
    /** asyncCallbackQueue, oldest first. */
    var asyncQueue: seq<Delivery>
    /** Each release of a sync callback's semaphore, with the answer and
        exception stored in its slot just before. */
    var syncSignals: seq<Delivery>
    /** The buffers handed to sendAll, in order. */
    var wire: seq<seq<byte>>

    /** How many quests sendAll has accepted. */
    ghost var questsSent: nat
    /** Each pending entry's registration number, `issued` so far; `resolved`
        holds the registrations already popped and delivered. */
    ghost var ticketOf: map<int, nat>
    ghost var issued: nat
    ghost var resolved: set<nat>

    ghost predicate Valid()
      reads this`cbDict, this`cbOrder, this`ticketOf, this`issued, this`resolved,
            this`canEncryptor, this`isEncryptor, this`questsSent, this`keyMaterial
    {
      && (forall i :: 0 <= i < |cbOrder| ==> cbOrder[i] in cbDict)
      && (forall k :: k in cbDict ==> k in cbOrder)
      && Distinct(cbOrder)
      && ticketOf.Keys == cbDict.Keys
      && (forall k :: k in ticketOf ==> ticketOf[k] < issued && ticketOf[k] !in resolved)
      && (forall j, k :: j in ticketOf && k in ticketOf && j != k ==> ticketOf[j] != ticketOf[k])
      && (forall t :: t in resolved ==> t < issued)
      && (canEncryptor <==> !isEncryptor && questsSent == 0)
      && (isEncryptor <==> keyMaterial.Some?)
    }

    constructor (timeout: int, autoReconnect: bool)
      ensures Valid()
      ensures defaultTimeout == timeout && this.autoReconnect == autoReconnect
      ensures !hasSocket && !hasProcessor && !isEncryptor && canEncryptor && keyMaterial.None?
      ensures cbDict == map[] && cbOrder == [] && asyncQueue == [] && syncSignals == [] && wire == []
    {
      defaultTimeout := timeout;
      this.autoReconnect := autoReconnect;
      hasSocket, hasProcessor := false, false;
      isEncryptor, canEncryptor := false, true;
      keyMaterial := None;
      cbDict, cbOrder := map[], [];
      asyncQueue, syncSignals, wire := [], [], [];
      questsSent, ticketOf, issued, resolved := 0, map[], 0, {};
    }

    /** set_quest_processor. */
    method SetQuestProcessor()
      modifies this`hasProcessor
      ensures hasProcessor
    {
      hasProcessor := true;
    }

    /** putCb: store the callback under the sequence number, replacing an
        entry already there (which keeps its place in the key order). */
    method PutCb(seqNum: int, cb: Callback)
      requires Valid()
      modifies this`cbDict, this`cbOrder, this`ticketOf, this`issued
      ensures Valid()
      ensures cbDict == old(cbDict)[seqNum := cb]
      ensures cbOrder == if seqNum in old(cbDict) then old(cbOrder) else old(cbOrder) + [seqNum]
      ensures ticketOf == old(ticketOf)[seqNum := old(issued)] && issued == old(issued) + 1
    {
      if seqNum !in cbDict {
        cbOrder := cbOrder + [seqNum];
      }
      cbDict := cbDict[seqNum := cb];
      ticketOf := ticketOf[seqNum := issued];
      issued := issued + 1;
    }

    /** getCb: pop the entry. The registration it resolves had never been
        resolved before, and the entry is gone, so a second pop of the same
        number yields nothing. */
    method GetCb(seqNum: int) returns (cb: Option<Callback>)
      requires Valid()
      modifies this`cbDict, this`cbOrder, this`ticketOf, this`resolved
      ensures Valid()
      ensures cb == if seqNum in old(cbDict) then Some(old(cbDict)[seqNum]) else None
      ensures cbDict == old(cbDict) - {seqNum} && ticketOf == old(ticketOf) - {seqNum}
      ensures cbOrder == Filter(old(cbOrder), cbDict.Keys)
      ensures cb.Some? ==> old(ticketOf)[seqNum] !in old(resolved) && resolved == old(resolved) + {old(ticketOf)[seqNum]}
      ensures cb.None? ==> resolved == old(resolved)
    {
      if seqNum in cbDict {
        cb := Some(cbDict[seqNum]);
        resolved := resolved + {ticketOf[seqNum]};
      } else {
        cb := None;
      }
      cbDict := cbDict - {seqNum};
      ticketOf := ticketOf - {seqNum};
      FilterDistinct(cbOrder, cbDict.Keys);
      cbOrder := Filter(cbOrder, cbDict.Keys);
    }

    /** invokeCallback: nothing for no callback; an async callback is
        appended to the queue; a sync one gets its slot set and its
        semaphore released. */
    method Invoke(cb: Option<Callback>, answer: Option<seq<byte>>, exception: Option<Failure>)
      modifies this`asyncQueue, this`syncSignals
      ensures asyncQueue == old(asyncQueue) + (if cb.Some? && !cb.value.sync then [Delivery(cb.value, answer, exception)] else [])
      ensures syncSignals == old(syncSignals) + (if cb.Some? && cb.value.sync then [Delivery(cb.value, answer, exception)] else [])
    {
      if cb.Some? {
        if !cb.value.sync {
          asyncQueue := asyncQueue + [Delivery(cb.value, answer, exception)];
        } else {
          syncSignals := syncSignals + [Delivery(cb.value, answer, exception)];
        }
      }
    }

    /** One `get` of the async worker: the oldest delivery, first in first
        out. */
    method TakeAsync() returns (d: Option<Delivery>)
      modifies this`asyncQueue
      ensures old(asyncQueue) == [] ==> d.None? && asyncQueue == []
      ensures old(asyncQueue) != [] ==> d == Some(old(asyncQueue)[0]) && asyncQueue == old(asyncQueue)[1..]
    {
      if asyncQueue == [] {
        d := None;
      } else {
        d := Some(asyncQueue[0]);
        asyncQueue := asyncQueue[1..];
      }
    }

    /** The first phase of timeoutChecker: under the lock, list the numbers
        whose entries have timed out, in the dictionary's order. */
    method CollectTimedOut(now: int) returns (list: seq<int>)
      requires Valid()
      ensures list == TimedOut(cbOrder, cbDict, defaultTimeout, now)
      ensures forall k :: k in list <==> k in cbDict && IsCallbackTimeout(cbDict[k], defaultTimeout, now)
    {
      list := [];
      var i := 0;
      while i < |cbOrder|
        invariant 0 <= i <= |cbOrder|
        invariant list == TimedOut(cbOrder[..i], cbDict, defaultTimeout, now)
      {
        var k := cbOrder[i];
        if IsCallbackTimeout(cbDict[k], defaultTimeout, now) {
          list := list + [k];
        }
        assert cbOrder[..i + 1][..i] == cbOrder[..i];
        i := i + 1;
      }
      assert cbOrder[..i] == cbOrder;
    }

    /** The second phase of timeoutChecker: pop each listed number and fail
        with a timeout only the callbacks actually popped; a number resolved
        in between (say by an answer) is skipped. */
    method ExpireAll(list: seq<int>)
      requires Valid()
      modifies this`cbDict, this`cbOrder, this`ticketOf, this`resolved, this`asyncQueue, this`syncSignals
      ensures Valid()
      ensures forall k :: k in cbDict <==> k in old(cbDict) && k !in list
      ensures forall k :: k in cbDict ==> cbDict[k] == old(cbDict)[k]
      ensures cbOrder == Filter(old(cbOrder), cbDict.Keys)
      ensures asyncQueue == old(asyncQueue) + AsyncPart(Popped(list, old(cbDict)), None, Some(QuestTimeout))
      ensures syncSignals == old(syncSignals) + SyncPart(Popped(list, old(cbDict)), None, Some(QuestTimeout))
      ensures old(resolved) <= resolved
    {
      ghost var dict0, order0, async0, sync0 := cbDict, cbOrder, asyncQueue, syncSignals;
      FilterAll(cbOrder, cbDict.Keys);
      var i := 0;
      while i < |list|
        invariant Valid() && ExpiredUpTo(list, i, dict0, order0, async0, sync0)
        invariant old(resolved) <= resolved
      {
        ExpireNext(list, i, dict0, order0, async0, sync0);
        i := i + 1;
      }
      assert list[..i] == list;
    }

    /** The state after the sweep's pops of the first `i` listed numbers,
        from the registry and queues it started with. */
    ghost predicate ExpiredUpTo(list: seq<int>, i: int, dict0: map<int, Callback>, order0: seq<int>,
                                async0: seq<Delivery>, sync0: seq<Delivery>)
      reads this`cbDict, this`cbOrder, this`asyncQueue, this`syncSignals
    {
      SweptUpTo(list, i, dict0, order0, async0, sync0, cbDict, cbOrder, asyncQueue, syncSignals)
    }

    /** One iteration of the sweep's second loop. */
    method ExpireNext(list: seq<int>, i: int, ghost dict0: map<int, Callback>, ghost order0: seq<int>,
                      ghost async0: seq<Delivery>, ghost sync0: seq<Delivery>)
      requires Valid() && ExpiredUpTo(list, i, dict0, order0, async0, sync0) && i < |list|
      modifies this`cbDict, this`cbOrder, this`ticketOf, this`resolved, this`asyncQueue, this`syncSignals
      ensures Valid() && ExpiredUpTo(list, i + 1, dict0, order0, async0, sync0)
      ensures old(resolved) <= resolved
    {
      ghost var dict, order, async, sync := cbDict, cbOrder, asyncQueue, syncSignals;
      var cb := Resolve(list[i], None, Some(QuestTimeout));
      SweepStep(list, i, dict0, order0, async0, sync0, dict, order, async, sync,
                cb, cbDict, cbOrder, asyncQueue, syncSignals);
    }

    /** The body of timeoutChecker: collect, then pop. Exactly the timed-out
        entries leave the registry, each failed once with a timeout, in the
        dictionary's order; every other entry stays as it was. */
    method TimeoutSweep(now: int)
      requires Valid()
      modifies this`cbDict, this`cbOrder, this`ticketOf, this`resolved, this`asyncQueue, this`syncSignals
      ensures Valid()
      ensures forall k :: k in cbDict <==> k in old(cbDict) && !IsCallbackTimeout(old(cbDict)[k], defaultTimeout, now)
      ensures forall k :: k in cbDict ==> cbDict[k] == old(cbDict)[k]
      ensures cbOrder == Filter(old(cbOrder), cbDict.Keys)
      ensures asyncQueue == old(asyncQueue)
                + AsyncPart(InOrder(TimedOut(old(cbOrder), old(cbDict), defaultTimeout, now), old(cbDict)), None, Some(QuestTimeout))
      ensures syncSignals == old(syncSignals)
                + SyncPart(InOrder(TimedOut(old(cbOrder), old(cbDict), defaultTimeout, now), old(cbDict)), None, Some(QuestTimeout))
    {
      var list := CollectTimedOut(now);
      TimedOutDistinct(cbOrder, cbDict, defaultTimeout, now);
      PoppedDistinct(list, cbDict);
      ExpireAll(list);
    }

    /** exceptionFlushAll: every pending callback is failed with "connection
        was broken", in the dictionary's order, and the registry is left
        empty; every pending registration becomes resolved, none twice. */
    method FlushAll()
      requires Valid()
      modifies this`cbDict, this`cbOrder, this`ticketOf, this`resolved, this`asyncQueue, this`syncSignals
      ensures Valid()
      ensures cbDict == map[] && cbOrder == []
      ensures asyncQueue == old(asyncQueue) + AsyncPart(InOrder(old(cbOrder), old(cbDict)), None, Some(ConnectionBroken))
      ensures syncSignals == old(syncSignals) + SyncPart(InOrder(old(cbOrder), old(cbDict)), None, Some(ConnectionBroken))
      ensures var pending := set k | k in old(ticketOf) :: old(ticketOf)[k];
              pending !! old(resolved) && resolved == old(resolved) + pending
    {
      FailAllPending();
      ClearRegistry();
    }

    /** The second loop of exceptionFlushAll and the lock it runs under:
        the dictionary is emptied, and every pending registration is
        resolved. */
    method ClearRegistry()
      requires Valid()
      modifies this`cbDict, this`cbOrder, this`ticketOf, this`resolved
      ensures Valid()
      ensures cbDict == map[] && cbOrder == []
      ensures var pending := set k | k in old(ticketOf) :: old(ticketOf)[k];
              pending !! old(resolved) && resolved == old(resolved) + pending
    {
      ghost var pending := set k | k in ticketOf :: ticketOf[k];
      assert forall t :: t in pending ==> t < issued && t !in resolved;
      resolved := resolved + pending;
      cbDict, cbOrder, ticketOf := map[], [], map[];
    }

    /** The first loop of exceptionFlushAll: invoke every pending callback,
        in the dictionary's order, with "connection was broken". */
    method FailAllPending()
      requires forall i :: 0 <= i < |cbOrder| ==> cbOrder[i] in cbDict
      modifies this`asyncQueue, this`syncSignals
      ensures asyncQueue == old(asyncQueue) + AsyncPart(InOrder(cbOrder, cbDict), None, Some(ConnectionBroken))
      ensures syncSignals == old(syncSignals) + SyncPart(InOrder(cbOrder, cbDict), None, Some(ConnectionBroken))
    {
      var pending := InOrder(cbOrder, cbDict);
      ghost var async0, sync0 := asyncQueue, syncSignals;
      var i := 0;
      while i < |pending|
        invariant 0 <= i <= |pending|
        invariant asyncQueue == async0 + AsyncPart(pending[..i], None, Some(ConnectionBroken))
        invariant syncSignals == sync0 + SyncPart(pending[..i], None, Some(ConnectionBroken))
      {
        assert pending[..i + 1] == pending[..i] + [pending[i]];
        PartsSnoc(pending[..i], pending[i], None, Some(ConnectionBroken));
        Invoke(Some(pending[i]), None, Some(ConnectionBroken));
        i := i + 1;
      }
      assert pending[..i] == pending;
    }

    /** The answer branch of the receive loop: pop the entry of the answer's
        sequence number and deliver the answer to it, if it was still
        pending. */
    method OnAnswer(seqNum: int, payload: seq<byte>) returns (cb: Option<Callback>)
      requires Valid()
      modifies this`cbDict, this`cbOrder, this`ticketOf, this`resolved, this`asyncQueue, this`syncSignals
      ensures Valid()
      ensures cb == if seqNum in old(cbDict) then Some(old(cbDict)[seqNum]) else None
      ensures cbDict == old(cbDict) - {seqNum}
      ensures cbOrder == Filter(old(cbOrder), cbDict.Keys)
      ensures asyncQueue == old(asyncQueue) + (if cb.Some? && !cb.value.sync then [Delivery(cb.value, Some(payload), None)] else [])
      ensures syncSignals == old(syncSignals) + (if cb.Some? && cb.value.sync then [Delivery(cb.value, Some(payload), None)] else [])
    {
      cb := Resolve(seqNum, Some(payload), None);
    }

    /** getCb then invokeCallback: pop the entry of `seqNum` and, if it was
        still pending, resolve its callback with the answer and exception. */
    method Resolve(seqNum: int, answer: Option<seq<byte>>, exception: Option<Failure>) returns (cb: Option<Callback>)
      requires Valid()
      modifies this`cbDict, this`cbOrder, this`ticketOf, this`resolved, this`asyncQueue, this`syncSignals
      ensures Valid()
      ensures cb == if seqNum in old(cbDict) then Some(old(cbDict)[seqNum]) else None
      ensures cbDict == old(cbDict) - {seqNum}
      ensures cbOrder == Filter(old(cbOrder), cbDict.Keys)
      ensures asyncQueue == old(asyncQueue) + (if cb.Some? && !cb.value.sync then [Delivery(cb.value, answer, exception)] else [])
      ensures syncSignals == old(syncSignals) + (if cb.Some? && cb.value.sync then [Delivery(cb.value, answer, exception)] else [])
      ensures old(resolved) <= resolved
    {
      cb := GetCb(seqNum);
      Invoke(cb, answer, exception);
    }

    /** The twoway branch of the receive loop, once the method name is
        decoded: acknowledge with an empty answer carrying the quest's
        sequence number, then hand the quest to the processor method its
        name selects. Raising (the ack cannot be built or sendAll fails)
        skips the processor. */
    method OnServerQuest(methodName: string, seqNum: int, sendOk: bool) returns (raised: bool, handler: Option<Handler>)
      modifies this`wire
      ensures raised <==> AnswerRaw(seqNum, EmptyMapPayload).None? || !sendOk
      ensures raised ==> wire == old(wire) && handler.None?
      ensures !raised ==> wire == old(wire) + [AnswerRaw(seqNum, EmptyMapPayload).value]
      ensures !raised ==> handler == if hasProcessor then HandlerFor(methodName) else None
    {
      var ack := AnswerRaw(seqNum, EmptyMapPayload);
      if ack.None? || !sendOk {
        return true, None;
      }
      wire := wire + [ack.value];
      raised := false;
      handler := if hasProcessor then HandlerFor(methodName) else None;
    }

    /** One frame read by the plaintext receive loop, dispatched by type;
        other types are read and ignored. `methodName` is the decoding of a
        server quest's method name. */
    method HandleFrame(frame: Inbound, methodName: string, sendOk: bool) returns (raised: bool, handler: Option<Handler>)
      requires Valid()
      requires frame.QuestIn? ==> Utf8(methodName) == frame.methodBytes
      modifies this`cbDict, this`cbOrder, this`ticketOf, this`resolved, this`asyncQueue, this`syncSignals, this`wire
      ensures Valid()
      ensures frame.AnswerIn? ==>
                var cb := if frame.seqNum in old(cbDict) then Some(old(cbDict)[frame.seqNum]) else None;
                && cbDict == old(cbDict) - {frame.seqNum} && cbOrder == Filter(old(cbOrder), cbDict.Keys)
                && asyncQueue == old(asyncQueue) + (if cb.Some? && !cb.value.sync then [Delivery(cb.value, Some(frame.payload), None)] else [])
                && syncSignals == old(syncSignals) + (if cb.Some? && cb.value.sync then [Delivery(cb.value, Some(frame.payload), None)] else [])
                && wire == old(wire) && !raised && handler.None?
      ensures frame.QuestIn? ==>
                var ack := AnswerRaw(frame.seqNum, EmptyMapPayload);
                && (raised <==> ack.None? || !sendOk)
                && (raised ==> wire == old(wire) && handler.None?)
                && (!raised ==> wire == old(wire) + [ack.value])
                && (!raised ==> handler == if hasProcessor then HandlerFor(methodName) else None)
      ensures frame.QuestIn? || frame.OtherIn? ==>
                cbDict == old(cbDict) && cbOrder == old(cbOrder) &&
                asyncQueue == old(asyncQueue) && syncSignals == old(syncSignals)
      ensures frame.OtherIn? ==> !raised && handler.None? && wire == old(wire)
    {
      raised, handler := false, None;
      match frame
      case AnswerIn(seqNum, payload) =>
        var _ := OnAnswer(seqNum, payload);
      case QuestIn(_, seqNum, _) =>
        raised, handler := OnServerQuest(methodName, seqNum, sendOk);
      case OtherIn(_) =>
    }

    /** The part of send after the quest is built: connect if there is no
        socket, build the frame, write it; on success mark that the
        encryptor can no longer be enabled and register the callback unless
        the quest is oneway or has none. On any exception: fail the
        callback with the exception. The reconnect() attempted first when
        auto-reconnect is on (its own failure ignored) has no effect here,
        since the socket is already assigned, so `autoReconnect` is not
        read. `connectOk` and `sendOk` stand for whether reconnect()
        and sendAll succeed. */
    method Transmit(q: Quest, cb: Option<Callback>, connectOk: bool, sendOk: bool) returns (err: Option<Failure>)
      requires Valid()
      modifies this`hasSocket, this`canEncryptor, this`questsSent, this`wire, this`cbDict, this`cbOrder,
               this`ticketOf, this`issued, this`asyncQueue, this`syncSignals
      ensures Valid()
      ensures err == SendFailure(q, old(hasSocket), isEncryptor, connectOk, sendOk)
      ensures hasSocket
      ensures wire == old(wire) + (if err.None? then [QuestRaw(q).value] else [])
      ensures canEncryptor == (old(canEncryptor) && err.Some?)
      ensures err.None? && !q.oneway && cb.Some? ==>
                cbDict == old(cbDict)[q.seqNum := cb.value] &&
                cbOrder == (if q.seqNum in old(cbDict) then old(cbOrder) else old(cbOrder) + [q.seqNum])
      ensures err.Some? || q.oneway || cb.None? ==> cbDict == old(cbDict) && cbOrder == old(cbOrder)
      ensures err.None? ==> asyncQueue == old(asyncQueue) && syncSignals == old(syncSignals)
      ensures err.Some? ==>
                asyncQueue == old(asyncQueue) + (if cb.Some? && !cb.value.sync then [Delivery(cb.value, None, err)] else []) &&
                syncSignals == old(syncSignals) + (if cb.Some? && cb.value.sync then [Delivery(cb.value, None, err)] else [])
    {
      err := EnsureSocket(connectOk);
      if err.Some? {
        Invoke(cb, None, err);
        return;
      }
      err := WriteAndRegister(q, cb, sendOk);
    }

    /** The rest of send's try block on a connected client: write the
        quest, then register its callback, or fail the callback with the
        exception the write raised. */
    method WriteAndRegister(q: Quest, cb: Option<Callback>, sendOk: bool) returns (err: Option<Failure>)
      requires Valid()
      modifies this`canEncryptor, this`questsSent, this`wire, this`cbDict, this`cbOrder,
               this`ticketOf, this`issued, this`asyncQueue, this`syncSignals
      ensures Valid()
      ensures err == SendFailure(q, true, isEncryptor, true, sendOk)
      ensures wire == old(wire) + (if err.None? then [QuestRaw(q).value] else [])
      ensures canEncryptor == (old(canEncryptor) && err.Some?)
      ensures err.None? && !q.oneway && cb.Some? ==>
                cbDict == old(cbDict)[q.seqNum := cb.value] &&
                cbOrder == (if q.seqNum in old(cbDict) then old(cbOrder) else old(cbOrder) + [q.seqNum])
      ensures err.Some? || q.oneway || cb.None? ==> cbDict == old(cbDict) && cbOrder == old(cbOrder)
      ensures err.None? ==> asyncQueue == old(asyncQueue) && syncSignals == old(syncSignals)
      ensures err.Some? ==>
                asyncQueue == old(asyncQueue) + (if cb.Some? && !cb.value.sync then [Delivery(cb.value, None, err)] else []) &&
                syncSignals == old(syncSignals) + (if cb.Some? && cb.value.sync then [Delivery(cb.value, None, err)] else [])
    {
      err := WriteQuest(q, sendOk);
      if err.Some? {
        Invoke(cb, None, err);
        return;
      }
      if q.oneway || cb.None? {
        return;
      }
      PutCb(q.seqNum, cb.value);
    }

    /** `if self.socket is None: self.reconnect()`. reconnect() assigns
        self.socket before it connects, so a socket is there afterwards
        even when connecting raised. */
    method EnsureSocket(connectOk: bool) returns (err: Option<Failure>)
      modifies this`hasSocket
      ensures hasSocket
      ensures err == if !old(hasSocket) && !connectOk then Some(ConnectFailed) else None
    {
      err := None;
      if !hasSocket {
        hasSocket := true;
        if !connectOk {
          err := Some(ConnectFailed);
        }
      }
    }

    /** quest.raw(), the encrypted framing, sendAll, and the flag update
        after a successful write, on a connected client. The frame is the
        corrected `QuestRaw`, which is the code's frame on ASCII method names
        (`AsWrittenAgreesOnAscii`). */
    method WriteQuest(q: Quest, sendOk: bool) returns (err: Option<Failure>)
      requires Valid()
      modifies this`canEncryptor, this`questsSent, this`wire
      ensures Valid()
      ensures err == SendFailure(q, true, isEncryptor, true, sendOk)
      ensures wire == old(wire) + (if err.None? then [QuestRaw(q).value] else [])
      ensures canEncryptor == (old(canEncryptor) && err.Some?)
    {
      var raw := QuestRaw(q);
      if raw.None? {
        return Some(EncodeFailed);
      }
      if isEncryptor && q.name != KeyMethod {
        return Some(EncryptedFramingFailed);
      }
      if !sendOk {
        return Some(SendFailed);
      }
      wire := wire + [raw.value];
      canEncryptor := false;
      questsSent := questsSent + 1;
      err := None;
    }

    /** send: classify the quest, draw a sequence number when it is twoway
        (FPNNQuest's constructor does, before anything can fail), then
        transmit. A oneway quest keeps sequence number 0. */
    method Send(name: string, payload: seq<byte>, cb: Option<Callback>, alloc: SeqAllocator, connectOk: bool, sendOk: bool)
      returns (q: Quest, err: Option<Failure>)
      requires Valid() && alloc.Valid()
      modifies this`hasSocket, this`canEncryptor, this`questsSent, this`wire, this`cbDict, this`cbOrder,
               this`ticketOf, this`issued, this`asyncQueue, this`syncSignals, alloc
      ensures Valid() && alloc.Valid()
      ensures q.name == name && q.payload == payload && q.oneway == IsOneway(name, cb.Some?)
      ensures q.oneway ==> alloc.calls == old(alloc.calls) && alloc.nextSeq == old(alloc.nextSeq) && q.seqNum == 0
      ensures !q.oneway ==> alloc.calls == old(alloc.calls) + 1 && q.seqNum == alloc.nextSeq && 1 <= q.seqNum <= MaxSeq
      ensures err == SendFailure(q, old(hasSocket), isEncryptor, connectOk, sendOk)
      ensures hasSocket
      ensures wire == old(wire) + (if err.None? then [QuestRaw(q).value] else [])
      ensures canEncryptor == (old(canEncryptor) && err.Some?)
      ensures err.None? && cb.Some? ==>
                cbDict == old(cbDict)[q.seqNum := cb.value] &&
                cbOrder == (if q.seqNum in old(cbDict) then old(cbOrder) else old(cbOrder) + [q.seqNum])
      ensures err.Some? || cb.None? ==> cbDict == old(cbDict) && cbOrder == old(cbOrder)
      ensures err.None? || cb.None? ==> asyncQueue == old(asyncQueue) && syncSignals == old(syncSignals)
      ensures err.Some? && cb.Some? ==>
                asyncQueue == old(asyncQueue) + (if cb.value.sync then [] else [Delivery(cb.value, None, err)]) &&
                syncSignals == old(syncSignals) + (if cb.value.sync then [Delivery(cb.value, None, err)] else [])
    {
      var oneway := name != KeyMethod && cb.None?;
      var seqNum := 0;
      if !oneway {
        seqNum := alloc.Next();
      }
      q := Quest(name, payload, oneway, seqNum);
      err := Transmit(q, cb, connectOk, sendOk);
    }

    /** sendQuest: stamp the callback with its timeout and creation time
        (`now` stands for int(time.time())), then send. */
    method SendQuest(name: string, payload: seq<byte>, cb: Option<Callback>, timeout: int, now: int,
                     alloc: SeqAllocator, connectOk: bool, sendOk: bool)
      returns (q: Quest, err: Option<Failure>)
      requires Valid() && alloc.Valid()
      modifies this`hasSocket, this`canEncryptor, this`questsSent, this`wire, this`cbDict, this`cbOrder,
               this`ticketOf, this`issued, this`asyncQueue, this`syncSignals, alloc
      ensures Valid() && alloc.Valid()
      ensures q.name == name && q.payload == payload && q.oneway == IsOneway(name, cb.Some?)
      ensures q.oneway ==> q.seqNum == 0 && alloc.calls == old(alloc.calls)
      ensures !q.oneway ==> q.seqNum == alloc.nextSeq && alloc.calls == old(alloc.calls) + 1
      ensures err == SendFailure(q, old(hasSocket), isEncryptor, connectOk, sendOk)
      ensures hasSocket
      ensures wire == old(wire) + (if err.None? then [QuestRaw(q).value] else [])
      ensures canEncryptor == (old(canEncryptor) && err.Some?)
      ensures cb.None? ==>
                cbDict == old(cbDict) && cbOrder == old(cbOrder) &&
                asyncQueue == old(asyncQueue) && syncSignals == old(syncSignals)
      ensures cb.Some? ==>
                var stamped := cb.value.(timeoutSecond := timeout, createTime := now);
                var shared := Restamp(old(cbDict), cb.value.id, timeout, now);
                && (err.None? ==>
                      cbDict == shared[q.seqNum := stamped] &&
                      cbOrder == (if q.seqNum in old(cbDict) then old(cbOrder) else old(cbOrder) + [q.seqNum]) &&
                      asyncQueue == old(asyncQueue) && syncSignals == old(syncSignals))
                && (err.Some? ==>
                      cbDict == shared && cbOrder == old(cbOrder) &&
                      asyncQueue == old(asyncQueue) + (if stamped.sync then [] else [Delivery(stamped, None, err)]) &&
                      syncSignals == old(syncSignals) + (if stamped.sync then [Delivery(stamped, None, err)] else []))
    {
      var stamped: Option<Callback> := None;
      if cb.Some? {
        stamped := Some(cb.value.(timeoutSecond := timeout, createTime := now));
        RestampPending(cb.value.id, timeout, now);
      }
      q, err := Send(name, payload, stamped, alloc, connectOk, sendOk);
    }

    /** The two assignments of sendQuest to the caller's callback object,
        as seen through the registry: the pending entries that are that
        object carry the new stamp; no key, order or ticket changes. */
    method RestampPending(id: nat, timeout: int, now: int)
      requires Valid()
      modifies this`cbDict
      ensures Valid()
      ensures cbDict == Restamp(old(cbDict), id, timeout, now)
    {
      cbDict := Restamp(cbDict, id, timeout, now);
    }

    /** sendQuestSync, up to its wait: send with a fresh sync callback
        stamped with the timeout and creation time. A failed send signals
        the callback at once, so the call raises that exception; otherwise
        the callback waits in the registry for its answer, its timeout or
        the flush. */
    method SendQuestSync(name: string, payload: seq<byte>, id: nat, timeout: int, now: int,
                         alloc: SeqAllocator, connectOk: bool, sendOk: bool)
      returns (q: Quest, err: Option<Failure>)
      requires Valid() && alloc.Valid()
      modifies this`hasSocket, this`canEncryptor, this`questsSent, this`wire, this`cbDict, this`cbOrder,
               this`ticketOf, this`issued, this`asyncQueue, this`syncSignals, alloc
      ensures Valid() && alloc.Valid()
      ensures !q.oneway && q.seqNum == alloc.nextSeq && alloc.calls == old(alloc.calls) + 1
      ensures err == SendFailure(q, old(hasSocket), isEncryptor, connectOk, sendOk)
      ensures asyncQueue == old(asyncQueue)
      ensures err.Some? ==> syncSignals == old(syncSignals) + [Delivery(Callback(id, true, timeout, now), None, err)]
                            && cbDict == old(cbDict)
      ensures err.None? ==> syncSignals == old(syncSignals)
                            && cbDict == old(cbDict)[q.seqNum := Callback(id, true, timeout, now)]
    {
      q, err := Send(name, payload, Some(Callback(id, true, timeout, now)), alloc, connectOk, sendOk);
    }

    /** enableEncryptor: refused once a quest was sent or the encryptor is
        on; otherwise store the strength, key and IV derived from the shared
        secret, turn encryption on, and send the key-exchange quest, which
        goes out in clear, is twoway and registers nothing. */
    method EnableEncryptor(strength: int, secret: seq<byte>,
                           md5: seq<byte> -> seq<byte>, sha256: seq<byte> -> seq<byte>,
                           keyPayload: seq<byte>, alloc: SeqAllocator, connectOk: bool, sendOk: bool)
      returns (raised: bool)
      requires Valid() && alloc.Valid()
      requires forall s :: |sha256(s)| == 32
      modifies this`isEncryptor, this`keyMaterial, this`hasSocket, this`canEncryptor, this`questsSent, this`wire,
               this`cbDict, this`cbOrder, this`ticketOf, this`issued, this`asyncQueue, this`syncSignals, alloc
      ensures Valid() && alloc.Valid()
      ensures raised <==> !old(canEncryptor)
      ensures raised ==> isEncryptor == old(isEncryptor) && keyMaterial == old(keyMaterial) && wire == old(wire)
                         && alloc.calls == old(alloc.calls)
      ensures !raised ==> isEncryptor && !canEncryptor && keyMaterial == Some(Derive(strength, secret, md5, sha256))
      ensures !raised ==> alloc.calls == old(alloc.calls) + 1
      ensures !raised ==>
                var keyQuest := Quest(KeyMethod, keyPayload, false, alloc.nextSeq);
                wire == old(wire) + (if SendFailure(keyQuest, old(hasSocket), true, connectOk, sendOk).None?
                                     then [QuestRaw(keyQuest).value] else [])
      ensures cbDict == old(cbDict) && asyncQueue == old(asyncQueue) && syncSignals == old(syncSignals)
    {
      if !canEncryptor {
        return true;
      }
      raised := false;
      keyMaterial := Some(Derive(strength, secret, md5, sha256));
      isEncryptor := true;
      canEncryptor := false;
      var _, _ := Send(KeyMethod, keyPayload, None, alloc, connectOk, sendOk);
    }
  }

  /** An answer and the timeout sweep race for the pending quest `s`: the
      sweep has listed `s`, among any other numbers, and the answer pops it
      first. The callback of `s` is resolved once, with the answer; the
      sweep's pops then find nothing under `s` and fail with a timeout only
      the other listed entries that are still pending, in the list's
      order. */
  method AnswerBeatsTimeout(client: FpnnClient, s: int, payload: seq<byte>, list: seq<int>)
    requires client.Valid() && s in client.cbDict && s in list
    modifies client`cbDict, client`cbOrder, client`ticketOf, client`resolved, client`asyncQueue, client`syncSignals
    ensures client.Valid()
    ensures s !in client.cbDict
    ensures var cb := old(client.cbDict)[s];
            var late := Popped(list, old(client.cbDict) - {s});
            && client.asyncQueue == old(client.asyncQueue) + (if cb.sync then [] else [Delivery(cb, Some(payload), None)])
                                    + AsyncPart(late, None, Some(QuestTimeout))
            && client.syncSignals == old(client.syncSignals) + (if cb.sync then [Delivery(cb, Some(payload), None)] else [])
                                     + SyncPart(late, None, Some(QuestTimeout))
  {
    var popped := client.OnAnswer(s, payload);
    client.ExpireAll(list);
  }
}
