/** The values the pending-callback registry of FPNNTCPClient works on
    (src/fpnn/fpnn_client.py): callbacks, the deliveries invokeCallback makes,
    the timeout rule of isCallbackTimeout, and the insertion-ordered
    dictionary `cbDict` described as a map plus its key order. */
module Registry {
  import opened Bytes

  /** An FpnnCallback as the client sees it: `id` stands for the object's
      identity, `sync` for a set `syncSemaphore` (a sendQuestSync callback),
      and the two fields sendQuest / sendQuestSync write. */
  datatype Callback = Callback(id: nat, sync: bool, timeoutSecond: int, createTime: int)

  /** The exceptions a callback can be resolved with. */
  datatype Failure =
    | QuestTimeout            // "Quest timeout", from the sweep
    | ConnectionBroken        // "connection was broken", from exceptionFlushAll
    | ConnectFailed           // reconnect() raised inside send
    | EncodeFailed            // struct.pack raised inside FPNNQuest.raw
    | EncryptedFramingFailed  // `.encode('utf-8')` on the encrypted bytes raised
    | SendFailed              // sendAll raised

  /** AsyncCallback(cb, answer, exception): one resolution of a callback. The
      answer is the (opaque) payload of the answer frame. */
  datatype Delivery = Delivery(cb: Callback, answer: Option<seq<byte>>, exception: Option<Failure>)

  /** The timeout that applies to a callback: its own if positive, else the
      connection's default. */
  function EffectiveTimeout(cb: Callback, defaultTimeout: int): int
  {
    if cb.timeoutSecond > 0 then cb.timeoutSecond else defaultTimeout
  }

  /** isCallbackTimeout with `int(time.time())` passed in as `now`. */
  predicate IsCallbackTimeout(cb: Callback, defaultTimeout: int, now: int)
  {
    var t := EffectiveTimeout(cb, defaultTimeout);
    t > 0 && now - cb.createTime >= t
  }

  /** The three rules of the timeout decision, case by case. */
  lemma TimeoutRule(cb: Callback, defaultTimeout: int, now: int)
    ensures cb.timeoutSecond > 0 ==>
              (IsCallbackTimeout(cb, defaultTimeout, now) <==> now >= cb.createTime + cb.timeoutSecond)
    ensures cb.timeoutSecond <= 0 && defaultTimeout > 0 ==>
              (IsCallbackTimeout(cb, defaultTimeout, now) <==> now >= cb.createTime + defaultTimeout)
    ensures cb.timeoutSecond <= 0 && defaultTimeout <= 0 ==> !IsCallbackTimeout(cb, defaultTimeout, now)
  {
  }

  /** Once timed out, a callback stays timed out as the clock advances. */
  lemma TimeoutMonotone(cb: Callback, defaultTimeout: int, now: int, later: int)
    requires IsCallbackTimeout(cb, defaultTimeout, now) && now <= later
    ensures IsCallbackTimeout(cb, defaultTimeout, later)
  {
  }

  /** sendQuest writes the timeout and creation time into the caller's
      FpnnCallback object itself, and cbDict holds references to such
      objects: every pending entry that is that same object (same `id`) is
      re-stamped, and the others are left as they were. */
  function Restamp(m: map<int, Callback>, id: nat, timeout: int, now: int): (r: map<int, Callback>)
    ensures r.Keys == m.Keys
  {
    map k | k in m :: if m[k].id == id then m[k].(timeoutSecond := timeout, createTime := now) else m[k]
  }

  /** After a re-stamp, a pending entry of the reused callback times out
      exactly when the newly stamped callback would, whatever it was stamped
      with before; an entry of any other callback is unchanged. */
  lemma RestampSharesTimeout(m: map<int, Callback>, id: nat, timeout: int, now: int,
                             defaultTimeout: int, later: int, k: int)
    requires k in m
    ensures m[k].id == id ==>
              (IsCallbackTimeout(Restamp(m, id, timeout, now)[k], defaultTimeout, later)
               <==> IsCallbackTimeout(m[k].(timeoutSecond := timeout, createTime := now), defaultTimeout, later))
    ensures m[k].id == id ==> Restamp(m, id, timeout, now)[k].sync == m[k].sync
    ensures m[k].id != id ==> Restamp(m, id, timeout, now)[k] == m[k]
  {
  }

  /** The deliveries that invokeCallback puts on the async queue when it is
      called on each of `cbs` in turn with the same answer and exception. */
  function AsyncPart(cbs: seq<Callback>, answer: Option<seq<byte>>, exception: Option<Failure>): (r: seq<Delivery>)
    ensures |r| <= |cbs|
  {
    if cbs == [] then []
    else
      var last := cbs[|cbs| - 1];
      AsyncPart(cbs[..|cbs| - 1], answer, exception) + (if last.sync then [] else [Delivery(last, answer, exception)])
  }

  /** The same for the sync wait-handles: the deliveries stored in a
      callback's sync slot with its semaphore released. */
  function SyncPart(cbs: seq<Callback>, answer: Option<seq<byte>>, exception: Option<Failure>): (r: seq<Delivery>)
    ensures |r| <= |cbs|
  {
    if cbs == [] then []
    else
      var last := cbs[|cbs| - 1];
      SyncPart(cbs[..|cbs| - 1], answer, exception) + (if last.sync then [Delivery(last, answer, exception)] else [])
  }

  /** invokeCallback(cb, answer, exception) for each of `cbs`, in turn. */
  function Deliveries(cbs: seq<Callback>, answer: Option<seq<byte>>, exception: Option<Failure>): (r: seq<Delivery>)
    ensures |r| == |cbs|
  {
    if cbs == [] then [] else Deliveries(cbs[..|cbs| - 1], answer, exception) + [Delivery(cbs[|cbs| - 1], answer, exception)]
  }

  /** Every callback handed to invokeCallback is resolved exactly once:
      its delivery lands either on the async queue or in its sync slot, never
      both and never neither. */
  lemma {:induction false} DeliveredExactlyOnce(cbs: seq<Callback>, answer: Option<seq<byte>>, exception: Option<Failure>)
    ensures multiset(AsyncPart(cbs, answer, exception)) + multiset(SyncPart(cbs, answer, exception))
         == multiset(Deliveries(cbs, answer, exception))
  {
    if cbs != [] {
      var init, last := cbs[..|cbs| - 1], cbs[|cbs| - 1];
      DeliveredExactlyOnce(init, answer, exception);
      var d := Delivery(last, answer, exception);
      var a, s, ds := AsyncPart(init, answer, exception), SyncPart(init, answer, exception), Deliveries(init, answer, exception);
      assert multiset(ds + [d]) == multiset(ds) + multiset{d};
      if last.sync {
        assert multiset(s + [d]) == multiset(s) + multiset{d};
      } else {
        assert multiset(a + [d]) == multiset(a) + multiset{d};
      }
    }
  }

  /** Invoking one more callback appends its delivery to the part it
      belongs to. */
  lemma PartsSnoc(cbs: seq<Callback>, c: Callback, answer: Option<seq<byte>>, exception: Option<Failure>)
    ensures AsyncPart(cbs + [c], answer, exception)
              == AsyncPart(cbs, answer, exception) + (if c.sync then [] else [Delivery(c, answer, exception)])
    ensures SyncPart(cbs + [c], answer, exception)
              == SyncPart(cbs, answer, exception) + (if c.sync then [Delivery(c, answer, exception)] else [])
  {
    assert (cbs + [c])[..|cbs|] == cbs;
  }

  /** Queues that hold the deliveries for `cbs` hold those for `cbs` and one
      more popped entry, if there was one, once invokeCallback has run on
      it. */
  lemma InvokeStep(q: seq<Delivery>, s: seq<Delivery>, cbs: seq<Callback>, cb: Option<Callback>,
                   answer: Option<seq<byte>>, exception: Option<Failure>)
    ensures q + AsyncPart(cbs + (if cb.Some? then [cb.value] else []), answer, exception)
         == q + AsyncPart(cbs, answer, exception) + (if cb.Some? && !cb.value.sync then [Delivery(cb.value, answer, exception)] else [])
    ensures s + SyncPart(cbs + (if cb.Some? then [cb.value] else []), answer, exception)
         == s + SyncPart(cbs, answer, exception) + (if cb.Some? && cb.value.sync then [Delivery(cb.value, answer, exception)] else [])
  {
    if cb.Some? {
      PartsSnoc(cbs, cb.value, answer, exception);
    } else {
      assert cbs + [] == cbs;
    }
  }

  /** A dictionary's key order has each key once. */
  predicate Distinct(s: seq<int>)
  {
    forall i, j :: 0 <= i < j < |s| ==> s[i] != s[j]
  }

  /** The key order after removing every key not in `keep`. */
  function Filter(order: seq<int>, keep: set<int>): (r: seq<int>)
    ensures forall k :: k in r <==> k in order && k in keep
  {
    if order == [] then []
    else Filter(order[..|order| - 1], keep) + (if order[|order| - 1] in keep then [order[|order| - 1]] else [])
  }

  lemma {:induction false} FilterDistinct(order: seq<int>, keep: set<int>)
    requires Distinct(order)
    ensures Distinct(Filter(order, keep))
  {
    if order != [] {
      var init := order[..|order| - 1];
      FilterDistinct(init, keep);
    }
  }

  /** Filtering twice keeps what both filters keep. */
  lemma {:induction false} FilterFilter(order: seq<int>, a: set<int>, b: set<int>)
    ensures Filter(Filter(order, a), b) == Filter(order, a * b)
  {
    if order != [] {
      var init, k := order[..|order| - 1], order[|order| - 1];
      FilterFilter(init, a, b);
      var fa := Filter(init, a) + (if k in a then [k] else []);
      if k in a {
        assert fa[..|fa| - 1] == Filter(init, a);
      } else {
        assert fa == Filter(init, a);
      }
    }
  }

  /** Filtering by a set that holds every key changes nothing. */
  lemma {:induction false} FilterAll(order: seq<int>, keep: set<int>)
    requires forall i :: 0 <= i < |order| ==> order[i] in keep
    ensures Filter(order, keep) == order
  {
    if order != [] {
      FilterAll(order[..|order| - 1], keep);
    }
  }

  /** The callbacks of `m` in the order `order` lists their keys: what a
      `for seqNum in cbDict` loop visits. */
  function InOrder(order: seq<int>, m: map<int, Callback>): (r: seq<Callback>)
    requires forall i :: 0 <= i < |order| ==> order[i] in m
    ensures |r| == |order|
  {
    if order == [] then [] else InOrder(order[..|order| - 1], m) + [m[order[|order| - 1]]]
  }

  /** The keys of `order` whose callbacks have timed out, in order: the list
      the first phase of the sweep collects. */
  function TimedOut(order: seq<int>, m: map<int, Callback>, defaultTimeout: int, now: int): (r: seq<int>)
    requires forall i :: 0 <= i < |order| ==> order[i] in m
    ensures forall k :: k in r <==> k in order && IsCallbackTimeout(m[k], defaultTimeout, now)
    ensures forall i :: 0 <= i < |r| ==> r[i] in m
  {
    if order == [] then []
    else
      var k := order[|order| - 1];
      TimedOut(order[..|order| - 1], m, defaultTimeout, now) + (if IsCallbackTimeout(m[k], defaultTimeout, now) then [k] else [])
  }

  /** The collected list names each key at most once, as the key order does. */
  lemma {:induction false} TimedOutDistinct(order: seq<int>, m: map<int, Callback>, defaultTimeout: int, now: int)
    requires forall i :: 0 <= i < |order| ==> order[i] in m
    requires Distinct(order)
    ensures Distinct(TimedOut(order, m, defaultTimeout, now))
  {
    if order != [] {
      TimedOutDistinct(order[..|order| - 1], m, defaultTimeout, now);
    }
  }

  /** The callbacks that popping each key of `keys` in turn from `m` yields:
      a key yields its callback the first time it is popped, and nothing if
      it was popped before or was never present. */
  function Popped(keys: seq<int>, m: map<int, Callback>): (r: seq<Callback>)
    ensures |r| <= |keys|
  {
    if keys == [] then []
    else
      var init, k := keys[..|keys| - 1], keys[|keys| - 1];
      Popped(init, m) + (if k in m && k !in init then [m[k]] else [])
  }

  /** One more pop, from the map that the earlier pops left: it yields the
      key's callback if the key is still there, and removes it. */
  lemma PoppedStep(keys: seq<int>, i: int, m0: map<int, Callback>, m: map<int, Callback>)
    requires 0 <= i < |keys|
    requires forall k :: k in m <==> k in m0 && k !in keys[..i]
    requires forall k :: k in m ==> m[k] == m0[k]
    ensures Popped(keys[..i + 1], m0) == Popped(keys[..i], m0) + (if keys[i] in m then [m[keys[i]]] else [])
    ensures forall k :: k in m - {keys[i]} <==> k in m0 && k !in keys[..i + 1]
  {
    assert keys[..i + 1] == keys[..i] + [keys[i]];
  }

  /** The registry and queues after the sweep's pops of the first `i` keys
      of `list`, from the dictionary, key order and queues it started
      with. */
  ghost predicate SweptUpTo(list: seq<int>, i: int, dict0: map<int, Callback>, order0: seq<int>,
                      async0: seq<Delivery>, sync0: seq<Delivery>,
                      dict: map<int, Callback>, order: seq<int>, async: seq<Delivery>, sync: seq<Delivery>)
  {
    && 0 <= i <= |list|
    && (forall k :: k in dict <==> k in dict0 && k !in list[..i])
    && (forall k :: k in dict ==> dict[k] == dict0[k])
    && order == Filter(order0, dict.Keys)
    && async == async0 + AsyncPart(Popped(list[..i], dict0), None, Some(QuestTimeout))
    && sync == sync0 + SyncPart(Popped(list[..i], dict0), None, Some(QuestTimeout))
  }

  /** One pop of the sweep, followed by invokeCallback on what it yields
      with a timeout, extends the swept prefix by one key. */
  lemma SweepStep(list: seq<int>, i: int, dict0: map<int, Callback>, order0: seq<int>,
                  async0: seq<Delivery>, sync0: seq<Delivery>,
                  dict: map<int, Callback>, order: seq<int>, async: seq<Delivery>, sync: seq<Delivery>,
                  cb: Option<Callback>,
                  dict': map<int, Callback>, order': seq<int>, async': seq<Delivery>, sync': seq<Delivery>)
    requires SweptUpTo(list, i, dict0, order0, async0, sync0, dict, order, async, sync) && i < |list|
    requires cb == if list[i] in dict then Some(dict[list[i]]) else None
    requires dict' == dict - {list[i]} && order' == Filter(order, dict'.Keys)
    requires async' == async + (if cb.Some? && !cb.value.sync then [Delivery(cb.value, None, Some(QuestTimeout))] else [])
    requires sync' == sync + (if cb.Some? && cb.value.sync then [Delivery(cb.value, None, Some(QuestTimeout))] else [])
    ensures SweptUpTo(list, i + 1, dict0, order0, async0, sync0, dict', order', async', sync')
  {
    PoppedStep(list, i, dict0, dict);
    InvokeStep(async0, sync0, Popped(list[..i], dict0), cb, None, Some(QuestTimeout));
    FilterFilter(order0, dict.Keys, dict'.Keys);
    assert dict.Keys * dict'.Keys == dict'.Keys;
  }

  /** Popping a list of distinct keys yields exactly the callbacks of those
      keys that were present, in the list's order. */
  lemma {:induction false} PoppedDistinct(keys: seq<int>, m: map<int, Callback>)
    requires Distinct(keys) && forall i :: 0 <= i < |keys| ==> keys[i] in m
    ensures Popped(keys, m) == InOrder(keys, m)
  {
    if keys != [] {
      var init, k := keys[..|keys| - 1], keys[|keys| - 1];
      assert Distinct(init);
      PoppedDistinct(init, m);
      assert k !in init;
    }
  }
}
