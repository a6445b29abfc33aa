// Key-value lists as messages (deps/include/ps/kv_app.h): KVWorker::Send and KVServer::Response
// put a list into data blocks, KVServer::Process and KVWorker::Process take it out again.
// The first block holds keys, the second values, the third lengths.
module KvWire {
  import opened Wrappers
  import opened KvData
  import opened Slicer
  import opened SlicerMeaning

  /** msg.data: how many blocks, and what the first three hold. */
  datatype Wire<V> = Wire(blocks: nat, keys: seq<Key>, vals: seq<V>, lens: seq<nat>)

  /** A list without keys is sent without data. */
  function Encode<V>(kvs: KVPairs<V>): Wire<V> {
    if kvs.keys == [] then Wire(0, [], [], [])
    else Wire(if kvs.lens == [] then 2 else 3, kvs.keys, kvs.vals, kvs.lens)
  }

  /** KVServer::Process, up to the call of the request handle. */
  function ServerReads<V>(w: Wire<V>): Result<KVPairs<V>> {
    if w.blocks == 0 then Ok(Empty())
    else if w.blocks < 2 then CheckFailed
    else if w.blocks == 2 then Ok(KVPairs(w.keys, w.vals, []))
    else if w.blocks != 3 || |w.lens| != |w.keys| then CheckFailed
    else Ok(KVPairs(w.keys, w.vals, w.lens))
  }

  /** KVWorker::Process on a pull's answer; without data nothing is stored. */
  function WorkerReads<V>(w: Wire<V>): Result<Option<KVPairs<V>>> {
    if w.blocks == 0 then Ok(None)
    else if w.blocks < 2 then CheckFailed
    else Ok(Some(KVPairs(w.keys, w.vals, if w.blocks > 2 then w.lens else [])))
  }

  /**
   * A server gets a list back as it was sent if and only if the lengths, if given, match the keys
   * and a list without keys has nothing else; with other lengths its CHECK fails.
   */
  lemma ServerRoundTrip<V>(kvs: KVPairs<V>)
    ensures ServerReads(Encode(kvs)) == Ok(kvs)
       <==> if kvs.keys == [] then kvs.vals == [] && kvs.lens == [] else kvs.lens == [] || |kvs.lens| == |kvs.keys|
    ensures ServerReads(Encode(kvs)).CheckFailed?
       <==> kvs.keys != [] && kvs.lens != [] && |kvs.lens| != |kvs.keys|
  {
  }

  /** A worker takes any answer as it was sent; it does not look at the lengths. */
  lemma WorkerRoundTrip<V>(kvs: KVPairs<V>)
    ensures WorkerReads(Encode(kvs)) == Ok(if kvs.keys == [] then None else Some(kvs))
  {
  }

  /** A message with one block fails either side's CHECK; a server takes three at most. */
  lemma BlocksChecked<V>(w: Wire<V>)
    ensures ServerReads(w).CheckFailed? <==> w.blocks == 1 || w.blocks > 3 || (w.blocks == 3 && |w.lens| != |w.keys|)
    ensures WorkerReads(w).CheckFailed? <==> w.blocks == 1
  {
  }

  // ----- Send -----

  /** The messages to the first n servers, with the server's rank. */
  function Messages<V>(send: KVPairs<V>, ranges: seq<Range>, n: nat): seq<(nat, Wire<V>)>
    requires Increasing(send.keys) && Ordered(ranges) && Accepts(send, ranges) && n <= |ranges|
  {
    if n == 0 then []
    else
      var slice := SliceOf(send, ranges, n - 1);
      Messages(send, ranges, n - 1) + if slice.first then [(n - 1, Encode(slice.second))] else []
  }

  /** Slice, count the servers left out, send to the others; for any list the slicer takes. */
  method Send<V>(send: KVPairs<V>, ranges: seq<Range>) returns (ok: bool, skipped: nat, msgs: seq<(nat, Wire<V>)>)
    requires Increasing(send.keys) && Ordered(ranges)
    ensures ok <==> Accepts(send, ranges)
    ensures ok ==> msgs == Messages(send, ranges, |ranges|) && skipped == |ranges| - |msgs|
  {
    hide SliceOf, Accepts;
    skipped, msgs := 0, [];
    var sliced := DefaultSlicer(send, ranges);
    ok := sliced.Ok?;
    if !ok {
      return;
    }
    for i := 0 to |ranges|
      invariant skipped == i - |Messages(send, ranges, i)|
    {
      if !sliced.value[i].first {
        skipped := skipped + 1;
      }
    }
    for i := 0 to |ranges|
      invariant msgs == Messages(send, ranges, i)
    {
      var s := sliced.value[i];
      if s.first {
        msgs := msgs + [(i, Encode(s.second))];
      }
    }
  }

  // ----- what the servers get -----

  predicate Readable<V>(msgs: seq<(nat, Wire<V>)>) {
    forall i :: 0 <= i < |msgs| ==> ServerReads(msgs[i].1).Ok? && Shaped(ServerReads(msgs[i].1).value)
  }

  /** The pairs that the servers read, message after message. */
  function Received<V>(msgs: seq<(nat, Wire<V>)>): seq<(Key, seq<V>)>
    requires Readable(msgs)
  {
    if msgs == [] then []
    else Received(msgs[..|msgs| - 1]) + Pairs(ServerReads(msgs[|msgs| - 1].1).value)
  }

  /** No CHECK of a server fails on a slice, and the slice arrives as it was cut. */
  lemma SliceArrives<V>(send: KVPairs<V>, ranges: seq<Range>, i: nat)
    requires Increasing(send.keys) && Ordered(ranges) && Accepts(send, ranges) && i < |ranges|
    requires SliceOf(send, ranges, i).first
    ensures ServerReads(Encode(SliceOf(send, ranges, i).second)) == Ok(SliceOf(send, ranges, i).second)
  {
    hide Pos, Increasing, Ordered, ValueCut;
    PosMonotone(send.keys, ranges, 0, i);
    PosMonotone(send.keys, ranges, i, i + 1);
  }

  lemma ReceivedSnoc<V>(msgs: seq<(nat, Wire<V>)>, m: (nat, Wire<V>))
    requires Readable(msgs) && ServerReads(m.1).Ok? && Shaped(ServerReads(m.1).value)
    ensures Readable(msgs + [m])
    ensures Received(msgs + [m]) == Received(msgs) + Pairs(ServerReads(m.1).value)
  {
    hide Pairs, Shaped, ServerReads;
    assert (msgs + [m])[..|msgs|] == msgs;
  }

  lemma {:induction false} ReceivedIsJoined<V>(send: KVPairs<V>, ranges: seq<Range>, n: nat)
    requires Increasing(send.keys) && Ordered(ranges) && Accepts(send, ranges) && n <= |ranges| && Shaped(send)
    ensures Readable(Messages(send, ranges, n))
    ensures Received(Messages(send, ranges, n)) == Joined(send, ranges, n)
  {
    hide SliceOf, Pairs, Shaped, Accepts, Increasing, Ordered, Received, Readable, ServerReads, Encode, Pos;
    if n == 0 {
      NothingReceived<V>();
    } else {
      var slice := SliceOf(send, ranges, n - 1);
      ReceivedIsJoined(send, ranges, n - 1);
      SliceIsShaped(send, ranges, n - 1);
      if slice.first {
        SliceArrives(send, ranges, n - 1);
        ReceivedSnoc(Messages(send, ranges, n - 1), (n - 1, Encode(slice.second)));
      } else {
        SkippedHasNoPairs(send, ranges, n - 1);
        assert Messages(send, ranges, n) == Messages(send, ranges, n - 1);
      }
    }
  }

  lemma NothingReceived<V>()
    ensures Readable<V>([]) && Received<V>([]) == []
  {
  }

  lemma SkippedHasNoPairs<V>(send: KVPairs<V>, ranges: seq<Range>, i: nat)
    requires Increasing(send.keys) && Ordered(ranges) && Accepts(send, ranges) && i < |ranges| && Shaped(send)
    requires !SliceOf(send, ranges, i).first
    ensures Shaped(SliceOf(send, ranges, i).second) && Pairs(SliceOf(send, ranges, i).second) == []
  {
    hide Pos, Increasing, Ordered, ValueCut;
    assert SliceOf(send, ranges, i).second == Empty();
  }

  /**
   * Sliced, sent and read, a list has reached the servers pair by pair and in order if and only
   * if no key lies below the first range.
   */
  lemma EverythingArrives<V>(send: KVPairs<V>, ranges: seq<Range>)
    requires Increasing(send.keys) && Ordered(ranges) && Accepts(send, ranges) && Shaped(send)
    ensures Readable(Messages(send, ranges, |ranges|))
    ensures Received(Messages(send, ranges, |ranges|)) == Pairs(send)
       <==> NoKeyBelow(send.keys, ranges)
  {
    hide SliceOf, Pairs, Accepts, Increasing, Ordered, Readable, NoKeyBelow;
    ReceivedIsJoined(send, ranges, |ranges|);
    Conservation(send, ranges);
  }
}
