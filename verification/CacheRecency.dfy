/** Recency in the tokenizer cache service (ajet/tokenizer/service.py), told from the outside: which keys were touched is computed from the
turns and from the messages sent, and the cache is compared with the keys touched last. */
module CacheRecency {
  import opened PyList
  import opened TokenizerService

  // ----- Keys in the order of their last touch -----

  /** All keys ever touched, each at the place of its last touch. */
  function Recency(touches: seq<Bytes>): seq<Bytes> {
    if touches == [] then []
    else Without(Recency(touches[..|touches| - 1]), touches[|touches| - 1]) + [touches[|touches| - 1]]
  }

  /** The keys touched after the last touch of `k`, or all keys touched if there is none. */
  function Since(touches: seq<Bytes>, k: Bytes): set<Bytes> {
    if touches == [] then {}
    else if touches[|touches| - 1] == k then {}
    else Since(touches[..|touches| - 1], k) + {touches[|touches| - 1]}
  }

  lemma {:induction false} WithoutConcat(xs: seq<Bytes>, ys: seq<Bytes>, k: Bytes)
    ensures Without(xs + ys, k) == Without(xs, k) + Without(ys, k)
  {
    if xs == [] {
      assert xs + ys == ys;
    } else {
      assert (xs + ys)[1..] == xs[1..] + ys;
      WithoutConcat(xs[1..], ys, k);
    }
  }

  lemma {:induction false} RecencyHasNoDuplicates(touches: seq<Bytes>)
    ensures NoDuplicates(Recency(touches))
  {
    if touches != [] {
      RecencyHasNoDuplicates(touches[..|touches| - 1]);
      WithoutKeeps(Recency(touches[..|touches| - 1]), touches[|touches| - 1]);
    }
  }

  lemma RecencyOfTouch(touches: seq<Bytes>, raw: Bytes)
    ensures Recency(touches + [raw]) == Without(Recency(touches), raw) + [raw]
  {
    assert (touches + [raw])[..|touches|] == touches;
  }

  /** Touching a key moves it to the end of the newest keys, whether it was among them or not. */
  lemma NewestOfTouch(all: seq<Bytes>, k: Bytes, size: nat)
    requires NoDuplicates(all)
    ensures var now := Newest(all, size);
      Newest(Without(all, k) + [k], size) == if k in now then Without(now, k) + [k] else Newest(now + [k], size)
  {
    var now := Newest(all, size);
    var stale := all[..|all| - |now|];
    assert all == stale + now;
    TouchSplit(stale, now, k);
    var touched := Without(now, k) + [k];
    WithoutKeeps(now, k);
    if k in now {
      assert |touched| == |now|;
      NewestConcat(stale, touched, size);
    } else {
      WithoutLength(stale, k);
      NewestConcat(Without(stale, k), touched, size);
    }
  }

  lemma TouchSplit(stale: seq<Bytes>, now: seq<Bytes>, k: Bytes)
    requires NoDuplicates(stale + now)
    ensures NoDuplicates(now)
    ensures Without(stale + now, k) + [k] == Without(stale, k) + (Without(now, k) + [k])
    ensures k in now ==> Without(stale, k) == stale
  {
    WithoutConcat(stale, now, k);
    assert forall i :: 0 <= i < |now| ==> (stale + now)[|stale| + i] == now[i];
    assert forall i :: 0 <= i < |stale| ==> (stale + now)[i] == stale[i];
    WithoutKeeps(stale, k);
    if k in now {
      NotInBoth(stale, now, k);
    }
  }

  lemma {:induction false} WithoutLength(keys: seq<Bytes>, k: Bytes)
    ensures |Without(keys, k)| <= |keys|
  {
    if keys != [] {
      WithoutLength(keys[1..], k);
    }
  }

  lemma NotInBoth(xs: seq<Bytes>, ys: seq<Bytes>, k: Bytes)
    requires NoDuplicates(xs + ys) && k in ys
    ensures k !in xs
  {
    var j :| 0 <= j < |ys| && ys[j] == k;
    assert (xs + ys)[|xs| + j] == k;
    forall i | 0 <= i < |xs|
      ensures xs[i] != k
    {
      assert (xs + ys)[i] == xs[i];
    }
  }

  lemma NewestConcat(xs: seq<Bytes>, ys: seq<Bytes>, size: nat)
    requires xs == [] || |ys| >= size
    ensures Newest(xs + ys, size) == Newest(ys, size)
  {
    if xs == [] {
      assert xs + ys == ys;
    }
  }

  lemma {:induction false} RecencyHoldsTouched(touches: seq<Bytes>)
    ensures forall k :: k in Recency(touches) <==> k in touches
  {
    if touches != [] {
      var init, last := touches[..|touches| - 1], touches[|touches| - 1];
      RecencyHoldsTouched(init);
      RecencyHasNoDuplicates(init);
      WithoutKeeps(Recency(init), last);
      assert touches == init + [last];
    }
  }

  lemma {:induction false} AsManyKeys(keys: seq<Bytes>, members: set<Bytes>)
    requires NoDuplicates(keys) && forall k :: k in members <==> k in keys
    ensures |members| == |keys|
  {
    if keys == [] {
      assert members == {};
    } else {
      var k := keys[0];
      assert keys == [k] + keys[1..];
      AsManyKeys(keys[1..], members - {k});
    }
  }

  /** Behind a key stand exactly the keys touched since. */
  lemma {:induction false} BehindKey(touches: seq<Bytes>, k: Bytes) returns (before: seq<Bytes>, behind: seq<Bytes>)
    requires k in touches
    ensures Recency(touches) == before + [k] + behind
    ensures NoDuplicates(behind) && forall x :: x in behind <==> x in Since(touches, k)
  {
    var init, last := touches[..|touches| - 1], touches[|touches| - 1];
    assert touches == init + [last];
    if last == k {
      before, behind := Without(Recency(init), k), [];
    } else {
      var a, b := BehindKey(init, k);
      before, behind := Without(a, last), Without(b, last) + [last];
      WithoutConcat(a + [k], b, last);
      WithoutConcat(a, [k], last);
      WithoutKeeps(b, last);
    }
  }

  /** A key is among the newest `size` exactly when it was touched and fewer than `size` other keys have been touched since. */
  lemma NewestIff(touches: seq<Bytes>, k: Bytes, size: nat)
    ensures k in Newest(Recency(touches), size) <==> k in touches && |Since(touches, k)| < size
  {
    RecencyHoldsTouched(touches);
    RecencyHasNoDuplicates(touches);
    var all := Recency(touches);
    if k in touches {
      var before, behind := BehindKey(touches, k);
      AsManyKeys(behind, Since(touches, k));
      var at := |before|;
      assert all[at] == k && |all| - 1 - at == |behind|;
      OnlyAt(all, at, size);
    }
  }

  lemma OnlyAt(keys: seq<Bytes>, at: nat, size: nat)
    requires NoDuplicates(keys) && at < |keys|
    ensures keys[at] in Newest(keys, size) <==> |keys| - 1 - at < size
  {
    var newest := Newest(keys, size);
    var from := |keys| - |newest|;
    if at >= from {
      assert newest[at - from] == keys[at];
    } else {
      forall i | 0 <= i < |newest|
        ensures newest[i] != keys[at]
      {
        assert newest[i] == keys[from + i];
      }
    }
  }

  // ----- What a run touches -----

  /** The reference: is this key cached after these touches? */
  predicate Recent(v: Service, touches: seq<Bytes>, k: Bytes) {
    k in touches && |Since(touches, k)| < v.cacheSize
  }

  /** A call that comes in while the loop runs and its key is cached. */
  predicate IsHit(v: Service, over: bool, turn: Turn, touches: seq<Bytes>) {
    !over && turn.arrival.Some? && IsCall(v.env, turn.arrival.value.raw) && Recent(v, touches, turn.arrival.value.raw)
  }

  /** The operations whose answers are cached. */
  const CACHED_OPERATIONS: set<string> := {"encode", "decode", "batch_decode", "apply_chat_template"}

  predicate Cacheable(op: string) {
    op in CACHED_OPERATIONS
  }

  lemma CacheableIsCached(op: string)
    ensures Cacheable(op) <==> CacheOp(op)
  {
  }

  /** An answer from a worker touches its key when the operation may be cached and the key is not cached. */
  function TouchOfAnswer(v: Service, arrived: seq<Arrival>, touches: seq<Bytes>, e: Sent): seq<Bytes> {
    if e.payload.Reply? && e.id < |arrived| && Cacheable(OpOf(v.env, arrived[e.id].raw)) && !Recent(v, touches, arrived[e.id].raw) then
      touches + [arrived[e.id].raw]
    else touches
  }

  function TouchesOfAnswers(v: Service, arrived: seq<Arrival>, touches: seq<Bytes>, sent: seq<Sent>): seq<Bytes> {
    if sent == [] then touches
    else TouchOfAnswer(v, arrived, TouchesOfAnswers(v, arrived, touches, sent[..|sent| - 1]), sent[|sent| - 1])
  }

  /** The keys touched in a run, in order: a hit touches its key, and so does the first answer to a key that is not cached. */
  ghost function Touched(v: Service, turns: seq<Turn>): seq<Bytes> {
    if turns == [] then []
    else
      var before, turn := turns[..|turns| - 1], turns[|turns| - 1];
      var s, next, touches := Run(v, before), Run(v, turns), Touched(v, before);
      if IsHit(v, s.over, turn, touches) then touches + [turn.arrival.value.raw]
      else TouchesOfAnswers(v, next.arrived, touches, Drop(next.sent, |s.sent|))
  }

  /** The number of hits of a run. */
  ghost function HitTurns(v: Service, turns: seq<Turn>): nat {
    if turns == [] then 0
    else
      var before := turns[..|turns| - 1];
      HitTurns(v, before) + (if IsHit(v, Run(v, before).over, turns[|turns| - 1], Touched(v, before)) then 1 else 0)
  }

  // ----- The cache holds the keys touched last -----

  /** The cache holds the newest keys of these touches, in their order. */
  ghost predicate InOrder(v: Service, l: Lru, touches: seq<Bytes>) {
    Ordered(l) && l.order == Newest(Recency(touches), v.cacheSize)
  }

  lemma CachedIff(v: Service, l: Lru, touches: seq<Bytes>, k: Bytes)
    requires InOrder(v, l, touches)
    ensures k in l.cache <==> Recent(v, touches, k)
  {
    NewestIff(touches, k, v.cacheSize);
  }

  lemma TouchKeepsOrder(v: Service, l: Lru, touches: seq<Bytes>, raw: Bytes)
    requires InOrder(v, l, touches) && raw in l.cache
    ensures InOrder(v, MoveToEnd(l, raw), touches + [raw])
  {
    RecencyOfTouch(touches, raw);
    RecencyHasNoDuplicates(touches);
    NewestOfTouch(Recency(touches), raw, v.cacheSize);
    MovedIsOrdered(l, raw);
  }

  /** A key already cached keeps its place, and a new one is the newest. */
  lemma StoreKeepsOrder(v: Service, l: Lru, touches: seq<Bytes>, raw: Bytes, payload: Payload)
    requires InOrder(v, l, touches)
    ensures InOrder(v, Evict(Assign(l, raw, payload), v.cacheSize), if raw in l.cache then touches else touches + [raw])
  {
    assert Ordered(Assign(l, raw, payload));
    EvictKeepsNewest(Assign(l, raw, payload), v.cacheSize);
    if raw !in l.cache {
      RecencyOfTouch(touches, raw);
      RecencyHasNoDuplicates(touches);
      NewestOfTouch(Recency(touches), raw, v.cacheSize);
    }
  }

  /** The order after one more answer, or after none because the result did not pack. */
  ghost predicate Follows(v: Service, s: State, next: State, touches: seq<Bytes>, e: Option<Sent>) {
    match e
    case None => next.sent == s.sent && InOrder(v, next.lru, touches)
    case Some(e) => next.sent == s.sent + [e] && InOrder(v, next.lru, TouchOfAnswer(v, s.arrived, touches, e))
  }

  lemma CompleteKeepsOrder(v: Service, s: State, k: nat, touches: seq<Bytes>) returns (e: Option<Sent>)
    requires k < |s.pending| && InOrder(v, s.lru, touches) && RightPending(v, s.arrived, s.pending[k])
    ensures Complete(v, s, k).arrived == s.arrived && Follows(v, s, Complete(v, s, k), touches, e)
  {
    var p := s.pending[k];
    var d := Dispatch(v.env, p.raw);
    e := None;
    if d.Some? {
      CachedOperation(v.env, p.raw);
      CachedIff(v, s.lru, touches, p.raw);
      CacheableIsCached(p.op);
      if CacheOp(p.op) {
        StoreKeepsOrder(v, s.lru, touches, p.raw, Reply(d.value.0));
      }
      e := Some(Sent(p.id, p.route, Reply(d.value.0)));
    }
  }

  lemma OneMoreAnswer(v: Service, arrived: seq<Arrival>, touches: seq<Bytes>, sent: seq<Sent>, e: Sent)
    ensures TouchesOfAnswers(v, arrived, touches, sent + [e])
         == TouchOfAnswer(v, arrived, TouchesOfAnswers(v, arrived, touches, sent), e)
  {
    assert (sent + [e])[..|sent|] == sent;
  }

  /** The cache follows the answers sent after the first `start` messages. */
  ghost predicate OnTrack(v: Service, s: State, start: nat, touches: seq<Bytes>) {
    && start <= |s.sent| && PendingAreRight(v, s)
    && InOrder(v, s.lru, TouchesOfAnswers(v, s.arrived, touches, s.sent[start..]))
  }

  lemma PendingStayRight(v: Service, s: State, k: nat)
    requires k < |s.pending| && PendingAreRight(v, s)
    ensures PendingAreRight(v, Complete(v, s, k)) && Complete(v, s, k).arrived == s.arrived
    ensures s.sent <= Complete(v, s, k).sent
  {
    var next := Complete(v, s, k);
    forall i | 0 <= i < |next.pending|
      ensures RightPending(v, s.arrived, next.pending[i])
    {
      assert next.pending[i] == s.pending[if i < k then i else i + 1];
    }
  }

  lemma CompleteStaysOnTrack(v: Service, s: State, k: nat, start: nat, touches: seq<Bytes>)
    requires k < |s.pending| && OnTrack(v, s, start, touches)
    ensures OnTrack(v, Complete(v, s, k), start, touches) && Complete(v, s, k).arrived == s.arrived
    ensures s.sent <= Complete(v, s, k).sent
  {
    var now := TouchesOfAnswers(v, s.arrived, touches, s.sent[start..]);
    PendingStayRight(v, s, k);
    assert RightPending(v, s.arrived, s.pending[k]);
    var e := CompleteKeepsOrder(v, s, k, now);
    FollowedOn(v, s, Complete(v, s, k), start, touches, e);
  }

  lemma FollowedOn(v: Service, s: State, next: State, start: nat, touches: seq<Bytes>, e: Option<Sent>)
    requires start <= |s.sent| && next.arrived == s.arrived && PendingAreRight(v, next)
    requires Follows(v, s, next, TouchesOfAnswers(v, s.arrived, touches, s.sent[start..]), e)
    ensures OnTrack(v, next, start, touches)
  {
    if e.Some? {
      OneMoreAnswer(v, s.arrived, touches, s.sent[start..], e.value);
      assert next.sent[start..] == s.sent[start..] + [e.value];
    }
  }

  /** While workers' answers are taken, the cache follows the answers sent. */
  lemma {:induction false} DrainStaysOnTrack(v: Service, s: State, done: set<nat>, k: nat, start: nat, touches: seq<Bytes>)
    requires k <= |s.pending| && OnTrack(v, s, start, touches)
    ensures OnTrack(v, Drain(v, s, done, k), start, touches) && Drain(v, s, done, k).arrived == s.arrived
    ensures s.sent <= Drain(v, s, done, k).sent
    decreases |s.pending| - k
  {
    if k < |s.pending| && !s.over {
      if s.pending[k].id in done {
        CompleteStaysOnTrack(v, s, k, start, touches);
        DrainStaysOnTrack(v, Complete(v, s, k), done, k, start, touches);
      } else {
        DrainStaysOnTrack(v, s, done, k + 1, start, touches);
      }
    }
  }

  // ----- Whole runs -----

  /** What is known after a run: the cache is in order, the hits are counted, pending requests are right. */
  ghost predicate Tracked(v: Service, s: State, touches: seq<Bytes>, hits: nat) {
    InOrder(v, s.lru, touches) && s.hits == hits && PendingAreRight(v, s)
  }

  lemma NoAnswersYet(v: Service, s: State, touches: seq<Bytes>)
    requires InOrder(v, s.lru, touches) && PendingAreRight(v, s)
    ensures OnTrack(v, s, |s.sent|, touches)
  {
    assert s.sent[|s.sent|..] == [];
  }

  lemma {:induction false} DrainKeepsHits(v: Service, s: State, done: set<nat>, k: nat)
    requires k <= |s.pending|
    ensures Drain(v, s, done, k).hits == s.hits
    decreases |s.pending| - k
  {
    if k < |s.pending| && !s.over {
      if s.pending[k].id in done {
        DrainKeepsHits(v, Complete(v, s, k), done, k);
      } else {
        DrainKeepsHits(v, s, done, k + 1);
      }
    }
  }

  /** A turn without a hit: whatever is sent touches keys as answers do. */
  lemma DrainedTurn(v: Service, s: State, got: State, done: set<nat>, touches: seq<Bytes>)
    requires InOrder(v, got.lru, touches) && PendingAreRight(v, got) && got.sent == s.sent && got.hits == s.hits
    ensures var next := Drain(v, got, done, 0);
      && |s.sent| <= |next.sent| && next.hits == s.hits && PendingAreRight(v, next)
      && InOrder(v, next.lru, TouchesOfAnswers(v, next.arrived, touches, Drop(next.sent, |s.sent|)))
  {
    NoAnswersYet(v, got, touches);
    DrainStaysOnTrack(v, got, done, 0, |s.sent|, touches);
    DrainKeepsHits(v, got, done, 0);
    assert Drop(Drain(v, got, done, 0).sent, |s.sent|) == Drain(v, got, done, 0).sent[|s.sent|..];
  }

  /** A message that is no answer of the tokenizer touches nothing. */
  lemma OtherMessage(v: Service, arrived: seq<Arrival>, touches: seq<Bytes>, sent: seq<Sent>, e: Sent)
    requires !e.payload.Reply?
    ensures TouchesOfAnswers(v, arrived, touches, Drop(sent + [e], |sent|)) == touches
    ensures TouchesOfAnswers(v, arrived, touches, Drop(sent, |sent|)) == touches
  {
    assert Drop(sent + [e], |sent|) == [e];
    assert TouchesOfAnswers(v, arrived, touches, [e][..0]) == touches;
  }

  /** One turn: the keys touched and the hits grow as the reference says. */
  lemma TurnIsTracked(v: Service, s: State, turn: Turn, touches: seq<Bytes>, hits: nat)
    requires Tracked(v, s, touches, hits)
    ensures var next, hit := Step(v, s, turn), IsHit(v, s.over, turn, touches);
      var now := if hit then touches + [turn.arrival.value.raw] else TouchesOfAnswers(v, next.arrived, touches, Drop(next.sent, |s.sent|));
      Tracked(v, next, now, if hit then hits + 1 else hits)
  {
    if s.over {
      OtherMessage(v, s.arrived, touches, s.sent, Sent(0, [], Bye));
    } else if turn.arrival == None {
      DrainedTurn(v, s, s, turn.done, touches);
    } else {
      var a := turn.arrival.value;
      CachedIff(v, s.lru, touches, a.raw);
      PendingStillRight(v, s, a);
      var got := Receive(v, s, a).0;
      if !IsCall(v.env, a.raw) {
        OtherMessage(v, got.arrived, touches, s.sent, got.sent[|s.sent|]);
      } else if a.raw in s.lru.cache {
        TouchKeepsOrder(v, s.lru, touches, a.raw);
      } else {
        DrainedTurn(v, s, got, turn.done, touches);
      }
    }
  }

  lemma PendingStillRight(v: Service, s: State, a: Arrival)
    requires PendingAreRight(v, s)
    ensures PendingAreRight(v, Receive(v, s, a).0)
  {
    var got := Receive(v, s, a).0;
    forall i | 0 <= i < |got.pending|
      ensures RightPending(v, got.arrived, got.pending[i])
    {
      if i < |s.pending| {
        assert RightPending(v, s.arrived, s.pending[i]);
      }
    }
  }

  lemma {:induction false} RunsAreTracked(v: Service, turns: seq<Turn>)
    ensures Tracked(v, Run(v, turns), Touched(v, turns), HitTurns(v, turns))
  {
    if turns != [] {
      var before := turns[..|turns| - 1];
      RunsAreTracked(v, before);
      TurnIsTracked(v, Run(v, before), turns[|turns| - 1], Touched(v, before), HitTurns(v, before));
    }
  }

  // ----- What clients see -----

  /** The cache never exceeds its size and holds, in the order of their last touch, exactly the keys touched with fewer than
      `cacheSize` other keys touched since. */
  lemma CacheIsLeastRecentlyUsed(v: Service, turns: seq<Turn>)
    ensures var s, touches := Run(v, turns), Touched(v, turns);
      && |s.lru.order| <= v.cacheSize && Ordered(s.lru)
      && s.lru.order == Newest(Recency(touches), v.cacheSize)
      && forall k :: k in s.lru.cache <==> k in touches && |Since(touches, k)| < v.cacheSize
  {
    RunsAreTracked(v, turns);
    forall k
      ensures k in Run(v, turns).lru.cache <==> Recent(v, Touched(v, turns), k)
    {
      CachedIff(v, Run(v, turns).lru, Touched(v, turns), k);
    }
  }

  lemma NextRun(v: Service, turns: seq<Turn>, turn: Turn)
    ensures Run(v, turns + [turn]) == Step(v, Run(v, turns), turn)
  {
    assert (turns + [turn])[..|turns|] == turns;
  }

  /** Workers' answers go to requests whose workers have finished. */
  lemma {:induction false} OnlyFinishedAreSent(v: Service, s: State, done: set<nat>, k: nat)
    requires k <= |s.pending|
    ensures s.sent <= Drain(v, s, done, k).sent
    ensures forall i :: |s.sent| <= i < |Drain(v, s, done, k).sent| ==> Drain(v, s, done, k).sent[i].id in done
    decreases |s.pending| - k
  {
    if k < |s.pending| && !s.over {
      if s.pending[k].id in done {
        OnlyFinishedAreSent(v, Complete(v, s, k), done, k);
      } else {
        OnlyFinishedAreSent(v, s, done, k + 1);
      }
    }
  }

  /** A call whose worker has not finished in the turn in which it came in is answered in that turn exactly when its key is one of the
      `cacheSize` touched last; that answer is then the only message of the turn. */
  lemma AnsweredAtOnceIff(v: Service, turns: seq<Turn>, turn: Turn)
    requires !Run(v, turns).over && turn.arrival.Some? && IsCall(v.env, turn.arrival.value.raw)
    requires |Run(v, turns).arrived| !in turn.done
    ensures var s, next, id := Run(v, turns), Run(v, turns + [turn]), |Run(v, turns).arrived|;
      && (Answered(next, id) <==> Recent(v, Touched(v, turns), turn.arrival.value.raw))
      && (Answered(next, id) ==> |next.sent| == |s.sent| + 1 && next.sent[|s.sent|].id == id && next.pending == s.pending)
  {
    var s, a := Run(v, turns), turn.arrival.value;
    NextRun(v, turns, turn);
    RunsAreTracked(v, turns);
    RunsAreSound(v, turns);
    CachedIff(v, s.lru, Touched(v, turns), a.raw);
    var id, next := |s.arrived|, Run(v, turns + [turn]);
    assert forall i :: 0 <= i < |s.sent| ==> RightSent(v, s.arrived, s.sent[i]);
    if a.raw in s.lru.cache {
      assert next.sent[|s.sent|].id == id;
    } else {
      OnlyFinishedAreSent(v, Receive(v, s, a).0, turn.done, 0);
      assert forall i :: 0 <= i < |s.sent| ==> next.sent[i] == s.sent[i];
    }
  }

  /** The hits are the calls that found their key cached, and the misses are the other answers of the tokenizer. */
  lemma CountersCount(v: Service, turns: seq<Turn>)
    ensures Run(v, turns).hits == HitTurns(v, turns)
    ensures Run(v, turns).misses == TokenReplies(Run(v, turns).sent) - HitTurns(v, turns)
  {
    RunsAreTracked(v, turns);
    RunsAreSound(v, turns);
  }

  lemma CacheCounts(v: Service, turns: seq<Turn>)
    ensures var keys := |set k | k in Touched(v, turns)|;
      |Run(v, turns).lru.cache| == if keys < v.cacheSize then keys else v.cacheSize
  {
    var l, touches := Run(v, turns).lru, Touched(v, turns);
    RunsAreTracked(v, turns);
    AsManyKeys(l.order, l.cache.Keys);
    RecencyHoldsTouched(touches);
    RecencyHasNoDuplicates(touches);
    AsManyKeys(Recency(touches), set k | k in touches);
  }

  lemma NonePendingLost(v: Service, turns: seq<Turn>)
    requires !Run(v, turns).over
    ensures |Run(v, turns).pending| == |Run(v, turns).arrived| - |Run(v, turns).sent|
  {
    RunsAreSound(v, turns);
  }

  /** A statistics reply tells hits and misses so far, the smaller of the cache size and the number of different keys touched, the cache
      size, the number of workers, at least one, and the requests not answered yet.  It is the only message of its turn. */
  lemma StatisticsAreRight(v: Service, turns: seq<Turn>, turn: Turn, a: Arrival)
    requires !Run(v, turns).over && turn.arrival == Some(a) && OpOf(v.env, a.raw) == "stats"
    ensures Run(v, turns + [turn]).sent == Run(v, turns).sent + [Sent(|Run(v, turns).arrived|, a.route, Stats(v, Run(v, turns)))]
    ensures var stats, keys := Stats(v, Run(v, turns)), |set k | k in Touched(v, turns)|;
      && stats.hits == HitTurns(v, turns) && stats.misses == TokenReplies(Run(v, turns).sent) - HitTurns(v, turns)
      && stats.size == (if keys < v.cacheSize then keys else v.cacheSize) && stats.maxSize == v.cacheSize
      && stats.workers == (if v.workers < 1 then 1 else v.workers)
      && stats.pending == |Run(v, turns).arrived| - |Run(v, turns).sent|
  {
    NextRun(v, turns, turn);
    CountersCount(v, turns);
    CacheCounts(v, turns);
    NonePendingLost(v, turns);
  }
}
