/** The tokenizer cache service: the event loop `_serve_tokenizer` of ajet/tokenizer/service.py.

Requests arrive one per turn of the loop, worker threads complete them in any order, and a hit is answered at once.  Whatever
the interleaving, the service answers as if every request had been given to the tokenizer directly. */
module TokenizerService {
  import opened PyList

  type Bytes = seq<bv8>
  type Route = seq<Bytes>

  /** A request frame, unpacked: its operation, and whatever else it carries. */
  datatype Request = Request(op: string, arguments: Bytes)

  /** A call into the tokenizer: a result that packs, an exception, or a result that cannot be packed. */
  datatype Tokenized = Packed(reply: Bytes) | Failed(error: Bytes) | Unpackable

  datatype Payload =
    | Reply(bytes: Bytes)
    | Statistics(hits: nat, misses: nat, size: nat, maxSize: nat, workers: nat, pending: nat)
    | Bye

  /** What the loop does not compute itself: unpacking, the tokenizer, and packed error messages. */
  datatype Env = Env(
    unpack: Bytes -> Option<Request>, tokenizer: Request -> Tokenized,
    badRequest: Bytes -> Bytes, unknownOp: string -> Bytes)

  predicate CacheOp(op: string) {
    op == "encode" || op == "decode" || op == "batch_decode" || op == "apply_chat_template"
  }

  /** The operation as the loop reads it; a frame that does not unpack has none. */
  function OpOf(env: Env, raw: Bytes): string {
    match env.unpack(raw) case None => "None" case Some(req) => req.op
  }

  /** `_dispatch`: the packed answer and the operation it reports, or nothing when packing raises. */
  function Dispatch(env: Env, raw: Bytes): Option<(Bytes, string)> {
    match env.unpack(raw)
    case None => Some((env.badRequest(raw), ""))
    case Some(req) =>
      if !CacheOp(req.op) then Some((env.unknownOp(req.op), req.op))
      else
        match env.tokenizer(req)
        case Packed(reply) => Some((reply, req.op))
        case Failed(error) => Some((error, req.op))
        case Unpackable => None
  }

  // ----- The cache -----

  /** An `OrderedDict`: keys from the one next to be evicted to the newest. */
  datatype Lru = Lru(order: seq<Bytes>, cache: map<Bytes, Payload>)

  ghost predicate NoDuplicates(keys: seq<Bytes>) {
    forall i, j :: 0 <= i < j < |keys| ==> keys[i] != keys[j]
  }

  ghost predicate Ordered(l: Lru) {
    NoDuplicates(l.order) && forall k :: k in l.cache <==> k in l.order
  }

  function Without(keys: seq<Bytes>, k: Bytes): seq<Bytes> {
    if keys == [] then []
    else if keys[0] == k then Without(keys[1..], k)
    else [keys[0]] + Without(keys[1..], k)
  }

  /** `cache.move_to_end(raw)` */
  function MoveToEnd(l: Lru, raw: Bytes): Lru {
    l.(order := Without(l.order, raw) + [raw])
  }

  /** `while len(cache) > cache_size: cache.popitem(last=False)` */
  function Evict(l: Lru, size: nat): Lru
    decreases |l.order|
  {
    if |l.order| > size then Evict(Lru(l.order[1..], l.cache - {l.order[0]}), size) else l
  }

  /** `cache[raw] = payload`: a key already there keeps its place. */
  function Assign(l: Lru, raw: Bytes, payload: Payload): Lru {
    Lru(if raw in l.cache then l.order else l.order + [raw], l.cache[raw := payload])
  }

  // ----- States and turns -----

  datatype Pending = Pending(id: nat, route: Route, raw: Bytes, op: string)

  datatype Sent = Sent(id: nat, route: Route, payload: Payload)

  datatype Arrival = Arrival(route: Route, raw: Bytes)

  /** `arrived` and `sent` record the run; ids number the arrivals.  `over` says that the loop has ended: by a shutdown,
      or by an exception (`crashed`) when a worker's result could not be packed. */
  datatype State = State(
    lru: Lru, pending: seq<Pending>, hits: nat, misses: nat,
    arrived: seq<Arrival>, sent: seq<Sent>, over: bool, crashed: bool)

  /** One turn of the loop: perhaps a request, and the requests whose workers have finished by the time the loop looks. */
  datatype Turn = Turn(arrival: Option<Arrival>, done: set<nat>)

  datatype Service = Service(env: Env, cacheSize: nat, workers: int)

  /** `max(1, workers)` */
  function Workers(v: Service): nat {
    if v.workers > 1 then v.workers else 1
  }

  const FRESH: State := State(Lru([], map[]), [], 0, 0, [], [], false, false)

  /** The hit rate the service also reports is made of the first two. */
  function Stats(v: Service, s: State): Payload {
    Statistics(s.hits, s.misses, |s.lru.cache|, v.cacheSize, Workers(v), |s.pending|)
  }

  /** The worker's answer to `pending[k]` is taken, cached if it may be, and sent. */
  function Complete(v: Service, s: State, k: nat): State
    requires k < |s.pending|
  {
    var p := s.pending[k];
    var s := s.(pending := s.pending[..k] + s.pending[k + 1..]);
    match Dispatch(v.env, p.raw)
    case None => s.(over := true, crashed := true)
    case Some((bytes, resultOp)) =>
      var cached := CacheOp(if resultOp != "" then resultOp else p.op);
      var lru := if cached then Evict(Assign(s.lru, p.raw, Reply(bytes)), v.cacheSize) else s.lru;
      s.(lru := lru, misses := s.misses + 1, sent := s.sent + [Sent(p.id, p.route, Reply(bytes))])
  }

  /** `for future in done: ...`, over the pending requests from the k-th on. */
  function Drain(v: Service, s: State, done: set<nat>, k: nat): State
    requires k <= |s.pending|
    decreases |s.pending| - k
  {
    if k == |s.pending| || s.over then s
    else if s.pending[k].id in done then Drain(v, Complete(v, s, k), done, k)
    else Drain(v, s, done, k + 1)
  }

  /** A request comes in; the flag says whether the loop goes on to look for finished workers. */
  function Receive(v: Service, s: State, a: Arrival): (State, bool) {
    var id := |s.arrived|;
    var op := OpOf(v.env, a.raw);
    var got := s.(arrived := s.arrived + [a]);
    if op == "shutdown" then (got.(sent := s.sent + [Sent(id, a.route, Bye)], over := true), false)
    else if op == "stats" then (got.(sent := s.sent + [Sent(id, a.route, Stats(v, s))]), false)
    else if a.raw in s.lru.cache then
      (got.(lru := MoveToEnd(s.lru, a.raw), hits := s.hits + 1,
            sent := s.sent + [Sent(id, a.route, s.lru.cache[a.raw])]), false)
    else (got.(pending := s.pending + [Pending(id, a.route, a.raw, op)]), true)
  }

  function Step(v: Service, s: State, turn: Turn): State {
    if s.over then s
    else
      match turn.arrival
      case None => Drain(v, s, turn.done, 0)
      case Some(a) =>
        var (got, looks) := Receive(v, s, a);
        if looks then Drain(v, got, turn.done, 0) else got
  }

  function Run(v: Service, turns: seq<Turn>): State {
    if turns == [] then FRESH else Step(v, Run(v, turns[..|turns| - 1]), turns[|turns| - 1])
  }

  // ----- The loop itself -----

  class Server {
    const service: Service
    var order: seq<Bytes>
    var cache: map<Bytes, Payload>
    var pending: seq<Pending>
    var hits: nat
    var misses: nat
    var arrived: seq<Arrival>
    var over: bool
    var crashed: bool
    ghost var sent: seq<Sent>

    ghost function View(): State
      reads this
    {
      State(Lru(order, cache), pending, hits, misses, arrived, sent, over, crashed)
    }

    constructor (service: Service)
      ensures this.service == service && View() == FRESH
    {
      this.service := service;
      order, cache, pending, hits, misses, over, crashed := [], map[], [], 0, 0, false, false;
      arrived, sent := [], [];
    }

    method Send(id: nat, route: Route, payload: Payload)
      modifies this`sent
      ensures sent == old(sent) + [Sent(id, route, payload)]
    {
      sent := sent + [Sent(id, route, payload)];
    }

    method RemoveFromOrder(raw: Bytes)
      modifies this`order
      ensures order == Without(old(order), raw)
    {
      var kept: seq<Bytes> := [];
      for i := 0 to |order|
        invariant order == old(order)
        invariant Without(order, raw) == kept + Without(order[i..], raw)
      {
        assert order[i..][0] == order[i] && order[i..][1..] == order[i + 1..];
        if order[i] != raw {
          kept := kept + [order[i]];
        }
      }
      order := kept;
    }

    method StoreInCache(raw: Bytes, payload: Payload)
      modifies this`order, this`cache
      ensures Lru(order, cache) == Evict(Assign(Lru(old(order), old(cache)), raw, payload), service.cacheSize)
    {
      if raw !in cache {
        order := order + [raw];
      }
      cache := cache[raw := payload];
      while |order| > service.cacheSize
        invariant Evict(Lru(order, cache), service.cacheSize)
               == Evict(Assign(Lru(old(order), old(cache)), raw, payload), service.cacheSize)
      {
        order, cache := order[1..], cache - {order[0]};
      }
    }

    method TakeResult(k: nat)
      requires k < |pending|
      modifies this
      ensures View() == Complete(service, old(View()), k)
    {
      var p := pending[k];
      pending := pending[..k] + pending[k + 1..];
      match Dispatch(service.env, p.raw) {
        case None =>
          over, crashed := true, true;
        case Some((bytes, resultOp)) =>
          misses := misses + 1;
          var cacheOp := if resultOp != "" then resultOp else p.op;
          if CacheOp(cacheOp) {
            StoreInCache(p.raw, Reply(bytes));
          }
          Send(p.id, p.route, Reply(bytes));
      }
    }

    method TakeResults(done: set<nat>)
      modifies this
      ensures View() == Drain(service, old(View()), done, 0)
    {
      var k := 0;
      while k < |pending| && !over
        invariant k <= |pending|
        invariant Drain(service, View(), done, k) == Drain(service, old(View()), done, 0)
        decreases |pending| - k
      {
        if pending[k].id in done {
          TakeResult(k);
        } else {
          k := k + 1;
        }
      }
    }

    /** A request has come in; the result says whether the loop goes on to look for finished workers. */
    method Handle(a: Arrival) returns (looks: bool)
      modifies this
      ensures (View(), looks) == Receive(service, old(View()), a)
    {
      looks := false;
      var number := |arrived|;
      arrived := arrived + [a];
      var op := OpOf(service.env, a.raw);
      if op == "shutdown" {
        Send(number, a.route, Bye);
        over := true;
      } else if op == "stats" {
        Send(number, a.route, Statistics(hits, misses, |cache|, service.cacheSize, Workers(service), |pending|));
      } else if a.raw in cache {
        RemoveFromOrder(a.raw);
        order := order + [a.raw];
        hits := hits + 1;
        Send(number, a.route, cache[a.raw]);
      } else {
        pending := pending + [Pending(number, a.route, a.raw, op)];
        looks := true;
      }
    }

    method ServeTurn(turn: Turn)
      modifies this
      ensures View() == Step(service, old(View()), turn)
    {
      if over {
        return;
      }
      if turn.arrival.Some? {
        var looks := Handle(turn.arrival.value);
        if !looks {
          return;
        }
      }
      TakeResults(turn.done);
    }
  }

  // ----- One invariant for every run -----

  predicate IsCall(env: Env, raw: Bytes) {
    OpOf(env, raw) != "shutdown" && OpOf(env, raw) != "stats"
  }

  /** What is cached under this key is what the tokenizer would answer. */
  ghost predicate Direct(v: Service, key: Bytes, payload: Payload) {
    && IsCall(v.env, key) && CacheOp(OpOf(v.env, key))
    && Dispatch(v.env, key).Some? && payload == Reply(Dispatch(v.env, key).value.0)
  }

  ghost predicate CacheIsDirect(v: Service, l: Lru) {
    forall k :: k in l.cache ==> Direct(v, k, l.cache[k])
  }

  /** The right answer to this request. */
  ghost predicate Answers(v: Service, raw: Bytes, payload: Payload) {
    if OpOf(v.env, raw) == "shutdown" then payload == Bye
    else if OpOf(v.env, raw) == "stats" then payload.Statistics?
    else Dispatch(v.env, raw).Some? && payload == Reply(Dispatch(v.env, raw).value.0)
  }

  ghost predicate SentAreRight(v: Service, s: State) {
    forall i :: 0 <= i < |s.sent| ==> RightSent(v, s.arrived, s.sent[i])
  }

  ghost predicate RightSent(v: Service, arrived: seq<Arrival>, e: Sent) {
    e.id < |arrived| && e.route == arrived[e.id].route && Answers(v, arrived[e.id].raw, e.payload)
  }

  ghost predicate RightPending(v: Service, arrived: seq<Arrival>, p: Pending) {
    p.id < |arrived| && Arrival(p.route, p.raw) == arrived[p.id] && p.op == OpOf(v.env, p.raw) && IsCall(v.env, p.raw)
  }

  ghost predicate PendingAreRight(v: Service, s: State) {
    forall i :: 0 <= i < |s.pending| ==> RightPending(v, s.arrived, s.pending[i])
  }

  function SentIds(sent: seq<Sent>): seq<nat> {
    seq(|sent|, i requires 0 <= i < |sent| => sent[i].id)
  }

  function PendingIds(pending: seq<Pending>): seq<nat> {
    seq(|pending|, i requires 0 <= i < |pending| => pending[i].id)
  }

  /** The ids of all requests answered or pending. */
  function Ids(s: State): multiset<nat> {
    multiset(SentIds(s.sent)) + multiset(PendingIds(s.pending))
  }

  /** Every arrival so far has been answered once or is pending; a result that cannot be packed loses its request. */
  ghost predicate Accounted(s: State) {
    var ids := Ids(s);
    forall id :: if 0 <= id < |s.arrived| && !s.crashed then ids[id] == 1 else ids[id] <= (if 0 <= id < |s.arrived| then 1 else 0)
  }

  // ----- The cache keeps its newest keys -----

  /** The newest `size` keys. */
  function Newest(keys: seq<Bytes>, size: nat): seq<Bytes> {
    if |keys| <= size then keys else keys[|keys| - size..]
  }

  lemma {:induction false} WithoutKeeps(keys: seq<Bytes>, k: Bytes)
    requires NoDuplicates(keys)
    ensures NoDuplicates(Without(keys, k))
    ensures forall x :: x in Without(keys, k) <==> x in keys && x != k
    ensures |Without(keys, k)| == if k in keys then |keys| - 1 else |keys|
    ensures k !in keys ==> Without(keys, k) == keys
  {
    if keys != [] {
      WithoutKeeps(keys[1..], k);
      assert keys == [keys[0]] + keys[1..];
      assert keys[0] !in keys[1..];
      assert keys[0] !in Without(keys[1..], k);
    }
  }

  lemma {:induction false} EvictKeepsNewest(l: Lru, size: nat)
    requires Ordered(l)
    ensures Ordered(Evict(l, size)) && Evict(l, size).order == Newest(l.order, size)
    ensures forall k :: k in Evict(l, size).cache ==> k in l.cache && Evict(l, size).cache[k] == l.cache[k]
    decreases |l.order|
  {
    if |l.order| > size {
      var next := Lru(l.order[1..], l.cache - {l.order[0]});
      DropOldest(l);
      EvictKeepsNewest(next, size);
    }
  }

  lemma DropOldest(l: Lru)
    requires Ordered(l) && l.order != []
    ensures Ordered(Lru(l.order[1..], l.cache - {l.order[0]}))
  {
    var next := Lru(l.order[1..], l.cache - {l.order[0]});
    forall k | k in next.cache
      ensures k in next.order
    {
      var i :| 0 <= i < |l.order| && l.order[i] == k;
      assert next.order[i - 1] == k;
    }
  }

  // ----- Every run is sound -----

  /** How many of the messages sent are answers of the tokenizer, from the cache or not. */
  function TokenReplies(sent: seq<Sent>): nat {
    if sent == [] then 0
    else TokenReplies(sent[..|sent| - 1]) + (if sent[|sent| - 1].payload.Reply? then 1 else 0)
  }

  ghost predicate CacheIsSound(v: Service, s: State) {
    Ordered(s.lru) && CacheIsDirect(v, s.lru)
  }

  ghost predicate RepliesAreSound(v: Service, s: State) {
    && SentAreRight(v, s) && PendingAreRight(v, s) && Accounted(s)
    && s.hits + s.misses == TokenReplies(s.sent)
    && (s.crashed ==> s.over)
    && (!s.crashed ==> |s.sent| + |s.pending| == |s.arrived|)
  }

  lemma MovedIsOrdered(l: Lru, raw: Bytes)
    requires Ordered(l) && raw in l.cache
    ensures Ordered(MoveToEnd(l, raw))
  {
    WithoutKeeps(l.order, raw);
  }

  /** Storing what the tokenizer answered keeps the cache in order, its values direct answers. */
  lemma StoreIsSound(v: Service, l: Lru, raw: Bytes, payload: Payload)
    requires Ordered(l) && CacheIsDirect(v, l) && Direct(v, raw, payload)
    ensures Ordered(Evict(Assign(l, raw, payload), v.cacheSize)) && CacheIsDirect(v, Evict(Assign(l, raw, payload), v.cacheSize))
  {
    assert Ordered(Assign(l, raw, payload));
    EvictKeepsNewest(Assign(l, raw, payload), v.cacheSize);
  }

  /** A worker reports an operation that may be cached exactly when the loop itself read such an operation. */
  lemma CachedOperation(env: Env, raw: Bytes)
    requires Dispatch(env, raw).Some?
    ensures var op := Dispatch(env, raw).value.1; CacheOp(if op != "" then op else OpOf(env, raw)) == CacheOp(OpOf(env, raw))
  {
  }

  lemma CompleteKeepsCache(v: Service, s: State, k: nat)
    requires k < |s.pending| && CacheIsSound(v, s) && RightPending(v, s.arrived, s.pending[k])
    ensures CacheIsSound(v, Complete(v, s, k))
  {
    var p := s.pending[k];
    var d := Dispatch(v.env, p.raw);
    if d.Some? {
      CachedOperation(v.env, p.raw);
      if CacheOp(p.op) {
        StoreIsSound(v, s.lru, p.raw, Reply(d.value.0));
      }
    }
  }

  lemma SendOne(v: Service, s: State, e: Sent)
    requires SentAreRight(v, s) && RightSent(v, s.arrived, e)
    ensures SentAreRight(v, s.(sent := s.sent + [e]))
    ensures TokenReplies(s.sent + [e]) == TokenReplies(s.sent) + (if e.payload.Reply? then 1 else 0)
    ensures multiset(SentIds(s.sent + [e])) == multiset(SentIds(s.sent)) + multiset{e.id}
  {
    assert (s.sent + [e])[..|s.sent|] == s.sent;
    assert SentIds(s.sent + [e]) == SentIds(s.sent) + [e.id];
  }

  lemma RemoveOne(pending: seq<Pending>, k: nat)
    requires k < |pending|
    ensures multiset(PendingIds(pending)) == multiset(PendingIds(pending[..k] + pending[k + 1..])) + multiset{pending[k].id}
  {
    var ids := PendingIds(pending);
    assert ids == ids[..k] + [ids[k]] + ids[k + 1..];
    assert PendingIds(pending[..k] + pending[k + 1..]) == ids[..k] + ids[k + 1..];
  }

  lemma CompleteAccounts(v: Service, s: State, k: nat)
    requires k < |s.pending| && Accounted(s) && !s.crashed
    ensures Accounted(Complete(v, s, k))
  {
    var p, next := s.pending[k], Complete(v, s, k);
    RemoveOne(s.pending, k);
    if Dispatch(v.env, p.raw).Some? {
      assert SentIds(next.sent) == SentIds(s.sent) + [p.id];
      assert Ids(next) == Ids(s);
    } else {
      assert Ids(next) + multiset{p.id} == Ids(s);
      forall id
        ensures Ids(next)[id] <= Ids(s)[id]
      {
        assert (Ids(next) + multiset{p.id})[id] == Ids(s)[id];
      }
    }
  }

  lemma CompleteKeepsReplies(v: Service, s: State, k: nat)
    requires k < |s.pending| && RepliesAreSound(v, s) && !s.over
    ensures RepliesAreSound(v, Complete(v, s, k))
  {
    var p, next := s.pending[k], Complete(v, s, k);
    assert RightPending(v, s.arrived, p);
    CompleteAccounts(v, s, k);
    assert PendingAreRight(v, next);
    var d := Dispatch(v.env, p.raw);
    if d.Some? {
      SendOne(v, s, Sent(p.id, p.route, Reply(d.value.0)));
    }
  }

  lemma {:induction false} DrainIsSound(v: Service, s: State, done: set<nat>, k: nat)
    requires k <= |s.pending| && CacheIsSound(v, s) && RepliesAreSound(v, s)
    ensures CacheIsSound(v, Drain(v, s, done, k)) && RepliesAreSound(v, Drain(v, s, done, k))
    ensures Drain(v, s, done, k).arrived == s.arrived
    decreases |s.pending| - k
  {
    if k < |s.pending| && !s.over {
      if s.pending[k].id in done {
        assert RightPending(v, s.arrived, s.pending[k]);
        CompleteKeepsCache(v, s, k);
        CompleteKeepsReplies(v, s, k);
        DrainIsSound(v, Complete(v, s, k), done, k);
      } else {
        DrainIsSound(v, s, done, k + 1);
      }
    }
  }

  lemma ReceiveKeepsCache(v: Service, s: State, a: Arrival)
    requires CacheIsSound(v, s)
    ensures CacheIsSound(v, Receive(v, s, a).0)
  {
    if IsCall(v.env, a.raw) && a.raw in s.lru.cache {
      MovedIsOrdered(s.lru, a.raw);
    }
  }

  lemma OneMoreArrived(v: Service, s: State, a: Arrival)
    requires RepliesAreSound(v, s)
    ensures var got := s.(arrived := s.arrived + [a]); SentAreRight(v, got) && PendingAreRight(v, got)
  {
    var arrived := s.arrived + [a];
    forall i | 0 <= i < |s.sent|
      ensures RightSent(v, arrived, s.sent[i])
    {
      assert RightSent(v, s.arrived, s.sent[i]);
    }
    forall i | 0 <= i < |s.pending|
      ensures RightPending(v, arrived, s.pending[i])
    {
      assert RightPending(v, s.arrived, s.pending[i]);
    }
  }

  lemma ReceiveAccounts(v: Service, s: State, a: Arrival)
    requires Accounted(s) && !s.crashed
    ensures Accounted(Receive(v, s, a).0)
  {
    var next, id := Receive(v, s, a).0, |s.arrived|;
    if next.sent == s.sent {
      assert PendingIds(next.pending) == PendingIds(s.pending) + [id];
    } else {
      assert SentIds(next.sent) == SentIds(s.sent) + [id];
    }
    OneMoreId(s, next);
  }

  lemma OneMoreId(s: State, next: State)
    requires Accounted(s) && !s.crashed && !next.crashed && |next.arrived| == |s.arrived| + 1
    requires Ids(next) == Ids(s) + multiset{|s.arrived|}
    ensures Accounted(next)
  {
    assert Ids(s)[|s.arrived|] == 0;
  }

  /** The request is answered at once. */
  lemma AnswerAtOnce(v: Service, s: State, a: Arrival, payload: Payload, next: State)
    requires RepliesAreSound(v, s) && Answers(v, a.raw, payload) && Accounted(next) && !s.crashed && !next.crashed
    requires next.arrived == s.arrived + [a] && next.pending == s.pending
    requires next.sent == s.sent + [Sent(|s.arrived|, a.route, payload)]
    requires next.hits + next.misses == s.hits + s.misses + (if payload.Reply? then 1 else 0)
    ensures RepliesAreSound(v, next)
  {
    OneMoreArrived(v, s, a);
    SendOne(v, s.(arrived := s.arrived + [a]), Sent(|s.arrived|, a.route, payload));
  }

  /** The request is handed to a worker. */
  lemma HandOver(v: Service, s: State, a: Arrival, next: State)
    requires RepliesAreSound(v, s) && IsCall(v.env, a.raw) && Accounted(next) && !s.crashed && !next.crashed
    requires next.arrived == s.arrived + [a] && next.sent == s.sent
    requires next.pending == s.pending + [Pending(|s.arrived|, a.route, a.raw, OpOf(v.env, a.raw))]
    requires next.hits == s.hits && next.misses == s.misses
    ensures RepliesAreSound(v, next)
  {
    OneMoreArrived(v, s, a);
  }

  lemma ReceiveKeepsReplies(v: Service, s: State, a: Arrival)
    requires RepliesAreSound(v, s) && CacheIsDirect(v, s.lru) && !s.over
    ensures RepliesAreSound(v, Receive(v, s, a).0)
  {
    var next := Receive(v, s, a).0;
    ReceiveAccounts(v, s, a);
    if OpOf(v.env, a.raw) == "shutdown" {
      AnswerAtOnce(v, s, a, Bye, next);
    } else if OpOf(v.env, a.raw) == "stats" {
      AnswerAtOnce(v, s, a, Stats(v, s), next);
    } else if a.raw in s.lru.cache {
      assert Direct(v, a.raw, s.lru.cache[a.raw]);
      AnswerAtOnce(v, s, a, s.lru.cache[a.raw], next);
    } else {
      HandOver(v, s, a, next);
    }
  }

  lemma {:induction false} RunsAreSound(v: Service, turns: seq<Turn>)
    ensures CacheIsSound(v, Run(v, turns)) && RepliesAreSound(v, Run(v, turns))
  {
    if turns != [] {
      var s := Run(v, turns[..|turns| - 1]);
      var turn := turns[|turns| - 1];
      RunsAreSound(v, turns[..|turns| - 1]);
      if !s.over {
        if turn.arrival.Some? {
          var a := turn.arrival.value;
          ReceiveKeepsCache(v, s, a);
          ReceiveKeepsReplies(v, s, a);
          DrainIsSound(v, Receive(v, s, a).0, turn.done, 0);
        } else {
          DrainIsSound(v, s, turn.done, 0);
        }
      }
    }
  }

  // ----- What clients see -----

  ghost predicate Answered(s: State, id: nat) {
    exists i :: 0 <= i < |s.sent| && s.sent[i].id == id
  }

  /** Refinement: whatever the arrivals and the order of completion, every message sent answers the request of its own route
      as a direct call would, and no request is answered twice.  Without a crash every request is answered or still pending, so
      when nothing is pending every request has been answered. */
  lemma RepliesRefineDispatch(v: Service, turns: seq<Turn>)
    ensures var s := Run(v, turns);
      && (forall i :: 0 <= i < |s.sent| ==> RightSent(v, s.arrived, s.sent[i]))
      && (forall i, j :: 0 <= i < j < |s.sent| ==> s.sent[i].id != s.sent[j].id)
      && (!s.crashed && s.pending == [] ==> forall id :: 0 <= id < |s.arrived| ==> Answered(s, id))
  {
    RunsAreSound(v, turns);
    var s := Run(v, turns);
    var ids := SentIds(s.sent);
    forall id
      ensures multiset(ids)[id] <= 1
    {
      assert Ids(s)[id] <= 1;
    }
    OnceMeansDistinct(ids);
    forall i, j | 0 <= i < j < |s.sent|
      ensures s.sent[i].id != s.sent[j].id
    {
      assert ids[i] != ids[j];
    }
    if !s.crashed && s.pending == [] {
      forall id | 0 <= id < |s.arrived|
        ensures Answered(s, id)
      {
        assert Ids(s)[id] == 1;
        assert id in ids;
      }
    }
  }

  /** The answer a client gets: its tokenizer call's result or exception, or a message that the operation is unknown or the frame does not
      unpack, or what the two operations of the service itself give. */
  ghost predicate IsAnswer(env: Env, raw: Bytes, payload: Payload) {
    match env.unpack(raw)
    case None => payload == Reply(env.badRequest(raw))
    case Some(req) =>
      if req.op == "shutdown" then payload == Bye
      else if req.op == "stats" then payload.Statistics?
      else if req.op in ["encode", "decode", "batch_decode", "apply_chat_template"] then
        (match env.tokenizer(req)
         case Packed(reply) => payload == Reply(reply)
         case Failed(error) => payload == Reply(error)
         case Unpackable => false)
      else payload == Reply(env.unknownOp(req.op))
  }

  lemma AnswersAreAnswers(v: Service, raw: Bytes, payload: Payload)
    ensures Answers(v, raw, payload) <==> IsAnswer(v.env, raw, payload)
  {
  }

  /** Every message sent in a run is the answer to the request it goes to, on that request's route. */
  lemma RepliesAreAnswers(v: Service, turns: seq<Turn>, i: nat)
    requires i < |Run(v, turns).sent|
    ensures var s := Run(v, turns);
      var e := s.sent[i];
      e.id < |s.arrived| && e.route == s.arrived[e.id].route && IsAnswer(v.env, s.arrived[e.id].raw, e.payload)
  {
    var s := Run(v, turns);
    RunsAreSound(v, turns);
    assert RightSent(v, s.arrived, s.sent[i]);
    AnswersAreAnswers(v, s.arrived[s.sent[i].id].raw, s.sent[i].payload);
  }

  lemma OnceMeansDistinct(ids: seq<nat>)
    requires forall id :: multiset(ids)[id] <= 1
    ensures forall i, j :: 0 <= i < j < |ids| ==> ids[i] != ids[j]
  {
    forall i, j | 0 <= i < j < |ids|
      ensures ids[i] != ids[j]
    {
      assert ids == ids[..j] + [ids[j]] + ids[j + 1..];
      assert ids[..j][i] == ids[i];
      assert multiset(ids)[ids[j]] == multiset(ids[..j])[ids[j]] + 1 + multiset(ids[j + 1..])[ids[j]];
    }
  }

  /** Without a shutdown or a crash in the way, one turn in which all workers have finished answers everything. */
  lemma {:induction false} FinishedWorkersAreHeard(v: Service, s: State, done: set<nat>, k: nat)
    requires k <= |s.pending| && !s.over
    requires forall i :: k <= i < |s.pending| ==> s.pending[i].id in done && Dispatch(v.env, s.pending[i].raw).Some?
    ensures !Drain(v, s, done, k).over && Drain(v, s, done, k).pending == s.pending[..k]
    decreases |s.pending| - k
  {
    if k < |s.pending| {
      var next := Complete(v, s, k);
      assert next.pending[..k] == s.pending[..k];
      forall i | k <= i < |next.pending|
        ensures next.pending[i] == s.pending[i + 1]
      {
      }
      FinishedWorkersAreHeard(v, next, done, k);
    }
  }

  /** A request that neither ends the loop nor breaks it. */
  predicate Benign(v: Service, a: Arrival) {
    OpOf(v.env, a.raw) != "shutdown" && Dispatch(v.env, a.raw).Some?
  }

  lemma {:induction false} BenignDrain(v: Service, s: State, done: set<nat>, k: nat)
    requires k <= |s.pending| && !s.over && PendingAreRight(v, s)
    requires forall a :: a in s.arrived ==> Benign(v, a)
    ensures !Drain(v, s, done, k).over
    decreases |s.pending| - k
  {
    if k < |s.pending| {
      var p := s.pending[k];
      assert RightPending(v, s.arrived, p);
      assert s.arrived[p.id] in s.arrived;
      if p.id in done {
        BenignDrain(v, Complete(v, s, k), done, k);
      } else {
        BenignDrain(v, s, done, k + 1);
      }
    }
  }

  lemma {:induction false} ArrivedGrows(v: Service, s: State, turn: Turn)
    requires CacheIsSound(v, s) && RepliesAreSound(v, s)
    ensures s.arrived <= Step(v, s, turn).arrived
    ensures !s.over && turn.arrival.Some? ==> Receive(v, s, turn.arrival.value).0.arrived == Step(v, s, turn).arrived
  {
    if !s.over && turn.arrival.Some? {
      ReceiveKeepsCache(v, s, turn.arrival.value);
      ReceiveKeepsReplies(v, s, turn.arrival.value);
      DrainIsSound(v, Receive(v, s, turn.arrival.value).0, turn.done, 0);
    } else if !s.over {
      DrainIsSound(v, s, turn.done, 0);
    }
  }

  /** The loop only ends on a shutdown request or on a result that cannot be packed. */
  lemma {:induction false} BenignRunStaysUp(v: Service, turns: seq<Turn>)
    requires forall a :: a in Run(v, turns).arrived ==> Benign(v, a)
    ensures !Run(v, turns).over
  {
    if turns != [] {
      var s := Run(v, turns[..|turns| - 1]);
      var turn := turns[|turns| - 1];
      RunsAreSound(v, turns[..|turns| - 1]);
      ArrivedGrows(v, s, turn);
      BenignRunStaysUp(v, turns[..|turns| - 1]);
      if turn.arrival.Some? {
        var a := turn.arrival.value;
        var got := Receive(v, s, a).0;
        ReceiveKeepsReplies(v, s, a);
        assert got.arrived[|s.arrived|] == a && a in got.arrived;
        if got.pending != s.pending {
          BenignDrain(v, got, turn.done, 0);
        }
      } else {
        BenignDrain(v, s, turn.done, 0);
      }
    }
  }

  /** Exactly once: when no shutdown was requested and every result packs, a turn in which all workers have finished leaves every
      request answered, and by `RepliesRefineDispatch` answered once and rightly. */
  lemma EverythingIsAnswered(v: Service, turns: seq<Turn>, done: set<nat>)
    requires var s := Run(v, turns);
      (forall a :: a in s.arrived ==> Benign(v, a)) && forall i :: 0 <= i < |s.pending| ==> s.pending[i].id in done
    ensures var s := Run(v, turns + [Turn(None, done)]);
      s.arrived == Run(v, turns).arrived && forall id :: 0 <= id < |s.arrived| ==> Answered(s, id)
  {
    var s := Run(v, turns);
    var more := turns + [Turn(None, done)];
    assert more[..|turns|] == turns && more[|turns|] == Turn(None, done);
    RunsAreSound(v, turns);
    BenignRunStaysUp(v, turns);
    DrainIsSound(v, s, done, 0);
    forall i | 0 <= i < |s.pending|
      ensures Dispatch(v.env, s.pending[i].raw).Some?
    {
      assert RightPending(v, s.arrived, s.pending[i]) && s.arrived[s.pending[i].id] in s.arrived;
    }
    FinishedWorkersAreHeard(v, s, done, 0);
    RunsAreSound(v, more);
    RepliesRefineDispatch(v, more);
  }
}
