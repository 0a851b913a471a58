/**
 The transfer service and its Redis cache: a fast path in front of the unique transfer key.
 The request hash is taken as injective, so an entry keeps the request itself.
 */
module TransferService {
  import opened Wrappers
  import opened Ledger
  import opened Events
  import opened Postings
  import Protocol = PostingProtocol

  datatype Request = Request(source: AccountId, target: AccountId, amount: int)

  datatype Response = Response(transfer: nat, source: AccountId, target: AccountId, amount: int, status: RecordStatus)

  datatype Error = AccountNotFound | InsufficientBalance | IdempotencyConflict | KeyConsumed | ConstraintViolated

  datatype CacheEntry = CacheEntry(request: Request, response: Response)

  type Reply = Result<Response, Error>

  function RequestOf(row: TransferRow): Request { Request(row.source, row.target, row.amount) }

  function ResponseOf(row: TransferRow): Response {
    Response(row.id, row.source, row.target, row.amount, row.status)
  }

  /** Both accounts exist, they differ, and the amount is positive. */
  predicate ValidRequest(db: Db, req: Request) {
    req.source in db.accounts && req.target in db.accounts && req.source != req.target && req.amount > 0
  }

  /* ---- The service without Redis ---- */

  /** The answer to a request that met its key in the table. */
  function Replayed(row: TransferRow, req: Request): Reply {
    if RequestOf(row) != req then Err(IdempotencyConflict)
    else if row.status.RecordFailed? then Err(KeyConsumed)
    else Ok(ResponseOf(row))
  }

  function TransferDb(db: Db, req: Request, key: string): (Db, Reply) {
    if req.source !in db.accounts || req.target !in db.accounts then (db, Err(AccountNotFound))
    else if req.amount <= 0 || req.source == req.target then (db, Err(ConstraintViolated))
    else if key in db.transfers then (db, Replayed(db.transfers[key], req))
    else
      var balance := Balance(db.legs, req.source);
      var after := TransferEffect(db, req.source, req.target, req.amount, key, balance).value;
      (after, if balance < req.amount then Err(InsufficientBalance) else Ok(ResponseOf(after.transfers[key])))
  }

  /* ---- The service ---- */

  function TransferCached(db: Db, cache: map<string, CacheEntry>, req: Request, key: string)
    : (Db, map<string, CacheEntry>, Reply)
  {
    if key in cache then
      (db, cache, if cache[key].request != req then Err(IdempotencyConflict) else Ok(cache[key].response))
    else
      var (after, reply) := TransferDb(db, req, key);
      (after, if reply.Ok? then cache[key := CacheEntry(req, reply.value)] else cache, reply)
  }

  datatype Flush = Flushed | CheckFailed | KeyTaken

  class Service {
    var db: Db
    var cache: map<string, CacheEntry>

    /** Commits the record with its posting and event, or rolls back: CHECK constraints come before unique keys. */
    method Insert(row: TransferRow, key: string, p: Posting, payload: Payload) returns (outcome: Flush)
      requires row.id == db.nextId
      modifies this`db
      ensures outcome ==
              if row.amount <= 0 || row.source == row.target then CheckFailed
              else if key in old(db).transfers then KeyTaken else Flushed
      ensures db == if outcome.Flushed? then Append(old(db), p, payload).(transfers := old(db).transfers[key := row])
              else old(db)
    {
      if row.amount <= 0 || row.source == row.target {
        return CheckFailed;
      }
      if key in db.transfers {
        return KeyTaken;
      }
      db := Append(db, p, payload).(transfers := db.transfers[key := row]);
      return Flushed;
    }

    method Transfer(req: Request, key: string) returns (reply: Reply)
      modifies this
      ensures (db, cache, reply) == TransferCached(old(db), old(cache), req, key)
    {
      if key in cache {
        if cache[key].request != req {
          return Err(IdempotencyConflict);
        }
        return Ok(cache[key].response);
      }
      var lockOrder := if req.source <= req.target then [req.source, req.target] else [req.target, req.source];
      var i := 0;
      while i < 2
        invariant 0 <= i <= 2
        invariant forall j :: 0 <= j < i ==> lockOrder[j] in db.accounts
      {
        if lockOrder[i] !in db.accounts {
          return Err(AccountNotFound);
        }
        i := i + 1;
      }
      assert lockOrder[0] in db.accounts && lockOrder[1] in db.accounts;
      var balance := Balance(db.legs, req.source);
      var outcome: Flush;
      var row := TransferRow(db.nextId, req.source, req.target, req.amount, RecordCompleted);
      if balance < req.amount {
        row := row.(status := RecordFailed);
        outcome := Insert(row, key, NoPosting, TransferFailed(row.id));
        if outcome.Flushed? {
          return Err(InsufficientBalance);
        }
      } else {
        outcome := Insert(row, key, Posting(req.source, req.target, req.amount, TransferEntry, Some(row.id), None),
                          TransferCompleted(row.id, req.source, req.target, req.amount));
      }
      match outcome {
        case CheckFailed => return Err(ConstraintViolated);
        case KeyTaken =>
          row := db.transfers[key];
          if RequestOf(row) != req {
            return Err(IdempotencyConflict);
          }
          if row.status.RecordFailed? {
            return Err(KeyConsumed);
          }
        case Flushed =>
      }
      cache := cache[key := CacheEntry(req, ResponseOf(row))];
      return Ok(ResponseOf(row));
    }
  }

  /* ---- What the database answers ---- */

  /** A request that names a missing account, one account twice or no positive amount is refused before its key counts,
      and changes nothing; a refusal of any kind but for the balance leaves the tables as they were. */
  lemma Refused(db: Db, req: Request, key: string)
    ensures
      var (after, reply) := TransferDb(db, req, key);
      && (req.source !in db.accounts || req.target !in db.accounts <==> reply == Err(AccountNotFound))
      && (req.source in db.accounts && req.target in db.accounts && (req.amount <= 0 || req.source == req.target)
          <==> reply == Err(ConstraintViolated))
      && (reply.Err? && after != db ==> reply == Err(InsufficientBalance))
      && (Solvent(db.legs) ==> Solvent(after.legs))
  {
    forall a | a != SYSTEM_ACCOUNT && ValidRequest(db, req) && key !in db.transfers
      ensures
        Balance(TransferDb(db, req, key).0.legs, a)
        >= if a == req.source && req.amount > Balance(db.legs, a) then Balance(db.legs, a)
           else Balance(db.legs, a) - (if a == req.source then req.amount else 0)
    {
      FirstUse(db, req, key, a);
    }
    hide Balance;
  }

  /** One request per key, for good: after an answer that used up the key, the same request gets the same response (or
      learns that its key is consumed) and any other valid request is a conflict, and nothing more is posted, whatever
      was committed in between and however low the balance has become. */
  lemma KeyIsForever(db: Db, req: Request, key: string, later: Db, other: Request)
    requires TransferDb(db, req, key).1.Ok? || TransferDb(db, req, key).1 == Err(InsufficientBalance)
    requires Protocol.Extends(TransferDb(db, req, key).0, later)
    ensures
      var first := TransferDb(db, req, key).1;
      && (first.Ok? ==>
            && key in later.transfers
            && first.value == Response(later.transfers[key].id, req.source, req.target, req.amount,
                                       later.transfers[key].status))
      && TransferDb(later, req, key) == (later, if first.Ok? then first else Err(KeyConsumed))
      && (other != req && ValidRequest(later, other) ==>
          TransferDb(later, other, key) == (later, Err(IdempotencyConflict)))
  {
    hide Balance;
    var after := TransferDb(db, req, key).0;
    assert key in after.transfers && RequestOf(after.transfers[key]) == req;
    assert later.transfers[key] == after.transfers[key];
    assert req.source in later.accounts && req.target in later.accounts by {
      assert req.source in after.accounts && req.target in after.accounts;
    }
  }

  /** A first use succeeds exactly when the balance covers it, and then moves exactly the amount; the record, the reply
      and the one event name the request's accounts and amount under the new id, or the failed record's id. */
  lemma FirstUse(db: Db, req: Request, key: string, a: AccountId)
    requires ValidRequest(db, req) && key !in db.transfers
    ensures
      var (after, reply) := TransferDb(db, req, key);
      var n := db.nextId;
      && (reply.Ok? <==> req.amount <= Balance(db.legs, req.source))
      && reply == (if reply.Ok? then Ok(Response(n, req.source, req.target, req.amount, RecordCompleted))
                   else Err(InsufficientBalance))
      && after.transfers
         == db.transfers[key := TransferRow(n, req.source, req.target, req.amount,
                                            if reply.Ok? then RecordCompleted else RecordFailed)]
      && after.outbox
         == db.outbox
            + [Entry(Event(Fresh(n + 2), if reply.Ok? then TransferCompleted(n, req.source, req.target, req.amount)
                                         else TransferFailed(n)), n + 1)]
      && Balance(after.legs, a)
         == Balance(db.legs, a) + (if !reply.Ok? then 0 else if a == req.source then -req.amount
                                   else if a == req.target then req.amount else 0)
  {
    PostingMovesMoney(db.legs, db.nextId + 1, req.source, req.target, req.amount, TransferEntry, Some(db.nextId), None);
    assert db.legs + [] == db.legs;
    hide Balance;
  }

  /* ---- The cache ---- */

  /** The table's own constraints. */
  ghost predicate RowsValid(db: Db) {
    forall k :: k in db.transfers ==>
      ValidRequest(db, RequestOf(db.transfers[k])) && !db.transfers[k].status.RecordPending?
  }

  /** Every entry is the request and the response of a committed, completed row. */
  ghost predicate Coherent(db: Db, cache: map<string, CacheEntry>) {
    forall k :: k in cache ==>
      && k in db.transfers && db.transfers[k].status.RecordCompleted?
      && cache[k] == CacheEntry(RequestOf(db.transfers[k]), ResponseOf(db.transfers[k]))
  }

  /** The call is answered from Redis although the database would have rejected it: as a conflict. */
  predicate Masked(db: Db, cache: map<string, CacheEntry>, req: Request, key: string) {
    key in cache && !ValidRequest(db, req)
  }

  /** The cached call leaves the database as the plain one does, and answers alike exactly when it is not masked. */
  lemma CachedCall(db: Db, cache: map<string, CacheEntry>, req: Request, key: string)
    requires RowsValid(db) && Coherent(db, cache)
    ensures
      var (after, cache', reply) := TransferCached(db, cache, req, key);
      var (plain, plainReply) := TransferDb(db, req, key);
      && after == plain && RowsValid(after) && Coherent(after, cache')
      && (reply == plainReply <==> !Masked(db, cache, req, key))
  {
    hide Balance, Append;
    var (after, cache', reply) := TransferCached(db, cache, req, key);
    if key in cache {
      assert ValidRequest(db, RequestOf(db.transfers[key]));
    } else {
      PlainCall(db, req, key);
    }
  }

  lemma PlainCall(db: Db, req: Request, key: string)
    requires RowsValid(db)
    ensures
      var (after, reply) := TransferDb(db, req, key);
      && RowsValid(after) && after.accounts == db.accounts
      && (forall k :: k in db.transfers ==> k in after.transfers && after.transfers[k] == db.transfers[k])
      && (reply.Ok? ==>
            && key in after.transfers && after.transfers[key].status.RecordCompleted?
            && RequestOf(after.transfers[key]) == req && ResponseOf(after.transfers[key]) == reply.value)
  {
    hide Balance;
  }

  /** Whatever answered, the first use, a replay from the table or Redis: an Ok reply names the request's accounts and
      amount, status completed, and the id of the row stored under the key. */
  lemma OkNamesTheRow(db: Db, cache: map<string, CacheEntry>, req: Request, key: string)
    requires RowsValid(db) && Coherent(db, cache) && TransferCached(db, cache, req, key).2.Ok?
    ensures
      var (after, _, reply) := TransferCached(db, cache, req, key);
      && key in after.transfers
      && after.transfers[key] == TransferRow(reply.value.transfer, req.source, req.target, req.amount, RecordCompleted)
      && reply.value == Response(reply.value.transfer, req.source, req.target, req.amount, RecordCompleted)
  {
    hide Balance;
    if key !in cache { PlainCall(db, req, key); }
  }

  /** What a masked call is told: a conflict, where the database names what is wrong with the request. */
  lemma MaskedCall(db: Db, cache: map<string, CacheEntry>, req: Request, key: string)
    requires RowsValid(db) && Coherent(db, cache) && Masked(db, cache, req, key)
    ensures TransferCached(db, cache, req, key).2 == Err(IdempotencyConflict)
    ensures TransferDb(db, req, key).1
            == Err(if req.source in db.accounts && req.target in db.accounts then ConstraintViolated
                   else AccountNotFound)
  {
    hide Balance, Append;
    assert ValidRequest(db, RequestOf(db.transfers[key]));
  }

  /** Masked calls are within reach: an account is seeded, transfers what it has, and the key comes again with amount
      0. */
  lemma MaskedCallHappens(a: AccountId, b: AccountId)
    requires a != b && a != SYSTEM_ACCOUNT
    ensures
      var empty := Db(map[SYSTEM_ACCOUNT := true, a := true, b := true], [], map[], map[], map[], [], 0);
      var seeded := SeedEffect(empty, a, 5, "seed").value;
      var (db, cache, reply) := TransferCached(seeded, map[], Request(a, b, 5), "key");
      reply.Ok? && RowsValid(db) && Coherent(db, cache) && Masked(db, cache, Request(a, b, 0), "key")
  {
    var empty := Db(map[SYSTEM_ACCOUNT := true, a := true, b := true], [], map[], map[], map[], [], 0);
    var seeded := SeedEffect(empty, a, 5, "seed").value;
    PostingMovesMoney([], 1, SYSTEM_ACCOUNT, a, 5, SeedEntry, None, Some(SeedKey("seed")));
    assert Filter([], OfAccount(a)) == [];
    assert Balance([], a) == 0;
    assert Balance(seeded.legs, a) == 5;
    hide Balance, Filter, Sum;
    CachedCall(seeded, map[], Request(a, b, 5), "key");
  }

  /** A history. A call looks into the cache, then either answers from it (`hit`) or goes to the database; its cache
      write comes later, if at all: `Write` is a pending write reaching Redis, `Drop` one that never does. Entries are
      lost by expiry or eviction at any time, and everything else commits in between. */
  datatype Op =
    | Call(req: Request, key: string, hit: bool)
    | Write(key: string, entry: CacheEntry)
    | Drop(key: string, entry: CacheEntry)
    | Lose(keys: set<string>)
    | Post(p: Posting, payload: Payload)
    | Open(account: AccountId)

  /** The cache, and the writes on their way to it. */
  datatype Redis = Redis(cache: map<string, CacheEntry>, pending: set<(string, CacheEntry)>)

  function OtherDb(db: Db, op: Op): Db {
    match op
    case Post(p, payload) => Append(db, p, payload)
    case Open(a) => if a in db.accounts then db else db.(accounts := db.accounts[a := true])
    case _ => db
  }

  /** The call is answered from the cache. */
  predicate Hits(redis: Redis, op: Op) {
    op.Call? && op.hit && op.key in redis.cache
  }

  function PlainRun(db: Db, ops: seq<Op>): (Db, seq<Reply>) {
    if ops == [] then (db, [])
    else
      var (before, replies) := PlainRun(db, ops[..|ops| - 1]);
      match ops[|ops| - 1]
      case Call(req, key, _) =>
        var (after, reply) := TransferDb(before, req, key);
        (after, replies + [reply])
      case op => (OtherDb(before, op), replies)
  }

  function CachedStep(db: Db, redis: Redis, op: Op): (Db, Redis, Option<Reply>) {
    match op
    case Call(req, key, _) =>
      if Hits(redis, op) then (db, redis, Some(TransferCached(db, redis.cache, req, key).2))
      else
        var (after, reply) := TransferDb(db, req, key);
        (after,
         if reply.Ok? then redis.(pending := redis.pending + {(key, CacheEntry(req, reply.value))}) else redis,
         Some(reply))
    case Write(key, entry) =>
      if (key, entry) in redis.pending then
        (db, Redis(redis.cache[key := entry], redis.pending - {(key, entry)}), None)
      else (db, redis, None)
    case Drop(key, entry) => (db, redis.(pending := redis.pending - {(key, entry)}), None)
    case Lose(keys) => (db, redis.(cache := redis.cache - keys), None)
    case _ => (OtherDb(db, op), redis, None)
  }

  function CachedRun(db: Db, redis: Redis, ops: seq<Op>): (Db, Redis, seq<Reply>) {
    if ops == [] then (db, redis, [])
    else
      var (before, held, replies) := CachedRun(db, redis, ops[..|ops| - 1]);
      var (after, held', reply) := CachedStep(before, held, ops[|ops| - 1]);
      (after, held', replies + if reply.Some? then [reply.value] else [])
  }

  ghost predicate NeverMasked(db: Db, redis: Redis, ops: seq<Op>) {
    ops == [] ||
    (var before, op := ops[..|ops| - 1], ops[|ops| - 1];
     var run := CachedRun(db, redis, before);
     && NeverMasked(db, redis, before)
     && (Hits(run.1, op) ==> ValidRequest(run.0, op.req)))
  }

  /** Every entry, in the cache or on its way, is the request and the response of a committed, completed row. */
  ghost predicate CoherentRedis(db: Db, redis: Redis) {
    && Coherent(db, redis.cache)
    && (forall p :: p in redis.pending ==> Coherent(db, map[p.0 := p.1]))
  }

  lemma CoherentLater(db: Db, after: Db, redis: Redis)
    requires CoherentRedis(db, redis)
    requires forall k :: k in db.transfers ==> k in after.transfers && after.transfers[k] == db.transfers[k]
    ensures CoherentRedis(after, redis)
  {
    hide RequestOf, ResponseOf;
    forall p | p in redis.pending ensures Coherent(after, map[p.0 := p.1]) {
      assert Coherent(db, map[p.0 := p.1]);
      assert p.0 in map[p.0 := p.1];
    }
  }

  lemma OthersKeep(db: Db, op: Op)
    requires RowsValid(db)
    ensures RowsValid(OtherDb(db, op)) && OtherDb(db, op).transfers == db.transfers
  {
    hide RequestOf, ResponseOf;
  }

  lemma WriteKeeps(db: Db, redis: Redis, key: string, entry: CacheEntry)
    requires CoherentRedis(db, redis) && (key, entry) in redis.pending
    ensures Coherent(db, redis.cache[key := entry])
  {
    hide RequestOf, ResponseOf;
    assert Coherent(db, map[(key, entry).0 := (key, entry).1]);
    assert key in map[key := entry] && map[key := entry][key] == entry;
  }

  /** One step: the same database as without Redis, coherent entries, and the same reply exactly unless it is a hit with
      a request the database would reject. */
  lemma CachedOp(db: Db, redis: Redis, op: Op)
    requires RowsValid(db) && CoherentRedis(db, redis)
    ensures
      var (after, held, reply) := CachedStep(db, redis, op);
      && after == (if op.Call? then TransferDb(db, op.req, op.key).0 else OtherDb(db, op))
      && RowsValid(after) && CoherentRedis(after, held)
      && (reply.Some? <==> op.Call?)
      && (op.Call? ==> (reply.value == TransferDb(db, op.req, op.key).1 <==>
                        (Hits(redis, op) ==> ValidRequest(db, op.req))))
  {
    hide RowsValid, Coherent, TransferDb, Append;
    match op {
      case Call(req, key, _) =>
        PlainCall(db, req, key);
        CachedCall(db, redis.cache, req, key);
        if !Hits(redis, op) {
          var (after, reply) := TransferDb(db, req, key);
          CoherentLater(db, after, redis);
          if reply.Ok? { FreshEntry(after, key, req, reply.value); }
        } else {
          HitChangesNothing(db, redis.cache, req, key);
        }
      case Write(key, entry) => if (key, entry) in redis.pending { WriteKeeps(db, redis, key, entry); }
      case Drop(_, _) =>
      case Lose(keys) => LossKeeps(db, redis.cache, keys);
      case _ =>
        OthersKeep(db, op);
        CoherentLater(db, OtherDb(db, op), redis);
    }
  }

  lemma FreshEntry(db: Db, key: string, req: Request, response: Response)
    requires key in db.transfers && db.transfers[key].status.RecordCompleted?
    requires RequestOf(db.transfers[key]) == req && ResponseOf(db.transfers[key]) == response
    ensures Coherent(db, map[key := CacheEntry(req, response)])
  {
  }

  lemma HitChangesNothing(db: Db, cache: map<string, CacheEntry>, req: Request, key: string)
    requires key in cache
    ensures TransferCached(db, cache, req, key).0 == db
  {
  }

  lemma LossKeeps(db: Db, cache: map<string, CacheEntry>, keys: set<string>)
    requires Coherent(db, cache)
    ensures Coherent(db, cache - keys)
  {
    hide RequestOf, ResponseOf;
  }

  /** The cache refines the database, over any history in which calls, cache writes, losses and other commits
      interleave: the ledger, the records and the outbox are always those of the service without Redis, every entry is
      a committed completed row, and the replies are the same exactly when no hit was masked. */
  lemma {:induction false} CacheRefinesDatabase(db: Db, redis: Redis, ops: seq<Op>)
    requires RowsValid(db) && CoherentRedis(db, redis)
    ensures
      var (after, held, replies) := CachedRun(db, redis, ops);
      var (plain, plainReplies) := PlainRun(db, ops);
      && after == plain && RowsValid(after) && CoherentRedis(after, held)
      && |replies| == |plainReplies|
      && (replies == plainReplies <==> NeverMasked(db, redis, ops))
  {
    if ops != [] {
      var before, op := ops[..|ops| - 1], ops[|ops| - 1];
      CacheRefinesDatabase(db, redis, before);
      var (d, held, replies) := CachedRun(db, redis, before);
      CachedOp(d, held, op);
      hide RowsValid, CoherentRedis, TransferDb, CachedStep, OtherDb, Hits, ValidRequest;
      var plainReplies := PlainRun(db, before).1;
      if op.Call? {
        LastEqual(replies, plainReplies, CachedStep(d, held, op).2.value, TransferDb(d, op.req, op.key).1);
      } else {
        assert replies + [] == replies;
        NoHit(held, op);
      }
    }
  }

  lemma NoHit(redis: Redis, op: Op)
    requires !op.Call?
    ensures !Hits(redis, op)
  {
  }

  lemma LastEqual(xs: seq<Reply>, ys: seq<Reply>, x: Reply, y: Reply)
    requires |xs| == |ys|
    ensures xs + [x] == ys + [y] <==> xs == ys && x == y
  {
    if xs + [x] == ys + [y] {
      assert (xs + [x])[..|xs|] == xs && (ys + [y])[..|ys|] == ys;
      assert (xs + [x])[|xs|] == x && (ys + [y])[|ys|] == y;
    }
  }
}
