// The merchant service's procedures: the Redis commands behind the fill lock
// and the caches, the waiting loop, and one lookup from start to end.
module MerchantService {
  import opened Common
  import opened MerchantFill

  /******* The keys in Redis, as its commands change them *******/

  class MerchantKeys {
    var locks: Locks
    var entries: Entries

    // AcquireMerchantLock; token is fresh.
    method AcquireLock(id: Id, token: Token, now: Time) returns (acquired: bool)
      modifies this
      ensures acquired == !Locked(old(locks), id, now)
      ensures locks == SetNX(old(locks), id, token, MERCHANT_LOCK_TTL, now) && entries == old(entries)
      ensures acquired <==> !(id in old(locks) && now < old(locks)[id].expiry)
      ensures locks == if acquired then old(locks)[id := Lock(token, now + 3_000_000_000)] else old(locks)
    {
      if Locked(locks, id, now) {
        return false;
      }
      locks := locks[id := Lock(token, now + MERCHANT_LOCK_TTL)];
      return true;
    }

    // ReleaseMerchantLock: deletes the key only if it still holds the token.
    method ReleaseLock(id: Id, token: Token, now: Time)
      modifies this
      ensures locks == ReleaseIfHeld(old(locks), id, token, now) && entries == old(entries)
      ensures
        var own := id in old(locks) && now < old(locks)[id].expiry && old(locks)[id].token == token;
        locks == if own then old(locks) - {id} else old(locks)
    {
      if Locked(locks, id, now) && locks[id].token == token {
        locks := locks - {id};
      }
    }

    // SetMerchant and SetMerchantNotFound.
    method Put(id: Id, content: Content, now: Time)
      modifies this
      ensures entries == SetEntry(old(entries), id, content, now) && locks == old(locks)
      ensures
        entries == match content
                   case Present(m) => old(entries)[m.id := Entry(content, now + 86_400_000_000_000)]
                   case NotFound => old(entries)[id := Entry(content, now + 10_000_000_000)]
    {
      match content {
        case Present(m) => entries := entries[m.id := Entry(content, now + MERCHANT_TTL)];
        case NotFound => entries := entries[id := Entry(content, now + MERCHANT_NEGATIVE_TTL)];
      }
    }
  }

  /******* The waiting loop *******/

  // What one poll of the cache finds.
  datatype Poll = Hit(merchant: Merchant) | Negative | Miss | ReadError

  // Polls until a result, an error or the budget. cache(t) is what a read
  // that ends t after the start finds; took(n) and late(n) say how long the
  // n-th read takes and how late the n-th tick of the ticker is received. A
  // read that would end after the budget is cut off there and fails. ends[n]
  // is when the n-th read ended.
  method WaitForMerchantFill(cache: nat -> Poll, took: nat -> nat, late: nat -> nat)
    returns (result: Result, elapsed: nat, polls: nat, ghost ends: seq<nat>)
    ensures elapsed <= LOCK_WAIT_TIMEOUT
    ensures 1 <= polls <= LOCK_WAIT_TIMEOUT / LOCK_POLL_INTERVAL
    ensures Timetable(ends, took, late)
    ensures forall k :: 0 <= k < |ends| - 1 ==> cache(ends[k]) == Miss
    ensures
      match result
      case Found(m) => |ends| == polls && elapsed == ends[polls - 1] && cache(elapsed) == Hit(m)
      case NoRows => |ends| == polls && elapsed == ends[polls - 1] && cache(elapsed) == Negative
      case InProgress => false
      case Failed =>
        || (|ends| == polls && elapsed == ends[polls - 1] && cache(elapsed) == ReadError)
        || (elapsed == LOCK_WAIT_TIMEOUT && (|ends| > 0 ==> cache(ends[|ends| - 1]) == Miss) && OutOfTime(ends, took, late))
  {
    var t: nat := 0;
    polls, ends := 0, [];
    while true
      invariant polls * LOCK_POLL_INTERVAL <= t < LOCK_WAIT_TIMEOUT
      invariant |ends| == polls && Timetable(ends, took, late) && t == NextStart(ends, late)
      invariant forall k :: 0 <= k < |ends| ==> cache(ends[k]) == Miss
      decreases LOCK_WAIT_TIMEOUT - polls
    {
      var end := t + took(polls);
      polls := polls + 1;
      if end > LOCK_WAIT_TIMEOUT {
        return Failed, LOCK_WAIT_TIMEOUT, polls, ends;
      }
      ghost var before := ends;
      ends := ends + [end];
      assert ends[..|ends| - 1] == before;
      match cache(end) {
        case Hit(m) => return Found(m), end, polls, ends;
        case Negative => return NoRows, end, polls, ends;
        case ReadError => return Failed, end, polls, ends;
        case Miss =>
      }
      var tick := polls * LOCK_POLL_INTERVAL + late(polls);
      var next := if tick > end then tick else end;
      if next >= LOCK_WAIT_TIMEOUT {
        return Failed, LOCK_WAIT_TIMEOUT, polls, ends;
      }
      t := next;
    }
  }

  // When the next read starts: at once, and then at the tick after the last
  // read, or as soon as that read is over.
  function NextStart(ends: seq<nat>, late: nat -> nat): nat {
    if |ends| == 0 then 0
    else
      var tick := |ends| * 50_000_000 + late(|ends|);
      if tick > ends[|ends| - 1] then tick else ends[|ends| - 1]
  }

  // Every read ends as long after its start as it takes, within the budget.
  predicate Timetable(ends: seq<nat>, took: nat -> nat, late: nat -> nat) {
    |ends| == 0 ||
    var before := ends[..|ends| - 1];
    && Timetable(before, took, late)
    && NextStart(before, late) < 750_000_000
    && ends[|ends| - 1] == NextStart(before, late) + took(|before|) <= 750_000_000
  }

  // The next read would not start, or not end, within the budget.
  predicate OutOfTime(ends: seq<nat>, took: nat -> nat, late: nat -> nat) {
    NextStart(ends, late) >= 750_000_000 || NextStart(ends, late) + took(|ends|) > 750_000_000
  }

  /******* One lookup, start to end *******/

  datatype LegacyReply = Answered(merchant: Merchant) | Denied | Unavailable

  // What happens around one lookup: which of its calls to Redis and Postgres
  // succeed, what legacy would answer, how long that takes, and what the
  // waiting loop would see.
  datatype Around = Around(
    cacheOk: bool, databaseOk: bool, lockOk: bool, releaseOk: bool,
    reply: LegacyReply, took: nat,
    poll: nat -> Poll, pollTook: nat -> nat, pollLate: nat -> nat)

  class Service {
    const redis: MerchantKeys
    var database: map<Id, Merchant>
    // Cache writes handed to background goroutines.
    var pending: seq<Fill>
    // How often legacy was asked.
    var asked: nat

    constructor (keys: MerchantKeys)
      ensures redis == keys && pending == [] && asked == 0
    {
      redis := keys;
      database, pending, asked := map[], [], 0;
    }

    // Asks legacy under the lock, leaves the answer to be cached, and releases
    // the lock it took, and no other.
    method FillUnderLock(id: Id, token: Token, now: Time, a: Around) returns (result: Result)
      modifies this`pending, this`asked, redis
      ensures asked == old(asked) + 1
      ensures result == match a.reply case Answered(m) => Found(m) case Denied => NoRows case Unavailable => Failed
      ensures pending == old(pending) + (match a.reply
                                         case Answered(m) => [Fill(id, Present(m))]
                                         case Denied => [Fill(id, NotFound)]
                                         case Unavailable => [])
      ensures redis.entries == old(redis.entries)
      ensures redis.locks == if a.releaseOk then ReleaseIfHeld(old(redis.locks), id, token, now + a.took) else old(redis.locks)
    {
      asked := asked + 1;
      match a.reply {
        case Answered(m) =>
          pending := pending + [Fill(id, Present(m))];
          result := Found(m);
        case Denied =>
          pending := pending + [Fill(id, NotFound)];
          result := NoRows;
        case Unavailable =>
          result := Failed;
      }
      if a.releaseOk {
        redis.ReleaseLock(id, token, now + a.took);
      }
    }

    // GetMerchant. Legacy is asked exactly when cache and database both miss
    // and the lock is free. The cases of the ensures are the branches of a
    // lookup: what each answers, and what it leaves to be cached.
    method GetMerchant(id: Id, token: Token, now: Time, a: Around) returns (result: Result)
      requires a.took <= LEGACY_TIMEOUT
      modifies this, redis
      ensures database == old(database) && redis.entries == old(redis.entries)
      ensures
        var cached := Get(old(redis.entries), id, now);
        var miss := a.cacheOk && cached.None? && a.databaseOk && id !in old(database);
        var free := !Locked(old(redis.locks), id, now);
        && (asked == old(asked) + if miss && a.lockOk && free then 1 else 0)
        && (!a.cacheOk ==> result == Failed && pending == old(pending))
        && (a.cacheOk && cached == Some(NotFound) ==> result == NoRows && pending == old(pending))
        && (forall m :: a.cacheOk && cached == Some(Present(m)) ==> result == Found(m) && pending == old(pending))
        && (a.cacheOk && cached.None? && !a.databaseOk ==> result == Failed && pending == old(pending))
        && (a.cacheOk && cached.None? && a.databaseOk && id in old(database) ==>
              result == Found(old(database)[id]) && pending == old(pending) + [Fill(id, Present(old(database)[id]))])
        && (miss && !a.lockOk ==> result == Failed && pending == old(pending))
        && (miss && a.lockOk && free ==>
              && result == (match a.reply case Answered(m) => Found(m) case Denied => NoRows case Unavailable => Failed)
              && pending == old(pending) + (match a.reply
                                            case Answered(m) => [Fill(id, Present(m))]
                                            case Denied => [Fill(id, NotFound)]
                                            case Unavailable => []))
        && (miss && a.lockOk && !free ==> pending == old(pending) && WaitedFor(a, result))
      ensures asked == old(asked) + 1 && a.releaseOk ==> !(id in redis.locks && redis.locks[id].token == token)
      ensures Locked(old(redis.locks), id, now) ==> redis.locks == old(redis.locks)
    {
      if !a.cacheOk {
        return Failed;
      }
      match Get(redis.entries, id, now) {
        case Some(content) => return Served(content);
        case None =>
      }
      if !a.databaseOk {
        return Failed;
      }
      if id in database {
        pending := pending + [Fill(id, Present(database[id]))];
        return Found(database[id]);
      }
      if !a.lockOk {
        return Failed;
      }
      var acquired := redis.AcquireLock(id, token, now);
      if !acquired {
        var waited, elapsed, polls, ends := WaitForMerchantFill(a.poll, a.pollTook, a.pollLate);
        assert Timetable(ends, a.pollTook, a.pollLate);
        result := if waited.Failed? then InProgress else waited;
        assert WaitedThrough(a, result, ends);
        return;
      }
      result := FillUnderLock(id, token, now, a);
    }
  }

  // The answer of a lookup that waited: what its last read found, if all reads
  // before it found nothing; "in progress" if none found anything in time, or
  // a read failed.
  ghost predicate WaitedFor(a: Around, result: Result) {
    exists ends :: Timetable(ends, a.pollTook, a.pollLate) && WaitedThrough(a, result, ends)
  }

  ghost predicate WaitedThrough(a: Around, result: Result, ends: seq<nat>) {
    && (forall k :: 0 <= k < |ends| - 1 ==> a.poll(ends[k]) == Miss)
    && match result
       case Found(m) => |ends| > 0 && a.poll(ends[|ends| - 1]) == Hit(m)
       case NoRows => |ends| > 0 && a.poll(ends[|ends| - 1]) == Negative
       case InProgress =>
         || (|ends| > 0 && a.poll(ends[|ends| - 1]) == ReadError)
         || ((|ends| > 0 ==> a.poll(ends[|ends| - 1]) == Miss) && OutOfTime(ends, a.pollTook, a.pollLate))
       case Failed => false
  }
}
