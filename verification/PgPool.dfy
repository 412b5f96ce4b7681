// PgPool as written: storage and available are updated in place under the mutex. acquire is split
// where wait_for gives the mutex up; each method is one stretch of code run under the lock.
module PgPool {
  import opened Lists
  import opened Connection
  import opened PoolSpec

  datatype Outcome = Granted(conn: Conn) | Waits | Failed

  class PgPool {
    var storage: seq<Conn>
    var available: seq<Conn>
    var released: map<Conn, int>
    var nextConn: Conn
    const hardLimit: nat
    const idleTimeout: nat

    ghost function Abs(): Pool
      reads this
    {
      Pool(hardLimit, idleTimeout, storage, available, released, nextConn)
    }

    ghost predicate Valid()
      reads this
    {
      PoolOk(Abs())
    }

    constructor (hardLimit: nat, idleTimeout: nat)
      ensures Valid()
      ensures Abs() == Pool(hardLimit, idleTimeout, [0], [0], map[0 := 0], 1)
    {
      this.hardLimit := hardLimit;
      this.idleTimeout := idleTimeout;
      available := [0];
      storage := [0];
      released := map[0 := 0];
      nextConn := 1;
    }

    method Prune(now: int)
      requires Valid()
      modifies this`storage, this`available
      ensures Valid() && Abs() == PoolSpec.Prune(old(Abs()), now)
    {
      if |available| == 0 { return; }
      var i := |storage| - 1;
      while i >= 0
        invariant -1 <= i < |storage| && Valid()
        invariant PruneFrom(Abs(), i, now) == PoolSpec.Prune(old(Abs()), now)
        decreases i
      {
        if |storage| <= MIN_LIMIT { break; }
        var bundle := storage[i];
        if bundle in available {
          if now - released[bundle] > idleTimeout {
            DiscardKeepsOk(Abs(), i);
            available := RemoveAt(available, IndexOf(available, bundle));
            storage := RemoveAt(storage, i);
          } else {
            break;
          }
        }
        i := i - 1;
      }
    }

    // acquire from its start to the first wait.
    method EnterAcquire(now: int) returns (r: Outcome)
      requires Valid()
      modifies this`storage, this`available
      ensures var p := PoolSpec.Prune(old(Abs()), now);
              && r == (if p.available == [] then Waits else Granted(p.available[0]))
              && Abs() == if p.available == [] then p else p.(available := p.available[1..])
      ensures Valid()
    {
      Prune(now);
      r := TakeOrWait();
    }

    // The top of the while(true) loop.
    method TakeOrWait() returns (r: Outcome)
      requires Valid()
      modifies this`available
      ensures r == if old(available) == [] then Waits else Granted(old(available)[0])
      ensures Valid() && available == if old(available) == [] then [] else old(available)[1..]
    {
      if |available| == 0 { return Waits; }
      TakeOk(Abs());
      var conn := available[0];
      available := available[1..];
      return Granted(conn);
    }

    // From a timed out wait_for to the next wait; the flag says whether opening a connection works.
    method TimedOut(connects: bool) returns (r: Outcome)
      requires Valid()
      modifies this
      ensures Valid()
      ensures if |old(storage)| >= hardLimit then
                && r == (if old(available) == [] then Waits else Granted(old(available)[0]))
                && Abs() == old(Abs()).(available := if old(available) == [] then [] else old(available)[1..])
              else if connects then
                && r == Granted(old(nextConn))
                && Abs() == old(Abs()).(storage := old(storage) + [old(nextConn)],
                                        released := old(released)[old(nextConn) := 0],
                                        nextConn := old(nextConn) + 1)
              else r == Failed && Abs() == old(Abs())
    {
      if |storage| < hardLimit {
        if !connects { return Failed; }
        var conn := nextConn;
        GrowOk(Abs());
        storage := storage + [conn];
        released := released[conn := 0];
        nextConn := nextConn + 1;
        return Granted(conn);
      }
      r := TakeOrWait();
    }

    method Release(conn: Conn, now: int)
      requires Valid() && conn in storage && conn !in available
      requires forall c | c in storage :: released[c] <= now
      modifies this`released, this`available
      ensures Valid() && Abs() == GiveBack(old(Abs()), conn, now)
    {
      GiveBackOk(Abs(), conn, now);
      released := released[conn := now];
      available := available + [conn];
    }
  }
}
