/** The store contract, "set if absent with a TTL", and its two implementations. */
module Stores {
  import opened Expiry

  /** The source's `(bool, error)` pair; on an error the boolean carries nothing. */
  datatype Reply = Answer(duplicate: bool) | Unavailable

  /** A backend entry still counts at its expiry instant; L1 (`Expiry.Hit`) does not. */
  predicate Present(data: Table, k: Key, now: Time) {
    k in data && now <= data[k]
  }

  function SetIfAbsent(data: Table, k: Key, ttl: Time, now: Time): Table {
    if Present(data, k, now) then data else data[k := now + ttl]
  }

  /** What happens to one backend command: nothing, the request is lost, or only the reply is. */
  datatype Fault = NoFault | RequestLost | ReplyLost

  class MemoryStore {
    var data: Table
    var down: bool  // the source's Err field is non-nil

    constructor (down: bool)
      ensures data == map[] && this.down == down
    {
      data := map[];
      this.down := down;
    }

    method IsDuplicate(key: Key, ttl: Time, now: Time) returns (r: Reply)
      modifies this`data
      ensures down ==> r == Unavailable && data == old(data)
      ensures !down ==> r == Answer(Present(old(data), key, now)) && data == SetIfAbsent(old(data), key, ttl, now)
    {
      if down {
        return Unavailable;
      }
      if key in data {
        if now > data[key] {
          data := data - {key};
        } else {
          return Answer(true);
        }
      }
      assert data[key := now + ttl] == old(data)[key := now + ttl];
      data := data[key := now + ttl];
      return Answer(false);
    }
  }

  datatype RedisReply = Ok | Nil | Failure

  class RedisStore {
    var remote: Table  // the server's keyspace

    constructor ()
      ensures remote == map[]
    {
      remote := map[];
    }

    /** SET key 1 NX PX ttl, executed by the server. */
    method SetNx(key: Key, ttl: Time, now: Time, fault: Fault) returns (r: RedisReply)
      modifies this
      ensures remote == if fault.RequestLost? then old(remote) else SetIfAbsent(old(remote), key, ttl, now)
      ensures r == if !fault.NoFault? then Failure else if Present(old(remote), key, now) then Nil else Ok
    {
      if fault.RequestLost? {
        return Failure;
      }
      var present := Present(remote, key, now);
      remote := SetIfAbsent(remote, key, ttl, now);
      r := if fault.ReplyLost? then Failure else if present then Nil else Ok;
    }

    /** Nil means the key existed, OK that it was created; anything else is unavailability. */
    method IsDuplicate(key: Key, ttl: Time, now: Time, fault: Fault) returns (r: Reply)
      modifies this
      ensures r == if fault.NoFault? then Answer(Present(old(remote), key, now)) else Unavailable
      ensures remote == if fault.RequestLost? then old(remote) else SetIfAbsent(old(remote), key, ttl, now)
    {
      var reply := SetNx(key, ttl, now, fault);
      match reply {
        case Nil => return Answer(true);
        case Failure => return Unavailable;
        case Ok => return Answer(false);
      }
    }
  }

  /** The source's `Store` interface: either implementation behind one contract. */
  datatype Backend = Memory(memory: MemoryStore) | Redis(redis: RedisStore) {
    function Repr(): set<object> {
      match this
      case Memory(m) => {m}
      case Redis(s) => {s}
    }

    ghost function Data(): Table
      reads Repr()
    {
      match this
      case Memory(m) => m.data
      case Redis(s) => s.remote
    }

    /** Redis suffers the network's fault; the memory store fails by its Err field alone, before any write. */
    ghost function Suffers(network: Fault): Fault
      reads Repr()
    {
      match this
      case Memory(m) => if m.down then RequestLost else NoFault
      case Redis(_) => network
    }

    method IsDuplicate(key: Key, ttl: Time, now: Time, network: Fault) returns (r: Reply)
      modifies Repr()
      ensures Suffers(network) == old(Suffers(network))
      ensures r == if Suffers(network).NoFault? then Answer(Present(old(Data()), key, now)) else Unavailable
      ensures Data() == if Suffers(network).RequestLost? then old(Data()) else SetIfAbsent(old(Data()), key, ttl, now)
      ensures Redis? ==> (r.Unavailable? <==> !network.NoFault?)
      ensures Redis? && network.NoFault? ==> (r.duplicate <==> key in old(redis.remote) && now <= old(redis.remote)[key])
      ensures Redis? ==> redis.remote == if network.RequestLost? || (key in old(redis.remote) && now <= old(redis.remote)[key])
                                         then old(redis.remote) else old(redis.remote)[key := now + ttl]
      ensures Memory? ==> memory.down == old(memory.down) && (r.Unavailable? <==> memory.down)
      ensures Memory? && !memory.down ==> (r.duplicate <==> key in old(memory.data) && now <= old(memory.data)[key])
      ensures Memory? ==> memory.data == if memory.down || (key in old(memory.data) && now <= old(memory.data)[key])
                                         then old(memory.data) else old(memory.data)[key := now + ttl]
    {
      match this
      case Memory(m) => r := m.IsDuplicate(key, ttl, now);
      case Redis(s) => r := s.IsDuplicate(key, ttl, now, network);
    }
  }
}
