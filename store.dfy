/** The key-value store behind the service (a Redis database reached over
    HTTP) and the shape of the JSON replies the request handlers send. */
module Cache {
  import opened Common
  import opened JsValue

  /** The store client.  `connected` records whether the client was created
      (both credentials present); without it every read misses and every
      write is skipped.  Each write records the expiry it was given, in
      seconds, or `None` for a key that never expires. */
  class Store {
    var connected: bool
    var entries: map<string, Value>
    var ttls: map<string, Option<nat>>

    /** Every stored key has its expiry recorded. */
    ghost predicate Valid()
      reads this
    {
      entries.Keys == ttls.Keys
    }

    constructor (connected: bool)
      ensures this.connected == connected && entries == map[] && ttls == map[]
      ensures Valid()
    {
      this.connected := connected;
      entries := map[];
      ttls := map[];
    }

    /** `get(key)`: the stored value, or nothing when the key is missing or
        the client is absent. */
    function Get(key: string): (r: Option<Value>)
      reads this
      ensures r.Some? <==> connected && key in entries
      ensures r.Some? ==> r.value == entries[key]
    {
      if connected && key in entries then Some(entries[key]) else None
    }

    /** The effect of one `set(key, value, { ex: ttl })`: the key alone is
        written, and only when the client is present. */
    twostate predicate Wrote(key: string, value: Value, ttl: Option<nat>)
      reads this
    {
      && connected == old(connected)
      && entries == (if connected then old(entries)[key := value] else old(entries))
      && ttls == (if connected then old(ttls)[key := ttl] else old(ttls))
    }

    /** `set(key, value, opts)`: reports whether the write happened. */
    method Set(key: string, value: Value, ttl: Option<nat>) returns (ok: bool)
      requires Valid()
      modifies this
      ensures Valid()
      ensures ok == connected
      ensures Wrote(key, value, ttl)
      ensures Get(key) == if ok then Some(value) else None
      ensures forall k :: k != key ==> Get(k) == old(Get(k))
    {
      ok := connected;
      if connected {
        entries := entries[key := value];
        ttls := ttls[key := ttl];
      }
    }
  }

  /** An HTTP reply: the status code and the JSON body. */
  datatype Reply = Reply(status: nat, body: Record)

  /** `res.json({ success: true, ... })` */
  function Success(fields: Record): Reply {
    Reply(200, fields + map["success" := Bool(true)])
  }

  /** `res.status(status).json({ success: false, message })` */
  function Failure(status: nat, message: string): Reply {
    Reply(status, map["success" := Bool(false), "message" := Str(message)])
  }

  /** The reply of a handler's `catch` when the runtime raised a TypeError:
      status 500; the runtime's own wording of `error.message` is not
      modelled. */
  const Crashed: Reply := Reply(500, map["success" := Bool(false)])
}
