/**
 The Redis commands the services use, over one keyspace whose entries expire.
 `Keyspace` is the value the commands act on; `Server` is the shared server object,
 each of whose methods is one atomic command.
 */
module Redis {
  import opened Results
  import opened Clock

  datatype Entry<+V> = Entry(value: V, expiresAt: Time)

  datatype Keyspace<!K(==), V> = Keyspace(now: Time, entries: map<K, Entry<V>>) {

    /** GET: an entry is served strictly before its expiry. */
    function Lookup(key: K): Option<V> {
      if key in entries && now < entries[key].expiresAt then Some(entries[key].value) else None
    }

    /** SETEX, and SET with EX. */
    function SetEx(key: K, ttl: Time, value: V): Keyspace<K, V> {
      this.(entries := entries[key := Entry(value, now + ttl)])
    }

    /** SET with EX and NX: stores nothing when a live entry is present. */
    function SetNxEx(key: K, ttl: Time, value: V): Keyspace<K, V> {
      if Lookup(key).None? then SetEx(key, ttl, value) else this
    }

    function Del(key: K): Keyspace<K, V> {
      this.(entries := entries - {key})
    }

    function Advance(elapsed: Time): Keyspace<K, V> {
      this.(now := now + elapsed)
    }
  }

  class Server<K(==), V> {
    var now: Time
    var entries: map<K, Entry<V>>

    function View(): Keyspace<K, V>
      reads this
    {
      Keyspace(now, entries)
    }

    constructor ()
      ensures View() == Keyspace(0, map[])
    {
      now, entries := 0, map[];
    }

    method Get(key: K) returns (value: Option<V>)
      ensures value == View().Lookup(key)
    {
      if key in entries && now < entries[key].expiresAt {
        value := Some(entries[key].value);
      } else {
        value := None;
      }
    }

    method SetEx(key: K, ttl: Time, value: V)
      modifies this`entries
      ensures View() == old(View()).SetEx(key, ttl, value)
    {
      entries := entries[key := Entry(value, now + ttl)];
    }

    method SetNxEx(key: K, ttl: Time, value: V) returns (ok: bool)
      modifies this`entries
      ensures ok <==> old(View().Lookup(key)).None?
      ensures View() == old(View()).SetNxEx(key, ttl, value)
    {
      var present := Get(key);
      ok := present.None?;
      if ok {
        SetEx(key, ttl, value);
      }
    }

    method Del(key: K)
      modifies this`entries
      ensures View() == old(View()).Del(key)
    {
      entries := entries - {key};
    }

    /** Time passes. */
    method Advance(elapsed: Time)
      modifies this`now
      ensures View() == old(View()).Advance(elapsed)
    {
      now := now + elapsed;
    }
  }
}
