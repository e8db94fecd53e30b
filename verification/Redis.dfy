/** The Redis commands the services use, one atomic step each. A key exists iff its expiry has not come;
    an expired entry that is still in the map does not exist. Times are in any one unit. */
module Redis {
  import opened Options

  datatype Value = Text(text: string) | Number(n: int)

  datatype Entry = Entry(value: Value, expiry: Option<int>)

  type Store = map<string, Entry>

  predicate Exists(s: Store, key: string, now: int) {
    key in s && (s[key].expiry.Some? ==> now < s[key].expiry.value)
  }

  function Increment(s: Store, key: string, now: int): Store
    requires Exists(s, key, now) ==> s[key].value.Number?
  {
    if Exists(s, key, now) then s[key := s[key].(value := Number(s[key].value.n + 1))]
    else s[key := Entry(Number(1), None)]
  }

  /** A counter with the time its window ends: INCR followed, on the first hit, by EXPIRE. */
  datatype Counter = Counter(count: int, expiry: int)

  predicate Running(c: Option<Counter>, now: int) {
    c.Some? && now < c.value.expiry
  }

  function Hit(c: Option<Counter>, now: int, ttl: int): Counter {
    if Running(c, now) then c.value.(count := c.value.count + 1) else Counter(1, now + ttl)
  }

  predicate HoldsCounter(s: Store, key: string) {
    key in s ==> s[key].value.Number? && s[key].value.n >= 1 && s[key].expiry.Some?
  }

  function CounterAt(s: Store, key: string): Option<Counter>
    requires HoldsCounter(s, key)
  {
    if key in s then Some(Counter(s[key].value.n, s[key].expiry.value)) else None
  }

  class Client {
    var entries: Store

    constructor ()
      ensures entries == map[]
    {
      entries := map[];
    }

    method Get(key: string, now: int) returns (value: Option<Value>)
      ensures value == if Exists(entries, key, now) then Some(entries[key].value) else None
    {
      value := None;
      if Exists(entries, key, now) { value := Some(entries[key].value); }
    }

    method Incr(key: string, now: int) returns (n: int)
      requires Exists(entries, key, now) ==> entries[key].value.Number?
      modifies this
      ensures entries == Increment(old(entries), key, now) && n == entries[key].value.n
    {
      n := 1;
      if Exists(entries, key, now) {
        n := entries[key].value.n + 1;
        entries := entries[key := Entry(Number(n), entries[key].expiry)];
      } else {
        entries := entries[key := Entry(Number(n), None)];
      }
    }

    method Expire(key: string, ttl: int, now: int)
      modifies this
      ensures entries == if Exists(old(entries), key, now)
                         then old(entries)[key := old(entries)[key].(expiry := Some(now + ttl))]
                         else old(entries)
    {
      if Exists(entries, key, now) {
        entries := entries[key := entries[key].(expiry := Some(now + ttl))];
      }
    }

    /** SET key text EX ttl */
    method SetEx(key: string, text: string, ttl: int, now: int)
      modifies this
      ensures entries == old(entries)[key := Entry(Text(text), Some(now + ttl))]
    {
      entries := entries[key := Entry(Text(text), Some(now + ttl))];
    }

    /** SET key text EX ttl NX */
    method SetNx(key: string, text: string, ttl: int, now: int) returns (ok: bool)
      modifies this
      ensures ok <==> !Exists(old(entries), key, now)
      ensures entries == if ok then old(entries)[key := Entry(Text(text), Some(now + ttl))] else old(entries)
    {
      ok := !Exists(entries, key, now);
      if ok { SetEx(key, text, ttl, now); }
    }

    method Del(keys: set<string>)
      modifies this
      ensures entries == old(entries) - keys
    {
      entries := entries - keys;
    }

    /** INCR, then EXPIRE if this was the first hit: one step here, two commands in the source. */
    method HitCounter(key: string, ttl: int, now: int) returns (n: int)
      requires HoldsCounter(entries, key)
      modifies this
      ensures HoldsCounter(entries, key) && CounterAt(entries, key) == Some(Hit(CounterAt(old(entries), key), now, ttl))
      ensures n == CounterAt(entries, key).value.count
      ensures entries - {key} == old(entries) - {key}
    {
      n := Incr(key, now);
      if n == 1 {
        Expire(key, ttl, now);
      }
    }
  }
}
