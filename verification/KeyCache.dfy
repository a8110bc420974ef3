/** The cache of unwrapped intermediate keys: its critical sections and the key of a
    shared unwrap. */
module KeyCache {
  import opened Bytes

  const DIGEST_SIZE: nat := 32

  // ---------------------------------------------------------------------------
  // The key of a shared unwrap.

  /** The `k` low bytes of `n`, most significant first. */
  function BigEndian(n: nat, k: nat): (t: Text)
    ensures |t| == k
  {
    if k == 0 then [] else BigEndian(n / 256, k - 1) + [n % 256]
  }

  function BigEndianValue(t: Text): nat {
    if t == [] then 0 else 256 * BigEndianValue(t[..|t| - 1]) + t[|t| - 1]
  }

  function Power256(k: nat): nat { if k == 0 then 1 else 256 * Power256(k - 1) }

  lemma {:induction false} BigEndianRoundTrip(n: nat, k: nat)
    requires n < Power256(k)
    ensures BigEndianValue(BigEndian(n, k)) == n
  {
    if k == 0 {
    } else {
      BigEndianRoundTrip(n / 256, k - 1);
      var t := BigEndian(n, k);
      assert t[..|t| - 1] == BigEndian(n / 256, k - 1);
    }
  }

  lemma Power256Of8()
    ensures Power256(8) == TWO_64
  {
    assert Power256(4) == 256 * (256 * (256 * 256));
    assert Power256(8) == 256 * (256 * (256 * (256 * Power256(4))));
  }

  function FlightKey(id: Text, gen: nat, digest: Text): Text {
    id + [0] + BigEndian(gen, 8) + digest
  }

  /** Different ids, generations or digests never share a flight, whatever bytes the
      ids contain. */
  lemma FlightKeyInjective(id1: Text, gen1: nat, d1: Text, id2: Text, gen2: nat, d2: Text)
    requires |d1| == |d2| && gen1 < TWO_64 && gen2 < TWO_64
    requires FlightKey(id1, gen1, d1) == FlightKey(id2, gen2, d2)
    ensures id1 == id2 && gen1 == gen2 && d1 == d2
  {
    var key, n := FlightKey(id1, gen1, d1), |d1|;
    var b1, b2 := BigEndian(gen1, 8), BigEndian(gen2, 8);
    assert |id1| == |id2|;
    assert key[..|id1|] == id1 && key[..|id2|] == id2;
    assert key[|id1| + 1..|id1| + 9] == b1 && key[|id2| + 1..|id2| + 9] == b2;
    assert key[|id1| + 9..] == d1 && key[|id2| + 9..] == d2;
    Power256Of8();
    BigEndianRoundTrip(gen1, 8);
    BigEndianRoundTrip(gen2, 8);
  }

  // ---------------------------------------------------------------------------
  // The critical sections.

  /** A provider, identified by the wrapped bytes it was unwrapped from and the moment
      that unwrap started. */
  datatype Provider = Provider(source: Text, startedAt: nat)

  datatype Entry = Entry(provider: Provider, digest: Text, expiresAt: int)

  type Entries = map<Text, Entry>

  function Find(entries: Entries, id: Text, digest: Text, now: int): Option<Provider> {
    if id in entries && entries[id].digest == digest && now < entries[id].expiresAt then Some(entries[id].provider)
    else None
  }

  /** Storing drops every expired entry first. */
  function Stored(entries: Entries, ttl: int, id: Text, digest: Text, p: Provider, now: int): Entries {
    var live := map k | k in entries && now < entries[k].expiresAt :: entries[k];
    if ttl > 0 then live[id := Entry(p, digest, now + ttl)] else live
  }

  class KeyProviderCache {
    var entries: Entries
    var generation: nat
    const ttl: int

    constructor (ttl: int)
      ensures entries == map[] && generation == 0 && this.ttl == ttl
    {
      entries, generation := map[], 0;
      this.ttl := ttl;
    }

    method Lookup(id: Text, digest: Text, now: int) returns (p: Option<Provider>)
      ensures p == Find(entries, id, digest, now)
    {
      if id in entries {
        var e := entries[id];
        if e.digest == digest && now < e.expiresAt {
          return Some(e.provider);
        }
      }
      return None;
    }

    method Store(id: Text, digest: Text, gen: nat, p: Provider, now: int)
      modifies `entries
      ensures entries == if gen != generation then old(entries) else Stored(old(entries), ttl, id, digest, p, now)
    {
      if gen != generation {
        return;
      }
      var left := entries.Keys;
      while left != {}
        invariant left <= old(entries).Keys
        invariant forall k :: k in entries <==> k in old(entries) && (k in left || now < old(entries)[k].expiresAt)
        invariant forall k :: k in entries ==> entries[k] == old(entries)[k]
        decreases left
      {
        var k :| k in left;
        if !(now < entries[k].expiresAt) {
          entries := entries - {k};
        }
        left := left - {k};
      }
      assert entries == map k | k in old(entries) && now < old(entries)[k].expiresAt :: old(entries)[k];
      if ttl > 0 {
        entries := entries[id := Entry(p, digest, now + ttl)];
      }
    }

    method Invalidate(id: Text)
      modifies `entries, `generation
      ensures generation == old(generation) + 1 && entries == old(entries) - {id}
    {
      generation := generation + 1;
      entries := entries - {id};
    }
  }
}
