/** The registry that maps keys handed to clients onto the backend sessions behind them. */
module Cancel {
  import opened Bytes
  import opened Protocol
  import opened Registry

  datatype Entry = Entry(backendAddr: Str, backendKey: CancelKey, tls: TLSConfig)

  /** Eight bytes from the system's generator. */
  type Draw = d: Str | |d| == 8 witness [0, 0, 0, 0, 0, 0, 0, 0]

  /** randomCancelKey: the sign bit of the process ID is cleared. */
  function KeyFromDraw(d: Draw): (k: CancelKey)
    ensures k.pid >= 0
  {
    var word: int := Uint32(d[..4]);
    CancelKey(word % 0x8000_0000, AsInt32(Uint32(d[4..])))
  }

  /** 2^31 process IDs times 2^32 secrets. */
  const KEY_SPACE: nat := 0x8000_0000_0000_0000

  /** A generator that does not avoid free keys for ever. */
  ghost predicate Fair(draws: nat -> Draw) {
    forall taken: set<CancelKey>, from: nat :: |taken| < KEY_SPACE ==> Eventually(draws, taken, from)
  }

  ghost predicate Eventually(draws: nat -> Draw, taken: set<CancelKey>, from: nat) {
    exists i: nat :: from <= i && KeyFromDraw(draws(i)) !in taken
  }

  class Entropy {
    const draws: nat -> Draw
    var pos: nat

    constructor (draws: nat -> Draw)
      ensures this.draws == draws && pos == 0
    {
      this.draws := draws;
      pos := 0;
    }

    method Read() returns (d: Draw)
      modifies this
      ensures d == draws(old(pos)) && pos == old(pos) + 1
    {
      d := draws(pos);
      pos := pos + 1;
    }
  }

  lemma NextFree(draws: nat -> Draw, entries: map<CancelKey, Entry>, from: nat) returns (stop: nat)
    requires Fair(draws) && |entries| < KEY_SPACE
    ensures from <= stop && KeyFromDraw(draws(stop)) !in entries
  {
    assert |entries.Keys| < KEY_SPACE;
    assert Eventually(draws, entries.Keys, from);
    stop :| from <= stop && KeyFromDraw(draws(stop)) !in entries.Keys;
  }

  class CancelRegistry {
    var entries: map<CancelKey, Entry>

    constructor ()
      ensures entries == map[]
    {
      entries := map[];
    }

    /** Draws until the key is free; every earlier draw was a key in use. */
    method Issue(entry: Entry, rng: Entropy) returns (key: CancelKey)
      requires Fair(rng.draws) && |entries| < KEY_SPACE
      modifies this, rng
      ensures key !in old(entries) && key.pid >= 0
      ensures entries == old(entries)[key := entry]
      ensures rng.pos > old(rng.pos) && key == KeyFromDraw(rng.draws(rng.pos - 1))
      ensures forall i :: old(rng.pos) <= i < rng.pos - 1 ==> KeyFromDraw(rng.draws(i)) in old(entries)
    {
      ghost var stop := NextFree(rng.draws, entries, rng.pos);
      var d := rng.Read();
      key := KeyFromDraw(d);
      while key in entries
        invariant entries == old(entries)
        invariant old(rng.pos) < rng.pos <= stop + 1 && key == KeyFromDraw(rng.draws(rng.pos - 1)) && key.pid >= 0
        invariant forall i :: old(rng.pos) <= i < rng.pos - 1 ==> KeyFromDraw(rng.draws(i)) in entries
        decreases stop + 1 - rng.pos
      {
        d := rng.Read();
        key := KeyFromDraw(d);
      }
      entries := entries[key := entry];
    }

    method Lookup(key: CancelKey) returns (r: Option<Entry>)
      ensures r.Some? <==> key in entries
      ensures r.Some? ==> r.value == entries[key]
    {
      r := if key in entries then Some(entries[key]) else None;
    }

    method Release(key: CancelKey)
      modifies this
      ensures entries == old(entries) - {key}
    {
      entries := entries - {key};
    }
  }

  // ---- A free key exists, and the generator can draw it ----

  lemma {:induction false} Pigeonhole(taken: set<int>, n: nat) returns (i: int)
    requires |taken| < n
    ensures 0 <= i < n && i !in taken
    decreases n
  {
    if n - 1 !in taken {
      i := n - 1;
    } else {
      i := Pigeonhole(taken - {n - 1}, n - 1);
    }
  }

  /** The position of a key with a non-negative process ID among all such keys. */
  function Index(k: CancelKey): int {
    var secret: int := AsUint32(k.secret);
    k.pid * 0x1_0000_0000 + secret
  }

  function KeyAt(i: int): (k: CancelKey)
    requires 0 <= i < KEY_SPACE
    ensures k.pid >= 0 && Index(k) == i
  {
    CancelKey(i / 0x1_0000_0000, AsInt32(i % 0x1_0000_0000))
  }

  lemma {:induction false} ImageIsNoLarger(keys: set<CancelKey>)
    ensures |set k | k in keys :: Index(k)| <= |keys|
    decreases keys
  {
    var image := set k | k in keys :: Index(k);
    if keys == {} {
      assert image == {};
    } else {
      var k :| k in keys;
      var rest := keys - {k};
      ImageIsNoLarger(rest);
      var restImage := set j | j in rest :: Index(j);
      assert image == restImage + {Index(k)};
    }
  }

  /** While fewer than 2^63 keys are held, some draw yields a free one. */
  lemma FreeKeyCanBeDrawn(taken: set<CancelKey>) returns (d: Draw)
    requires |taken| < KEY_SPACE
    ensures KeyFromDraw(d) !in taken
  {
    var i := FreeIndex(taken);
    var key := KeyAt(i);
    KeyRoundTrip(key);
    d := KeyBytes(key);
    DrawOfKey(d, key);
  }

  /** Every key with a non-negative process ID is drawn in exactly two ways, which differ in the sign bit. */
  lemma DrawsOfKey(d: Draw, key: CancelKey)
    requires key.pid >= 0
    ensures KeyFromDraw(d) == key <==>
      d == KeyBytes(key) || d == KeyBytes(CancelKey(key.pid - 0x8000_0000, key.secret))
  {
    KeyRoundTrip(key);
    KeyRoundTrip(CancelKey(key.pid - 0x8000_0000, key.secret));
    KeyBytesRoundTrip(d);
    SignBitIsCleared(d);
  }

  lemma SignBitIsCleared(d: Draw)
    ensures KeyFromDraw(d).secret == DecodeKey(d).secret
    ensures KeyFromDraw(d).pid == if DecodeKey(d).pid >= 0 then DecodeKey(d).pid else DecodeKey(d).pid + 0x8000_0000
  {}

  lemma DrawOfKey(d: Draw, key: CancelKey)
    requires key.pid >= 0 && DecodeKey(d) == key
    ensures KeyFromDraw(d) == key
  {}

  // ---- A fair generator exists ----

  /** Every key in turn, for ever. */
  function CyclicDraw(i: nat): Draw { KeyBytes(KeyAt(i % KEY_SPACE)) }

  lemma FreeIndex(taken: set<CancelKey>) returns (i: nat)
    requires |taken| < KEY_SPACE
    ensures i < KEY_SPACE && KeyAt(i) !in taken
  {
    var image := set k | k in taken :: Index(k);
    ImageIsNoLarger(taken);
    i := Pigeonhole(image, KEY_SPACE);
    var key := KeyAt(i);
    assert key in taken ==> Index(key) in image;
  }

  lemma CyclicDrawAt(i: nat, j: nat)
    requires j < KEY_SPACE && i % KEY_SPACE == j
    ensures KeyFromDraw(CyclicDraw(i)) == KeyAt(j)
  {
    KeyRoundTrip(KeyAt(j));
    DrawOfKey(CyclicDraw(i), KeyAt(j));
  }

  lemma CyclicIsFair()
    ensures Fair(CyclicDraw)
  {
    forall taken: set<CancelKey>, from: nat | |taken| < KEY_SPACE ensures Eventually(CyclicDraw, taken, from) {
      var j := FreeIndex(taken);
      var i := from * KEY_SPACE + j;
      assert i % KEY_SPACE == j && from <= i;
      CyclicDrawAt(i, j);
    }
  }
}
