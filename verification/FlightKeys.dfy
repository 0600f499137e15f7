/** The identity under which concurrent requests are merged: flightKey of cache.go. */
module FlightKeys {
  import opened Numerals

  /** The default store, a custom store known by its address, or a custom store without a stable identity,
    * which gets a number of its own for every request. */
  datatype Identity = Default | Address(id: nat) | Private(serial: nat)

  const NUL: char := '\0'

  function FlightKey(id: Identity, key: string): string {
    match id
    case Default => ['d', NUL] + key
    case Address(n) => ['p'] + FormatUint(n, 36) + [NUL] + key
    case Private(n) => ['u'] + FormatUint(n, 36) + [NUL] + key
  }

  /** A head without NUL is determined by the first NUL. */
  lemma SplitAtNul(a: string, x: string, b: string, y: string)
    requires NUL !in a && NUL !in b
    requires a + [NUL] + x == b + [NUL] + y
    ensures a == b && x == y
  {
    var l, r := a + [NUL] + x, b + [NUL] + y;
    assert l[|a|] == NUL && r[|b|] == NUL;
    assert |a| >= |b| && |b| >= |a|;
    assert l[..|a|] == a && r[..|b|] == b;
    assert l[|a| + 1..] == x && r[|b| + 1..] == y;
  }

  /** Two requests share a flight only if they agree on the store and on the cache key, whatever the key contains. */
  lemma FlightKeyInjective(id: Identity, key: string, id': Identity, key': string)
    requires FlightKey(id, key) == FlightKey(id', key')
    ensures id == id' && key == key'
  {
    var k, k' := FlightKey(id, key), FlightKey(id', key');
    assert k[0] == k'[0];
    if id.Default? {
      assert k[2..] == key && k'[2..] == key';
    } else {
      var n, n' := if id.Address? then id.id else id.serial, if id'.Address? then id'.id else id'.serial;
      NumeralChars(n, 36);
      NumeralChars(n', 36);
      assert k[1..] == FormatUint(n, 36) + [NUL] + key;
      assert k'[1..] == FormatUint(n', 36) + [NUL] + key';
      SplitAtNul(FormatUint(n, 36), key, FormatUint(n', 36), key');
      NumeralsDiffer(n, n', 36);
    }
  }
}
