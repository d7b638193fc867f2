/** Leader selection: every relayer computes the leader of a time slot from its own copy of the whitelist. */
module Leader {
  import opened Common
  import BE = BigEndian

  // ------------------------------------------------------ the order of keys

  /** bytes.Compare(a, b) < 0. */
  predicate Less(a: Bytes, b: Bytes)
    decreases |a|
  {
    b != [] && (a == [] || a[0] < b[0] || (a[0] == b[0] && Less(a[1..], b[1..])))
  }

  lemma {:induction false} LessIsTransitive(a: Bytes, b: Bytes, c: Bytes)
    requires Less(a, b) && Less(b, c)
    ensures Less(a, c)
    decreases |a|
  {
    if a != [] && a[0] == b[0] == c[0] {
      LessIsTransitive(a[1..], b[1..], c[1..]);
    }
  }

  lemma {:induction false} LessIsIrreflexive(a: Bytes)
    ensures !Less(a, a)
    decreases |a|
  {
    if a != [] {
      LessIsIrreflexive(a[1..]);
    }
  }

  lemma {:induction false} LessIsTotal(a: Bytes, b: Bytes)
    ensures Less(a, b) || Less(b, a) || a == b
    decreases |a|
  {
    if a != [] && b != [] && a[0] == b[0] {
      LessIsTotal(a[1..], b[1..]);
      assert a == [a[0]] + a[1..] && b == [b[0]] + b[1..];
    }
  }

  ghost predicate Sorted(keys: seq<Bytes>) {
    forall i, j :: 0 <= i < j < |keys| ==> Less(keys[i], keys[j])
  }

  lemma SortedHead(keys: seq<Bytes>)
    requires Sorted(keys) && keys != []
    ensures Elements(keys[1..]) == Elements(keys) - {keys[0]}
  {
    LessIsIrreflexive(keys[0]);
    forall x | x in Elements(keys) - {keys[0]} ensures x in keys[1..] {
      var i :| 0 <= i < |keys| && keys[i] == x;
      assert keys[1..][i - 1] == x;
    }
  }

  lemma HeadsAgree(a: seq<Bytes>, b: seq<Bytes>)
    requires Sorted(a) && Sorted(b) && Elements(a) == Elements(b) && a != [] && b != []
    ensures a[0] == b[0]
  {
    assert a[0] in Elements(b) && b[0] in Elements(a);
    var i :| 0 <= i < |b| && b[i] == a[0];
    var j :| 0 <= j < |a| && a[j] == b[0];
    if i > 0 && j > 0 {
      LessIsTransitive(a[0], b[0], a[0]);
      LessIsIrreflexive(a[0]);
    }
  }

  /** A set of keys has one sorted listing. */
  lemma {:induction false} SortedListingIsUnique(a: seq<Bytes>, b: seq<Bytes>)
    requires Sorted(a) && Sorted(b) && Elements(a) == Elements(b)
    ensures a == b
  {
    assert b != [] ==> b[0] in Elements(b);
    if a != [] {
      assert a[0] in Elements(b);
      HeadsAgree(a, b);
      SortedHead(a);
      SortedHead(b);
      SortedListingIsUnique(a[1..], b[1..]);
      assert a == [a[0]] + a[1..] && b == [b[0]] + b[1..];
    }
  }

  // -------------------------------------------------------- the whitelist

  /** Where `key` goes in a sorted list. */
  method Place(keys: seq<Bytes>, key: Bytes) returns (k: nat)
    requires Sorted(keys) && key !in keys
    ensures k <= |keys|
    ensures forall i :: 0 <= i < k ==> Less(keys[i], key)
    ensures forall i :: k <= i < |keys| ==> Less(key, keys[i])
  {
    k := |keys|;
    while k > 0 && !Less(keys[k - 1], key)
      invariant k <= |keys|
      invariant forall i :: k <= i < |keys| ==> Less(key, keys[i])
    {
      LessIsTotal(key, keys[k - 1]);
      k := k - 1;
    }
    forall i | 0 <= i < k ensures Less(keys[i], key) {
      if i < k - 1 {
        LessIsTransitive(keys[i], keys[k - 1], key);
      }
    }
  }

  lemma InsertedIsSorted(keys: seq<Bytes>, key: Bytes, k: nat)
    requires Sorted(keys) && k <= |keys|
    requires forall i :: 0 <= i < k ==> Less(keys[i], key)
    requires forall i :: k <= i < |keys| ==> Less(key, keys[i])
    ensures Sorted(keys[..k] + [key] + keys[k..])
    ensures Elements(keys[..k] + [key] + keys[k..]) == Elements(keys) + {key}
  {
    assert keys == keys[..k] + keys[k..];
  }

  class RoleProvider {
    var whitelisted: set<Bytes>

    constructor ()
      ensures whitelisted == {}
    {
      whitelisted := {};
    }

    /** Takes over a fetched list as a whole, or nothing of it when an address is malformed; the error is its index. */
    method ProcessResults(isValid: Bytes -> bool, results: seq<Bytes>) returns (r: Result<(), nat>)
      modifies this
      ensures r.Ok? <==> forall i :: 0 <= i < |results| ==> isValid(results[i])
      ensures r.Ok? ==> whitelisted == Elements(results)
      ensures r.Err? ==> whitelisted == old(whitelisted)
      ensures r.Err? ==> r.error < |results| && !isValid(results[r.error])
      ensures r.Err? ==> forall i :: 0 <= i < r.error ==> isValid(results[i])
    {
      var temporary: set<Bytes> := {};
      for k := 0 to |results|
        invariant temporary == Elements(results[..k])
        invariant forall i :: 0 <= i < k ==> isValid(results[i])
      {
        if !isValid(results[k]) {
          return Err(k);
        }
        assert results[..k + 1] == results[..k] + [results[k]];
        temporary := temporary + {results[k]};
      }
      assert results[..|results|] == results;
      whitelisted := temporary;
      return Ok(());
    }

    /** The keys are met in any order; the list that comes out does not depend on it. */
    method SortedPublicKeys() returns (keys: seq<Bytes>)
      ensures Sorted(keys) && Elements(keys) == whitelisted
    {
      keys := [];
      var left := whitelisted;
      while left != {}
        invariant Sorted(keys) && Elements(keys) + left == whitelisted && Elements(keys) !! left
        decreases left
      {
        var key :| key in left;
        assert key !in Elements(keys);
        var k := Place(keys, key);
        InsertedIsSorted(keys, key, k);
        keys := keys[..k] + [key] + keys[k..];
        left := left - {key};
      }
    }
  }

  // ------------------------------------------------------------ the leader

  /** Go's division of signed integers by a positive one: towards zero. */
  function TruncatedDiv(a: int, b: int): int
    requires b > 0
  {
    if a >= 0 then a / b else -((-a) / b)
  }

  /** The time slot as a uint64; a negative quotient wraps. */
  function Slot(now: int, interval: int): int
    requires interval > 0
  {
    var q := TruncatedDiv(now, interval);
    if q >= 0 then q else q + U64
  }

  /** randomInt; the hash gives at least eight bytes. */
  function RandomInt(hash: Bytes -> Bytes, seed: nat, max: nat): (r: nat)
    requires |hash(BE.Encode(seed, 8))| >= 8
    ensures max > 0 ==> r < max
  {
    if max == 0 then 0 else BE.Decode(hash(BE.Encode(seed, 8))[..8]) % max
  }

  ghost predicate Hashes(hash: Bytes -> Bytes) {
    forall b :: |hash(b)| >= 8
  }

  predicate MyTurnAsLeader(hash: Bytes -> Bytes, keys: seq<Bytes>, seed: nat, own: Bytes)
    requires |hash(BE.Encode(seed, 8))| >= 8
  {
    keys != [] && keys[RandomInt(hash, seed, |keys|)] == own
  }

  /** Two relayers with the same whitelist and slot agree on everybody's answer, and exactly one whitelisted relayer
      answers yes, whatever orders they met the keys in. */
  lemma ExactlyOneLeader(hash: Bytes -> Bytes, keys: seq<Bytes>, keys': seq<Bytes>, seed: nat) returns (leader: Bytes)
    requires Hashes(hash) && Sorted(keys) && Sorted(keys') && Elements(keys) == Elements(keys')
    requires keys != []
    ensures leader in keys
    ensures forall own :: MyTurnAsLeader(hash, keys, seed, own) <==> own == leader
    ensures forall own :: MyTurnAsLeader(hash, keys', seed, own) <==> own == leader
  {
    SortedListingIsUnique(keys, keys');
    leader := keys[RandomInt(hash, seed, |keys|)];
  }

  /** Nobody leads an empty whitelist. */
  lemma NoLeaderWithoutKeys(hash: Bytes -> Bytes, keys: seq<Bytes>, seed: nat)
    requires Hashes(hash)
    ensures (exists own :: MyTurnAsLeader(hash, keys, seed, own)) <==> keys != []
  {
    if keys != [] {
      assert MyTurnAsLeader(hash, keys, seed, keys[RandomInt(hash, seed, |keys|)]);
    }
  }

  lemma ProductGrows(a: int, x: int, y: int)
    requires a > 0 && x <= y
    ensures a * x <= a * y
  {
    assert a * y == a * x + a * (y - x);
  }

  /** A quotient is the one number of whole divisors that fit. */
  lemma QuotientIff(n: int, d: int, q: int, r: int, k: int)
    requires d > 0 && n == d * q + r && 0 <= r < d
    ensures q == k <==> d * k <= n < d * k + d
  {
    if k < q {
      ProductGrows(d, k + 1, q);
      assert d * (k + 1) == d * k + d;
    } else if k > q {
      ProductGrows(d, q + 1, k);
      assert d * (q + 1) == d * q + d;
    }
  }

  /** From the epoch on a slot lasts exactly one interval. */
  lemma SlotLastsAnInterval(now: int, interval: int, k: nat)
    requires interval > 0 && now >= 0
    ensures Slot(now, interval) == k <==> interval * k <= now < interval * k + interval
  {
    QuotientIff(now, interval, now / interval, now % interval, k);
  }
}
