/** The hash primitive as a parameter, and collisions among strings actually hashed.

    Every result below holds for any function from byte strings to 32 bytes; SHA-256 (FIPS 180-4,
    section 6.2) is one. No such function is injective, so no result assumes that it is: the binding
    results look for a collision in a finite, explicitly listed set of strings. */
module Hashing {
  import opened Bytes

  type Hasher = bytes -> Digest

  ghost predicate CollisionFree(h: Hasher, hashed: seq<bytes>) {
    forall x, y :: x in hashed && y in hashed && h(x) == h(y) ==> x == y
  }

  predicate Collision(h: Hasher, x: bytes, y: bytes) {
    x != y && h(x) == h(y)
  }

  function CollidesWith(h: Hasher, x: bytes, hashed: seq<bytes>): (r: Option<bytes>)
    ensures r.Some? ==> r.value in hashed && r.value != x && h(r.value) == h(x)
    ensures r.None? ==> forall y :: y in hashed && h(y) == h(x) ==> y == x
  {
    if hashed == [] then None
    else if hashed[0] != x && h(hashed[0]) == h(x) then Some(hashed[0])
    else CollidesWith(h, x, hashed[1..])
  }

  /** The extractor: two different strings of the list with the same hash, if there are any. */
  function FindCollision(h: Hasher, hashed: seq<bytes>): (r: Option<(bytes, bytes)>)
    ensures r.None? <==> CollisionFree(h, hashed)
    ensures r.Some? ==> r.value.0 in hashed && r.value.1 in hashed && Collision(h, r.value.0, r.value.1)
  {
    if hashed == [] then None
    else
      match CollidesWith(h, hashed[0], hashed[1..])
      case Some(y) => Some((hashed[0], y))
      case None => FindCollision(h, hashed[1..])
  }

  lemma CollisionFreeSubset(h: Hasher, small: seq<bytes>, large: seq<bytes>)
    requires CollisionFree(h, large)
    requires forall x :: x in small ==> x in large
    ensures CollisionFree(h, small)
  {
  }
}
