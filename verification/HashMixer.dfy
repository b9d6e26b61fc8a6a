/** The finaliser of the Murmur hash on both sides, and its inverse. */
module HashMixer {
  type Key = bv32

  function Folded16(k: Key): Key {
    k ^ (k >> 16)
  }

  function Folded13(k: Key): Key {
    k ^ (k >> 13)
  }

  function First(k: Key): Key {
    k * 0x85ebca6b
  }

  function Second(k: Key): Key {
    k * 0xc2b2ae35
  }

  function Mixed(k: Key): Key {
    Folded16(Second(Folded13(First(Folded16(k)))))
  }

  /** Undoes the fold by 13: the upper bits are plain, and uncover the next ones. */
  function Unfolded13(k: Key): Key {
    k ^ (k >> 13) ^ (k >> 26)
  }

  /** The factors are the inverses of the odd ones above, modulo 2 to the 32. */
  function Unfirst(k: Key): Key {
    k * 0xa5cb9243
  }

  function Unsecond(k: Key): Key {
    k * 0x7ed1b41d
  }

  function Unmixed(k: Key): Key {
    Folded16(Unfirst(Unfolded13(Unsecond(Folded16(k)))))
  }

  /** Three values of the published finaliser. */
  lemma KnownHashes()
    ensures Mixed(0) == 0 && Mixed(1) == 0x514e28b7 && Mixed(0xffffffff) == 0x81f16f39
  {
  }

  // ----- The two versions of the code -----

  lemma Steps(k: Key)
    ensures Folded16(k) == k ^ (k >> 16) && Folded13(k) == k ^ (k >> 13)
    ensures First(k) == k * 0x85ebca6b && Second(k) == k * 0xc2b2ae35
  {
  }

  method HashFuncMurmur(key: Key) returns (r: Key)
    ensures r == Mixed(key)
  {
    hide Folded16, Folded13, First, Second;
    r := key;
    Steps(r);
    r := r ^ (r >> 16);
    Steps(r);
    r := r * 0x85ebca6b;
    Steps(r);
    r := r ^ (r >> 13);
    Steps(r);
    r := r * 0xc2b2ae35;
    Steps(r);
    r := r ^ (r >> 16);
  }

  method CpuHashFuncHT(key: Key) returns (r: Key)
    ensures r == Mixed(key)
  {
    hide Folded16, Folded13, First, Second;
    Steps(key);
    r := key ^ (key >> 16);
    Steps(r);
    r := r * 0x85ebca6b;
    Steps(r);
    r := r ^ (r >> 13);
    Steps(r);
    r := r * 0xc2b2ae35;
    Steps(r);
    r := r ^ (r >> 16);
  }

  // ----- Each step undone -----

  lemma FoldUndone(k: Key)
    ensures Folded16(Folded16(k)) == k
  {
    hide *;
    var a := FoldBack(k);
  }

  lemma FoldBack(k: Key) returns (a: Key)
    ensures Folded16(k) == a && Folded16(a) == k
  {
    hide *;
    Steps(k);
    FoldOfFold(k);
    a := k ^ (k >> 16);
  }

  lemma FoldOfFold(k: Key)
    ensures Folded16(k ^ (k >> 16)) == k
  {
  }

  lemma UnfoldUndone(k: Key)
    ensures Unfolded13(Folded13(k)) == k && Folded13(Unfolded13(k)) == k
  {
    hide *;
    var a, b := UnfoldBack(k);
  }

  lemma UnfoldBack(k: Key) returns (a: Key, b: Key)
    ensures Folded13(k) == a && Unfolded13(a) == k && Unfolded13(k) == b && Folded13(b) == k
  {
    hide *;
    Steps(k);
    UnfoldOfFold(k);
    FoldOfUnfold(k);
    a, b := k ^ (k >> 13), k ^ (k >> 13) ^ (k >> 26);
  }

  lemma UnfoldOfFold(k: Key)
    ensures Unfolded13(k ^ (k >> 13)) == k
  {
  }

  lemma FoldOfUnfold(k: Key)
    ensures Unfolded13(k) == k ^ (k >> 13) ^ (k >> 26) && Folded13(k ^ (k >> 13) ^ (k >> 26)) == k
  {
  }

  lemma ProductsUndone(k: Key)
    ensures Unfirst(First(k)) == k && First(Unfirst(k)) == k
    ensures Unsecond(Second(k)) == k && Second(Unsecond(k)) == k
  {
    hide *;
    var a, b := FirstBack(k);
    var c, d := SecondBack(k);
  }

  lemma FirstBack(k: Key) returns (a: Key, b: Key)
    ensures First(k) == a && Unfirst(a) == k && Unfirst(k) == b && First(b) == k
  {
    hide *;
    FirstProducts(k);
    a, b := k * 0x85ebca6b, k * 0xa5cb9243;
  }

  lemma FirstProducts(k: Key)
    ensures First(k) == k * 0x85ebca6b && Unfirst(k * 0x85ebca6b) == k
    ensures Unfirst(k) == k * 0xa5cb9243 && First(k * 0xa5cb9243) == k
  {
  }

  lemma SecondBack(k: Key) returns (a: Key, b: Key)
    ensures Second(k) == a && Unsecond(a) == k && Unsecond(k) == b && Second(b) == k
  {
    hide *;
    SecondProducts(k);
    a, b := k * 0xc2b2ae35, k * 0x7ed1b41d;
  }

  lemma SecondProducts(k: Key)
    ensures Second(k) == k * 0xc2b2ae35 && Unsecond(k * 0xc2b2ae35) == k
    ensures Unsecond(k) == k * 0x7ed1b41d && Second(k * 0x7ed1b41d) == k
  {
  }

  /** The finaliser is a permutation of the 32-bit keys: it has an inverse on both sides. */
  lemma MixingIsAPermutation(k: Key)
    ensures Unmixed(Mixed(k)) == k && Mixed(Unmixed(k)) == k
  {
    hide Folded16, Folded13, Unfolded13, First, Second, Unfirst, Unsecond;
    var a := Folded16(k);
    FoldUndone(k);
    ProductsUndone(a);
    UnfoldUndone(First(a));
    ProductsUndone(Folded13(First(a)));
    FoldUndone(Second(Folded13(First(a))));
    ProductsUndone(Unfolded13(Unsecond(a)));
    UnfoldUndone(Unsecond(a));
    FoldUndone(Unfirst(Unfolded13(Unsecond(a))));
  }

  /** Different keys have different hashes. */
  lemma MixingIsInjective(a: Key, b: Key)
    requires Mixed(a) == Mixed(b)
    ensures a == b
  {
    hide Mixed, Unmixed;
    MixingIsAPermutation(a);
    MixingIsAPermutation(b);
  }
}
