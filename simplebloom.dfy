/**
 * The in-memory Bloom filter: k hash rounds over a BitSets slot array.
 *
 * Put(x) sets slot HashData(x, i) % n for every round i < k, and Has(x) is
 * true iff all of those slots are set. The hash itself (SHA-256 followed by a
 * seeded 64-bit MurmurHash3) is a pair of uninterpreted functions held in a
 * Hasher value; nothing below depends on how they distribute their outputs.
 */
module SimpleBloom {
  import opened BitSets

  /** Go's uint32, the type the round number is truncated to before seeding. */
  type uint32 = x: nat | x < 0x1_0000_0000

  /** Go's uint (64 bits wide), the type HashData returns. */
  type uint64 = x: nat | x < 0x1_0000_0000_0000_0000

  /** The byte content of a Go string, which []byte(s) copies unchanged. */
  type GoString = seq<byte>

  /**
   * The two foreign hash functions: a cryptographic digest of the data
   * (SHA-256) and a 64-bit hash of the digest seeded with a 32-bit value
   * (MurmurHash3).
   */
  datatype Hasher = Hasher(digest: seq<byte> -> seq<byte>, murmur64: (seq<byte>, uint32) -> uint64)

  /**
   * HashData(data, seed): the digest of data, hashed again with seed cut down
   * to 32 bits, so rounds 2^32 apart hash alike.
   */
  function HashData(h: Hasher, data: seq<byte>, seed: nat): (r: uint64)
    ensures seed >= 0x1_0000_0000 ==> r == HashData(h, data, seed - 0x1_0000_0000)
    decreases seed
  {
    h.murmur64(h.digest(data), seed % 0x1_0000_0000)
  }

  /**
   * Put and Has compute `% n` inside their loop only, so they are safe exactly
   * when the loop does not run or the slice is non-empty.
   */
  predicate Addressable(n: nat, k: nat)
  {
    k == 0 || n >= 1
  }

  /** The slot that round i of data addresses in a slice of n slots. */
  function Index(h: Hasher, data: seq<byte>, round: nat, n: nat): (r: nat)
    requires n >= 1
    ensures r < n
  {
    HashData(h, data, round) % n
  }

  /** All slots the first k rounds of data address. */
  function Positions(h: Hasher, data: seq<byte>, k: nat, n: nat): (r: set<nat>)
    requires Addressable(n, k)
    ensures forall j :: j in r ==> j < n
    ensures forall i :: 0 <= i < k ==> Index(h, data, i, n) in r
    ensures forall j :: j in r ==> exists i :: 0 <= i < k && Index(h, data, i, n) == j
  {
    set i | 0 <= i < k :: Index(h, data, i, n)
  }

  /** The slot contents after the first `rounds` iterations of Put's loop. */
  function PutRounds(s: seq<byte>, h: Hasher, data: seq<byte>, rounds: nat): (r: seq<byte>)
    requires Addressable(|s|, rounds)
    ensures |r| == |s|
    decreases rounds
  {
    if rounds == 0 then s
    else WithSet(PutRounds(s, h, data, rounds - 1), Index(h, data, rounds - 1, |s|))
  }

  /** Has(data) on slot contents s: every one of the k addressed slots is set. */
  predicate Contains(s: seq<byte>, h: Hasher, data: seq<byte>, k: nat)
    requires Addressable(|s|, k)
    ensures Contains(s, h, data, k) <==> forall j :: j in Positions(h, data, k, |s|) ==> SlotIsSet(s, j)
  {
    forall i :: 0 <= i < k ==> SlotIsSet(s, Index(h, data, i, |s|))
  }

  /** Putting each item of items in turn, as the insertion loop of a client does. */
  function PutAll(s: seq<byte>, h: Hasher, items: seq<seq<byte>>, k: nat): (r: seq<byte>)
    requires Addressable(|s|, k)
    ensures |r| == |s|
    decreases |items|
  {
    if items == [] then s
    else PutAll(PutRounds(s, h, items[0], k), h, items[1..], k)
  }

  /**
   * Put(data) writes 1 into exactly the slots its rounds address and leaves
   * every other slot as it was.
   */
  lemma {:induction false} PutSlots(s: seq<byte>, h: Hasher, data: seq<byte>, k: nat, j: nat)
    requires Addressable(|s|, k)
    requires j < |s|
    ensures PutRounds(s, h, data, k)[j] == if j in Positions(h, data, k, |s|) then 1 else s[j]
    decreases k
  {
    if k > 0 {
      PutSlots(s, h, data, k - 1, j);
      var last := Index(h, data, k - 1, |s|);
      assert j in Positions(h, data, k, |s|) <==> j in Positions(h, data, k - 1, |s|) || j == last;
    }
  }

  /** Put never clears a slot: whatever was set before is set afterwards. */
  lemma {:induction false} PutNeverClears(s: seq<byte>, h: Hasher, data: seq<byte>, k: nat, j: nat)
    requires Addressable(|s|, k)
    requires j < |s| && SlotIsSet(s, j)
    ensures SlotIsSet(PutRounds(s, h, data, k), j)
  {
    PutSlots(s, h, data, k, j);
  }

  /** No false negatives: right after Put(x), Has(x) is true. */
  lemma {:induction false} NoFalseNegatives(s: seq<byte>, h: Hasher, x: seq<byte>, k: nat)
    requires Addressable(|s|, k)
    ensures Contains(PutRounds(s, h, x, k), h, x, k)
  {
    var r := PutRounds(s, h, x, k);
    forall i | 0 <= i < k
      ensures SlotIsSet(r, Index(h, x, i, |r|))
    {
      PutSlots(s, h, x, k, Index(h, x, i, |s|));
    }
  }

  /** Monotonicity: once Has(x) is true, it stays true after Put(y). */
  lemma {:induction false} PutKeepsContains(s: seq<byte>, h: Hasher, x: seq<byte>, y: seq<byte>, k: nat)
    requires Addressable(|s|, k)
    requires Contains(s, h, x, k)
    ensures Contains(PutRounds(s, h, y, k), h, x, k)
  {
    var r := PutRounds(s, h, y, k);
    forall i | 0 <= i < k
      ensures SlotIsSet(r, Index(h, x, i, |r|))
    {
      PutNeverClears(s, h, y, k, Index(h, x, i, |s|));
    }
  }

  /**
   * Data reaches the filter only through its digest: two inputs with equal
   * digests address the same slots, so putting one makes Has true of the other.
   */
  lemma {:induction false} DigestCollisionIsFalsePositive(s: seq<byte>, h: Hasher, a: seq<byte>, b: seq<byte>, k: nat)
    requires Addressable(|s|, k)
    requires h.digest(a) == h.digest(b)
    ensures Positions(h, a, k, |s|) == Positions(h, b, k, |s|)
    ensures Contains(PutRounds(s, h, a, k), h, b, k)
  {
    assert forall i :: 0 <= i < k ==> Index(h, a, i, |s|) == Index(h, b, i, |s|);
    NoFalseNegatives(s, h, a, k);
  }

  /** Put is idempotent: Put(x); Put(x) leaves the same slots as Put(x). */
  lemma {:induction false} PutIdempotent(s: seq<byte>, h: Hasher, x: seq<byte>, k: nat)
    requires Addressable(|s|, k)
    ensures PutRounds(PutRounds(s, h, x, k), h, x, k) == PutRounds(s, h, x, k)
  {
    var once := PutRounds(s, h, x, k);
    var twice := PutRounds(once, h, x, k);
    forall j | 0 <= j < |s|
      ensures twice[j] == once[j]
    {
      PutSlots(s, h, x, k, j);
      PutSlots(once, h, x, k, j);
    }
  }

  /** Puts commute: the order in which two items are put does not matter. */
  lemma {:induction false} PutCommutes(s: seq<byte>, h: Hasher, x: seq<byte>, y: seq<byte>, k: nat)
    requires Addressable(|s|, k)
    ensures PutRounds(PutRounds(s, h, x, k), h, y, k) == PutRounds(PutRounds(s, h, y, k), h, x, k)
  {
    var sx, sy := PutRounds(s, h, x, k), PutRounds(s, h, y, k);
    var xy, yx := PutRounds(sx, h, y, k), PutRounds(sy, h, x, k);
    forall j | 0 <= j < |s|
      ensures xy[j] == yx[j]
    {
      PutSlots(s, h, x, k, j);
      PutSlots(s, h, y, k, j);
      PutSlots(sx, h, y, k, j);
      PutSlots(sy, h, x, k, j);
    }
  }

  /** Put keeps every slot 0 or 1 when it was so before. */
  lemma {:induction false} PutPreservesBinary(s: seq<byte>, h: Hasher, x: seq<byte>, k: nat)
    requires Addressable(|s|, k)
    requires Binary(s)
    ensures Binary(PutRounds(s, h, x, k))
  {
    var r := PutRounds(s, h, x, k);
    forall j | 0 <= j < |s|
      ensures r[j] == 0 || r[j] == 1
    {
      PutSlots(s, h, x, k, j);
    }
  }

  /** With k = 0, Put changes nothing and Has is vacuously true. */
  lemma ZeroRounds(s: seq<byte>, h: Hasher, x: seq<byte>)
    ensures PutRounds(s, h, x, 0) == s
    ensures Contains(s, h, x, 0)
  {
  }

  /**
   * No false negatives over any run of puts: after putting every item, Has is
   * true of each of them, and of anything it was already true of.
   */
  lemma {:induction false} PutAllContains(s: seq<byte>, h: Hasher, items: seq<seq<byte>>, k: nat, x: seq<byte>)
    requires Addressable(|s|, k)
    requires x in items || Contains(s, h, x, k)
    ensures Contains(PutAll(s, h, items, k), h, x, k)
    decreases |items|
  {
    if items != [] {
      var s' := PutRounds(s, h, items[0], k);
      if items[0] == x {
        NoFalseNegatives(s, h, x, k);
      } else if Contains(s, h, x, k) {
        PutKeepsContains(s, h, x, items[0], k);
      } else {
        assert x in items[1..];
      }
      PutAllContains(s', h, items[1..], k, x);
    }
  }

  /**
   * False positives are possible: in a one-slot filter a single Put makes Has
   * true of every input, although the empty filter held none of them.
   */
  lemma OneSlotAcceptsEverything(h: Hasher, y: seq<byte>, x: seq<byte>, k: nat)
    requires k >= 1
    ensures !Contains(Zeros(1), h, x, k)
    ensures Contains(PutRounds(Zeros(1), h, y, k), h, x, k)
  {
    assert Index(h, x, 0, 1) == 0;
    NoFalseNegatives(Zeros(1), h, y, k);
    assert Index(h, y, 0, 1) == 0;
  }

  /** A Bloom filter held in memory: k rounds over a slot slice that Close drops. */
  class MemoryBloomFilter {
    const hasher: Hasher
    const k: nat
    /** The slot slice; null once closed, which Go's len treats as empty. */
    var bs: array?<byte>

    /** The slots as a sequence; a closed filter has none. */
    function Slots(): seq<byte>
      reads this, bs
    {
      if bs == null then [] else bs[..]
    }

    /** NewMemoryBloomFilter(n, k): k rounds over n fresh zero slots. */
    constructor (hasher: Hasher, n: nat, k: nat)
      ensures this.hasher == hasher && this.k == k
      ensures bs != null && fresh(bs)
      ensures Slots() == Zeros(n)
    {
      var slots := NewBitSets(n);
      this.hasher := hasher;
      this.k := k;
      bs := slots;
    }

    /** Put(data) sets the slot of each of the k rounds of data. */
    method Put(data: seq<byte>)
      requires Addressable(|Slots()|, k)
      modifies bs
      ensures Slots() == PutRounds(old(Slots()), hasher, data, k)
    {
      var l := if bs == null then 0 else bs.Length;
      for i := 0 to k
        invariant Slots() == PutRounds(old(Slots()), hasher, data, i)
      {
        Set(bs, HashData(hasher, data, i) % l);
      }
    }

    /** PutString(data) is Put on the bytes of data. */
    method PutString(data: GoString)
      requires Addressable(|Slots()|, k)
      modifies bs
      ensures Slots() == PutRounds(old(Slots()), hasher, data, k)
    {
      Put(data);
    }

    /** Has(data) is true iff all k slots of data are set; it returns at the first one that is not. */
    method Has(data: seq<byte>) returns (r: bool)
      requires Addressable(|Slots()|, k)
      ensures r == Contains(Slots(), hasher, data, k)
    {
      var l := if bs == null then 0 else bs.Length;
      for i := 0 to k
        invariant forall j :: 0 <= j < i ==> SlotIsSet(Slots(), Index(hasher, data, j, l))
      {
        if !IsSet(bs, HashData(hasher, data, i) % l) {
          assert !SlotIsSet(Slots(), Index(hasher, data, i, |Slots()|));
          return false;
        }
      }
      return true;
    }

    /** HasString(data) is Has on the bytes of data. */
    method HasString(data: GoString) returns (r: bool)
      requires Addressable(|Slots()|, k)
      ensures r == Contains(Slots(), hasher, data, k)
    {
      r := Has(data);
    }

    /** Close drops the slot slice. */
    method Close()
      modifies this
      ensures bs == null && Slots() == []
    {
      bs := null;
    }
  }

  /**
   * What a caller of the filter object sees: put x, put something else, and
   * Has(x) still answers true.
   */
  method PutThenHas(h: Hasher, n: nat, k: nat, x: seq<byte>, y: seq<byte>) returns (r: bool)
    requires Addressable(n, k)
    ensures r
  {
    var f := new MemoryBloomFilter(h, n, k);
    ghost var s0 := f.Slots();
    f.Put(x);
    NoFalseNegatives(s0, h, x, k);
    ghost var s1 := f.Slots();
    f.Put(y);
    PutKeepsContains(s1, h, x, y, k);
    r := f.Has(x);
  }

  /**
   * The local files a FileBloomFilter persists to: each path holds the slots a
   * store wrote there (the compressed encoding is taken to round-trip exactly).
   */
  class FileSystem {
    var files: map<string, seq<byte>>

    constructor ()
      ensures files == map[]
    {
      files := map[];
    }
  }

  /** A memory Bloom filter that is restored from a file when made and stored to it when closed. */
  class FileBloomFilter {
    const memory: MemoryBloomFilter
    const target: string
    const fs: FileSystem

    /** NewFileBloomFilter(target, n, k): a fresh memory filter, then restored from target if it exists. */
    constructor (fs: FileSystem, target: string, hasher: Hasher, n: nat, k: nat)
      ensures this.fs == fs && this.target == target
      ensures fresh(memory) && memory.hasher == hasher && memory.k == k
      ensures memory.bs != null && fresh(memory.bs)
      ensures memory.Slots() == if target in fs.files then fs.files[target] else Zeros(n)
    {
      memory := new MemoryBloomFilter(hasher, n, k);
      this.target := target;
      this.fs := fs;
      new;
      ReStore();
    }

    /** reStore: a missing file leaves the filter as it is; otherwise its slots replace the slice. */
    method ReStore()
      requires memory.bs != null
      modifies memory
      ensures memory.bs != null && (memory.bs == old(memory.bs) || fresh(memory.bs))
      ensures memory.Slots() == if target in fs.files then fs.files[target] else old(memory.Slots())
    {
      if target in fs.files {
        var saved := fs.files[target];
        memory.bs := new byte[|saved|](i requires 0 <= i < |saved| => saved[i]);
      }
    }

    /** store: the file at target holds the current slots. */
    method Store()
      modifies fs
      ensures fs.files == old(fs.files)[target := memory.Slots()]
    {
      fs.files := fs.files[target := memory.Slots()];
    }

    /** Close stores the slots first and only then drops the slice, so the file holds what the filter held. */
    method Close()
      modifies fs, memory
      ensures fs.files == old(fs.files)[target := old(memory.Slots())]
      ensures memory.bs == null
    {
      Store();
      memory.bs := null;
    }
  }
}
