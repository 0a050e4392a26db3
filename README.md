# simplebloom in Dafny

A model of the in-memory Bloom filter of the Go package `simplebloom` and of
the slot array beneath it.

- `bitsets.dfy`, module `BitSets`: the `BitSets` type. It is a Go byte slice
  with one byte per slot, modelled as a Dafny `array<byte>`, because Go's
  methods on a slice value write through to its shared storage. `NewBitSets`
  allocates zeroed slots. `Set` writes 1 and `Unset` writes 0. `IsSet` tests
  for exactly 1. The pure functions `Zeros`, `WithSet` and `WithUnset` give
  the contents each write leaves, and the methods are proved against them.
- `simplebloom.dfy`, module `SimpleBloom`:
  - `HashData` is a SHA-256 digest followed by a 64-bit MurmurHash3 seeded
    with `uint32(seed)`. The model keeps both hash functions uninterpreted,
    as the fields of a `Hasher` value. The 32-bit truncation of the seed is
    written out.
  - The specification functions mirror the filter's loops. `PutRounds` is
    the state after the first `i` rounds of `Put`. `Contains` is what `Has`
    answers. `Positions` is the set of slots that an item's rounds address.
    `PutAll` is a run of puts.
  - The class `MemoryBloomFilter` has the constant fields `hasher` and `k`
    and the slot slice `bs`. `Close` sets `bs` to null, which Go's `len`
    treats as an empty slice. `Put` and `Has` are loops proved against
    `PutRounds` and `Contains`.
  - `FileBloomFilter` wraps a memory filter. It is modelled for the order in
    which `Close` works: it stores the slots first and then drops them. The
    file system is a `FileSystem` object whose `files` map a path to the
    slots stored there.

Put and Has compute `hash % len(bs)` only inside their loop. Go panics on a
modulus of zero. Both operations therefore require
`Addressable(len, k)`, meaning `k == 0 || len >= 1`. `Set`, `Unset` and
`IsSet` require `index < len(bs)`, since Go panics on any other index.

Three facts about the code shape the model:
- Despite its name, `BitSets` stores one byte per slot, and a slot counts as
  set only when it holds exactly 1.
- Nothing checks `k >= 1` or `n >= 1`, so `k == 0` is allowed: then `Put`
  does nothing and `Has` is true.
- Restoring a file filter replaces the slice with the stored one, whose
  length may differ from `n`.

## Model

| member | source | states |
|---|---|---|
| BitSets.Zeros | bitsets.go:5-8 | a new slice has exactly n slots, each 0 and none set |
| BitSets.NewBitSets | bitsets.go:5-8 | allocates a fresh array of n zero slots |
| BitSets.WithSet | bitsets.go:10-12 | after Set(i) slot i is set, every other slot is unchanged and the length is unchanged |
| BitSets.Set | bitsets.go:10-12 | writes in place exactly the contents WithSet describes; requires index < len |
| BitSets.WithUnset | bitsets.go:14-16 | after Unset(i) slot i is not set, every other slot is unchanged and the length is unchanged |
| BitSets.Unset | bitsets.go:14-16 | writes in place exactly the contents WithUnset describes; requires index < len |
| BitSets.IsSet | bitsets.go:18-20 | true iff the slot holds 1; on a slice whose slots are all 0 or 1 this is the same as the slot being nonzero |
| BitSets.SetIdempotent | bitsets.go:10-12 | Set applied twice gives the same contents as Set applied once |
| BitSets.UnsetIdempotent | bitsets.go:14-16 | Unset applied twice gives the same contents as Unset applied once |
| BitSets.WritesPreserveBinary | bitsets.go:10-16 | Set and Unset keep every slot at 0 or 1 |
| SimpleBloom.HashData | simplebloom.go:43-49 | the seeded 64-bit hash of the data's digest, with the seed taken mod 2^32, so seeds 2^32 apart hash alike |
| SimpleBloom.Index | simplebloom.go:61-63 | every slot that Put or Has touches is below the slice length |
| SimpleBloom.Positions | simplebloom.go:62-63 | the set of slots addressed by rounds 0..k-1: each is in range, each round's slot is in it, and nothing else is |
| SimpleBloom.PutRounds | simplebloom.go:60-65 | the slot contents after a number of Put rounds; the length never changes |
| SimpleBloom.PutSlots | simplebloom.go:60-65 | Put sets exactly the slots in Positions and leaves every other slot as it was |
| SimpleBloom.PutNeverClears | simplebloom.go:60-65 | Put never turns a set slot off |
| SimpleBloom.Contains | simplebloom.go:73-83 | what Has answers: true iff every slot in Positions(x) is set |
| SimpleBloom.NoFalseNegatives | simplebloom.go:60-83 | Has(x) is true right after Put(x), from any starting slots |
| SimpleBloom.PutKeepsContains | simplebloom.go:60-83 | once Has(x) is true, it stays true after Put(y) |
| SimpleBloom.DigestCollisionIsFalsePositive | simplebloom.go:43-49 | data reaches the filter only through its SHA-256 digest: inputs with equal digests address the same slots, so putting one makes Has true of the other |
| SimpleBloom.PutIdempotent | simplebloom.go:60-65 | Put(x) twice leaves the same slots as Put(x) once |
| SimpleBloom.PutCommutes | simplebloom.go:60-65 | Put(x); Put(y) leaves the same slots as Put(y); Put(x) |
| SimpleBloom.PutPreservesBinary | simplebloom.go:60-65 | Put keeps every slot at 0 or 1 |
| SimpleBloom.ZeroRounds | simplebloom.go:60-83 | with k = 0, Put changes nothing and Has is true |
| SimpleBloom.PutAll | simplebloom_test.go:13-15 | putting a list of items keeps the slice length |
| SimpleBloom.PutAllContains | simplebloom_test.go:19-24 | after every item of a list is put, Has is true of each item and of everything it was true of before |
| SimpleBloom.OneSlotAcceptsEverything | simplebloom.go:73-83 | false positives happen: with one slot, one Put makes Has true of every input, and none was true before |
| SimpleBloom.MemoryBloomFilter.constructor | simplebloom.go:52-57 | NewMemoryBloomFilter keeps the hasher and k and holds n fresh zero slots |
| SimpleBloom.MemoryBloomFilter.Put | simplebloom.go:60-65 | the in-place loop leaves the slots equal to PutRounds of the old slots over all k rounds |
| SimpleBloom.MemoryBloomFilter.PutString | simplebloom.go:68-70 | has the same effect as Put on the string's bytes |
| SimpleBloom.MemoryBloomFilter.Has | simplebloom.go:73-83 | the early-exit loop returns exactly Contains of the current slots and changes nothing |
| SimpleBloom.MemoryBloomFilter.HasString | simplebloom.go:86-88 | gives the same answer as Has on the string's bytes |
| SimpleBloom.MemoryBloomFilter.Close | simplebloom.go:91-93 | drops the slice, after which the filter has no slots |
| SimpleBloom.PutThenHas | simplebloom_test.go:13-24 | on a filter object, Put(x) then Put(y) then Has(x) answers true |
| SimpleBloom.FileBloomFilter.constructor | simplebloom.go:98-106 | a new memory filter whose slots are the stored ones if the target file exists, and n zero slots otherwise |
| SimpleBloom.FileBloomFilter.ReStore | simplebloom.go:130-150 | a missing file leaves the slots alone; an existing file's slots replace the slice |
| SimpleBloom.FileBloomFilter.Store | simplebloom.go:113-128 | the target file holds the current slots, and no other file changes |
| SimpleBloom.FileBloomFilter.Close | simplebloom.go:108-111 | stores the slots as they were before closing, then drops the slice |

## Left out

- SHA-256 and MurmurHash3 are uninterpreted functions, and nothing is assumed
  about how their outputs are distributed. So false-positive rates, including
  the hit-rate threshold of simplebloom_test.go, are not modelled.
- BitSets.Set, BitSets.Unset, BitSets.IsSet, SimpleBloom.MemoryBloomFilter.Put
  and SimpleBloom.MemoryBloomFilter.Has: the Go panics are not modelled as
  outcomes. An out-of-range index (bitsets.go:11, :15, :19) and a modulus of
  zero (simplebloom.go:63, :77) are excluded by `requires` clauses instead.
- `RedisBloomFilter` is left out. It is a network client of an external list
  store and runs the same loops as `Put` and `Has`.
- The `BloomFilter` interface is not modelled as a type. `FileBloomFilter`
  reaches `Put` and `Has` through its `memory` field, which is the memory
  filter that Go embeds.
- File I/O in `store` and `reStore`: gob encoding under gzip is taken to
  round-trip the slots exactly. The `log.Fatalf` exits on open, compression
  and decoding errors are left out. So is any other failure to open the file
  than its absence.
- SimpleBloom.FileBloomFilter.Close: what gob does with a nil or empty slice
  is not modelled; a second Close stores an empty slot sequence.
- `n` and `k` are Go `uint` values and are modelled as `nat`. The loop counter
  cannot overflow, since it stays below `k`.
- Go strings are byte sequences, and `[]byte(s)` copies them unchanged, so
  `GoString` is a sequence of bytes. Conversion from text is outside the
  model.
- The code has no concurrency, and none is modelled.
