/** The symbol index of one library: a Bloom filter in front of a hash set, built on first use. */
module SymbolIndex {

  newtype byte = b: int | 0 <= b < 256

  type Name = seq<byte>

  const TWO32: int := 0x1_0000_0000
  const BITS: nat := 64

  type Hash = h: int | 0 <= h < TWO32 witness 0

  /** The hash as a polynomial, before any truncation. */
  function Polynomial(s: Name): nat {
    if s == [] then 5381 else Polynomial(s[..|s| - 1]) * 33 + s[|s| - 1] as nat
  }

  lemma ModUnique(a: int, q: int, r: int)
    requires a == q * 0x1_0000_0000 + r && 0 <= r < 0x1_0000_0000
    ensures a % 0x1_0000_0000 == r
  {
  }

  /** One round in 32 bits is one round of the polynomial. */
  lemma HashRound(p: nat, c: nat)
    ensures var h := p % TWO32; ((h * 32) % TWO32 + h + c) % TWO32 == (p * 33 + c) % TWO32
  {
    var h := p % 0x1_0000_0000;
    var q := p / 0x1_0000_0000;
    var k := (h * 32) / 0x1_0000_0000;
    var x := (h * 32) % 0x1_0000_0000 + h + c;
    var j := x / 0x1_0000_0000;
    var r := x % 0x1_0000_0000;
    assert p * 33 + c == (j + 33 * q + k) * 0x1_0000_0000 + r;
    ModUnique(p * 33 + c, j + 33 * q + k, r);
  }

  /** The hash of "GNU hash" symbol tables: (h << 5) + h + c in 32-bit arithmetic. */
  method GNUHash(s: Name) returns (h: Hash)
    ensures h == Polynomial(s) % TWO32
  {
    h := 5381;
    for i := 0 to |s|
      invariant h == Polynomial(s[..i]) % TWO32
    {
      assert s[..i + 1][..i] == s[..i];
      HashRound(Polynomial(s[..i]), s[i] as nat);
      h := ((h * 32) % TWO32 + h + s[i] as int) % TWO32;
    }
    assert s[..|s|] == s;
  }

  function HashOf(s: Name): Hash {
    Polynomial(s) % TWO32
  }

  function Pow2(n: nat): (r: nat)
    ensures r > 0
  {
    if n == 0 then 1 else 2 * Pow2(n - 1)
  }

  function Log2u(n: nat): (r: nat)
    ensures n > 0 ==> Pow2(r) <= n < Pow2(r + 1)
  {
    if n > 1 then 1 + Log2u(n / 2) else 0
  }

  /** The word that a hash selects. */
  function WordOf(h: Hash, size: nat): (n: nat)
    requires size > 0
    ensures n < size
  {
    (h / Pow2(6)) % size
  }

  /** A 64-bit word as the set of its one bits: `|` is union, and `(mask & w) == mask` inclusion. */
  type Word = set<nat>

  /** The two bits of a hash in its word. */
  function Mask(h: Hash, shift: nat): Word {
    {h % BITS, (h / Pow2(shift)) % BITS}
  }

  predicate TestHash(table: seq<Word>, shift: nat, h: Hash)
    requires |table| > 0
  {
    Mask(h, shift) <= table[WordOf(h, |table|)]
  }

  function AddHash(table: seq<Word>, shift: nat, h: Hash): (r: seq<Word>)
    requires |table| > 0
    ensures |r| == |table|
    ensures TestHash(r, shift, h)
    ensures forall g: Hash :: TestHash(table, shift, g) ==> TestHash(r, shift, g)
  {
    var n := WordOf(h, |table|);
    table[n := table[n] + Mask(h, shift)]
  }

  class LibraryPath {
    /** What the object file lists, undefined and unnamed symbols left out; files do not change. */
    const collected: seq<Name>
    var isInitialized: bool
    var symbolsCount: nat
    var bloomShift: nat
    var bloomTable: seq<Word>
    var symbols: set<Name>

    constructor (collected: seq<Name>)
      ensures this.collected == collected && !isInitialized && Valid()
    {
      this.collected := collected;
      isInitialized, symbolsCount, bloomShift, bloomTable, symbols := false, 0, 0, [], {};
    }

    ghost predicate Valid()
      reads this
    {
      isInitialized ==>
        && symbolsCount == |collected|
        && symbols == (set s | s in collected)
        && (collected != [] ==> |bloomTable| > 0)
        && (forall s :: s in collected ==> TestHash(bloomTable, bloomShift, HashOf(s)))
    }

    /** `bloomSize` is the table size chosen in floating point; it is positive for a positive count. */
    method BuildBloomFilter(bloomSize: nat)
      requires Valid() && !isInitialized && (collected != [] ==> bloomSize > 0)
      modifies this
      ensures Valid() && isInitialized
    {
      isInitialized := true;
      symbolsCount := |collected|;
      var log2 := Log2u(symbolsCount);
      bloomShift := if log2 < 6 then log2 else 6;
      bloomTable := seq(bloomSize, _ => {});
      symbols := {};
      if symbolsCount == 0 {
        return;
      }
      for i := 0 to |collected|
        invariant isInitialized && symbolsCount == |collected| && |bloomTable| == bloomSize
        invariant symbols == set s | s in collected[..i]
        invariant forall s :: s in collected[..i] ==> TestHash(bloomTable, bloomShift, HashOf(s))
      {
        var s := collected[i];
        var h := GNUHash(s);
        symbols := symbols + {s};
        bloomTable := AddHash(bloomTable, bloomShift, h);
        assert collected[..i + 1] == collected[..i] + [s];
      }
      assert collected[..|collected|] == collected;
    }

    method MayExistSymbol(h: Hash) returns (b: bool)
      requires Valid() && isInitialized
      ensures !b ==> forall s :: s in collected ==> HashOf(s) != h
    {
      if symbolsCount == 0 {
        return false;
      }
      b := TestHash(bloomTable, bloomShift, h);
    }

    /** ContainsSymbol: whatever was asked before, and in whatever order, the answer is membership
        in the file's symbol list; a false positive of the filter never gets through and there is
        no false negative.  `gate` is whether the file can be read and passes the linker's own
        .gnu.hash filter. */
    method ContainsSymbol(name: Name, gate: bool, bloomSize: nat) returns (b: bool)
      requires Valid() && (collected != [] ==> bloomSize > 0)
      modifies this
      ensures Valid()
      ensures b <==> gate && name in collected
    {
      if !gate {
        return false;
      }
      if !isInitialized {
        BuildBloomFilter(bloomSize);
      }
      var h := GNUHash(name);
      var may := MayExistSymbol(h);
      if !may {
        return false;
      }
      b := name in symbols;
    }
  }
}
