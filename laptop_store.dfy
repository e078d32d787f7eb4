/**
 * The in-memory laptop catalog: a map from laptop id to Laptop, the search
 * filter predicate and the normalisation of memory sizes to bits.
 *
 * Laptops are values here, so the deep copies the store makes on the way in
 * and on the way out are implicit: nothing a caller holds can alias a stored
 * entry.
 */
module LaptopStore {
  import opened Wrappers
  import opened Pb

  /** Errors a laptop store reports. */
  datatype StoreError =
    | ErrAlreadyExists
      /** Any other failure, such as the copier failing in deepCopy; the
          in-memory store, whose copies are values, never reports one. */
    | ErrOther(message: string)

  const TWO_64: int := 0x1_0000_0000_0000_0000

  function Pow2(n: nat): (p: nat)
    ensures p >= 1
  {
    if n == 0 then 1 else 2 * Pow2(n - 1)
  }

  lemma {:induction false} Pow2Add(a: nat, b: nat)
    ensures Pow2(a + b) == Pow2(a) * Pow2(b)
  {
    if a > 0 {
      Pow2Add(a - 1, b);
    }
  }

  /** The shift widths toBit uses, as multipliers: 8 bits to the byte, 1024 to each step. */
  lemma ShiftWidths()
    ensures Pow2(3) == BitsPerUnit(Byte)
    ensures Pow2(13) == BitsPerUnit(Kilobyte)
    ensures Pow2(23) == BitsPerUnit(Megabyte)
    ensures Pow2(33) == BitsPerUnit(Gigabyte)
    ensures Pow2(43) == BitsPerUnit(Terabyte)
  {
    assert Pow2(3) == 8;
    assert Pow2(10) == 1024;
    Pow2Add(3, 10);
    Pow2Add(13, 10);
    Pow2Add(23, 10);
    Pow2Add(33, 10);
  }

  lemma Pow2To64()
    ensures Pow2(64) == TWO_64
  {
    assert Pow2(4) == 16 && Pow2(10) == 1024;
    Pow2Add(10, 10);
    Pow2Add(20, 20);
    Pow2Add(20, 4);
    Pow2Add(40, 24);
  }

  /** Adding a multiple of 2^64 leaves a remainder modulo 2^64 in place. */
  lemma ModTwoTo64OfMultiplePlus(q: int, s: int)
    requires 0 <= s < TWO_64
    ensures (q * TWO_64 + s) % TWO_64 == s
  {
  }

  /** s < m and p > 0 give s * p < m * p. */
  lemma MulStrict(s: int, m: int, p: int)
    requires 0 <= s < m && p > 0
    ensures s * p < m * p
  {
    assert (m - s) * p > 0;
    assert (m - s) * p == m * p - s * p;
  }

  /** (q * m + s) * p == q * (m * p) + s * p. */
  lemma Distribute(q: int, m: int, s: int, p: int)
    ensures (q * m + s) * p == q * (m * p) + s * p
  {
  }

  /** With m * p == 2^64, multiplying x by p modulo 2^64 keeps only x mod m. */
  lemma KeepLowPart(x: int, m: int, p: int)
    requires x >= 0 && m > 0 && p > 0 && m * p == TWO_64
    ensures (x * p) % TWO_64 == (x % m) * p
  {
    var q := x / m;
    var s := x % m;
    assert x == q * m + s;
    Distribute(q, m, s, p);
    MulStrict(s, m, p);
    ModTwoTo64OfMultiplePlus(q, s * p);
  }

  /** For shifts up to 64, the bits of v above position 64 - n are lost and the
      rest moves up by n: the product modulo 2^64 is (v mod 2^(64-n)) * 2^n. */
  lemma ShiftDropsHighBits(v: uint64, n: nat)
    ensures n <= 64 ==> (v as int * Pow2(n)) % TWO_64 == (v as int % Pow2(64 - n)) * Pow2(n)
  {
    if n <= 64 {
      Pow2To64();
      Pow2Add(64 - n, n);
      KeepLowPart(v as int, Pow2(64 - n), Pow2(n));
    }
  }

  /** `v << n` on a Go uint64: the bits shifted out of the top are lost, so
      the result is the exact product v * 2^n only when that fits, and
      otherwise keeps only the low 64 - n bits of v, moved up by n. */
  function Shl(v: uint64, n: nat): (r: uint64)
    ensures v as int * Pow2(n) < TWO_64 ==> r as int == v as int * Pow2(n)
    ensures n <= 64 ==> r as int == (v as int % Pow2(64 - n)) * Pow2(n)
  {
    ShiftDropsHighBits(v, n);
    var product := v as int * Pow2(n);
    assert 0 <= product % TWO_64 < TWO_64;
    assert product < TWO_64 ==> product % TWO_64 == product;
    (product % TWO_64) as uint64
  }

  /** The top bit of a uint64 shifted left by one is lost. */
  lemma TopBitShiftedOut()
    ensures Shl(0x8000_0000_0000_0000, 1) == 0
  {
    Pow2To64();
    Pow2Add(63, 1);
    assert Pow2(1) == 2;
    assert Pow2(63) == 0x8000_0000_0000_0000;
  }

  /** Bits in one unit, counted as 8 bits to the byte and 1024 to each larger step. */
  function BitsPerUnit(u: MemoryUnit): nat {
    match u
    case UnknownUnit => 0
    case Bit => 1
    case Byte => 8
    case Kilobyte => 8 * 1024
    case Megabyte => 8 * 1024 * 1024
    case Gigabyte => 8 * 1024 * 1024 * 1024
    case Terabyte => 8 * 1024 * 1024 * 1024 * 1024
  }

  /** toBit: a memory size in bits, modulo 2^64; an unknown unit counts as 0. */
  function ToBit(m: Memory): (bits: uint64)
    ensures bits as int == (m.value as int * BitsPerUnit(m.unit)) % TWO_64
    ensures m.unit == UnknownUnit ==> bits == 0
  {
    ShiftWidths();
    match m.unit
    case Bit => m.value
    case Byte => Shl(m.value, 3)
    case Kilobyte => Shl(m.value, 13)
    case Megabyte => Shl(m.value, 23)
    case Gigabyte => Shl(m.value, 33)
    case Terabyte => Shl(m.value, 43)
    case UnknownUnit => 0
  }

  /** isQualified: the laptop passes each of the filter's four bounds. */
  function IsQualified(filter: Filter, laptop: Laptop): (q: bool)
    ensures q <==>
      && laptop.priceUsd <= filter.maxPriceUsd
      && laptop.GetNumberCores() >= filter.minCpuCores
      && laptop.GetMinGhz() >= filter.minCpuGhz
      && ToBit(laptop.GetRam()) >= ToBit(filter.GetMinRam())
  {
    if laptop.priceUsd > filter.maxPriceUsd then false
    else if laptop.GetNumberCores() < filter.minCpuCores then false
    else if laptop.GetMinGhz() < filter.minCpuGhz then false
    else if ToBit(laptop.GetRam()) < ToBit(filter.GetMinRam()) then false
    else true
  }

  /** The unit one step smaller than `u` and how many of it make one `u`. */
  function NextSmaller(u: MemoryUnit): (r: (MemoryUnit, nat))
    requires u != UnknownUnit && u != Bit
  {
    match u
    case Byte => (Bit, 8)
    case Kilobyte => (Byte, 1024)
    case Megabyte => (Kilobyte, 1024)
    case Gigabyte => (Megabyte, 1024)
    case Terabyte => (Gigabyte, 1024)
  }

  /** A size written in a unit and the same size written in the next smaller
      unit normalise to the same bit count, e.g. 1 GB and 1024 MB. */
  lemma SameSizeSameBits(v: uint64, u: MemoryUnit)
    requires u != UnknownUnit && u != Bit
    requires v as int * NextSmaller(u).1 < TWO_64
    ensures ToBit(Memory(v, u)) == ToBit(Memory((v as int * NextSmaller(u).1) as uint64, NextSmaller(u).0))
  {
    var (smaller, factor) := NextSmaller(u);
    assert BitsPerUnit(u) == factor * BitsPerUnit(smaller);
    assert v as int * BitsPerUnit(u) == (v as int * factor) * BitsPerUnit(smaller);
  }

  lemma OneGigabyteIs1024Megabytes()
    ensures ToBit(Memory(1, Gigabyte)) == ToBit(Memory(1024, Megabyte))
  {
    SameSizeSameBits(1, Gigabyte);
  }

  /** The shifts wrap: 2^21 terabytes are 2^64 bits, which a uint64 holds as 0. */
  lemma TwoToThe21TerabytesWrapToZero()
    ensures ToBit(Memory(0x20_0000, Terabyte)) == 0
  {
    assert 0x20_0000 * BitsPerUnit(Terabyte) == TWO_64;
  }

  /** A laptop whose RAM has an unknown unit fails every filter asking for
      some memory. */
  lemma UnknownUnitFailsPositiveMinimum(filter: Filter, laptop: Laptop)
    requires laptop.GetRam().unit == UnknownUnit
    ensures IsQualified(filter, laptop) ==> ToBit(filter.GetMinRam()) == 0
  {
  }

  /** Every bound is inclusive: a laptop sitting exactly on all four bounds
      qualifies (price 3000, 4 cores, 2.5 GHz, 8 GB). */
  lemma BoundaryLaptopQualifies(laptop: Laptop)
    requires laptop.priceUsd == 3000.0
    requires laptop.cpu.Some? && laptop.cpu.value.numberCores == 4 && laptop.cpu.value.minGhz == 2.5
    requires laptop.ram == Some(Memory(8, Gigabyte))
    ensures IsQualified(Filter(3000.0, 4, 2.5, Some(Memory(8, Gigabyte))), laptop)
  {
  }

  /** Loosening a filter never drops a laptop it admitted. */
  lemma LooserFilterKeeps(f: Filter, g: Filter, laptop: Laptop)
    requires IsQualified(f, laptop)
    requires g.maxPriceUsd >= f.maxPriceUsd && g.minCpuCores <= f.minCpuCores && g.minCpuGhz <= f.minCpuGhz
    requires ToBit(g.GetMinRam()) <= ToBit(f.GetMinRam())
    ensures IsQualified(g, laptop)
  {
  }

  /** InMemoryLaptopStore: the laptops saved so far, by id. */
  class InMemoryLaptopStore {
    var data: map<string, Laptop>

    /** Every entry is stored under its own id. */
    ghost predicate Valid()
      reads this
    {
      forall id | id in data :: data[id].id == id
    }

    constructor ()
      ensures Valid() && data == map[]
    {
      data := map[];
    }

    /** Save: create-only; a laptop whose id is present is refused and the map kept. */
    method Save(laptop: Laptop) returns (err: Option<StoreError>)
      requires Valid()
      modifies this
      ensures Valid()
      ensures laptop.id in old(data) ==> err == Some(ErrAlreadyExists) && unchanged(this)
      ensures laptop.id !in old(data) ==> err == None && data == old(data)[laptop.id := laptop]
    {
      if laptop.id in data {
        return Some(ErrAlreadyExists);
      }
      data := data[laptop.id := laptop];
      return None;
    }

    /** Find: the laptop stored under `id`, or nothing (which is not an error). */
    method Find(id: string) returns (laptop: Option<Laptop>)
      requires Valid()
      ensures id in data <==> laptop.Some?
      ensures laptop.Some? ==> laptop.value == data[id] && laptop.value.id == id
    {
      if id !in data {
        return None;
      }
      return Some(data[id]);
    }

    /**
     * Search: hands every stored laptop that passes `filter` to `found`, in
     * whatever order the map yields them, and stops at the first error
     * `found` returns. `visited` lists the laptops handed over, in order.
     */
    method Search<E>(filter: Filter, found: Laptop -> Option<E>) returns (visited: seq<Laptop>, err: Option<E>)
      requires Valid()
      ensures forall i | 0 <= i < |visited| ::
        visited[i].id in data && data[visited[i].id] == visited[i] && IsQualified(filter, visited[i])
      ensures forall i, j | 0 <= i < j < |visited| :: visited[i].id != visited[j].id
      ensures forall i | 0 <= i < |visited| - 1 :: found(visited[i]).None?
      ensures err.Some? ==> |visited| > 0 && err == found(visited[|visited| - 1])
      ensures err.None? ==> forall i | 0 <= i < |visited| :: found(visited[i]).None?
      ensures err.None? ==> forall id | id in data && IsQualified(filter, data[id]) :: data[id] in visited
    {
      visited, err := [], None;
      var remaining := data.Keys;
      while remaining != {}
        invariant remaining <= data.Keys
        invariant err.None?
        invariant forall i | 0 <= i < |visited| ::
          visited[i].id in data.Keys - remaining && data[visited[i].id] == visited[i]
          && IsQualified(filter, visited[i]) && found(visited[i]).None?
        invariant forall i, j | 0 <= i < j < |visited| :: visited[i].id != visited[j].id
        invariant forall id | id in data.Keys - remaining && IsQualified(filter, data[id]) :: data[id] in visited
        decreases remaining
      {
        var id :| id in remaining;
        remaining := remaining - {id};
        var laptop := data[id];
        if IsQualified(filter, laptop) {
          visited := visited + [laptop];
          err := found(laptop);
          if err.Some? {
            return;
          }
        }
      }
    }
  }

  /** A laptop saved under a new id is found again, equal to what was saved. */
  method SaveThenFind(store: InMemoryLaptopStore, laptop: Laptop) returns (err: Option<StoreError>, found: Option<Laptop>)
    requires store.Valid()
    modifies store
    ensures store.Valid()
    ensures laptop.id !in old(store.data) ==> err == None && found == Some(laptop)
    ensures laptop.id in old(store.data) ==> err == Some(ErrAlreadyExists) && found == Some(old(store.data)[laptop.id])
  {
    err := store.Save(laptop);
    found := store.Find(laptop.id);
  }

  /** Two Saves of laptops with the same id, one after the other: whichever
      runs first wins if the id was new, and the second always reports
      ErrAlreadyExists and leaves the first one's laptop in place. */
  method SaveTwice(store: InMemoryLaptopStore, first: Laptop, second: Laptop)
    returns (err1: Option<StoreError>, err2: Option<StoreError>)
    requires store.Valid() && first.id == second.id
    modifies store
    ensures store.Valid()
    ensures err2 == Some(ErrAlreadyExists)
    ensures first.id !in old(store.data) ==> err1 == None && store.data == old(store.data)[first.id := first]
    ensures first.id in old(store.data) ==> err1 == Some(ErrAlreadyExists) && store.data == old(store.data)
  {
    err1 := store.Save(first);
    err2 := store.Save(second);
  }
}
