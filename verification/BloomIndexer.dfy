/** The bloom filter index: a generator that rotates header blooms into one bit vector per bloom bit, packed
    eight headers to the byte, and the backend that stores the vectors of finished sections. */
module BloomIndexer {
  import opened Common
  import opened HeaderStore

  const BLOOM_BITS := 8 * BLOOM_BYTES

  /** The byte with only bit k set, counted from the most significant. */
  function Mask(k: nat): bv8
    requires k < 8
  {
    if k == 0 then 0x80 else if k == 1 then 0x40 else if k == 2 then 0x20 else if k == 3 then 0x10
    else if k == 4 then 0x08 else if k == 5 then 0x04 else if k == 6 then 0x02 else 0x01
  }

  predicate Bit(x: bv8, k: nat)
    requires k < 8
  {
    x & Mask(k) != 0
  }

  lemma SetBit(x: bv8, k: nat, j: nat)
    requires k < 8 && j < 8
    ensures Bit(x | Mask(k), j) <==> j == k || Bit(x, j)
  {
  }

  /** Bits are counted from the most significant one. */
  lemma BitIs(x: bv8, k: nat)
    requires k < 8
    ensures Bit(x, k) <==> (x >> (7 - k)) & 1 == 1
  {
  }

  /** Whether the packed vector has a one for the header at position i of its section. */
  predicate VectorBit(v: seq<bv8>, i: nat) {
    i / 8 < |v| && Bit(v[i / 8], i % 8)
  }

  /** Bit b of the filter as one big-endian number. */
  predicate BloomBit(bloom: Bloom, b: nat) {
    b < BLOOM_BITS && Bit(bloom[BLOOM_BYTES - 1 - b / 8], 7 - b % 8)
  }

  /** Counted from the end of the filter, eight to the byte, least significant first. */
  lemma BloomBitIs(bloom: Bloom, b: nat)
    requires b < 2048
    ensures BloomBit(bloom, b) <==> (bloom[255 - b / 8] >> (b % 8)) & 1 == 1
  {
    BitIs(bloom[255 - b / 8], 7 - b % 8);
  }

  class Generator {
    const sections: nat
    var blooms: array2<bv8>
    var nextSec: nat
    /** The blooms added so far, in order. */
    ghost var added: seq<Bloom>

    ghost predicate Shaped()
      reads this
    {
      && sections % 8 == 0 && blooms.Length0 == BLOOM_BITS && blooms.Length1 == sections / 8
      && nextSec == |added| <= sections
    }

    ghost predicate Right(b: nat, i: nat)
      requires Shaped() && b < BLOOM_BITS && i < sections
      reads this, blooms
    {
      Bit(blooms[b, i / 8], i % 8) <==> i < nextSec && BloomBit(added[i], b)
    }

    ghost predicate Valid()
      reads this, blooms
    {
      Shaped() && forall b: nat, i: nat {:trigger Right(b, i)} :: b < BLOOM_BITS && i < sections ==> Right(b, i)
    }

    constructor (sections: nat)
      requires sections % 8 == 0
      ensures Valid() && fresh(blooms) && added == [] && this.sections == sections
    {
      this.sections := sections;
      blooms := new bv8[BLOOM_BITS, sections / 8]((_, _) => 0);
      nextSec, added := 0, [];
    }

    /** The first b rows have the bit of the bloom at the next position; everything else is as before. */
    ghost predicate Rotated(b: nat, bloom: Bloom)
      reads this, blooms
    {
      && Shaped() && nextSec < sections && b <= BLOOM_BITS
      && (forall c: nat, i: nat {:trigger Right(c, i)} :: c < BLOOM_BITS && i < sections && (c >= b || i != nextSec)
            ==> Right(c, i))
      && (forall c: nat :: c < b ==> (Bit(blooms[c, nextSec / 8], nextSec % 8) <==> BloomBit(bloom, c)))
    }

    /** Take in the next bloom. Refused, with nothing changed, when the generator is full or the position wrong. */
    method AddBloom(index: int, bloom: Bloom) returns (ok: bool)
      requires Valid()
      modifies this, blooms
      ensures Valid() && blooms == old(blooms)
      ensures ok == (old(nextSec) < sections && old(nextSec) == index)
      ensures added == if ok then old(added) + [bloom] else old(added)
    {
      if nextSec >= sections || nextSec != index {
        return false;
      }
      var byt := 0;
      while byt < BLOOM_BYTES
        invariant byt <= BLOOM_BYTES && Rotated(8 * byt, bloom)
        invariant nextSec == old(nextSec) && added == old(added) && blooms == old(blooms)
      {
        RotateByte(byt, bloom);
        byt := byt + 1;
      }
      label Done:
      nextSec := nextSec + 1;
      added := added + [bloom];
      forall c: nat, i: nat | c < BLOOM_BITS && i < sections ensures Right(c, i) {
        if i != old(nextSec) { assert old@Done(Right(c, i)); }
      }
      return true;
    }

    /** Rotate the eight bits of one byte, none if it is zero. */
    method RotateByte(byt: nat, bloom: Bloom)
      requires byt < BLOOM_BYTES && Rotated(8 * byt, bloom)
      modifies blooms
      ensures Rotated(8 * byt + 8, bloom)
    {
      var bloomByte := bloom[BLOOM_BYTES - 1 - byt];
      if bloomByte == 0 {
        forall c: nat | 8 * byt <= c < 8 * byt + 8
          ensures !BloomBit(bloom, c) && !Bit(blooms[c, nextSec / 8], nextSec % 8)
        {
          assert Right(c, nextSec);
          assert c / 8 == byt;
        }
        return;
      }
      var j := 0;
      while j < 8
        invariant j <= 8 && Rotated(8 * byt + j, bloom)
      {
        assert (8 * byt + j) / 8 == byt && (8 * byt + j) % 8 == j;
        RotateBit(8 * byt + j, Bit(bloomByte, 7 - j), bloom);
        j := j + 1;
      }
    }

    method RotateBit(b: nat, on: bool, ghost bloom: Bloom)
      requires b < BLOOM_BITS && Rotated(b, bloom) && on == BloomBit(bloom, b)
      modifies blooms
      ensures Rotated(b + 1, bloom)
    {
      hide Bit, BloomBit;
      assert Right(b, nextSec);
      if on {
        label Before:
        Turn(b);
        forall c: nat, i: nat | c < BLOOM_BITS && i < sections && (c > b || i != nextSec) ensures Right(c, i) {
          assert old@Before(Right(c, i));
          if c == b && i / 8 == nextSec / 8 { assert i % 8 != nextSec % 8; }
        }
      }
    }

    /** Set the bit of the current position in row b. */
    method Turn(b: nat)
      requires Shaped() && b < BLOOM_BITS && nextSec < sections
      modifies blooms
      ensures forall c: nat, j: nat :: c < BLOOM_BITS && j < sections / 8 && (c != b || j != nextSec / 8)
                ==> blooms[c, j] == old(blooms[c, j])
      ensures forall k: nat :: k < 8
                ==> (Bit(blooms[b, nextSec / 8], k) <==> k == nextSec % 8 || Bit(old(blooms[b, nextSec / 8]), k))
    {
      var x := blooms[b, nextSec / 8];
      forall k: nat | k < 8 ensures Bit(x | Mask(nextSec % 8), k) <==> k == nextSec % 8 || Bit(x, k) {
        SetBit(x, nextSec % 8, k);
      }
      blooms[b, nextSec / 8] := x | Mask(nextSec % 8);
    }

    /** The vector of one bloom bit, once every header is in. */
    method Bitset(bit: nat) returns (r: Option<seq<bv8>>)
      requires Valid()
      ensures r.Some? <==> nextSec == sections && bit < BLOOM_BITS
      ensures r.Some? ==> |r.value| == sections / 8
      ensures r.Some? ==> forall i: nat :: i < sections ==> (VectorBit(r.value, i) <==> BloomBit(added[i], bit))
    {
      if nextSec != sections || bit >= BLOOM_BITS {
        return None;
      }
      var rows := blooms;
      var v := seq(sections / 8, j requires 0 <= j < rows.Length1 && bit < rows.Length0 reads rows => rows[bit, j]);
      assert forall i: nat :: i < sections ==> Right(bit, i) && v[i / 8] == blooms[bit, i / 8];
      return Some(v);
    }
  }

  datatype BloomKey = BloomKey(bit: nat, section: nat, head: Hash)

  /** The batch of one section: for each of the first n bloom bits, its vector over the added blooms. */
  ghost predicate BatchOf(batch: map<BloomKey, seq<bv8>>, n: nat, section: nat, head: Hash, added: seq<Bloom>) {
    && (forall k :: k in batch <==> k.bit < n && k.section == section && k.head == head)
    && (forall k, i: nat {:trigger VectorBit(batch[k], i)} :: k in batch && i < |added|
          ==> (VectorBit(batch[k], i) <==> BloomBit(added[i], k.bit)))
  }

  /** The backend of the chain indexer that files the rotated blooms of a section under its last hash. */
  class Backend {
    const size: nat
    var db: map<BloomKey, seq<bv8>>
    var gen: Generator?
    var section: nat
    var head: Hash

    ghost predicate Open()
      reads this, gen, if gen == null then {} else {gen.blooms}
    {
      gen != null && gen.Valid() && gen.sections == size
    }

    constructor (size: nat, db: map<BloomKey, seq<bv8>>)
      ensures this.size == size && this.db == db && gen == null
    {
      this.size, this.db := size, db;
      gen, section, head := null, 0, ZERO_HASH;
    }

    /** Start a section. Fails, and opens nothing, when the section size does not fill whole bytes. */
    method Reset(section: nat) returns (ok: bool)
      modifies this
      ensures ok == (size % 8 == 0) && db == old(db) && this.section == section && head == ZERO_HASH
      ensures ok ==> Open() && fresh(gen) && fresh(gen.blooms) && gen.added == []
    {
      this.section, head := section, ZERO_HASH;
      ok := size % 8 == 0;
      if ok {
        gen := new Generator(size);
      } else {
        gen := null;
      }
    }

    /** Take in the next header of the section. A refused bloom is not reported. */
    method Process(header: Header)
      requires Open()
      modifies this, gen, gen.blooms
      ensures Open() && gen == old(gen) && gen.blooms == old(gen.blooms) && db == old(db) && section == old(section)
              && head == header.hash
      ensures gen.added == if |old(gen.added)| < size && header.number - section * size == |old(gen.added)|
                           then old(gen.added) + [header.bloom] else old(gen.added)
    {
      var _ := gen.AddBloom(header.number - section * size, header.bloom);
      head := header.hash;
    }

    /** Write the vectors of all bloom bits at once, or nothing when headers are missing. */
    method Commit() returns (ok: bool)
      requires Open()
      modifies `db
      ensures ok == (|gen.added| == size)
      ensures ok ==> exists batch :: BatchOf(batch, BLOOM_BITS, section, head, gen.added) && db == old(db) + batch
      ensures !ok ==> db == old(db)
    {
      var batch: map<BloomKey, seq<bv8>> := map[];
      var i := 0;
      while i < BLOOM_BITS
        invariant i <= BLOOM_BITS && db == old(db) && Open()
        invariant BatchOf(batch, i, section, head, gen.added)
        invariant i > 0 ==> |gen.added| == size
      {
        var bits := gen.Bitset(i);
        if bits.None? { return false; }
        batch := batch[BloomKey(i, section, head) := bits.value];
        i := i + 1;
      }
      db := db + batch;
      return true;
    }
  }
}
