/**
 * The 64-bit identifier layout of the Snowflake scheme, from high bit to low:
 * one unused bit, 41 bits of milliseconds since the epoch, 5 bits of
 * datacenter id, 5 bits of worker (machine) id and a 12-bit sequence number.
 */
module IdLayout {
  import opened Words

  const WorkerIdBits: nat := 5
  const DatacenterIdBits: nat := 5
  const SequenceBits: nat := 12
  const TimestampBits: nat := 41

  const WorkerIdShift: nat := SequenceBits
  const DatacenterIdShift: nat := SequenceBits + WorkerIdBits
  const TimestampLeftShift: nat := SequenceBits + WorkerIdBits + DatacenterIdBits
  const SequenceMask: nat := 4095

  /** A datacenter or worker id the layout can hold. */
  predicate IsIdentity(x: int) {
    0 <= x < 32
  }

  /** A sequence number the layout can hold. */
  predicate IsSequence(x: int) {
    0 <= x <= SequenceMask
  }

  // The field decoders: the inverse of the layout, `(id >> shift) & mask`,
  // with the shifts 22, 17 and 12 and the masks of 41, 5, 5 and 12 bits
  // written as powers of two.

  function TimestampOf(id: nat): nat {
    (id / 0x40_0000) % 0x200_0000_0000
  }

  function DatacenterOf(id: nat): nat {
    (id / 0x2_0000) % 32
  }

  function WorkerOf(id: nat): nat {
    (id / 0x1000) % 32
  }

  function SequenceOf(id: nat): nat {
    id % 0x1000
  }

  /**
   * The identifier packed from a relative timestamp (already `timestamp -
   * twepoch` as an unsigned word), the identity bits and the sequence:
   * `(rel << 22) | (dc << 17) | (worker << 12) | seq` on unsigned 64-bit words.
   * The identity shifts are `int` shifts in C; with ids below 32 they cannot
   * overflow, so they are plain products here.
   */
  function Pack(rel: U64, datacenterId: nat, workerId: nat, sequence: nat,
                timestampShift: nat, datacenterShift: nat, workerShift: nat): nat
    requires timestampShift < 64
  {
    BitOr(BitOr(BitOr(Shl64(rel, timestampShift), datacenterId * Pow2(datacenterShift)),
                workerId * Pow2(workerShift)),
          sequence)
  }

  /** Pack with the layout's shifts: 22 for the timestamp, 17 and 12 for the identity. */
  function MakeId(rel: U64, datacenterId: int, workerId: int, sequence: int): (id: U64)
    requires IsIdentity(datacenterId) && IsIdentity(workerId) && IsSequence(sequence)
    // the fields occupy disjoint bits, so OR-ing them is adding them
    ensures id == Shl64(rel, TimestampLeftShift) + datacenterId * 0x2_0000 + workerId * 0x1000 + sequence
    // every field can be read back
    ensures DatacenterOf(id) == datacenterId
    ensures WorkerOf(id) == workerId
    ensures SequenceOf(id) == sequence
    ensures TimestampOf(id) == rel % 0x200_0000_0000
    // a timestamp that fits in 41 bits leaves the top bit clear
    ensures rel < 0x200_0000_0000 ==> id == rel * 0x40_0000 + datacenterId * 0x2_0000 + workerId * 0x1000 + sequence
    ensures rel < 0x200_0000_0000 ==> id < 0x8000_0000_0000_0000
  {
    PackedFields(rel, datacenterId, workerId, sequence);
    Pack(rel, datacenterId, workerId, sequence, TimestampLeftShift, DatacenterIdShift, WorkerIdShift)
  }

  /** The facts MakeId promises, proved about its body. */
  lemma PackedFields(rel: U64, dc: int, w: int, s: int)
    requires IsIdentity(dc) && IsIdentity(w) && IsSequence(s)
    ensures var id := Pack(rel, dc, w, s, TimestampLeftShift, DatacenterIdShift, WorkerIdShift);
      && id == Shl64(rel, TimestampLeftShift) + dc * 0x2_0000 + w * 0x1000 + s
      && id < TwoTo64
      && DatacenterOf(id) == dc && WorkerOf(id) == w && SequenceOf(id) == s
      && TimestampOf(id) == rel % 0x200_0000_0000
      && (rel < 0x200_0000_0000 ==>
            Shl64(rel, TimestampLeftShift) == rel * 0x40_0000 && id < 0x8000_0000_0000_0000)
  {
    var k := rel % 0x400_0000_0000;
    var sum := k * 0x40_0000 + dc * 0x2_0000 + w * 0x1000 + s;
    var id := Pack(rel, dc, w, s, TimestampLeftShift, DatacenterIdShift, WorkerIdShift);
    assert id == sum by {
      ShiftedTimestamp(rel);
      OrOfFields(k, dc, w, s);
    }
    assert id == Shl64(rel, TimestampLeftShift) + dc * 0x2_0000 + w * 0x1000 + s by {
      ShiftedTimestamp(rel);
    }
    DecodeFields(id, k, dc, w, s);
    ModOfMod(rel, 0x200_0000_0000);
    if rel < 0x200_0000_0000 {
      assert k == rel by {
        DivModUnique(rel, 0x400_0000_0000, 0, rel);
      }
      ShiftedTimestamp(rel);
    }
  }

  /** Shifting left by 22 keeps the low 42 bits of the relative timestamp. */
  lemma ShiftedTimestamp(rel: U64)
    ensures Shl64(rel, TimestampLeftShift) == (rel % 0x400_0000_0000) * 0x40_0000
  {
    Pow2Values();
    var k := rel % 0x400_0000_0000;
    assert rel * 0x40_0000 == (rel / 0x400_0000_0000) * TwoTo64 + k * 0x40_0000;
    DivModUnique(rel * 0x40_0000, TwoTo64, rel / 0x400_0000_0000, k * 0x40_0000);
  }

  /** The three ORs add fields that occupy disjoint bits. */
  lemma OrOfFields(k: nat, dc: int, w: int, s: int)
    requires k < 0x400_0000_0000
    requires IsIdentity(dc) && IsIdentity(w) && IsSequence(s)
    ensures BitOr(BitOr(BitOr(k * 0x40_0000, dc * Pow2(DatacenterIdShift)), w * Pow2(WorkerIdShift)), s)
         == k * 0x40_0000 + dc * 0x2_0000 + w * 0x1000 + s
  {
    Pow2Values();
    var a, d, wv := k * 0x40_0000, dc * Pow2(DatacenterIdShift), w * Pow2(WorkerIdShift);
    assert d == dc * 0x2_0000 && wv == w * 0x1000;
    var ad, adw := a + d, a + d + wv;
    OrAbove(a, d, k, 0x40_0000, 22);
    OrAbove(ad, wv, k * 32 + dc, 0x2_0000, 17);
    OrAbove(adw, s, k * 1024 + dc * 32 + w, 0x1000, 12);
    var x := BitOr(a, d);
    assert x == ad;
    var y := BitOr(x, wv);
    assert y == adw;
  }

  /** OR-ing a multiple of 2^n with a value below 2^n adds them. */
  lemma OrAbove(a: nat, b: nat, q: nat, p: nat, n: nat)
    requires p == Pow2(n) && a == q * p && b < p
    ensures BitOr(a, b) == a + b
  {
    DivModUnique(a, p, q, 0);
    BitOrDisjoint(a, b, n);
  }

  /** Each decoder reads back the field that was packed. */
  lemma DecodeFields(id: nat, k: nat, dc: int, w: int, s: int)
    requires k < 0x400_0000_0000
    requires IsIdentity(dc) && IsIdentity(w) && IsSequence(s)
    requires id == k * 0x40_0000 + dc * 0x2_0000 + w * 0x1000 + s
    ensures id < TwoTo64
    ensures k < 0x200_0000_0000 ==> id < 0x8000_0000_0000_0000
    ensures TimestampOf(id) == k % 0x200_0000_0000
    ensures DatacenterOf(id) == dc && WorkerOf(id) == w && SequenceOf(id) == s
  {
    DivModUnique(id, 0x40_0000, k, dc * 0x2_0000 + w * 0x1000 + s);
    DivModUnique(id, 0x2_0000, k * 32 + dc, w * 0x1000 + s);
    DivModUnique(k * 32 + dc, 32, k, dc);
    DivModUnique(id, 0x1000, k * 1024 + dc * 32 + w, s);
    DivModUnique(k * 1024 + dc * 32 + w, 32, k * 32 + dc, w);
  }

  /**
   * Identifiers packed with different (datacenter, worker) pairs differ,
   * whatever their timestamps and sequence numbers: the identity bits sit in
   * a place of their own.
   */
  lemma DistinctIdentitiesNeverClash(rel1: U64, dc1: int, w1: int, s1: int,
                                     rel2: U64, dc2: int, w2: int, s2: int)
    requires IsIdentity(dc1) && IsIdentity(w1) && IsSequence(s1)
    requires IsIdentity(dc2) && IsIdentity(w2) && IsSequence(s2)
    requires dc1 != dc2 || w1 != w2
    ensures MakeId(rel1, dc1, w1, s1) != MakeId(rel2, dc2, w2, s2)
  {
  }

  /**
   * For one identity and timestamps inside the 41-bit window, the identifier
   * order is exactly the order of (timestamp, sequence) pairs compared
   * timestamp first.
   */
  lemma IdOrder(rel1: U64, s1: int, rel2: U64, s2: int, dc: int, w: int)
    requires IsIdentity(dc) && IsIdentity(w) && IsSequence(s1) && IsSequence(s2)
    requires rel1 < 0x200_0000_0000 && rel2 < 0x200_0000_0000
    ensures MakeId(rel1, dc, w, s1) < MakeId(rel2, dc, w, s2)
        <==> rel1 < rel2 || (rel1 == rel2 && s1 < s2)
  {
    var id1, id2 := MakeId(rel1, dc, w, s1), MakeId(rel2, dc, w, s2);
    var low1, low2 := dc * 0x2_0000 + w * 0x1000 + s1, dc * 0x2_0000 + w * 0x1000 + s2;
    assert id1 == rel1 * 0x40_0000 + low1 && id2 == rel2 * 0x40_0000 + low2;
    assert 0 <= low1 < 0x40_0000 && 0 <= low2 < 0x40_0000;
    if rel1 < rel2 {
      assert rel1 * 0x40_0000 + 0x40_0000 <= rel2 * 0x40_0000;
    } else if rel2 < rel1 {
      assert rel2 * 0x40_0000 + 0x40_0000 <= rel1 * 0x40_0000;
    }
  }

  /** (x mod 2m) mod m == x mod m. */
  lemma ModOfMod(x: nat, m: nat)
    requires m > 0
    ensures (x % (2 * m)) % m == x % m
  {
    var q, r := x / (2 * m), x % (2 * m);
    var q2, r2 := r / m, r % m;
    assert x == (2 * q + q2) * m + r2;
    DivModUnique(x, m, 2 * q + q2, r2);
  }
}
