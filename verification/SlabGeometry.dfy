/**
 Layout of a slab: a 32-byte header, a 16-bit link for each object, then the objects; and
 the size classes of kmalloc.  Sizes are 64-bit unsigned.
 */
module SlabGeometry {
  import opened Powers
  import opened Wrappers

  const WORD: nat := 0x1_0000_0000_0000_0000
  const HEADER: nat := 32
  const NOFREE: nat := 0xFFFF
  const MAX_SLAB_ORDER: nat := 6
  const MIN_OBJS_PER_SLAB: nat := 8

  /** ALIGN_UP on 64-bit unsigned numbers. */
  function AlignUp(x: nat, align: nat): (r: nat)
    requires align > 0
  {
    if x % align == 0 then x else (x + (align - x % align)) % WORD
  }

  lemma AlignUpEight(x: nat)
    requires x <= WORD - 8
    ensures x <= AlignUp(x, 8) < x + 8 && AlignUp(x, 8) % 8 == 0 && AlignUp(x, 8) <= WORD - 8
  {
  }

  function ObjectSize(size: nat): nat {
    AlignUp(if size < 8 then 8 else size, 8)
  }

  function MinObjects(obj: nat): nat {
    if obj > 2048 then 1 else MIN_OBJS_PER_SLAB
  }

  function SlabBytes(order: nat): nat {
    4096 * Pow2(order)
  }

  datatype Geometry = Geometry(order: nat, objectSize: nat, count: nat, offset: nat)

  /** The header, the link array and `count` objects fit, apart from one another, in the slab's pages. */
  predicate Sound(g: Geometry) {
    && g.objectSize >= 8 && g.objectSize % 8 == 0
    && g.offset % 8 == 0 && HEADER + 2 * g.count <= g.offset
    && g.offset + g.count * g.objectSize <= SlabBytes(g.order)
    && 1 <= g.count < NOFREE
  }

  /** What the smallest acceptable slab for this object size takes. */
  function Need(obj: nat): nat {
    (if obj > 2048 then 40 else 48) + MinObjects(obj) * obj
  }

  /** The trial of one order in kmem_cache_create: the number of objects, or None to try the next order. */
  function Trial(obj: nat, bytes: nat): (r: Option<nat>)
    requires obj > 0 && bytes >= HEADER
  {
    var m := MinObjects(obj);
    var n0 := (bytes - AlignUp(HEADER, 8)) / obj;
    if n0 < m then None
    else
      var n := CountWith(obj, bytes, AlignUp(HEADER + n0 * 2, 8));
      if n >= m then Some(n) else None
  }

  /** The number of objects beside a header of the given length. */
  function CountWith(obj: nat, bytes: nat, header: nat): nat
    requires obj > 0
  {
    (if bytes > header then bytes - header else 0) / obj
  }

  lemma DivBounds(x: nat, d: nat)
    requires d > 0
    ensures x / d * d <= x < x / d * d + d
  {
  }

  lemma DivAtLeast(x: nat, d: nat, m: nat)
    requires d > 0 && m * d <= x
    ensures x / d >= m
  {
    if x / d < m {
      MulMono(x / d + 1, m, d);
      MulDistribute(x / d, 1, d);
      DivBounds(x, d);
    }
  }

  lemma MulMono(x: nat, y: nat, d: nat)
    requires x <= y
    ensures x * d <= y * d && d * x <= d * y
  {
  }

  /** The links of n0 objects never take the room of the spare ones beyond the minimum. */
  lemma LinksFitInSpare(obj: nat, bytes: nat, n0: nat)
    requires obj >= 8 && 4096 <= bytes && n0 == (bytes - HEADER) / obj && n0 > MinObjects(obj)
    ensures MinObjects(obj) * obj + 2 * n0 + 6 + HEADER <= bytes
  {
    var m := MinObjects(obj);
    DivBounds(bytes - HEADER, obj);
    MulDistribute(m, n0 - m, obj);
    if obj <= 64 {
      DivAtLeast(bytes - HEADER, obj, 63) by { assert 63 * obj <= 63 * 64; }
      MulMono(8, obj, n0 - m);
    } else if obj <= 2048 {
      MulMono(65, obj, n0 - m);
    } else {
      MulMono(2049, obj, n0 - m);
    }
  }

  /** Estimating n0 objects leaves room for the minimum beside their links exactly when the minimum fits. */
  lemma EstimateIff(obj: nat, bytes: nat, n0: nat, header: nat)
    requires obj >= 8 && 4096 <= bytes && n0 == (bytes - HEADER) / obj && n0 >= MinObjects(obj)
    requires HEADER + 2 * n0 <= header <= HEADER + 2 * n0 + 6 && header % 8 == 0
    ensures CountWith(obj, bytes, header) >= MinObjects(obj) <==> Need(obj) <= bytes
  {
    var m := MinObjects(obj);
    var usable := if bytes > header then bytes - header else 0;
    if Need(obj) <= bytes {
      if n0 > m {
        LinksFitInSpare(obj, bytes, n0);
      }
      DivAtLeast(usable, obj, m);
    } else if usable / obj >= m {
      DivBounds(usable, obj);
      MulMono(m, usable / obj, obj);
    }
  }

  lemma NeedIs(obj: nat)
    ensures MinObjects(obj) * obj + HEADER <= Need(obj)
  {
  }

  /** The trial of an order succeeds exactly when the minimum number of objects fits in it. */
  lemma TrialIff(obj: nat, bytes: nat)
    requires 8 <= obj <= WORD - 8 && obj % 8 == 0 && 4096 <= bytes <= 262144
    ensures Trial(obj, bytes).Some? <==> Need(obj) <= bytes
  {
    hide CountWith, AlignUp, Need;
    NeedIs(obj);
    var m := MinObjects(obj);
    var n0 := (bytes - HEADER) / obj;
    assert AlignUp(HEADER, 8) == HEADER by { AlignUpEight(HEADER); }
    if n0 >= m {
      CountBound(bytes - HEADER, obj);
      AlignUpEight(HEADER + n0 * 2);
      EstimateIff(obj, bytes, n0, AlignUp(HEADER + n0 * 2, 8));
    } else if Need(obj) <= bytes {
      DivAtLeast(bytes - HEADER, obj, m);
    }
  }

  lemma CountBound(x: nat, obj: nat)
    requires obj >= 8
    ensures 8 * (x / obj) <= x
  {
    DivBounds(x, obj);
    MulMono(8, obj, x / obj);
  }

  /** Fewer objects than first estimated fit beside the links of the estimate. */
  lemma SecondCount(bytes: nat, obj: nat, header: nat)
    requires obj >= 8 && HEADER <= header && bytes >= HEADER
    ensures var n := CountWith(obj, bytes, header);
            && n <= (bytes - HEADER) / obj
            && 8 * n <= bytes
            && (n > 0 ==> header + n * obj <= bytes)
            && bytes < header + (n + 1) * obj
  {
    var usable := if bytes > header then bytes - header else 0;
    var n := usable / obj;
    DivBounds(usable, obj);
    CountBound(usable, obj);
    MulDistribute(n, 1, obj);
    DivAtLeast(bytes - HEADER, obj, n);
  }

  lemma TrialFacts(obj: nat, bytes: nat) returns (n0: nat, n: nat)
    requires obj >= 8 && HEADER <= bytes <= 262144 && Trial(obj, bytes).Some?
    ensures Trial(obj, bytes) == Some(n) && MinObjects(obj) <= n <= n0 && 8 * n0 <= bytes && 8 * n <= bytes
    ensures n0 == (bytes - HEADER) / obj
    ensures AlignUp(HEADER + n0 * 2, 8) + n * obj <= bytes < AlignUp(HEADER + n0 * 2, 8) + (n + 1) * obj
  {
    hide AlignUp, CountWith;
    assert AlignUp(HEADER, 8) == HEADER by { AlignUpEight(HEADER); }
    n0 := (bytes - HEADER) / obj;
    n := Trial(obj, bytes).value;
    CountBound(bytes - HEADER, obj);
    AlignUpEight(HEADER + n0 * 2);
    SecondCount(bytes, obj, AlignUp(HEADER + n0 * 2, 8));
  }

  /** One object more does not fit beside the links of as many objects as the slab could hold without any. */
  ghost predicate Filled(g: Geometry) {
    g.objectSize > 0 && SlabBytes(g.order) >= HEADER &&
    var n0 := (SlabBytes(g.order) - HEADER) / g.objectSize;
    SlabBytes(g.order) < AlignUp(HEADER + 2 * n0, 8) + (g.count + 1) * g.objectSize
  }

  /** A successful trial gives a sound layout with as many objects as fit, the first at the first aligned place. */
  lemma TrialSound(obj: nat, order: nat)
    requires 8 <= obj <= WORD - 8 && obj % 8 == 0 && order <= MAX_SLAB_ORDER
    requires 4096 <= SlabBytes(order) <= 262144
    requires Trial(obj, SlabBytes(order)).Some?
    ensures var n := Trial(obj, SlabBytes(order)).value;
            && n >= MinObjects(obj) && AlignUp(HEADER + n * 2, 8) < HEADER + 2 * n + 8
            && Sound(Geometry(order, obj, n, AlignUp(HEADER + n * 2, 8)))
            && Filled(Geometry(order, obj, n, AlignUp(HEADER + n * 2, 8)))
  {
    hide AlignUp, SlabBytes, Trial;
    var n0, n := TrialFacts(obj, SlabBytes(order));
    AlignUpEight(HEADER + n * 2);
    AlignUpMonotone(HEADER + n * 2, HEADER + n0 * 2);
  }

  lemma AlignUpMonotone(x: nat, y: nat)
    requires x <= y <= WORD - 8
    ensures AlignUp(x, 8) <= AlignUp(y, 8)
  {
  }

  lemma SlabBytesRange(order: nat)
    requires order <= MAX_SLAB_ORDER
    ensures 4096 <= SlabBytes(order) <= 262144
    ensures order == MAX_SLAB_ORDER ==> SlabBytes(order) == 262144
  {
    Pow2Monotone(0, order);
    Pow2Monotone(order, 6);
    assert Pow2(6) == 64;
  }

  /** The layout loop of kmem_cache_create. */
  method Layout(size: nat) returns (g: Option<Geometry>)
    requires size <= WORD - 8
    ensures g.Some? <==> size <= 262104
    ensures g.Some? ==> Sound(g.value) && Filled(g.value) && g.value.order <= MAX_SLAB_ORDER
    ensures g.Some? ==> size <= g.value.objectSize && 8 <= g.value.objectSize
    ensures g.Some? ==> g.value.objectSize == 8 || g.value.objectSize < size + 8
    ensures g.Some? ==> g.value.offset < HEADER + 2 * g.value.count + 8
    ensures g.Some? ==> g.value.count >= if g.value.objectSize > 2048 then 1 else 8
    ensures g.Some? && g.value.order > 0 ==>
      SlabBytes(g.value.order - 1) < if g.value.objectSize > 2048 then 40 + g.value.objectSize
      else 48 + 8 * g.value.objectSize
  {
    hide Pow2, Trial, AlignUp, Sound, Filled, SlabBytes;
    var obj := ObjectSize(size);
    ObjectSizeRange(size);
    var order := 0;
    while order <= MAX_SLAB_ORDER
      invariant 0 <= order <= MAX_SLAB_ORDER + 1
      invariant order > 0 ==> SlabBytes(order - 1) < Need(obj)
    {
      SlabBytesRange(order);
      TrialIff(obj, SlabBytes(order));
      var t := Trial(obj, SlabBytes(order));
      if t.Some? {
        TrialSound(obj, order);
        NeedRange(size);
        return Some(Geometry(order, obj, t.value, AlignUp(HEADER + t.value * 2, 8)));
      }
      order := order + 1;
    }
    SlabBytesRange(MAX_SLAB_ORDER);
    NeedRange(size);
    g := None;
  }

  lemma ObjectSizeRange(size: nat)
    requires size <= WORD - 8
    ensures 8 <= ObjectSize(size) <= WORD - 8 && ObjectSize(size) % 8 == 0 && size <= ObjectSize(size)
    ensures ObjectSize(size) == 8 || ObjectSize(size) < size + 8
  {
  }

  lemma NeedRange(size: nat)
    requires size <= WORD - 8
    ensures Need(ObjectSize(size)) <= 262144 <==> size <= 262104
  {
  }

  // ----------------------------------------------------------- object addresses

  function ObjPtr(g: Geometry, slab: nat, i: nat): nat {
    slab + g.offset + i * g.objectSize
  }

  function ObjIndex(g: Geometry, slab: nat, p: nat): nat
    requires g.objectSize > 0 && slab + g.offset <= p
  {
    ((p - (slab + g.offset)) / g.objectSize) % 0x1_0000
  }

  /** slab_obj_index inverts slab_obj_ptr. */
  lemma ObjIndexInverts(g: Geometry, slab: nat, i: nat)
    requires Sound(g) && i < g.count
    ensures ObjIndex(g, slab, ObjPtr(g, slab, i)) == i
  {
    hide SlabBytes;
    DivModUnique(i * g.objectSize, g.objectSize, i, 0);
  }

  /** Distinct objects are word aligned, apart from each other and from the header, and inside the slab. */
  lemma ObjectsApart(g: Geometry, slab: nat, i: nat, j: nat)
    requires Sound(g) && i < g.count && j < g.count
    ensures ObjPtr(g, slab, i) % 8 == slab % 8
    ensures slab + HEADER + 2 * g.count <= ObjPtr(g, slab, i)
    ensures ObjPtr(g, slab, i) + g.objectSize <= slab + SlabBytes(g.order)
    ensures i < j ==> ObjPtr(g, slab, i) + g.objectSize <= ObjPtr(g, slab, j)
  {
    hide SlabBytes;
    MulDistribute(i, 1, g.objectSize);
    MulMono(i + 1, g.count, g.objectSize);
    if i < j {
      MulMono(i + 1, j, g.objectSize);
    }
    ObjectAligned(slab, g.offset, i, g.objectSize);
  }

  lemma ObjectAligned(slab: nat, offset: nat, i: nat, size: nat)
    requires offset % 8 == 0 && size % 8 == 0
    ensures (slab + offset + i * size) % 8 == slab % 8
  {
    var q := offset / 8 + i * (size / 8);
    MulAssociate(i, size / 8, 8);
    assert slab + offset + i * size == (slab / 8 + q) * 8 + slab % 8;
    DivModUnique(slab + offset + i * size, 8, slab / 8 + q, slab % 8);
  }

  // ------------------------------------------------------------- kmalloc classes

  const KMALLOC_NUM_CACHES: nat := 13

  function ClassSize(i: nat): nat {
    32 * Pow2(i)
  }

  function KmallocIndex(sz: nat): int {
    if sz <= 32 then 0
    else if sz <= 64 then 1
    else if sz <= 128 then 2
    else if sz <= 256 then 3
    else if sz <= 512 then 4
    else if sz <= 1024 then 5
    else if sz <= 2048 then 6
    else if sz <= 4096 then 7
    else if sz <= 8192 then 8
    else if sz <= 16384 then 9
    else if sz <= 32768 then 10
    else if sz <= 65536 then 11
    else if sz <= 131072 then 12
    else -1
  }

  /** The class kmalloc chooses for a request, after rounding it up. */
  function KmallocClass(size: nat): int {
    KmallocIndex(AlignUp(size, 8))
  }

  lemma ClassSizes()
    ensures ClassSize(0) == 32 && ClassSize(1) == 64 && ClassSize(2) == 128 && ClassSize(3) == 256
    ensures ClassSize(4) == 512 && ClassSize(5) == 1024 && ClassSize(6) == 2048 && ClassSize(7) == 4096
    ensures ClassSize(8) == 8192 && ClassSize(9) == 16384 && ClassSize(10) == 32768
    ensures ClassSize(11) == 65536 && ClassSize(12) == 131072
  {
  }

  /** Up to 2^64 - 8 bytes kmalloc picks the smallest class that holds the request, and none beyond 128 KiB. */
  lemma KmallocPicksSmallest(size: nat)
    requires 0 < size <= WORD - 8
    ensures KmallocClass(size) == -1 <==> size > ClassSize(KMALLOC_NUM_CACHES - 1)
    ensures KmallocClass(size) >= 0 ==>
              && size <= ClassSize(KmallocClass(size))
              && (KmallocClass(size) > 0 ==> ClassSize(KmallocClass(size) - 1) < size)
  {
    hide Pow2, ClassSize, AlignUp;
    ClassSizes();
    AlignUpEight(size);
  }

  /**
   A request within 7 bytes of 2^64 wraps to zero while it is rounded up, and gets an object
   of the smallest class.  So the object holds the request if and only if the request is at
   most 2^64 - 8.
   */
  lemma KmallocHoldsRequestIff(size: nat)
    requires 0 < size < WORD
    ensures (KmallocClass(size) >= 0 ==> size <= ClassSize(KmallocClass(size))) <==> size <= WORD - 8
    ensures size > WORD - 8 ==> KmallocClass(size) == 0
  {
    if size <= WORD - 8 {
      KmallocPicksSmallest(size);
    } else {
      assert size % 8 != 0 && AlignUp(size, 8) == 0;
    }
  }
}
