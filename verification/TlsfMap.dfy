/** Size classes of the TLSF heap: which of the 25 x 32 segregated lists holds a
    block of a given size, and from which list on a request is sure to be served. */
module TlsfMap {
  import opened Shifts

  const ALIGN_SIZE: nat := 8
  const FL_INDEX_COUNT: nat := 25
  const SL_INDEX_COUNT: nat := 32
  const SMALL_BLOCK_SIZE: nat := 256
  const BLOCK_SIZE_MIN: nat := 24
  const BLOCK_SIZE_MAX: nat := 0x1_0000_0000
  const SIZE_MODULUS: nat := 0x1_0000_0000_0000_0000

  datatype Index = Index(fl: nat, sl: nat) {
    /** Position of the list in the row-major `blocks[fl][sl]` table. */
    function Flat(): nat { fl * 32 + sl }
  }

  /** Exclusive or of a six-bit number with 1 << 5. */
  function Xor32(v: nat): (r: nat)
    requires v < 64
  {
    if v < 32 then v + 32 else v - 32
  }

  /** `mapping_insert`: the list a block of this size is filed under. */
  function MappingInsert(size: nat): (i: Index)
  {
    if size < SMALL_BLOCK_SIZE then
      Index(0, size / 8)
    else
      SecondLevel(size);
      var f := Fls(size);
      Index(f - 7, Xor32(Shr(size, f - 5)))
  }

  /** `mapping_search`: the first list every block of which serves the request. */
  function MappingSearch(size: nat): (i: Index)
  {
    if size >= SMALL_BLOCK_SIZE then
      SecondLevel(size);
      MappingInsert(size + Pow2(Fls(size) - 5) - 1)
    else
      MappingInsert(size)
  }

  /** The five bits below the leading one split [2^f, 2^(f+1)) into 32 equal parts. */
  lemma {:induction false} SecondLevel(size: nat)
    requires size >= SMALL_BLOCK_SIZE
    ensures Fls(size) >= 8
    ensures 32 <= Shr(size, Fls(size) - 5) < 64
  {
    assert Pow2(8) == 256 && Pow2(5) == 32 by { Pow2Values(); }
    FlsAtLeast(size, 8);
    var f := Fls(size);
    ShlShl(1, 5, f - 5);
    ShlDouble(32, f - 5);
    ShrBounds(size, f - 5, 32, 64);
  }

  // ----- the classes as intervals of sizes -----

  /** Smallest size filed under a list; `sl == 32` stands for the start of the next row. */
  function ClassLow(fl: nat, sl: nat): (r: nat)
  {
    if fl == 0 then 8 * sl else Shl(32 + sl, fl + 2)
  }

  predicate InClass(size: nat, i: Index)
  {
    i.sl < SL_INDEX_COUNT && ClassLow(i.fl, i.sl) <= size < ClassLow(i.fl, i.sl + 1)
  }

  /** Rows meet without gap or overlap. */
  lemma {:induction false} RowsMeet(fl: nat)
    ensures ClassLow(fl, SL_INDEX_COUNT) == ClassLow(fl + 1, 0)
  {
    if fl > 0 {
      ShlDouble(32, fl + 2);
    } else {
      assert Shl(32, 3) == 256;
    }
  }

  lemma {:induction false} ClassLowMonotone(fl: nat, a: nat, b: nat)
    requires a <= b
    ensures ClassLow(fl, a) <= ClassLow(fl, b)
  {
    if fl > 0 {
      ShlMonotone(32 + a, 32 + b, fl + 2);
    }
  }

  lemma {:induction false} MappingInsertLarge(size: nat)
    requires size >= SMALL_BLOCK_SIZE
    ensures Fls(size) >= 8
    ensures 32 <= Shr(size, Fls(size) - 5) < 64
    ensures MappingInsert(size) == Index(Fls(size) - 7, Shr(size, Fls(size) - 5) - 32)
  {
    SecondLevel(size);
  }

  lemma {:induction false} LargeInClass(size: nat, f: nat, q: nat)
    requires f >= 8 && q == Shr(size, f - 5) && 32 <= q < 64
    ensures InClass(size, Index(f - 7, q - 32))
  {
    ShrShl(size, f - 5);
  }

  /** `mapping_insert` files every size under the class interval that contains it. */
  lemma {:induction false} MappingInsertInClass(size: nat)
    ensures InClass(size, MappingInsert(size))
  {
    if size >= SMALL_BLOCK_SIZE {
      MappingInsertLarge(size);
      LargeInClass(size, Fls(size), Shr(size, Fls(size) - 5));
    }
  }

  /** Classes later in the table hold strictly larger sizes. */
  lemma {:induction false} ClassesOrdered(i: Index, j: Index)
    requires i.sl < SL_INDEX_COUNT && j.sl < SL_INDEX_COUNT
    requires i.Flat() < j.Flat()
    ensures ClassLow(i.fl, i.sl + 1) <= ClassLow(j.fl, j.sl)
    decreases j.fl
  {
    if i.fl == j.fl {
      ClassLowMonotone(i.fl, i.sl + 1, j.sl);
    } else {
      RowsMeet(j.fl - 1);
      ClassLowMonotone(j.fl, 0, j.sl);
      if i.fl == j.fl - 1 {
        ClassLowMonotone(i.fl, i.sl + 1, SL_INDEX_COUNT);
      } else {
        ClassesOrdered(i, Index(j.fl - 1, 0));
        ClassLowMonotone(j.fl - 1, 0, SL_INDEX_COUNT);
      }
    }
  }

  lemma {:induction false} ClassesDisjoint(size: nat, i: Index, j: Index)
    requires InClass(size, i) && InClass(size, j)
    ensures i == j
  {
    if i.Flat() < j.Flat() {
      ClassesOrdered(i, j);
    } else if j.Flat() < i.Flat() {
      ClassesOrdered(j, i);
    }
  }

  /** The 800 lists partition the sizes: the class of a size is the only one whose
      interval contains it. */
  lemma {:induction false} MappingInsertUnique(size: nat, i: Index)
    ensures MappingInsert(size) == i <==> InClass(size, i)
  {
    MappingInsertInClass(size);
    if InClass(size, i) {
      ClassesDisjoint(size, MappingInsert(size), i);
    }
  }

  /** Filing is monotone in the size. */
  lemma {:induction false} MappingInsertMonotone(s: nat, t: nat)
    requires s <= t
    ensures MappingInsert(s).Flat() <= MappingInsert(t).Flat()
  {
    MappingInsertInClass(s);
    MappingInsertInClass(t);
    if MappingInsert(t).Flat() < MappingInsert(s).Flat() {
      ClassesOrdered(MappingInsert(t), MappingInsert(s));
    }
  }

  /** Every size below 2^32 lands inside the table, and 2^32 itself does not: the
      first-level index of the largest pool the range test lets through is one past
      the last row. */
  lemma {:induction false} MappingInsertRange(size: nat)
    ensures MappingInsert(size).sl < SL_INDEX_COUNT
    ensures MappingInsert(size).fl < FL_INDEX_COUNT <==> size < BLOCK_SIZE_MAX
    ensures size == BLOCK_SIZE_MAX ==> MappingInsert(size) == Index(FL_INDEX_COUNT, 0)
  {
    assert Pow2(32) == BLOCK_SIZE_MAX by { Pow2Values(); }
    if size >= SMALL_BLOCK_SIZE {
      MappingInsertLarge(size);
      if size < BLOCK_SIZE_MAX {
        FlsBelow(size, 32);
      } else {
        FlsAtLeast(size, 32);
      }
      if size == BLOCK_SIZE_MAX {
        LargestPool();
      }
    }
  }

  lemma {:induction false} LargestPool()
    ensures MappingInsert(BLOCK_SIZE_MAX) == Index(FL_INDEX_COUNT, 0)
  {
    assert Pow2(32) == BLOCK_SIZE_MAX by { Pow2Values(); }
    assert Shl(32, 27) == BLOCK_SIZE_MAX by { Pow2Values(); ShlShl(1, 5, 27); }
    assert InClass(BLOCK_SIZE_MAX, Index(FL_INDEX_COUNT, 0)) by { ShlMonotone(32, 33, 27); }
    MappingInsertUnique(BLOCK_SIZE_MAX, Index(FL_INDEX_COUNT, 0));
  }

  /** Good fit: any block filed at or after the list `mapping_search` names is large
      enough for the request. */
  lemma {:induction false} GoodFit(request: nat, size: nat)
    requires request >= SMALL_BLOCK_SIZE || request % 8 == 0
    requires MappingSearch(request).Flat() <= MappingInsert(size).Flat()
    ensures request <= size
  {
    SearchClassLow(request);
    MappingInsertInClass(size);
    LaterClass(request, size, MappingSearch(request), MappingInsert(size));
  }

  lemma {:induction false} LaterClass(request: nat, size: nat, s: Index, m: Index)
    requires s.sl < SL_INDEX_COUNT && InClass(size, m) && s.Flat() <= m.Flat()
    requires request <= ClassLow(s.fl, s.sl)
    ensures request <= size
  {
    if s.Flat() < m.Flat() {
      ClassesOrdered(s, m);
      ClassLowMonotone(s.fl, s.sl, s.sl + 1);
    } else {
      assert s == m;
    }
  }

  /** The smallest size of the list the search starts at already serves the request. */
  lemma {:induction false} SearchClassLow(request: nat)
    requires request >= SMALL_BLOCK_SIZE || request % 8 == 0
    ensures MappingSearch(request).sl < SL_INDEX_COUNT
    ensures request <= ClassLow(MappingSearch(request).fl, MappingSearch(request).sl)
  {
    if request >= SMALL_BLOCK_SIZE {
      var f := Fls(request);
      LargeRequest(request, f);
      RoundedClassLow(request, f, request + Pow2(f - 5) - 1);
    }
  }

  /** No list before it has that: the search starts at the first list all of whose blocks
      serve the request. */
  lemma {:induction false} SearchClassFirst(request: nat, j: Index)
    requires request >= SMALL_BLOCK_SIZE || request % 8 == 0
    requires j.sl < SL_INDEX_COUNT && request <= ClassLow(j.fl, j.sl)
    ensures MappingSearch(request).Flat() <= j.Flat()
  {
    hide Shl, Shr, Pow2, Fls;
    var i := MappingSearch(request);
    SearchClassLow(request);
    if j.Flat() < i.Flat() {
      ClassesOrdered(j, i);
      if request >= SMALL_BLOCK_SIZE {
        var f := Fls(request);
        LargeRequest(request, f);
        MappingInsertInClass(request + Pow2(f - 5) - 1);
        ClassWidth(j, f);
      } else {
        SmallWidth(j, request);
      }
    }
  }

  /** Classes from 2^f on are at least 2^(f-5) wide. */
  lemma {:induction false} ClassWidth(j: Index, f: nat)
    requires f >= 8 && j.sl < SL_INDEX_COUNT && Pow2(f) <= ClassLow(j.fl, j.sl)
    ensures ClassLow(j.fl, j.sl) + Pow2(f - 5) <= ClassLow(j.fl, j.sl + 1)
  {
    hide Shr, Shl, Pow2;
    assert Pow2(f) >= 256 by { Pow2Values(); Pow2Monotone(8, f); }
    ShlMonotone(32 + j.sl, 32 + j.sl + 1, j.fl + 2);
    SixtyFour(j.fl + 2);
    ShlMonotone(32 + j.sl, 64, j.fl + 2);
    if j.fl + 8 <= f {
      Pow2Monotone(j.fl + 8, f);
    } else {
      Pow2Monotone(f - 5, j.fl + 2);
    }
  }

  lemma {:induction false} SixtyFour(k: nat)
    ensures Shl(64, k) == Pow2(k + 6)
  {
    if k == 0 {
      Pow2Values();
    } else {
      SixtyFour(k - 1);
    }
  }

  lemma {:induction false} SmallWidth(j: Index, request: nat)
    requires request < SMALL_BLOCK_SIZE && request <= ClassLow(j.fl, j.sl)
    ensures request < ClassLow(j.fl, j.sl + 1)
  {
    if j.fl > 0 {
      RowLow(j.fl, j.sl + 1);
    }
  }

  lemma {:induction false} RowLow(fl: nat, sl: nat)
    requires fl > 0
    ensures ClassLow(fl, sl) >= 256
  {
    ShlMonotone(32, 32 + sl, fl + 2);
    ShlShl(32, fl - 1, 3);
    assert Shl(32, 3) == 256;
    ShlAtLeast(32, fl - 1);
    ShlMonotone(32, Shl(32, fl - 1), 3);
  }

  lemma {:induction false} ShlAtLeast(x: nat, k: nat)
    ensures x <= Shl(x, k)
  {
    if k > 0 {
      ShlAtLeast(x, k - 1);
    }
  }

  lemma {:induction false} LargeRequest(request: nat, f: nat)
    requires request >= SMALL_BLOCK_SIZE && f == Fls(request)
    ensures f >= 8 && 256 <= Pow2(f)
    ensures MappingSearch(request) == MappingInsert(request + Pow2(f - 5) - 1)
  {
    assert f >= 8 by { SecondLevel(request); }
    assert 256 <= Pow2(f) by { Pow2Values(); Pow2Monotone(8, f); }
  }

  lemma {:induction false} RoundedClassLow(request: nat, f: nat, t: nat)
    requires f >= 8 && 256 <= Pow2(f) <= request < Pow2(f + 1)
    requires t == request + Pow2(f - 5) - 1
    ensures MappingInsert(t).sl < SL_INDEX_COUNT
    ensures request <= ClassLow(MappingInsert(t).fl, MappingInsert(t).sl)
  {
    MappingInsertLarge(t);
    if t < Pow2(f + 1) {
      FlsUnique(t, f);
      assert request <= Shl(Shr(t, f - 5), f - 5) by { ShrShl(t, f - 5); ShlPlus(Shr(t, f - 5), 1, f - 5); }
    } else {
      assert Fls(t) == f + 1 by { Pow2Monotone(f - 5, f); FlsUnique(t, f + 1); }
      assert Shl(32, f - 4) == Pow2(f + 1) by { Pow2Values(); ShlShl(1, 5, f - 4); }
      ShlMonotone(32, Shr(t, f - 4), f - 4);
    }
  }

  // ----- request sizes -----

  /** `x & ~(align - 1)` for the alignment 1 << k */
  function AlignDownTo(x: nat, k: nat): (r: nat)
  {
    Shl(Shr(x, k), k)
  }

  /** `align_up` to 1 << k on 64-bit words: the addition wraps. */
  function AlignUp(x: nat, k: nat): (r: nat)
  {
    AlignDownTo((x + (Pow2(k) - 1)) % 0x1_0000_0000_0000_0000, k)
  }

  /** `adjust_request_size` for the alignment 1 << k */
  function AdjustRequestSize(size: nat, k: nat): (r: nat)
  {
    if size == 0 then 0
    else
      var aligned := AlignUp(size, k);
      if aligned < BLOCK_SIZE_MAX then
        if aligned > BLOCK_SIZE_MIN then aligned else BLOCK_SIZE_MIN
      else 0
  }

  predicate Aligned(x: nat, k: nat) { AlignDownTo(x, k) == x }

  /** Without wrap-around `align_up` is the least multiple of the alignment that is
      not below its argument. */
  lemma {:induction false} AlignUpLeast(x: nat, k: nat)
    requires x + Pow2(k) <= SIZE_MODULUS
    ensures Aligned(AlignUp(x, k), k)
    ensures x <= AlignUp(x, k) < x + Pow2(k)
    ensures forall y: nat {:trigger Aligned(y, k)} :: Aligned(y, k) && x <= y ==> AlignUp(x, k) <= y
  {
    hide Shl, Shr, Pow2;
    var t := x + (Pow2(k) - 1);
    ShrShl(t, k);
    ShlPlus(Shr(t, k), 1, k);
    ShrOfShl(Shr(t, k), k);
    assert Shl(1, k) == Pow2(k) by { OneShifted(k); }
    forall y: nat {:trigger Aligned(y, k)} | Aligned(y, k) && x <= y
      ensures AlignUp(x, k) <= y
    {
      AlignedAbove(t, y, k);
    }
  }

  lemma {:induction false} OneShifted(k: nat)
    ensures Shl(1, k) == Pow2(k) >= 1
  {
  }

  lemma {:induction false} AlignedAbove(t: nat, y: nat, k: nat)
    requires Aligned(y, k) && t < y + Pow2(k)
    ensures AlignDownTo(t, k) <= y
  {
    ShrShl(t, k);
    if Shr(y, k) < Shr(t, k) {
      ShlMonotone(Shr(y, k), Shr(t, k), k);
    } else {
      ShlMonotone(Shr(t, k), Shr(y, k), k);
    }
  }

  lemma {:induction false} AlignedWord(x: nat)
    ensures Aligned(x, 3) <==> x % 8 == 0
    ensures AlignDownTo(x, 3) == x - x % 8
  {
    var h := x / 2;
    var q := h / 2;
    assert Shr(x, 3) == Shr(h, 2) == Shr(q, 1) == Shr(q / 2, 0) == q / 2;
    assert Shl(q / 2, 3) == 2 * Shl(q / 2, 2) == 4 * Shl(q / 2, 1) == 8 * (q / 2);
  }

  /** For word alignment the adjusted size is the least multiple of eight that is at
      least 24 and at least the request; it is zero exactly for the requests the heap
      refuses. */
  lemma {:induction false} AdjustWord(size: nat)
    requires size + 8 <= SIZE_MODULUS
    ensures var a := AdjustRequestSize(size, 3);
            && (a == 0 <==> size == 0 || size > BLOCK_SIZE_MAX - 8)
            && (a != 0 ==> a % 8 == 0 && BLOCK_SIZE_MIN <= a < BLOCK_SIZE_MAX && size <= a)
            && (a != 0 ==> a < size + 8 || a == BLOCK_SIZE_MIN)
  {
    assert Pow2(3) == 8;
    AlignedWord((size + 7) % 0x1_0000_0000_0000_0000);
  }

  /** A request within seven bytes of 2^64 wraps to the smallest block. */
  lemma {:induction false} AdjustWordWraps(size: nat)
    requires SIZE_MODULUS - 7 <= size < SIZE_MODULUS
    ensures AdjustRequestSize(size, 3) == BLOCK_SIZE_MIN
  {
    assert Pow2(3) == 8;
    AlignedWord((size + 7) % 0x1_0000_0000_0000_0000);
  }

  // ----- aligned requests -----

  lemma {:induction false} AlignedWeaken(x: nat, k: nat, j: nat)
    requires Aligned(x, k) && j <= k
    ensures Aligned(x, j)
  {
    var q := Shr(x, k);
    ShlShl(q, k - j, j);
    ShrOfShl(Shl(q, k - j), j);
  }

  /** An aligned number is its own round-up. */
  lemma {:induction false} AlignUpAligned(x: nat, k: nat)
    requires Aligned(x, k) && x + Pow2(k) <= SIZE_MODULUS
    ensures AlignUp(x, k) == x
  {
    AlignUpLeast(x, k);
  }

  lemma {:induction false} AlignedNext(x: nat, k: nat)
    requires Aligned(x, k)
    ensures Aligned(x + Pow2(k), k)
  {
    ShlPlus(Shr(x, k), 1, k);
    ShrOfShl(Shr(x, k) + 1, k);
  }

  /** The request `tlsf_memalign` searches for: room for the payload, a full alignment
      step and a free block in front. */
  function SizeWithGap(adjust: nat, k: nat): (r: nat)
  {
    AdjustRequestSize((adjust + Pow2(k) + 32) % 0x1_0000_0000_0000_0000, k)
  }

  /** Up to an alignment of 2^62 the search request is either refused or large enough;
      for 2^63 the rounding wraps and the request collapses to the smallest block. */
  lemma {:induction false} SizeWithGapEnough(adjust: nat, k: nat)
    requires 24 <= adjust < BLOCK_SIZE_MAX && adjust % 8 == 0 && 3 < k <= 63
    ensures var w := SizeWithGap(adjust, k);
      && (w == 0 || (w >= adjust + Pow2(k) + 32 <==> k <= 62))
      && (w != 0 && k <= 62 ==> 24 <= w < BLOCK_SIZE_MAX && w % 8 == 0 && Pow2(k) < BLOCK_SIZE_MAX)
      && (k == 63 ==> w == BLOCK_SIZE_MIN)
  {
    hide AdjustRequestSize, Pow2;
    var t := adjust + Pow2(k) + 32;
    if k <= 62 {
      assert Pow2(k) <= 0x4000_0000_0000_0000 by { Pow2Monotone(k, 62); Pow2Values(); }
      GapFits(t, k);
    } else {
      GapWraps(adjust, t);
      assert Pow2(63) >= 1;
    }
  }

  /** It is the least multiple of the alignment with that room, and zero exactly if there is
      none that the heap could serve. */
  lemma {:induction false} SizeWithGapLeast(adjust: nat, k: nat)
    requires 24 <= adjust < BLOCK_SIZE_MAX && 3 < k <= 62
    ensures var w, t := SizeWithGap(adjust, k), adjust + Pow2(k) + 32;
      && (w == 0 <==> forall y: nat {:trigger Aligned(y, k)} :: Aligned(y, k) && t <= y ==> y >= BLOCK_SIZE_MAX)
      && (w != 0 ==> Aligned(w, k) && forall y: nat {:trigger Aligned(y, k)} :: Aligned(y, k) && t <= y ==> w <= y)
  {
    hide AlignUp, Pow2, Aligned;
    var t := adjust + Pow2(k) + 32;
    assert Pow2(k) <= 0x4000_0000_0000_0000 by { Pow2Monotone(k, 62); Pow2Values(); }
    AlignUpLeast(t, k);
    assert t % 0x1_0000_0000_0000_0000 == t;
  }

  lemma {:induction false} GapFits(t: nat, k: nat)
    requires 24 < t && t + Pow2(k) <= SIZE_MODULUS && 3 <= k
    ensures var w := AdjustRequestSize(t, k);
      w == 0 || (t <= w < BLOCK_SIZE_MAX && w % 8 == 0)
  {
    hide AlignUp, Pow2;
    AlignUpLeast(t, k);
    AlignedWeaken(AlignUp(t, k), k, 3);
    AlignedWord(AlignUp(t, k));
  }

  lemma {:induction false} GapWraps(adjust: nat, t: nat)
    requires 24 <= adjust < BLOCK_SIZE_MAX && t == adjust + Pow2(63) + 32
    ensures t < SIZE_MODULUS && AdjustRequestSize(t, 63) == BLOCK_SIZE_MIN
  {
    assert Pow2(63) == 0x8000_0000_0000_0000 by { Pow2Values(); }
    var s := (t + (Pow2(63) - 1)) % 0x1_0000_0000_0000_0000;
    assert s == adjust + 31;
    ShrUnique(s, 63, 0) by { ShlZero(63); }
    ShlZero(63);
  }

  /** The gap `tlsf_memalign` leaves in front of the payload at `ptr`: up to the next
      aligned address, or one further on if a free block would not fit in between. */
  function LeadingGap(ptr: nat, k: nat): (gap: int)
  {
    var aligned := AlignUp(ptr, k);
    var gap := aligned - ptr;
    if gap != 0 && gap < 32 then
      var offset := if 32 - gap > Pow2(k) then 32 - gap else Pow2(k);
      AlignUp(aligned + offset, k) - ptr
    else gap
  }

  /** It is the least one that reaches an aligned address and is nothing or holds a free
      block. */
  lemma {:induction false} LeadingGapLeast(ptr: nat, k: nat, g: nat)
    requires ptr % 8 == 0 && ptr + 2 * Pow2(k) + 64 <= SIZE_MODULUS && Aligned(ptr + g, k) && (g == 0 || 32 <= g)
    ensures LeadingGap(ptr, k) <= g
  {
    hide AlignUp, Aligned, Pow2;
    AlignUpLeast(ptr, k);
    var aligned := AlignUp(ptr, k);
    var gap := aligned - ptr;
    if gap != 0 && gap < 32 {
      var offset := if 32 - gap > Pow2(k) then 32 - gap else Pow2(k);
      AlignUpLeast(aligned + offset, k);
      AlignedStep(ptr + g, aligned, k);
    }
  }

  /** Every gap is either nothing or enough for a free block, and leaves room for the
      payload. */
  lemma {:induction false} LeadingGapSpec(ptr: nat, k: nat)
    requires ptr % 8 == 0 && ptr + 2 * Pow2(k) + 64 <= SIZE_MODULUS
    ensures var gap := LeadingGap(ptr, k);
      && (gap == 0 || 32 <= gap <= Pow2(k) + 24)
      && gap % 8 == 0 && ptr + gap >= 0 && Aligned(ptr + gap, k)
      && (k <= 3 ==> gap == 0)
  {
    hide AlignUp, Aligned, Pow2;
    if k <= 3 {
      NoGap(ptr, k);
    } else {
      var aligned := AlignUp(ptr, k);
      FirstGap(ptr, k, aligned);
      var gap := aligned - ptr;
      if gap != 0 && gap < 32 {
        if k == 4 {
          SmallGap(ptr, aligned);
        } else {
          FarGap(aligned, k);
        }
      }
    }
  }

  lemma {:induction false} NoGap(ptr: nat, k: nat)
    requires ptr % 8 == 0 && ptr + Pow2(k) <= SIZE_MODULUS && k <= 3
    ensures AlignUp(ptr, k) == ptr && Aligned(ptr, k)
  {
    hide AlignUp, Aligned, Pow2;
    AlignedWord(ptr);
    AlignedWeaken(ptr, 3, k);
    AlignUpAligned(ptr, k);
  }

  lemma {:induction false} FirstGap(ptr: nat, k: nat, aligned: nat)
    requires ptr + Pow2(k) <= SIZE_MODULUS && 3 < k && aligned == AlignUp(ptr, k)
    ensures ptr <= aligned < ptr + Pow2(k) && Aligned(aligned, k) && aligned % 8 == 0
  {
    hide AlignUp, Aligned, Pow2;
    AlignUpLeast(ptr, k);
    AlignedWeaken(aligned, k, 3);
    AlignedWord(aligned);
  }

  lemma {:induction false} FarGap(aligned: nat, k: nat)
    requires Aligned(aligned, k) && 5 <= k && aligned + 2 * Pow2(k) <= SIZE_MODULUS
    ensures Pow2(k) >= 32 && Pow2(k) % 8 == 0
    ensures AlignUp(aligned + Pow2(k), k) == aligned + Pow2(k) && Aligned(aligned + Pow2(k), k)
    ensures (aligned + Pow2(k)) % 8 == 0
  {
    hide AlignUp, Aligned, Pow2;
    assert Pow2(k) >= 32 by { Pow2Values(); Pow2Monotone(5, k); }
    AlignedNext(aligned, k);
    AlignUpAligned(aligned + Pow2(k), k);
    AlignedWeaken(aligned + Pow2(k), k, 3);
    AlignedWord(aligned + Pow2(k));
    AlignedWeaken(aligned, k, 3);
    AlignedWord(aligned);
  }

  /** Sixteen-byte alignment: a gap of eight becomes one of forty. */
  lemma {:induction false} SmallGap(ptr: nat, aligned: nat)
    requires ptr % 8 == 0 && aligned % 8 == 0 && Aligned(aligned, 4) && 0 < aligned - ptr < Pow2(4)
    requires aligned + 64 <= SIZE_MODULUS
    ensures Pow2(4) == 16 && aligned - ptr == 8
    ensures AlignUp(aligned + 24, 4) == aligned + 32 && Aligned(aligned + 32, 4)
  {
    assert Pow2(4) == 16;
    hide AlignUp, Aligned, Pow2;
    AlignedNext(aligned, 4);
    AlignedNext(aligned + 16, 4);
    AlignUpLeast(aligned + 24, 4);
    assert AlignUp(aligned + 24, 4) <= aligned + 32;
    AlignedStep(AlignUp(aligned + 24, 4), aligned, 4);
  }

  /** Aligned numbers closer than one step are equal. */
  lemma {:induction false} AlignedStep(x: nat, y: nat, k: nat)
    requires Aligned(x, k) && Aligned(y, k) && y < x
    ensures y + Pow2(k) <= x
    ensures y + Pow2(k) < x ==> y + 2 * Pow2(k) <= x
  {
    var p, q := Shr(y, k), Shr(x, k);
    if q <= p {
      ShlMonotone(q, p, k);
    } else {
      ShlMonotone(p, q, k);
      if p + 1 < q {
        ShlMonotone(p + 1, q, k);
        ShlPlus(p, 1, k);
      } else {
        ShlPlus(p, 1, k);
      }
    }
  }
}
