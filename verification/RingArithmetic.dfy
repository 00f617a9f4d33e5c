/** Which logical page a ring slot holds. A table of `size` slots that covers `pages` logical
    pages keeps the newest `size` of them, each in slot `page % size`. */
module RingArithmetic {
  import opened GroupPool

  /** The logical page in slot `slot`: the only page among the newest `size` that maps there. */
  function PageAt(pages: nat, size: nat, slot: nat): nat
    requires slot < size <= pages
  {
    var oldest := pages - size;
    oldest + (slot - oldest) % size
  }

  lemma MultipleIsLarge(n: int, q: int)
    requires n > 0
    ensures q >= 1 ==> n * q >= n
    ensures q <= -1 ==> n * q <= -n
  {
  }

  lemma CongruentAndClose(a: int, b: int, n: int)
    requires n > 0 && a % n == b % n && -n < a - b < n
    ensures a == b
  {
    var q := a / n - b / n;
    assert a - b == n * q;
    MultipleIsLarge(n, q);
  }

  lemma ModShift(a: int, b: int, n: nat)
    requires n > 0
    ensures (b + (a - b) % n) % n == a % n
  {
    var x := a - b;
    assert x == n * (x / n) + x % n;
    var y := b + x % n;
    assert y == a - n * (x / n);
    ModSubMultiple(a, x / n, n);
  }

  lemma ModSubMultiple(a: int, k: int, n: nat)
    requires n > 0
    ensures (a - n * k) % n == a % n
  {
    var r := a % n;
    var q := a / n;
    assert a - n * k == n * (q - k) + r by {
      assert n * q - n * k == n * (q - k);
    }
    ModOfSum(q - k, r, n);
  }

  lemma ModOfSum(q: int, r: int, n: nat)
    requires 0 <= r < n
    ensures (n * q + r) % n == r
  {
    var x := n * q + r;
    assert x == n * (x / n) + x % n;
    var d := q - x / n;
    assert n * d == x % n - r by {
      assert n * d == n * q - n * (x / n);
    }
    MultipleIsLarge(n, d);
  }

  /** The page in a slot is one of the newest `size`, and maps to the slot. */
  lemma PageAtSlot(pages: nat, size: nat, slot: nat)
    requires slot < size <= pages
    ensures pages - size <= PageAt(pages, size, slot) < pages
    ensures RingSlot(PageAt(pages, size, slot), size) == slot
  {
    ModShift(slot, pages - size, size);
  }

  /** Two of the newest `size` pages never meet in one slot. */
  lemma SlotsAreDistinct(pages: nat, size: nat, a: nat, b: nat)
    requires 0 < size <= pages && pages - size <= a < pages && pages - size <= b < pages
    requires RingSlot(a, size) == RingSlot(b, size)
    ensures a == b
  {
    CongruentAndClose(a, b, size);
  }

  lemma SlotPageAt(pages: nat, size: nat, page: nat)
    requires 0 < size <= pages && pages - size <= page < pages
    ensures PageAt(pages, size, RingSlot(page, size)) == page
  {
    var slot := RingSlot(page, size);
    PageAtSlot(pages, size, slot);
    SlotsAreDistinct(pages, size, page, PageAt(pages, size, slot));
  }

  /** An older page of the same slot is below the page the slot holds. */
  lemma SlotHoldsNewest(pages: nat, size: nat, page: nat)
    requires 0 < size <= pages && page < pages
    ensures page <= PageAt(pages, size, RingSlot(page, size))
  {
    var slot := RingSlot(page, size);
    PageAtSlot(pages, size, slot);
    if page >= pages - size { SlotPageAt(pages, size, page); }
  }

  /** While a table still grows, slot `s` holds page `s`. */
  lemma GrowingTable(size: nat, slot: nat)
    requires slot < size
    ensures PageAt(size, size, slot) == slot
  {
    SlotPageAt(size, size, slot);
  }

  /** Adding a page to a full ring replaces the content of one slot. */
  lemma RingStep(pages: nat, size: nat, slot: nat)
    requires slot < size <= pages
    ensures PageAt(pages + 1, size, slot)
         == if slot == RingSlot(pages, size) then pages else PageAt(pages, size, slot)
  {
    if slot == RingSlot(pages, size) {
      SlotPageAt(pages + 1, size, pages);
    } else {
      var page := PageAt(pages, size, slot);
      PageAtSlot(pages, size, slot);
      ModSubMultiple(pages, 1, size);
      assert page != pages - size;
      SlotPageAt(pages + 1, size, page);
    }
  }
}
