/** The table that prefix lookup selects in one group: every slot whose page belongs to the
    needed tail gets the block published for that page, all other ring slots stay empty, and
    no two tail pages compete for a slot. */
module PrefixSelection {
  import opened CacheTypes
  import opened GroupPool
  import opened RefConservation
  import opened RingArithmetic

  lemma {:induction false} SelectFromExact(p: Pool, hs: seq<Hash>, i: nat, pages: nat, acc: Table, slot: nat)
    requires i <= pages <= |hs| && slot < |acc| <= pages && pages - |acc| <= i
    requires forall k :: i <= k < pages ==> hs[k] in p.index
    ensures SelectFrom(p, hs, i, pages, acc)[slot]
         == if PageAt(pages, |acc|, slot) >= i then Some(p.index[hs[PageAt(pages, |acc|, slot)]]) else acc[slot]
    decreases pages - i
  {
    hide RingSlot, PageAt;
    PageAtSlot(pages, |acc|, slot);
    if i < pages {
      var next := acc[RingSlot(i, |acc|) := Some(p.index[hs[i]])];
      SelectFromExact(p, hs, i + 1, pages, next, slot);
      SlotPageAt(pages, |acc|, i);
    }
  }

  lemma SelectedExact(p: Pool, hs: seq<Hash>, pages: nat, slot: nat)
    requires p.spec.Valid() && HitAt(p, hs, pages) && slot < p.spec.TableSize(pages)
    ensures p.spec.TableSize(pages) <= pages <= |hs|
    ensures
      var size := p.spec.TableSize(pages);
      var page := PageAt(pages, size, slot);
      && page < pages
      && (NeededPage(p.spec, pages, page) ==> hs[page] in p.index)
      && Selected(p, hs, pages)[slot] == if NeededPage(p.spec, pages, page) then Some(p.index[hs[page]]) else None
  {
    hide PageAt, SelectFrom;
    var size := p.spec.TableSize(pages);
    PageAtSlot(pages, size, slot);
    TailHit(p, hs, pages);
    TailExact(p.spec, pages, PageAt(pages, size, slot));
    SelectFromExact(p, hs, pages - p.spec.TailPages(pages), pages, Blank(size), slot);
  }

  /** A hit after `pages` pages is the presence of the pages the window reaches, and no others. */
  lemma HitExact(p: Pool, hs: seq<Hash>, pages: nat)
    ensures HitAt(p, hs, pages) <==>
      && pages <= |hs| && (p.spec.window.None? ==> pages <= p.spec.maxBlocks)
      && forall i :: 0 <= i < pages && (p.spec.window.Some? ==> i + p.spec.window.value >= pages) ==> hs[i] in p.index
  {
  }

  /** What a hit is worth to the request: the whole window, each page in the block published for
      it, at its place in the table. */
  lemma HitHoldsWindow(p: Pool, hs: seq<Hash>, pages: nat, page: nat)
    requires p.spec.Valid() && HitAt(p, hs, pages)
    requires page < pages && (p.spec.window.Some? ==> page + p.spec.window.value >= pages)
    ensures
      var size := if p.spec.window.Some? then Min(pages, p.spec.maxBlocks) else pages;
      && |Selected(p, hs, pages)| == size && page < pages <= |hs|
      && hs[page] in p.index && Selected(p, hs, pages)[page % size] == Some(p.index[hs[page]])
  {
    hide SelectFrom;
    var size := p.spec.TableSize(pages);
    SlotPageAt(pages, size, page);
    SelectedExact(p, hs, pages, RingSlot(page, size));
  }

  /** Distinct pages are published under distinct blocks, so the selection repeats none. */
  lemma SelectedInjective(p: Pool, hs: seq<Hash>, pages: nat)
    requires p.spec.Valid() && HitAt(p, hs, pages) && IndexOk(p)
    requires forall i :: 0 <= i < |hs| ==> Depth(hs[i]) == i + 1
    ensures Injective(Selected(p, hs, pages)) && InRange(Selected(p, hs, pages), |p.refs|)
    ensures |Selected(p, hs, pages)| == p.spec.TableSize(pages)
    ensures p.spec.window.None? ==> NoHoles(Selected(p, hs, pages))
  {
    hide PageAt, SelectFrom;
    var t := Selected(p, hs, pages);
    var size := p.spec.TableSize(pages);
    forall i, j | 0 <= i < j < size && t[i].Some?
      ensures t[i] != t[j]
    {
      SelectedExact(p, hs, pages, i);
      SelectedExact(p, hs, pages, j);
      if t[i] == t[j] {
        assert Depth(hs[PageAt(pages, size, i)]) == Depth(hs[PageAt(pages, size, j)]);
        PageAtSlot(pages, size, i);
        PageAtSlot(pages, size, j);
      }
    }
    forall i | 0 <= i < size
      ensures t[i].Some? ==> t[i].value < |p.refs|
      ensures p.spec.window.None? ==> t[i].Some?
    {
      SelectedExact(p, hs, pages, i);
    }
  }
}
