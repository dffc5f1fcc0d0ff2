/** Page-to-offset arithmetic of the paged engines: `(page - 1) * per_page`
    (plus one for Bing's 1-based `first`). `page` is a u32, so the source
    evaluates this in u32. */
module Paging {
  import opened Wrappers
  import opened Models

  /** The offset as the source evaluates it, in u32 with overflow checks:
      `None` stands for the arithmetic-overflow panic (a debug build; a release
      build wraps around instead). */
  function CheckedOffset(page: u32, perPage: u32, add: u32): Option<u32> {
    if page == 0 then None
    else
      // the product overflows only if the sum does, so one check covers both steps
      var p: nat := page - 1;
      var product: nat := p * perPage;
      var total := product + add;
      if total > U32_MAX then None else Some(total)
  }

  /** The as-written computation fails exactly on page 0 and on pages whose
      offset does not fit in 32 bits. */
  lemma CheckedOffsetFails(page: u32, perPage: u32, add: u32)
    ensures CheckedOffset(page, perPage, add).None? <==>
            page == 0 || (page - 1) * perPage + add > U32_MAX
  {
  }

  /** `page=0` in a request makes `query.page - 1` underflow. */
  lemma PageZeroUnderflows()
    ensures CheckedOffset(0, 10, 0).None?
    ensures CheckedOffset(0, 20, 0).None?
    ensures CheckedOffset(0, 10, 1).None?
  {
  }

  /** A large page makes `(page - 1) * 10` overflow u32 although the page itself is a valid u32. */
  lemma LargePageOverflows()
    ensures CheckedOffset(429496731, 10, 0).None?
    ensures CheckedOffset(214748366, 20, 0).None?
    ensures CheckedOffset(429496730, 10, 0) == Some(4294967290)
  {
  }

  /** The offset with page 0 read as the first page and the product widened, so
      that no page number can make the request fail. */
  function PageOffset(page: u32, perPage: nat, add: nat): (r: nat)
    ensures page >= 1 ==> r == (page - 1) * perPage + add
    ensures page <= 1 ==> r == add
  {
    (if page == 0 then 0 else page - 1) * perPage + add
  }

  /** Wherever the as-written computation succeeds, the corrected one agrees with it. */
  lemma CorrectedAgrees(page: u32, perPage: u32, add: u32)
    requires CheckedOffset(page, perPage, add).Some?
    ensures CheckedOffset(page, perPage, add).value == PageOffset(page, perPage, add)
  {
  }

  /** For the engines' page sizes the corrected offset fits in a u64. */
  lemma {:induction false} PageOffsetFitsU64(page: u32, perPage: nat, add: nat)
    requires perPage <= 20 && add <= 1
    ensures PageOffset(page, perPage, add) <= U64_MAX
  {
    var p := if page == 0 then 0 else page - 1;
    assert p * perPage <= U32_MAX * 20 by {
      assert p <= U32_MAX;
    }
  }

  /** Distinct pages get distinct offsets, later pages strictly later ones. */
  lemma PageOffsetIncreasing(page: u32, later: u32, perPage: nat, add: nat)
    requires 1 <= page < later && perPage >= 1
    ensures PageOffset(page, perPage, add) + perPage <= PageOffset(later, perPage, add)
  {
    var p: nat := page - 1;
    var d: nat := later - page;
    MulDistributes(p, d, perPage);
    MulAtLeast(d, perPage);
  }

  lemma MulDistributes(p: nat, d: nat, n: nat)
    ensures (p + d) * n == p * n + d * n
  {
  }

  lemma MulAtLeast(d: nat, n: nat)
    requires d >= 1
    ensures d * n >= n
  {
  }
}
