/**
 * The subrenderer's resource table: one column of image descriptors per map
 * kind, split into pages of `len` slots, each page bound through its own
 * descriptor set. This module holds the page arithmetic, the column
 * operations and the descriptor-set contents, independent of any class.
 */
module Paging {
  import opened Seqs

  /** One VkDescriptorImageInfo: sampler, image view and layout. */
  datatype ImageInfo = ImageInfo(sampler: nat, imageView: nat, imageLayout: nat)

  /** A value-initialised VkDescriptorImageInfo, as `resize` creates it. */
  const EmptyInfo: ImageInfo := ImageInfo(0, 0, 0)

  /** m_maps: column j holds the descriptors of map kind j, one slot per entity. */
  type Maps = seq<seq<ImageInfo>>

  /** What a resource descriptor set holds: for each map kind, `len` consecutive slots. */
  type Page = seq<seq<ImageInfo>>

  /** 2^32, the modulus of the engine's uint32_t arithmetic. */
  const Two32: nat := 0x1_0000_0000

  function Uint32(x: int): nat {
    x % Two32
  }

  // ---------------------------------------------------------------------
  // Page arithmetic

  /** Number of pages of `len` slots needed for `n` entries: n / len rounded up. */
  function PageCount(n: nat, len: nat): nat
    requires len > 0
  {
    (n + len - 1) / len
  }

  /** A product of naturals grows with its first factor. */
  lemma {:induction false} MulMono(p: nat, q: nat, len: nat)
    requires p <= q
    ensures p * len <= q * len
    ensures p < q ==> p * len + len <= q * len
    decreases q - p
  {
    if p < q {
      MulMono(p + 1, q, len);
      assert (p + 1) * len == p * len + len;
    }
  }

  /** Division is determined by a quotient and a remainder in range. */
  lemma DivModUnique(x: nat, len: nat, q: nat, r: nat)
    requires len > 0 && r < len && x == q * len + r
    ensures x / len == q && x % len == r
  {
    var q', r' := x / len, x % len;
    assert x == q' * len + r';
    if q' < q {
      MulMono(q', q, len);
      assert false;
    } else if q < q' {
      MulMono(q, q', len);
      assert false;
    }
  }

  /** The pages hold at least `n` slots. */
  lemma PageCountCovers(n: nat, len: nat)
    requires len > 0
    ensures n <= PageCount(n, len) * len
  {
    PageCountBounds(n, len);
  }

  /** The pages hold at least `n` slots and waste fewer than `len`; with a full last page they hold exactly `n`. */
  lemma PageCountBounds(n: nat, len: nat)
    requires len > 0
    ensures n <= PageCount(n, len) * len < n + len
    ensures n % len == 0 <==> PageCount(n, len) * len == n
    ensures n % len != 0 ==> PageCount(n, len) == n / len + 1
    ensures n % len == 0 ==> PageCount(n, len) == n / len
  {
    var q, r := n / len, n % len;
    assert n == q * len + r;
    if r == 0 {
      DivModUnique(n + len - 1, len, q, len - 1);
    } else {
      DivModUnique(n + len - 1, len, q + 1, r - 1);
    }
  }

  /**
   * Appending entry `n`: a new page starts exactly when `n` is a multiple of
   * `len`; otherwise slot `n` lies in the last page, which already exists.
   */
  lemma PageCountAppend(n: nat, len: nat)
    requires len > 0
    ensures n % len == 0 ==> PageCount(n + 1, len) == PageCount(n, len) + 1 && PageCount(n, len) * len == n
    ensures n % len != 0 ==> PageCount(n + 1, len) == PageCount(n, len) >= 1
    ensures n % len != 0 ==> n / len == PageCount(n, len) - 1
  {
    PageCountBounds(n, len);
    var q, r := n / len, n % len;
    assert n + 1 + len - 1 == (q + 1) * len + r;
    DivModUnique(n + 1 + len - 1, len, q + 1, r);
  }

  /**
   * Removing the last of `n` entries: the last page is dropped exactly when
   * the remaining count is a multiple of `len`.
   */
  lemma PageCountRemove(n: nat, len: nat)
    requires len > 0 && n > 0
    ensures (n - 1) % len == 0 ==> PageCount(n - 1, len) + 1 == PageCount(n, len) && PageCount(n - 1, len) * len == n - 1
    ensures (n - 1) % len != 0 ==> PageCount(n - 1, len) == PageCount(n, len)
  {
    PageCountAppend(n - 1, len);
  }

  /** The page of slot `i`, for one of `n` entries, exists and contains the slot. */
  lemma SlotInPage(i: nat, n: nat, len: nat)
    requires len > 0 && i < n
    ensures i / len < PageCount(n, len)
    ensures (i / len) * len <= i < (i / len) * len + len
    ensures (i / len) * len + len <= PageCount(n, len) * len
  {
    PageCountCovers(n, len);
    var q, r := i / len, i % len;
    assert i == q * len + r && r < len;
    SlotBelow(q, r, len, i, n, PageCount(n, len));
  }

  /** A slot below `n <= pc * len` lies in a page before `pc`. */
  lemma SlotBelow(q: nat, r: nat, len: nat, i: nat, n: nat, pc: nat)
    requires r < len && i == q * len + r && i < n && n <= pc * len
    ensures q < pc && q * len <= i < q * len + len && q * len + len <= pc * len
  {
    if q >= pc {
      MulMono(pc, q, len);
      assert false;
    }
    MulMono(q, pc, len);
  }

  /** The slot `k` of page `p` belongs to page `p`. */
  lemma PageOfSlot(p: nat, k: nat, len: nat)
    requires len > 0 && p * len <= k < p * len + len
    ensures k / len == p
  {
    DivModUnique(k, len, p, k - p * len);
  }

  /** A slot whose successor does not start a page shares its page with that successor. */
  lemma NextInSamePage(i: nat, len: nat)
    requires len > 0 && (i + 1) % len != 0
    ensures (i + 1) / len == i / len
  {
    var q, r := i / len, i % len;
    assert i == q * len + r && r < len;
    if r + 1 < len {
      DivModUnique(i + 1, len, q, r + 1);
    } else {
      assert i + 1 == (q + 1) * len;
      DivModUnique(i + 1, len, q + 1, 0);
      assert false;
    }
  }

  // ---------------------------------------------------------------------
  // The rewrite base in removeEntity

  /**
   * The first slot of the page holding slot `i`: the base from which a
   * page's descriptor set is rewritten.
   */
  function PageBase(i: nat, len: nat): nat
    requires len > 0
  {
    (i / len) * len
  }

  /**
   * removeEntity's rewrite base as written: `(uint32_t)(i / len) - 1`, then
   * multiplied by `len`, both in unsigned 32-bit arithmetic.
   */
  function RewriteBaseAsWritten(i: nat, len: nat): nat
    requires len > 0
  {
    Uint32(Uint32(i / len - 1) * len)
  }

  /**
   * The base as written is never the base of the page being rewritten: it
   * is the previous page's base, or for a slot in the first page it wraps
   * round to 2^32 - len.
   */
  lemma RewriteBaseAsWrittenMisses(i: nat, len: nat)
    requires 0 < len < Two32 && PageBase(i, len) < Two32
    ensures i < len ==> RewriteBaseAsWritten(i, len) == Two32 - len
    ensures i >= len ==> RewriteBaseAsWritten(i, len) + len == PageBase(i, len)
    ensures RewriteBaseAsWritten(i, len) != PageBase(i, len)
  {
    var q := i / len;
    assert i == q * len + i % len;
    if q == 0 {
      FirstPageBaseWraps(len);
      assert i < len;
    } else {
      MulMono(1, q, len);
      LaterPageBase(q, len);
    }
  }

  /** In the first page, `0 - 1` wraps to 2^32 - 1 and the product to 2^32 - len. */
  lemma FirstPageBaseWraps(len: nat)
    requires 0 < len < Two32
    ensures Uint32(Uint32(0 - 1) * len) == Two32 - len
  {
    assert Uint32(0 - 1) == Two32 - 1;
    assert (Two32 - 1) * len == (len - 1) * Two32 + (Two32 - len);
    DivModUnique((Two32 - 1) * len, Two32, len - 1, Two32 - len);
  }

  /** From the second page on, nothing wraps and the base is one page short. */
  lemma LaterPageBase(q: nat, len: nat)
    requires 0 < len && 1 <= q && q * len < Two32
    ensures Uint32(Uint32(q - 1) * len) + len == q * len
  {
    MulMono(1, len, q);
    assert q - 1 < Two32;
    assert Uint32(q - 1) == q - 1;
    assert (q - 1) * len + len == q * len;
    assert Uint32((q - 1) * len) == (q - 1) * len;
  }

  /** Two concrete slots that show it: slot 0 and slot 600 with the engine's 512-slot pages. */
  lemma RewriteBaseCounterexample()
    ensures RewriteBaseAsWritten(0, 512) == 4294966784 && PageBase(0, 512) == 0
    ensures RewriteBaseAsWritten(600, 512) == 0 && PageBase(600, 512) == 512
  {
  }

  // ---------------------------------------------------------------------
  // Descriptor-set contents

  /**
   * vhRenderUpdateDescriptorSetMaps(set, 0, offset, len, maps): the set
   * receives, for every map kind, the `len` slots from `offset` on. A range
   * past the end of a column leaves that kind empty.
   */
  function Window(maps: Maps, offset: nat, len: nat): (w: Page)
    ensures |w| == |maps|
  {
    seq(|maps|, j requires 0 <= j < |maps| =>
      if offset + len <= |maps[j]| then maps[j][offset .. offset + len] else [])
  }

  /** All columns have `size` slots. */
  predicate Columns(maps: Maps, size: nat) {
    forall j :: 0 <= j < |maps| ==> |maps[j]| == size
  }

  /**
   * The descriptor sets mirror the columns: there are exactly enough slots
   * for the pages, and page `p`'s set holds the window of slots from p * len.
   */
  predicate Mirrors(maps: Maps, pages: seq<Page>, len: nat) {
    Columns(maps, |pages| * len) &&
    forall p :: 0 <= p < |pages| ==> pages[p] == Window(maps, p * len, len)
  }

  /** A window only depends on the slots it covers. */
  lemma WindowFrame(a: Maps, b: Maps, offset: nat, len: nat)
    requires |a| == |b|
    requires forall j :: 0 <= j < |a| ==> |a[j]| == |b[j]|
    requires forall j, k :: 0 <= j < |a| && offset <= k < offset + len && k < |a[j]| ==> a[j][k] == b[j][k]
    ensures Window(a, offset, len) == Window(b, offset, len)
  {
    forall j | 0 <= j < |a|
      ensures Window(a, offset, len)[j] == Window(b, offset, len)[j]
    {
      if offset + len <= |a[j]| {
        assert a[j][offset .. offset + len] == b[j][offset .. offset + len];
      }
    }
  }

  // ---------------------------------------------------------------------
  // Column operations

  /** A new page: every column grows by `len` copies of that kind's new descriptor. */
  function Grown(maps: Maps, newMaps: seq<ImageInfo>, len: nat): (r: Maps)
    requires |newMaps| == |maps|
    ensures |r| == |maps|
  {
    seq(|maps|, j requires 0 <= j < |maps| => maps[j] + Fill(len, newMaps[j]))
  }

  /** Slot `s` of every column receives that kind's new descriptor. */
  function WithSlot(maps: Maps, s: nat, newMaps: seq<ImageInfo>): (r: Maps)
    requires |newMaps| == |maps|
    ensures |r| == |maps|
  {
    seq(|maps|, j requires 0 <= j < |maps| =>
      if s < |maps[j]| then maps[j][s := newMaps[j]] else maps[j])
  }

  /** Slot `to` of every column receives the descriptor in slot `from`. */
  function Moved(maps: Maps, from: nat, to: nat): (r: Maps)
    ensures |r| == |maps|
  {
    seq(|maps|, j requires 0 <= j < |maps| =>
      if from < |maps[j]| && to < |maps[j]| then maps[j][to := maps[j][from]] else maps[j])
  }

  /** Every column is cut down to `size` slots. */
  function Truncated(maps: Maps, size: nat): (r: Maps)
    ensures |r| == |maps|
  {
    seq(|maps|, j requires 0 <= j < |maps| => if size <= |maps[j]| then maps[j][..size] else maps[j])
  }

  /**
   * A new page keeps the existing pages' windows, and its own window holds
   * the new entry's descriptor in every slot.
   */
  lemma GrownMirrors(maps: Maps, pages: seq<Page>, newMaps: seq<ImageInfo>, len: nat)
    requires len > 0 && |newMaps| == |maps| && Mirrors(maps, pages, len)
    ensures Mirrors(Grown(maps, newMaps, len), pages + [Window(Grown(maps, newMaps, len), |pages| * len, len)], len)
    ensures forall j :: 0 <= j < |maps| ==>
      Window(Grown(maps, newMaps, len), |pages| * len, len)[j] == Fill(len, newMaps[j])
  {
    var g := Grown(maps, newMaps, len);
    var n := |pages|;
    assert (n + 1) * len == n * len + len;
    forall p | 0 <= p < n ensures pages[p] == Window(g, p * len, len) {
      MulMono(p, n, len);
      forall j | 0 <= j < |maps| ensures Window(g, p * len, len)[j] == Window(maps, p * len, len)[j] {
        assert g[j][p * len .. p * len + len] == maps[j][p * len .. p * len + len];
      }
    }
    forall j | 0 <= j < |maps| ensures Window(g, n * len, len)[j] == Fill(len, newMaps[j]) {
      assert g[j][n * len .. n * len + len] == Fill(len, newMaps[j]);
    }
  }

  /**
   * Changing the descriptors of one slot `s` and rewriting the set of the
   * page holding it from that page's base keeps every set a mirror.
   */
  lemma SlotChangeMirrors(maps: Maps, m2: Maps, pages: seq<Page>, s: nat, len: nat)
    requires len > 0 && Mirrors(maps, pages, len) && s < |pages| * len
    requires |m2| == |maps| && Columns(m2, |pages| * len)
    requires forall j, k :: 0 <= j < |maps| && 0 <= k < |pages| * len && k != s ==> m2[j][k] == maps[j][k]
    ensures s / len < |pages|
    ensures Mirrors(m2, pages[s / len := Window(m2, PageBase(s, len), len)], len)
  {
    SlotInPage(s, |pages| * len, len);
    DivModUnique(|pages| * len, len, |pages|, 0);
    assert PageCount(|pages| * len, len) == |pages| by {
      PageCountBounds(|pages| * len, len);
    }
    var pages2 := pages[s / len := Window(m2, PageBase(s, len), len)];
    forall p | 0 <= p < |pages| && p != s / len ensures pages2[p] == Window(m2, p * len, len) {
      if s < p * len + len && p * len <= s {
        PageOfSlot(p, s, len);
      }
      WindowFrame(maps, m2, p * len, len);
    }
  }

  /**
   * Dropping the last page and cutting every column back to the remaining
   * pages keeps every remaining set a mirror.
   */
  lemma TruncatedMirrors(maps: Maps, pages: seq<Page>, len: nat)
    requires len > 0 && Mirrors(maps, pages, len) && |pages| >= 1
    ensures Mirrors(Truncated(maps, (|pages| - 1) * len), pages[..|pages| - 1], len)
  {
    var n := |pages| - 1;
    var t := Truncated(maps, n * len);
    MulMono(n, n + 1, len);
    forall p | 0 <= p < n ensures pages[p] == Window(t, p * len, len) {
      MulMono(p, n, len);
      forall j | 0 <= j < |maps| ensures Window(t, p * len, len)[j] == Window(maps, p * len, len)[j] {
        assert t[j][p * len .. p * len + len] == maps[j][p * len .. p * len + len];
      }
    }
  }

  /** With mirrored columns, the column length divided by `len` is the page count. */
  lemma ColumnPages(pages: nat, len: nat)
    requires len > 0
    ensures (pages * len) / len == pages
    ensures PageCount(pages * len, len) == pages
  {
    DivModUnique(pages * len, len, pages, 0);
    PageCountBounds(pages * len, len);
  }
}
