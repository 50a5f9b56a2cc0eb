/**
 * How get_info spreads the pages over workers: the worker count `min(pages, cpus)` and numpy's
 * `array_split`, which cuts a sequence into `sections` contiguous pieces whose sizes differ by at
 * most one, the larger pieces first.
 */
module Split {
  import opened Wrappers

  /** Lines 140-143: as many threads as pages when there are fewer pages than CPUs, else one
      per CPU. */
  function WorkerCount(pages: int, cpus: int): (k: int)
    ensures k <= pages && k <= cpus
    ensures k == pages || k == cpus
    ensures pages >= 1 && cpus >= 1 ==> k >= 1
  {
    if pages < cpus then pages else cpus
  }

  /** `range(lo, lo + len)` as a sequence. */
  function Range(lo: int, len: nat): (r: seq<int>)
    ensures |r| == len
    ensures forall i :: 0 <= i < len ==> r[i] == lo + i
  {
    seq(len, i requires 0 <= i < len => lo + i)
  }

  lemma InRange(lo: int, len: nat, x: int)
    ensures x in Range(lo, len) <==> lo <= x < lo + len
  {
    if lo <= x < lo + len {
      assert Range(lo, len)[x - lo] == x;
    }
  }

  /** The concatenation of a sequence of chunks, in order. */
  function Flatten<T>(chunks: seq<seq<T>>): seq<T>
  {
    if chunks == [] then [] else Flatten(chunks[..|chunks| - 1]) + chunks[|chunks| - 1]
  }

  /** An element is in the concatenation exactly when it is in one of the chunks. */
  lemma {:induction false} FlattenMember<T>(chunks: seq<seq<T>>, x: T)
    ensures x in Flatten(chunks) <==> exists i :: 0 <= i < |chunks| && x in chunks[i]
  {
    if chunks != [] {
      var init := chunks[..|chunks| - 1];
      FlattenMember(init, x);
      if x in Flatten(init) {
        var i :| 0 <= i < |init| && x in init[i];
        assert chunks[i] == init[i];
      }
      forall i | 0 <= i < |init|
        ensures chunks[i] == init[i]
      {
      }
    }
  }

  /** `divmod(total, sections)[0]`: the size every piece gets. */
  function Each(total: nat, sections: nat): nat
    requires sections > 0
  {
    if total < sections then 0 else 1 + Each(total - sections, sections)
  }

  /** `divmod(total, sections)[1]`: how many pieces get one element more. */
  function Extras(total: nat, sections: nat): nat
    requires sections > 0
  {
    if total < sections then total else Extras(total - sections, sections)
  }

  /** `Each` and `Extras` are the quotient and remainder of Python's `divmod` on non-negative
      operands: `total == sections * each + extras` with `0 <= extras < sections`. */
  lemma {:induction false} EachExtrasDivMod(total: nat, sections: nat)
    requires sections > 0
    ensures total == sections * Each(total, sections) + Extras(total, sections)
    ensures Extras(total, sections) < sections
    decreases total
  {
    if total >= sections {
      EachExtrasDivMod(total - sections, sections);
      var e := Each(total - sections, sections);
      assert sections * (1 + e) == sections + sections * e;
    }
  }

  /** numpy's `section_sizes[i + 1]`: every piece gets `each` elements and the first `extras`
      pieces one more. */
  function SectionSize(each: nat, extras: nat, i: nat): nat
  {
    each + if i < extras then 1 else 0
  }

  /** numpy's `div_points[i]`, the cumulative sum of the section sizes before piece `i`. */
  function DivPoint(each: nat, extras: nat, i: nat): nat
  {
    if i == 0 then 0 else DivPoint(each, extras, i - 1) + SectionSize(each, extras, i - 1)
  }

  function Min(a: int, b: int): int { if a < b then a else b }

  /** With no whole rounds, the division points count the extra elements handed out so far. */
  lemma {:induction false} DivPointExtrasOnly(extras: nat, i: nat)
    ensures DivPoint(0, extras, i) == Min(i, extras)
  {
    if i > 0 {
      DivPointExtrasOnly(extras, i - 1);
    }
  }

  /** One more element in every piece moves division point `i` up by `i`. */
  lemma {:induction false} DivPointShift(each: nat, extras: nat, i: nat)
    ensures DivPoint(each + 1, extras, i) == DivPoint(each, extras, i) + i
  {
    if i > 0 {
      DivPointShift(each, extras, i - 1);
    }
  }

  lemma {:induction false} DivPointMonotone(each: nat, extras: nat, i: nat, j: nat)
    requires i <= j
    ensures DivPoint(each, extras, i) <= DivPoint(each, extras, j)
    decreases j
  {
    if i < j {
      DivPointMonotone(each, extras, i, j - 1);
    }
  }

  /** The division point after the last piece is the whole length. */
  lemma {:induction false} DivPointEnd(total: nat, sections: nat)
    requires sections > 0
    ensures DivPoint(Each(total, sections), Extras(total, sections), sections) == total
    decreases total
  {
    if total < sections {
      DivPointExtrasOnly(total, sections);
    } else {
      DivPointEnd(total - sections, sections);
      DivPointShift(Each(total - sections, sections), Extras(total - sections, sections), sections);
    }
  }

  /** numpy's `div_points[i]` for `total` elements in `sections` pieces. */
  function Cut(total: nat, sections: nat, i: nat): nat
    requires sections > 0
  {
    DivPoint(Each(total, sections), Extras(total, sections), i)
  }

  /** numpy's `section_sizes[i + 1]` for `total` elements in `sections` pieces. */
  function Size(total: nat, sections: nat, i: nat): nat
    requires sections > 0
  {
    SectionSize(Each(total, sections), Extras(total, sections), i)
  }

  /** The cuts run from 0 up to the whole length without ever going back, and consecutive cuts
      lie one section size apart. */
  lemma CutBounds(total: nat, sections: nat)
    requires sections > 0
    ensures Cut(total, sections, 0) == 0
    ensures Cut(total, sections, sections) == total
    ensures forall i :: 0 <= i <= sections ==> Cut(total, sections, i) <= total
    ensures forall i :: 0 <= i < sections ==>
              Cut(total, sections, i + 1) == Cut(total, sections, i) + Size(total, sections, i)
  {
    var each, extras := Each(total, sections), Extras(total, sections);
    DivPointEnd(total, sections);
    forall i | 0 <= i <= sections
      ensures DivPoint(each, extras, i) <= total
    {
      DivPointMonotone(each, extras, i, sections);
    }
  }

  lemma CutMonotone(total: nat, sections: nat, i: nat, j: nat)
    requires sections > 0 && i <= j
    ensures Cut(total, sections, i) <= Cut(total, sections, j)
  {
    DivPointMonotone(Each(total, sections), Extras(total, sections), i, j);
  }

  /** `np.array_split(ary, sections)`: a ValueError when `sections <= 0`, otherwise the pieces
      `ary[div_points[i]:div_points[i + 1]]`. */
  function ArraySplit<T>(ary: seq<T>, sections: int): (r: Result<seq<seq<T>>, string>)
    ensures r.Err? <==> sections <= 0
    ensures r.Ok? ==> |r.value| == sections
  {
    if sections <= 0 then Err("number sections must be larger than 0.")
    else Ok(seq(sections, i requires 0 <= i < sections => Piece(ary, sections, i)))
  }

  /** `sary[st:end]` with `st, end = div_points[i], div_points[i + 1]`. */
  function Piece<T>(ary: seq<T>, sections: int, i: int): (r: seq<T>)
    requires 0 <= i < sections
    ensures |r| == Size(|ary|, sections, i)
  {
    CutBounds(|ary|, sections);
    ary[Cut(|ary|, sections, i)..Cut(|ary|, sections, i + 1)]
  }

  /** Each piece is the slice between consecutive division points, and its length is the section
      size. */
  lemma ArraySplitPiece<T>(ary: seq<T>, sections: int, i: int)
    requires 0 <= i < sections
    ensures ArraySplit(ary, sections).Ok?
    ensures Cut(|ary|, sections, i) <= Cut(|ary|, sections, i + 1) <= |ary|
    ensures ArraySplit(ary, sections).value[i] ==
              ary[Cut(|ary|, sections, i)..Cut(|ary|, sections, i + 1)]
    ensures |ArraySplit(ary, sections).value[i]| == Size(|ary|, sections, i)
  {
    CutBounds(|ary|, sections);
  }

  /** Flattening one chunk more appends that chunk. */
  lemma FlattenSnoc<T>(chunks: seq<seq<T>>, j: nat)
    requires 0 < j <= |chunks|
    ensures Flatten(chunks[..j]) == Flatten(chunks[..j - 1]) + chunks[j - 1]
  {
    assert chunks[..j][..j - 1] == chunks[..j - 1];
  }

  lemma {:induction false} FlattenPrefix<T>(ary: seq<T>, sections: int, j: nat)
    requires 0 < sections && j <= sections
    ensures Cut(|ary|, sections, j) <= |ary|
    ensures Flatten(ArraySplit(ary, sections).value[..j]) == ary[..Cut(|ary|, sections, j)]
  {
    if j > 0 {
      var pieces := ArraySplit(ary, sections).value;
      FlattenPrefix(ary, sections, j - 1);
      ArraySplitPiece(ary, sections, j - 1);
      FlattenSnoc(pieces, j);
      var a, b := Cut(|ary|, sections, j - 1), Cut(|ary|, sections, j);
      assert ary[..a] + ary[a..b] == ary[..b];
    }
  }

  /** Concatenating the pieces in order gives back the input: nothing is lost, repeated or
      reordered. */
  lemma ArraySplitFlatten<T>(ary: seq<T>, sections: int)
    requires sections > 0
    ensures Flatten(ArraySplit(ary, sections).value) == ary
  {
    FlattenPrefix(ary, sections, sections);
    CutBounds(|ary|, sections);
    assert ary[..|ary|] == ary;
    assert ArraySplit(ary, sections).value[..sections] == ArraySplit(ary, sections).value;
  }

  /** Sizes of the pieces: `each` or `each + 1`, the larger ones first; none is empty when
      `each >= 1` or every piece gets an extra element. */
  lemma SectionSizeOrder(each: nat, extras: nat, i: nat, j: nat)
    requires i < j
    ensures SectionSize(each, extras, j) <= SectionSize(each, extras, i) <= SectionSize(each, extras, j) + 1
  {
  }

  /** With no more sections than elements, every piece gets at least one element. */
  lemma SizePositive(total: nat, sections: nat, i: nat)
    requires 0 <= i < sections <= total
    ensures Size(total, sections, i) >= 1
  {
    EachExtrasDivMod(total, sections);
  }

  /** Piece sizes differ by at most one and never grow from one piece to the next; with no more
      sections than elements, no piece is empty. */
  lemma ArraySplitSizes<T>(ary: seq<T>, sections: int)
    requires sections > 0
    ensures var pieces := ArraySplit(ary, sections).value;
            forall i, j :: 0 <= i < j < sections ==>
              |pieces[j]| <= |pieces[i]| <= |pieces[j]| + 1
    ensures sections <= |ary| ==>
              forall i :: 0 <= i < sections ==> |ArraySplit(ary, sections).value[i]| >= 1
  {
    var pieces := ArraySplit(ary, sections).value;
    var each, extras := Each(|ary|, sections), Extras(|ary|, sections);
    forall i, j | 0 <= i < j < sections
      ensures |pieces[j]| <= |pieces[i]| <= |pieces[j]| + 1
    {
      ArraySplitPiece(ary, sections, i);
      ArraySplitPiece(ary, sections, j);
      SectionSizeOrder(each, extras, i, j);
    }
    if sections <= |ary| {
      forall i | 0 <= i < sections
        ensures |pieces[i]| >= 1
      {
        ArraySplitPiece(ary, sections, i);
        SizePositive(|ary|, sections, i);
      }
    }
  }

  /** Line 149: `np.array_split(range(1, pages + 1), workers)`. */
  function PagePartition(pages: int, workers: int): Result<seq<seq<int>>, string>
  {
    ArraySplit(Range(1, if pages < 0 then 0 else pages), workers)
  }

  /** Piece `i` of the page partition is the contiguous run of page numbers just after division
      point `i`. */
  lemma PagePartitionContiguous(pages: nat, workers: int, i: int)
    requires 0 <= i < workers
    ensures PagePartition(pages, workers).Ok?
    ensures PagePartition(pages, workers).value[i] ==
              Range(1 + Cut(pages, workers, i), Size(pages, workers, i))
  {
    var all := Range(1, pages);
    ArraySplitPiece(all, workers, i);
    RangeSlice(1, pages, Cut(pages, workers, i), Cut(pages, workers, i + 1));
  }

  /** A slice of consecutive numbers is consecutive numbers. */
  lemma RangeSlice(lo: int, len: nat, i: nat, j: nat)
    requires i <= j <= len
    ensures Range(lo, len)[i..j] == Range(lo + i, j - i)
  {
    var s, t := Range(lo, len)[i..j], Range(lo + i, j - i);
    forall m | 0 <= m < j - i
      ensures s[m] == t[m]
    {
      assert s[m] == Range(lo, len)[i + m];
    }
  }

  /** Page `p` lies in piece `i` exactly when it falls after division point `i` and not after
      division point `i + 1`. */
  lemma InPiece(pages: nat, workers: int, i: int, p: int)
    requires 0 <= i < workers
    ensures p in PagePartition(pages, workers).value[i] <==>
              Cut(pages, workers, i) < p <= Cut(pages, workers, i + 1)
  {
    PagePartitionContiguous(pages, workers, i);
    CutBounds(pages, workers);
    InRange(1 + Cut(pages, workers, i), Size(pages, workers, i), p);
  }

  /** Two pieces never share a page. */
  lemma PiecesDisjoint(pages: nat, workers: int, p: int, i: int, j: int)
    requires 0 <= i < j < workers
    ensures !(p in PagePartition(pages, workers).value[i] && p in PagePartition(pages, workers).value[j])
  {
    InPiece(pages, workers, i, p);
    InPiece(pages, workers, j, p);
    CutMonotone(pages, workers, i + 1, j);
  }

  /** Every page `1..pages` lies in some piece of the partition, and nothing else does. */
  lemma PagesCovered(pages: nat, workers: int, p: int)
    requires workers > 0
    ensures 1 <= p <= pages <==>
              exists i :: 0 <= i < workers && p in PagePartition(pages, workers).value[i]
  {
    var pieces := PagePartition(pages, workers).value;
    CutBounds(pages, workers);
    if 1 <= p <= pages {
      var i := Owner(pages, workers, p, 0);
      InPiece(pages, workers, i, p);
    }
    forall i | 0 <= i < workers && p in pieces[i]
      ensures 1 <= p <= pages
    {
      InPiece(pages, workers, i, p);
      CutMonotone(pages, workers, i + 1, workers);
    }
  }

  /** Every page `1..pages` lies in exactly one piece of the partition, and nothing else does. */
  lemma PagePartitionExactlyOnce(pages: nat, workers: int, p: int)
    requires workers > 0
    ensures var pieces := PagePartition(pages, workers).value;
            && (1 <= p <= pages <==> exists i :: 0 <= i < workers && p in pieces[i])
            && forall i, j :: 0 <= i < workers && 0 <= j < workers && p in pieces[i] && p in pieces[j]
                 ==> i == j
  {
    var pieces := PagePartition(pages, workers).value;
    PagesCovered(pages, workers, p);
    forall i, j | 0 <= i < workers && 0 <= j < workers && p in pieces[i] && p in pieces[j]
      ensures i == j
    {
      if i < j { PiecesDisjoint(pages, workers, p, i, j); }
      if j < i { PiecesDisjoint(pages, workers, p, j, i); }
    }
  }

  /** The piece holding page `p`, searched from piece `from` on. */
  lemma {:induction false} Owner(pages: nat, workers: int, p: int, from: nat) returns (i: nat)
    requires workers > 0 && from < workers
    requires Cut(pages, workers, from) < p <= pages
    ensures from <= i < workers
    ensures Cut(pages, workers, i) < p <= Cut(pages, workers, i + 1)
    decreases workers - from
  {
    CutBounds(pages, workers);
    if p <= Cut(pages, workers, from + 1) {
      i := from;
    } else {
      i := Owner(pages, workers, p, from + 1);
    }
  }
}
