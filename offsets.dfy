/** Where each segment's subheader begins: the first at the header length HL, each
    next one past the previous subheader and its data, the images first, then the
    graphics, the texts and the data extensions. */
module Offsets {
  import opened Wrappers
  import opened Ascii
  import opened Numbers
  import opened Groups

  /** A header field read as a usize, as the offset resolver unwraps it: a
      missing key and a value that is not a usize both fail. */
  function Number(m: FieldMap, key: string): Result<nat>
  {
    if key !in m then Err(MissingField(key))
    else match ParseUsize(m[key])
      case None => Err(BadNumber(key))
      case Some(v) => Ok(v)
  }

  /** The bytes segment i of the group takes in the file: its subheader length
      plus its data length, read in that order. */
  function SegmentSize(m: FieldMap, g: Group, i: nat): Result<nat>
  {
    var subheader :- Number(m, SubheaderKey(g, i));
    var data :- Number(m, SegmentKey(g, i));
    Ok(subheader + data)
  }

  /** The offsets of a group's segments, and where the next group begins. */
  datatype Layout = Layout(offsets: seq<nat>, next: nat)

  /** The size of each segment of the group, by index. */
  function SizeOf(m: FieldMap, g: Group): nat -> Result<nat>
  {
    i => SegmentSize(m, g, i)
  }

  /** Segments 1..n laid out from `start`, one after the other, segment i
      taking size(i) bytes. */
  function GroupLayout(size: nat -> Result<nat>, start: nat, n: nat): Result<Layout>
    decreases n
  {
    if n == 0 then Ok(Layout([], start))
    else
      var l :- GroupLayout(size, start, n - 1);
      var z :- size(n);
      Ok(Layout(l.offsets + [l.next], l.next + z))
  }

  /** The offsets of the four kinds of subheader the decoder reads. */
  datatype SegmentOffsets = SegmentOffsets(images: seq<nat>, graphics: seq<nat>, texts: seq<nat>,
                                           dataExtensions: seq<nat>)

  /** The source's offset walk over the decoded header, in its order: HL, then
      each group's count and its pairs. */
  function FileLayout(m: FieldMap): Result<SegmentOffsets>
  {
    var hl :- Number(m, "HL");
    var ni :- Number(m, Images.countKey);
    var images :- GroupLayout(SizeOf(m, Images), hl, ni);
    var ns :- Number(m, Graphics.countKey);
    var graphics :- GroupLayout(SizeOf(m, Graphics), images.next, ns);
    var nt :- Number(m, Texts.countKey);
    var texts :- GroupLayout(SizeOf(m, Texts), graphics.next, nt);
    var nd :- Number(m, DataExtensions.countKey);
    var des :- GroupLayout(SizeOf(m, DataExtensions), texts.next, nd);
    Ok(SegmentOffsets(images.offsets, graphics.offsets, texts.offsets, des.offsets))
  }

  /** All the offsets in the order the decoder visits them. */
  function AllOffsets(o: SegmentOffsets): seq<nat>
  {
    o.images + o.graphics + o.texts + o.dataExtensions
  }

  // ---------------------------------------------------------------------------
  // The reference: offsets are prefix sums of the sizes
  // ---------------------------------------------------------------------------

  /** The sizes of segments 1..n in order, or the first that cannot be read. */
  function Sizes(size: nat -> Result<nat>, n: nat): Result<seq<nat>>
    decreases n
  {
    if n == 0 then Ok([])
    else
      var z :- Sizes(size, n - 1);
      var last :- size(n);
      Ok(z + [last])
  }

  function Sum(z: seq<nat>): nat
  {
    if z == [] then 0 else Sum(z[..|z| - 1]) + z[|z| - 1]
  }

  predicate Sorted(s: seq<nat>)
  {
    forall i, j :: 0 <= i <= j < |s| ==> s[i] <= s[j]
  }

  predicate Within(s: seq<nat>, lo: nat, hi: nat)
  {
    forall i :: 0 <= i < |s| ==> lo <= s[i] <= hi
  }

  /** The sizes are there exactly when every segment's two length fields are. */
  lemma {:induction false} SizesOk(size: nat -> Result<nat>, n: nat)
    ensures Sizes(size, n).Ok? <==> forall i :: 1 <= i <= n ==> size(i).Ok?
    decreases n
  {
    if n > 0 {
      SizesOk(size, n - 1);
    }
  }

  /** Size i is the size of segment i. */
  lemma {:induction false} SizesAt(size: nat -> Result<nat>, n: nat)
    requires Sizes(size, n).Ok?
    ensures |Sizes(size, n).value| == n
    ensures forall i :: 1 <= i <= n ==> size(i).Ok? && Sizes(size, n).value[i - 1] == size(i).value
    decreases n
  {
    if n > 0 {
      var z := Sizes(size, n - 1).value;
      SizesAt(size, n - 1);
      var w := Sizes(size, n).value;
      assert w == z + [size(n).value];
      forall i | 0 <= i < n - 1 ensures w[i] == z[i] {
      }
    }
  }

  /** The group's layout succeeds exactly when its sizes can be read, fails with
      the same error otherwise, and puts segment k at `start` plus the sizes of
      the k segments before it; the next group begins past all of them. */
  lemma {:induction false} PrefixSums(size: nat -> Result<nat>, start: nat, n: nat)
    ensures GroupLayout(size, start, n).Ok? <==> Sizes(size, n).Ok?
    ensures GroupLayout(size, start, n).Err? ==> GroupLayout(size, start, n).error == Sizes(size, n).error
    ensures GroupLayout(size, start, n).Ok? ==>
      var l, z := GroupLayout(size, start, n).value, Sizes(size, n).value;
      && |z| == n && |l.offsets| == n && l.next == start + Sum(z)
      && forall k :: 0 <= k < n ==> l.offsets[k] == start + Sum(z[..k])
    decreases n
  {
    if n > 0 {
      PrefixSums(size, start, n - 1);
      var prev := GroupLayout(size, start, n - 1);
      if prev.Ok? && size(n).Ok? {
        var l, z := GroupLayout(size, start, n).value, Sizes(size, n).value;
        var z' := Sizes(size, n - 1).value;
        assert z == z' + [size(n).value];
        assert z[..|z| - 1] == z';
        forall k | 0 <= k < n ensures l.offsets[k] == start + Sum(z[..k]) {
          assert z[..k] == z'[..k];
          if k < n - 1 { assert l.offsets[k] == prev.value.offsets[k]; }
        }
      }
    }
  }

  lemma {:induction false} SumPrefixGrows(z: seq<nat>, i: nat, j: nat)
    requires i <= j <= |z|
    ensures Sum(z[..i]) <= Sum(z[..j])
    decreases j - i
  {
    if i < j {
      SumPrefixGrows(z, i, j - 1);
      assert z[..j][..j - 1] == z[..j - 1];
    }
  }

  /** A group's offsets never decrease, start at `start` and stay below where
      the next group begins, which is past the last segment. */
  lemma GroupSorted(size: nat -> Result<nat>, start: nat, n: nat)
    requires GroupLayout(size, start, n).Ok?
    ensures var l := GroupLayout(size, start, n).value;
      && |l.offsets| == n && start <= l.next
      && Sorted(l.offsets) && Within(l.offsets, start, l.next)
      && (n > 0 ==> l.offsets[0] == start)
      && (n > 0 ==> size(n).Ok? && l.next == l.offsets[n - 1] + size(n).value)
  {
    PrefixSums(size, start, n);
    var l, z := GroupLayout(size, start, n).value, Sizes(size, n).value;
    forall i, j | 0 <= i <= j < n ensures l.offsets[i] <= l.offsets[j] {
      SumPrefixGrows(z, i, j);
    }
    forall i | 0 <= i < n ensures start <= l.offsets[i] <= l.next {
      SumPrefixGrows(z, i, n);
      assert z[..n] == z;
    }
    if n > 0 {
      assert z[..0] == [];
    }
  }

  lemma SortedAppend(a: seq<nat>, b: seq<nat>, lo: nat, mid: nat, hi: nat)
    requires Sorted(a) && Within(a, lo, mid) && Sorted(b) && Within(b, mid, hi) && lo <= mid <= hi
    ensures Sorted(a + b) && Within(a + b, lo, hi)
  {
    forall i, j | 0 <= i <= j < |a + b| ensures (a + b)[i] <= (a + b)[j] {
      if j < |a| {
        assert (a + b)[i] == a[i] && (a + b)[j] == a[j];
      } else if i < |a| {
        assert (a + b)[i] == a[i] && (a + b)[j] == b[j - |a|];
      } else {
        assert (a + b)[i] == b[i - |a|] && (a + b)[j] == b[j - |a|];
      }
    }
    forall i | 0 <= i < |a + b| ensures lo <= (a + b)[i] <= hi {
      if i < |a| { assert (a + b)[i] == a[i]; } else { assert (a + b)[i] == b[i - |a|]; }
    }
  }

  /** Segment k + 1 begins where segment k ends: at segment k's offset plus its
      subheader and data lengths. */
  lemma GroupStep(size: nat -> Result<nat>, start: nat, n: nat, k: nat)
    requires GroupLayout(size, start, n).Ok? && 1 <= k < n
    ensures var l := GroupLayout(size, start, n).value;
      |l.offsets| == n && size(k).Ok? && l.offsets[k] == l.offsets[k - 1] + size(k).value
  {
    PrefixSums(size, start, n);
    SizesAt(size, n);
    var z := Sizes(size, n).value;
    assert z[..k][..k - 1] == z[..k - 1];
  }

  /** Strictly increasing. */
  predicate Increasing(s: seq<nat>)
  {
    forall i, j :: 0 <= i < j < |s| ==> s[i] < s[j]
  }

  /** Every element lies in [lo, hi). */
  predicate Before(s: seq<nat>, lo: nat, hi: nat)
  {
    forall i :: 0 <= i < |s| ==> lo <= s[i] < hi
  }

  lemma {:induction false} SumPrefixIncreases(z: seq<nat>, i: nat, j: nat)
    requires i < j <= |z| && forall k :: 0 <= k < |z| ==> z[k] > 0
    ensures Sum(z[..i]) < Sum(z[..j])
    decreases j - i
  {
    assert z[..j][..j - 1] == z[..j - 1];
    if i < j - 1 {
      SumPrefixIncreases(z, i, j - 1);
    }
  }

  /** When every segment of the group takes some bytes, its offsets strictly
      increase and all lie before where the next group begins. */
  lemma GroupIncreasing(size: nat -> Result<nat>, start: nat, n: nat)
    requires GroupLayout(size, start, n).Ok?
    requires forall i :: 1 <= i <= n && size(i).Ok? ==> size(i).value > 0
    ensures var l := GroupLayout(size, start, n).value;
      start <= l.next && Increasing(l.offsets) && Before(l.offsets, start, l.next)
  {
    PrefixSums(size, start, n);
    SizesAt(size, n);
    var l, z := GroupLayout(size, start, n).value, Sizes(size, n).value;
    assert forall k :: 0 <= k < |z| ==> z[k] > 0 by {
      forall k | 0 <= k < |z| ensures z[k] > 0 {
        assert size(k + 1).Ok? && z[k] == size(k + 1).value;
      }
    }
    forall i, j | 0 <= i < j < n ensures l.offsets[i] < l.offsets[j] {
      SumPrefixIncreases(z, i, j);
    }
    assert z[..n] == z;
    forall i | 0 <= i < n ensures start <= l.offsets[i] < l.next {
      SumPrefixIncreases(z, i, n);
    }
  }

  lemma IncreasingAppend(a: seq<nat>, b: seq<nat>, lo: nat, mid: nat, hi: nat)
    requires Increasing(a) && Before(a, lo, mid) && Increasing(b) && Before(b, mid, hi) && lo <= mid <= hi
    ensures Increasing(a + b) && Before(a + b, lo, hi)
  {
    forall i, j | 0 <= i < j < |a + b| ensures (a + b)[i] < (a + b)[j] {
      if j < |a| {
        assert (a + b)[i] == a[i] && (a + b)[j] == a[j];
      } else if i < |a| {
        assert (a + b)[i] == a[i] && (a + b)[j] == b[j - |a|];
      } else {
        assert (a + b)[i] == b[i - |a|] && (a + b)[j] == b[j - |a|];
      }
    }
    forall i | 0 <= i < |a + b| ensures lo <= (a + b)[i] < hi {
      if i < |a| { assert (a + b)[i] == a[i]; } else { assert (a + b)[i] == b[i - |a|]; }
    }
  }

  // ---------------------------------------------------------------------------
  // The whole walk
  // ---------------------------------------------------------------------------

  /** The start of each kind: HL for the images, then where the kind before ended. */
  function KindStarts(m: FieldMap): (r: seq<nat>)
    requires FileLayout(m).Ok?
    ensures |r| == 4
  {
    var hl := Number(m, "HL").value;
    var images := GroupLayout(SizeOf(m, Images), hl, Number(m, Images.countKey).value).value;
    var graphics := GroupLayout(SizeOf(m, Graphics), images.next, Number(m, Graphics.countKey).value).value;
    var texts := GroupLayout(SizeOf(m, Texts), graphics.next, Number(m, Texts.countKey).value).value;
    [hl, images.next, graphics.next, texts.next]
  }

  /** Each kind has as many offsets as its count field says; the images begin
      at HL and each later kind where the one before it ended, past the last
      segment of that kind. */
  lemma FileCounts(m: FieldMap)
    requires FileLayout(m).Ok?
    ensures var o, st := FileLayout(m).value, KindStarts(m);
      && |o.images| == Number(m, "NUMI").value
      && |o.graphics| == Number(m, "NUMS").value
      && |o.texts| == Number(m, "NUMT").value
      && |o.dataExtensions| == Number(m, "NUMDES").value
      && (|o.images| > 0 ==> o.images[0] == st[0])
      && (|o.graphics| > 0 ==> o.graphics[0] == st[1])
      && (|o.texts| > 0 ==> o.texts[0] == st[2])
      && (|o.dataExtensions| > 0 ==> o.dataExtensions[0] == st[3])
  {
    var st := KindStarts(m);
    GroupSorted(SizeOf(m, Images), st[0], Number(m, "NUMI").value);
    GroupSorted(SizeOf(m, Graphics), st[1], Number(m, "NUMS").value);
    GroupSorted(SizeOf(m, Texts), st[2], Number(m, "NUMT").value);
    GroupSorted(SizeOf(m, DataExtensions), st[3], Number(m, "NUMDES").value);
  }

  /** Every offset the walk produces is at least HL, and taken in the order the
      decoder visits them (images, graphics, texts, data extensions) they never
      decrease. */
  lemma FileSorted(m: FieldMap)
    requires FileLayout(m).Ok?
    ensures var all := AllOffsets(FileLayout(m).value);
      Sorted(all) && forall i :: 0 <= i < |all| ==> Number(m, "HL").value <= all[i]
  {
    var o, st := FileLayout(m).value, KindStarts(m);
    var ni, ns, nt, nd := Number(m, "NUMI").value, Number(m, "NUMS").value, Number(m, "NUMT").value,
                          Number(m, "NUMDES").value;
    GroupSorted(SizeOf(m, Images), st[0], ni);
    GroupSorted(SizeOf(m, Graphics), st[1], ns);
    GroupSorted(SizeOf(m, Texts), st[2], nt);
    GroupSorted(SizeOf(m, DataExtensions), st[3], nd);
    var end := GroupLayout(SizeOf(m, DataExtensions), st[3], nd).value.next;
    SortedAppend(o.images, o.graphics, st[0], st[1], st[2]);
    SortedAppend(o.images + o.graphics, o.texts, st[0], st[2], st[3]);
    SortedAppend(o.images + o.graphics + o.texts, o.dataExtensions, st[0], st[3], end);
  }

  /** Every pair 1..count that the offset walk visits in group g, where its
      subheader and data lengths can be read, adds up to more than zero. */
  predicate WalkedPairsNonzero(m: FieldMap, g: Group)
  {
    Number(m, g.countKey).Ok? ==>
      forall i :: 1 <= i <= Number(m, g.countKey).value && SegmentSize(m, g, i).Ok? ==>
        SegmentSize(m, g, i).value > 0
  }

  /** The pairs of the four kinds the walk visits all have a positive size. */
  predicate NonzeroPairs(m: FieldMap)
  {
    && WalkedPairsNonzero(m, Images)
    && WalkedPairsNonzero(m, Graphics)
    && WalkedPairsNonzero(m, Texts)
    && WalkedPairsNonzero(m, DataExtensions)
  }

  lemma NonzeroSizes(m: FieldMap, g: Group, n: nat)
    requires WalkedPairsNonzero(m, g) && Number(m, g.countKey) == Ok(n)
    ensures forall i :: 1 <= i <= n && SizeOf(m, g)(i).Ok? ==> SizeOf(m, g)(i).value > 0
  {
    forall i | 1 <= i <= n && SizeOf(m, g)(i).Ok? ensures SizeOf(m, g)(i).value > 0 {
      assert SizeOf(m, g)(i) == SegmentSize(m, g, i);
    }
  }

  /** When none of the pairs the walk visits adds up to zero, the offsets strictly
      increase in the order the decoder visits them, from HL on. */
  lemma FileIncreasing(m: FieldMap)
    requires FileLayout(m).Ok? && NonzeroPairs(m)
    ensures var all := AllOffsets(FileLayout(m).value);
      Increasing(all) && forall i :: 0 <= i < |all| ==> Number(m, "HL").value <= all[i]
  {
    var o, st := FileLayout(m).value, KindStarts(m);
    var ni, ns, nt, nd := Number(m, "NUMI").value, Number(m, "NUMS").value, Number(m, "NUMT").value,
                          Number(m, "NUMDES").value;
    NonzeroSizes(m, Images, ni);
    NonzeroSizes(m, Graphics, ns);
    NonzeroSizes(m, Texts, nt);
    NonzeroSizes(m, DataExtensions, nd);
    GroupIncreasing(SizeOf(m, Images), st[0], ni);
    GroupIncreasing(SizeOf(m, Graphics), st[1], ns);
    GroupIncreasing(SizeOf(m, Texts), st[2], nt);
    GroupIncreasing(SizeOf(m, DataExtensions), st[3], nd);
    var end := GroupLayout(SizeOf(m, DataExtensions), st[3], nd).value.next;
    IncreasingAppend(o.images, o.graphics, st[0], st[1], st[2]);
    IncreasingAppend(o.images + o.graphics, o.texts, st[0], st[2], st[3]);
    IncreasingAppend(o.images + o.graphics + o.texts, o.dataExtensions, st[0], st[3], end);
  }

  // ---------------------------------------------------------------------------
  // The source's loops
  // ---------------------------------------------------------------------------

  /** Once segment i fails, the group fails with the same error. */
  lemma {:induction false} LayoutFailsFrom(size: nat -> Result<nat>, start: nat, i: nat, n: nat)
    requires i <= n && GroupLayout(size, start, i).Err?
    ensures GroupLayout(size, start, n) == GroupLayout(size, start, i)
    decreases n - i
  {
    if i < n {
      LayoutFailsFrom(size, start, i, n - 1);
    }
  }

  /** The source's loop over pairs 1 to count: each turn records the current offset
      and then moves it past that subheader and its segment. */
  method CollectOffsets(m: FieldMap, g: Group, count: nat, start: nat) returns (r: Result<Layout>)
    ensures r == GroupLayout(SizeOf(m, g), start, count)
  {
    var offsets: seq<nat> := [];
    var offset := start;
    var i := 1;
    while i <= count
      invariant 1 <= i <= count + 1
      invariant GroupLayout(SizeOf(m, g), start, i - 1) == Ok(Layout(offsets, offset))
    {
      assert SizeOf(m, g)(i) == SegmentSize(m, g, i);
      offsets := offsets + [offset];
      var subheader := Number(m, SubheaderKey(g, i));
      if subheader.Err? {
        LayoutFailsFrom(SizeOf(m, g), start, i, count);
        return Err(subheader.error);
      }
      var data := Number(m, SegmentKey(g, i));
      if data.Err? {
        LayoutFailsFrom(SizeOf(m, g), start, i, count);
        return Err(data.error);
      }
      offset := offset + subheader.value + data.value;
      i := i + 1;
    }
    return Ok(Layout(offsets, offset));
  }

  /** The offset walk of the file, kind by kind. */
  method ResolveOffsets(m: FieldMap) returns (r: Result<SegmentOffsets>)
    ensures r == FileLayout(m)
  {
    var hl :- Number(m, "HL");
    var ni :- Number(m, Images.countKey);
    var images :- CollectOffsets(m, Images, ni, hl);
    var ns :- Number(m, Graphics.countKey);
    var graphics :- CollectOffsets(m, Graphics, ns, images.next);
    var nt :- Number(m, Texts.countKey);
    var texts :- CollectOffsets(m, Texts, nt, graphics.next);
    var nd :- Number(m, DataExtensions.countKey);
    var des :- CollectOffsets(m, DataExtensions, nd, texts.next);
    return Ok(SegmentOffsets(images.offsets, graphics.offsets, texts.offsets, des.offsets));
  }
}
