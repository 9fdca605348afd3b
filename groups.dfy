/** The segment groups of the file header: a 3-digit count followed by that many
    (subheader length, segment length) pairs stored under keys such as LISH001 and
    LI001. */
module Groups {
  import opened Ascii
  import opened Numbers

  const CountWidth: nat := 3

  /** The keys and widths of one group's count and pairs. */
  datatype Group = Group(countKey: string, subheaderKey: string, subheaderWidth: nat,
                         segmentKey: string, segmentWidth: nat)

  const Images := Group("NUMI", "LISH", 6, "LI", 10)
  const Graphics := Group("NUMS", "LSSH", 4, "LS", 6)
  const Texts := Group("NUMT", "LTSH", 4, "LT", 5)
  const DataExtensions := Group("NUMDES", "LDSH", 4, "LD", 9)
  const ReservedExtensions := Group("NUMRES", "LRESH", 4, "LRE", 7)

  function PairWidth(g: Group): nat
  {
    g.subheaderWidth + g.segmentWidth
  }

  /** A pair key: the key prefix followed by the index as three zero-padded digits. */
  function SubheaderKey(g: Group, n: nat): string
  {
    g.subheaderKey + FormatIndex(n)
  }

  function SegmentKey(g: Group, n: nat): string
  {
    g.segmentKey + FormatIndex(n)
  }

  predicate NoDigits(s: string)
  {
    forall i :: 0 <= i < |s| ==> !IsDigit(s[i])
  }

  /** The shape every group of the header has: the segment-length key is a
      proper prefix of the subheader-length key, and no key holds a digit. */
  predicate WellKeyed(g: Group)
  {
    && |g.segmentKey| < |g.subheaderKey|
    && g.subheaderKey[..|g.segmentKey|] == g.segmentKey
    && NoDigits(g.subheaderKey) && NoDigits(g.countKey)
    && g.subheaderWidth > 0 && g.segmentWidth > 0
  }

  lemma AllGroupsWellKeyed()
    ensures WellKeyed(Images) && WellKeyed(Graphics) && WellKeyed(Texts)
    ensures WellKeyed(DataExtensions) && WellKeyed(ReservedExtensions)
  {
  }

  /** A key of the form prefix + digits for one of the group's two prefixes. */
  predicate IsPairKey(g: Group, key: string)
  {
    || (|key| > |g.subheaderKey| && key[..|g.subheaderKey|] == g.subheaderKey && AllDigits(key[|g.subheaderKey|..]))
    || (|key| > |g.segmentKey| && key[..|g.segmentKey|] == g.segmentKey && AllDigits(key[|g.segmentKey|..]))
  }

  /** Pairs 1..count lie in the buffer as text. */
  predicate PairsReadable(buf: seq<Byte>, at: nat, g: Group, count: nat)
  {
    at + count * PairWidth(g) <= |buf| && AsciiSpan(buf, at, at + count * PairWidth(g))
  }

  lemma PairOffsetBound(at: nat, w: nat, n: nat, k: nat)
    requires 1 <= k <= n
    ensures at + (k - 1) * w + w <= at + n * w
  {
    assert (k - 1) * w + w == k * w;
    assert k * w <= n * w;
  }

  /** Where pair k (counted from 1) of pairs starting at `at` begins. */
  function PairStart(at: nat, g: Group, k: nat): nat
    requires 1 <= k
  {
    at + (k - 1) * PairWidth(g)
  }

  /** The subheader length of the pair at p, as read. */
  function SubheaderLength(buf: seq<Byte>, p: nat, g: Group): string
    requires p + PairWidth(g) <= |buf|
  {
    Text(buf[p..p + g.subheaderWidth])
  }

  /** The segment length of the pair at p, as read. */
  function SegmentLength(buf: seq<Byte>, p: nat, g: Group): string
    requires p + PairWidth(g) <= |buf|
  {
    Text(buf[p + g.subheaderWidth..p + PairWidth(g)])
  }

  /** The field map after inserting pairs 1..n read at `at`, each pair being
      `subheaderWidth` then `segmentWidth` bytes as read. */
  function PairFields(m: FieldMap, buf: seq<Byte>, at: nat, g: Group, n: nat): FieldMap
    requires at + n * PairWidth(g) <= |buf|
  {
    if n == 0 then m
    else
      var p := at + (n - 1) * PairWidth(g);
      PairOffsetBound(at, PairWidth(g), n, n);
      PairFields(m, buf, at, g, n - 1)
        [SubheaderKey(g, n) := SubheaderLength(buf, p, g)]
        [SegmentKey(g, n) := SegmentLength(buf, p, g)]
  }

  /** Pair n read at p, the end of the n - 1 pairs before it, adds its two keys
      to theirs and ends where n pairs end. */
  lemma PairFieldsStep(m: FieldMap, buf: seq<Byte>, at: nat, g: Group, n: nat, count: nat, p: nat)
    requires 1 <= n <= count && at + count * PairWidth(g) <= |buf| && p == at + (n - 1) * PairWidth(g)
    ensures p + PairWidth(g) == at + n * PairWidth(g) <= |buf|
    ensures PairFields(m, buf, at, g, n) ==
      PairFields(m, buf, at, g, n - 1)[SubheaderKey(g, n) := SubheaderLength(buf, p, g)]
                                      [SegmentKey(g, n) := SegmentLength(buf, p, g)]
  {
    PairOffsetBound(at, PairWidth(g), count, n);
    assert (n - 1) * PairWidth(g) + PairWidth(g) == n * PairWidth(g);
  }

  /** The two keys of pair k differ from both keys of every other pair. */
  lemma PairKeysDistinct(g: Group, k: nat, n: nat)
    requires WellKeyed(g) && k != n
    ensures SubheaderKey(g, k) != SubheaderKey(g, n) && SubheaderKey(g, k) != SegmentKey(g, n)
    ensures SegmentKey(g, k) != SegmentKey(g, n) && SegmentKey(g, k) != SubheaderKey(g, n)
  {
    FormatIndexRoundTrip(k);
    FormatIndexRoundTrip(n);
    assert SubheaderKey(g, k)[|g.subheaderKey|..] == FormatIndex(k);
    assert SubheaderKey(g, n)[|g.subheaderKey|..] == FormatIndex(n);
    assert SegmentKey(g, k)[|g.segmentKey|..] == FormatIndex(k);
    assert SegmentKey(g, n)[|g.segmentKey|..] == FormatIndex(n);
    SubheaderNotSegment(g, k, n);
    SubheaderNotSegment(g, n, k);
  }

  /** A subheader-length key never equals a segment-length key: where the shorter
      prefix ends, one has a letter of its prefix and the other a digit. */
  lemma SubheaderNotSegment(g: Group, k: nat, n: nat)
    requires WellKeyed(g)
    ensures SubheaderKey(g, k) != SegmentKey(g, n)
  {
    FormatIndexRoundTrip(n);
    var j := |g.segmentKey|;
    assert SubheaderKey(g, k)[j] == g.subheaderKey[j];
    assert SegmentKey(g, n)[j] == FormatIndex(n)[0];
    assert !IsDigit(g.subheaderKey[j]);
  }

  /** Pair k of the group sits at at + (k - 1) * PairWidth: the subheader length
      in its first `subheaderWidth` bytes, the segment length in the rest. */
  lemma {:induction false} PairAt(m: FieldMap, buf: seq<Byte>, at: nat, g: Group, n: nat, k: nat)
    requires WellKeyed(g) && at + n * PairWidth(g) <= |buf| && 1 <= k <= n
    ensures PairStart(at, g, k) + PairWidth(g) <= |buf|
    ensures var p := PairStart(at, g, k);
      && SubheaderKey(g, k) in PairFields(m, buf, at, g, n)
      && PairFields(m, buf, at, g, n)[SubheaderKey(g, k)] == SubheaderLength(buf, p, g)
      && SegmentKey(g, k) in PairFields(m, buf, at, g, n)
      && PairFields(m, buf, at, g, n)[SegmentKey(g, k)] == SegmentLength(buf, p, g)
  {
    PairOffsetBound(at, PairWidth(g), n, k);
    if k < n {
      PairOffsetBound(at, PairWidth(g), n, n);
      PairAt(m, buf, at, g, n - 1, k);
      PairKeysDistinct(g, k, n);
    }
  }

  /** Every key that is not one of the group's pair keys keeps its presence and
      value. */
  lemma {:induction false} PairFieldsKeepOtherKeys(m: FieldMap, buf: seq<Byte>, at: nat, g: Group, n: nat, key: string)
    requires at + n * PairWidth(g) <= |buf| && !IsPairKey(g, key)
    ensures key in PairFields(m, buf, at, g, n) <==> key in m
    ensures key in m ==> PairFields(m, buf, at, g, n)[key] == m[key]
  {
    if n > 0 {
      PairOffsetBound(at, PairWidth(g), n, n);
      PairFieldsKeepOtherKeys(m, buf, at, g, n - 1, key);
      FormatIndexRoundTrip(n);
      assert SubheaderKey(g, n)[..|g.subheaderKey|] == g.subheaderKey;
      assert SubheaderKey(g, n)[|g.subheaderKey|..] == FormatIndex(n);
      assert SegmentKey(g, n)[..|g.segmentKey|] == g.segmentKey;
      assert SegmentKey(g, n)[|g.segmentKey|..] == FormatIndex(n);
    }
  }

  /** The keys the pairs add are exactly the 2n pair keys. */
  lemma {:induction false} PairFieldsKeys(m: FieldMap, buf: seq<Byte>, at: nat, g: Group, n: nat)
    requires at + n * PairWidth(g) <= |buf|
    ensures PairFields(m, buf, at, g, n).Keys ==
      m.Keys + PairKeys(g, n)
  {
    if n > 0 {
      PairOffsetBound(at, PairWidth(g), n, n);
      PairFieldsKeys(m, buf, at, g, n - 1);
      assert PairKeys(g, n) == PairKeys(g, n - 1) + {SubheaderKey(g, n), SegmentKey(g, n)};
    }
  }

  /** The keys of pairs 1..n. */
  function PairKeys(g: Group, n: nat): set<string>
  {
    (set k | 1 <= k <= n :: SubheaderKey(g, k)) + (set k | 1 <= k <= n :: SegmentKey(g, k))
  }
}
