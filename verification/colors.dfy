/** The colour pass of brand extraction: which screenshot pixels are clustered,
    how cluster centres are ranked by how many pixels they hold, how a centre
    is written as a hex colour, and how the ranked colours become a palette.
    Decoding the screenshot and K-Means itself are opaque: they are passed in
    as functions whose `None` stands for "raised an exception". */
module ColorExtraction {
  import opened Wrappers
  import opened BrandModels

  /** One pixel or cluster centre, channel by channel. */
  datatype Rgb = Rgb(r: int, g: int, b: int)

  predicate InByteRange(n: int) {
    0 <= n <= 255
  }

  predicate IsByteColour(c: Rgb) {
    InByteRange(c.r) && InByteRange(c.g) && InByteRange(c.b)
  }

  /* ------------------------------------------------------------ hex form */

  const HexAlphabet := "0123456789abcdef"

  predicate IsLowerHexDigit(ch: char) {
    ('0' <= ch <= '9') || ('a' <= ch <= 'f')
  }

  /** The lower-case digit for 0..15. */
  function HexDigit(d: int): (ch: char)
    requires 0 <= d < 16
    ensures IsLowerHexDigit(ch)
    ensures DigitValue(ch) == d
  {
    HexAlphabet[d]
  }

  /** The value of a lower-case hex digit. */
  function DigitValue(ch: char): int
    requires IsLowerHexDigit(ch)
  {
    if '0' <= ch <= '9' then ch as int - '0' as int else ch as int - 'a' as int + 10
  }

  /** Python's `format(n, 'x')` for a non-negative `n`: its hex digits without leading zeros. */
  function HexDigits(n: nat): (s: string)
    ensures |s| >= 1
    ensures forall k :: 0 <= k < |s| ==> IsLowerHexDigit(s[k])
    ensures n < 16 <==> |s| == 1
    decreases n
  {
    if n < 16 then [HexDigit(n)] else HexDigits(n / 16) + [HexDigit(n % 16)]
  }

  /** Python's `format(n, '02x')`: at least two characters, zero-padded; a negative number keeps its sign
      and needs no padding. */
  function Hex02(n: int): string {
    if n < 0 then "-" + HexDigits(-n)
    else if n < 16 then "0" + HexDigits(n)
    else HexDigits(n)
  }

  /** A byte is written as exactly two lower-case hex digits, high nibble first. */
  lemma Hex02Byte(n: int)
    requires InByteRange(n)
    ensures var h := Hex02(n);
      && |h| == 2 && IsLowerHexDigit(h[0]) && IsLowerHexDigit(h[1])
      && 16 * DigitValue(h[0]) + DigitValue(h[1]) == n
  {
    if n >= 16 {
      assert HexDigits(n) == HexDigits(n / 16) + [HexDigit(n % 16)];
      assert HexDigits(n / 16) == [HexDigit(n / 16)];
    }
  }

  /** `rgb_to_hex`: `#` followed by the three channels in `02x` form. */
  function RgbToHex(c: Rgb): (s: string)
    ensures IsByteColour(c) ==> |s| == 7 && s[0] == '#'
    ensures IsByteColour(c) ==> forall k :: 1 <= k < 7 ==> IsLowerHexDigit(s[k])
  {
    Hex02Byte3(c);
    "#" + Hex02(c.r) + Hex02(c.g) + Hex02(c.b)
  }

  /** The three channel digits of a byte colour, for `RgbToHex`'s contract. */
  lemma Hex02Byte3(c: Rgb)
    ensures IsByteColour(c) ==> |Hex02(c.r)| == 2 && |Hex02(c.g)| == 2 && |Hex02(c.b)| == 2
    ensures IsByteColour(c) ==> forall k :: 1 <= k < 7 ==>
      IsLowerHexDigit(("#" + Hex02(c.r) + Hex02(c.g) + Hex02(c.b))[k])
  {
    if IsByteColour(c) {
      Hex02Byte(c.r);
      Hex02Byte(c.g);
      Hex02Byte(c.b);
    }
  }

  /** Reads `#rrggbb` in lower-case hex back into a colour. */
  function ParseHexColour(s: string): (r: Option<Rgb>)
    ensures r.Some? ==> IsByteColour(r.value)
  {
    if |s| == 7 && s[0] == '#' && forall k :: 1 <= k < 7 ==> IsLowerHexDigit(s[k]) then
      Some(Rgb(16 * DigitValue(s[1]) + DigitValue(s[2]),
               16 * DigitValue(s[3]) + DigitValue(s[4]),
               16 * DigitValue(s[5]) + DigitValue(s[6])))
    else None
  }

  /** Every byte colour survives `rgb_to_hex` and parsing back, so distinct colours get distinct strings. */
  lemma {:induction false} RgbHexRoundTrip(c: Rgb)
    requires IsByteColour(c)
    ensures ParseHexColour(RgbToHex(c)) == Some(c)
  {
    Hex02Byte(c.r);
    Hex02Byte(c.g);
    Hex02Byte(c.b);
    var s := RgbToHex(c);
    assert s[1..3] == Hex02(c.r);
    assert s[3..5] == Hex02(c.g);
    assert s[5..7] == Hex02(c.b);
  }

  /* --------------------------------------------------------- pixel mask */

  function ChannelSum(p: Rgb): int {
    p.r + p.g + p.b
  }

  /** A pixel is neither near-black (sum at most 30) nor near-white (sum at least 700). */
  predicate InBand(p: Rgb) {
    30 < ChannelSum(p) < 700
  }

  /** The in-band pixels, in order: as a multiset, each in-band pixel keeps all its copies and
      every other pixel is gone. */
  function KeepInBand(pixels: seq<Rgb>): (kept: seq<Rgb>)
    ensures forall x :: multiset(kept)[x] == (if InBand(x) then multiset(pixels)[x] else 0)
    ensures forall k :: 0 <= k < |kept| ==> InBand(kept[k])
    decreases |pixels|
  {
    if |pixels| == 0 then []
    else
      var rest := KeepInBand(pixels[1..]);
      assert pixels == [pixels[0]] + pixels[1..];
      if InBand(pixels[0]) then [pixels[0]] + rest else rest
  }

  /** The fewest in-band pixels worth clustering on their own. */
  const MinBandPixels := 10

  /** The pixels handed to K-Means: the in-band ones, or all of them when fewer than ten are in band. */
  function SelectPixels(pixels: seq<Rgb>): (r: seq<Rgb>)
    ensures |KeepInBand(pixels)| < MinBandPixels ==> r == pixels
    ensures |KeepInBand(pixels)| >= MinBandPixels ==>
      && r == KeepInBand(pixels)
      && |r| >= MinBandPixels
      && (forall k :: 0 <= k < |r| ==> InBand(r[k]))
      && (forall k :: 0 <= k < |pixels| && InBand(pixels[k]) ==> pixels[k] in r)
  {
    var kept := KeepInBand(pixels);
    if |kept| < MinBandPixels then pixels
    else
      assert forall k :: 0 <= k < |pixels| && InBand(pixels[k]) ==> multiset(kept)[pixels[k]] > 0;
      kept
  }

  /* ------------------------------------------------ ranking by frequency */

  /** What K-Means yields: the cluster centres (already truncated to integers) and each pixel's cluster index. */
  datatype Clustering = Clustering(centres: seq<Rgb>, labels: seq<nat>)

  /** How many pixels carry label `l`. */
  function LabelCount(labels: seq<nat>, l: nat): nat {
    multiset(labels)[l]
  }

  /** The labels below `k` that occur, ascending: `numpy.unique` restricted to `[0, k)`. */
  function PresentLabels(labels: seq<nat>, k: nat): seq<nat> {
    if k == 0 then []
    else PresentLabels(labels, k - 1) + (if LabelCount(labels, k - 1) > 0 then [k - 1] else [])
  }

  /** `PresentLabels` lists, ascending, exactly the labels below `k` that occur. */
  lemma {:induction false} PresentLabelsExact(labels: seq<nat>, k: nat)
    ensures var u := PresentLabels(labels, k);
      && |u| <= k
      && (forall i :: 0 <= i < |u| ==> u[i] < k && LabelCount(labels, u[i]) > 0)
      && (forall i, j :: 0 <= i < j < |u| ==> u[i] < u[j])
      && (forall l :: 0 <= l < k && LabelCount(labels, l) > 0 ==> l in u)
  {
    if k > 0 {
      PresentLabelsExact(labels, k - 1);
    }
  }

  /** One more than the largest label (zero for no labels). */
  function LabelBound(labels: seq<nat>): (b: nat)
    ensures forall i :: 0 <= i < |labels| ==> labels[i] < b
  {
    if |labels| == 0 then 0
    else var b := LabelBound(labels[1..]); if labels[0] < b then b else labels[0] + 1
  }

  /** `numpy.unique(labels)`: every label that occurs, ascending. */
  function UniqueLabels(labels: seq<nat>): (u: seq<nat>)
    ensures forall i :: 0 <= i < |u| ==> LabelCount(labels, u[i]) > 0
    ensures forall i, j :: 0 <= i < j < |u| ==> u[i] < u[j]
    ensures forall i :: 0 <= i < |labels| ==> labels[i] in u
  {
    var u := PresentLabels(labels, LabelBound(labels));
    PresentLabelsExact(labels, LabelBound(labels));
    assert forall i :: 0 <= i < |labels| ==> LabelCount(labels, labels[i]) > 0;
    u
  }

  /** The pixel count of each unique label (`return_counts=True`). */
  function CountsOf(labels: seq<nat>, u: seq<nat>): (counts: seq<nat>)
    ensures |counts| == |u|
    ensures forall i :: 0 <= i < |u| ==> counts[i] == LabelCount(labels, u[i])
  {
    seq(|u|, i requires 0 <= i < |u| => LabelCount(labels, u[i]))
  }

  /** Indices ranked so that counts never increase along the ranking. */
  predicate RankedByCount(idx: seq<nat>, counts: seq<nat>) {
    && (forall k :: 0 <= k < |idx| ==> idx[k] < |counts|)
    && (forall i, j :: 0 <= i < j < |idx| ==> counts[idx[i]] >= counts[idx[j]])
  }

  /** Inserts index `i` after every index whose count is at least as large. */
  function InsertByCount(i: nat, idx: seq<nat>, counts: seq<nat>): (r: seq<nat>)
    requires i < |counts| && RankedByCount(idx, counts)
    ensures RankedByCount(r, counts)
    ensures multiset(r) == multiset(idx) + multiset{i}
    decreases |idx|
  {
    if |idx| == 0 then [i]
    else if counts[idx[0]] < counts[i] then [i] + idx
    else
      var rest := InsertByCount(i, idx[1..], counts);
      assert idx == [idx[0]] + idx[1..];
      HeadDominates(i, idx, counts, rest);
      ConsRanked(idx[0], rest, counts);
      [idx[0]] + rest
  }

  /** A head whose count is at least the inserted index's dominates every entry of the insertion into the tail. */
  lemma HeadDominates(i: nat, idx: seq<nat>, counts: seq<nat>, rest: seq<nat>)
    requires i < |counts| && |idx| > 0 && RankedByCount(idx, counts)
    requires counts[idx[0]] >= counts[i]
    requires RankedByCount(rest, counts) && multiset(rest) == multiset(idx[1..]) + multiset{i}
    ensures forall k :: 0 <= k < |rest| ==> counts[idx[0]] >= counts[rest[k]]
  {
    forall k | 0 <= k < |rest| ensures counts[idx[0]] >= counts[rest[k]] {
      assert rest[k] in multiset(rest);
      if rest[k] != i {
        assert rest[k] in idx[1..];
        var j :| 0 <= j < |idx[1..]| && idx[1..][j] == rest[k];
        assert idx[j + 1] == rest[k];
      }
    }
  }

  /** A ranked sequence stays ranked under a head that dominates it. */
  lemma ConsRanked(h: nat, rest: seq<nat>, counts: seq<nat>)
    requires h < |counts| && RankedByCount(rest, counts)
    requires forall k :: 0 <= k < |rest| ==> counts[h] >= counts[rest[k]]
    ensures RankedByCount([h] + rest, counts)
  {
    var r := [h] + rest;
    forall i, j | 0 <= i < j < |r| ensures counts[r[i]] >= counts[r[j]] {
      if i == 0 { assert r[j] == rest[j - 1]; }
      else { assert r[i] == rest[i - 1] && r[j] == rest[j - 1]; }
    }
  }

  /** The indices `0 .. n-1`. */
  function Indices(n: nat): (r: seq<nat>)
    ensures |r| == n && forall k :: 0 <= k < n ==> r[k] == k
  {
    seq(n, k requires 0 <= k < n => k)
  }

  /** `argsort(-counts)` over the first `n` counts: every index once, most pixels first. */
  function RankIndices(counts: seq<nat>, n: nat): (r: seq<nat>)
    requires n <= |counts|
    ensures RankedByCount(r, counts)
    ensures multiset(r) == multiset(Indices(n))
    decreases n
  {
    if n == 0 then []
    else
      assert Indices(n) == Indices(n - 1) + [n - 1];
      InsertByCount(n - 1, RankIndices(counts, n - 1), counts)
  }

  /** The first ranked index holds the largest count. */
  lemma RankedHeadIsMax(idx: seq<nat>, counts: seq<nat>)
    requires RankedByCount(idx, counts) && multiset(idx) == multiset(Indices(|counts|)) && |counts| > 0
    ensures |idx| > 0
    ensures forall j :: 0 <= j < |counts| ==> counts[idx[0]] >= counts[j]
  {
    assert |idx| == |Indices(|counts|)| by {
      assert |multiset(idx)| == |idx|;
      assert |multiset(Indices(|counts|))| == |Indices(|counts|)|;
    }
    forall j | 0 <= j < |counts| ensures counts[idx[0]] >= counts[j] {
      assert Indices(|counts|)[j] == j;
      assert j in multiset(Indices(|counts|));
      assert j in idx;
      var k :| 0 <= k < |idx| && idx[k] == j;
      if k > 0 { assert counts[idx[0]] >= counts[idx[k]]; }
    }
  }

  /** The ranking of the unique labels of a clustering: positions into `UniqueLabels`, most pixels first. */
  function Ranking(labels: seq<nat>): (idx: seq<nat>)
    ensures |idx| == |UniqueLabels(labels)|
    ensures forall k :: 0 <= k < |idx| ==> idx[k] < |idx|
  {
    var u := UniqueLabels(labels);
    var idx := RankIndices(CountsOf(labels, u), |u|);
    assert |idx| == |u| by {
      assert |multiset(idx)| == |multiset(Indices(|u|))|;
    }
    idx
  }

  /** The ranking lists every unique label once, most pixels first. */
  lemma RankingOrdered(labels: seq<nat>)
    ensures var u := UniqueLabels(labels);
      RankedByCount(Ranking(labels), CountsOf(labels, u))
      && multiset(Ranking(labels)) == multiset(Indices(|u|))
  {
  }

  /** The entries of `s` at the positions `idx`, in order (`s[idx]` in numpy). */
  function Pick<T>(s: seq<T>, idx: seq<nat>): (r: seq<T>)
    requires forall k :: 0 <= k < |idx| ==> idx[k] < |s|
    ensures |r| == |idx| && forall k :: 0 <= k < |idx| ==> r[k] == s[idx[k]]
  {
    if |idx| == 0 then [] else [s[idx[0]]] + Pick(s, idx[1..])
  }

  /** Cluster centres ordered by pixel count, as the code intends: the centre of each ranked label.
      A label with no centre makes the lookup raise (`None`). */
  function RankedCentres(cl: Clustering): (r: Option<seq<Rgb>>)
    ensures r.Some? ==> |r.value| == |UniqueLabels(cl.labels)|
  {
    CentresOfRanked(cl.centres, UniqueLabels(cl.labels), Ranking(cl.labels))
  }

  /** The centres of the labels `u` taken in the order `idx`; `None` when some label has no centre. */
  function CentresOfRanked(centres: seq<Rgb>, u: seq<nat>, idx: seq<nat>): (r: Option<seq<Rgb>>)
    requires forall k :: 0 <= k < |idx| ==> idx[k] < |u|
    ensures r.Some? ==> |r.value| == |idx|
    ensures r.Some? <==> forall k :: 0 <= k < |u| ==> u[k] < |centres|
  {
    if forall k :: 0 <= k < |u| ==> u[k] < |centres| then
      PickBounded(u, idx, |centres|);
      Some(Pick(centres, Pick(u, idx)))
    else None
  }

  /** Picking from entries below `bound` gives entries below `bound`. */
  lemma PickBounded(u: seq<nat>, idx: seq<nat>, bound: nat)
    requires forall k :: 0 <= k < |idx| ==> idx[k] < |u|
    requires forall k :: 0 <= k < |u| ==> u[k] < bound
    ensures forall k :: 0 <= k < |Pick(u, idx)| ==> Pick(u, idx)[k] < bound
  {
  }

  /** The centres ranked as written: `centres[argsort(-counts)]` indexes the centres by the
      position of a label among the unique labels rather than by the label itself. */
  function RankedCentresAsWritten(cl: Clustering): (r: Option<seq<Rgb>>)
    ensures r.Some? ==> |r.value| == |UniqueLabels(cl.labels)|
  {
    var u := UniqueLabels(cl.labels);
    var idx := Ranking(cl.labels);
    if |u| <= |cl.centres| then Some(Pick(cl.centres, idx)) else None
  }

  /** A label is among the most frequent. */
  ghost predicate MostFrequent(labels: seq<nat>, l: nat) {
    forall m: nat :: LabelCount(labels, m) <= LabelCount(labels, l)
  }

  /** Every unique label is one of the labels. */
  lemma UniqueLabelOccurs(labels: seq<nat>, k: nat)
    requires k < |UniqueLabels(labels)|
    ensures exists i :: 0 <= i < |labels| && labels[i] == UniqueLabels(labels)[k]
  {
    var l := UniqueLabels(labels)[k];
    assert l in multiset(labels);
  }

  /** Whenever every label has a centre, the first ranked centre belongs to a most frequent label. */
  lemma RankedCentresHeadMostFrequent(cl: Clustering)
    requires |cl.labels| > 0
    requires forall i :: 0 <= i < |cl.labels| ==> cl.labels[i] < |cl.centres|
    ensures var r := RankedCentres(cl);
      && r.Some? && |r.value| > 0
      && exists l: nat :: l < |cl.centres| && r.value[0] == cl.centres[l] && MostFrequent(cl.labels, l)
  {
    var u := UniqueLabels(cl.labels);
    var counts := CountsOf(cl.labels, u);
    var idx := Ranking(cl.labels);
    assert cl.labels[0] in u;
    forall k | 0 <= k < |u| ensures u[k] < |cl.centres| {
      UniqueLabelOccurs(cl.labels, k);
    }
    RankingOrdered(cl.labels);
    RankedHeadIsMax(idx, counts);
    var l := u[idx[0]];
    forall m: nat ensures LabelCount(cl.labels, m) <= LabelCount(cl.labels, l) {
      if LabelCount(cl.labels, m) > 0 {
        assert m in multiset(cl.labels);
        var i :| 0 <= i < |cl.labels| && cl.labels[i] == m;
        var j :| 0 <= j < |u| && u[j] == m;
        assert counts[idx[0]] >= counts[j];
      }
    }
    assert RankedCentres(cl).value[0] == cl.centres[l];
  }

  /** When every cluster holds at least one pixel, the code as written and as intended agree. */
  lemma RankedCentresAgreeWhenNoClusterEmpty(cl: Clustering)
    requires forall i :: 0 <= i < |cl.labels| ==> cl.labels[i] < |cl.centres|
    requires forall l :: 0 <= l < |cl.centres| ==> LabelCount(cl.labels, l) > 0
    ensures RankedCentresAsWritten(cl) == RankedCentres(cl)
  {
    var u := UniqueLabels(cl.labels);
    var idx := Ranking(cl.labels);
    UniqueIsAllLabels(cl);
    assert Pick(u, idx) == idx by {
      forall k | 0 <= k < |idx| ensures Pick(u, idx)[k] == idx[k] {
        assert u[idx[k]] == idx[k];
      }
    }
    assert RankedCentres(cl) == Some(Pick(cl.centres, Pick(u, idx)));
    assert RankedCentresAsWritten(cl) == Some(Pick(cl.centres, idx));
  }

  /** With no empty cluster, the unique labels are exactly `0 .. |centres|-1`. */
  lemma UniqueIsAllLabels(cl: Clustering)
    requires forall i :: 0 <= i < |cl.labels| ==> cl.labels[i] < |cl.centres|
    requires forall l :: 0 <= l < |cl.centres| ==> LabelCount(cl.labels, l) > 0
    ensures var u := UniqueLabels(cl.labels);
      |u| == |cl.centres| && forall k :: 0 <= k < |u| ==> u[k] == k
  {
    var n := |cl.centres|;
    var u := UniqueLabels(cl.labels);
    forall k | 0 <= k < |u| ensures u[k] < n {
      UniqueLabelOccurs(cl.labels, k);
    }
    forall l: nat | l < n ensures l in u {
      assert LabelCount(cl.labels, l) > 0;
      assert l in multiset(cl.labels);
      var i :| 0 <= i < |cl.labels| && cl.labels[i] == l;
    }
    StrictlyIncreasingCover(u, n);
  }

  /** A strictly increasing sequence below `n` that holds every number below `n` is `0 .. n-1`. */
  lemma StrictlyIncreasingCover(u: seq<nat>, n: nat)
    requires forall k :: 0 <= k < |u| ==> u[k] < n
    requires forall i, j :: 0 <= i < j < |u| ==> u[i] < u[j]
    requires forall l :: 0 <= l < n ==> l in u
    ensures |u| == n && forall k :: 0 <= k < |u| ==> u[k] == k
  {
    if |u| > 0 {
      IdentityPrefix(u, n, |u| - 1);
      assert u[|u| - 1] == |u| - 1;
    }
    if n > 0 {
      assert n - 1 in u;
      var j :| 0 <= j < |u| && u[j] == n - 1;
      IdentityPrefix(u, n, j);
      assert u[j] == j;
    }
  }

  /** Under the same conditions, the first `k + 1` entries are `0 .. k`. */
  lemma {:induction false} IdentityPrefix(u: seq<nat>, n: nat, k: nat)
    requires k < |u|
    requires forall i :: 0 <= i < |u| ==> u[i] < n
    requires forall i, j :: 0 <= i < j < |u| ==> u[i] < u[j]
    requires forall l :: 0 <= l < n ==> l in u
    ensures forall i :: 0 <= i <= k ==> u[i] == i
    decreases k
  {
    if k > 0 {
      IdentityPrefix(u, n, k - 1);
      assert u[k] > u[k - 1] == k - 1;
    }
    // k itself is below n (as k <= u[k] < n), so it sits at some position j, and only j == k fits
    assert k <= u[k] < n;
    assert k in u;
    var j :| 0 <= j < |u| && u[j] == k;
    assert u[k] == k;
  }

  /** The discrepancy: when K-Means leaves cluster 0 without a pixel and puts every pixel in cluster 1,
      the intended ranking yields cluster 1's centre, while the code as written yields cluster 0's
      centre, which holds no pixel at all. This holds for any number of centres from two up, the
      five the code asks for included; with different centres the reported primary colour differs. */
  lemma {:induction false} RankedCentresAsWrittenMisattributes(cl: Clustering)
    requires |cl.centres| >= 2 && |cl.labels| > 0
    requires forall i :: 0 <= i < |cl.labels| ==> cl.labels[i] == 1
    ensures LabelCount(cl.labels, 0) == 0 && LabelCount(cl.labels, 1) == |cl.labels|
    ensures RankedCentres(cl) == Some([cl.centres[1]])
    ensures RankedCentresAsWritten(cl) == Some([cl.centres[0]])
  {
    var labels := cl.labels;
    OnlyLabelOne(labels);
    UniqueOfOnes(labels);
    RankingOfOnes(labels);
    assert Pick([1], [0]) == [1];
    assert Pick(cl.centres, [1]) == [cl.centres[1]];
    assert Pick(cl.centres, [0]) == [cl.centres[0]];
    assert RankedCentres(cl) == Some(Pick(cl.centres, Pick([1], [0])));
  }

  /** The only unique label of a non-empty sequence of ones is 1. */
  lemma UniqueOfOnes(labels: seq<nat>)
    requires |labels| > 0
    requires forall i :: 0 <= i < |labels| ==> labels[i] == 1
    ensures UniqueLabels(labels) == [1]
  {
    OnlyLabelOne(labels);
    LabelBoundOnes(labels);
    assert PresentLabels(labels, 1) == [];
    assert PresentLabels(labels, 2) == [1];
  }

  /** A single unique label ranks as position 0. */
  lemma RankingOfOnes(labels: seq<nat>)
    requires UniqueLabels(labels) == [1]
    ensures Ranking(labels) == [0]
  {
    assert RankIndices(CountsOf(labels, [1]), 1) == [0];
  }

  /** A sequence of ones holds nothing but ones. */
  lemma {:induction false} OnlyLabelOne(labels: seq<nat>)
    requires forall i :: 0 <= i < |labels| ==> labels[i] == 1
    ensures multiset(labels)[1] == |labels| && multiset(labels)[0] == 0
  {
    if |labels| > 0 {
      assert labels == [labels[0]] + labels[1..];
      OnlyLabelOne(labels[1..]);
    }
  }

  /** A non-empty sequence of ones has label bound two. */
  lemma {:induction false} LabelBoundOnes(labels: seq<nat>)
    requires |labels| > 0
    requires forall i :: 0 <= i < |labels| ==> labels[i] == 1
    ensures LabelBound(labels) == 2
  {
    if |labels| > 1 {
      LabelBoundOnes(labels[1..]);
    }
  }

  /* -------------------------------------------------------------- palette */

  /** The palette used whenever the colour pass has nothing to go on or fails. */
  const DefaultPalette := VectorCromatico("#1A365D", "#4A5568", "#38B2AC", "#FFFFFF", "#FFFFFF")

  const FallbackSecondary := "#4A5568"
  const FallbackAccent := "#38B2AC"

  /** Turns ranked colours into a palette: the top three become primary, secondary and accent
      (with fallbacks when fewer exist); background and text on primary are always white. */
  function AssemblePalette(ranked: seq<Rgb>): (p: VectorCromatico)
    requires |ranked| >= 1
    ensures p.primary == RgbToHex(ranked[0])
    ensures |ranked| >= 2 ==> p.secondary == RgbToHex(ranked[1])
    ensures |ranked| < 2 ==> p.secondary == FallbackSecondary
    ensures |ranked| < 3 ==> p.accent == FallbackAccent
    ensures |ranked| >= 3 ==> p.accent == RgbToHex(ranked[2])
    ensures p.background == "#FFFFFF" && p.textOnPrimary == "#FFFFFF"
  {
    VectorCromatico(
      RgbToHex(ranked[0]),
      if |ranked| > 1 then RgbToHex(ranked[1]) else FallbackSecondary,
      if |ranked| > 2 then RgbToHex(ranked[2]) else FallbackAccent,
      "#FFFFFF",
      "#FFFFFF")
  }

  /** The clustering of the first screenshot, when there is one, it decodes, and K-Means succeeds. */
  function Clustered(
    screenshots: seq<seq<bv8>>,
    decode: seq<bv8> -> Option<seq<Rgb>>,
    kmeans: seq<Rgb> -> Option<Clustering>): (r: Option<Clustering>)
    ensures r.None? <==>
      |screenshots| == 0 || decode(screenshots[0]).None? || kmeans(SelectPixels(decode(screenshots[0]).value)).None?
    ensures r.Some? ==> r == kmeans(SelectPixels(decode(screenshots[0]).value))
  {
    if |screenshots| == 0 then None
    else match decode(screenshots[0])
      case None => None
      case Some(pixels) => kmeans(SelectPixels(pixels))
  }

  /** The palette of a ranking: the default palette when the ranking raised or is empty. */
  function PaletteOf(ranked: Option<seq<Rgb>>): (p: VectorCromatico)
    ensures ranked.None? || |ranked.value| == 0 ==> p == DefaultPalette
    ensures ranked.Some? && |ranked.value| > 0 ==> p == AssemblePalette(ranked.value)
  {
    if ranked.None? || |ranked.value| == 0 then DefaultPalette else AssemblePalette(ranked.value)
  }

  /** The whole colour pass, ranking each cluster by its own centre as the code intends (see
      `RankedCentres`). No screenshot, an undecodable one, a clustering failure, a ranking lookup
      that raises or an empty ranking all give the default palette; otherwise the top three ranked
      centres make the palette. */
  function ExtractColors(
    screenshots: seq<seq<bv8>>,
    decode: seq<bv8> -> Option<seq<Rgb>>,
    kmeans: seq<Rgb> -> Option<Clustering>): (p: VectorCromatico)
    ensures |screenshots| == 0 ==> p == DefaultPalette
    ensures |screenshots| > 0 && decode(screenshots[0]).None? ==> p == DefaultPalette
    ensures (|screenshots| > 0 && decode(screenshots[0]).Some?
      && kmeans(SelectPixels(decode(screenshots[0]).value)).None?) ==> p == DefaultPalette
    ensures Clustered(screenshots, decode, kmeans).Some? ==>
      var ranked := RankedCentres(Clustered(screenshots, decode, kmeans).value);
      && (ranked.None? || |ranked.value| == 0 ==> p == DefaultPalette)
      && (ranked.Some? && |ranked.value| > 0 ==> p == AssemblePalette(ranked.value))
    ensures p.background == "#FFFFFF" && p.textOnPrimary == "#FFFFFF"
  {
    match Clustered(screenshots, decode, kmeans)
    case None => DefaultPalette
    case Some(cl) => PaletteOf(RankedCentres(cl))
  }

  /** The colour pass as written: the same steps, ranking with `centres[argsort(-counts)]`
      (`RankedCentresAsWritten`). */
  function ExtractColorsAsWritten(
    screenshots: seq<seq<bv8>>,
    decode: seq<bv8> -> Option<seq<Rgb>>,
    kmeans: seq<Rgb> -> Option<Clustering>): (p: VectorCromatico)
    ensures |screenshots| == 0 ==> p == DefaultPalette
    ensures |screenshots| > 0 && decode(screenshots[0]).None? ==> p == DefaultPalette
    ensures (|screenshots| > 0 && decode(screenshots[0]).Some?
      && kmeans(SelectPixels(decode(screenshots[0]).value)).None?) ==> p == DefaultPalette
    ensures Clustered(screenshots, decode, kmeans).Some? ==>
      var ranked := RankedCentresAsWritten(Clustered(screenshots, decode, kmeans).value);
      && (ranked.None? || |ranked.value| == 0 ==> p == DefaultPalette)
      && (ranked.Some? && |ranked.value| > 0 ==> p == AssemblePalette(ranked.value))
    ensures p.background == "#FFFFFF" && p.textOnPrimary == "#FFFFFF"
  {
    match Clustered(screenshots, decode, kmeans)
    case None => DefaultPalette
    case Some(cl) => PaletteOf(RankedCentresAsWritten(cl))
  }

  /** The two colour passes give the same palette unless K-Means leaves a cluster without a pixel. */
  lemma ExtractColorsAgree(
    screenshots: seq<seq<bv8>>,
    decode: seq<bv8> -> Option<seq<Rgb>>,
    kmeans: seq<Rgb> -> Option<Clustering>)
    requires var cl := Clustered(screenshots, decode, kmeans);
      cl.Some? ==>
        && (forall i :: 0 <= i < |cl.value.labels| ==> cl.value.labels[i] < |cl.value.centres|)
        && (forall l :: 0 <= l < |cl.value.centres| ==> LabelCount(cl.value.labels, l) > 0)
    ensures ExtractColors(screenshots, decode, kmeans) == ExtractColorsAsWritten(screenshots, decode, kmeans)
  {
    var cl := Clustered(screenshots, decode, kmeans);
    if cl.Some? {
      RankedCentresAgreeWhenNoClusterEmpty(cl.value);
    }
  }

  /** Each outcome of the intended colour pass: once decoding and clustering succeed with every pixel
      labelled by a centre, the primary colour is the centre of a most frequent cluster. */
  lemma ExtractColorsOutcome(
    screenshots: seq<seq<bv8>>,
    decode: seq<bv8> -> Option<seq<Rgb>>,
    kmeans: seq<Rgb> -> Option<Clustering>)
    requires |screenshots| > 0 && decode(screenshots[0]).Some?
    requires var cl := kmeans(SelectPixels(decode(screenshots[0]).value));
      && cl.Some? && |cl.value.labels| > 0
      && forall i :: 0 <= i < |cl.value.labels| ==> cl.value.labels[i] < |cl.value.centres|
    ensures var cl := kmeans(SelectPixels(decode(screenshots[0]).value)).value;
      exists l: nat :: l < |cl.centres| && MostFrequent(cl.labels, l)
        && ExtractColors(screenshots, decode, kmeans).primary == RgbToHex(cl.centres[l])
  {
    var cl := kmeans(SelectPixels(decode(screenshots[0]).value)).value;
    RankedCentresHeadMostFrequent(cl);
  }
}
