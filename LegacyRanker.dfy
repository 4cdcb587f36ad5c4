/**
 * get_three_most_prevalent: the older ranker. Its slots are (count, hex)
 * tuples, `first` is replaced but never moved down, and `second`/`third`
 * are only written by a count strictly below every higher slot.
 */
module LegacyRanker {
  import opened ColorKey
  import opened Frequency
  import opened TopColors

  /** A slot: the (count, hex) tuple of the source. */
  datatype Tally = Tally(count: nat, hex: string)

  /** The sentinel (0, "") every slot starts with. */
  const NoTally := Tally(0, "")

  datatype Podium = Podium(first: Tally, second: Tally, third: Tally)

  const EmptyPodium := Podium(NoTally, NoTally, NoTally)

  /**
   * One update after `hex` has reached count `n`: the if/elif chain of the
   * loop body. A slot's count never goes down, `first` ends at least at `n`,
   * and a lower slot is written only by a count strictly below every slot
   * above it.
   */
  function Advance(p: Podium, hex: string, n: nat): (r: Podium)
    ensures r.first.count >= p.first.count && r.first.count >= n
    ensures r.second.count >= p.second.count && r.third.count >= p.third.count
    ensures r.first != p.first ==> r == p.(first := Tally(n, hex))
    ensures r.second != p.second ==> p.second.count < n < p.first.count && r == p.(second := Tally(n, hex))
    ensures r.third != p.third ==>
      p.third.count < n < p.second.count && n < p.first.count && r == p.(third := Tally(n, hex))
  {
    if n > p.first.count then p.(first := Tally(n, hex))
    else if n > p.second.count && n < p.first.count then p.(second := Tally(n, hex))
    else if n > p.third.count && n < p.second.count && n < p.first.count then p.(third := Tally(n, hex))
    else p
  }

  /** The podium after the whole image: Advance once per pixel, with that colour's running count. */
  function LegacyRank(img: seq<Pixel>): Podium {
    if |img| == 0 then EmptyPodium
    else
      var c := KeyOf(img[|img| - 1]);
      Advance(LegacyRank(img[..|img| - 1]), c, Occurrences(img, c))
  }

  /** LegacyRank one pixel further: Advance with that colour's count one higher than before. */
  lemma LegacyRankAppend(img: seq<Pixel>, x: Pixel)
    ensures LegacyRank(img + [x]) == Advance(LegacyRank(img), KeyOf(x), Occurrences(img, KeyOf(x)) + 1)
  {
    var y := img + [x];
    assert y[..|y| - 1] == img;
    OccurrencesAppend(img, x, KeyOf(x));
  }

  /**
   * The loop of get_three_most_prevalent: `pixPrev` is the pix_prev
   * dictionary and the three tuples are reassigned in place.
   */
  method GetThreeMostPrevalent(img: seq<Pixel>) returns (first: Tally, second: Tally, third: Tally)
    ensures Podium(first, second, third) == LegacyRank(img)
  {
    var pixPrev: map<string, nat> := map[];
    first, second, third := NoTally, NoTally, NoTally;
    assert img[..0] == [];
    for i := 0 to |img|
      invariant LegacyScanned(img, i, pixPrev, Podium(first, second, third))
    {
      ghost var prevBefore, before := pixPrev, Podium(first, second, third);
      var hexval := KeyOf(img[i]);
      if hexval in pixPrev {
        pixPrev := pixPrev[hexval := pixPrev[hexval] + 1];
      } else {
        pixPrev := pixPrev[hexval := 1];
      }
      first, second, third := AdvanceSlots(first, second, third, hexval, pixPrev[hexval]);
      LegacyStep(img, i, prevBefore, pixPrev, before, Podium(first, second, third));
    }
    assert img[..|img|] == img;
  }

  /** The if/elif chain of the loop body, on the three tuples. */
  method AdvanceSlots(first: Tally, second: Tally, third: Tally, hexval: string, n: nat)
    returns (first': Tally, second': Tally, third': Tally)
    ensures Podium(first', second', third') == Advance(Podium(first, second, third), hexval, n)
  {
    first', second', third' := first, second, third;
    if n > first.count {
      first' := Tally(n, hexval);
    } else if n > second.count && n < first.count {
      second' := Tally(n, hexval);
    } else if n > third.count && n < second.count && n < first.count {
      third' := Tally(n, hexval);
    }
  }

  /** The loop invariant: pix_prev counts the first `i` pixels and the tuples are their LegacyRank. */
  ghost predicate LegacyScanned(img: seq<Pixel>, i: int, counts: map<string, nat>, p: Podium) {
    0 <= i <= |img| && IsCountMap(img[..i], counts) && p == LegacyRank(img[..i])
  }

  lemma LegacyStep(img: seq<Pixel>, i: int, counts: map<string, nat>, counts': map<string, nat>, p: Podium, p': Podium)
    requires i < |img| && LegacyScanned(img, i, counts, p)
    requires counts' == counts[KeyOf(img[i]) := if KeyOf(img[i]) in counts then counts[KeyOf(img[i])] + 1 else 1]
    requires p' == Advance(p, KeyOf(img[i]), counts'[KeyOf(img[i])])
    ensures LegacyScanned(img, i + 1, counts', p')
  {
    assert img[..i + 1] == img[..i] + [img[i]];
    CountMapStep(img[..i], counts, img[i]);
    LegacyRankAppend(img[..i], img[i]);
  }

  /**
   * What the old ranker does keep after any prefix: `first` holds the
   * current maximum and, among the colours at that maximum, the one that
   * reached it first (it outranks every other colour); `second` is strictly
   * below `first` and `third` strictly below `second`; a written lower slot
   * never claims more than its colour's current count (it may be stale);
   * a slot with count 0 is the sentinel.
   */
  ghost predicate LegacyInvariant(img: seq<Pixel>, p: Podium) {
    && (|img| == 0 ==> p == EmptyPodium)
    && (|img| > 0 ==> FirstLeads(img, p))
    && LowerSlots(img, p)
  }

  /** `first` is an occurring colour that outranks every other one, and `second` is below it. */
  ghost predicate FirstLeads(img: seq<Pixel>, p: Podium) {
    && 0 < p.first.count == Occurrences(img, p.first.hex)
    && (forall k :: k != p.first.hex && Occurrences(img, k) > 0 ==> Outranks(img, p.first.hex, k))
    && p.second.count < p.first.count
  }

  /** `third` is below `second`, written slots do not overstate, unwritten ones are the sentinel. */
  ghost predicate LowerSlots(img: seq<Pixel>, p: Podium) {
    && (p.second.count == 0 ==> p.second == NoTally)
    && (p.third.count == 0 ==> p.third == NoTally)
    && (p.second.count > 0 ==> p.second.count <= Occurrences(img, p.second.hex))
    && (p.third.count > 0 ==> p.third.count < p.second.count && p.third.count <= Occurrences(img, p.third.hex))
  }

  /** The invariant holds of every prefix. */
  lemma {:induction false} LegacyRankInvariant(img: seq<Pixel>)
    ensures LegacyInvariant(img, LegacyRank(img))
  {
    if |img| > 0 {
      var pre, x := img[..|img| - 1], img[|img| - 1];
      assert img == pre + [x];
      LegacyRankInvariant(pre);
      LegacyRankAppend(pre, x);
      var p, n := LegacyRank(pre), Occurrences(pre, KeyOf(x)) + 1;
      AdvanceKeepsFirst(pre, x, p, n);
      AdvanceKeepsLower(pre, x, p, n);
    }
  }

  lemma AdvanceKeepsFirst(pre: seq<Pixel>, x: Pixel, p: Podium, n: nat)
    requires LegacyInvariant(pre, p) && n == Occurrences(pre, KeyOf(x)) + 1
    ensures FirstLeads(pre + [x], Advance(p, KeyOf(x), n))
  {
    var img, c := pre + [x], KeyOf(x);
    AppendPixel(pre, x);
    if n > p.first.count {
      forall k | k != c && Occurrences(img, k) > 0
        ensures Outranks(img, c, k)
      {
      }
    } else {
      assert c != p.first.hex;
      forall k | k != p.first.hex && Occurrences(img, k) > 0
        ensures Outranks(img, p.first.hex, k)
      {
        if k != c {
          assert Outranks(pre, p.first.hex, k);
        }
      }
    }
  }

  lemma AdvanceKeepsLower(pre: seq<Pixel>, x: Pixel, p: Podium, n: nat)
    requires LegacyInvariant(pre, p) && n == Occurrences(pre, KeyOf(x)) + 1
    ensures LowerSlots(pre + [x], Advance(p, KeyOf(x), n))
  {
    AppendPixel(pre, x);
  }

  /** With no pixels every slot is the sentinel (0, ""). */
  lemma EmptyImage()
    ensures LegacyRank([]) == Podium(Tally(0, ""), Tally(0, ""), Tally(0, ""))
  {
  }

  /**
   * The first slot is the only guarantee the two rankers share: it equals
   * the first slot of the correct top three.
   */
  lemma FirstSlotAgrees(img: seq<Pixel>, b: Leaderboard)
    requires Ranked(img, b)
    ensures LegacyRank(img).first == Tally(b.first.count, b.first.color)
  {
    LegacyRankInvariant(img);
    FilledSlots(img, b);
    var f := LegacyRank(img).first;
    if |img| > 0 {
      RankedSlots(img, b);
      assert b.first.count == Occurrences(img, b.first.color) > 0;
      if f.hex != b.first.color {
        RankedFirstLeads(img, b, f.hex);
        OutranksStrict(img, f.hex, b.first.color, f.hex);
      }
    }
  }

  /**
   * The stale runner-up: on X, X, A, A, A the old ranker puts A in both
   * `first` and `second` and never records X, while the correct top three
   * is A (3), X (2) and an empty third slot.
   */
  lemma StaleRunnerUp(x: Pixel, a: Pixel, b: Leaderboard)
    requires KeyOf(x) != KeyOf(a)
    requires Ranked([x, x, a, a, a], b)
    ensures LegacyRank([x, x, a, a, a]) == Podium(Tally(3, KeyOf(a)), Tally(1, KeyOf(a)), NoTally)
    ensures b == Leaderboard(Entry(KeyOf(a), 3), Entry(KeyOf(x), 2), Vacant)
    ensures LegacyRank([x, x, a, a, a]).second != Tally(b.second.count, b.second.color)
  {
    StaleLegacyRank(x, a);
    StaleCounts(x, a);
    StaleRunnerUpCorrect(x, a, b, [x, x, a, a, a]);
  }

  lemma StaleLegacyRank(x: Pixel, a: Pixel)
    requires KeyOf(x) != KeyOf(a)
    ensures LegacyRank([x, x, a, a, a]) == Podium(Tally(3, KeyOf(a)), Tally(1, KeyOf(a)), NoTally)
  {
    var A := KeyOf(a);
    var p2 := [x, x];
    var p3 := p2 + [a];
    var p4 := p3 + [a];
    StaleLeaderTwo(x, a);
    OccurrencesAppend(p2, a, A);
    OccurrencesAppend(p3, a, A);
    LegacyRankAppend(p2, a);
    LegacyRankAppend(p3, a);
    assert LegacyRank(p4) == Podium(Tally(2, KeyOf(x)), Tally(1, A), NoTally);
    LegacyRankAppend(p4, a);
    assert p4 + [a] == [x, x, a, a, a];
  }

  /** After X, X: X leads with 2. */
  lemma StaleLeaderTwo(x: Pixel, a: Pixel)
    requires KeyOf(x) != KeyOf(a)
    ensures LegacyRank([x, x]) == Podium(Tally(2, KeyOf(x)), NoTally, NoTally)
    ensures Occurrences([x, x], KeyOf(a)) == 0
  {
    RepeatLeads(x);
    UnseenInPair(x, KeyOf(a));
  }

  lemma RepeatLeads(x: Pixel)
    ensures LegacyRank([x, x]) == Podium(Tally(2, KeyOf(x)), NoTally, NoTally)
  {
    var X := KeyOf(x);
    var p1 := [x];
    var p2 := [x, x];
    assert p2[..1] == p1 && p1[..0] == [];
    assert Occurrences(p1, X) == 1;
    assert LegacyRank(p1) == Podium(Tally(1, X), NoTally, NoTally);
    assert Occurrences(p2, X) == 2;
  }

  lemma UnseenInPair(x: Pixel, k: string)
    requires KeyOf(x) != k
    ensures Occurrences([x, x], k) == 0
  {
    assert [x, x][..1] == [x];
    assert [x][..0] == [];
  }

  lemma StaleCounts(x: Pixel, a: Pixel)
    ensures forall k :: Occurrences([x, x, a, a, a], k) == (if k == KeyOf(x) then 2 else 0) + (if k == KeyOf(a) then 3 else 0)
  {
    var p1 := [x];
    var p2 := p1 + [x];
    var p3 := p2 + [a];
    var p4 := p3 + [a];
    assert [] + [x] == p1;
    assert p4 + [a] == [x, x, a, a, a];
    forall k ensures Occurrences(p4 + [a], k) == (if k == KeyOf(x) then 2 else 0) + (if k == KeyOf(a) then 3 else 0) {
      OccurrencesAppend([], x, k);
      OccurrencesAppend(p1, x, k);
      OccurrencesAppend(p2, a, k);
      OccurrencesAppend(p3, a, k);
      OccurrencesAppend(p4, a, k);
    }
  }

  lemma StaleRunnerUpCorrect(x: Pixel, a: Pixel, b: Leaderboard, img: seq<Pixel>)
    requires KeyOf(x) != KeyOf(a) && img == [x, x, a, a, a]
    requires forall k :: Occurrences(img, k) == (if k == KeyOf(x) then 2 else 0) + (if k == KeyOf(a) then 3 else 0)
    requires Ranked(img, b)
    ensures b == Leaderboard(Entry(KeyOf(a), 3), Entry(KeyOf(x), 2), Vacant)
  {
    var expected := Leaderboard(Entry(KeyOf(a), 3), Entry(KeyOf(x), 2), Vacant);
    assert Ranked(img, expected);
    RankedUnique(img, b, expected);
  }
}
