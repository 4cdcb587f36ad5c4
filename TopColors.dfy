/**
 * rank_top_colors: one pass over the pixels, a count per colour key and a
 * three-slot leaderboard of (colour, count) entries.
 */
module TopColors {
  import opened ColorKey
  import opened Frequency

  /** A leaderboard slot: the (colour, count) tuple of the source. */
  datatype Entry = Entry(color: string, count: nat)

  /** The sentinel ("", 0) that fills a slot no colour has reached. */
  const Vacant := Entry("", 0)

  datatype Leaderboard = Leaderboard(first: Entry, second: Entry, third: Entry)

  const EmptyBoard := Leaderboard(Vacant, Vacant, Vacant)

  /**
   * One leaderboard update after `color` has reached count `n`: the if/elif
   * chain of the loop body. All comparisons are strict, and the guards on
   * `color` keep a colour from demoting itself.
   */
  function Promote(b: Leaderboard, color: string, n: nat): (r: Leaderboard)
    // an equal count never displaces the colour that holds a slot
    ensures n <= b.first.count ==> r.first == b.first
    ensures n <= b.first.count && n <= b.second.count ==> r.second == b.second
    ensures n <= b.first.count && n <= b.second.count && n <= b.third.count ==> r == b
    // a colour that beats a slot always ends up on the board
    ensures n > b.third.count ==> color in {r.first.color, r.second.color, r.third.color}
  {
    if n > b.first.count then
      if color != b.first.color then
        Leaderboard(Entry(color, n), b.first, if color != b.second.color then b.second else b.third)
      else
        Leaderboard(Entry(color, n), b.second, b.third)
    else if n > b.second.count then
      Leaderboard(b.first, Entry(color, n), if color != b.second.color then b.second else b.third)
    else if n > b.third.count then
      Leaderboard(b.first, b.second, Entry(color, n))
    else
      b
  }

  /** A slot is the sentinel, or a colour of the pixels with its exact count. */
  predicate Holds(pixels: seq<Pixel>, e: Entry) {
    e == Vacant || (e.count > 0 && e.count == Occurrences(pixels, e.color))
  }

  /** A colour that sits in one of the three slots. */
  predicate OnBoard(b: Leaderboard, k: string) {
    k == b.first.color || k == b.second.color || k == b.third.color
  }

  /**
   * The brute-force top three: the slots hold the three highest colours in
   * the Outranks order (count descending, earlier-reached first), in order,
   * and a slot is the sentinel only once every colour already has a slot.
   */
  ghost predicate Ranked(pixels: seq<Pixel>, b: Leaderboard) {
    && Holds(pixels, b.first) && Holds(pixels, b.second) && Holds(pixels, b.third)
    && (b.second != Vacant ==> b.first != Vacant && Outranks(pixels, b.first.color, b.second.color))
    && (b.third != Vacant ==> b.second != Vacant && Outranks(pixels, b.second.color, b.third.color))
    && (forall k :: Occurrences(pixels, k) > 0 && !OnBoard(b, k) ==>
          b.third != Vacant && Outranks(pixels, b.third.color, k))
  }

  /** Before any pixel, the all-sentinel board is the correct top three. */
  lemma EmptyBoardRanked()
    ensures Ranked([], EmptyBoard)
  {
  }

  /**
   * rank_top_colors: one pass over the image that keeps a count per colour
   * key and reassigns the three slots as the if/elif chain of the source
   * does. The result is the brute-force top three of the whole image.
   */
  method RankTopColors(image: seq<Pixel>) returns (first: Entry, second: Entry, third: Entry)
    ensures Ranked(image, Leaderboard(first, second, third))
  {
    var colorCounts: map<string, nat> := map[];
    first, second, third := Vacant, Vacant, Vacant;
    EmptyBoardRanked();
    assert image[..0] == [];
    for i := 0 to |image|
      invariant Scanned(image, i, colorCounts, Leaderboard(first, second, third))
    {
      ghost var countsBefore, before := colorCounts, Leaderboard(first, second, third);
      var color := KeyOf(image[i]);
      if color in colorCounts {
        colorCounts := colorCounts[color := colorCounts[color] + 1];
      } else {
        colorCounts := colorCounts[color := 1];
      }
      var colorCount := colorCounts[color];
      first, second, third := UpdateSlots(first, second, third, color, colorCount);
      RankStep(image, i, countsBefore, colorCounts, before, Leaderboard(first, second, third));
    }
    assert image[..|image|] == image;
    assert Ranked(image[..|image|], Leaderboard(first, second, third));
  }

  /**
   * The slot reassignments of the loop body, made once `color` has reached
   * `colorCount`: the imperative form of Promote.
   */
  method UpdateSlots(first: Entry, second: Entry, third: Entry, color: string, colorCount: nat)
    returns (first': Entry, second': Entry, third': Entry)
    ensures Leaderboard(first', second', third') == Promote(Leaderboard(first, second, third), color, colorCount)
  {
    first', second', third' := first, second, third;
    if colorCount > first'.count {
      if color != first'.color {
        if color != second'.color {
          third' := second';
        }
        second' := first';
      }
      first' := Entry(color, colorCount);
    } else if colorCount > second'.count {
      if color != second'.color {
        third' := second';
      }
      second' := Entry(color, colorCount);
    } else if colorCount > third'.count {
      third' := Entry(color, colorCount);
    }
  }

  /** The loop state of rank_top_colors after the first i pixels. */
  ghost predicate Scanned(image: seq<Pixel>, i: nat, counts: map<string, nat>, b: Leaderboard) {
    i <= |image| && IsCountMap(image[..i], counts) && Ranked(image[..i], b)
  }

  /**
   * One iteration of rank_top_colors: counting pixel i and then updating the
   * board as Promote does keeps the loop state.
   */
  lemma RankStep(image: seq<Pixel>, i: nat, counts: map<string, nat>, counts': map<string, nat>,
                 b: Leaderboard, b': Leaderboard)
    requires i < |image| && Scanned(image, i, counts, b)
    requires var k := KeyOf(image[i]);
      && counts' == counts[k := if k in counts then counts[k] + 1 else 1]
      && b' == Promote(b, k, counts'[k])
    ensures Scanned(image, i + 1, counts', b')
  {
    assert image[..i + 1] == image[..i] + [image[i]];
    CountMapStep(image[..i], counts, image[i]);
    PromoteKeepsRanked(image[..i], image[i], b);
  }

  /**
   * What Ranked promises, slot by slot: counts never increase down the board,
   * no colour holds two slots, every slot carries its colour's current count,
   * every colour off the board has at most the third slot's count, and equal
   * counts are ordered by who reached the count first.
   */
  lemma RankedSlots(pixels: seq<Pixel>, b: Leaderboard)
    requires Ranked(pixels, b)
    ensures b.first.count >= b.second.count >= b.third.count
    ensures b.second != Vacant ==> b.first.color != b.second.color
    ensures b.third != Vacant ==> b.first.color != b.third.color && b.second.color != b.third.color
    ensures forall e :: e in [b.first, b.second, b.third] && e != Vacant ==>
      e.count == Occurrences(pixels, e.color) > 0
    ensures forall k :: Occurrences(pixels, k) > 0 && !OnBoard(b, k) ==> Occurrences(pixels, k) <= b.third.count
    ensures b.second != Vacant && b.first.count == b.second.count ==>
      LastIndex(pixels, b.first.color) < LastIndex(pixels, b.second.color)
    ensures b.third != Vacant && b.second.count == b.third.count ==>
      LastIndex(pixels, b.second.color) < LastIndex(pixels, b.third.color)
  {
    OutranksStrict(pixels, b.first.color, b.second.color, b.third.color);
  }

  /** The number of slots that do not hold the sentinel. */
  function Filled(b: Leaderboard): nat {
    (if b.first != Vacant then 1 else 0) + (if b.second != Vacant then 1 else 0) + (if b.third != Vacant then 1 else 0)
  }

  /** The first slot outranks every other colour of the image. */
  lemma RankedFirstLeads(pixels: seq<Pixel>, b: Leaderboard, k: string)
    requires Ranked(pixels, b) && Occurrences(pixels, k) > 0 && k != b.first.color
    ensures b.first != Vacant && Outranks(pixels, b.first.color, k)
  {
    SentinelUncounted(pixels);
    OutranksStrict(pixels, b.first.color, b.second.color, b.third.color);
    if !OnBoard(b, k) {
      OutranksStrict(pixels, b.second.color, b.third.color, k);
      OutranksStrict(pixels, b.first.color, b.second.color, k);
    }
  }

  /**
   * Sentinels fill exactly the slots no colour can take: the board holds
   * min(3, number of distinct colours) colours, sentinels only at the end,
   * and no colours at all for an empty image.
   */
  lemma FilledSlots(pixels: seq<Pixel>, b: Leaderboard)
    requires Ranked(pixels, b)
    ensures Filled(b) == if |Colors(pixels)| < 3 then |Colors(pixels)| else 3
    ensures b.first == Vacant ==> b.second == Vacant
    ensures b.second == Vacant ==> b.third == Vacant
    ensures b.first == Vacant <==> |pixels| == 0
  {
    CensusAgrees(pixels);
    CensusKeys(pixels);
    RankedInCensus(pixels, b);
    FilledIn(Census(pixels), b);
    if |pixels| > 0 {
      OccurrencesAt(pixels, 0);
      ColorsCounted(pixels, KeyOf(pixels[0]));
    }
  }

  /** FilledSlots on a census. */
  lemma FilledIn(m: map<string, Seen>, b: Leaderboard)
    requires "" !in m && RankedIn(m, b)
    ensures Filled(b) == if |m.Keys| < 3 then |m.Keys| else 3
  {
    var cs := {b.first.color, b.second.color, b.third.color};
    if b.third != Vacant {
      AboveStrict(m, b.first.color, b.second.color, b.third.color);
      SubsetCard(cs, m.Keys);
    } else {
      assert forall k :: k in m ==> OnBoard(b, k);
      if b.second != Vacant {
        assert m.Keys <= {b.first.color, b.second.color};
        SubsetCard(m.Keys, {b.first.color, b.second.color});
        SubsetCard({b.first.color, b.second.color}, m.Keys);
      } else if b.first != Vacant {
        assert m.Keys <= {b.first.color};
        SubsetCard(m.Keys, {b.first.color});
        SubsetCard({b.first.color}, m.Keys);
      } else {
        assert m.Keys == {};
      }
    }
  }

  /** The sentinel is never counted as a colour. */
  lemma SentinelUncounted(pixels: seq<Pixel>)
    ensures Occurrences(pixels, "") == 0
  {
    if Occurrences(pixels, "") > 0 {
      CountedKeysAreKeys(pixels, "");
    }
  }

  /**
   * The top three is unique: any two boards that are Ranked for the same
   * pixels are equal. So rank_top_colors agrees with every brute-force
   * top three, and ranking the same pixels twice gives the same board.
   */
  lemma RankedUnique(pixels: seq<Pixel>, b1: Leaderboard, b2: Leaderboard)
    requires Ranked(pixels, b1) && Ranked(pixels, b2)
    ensures b1 == b2
  {
    CensusAgrees(pixels);
    RankedInCensus(pixels, b1);
    RankedInCensus(pixels, b2);
    RankedInUnique(Census(pixels), b1, b2);
  }

  /** Runs of 5 pixels (0,0,0), 3 of (1,1,1), 3 of (2,2,2) and 1 of (3,3,3). */
  function TieImage(): seq<Pixel> {
    Repeat(Pixel(0, 0, 0), 5) + Repeat(Pixel(1, 1, 1), 3) + Repeat(Pixel(2, 2, 2), 3) + Repeat(Pixel(3, 3, 3), 1)
  }

  /**
   * The worked example of the ranking contract: (1,1,1) and (2,2,2) both
   * occur 3 times, and (1,1,1), which reached 3 first, takes the second slot.
   */
  lemma TieExample(b: Leaderboard)
    requires Ranked(TieImage(), b)
    ensures b == Leaderboard(Entry("#000000", 5), Entry("#010101", 3), Entry("#020202", 3))
  {
    TieRanked();
    RankedUnique(TieImage(), b, Leaderboard(Entry("#000000", 5), Entry("#010101", 3), Entry("#020202", 3)));
  }

  lemma TieRanked()
    ensures Ranked(TieImage(), Leaderboard(Entry("#000000", 5), Entry("#010101", 3), Entry("#020202", 3)))
  {
    var p := TieImage();
    var b := Leaderboard(Entry("#000000", 5), Entry("#010101", 3), Entry("#020202", 3));
    TieImageCounts("#000000");
    TieImageCounts("#010101");
    TieImageCounts("#020202");
    assert Holds(p, b.first) && Holds(p, b.second) && Holds(p, b.third);
    assert Outranks(p, b.first.color, b.second.color);
    assert Outranks(p, b.second.color, b.third.color);
    forall k | Occurrences(p, k) > 0 && !OnBoard(b, k)
      ensures Outranks(p, b.third.color, k)
    {
      TieImageCounts(k);
    }
  }

  lemma TieImageCounts(k: string)
    ensures Occurrences(TieImage(), k) ==
           (if k == "#000000" then 5 else 0) + (if k == "#010101" then 3 else 0)
           + (if k == "#020202" then 3 else 0) + (if k == "#030303" then 1 else 0)
    ensures k == "#010101" ==> LastIndex(TieImage(), k) == 7
    ensures k == "#020202" ==> LastIndex(TieImage(), k) == 10
  {
    var a, b, c, d := Pixel(0, 0, 0), Pixel(1, 1, 1), Pixel(2, 2, 2), Pixel(3, 3, 3);
    assert KeyOf(a) == "#000000" && KeyOf(b) == "#010101";
    assert KeyOf(c) == "#020202" && KeyOf(d) == "#030303";
    var ra, rb, rc, rd := Repeat(a, 5), Repeat(b, 3), Repeat(c, 3), Repeat(d, 1);
    RepeatCounts(a, 5, k);
    RepeatCounts(b, 3, k);
    RepeatCounts(c, 3, k);
    RepeatCounts(d, 1, k);
    OccurrencesConcat(ra, rb, k);
    OccurrencesConcat(ra + rb, rc, k);
    OccurrencesConcat(ra + rb + rc, rd, k);
    LastIndexConcat(ra, rb, k);
    LastIndexConcat(ra + rb, rc, k);
    LastIndexConcat(ra + rb + rc, rd, k);
  }

  /**
   * Ties go to the colour that reached the count first, not to the colour
   * seen first: on A, B, B, A both reach 2, B got there first and ranks
   * above A.
   */
  lemma TieGoesToFirstToReach(a: Pixel, b: Pixel, board: Leaderboard)
    requires KeyOf(a) != KeyOf(b)
    requires Ranked([a, b, b, a], board)
    ensures board == Leaderboard(Entry(KeyOf(b), 2), Entry(KeyOf(a), 2), Vacant)
  {
    var expected := Leaderboard(Entry(KeyOf(b), 2), Entry(KeyOf(a), 2), Vacant);
    AbbaCounts(a, b);
    assert Ranked([a, b, b, a], expected);
    RankedUnique([a, b, b, a], board, expected);
  }

  lemma AbbaCounts(a: Pixel, b: Pixel)
    requires KeyOf(a) != KeyOf(b)
    ensures forall k :: Occurrences([a, b, b, a], k) == (if k == KeyOf(a) then 2 else 0) + (if k == KeyOf(b) then 2 else 0)
    ensures LastIndex([a, b, b, a], KeyOf(b)) == 2 && LastIndex([a, b, b, a], KeyOf(a)) == 3
  {
    var p1 := [a];
    var p2 := p1 + [b];
    var p3 := p2 + [b];
    assert [] + [a] == p1;
    assert p3 + [a] == [a, b, b, a];
    assert [a, b, b, a][..3] == p3;
    forall k ensures Occurrences(p3 + [a], k) == (if k == KeyOf(a) then 2 else 0) + (if k == KeyOf(b) then 2 else 0) {
      OccurrencesAppend([], a, k);
      OccurrencesAppend(p1, b, k);
      OccurrencesAppend(p2, b, k);
      OccurrencesAppend(p3, a, k);
    }
  }

  /** `x` ranks above `y` in a census: higher count, or equal count and last seen earlier. */
  predicate Above(m: map<string, Seen>, x: string, y: string)
    requires x in m && y in m
  {
    m[x].count > m[y].count || (m[x].count == m[y].count && m[x].last < m[y].last)
  }

  predicate HoldsIn(m: map<string, Seen>, e: Entry) {
    e == Vacant || (e.color in m && e.count == m[e.color].count)
  }

  /**
   * Ranked, read off a census instead of the pixels. It exists only to make
   * the inductive step cheaper to prove; RankedInCensus ties it to Ranked.
   */
  ghost predicate RankedIn(m: map<string, Seen>, b: Leaderboard) {
    && HoldsIn(m, b.first) && HoldsIn(m, b.second) && HoldsIn(m, b.third)
    && (b.second != Vacant ==> b.first != Vacant && Above(m, b.first.color, b.second.color))
    && (b.third != Vacant ==> b.second != Vacant && Above(m, b.second.color, b.third.color))
    && (forall k :: k in m && !OnBoard(b, k) ==> b.third != Vacant && Above(m, b.third.color, k))
  }

  /** The census form and the brute-force form of Ranked agree. */
  lemma RankedInCensus(pixels: seq<Pixel>, b: Leaderboard)
    ensures Ranked(pixels, b) <==> RankedIn(Census(pixels), b)
  {
    var m := Census(pixels);
    HoldsAgree(pixels, b.first);
    HoldsAgree(pixels, b.second);
    HoldsAgree(pixels, b.third);
    forall x, y | x in m && y in m ensures Outranks(pixels, x, y) == Above(m, x, y) {
      OutranksAgree(pixels, x, y);
    }
    forall k ensures k in m <==> Occurrences(pixels, k) > 0 {
      CensusAgrees(pixels);
    }
  }

  lemma HoldsAgree(pixels: seq<Pixel>, e: Entry)
    ensures Holds(pixels, e) == HoldsIn(Census(pixels), e)
  {
    CensusAgrees(pixels);
  }

  lemma OutranksAgree(pixels: seq<Pixel>, x: string, y: string)
    requires x in Census(pixels) && y in Census(pixels)
    ensures Outranks(pixels, x, y) == Above(Census(pixels), x, y)
  {
    CensusAgrees(pixels);
  }

  /** The census after one more pixel of colour c, seen at position n. */
  function Tick(m: map<string, Seen>, c: string, n: nat): map<string, Seen> {
    m[c := Seen((if c in m then m[c].count else 0) + 1, n)]
  }

  /**
   * The inductive step: if the board is the top three of a prefix, the update
   * made for the next pixel gives the top three of the longer prefix.
   */
  lemma PromoteKeepsRanked(pixels: seq<Pixel>, x: Pixel, b: Leaderboard)
    requires Ranked(pixels, b)
    ensures Ranked(pixels + [x], Promote(b, KeyOf(x), Occurrences(pixels, KeyOf(x)) + 1))
  {
    var c, p' := KeyOf(x), pixels + [x];
    assert p'[..|pixels|] == pixels;
    assert Census(p') == Tick(Census(pixels), c, |pixels|);
    CensusAgrees(pixels);
    RankedInCensus(pixels, b);
    assert c != "";
    PromoteKeepsRankedIn(Census(pixels), |pixels|, b, c);
    RankedInCensus(p', Promote(b, c, Occurrences(pixels, c) + 1));
  }

  /** The inductive step on a census: one more pixel of colour c at position n. */
  lemma PromoteKeepsRankedIn(m: map<string, Seen>, n: nat, b: Leaderboard, c: string)
    requires CensusShape(m, n) && RankedIn(m, b) && c != ""
    ensures RankedIn(Tick(m, c, n), Promote(b, c, Tick(m, c, n)[c].count))
  {
    var cnt := Tick(m, c, n)[c].count;
    if cnt > b.first.count {
      if c != b.first.color {
        if c != b.second.color {
          NewLeaderDemotesTwo(m, n, b, c);
        } else {
          SecondOvertakesFirst(m, n, b, c);
        }
      } else {
        LeaderGrows(m, n, b, c);
      }
    } else if cnt > b.second.count {
      if c != b.second.color {
        NewSecond(m, n, b, c);
      } else {
        SecondGrows(m, n, b, c);
      }
    } else if cnt > b.third.count {
      NewThird(m, n, b, c);
    } else {
      NoChange(m, n, b, c);
    }
  }

  /** A colour not in the first two slots overtakes the leader: both shift down one slot. */
  lemma NewLeaderDemotesTwo(m: map<string, Seen>, n: nat, b: Leaderboard, c: string)
    requires CensusShape(m, n) && RankedIn(m, b) && c != ""
    requires Tick(m, c, n)[c].count > b.first.count && c != b.first.color && c != b.second.color
    ensures RankedIn(Tick(m, c, n), Leaderboard(Entry(c, Tick(m, c, n)[c].count), b.first, b.second))
  {
    var m' := Tick(m, c, n);
    var r := Leaderboard(Entry(c, m'[c].count), b.first, b.second);
    forall k | k in m' && !OnBoard(r, k)
      ensures r.third != Vacant && Above(m', r.third.color, k)
    {
      if k != b.third.color {
        assert Above(m, b.third.color, k);
      }
    }
  }

  /** The second colour overtakes the leader: the two swap, the third stays. */
  lemma SecondOvertakesFirst(m: map<string, Seen>, n: nat, b: Leaderboard, c: string)
    requires CensusShape(m, n) && RankedIn(m, b) && c != ""
    requires Tick(m, c, n)[c].count > b.first.count && c != b.first.color && c == b.second.color
    ensures RankedIn(Tick(m, c, n), Leaderboard(Entry(c, Tick(m, c, n)[c].count), b.first, b.third))
  {
  }

  /** The leader gains one more pixel and keeps its slot. */
  lemma LeaderGrows(m: map<string, Seen>, n: nat, b: Leaderboard, c: string)
    requires CensusShape(m, n) && RankedIn(m, b) && c != ""
    requires Tick(m, c, n)[c].count > b.first.count && c == b.first.color
    ensures RankedIn(Tick(m, c, n), Leaderboard(Entry(c, Tick(m, c, n)[c].count), b.second, b.third))
  {
  }

  /** A colour below the top two overtakes the second: the second moves to third. */
  lemma NewSecond(m: map<string, Seen>, n: nat, b: Leaderboard, c: string)
    requires CensusShape(m, n) && RankedIn(m, b) && c != ""
    requires var cnt := Tick(m, c, n)[c].count;
      cnt <= b.first.count && cnt > b.second.count && c != b.second.color
    ensures RankedIn(Tick(m, c, n), Leaderboard(b.first, Entry(c, Tick(m, c, n)[c].count), b.second))
  {
    var m' := Tick(m, c, n);
    var r := Leaderboard(b.first, Entry(c, m'[c].count), b.second);
    forall k | k in m' && !OnBoard(r, k)
      ensures r.third != Vacant && Above(m', r.third.color, k)
    {
      if k != b.third.color {
        assert Above(m, b.third.color, k);
      }
    }
  }

  /** The second colour gains one more pixel and keeps its slot. */
  lemma SecondGrows(m: map<string, Seen>, n: nat, b: Leaderboard, c: string)
    requires CensusShape(m, n) && RankedIn(m, b) && c != ""
    requires var cnt := Tick(m, c, n)[c].count;
      cnt <= b.first.count && cnt > b.second.count && c == b.second.color
    ensures RankedIn(Tick(m, c, n), Leaderboard(b.first, Entry(c, Tick(m, c, n)[c].count), b.third))
  {
  }

  /** A colour overtakes only the third slot and replaces it. */
  lemma NewThird(m: map<string, Seen>, n: nat, b: Leaderboard, c: string)
    requires CensusShape(m, n) && RankedIn(m, b) && c != ""
    requires var cnt := Tick(m, c, n)[c].count;
      cnt <= b.first.count && cnt <= b.second.count && cnt > b.third.count
    ensures RankedIn(Tick(m, c, n), Leaderboard(b.first, b.second, Entry(c, Tick(m, c, n)[c].count)))
  {
    var m' := Tick(m, c, n);
    var r := Leaderboard(b.first, b.second, Entry(c, m'[c].count));
    forall k | k in m' && !OnBoard(r, k)
      ensures r.third != Vacant && Above(m', r.third.color, k)
    {
      if k != b.third.color {
        assert Above(m, b.third.color, k);
      }
    }
  }

  /** A colour that beats no slot leaves the board as it is. */
  lemma NoChange(m: map<string, Seen>, n: nat, b: Leaderboard, c: string)
    requires CensusShape(m, n) && RankedIn(m, b) && c != ""
    requires var cnt := Tick(m, c, n)[c].count;
      cnt <= b.first.count && cnt <= b.second.count && cnt <= b.third.count
    ensures RankedIn(Tick(m, c, n), b)
  {
  }

  /** Above is a strict order on the colours of a census. */
  lemma AboveStrict(m: map<string, Seen>, x: string, y: string, z: string)
    requires x in m && y in m && z in m
    ensures !Above(m, x, x)
    ensures Above(m, x, y) ==> !Above(m, y, x)
    ensures Above(m, x, y) && Above(m, y, z) ==> Above(m, x, z)
  {
  }

  /** On a census, the first slot is above every other colour. */
  lemma FirstLeadsIn(m: map<string, Seen>, b: Leaderboard, k: string)
    requires "" !in m && RankedIn(m, b) && k in m && k != b.first.color
    ensures b.first != Vacant && Above(m, b.first.color, k)
  {
    if k == b.third.color {
      AboveStrict(m, b.first.color, b.second.color, k);
    } else if !OnBoard(b, k) {
      AboveStrict(m, b.second.color, b.third.color, k);
      AboveStrict(m, b.first.color, b.second.color, k);
    }
  }

  /** On a census, the second slot is above every colour but the first two. */
  lemma SecondLeadsIn(m: map<string, Seen>, b: Leaderboard, k: string)
    requires "" !in m && RankedIn(m, b) && k in m && k != b.first.color && k != b.second.color
    ensures b.second != Vacant && Above(m, b.second.color, k)
  {
    if !OnBoard(b, k) {
      AboveStrict(m, b.second.color, b.third.color, k);
    }
  }

  /** Two boards Ranked on the same census are equal. */
  lemma RankedInUnique(m: map<string, Seen>, b1: Leaderboard, b2: Leaderboard)
    requires "" !in m && RankedIn(m, b1) && RankedIn(m, b2)
    ensures b1 == b2
  {
    if b1.first != b2.first {
      if b1.first != Vacant { FirstLeadsIn(m, b2, b1.first.color); }
      if b2.first != Vacant { FirstLeadsIn(m, b1, b2.first.color); }
      if b1.first != Vacant && b2.first != Vacant {
        AboveStrict(m, b1.first.color, b2.first.color, b2.first.color);
      }
    }
    assert b1.first == b2.first;
    if b1.second != b2.second {
      if b1.second != Vacant { SecondLeadsIn(m, b2, b1.second.color); }
      if b2.second != Vacant { SecondLeadsIn(m, b1, b2.second.color); }
      if b1.second != Vacant && b2.second != Vacant {
        AboveStrict(m, b1.second.color, b2.second.color, b2.second.color);
      }
    }
    assert b1.second == b2.second;
    if b1.third != b2.third && b1.third != Vacant && b2.third != Vacant {
      AboveStrict(m, b1.third.color, b2.third.color, b2.third.color);
    }
  }
}
