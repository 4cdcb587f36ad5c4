/**
 * Brute-force reference definitions shared by both rankers: how often a key
 * occurs in a pixel sequence, where it occurs last, the ranking order (more pixels first; at equal counts, the
 * colour that reached the count first wins) and what a correct count map is.
 */
module Frequency {
  import opened ColorKey

  /** Number of pixels whose key is `key`. */
  function Occurrences(pixels: seq<Pixel>, key: string): (n: nat)
    ensures n <= |pixels|
  {
    if |pixels| == 0 then 0
    else Occurrences(pixels[..|pixels| - 1], key) + (if KeyOf(pixels[|pixels| - 1]) == key then 1 else 0)
  }

  /** Index of the last pixel whose key is `key`, or -1 when there is none. */
  function LastIndex(pixels: seq<Pixel>, key: string): (i: int)
    ensures -1 <= i < |pixels|
    ensures i >= 0 <==> Occurrences(pixels, key) > 0
    ensures i >= 0 ==> KeyOf(pixels[i]) == key
  {
    if |pixels| == 0 then -1
    else if KeyOf(pixels[|pixels| - 1]) == key then |pixels| - 1
    else LastIndex(pixels[..|pixels| - 1], key)
  }

  /**
   * `x` ranks strictly above `y`: it is more frequent, or equally frequent and
   * reached that count first. With equal counts the count is reached at the
   * last occurrence, so "reached first" means "occurs last earlier".
   */
  predicate Outranks(pixels: seq<Pixel>, x: string, y: string) {
    || Occurrences(pixels, x) > Occurrences(pixels, y)
    || (Occurrences(pixels, x) == Occurrences(pixels, y) && LastIndex(pixels, x) < LastIndex(pixels, y))
  }

  /** A count map is correct for a prefix: it holds exactly the keys seen, each with its count. */
  ghost predicate IsCountMap(pixels: seq<Pixel>, counts: map<string, nat>) {
    && (forall k :: k in counts <==> Occurrences(pixels, k) > 0)
    && (forall k :: k in counts ==> counts[k] == Occurrences(pixels, k))
  }

  /** How counts and last positions change when one pixel is appended. */
  lemma AppendPixel(pixels: seq<Pixel>, x: Pixel)
    ensures forall k {:trigger Occurrences(pixels + [x], k)} ::
      Occurrences(pixels + [x], k) == Occurrences(pixels, k) + (if KeyOf(x) == k then 1 else 0)
    ensures forall k {:trigger LastIndex(pixels + [x], k)} ::
      LastIndex(pixels + [x], k) == if KeyOf(x) == k then |pixels| else LastIndex(pixels, k)
  {
    assert (pixels + [x])[..|pixels|] == pixels;
  }

  /** AppendPixel for a single key. */
  lemma OccurrencesAppend(img: seq<Pixel>, x: Pixel, k: string)
    ensures Occurrences(img + [x], k) == Occurrences(img, k) + (if KeyOf(x) == k then 1 else 0)
  {
    assert (img + [x])[..|img|] == img;
  }

  /** Only well-formed keys are ever counted; in particular the empty sentinel never is. */
  lemma {:induction false} CountedKeysAreKeys(pixels: seq<Pixel>, key: string)
    requires Occurrences(pixels, key) > 0
    ensures IsKey(key)
  {
    var i := LastIndex(pixels, key);
    assert KeyOf(pixels[i]) == key;
  }

  /** The distinct colour keys of the pixels. */
  function Colors(pixels: seq<Pixel>): set<string> {
    set i | 0 <= i < |pixels| :: KeyOf(pixels[i])
  }

  /** A key is one of the pixels' colours exactly when it is counted. */
  lemma ColorsCounted(pixels: seq<Pixel>, key: string)
    ensures key in Colors(pixels) <==> Occurrences(pixels, key) > 0
  {
    if Occurrences(pixels, key) > 0 {
      var i := LastIndex(pixels, key);
      assert KeyOf(pixels[i]) == key;
    } else if key in Colors(pixels) {
      var i :| 0 <= i < |pixels| && KeyOf(pixels[i]) == key;
      OccurrencesAt(pixels, i);
    }
  }

  /** The key of every pixel is counted. */
  lemma {:induction false} OccurrencesAt(pixels: seq<Pixel>, i: int)
    requires 0 <= i < |pixels|
    ensures Occurrences(pixels, KeyOf(pixels[i])) > 0
  {
    if i < |pixels| - 1 {
      var p := pixels[..|pixels| - 1];
      assert p[i] == pixels[i];
      OccurrencesAt(p, i);
    }
  }

  /** Outranks is a strict order: irreflexive, asymmetric and transitive. */
  lemma OutranksStrict(pixels: seq<Pixel>, x: string, y: string, z: string)
    ensures !Outranks(pixels, x, x)
    ensures Outranks(pixels, x, y) ==> !Outranks(pixels, y, x)
    ensures Outranks(pixels, x, y) && Outranks(pixels, y, z) ==> Outranks(pixels, x, z)
  {
  }

  /** Any two distinct counted keys are comparable: ties on count are broken by position. */
  lemma OutranksTotal(pixels: seq<Pixel>, x: string, y: string)
    requires Occurrences(pixels, x) > 0 && Occurrences(pixels, y) > 0 && x != y
    ensures Outranks(pixels, x, y) || Outranks(pixels, y, x)
  {
  }

  /** Counting one more pixel: the update lines of the count map keep it correct. */
  lemma CountMapStep(pixels: seq<Pixel>, counts: map<string, nat>, x: Pixel)
    requires IsCountMap(pixels, counts)
    ensures var k := KeyOf(x);
      IsCountMap(pixels + [x], counts[k := if k in counts then counts[k] + 1 else 1])
  {
    AppendPixel(pixels, x);
  }

  /** What is known of one colour after a prefix: its count and where it was last seen. */
  datatype Seen = Seen(count: nat, last: int)

  /**
   * The count map extended with last positions, built one pixel at a time.
   * It is the proof device for the rankers; CensusAgrees ties it to the
   * brute-force definitions above.
   */
  function Census(pixels: seq<Pixel>): map<string, Seen> {
    if |pixels| == 0 then map[]
    else
      var m, k := Census(pixels[..|pixels| - 1]), KeyOf(pixels[|pixels| - 1]);
      m[k := Seen(if k in m then m[k].count + 1 else 1, |pixels| - 1)]
  }

  /** A census of n pixels: only real keys, positive counts, positions below n. */
  ghost predicate CensusShape(m: map<string, Seen>, n: nat) {
    "" !in m && forall k :: k in m ==> m[k].count > 0 && m[k].last < n
  }

  /** The census holds exactly the counted keys, with their brute-force count and last index. */
  lemma {:induction false} CensusAgrees(pixels: seq<Pixel>)
    ensures forall k :: k in Census(pixels) <==> Occurrences(pixels, k) > 0
    ensures forall k :: k in Census(pixels) ==>
      Census(pixels)[k] == Seen(Occurrences(pixels, k), LastIndex(pixels, k))
    ensures CensusShape(Census(pixels), |pixels|)
  {
    if |pixels| > 0 {
      var p, x := pixels[..|pixels| - 1], pixels[|pixels| - 1];
      assert pixels == p + [x];
      CensusAgrees(p);
      AppendPixel(p, x);
      if Occurrences(pixels, "") > 0 {
        CountedKeysAreKeys(pixels, "");
      }
    }
  }

  /** The census is keyed by exactly the pixels' colours. */
  lemma CensusKeys(pixels: seq<Pixel>)
    ensures Census(pixels).Keys == Colors(pixels)
  {
    CensusAgrees(pixels);
    forall k ensures k in Census(pixels) <==> k in Colors(pixels) {
      ColorsCounted(pixels, k);
    }
  }

  /** A subset has no more elements than its superset. */
  lemma SubsetCard<T>(a: set<T>, b: set<T>)
    requires a <= b
    ensures |a| <= |b|
  {
    assert b == a + (b - a);
    assert a * (b - a) == {};
  }

  /** Counts add up over a concatenation. */
  lemma {:induction false} OccurrencesConcat(p: seq<Pixel>, q: seq<Pixel>, key: string)
    ensures Occurrences(p + q, key) == Occurrences(p, key) + Occurrences(q, key)
  {
    if |q| > 0 {
      var q', x := q[..|q| - 1], q[|q| - 1];
      assert q == q' + [x];
      assert p + q == (p + q') + [x];
      OccurrencesConcat(p, q', key);
      AppendPixel(p + q', x);
      AppendPixel(q', x);
    } else {
      assert p + q == p;
    }
  }

  /** The last occurrence in a concatenation lies in the second part if the key occurs there. */
  lemma {:induction false} LastIndexConcat(p: seq<Pixel>, q: seq<Pixel>, key: string)
    ensures LastIndex(p + q, key) ==
      if Occurrences(q, key) > 0 then |p| + LastIndex(q, key) else LastIndex(p, key)
  {
    if |q| > 0 {
      var q', x := q[..|q| - 1], q[|q| - 1];
      assert q == q' + [x];
      assert p + q == (p + q') + [x];
      LastIndexConcat(p, q', key);
      AppendPixel(p + q', x);
      AppendPixel(q', x);
    } else {
      assert p + q == p;
    }
  }

  /** n copies of one pixel. */
  function Repeat(x: Pixel, n: nat): (r: seq<Pixel>)
    ensures |r| == n && forall i :: 0 <= i < n ==> r[i] == x
  {
    seq(n, _ => x)
  }

  /** A run of n copies of x counts n for x's key, and ends at n - 1. */
  lemma {:induction false} RepeatCounts(x: Pixel, n: nat, key: string)
    ensures Occurrences(Repeat(x, n), key) == if KeyOf(x) == key then n else 0
    ensures LastIndex(Repeat(x, n), key) == if KeyOf(x) == key && n > 0 then n - 1 else -1
  {
    if n > 0 {
      assert Repeat(x, n) == Repeat(x, n - 1) + [x];
      RepeatCounts(x, n - 1, key);
      AppendPixel(Repeat(x, n - 1), x);
    }
  }
}
