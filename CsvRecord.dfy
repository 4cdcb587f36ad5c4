/**
 * The record fetch_images writes for every image it ranked: the URL and
 * the three slot colours, separated by ", " and ended by a newline. A slot
 * still holding the sentinel writes an empty field.
 */
module CsvRecord {
  import opened Wrappers
  import opened ColorKey
  import opened Frequency
  import opened TopColors

  /** The four fields of one output line. */
  datatype Record = Record(url: string, first: string, second: string, third: string)

  /** The line written for one record. */
  function Format(r: Record): string {
    r.url + ", " + r.first + ", " + r.second + ", " + r.third + "\n"
  }

  /** The line written for a URL and the leaderboard ranked from its image. */
  function CsvLine(url: string, b: Leaderboard): string {
    Format(Record(url, b.first.color, b.second.color, b.third.color))
  }

  /** A field that can be read back: it holds no comma. */
  predicate Plain(field: string) {
    forall i :: 0 <= i < |field| ==> field[i] != ','
  }

  /**
   * Split at the last ", ": everything before it and everything after it.
   * The part after holds no ", ".
   */
  function SplitLast(s: string): (r: Option<(string, string)>)
    ensures r.Some? ==> s == r.value.0 + ", " + r.value.1
  {
    if |s| < 2 then None
    else if s[|s| - 2] == ',' && s[|s| - 1] == ' ' then Some((s[..|s| - 2], ""))
    else match SplitLast(s[..|s| - 1]) {
      case None => None
      case Some((head, tail)) => Some((head, tail + [s[|s| - 1]]))
    }
  }

  /** Read a line back into its record: strip the newline, then split three times from the right. */
  function Parse(line: string): (r: Option<Record>)
    ensures r.Some? ==> Format(r.value) == line
  {
    if |line| == 0 || line[|line| - 1] != '\n' then None
    else match SplitLast(line[..|line| - 1]) {
      case None => None
      case Some((rest2, third)) => match SplitLast(rest2) {
        case None => None
        case Some((rest1, second)) => match SplitLast(rest1) {
          case None => None
          case Some((url, first)) => Some(Record(url, first, second, third))
        }
      }
    }
  }

  /** A comma-free last field is exactly what SplitLast finds after the last ", ". */
  lemma {:induction false} SplitLastPlain(head: string, field: string)
    requires Plain(field)
    ensures SplitLast(head + ", " + field) == Some((head, field))
  {
    var s := head + ", " + field;
    if |field| == 0 {
      assert s[..|s| - 2] == head;
    } else {
      var shorter := field[..|field| - 1];
      assert s[..|s| - 1] == head + ", " + shorter;
      assert shorter + [field[|field| - 1]] == field;
      SplitLastPlain(head, shorter);
    }
  }

  /**
   * Every record whose colour fields hold no comma reads back from its line
   * unchanged; the URL may hold anything, ", " included.
   */
  lemma ParseFormat(r: Record)
    requires Plain(r.first) && Plain(r.second) && Plain(r.third)
    ensures Parse(Format(r)) == Some(r)
  {
    var line := Format(r);
    var rest1 := r.url + ", " + r.first;
    var rest2 := rest1 + ", " + r.second;
    assert line[..|line| - 1] == rest2 + ", " + r.third;
    SplitLastPlain(rest2, r.third);
    SplitLastPlain(rest1, r.second);
    SplitLastPlain(r.url, r.first);
  }

  /** The colour of a ranked slot is a colour key or, for an unfilled slot, empty. */
  lemma RankedFieldsPlain(pixels: seq<Pixel>, b: Leaderboard)
    requires Ranked(pixels, b)
    ensures forall e :: e in [b.first, b.second, b.third] ==> e.color == "" || IsKey(e.color)
    ensures Plain(b.first.color) && Plain(b.second.color) && Plain(b.third.color)
  {
    forall e | e in [b.first, b.second, b.third] && e != Vacant
      ensures IsKey(e.color)
    {
      CountedKeysAreKeys(pixels, e.color);
    }
  }

  /**
   * The line written for a ranked image reads back as its URL and the
   * three slot colours, a sentinel slot as an empty field.
   */
  lemma CsvLineRoundTrip(url: string, pixels: seq<Pixel>, b: Leaderboard)
    requires Ranked(pixels, b)
    ensures Parse(CsvLine(url, b)) == Some(Record(url, b.first.color, b.second.color, b.third.color))
    ensures b.third == Vacant ==> Parse(CsvLine(url, b)).value.third == ""
  {
    RankedFieldsPlain(pixels, b);
    ParseFormat(Record(url, b.first.color, b.second.color, b.third.color));
  }
}
