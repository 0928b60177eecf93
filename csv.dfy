/**
 * The line layout shared by the catalogue file and the loan file: four fields
 * split at the first three commas, the fourth running to the end of the line.
 */
module Csv {
  import opened Wrappers

  /** `s.find(c, from)`: the first position at or after `from` holding `c`. */
  function IndexOf(s: string, c: char, from: nat): (r: Option<nat>)
    ensures r.Some? ==> from <= r.value < |s| && s[r.value] == c
    ensures r.Some? ==> forall j :: from <= j < r.value ==> s[j] != c
    ensures r.None? ==> forall j :: from <= j < |s| ==> s[j] != c
    decreases |s| - from
  {
    if from >= |s| then None
    else if s[from] == c then Some(from)
    else IndexOf(s, c, from + 1)
  }

  predicate NoComma(s: string) { ',' !in s }

  /** How many commas a line holds. */
  function CommaCount(s: string): nat { multiset(s)[','] }

  /**
   * The text before the first comma and the text after it. Searching the rest
   * of the line from its start is searching the whole line from one past the
   * previous comma (`IndexOfShift`), which is how the load functions find
   * their second and third commas.
   */
  function SplitFirst(s: string): Option<(string, string)>
  {
    match IndexOf(s, ',', 0)
    case None => None
    case Some(p) => Some((s[..p], s[p + 1..]))
  }

  /** Searching from `from` is searching the text after `from - 1` from its start, shifted by `from`. */
  lemma IndexOfShift(s: string, c: char, from: nat)
    requires from <= |s|
    ensures IndexOf(s, c, from) == match IndexOf(s[from..], c, 0) { case None => None case Some(k) => Some(from + k) }
  {
    var r := IndexOf(s, c, from);
    var t := IndexOf(s[from..], c, 0);
    if t.Some? {
      assert s[from + t.value] == c;
    }
  }

  datatype Fields = Fields(first: string, second: string, third: string, rest: string)

  /**
   * The parse both load functions share: split at the first three commas; a
   * line with fewer is skipped (`None`); the fourth field keeps any further commas.
   */
  function SplitFour(line: string): Option<Fields>
  {
    match SplitFirst(line)
    case None => None
    case Some((first, r1)) =>
      match SplitFirst(r1)
      case None => None
      case Some((second, r2)) =>
        match SplitFirst(r2)
        case None => None
        case Some((third, rest)) => Some(Fields(first, second, third, rest))
  }

  /** Where the next `find` starts: one past the previous comma, and `npos + 1`, which wraps to 0, when there was none. */
  function After(p: Option<nat>): nat
  {
    if p.None? then 0 else p.value + 1
  }

  /**
   * The split as the load functions write it: three `find` calls on the whole
   * line, each from one past the previous comma, then the four `substr`s.
   */
  function SourceSplit(line: string): Option<Fields>
  {
    var pos1 := IndexOf(line, ',', 0);
    var pos2 := IndexOf(line, ',', After(pos1));
    var pos3 := IndexOf(line, ',', After(pos2));
    if pos1.Some? && pos2.Some? && pos3.Some? then
      Some(Fields(line[..pos1.value], line[pos1.value + 1..pos2.value],
                  line[pos2.value + 1..pos3.value], line[pos3.value + 1..]))
    else None
  }

  /** Splitting what follows a comma at `p` is searching the whole line from `p + 1`. */
  lemma SplitFirstAfter(line: string, p: nat)
    requires p < |line|
    ensures var r := line[p + 1..];
      && (SplitFirst(r).None? <==> IndexOf(line, ',', p + 1).None?)
      && (SplitFirst(r).Some? ==>
            var q := IndexOf(line, ',', p + 1).value;
            SplitFirst(r).value == (line[p + 1..q], line[q + 1..]))
  {
    IndexOfShift(line, ',', p + 1);
    var r := line[p + 1..];
    if IndexOf(r, ',', 0).Some? {
      var k := IndexOf(r, ',', 0).value;
      assert r[..k] == line[p + 1..p + 1 + k];
      assert r[k + 1..] == line[p + 1 + k + 1..];
    }
  }

  /** The source's three searches on the whole line split it exactly as `SplitFour` does. */
  lemma SourceSplitIsSplitFour(line: string)
    ensures SourceSplit(line) == SplitFour(line)
  {
    var pos1 := IndexOf(line, ',', 0);
    if pos1.None? {
      assert SplitFirst(line).None?;
    } else {
      var p1 := pos1.value;
      assert SplitFirst(line) == Some((line[..p1], line[p1 + 1..]));
      SplitFirstAfter(line, p1);
      var pos2 := IndexOf(line, ',', p1 + 1);
      if pos2.Some? {
        SourceSplitFromSecond(line, p1, pos2.value);
      }
    }
  }

  /** What the source's split yields once its three searches have found their commas. */
  lemma SourceSplitAt(line: string, p1: nat, p2: nat, p3: nat)
    requires IndexOf(line, ',', 0) == Some(p1)
    requires IndexOf(line, ',', p1 + 1) == Some(p2)
    requires IndexOf(line, ',', p2 + 1) == Some(p3)
    ensures SourceSplit(line) == Some(Fields(line[..p1], line[p1 + 1..p2], line[p2 + 1..p3], line[p3 + 1..]))
  {
    assert After(Some(p1)) == p1 + 1 && After(Some(p2)) == p2 + 1;
  }

  /** The case where the first two commas are found: the third search decides both splits alike. */
  lemma SourceSplitFromSecond(line: string, p1: nat, p2: nat)
    requires IndexOf(line, ',', 0) == Some(p1)
    requires IndexOf(line, ',', p1 + 1) == Some(p2)
    ensures SourceSplit(line) == SplitFour(line)
  {
    var r1 := line[p1 + 1..];
    SplitFirstAfter(line, p1);
    assert SplitFirst(line) == Some((line[..p1], r1));
    assert SplitFirst(r1) == Some((line[p1 + 1..p2], line[p2 + 1..]));
    SplitFirstAfter(line, p2);
    var pos3 := IndexOf(line, ',', p2 + 1);
    if pos3.Some? {
      var p3 := pos3.value;
      assert SplitFirst(line[p2 + 1..]) == Some((line[p2 + 1..p3], line[p3 + 1..]));
      SourceSplitAt(line, p1, p2, p3);
    } else {
      assert SourceSplit(line).None?;
    }
  }

  /** What both save functions write: the four fields joined by commas. */
  function Join(f: Fields): string
  {
    f.first + ("," + (f.second + ("," + (f.third + ("," + f.rest)))))
  }

  /** A comma-free field followed by a comma splits off exactly. */
  lemma SplitFirstField(a: string, rest: string)
    requires NoComma(a)
    ensures SplitFirst(a + ("," + rest)) == Some((a, rest))
  {
    var s := a + ("," + rest);
    assert s[|a|] == ',';
    assert IndexOf(s, ',', 0) == Some(|a|);
    assert s[..|a|] == a && s[|a| + 1..] == rest;
  }

  /** A split loses nothing: the two parts rejoin to the text, and the first holds no comma. */
  lemma SplitFirstJoin(s: string)
    requires SplitFirst(s).Some?
    ensures var (a, rest) := SplitFirst(s).value; NoComma(a) && s == a + ("," + rest)
    ensures CommaCount(s) == 1 + CommaCount(SplitFirst(s).value.1)
  {
  }

  /** Text that holds no comma does not split. */
  lemma SplitFirstNone(s: string)
    requires SplitFirst(s).None?
    ensures CommaCount(s) == 0
  {
  }

  /** Joining and splitting again gives the fields back when the first three hold no comma. */
  lemma SplitJoin(f: Fields)
    requires NoComma(f.first) && NoComma(f.second) && NoComma(f.third)
    ensures SplitFour(Join(f)) == Some(f)
  {
    SplitFirstField(f.third, f.rest);
    SplitFirstField(f.second, f.third + ("," + f.rest));
    SplitFirstField(f.first, f.second + ("," + (f.third + ("," + f.rest))));
  }

  /** A split loses nothing: its fields rejoin to the line, and the first three hold no comma. */
  lemma JoinSplit(line: string)
    requires SplitFour(line).Some?
    ensures Join(SplitFour(line).value) == line
    ensures var f := SplitFour(line).value; NoComma(f.first) && NoComma(f.second) && NoComma(f.third)
  {
  }

  /** A line is skipped exactly when it holds fewer than three commas. */
  lemma SplitFourNoneIff(line: string)
    ensures SplitFour(line).None? <==> CommaCount(line) < 3
  {
    if SplitFirst(line).None? {
      SplitFirstNone(line);
    } else {
      SplitFirstJoin(line);
      var (_, r1) := SplitFirst(line).value;
      if SplitFirst(r1).None? {
        SplitFirstNone(r1);
      } else {
        SplitFirstJoin(r1);
        var (_, r2) := SplitFirst(r1).value;
        if SplitFirst(r2).None? {
          SplitFirstNone(r2);
        } else {
          SplitFirstJoin(r2);
        }
      }
    }
  }
}
