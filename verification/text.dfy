/** Array.prototype.join and String.prototype.split over one-character separators. */
module Text {

  /** `parts.join(sep)`: the empty list gives "", one part gives itself. */
  function Join(parts: seq<string>, sep: string): string
    decreases |parts|
  {
    if |parts| == 0 then ""
    else if |parts| == 1 then parts[0]
    else parts[0] + sep + Join(parts[1..], sep)
  }

  /** Where `parts[i]` starts inside `Join(parts, sep)`. */
  function Offset(parts: seq<string>, sep: string, i: nat): nat
    requires i <= |parts|
    decreases i
  {
    if i == 0 then 0 else Offset(parts, sep, i - 1) + |parts[i - 1]| + |sep|
  }

  /** Total length of a join: every part plus one separator between neighbours. */
  lemma {:induction false} JoinLength(parts: seq<string>, sep: string)
    requires 0 < |parts|
    ensures |Join(parts, sep)| == Offset(parts, sep, |parts| - 1) + |parts[|parts| - 1]|
    decreases |parts|
  {
    if |parts| > 1 {
      JoinLength(parts[1..], sep);
      OffsetShift(parts, sep, |parts| - 1);
    }
  }

  lemma {:induction false} OffsetShift(parts: seq<string>, sep: string, i: nat)
    requires 1 <= i <= |parts|
    ensures Offset(parts, sep, i) == |parts[0]| + |sep| + Offset(parts[1..], sep, i - 1)
    decreases i
  {
    if i > 1 {
      OffsetShift(parts, sep, i - 1);
    }
  }

  /** Every part occurs in the joined text, in list order, at its offset. */
  lemma {:induction false} JoinKeepsParts(parts: seq<string>, sep: string, i: nat)
    requires i < |parts|
    ensures Offset(parts, sep, i) + |parts[i]| <= |Join(parts, sep)|
    ensures Join(parts, sep)[Offset(parts, sep, i)..Offset(parts, sep, i) + |parts[i]|] == parts[i]
    decreases i
  {
    var j := Join(parts, sep);
    if |parts| == 1 {
    } else if i == 0 {
      assert j == parts[0] + (sep + Join(parts[1..], sep));
      assert j[..|parts[0]|] == parts[0];
    } else {
      var rest := Join(parts[1..], sep);
      var k := |parts[0]| + |sep|;
      assert j == (parts[0] + sep) + rest;
      JoinKeepsParts(parts[1..], sep, i - 1);
      OffsetShift(parts, sep, i);
      SliceAfter(parts[0] + sep, rest, Offset(parts[1..], sep, i - 1), Offset(parts[1..], sep, i - 1) + |parts[i]|);
    }
  }

  /** The separator follows every part but the last. */
  lemma {:induction false} JoinKeepsSeparators(parts: seq<string>, sep: string, i: nat)
    requires i + 1 < |parts|
    ensures Offset(parts, sep, i + 1) <= |Join(parts, sep)|
    ensures Join(parts, sep)[Offset(parts, sep, i) + |parts[i]|..Offset(parts, sep, i + 1)] == sep
    decreases i
  {
    var j := Join(parts, sep);
    var rest := Join(parts[1..], sep);
    assert j == (parts[0] + sep) + rest;
    if i == 0 {
      assert j[|parts[0]|..|parts[0]| + |sep|] == sep;
    } else {
      JoinKeepsSeparators(parts[1..], sep, i - 1);
      OffsetShift(parts, sep, i);
      OffsetShift(parts, sep, i + 1);
      SliceAfter(parts[0] + sep, rest, Offset(parts[1..], sep, i - 1) + |parts[i]|, Offset(parts[1..], sep, i));
    }
  }

  /** After a prefix, every part still occurs, shifted by the prefix's length. */
  lemma PrefixedJoinKeepsParts(p: string, parts: seq<string>, sep: string, i: nat)
    requires i < |parts|
    ensures var m, at := p + Join(parts, sep), |p| + Offset(parts, sep, i);
      at + |parts[i]| <= |m| && m[at..at + |parts[i]|] == parts[i]
  {
    JoinKeepsParts(parts, sep, i);
    var off := Offset(parts, sep, i);
    SliceAfter(p, Join(parts, sep), off, off + |parts[i]|);
  }

  /** A slice of `s` is the same slice of `p + s`, shifted by `|p|`. */
  lemma SliceAfter(p: string, s: string, lo: nat, hi: nat)
    requires lo <= hi <= |s|
    ensures (p + s)[|p| + lo..|p| + hi] == s[lo..hi]
  {
  }

  /** `s.split(sep)`: the empty string splits into one empty piece. */
  function Split(s: string, sep: char): (r: seq<string>)
    ensures 0 < |r|
    decreases |s|
  {
    if |s| == 0 then [""]
    else if s[0] == sep then [""] + Split(s[1..], sep)
    else
      var rest := Split(s[1..], sep);
      [[s[0]] + rest[0]] + rest[1..]
  }

  lemma {:induction false} SplitAfterPlainPrefix(p: string, t: string, sep: char)
    requires sep !in p
    ensures Split(p + t, sep) == [p + Split(t, sep)[0]] + Split(t, sep)[1..]
    decreases |p|
  {
    if |p| == 0 {
      var r := Split(t, sep);
      assert p + t == t;
      assert p + r[0] == r[0];
      assert r == [r[0]] + r[1..];
    } else {
      assert (p + t)[1..] == p[1..] + t;
      SplitAfterPlainPrefix(p[1..], t, sep);
      assert [p[0]] + (p[1..] + Split(t, sep)[0]) == p + Split(t, sep)[0];
    }
  }

  /**
   * Splitting a join on its separator recovers the parts, provided no part
   * contains the separator and there is at least one part.
   */
  lemma {:induction false} SplitJoin(parts: seq<string>, sep: char)
    requires 0 < |parts|
    requires forall i :: 0 <= i < |parts| ==> sep !in parts[i]
    ensures Split(Join(parts, [sep]), sep) == parts
    decreases |parts|
  {
    if |parts| == 1 {
      SplitAfterPlainPrefix(parts[0], "", sep);
      assert parts[0] + "" == parts[0];
    } else {
      var rest := Join(parts[1..], [sep]);
      assert Join(parts, [sep]) == parts[0] + ([sep] + rest);
      SplitAfterPlainPrefix(parts[0], [sep] + rest, sep);
      assert ([sep] + rest)[1..] == rest;
      SplitJoin(parts[1..], sep);
      assert parts[0] + "" == parts[0];
      assert parts == [parts[0]] + parts[1..];
    }
  }
}
