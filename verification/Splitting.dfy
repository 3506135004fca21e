/** strings.Split on one separator character, and what concatenation does to it. */
module Splitting {
  function SplitOn(s: string, sep: char): (parts: seq<string>)
    ensures |parts| >= 1
  {
    if s == "" then [""] else AddChar(SplitOn(s[..|s| - 1], sep), s[|s| - 1], sep)
  }

  function AddChar(parts: seq<string>, c: char, sep: char): (r: seq<string>)
    requires |parts| >= 1
    ensures |r| >= 1
  {
    if c == sep then parts + [""]
    else parts[..|parts| - 1] + [parts[|parts| - 1] + [c]]
  }

  lemma AddCharConcat(a: seq<string>, b: seq<string>, c: char, sep: char)
    requires |b| >= 1
    ensures AddChar(a + b, c, sep) == a + AddChar(b, c, sep)
  {
    assert (a + b)[|a + b| - 1] == b[|b| - 1];
    assert (a + b)[..|a + b| - 1] == a + b[..|b| - 1];
  }

  lemma SplitSnoc(s: string, c: char, sep: char)
    ensures SplitOn(s + [c], sep) == AddChar(SplitOn(s, sep), c, sep)
  {
    assert (s + [c])[..|s|] == s;
  }

  /** The separator splits, whatever is around it. */
  lemma {:induction false} SplitConcat(a: string, b: string, sep: char)
    ensures SplitOn(a + [sep] + b, sep) == SplitOn(a, sep) + SplitOn(b, sep)
  {
    if b == "" {
      SplitSnoc(a, sep, sep);
      assert a + [sep] + b == a + [sep];
    } else {
      var front, c := b[..|b| - 1], b[|b| - 1];
      assert a + [sep] + b == (a + [sep] + front) + [c] && b == front + [c];
      calc {
        SplitOn(a + [sep] + b, sep);
        { SplitSnoc(a + [sep] + front, c, sep); }
        AddChar(SplitOn(a + [sep] + front, sep), c, sep);
        { SplitConcat(a, front, sep); }
        AddChar(SplitOn(a, sep) + SplitOn(front, sep), c, sep);
        { AddCharConcat(SplitOn(a, sep), SplitOn(front, sep), c, sep); }
        SplitOn(a, sep) + AddChar(SplitOn(front, sep), c, sep);
        { SplitSnoc(front, c, sep); }
        SplitOn(a, sep) + SplitOn(b, sep);
      }
    }
  }

  lemma {:induction false} SplitSingle(s: string, sep: char)
    requires sep !in s
    ensures SplitOn(s, sep) == [s]
  {
    if s != "" {
      SplitSingle(s[..|s| - 1], sep);
      assert s[..|s| - 1] + [s[|s| - 1]] == s;
    }
  }

  /** strings.Join */
  function JoinWith(parts: seq<string>, sep: char): string {
    if parts == [] then ""
    else if |parts| == 1 then parts[0]
    else JoinWith(parts[..|parts| - 1], sep) + [sep] + parts[|parts| - 1]
  }

  lemma {:induction false} SplitOfJoin(parts: seq<string>, sep: char)
    requires parts != [] && forall i :: 0 <= i < |parts| ==> sep !in parts[i]
    ensures SplitOn(JoinWith(parts, sep), sep) == parts
  {
    var front, last := parts[..|parts| - 1], parts[|parts| - 1];
    SplitSingle(last, sep);
    assert parts == front + [last];
    if |parts| > 1 {
      SplitOfJoin(front, sep);
      SplitConcat(JoinWith(front, sep), last, sep);
    }
  }

  lemma {:induction false} JoinOfSplit(s: string, sep: char)
    ensures JoinWith(SplitOn(s, sep), sep) == s
  {
    if s != "" {
      var front, c := s[..|s| - 1], s[|s| - 1];
      JoinOfSplit(front, sep);
      JoinAddChar(SplitOn(front, sep), c, sep);
      assert s == front + [c];
    }
  }

  lemma JoinAddChar(parts: seq<string>, c: char, sep: char)
    requires |parts| >= 1
    ensures JoinWith(AddChar(parts, c, sep), sep) == JoinWith(parts, sep) + [c]
  {
    var r := AddChar(parts, c, sep);
    var n := |parts| - 1;
    if c == sep {
      assert r[..|r| - 1] == parts;
      assert JoinWith(parts, sep) + [sep] + "" == JoinWith(parts, sep) + [sep];
    } else {
      assert r[..|r| - 1] == parts[..n];
      if n > 0 {
        assert JoinWith(parts[..n], sep) + [sep] + (parts[n] + [c]) == JoinWith(parts[..n], sep) + [sep] + parts[n] + [c];
      }
    }
  }

  /** Parts never contain the separator. */
  lemma {:induction false} PartsLackSeparator(s: string, sep: char)
    ensures forall i :: 0 <= i < |SplitOn(s, sep)| ==> sep !in SplitOn(s, sep)[i]
  {
    if s != "" { PartsLackSeparator(s[..|s| - 1], sep); }
  }
}
