/** The three Python string operations the server relies on, on `str` values
    modelled as `seq<char>`: `str.strip()`, `str.split(sep)` with an explicit
    one-character separator, and `sep.join(parts)`. */
module Text {

  /** The characters for which Python 3's `str.isspace()` holds; `str.strip()`
      with no argument removes exactly these from both ends. All of them
      lie between the tab and U+3000 (ideographic space). */
  function IsSpace(c: char): (b: bool)
    ensures b ==> '\t' <= c <= '\U{3000}'
  {
    || ('\t' <= c <= '\r')
    || ('\U{1C}' <= c <= ' ')
    || c == '\U{85}' || c == '\U{A0}' || c == '\U{1680}'
    || ('\U{2000}' <= c <= '\U{200A}')
    || c == '\U{2028}' || c == '\U{2029}' || c == '\U{202F}'
    || c == '\U{205F}' || c == '\U{3000}'
  }

  /** Within ASCII, whitespace is exactly the space, tab, line feed,
      vertical tab, form feed, carriage return and the four separators
      U+001C to U+001F; letters and digits never are. */
  lemma AsciiSpace(c: char)
    requires c <= '\U{7F}'
    ensures IsSpace(c) <==> c == ' ' || '\t' <= c <= '\r' || '\U{1C}' <= c <= '\U{1F}'
    ensures '0' <= c <= '9' || 'A' <= c <= 'Z' || 'a' <= c <= 'z' ==> !IsSpace(c)
  {
  }

  /** Every character of `s` is whitespace. */
  predicate Blank(s: string) {
    forall k :: 0 <= k < |s| ==> IsSpace(s[k])
  }

  /** `s.lstrip()`: `s` without its leading whitespace, so what is left does
      not start with whitespace. */
  function TrimStart(s: string): (r: string)
    ensures |r| <= |s| && (r == [] || !IsSpace(r[0]))
  {
    if s != [] && IsSpace(s[0]) then TrimStart(s[1..]) else s
  }

  /** `s.rstrip()`: `s` without its trailing whitespace, so what is left does
      not end with whitespace. */
  function TrimEnd(s: string): (r: string)
    ensures |r| <= |s| && (r == [] || !IsSpace(r[|r| - 1]))
  {
    if s != [] && IsSpace(s[|s| - 1]) then TrimEnd(s[..|s| - 1]) else s
  }

  /** `s.strip()`: `s` with its leading and trailing whitespace removed.
      StripSlice and StripEnds characterise the result. */
  function Strip(s: string): (r: string)
    ensures |r| <= |s|
  {
    TrimEnd(TrimStart(s))
  }

  /** TrimStart keeps the longest suffix of `s` that does not start with
      whitespace: what it drops is all whitespace, and what it keeps starts
      with a non-whitespace character or is empty. */
  lemma {:induction false} TrimStartSpec(s: string)
    ensures var r := TrimStart(s);
            && |r| <= |s| && r == s[|s| - |r|..]
            && Blank(s[..|s| - |r|])
            && (r == [] || !IsSpace(r[0]))
  {
    if s != [] && IsSpace(s[0]) {
      var t := s[1..];
      TrimStartSpec(t);
      var r := TrimStart(t);
      assert t[|t| - |r|..] == s[|s| - |r|..];
      var dropped := s[..|s| - |r|];
      forall k | 0 <= k < |dropped| ensures IsSpace(dropped[k]) {
        if k > 0 { assert dropped[k] == t[..|t| - |r|][k - 1]; }
      }
    }
  }

  /** TrimEnd keeps the longest prefix of `s` that does not end with
      whitespace: what it drops is all whitespace, and what it keeps ends
      with a non-whitespace character or is empty. */
  lemma {:induction false} TrimEndSpec(s: string)
    ensures var r := TrimEnd(s);
            && |r| <= |s| && r == s[..|r|]
            && Blank(s[|r|..])
            && (r == [] || !IsSpace(r[|r| - 1]))
  {
    if s != [] && IsSpace(s[|s| - 1]) {
      var t := s[..|s| - 1];
      TrimEndSpec(t);
      var r := TrimEnd(t);
      assert t[..|r|] == s[..|r|];
      var dropped := s[|r|..];
      forall k | 0 <= k < |dropped| ensures IsSpace(dropped[k]) {
        if k < |dropped| - 1 { assert dropped[k] == t[|r|..][k]; }
      }
    }
  }

  /** What `str.strip()` returns is a slice of `s` with only whitespace
      around it. */
  lemma StripSlice(s: string)
    ensures var r := Strip(s);
            exists i :: 0 <= i <= |s| - |r| && r == s[i..i + |r|]
                        && Blank(s[..i]) && Blank(s[i + |r|..])
  {
    var t := TrimStart(s);
    var r := TrimEnd(t);
    var i := |s| - |t|;
    assert |t| <= |s| && t == s[i..] && Blank(s[..i]) by {
      TrimStartSpec(s);
    }
    assert |r| <= |t| && r == t[..|r|] && Blank(t[|r|..]) by {
      TrimEndSpec(t);
    }
    assert Strip(s) == r;
    assert r == s[i..i + |r|];
    assert Blank(s[i + |r|..]) by {
      assert s[i + |r|..] == t[|r|..];
    }
  }

  /** What `str.strip()` returns has no whitespace at either of its ends.
      With StripSlice this determines the result uniquely. */
  lemma StripEnds(s: string)
    ensures var r := Strip(s);
            r == [] || (!IsSpace(r[0]) && !IsSpace(r[|r| - 1]))
  {
    var t := TrimStart(s);
    var r := TrimEnd(t);
    assert |r| <= |t| && r == t[..|r|] by {
      TrimEndSpec(t);
    }
    if r != [] {
      assert r[0] == t[0];
    }
  }

  /** A string with no whitespace at either end is its own strip. */
  lemma StripUnchanged(s: string)
    requires s == [] || (!IsSpace(s[0]) && !IsSpace(s[|s| - 1]))
    ensures Strip(s) == s
  {
  }

  /** Stripping twice is stripping once. */
  lemma StripIdempotent(s: string)
    ensures Strip(Strip(s)) == Strip(s)
  {
    StripEnds(s);
    StripUnchanged(Strip(s));
  }

  /** A string made only of whitespace strips to the empty string, and only
      such a string does. */
  lemma StripBlank(s: string)
    ensures Blank(s) <==> Strip(s) == ""
  {
    StripSlice(s);
    StripEnds(s);
    if Strip(s) == "" {
      var i :| 0 <= i <= |s| && Blank(s[..i]) && Blank(s[i..]);
      forall k | 0 <= k < |s| ensures IsSpace(s[k]) {
        if k < i { assert s[..i][k] == s[k]; } else { assert s[i..][k - i] == s[k]; }
      }
    }
  }

  /** `sep.join(parts)`: the parts in order with one `sep` between neighbours. */
  function Join(parts: seq<string>, sep: char): (r: string)
    ensures parts == [] ==> r == ""
    ensures |parts| == 1 ==> r == parts[0]
  {
    if |parts| == 0 then ""
    else if |parts| == 1 then parts[0]
    else parts[0] + [sep] + Join(parts[1..], sep)
  }

  /** The sum of the lengths of `parts`. */
  function TotalLength(parts: seq<string>): nat {
    if parts == [] then 0 else |parts[0]| + TotalLength(parts[1..])
  }

  /** Where the `i`-th part starts in `Join(parts, sep)`. */
  function Offset(parts: seq<string>, i: nat): nat
    requires i <= |parts|
  {
    if i == 0 then 0 else |parts[0]| + 1 + Offset(parts[1..], i - 1)
  }

  /** A joined string is as long as its parts plus one separator between
      each pair of neighbours. */
  lemma {:induction false} JoinLength(parts: seq<string>, sep: char)
    requires parts != []
    ensures |Join(parts, sep)| == TotalLength(parts) + |parts| - 1
  {
    if |parts| > 1 {
      JoinLength(parts[1..], sep);
    }
  }

  /** A join of two or more parts is the first part, a separator, and the
      join of the rest. */
  lemma JoinCons(parts: seq<string>, sep: char)
    requires |parts| >= 2
    ensures Join(parts, sep) == parts[0] + [sep] + Join(parts[1..], sep)
  {
  }

  /** Appending a part to a non-empty list adds one separator and the part
      at the end of the join. */
  lemma {:induction false} JoinSnoc(parts: seq<string>, last: string, sep: char)
    requires parts != []
    ensures Join(parts + [last], sep) == Join(parts, sep) + [sep] + last
  {
    if |parts| > 1 {
      assert (parts + [last])[1..] == parts[1..] + [last];
      JoinSnoc(parts[1..], last, sep);
    }
  }

  /** Slicing past a prefix of length `|a|` slices the rest. */
  lemma SliceAfter(a: string, b: string, lo: nat, hi: nat)
    requires lo <= hi <= |b|
    ensures (a + b)[|a| + lo..|a| + hi] == b[lo..hi]
  {
    assert forall k :: 0 <= k < hi - lo ==> (a + b)[|a| + lo..|a| + hi][k] == b[lo..hi][k];
  }

  /** The `i`-th part sits intact at `Offset(parts, i)` in the joined
      string: together with JoinLength and JoinSeparatorAfter this pins
      down every character of `Join(parts, sep)`. */
  lemma {:induction false} JoinPieceAt(parts: seq<string>, sep: char, i: nat)
    requires i < |parts|
    ensures Offset(parts, i) + |parts[i]| <= |Join(parts, sep)|
    ensures Join(parts, sep)[Offset(parts, i)..Offset(parts, i) + |parts[i]|] == parts[i]
  {
    if |parts| == 1 {
    } else if i == 0 {
      JoinCons(parts, sep);
      var j := Join(parts, sep);
      assert j[..|parts[0]|] == parts[0];
    } else {
      JoinCons(parts, sep);
      JoinPieceAt(parts[1..], sep, i - 1);
      var o := Offset(parts[1..], i - 1);
      assert parts[1..][i - 1] == parts[i];
      SliceAfter(parts[0] + [sep], Join(parts[1..], sep), o, o + |parts[i]|);
    }
  }

  /** Every part but the last is followed by exactly one separator in the
      join. */
  lemma {:induction false} JoinSeparatorAfter(parts: seq<string>, sep: char, i: nat)
    requires i + 1 < |parts|
    ensures Offset(parts, i) + |parts[i]| < |Join(parts, sep)|
    ensures Join(parts, sep)[Offset(parts, i) + |parts[i]|] == sep
  {
    JoinCons(parts, sep);
    if i > 0 {
      JoinSeparatorAfter(parts[1..], sep, i - 1);
      assert parts[1..][i - 1] == parts[i];
    }
  }

  /** JoinPieceAt and JoinSeparatorAfter together: part `i` at its offset,
      followed by the separator unless it is the last part. */
  lemma JoinNeighbourhood(parts: seq<string>, sep: char, i: nat)
    requires i < |parts|
    ensures var o := Offset(parts, i);
            var j := Join(parts, sep);
            && o + |parts[i]| <= |j|
            && j[o..o + |parts[i]|] == parts[i]
            && (i + 1 < |parts| ==> o + |parts[i]| < |j| && j[o + |parts[i]|] == sep)
  {
    JoinPieceAt(parts, sep, i);
    if i + 1 < |parts| {
      JoinSeparatorAfter(parts, sep, i);
    }
  }

  /** A join starts with the first part's first character and ends with the
      last part's last character when those parts are non-empty. */
  lemma {:induction false} JoinEnds(parts: seq<string>, sep: char)
    requires parts != [] && parts[0] != [] && parts[|parts| - 1] != []
    ensures var j := Join(parts, sep);
            j != [] && j[0] == parts[0][0] && j[|j| - 1] == parts[|parts| - 1][|parts[|parts| - 1]| - 1]
  {
    if |parts| > 1 {
      var rest := parts[1..];
      if rest[0] != [] {
        JoinEnds(rest, sep);
      } else {
        JoinEndsLast(rest, sep);
      }
    }
  }

  /** A join ends with the last part's last character when that part is
      non-empty. */
  lemma {:induction false} JoinEndsLast(parts: seq<string>, sep: char)
    requires parts != [] && parts[|parts| - 1] != []
    ensures var j := Join(parts, sep);
            j != [] && j[|j| - 1] == parts[|parts| - 1][|parts[|parts| - 1]| - 1]
  {
    if |parts| > 1 {
      JoinEndsLast(parts[1..], sep);
    }
  }

  /** `s.split(sep)`: the maximal runs of `s` free of `sep`, in order. There
      is always at least one piece, and there are two or more exactly when
      `s` holds the separator. */
  function Split(s: string, sep: char): (r: seq<string>)
    ensures |r| >= 1
    ensures forall i :: 0 <= i < |r| ==> sep !in r[i]
    ensures sep in s <==> |r| >= 2
  {
    if s == [] then [""]
    else
      var rest := Split(s[1..], sep);
      if s[0] == sep then [""] + rest
      else [[s[0]] + rest[0]] + rest[1..]
  }

  /** Joining the pieces of a split with the separator gives the text back. */
  lemma {:induction false} SplitRoundTrip(s: string, sep: char)
    ensures Join(Split(s, sep), sep) == s
  {
    if s != [] {
      var rest := Split(s[1..], sep);
      SplitRoundTrip(s[1..], sep);
      assert s == [s[0]] + s[1..];
      if s[0] == sep {
        var r := [""] + rest;
        assert Split(s, sep) == r;
        assert Join(r, sep) == [sep] + Join(rest, sep) by {
          JoinCons(r, sep);
          assert r[1..] == rest;
        }
      } else {
        var r := [[s[0]] + rest[0]] + rest[1..];
        assert Split(s, sep) == r;
        assert Join(r, sep) == [s[0]] + Join(rest, sep) by {
          if |rest| >= 2 {
            JoinCons(r, sep);
            JoinCons(rest, sep);
            assert r[1..] == rest[1..];
          }
        }
      }
    }
  }

  /** A string free of `sep` splits into itself alone. */
  lemma {:induction false} SplitNoSeparator(s: string, sep: char)
    requires sep !in s
    ensures Split(s, sep) == [s]
  {
    if s != [] {
      SplitNoSeparator(s[1..], sep);
      assert [s[0]] + s[1..] == s;
    }
  }

  /** A first piece free of `sep`, followed by `sep`, splits off as the first
      piece. */
  lemma {:induction false} SplitAfterFirst(a: string, sep: char, b: string)
    requires sep !in a
    ensures Split(a + [sep] + b, sep) == [a] + Split(b, sep)
  {
    var s := a + [sep] + b;
    if a == [] {
      assert s[1..] == b;
    } else {
      assert s[1..] == a[1..] + [sep] + b;
      SplitAfterFirst(a[1..], sep, b);
      var rest := Split(s[1..], sep);
      assert rest[0] == a[1..] && rest[1..] == Split(b, sep);
      assert s[0] == a[0] != sep;
      assert [a[0]] + a[1..] == a;
    }
  }

  /** Splitting a join gives the parts back when no part holds the separator
      (the converse of SplitRoundTrip). */
  lemma {:induction false} SplitJoin(parts: seq<string>, sep: char)
    requires parts != []
    requires forall i :: 0 <= i < |parts| ==> sep !in parts[i]
    ensures Split(Join(parts, sep), sep) == parts
  {
    if |parts| == 1 {
      SplitNoSeparator(parts[0], sep);
    } else {
      SplitJoin(parts[1..], sep);
      SplitAfterFirst(parts[0], sep, Join(parts[1..], sep));
    }
  }

  /** Text, separator, then a separator-free last piece: the split of the
      text gets that piece appended at the end. */
  lemma SplitLastPiece(s: string, sep: char, last: string)
    requires sep !in last
    ensures Split(s + [sep] + last, sep) == Split(s, sep) + [last]
  {
    var parts := Split(s, sep) + [last];
    JoinSnoc(Split(s, sep), last, sep);
    SplitRoundTrip(s, sep);
    SplitJoin(parts, sep);
  }

  /** The index of the first `c` in `s`, or -1 (Python's `str.find`). */
  function Find(s: string, c: char): (r: int)
    ensures -1 <= r < |s|
    ensures r >= 0 ==> s[r] == c
    ensures forall k :: 0 <= k < |s| && (r < 0 || k < r) ==> s[k] != c
  {
    if s == [] then -1
    else if s[0] == c then 0
    else
      var r := Find(s[1..], c);
      if r < 0 then -1 else r + 1
  }

  /** A `c` with no `c` before it is the first one. */
  lemma FindFirst(s: string, c: char, i: nat)
    requires i < |s| && s[i] == c
    requires forall k :: 0 <= k < i ==> s[k] != c
    ensures Find(s, c) == i
  {
  }

  /** A text holding the separator is its first piece, the separator, and
      the join of the other pieces; the separator there is the first one. */
  lemma SplitHead(s: string, sep: char)
    requires sep in s
    ensures var parts := Split(s, sep);
            && s == parts[0] + [sep] + Join(parts[1..], sep)
            && Find(s, sep) == |parts[0]|
  {
    var parts := Split(s, sep);
    assert s == parts[0] + [sep] + Join(parts[1..], sep) by {
      SplitRoundTrip(s, sep);
      JoinCons(parts, sep);
    }
    assert forall k :: 0 <= k < |parts[0]| ==> s[k] == parts[0][k];
    FindFirst(s, sep, |parts[0]|);
  }

  /** A join starts with its first part, followed by a separator when more
      parts follow, and is that part alone otherwise. */
  lemma JoinFirstPiece(parts: seq<string>, sep: char)
    requires parts != []
    ensures var j := Join(parts, sep);
            && |parts[0]| <= |j| && j[..|parts[0]|] == parts[0]
            && (|parts| == 1 ==> j == parts[0])
            && (|parts| >= 2 ==> |parts[0]| < |j| && j[|parts[0]|] == sep)
  {
    if |parts| >= 2 {
      JoinCons(parts, sep);
    }
  }

  /** The index of the last `c` in `s`, or -1 (Python's `str.rfind`). */
  function RFind(s: string, c: char): (r: int)
    ensures -1 <= r < |s|
    ensures r >= 0 ==> s[r] == c
    ensures forall k :: r < k < |s| ==> s[k] != c
  {
    if s == [] then -1
    else if s[|s| - 1] == c then |s| - 1
    else RFind(s[..|s| - 1], c)
  }
}
