/** The JavaScript string operations the builders rely on: `slice(1, -1)`,
    `Array.prototype.join`, and a line splitter that undoes a join on "\n". */
module Text {

  /** `s.slice(1, -1)`: drops the first and the last character; a string of
      fewer than two characters gives the empty string. */
  function DropFirstAndLast(s: string): (r: string)
    ensures |s| >= 2 ==> |r| == |s| - 2
    ensures |s| < 2 ==> r == ""
    ensures forall i :: 0 <= i < |r| ==> r[i] == s[i + 1]
  {
    if |s| >= 2 then s[1..|s| - 1] else ""
  }

  /** `[a, b, c].join(sep)` is `a + sep + b + sep + c`; the empty list joins to "". */
  function Join(parts: seq<string>, sep: string): (r: string)
    ensures |parts| == 0 ==> r == ""
    ensures |parts| == 1 ==> r == parts[0]
  {
    if |parts| == 0 then ""
    else if |parts| == 1 then parts[0]
    else parts[0] + sep + Join(parts[1..], sep)
  }

  /** Appending one more part adds exactly one separator, and nothing after the
      last part. */
  lemma {:induction false} JoinSnoc(parts: seq<string>, last: string, sep: string)
    requires |parts| > 0
    ensures Join(parts + [last], sep) == Join(parts, sep) + sep + last
  {
    if |parts| == 1 {
      assert parts + [last] == [parts[0], last];
    } else {
      assert (parts + [last])[1..] == parts[1..] + [last];
      JoinSnoc(parts[1..], last, sep);
    }
  }

  /** Splits a string at every "\n"; always yields at least one (possibly
      empty) line. */
  function SplitLines(s: string): (r: seq<string>)
    ensures |r| >= 1
  {
    if |s| == 0 then [""]
    else
      var rest := SplitLines(s[1..]);
      if s[0] == '\n' then [""] + rest
      else [[s[0]] + rest[0]] + rest[1..]
  }

  lemma {:induction false} SplitLinesSingle(line: string)
    requires '\n' !in line
    ensures SplitLines(line) == [line]
  {
    if |line| > 0 {
      assert '\n' !in line[1..];
      SplitLinesSingle(line[1..]);
      assert [line[0]] + line[1..] == line;
    }
  }

  lemma {:induction false} SplitLinesCons(line: string, rest: string)
    requires '\n' !in line
    ensures SplitLines(line + "\n" + rest) == [line] + SplitLines(rest)
  {
    if |line| == 0 {
      assert line + "\n" + rest == "\n" + rest;
      assert ("\n" + rest)[1..] == rest;
    } else {
      var s := line + "\n" + rest;
      assert s[1..] == line[1..] + "\n" + rest;
      assert '\n' !in line[1..];
      SplitLinesCons(line[1..], rest);
      assert [line[0]] + line[1..] == line;
    }
  }

  /** Splitting a join on "\n" gives back the parts, provided no part holds a
      newline of its own: the joined text has one line per part and no trailing
      newline. */
  lemma {:induction false} SplitJoin(parts: seq<string>)
    requires |parts| > 0
    requires forall i :: 0 <= i < |parts| ==> '\n' !in parts[i]
    ensures SplitLines(Join(parts, "\n")) == parts
  {
    if |parts| == 1 {
      SplitLinesSingle(parts[0]);
    } else {
      SplitLinesCons(parts[0], Join(parts[1..], "\n"));
      SplitJoin(parts[1..]);
    }
  }
}
