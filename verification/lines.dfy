/** Line-level string operations of Python that split_yaml and clean_yaml
    rely on: `s.split("\n")`, `"\n".join(lines)`, `"".join(parts)`, and the
    text a loop of `acc += line + "\n"` accumulates. Strings are sequences of
    code points, as Python's `str` is, so `|s|` is Python's `len(s)`. */
module Lines {

  const NL: char := '\n'

  /** Python's `s.split("\n")`: the maximal newline-free pieces between the
      separators, in order. An empty string splits into one empty piece. */
  function Split(s: string): (r: seq<string>)
    ensures |r| >= 1
    ensures forall k :: 0 <= k < |r| ==> NL !in r[k]
    decreases |s|
  {
    if s == [] then [[]]
    else if s[0] == NL then
      assert s == [s[0]] + s[1..];
      [[]] + Split(s[1..])
    else
      var rest := Split(s[1..]);
      assert s == [s[0]] + s[1..];
      [[s[0]] + rest[0]] + rest[1..]
  }

  /** Python's `"\n".join(lines)`: no separator after the last line. */
  function Join(lines: seq<string>): (r: string)
    ensures |lines| == 1 ==> r == lines[0]
    ensures |r| >= |lines| - 1
    decreases |lines|
  {
    if lines == [] then []
    else if |lines| == 1 then lines[0]
    else lines[0] + [NL] + Join(lines[1..])
  }

  /** Every line followed by a newline: what `acc += line + "\n"` builds from
      an empty accumulator. */
  function Unlines(lines: seq<string>): (r: string)
    ensures |r| >= |lines|
    ensures lines != [] ==> r[|r| - 1] == NL
    decreases |lines|
  {
    if lines == [] then []
    else Unlines(lines[..|lines| - 1]) + lines[|lines| - 1] + [NL]
  }

  /** Python's `"".join(parts)`. */
  function Concat(parts: seq<string>): string
    decreases |parts|
  {
    if parts == [] then []
    else Concat(parts[..|parts| - 1]) + parts[|parts| - 1]
  }

  /** Joining a line in front of at least one more line inserts one separator. */
  lemma JoinCons(x: string, t: seq<string>)
    requires |t| >= 1
    ensures Join([x] + t) == x + [NL] + Join(t)
  {
    assert ([x] + t)[1..] == t;
  }

  /** Joining the pieces of a split gives the original string back. */
  lemma {:induction false} JoinSplit(s: string)
    ensures Join(Split(s)) == s
    decreases |s|
  {
    if s == [] {
    } else if s[0] == NL {
      JoinSplit(s[1..]);
      JoinCons([], Split(s[1..]));
      assert s == [NL] + s[1..];
    } else {
      var rest := Split(s[1..]);
      JoinSplit(s[1..]);
      assert s == [s[0]] + s[1..];
      if |rest| > 1 {
        JoinCons([s[0]] + rest[0], rest[1..]);
        JoinCons(rest[0], rest[1..]);
        assert [rest[0]] + rest[1..] == rest;
      }
    }
  }

  /** A newline-free string splits into itself alone. */
  lemma {:induction false} SplitNoNewline(x: string)
    requires NL !in x
    ensures Split(x) == [x]
    decreases |x|
  {
    if x != [] {
      SplitNoNewline(x[1..]);
      assert x == [x[0]] + x[1..];
    }
  }

  /** A newline-free prefix followed by a newline is split off as one piece. */
  lemma {:induction false} SplitLeading(x: string, t: string)
    requires NL !in x
    ensures Split(x + [NL] + t) == [x] + Split(t)
    decreases |x|
  {
    var s := x + [NL] + t;
    if x == [] {
      assert s[0] == NL && s[1..] == t;
    } else {
      assert s[0] == x[0] && s[1..] == x[1..] + [NL] + t;
      SplitLeading(x[1..], t);
      assert [x[0]] + x[1..] == x;
    }
  }

  /** Splitting a join of newline-free lines gives the lines back. */
  lemma {:induction false} SplitJoin(lines: seq<string>)
    requires |lines| >= 1
    requires forall k :: 0 <= k < |lines| ==> NL !in lines[k]
    ensures Split(Join(lines)) == lines
    decreases |lines|
  {
    if |lines| == 1 {
      SplitNoNewline(lines[0]);
    } else {
      SplitJoin(lines[1..]);
      SplitLeading(lines[0], Join(lines[1..]));
      assert [lines[0]] + lines[1..] == lines;
    }
  }

  /** Unlines distributes over concatenation of line lists. */
  lemma {:induction false} UnlinesAppend(a: seq<string>, b: seq<string>)
    ensures Unlines(a + b) == Unlines(a) + Unlines(b)
    decreases |b|
  {
    if b == [] {
      assert a + b == a;
    } else {
      var b' := b[..|b| - 1];
      UnlinesAppend(a, b');
      assert (a + b)[..|a + b| - 1] == a + b';
    }
  }

  /** Terminating every line is joining them and adding one final newline. */
  lemma {:induction false} UnlinesJoin(lines: seq<string>)
    requires |lines| >= 1
    ensures Unlines(lines) == Join(lines) + [NL]
    decreases |lines|
  {
    UnlinesAppend([lines[0]], lines[1..]);
    assert [lines[0]] + lines[1..] == lines;
    assert Unlines([lines[0]]) == lines[0] + [NL];
    if |lines| > 1 {
      UnlinesJoin(lines[1..]);
    }
  }

  /** The lines of a split, each newline-terminated, rebuild the string plus
      one trailing newline. */
  lemma UnlinesSplit(s: string)
    ensures Unlines(Split(s)) == s + [NL]
  {
    UnlinesJoin(Split(s));
    JoinSplit(s);
  }

  /** A join ends with its last line. */
  lemma {:induction false} JoinEndsWithLast(lines: seq<string>)
    requires |lines| >= 1
    ensures |Join(lines)| >= |lines[|lines| - 1]|
    ensures Join(lines)[|Join(lines)| - |lines[|lines| - 1]|..] == lines[|lines| - 1]
    decreases |lines|
  {
    if |lines| > 1 {
      JoinEndsWithLast(lines[1..]);
    }
  }

  /** A line list whose lines hold no newline, terminated line by line,
      holds exactly one newline per line. */
  lemma {:induction false} UnlinesNewlines(lines: seq<string>)
    requires forall k :: 0 <= k < |lines| ==> NL !in lines[k]
    ensures multiset(Unlines(lines))[NL] == |lines|
    decreases |lines|
  {
    if lines != [] {
      var init := lines[..|lines| - 1];
      UnlinesNewlines(init);
      var last := lines[|lines| - 1];
      assert multiset(last)[NL] == 0;
      assert multiset(Unlines(lines)) == multiset(Unlines(init)) + multiset(last) + multiset([NL]);
    }
  }

  /** The first line of a terminated line list is split off first. */
  lemma FirstOfUnlines(lines: seq<string>)
    requires |lines| >= 1
    requires forall k :: 0 <= k < |lines| ==> NL !in lines[k]
    ensures Split(Unlines(lines))[0] == lines[0]
  {
    UnlinesAppend([lines[0]], lines[1..]);
    assert [lines[0]] + lines[1..] == lines;
    assert Unlines([lines[0]]) == lines[0] + [NL];
    var u := Unlines(lines[1..]);
    assert Unlines(lines) == lines[0] + [NL] + u;
    SplitLeading(lines[0], u);
  }

  /** Concat distributes over concatenation. */
  lemma {:induction false} ConcatAppend(a: seq<string>, b: seq<string>)
    ensures Concat(a + b) == Concat(a) + Concat(b)
    decreases |b|
  {
    if b == [] {
      assert a + b == a;
    } else {
      var b' := b[..|b| - 1];
      ConcatAppend(a, b');
      assert (a + b)[..|a + b| - 1] == a + b';
    }
  }
}
