/** clean_yaml: drops the blank lines and whole-line comments of a text,
    keeping every other line unmodified and in order, and rejoins them with
    newlines. */
module Cleaner {
  import opened Lines

  /** The characters `str.strip()` removes, restricted to ASCII: space, tab,
      line feed, vertical tab, form feed, carriage return and the four
      separator controls 0x1C to 0x1F. */
  const Whitespace: set<char> := {' ', '\t', '\n', '\r', '\U{B}', '\U{C}', '\U{1C}', '\U{1D}', '\U{1E}', '\U{1F}'}

  /** `s` without its leading whitespace. */
  function TrimLeft(s: string): (r: string)
    ensures |r| <= |s|
    decreases |s|
  {
    if s != [] && s[0] in Whitespace then TrimLeft(s[1..]) else s
  }

  /** `s` without its trailing whitespace. */
  function TrimRight(s: string): (r: string)
    ensures |r| <= |s|
    decreases |s|
  {
    if s != [] && s[|s| - 1] in Whitespace then TrimRight(s[..|s| - 1]) else s
  }

  /** TrimLeft drops exactly the leading whitespace: what it returns is a
      suffix of `s` that does not start with whitespace, and every character
      before it is whitespace. */
  lemma {:induction false} TrimLeftSpec(s: string)
    ensures TrimLeft(s) == s[|s| - |TrimLeft(s)|..]
    ensures TrimLeft(s) == [] || TrimLeft(s)[0] !in Whitespace
    ensures forall i :: 0 <= i < |s| - |TrimLeft(s)| ==> s[i] in Whitespace
    decreases |s|
  {
    if s != [] && s[0] in Whitespace {
      TrimLeftSpec(s[1..]);
    }
  }

  /** TrimRight drops exactly the trailing whitespace: what it returns is a
      prefix of `s` that does not end with whitespace, and every character
      after it is whitespace. */
  lemma {:induction false} TrimRightSpec(s: string)
    ensures TrimRight(s) == s[..|TrimRight(s)|]
    ensures TrimRight(s) == [] || TrimRight(s)[|TrimRight(s)| - 1] !in Whitespace
    ensures forall i :: |TrimRight(s)| <= i < |s| ==> s[i] in Whitespace
    decreases |s|
  {
    if s != [] && s[|s| - 1] in Whitespace {
      TrimRightSpec(s[..|s| - 1]);
    }
  }

  /** Python's `s.strip()` over the whitespace above. */
  function Strip(s: string): string
  {
    TrimRight(TrimLeft(s))
  }

  /** The test clean_yaml applies to each line: `line.strip()` is non-empty
      and does not start with `#`. */
  predicate IsContent(line: string)
  {
    var t := Strip(line);
    t != [] && t[0] != '#'
  }

  /** The kept lines, in order. */
  function Filter(lines: seq<string>): (r: seq<string>)
    ensures forall k :: 0 <= k < |r| ==> IsContent(r[k])
    decreases |lines|
  {
    if lines == [] then []
    else
      var init := lines[..|lines| - 1];
      var line := lines[|lines| - 1];
      if IsContent(line) then Filter(init) + [line] else Filter(init)
  }

  /** What clean_yaml returns for `yaml`. */
  function Clean(yaml: string): string
  {
    Join(Filter(Split(yaml)))
  }

  /** clean_yaml: keeps each line of `yaml` that passes the test, appending
      it to `cleaned`, and joins `cleaned` with newlines. */
  method CleanYaml(yaml: string) returns (r: string)
    ensures r == Clean(yaml)
  {
    var lines := Split(yaml);
    var cleaned: seq<string> := [];
    for i := 0 to |lines|
      invariant cleaned == Filter(lines[..i])
    {
      var line := lines[i];
      assert lines[..i + 1][..i] == lines[..i];
      if IsContent(line) {
        cleaned := cleaned + [line];
      }
    }
    assert lines[..|lines|] == lines;
    r := Join(cleaned);
  }

  // ---------------------------------------------------------------------
  // Properties

  /** `a` is `b` with some elements left out, the rest in their order. */
  ghost predicate IsSubsequence(a: seq<string>, b: seq<string>)
    decreases |b|
  {
    if a == [] then true
    else if b == [] then false
    else (a[|a| - 1] == b[|b| - 1] && IsSubsequence(a[..|a| - 1], b[..|b| - 1]))
         || IsSubsequence(a, b[..|b| - 1])
  }

  /** A line is kept exactly when, after its leading whitespace, it has a
      character that is not `#`: it is neither blank nor a whole-line
      comment. Indentation and inline `#` text do not matter. */
  lemma IsContentIff(line: string)
    ensures IsContent(line) <==>
      exists i :: 0 <= i < |line| && line[i] !in Whitespace && line[i] != '#' &&
        forall j :: 0 <= j < i ==> line[j] in Whitespace
  {
    var t := TrimLeft(line);
    var p := |line| - |t|;
    TrimLeftSpec(line);
    TrimRightSpec(t);
    if t != [] {
      assert Strip(line) != [];
      assert Strip(line)[0] == t[0] == line[p];
    }
    if exists i :: 0 <= i < |line| && line[i] !in Whitespace && line[i] != '#' &&
        forall j :: 0 <= j < i ==> line[j] in Whitespace
    {
      var i :| 0 <= i < |line| && line[i] !in Whitespace && line[i] != '#' &&
        forall j :: 0 <= j < i ==> line[j] in Whitespace;
      assert p < |line| ==> line[p] == t[0];
      assert i == p;
    }
  }

  /** The kept lines are a subsequence of the input: original order,
      each line unmodified. */
  lemma {:induction false} FilterSubsequence(lines: seq<string>)
    ensures IsSubsequence(Filter(lines), lines)
    decreases |lines|
  {
    if lines != [] {
      var init := lines[..|lines| - 1];
      var line := lines[|lines| - 1];
      FilterSubsequence(init);
      var f := Filter(lines);
      if IsContent(line) {
        assert f[..|f| - 1] == Filter(init);
      } else {
        assert f == Filter(init);
      }
    }
  }

  /** The kept lines hold every line that passes the test as often as the
      input does, and no other line. */
  lemma {:induction false} FilterCounts(lines: seq<string>)
    ensures forall l :: multiset(Filter(lines))[l] == if IsContent(l) then multiset(lines)[l] else 0
    decreases |lines|
  {
    if lines != [] {
      var init := lines[..|lines| - 1];
      var line := lines[|lines| - 1];
      FilterCounts(init);
      assert lines == init + [line];
      assert multiset(lines) == multiset(init) + multiset{line};
    }
  }

  /** Kept lines of newline-free lines are newline-free. */
  lemma {:induction false} FilterNewlineFree(lines: seq<string>)
    requires forall k :: 0 <= k < |lines| ==> NL !in lines[k]
    ensures forall k :: 0 <= k < |Filter(lines)| ==> NL !in Filter(lines)[k]
    decreases |lines|
  {
    if lines != [] {
      FilterNewlineFree(lines[..|lines| - 1]);
    }
  }

  /** Filtering lines that all pass the test changes nothing. */
  lemma {:induction false} FilterKept(lines: seq<string>)
    requires forall k :: 0 <= k < |lines| ==> IsContent(lines[k])
    ensures Filter(lines) == lines
    decreases |lines|
  {
    if lines != [] {
      FilterKept(lines[..|lines| - 1]);
    }
  }

  /** A kept line is not empty. */
  lemma ContentNonEmpty(line: string)
    requires IsContent(line)
    ensures line != []
  {
    assert |Strip(line)| <= |line|;
  }

  /** Nothing is kept exactly when no line passes the test. */
  lemma {:induction false} FilterEmpty(lines: seq<string>)
    ensures Filter(lines) == [] <==> forall k :: 0 <= k < |lines| ==> !IsContent(lines[k])
    decreases |lines|
  {
    if lines != [] {
      var init := lines[..|lines| - 1];
      FilterEmpty(init);
      assert forall k :: 0 <= k < |init| ==> init[k] == lines[k];
    }
  }

  /** The output is empty exactly when no input line passes the test. */
  lemma CleanEmpty(yaml: string)
    ensures Clean(yaml) == [] ==> forall k :: 0 <= k < |Split(yaml)| ==> !IsContent(Split(yaml)[k])
    ensures (forall k :: 0 <= k < |Split(yaml)| ==> !IsContent(Split(yaml)[k])) ==> Clean(yaml) == []
  {
    var f := Filter(Split(yaml));
    FilterEmpty(Split(yaml));
    if f != [] {
      assert Clean(yaml) != [] by {
        if |f| == 1 {
          ContentNonEmpty(f[0]);
        } else {
          assert |Join(f)| >= 1;
        }
      }
      assert !(forall k :: 0 <= k < |Split(yaml)| ==> !IsContent(Split(yaml)[k]));
    } else {
      assert Clean(yaml) == [];
      assert forall k :: 0 <= k < |Split(yaml)| ==> !IsContent(Split(yaml)[k]);
    }
  }

  /** A non-empty output splits back into exactly the kept lines, so none of
      its lines is blank or a whole-line comment. */
  lemma CleanOutputLines(yaml: string)
    requires Clean(yaml) != []
    ensures Split(Clean(yaml)) == Filter(Split(yaml))
    ensures forall k :: 0 <= k < |Split(Clean(yaml))| ==> IsContent(Split(Clean(yaml))[k])
  {
    var f := Filter(Split(yaml));
    FilterNewlineFree(Split(yaml));
    SplitJoin(f);
  }

  /** clean_yaml is idempotent. */
  lemma CleanIdempotent(yaml: string)
    ensures Clean(Clean(yaml)) == Clean(yaml)
  {
    var f := Filter(Split(yaml));
    if f == [] {
      assert Split([]) == [[]];
      assert !IsContent([]);
      var empty: seq<string> := [[]];
      assert Filter(empty) == Filter(empty[..0]);
    } else {
      FilterNewlineFree(Split(yaml));
      SplitJoin(f);
      FilterKept(f);
    }
  }

  /** The output never ends in a newline: `"\n".join` adds no trailing
      separator, and the last kept line is non-empty. */
  lemma CleanNoTrailingNewline(yaml: string)
    ensures Clean(yaml) == [] || Clean(yaml)[|Clean(yaml)| - 1] != NL
  {
    var f := Filter(Split(yaml));
    if f != [] {
      var last := f[|f| - 1];
      ContentNonEmpty(last);
      FilterNewlineFree(Split(yaml));
      assert last[|last| - 1] in last;
      JoinEndsWithLast(f);
      assert Clean(yaml)[|Clean(yaml)| - 1] == last[|last| - 1];
    }
  }
}
