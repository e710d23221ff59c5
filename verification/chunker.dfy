/** split_yaml: a greedy chunker over the lines of a text, and the choice in
    matchyaml between sending the whole content and sending its chunks.

    The chunker is specified on line lists: Fill replays the loop over the
    lines, grouping them into the groups already closed and the group being
    accumulated; a chunk is the rendering (every line newline-terminated) of
    one group. The lemmas state the properties of that grouping, and then of
    the chunk strings. */
module Chunker {
  import opened Lines

  /** The default `max_chunk_size` of split_yaml, and the content length
      above which matchyaml chunks at all. */
  const DefaultMaxChunkSize: int := 3800

  /** The loop state after some lines: the groups already emitted as chunks
      and the group the accumulator `current_chunk` holds. */
  datatype Layout = Layout(closed: seq<seq<string>>, open: seq<string>)

  /** The groups of a layout with the open one last. */
  function AllGroups(f: Layout): (r: seq<seq<string>>)
    ensures |r| == |f.closed| + 1 && r[|r| - 1] == f.open
  {
    f.closed + [f.open]
  }

  /** The layout after the loop has seen `lines`. Before adding a line, the
      open group is closed when its rendering plus the line's own text
      (without its newline) exceeds `maxChunkSize`; the line is then always
      added to the open group. */
  function Fill(lines: seq<string>, maxChunkSize: int): (f: Layout)
    ensures lines != [] ==> f.open != []
    ensures lines == [] ==> f == Layout([], [])
    decreases |lines|
  {
    if lines == [] then Layout([], [])
    else
      var prev := Fill(lines[..|lines| - 1], maxChunkSize);
      var line := lines[|lines| - 1];
      if |Unlines(prev.open)| + |line| > maxChunkSize then
        Layout(prev.closed + [prev.open], [line])
      else
        Layout(prev.closed, prev.open + [line])
  }

  /** The groups split_yaml emits: the closed ones, then the open one when
      the accumulator is non-empty. */
  function Groups(lines: seq<string>, maxChunkSize: int): (gs: seq<seq<string>>)
    ensures lines != [] ==> gs == AllGroups(Fill(lines, maxChunkSize))
    ensures lines == [] ==> gs == []
  {
    var f := Fill(lines, maxChunkSize);
    if f.open == [] then f.closed else f.closed + [f.open]
  }

  /** The lines of a list of groups, in order. */
  function Flatten(groups: seq<seq<string>>): seq<string>
    decreases |groups|
  {
    if groups == [] then []
    else Flatten(groups[..|groups| - 1]) + groups[|groups| - 1]
  }

  /** Each group rendered as a chunk string. */
  function RenderAll(groups: seq<seq<string>>): (r: seq<string>)
    ensures |r| == |groups|
    ensures forall k :: 0 <= k < |r| ==> r[k] == Unlines(groups[k])
    decreases |groups|
  {
    if groups == [] then []
    else RenderAll(groups[..|groups| - 1]) + [Unlines(groups[|groups| - 1])]
  }

  /** The chunks split_yaml returns for `yaml` and `maxChunkSize`. */
  function Chunks(yaml: string, maxChunkSize: int): seq<string>
  {
    RenderAll(Groups(Split(yaml), maxChunkSize))
  }

  /** split_yaml: walks the lines of `yaml`, closing the accumulator as a
      chunk whenever `len(current_chunk + line) > max_chunk_size`, then
      appending the line and a newline; a non-empty accumulator is the last
      chunk. */
  method SplitYaml(yaml: string, maxChunkSize: int) returns (chunks: seq<string>)
    ensures chunks == Chunks(yaml, maxChunkSize)
  {
    var lines := Split(yaml);
    chunks := [];
    var current: string := [];
    ghost var layout := Layout([], []);
    for i := 0 to |lines|
      invariant layout == Fill(lines[..i], maxChunkSize)
      invariant current == Unlines(layout.open)
      invariant chunks == RenderAll(layout.closed)
    {
      var line := lines[i];
      assert lines[..i + 1][..i] == lines[..i];
      if |current + line| > maxChunkSize {
        chunks := chunks + [current];
        layout := Layout(layout.closed + [layout.open], []);
        current := [];
      }
      current := current + line + [NL];
      layout := layout.(open := layout.open + [line]);
    }
    assert lines[..|lines|] == lines;
    if current != [] {
      chunks := chunks + [current];
    }
  }

  // ---------------------------------------------------------------------
  // Properties of the grouping

  /** Every line of every group came from the split, so holds no newline. */
  ghost predicate NewlineFree(groups: seq<seq<string>>)
  {
    forall k, j :: 0 <= k < |groups| && 0 <= j < |groups[k]| ==> NL !in groups[k][j]
  }

  /** A group of two or more lines renders to at most `maxChunkSize + 1`
      characters: the length test before an append does not count the newline
      that follows the appended line. */
  ghost predicate Bounded(group: seq<string>, maxChunkSize: int)
  {
    |group| >= 2 ==> |Unlines(group)| <= maxChunkSize + 1
  }

  /** Each line after the first of a group was added because the group so far
      plus that line's text did not exceed the limit. */
  ghost predicate Fits(group: seq<string>, maxChunkSize: int)
  {
    forall j :: 1 <= j < |group| ==> |Unlines(group[..j])| + |group[j]| <= maxChunkSize
  }

  /** A group was closed only because the next group's first line would have
      pushed it over the limit. */
  ghost predicate Greedy(groups: seq<seq<string>>, maxChunkSize: int)
  {
    forall k :: 1 <= k < |groups| ==>
      groups[k] != [] && |Unlines(groups[k - 1])| + |groups[k][0]| > maxChunkSize
  }

  /** The groups, read in order, are exactly the lines: each line once, in
      its original position, never split. */
  lemma {:induction false} FillPartition(lines: seq<string>, maxChunkSize: int)
    ensures Flatten(AllGroups(Fill(lines, maxChunkSize))) == lines
    decreases |lines|
  {
    var f := Fill(lines, maxChunkSize);
    assert AllGroups(f)[..|f.closed|] == f.closed;
    if lines != [] {
      var init := lines[..|lines| - 1];
      var prev := Fill(init, maxChunkSize);
      FillPartition(init, maxChunkSize);
      assert AllGroups(prev)[..|prev.closed|] == prev.closed;
      assert Flatten(prev.closed) + prev.open == init;
      assert init + [lines[|lines| - 1]] == lines;
      if f.closed != prev.closed {
        assert f.closed[..|prev.closed|] == prev.closed;
      }
    }
  }

  /** Every group of two or more lines is within the bound. */
  lemma {:induction false} FillBounded(lines: seq<string>, maxChunkSize: int)
    ensures forall g :: g in AllGroups(Fill(lines, maxChunkSize)) ==> Bounded(g, maxChunkSize)
    decreases |lines|
  {
    if lines != [] {
      var init := lines[..|lines| - 1];
      var prev := Fill(init, maxChunkSize);
      var line := lines[|lines| - 1];
      FillBounded(init, maxChunkSize);
      var gs := AllGroups(Fill(lines, maxChunkSize));
      if |Unlines(prev.open)| + |line| > maxChunkSize {
        assert gs == AllGroups(prev) + [[line]];
      } else {
        var g := prev.open + [line];
        assert gs == prev.closed + [g];
        assert prev.open in AllGroups(prev);
        assert g[..|prev.open|] == prev.open;
        assert |Unlines(g)| == |Unlines(prev.open)| + |line| + 1;
        assert Bounded(g, maxChunkSize);
        forall h | h in gs ensures Bounded(h, maxChunkSize) {
          if h != g {
            assert h in AllGroups(prev);
          }
        }
      }
    }
  }

  /** Every line after the first of a group fitted when it was added. */
  lemma {:induction false} FillFits(lines: seq<string>, maxChunkSize: int)
    ensures forall g :: g in AllGroups(Fill(lines, maxChunkSize)) ==> Fits(g, maxChunkSize)
    decreases |lines|
  {
    if lines != [] {
      var init := lines[..|lines| - 1];
      var prev := Fill(init, maxChunkSize);
      var line := lines[|lines| - 1];
      FillFits(init, maxChunkSize);
      var gs := AllGroups(Fill(lines, maxChunkSize));
      if |Unlines(prev.open)| + |line| > maxChunkSize {
        assert gs == AllGroups(prev) + [[line]];
      } else {
        var g := prev.open + [line];
        assert gs == prev.closed + [g];
        assert prev.open in AllGroups(prev);
        assert Fits(prev.open, maxChunkSize);
        forall j | 1 <= j < |g|
          ensures |Unlines(g[..j])| + |g[j]| <= maxChunkSize
        {
          if j < |prev.open| {
            assert g[..j] == prev.open[..j];
          } else {
            assert g[..j] == prev.open;
          }
        }
        forall h | h in gs ensures Fits(h, maxChunkSize) {
          if h != g {
            assert h in AllGroups(prev);
          }
        }
      }
    }
  }

  /** Consecutive groups meet the greedy boundary condition. */
  lemma {:induction false} FillGreedy(lines: seq<string>, maxChunkSize: int)
    requires lines != []
    ensures Greedy(AllGroups(Fill(lines, maxChunkSize)), maxChunkSize)
    decreases |lines|
  {
    var init := lines[..|lines| - 1];
    var prev := Fill(init, maxChunkSize);
    var line := lines[|lines| - 1];
    var gs := AllGroups(Fill(lines, maxChunkSize));
    if init == [] {
      assert prev == Layout([], []);
    } else {
      FillGreedy(init, maxChunkSize);
      var old_gs := AllGroups(prev);
      forall k | 1 <= k < |gs|
        ensures gs[k] != [] && |Unlines(gs[k - 1])| + |gs[k][0]| > maxChunkSize
      {
        if k < |old_gs| {
          assert gs[k - 1] == old_gs[k - 1];
          if k < |old_gs| - 1 {
            assert gs[k] == old_gs[k];
          } else {
            assert gs[k][0] == old_gs[k][0];
          }
        }
      }
    }
  }

  /** An empty group is only ever the first one, and exactly when the first
      line alone exceeds the limit. */
  lemma {:induction false} FillEmptyGroup(lines: seq<string>, maxChunkSize: int)
    requires lines != []
    ensures forall k :: 0 <= k < |AllGroups(Fill(lines, maxChunkSize))| ==>
      (AllGroups(Fill(lines, maxChunkSize))[k] == [] <==> k == 0 && |lines[0]| > maxChunkSize)
    decreases |lines|
  {
    var init := lines[..|lines| - 1];
    var prev := Fill(init, maxChunkSize);
    var gs := AllGroups(Fill(lines, maxChunkSize));
    if init == [] {
      assert prev == Layout([], []);
    } else {
      FillEmptyGroup(init, maxChunkSize);
      assert init[0] == lines[0];
      var old_gs := AllGroups(prev);
      assert old_gs[|old_gs| - 1] != [];
      forall k | 0 <= k < |gs|
        ensures gs[k] == [] <==> k == 0 && |lines[0]| > maxChunkSize
      {
        if k < |old_gs| - 1 {
          assert gs[k] == old_gs[k];
        } else if k == |old_gs| - 1 {
          assert gs[k] != [];
          assert !(k == 0 && |lines[0]| > maxChunkSize);
        }
      }
    }
  }

  /** Rendering and concatenating the groups gives their lines terminated. */
  lemma {:induction false} ConcatRenderAll(groups: seq<seq<string>>)
    ensures Concat(RenderAll(groups)) == Unlines(Flatten(groups))
    decreases |groups|
  {
    if groups != [] {
      var init := groups[..|groups| - 1];
      ConcatRenderAll(init);
      UnlinesAppend(Flatten(init), groups[|groups| - 1]);
    }
  }

  /** Groups of the lines of a split hold no newline. */
  lemma GroupsNewlineFree(lines: seq<string>, maxChunkSize: int)
    requires forall j :: 0 <= j < |lines| ==> NL !in lines[j]
    ensures NewlineFree(Groups(lines, maxChunkSize))
  {
    var gs := Groups(lines, maxChunkSize);
    if lines != [] {
      FillPartition(lines, maxChunkSize);
      forall k, j | 0 <= k < |gs| && 0 <= j < |gs[k]|
        ensures NL !in gs[k][j]
      {
        FlattenHas(gs, k, j);
      }
    }
  }

  /** Every line of every group occurs in the flattening. */
  lemma {:induction false} FlattenHas(groups: seq<seq<string>>, k: int, j: int)
    requires 0 <= k < |groups| && 0 <= j < |groups[k]|
    ensures groups[k][j] in Flatten(groups)
    decreases |groups|
  {
    if k < |groups| - 1 {
      FlattenHas(groups[..|groups| - 1], k, j);
    } else {
      var last := groups[|groups| - 1];
      assert Flatten(groups)[|Flatten(groups[..|groups| - 1])| + j] == last[j];
    }
  }

  // ---------------------------------------------------------------------
  // Properties of the chunk strings split_yaml returns

  /** Round trip: the chunks concatenate to the input plus one newline, and
      they are the renderings of a partition of the input's lines. */
  lemma ChunksRoundTrip(yaml: string, maxChunkSize: int)
    ensures Flatten(Groups(Split(yaml), maxChunkSize)) == Split(yaml)
    ensures Concat(Chunks(yaml, maxChunkSize)) == yaml + [NL]
  {
    var lines := Split(yaml);
    FillPartition(lines, maxChunkSize);
    ConcatRenderAll(Groups(lines, maxChunkSize));
    UnlinesSplit(yaml);
  }

  /** The result is never empty; an empty chunk is only the first, exactly
      when the first line is longer than the limit; every other chunk is
      non-empty and ends in a newline. */
  lemma ChunksShape(yaml: string, maxChunkSize: int)
    ensures |Chunks(yaml, maxChunkSize)| >= 1
    ensures forall k :: 0 <= k < |Chunks(yaml, maxChunkSize)| ==>
      (Chunks(yaml, maxChunkSize)[k] == [] <==> k == 0 && |Split(yaml)[0]| > maxChunkSize)
    ensures forall k :: 0 <= k < |Chunks(yaml, maxChunkSize)| && Chunks(yaml, maxChunkSize)[k] != [] ==>
      Chunks(yaml, maxChunkSize)[k][|Chunks(yaml, maxChunkSize)[k]| - 1] == NL
  {
    var lines := Split(yaml);
    var gs := Groups(lines, maxChunkSize);
    FillEmptyGroup(lines, maxChunkSize);
    forall k | 0 <= k < |gs|
      ensures Unlines(gs[k]) == [] <==> gs[k] == []
    {
    }
  }

  /** An empty input gives one chunk holding a single newline (for a
      negative limit the empty first line already "overflows", and an empty
      chunk comes first). */
  lemma ChunksOfEmpty(maxChunkSize: int)
    requires maxChunkSize >= 0
    ensures Chunks([], maxChunkSize) == [[NL]]
  {
    assert Split([]) == [[]];
    var lines: seq<string> := [[]];
    var f := Fill(lines, maxChunkSize);
    assert lines[..0] == [];
    assert f == Layout([], [[]]);
    assert Groups(lines, maxChunkSize) == [[[]]];
    assert Unlines([[]]) == [NL];
  }

  /** Size bound: a chunk longer than `maxChunkSize + 1` holds at most one
      line (one newline); an oversized line is emitted whole. */
  lemma ChunksSizeBound(yaml: string, maxChunkSize: int)
    ensures forall k :: 0 <= k < |Chunks(yaml, maxChunkSize)| && |Chunks(yaml, maxChunkSize)[k]| > maxChunkSize + 1 ==>
      multiset(Chunks(yaml, maxChunkSize)[k])[NL] <= 1
  {
    var lines := Split(yaml);
    var gs := Groups(lines, maxChunkSize);
    FillBounded(lines, maxChunkSize);
    GroupsNewlineFree(lines, maxChunkSize);
    forall k | 0 <= k < |gs|
      ensures multiset(Unlines(gs[k]))[NL] == |gs[k]|
      ensures Bounded(gs[k], maxChunkSize)
    {
      UnlinesNewlines(gs[k]);
      assert gs[k] in gs;
    }
  }

  /** Greedy boundaries: each chunk was closed only because adding the next
      chunk's first line (without its newline) would exceed the limit. */
  lemma ChunksGreedy(yaml: string, maxChunkSize: int)
    ensures forall k :: 1 <= k < |Chunks(yaml, maxChunkSize)| ==>
      |Chunks(yaml, maxChunkSize)[k - 1]| + |Split(Chunks(yaml, maxChunkSize)[k])[0]| > maxChunkSize
  {
    var lines := Split(yaml);
    var gs := Groups(lines, maxChunkSize);
    FillGreedy(lines, maxChunkSize);
    GroupsNewlineFree(lines, maxChunkSize);
    forall k | 1 <= k < |gs|
      ensures Split(Unlines(gs[k]))[0] == gs[k][0]
    {
      FirstOfUnlines(gs[k]);
    }
  }

  // ---------------------------------------------------------------------
  // matchyaml's choice of chunks

  /** The chunks matchyaml sends for review: the whole content as one chunk
      when it is at most 3800 characters, otherwise split_yaml's chunks with
      the default limit. Every chunk sent is within the limit (plus its last
      newline) unless it is a single line. */
  function SelectChunks(content: string): (r: seq<string>)
    ensures |r| >= 1
    ensures |content| <= DefaultMaxChunkSize ==> r == [content]
    ensures |content| > DefaultMaxChunkSize ==> Concat(r) == content + [NL]
    ensures forall k :: 0 <= k < |r| && |r[k]| > DefaultMaxChunkSize + 1 ==> multiset(r[k])[NL] <= 1
  {
    if |content| > DefaultMaxChunkSize then
      ChunksRoundTrip(content, DefaultMaxChunkSize);
      ChunksShape(content, DefaultMaxChunkSize);
      ChunksSizeBound(content, DefaultMaxChunkSize);
      Chunks(content, DefaultMaxChunkSize)
    else
      [content]
  }
}
