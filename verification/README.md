# ansible-gpt text preparation, modelled in Dafny

The ansible-lint rule `openai-input` (`ansible_lint/rules/gpt.py`) sends
Ansible YAML to a chat-completion service for review. Before sending, it
prepares the text locally:

- `clean_yaml` drops blank lines and whole-line comments. A line is kept,
  unmodified, when `line.strip()` is non-empty and does not start with `#`.
  The kept lines are rejoined with `"\n"`.
- `split_yaml` cuts the text into chunks of whole lines, greedily. The
  accumulator is closed as a chunk when `len(current_chunk + line)` exceeds
  `max_chunk_size` (default 3800). The line and a newline are then always
  appended.
- `matchyaml` sends content of at most 3800 characters as one chunk. Longer
  content goes through `split_yaml` with the default limit.

The project has three modules:

- `Lines` (`lines.dfy`) models Python's `str.split("\n")`, `"\n".join` and
  `"".join`, plus `Unlines`, the text that `acc += line + "\n"` builds. It
  proves the split/join round trips these operations need.
- `Chunker` (`chunker.dfy`) models `split_yaml` as the method `SplitYaml`,
  whose loop mirrors the source. Its specification is `Chunks`. The function
  `Fill` replays the loop on the list of lines, giving the closed groups of
  lines and the open group that the accumulator holds. A chunk is one group
  rendered with every line newline-terminated. The lemmas prove the
  partition, size-bound, greedy-boundary and empty-chunk properties, first
  for the groups and then for the chunk strings. `SelectChunks` models the
  choice in `matchyaml`.
- `Cleaner` (`cleaner.dfy`) models `clean_yaml` as the method `CleanYaml`,
  whose loop mirrors the source. Its specification is `Clean`. The lemmas
  characterise the kept lines and prove that the output is clean, has no
  trailing newline and is unchanged by a second cleaning.

The model follows the code, including these edge cases:

- `"".split("\n")` is `[""]`, so an empty text gives the single chunk
  `"\n"`, not an empty list (`ChunksOfEmpty`, for a limit of zero or more).
- When the first line alone is longer than the limit, the first chunk
  emitted is `""` (`ChunksShape`).
- The length test before each append does not count the newline about to be
  added. A chunk of two or more lines can therefore be `max_chunk_size + 1`
  characters long, one more than the nominal maximum (`ChunksSizeBound`).
- The limit is an unbounded integer. Zero and negative limits behave as the
  Python code does.

## Model

| member | source | states |
|---|---|---|
| Chunker.SplitYaml | ansible_lint/rules/gpt.py:25-38 | the loop of split_yaml returns exactly the chunk list of the greedy grouping of the input's lines |
| Chunker.Fill | ansible_lint/rules/gpt.py:29-33 | before any line the accumulator is empty; after one or more lines it holds at least one line |
| Chunker.Groups | ansible_lint/rules/gpt.py:35-36 | the trailing accumulator is emitted exactly when it is non-empty; an empty line list gives no groups |
| Chunker.FillPartition | ansible_lint/rules/gpt.py:29-33 | the groups, read in order, are exactly the input lines: each appears once, in place, never split |
| Chunker.FillBounded | ansible_lint/rules/gpt.py:30-33 | every group of two or more lines renders to at most max_chunk_size + 1 characters |
| Chunker.FillFits | ansible_lint/rules/gpt.py:30-33 | each line after a group's first was added because the group so far plus that line's text did not exceed the limit |
| Chunker.FillGreedy | ansible_lint/rules/gpt.py:30-32 | a group is closed only when the group plus the next group's first line (without newline) exceeds the limit |
| Chunker.FillEmptyGroup | ansible_lint/rules/gpt.py:29-33 | an empty group occurs only first, and exactly when the first line is longer than the limit |
| Chunker.ChunksRoundTrip | ansible_lint/rules/gpt.py:29-36 | the chunks partition the split lines, and concatenated they give the input plus one newline |
| Chunker.ChunksShape | ansible_lint/rules/gpt.py:29-36 | the result is never empty; a chunk is "" only as the first one and exactly when the first line exceeds the limit; every other chunk ends in a newline |
| Chunker.ChunksOfEmpty | ansible_lint/rules/gpt.py:29-36 | for a non-negative limit, an empty input gives the one chunk "\n" |
| Chunker.ChunksSizeBound | ansible_lint/rules/gpt.py:30-33 | a chunk longer than max_chunk_size + 1 holds at most one newline, so an oversized line is emitted whole in its own chunk |
| Chunker.ChunksGreedy | ansible_lint/rules/gpt.py:30-32 | for consecutive chunks, the length of the first plus the next chunk's first line exceeds the limit |
| Chunker.SelectChunks | ansible_lint/rules/gpt.py:85-88 | content of length <= 3800 is sent unchanged as one chunk; longer content is split with limit 3800, and its chunks concatenate to the content plus a newline; every chunk is within 3801 characters or holds one line |
| Cleaner.CleanYaml | ansible_lint/rules/gpt.py:41-47 | the loop of clean_yaml returns the newline-join of the input lines that pass the strip/comment test |
| Cleaner.TrimLeftSpec | ansible_lint/rules/gpt.py:45 | the left half of strip removes exactly the leading whitespace |
| Cleaner.TrimRightSpec | ansible_lint/rules/gpt.py:45 | the right half of strip removes exactly the trailing whitespace |
| Cleaner.IsContentIff | ansible_lint/rules/gpt.py:45 | a line is kept iff its first non-whitespace character exists and is not '#'; indentation and inline '#' text do not matter |
| Cleaner.Filter | ansible_lint/rules/gpt.py:44-46 | every kept line passes the test |
| Cleaner.FilterSubsequence | ansible_lint/rules/gpt.py:44-46 | the kept lines are a subsequence of the input: original order, unmodified |
| Cleaner.FilterCounts | ansible_lint/rules/gpt.py:44-46 | each line that passes the test is kept as often as it occurs in the input, and no other line is kept |
| Cleaner.FilterKept | ansible_lint/rules/gpt.py:44-46 | lines that all pass the test are kept unchanged |
| Cleaner.FilterEmpty | ansible_lint/rules/gpt.py:44-46 | nothing is kept exactly when no line passes the test |
| Cleaner.CleanEmpty | ansible_lint/rules/gpt.py:44-47 | the output is "" exactly when no input line passes the test |
| Cleaner.CleanOutputLines | ansible_lint/rules/gpt.py:42-47 | a non-empty output splits back into exactly the kept lines, none blank or a whole-line comment |
| Cleaner.CleanIdempotent | ansible_lint/rules/gpt.py:42-47 | cleaning twice equals cleaning once |
| Cleaner.CleanNoTrailingNewline | ansible_lint/rules/gpt.py:47 | the output never ends with a newline |
| Lines.JoinSplit | ansible_lint/rules/gpt.py:44-47 | joining the pieces of split("\n") with "\n" gives the original text |
| Lines.SplitJoin | ansible_lint/rules/gpt.py:44-47 | splitting a "\n"-join of newline-free lines gives those lines back |
| Lines.UnlinesSplit | ansible_lint/rules/gpt.py:29-33 | appending every split line plus a newline rebuilds the text with one trailing newline |

## Left out

- plugins/callback/openai.py is not part of this model. It wraps the remote
  completion API, uses floating-point temperatures and handles the Ansible
  callback lifecycle.
- The import-time checks of the environment and of the openai library
  (gpt.py:3-22) are left out. They are process I/O.
- The rest of `matchyaml` is left out: prompt templating, the shared
  `_kwargs` request dictionary, the remote call with its exception path, and
  the framework's match objects. These are network I/O or belong to a
  foreign base class.
- Strip, TrimLeft, TrimRight: whitespace is the ASCII subset that Python's
  `str.strip()` removes (space, `\t`, `\n`, `\v`, `\f`, `\r`, 0x1C-0x1F).
  Non-ASCII whitespace such as U+0085, U+00A0 and U+2000-U+200A is not
  treated as whitespace.
- SplitYaml: Python's default argument `max_chunk_size=3800` becomes an
  explicit parameter; `SelectChunks` passes 3800.
- SelectChunks: it is stated on the specification function `Chunks`, not
  by calling the method `SplitYaml`, because a function cannot call a
  method. `SplitYaml`'s postcondition makes the two equal.
