# genshin-api-scanner: report formatter and share message, in Dafny

This project models the two text-processing halves of the scanner's core.
The scanner asks the game-packages API for the current download links.

- **The report formatter** (`Report`) turns a decoded API response into the
  report text. It takes the response (`Api`) and behaves as follows:
  - A non-zero `retcode` becomes the error `API returned an error: <message>`.
  - Otherwise, for every listed game it writes either
    `No major version data available.`, or a `Game Packages:` section and an
    `Audio Packages:` section.
  - The `Game Packages:` section holds a five-line block per game archive:
    `[Part n]`, `[URL] …`, `[Size] …GB`, `[Decompressed Size] …GB` and a blank
    line.
  - The `Audio Packages:` section holds the same kind of block per voice-over
    archive, headed `[Language] code`.
- **The share-message converter** (`Share`) turns such a report text back into
  the short message the user copies:
  - it trims every line and drops the empty ones;
  - it splits the lines into the game and audio regions at the two section
    headers, where the last header seen wins;
  - it groups each region at its marker lines (`[Part`, `[Language] `);
  - it keeps the last `[URL] ` and the last `[Size] ` value of each group;
  - it writes `Part n (sizeGB):\nurl\n` entries, then the fixed audio hint,
    then `label (sizeGB):\nurl\n` entries.

  `Share.ConvertToMessage` is the imperative algorithm, with the source's
  index loops. `Share.ShareMessage` is its functional reference definition,
  and the method is proved equal to it.

`Text` holds the string operations the two halves use, each modelled on its
Rust counterpart:
- `lines`, `trim`, `starts_with`;
- `replace(p, "")`, a single left-to-right non-overlapping pass;
- `trim_start_matches` and `trim_end_matches`, which strip repeatedly;
- decimal rendering of the part number.

`RoundTrip` connects the two halves. For any successful response whose fields
can be read back, the share message of the report lists, in response order:
1. every game archive as `Part k` with its rendered size and URL;
2. then the hint;
3. then every audio archive under its language label.

The fields can be read back when:
- no field contains a newline;
- URLs and language codes have no surrounding whitespace and do not contain
  the prefix written before them;
- language codes are non-empty;
- a rendered size has no surrounding whitespace and contains no `[` or `G`.
  The program's rendering, `{:.2}` of an `f64`, writes only digits, `.`, `-`,
  `inf` or `NaN`, so it always meets this condition.

"Whitespace" here is Rust's `char::is_whitespace`, which `trim` uses: tab
through carriage return, space, and the non-ASCII Unicode spaces and
separators such as U+00A0.

The report has no version header and writes the raw language code. The
audio label is computed in two steps:
1. the code is looked up in the four-entry language table, and a code not in
   the table stands for itself;
2. the words `Chinese` and `English` are then reworded.

So a raw language code that is itself `Chinese` or `English` is reworded too,
which `Share.AudioLabel` states.

The response's `retcode` is `Api.Int32`, bounded as the source's 32-bit
integer is. No arithmetic is done on it.

Rendering a size is a parameter `fmt: string -> string` of the formatter.
In the source this is `bytes_to_gb` followed by `{:.2}`.

## Model

| member | source | states |
|---|---|---|
| Report.FormatReport | src/main.rs:177-218 | The report is an error exactly when `retcode` is non-zero, and the error text is the fixed prefix followed by the response's message. |
| Report.EntryLines | src/main.rs:184-215 | A game without a major release contributes exactly the sentinel line `No major version data available.`. A game with one contributes exactly its two sections. |
| Report.GameBlocks | src/main.rs:187-198 | The game section's body has exactly five lines per game archive. |
| Report.AudioBlocks | src/main.rs:202-212 | The audio section's body has exactly five lines per audio archive. |
| Report.MajorLines | src/main.rs:185-212 | A major release writes two header lines plus five lines per game archive and five per audio archive. |
| Report.MajorLayout | src/main.rs:185-212 | The section layout: the `Game Packages:` header, then block k at line 1+5k with its part number k+1, URL, size and decompressed size. Then the `Audio Packages:` header, then one block per audio archive with its language code, URL and sizes. |
| Report.GameBlocksLayout | src/main.rs:187-198 | Archive k's five-line block, numbered `first + k`, occupies lines 5k to 5k+4 of the run of game blocks. |
| Report.AudioBlocksLayout | src/main.rs:202-212 | Audio archive k's block occupies lines 5k to 5k+4 of the audio section, in response order. |
| Report.ReportTextAppend | src/main.rs:183-216 | Appending a game to the response appends that game's lines to the report text. |
| Report.PartLinesNumbered | src/main.rs:187-191 | The `[Part` lines of a major release are exactly `[Part 1]` to `[Part n]`, one per game archive, in order. The audio section contributes none. |
| Report.GameBlocksPartLines | src/main.rs:187-191 | A run of game blocks numbered from `first` has exactly one `[Part` line per archive, carrying consecutive numbers. |
| Report.AudioBlocksNoPartLines | src/main.rs:202-212 | Audio blocks contain no `[Part` line. |
| Share.CleanAppend | src/main.rs:231-235 | Line cleaning works line by line: cleaning a concatenation is the concatenation of the cleaned parts. |
| Share.RegionsHaveNoHeaders | src/main.rs:243-259 | Neither region ever contains a section header line. |
| Share.RegionOfNextLine | src/main.rs:243-259 | A non-header line goes to the game region exactly when the last header before it was `Game Packages:`, and to the audio region exactly when it was `Audio Packages:`. Lines before any header are dropped. |
| Share.MostRecentHeader | src/main.rs:243-259 | After a header followed by header-free lines, the state is the one that header selects. |
| Share.SplitAppend | src/main.rs:243-259 | Splitting is incremental: the regions of a concatenation are the regions of the first part, extended by the regions of the second part, which starts in the state the first part left. |
| Share.SplitRegions | src/main.rs:238-259 | The splitting loop computes the regions of the functional split. |
| Share.RunLengthMaximal | src/main.rs:262-288 | Lines before the first marker line are skipped, and the line after them is a marker, if there is one. |
| Share.GroupsPartition | src/main.rs:262-288 | The groups cover every line from the first marker on, in order, with nothing lost or duplicated. |
| Share.GroupsHeads | src/main.rs:262-288 | The groups' head lines are exactly the region's marker lines, in order. |
| Share.GroupsAppend | src/main.rs:262-288 | Grouping a concatenation whose second part starts at a marker concatenates the groups of both parts. |
| Share.EntriesMatchMarkers | src/main.rs:262-288 | A region yields exactly one entry per marker line, in the order the markers occur, and entry k is titled after marker line k. |
| Share.LastWithSpec | src/main.rs:272-283 | The value found is absent exactly when no line of the group starts with the prefix. Otherwise it is taken from the last such line. |
| Share.ValuesSnoc | src/main.rs:272-283 | A `[URL] ` line overrides the URL, a `[Size] ` line overrides the size, and any other line leaves both alone (last write wins). |
| Share.DecompressedLineKeepsSize | src/main.rs:276-281 | A `[Decompressed Size]` line does not disturb the size or the URL of its group. |
| Share.ScanGroup | src/main.rs:272-283 | The inner scan stops at the next marker line or at the end of the region, with no marker in between. It returns the last URL and the last size seen in that span. |
| Share.EmitStep | src/main.rs:262-288 | One pass of the outer loop emits the text of the entries between its start and its stopping point. It always advances. |
| Share.EmitEntries | src/main.rs:262-288 | The outer loop writes the rendering of the region's entries. |
| Share.ConvertToMessage | src/main.rs:227-340 | The converter's result is the reference message: the part entries, then the hint, then the audio entries. |
| Share.ShareMessage | src/main.rs:227-340 | The reference definition of the message: the part entries of the game region, then the hint, then the audio entries of the audio region. Its own contract states only that the message is never shorter than the hint. The lemmas `Share.EntriesMatchMarkers`, `Share.NoHeadersYieldHint` and `RoundTrip.RoundTrip` state its content. |
| Share.NoHeadersYieldHint | src/main.rs:291 | Text without a section header yields the hint alone. |
| Share.EmptyInputYieldsHint | src/main.rs:291 | Empty input yields the hint alone. |
| Share.JunkLineKeepsEntries | src/main.rs:304-336 | A trailing line that is neither a marker, a URL line nor a size line changes no entry. |
| Share.AudioLabel | src/main.rs:294-331 | The known codes map to `China`, `English - If anything else`, `Korean` and `Japanese`. The words `Chinese` and `English` map the same way. Every other code passes through unchanged. |
| Share.PartNumberOfPartLine | src/main.rs:264-267 | Reading the number back from a `[Part n]` line gives the decimal text of n. |
| Text.SelectSpec | src/main.rs:264 | The selected lines are exactly the lines that start with the marker. |
| Text.TrimStartSpec | src/main.rs:233 | `trim` drops exactly the leading whitespace: every dropped character is whitespace, the kept text is a suffix of the input, and it starts with a non-whitespace character. |
| Text.TrimEndSpec | src/main.rs:233 | `trim` drops exactly the trailing whitespace: every dropped character is whitespace, the kept text is a prefix of the input, and it ends with a non-whitespace character. |
| Text.TrimSpec | src/main.rs:233 | Trimming leaves no leading or trailing whitespace and never lengthens. It leaves trimmed text alone and sends all-space text to the empty string. |
| Text.TrimStartMatches | src/main.rs:265-267 | Stripping a leading pattern leaves a suffix of the input that no longer starts with the pattern, and leaves input without a leading copy unchanged. |
| Text.TrimStartMatchesCopies | src/main.rs:265-267 | What `trim_start_matches` drops is exactly some number of back-to-back copies of the pattern. |
| Text.TrimEndMatches | src/main.rs:265-267 | Stripping a trailing pattern leaves a prefix of the input that no longer ends with the pattern, and leaves input without a trailing copy unchanged. |
| Text.TrimEndMatchesCopies | src/main.rs:265-267 | What `trim_end_matches` drops is exactly some number of back-to-back copies of the pattern. |
| Text.RemoveAll | src/main.rs:274-281 | `replace(p, "")` never lengthens the text, and leaves text without an occurrence of `p` unchanged. |
| Text.RemoveAllFirst | src/main.rs:274-278 | `replace(p, "")` keeps the text before the leftmost occurrence of `p`, deletes that occurrence and continues after it. With the no-occurrence case of `Text.RemoveAll` this fixes the result on every input. |
| Text.RemoveAllAt | src/main.rs:274-278 | Before the first occurrence of `p`, `replace(p, "")` copies the text unchanged. |
| Text.RemoveAllLeading | src/main.rs:305 | An occurrence of the pattern at the front is deleted and the scan goes on after it. |
| Text.RemoveAllTrailing | src/main.rs:277-281 | Removing `GB` from a size written just before `GB` gives the size back when the size has no `G`. |
| Text.Lines | src/main.rs:230-232 | Splitting into lines gives no lines exactly for the empty text, and never more lines than characters. |
| Text.CutAtLineEnd | src/main.rs:230-232 | The first line of a text with a newline is everything before the first newline, and the rest of the lines come from the text after it. |
| Text.LinesNoNewline | src/main.rs:230-232 | No line contains a newline. |
| Text.LinesOfJoinLines | src/main.rs:230-233 | Splitting newline-terminated lines that contain no newline gives the lines back. |
| Text.JoinLinesOfLines | src/main.rs:230-233 | Joining the lines of a text gives the text back, with a final newline added when it had none. |
| Text.NatToStringValue | src/main.rs:188-191 | The decimal text of a part number reads back as that number and has no leading zero: it starts with `0` exactly when the number is zero. |
| RoundTrip.UrlReadBack | src/main.rs:272-277 | The URL read back from a written `[URL] ` line is the URL that was written. |
| RoundTrip.SizeReadBack | src/main.rs:278-281 | The size read back from a written `[Size] …GB` line is the rendered size that was written. |
| RoundTrip.LanguageReadBack | src/main.rs:304-306 | The language code read back from a written `[Language] ` line is the code that was written. |
| RoundTrip.PartsOfBlock | src/main.rs:187-288 | One cleaned game block reads back as exactly one part entry with its number, size and URL. |
| RoundTrip.AudioOfBlock | src/main.rs:202-337 | One cleaned audio block reads back as exactly one audio entry with its label, size and URL. |
| RoundTrip.ReportRegions | src/main.rs:183-259 | The regions of a report read back as the expected part entries and audio entries of every listed game, in order. |
| RoundTrip.RoundTrip | src/main.rs:177-340 | For a successful response with readable fields, the report formats without error. Its share message lists every game archive as `Part k` with size and URL, then the hint, then every audio archive under its label, in response order. |

## Left out

- The desktop window is not modelled: its widgets, button handlers and clipboard (`src/main.rs:69-154`, `156-163`). These are UI and I/O.
- The HTTP request is not modelled (`src/main.rs:167-172`). It is network I/O.
- JSON decoding is not modelled (`src/main.rs:174-175`). Its parse-error path is a serde failure that is out of scope. The model starts from the decoded records in `Api`.
- `bytes_to_gb` and the `{:.2}` rendering are not modelled. They are floating-point arithmetic and formatting, and enter as the rendering parameter `fmt`.
- `Text.Lines` splits on `\n` only. Rust's `lines` also drops a `\r` before the `\n`, which the following trim removes anyway.
- The md5 checksums, the version label and the game id are kept in the records but never read, as in the code.
- The byte layout of strings is not modelled: strings are sequences of characters.
- Concurrency is not modelled: the program runs the request on a spawned thread.
- Share.ShareMessage: its own contract is only a length bound. It is the reference definition, and its content is stated by the lemmas about it rather than by a body-repeating ensures.
- RoundTrip.RoundTrip: requires non-empty language codes. A `[Language] ` line with an empty code trims to `[Language]`, which is not a marker, so that archive's lines merge into the previous group.
