# Python caption backend: a Dafny model

This project models the caption-extraction core of the Python/FastAPI backend of a YouTube
subtitle service. Given a YouTube URL and a language code (default `ko`), the backend works
in four steps:

1. It extracts the video ID from the URL.
2. It first tries the yt-dlp Python API: it takes the video's metadata, looks up a caption
   track for the requested language, and falls back to English for Korean.
3. If that stage finds nothing, it runs the yt-dlp command line into a temporary directory,
   picks the first `.vtt`/`.srt` file written there, and reduces that file to plain text.
4. It answers with the text, an empty `subtitles` list and a short summary of the video.

A separate utility module turns caption documents (timed-text XML, timed-text JSON, plain
lines, transcript-API records) into subtitle items with start, duration, formatted start and
end.

The model is in seven files and seven modules:

| file | module | what it holds |
|---|---|---|
| `wrappers.dfy` | `Wrappers` | `Option` and `dict.get`-style defaults. |
| `strings.dfy` | `Strings` | The Python `str` operations the core uses (`strip`, `split`, `join`, `replace`, `in`, `startswith`, `endswith`, `isdigit`, `str(int)`) and `os.path.basename`, with their laws. |
| `seqs.dfy` | `Seqs` | The shape shared by every loop that appends to a list. Each element is skipped, emits one value, or raises. `FilterMap` is the resulting list and `Collect` the list-or-exception. `KeptIndices` gives the ascending source index of every output element. |
| `scan.dfy` | `Scan` | Leftmost `re.search` of a literal followed by a maximal run of a character class. This is the shape every regular expression in the core has. |
| `subtitle_utils.dfy` | `SubtitleUtils` | `app/utils/subtitle_utils.py`. |
| `youtube_utils.dfy` | `YoutubeUtils` | `app/utils/youtube_utils.py`. |
| `subtitle_service.dfy` | `SubtitleService` | `app/services/subtitle_service.py`. |

Every Python loop that builds a result is a Dafny `method` with a `for`/`while` loop, proved
equal to a specification function: `FilterMap`/`Collect` of a per-element step, or a recursive
function. There are three exceptions, each inside an expression the model keeps as a function:
- the pattern loop of `extract_video_id` (`youtube_utils.py:28-31`) is the recursive
  `FirstSome` over the five pattern results, inside the function `ExtractVideoId`;
- the list comprehension over the directory listing (`subtitle_service.py:128-132`) is
  `FilterMap` in the function `SubtitleFiles`;
- the loop of `process_subtitle_entries` (`youtube_utils.py:226-231`) has an empty body, so the
  function `ProcessSubtitleEntries` returns its constant result.
 The lemmas state what the source promises about those functions:
- the fields of each item;
- document order and which elements are dropped;
- when an exception empties the result;
- the order of the caption-source cascade and the language fallback;
- the stage order of the service.

A dictionary the source iterates in insertion order (`subtitles`, `automatic_captions`) is an
association list `seq<(string, seq<TrackFormat>)>`. A missing key, a `None` value and an
empty dictionary are all falsy at the places the source tests them, and they are modelled
alike as an absent entry.

`str(x)` of a float and `float()` of such a string round-trip exactly. So a time field is a
`TimeText`: either the characters the source captured or wrote (`Written`), or a float that
was rendered (`Rendered`). `float()` of `Written` characters is `ParseDecimal`. The `[\d.]+` capture hands it only
digits and dots. `ParseDecimal` accepts them when there is at most one dot and at least one
digit, and rejects them, like `float`, otherwise.

The calls that leave the program are parameters of the Dafny members:
- `html.unescape` is `decode: string -> string`;
- `json.loads` is `loads: string -> JsonOutcome`;
- `extract_info` is an `InfoOutcome` (metadata, or the exception's message);
- the command-line run, the directory listing and the file reads together are a `FileRun`;
- `process_subtitle_entries` is the function parameter `process` of the cascade.

**`process_subtitle_entries` returns `None`.** The function at
`python-backend/app/utils/youtube_utils.py:220-238` loops over the track formats, does nothing
with them, and has no `return`, so every call returns `None`. The model keeps it as
`YoutubeUtils.ProcessSubtitleEntries`. It proves the following:
- the cascade of `extract_subtitle_text` then never yields a truthy text
  (`SubtitleTextAsWritten`);
- the API stage of the service therefore never succeeds (`AsWrittenReachesFileStage`);
- every request with a valid URL reaches the command-line file stage (`SubtitleService.GetSubtitles`).

The cascade itself is modelled for an arbitrary `process`, so its ordering lemmas also hold for
a processor that does return text.

Four behaviours of the code that the model keeps as written:
- **Video ID.** `extract_video_id` has no 11-character check and no `/shorts/` pattern. It
  returns any non-empty run of characters other than `/`, `?` and `&`. The fifth pattern is
  `youtube.com/.*\?.*v=`, so its capture follows the *last* `v=` on the first line that
  qualifies.
- **Unreadable start time.** A chunk whose `start` is not a number does not drop just that
  chunk. `float(start)` raises, `process_subtitles` catches the exception, and the whole
  `subtitles` list is empty (`ProcessXmlUnreadableStart`).
- **Channel default.** The fallback channel name is `Unknown Channel`.
- **English fallback.** It applies only when the requested language is `ko`.

## Model

| member | source | states |
|---|---|---|
| SubtitleUtils.ParseDecimalNat | python-backend/app/utils/subtitle_utils.py:259-266 | `float(str(n))` reads back exactly `n` for every natural `n`, the plain-branch start times. |
| SubtitleUtils.ParseDecimalTwoDots | python-backend/app/utils/subtitle_utils.py:108-116 | A captured start such as `1.2.3` (two dots, whatever follows) is rejected by `float`. |
| SubtitleUtils.MinutesFloor | python-backend/app/utils/subtitle_utils.py:29-31 | The minute count is `total // 60` and the seconds are `total % 60`, with floor semantics for negative totals too. |
| SubtitleUtils.Pad2Digits | python-backend/app/utils/subtitle_utils.py:32 | `{:02d}` of a natural writes only digits, at least two of them, denoting the same number. Below 60 it writes exactly two. |
| SubtitleUtils.FormatTimeClock | python-backend/app/utils/subtitle_utils.py:27-32 | For any non-negative time the result is `MM:SS`: digits, a colon, two digits under 60. The minutes are `floor(x) / 60` and minutes·60 + seconds is `floor(x)`. |
| SubtitleUtils.FormatTimeWholeSeconds | python-backend/app/utils/subtitle_utils.py:27-32 | For `n` whole seconds the two fields denote `n / 60` and `n % 60`. |
| SubtitleUtils.FormatTimeNonNumeric | python-backend/app/utils/subtitle_utils.py:33-35 | A non-numeric argument gives `00:00`, the same as any time in [0, 1). |
| SubtitleUtils.RemoveTags | python-backend/app/utils/subtitle_utils.py:120 | Every character of the result occurs in the input. |
| SubtitleUtils.RemoveTagsDeletes | python-backend/app/utils/subtitle_utils.py:120 | Tag removal only deletes: the result is a subsequence of the input, with its characters in the input's order. |
| SubtitleUtils.RemoveTagsTagFree | python-backend/app/utils/subtitle_utils.py:120 | After `re.sub(r'<[^>]+>', '', …)` no `<…>` tag with a non-empty body remains. |
| SubtitleUtils.RemoveTagsOnTagFree | python-backend/app/utils/subtitle_utils.py:120 | Text without a tag comes through unchanged. |
| SubtitleUtils.RemoveTagsIdempotent | python-backend/app/utils/subtitle_utils.py:120 | Removing tags twice is the same as removing them once. |
| SubtitleUtils.RemoveTagsPlainText | python-backend/app/utils/subtitle_utils.py:120 | Text with no `<` is unchanged. |
| SubtitleUtils.XmlChunkItem | python-backend/app/utils/subtitle_utils.py:103-128 | One chunk: skipped when blank or missing `start`/`dur`, raises when `float(start)` fails, else the item. Equals `XmlStep`. |
| SubtitleUtils.ExtractXmlItems | python-backend/app/utils/subtitle_utils.py:95-130 | Deletes the prologue and `</transcript>`, splits on `</text>`, and yields the chunk items, or the exception when any chunk raises. |
| SubtitleUtils.XmlChunkLoop | python-backend/app/utils/subtitle_utils.py:102-128 | The chunk loop appends each emitted item in order and stops with the exception at the first raising chunk. |
| SubtitleUtils.XmlItemFields | python-backend/app/utils/subtitle_utils.py:108-127 | An XML item carries exactly the captured `start` and `dur`, `duration == dur`, `startFormatted == format_time(float(start))`, and the chunk text with tags removed, which is tag-free. |
| SubtitleUtils.XmlChunkKept | python-backend/app/utils/subtitle_utils.py:103-128 | A non-blank chunk with both attributes and a readable start always yields an item. |
| SubtitleUtils.XmlChunkSkipped | python-backend/app/utils/subtitle_utils.py:103-111 | A chunk is skipped if and only if it is blank or lacks `start` or `dur`. |
| SubtitleUtils.XmlItemsAtMostChunks | python-backend/app/utils/subtitle_utils.py:102-105 | There are never more items than non-blank chunks. |
| SubtitleUtils.XmlItemsOnePerElement | python-backend/app/utils/subtitle_utils.py:102-128 | If every non-blank chunk is a well-formed element, nothing raises and there is exactly one item per non-blank chunk. |
| SubtitleUtils.XmlItemsInOrder | python-backend/app/utils/subtitle_utils.py:102-128 | When nothing raises, item `k` comes from chunk `idx[k]`, the indices ascend, and they are exactly the chunks that are well-formed elements: document order, nothing invented, nothing well-formed lost. |
| SubtitleUtils.SegmentsTextAppend | python-backend/app/utils/subtitle_utils.py:157-161 | The text of concatenated segment lists is the concatenation of their texts. |
| SubtitleUtils.SegmentsTextOne | python-backend/app/utils/subtitle_utils.py:159-161 | One segment contributes its `utf8` text, or nothing when it has none. |
| SubtitleUtils.JoinSegments | python-backend/app/utils/subtitle_utils.py:157-161 | The inner loop's text is the `utf8` pieces of the segments joined in order. |
| SubtitleUtils.EventToItem | python-backend/app/utils/subtitle_utils.py:147-170 | One event becomes its item, or nothing when its text is blank (equals `JsonStep`). |
| SubtitleUtils.ExtractJsonItems | python-backend/app/utils/subtitle_utils.py:142-172 | The items are those of the events in order. A payload without `events` gives none. |
| SubtitleUtils.JsonEventLoop | python-backend/app/utils/subtitle_utils.py:146-170 | The event loop appends each non-blank event's item in order. |
| SubtitleUtils.JsonItemFields | python-backend/app/utils/subtitle_utils.py:148-169 | A JSON item's start reads as `tStartMs/1000` (default 0) and its dur as `dDurationMs/1000` (default 2). Also `duration == dur`, the formatted start matches, and the text is the stripped, non-empty segment text. |
| SubtitleUtils.JsonBlankEventDropped | python-backend/app/utils/subtitle_utils.py:163 | An event whose joined text is all whitespace yields no item. |
| SubtitleUtils.EnhanceItem | python-backend/app/utils/subtitle_utils.py:65-80 | One item: raises unless both times read as numbers, else the enhanced item (equals `EnhanceStep`). |
| SubtitleUtils.EnhanceItems | python-backend/app/utils/subtitle_utils.py:62-82 | The enhanced list in order, or the exception when some item's times do not read. |
| SubtitleUtils.EnhanceStepFields | python-backend/app/utils/subtitle_utils.py:65-79 | One step raises if and only if `start` or `dur` is not a number. Otherwise it decodes the text, keeps `start`/`dur`, sets `duration = dur` and `end = start + dur`, and keeps or adds `startFormatted`. |
| SubtitleUtils.EnhanceFails | python-backend/app/utils/subtitle_utils.py:64-66 | The enhancement raises if and only if some item has an unreadable start or dur. |
| SubtitleUtils.EnhanceFields | python-backend/app/utils/subtitle_utils.py:62-82 | On success the output has one item per input item, each enhanced from the input item at the same position. |
| SubtitleUtils.EnhanceStepConsistent | python-backend/app/utils/subtitle_utils.py:69-79 | An enhanced item is consistent: `duration == dur`, `end == start + dur`, `startFormatted == format_time(start)`. The one exception is an item that already carried a different `startFormatted`. |
| SubtitleUtils.EnhanceMakesConsistent | python-backend/app/utils/subtitle_utils.py:62-82 | Enhancing a list whose existing formatted starts agree with their starts gives only consistent items. |
| SubtitleUtils.ConvertTranscriptFormat | python-backend/app/utils/subtitle_utils.py:185-210 | One converted item per transcript record, in order. |
| SubtitleUtils.ConvertOne | python-backend/app/utils/subtitle_utils.py:188-208 | One record becomes its converted item. |
| SubtitleUtils.ConvertEntryFields | python-backend/app/utils/subtitle_utils.py:189-205 | A converted item is consistent. Its start reads as the record's start (default 0) and its dur as the record's duration (default 2). Its text is the decoded record text (default empty). |
| SubtitleUtils.ProcessSubtitles | python-backend/app/utils/subtitle_utils.py:224-280 | The result's `text` is always the input unchanged. Its `subtitles` are the branch's items (XML, JSON or plain lines, chosen by format and leading characters), or empty when the branch raised. |
| SubtitleUtils.PlainLoop | python-backend/app/utils/subtitle_utils.py:253-271 | The plain-line loop appends one item per non-blank line, in order. |
| SubtitleUtils.ProcessXmlUnreadableStart | python-backend/app/utils/subtitle_utils.py:229-280 | In the XML branch, one well-formed chunk whose start is not a number empties the whole `subtitles` list. |
| SubtitleUtils.ProcessXmlUnreadableDur | python-backend/app/utils/subtitle_utils.py:229-280 | In the XML branch, one item whose `dur` is not a number makes the enhancement raise and empties `subtitles`. |
| SubtitleUtils.ProcessJsonDecodeError | python-backend/app/utils/subtitle_utils.py:236-245 | In the JSON branch a decoding error leaves `subtitles` empty. |
| SubtitleUtils.ProcessedStructuredConsistent | python-backend/app/utils/subtitle_utils.py:231-242 | Every item the XML or JSON branch returns is consistent (duration, end and formatted start agree with start and dur). |
| SubtitleUtils.PlainStepFields | python-backend/app/utils/subtitle_utils.py:253-271 | The line at index `i` is dropped if and only if it is blank. Otherwise its item has the stripped text, start `3·i`, dur and duration `3`, and the formatted start. |
| SubtitleUtils.PlainItemsIndexed | python-backend/app/utils/subtitle_utils.py:249-273 | Plain items follow line order. Item `k` is line `idx[k]` stripped, starting at `3·idx[k]`, with blank lines still counted in the index. The indices are exactly the non-blank lines. |
| SubtitleUtils.PlainBranchItems | python-backend/app/utils/subtitle_utils.py:247-273 | In the plain branch, `process_subtitles` returns exactly that indexed list for the stripped, newline-split input. |
| YoutubeUtils.QueryPatternNone | python-backend/app/utils/youtube_utils.py:25 | The fifth pattern fails if and only if no `youtube.com/`, later `?`, later `v=` and an ID character occur on one line. |
| YoutubeUtils.QueryPatternSome | python-backend/app/utils/youtube_utils.py:25 | The fifth pattern's capture follows the last qualifying `v=` after the leftmost qualifying `youtube.com/`, as the regex engine chooses. |
| YoutubeUtils.ExtractVideoIdOrder | python-backend/app/utils/youtube_utils.py:28-31 | The first of the five patterns that matches decides the ID. |
| YoutubeUtils.ExtractVideoIdNone | python-backend/app/utils/youtube_utils.py:28-33 | No ID if and only if none of the five patterns matches. |
| YoutubeUtils.PrefixPatternShape | python-backend/app/utils/youtube_utils.py:21-24 | A literal-prefix pattern captures a non-empty run free of `/`, `?`, `&`. The run directly follows the literal in the URL and is maximal. |
| YoutubeUtils.QueryPatternShape | python-backend/app/utils/youtube_utils.py:25 | The fifth pattern's capture is such a maximal run directly after a `v=`. |
| YoutubeUtils.ExtractVideoIdShape | python-backend/app/utils/youtube_utils.py:16-33 | Every extracted ID is a non-empty run free of `/`, `?` and `&`. It directly follows one of the pattern literals and is maximal there. No length is checked. |
| YoutubeUtils.ExtractVideoIdShortLink | python-backend/app/utils/youtube_utils.py:21 | `youtu.be/<id>` yields `<id>` for every ID-like string. |
| YoutubeUtils.WatchNeedsQuestion | python-backend/app/utils/youtube_utils.py:22 | The watch pattern cannot match a URL without `?`. |
| YoutubeUtils.ExtractVideoIdNoQuery | python-backend/app/utils/youtube_utils.py:20-33 | A URL containing none of `?`, `youtu.be/`, `youtube.com/embed/` and `youtube.com/v/` yields no ID. |
| YoutubeUtils.BaseCodeShape | python-backend/app/utils/youtube_utils.py:130 | The base code is the part before the first hyphen: a hyphen-free prefix of the code, or the whole code when there is no hyphen. |
| YoutubeUtils.LanguageNameRegional | python-backend/app/utils/youtube_utils.py:130-133 | A regional code not in the table is named after its base code. |
| YoutubeUtils.LanguageNameExact | python-backend/app/utils/youtube_utils.py:110-133 | Example: the exact entry `zh-Hans` wins over the entry of its base code `zh`. |
| YoutubeUtils.LanguageNameEnglishUS | python-backend/app/utils/youtube_utils.py:130-133 | Example: `en-US` has no entry and is named like `en`. |
| YoutubeUtils.LanguageNameUnknown | python-backend/app/utils/youtube_utils.py:133 | Every hyphen-free code without an entry is its own name. |
| YoutubeUtils.LanguageNameRegionalUnknown | python-backend/app/utils/youtube_utils.py:130-133 | A regional code whose own entry and base entry are both missing is named by the whole code, region included. |
| YoutubeUtils.BaseCodeRegional | python-backend/app/utils/youtube_utils.py:130 | The base code of `base-region` is `base` whenever `base` has no hyphen. |
| YoutubeUtils.ManualLanguages | python-backend/app/utils/youtube_utils.py:82-88 | One entry per manual track, in order, with its code and table name. |
| YoutubeUtils.GetAvailableLanguages | python-backend/app/utils/youtube_utils.py:78-104 | The language list is the manual entries, then the automatic ones not already listed. |
| YoutubeUtils.ManualLoop | python-backend/app/utils/youtube_utils.py:82-88 | The manual loop builds exactly `ManualLanguages`. |
| YoutubeUtils.AutomaticLoop | python-backend/app/utils/youtube_utils.py:91-99 | The automatic loop appends exactly the not-yet-listed automatic codes, named with the automatic prefix. |
| YoutubeUtils.ListsCode | python-backend/app/utils/youtube_utils.py:94 | The `any(...)` test is true if and only if the code is already listed. |
| YoutubeUtils.WithAutomaticPrefix | python-backend/app/utils/youtube_utils.py:91-99 | Adding automatic captions keeps the existing list as a prefix. |
| YoutubeUtils.WithAutomaticCodes | python-backend/app/utils/youtube_utils.py:91-99 | After adding, a code is listed if and only if it was listed before or is an automatic key. |
| YoutubeUtils.WithAutomaticAdded | python-backend/app/utils/youtube_utils.py:91-99 | Every added entry is an automatic key named `자동 생성: <name>`. |
| YoutubeUtils.ManualLanguagesCodes | python-backend/app/utils/youtube_utils.py:82-88 | The manual list lists exactly the manual keys. |
| YoutubeUtils.AvailableManualFirst | python-backend/app/utils/youtube_utils.py:78-88 | The manual tracks come first, in order, under their plain names. |
| YoutubeUtils.AvailableAutomaticAfter | python-backend/app/utils/youtube_utils.py:91-99 | Every entry after the manual ones is an automatic track with the automatic prefix. |
| YoutubeUtils.AvailableComplete | python-backend/app/utils/youtube_utils.py:78-99 | A code is listed if and only if it has a manual or an automatic track. |
| YoutubeUtils.AvailableDistinct | python-backend/app/utils/youtube_utils.py:82-99 | With distinct manual keys, no code is listed twice. |
| YoutubeUtils.ExtractSubtitleText | python-backend/app/utils/youtube_utils.py:196-218 | The imperative cascade computes the source-by-source cascade `SubtitleText`. |
| YoutubeUtils.CascadeUnfold | python-backend/app/utils/youtube_utils.py:196-218 | The cascade equals the source's three `if` statements: manual track, then automatic one when still falsy, then for `ko` English manual else English automatic. |
| YoutubeUtils.CascadeRequested | python-backend/app/utils/youtube_utils.py:199-208 | The requested-language part of the cascade is the manual track's text, replaced by the automatic track's when falsy. |
| YoutubeUtils.CascadeEnglish | python-backend/app/utils/youtube_utils.py:211-216 | The English part applies only for `ko` and a falsy text so far. It prefers the manual English track to the automatic one. |
| YoutubeUtils.CascadeTruthyStays | python-backend/app/utils/youtube_utils.py:205-211 | Once the text is truthy no later source is consulted. |
| YoutubeUtils.CascadeFirstTruthy | python-backend/app/utils/youtube_utils.py:196-218 | A truthy result is the text of one source, and every source before it gave a falsy text. A falsy result means every source gave a falsy text. |
| YoutubeUtils.SubtitleTextManualFirst | python-backend/app/utils/youtube_utils.py:199-205 | A manual track with truthy text for the language is the answer. |
| YoutubeUtils.SubtitleTextAutomaticSecond | python-backend/app/utils/youtube_utils.py:205-208 | Without truthy manual text, a truthy automatic track for the language is the answer. |
| YoutubeUtils.CandidatesFallback | python-backend/app/utils/youtube_utils.py:210-216 | Only `ko` falls back to English. Manual English is the last candidate when present. Automatic English is a candidate if and only if manual English is absent and automatic English is present. |
| YoutubeUtils.SubtitleTextEnglishFallback | python-backend/app/utils/youtube_utils.py:210-216 | For other languages a truthy text comes from a track of that language. For `ko` with no truthy Korean track and a manual English track, the English text is the answer. |
| YoutubeUtils.SubtitleTextFalsyProcessor | python-backend/app/utils/youtube_utils.py:196-218 | A processor that never returns truthy text makes the whole cascade falsy. |
| YoutubeUtils.SubtitleTextAsWritten | python-backend/app/utils/youtube_utils.py:220-238 | With `process_subtitle_entries` as written (no `return`), no caption text is ever found. |
| YoutubeUtils.GetVideoInfo | python-backend/app/utils/youtube_utils.py:46-72 | On success: the metadata's title/uploader/thumbnail/duration with their defaults, and the available languages. On failure: `Video <id>`, `Unknown Channel`, the derived thumbnail URL, 0 and no languages. |
| YoutubeUtils.SummaryFor | python-backend/app/utils/youtube_utils.py:51-72 | The summary is the metadata's fields with their defaults, or the fixed defaults when extraction failed. |
| YoutubeUtils.GetSubtitles | python-backend/app/utils/youtube_utils.py:152-190 | Success if and only if the cascade text is truthy: the text, no items, and the video summary. Otherwise the not-found message, or the exception's message when extraction failed. |
| SubtitleService.ParseVttSubtitles | python-backend/app/services/subtitle_service.py:191-214 | The WebVTT loop computes `VttText`. |
| SubtitleService.VttStartedIsFilter | python-backend/app/services/subtitle_service.py:197-212 | After the header the parser is a per-line filter: timing lines, blank lines and lines starting with `<` are dropped, the others stripped. |
| SubtitleService.VttNoTiming | python-backend/app/services/subtitle_service.py:199-205 | Without any `-->` line nothing is kept. |
| SubtitleService.VttSkipsHeader | python-backend/app/services/subtitle_service.py:195-212 | Everything up to and including the first `-->` line is skipped. After it the per-line filter applies. |
| SubtitleService.VttCueShape | python-backend/app/services/subtitle_service.py:204-212 | A kept cue line is stripped, non-empty, does not start with `<`, and has no newline. |
| SubtitleService.VttOutputOrigin | python-backend/app/services/subtitle_service.py:197-214 | Every output line comes from an input line after the first timing line. Every such line that passes the filter appears in the output. |
| SubtitleService.CueFilterShape | python-backend/app/services/subtitle_service.py:204-212 | Filtered cue lines are clean and newline-free. |
| SubtitleService.VttOutputShape | python-backend/app/services/subtitle_service.py:191-214 | All lines the parser joins are clean and newline-free. |
| SubtitleService.VttTextNoTiming | python-backend/app/services/subtitle_service.py:191-214 | Content without `-->` parses to the empty string. |
| SubtitleService.VttReparse | python-backend/app/services/subtitle_service.py:191-214 | Parsing the parser's own output again gives the empty string (it has no timing line). |
| SubtitleService.ParseSrtSubtitles | python-backend/app/services/subtitle_service.py:220-235 | The SRT loop computes `SrtText`. |
| SubtitleService.SrtLineShape | python-backend/app/services/subtitle_service.py:225-233 | A kept SRT line is stripped, non-empty, not all digits, and passes the filter again unchanged. |
| SubtitleService.SrtOutput | python-backend/app/services/subtitle_service.py:220-235 | Every output line comes from an input line and every line passing the filter appears. All output lines are clean, non-numeric and newline-free. |
| SubtitleService.SrtIdempotent | python-backend/app/services/subtitle_service.py:220-235 | Parsing SRT output again changes nothing. |
| SubtitleService.ParseSubtitleFile | python-backend/app/services/subtitle_service.py:179-185 | A `.vtt` name is parsed as WebVTT, else `.srt` as SRT, else the content comes back unchanged. |
| SubtitleService.GetSubtitlesWithFile | python-backend/app/services/subtitle_service.py:99-173 | A file-stage success carries non-empty text, no items and the video summary. |
| SubtitleService.GetSubtitlesWithFileFailures | python-backend/app/services/subtitle_service.py:116-136 | A raised run gives its message, a non-zero exit code gives the run-error message, and a listing with no matching subtitle file gives the no-file message. |
| SubtitleService.GetSubtitlesWithFileFirstFile | python-backend/app/services/subtitle_service.py:138-169 | With `j` the first matching file, the outcome is one of three. A read exception gives its message. An empty parse gives the parse-error message. Otherwise the result is the parsed text with no items and the summary. |
| SubtitleService.GetSubtitlesWithFileSuccess | python-backend/app/services/subtitle_service.py:123-169 | A success means exit code 0 and some first subtitle file in the listing that was read, with the text its parse. |
| SubtitleService.GetSubtitlesWithYtdlp | python-backend/app/services/subtitle_service.py:70-90 | The API stage succeeds if and only if the cascade finds truthy text. Then it sets `videoId` and an empty `subtitles`. Otherwise it passes the failure on unchanged. |
| SubtitleService.GetSubtitles | python-backend/app/services/subtitle_service.py:37-68 | An invalid URL answers with the invalid-URL message and runs no stage. An API success is returned after one stage. Otherwise the file stage runs and its success is returned, or the not-found message. A falsy processor always reaches the file stage. |
| SubtitleService.AsWrittenReachesFileStage | python-backend/app/services/subtitle_service.py:53-59 | With `process_subtitle_entries` as written the API stage never succeeds, so the file stage is used. |

## Left out

- Network, the yt-dlp library and command line, the temporary directory, the directory
  listing and file reads are I/O. They are inputs: an `InfoOutcome`, and a `FileRun` holding
  the exit code, listing and reads.
- `html.unescape` (`decode_html_entities`) is the parameter `decode`. Its `except` branch
  is not modelled, because the model has no exceptions for it to catch.
- `json.loads` is the parameter `loads`. A payload of the wrong JSON types (an `events` that
  is not a list, a segment that is not a dictionary), which would raise and empty the list,
  is not representable in the typed payload.
- Floating point is modelled with exact reals. `tStartMs / 1000` and `start + dur` are
  exact, and the characters of `str(float)` are not modelled (`TimeText.Rendered`). NaN and
  infinities are not represented.
- `float()` on captured start/dur text: only ASCII digits and dots are modelled. This is all
  `[\d.]+` captures once non-ASCII Unicode digits are set aside; Unicode digits are not.
- `str.isdigit` is modelled on the ASCII digits only, so the model keeps an SRT line of
  non-ASCII digits that Python's `isdigit` would drop.
- `str.strip` and `str.isspace` use Python's full whitespace set (`Strings.IsSpace`), which
  includes the non-ASCII spaces and line separators.
- A metadata key whose value is `None`, as opposed to absent: `dict.get(key, default)` then
  returns `None`. The model treats the key as absent.
- `SubtitleService.get_video_info` (`subtitle_service.py:30-35`) is a plain delegation to
  `get_video_info`. It is modelled through `YoutubeUtils.SummaryFor`, which the file stage
  uses directly. Its `.get(..., "")` defaults never apply, because the delegate always
  returns every key.
- The file stage's `subtitle_filename` path and `os.path.join(temp_dir, name)`: the model
  passes the listed name itself to `ParseSubtitleFile`. The joined path ends with that name,
  so the `.vtt`/`.srt` decision is the same (`Strings.BaseNameUnderDir` shows the directory
  does not change the base name).
- Logging, `async`/`await`, and the FastAPI routes in `main.py` are not modelled.
- `format_time`'s `except (ValueError, TypeError)` branch is reachable only with a
  non-number, which no caller in the core passes. The model keeps it as `FormatTimeOf` of an
  absent value.
