/**
 * The caption service (python-backend/app/services/subtitle_service.py): the line
 * filters that turn a downloaded WebVTT or SubRip file into plain text, the dispatch on
 * the file's suffix, and the two-stage fallback of `SubtitleService.get_subtitles`.
 *
 * The yt-dlp command, the temporary directory and the file reads are not modelled:
 * their results are the parameter `run`. The metadata the stages ask yt-dlp for is the
 * parameter of type `InfoOutcome`, and the per-track processor is `process`.
 */
module SubtitleService {
  import opened Wrappers
  import opened Strings
  import opened Seqs
  import opened YoutubeUtils
  import SubtitleUtils

  /** The marker of a cue timing line, in both formats. */
  const Arrow: string := "-->"

  /** A line either parser may emit: stripped, non-empty and not a timing line. */
  predicate TextLine(line: string) {
    Strip(line) == line && line != "" && !Contains(line, Arrow)
  }

  /** A line the VTT parser may emit: a text line that is not a tag. */
  predicate CleanLine(line: string) {
    TextLine(line) && !StartsWith(line, "<")
  }

  /** Stripping a line that has no newline leaves none. */
  lemma StripNoNewline(line: string)
    requires '\n' !in line
    ensures '\n' !in Strip(line)
  {
    ContainsChar(line, '\n');
    ContainsChar(Strip(line), '\n');
    if Contains(Strip(line), "\n") {
      ContainsInStrip(line, "\n");
    }
  }

  // ---------------------------------------------------------------------------
  // parse_vtt_subtitles
  // ---------------------------------------------------------------------------

  /** What the VTT loop does with a line once a timing line has been seen. */
  function VttCueStep(line: string): Step<string> {
    if Contains(line, Arrow) || Strip(line) == "" || StartsWith(Strip(line), "<") then Skip
    else Emit(Strip(line))
  }

  /**
   * The lines the VTT loop appends from `lines` on, `started` being the state of its
   * `start_parsing` flag: a line with `-->` sets the flag and is dropped; blank lines,
   * lines met before the flag is set and lines starting with `<` are dropped; the rest
   * are appended stripped.
   */
  function VttLines(lines: seq<string>, started: bool): seq<string>
    decreases |lines|
  {
    if |lines| == 0 then []
    else if Contains(lines[0], Arrow) then VttLines(lines[1..], true)
    else if Strip(lines[0]) == "" || !started then VttLines(lines[1..], started)
    else if StartsWith(Strip(lines[0]), "<") then VttLines(lines[1..], started)
    else [Strip(lines[0])] + VttLines(lines[1..], started)
  }

  /** `parse_vtt_subtitles(content)`. */
  function VttText(content: string): string {
    Join(VttLines(Split(content, "\n"), false), "\n")
  }

  method ParseVttSubtitles(content: string) returns (text: string)
    ensures text == VttText(content)
  {
    var lines := Split(content, "\n");
    var textLines: seq<string> := [];
    var started := false;
    for i := 0 to |lines|
      invariant textLines + VttLines(lines[i..], started) == VttLines(lines, false)
    {
      var line := lines[i];
      assert lines[i..][1..] == lines[i + 1..];
      if Contains(line, Arrow) {
        started := true;
      } else if Strip(line) == "" || !started {
      } else if StartsWith(Strip(line), "<") {
      } else {
        textLines := textLines + [Strip(line)];
      }
    }
    assert VttLines(lines[|lines|..], started) == [];
    assert textLines + [] == textLines;
    text := Join(textLines, "\n");
  }

  /** Once the flag is set, the loop is the plain cue filter. */
  lemma {:induction false} VttStartedIsFilter(lines: seq<string>)
    ensures VttLines(lines, true) == FilterMap(lines, VttCueStep)
    decreases |lines|
  {
    if |lines| > 0 {
      VttStartedIsFilter(lines[1..]);
      FilterMapCons(lines[0], lines[1..], VttCueStep);
      assert [lines[0]] + lines[1..] == lines;
    }
  }

  /** Without a timing line nothing is emitted. */
  lemma {:induction false} VttNoTiming(lines: seq<string>)
    requires forall i :: 0 <= i < |lines| ==> !Contains(lines[i], Arrow)
    ensures VttLines(lines, false) == []
    decreases |lines|
  {
    if |lines| > 0 {
      VttNoTiming(lines[1..]);
    }
  }

  /**
   * The header: every line up to and including the first timing line `k` is dropped,
   * and the output is the cue filter over the lines after it.
   */
  lemma {:induction false} VttSkipsHeader(lines: seq<string>, k: nat)
    requires k < |lines| && Contains(lines[k], Arrow)
    requires forall i :: 0 <= i < k ==> !Contains(lines[i], Arrow)
    ensures VttLines(lines, false) == FilterMap(lines[k + 1..], VttCueStep)
    decreases k
  {
    if k == 0 {
      VttStartedIsFilter(lines[1..]);
    } else {
      VttSkipsHeader(lines[1..], k - 1);
      assert lines[1..][k..] == lines[k + 1..];
    }
  }

  /** A line the cue filter emits is clean, and has no newline if its source had none. */
  lemma VttCueShape(line: string)
    requires VttCueStep(line).Emit?
    ensures CleanLine(VttCueStep(line).value)
    ensures '\n' !in line ==> '\n' !in VttCueStep(line).value
  {
    StripIdempotent(line);
    if Contains(Strip(line), Arrow) {
      ContainsInStrip(line, Arrow);
    }
    if '\n' !in line {
      StripNoNewline(line);
    }
  }

  /**
   * What the VTT parser emits, for the first timing line `k`: each output line is the
   * stripped form of some later line the cue filter keeps, and every such line is in
   * the output.
   */
  lemma VttOutputOrigin(lines: seq<string>, k: nat)
    requires k < |lines| && Contains(lines[k], Arrow)
    requires forall i :: 0 <= i < k ==> !Contains(lines[i], Arrow)
    ensures var out := VttLines(lines, false);
            && (forall m :: 0 <= m < |out| ==> exists j :: k < j < |lines| && VttCueStep(lines[j]) == Emit(out[m]))
            && (forall j :: k < j < |lines| && VttCueStep(lines[j]).Emit? ==> Strip(lines[j]) in out)
  {
    VttSkipsHeader(lines, k);
    var rest := lines[k + 1..];
    var out := VttLines(lines, false);
    FilterMapOrigin(rest, VttCueStep);
    forall m | 0 <= m < |out| ensures exists j :: k < j < |lines| && VttCueStep(lines[j]) == Emit(out[m]) {
      var j :| 0 <= j < |rest| && VttCueStep(rest[j]) == Emit(out[m]);
      assert lines[k + 1 + j] == rest[j];
    }
    forall j | k < j < |lines| && VttCueStep(lines[j]).Emit? ensures Strip(lines[j]) in out {
      assert rest[j - k - 1] == lines[j];
    }
  }

  /** Every line the cue filter emits from newline-free lines is clean and newline-free. */
  lemma CueFilterShape(lines: seq<string>)
    requires forall i :: 0 <= i < |lines| ==> '\n' !in lines[i]
    ensures var out := FilterMap(lines, VttCueStep);
            forall m :: 0 <= m < |out| ==> CleanLine(out[m]) && '\n' !in out[m]
  {
    var out := FilterMap(lines, VttCueStep);
    FilterMapOrigin(lines, VttCueStep);
    forall m | 0 <= m < |out| ensures CleanLine(out[m]) && '\n' !in out[m] {
      var j :| 0 <= j < |lines| && VttCueStep(lines[j]) == Emit(out[m]);
      VttCueShape(lines[j]);
    }
  }

  /** Every line the VTT parser emits is clean and, coming from a split on `\n`, has no newline. */
  lemma VttOutputShape(content: string)
    ensures forall m :: 0 <= m < |VttLines(Split(content, "\n"), false)| ==>
              CleanLine(VttLines(Split(content, "\n"), false)[m]) && '\n' !in VttLines(Split(content, "\n"), false)[m]
  {
    var lines := Split(content, "\n");
    SplitPiecesFree(content, '\n');
    var k := FirstTiming(lines);
    if k.None? {
      VttNoTiming(lines);
    } else {
      VttSkipsHeader(lines, k.value);
      var rest := lines[k.value + 1..];
      assert forall i :: 0 <= i < |rest| ==> rest[i] == lines[k.value + 1 + i];
      CueFilterShape(rest);
    }
  }

  /** A file without any timing line gives the empty text. */
  lemma VttTextNoTiming(content: string)
    requires !Contains(content, Arrow)
    ensures VttText(content) == ""
  {
    var lines := Split(content, "\n");
    forall i | 0 <= i < |lines| ensures !Contains(lines[i], Arrow) {
      JoinSplit(content, "\n");
      if Contains(lines[i], Arrow) {
        JoinContainsPart(lines, "\n", i, Arrow);
      }
    }
    VttNoTiming(lines);
  }

  /** Every piece of a join occurs in it, so what a piece contains the join contains. */
  lemma {:induction false} JoinContainsPart(parts: seq<string>, sep: string, i: nat, sub: string)
    requires i < |parts| && Contains(parts[i], sub)
    ensures Contains(Join(parts, sep), sub)
    decreases |parts|
  {
    var j := Join(parts, sep);
    if |parts| == 1 {
    } else if i == 0 {
      assert j == parts[0] + (sep + Join(parts[1..], sep));
      ContainsInPiece(j, 0, |parts[0]|, sub);
      assert j[0..|parts[0]|] == parts[0];
    } else {
      JoinContainsPart(parts[1..], sep, i - 1, sub);
      var tail := Join(parts[1..], sep);
      assert j == (parts[0] + sep) + tail;
      assert j[|j| - |tail|..|j|] == tail;
      ContainsInPiece(j, |j| - |tail|, |j|, sub);
    }
  }

  /** The VTT parser's own output is not VTT: it has no timing line, so parsing it again gives "". */
  lemma VttReparse(content: string)
    ensures VttText(VttText(content)) == ""
  {
    var lines := Split(content, "\n");
    var out := VttLines(lines, false);
    VttOutputShape(content);
    assert forall m :: 0 <= m < |out| ==> CleanLine(out[m]) && '\n' !in out[m];
    if |out| == 0 {
      assert Split("", "\n") == [""];
      assert VttLines([""], false) == [];
    } else {
      SplitJoin(out, '\n');
      assert [ '\n' ] == "\n";
      VttNoTiming(out);
    }
  }

  /** The index of the first timing line, if any. */
  function FirstTiming(lines: seq<string>): (k: Option<nat>)
    ensures k.None? ==> forall i :: 0 <= i < |lines| ==> !Contains(lines[i], Arrow)
    ensures k.Some? ==> && k.value < |lines| && Contains(lines[k.value], Arrow)
                        && forall i :: 0 <= i < k.value ==> !Contains(lines[i], Arrow)
    decreases |lines|
  {
    if |lines| == 0 then None
    else if Contains(lines[0], Arrow) then Some(0)
    else
      var k := FirstTiming(lines[1..]);
      if k.None? then None else Some(k.value + 1)
  }

  // ---------------------------------------------------------------------------
  // parse_srt_subtitles
  // ---------------------------------------------------------------------------

  /** What the SRT loop does with a line: cue numbers, timing lines and blank lines go. */
  function SrtStep(line: string): Step<string> {
    if IsDigits(Strip(line)) || Contains(line, Arrow) then Skip
    else if Strip(line) == "" then Skip
    else Emit(Strip(line))
  }

  /** `parse_srt_subtitles(content)`. */
  function SrtText(content: string): string {
    Join(FilterMap(Split(content, "\n"), SrtStep), "\n")
  }

  method ParseSrtSubtitles(content: string) returns (text: string)
    ensures text == SrtText(content)
  {
    var lines := Split(content, "\n");
    var textLines: seq<string> := [];
    for i := 0 to |lines|
      invariant textLines == FilterMap(lines[..i], SrtStep)
    {
      var line := lines[i];
      FilterMapSnoc(lines[..i], line, SrtStep);
      assert lines[..i + 1] == lines[..i] + [line];
      if IsDigits(Strip(line)) || Contains(line, Arrow) {
      } else if Strip(line) == "" {
      } else {
        textLines := textLines + [Strip(line)];
      }
    }
    assert lines[..|lines|] == lines;
    text := Join(textLines, "\n");
  }

  /** A line the SRT filter keeps is a text line, not a number, and keeps the filter's verdict. */
  lemma SrtLineShape(line: string)
    requires SrtStep(line).Emit?
    ensures TextLine(SrtStep(line).value) && !IsDigits(SrtStep(line).value)
    ensures SrtStep(SrtStep(line).value) == SrtStep(line)
    ensures '\n' !in line ==> '\n' !in SrtStep(line).value
  {
    StripIdempotent(line);
    if Contains(Strip(line), Arrow) {
      ContainsInStrip(line, Arrow);
    }
    if '\n' !in line {
      StripNoNewline(line);
    }
  }

  /**
   * What the SRT parser emits: the lines it keeps, in order, are each the stripped form
   * of an input line that is not a number, a timing line or blank, and every such line
   * is there; each is a stripped, non-empty, non-numeric line without `-->` or newline.
   */
  lemma SrtOutput(content: string)
    ensures var lines := Split(content, "\n");
            var out := FilterMap(lines, SrtStep);
            && (forall m :: 0 <= m < |out| ==> (exists j :: 0 <= j < |lines| && SrtStep(lines[j]) == Emit(out[m])))
            && (forall j :: 0 <= j < |lines| && SrtStep(lines[j]).Emit? ==> Strip(lines[j]) in out)
            && (forall m :: 0 <= m < |out| ==> TextLine(out[m]) && !IsDigits(out[m]) && '\n' !in out[m])
  {
    var lines := Split(content, "\n");
    SplitPiecesFree(content, '\n');
    var out := FilterMap(lines, SrtStep);
    var idx := KeptIndices(lines, SrtStep);
    forall m | 0 <= m < |out|
      ensures TextLine(out[m]) && !IsDigits(out[m]) && '\n' !in out[m]
    {
      SrtLineShape(lines[idx[m]]);
    }
    forall j | 0 <= j < |lines| && SrtStep(lines[j]).Emit? ensures Strip(lines[j]) in out {
      var l :| 0 <= l < |idx| && idx[l] == j;
    }
  }

  /** Parsing SRT text twice is parsing it once: every kept line survives the filter again. */
  lemma SrtIdempotent(content: string)
    ensures SrtText(SrtText(content)) == SrtText(content)
  {
    var lines := Split(content, "\n");
    var out := FilterMap(lines, SrtStep);
    SplitPiecesFree(content, '\n');
    if |out| == 0 {
      assert Split("", "\n") == [""];
      assert FilterMap([""], SrtStep) == [];
    } else {
      var idx := KeptIndices(lines, SrtStep);
      forall m | 0 <= m < |out| ensures '\n' !in out[m] && SrtStep(out[m]) == Emit(out[m]) {
        SrtLineShape(lines[idx[m]]);
      }
      SplitJoin(out, '\n');
      assert [ '\n' ] == "\n";
      FilterMapIdentity(out, SrtStep);
    }
  }

  // ---------------------------------------------------------------------------
  // parse_subtitle_file
  // ---------------------------------------------------------------------------

  /** `parse_subtitle_file(file_path, content)`: the parser chosen by the path's suffix. */
  function ParseSubtitleFile(path: string, content: string): (text: string)
    ensures EndsWith(path, ".vtt") ==> text == VttText(content)
    ensures !EndsWith(path, ".vtt") && EndsWith(path, ".srt") ==> text == SrtText(content)
    ensures !EndsWith(path, ".vtt") && !EndsWith(path, ".srt") ==> text == content
  {
    if EndsWith(path, ".vtt") then VttText(content)
    else if EndsWith(path, ".srt") then SrtText(content)
    else content
  }

  // ---------------------------------------------------------------------------
  // get_subtitles_with_file
  // ---------------------------------------------------------------------------

  /** Reading a file: its text, or the message of the exception `open`/`read` raised. */
  datatype ReadOutcome = Read(content: string) | ReadRaised(message: string)

  /**
   * The yt-dlp command-line run: the exception `subprocess.run` raised, or its exit code
   * with the names the temporary directory then holds and what reading each gives.
   */
  datatype FileRun =
    | RunRaised(message: string)
    | RunExited(returnCode: int, listing: seq<string>, read: string -> ReadOutcome)

  const RunErrorMessage: string := "자막 추출 중 오류가 발생했습니다."
  const NoFileMessage: string := "자막 파일을 찾을 수 없습니다."
  const ParseErrorMessage: string := "자막 내용을 파싱할 수 없습니다."

  /**
   * The name yt-dlp is told to write under, `os.path.basename` of
   * `os.path.join(temp_dir, f"{video_id}.{language}")`; by `BaseNameUnderDir` the
   * directory does not matter.
   */
  function FileStem(videoId: string, language: string): string {
    BaseName(videoId + "." + language)
  }

  predicate IsSubtitleFile(name: string, stem: string) {
    StartsWith(name, stem) && (EndsWith(name, ".vtt") || EndsWith(name, ".srt"))
  }

  function FileFilter(stem: string): string -> Step<string> {
    (name: string) => if IsSubtitleFile(name, stem) then Emit(name) else Skip
  }

  /** The list comprehension of subtitle files in the directory listing. */
  function SubtitleFiles(listing: seq<string>, stem: string): seq<string> {
    FilterMap(listing, FileFilter(stem))
  }

  /**
   * `get_subtitles_with_file(video_id, language)`: run yt-dlp, take the first listed
   * subtitle file, read and parse it, and pair the text with the video's summary. The
   * parser sees the file's name, which has the same suffix as its path in the directory.
   */
  function GetSubtitlesWithFile(videoId: string, language: string, run: FileRun, info: InfoOutcome): (r: Response)
    ensures r.Succeeded? ==> && r.data.text != ""
                             && r.data.subtitles == []
                             && r.data.videoInfo == SummaryFor(videoId, info)
  {
    match run
    case RunRaised(message) => Failed(message)
    case RunExited(code, listing, read) =>
      if code != 0 then Failed(RunErrorMessage)
      else
        var files := SubtitleFiles(listing, FileStem(videoId, language));
        if |files| == 0 then Failed(NoFileMessage)
        else
          match read(files[0])
          case ReadRaised(message) => Failed(message)
          case Read(content) =>
            var text := ParseSubtitleFile(files[0], content);
            if text == "" then Failed(ParseErrorMessage) else Succeeded(CaptionData(text, [], SummaryFor(videoId, info)))
  }

  /** The file stage's failures, each with its message. */
  lemma GetSubtitlesWithFileFailures(videoId: string, language: string, run: FileRun, info: InfoOutcome)
    ensures run.RunRaised? ==> GetSubtitlesWithFile(videoId, language, run, info) == Failed(run.message)
    ensures run.RunExited? && run.returnCode != 0 ==>
              GetSubtitlesWithFile(videoId, language, run, info) == Failed("자막 추출 중 오류가 발생했습니다.")
    ensures (run.RunExited? && run.returnCode == 0 &&
             forall i :: 0 <= i < |run.listing| ==> !IsSubtitleFile(run.listing[i], FileStem(videoId, language))) ==>
              GetSubtitlesWithFile(videoId, language, run, info) == Failed("자막 파일을 찾을 수 없습니다.")
  {
    if run.RunExited? && run.returnCode == 0 {
      var stem := FileStem(videoId, language);
      FilterMapFirst(run.listing, FileFilter(stem));
      if |SubtitleFiles(run.listing, stem)| > 0 {
        var j :| 0 <= j < |run.listing| && FileFilter(stem)(run.listing[j]).Emit?;
      }
    }
  }

  /**
   * Once the first subtitle file in the listing is known, the stage's outcome is what
   * reading and parsing that one file gives: the read's exception message, the
   * parse-failure message for an empty parse, or the parsed text with the summary.
   */
  lemma GetSubtitlesWithFileFirstFile(videoId: string, language: string, run: FileRun, info: InfoOutcome, j: nat)
    requires run.RunExited? && run.returnCode == 0
    requires j < |run.listing| && IsSubtitleFile(run.listing[j], FileStem(videoId, language))
    requires forall i :: 0 <= i < j ==> !IsSubtitleFile(run.listing[i], FileStem(videoId, language))
    ensures run.read(run.listing[j]).ReadRaised? ==>
              GetSubtitlesWithFile(videoId, language, run, info) == Failed(run.read(run.listing[j]).message)
    ensures run.read(run.listing[j]).Read? && ParseSubtitleFile(run.listing[j], run.read(run.listing[j]).content) == "" ==>
              GetSubtitlesWithFile(videoId, language, run, info) == Failed("자막 내용을 파싱할 수 없습니다.")
    ensures run.read(run.listing[j]).Read? && ParseSubtitleFile(run.listing[j], run.read(run.listing[j]).content) != "" ==>
              GetSubtitlesWithFile(videoId, language, run, info)
              == Succeeded(CaptionData(ParseSubtitleFile(run.listing[j], run.read(run.listing[j]).content), [],
                                       SummaryFor(videoId, info)))
  {
    var stem := FileStem(videoId, language);
    FilterMapFirst(run.listing, FileFilter(stem));
    assert FileFilter(stem)(run.listing[j]).Emit?;
    var j' :| && 0 <= j' < |run.listing| && FileFilter(stem)(run.listing[j']) == Emit(SubtitleFiles(run.listing, stem)[0])
              && forall i :: 0 <= i < j' ==> !FileFilter(stem)(run.listing[i]).Emit?;
    if j' < j {
      assert !IsSubtitleFile(run.listing[j'], stem);
    }
    assert SubtitleFiles(run.listing, stem)[0] == run.listing[j];
  }

  /**
   * On success the text is the non-empty parse of the first listed name that starts
   * with the stem and ends in `.vtt` or `.srt`.
   */
  lemma GetSubtitlesWithFileSuccess(videoId: string, language: string, run: FileRun, info: InfoOutcome)
    requires GetSubtitlesWithFile(videoId, language, run, info).Succeeded?
    ensures run.RunExited? && run.returnCode == 0
    ensures var stem := FileStem(videoId, language);
            exists j :: && 0 <= j < |run.listing| && IsSubtitleFile(run.listing[j], stem)
                        && (forall i :: 0 <= i < j ==> !IsSubtitleFile(run.listing[i], stem))
                        && run.read(run.listing[j]).Read?
                        && GetSubtitlesWithFile(videoId, language, run, info).data.text
                             == ParseSubtitleFile(run.listing[j], run.read(run.listing[j]).content)
  {
    var stem := FileStem(videoId, language);
    FilterMapFirst(run.listing, FileFilter(stem));
    var j :| && 0 <= j < |run.listing| && FileFilter(stem)(run.listing[j]) == Emit(SubtitleFiles(run.listing, stem)[0])
             && forall i :: 0 <= i < j ==> !FileFilter(stem)(run.listing[i]).Emit?;
    assert IsSubtitleFile(run.listing[j], stem);
    forall i | 0 <= i < j ensures !IsSubtitleFile(run.listing[i], stem) {
      assert !FileFilter(stem)(run.listing[i]).Emit?;
    }
  }

  // ---------------------------------------------------------------------------
  // get_subtitles_with_ytdlp and get_subtitles
  // ---------------------------------------------------------------------------

  /** The yt-dlp API stage finds text. */
  predicate YtdlpFinds(outcome: InfoOutcome, language: string, process: seq<TrackFormat> -> Option<string>) {
    outcome.Extracted? && Truthy(SubtitleText(outcome.info, language, process))
  }

  /**
   * `get_subtitles_with_ytdlp(video_id, language)`: the yt-dlp API result, with
   * `videoInfo.videoId` and `subtitles` forced on success.
   */
  method GetSubtitlesWithYtdlp(videoId: string, language: string, outcome: InfoOutcome,
                               process: seq<TrackFormat> -> Option<string>)
    returns (success: bool, response: Response)
    ensures success <==> response.Succeeded?
    ensures success <==> YtdlpFinds(outcome, language, process)
    ensures success ==> response.data.videoInfo.videoId == videoId && response.data.subtitles == []
    ensures success ==> response.data == CaptionData(SubtitleText(outcome.info, language, process).value, [],
                                                     SummaryOf(outcome.info, videoId))
    ensures outcome.ExtractionFailed? ==> response == Failed(outcome.error)
    ensures outcome.Extracted? && !success ==> response == Failed("Could not find captions for video: " + videoId)
  {
    success, response := YoutubeUtils.GetSubtitles(videoId, language, outcome, process);
    if success {
      response := response.(data := response.data.(videoInfo := response.data.videoInfo.(videoId := videoId)));
      response := response.(data := response.data.(subtitles := []));
    }
  }

  /** The stages `get_subtitles` runs, in order. */
  datatype Stage = YtdlpStage | FileStage

  const InvalidUrlMessage: string := "유효하지 않은 YouTube URL입니다."

  /**
   * `SubtitleService.get_subtitles(url, language)`: an invalid URL fails before any
   * stage; otherwise the yt-dlp stage's success is returned, and only when it fails is
   * the file stage run, whose failure, of any kind, becomes the not-found message.
   * `stages` records which stages ran.
   */
  method GetSubtitles(url: string, language: string, apiOutcome: InfoOutcome,
                      process: seq<TrackFormat> -> Option<string>, run: FileRun, fileInfo: InfoOutcome)
    returns (response: Response, stages: seq<Stage>)
    ensures ExtractVideoId(url).None? ==> response == Failed("유효하지 않은 YouTube URL입니다.") && stages == []
    ensures ExtractVideoId(url).Some? && YtdlpFinds(apiOutcome, language, process) ==>
              var id := ExtractVideoId(url).value;
              && stages == [YtdlpStage]
              && response == Succeeded(CaptionData(SubtitleText(apiOutcome.info, language, process).value, [],
                                                   SummaryOf(apiOutcome.info, id)))
    ensures ExtractVideoId(url).Some? && !YtdlpFinds(apiOutcome, language, process) ==>
              var id := ExtractVideoId(url).value;
              var fileResponse := GetSubtitlesWithFile(id, language, run, fileInfo);
              && stages == [YtdlpStage, FileStage]
              && response == (if fileResponse.Succeeded? then fileResponse
                              else Failed("Could not find captions for video: " + id))
    ensures ExtractVideoId(url).Some? && (forall entries :: !Truthy(process(entries))) ==>
              stages == [YtdlpStage, FileStage]
  {
    var videoId := ExtractVideoId(url);
    if videoId.Some? {
      ExtractVideoIdShape(url);
    }
    if !Truthy(videoId) {
      return Failed(InvalidUrlMessage), [];
    }
    var id := videoId.value;
    if apiOutcome.Extracted? && forall entries :: !Truthy(process(entries)) {
      SubtitleTextFalsyProcessor(apiOutcome.info, language, process);
    }
    var success, result := GetSubtitlesWithYtdlp(id, language, apiOutcome, process);
    stages := [YtdlpStage];
    if success {
      return result, stages;
    }
    result := GetSubtitlesWithFile(id, language, run, fileInfo);
    stages := stages + [FileStage];
    if !result.Succeeded? {
      return Failed(NotFoundMessage(id)), stages;
    }
    response := result;
  }

  /** With the track processor as written, every valid URL goes on to the file stage. */
  lemma AsWrittenReachesFileStage(info: VideoMetadata, language: string)
    ensures !YtdlpFinds(Extracted(info), language, ProcessSubtitleEntries)
  {
    SubtitleTextAsWritten(info, language);
  }
}
