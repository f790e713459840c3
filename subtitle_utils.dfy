/**
 * Caption documents to subtitle items (python-backend/app/utils/subtitle_utils.py).
 *
 * A subtitle item is the source's `SubtitleItem` dictionary: `text`, the time strings
 * `start` and `dur`, and the derived keys `duration`, `startFormatted` and `end`, each
 * of which an item may lack. Times are exact reals; `html.unescape` is the parameter
 * `decode`, and `json.loads` is the parameter `loads`.
 */
module SubtitleUtils {
  import opened Wrappers
  import opened Strings
  import opened Seqs
  import Scan

  /**
   * A time string stored in an item. `Written(chars)` holds the characters themselves
   * (a captured XML attribute, or `str()` of an integer); `Rendered(value)` stands for
   * `str()` of a float, which `float()` reads back as exactly `value`.
   */
  datatype TimeText = Written(chars: string) | Rendered(value: real)

  datatype SubtitleItem = SubtitleItem(
    text: string,
    start: TimeText,
    dur: TimeText,
    duration: Option<TimeText>,
    startFormatted: Option<string>,
    end: Option<real>)

  // ---------------------------------------------------------------------------
  // float() and format_time
  // ---------------------------------------------------------------------------

  predicate IsDecimalChar(c: char) {
    IsDigit(c) || c == '.'
  }

  predicate AllDigits(s: string) {
    forall i :: 0 <= i < |s| ==> IsDigit(s[i])
  }

  function Pow10(n: nat): (p: nat)
    ensures p > 0
  {
    if n == 0 then 1 else 10 * Pow10(n - 1)
  }

  /**
   * `float(s)` on a string of ASCII digits and dots: defined when there is at most one
   * dot and at least one digit; `None` where `float` raises `ValueError`.
   */
  function ParseDecimal(s: string): Option<real> {
    match FindFrom(s, ".", 0)
    case None =>
      if IsDigits(s) then Some(DigitsValue(s) as real) else None
    case Some(d) =>
      var whole := s[..d];
      var frac := s[d + 1..];
      if AllDigits(whole) && AllDigits(frac) && |whole| + |frac| > 0
      then Some(DigitsValue(whole) as real + DigitsValue(frac) as real / Pow10(|frac|) as real)
      else None
  }

  /** `float(str(n))` is `n`. */
  lemma ParseDecimalNat(n: nat)
    ensures ParseDecimal(NatToString(n)) == Some(n as real)
  {
    var s := NatToString(n);
    NatToStringValue(n);
    forall j ensures !OccursAt(s, ".", j) {
      OccursAtChar(s, '.', j);
    }
    FindFromSpec(s, ".", 0);
  }

  /** A second dot makes `float` raise, as for the attribute value `1.2.3`. */
  lemma ParseDecimalTwoDots(a: string, b: string, c: string)
    requires AllDigits(a)
    ensures ParseDecimal(a + "." + b + "." + c) == None
  {
    var s := a + "." + b + "." + c;
    forall j | 0 <= j < |a| ensures !OccursAt(s, ".", j) {
      OccursAtChar(s, '.', j);
      assert s[j] == a[j];
    }
    OccursAtChar(s, '.', |a|);
    FindFromSpec(s, ".", 0);
    assert FindFrom(s, ".", 0) == Some(|a|);
    var frac := s[|a| + 1..];
    assert frac[|b|] == '.';
  }

  /** `float()` of a stored time string. */
  function ToFloat(t: TimeText): Option<real> {
    match t
    case Written(chars) => ParseDecimal(chars)
    case Rendered(value) => Some(value)
  }

  /** `int(x)` for a float: truncation toward zero. */
  function Truncate(x: real): int {
    if x >= 0.0 then x.Floor else -((-x).Floor)
  }

  /** `f"{n:02d}"`: zero-padded to two characters; a negative number keeps its sign. */
  function Pad2(n: int): string {
    if n < 0 then "-" + NatToString(-n)
    else if n < 10 then "0" + NatToString(n)
    else NatToString(n)
  }

  /** `t // 60`, by repeated steps of 60 toward the interval [0, 60); see `MinutesFloor`. */
  function Minutes(t: int): int
    decreases t < 0, if t < 0 then -t else t
  {
    if t < 0 then Minutes(t + 60) - 1
    else if t < 60 then 0
    else Minutes(t - 60) + 1
  }

  /** `t // 60` and `t % 60`: Python floors, and so does Dafny for the divisor 60. */
  lemma {:induction false} MinutesFloor(t: int)
    ensures Minutes(t) == t / 60
    ensures t - 60 * Minutes(t) == t % 60
    decreases t < 0, if t < 0 then -t else t
  {
    if t < 0 {
      MinutesFloor(t + 60);
    } else if t >= 60 {
      MinutesFloor(t - 60);
    }
  }

  /** `format_time(seconds)` for a number: `int()` truncates, then minutes and seconds are split by flooring. */
  function FormatTime(seconds: real): string {
    var total := Truncate(seconds);
    Pad2(Minutes(total)) + ":" + Pad2(total - 60 * Minutes(total))
  }

  lemma {:induction false} Pad2Digits(n: nat)
    ensures IsDigits(Pad2(n)) && |Pad2(n)| >= 2 && DigitsValue(Pad2(n)) == n
    ensures n < 60 ==> |Pad2(n)| == 2
  {
    NatToStringValue(n);
    if n < 10 {
      LeadingZeroValue(NatToString(n));
    } else {
      assert NatToString(n) == NatToString(n / 10) + [DigitChar(n % 10)];
    }
  }

  /**
   * For a non-negative time, `format_time` writes `mm:ss`: at least two minute digits,
   * exactly two second digits, and reading them back gives the whole seconds, with the
   * seconds field between 00 and 59.
   */
  lemma FormatTimeClock(x: real)
    requires x >= 0.0
    ensures var r := FormatTime(x);
            && |r| >= 5 && r[|r| - 3] == ':'
            && IsDigits(r[..|r| - 3]) && IsDigits(r[|r| - 2..])
            && DigitsValue(r[|r| - 2..]) < 60
            && DigitsValue(r[..|r| - 3]) == x.Floor / 60
            && DigitsValue(r[..|r| - 3]) * 60 + DigitsValue(r[|r| - 2..]) == x.Floor
  {
    var t := x.Floor;
    MinutesFloor(t);
    var m := Pad2(t / 60);
    var s := Pad2(t % 60);
    Pad2Digits(t / 60);
    Pad2Digits(t % 60);
    var r := FormatTime(x);
    assert r == m + ":" + s;
    assert r[..|r| - 3] == m;
    assert r[|r| - 2..] == s;
  }

  /** The same for whole seconds. */
  lemma FormatTimeWholeSeconds(n: nat)
    ensures var r := FormatTime(n as real);
            && |r| >= 5 && r[|r| - 3] == ':'
            && IsDigits(r[..|r| - 3]) && IsDigits(r[|r| - 2..])
            && DigitsValue(r[..|r| - 3]) == n / 60
            && DigitsValue(r[|r| - 2..]) == n % 60
  {
    FormatTimeClock(n as real);
    assert (n as real).Floor == n;
  }

  /**
   * `format_time(x)` for any argument, where `arg` is what `float(x)` gives and `None`
   * means it raised `ValueError` or `TypeError`.
   */
  function FormatTimeOf(arg: Option<real>): string {
    match arg
    case None => "00:00"
    case Some(x) => FormatTime(x)
  }

  /** A non-numeric argument is shown as `00:00`, the same as zero seconds or any time under one second. */
  lemma FormatTimeNonNumeric(x: real)
    requires 0.0 <= x < 1.0
    ensures FormatTimeOf(None) == "00:00" == FormatTimeOf(Some(x))
  {
    assert Truncate(x) == 0;
    assert Minutes(0) == 0;
    assert Pad2(0) == "00" by {
      assert NatToString(0) == "0";
    }
  }

  // ---------------------------------------------------------------------------
  // Tag removal: re.sub(r'<text[^>]*>', '', s) and re.sub(r'<[^>]+>', '', s)
  // ---------------------------------------------------------------------------

  /** The first `>` at or after `i`. */
  function FirstGt(s: string, i: nat): (r: Option<nat>)
    requires i <= |s|
    ensures r.Some? ==> i <= r.value < |s| && s[r.value] == '>'
    ensures r.Some? ==> forall k :: i <= k < r.value ==> s[k] != '>'
    ensures r.None? <==> '>' !in s[i..]
    decreases |s| - i
  {
    if i == |s| then None
    else if s[i] == '>' then Some(i)
    else
      var r := FirstGt(s, i + 1);
      assert s[i..] == [s[i]] + s[i + 1..];
      r
  }

  /**
   * `<[^>]+>` matches at `i`: a `<`, then at least one character that is not `>`,
   * then a `>`.
   */
  predicate TagAt(s: string, i: nat) {
    i + 1 < |s| && s[i] == '<' && s[i + 1] != '>' && '>' in s[i + 2..]
  }

  /** No complete tag is left for `<[^>]+>` to match. */
  predicate TagFree(s: string) {
    forall i :: 0 <= i < |s| ==> !TagAt(s, i)
  }

  /** `re.sub(r'<[^>]+>', '', s)`: drops every complete tag, scanning left to right. */
  function RemoveTags(s: string): (r: string)
    ensures forall k :: 0 <= k < |r| ==> r[k] in s
    decreases |s|
  {
    if |s| == 0 then ""
    else if TagAt(s, 0) then
      var close := FirstGt(s, 2).value;
      var r := RemoveTags(s[close + 1..]);
      assert forall k :: 0 <= k < |r| ==> r[k] in s[close + 1..];
      r
    else
      var r := [s[0]] + RemoveTags(s[1..]);
      assert forall k :: 1 <= k < |r| ==> r[k] in s[1..];
      r
  }

  /** Tag removal only deletes: the result is a subsequence of the input. */
  lemma {:induction false} RemoveTagsDeletes(s: string)
    ensures IsSubsequence(RemoveTags(s), s)
    decreases |s|
  {
    if |s| == 0 {
    } else if TagAt(s, 0) {
      var close := FirstGt(s, 2).value;
      RemoveTagsDeletes(s[close + 1..]);
      SubsequenceOfSuffix(RemoveTags(s), s, close + 1);
    } else {
      var r := RemoveTags(s);
      RemoveTagsDeletes(s[1..]);
      assert r[0] == s[0] && r[1..] == RemoveTags(s[1..]);
    }
  }

  /** `<text[^>]*>` matches at `i`: the characters `<text`, then up to and including the next `>`. */
  predicate TextTagAt(s: string, i: nat) {
    i + 5 <= |s| && s[i..i + 5] == "<text" && '>' in s[i + 5..]
  }

  /** `re.sub(r'<text[^>]*>', '', s)`. */
  function RemoveTextTags(s: string): string
    decreases |s|
  {
    if |s| == 0 then ""
    else if TextTagAt(s, 0) then RemoveTextTags(s[FirstGt(s, 5).value + 1..])
    else [s[0]] + RemoveTextTags(s[1..])
  }

  lemma TagAtShift(c: char, s: string, i: nat)
    ensures TagAt([c] + s, i + 1) <==> TagAt(s, i)
  {
    var t := [c] + s;
    if i + 1 < |s| {
      assert t[i + 3..] == s[i + 2..];
    }
  }

  /** A string with no `>` in it gets none from tag removal. */
  lemma NoGtAfterRemoval(s: string)
    requires '>' !in s
    ensures '>' !in RemoveTags(s)
  {
  }

  /** After `re.sub(r'<[^>]+>', '', s)` no complete tag is left. */
  lemma {:induction false} RemoveTagsTagFree(s: string)
    ensures TagFree(RemoveTags(s))
    decreases |s|
  {
    if |s| == 0 {
    } else if TagAt(s, 0) {
      RemoveTagsTagFree(s[FirstGt(s, 2).value + 1..]);
    } else {
      var rest := RemoveTags(s[1..]);
      RemoveTagsTagFree(s[1..]);
      var r := [s[0]] + rest;
      forall i | 0 <= i < |r| ensures !TagAt(r, i) {
        if i > 0 {
          TagAtShift(s[0], rest, i - 1);
        }
      }
    }
  }

  /** Tag removal leaves a tag-free string as it is, so applying it twice changes nothing more. */
  lemma {:induction false} RemoveTagsOnTagFree(s: string)
    requires TagFree(s)
    ensures RemoveTags(s) == s
    decreases |s|
  {
    if |s| > 0 {
      assert !TagAt(s, 0);
      forall i | 0 <= i < |s| - 1 ensures !TagAt(s[1..], i) {
        TagAtShift(s[0], s[1..], i);
        assert [s[0]] + s[1..] == s;
      }
      RemoveTagsOnTagFree(s[1..]);
    }
  }

  lemma RemoveTagsIdempotent(s: string)
    ensures RemoveTags(RemoveTags(s)) == RemoveTags(s)
  {
    RemoveTagsTagFree(s);
    RemoveTagsOnTagFree(RemoveTags(s));
  }

  /** A line without `<` has no tag to remove. */
  lemma {:induction false} RemoveTagsPlainText(s: string)
    requires '<' !in s
    ensures RemoveTags(s) == s
  {
    forall i | 0 <= i < |s| ensures !TagAt(s, i) {
    }
    RemoveTagsOnTagFree(s);
  }

  // ---------------------------------------------------------------------------
  // extract_subtitle_items_from_xml
  // ---------------------------------------------------------------------------

  const XmlPrologue: string := "<?xml version=\"1.0\" encoding=\"utf-8\" ?><transcript>"

  /** The `</text>`-separated chunks, after the prologue and `</transcript>` are deleted. */
  function XmlChunks(xml: string): seq<string> {
    Split(ReplaceAll(ReplaceAll(xml, XmlPrologue, ""), "</transcript>", ""), "</text>")
  }

  /** `re.search(r'start="([\d.]+)"', line)`. */
  function StartAttr(line: string): Option<string> {
    Scan.Search(line, "start=\"", IsDecimalChar, Some('"'))
  }

  /** `re.search(r'dur="([\d.]+)"', line)`. */
  function DurAttr(line: string): Option<string> {
    Scan.Search(line, "dur=\"", IsDecimalChar, Some('"'))
  }

  /** The text of an XML chunk: the opening `<text ...>` tag and every other complete tag removed. */
  function ChunkText(line: string): string {
    RemoveTags(RemoveTextTags(line))
  }

  /**
   * One iteration of the chunk loop: blank chunks and chunks lacking either attribute
   * are skipped; `float(start)` raises when the captured start is not a number.
   */
  function XmlStep(chunk: string): Step<SubtitleItem> {
    var line := Strip(chunk);
    if line == [] then Skip
    else
      var st := StartAttr(line);
      var du := DurAttr(line);
      if st.None? || du.None? then Skip
      else
        var x := ParseDecimal(st.value);
        if x.None? then Fail
        else
          Emit(SubtitleItem(ChunkText(line), Written(st.value), Written(du.value), Some(Written(du.value)),
                            Some(FormatTime(x.value)), None))
  }

  /** The body of the chunk loop: strip, capture both attributes, `float(start)`, build the item. */
  method XmlChunkItem(chunk: string) returns (step: Step<SubtitleItem>)
    ensures step == XmlStep(chunk)
  {
    var line := Strip(chunk);
    if line == [] {
      return Skip;
    }
    var startMatch := StartAttr(line);
    var durMatch := DurAttr(line);
    if startMatch.None? || durMatch.None? {
      return Skip;
    }
    var st := startMatch.value;
    var du := durMatch.value;
    var startValue := ParseDecimal(st);
    if startValue.None? {
      return Fail;
    }
    var startFormatted := FormatTime(startValue.value);
    var text := RemoveTextTags(line);
    text := RemoveTags(text);
    step := Emit(SubtitleItem(text, Written(st), Written(du), Some(Written(du)), Some(startFormatted), None));
  }

  /** `extract_subtitle_items_from_xml(xml_content)`; `None` when it raises. */
  method ExtractXmlItems(xmlContent: string) returns (items: Option<seq<SubtitleItem>>)
    ensures items == Collect(XmlChunks(xmlContent), XmlStep)
  {
    var content := ReplaceAll(xmlContent, XmlPrologue, "");
    content := ReplaceAll(content, "</transcript>", "");
    var chunks := Split(content, "</text>");
    items := XmlChunkLoop(chunks);
  }

  /** The loop over the `</text>`-delimited chunks. */
  method XmlChunkLoop(chunks: seq<string>) returns (items: Option<seq<SubtitleItem>>)
    ensures items == Collect(chunks, XmlStep)
  {
    var acc: seq<SubtitleItem> := [];
    for i := 0 to |chunks|
      invariant acc == FilterMap(chunks[..i], XmlStep)
      invariant NoFail(chunks[..i], XmlStep)
    {
      assert chunks[..i + 1] == chunks[..i] + [chunks[i]];
      FilterMapSnoc(chunks[..i], chunks[i], XmlStep);
      NoFailSnoc(chunks[..i], chunks[i], XmlStep);
      var step := XmlChunkItem(chunks[i]);
      if step.Fail? {
        CollectFail(chunks, XmlStep, i);
        return None;
      }
      if step.Emit? {
        acc := acc + [step.value];
      }
    }
    assert chunks[..|chunks|] == chunks;
    items := Some(acc);
  }

  /**
   * An item made from a chunk carries the chunk's two captured attributes, `duration`
   * equal to `dur`, `startFormatted` equal to `format_time(start)`, and tag-free text.
   */
  lemma XmlItemFields(chunk: string, item: SubtitleItem)
    requires XmlStep(chunk) == Emit(item)
    ensures var line := Strip(chunk);
            && line != []
            && item.start.Written? && StartAttr(line) == Some(item.start.chars)
            && item.dur.Written? && DurAttr(line) == Some(item.dur.chars)
            && item.duration == Some(item.dur)
            && ToFloat(item.start).Some?
            && item.startFormatted == Some(FormatTime(ToFloat(item.start).value))
            && TagFree(item.text)
            && item.text == RemoveTags(RemoveTextTags(line))
  {
    RemoveTagsTagFree(RemoveTextTags(Strip(chunk)));
  }

  /** A non-blank chunk that carries both attributes and a readable start always yields an item. */
  lemma XmlChunkKept(chunk: string)
    requires Strip(chunk) != []
    requires StartAttr(Strip(chunk)).Some? && DurAttr(Strip(chunk)).Some?
    requires ParseDecimal(StartAttr(Strip(chunk)).value).Some?
    ensures XmlStep(chunk).Emit?
  {
  }

  /** The step that keeps exactly the non-blank chunks. */
  function NonBlankStep(chunk: string): Step<string> {
    if Strip(chunk) == [] then Skip else Emit(chunk)
  }

  /** There are never more items than non-blank chunks. */
  lemma XmlItemsAtMostChunks(xml: string)
    requires Collect(XmlChunks(xml), XmlStep).Some?
    ensures |Collect(XmlChunks(xml), XmlStep).value| <= |FilterMap(XmlChunks(xml), NonBlankStep)|
  {
    var chunks := XmlChunks(xml);
    forall i | 0 <= i < |chunks| && XmlStep(chunks[i]).Emit? ensures NonBlankStep(chunks[i]).Emit? {
    }
    FilterMapFewer(chunks, XmlStep, NonBlankStep);
  }

  /**
   * When every non-blank chunk is a well-formed element (both attributes, a readable
   * start), there is exactly one item per non-blank chunk.
   */
  lemma XmlItemsOnePerElement(xml: string)
    requires forall i :: 0 <= i < |XmlChunks(xml)| && Strip(XmlChunks(xml)[i]) != [] ==>
               && StartAttr(Strip(XmlChunks(xml)[i])).Some?
               && DurAttr(Strip(XmlChunks(xml)[i])).Some?
               && ParseDecimal(StartAttr(Strip(XmlChunks(xml)[i])).value).Some?
    ensures Collect(XmlChunks(xml), XmlStep).Some?
    ensures |Collect(XmlChunks(xml), XmlStep).value| == |FilterMap(XmlChunks(xml), NonBlankStep)|
  {
    var chunks := XmlChunks(xml);
    forall i | 0 <= i < |chunks| ensures !XmlStep(chunks[i]).Fail? {
    }
    NoFailIff(chunks, XmlStep);
    forall i | 0 <= i < |chunks| && XmlStep(chunks[i]).Emit? ensures NonBlankStep(chunks[i]).Emit? {
    }
    forall i | 0 <= i < |chunks| && NonBlankStep(chunks[i]).Emit? ensures XmlStep(chunks[i]).Emit? {
      XmlChunkKept(chunks[i]);
    }
    FilterMapFewer(chunks, XmlStep, NonBlankStep);
    FilterMapFewer(chunks, NonBlankStep, XmlStep);
  }

  /** A chunk the loop keeps when no chunk raises: non-blank and carrying both attributes. */
  predicate XmlElement(chunk: string) {
    var line := Strip(chunk);
    line != [] && StartAttr(line).Some? && DurAttr(line).Some?
  }

  /** A chunk is skipped exactly when it is blank or lacks `start` or `dur`. */
  lemma XmlChunkSkipped(chunk: string)
    ensures XmlStep(chunk).Skip? <==> !XmlElement(chunk)
  {
  }

  /**
   * `items` is the XML list for `chunks` with `idx` its source indices: item `k` is built
   * from chunk `idx[k]`; the indices ascend and are exactly those of the chunks that are
   * well-formed elements.
   */
  ghost predicate XmlIndexed(chunks: seq<string>, items: seq<SubtitleItem>, idx: seq<nat>) {
    && |items| == |idx|
    && (forall k :: 0 <= k < |items| ==> idx[k] < |chunks| && XmlStep(chunks[idx[k]]) == Emit(items[k]))
    && (forall k, l :: 0 <= k < l < |items| ==> idx[k] < idx[l])
    && (forall i :: 0 <= i < |chunks| ==> (XmlElement(chunks[i]) <==> i in idx))
  }

  /**
   * When no chunk raises, the items follow document order, one per well-formed element;
   * blank chunks and chunks lacking `start` or `dur` are dropped.
   */
  lemma XmlItemsInOrder(xml: string)
    requires Collect(XmlChunks(xml), XmlStep).Some?
    ensures XmlIndexed(XmlChunks(xml), Collect(XmlChunks(xml), XmlStep).value, KeptIndices(XmlChunks(xml), XmlStep))
  {
    var chunks := XmlChunks(xml);
    var idx := KeptIndices(chunks, XmlStep);
    NoFailIff(chunks, XmlStep);
    forall i | 0 <= i < |chunks| ensures XmlElement(chunks[i]) <==> i in idx {
      XmlChunkSkipped(chunks[i]);
      if i in idx {
        var k :| 0 <= k < |idx| && idx[k] == i;
      }
    }
  }

  // ---------------------------------------------------------------------------
  // extract_subtitle_items_from_json
  // ---------------------------------------------------------------------------

  /** The decoded timed-text JSON; `None` marks a missing key. */
  datatype Segment = Segment(utf8: Option<string>)
  datatype TimedEvent = TimedEvent(tStartMs: Option<real>, dDurationMs: Option<real>, segs: Option<seq<Segment>>)
  datatype TimedText = TimedText(events: Option<seq<TimedEvent>>)

  /** What `json.loads` gives: the payload, or `JSONDecodeError`. */
  datatype JsonOutcome = Decoded(payload: TimedText) | DecodeError

  /** `text += seg["utf8"]` over the segments that have the key. */
  function SegmentsText(segs: seq<Segment>): string
    decreases |segs|
  {
    if |segs| == 0 then ""
    else SegmentsText(segs[..|segs| - 1]) + segs[|segs| - 1].utf8.GetOr("")
  }

  /** The concatenation distributes over consecutive runs of segments. */
  lemma {:induction false} SegmentsTextAppend(a: seq<Segment>, b: seq<Segment>)
    ensures SegmentsText(a + b) == SegmentsText(a) + SegmentsText(b)
    decreases |b|
  {
    if |b| == 0 {
      assert a + b == a;
    } else {
      assert (a + b)[..|a + b| - 1] == a + b[..|b| - 1];
      SegmentsTextAppend(a, b[..|b| - 1]);
    }
  }

  /** Segments without `utf8` contribute nothing; the others contribute their text, in order. */
  lemma SegmentsTextOne(s: Segment)
    ensures SegmentsText([s]) == s.utf8.GetOr("")
  {
    assert [s][..0] == [];
  }

  function EventText(e: TimedEvent): string {
    match e.segs
    case None => ""
    case Some(segs) => SegmentsText(segs)
  }

  /** Start in seconds: `tStartMs / 1000`, with a missing `tStartMs` read as 0. */
  function EventStart(e: TimedEvent): real {
    e.tStartMs.GetOr(0.0) / 1000.0
  }

  /** Duration in seconds: `dDurationMs / 1000`, with a missing `dDurationMs` read as 2000. */
  function EventDur(e: TimedEvent): real {
    e.dDurationMs.GetOr(2000.0) / 1000.0
  }

  /** One iteration of the event loop: events whose text is blank are skipped. */
  function JsonStep(e: TimedEvent): Step<SubtitleItem> {
    var text := EventText(e);
    if Strip(text) == [] then Skip
    else
      Emit(SubtitleItem(Strip(text), Rendered(EventStart(e)), Rendered(EventDur(e)), Some(Rendered(EventDur(e))),
                        Some(FormatTime(EventStart(e))), None))
  }

  function JsonItems(payload: TimedText): seq<SubtitleItem> {
    match payload.events
    case None => []
    case Some(events) => FilterMap(events, JsonStep)
  }

  /** The inner loop `for seg in event["segs"]: if "utf8" in seg: text += seg["utf8"]`. */
  method JoinSegments(segs: seq<Segment>) returns (text: string)
    ensures text == SegmentsText(segs)
  {
    text := "";
    for j := 0 to |segs|
      invariant text == SegmentsText(segs[..j])
    {
      assert segs[..j + 1][..j] == segs[..j];
      if segs[j].utf8.Some? {
        text := text + segs[j].utf8.value;
      }
    }
    assert segs[..|segs|] == segs;
  }

  /** The body of the loop over `json_data["events"]`: one event to at most one item. */
  method EventToItem(event: TimedEvent) returns (step: Step<SubtitleItem>)
    ensures step == JsonStep(event)
  {
    var start := event.tStartMs.GetOr(0.0) / 1000.0;
    var dur := event.dDurationMs.GetOr(2000.0) / 1000.0;
    assert start == EventStart(event) && dur == EventDur(event);
    var startFormatted := FormatTime(start);
    var text := "";
    if event.segs.Some? {
      text := JoinSegments(event.segs.value);
    }
    assert text == EventText(event);
    if Strip(text) != [] {
      step := Emit(SubtitleItem(Strip(text), Rendered(start), Rendered(dur), Some(Rendered(dur)), Some(startFormatted), None));
    } else {
      step := Skip;
    }
  }

  /** `extract_subtitle_items_from_json(json_data)`. */
  method ExtractJsonItems(payload: TimedText) returns (items: seq<SubtitleItem>)
    ensures items == JsonItems(payload)
    ensures payload.events.None? ==> items == []
  {
    items := [];
    if payload.events.None? {
      return;
    }
    items := JsonEventLoop(payload.events.value);
  }

  /** The loop over `json_data["events"]`. */
  method JsonEventLoop(events: seq<TimedEvent>) returns (items: seq<SubtitleItem>)
    ensures items == FilterMap(events, JsonStep)
  {
    items := [];
    for i := 0 to |events|
      invariant items == FilterMap(events[..i], JsonStep)
    {
      var step := EventToItem(events[i]);
      FilterMapSnocStep(events[..i], events[i], JsonStep, step);
      assert events[..i + 1] == events[..i] + [events[i]];
      if step.Emit? {
        items := items + [step.value];
      }
    }
    assert events[..|events|] == events;
  }

  /**
   * An item made from an event: start `tStartMs / 1000` (0 when missing), duration
   * `dDurationMs / 1000` (2 seconds when missing), `duration` equal to `dur`, and the
   * stripped, non-blank concatenation of the segments' text.
   */
  lemma JsonItemFields(e: TimedEvent, item: SubtitleItem)
    requires JsonStep(e) == Emit(item)
    ensures ToFloat(item.start) == Some(if e.tStartMs.Some? then e.tStartMs.value / 1000.0 else 0.0)
    ensures ToFloat(item.dur) == Some(if e.dDurationMs.Some? then e.dDurationMs.value / 1000.0 else 2.0)
    ensures item.duration == Some(item.dur)
    ensures item.startFormatted == Some(FormatTime(ToFloat(item.start).value))
    ensures item.text == Strip(EventText(e)) && item.text != []
  {
  }

  /** An event whose segments hold only whitespace yields no item. */
  lemma JsonBlankEventDropped(e: TimedEvent)
    requires AllSpace(EventText(e))
    ensures JsonStep(e) == Skip
  {
    StripEmptyIff(EventText(e));
  }

  // ---------------------------------------------------------------------------
  // enhance_subtitle_items
  // ---------------------------------------------------------------------------

  /**
   * One iteration of the enhancement loop: `float(start)` and `float(dur)` must both
   * succeed; the text is entity-decoded, `end` and `duration` are added, and
   * `startFormatted` is added only when the item has none.
   */
  function EnhanceStep(item: SubtitleItem, decode: string -> string): Step<SubtitleItem> {
    var st := ToFloat(item.start);
    var du := ToFloat(item.dur);
    if st.None? || du.None? then Fail
    else
      Emit(item.(text := decode(item.text),
                 end := Some(st.value + du.value),
                 duration := Some(item.dur),
                 startFormatted := if item.startFormatted.Some? then item.startFormatted else Some(FormatTime(st.value))))
  }

  function EnhanceWith(decode: string -> string): SubtitleItem -> Step<SubtitleItem> {
    item => EnhanceStep(item, decode)
  }

  /** The body of the loop over `subtitles`: `float()` of both times, then the enhanced copy. */
  method EnhanceItem(item: SubtitleItem, decode: string -> string) returns (step: Step<SubtitleItem>)
    ensures step == EnhanceStep(item, decode)
  {
    var start := ToFloat(item.start);
    var dur := ToFloat(item.dur);
    if start.None? || dur.None? {
      return Fail;
    }
    var enhanced := item.(text := decode(item.text), end := Some(start.value + dur.value), duration := Some(item.dur));
    if item.startFormatted.None? {
      enhanced := enhanced.(startFormatted := Some(FormatTime(start.value)));
    }
    step := Emit(enhanced);
  }

  /** `enhance_subtitle_items(subtitles)`; `None` when it raises. */
  method EnhanceItems(items: seq<SubtitleItem>, decode: string -> string) returns (result: Option<seq<SubtitleItem>>)
    ensures result == Collect(items, EnhanceWith(decode))
  {
    var acc: seq<SubtitleItem> := [];
    for i := 0 to |items|
      invariant acc == FilterMap(items[..i], EnhanceWith(decode))
      invariant NoFail(items[..i], EnhanceWith(decode))
    {
      var step := EnhanceItem(items[i], decode);
      assert EnhanceWith(decode)(items[i]) == step;
      FilterMapSnocStep(items[..i], items[i], EnhanceWith(decode), step);
      assert items[..i + 1] == items[..i] + [items[i]];
      if step.Fail? {
        CollectFail(items, EnhanceWith(decode), i);
        return None;
      }
      acc := acc + [step.value];
    }
    assert items[..|items|] == items;
    result := Some(acc);
  }

  /**
   * `out` is `item` enhanced: decoded text, the same `start` and `dur`, `duration = dur`,
   * `end = float(start) + float(dur)`, an existing `startFormatted` kept and otherwise
   * `format_time(float(start))`.
   */
  predicate EnhancedFrom(item: SubtitleItem, out: SubtitleItem, decode: string -> string)
    requires ToFloat(item.start).Some? && ToFloat(item.dur).Some?
  {
    && out.text == decode(item.text)
    && out.start == item.start && out.dur == item.dur
    && out.duration == Some(item.dur)
    && out.end == Some(ToFloat(item.start).value + ToFloat(item.dur).value)
    && out.startFormatted == (if item.startFormatted.Some? then item.startFormatted
                              else Some(FormatTime(ToFloat(item.start).value)))
  }

  /** True when `float()` of the item's `start` or `dur` raises. */
  predicate BadTimes(item: SubtitleItem) {
    ToFloat(item.start).None? || ToFloat(item.dur).None?
  }

  /** One step of the enhancement loop fails exactly on bad times and otherwise enhances. */
  lemma EnhanceStepFields(item: SubtitleItem, decode: string -> string)
    ensures EnhanceStep(item, decode).Fail? <==> BadTimes(item)
    ensures !BadTimes(item) ==> EnhanceStep(item, decode).Emit? && EnhancedFrom(item, EnhanceStep(item, decode).value, decode)
  {
  }

  /** Enhancement raises exactly when some item's `start` or `dur` is not a number. */
  lemma EnhanceFails(items: seq<SubtitleItem>, decode: string -> string)
    ensures Collect(items, EnhanceWith(decode)).None? <==> exists i :: 0 <= i < |items| && BadTimes(items[i])
  {
    var f := EnhanceWith(decode);
    NoFailIff(items, f);
    forall i | 0 <= i < |items| ensures f(items[i]).Fail? <==> BadTimes(items[i]) {
      EnhanceStepFields(items[i], decode);
    }
  }

  /**
   * When enhancement does not raise it keeps length and order and enhances every item.
   */
  lemma EnhanceFields(items: seq<SubtitleItem>, decode: string -> string)
    ensures Collect(items, EnhanceWith(decode)).Some? ==>
            && |Collect(items, EnhanceWith(decode)).value| == |items|
            && forall i :: 0 <= i < |items| ==>
                 !BadTimes(items[i]) && EnhancedFrom(items[i], Collect(items, EnhanceWith(decode)).value[i], decode)
  {
    var f := EnhanceWith(decode);
    NoFailIff(items, f);
    if NoFail(items, f) {
      assert forall i :: 0 <= i < |items| ==> f(items[i]).Emit?;
      FilterMapAllEmit(items, f);
      var out := FilterMap(items, f);
      forall i | 0 <= i < |items| ensures !BadTimes(items[i]) && EnhancedFrom(items[i], out[i], decode) {
        EnhanceStepFields(items[i], decode);
      }
    }
  }

  /**
   * The fields the frontend relies on agree with the times: `duration` is `dur`, `end` is
   * `float(start) + float(dur)`, and `startFormatted` is `format_time(float(start))`.
   */
  predicate Consistent(item: SubtitleItem) {
    && item.duration == Some(item.dur)
    && ToFloat(item.start).Some? && ToFloat(item.dur).Some?
    && item.end == Some(ToFloat(item.start).value + ToFloat(item.dur).value)
    && item.startFormatted == Some(FormatTime(ToFloat(item.start).value))
  }

  /** One enhanced item is consistent unless it kept a `startFormatted` that disagrees with its start. */
  lemma EnhanceStepConsistent(item: SubtitleItem, decode: string -> string)
    requires EnhanceStep(item, decode).Emit?
    requires item.startFormatted.Some? ==> item.startFormatted == Some(FormatTime(ToFloat(item.start).value))
    ensures Consistent(EnhanceStep(item, decode).value)
  {
  }

  /**
   * Enhancing items that have no `startFormatted`, or one equal to `format_time(start)`,
   * makes every item consistent.
   */
  lemma EnhanceMakesConsistent(items: seq<SubtitleItem>, decode: string -> string)
    requires forall i :: 0 <= i < |items| && items[i].startFormatted.Some? && ToFloat(items[i].start).Some? ==>
               items[i].startFormatted == Some(FormatTime(ToFloat(items[i].start).value))
    requires Collect(items, EnhanceWith(decode)).Some?
    ensures forall k :: 0 <= k < |Collect(items, EnhanceWith(decode)).value| ==>
              Consistent(Collect(items, EnhanceWith(decode)).value[k])
  {
    var f := EnhanceWith(decode);
    NoFailIff(items, f);
    assert forall i :: 0 <= i < |items| ==> f(items[i]).Emit?;
    FilterMapAllEmit(items, f);
    var out := FilterMap(items, f);
    forall k | 0 <= k < |out| ensures Consistent(out[k]) {
      assert f(items[k]) == EnhanceStep(items[k], decode);
      EnhanceStepConsistent(items[k], decode);
    }
  }

  // ---------------------------------------------------------------------------
  // convert_transcript_api_format
  // ---------------------------------------------------------------------------

  /** An entry of the transcript API's list; `None` marks a missing key. */
  datatype TranscriptEntry = TranscriptEntry(start: Option<real>, duration: Option<real>, text: Option<string>)

  /**
   * One converted entry. A missing `start` is the integer 0 and a missing `duration` the
   * integer 2, so `str()` writes them as "0" and "2".
   */
  function ConvertEntry(e: TranscriptEntry, decode: string -> string): SubtitleItem {
    var start := e.start.GetOr(0.0);
    var dur := e.duration.GetOr(2.0);
    var startText := if e.start.Some? then Rendered(start) else Written("0");
    var durText := if e.duration.Some? then Rendered(dur) else Written("2");
    SubtitleItem(decode(e.text.GetOr("")), startText, durText, Some(durText), Some(FormatTime(start)), Some(start + dur))
  }

  /** `convert_transcript_api_format(transcript_data)`. */
  method ConvertTranscriptFormat(entries: seq<TranscriptEntry>, decode: string -> string) returns (items: seq<SubtitleItem>)
    ensures |items| == |entries|
    ensures forall i :: 0 <= i < |entries| ==> items[i] == ConvertEntry(entries[i], decode)
  {
    items := [];
    for i := 0 to |entries|
      invariant |items| == i
      invariant forall k :: 0 <= k < i ==> items[k] == ConvertEntry(entries[k], decode)
    {
      var item := ConvertOne(entries[i], decode);
      items := items + [item];
    }
  }

  /** The body of the conversion loop: defaults, `format_time(start)` and `end`. */
  method ConvertOne(entry: TranscriptEntry, decode: string -> string) returns (item: SubtitleItem)
    ensures item == ConvertEntry(entry, decode)
  {
    var start := entry.start.GetOr(0.0);
    var dur := entry.duration.GetOr(2.0);
    var startFormatted := FormatTime(start);
    var text := decode(entry.text.GetOr(""));
    var startText := if entry.start.Some? then Rendered(start) else Written("0");
    var durText := if entry.duration.Some? then Rendered(dur) else Written("2");
    item := SubtitleItem(text, startText, durText, Some(durText), Some(startFormatted), Some(start + dur));
  }

  /** `float("0")` is 0 and `float("2")` is 2. */
  lemma TimeConstants()
    ensures ParseDecimal("0") == Some(0.0) && ParseDecimal("2") == Some(2.0)
  {
    ParseDecimalNat(0);
    assert NatToString(0) == "0";
    ParseDecimalNat(2);
    assert NatToString(2) == "2";
  }

  /**
   * Every converted entry is consistent, reads its start as 0 and its duration as 2
   * seconds when they are missing, and carries the decoded text.
   */
  lemma ConvertEntryFields(e: TranscriptEntry, decode: string -> string)
    ensures Consistent(ConvertEntry(e, decode))
    ensures ToFloat(ConvertEntry(e, decode).start) == Some(e.start.GetOr(0.0))
    ensures ToFloat(ConvertEntry(e, decode).dur) == Some(e.duration.GetOr(2.0))
    ensures ConvertEntry(e, decode).text == decode(e.text.GetOr(""))
  {
    TimeConstants();
  }

  // ---------------------------------------------------------------------------
  // process_subtitles
  // ---------------------------------------------------------------------------

  /** The dictionary `process_subtitles` returns. */
  datatype Processed = Processed(text: string, subtitles: seq<SubtitleItem>)

  predicate TakesXmlBranch(formatType: string, subtitleText: string) {
    formatType == "xml" || (formatType == "text" && StartsWith(subtitleText, "<?xml"))
  }

  predicate TakesJsonBranch(formatType: string, subtitleText: string) {
    formatType == "json" || (formatType == "text" && StartsWith(subtitleText, "{"))
  }

  /** `enumerate(lines)`. */
  function Enumerate(lines: seq<string>): (r: seq<(nat, string)>)
    ensures |r| == |lines|
    ensures forall i :: 0 <= i < |lines| ==> r[i] == (i, lines[i])
  {
    seq(|lines|, i requires 0 <= i < |lines| => (i, lines[i]))
  }

  /** The lines of the plain-text branch: `subtitle_text.strip().split('\n')`. */
  function PlainLines(subtitleText: string): seq<string> {
    Split(Strip(subtitleText), "\n")
  }

  /** One iteration of the plain-text loop: the line at index `i` starts at `3 * i` seconds and lasts 3. */
  function PlainStep(line: (nat, string)): Step<SubtitleItem> {
    var text := Strip(line.1);
    if text == [] then Skip
    else
      Emit(SubtitleItem(text, Written(NatToString(3 * line.0)), Written("3"), Some(Written("3")),
                        Some(FormatTime((3 * line.0) as real)), None))
  }

  /** The `subtitles` list `process_subtitles` returns. */
  function ProcessedSubtitles(subtitleText: string, formatType: string, loads: string -> JsonOutcome,
                              decode: string -> string): seq<SubtitleItem>
  {
    if TakesXmlBranch(formatType, subtitleText) then
      match Collect(XmlChunks(subtitleText), XmlStep)
      case None => []
      case Some(items) => Collect(items, EnhanceWith(decode)).GetOr([])
    else if TakesJsonBranch(formatType, subtitleText) then
      match loads(subtitleText)
      case DecodeError => []
      case Decoded(payload) => Collect(JsonItems(payload), EnhanceWith(decode)).GetOr([])
    else
      FilterMap(Enumerate(PlainLines(subtitleText)), PlainStep)
  }

  /**
   * `process_subtitles(subtitle_text, format_type)`. Any exception raised while parsing or
   * enhancing leaves `subtitles` empty; the `text` is always the input.
   */
  method ProcessSubtitles(subtitleText: string, formatType: string, loads: string -> JsonOutcome,
                          decode: string -> string) returns (result: Processed)
    ensures result.text == subtitleText
    ensures result.subtitles == ProcessedSubtitles(subtitleText, formatType, loads, decode)
  {
    result := Processed(subtitleText, []);
    if TakesXmlBranch(formatType, subtitleText) {
      var items := ExtractXmlItems(subtitleText);
      if items.None? {
        return;
      }
      var enhanced := EnhanceItems(items.value, decode);
      if enhanced.None? {
        return;
      }
      result := result.(subtitles := enhanced.value);
    } else if TakesJsonBranch(formatType, subtitleText) {
      var decoded := loads(subtitleText);
      if decoded.DecodeError? {
        return;
      }
      var items := ExtractJsonItems(decoded.payload);
      var enhanced := EnhanceItems(items, decode);
      if enhanced.None? {
        return;
      }
      result := result.(subtitles := enhanced.value);
    } else {
      var lines := Split(Strip(subtitleText), "\n");
      var items := PlainLoop(lines);
      result := result.(subtitles := items);
    }
  }

  /** The loop of the plain-text branch over `enumerate(lines)`. */
  method PlainLoop(lines: seq<string>) returns (items: seq<SubtitleItem>)
    ensures items == FilterMap(Enumerate(lines), PlainStep)
  {
    items := [];
    for i := 0 to |lines|
      invariant items == FilterMap(Enumerate(lines)[..i], PlainStep)
    {
      var numbered: (nat, string) := (i, lines[i]);
      assert Enumerate(lines)[..i + 1] == Enumerate(lines)[..i] + [numbered];
      FilterMapSnoc(Enumerate(lines)[..i], numbered, PlainStep);
      var line := Strip(lines[i]);
      if line == [] {
        continue;
      }
      var start := 3 * i;
      var dur := "3";
      var startFormatted := FormatTime(start as real);
      items := items + [SubtitleItem(line, Written(NatToString(start)), Written(dur), Some(Written(dur)), Some(startFormatted), None)];
    }
    assert Enumerate(lines)[..|lines|] == Enumerate(lines);
  }

  /** In the XML branch, a chunk whose captured start `float` rejects empties the whole list. */
  lemma ProcessXmlUnreadableStart(subtitleText: string, formatType: string, loads: string -> JsonOutcome,
                                  decode: string -> string, i: nat)
    requires TakesXmlBranch(formatType, subtitleText)
    requires i < |XmlChunks(subtitleText)|
    requires var line := Strip(XmlChunks(subtitleText)[i]);
             line != [] && StartAttr(line).Some? && DurAttr(line).Some? && ParseDecimal(StartAttr(line).value).None?
    ensures ProcessedSubtitles(subtitleText, formatType, loads, decode) == []
  {
    assert XmlStep(XmlChunks(subtitleText)[i]) == Fail;
    NoFailIff(XmlChunks(subtitleText), XmlStep);
  }

  /** In the XML branch, an unreadable `dur` makes enhancement raise, which empties the list too. */
  lemma ProcessXmlUnreadableDur(subtitleText: string, formatType: string, loads: string -> JsonOutcome,
                                decode: string -> string, i: nat)
    requires TakesXmlBranch(formatType, subtitleText)
    requires Collect(XmlChunks(subtitleText), XmlStep).Some?
    requires i < |Collect(XmlChunks(subtitleText), XmlStep).value|
    requires ToFloat(Collect(XmlChunks(subtitleText), XmlStep).value[i].dur).None?
    ensures ProcessedSubtitles(subtitleText, formatType, loads, decode) == []
  {
    var items := Collect(XmlChunks(subtitleText), XmlStep).value;
    assert BadTimes(items[i]);
    EnhanceFails(items, decode);
  }

  /** In the JSON branch, a payload `json.loads` rejects leaves the list empty. */
  lemma ProcessJsonDecodeError(subtitleText: string, formatType: string, loads: string -> JsonOutcome,
                               decode: string -> string)
    requires !TakesXmlBranch(formatType, subtitleText) && TakesJsonBranch(formatType, subtitleText)
    requires loads(subtitleText).DecodeError?
    ensures ProcessedSubtitles(subtitleText, formatType, loads, decode) == []
  {
  }

  /**
   * Every item the XML and JSON branches return is consistent: `duration` is `dur`,
   * `end` is `start + dur` and `startFormatted` is `format_time(start)`.
   */
  lemma ProcessedStructuredConsistent(subtitleText: string, formatType: string, loads: string -> JsonOutcome,
                                      decode: string -> string)
    requires TakesXmlBranch(formatType, subtitleText) || TakesJsonBranch(formatType, subtitleText)
    ensures forall k :: 0 <= k < |ProcessedSubtitles(subtitleText, formatType, loads, decode)| ==>
              Consistent(ProcessedSubtitles(subtitleText, formatType, loads, decode)[k])
  {
    if TakesXmlBranch(formatType, subtitleText) {
      var chunks := XmlChunks(subtitleText);
      if NoFail(chunks, XmlStep) {
        var items := FilterMap(chunks, XmlStep);
        var idx := KeptIndices(chunks, XmlStep);
        forall k | 0 <= k < |items| ensures items[k].startFormatted == Some(FormatTime(ToFloat(items[k].start).value)) {
          XmlItemFields(chunks[idx[k]], items[k]);
        }
        if Collect(items, EnhanceWith(decode)).Some? {
          EnhanceMakesConsistent(items, decode);
        }
      }
    } else if loads(subtitleText).Decoded? {
      var payload := loads(subtitleText).payload;
      var items := JsonItems(payload);
      if payload.events.Some? {
        var idx := KeptIndices(payload.events.value, JsonStep);
        forall k | 0 <= k < |items| ensures items[k].startFormatted == Some(FormatTime(ToFloat(items[k].start).value)) {
          JsonItemFields(payload.events.value[idx[k]], items[k]);
        }
      }
      if Collect(items, EnhanceWith(decode)).Some? {
        EnhanceMakesConsistent(items, decode);
      }
    }
  }

  /**
   * In the plain-text branch the line at split index `i` (blank lines counted) becomes an
   * item starting at `3 * i` seconds and lasting 3, with the stripped line as text; a blank
   * line becomes nothing.
   */
  lemma PlainStepFields(i: nat, line: string)
    ensures PlainStep((i, line)).Skip? <==> AllSpace(line)
    ensures PlainStep((i, line)).Emit? ==>
              var item := PlainStep((i, line)).value;
              && item.text == Strip(line) && item.text != []
              && ToFloat(item.start) == Some((3 * i) as real)
              && ToFloat(item.dur) == Some(3.0)
              && item.duration == Some(item.dur)
              && item.startFormatted == Some(FormatTime(ToFloat(item.start).value))
              && item.end.None?
  {
    StripEmptyIff(line);
    ParseDecimalNat(3 * i);
    ParseDecimalNat(3);
    assert NatToString(3) == "3";
  }

  /**
   * `items` is the plain-text list for `lines` with `idx` its source indices: item `k`
   * is line `idx[k]` stripped, starting at `3 * idx[k]` seconds; the indices ascend and
   * are exactly those of the non-blank lines.
   */
  ghost predicate PlainIndexed(lines: seq<string>, items: seq<SubtitleItem>, idx: seq<nat>) {
    && |items| == |idx|
    && (forall k :: 0 <= k < |items| ==>
          && idx[k] < |lines|
          && items[k].text == Strip(lines[idx[k]])
          && ToFloat(items[k].start) == Some((3 * idx[k]) as real))
    && (forall k, l :: 0 <= k < l < |items| ==> idx[k] < idx[l])
    && (forall i :: 0 <= i < |lines| ==> (!AllSpace(lines[i]) <==> i in idx))
  }

  lemma PlainItemsIndexed(lines: seq<string>)
    ensures PlainIndexed(lines, FilterMap(Enumerate(lines), PlainStep), KeptIndices(Enumerate(lines), PlainStep))
  {
    var en := Enumerate(lines);
    var items := FilterMap(en, PlainStep);
    var idx := KeptIndices(en, PlainStep);
    forall k | 0 <= k < |items|
      ensures items[k].text == Strip(lines[idx[k]]) && ToFloat(items[k].start) == Some((3 * idx[k]) as real)
    {
      PlainStepFields(idx[k], lines[idx[k]]);
    }
    forall i | 0 <= i < |lines| ensures !AllSpace(lines[i]) <==> i in idx {
      PlainStepFields(i, lines[i]);
      if i in idx {
        var k :| 0 <= k < |idx| && idx[k] == i;
      }
    }
  }

  /** The plain-text branch keeps the non-blank lines in order, each at its index's time. */
  lemma PlainBranchItems(subtitleText: string, formatType: string, loads: string -> JsonOutcome,
                         decode: string -> string)
    requires !TakesXmlBranch(formatType, subtitleText) && !TakesJsonBranch(formatType, subtitleText)
    ensures PlainIndexed(PlainLines(subtitleText), ProcessedSubtitles(subtitleText, formatType, loads, decode),
                         KeptIndices(Enumerate(PlainLines(subtitleText)), PlainStep))
  {
    PlainItemsIndexed(PlainLines(subtitleText));
  }
}
