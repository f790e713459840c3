/**
 * URL and language rules, and the caption cascade, of the yt-dlp helpers
 * (python-backend/app/utils/youtube_utils.py).
 *
 * `ydl.extract_info` is not modelled: its result is the parameter `outcome`, either
 * the metadata it returns or the message of the exception it raised. The per-track
 * text extraction `process_subtitle_entries` is the parameter `process`.
 */
module YoutubeUtils {
  import opened Wrappers
  import opened Strings
  import Scan
  import SubtitleUtils

  // ---------------------------------------------------------------------------
  // extract_video_id
  // ---------------------------------------------------------------------------

  /** The class `[^\/\?&]` of the ID group. */
  predicate IsIdChar(c: char) {
    c != '/' && c != '?' && c != '&'
  }

  /** A captured ID: non-empty, with none of `/`, `?`, `&`. */
  predicate IsIdLike(id: string) {
    |id| > 0 && forall k :: 0 <= k < |id| ==> IsIdChar(id[k])
  }

  /** The literal prefixes of the first four patterns, in the order they are tried. */
  const PrefixLiterals: seq<string> := ["youtu.be/", "youtube.com/watch?v=", "youtube.com/embed/", "youtube.com/v/"]

  /** `re.search(PREFIX + r'([^\/\?&]+)', url)` for one of the literal prefixes. */
  function PrefixPattern(url: string, lit: string): Option<string> {
    Scan.Search(url, lit, IsIdChar, None)
  }

  // The fifth pattern, youtube\.com\/.*\?.*v=([^\/\?&]+). From a start position p where
  // "youtube.com/" occurs, the engine lets the first `.*` run as far as it can, then
  // the second, backing off until a `?`, a `v=` and an ID character follow, and `.`
  // matches anything but a newline. Both stars are greedy, so the match ends at the
  // LAST position r where `v=` is followed by an ID character, with no newline
  // between p + 12 and r and some `?` in that stretch: any `?` before such an r can
  // play the `\?`. The group is the maximal run of ID characters after that `v=`.

  const QueryHost: string := "youtube.com/"

  /** A match of the fifth pattern can start at `p` and have its `v=` at `r`. */
  predicate QueryVAt(url: string, p: nat, r: nat) {
    && OccursAt(url, QueryHost, p)
    && p + |QueryHost| <= r
    && OccursAt(url, "v=", r)
    && r + 2 < |url|
    && IsIdChar(url[r + 2])
    && NoNewlineBetween(url, p + |QueryHost|, r)
    && QuestionBetween(url, p + |QueryHost|, r)
  }

  /** No character in `s[a..b]` is a newline. */
  predicate NoNewlineBetween(s: string, a: nat, b: nat)
    requires a <= b <= |s|
    decreases b - a
  {
    a == b || (s[a] != '\n' && NoNewlineBetween(s, a + 1, b))
  }

  /** Some character in `s[a..b]` is a `?`. */
  predicate QuestionBetween(s: string, a: nat, b: nat)
    requires a <= b <= |s|
    decreases b - a
  {
    a < b && (s[a] == '?' || QuestionBetween(s, a + 1, b))
  }

  lemma {:induction false} BetweenSpec(s: string, a: nat, b: nat)
    requires a <= b <= |s|
    ensures NoNewlineBetween(s, a, b) <==> forall k :: a <= k < b ==> s[k] != '\n'
    ensures QuestionBetween(s, a, b) <==> exists k :: a <= k < b && s[k] == '?'
    decreases b - a
  {
    if a < b {
      BetweenSpec(s, a + 1, b);
    }
  }

  function UsableV(url: string, p: nat): nat -> bool {
    (r: nat) => QueryVAt(url, p, r)
  }

  /** The last `v=` position that a match starting at `p` can use. */
  function LastV(url: string, p: nat): Option<nat> {
    Scan.LastBelow(UsableV(url, p), |url|)
  }

  /** A match of the fifth pattern can start at `p`. */
  predicate QueryMatchesAt(url: string, p: nat) {
    OccursAt(url, QueryHost, p) && LastV(url, p).Some?
  }

  function QueryStartAt(url: string): nat -> bool {
    (p: nat) => QueryMatchesAt(url, p)
  }

  /** The leftmost start of a match of the fifth pattern. */
  function QueryStart(url: string): Option<nat> {
    Scan.FirstFrom(QueryStartAt(url), 0, |url|)
  }

  /** The group the fifth pattern captures when its `v=` is at `r`. */
  function QueryCapture(url: string, r: nat): string
    requires r + 2 <= |url|
  {
    url[r + 2..Scan.RunEnd(url, r + 2, IsIdChar)]
  }

  /** `re.search(r'youtube\.com\/.*\?.*v=([^\/\?&]+)', url)`, giving the group. */
  function QueryPattern(url: string): Option<string> {
    match QueryStart(url)
    case None => None
    case Some(p) =>
      assert QueryMatchesAt(url, p);
      var r := LastV(url, p).value;
      assert QueryVAt(url, p, r);
      Some(QueryCapture(url, r))
  }

  /** Every pair of a start and a `v=` that fit has a start where a match can begin. */
  lemma QueryVAtMatches(url: string, p: nat, r: nat)
    requires QueryVAt(url, p, r)
    ensures QueryMatchesAt(url, p)
  {
    Scan.LastBelowSpec(UsableV(url, p), |url|);
    assert UsableV(url, p)(r);
  }

  /** `p` is the leftmost start that fits and `r` the last `v=` that fits it. */
  ghost predicate LeftmostLastV(url: string, p: nat, r: nat) {
    && QueryVAt(url, p, r)
    && (forall q: nat, r': nat :: q < p ==> !QueryVAt(url, q, r'))
    && (forall r': nat :: r < r' ==> !QueryVAt(url, p, r'))
  }

  /** The fifth pattern fails exactly when no start and `v=` fit. */
  lemma QueryPatternNone(url: string)
    ensures QueryPattern(url).None? <==> forall p: nat, r: nat :: !QueryVAt(url, p, r)
  {
    Scan.FirstFromSpec(QueryStartAt(url), 0, |url|);
    assert forall q: nat :: QueryStartAt(url)(q) == QueryMatchesAt(url, q);
    if QueryStart(url).None? {
      forall p: nat, r: nat | QueryVAt(url, p, r) ensures false {
        QueryVAtMatches(url, p, r);
      }
    } else {
      var p := QueryStart(url).value;
      assert QueryMatchesAt(url, p);
      assert QueryVAt(url, p, LastV(url, p).value);
    }
  }

  /** Otherwise it captures, at the leftmost start, the maximal ID run after the last usable `v=`. */
  lemma QueryPatternSome(url: string)
    requires QueryPattern(url).Some?
    ensures exists p: nat, r: nat :: LeftmostLastV(url, p, r) && QueryPattern(url).value == QueryCapture(url, r)
  {
    Scan.FirstFromSpec(QueryStartAt(url), 0, |url|);
    assert forall q: nat :: QueryStartAt(url)(q) == QueryMatchesAt(url, q);
    var p := QueryStart(url).value;
    assert QueryMatchesAt(url, p);
    var r := LastV(url, p).value;
    assert QueryVAt(url, p, r);
    Scan.LastBelowSpec(UsableV(url, p), |url|);
    forall q: nat, r': nat | q < p ensures !QueryVAt(url, q, r') {
      if QueryVAt(url, q, r') {
        QueryVAtMatches(url, q, r');
      }
    }
    forall r': nat | r < r' ensures !QueryVAt(url, p, r') {
      if r' < |url| {
        assert !UsableV(url, p)(r');
      }
    }
    assert LeftmostLastV(url, p, r);
  }

  /** The five pattern results, in the order `extract_video_id` tries them. */
  function PatternResults(url: string): (rs: seq<Option<string>>)
    ensures |rs| == 5
  {
    [PrefixPattern(url, PrefixLiterals[0]), PrefixPattern(url, PrefixLiterals[1]),
     PrefixPattern(url, PrefixLiterals[2]), PrefixPattern(url, PrefixLiterals[3]), QueryPattern(url)]
  }

  /** The first present value of a list. */
  function FirstSome<T>(rs: seq<Option<T>>): Option<T>
    decreases |rs|
  {
    if |rs| == 0 then None
    else if rs[0].Some? then rs[0]
    else FirstSome(rs[1..])
  }

  lemma {:induction false} FirstSomeSpec<T>(rs: seq<Option<T>>)
    ensures FirstSome(rs).None? <==> forall k :: 0 <= k < |rs| ==> rs[k].None?
    ensures FirstSome(rs).Some? ==> exists k :: 0 <= k < |rs| && rs[k] == FirstSome(rs) && forall j :: 0 <= j < k ==> rs[j].None?
    decreases |rs|
  {
    if |rs| > 0 && rs[0].None? {
      FirstSomeSpec(rs[1..]);
      if FirstSome(rs).Some? {
        var k :| 0 <= k < |rs[1..]| && rs[1..][k] == FirstSome(rs[1..]) && forall j :: 0 <= j < k ==> rs[1..][j].None?;
        assert rs[k + 1] == FirstSome(rs);
        assert forall j :: 0 <= j < k + 1 ==> rs[j].None? by {
          forall j | 0 < j < k + 1 ensures rs[j].None? {
            assert rs[j] == rs[1..][j - 1];
          }
        }
      }
    }
  }

  lemma {:induction false} FirstSomeAt<T>(rs: seq<Option<T>>, k: nat)
    requires k < |rs| && rs[k].Some?
    requires forall j :: 0 <= j < k ==> rs[j].None?
    ensures FirstSome(rs) == rs[k]
    decreases k
  {
    if k > 0 {
      FirstSomeAt(rs[1..], k - 1);
    }
  }

  /** `extract_video_id(url)`: the group of the first pattern that matches, or `None`. */
  function ExtractVideoId(url: string): Option<string> {
    FirstSome(PatternResults(url))
  }

  /**
   * The patterns are tried in order: the first that matches anywhere in the URL gives
   * the ID, and when none matches the result is `None`.
   */
  lemma ExtractVideoIdOrder(url: string, k: nat)
    requires k < 5 && PatternResults(url)[k].Some?
    requires forall j :: 0 <= j < k ==> PatternResults(url)[j].None?
    ensures ExtractVideoId(url) == PatternResults(url)[k]
  {
    FirstSomeAt(PatternResults(url), k);
  }

  lemma ExtractVideoIdNone(url: string)
    ensures ExtractVideoId(url).None? <==> forall k :: 0 <= k < 5 ==> PatternResults(url)[k].None?
  {
    FirstSomeSpec(PatternResults(url));
  }

  /** `id` is the maximal ID run directly after an occurrence of `lit` in `url`. */
  ghost predicate CapturedAfter(url: string, lit: string, id: string) {
    exists i: nat :: OccursAt(url, lit + id, i) && (i + |lit| + |id| == |url| || !IsIdChar(url[i + |lit| + |id|]))
  }

  lemma PrefixPatternShape(url: string, lit: string)
    requires PrefixPattern(url, lit).Some?
    ensures IsIdLike(PrefixPattern(url, lit).value)
    ensures CapturedAfter(url, lit, PrefixPattern(url, lit).value)
  {
    Scan.FirstMatchSpec(url, lit, IsIdChar, None, 0);
    var p := Scan.FirstMatchFrom(url, lit, IsIdChar, None, 0).value;
    assert Scan.MatchesAt(url, lit, IsIdChar, None, p);
    Scan.CaptureIsMaximalRun(url, lit, IsIdChar, None, p);
    var v := PrefixPattern(url, lit).value;
    assert v == Scan.CaptureAt(url, lit, IsIdChar, p);
    assert OccursAt(url, lit + v, p);
  }

  lemma QueryPatternShape(url: string)
    requires QueryPattern(url).Some?
    ensures IsIdLike(QueryPattern(url).value)
    ensures CapturedAfter(url, "v=", QueryPattern(url).value)
  {
    var p := QueryStart(url).value;
    assert QueryMatchesAt(url, p);
    var r := LastV(url, p).value;
    assert QueryVAt(url, p, r);
    CaptureAfterV(url, r);
  }

  /** The ID run after a `v=` that an ID character follows. */
  lemma CaptureAfterV(url: string, r: nat)
    requires OccursAt(url, "v=", r) && r + 2 < |url| && IsIdChar(url[r + 2])
    ensures IsIdLike(QueryCapture(url, r))
    ensures CapturedAfter(url, "v=", QueryCapture(url, r))
  {
    Scan.RunEndSpec(url, r + 2, IsIdChar);
    var v := QueryCapture(url, r);
    assert url[r..r + 2 + |v|] == url[r..r + 2] + url[r + 2..r + 2 + |v|];
    assert OccursAt(url, "v=" + v, r);
  }

  /**
   * A captured ID is non-empty, has none of `/`, `?`, `&`, and is the maximal such run
   * right after a pattern's prefix (one of the literals, or `v=` for the fifth). No
   * length is imposed.
   */
  lemma ExtractVideoIdShape(url: string)
    requires ExtractVideoId(url).Some?
    ensures IsIdLike(ExtractVideoId(url).value)
    ensures exists lit :: lit in PrefixLiterals + ["v="] && CapturedAfter(url, lit, ExtractVideoId(url).value)
  {
    var rs := PatternResults(url);
    FirstSomeSpec(rs);
    var k :| 0 <= k < |rs| && rs[k] == ExtractVideoId(url) && forall j :: 0 <= j < k ==> rs[j].None?;
    var lits := PrefixLiterals + ["v="];
    if k < 4 {
      PrefixPatternShape(url, PrefixLiterals[k]);
      assert lits[k] == PrefixLiterals[k];
      assert CapturedAfter(url, lits[k], ExtractVideoId(url).value);
    } else {
      QueryPatternShape(url);
      assert lits[4] == "v=";
    }
  }

  /** A short link with an ID of any length gives that ID back: there is no length check. */
  lemma ExtractVideoIdShortLink(id: string)
    requires IsIdLike(id)
    ensures ExtractVideoId("youtu.be/" + id) == Some(id)
  {
    var url := "youtu.be/" + id;
    var lit := PrefixLiterals[0];
    assert lit == "youtu.be/";
    assert url[..|lit|] == lit;
    Scan.RunEndSpec(url, |lit|, IsIdChar);
    var e := Scan.RunEnd(url, |lit|, IsIdChar);
    assert e == |url|;
    assert Scan.MatchesAt(url, lit, IsIdChar, None, 0);
    assert Scan.FirstMatchFrom(url, lit, IsIdChar, None, 0) == Some(0);
    assert url[|lit|..] == id;
    assert Scan.CaptureAt(url, lit, IsIdChar, 0) == id;
    assert PrefixPattern(url, lit) == Some(id);
    ExtractVideoIdOrder(url, 0);
  }

  lemma WatchNeedsQuestion(url: string)
    requires '?' !in url
    ensures !Contains(url, PrefixLiterals[1])
  {
    var lit := PrefixLiterals[1];
    ContainsIff(url, lit);
    if Contains(url, lit) {
      var j: nat :| OccursAt(url, lit, j);
      OccursAtIndex(url, lit, j, 17);
    }
  }

  /**
   * A URL without `?` and without any of the `youtu.be/`, `/embed/` and `/v/` prefixes
   * has no ID; a `/shorts/` link is one, as no pattern covers it.
   */
  lemma ExtractVideoIdNoQuery(url: string)
    requires '?' !in url
    requires !Contains(url, PrefixLiterals[0]) && !Contains(url, PrefixLiterals[2]) && !Contains(url, PrefixLiterals[3])
    ensures ExtractVideoId(url) == None
  {
    forall k | 0 <= k < 4 ensures PrefixPattern(url, PrefixLiterals[k]).None? {
      var lit := PrefixLiterals[k];
      Scan.SearchSpec(url, lit, IsIdChar, None);
      ContainsIff(url, lit);
      if k == 1 {
        WatchNeedsQuestion(url);
      }
    }
    QueryPatternNone(url);
    forall p: nat, r: nat | QueryVAt(url, p, r) ensures false {
      BetweenSpec(url, p + |QueryHost|, r);
    }
    ExtractVideoIdNone(url);
  }

  // ---------------------------------------------------------------------------
  // get_language_name
  // ---------------------------------------------------------------------------

  /** The names the backend knows, in Korean. */
  const LanguageTable: map<string, string> := map[
    "ko" := "한국어", "en" := "영어", "ja" := "일본어", "zh" := "중국어",
    "zh-Hans" := "중국어 간체", "zh-Hant" := "중국어 번체", "fr" := "프랑스어",
    "de" := "독일어", "es" := "스페인어", "ru" := "러시아어", "it" := "이탈리아어",
    "pt" := "포르투갈어", "ar" := "아랍어", "th" := "태국어", "vi" := "베트남어",
    "id" := "인도네시아어"]

  /** `lang_code.split('-')[0]`. */
  function BaseCode(code: string): string {
    Split(code, "-")[0]
  }

  /** The base code is the part of the code before its first `-`, or the whole code when there is none. */
  lemma BaseCodeShape(code: string)
    ensures '-' !in BaseCode(code)
    ensures StartsWith(code, BaseCode(code))
    ensures '-' in code ==> |BaseCode(code)| < |code| && code[|BaseCode(code)|] == '-'
    ensures '-' !in code ==> BaseCode(code) == code
  {
    SplitPiecesFree(code, '-');
    FindFromSpec(code, "-", 0);
    ContainsChar(code, '-');
    assert "-" == ['-'];
    match FindFrom(code, "-", 0)
    case None =>
    case Some(i) =>
      assert BaseCode(code) == code[..i];
      OccursAtChar(code, '-', i);
  }

  /** `get_language_name(code)`: the exact entry, else the base code's, else the code itself. */
  function LanguageName(code: string): string {
    if code in LanguageTable then LanguageTable[code]
    else if BaseCode(code) in LanguageTable then LanguageTable[BaseCode(code)]
    else code
  }

  /** The base code of `base-region` is `base` when `base` has no hyphen. */
  lemma BaseCodeRegional(base: string, region: string)
    requires '-' !in base
    ensures BaseCode(base + "-" + region) == base
  {
    var code := base + "-" + region;
    BaseCodeShape(code);
    assert code[|base|] == '-';
    var b := BaseCode(code);
    assert code[..|b|] == b;
    assert code[..|base|] == base;
  }

  /**
   * A regional code such as `en-US` that has no entry of its own is named after its
   * base language.
   */
  lemma LanguageNameRegional(base: string, region: string)
    requires '-' !in base && base in LanguageTable
    requires base + "-" + region !in LanguageTable
    ensures LanguageName(base + "-" + region) == LanguageTable[base]
  {
    BaseCodeRegional(base, region);
  }

  /** A regional code whose base language is not known either is named by the whole code, region included. */
  lemma LanguageNameRegionalUnknown(base: string, region: string)
    requires '-' !in base && base !in LanguageTable
    requires base + "-" + region !in LanguageTable
    ensures LanguageName(base + "-" + region) == base + "-" + region
  {
    BaseCodeRegional(base, region);
  }

  /** A hyphen-free code without an entry is its own name. */
  lemma LanguageNameUnknown(code: string)
    requires '-' !in code && code !in LanguageTable
    ensures LanguageName(code) == code
  {
    BaseCodeShape(code);
  }

  /** Example: the exact entry `zh-Hans` wins over the entry of its base code `zh`. */
  lemma LanguageNameExact()
    ensures LanguageName("zh-Hans") == "중국어 간체"
  {
  }

  /** Example: `en-US` has no entry and is named after `en`. */
  lemma LanguageNameEnglishUS()
    ensures LanguageName("en-US") == "영어"
  {
    assert "en" + "-" + "US" == "en-US";
    LanguageNameRegional("en", "US");
  }

  // ---------------------------------------------------------------------------
  // Video metadata and get_available_languages
  // ---------------------------------------------------------------------------

  /** One downloadable format of a caption track. */
  datatype TrackFormat = TrackFormat(ext: string, url: string)

  /**
   * A `subtitles` or `automatic_captions` dictionary, in its iteration order. The empty
   * list stands for a missing key, `None` and `{}` alike: the source treats them the same.
   */
  type CaptionTracks = seq<(string, seq<TrackFormat>)>

  /** What `extract_info` returns, as far as the backend reads it; `None` is a missing key. */
  datatype VideoMetadata = VideoMetadata(
    title: Option<string>,
    uploader: Option<string>,
    thumbnail: Option<string>,
    duration: Option<real>,
    subtitles: CaptionTracks,
    automaticCaptions: CaptionTracks)

  /** The result of one `ydl.extract_info` call: the metadata, or the raised exception's message. */
  datatype InfoOutcome = Extracted(info: VideoMetadata) | ExtractionFailed(error: string)

  datatype Language = Language(code: string, name: string)

  const AutoPrefix: string := "자동 생성: "

  predicate HasCode(languages: seq<Language>, code: string) {
    exists l :: 0 <= l < |languages| && languages[l].code == code
  }

  predicate HasKey(tracks: CaptionTracks, key: string) {
    exists j :: 0 <= j < |tracks| && tracks[j].0 == key
  }

  /** A dictionary's keys are pairwise distinct. */
  predicate DistinctKeys(tracks: CaptionTracks) {
    forall i, j :: 0 <= i < j < |tracks| ==> tracks[i].0 != tracks[j].0
  }

  /** The first loop: every manual track, named by `get_language_name`. */
  function ManualLanguages(tracks: CaptionTracks): (r: seq<Language>)
    ensures |r| == |tracks|
    ensures forall i :: 0 <= i < |tracks| ==> r[i] == Language(tracks[i].0, LanguageName(tracks[i].0))
  {
    seq(|tracks|, i requires 0 <= i < |tracks| => Language(tracks[i].0, LanguageName(tracks[i].0)))
  }

  /** The second loop: each automatic code not listed yet is appended with the `자동 생성: ` prefix. */
  function WithAutomatic(languages: seq<Language>, autos: CaptionTracks): seq<Language>
    decreases |autos|
  {
    if |autos| == 0 then languages
    else
      var prev := WithAutomatic(languages, autos[..|autos| - 1]);
      var code := autos[|autos| - 1].0;
      if HasCode(prev, code) then prev
      else prev + [Language(code, AutoPrefix + LanguageName(code))]
  }

  /** The list `get_available_languages` returns. */
  function AvailableLanguages(info: VideoMetadata): seq<Language> {
    WithAutomatic(ManualLanguages(info.subtitles), info.automaticCaptions)
  }

  /** `get_available_languages(info)`. */
  method GetAvailableLanguages(info: VideoMetadata) returns (languages: seq<Language>)
    ensures languages == AvailableLanguages(info)
  {
    var manual := ManualLoop(info.subtitles);
    languages := AutomaticLoop(manual, info.automaticCaptions);
  }

  /** The loop over `info['subtitles']`: one entry per key, named by `get_language_name`. */
  method ManualLoop(tracks: CaptionTracks) returns (languages: seq<Language>)
    ensures languages == ManualLanguages(tracks)
  {
    languages := [];
    for i := 0 to |tracks|
      invariant languages == ManualLanguages(tracks[..i])
    {
      var code := tracks[i].0;
      languages := languages + [Language(code, LanguageName(code))];
    }
    assert tracks[..|tracks|] == tracks;
  }

  /** The loop over `info['automatic_captions']`, appending the codes not listed yet. */
  method AutomaticLoop(manual: seq<Language>, autos: CaptionTracks) returns (languages: seq<Language>)
    ensures languages == WithAutomatic(manual, autos)
  {
    languages := manual;
    for i := 0 to |autos|
      invariant languages == WithAutomatic(manual, autos[..i])
    {
      assert autos[..i + 1][..i] == autos[..i];
      var code := autos[i].0;
      var present := ListsCode(languages, code);
      if !present {
        languages := languages + [Language(code, AutoPrefix + LanguageName(code))];
      }
    }
    assert autos[..|autos|] == autos;
  }

  /** `any(lang['code'] == code for lang in languages)`. */
  method ListsCode(languages: seq<Language>, code: string) returns (present: bool)
    ensures present <==> HasCode(languages, code)
  {
    present := false;
    for l := 0 to |languages|
      invariant present <==> HasCode(languages[..l], code)
    {
      if languages[l].code == code {
        present := true;
      }
      assert languages[..l + 1][l] == languages[l];
      assert forall m :: 0 <= m < l ==> languages[..l + 1][m] == languages[..l][m];
    }
    assert languages[..|languages|] == languages;
  }


  lemma HasKeySnoc(autos: CaptionTracks)
    requires |autos| > 0
    ensures forall c :: HasKey(autos, c) <==> HasKey(autos[..|autos| - 1], c) || c == autos[|autos| - 1].0
  {
    var init := autos[..|autos| - 1];
    forall c ensures HasKey(autos, c) <==> HasKey(init, c) || c == autos[|autos| - 1].0 {
      if HasKey(init, c) {
        var j :| 0 <= j < |init| && init[j].0 == c;
        assert autos[j] == init[j];
      }
      if HasKey(autos, c) && c != autos[|autos| - 1].0 {
        var j :| 0 <= j < |autos| && autos[j].0 == c;
        assert init[j] == autos[j];
      }
    }
  }

  /** The automatic loop only appends: the list it starts from stays a prefix. */
  lemma {:induction false} WithAutomaticPrefix(languages: seq<Language>, autos: CaptionTracks)
    ensures |languages| <= |WithAutomatic(languages, autos)|
    ensures WithAutomatic(languages, autos)[..|languages|] == languages
    decreases |autos|
  {
    if |autos| > 0 {
      var prev := WithAutomatic(languages, autos[..|autos| - 1]);
      WithAutomaticPrefix(languages, autos[..|autos| - 1]);
      var r := WithAutomatic(languages, autos);
      assert r[..|prev|] == prev;
      assert r[..|languages|] == prev[..|languages|];
    }
  }

  /** After the loop a code is listed exactly when it was listed before or is an automatic key. */
  lemma {:induction false} WithAutomaticCodes(languages: seq<Language>, autos: CaptionTracks)
    ensures forall code :: HasCode(WithAutomatic(languages, autos), code) <==> HasCode(languages, code) || HasKey(autos, code)
    decreases |autos|
  {
    if |autos| > 0 {
      var prev := WithAutomatic(languages, autos[..|autos| - 1]);
      WithAutomaticCodes(languages, autos[..|autos| - 1]);
      HasKeySnoc(autos);
      var code := autos[|autos| - 1].0;
      var r := WithAutomatic(languages, autos);
      if !HasCode(prev, code) {
        forall c ensures HasCode(r, c) <==> HasCode(prev, c) || c == code {
          if HasCode(prev, c) {
            var l :| 0 <= l < |prev| && prev[l].code == c;
            assert r[l] == prev[l];
          }
          if HasCode(r, c) && c != code {
            var l :| 0 <= l < |r| && r[l].code == c;
            assert prev[l] == r[l];
          }
          if c == code {
            assert r[|prev|].code == c;
          }
        }
      }
    }
  }

  /**
   * Entry `i` is an automatic code not listed before it, named with the `자동 생성: `
   * prefix.
   */
  predicate AddedEntry(autos: CaptionTracks, r: seq<Language>, i: nat)
    requires i < |r|
  {
    && HasKey(autos, r[i].code)
    && r[i].name == AutoPrefix + LanguageName(r[i].code)
    && !HasCode(r[..i], r[i].code)
  }

  /** Every entry the loop adds is such an entry. */
  lemma {:induction false} WithAutomaticAdded(languages: seq<Language>, autos: CaptionTracks)
    ensures forall i :: |languages| <= i < |WithAutomatic(languages, autos)| ==>
              AddedEntry(autos, WithAutomatic(languages, autos), i)
    decreases |autos|
  {
    if |autos| > 0 {
      var init := autos[..|autos| - 1];
      var prev := WithAutomatic(languages, init);
      WithAutomaticAdded(languages, init);
      HasKeySnoc(autos);
      var code := autos[|autos| - 1].0;
      var r := WithAutomatic(languages, autos);
      forall i | |languages| <= i < |r| ensures AddedEntry(autos, r, i) {
        if i < |prev| {
          assert AddedEntry(init, prev, i);
          assert r[i] == prev[i];
          assert r[..i] == prev[..i];
        } else {
          assert r[..i] == prev;
        }
      }
    }
  }

  lemma ManualLanguagesCodes(tracks: CaptionTracks)
    ensures forall code :: HasCode(ManualLanguages(tracks), code) <==> HasKey(tracks, code)
  {
    var manual := ManualLanguages(tracks);
    forall code ensures HasCode(manual, code) <==> HasKey(tracks, code) {
      if HasKey(tracks, code) {
        var j :| 0 <= j < |tracks| && tracks[j].0 == code;
        assert manual[j].code == code;
      }
    }
  }

  /** The manual codes come first, in their order and with their plain names. */
  lemma AvailableManualFirst(info: VideoMetadata)
    ensures var r := AvailableLanguages(info);
            && |info.subtitles| <= |r|
            && forall i :: 0 <= i < |info.subtitles| ==>
                 r[i] == Language(info.subtitles[i].0, LanguageName(info.subtitles[i].0))
  {
    var manual := ManualLanguages(info.subtitles);
    var r := AvailableLanguages(info);
    WithAutomaticPrefix(manual, info.automaticCaptions);
    forall i | 0 <= i < |manual| ensures r[i] == manual[i] {
      assert r[..|manual|][i] == r[i];
    }
  }

  /** A code listed in a prefix of a list is listed in the list. */
  lemma HasCodeWithin(xs: seq<Language>, ys: seq<Language>, code: string)
    requires |xs| <= |ys| && ys[..|xs|] == xs
    ensures HasCode(xs, code) ==> HasCode(ys, code)
  {
    if HasCode(xs, code) {
      var l :| 0 <= l < |xs| && xs[l].code == code;
      assert ys[l] == ys[..|xs|][l];
    }
  }

  /**
   * Entry `i` is an automatic code that is not a manual key and is not listed before
   * it, named `자동 생성: <name>`.
   */
  predicate AutomaticEntry(info: VideoMetadata, r: seq<Language>, i: nat)
    requires i < |r|
  {
    && HasKey(info.automaticCaptions, r[i].code)
    && !HasKey(info.subtitles, r[i].code)
    && !HasCode(r[..i], r[i].code)
    && r[i].name == AutoPrefix + LanguageName(r[i].code)
  }

  /** Every entry after the manual ones is such an automatic entry. */
  lemma AvailableAutomaticAfter(info: VideoMetadata)
    ensures forall i :: |info.subtitles| <= i < |AvailableLanguages(info)| ==>
              AutomaticEntry(info, AvailableLanguages(info), i)
  {
    var subs := info.subtitles;
    var manual := ManualLanguages(subs);
    var r := AvailableLanguages(info);
    WithAutomaticPrefix(manual, info.automaticCaptions);
    WithAutomaticAdded(manual, info.automaticCaptions);
    ManualLanguagesCodes(subs);
    forall i | |subs| <= i < |r| ensures AutomaticEntry(info, r, i) {
      assert AddedEntry(info.automaticCaptions, r, i);
      assert r[..i][..|manual|] == r[..|manual|];
      HasCodeWithin(manual, r[..i], r[i].code);
    }
  }

  /** A code is listed exactly when it is a manual or an automatic key. */
  lemma AvailableComplete(info: VideoMetadata)
    ensures forall code :: HasCode(AvailableLanguages(info), code) <==>
              HasKey(info.subtitles, code) || HasKey(info.automaticCaptions, code)
  {
    WithAutomaticCodes(ManualLanguages(info.subtitles), info.automaticCaptions);
    ManualLanguagesCodes(info.subtitles);
  }

  /** With the manual dictionary's keys distinct (as a dictionary's are), the listed codes are distinct. */
  lemma AvailableDistinct(info: VideoMetadata)
    requires DistinctKeys(info.subtitles)
    ensures var r := AvailableLanguages(info);
            forall i, j :: 0 <= i < j < |r| ==> r[i].code != r[j].code
  {
    var r := AvailableLanguages(info);
    AvailableManualFirst(info);
    AvailableAutomaticAfter(info);
    forall i, j | 0 <= i < j < |r| ensures r[i].code != r[j].code {
      if j >= |info.subtitles| {
        assert AutomaticEntry(info, r, j);
        assert r[..j][i] == r[i];
      }
    }
  }

  // ---------------------------------------------------------------------------
  // extract_subtitle_text
  // ---------------------------------------------------------------------------

  /**
   * The value `process_subtitle_entries` returns: `None` is Python's `None`, and a
   * value is falsy when it is `None` or the empty string.
   */
  predicate Truthy(text: Option<string>) {
    text.Some? && text.value != ""
  }

  /** `tracks[key]`: the formats of the first entry with that key. */
  function Lookup(tracks: CaptionTracks, key: string): (r: Option<seq<TrackFormat>>)
    ensures r.Some? <==> HasKey(tracks, key)
    decreases |tracks|
  {
    if |tracks| == 0 then None
    else if tracks[0].0 == key then Some(tracks[0].1)
    else
      var r := Lookup(tracks[1..], key);
      assert HasKey(tracks, key) <==> HasKey(tracks[1..], key) by {
        if HasKey(tracks, key) {
          var j :| 0 <= j < |tracks| && tracks[j].0 == key;
          assert tracks[1..][j - 1] == tracks[j];
        }
        if HasKey(tracks[1..], key) {
          var j :| 0 <= j < |tracks[1..]| && tracks[1..][j].0 == key;
          assert tracks[j + 1] == tracks[1..][j];
        }
      }
      r
  }

  /** Where a track is taken from: the manual or the automatic dictionary, under a code. */
  datatype Source = Manual(code: string) | Automatic(code: string)

  function TracksOf(info: VideoMetadata, src: Source): CaptionTracks {
    match src
    case Manual(_) => info.subtitles
    case Automatic(_) => info.automaticCaptions
  }

  predicate Present(info: VideoMetadata, src: Source) {
    HasKey(TracksOf(info, src), src.code)
  }

  /**
   * The tracks the cascade may read, in priority order: the requested manual track, the
   * requested automatic track, and, for `ko` only, manual `en`, or automatic `en` when
   * there is no manual `en` at all. Only tracks that exist are listed.
   */
  function Candidates(info: VideoMetadata, language: string): seq<Source> {
    RequestedSources(info, language) + EnglishSources(info, language)
  }

  /** The requested language's manual track, then its automatic track, where they exist. */
  function RequestedSources(info: VideoMetadata, language: string): seq<Source> {
    (if Present(info, Manual(language)) then [Manual(language)] else [])
    + (if Present(info, Automatic(language)) then [Automatic(language)] else [])
  }

  /** For `ko` only: manual `en` if that key exists, else automatic `en` if that one does. */
  function EnglishSources(info: VideoMetadata, language: string): seq<Source> {
    if language != "ko" then []
    else if Present(info, Manual("en")) then [Manual("en")]
    else if Present(info, Automatic("en")) then [Automatic("en")]
    else []
  }


  /**
   * Reading the candidates in order while the text so far is falsy: the first truthy
   * text, or else the value of the last track read (`""` when none was read).
   */
  function Cascade(info: VideoMetadata, sources: seq<Source>, process: seq<TrackFormat> -> Option<string>,
                   current: Option<string>): Option<string>
    requires forall k :: 0 <= k < |sources| ==> Present(info, sources[k])
    decreases |sources|
  {
    if |sources| == 0 || Truthy(current) then current
    else
      assert Present(info, sources[0]);
      Cascade(info, sources[1..], process, process(Lookup(TracksOf(info, sources[0]), sources[0].code).value))
  }

  /** The value `extract_subtitle_text` returns. */
  function SubtitleText(info: VideoMetadata, language: string, process: seq<TrackFormat> -> Option<string>): Option<string> {
    Cascade(info, Candidates(info, language), process, Some(""))
  }

  /**
   * `extract_subtitle_text(info, language)`: the manual track, then the automatic one if
   * that gave nothing, then for `ko` English, manual `en` taking the place of automatic
   * `en` whenever the manual dictionary has that key.
   */
  method ExtractSubtitleText(info: VideoMetadata, language: string, process: seq<TrackFormat> -> Option<string>)
    returns (text: Option<string>)
    ensures text == SubtitleText(info, language, process)
  {
    text := Some("");
    if |info.subtitles| > 0 {
      var tracks := Lookup(info.subtitles, language);
      if tracks.Some? {
        text := process(tracks.value);
      }
    }
    if !Truthy(text) && |info.automaticCaptions| > 0 {
      var tracks := Lookup(info.automaticCaptions, language);
      if tracks.Some? {
        text := process(tracks.value);
      }
    }
    if !Truthy(text) && language == "ko" {
      var manualEn := Lookup(info.subtitles, "en");
      var autoEn := Lookup(info.automaticCaptions, "en");
      if |info.subtitles| > 0 && manualEn.Some? {
        text := process(manualEn.value);
      } else if |info.automaticCaptions| > 0 && autoEn.Some? {
        text := process(autoEn.value);
      }
    }
    CascadeUnfold(info, language, process);
  }

  /** The if-chain of the source and the cascade over `Candidates` agree. */
  lemma CascadeUnfold(info: VideoMetadata, language: string, process: seq<TrackFormat> -> Option<string>)
    ensures var m := Lookup(info.subtitles, language);
            var a := Lookup(info.automaticCaptions, language);
            var t1 := if m.Some? then process(m.value) else Some("");
            var t2 := if !Truthy(t1) && a.Some? then process(a.value) else t1;
            var me := Lookup(info.subtitles, "en");
            var ae := Lookup(info.automaticCaptions, "en");
            var t3 := if !Truthy(t2) && language == "ko" then
                        (if me.Some? then process(me.value) else if ae.Some? then process(ae.value) else t2)
                      else t2;
            SubtitleText(info, language, process) == t3
  {
    var m := Lookup(info.subtitles, language);
    var a := Lookup(info.automaticCaptions, language);
    var t1 := if m.Some? then process(m.value) else Some("");
    var t2 := if !Truthy(t1) && a.Some? then process(a.value) else t1;
    CascadeRequested(info, language, process);
    CascadeEnglish(info, language, process, t2);
    CascadeAppend(info, RequestedSources(info, language), EnglishSources(info, language), process, Some(""));
  }

  /** One step of the cascade: a truthy text so far stops it, otherwise the next source is read. */
  lemma CascadeStep(info: VideoMetadata, src: Source, rest: seq<Source>, process: seq<TrackFormat> -> Option<string>,
                    current: Option<string>)
    requires Present(info, src)
    requires forall k :: 0 <= k < |rest| ==> Present(info, rest[k])
    ensures forall k :: 0 <= k < |[src] + rest| ==> Present(info, ([src] + rest)[k])
    ensures Cascade(info, [src] + rest, process, current)
            == if Truthy(current) then current else Cascade(info, rest, process, TextOf(info, src, process))
  {
    assert ([src] + rest)[1..] == rest;
    forall k | 0 <= k < |[src] + rest| ensures Present(info, ([src] + rest)[k]) {
      if k > 0 {
        assert ([src] + rest)[k] == rest[k - 1];
      }
    }
  }

  /** The first two steps of the cascade: the requested manual track, then the automatic one. */
  lemma CascadeRequested(info: VideoMetadata, language: string, process: seq<TrackFormat> -> Option<string>)
    ensures forall k :: 0 <= k < |RequestedSources(info, language)| ==> Present(info, RequestedSources(info, language)[k])
    ensures var m := Lookup(info.subtitles, language);
            var a := Lookup(info.automaticCaptions, language);
            var t1 := if m.Some? then process(m.value) else Some("");
            Cascade(info, RequestedSources(info, language), process, Some(""))
            == (if !Truthy(t1) && a.Some? then process(a.value) else t1)
  {
    var m := Lookup(info.subtitles, language);
    var a := Lookup(info.automaticCaptions, language);
    var t1 := if m.Some? then process(m.value) else Some("");
    var requested := RequestedSources(info, language);
    var t0: Option<string> := Some("");
    assert !Truthy(t0);
    if m.Some? && a.Some? {
      assert requested == [Manual(language)] + [Automatic(language)];
      CascadeStep(info, Manual(language), [Automatic(language)], process, t0);
      CascadeStep(info, Automatic(language), [], process, t1);
    } else if m.Some? {
      assert requested == [Manual(language)] + [];
      CascadeStep(info, Manual(language), [], process, t0);
    } else if a.Some? {
      assert requested == [Automatic(language)] + [];
      CascadeStep(info, Automatic(language), [], process, t0);
    } else {
      assert requested == [];
    }
  }

  /** The last step of the cascade: for `ko`, manual `en` if that key exists, else automatic `en`. */
  lemma CascadeEnglish(info: VideoMetadata, language: string, process: seq<TrackFormat> -> Option<string>,
                       current: Option<string>)
    ensures forall k :: 0 <= k < |EnglishSources(info, language)| ==> Present(info, EnglishSources(info, language)[k])
    ensures var me := Lookup(info.subtitles, "en");
            var ae := Lookup(info.automaticCaptions, "en");
            Cascade(info, EnglishSources(info, language), process, current)
            == if !Truthy(current) && language == "ko" then
                 (if me.Some? then process(me.value) else if ae.Some? then process(ae.value) else current)
               else current
  {
    var english := EnglishSources(info, language);
    if language == "ko" && Present(info, Manual("en")) {
      assert english == [Manual("en")] + [];
      CascadeStep(info, Manual("en"), [], process, current);
    } else if language == "ko" && Present(info, Automatic("en")) {
      assert english == [Automatic("en")] + [];
      CascadeStep(info, Automatic("en"), [], process, current);
    } else {
      assert english == [];
    }
  }


  /** Reading two lists of candidates is reading the first, then the second from where it stopped. */
  lemma {:induction false} CascadeAppend(info: VideoMetadata, xs: seq<Source>, ys: seq<Source>,
                                         process: seq<TrackFormat> -> Option<string>, current: Option<string>)
    requires forall k :: 0 <= k < |xs| ==> Present(info, xs[k])
    requires forall k :: 0 <= k < |ys| ==> Present(info, ys[k])
    ensures forall k :: 0 <= k < |xs + ys| ==> Present(info, (xs + ys)[k])
    ensures Cascade(info, xs + ys, process, current) == Cascade(info, ys, process, Cascade(info, xs, process, current))
    decreases |xs|
  {
    assert forall k :: 0 <= k < |xs + ys| ==> Present(info, (xs + ys)[k]) by {
      forall k | 0 <= k < |xs + ys| ensures Present(info, (xs + ys)[k]) {
        if k < |xs| {
          assert (xs + ys)[k] == xs[k];
        } else {
          assert (xs + ys)[k] == ys[k - |xs|];
        }
      }
    }
    if |xs| == 0 {
      assert xs + ys == ys;
    } else if Truthy(current) {
      CascadeTruthyStays(info, ys, process, current);
      CascadeTruthyStays(info, xs + ys, process, current);
    } else {
      assert (xs + ys)[1..] == xs[1..] + ys;
      CascadeAppend(info, xs[1..], ys, process, process(Lookup(TracksOf(info, xs[0]), xs[0].code).value));
    }
  }

  lemma CascadeTruthyStays(info: VideoMetadata, sources: seq<Source>, process: seq<TrackFormat> -> Option<string>,
                           current: Option<string>)
    requires forall k :: 0 <= k < |sources| ==> Present(info, sources[k])
    requires Truthy(current)
    ensures Cascade(info, sources, process, current) == current
  {
  }

  /** The text the source `src` gives. */
  function TextOf(info: VideoMetadata, src: Source, process: seq<TrackFormat> -> Option<string>): Option<string>
    requires Present(info, src)
  {
    process(Lookup(TracksOf(info, src), src.code).value)
  }

  /**
   * A truthy result is the text of the first candidate whose text is truthy; a falsy one
   * means every candidate gave a falsy text.
   */
  lemma {:induction false} CascadeFirstTruthy(info: VideoMetadata, sources: seq<Source>,
                                              process: seq<TrackFormat> -> Option<string>, current: Option<string>)
    requires forall k :: 0 <= k < |sources| ==> Present(info, sources[k])
    requires !Truthy(current)
    ensures var r := Cascade(info, sources, process, current);
            && (Truthy(r) ==> exists k :: && 0 <= k < |sources| && r == TextOf(info, sources[k], process)
                                         && forall j :: 0 <= j < k ==> !Truthy(TextOf(info, sources[j], process)))
            && (!Truthy(r) ==> forall k :: 0 <= k < |sources| ==> !Truthy(TextOf(info, sources[k], process)))
    decreases |sources|
  {
    if |sources| > 0 {
      var t := TextOf(info, sources[0], process);
      if Truthy(t) {
        CascadeTruthyStays(info, sources[1..], process, t);
      } else {
        CascadeFirstTruthy(info, sources[1..], process, t);
        var r := Cascade(info, sources, process, current);
        if Truthy(r) {
          var k :| && 0 <= k < |sources[1..]| && r == TextOf(info, sources[1..][k], process)
                   && forall j :: 0 <= j < k ==> !Truthy(TextOf(info, sources[1..][j], process));
          assert sources[k + 1] == sources[1..][k];
          FalsyTextsShift(info, sources, process, k);
        } else {
          FalsyTextsShift(info, sources, process, |sources| - 1);
        }
      }
    }
  }

  /** A falsy first text followed by `k` falsy texts of the rest is `k + 1` falsy texts. */
  lemma FalsyTextsShift(info: VideoMetadata, sources: seq<Source>, process: seq<TrackFormat> -> Option<string>, k: nat)
    requires k < |sources|
    requires forall k :: 0 <= k < |sources| ==> Present(info, sources[k])
    requires !Truthy(TextOf(info, sources[0], process))
    requires forall j :: 0 <= j < k ==> !Truthy(TextOf(info, sources[1..][j], process))
    ensures forall j :: 0 <= j < k + 1 ==> !Truthy(TextOf(info, sources[j], process))
  {
    forall j | 0 < j < k + 1 ensures !Truthy(TextOf(info, sources[j], process)) {
      assert sources[j] == sources[1..][j - 1];
    }
  }

  /** The manual track in the requested language wins whenever it gives text. */
  lemma SubtitleTextManualFirst(info: VideoMetadata, language: string, process: seq<TrackFormat> -> Option<string>)
    requires Present(info, Manual(language)) && Truthy(TextOf(info, Manual(language), process))
    ensures SubtitleText(info, language, process) == TextOf(info, Manual(language), process)
  {
    CascadeUnfold(info, language, process);
  }

  /**
   * The automatic track in the requested language is used when the manual one is missing
   * or gives nothing, and it gives text.
   */
  lemma SubtitleTextAutomaticSecond(info: VideoMetadata, language: string, process: seq<TrackFormat> -> Option<string>)
    requires !Present(info, Manual(language)) || !Truthy(TextOf(info, Manual(language), process))
    requires Present(info, Automatic(language)) && Truthy(TextOf(info, Automatic(language), process))
    ensures SubtitleText(info, language, process) == TextOf(info, Automatic(language), process)
  {
    CascadeUnfold(info, language, process);
  }

  /**
   * Only the requested language is read, except for `ko`, where English follows: manual
   * `en` whenever that key exists, and automatic `en` only when it does not.
   */
  lemma CandidatesFallback(info: VideoMetadata, language: string)
    ensures language != "ko" ==> forall k :: 0 <= k < |Candidates(info, language)| ==> Candidates(info, language)[k].code == language
    ensures language == "ko" && Present(info, Manual("en")) ==>
              Candidates(info, language)[|Candidates(info, language)| - 1] == Manual("en")
    ensures language == "ko" ==> (Automatic("en") in Candidates(info, language) <==>
                                  !Present(info, Manual("en")) && Present(info, Automatic("en")))
    ensures forall k :: 0 <= k < |Candidates(info, language)| ==> Present(info, Candidates(info, language)[k])
  {
  }

  /**
   * For a language other than `ko`, a truthy text comes from one of that language's own
   * tracks; and for `ko`, when both Korean tracks give nothing and manual `en` exists,
   * the result is what manual `en` gives.
   */
  lemma SubtitleTextEnglishFallback(info: VideoMetadata, language: string, process: seq<TrackFormat> -> Option<string>)
    ensures language != "ko" && Truthy(SubtitleText(info, language, process)) ==>
              exists src: Source :: src.code == language && Present(info, src) && SubtitleText(info, language, process) == TextOf(info, src, process)
    ensures language == "ko" && Present(info, Manual("en"))
            && (!Present(info, Manual("ko")) || !Truthy(TextOf(info, Manual("ko"), process)))
            && (!Present(info, Automatic("ko")) || !Truthy(TextOf(info, Automatic("ko"), process))) ==>
              SubtitleText(info, language, process) == TextOf(info, Manual("en"), process)
  {
    CandidatesFallback(info, language);
    var cands := Candidates(info, language);
    if language != "ko" && Truthy(SubtitleText(info, language, process)) {
      CascadeFirstTruthy(info, cands, process, Some(""));
      var k :| 0 <= k < |cands| && SubtitleText(info, language, process) == TextOf(info, cands[k], process)
               && forall j :: 0 <= j < k ==> !Truthy(TextOf(info, cands[j], process));
      assert cands[k].code == language;
    }
    CascadeUnfold(info, language, process);
  }

  /**
   * `process_subtitle_entries` as written: its loop only inspects `ext`, and it has no
   * `return`, so it gives `None`.
   */
  function ProcessSubtitleEntries(entries: seq<TrackFormat>): Option<string> {
    None
  }

  /** A processor that never gives text leaves `extract_subtitle_text` without text. */
  lemma SubtitleTextFalsyProcessor(info: VideoMetadata, language: string, process: seq<TrackFormat> -> Option<string>)
    requires forall entries :: !Truthy(process(entries))
    ensures !Truthy(SubtitleText(info, language, process))
  {
    CascadeFirstTruthy(info, Candidates(info, language), process, Some(""));
  }

  /** With the processor as written, `extract_subtitle_text` never finds text. */
  lemma SubtitleTextAsWritten(info: VideoMetadata, language: string)
    ensures !Truthy(SubtitleText(info, language, ProcessSubtitleEntries))
  {
    SubtitleTextFalsyProcessor(info, language, ProcessSubtitleEntries);
  }

  // ---------------------------------------------------------------------------
  // get_video_info and get_subtitles
  // ---------------------------------------------------------------------------

  datatype VideoDetails = VideoDetails(
    title: string,
    channelName: string,
    thumbnailUrl: string,
    duration: real,
    availableLanguages: seq<Language>,
    videoId: string)

  function DefaultTitle(videoId: string): string {
    "Video " + videoId
  }

  const DefaultChannel: string := "Unknown Channel"

  function DefaultThumbnail(videoId: string): string {
    "https://img.youtube.com/vi/" + videoId + "/maxresdefault.jpg"
  }

  /**
   * `get_video_info(video_id)`: the metadata's fields with their defaults, or, when
   * `extract_info` raised, a record of defaults with no languages.
   */
  method GetVideoInfo(videoId: string, outcome: InfoOutcome) returns (details: VideoDetails)
    ensures details.videoId == videoId
    ensures VideoSummary(details.title, details.channelName, details.thumbnailUrl, videoId) == SummaryFor(videoId, outcome)
    ensures outcome.ExtractionFailed? ==>
              && details.title == "Video " + videoId
              && details.channelName == "Unknown Channel"
              && details.thumbnailUrl == "https://img.youtube.com/vi/" + videoId + "/maxresdefault.jpg"
              && details.duration == 0.0
              && details.availableLanguages == []
    ensures outcome.Extracted? ==>
              && details.title == outcome.info.title.GetOr(DefaultTitle(videoId))
              && details.channelName == outcome.info.uploader.GetOr(DefaultChannel)
              && details.thumbnailUrl == outcome.info.thumbnail.GetOr(DefaultThumbnail(videoId))
              && details.duration == outcome.info.duration.GetOr(0.0)
              && details.availableLanguages == AvailableLanguages(outcome.info)
  {
    match outcome
    case ExtractionFailed(_) =>
      details := VideoDetails(DefaultTitle(videoId), DefaultChannel, DefaultThumbnail(videoId), 0.0, [], videoId);
    case Extracted(info) =>
      var languages := GetAvailableLanguages(info);
      details := VideoDetails(info.title.GetOr(DefaultTitle(videoId)), info.uploader.GetOr(DefaultChannel),
                              info.thumbnail.GetOr(DefaultThumbnail(videoId)), info.duration.GetOr(0.0),
                              languages, videoId);
  }

  /** The `videoInfo` part of a caption response. */
  datatype VideoSummary = VideoSummary(title: string, channelName: string, thumbnailUrl: string, videoId: string)

  /** The `videoInfo` `get_subtitles` builds from extracted metadata. */
  function SummaryOf(info: VideoMetadata, videoId: string): VideoSummary {
    VideoSummary(info.title.GetOr(DefaultTitle(videoId)), info.uploader.GetOr(DefaultChannel),
                 info.thumbnail.GetOr(DefaultThumbnail(videoId)), videoId)
  }

  /** The title, channel and thumbnail of `get_video_info(video_id)`, with the ID. */
  function SummaryFor(videoId: string, outcome: InfoOutcome): (s: VideoSummary)
    ensures outcome.ExtractionFailed? ==>
              s == VideoSummary("Video " + videoId, "Unknown Channel",
                                "https://img.youtube.com/vi/" + videoId + "/maxresdefault.jpg", videoId)
    ensures outcome.Extracted? ==> s == SummaryOf(outcome.info, videoId)
  {
    match outcome
    case ExtractionFailed(_) => VideoSummary(DefaultTitle(videoId), DefaultChannel, DefaultThumbnail(videoId), videoId)
    case Extracted(info) => SummaryOf(info, videoId)
  }

  datatype CaptionData = CaptionData(text: string, subtitles: seq<SubtitleUtils.SubtitleItem>, videoInfo: VideoSummary)

  /** A response dictionary: `success: True` with `data`, or `success: False` with a `message`. */
  datatype Response = Succeeded(data: CaptionData) | Failed(message: string)

  function NotFoundMessage(videoId: string): string {
    "Could not find captions for video: " + videoId
  }

  /**
   * `get_subtitles(video_id, language)`: the cascade's text with the video's summary, the
   * not-found message when the text is falsy, or the message of the exception
   * `extract_info` raised. The flag is `success`.
   */
  method GetSubtitles(videoId: string, language: string, outcome: InfoOutcome,
                      process: seq<TrackFormat> -> Option<string>)
    returns (success: bool, response: Response)
    ensures success <==> response.Succeeded?
    ensures outcome.ExtractionFailed? ==> response == Failed(outcome.error)
    ensures outcome.Extracted? && !Truthy(SubtitleText(outcome.info, language, process)) ==>
              response == Failed("Could not find captions for video: " + videoId)
    ensures outcome.Extracted? && Truthy(SubtitleText(outcome.info, language, process)) ==>
              response == Succeeded(CaptionData(SubtitleText(outcome.info, language, process).value, [],
                                                SummaryOf(outcome.info, videoId)))
  {
    match outcome
    case ExtractionFailed(error) =>
      success, response := false, Failed(error);
    case Extracted(info) =>
      var summary := SummaryOf(info, videoId);
      var text := ExtractSubtitleText(info, language, process);
      if Truthy(text) {
        success, response := true, Succeeded(CaptionData(text.value, [], summary));
      } else {
        success, response := false, Failed(NotFoundMessage(videoId));
      }
  }
}
