/**
 * Classification of media paths by file extension, and the fixed list of
 * hero animation frames.
 */
module MediaFiles {

  /** Extensions (lower case) that mark a path as a video. */
  const VideoExtensions: set<string> := {"mp4", "webm", "ogg"}

  /** Number of generated hero frames. */
  const MediaCount: nat := 12

  /** The folder prefix of every hero frame path. */
  const HeroFolder: string := "hero-anim/"

  /** The suffix of every hero frame path. */
  const HeroSuffix: string := ".png"

  predicate IsUpper(c: char) {
    'A' <= c <= 'Z'
  }

  /** `toLowerCase` on one character, restricted to the ASCII letters. */
  function LowerChar(c: char): (d: char)
    ensures !IsUpper(d)
    ensures !IsUpper(c) ==> d == c
    ensures IsUpper(c) ==> d as int == c as int + 32
    ensures d == '.' <==> c == '.'
  {
    if IsUpper(c) then (c as int + 32) as char else c
  }

  /** `String.prototype.toLowerCase`, character by character. */
  function ToLower(s: string): (r: string)
    ensures |r| == |s|
    ensures forall i :: 0 <= i < |s| ==> r[i] == LowerChar(s[i])
  {
    if s == [] then [] else [LowerChar(s[0])] + ToLower(s[1..])
  }

  /** Lowering twice is lowering once. */
  lemma ToLowerIdempotent(s: string)
    ensures ToLower(ToLower(s)) == ToLower(s)
  {
    var r := ToLower(s);
    assert forall i :: 0 <= i < |r| ==> ToLower(r)[i] == r[i];
  }

  /** A string without a dot stays without a dot once lowered. */
  lemma ToLowerKeepsNoDot(s: string)
    requires '.' !in s
    ensures '.' !in ToLower(s)
  {
    var r := ToLower(s);
    forall i | 0 <= i < |r| ensures r[i] != '.' {
      assert s[i] != '.';
    }
  }

  /** Lowering commutes with taking a suffix. */
  lemma ToLowerSuffix(s: string, k: nat)
    requires k <= |s|
    ensures ToLower(s)[k..] == ToLower(s[k..])
  {
  }

  /**
   * The index of the last dot among the first `end` characters of `s`, or
   * -1 when there is none.
   */
  function LastDot(s: string, end: nat): (k: int)
    requires end <= |s|
    ensures -1 <= k < end
    ensures k >= 0 ==> s[k] == '.'
    ensures forall j :: k < j < end ==> s[j] != '.'
  {
    if end == 0 then -1
    else if s[end - 1] == '.' then end - 1
    else LastDot(s, end - 1)
  }

  /**
   * `s.split('.').pop()`: the text after the last dot, or all of `s` when it
   * holds no dot.
   */
  function LastSegment(s: string): (r: string)
    ensures |r| <= |s|
  {
    s[LastDot(s, |s|) + 1..]
  }

  /**
   * The last segment is a suffix of `s` without a dot, and it is either all
   * of `s` or preceded by a dot.
   */
  lemma LastSegmentIsDotFreeSuffix(s: string)
    ensures var r := LastSegment(s);
      '.' !in r && |r| <= |s| && r == s[|s| - |r|..] &&
      (|r| < |s| ==> s[|s| - |r| - 1] == '.')
  {
    var k := LastDot(s, |s|);
    var r := LastSegment(s);
    forall i | 0 <= i < |r| ensures r[i] != '.' {
      assert r[i] == s[k + 1 + i];
    }
  }

  /** The dot-free suffix reaching back to a dot (or to the start) is unique. */
  lemma {:induction false} LastSegmentUnique(s: string, r: string)
    requires '.' !in r
    requires |r| <= |s| && r == s[|s| - |r|..]
    requires |r| < |s| ==> s[|s| - |r| - 1] == '.'
    ensures r == LastSegment(s)
  {
    LastSegmentIsDotFreeSuffix(s);
  }

  /** A path `stem.ext` whose `ext` has no dot splits off exactly `ext`. */
  lemma LastSegmentOfDotted(stem: string, ext: string)
    requires '.' !in ext
    ensures LastSegment(stem + "." + ext) == ext
  {
    var s := stem + "." + ext;
    assert s[|s| - |ext|..] == ext;
    assert s[|s| - |ext| - 1] == '.';
    LastSegmentUnique(s, ext);
  }

  /** A path without any dot is its own last segment. */
  lemma LastSegmentWithoutDot(s: string)
    requires '.' !in s
    ensures LastSegment(s) == s
  {
    LastSegmentUnique(s, s);
  }

  /** Lowering keeps every dot where it was. */
  lemma {:induction false} LastDotOfLower(s: string, end: nat)
    requires end <= |s|
    ensures LastDot(ToLower(s), end) == LastDot(s, end)
  {
    if end > 0 && s[end - 1] != '.' {
      LastDotOfLower(s, end - 1);
    }
  }

  /** Splitting at the last dot commutes with lowering the whole path. */
  lemma LastSegmentOfLower(s: string)
    ensures LastSegment(ToLower(s)) == ToLower(LastSegment(s))
  {
    LastDotOfLower(s, |s|);
    ToLowerSuffix(s, LastDot(s, |s|) + 1);
  }

  /**
   * `getFileExtension`: the lower-cased text after the last dot of the
   * name (the whole lower-cased name when it has no dot).
   */
  function GetFileExtension(filename: string): (ext: string)
    ensures |ext| <= |filename|
    ensures forall i :: 0 <= i < |ext| ==> !IsUpper(ext[i])
  {
    ToLower(LastSegment(filename))
  }

  /**
   * The extension is the lower-cased dot-free suffix of the name that is
   * either the whole name or preceded by a dot.
   */
  lemma ExtensionIsLoweredLastSegment(filename: string)
    ensures var ext := GetFileExtension(filename);
      '.' !in ext &&
      |ext| <= |filename| && ext == ToLower(filename[|filename| - |ext|..]) &&
      (|ext| < |filename| ==> filename[|filename| - |ext| - 1] == '.')
  {
    var seg := LastSegment(filename);
    var ext := GetFileExtension(filename);
    LastSegmentIsDotFreeSuffix(filename);
    ToLowerKeepsNoDot(seg);
    assert ext == ToLower(seg) && |ext| == |seg|;
    assert filename[|filename| - |ext|..] == seg;
  }

  /** `isVideoFile`: the extension is one of mp4, webm, ogg. */
  predicate IsVideoFile(filename: string) {
    GetFileExtension(filename) in VideoExtensions
  }

  /** The extension of `stem.ext` is `ext` lowered, whatever the stem holds. */
  lemma ExtensionOfDotted(stem: string, ext: string)
    requires '.' !in ext
    ensures GetFileExtension(stem + "." + ext) == ToLower(ext)
  {
    LastSegmentOfDotted(stem, ext);
  }

  /** A path `stem.ext` is a video exactly when `ext`, in any case, is mp4, webm or ogg. */
  lemma IsVideoFileOfDotted(stem: string, ext: string)
    requires '.' !in ext
    ensures IsVideoFile(stem + "." + ext) <==> ToLower(ext) in VideoExtensions
  {
    ExtensionOfDotted(stem, ext);
  }

  /** The letter case of a path never changes whether it is a video. */
  lemma IsVideoFileIgnoresCase(filename: string)
    ensures IsVideoFile(ToLower(filename)) <==> IsVideoFile(filename)
  {
    LastSegmentOfLower(filename);
    ToLowerIdempotent(LastSegment(filename));
  }

  /** An upper-case video extension is recognised, whatever the stem. */
  lemma UpperCaseVideoExample(stem: string)
    ensures IsVideoFile(stem + ".MP4")
  {
    assert stem + ".MP4" == stem + "." + "MP4";
    IsVideoFileOfDotted(stem, "MP4");
    var low := ToLower("MP4");
    assert low[0] == 'm' && low[1] == 'p' && low[2] == '4';
    assert low == "mp4";
  }

  /** Whatever precedes it, even a video extension, a path ending in `.png` is not a video. */
  lemma PngIsNeverVideo(stem: string)
    ensures GetFileExtension(stem + HeroSuffix) == "png"
    ensures !IsVideoFile(stem + HeroSuffix)
  {
    assert stem + HeroSuffix == stem + "." + "png";
    ExtensionOfDotted(stem, "png");
    var low := ToLower("png");
    assert low[0] == 'p' && low[1] == 'n' && low[2] == 'g';
  }

  function DigitChar(d: nat): (c: char)
    requires d < 10
    ensures '0' <= c <= '9'
  {
    ('0' as int + d) as char
  }

  predicate AllDigits(s: string) {
    forall i :: 0 <= i < |s| ==> '0' <= s[i] <= '9'
  }

  /** The decimal numeral of `n`, as a template literal prints it. */
  function Decimal(n: nat): (s: string)
    ensures 1 <= |s| && AllDigits(s)
    ensures '.' !in s
    ensures n > 0 ==> s[0] != '0'
  {
    if n < 10 then [DigitChar(n)] else Decimal(n / 10) + [DigitChar(n % 10)]
  }

  /** The value a string of decimal digits denotes. */
  function ParseDecimal(s: string): nat
    requires AllDigits(s)
  {
    if s == [] then 0
    else ParseDecimal(s[..|s| - 1]) * 10 + (s[|s| - 1] as int - '0' as int)
  }

  /** `Decimal` is read back by `ParseDecimal`. */
  lemma {:induction false} DecimalRoundTrip(n: nat)
    ensures ParseDecimal(Decimal(n)) == n
  {
    var s := Decimal(n);
    if n >= 10 {
      DecimalRoundTrip(n / 10);
      assert s[..|s| - 1] == Decimal(n / 10);
    }
  }

  /** The path of hero frame `i` (counting from 0): `hero-anim/{i + 1}.png`. */
  function MediaPath(i: nat): (p: string)
    ensures |p| > |HeroFolder| + |HeroSuffix|
    ensures p[..|HeroFolder|] == HeroFolder
    ensures p[|p| - |HeroSuffix|..] == HeroSuffix
    ensures p[|HeroFolder|] != '0'
  {
    HeroFolder + Decimal(i + 1) + HeroSuffix
  }

  /** `mediaFiles`: the twelve hero frame paths, in order. */
  function HeroMediaFiles(): (files: seq<string>)
    ensures |files| == MediaCount
  {
    seq(MediaCount, i requires 0 <= i => MediaPath(i))
  }

  /** Frame `i` is the PNG file numbered `i + 1` in the hero folder. */
  lemma HeroMediaFileNumbered(i: nat)
    requires i < MediaCount
    ensures var p := HeroMediaFiles()[i];
      |p| > |HeroFolder| + |HeroSuffix| &&
      p[..|HeroFolder|] == HeroFolder &&
      p[|p| - |HeroSuffix|..] == HeroSuffix &&
      p[|HeroFolder|] != '0' &&
      AllDigits(p[|HeroFolder|..|p| - |HeroSuffix|]) &&
      ParseDecimal(p[|HeroFolder|..|p| - |HeroSuffix|]) == i + 1
  {
    var p := HeroMediaFiles()[i];
    assert p[|HeroFolder|..|p| - |HeroSuffix|] == Decimal(i + 1);
    DecimalRoundTrip(i + 1);
  }

  /** The twelve paths are pairwise different. */
  lemma HeroMediaFilesDistinct(i: nat, j: nat)
    requires i < MediaCount && j < MediaCount && i != j
    ensures HeroMediaFiles()[i] != HeroMediaFiles()[j]
  {
    HeroMediaFileNumbered(i);
    HeroMediaFileNumbered(j);
  }

  /** Every hero frame has extension png, so none of them is a video. */
  lemma HeroMediaNotVideo(i: nat)
    requires i < MediaCount
    ensures GetFileExtension(HeroMediaFiles()[i]) == "png"
    ensures !IsVideoFile(HeroMediaFiles()[i])
  {
    PngIsNeverVideo(HeroFolder + Decimal(i + 1));
  }
}
