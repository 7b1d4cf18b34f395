/** The name-handling part of the game scraper: turning a scraped title or
    a downloaded file's name into a safe file name, the fallback name for a
    download, and the names given to a game's screenshots. */
module Scraper {
  import opened Text
  import opened Seqs
  import Wap

  /** The name used when nothing of the input survives. */
  const DefaultName: string := "未命名游戏"

  /** The download's name when the sanitised name is unusable. */
  const FallbackFileName: string := "game_file.jar"

  // The regular-expression character class whose members are deleted from
  // every name: backslash, slash, star, question mark, colon, double quote,
  // less-than, greater-than and vertical bar.
  predicate IsForbidden(c: char)
  {
    c == '\\' || c == '/' || c == '*' || c == '?' || c == ':' || c == '"' || c == '<' || c == '>' || c == '|'
  }

  predicate IsAllowed(c: char) { !IsForbidden(c) }

  /** The characters `strip('. ')` removes from both ends. */
  predicate IsEdge(c: char) { c == '.' || c == ' ' }

  /** Deleting every forbidden character, the others kept in order. */
  function RemoveForbidden(s: string): (r: string)
    ensures |r| <= |s|
    ensures forall i :: 0 <= i < |r| ==> r[i] in s && IsAllowed(r[i])
    ensures forall i :: 0 <= i < |s| && IsAllowed(s[i]) ==> s[i] in r
  {
    Filter(IsAllowed, s)
  }

  /** `s.replace(':', '_')`: every colon becomes an underscore, every other
      character stays where it is. */
  function ReplaceColon(s: string): (r: string)
    ensures |r| == |s|
    ensures forall i :: 0 <= i < |s| ==> r[i] != ':'
    ensures forall i :: 0 <= i < |s| && s[i] != ':' ==> r[i] == s[i]
  {
    seq(|s|, i requires 0 <= i < |s| => if s[i] == ':' then '_' else s[i])
  }

  /** Scanning right from `i` over dots and spaces: where the first other
      character stands. */
  function SkipEdgesForward(s: string, i: nat): (r: nat)
    requires i <= |s|
    ensures i <= r <= |s|
    ensures forall k :: i <= k < r ==> IsEdge(s[k])
    ensures r < |s| ==> !IsEdge(s[r])
    decreases |s| - i
  {
    if i < |s| && IsEdge(s[i]) then SkipEdgesForward(s, i + 1) else i
  }

  /** Scanning left from `j`, not past `lo`, over dots and spaces: where
      the last other character ends. */
  function SkipEdgesBackward(s: string, lo: nat, j: nat): (r: nat)
    requires lo <= j <= |s|
    ensures lo <= r <= j
    ensures forall k :: r <= k < j ==> IsEdge(s[k])
    ensures lo < r ==> !IsEdge(s[r - 1])
  {
    if lo < j && IsEdge(s[j - 1]) then SkipEdgesBackward(s, lo, j - 1) else j
  }

  /** `s.strip('. ')`: skip dots and spaces from the left, then from the
      right without crossing the left end, and keep what lies between. The
      result neither starts nor ends with a dot or a space. */
  function Strip(s: string): (r: string)
    ensures |r| <= |s|
    ensures r != [] ==> !IsEdge(r[0]) && !IsEdge(r[|r| - 1])
  {
    var a := SkipEdgesForward(s, 0);
    s[a..SkipEdgesBackward(s, a, |s|)]
  }

  /** `r` is the piece of `t` at position `a`, and what lies around it in `t`
      is dots and spaces only. */
  predicate TrimmedAt(t: string, r: string, a: int)
  {
    && 0 <= a && a + |r| <= |t| && t[a..a + |r|] == r
    && (forall k :: 0 <= k < a ==> IsEdge(t[k]))
    && (forall k :: a + |r| <= k < |t| ==> IsEdge(t[k]))
  }

  /** Stripping cuts dots and spaces off both ends and nothing else. */
  lemma StripTrims(t: string)
    ensures TrimmedAt(t, Strip(t), SkipEdgesForward(t, 0))
  {
    var a := SkipEdgesForward(t, 0);
    var e := SkipEdgesBackward(t, a, |t|);
    assert Strip(t) == t[a..e];
  }

  /** The colon replacement changes nothing: every colon is already gone. */
  lemma ColonReplaceNoOp(s: string)
    ensures ReplaceColon(RemoveForbidden(s)) == RemoveForbidden(s)
  {
    var t := RemoveForbidden(s);
    forall i | 0 <= i < |t| ensures t[i] != ':' {
      assert IsAllowed(t[i]);
    }
  }

  /** What survives cleaning, before the default is substituted. */
  function Core(filename: string): string
  {
    Strip(RemoveForbidden(filename))
  }

  /** A string the sanitiser would leave alone. */
  predicate IsClean(s: string)
  {
    && s != []
    && (forall i :: 0 <= i < |s| ==> !IsForbidden(s[i]))
    && !IsEdge(s[0]) && !IsEdge(s[|s| - 1])
  }

  /** The default name has no forbidden character, no dot or space at
      either end, and no underscore. */
  lemma DefaultNameIsClean()
    ensures IsClean(DefaultName)
    ensures '_' !in DefaultName
  {
    assert DefaultName == ['未', '命', '名', '游', '戏'];
  }

  /** Each character that survives cleaning is an allowed character of the input. */
  lemma CoreCharFromInput(filename: string, k: nat)
    requires k < |Core(filename)|
    ensures Core(filename)[k] in filename && IsAllowed(Core(filename)[k])
  {
    var t := RemoveForbidden(filename);
    StripTrims(t);
    var a := SkipEdgesForward(t, 0);
    assert t[a + k] == Core(filename)[k];
  }

  /** Whatever survives cleaning is clean. */
  lemma CoreIsClean(filename: string)
    ensures Core(filename) == [] || IsClean(Core(filename))
  {
    forall k | 0 <= k < |Core(filename)| ensures !IsForbidden(Core(filename)[k]) {
      CoreCharFromInput(filename, k);
    }
  }

  /** sanitize_filename. */
  function Sanitize(filename: string): (r: string)
    ensures IsClean(r)
  {
    var cleaned := Strip(ReplaceColon(RemoveForbidden(filename)));
    ColonReplaceNoOp(filename);
    CoreIsClean(filename);
    DefaultNameIsClean();
    if cleaned == [] then DefaultName else cleaned
  }

  /** The result is the default exactly when nothing survives cleaning,
      and otherwise what survives. */
  lemma SanitizeIsCoreOrDefault(filename: string)
    ensures Core(filename) == [] ==> Sanitize(filename) == DefaultName
    ensures Core(filename) != [] ==> Sanitize(filename) == Core(filename)
  {
    ColonReplaceNoOp(filename);
  }

  /** What survives is the input with forbidden characters deleted and dots
      and spaces cut from both ends: a contiguous piece of the input's
      allowed characters, kept in order, interior dots and spaces included. */
  lemma SanitizeTrims(filename: string)
    requires Core(filename) != []
    ensures exists a :: TrimmedAt(RemoveForbidden(filename), Sanitize(filename), a)
    ensures IsSubseq(RemoveForbidden(filename), filename)
  {
    SanitizeIsCoreOrDefault(filename);
    var t := RemoveForbidden(filename);
    StripTrims(t);
    assert TrimmedAt(t, Sanitize(filename), SkipEdgesForward(t, 0));
    FilterIsSubseq(IsAllowed, filename);
  }

  /** No underscore is ever introduced. */
  lemma SanitizeAddsNoUnderscore(filename: string)
    ensures '_' in Sanitize(filename) ==> '_' in filename
  {
    SanitizeIsCoreOrDefault(filename);
    DefaultNameIsClean();
    var r := Sanitize(filename);
    if '_' in r && Core(filename) != [] {
      var k :| 0 <= k < |r| && r[k] == '_';
      CoreCharFromInput(filename, k);
    }
  }

  lemma SanitizeClean(s: string)
    requires IsClean(s)
    ensures Sanitize(s) == s
  {
    FilterAll(IsAllowed, s);
    ColonReplaceNoOp(s);
    assert SkipEdgesForward(s, 0) == 0;
    assert SkipEdgesBackward(s, 0, |s|) == |s|;
  }

  /** Sanitising twice is sanitising once. */
  lemma SanitizeIdempotent(filename: string)
    ensures Sanitize(Sanitize(filename)) == Sanitize(filename)
  {
    SanitizeClean(Sanitize(filename));
  }

  /** The downloaded file's name, with the caller's fallback: never empty
      and never ".". */
  function DownloadFileName(rawName: string): (r: string)
    ensures r != [] && r != "."
  {
    var fileName := Sanitize(rawName);
    if fileName == [] || fileName == "." then FallbackFileName else fileName
  }

  /** The fallback is dead code: the sanitised name is never empty or ".". */
  lemma DownloadFallbackUnreachable(rawName: string)
    ensures DownloadFileName(rawName) == Sanitize(rawName)
  {
    var n := Sanitize(rawName);
    assert n[0] != '.';
  }

  /** Forbidden characters are deleted, not replaced. */
  lemma SanitizeExampleColon()
    ensures Sanitize("a:b") == "ab"
  {
    assert Filter(IsAllowed, "b") == "b";
    assert Filter(IsAllowed, ":b") == "b";
    assert RemoveForbidden("a:b") == "ab";
    SanitizeClean("ab");
    SanitizeIsCoreOrDefault("a:b");
  }

  /** The file name of the screenshot at 0-based position `i`: the prefix,
      the 1-based position in decimal, and the .jpg extension. */
  function ScreenshotName(i: nat): (r: string)
    ensures |r| == 15 + |DecimalString(i + 1)|
    ensures r[..11] == "screenshot_" && r[11..|r| - 4] == DecimalString(i + 1)
    ensures EndsWith(r, ".jpg")
  {
    "screenshot_" + DecimalString(i + 1) + ".jpg"
  }

  /** The names of `count` screenshots, in page order. */
  function ScreenshotNames(count: nat): (names: seq<string>)
    ensures |names| == count
  {
    seq(count, i requires 0 <= i < count => ScreenshotName(i))
  }

  /** Distinct screenshots get distinct names, so none overwrites another. */
  lemma ScreenshotNamesDistinct(count: nat, i: nat, j: nat)
    requires i < count && j < count && i != j
    ensures ScreenshotNames(count)[i] != ScreenshotNames(count)[j]
  {
    var a, b := ScreenshotName(i), ScreenshotName(j);
    if a == b {
      var da, db := DecimalString(i + 1), DecimalString(j + 1);
      assert |da| == |db|;
      assert da == a[11..11 + |da|];
      assert db == b[11..11 + |db|];
      DecimalStringInjective(i + 1, j + 1);
    }
  }

  /** Every saved screenshot is shown as an image on the game page. */
  lemma ScreenshotIsImage(i: nat)
    ensures Wap.IsImage(ScreenshotName(i))
  {
    var name := ScreenshotName(i);
    var prefix := "screenshot_" + DecimalString(i + 1);
    assert name == prefix + ".jpg";
    LowerNoUpper(name);
    EndsWithAppend(prefix, ".jpg");
    assert EndsWith(Lower(name), Wap.ImageSuffixes[1]);
  }
}
