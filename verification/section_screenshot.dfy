/** The section-screenshot panel: its capture, refresh and download handlers
    as transitions over the panel's flags, and the download file name. The
    canvas renderer and the clock are parameters. */
module SectionScreenshot {
  import opened Wrappers
  import opened Strings

  const CaptureFailed := "Failed to capture screenshot. Please try again."
  const DefaultPrefix := "section-screenshot-"
  const Extension := ".png"

  /** How many leading characters of the ISO timestamp the file name keeps. */
  const StampLength: nat := 19

  datatype Panel = Panel(isCapturing: bool, screenshot: Option<string>, error: Option<string>)

  /** The outcome of rendering the target element: a PNG data URL, or a failure. */
  datatype Canvas = Rendered(dataUrl: string) | RenderFailed

  function Initial(): Panel {
    Panel(false, None, None)
  }

  /** The state while the renderer runs: capturing, with the error cleared. */
  function BeginCapture(p: Panel): (r: Panel)
    ensures r.isCapturing && r.error.None? && r.screenshot == p.screenshot
  {
    p.(isCapturing := true, error := None)
  }

  /** `captureSection` from the click to its `finally`: a missing target and a
      failed render both end with the same fixed message. */
  function Capture(p: Panel, hasTarget: bool, canvas: Canvas): (r: Panel)
    ensures !r.isCapturing
    ensures !hasTarget ==> r.screenshot == p.screenshot && r.error == Some(CaptureFailed)
    ensures hasTarget && canvas.Rendered? ==> r.screenshot == Some(canvas.dataUrl) && r.error.None?
    ensures hasTarget && canvas.RenderFailed? ==> r.screenshot == p.screenshot && r.error == Some(CaptureFailed)
  {
    if !hasTarget then p.(isCapturing := false, error := Some(CaptureFailed))
    else
      var busy := BeginCapture(p);
      match canvas
      case Rendered(url) => busy.(screenshot := Some(url), isCapturing := false)
      case RenderFailed => busy.(error := Some(CaptureFailed), isCapturing := false)
  }

  /** `handleRefresh`: drops the screenshot and the error. */
  function Refresh(p: Panel): (r: Panel)
    ensures r.screenshot.None? && r.error.None?
    ensures r.isCapturing == p.isCapturing
  {
    p.(screenshot := None, error := None)
  }

  /** The timestamp part of the file name: the first nineteen characters of the
      ISO string with every colon turned into a dash. */
  function Stamp(iso: string): (r: string)
    ensures |r| == if |iso| < StampLength then |iso| else StampLength
    ensures forall i :: 0 <= i < |r| ==> r[i] == (if iso[i] == ':' then '-' else iso[i])
    ensures forall i :: 0 <= i < |r| ==> r[i] != ':'
    ensures NoSpace(iso) ==> NoSpace(r)
  {
    ReplaceChar(Take(iso, StampLength), ':', '-')
  }

  /** The file-name prefix: the titled slug and a dash, or the default prefix. */
  function TitlePrefix(title: Option<string>): (r: string)
    ensures NoSpace(r)
    ensures title.None? || title.value == "" ==> r == DefaultPrefix
    ensures title.Some? && title.value != "" ==>
              && EndsWith(r, "-")
              && r[..|r| - 1] == DashSpaceRuns(ToLower(title.value))
              && NoUpper(r)
              && Ink(r) == Ink(ToLower(title.value))
  {
    if title.Some? && title.value != "" then
      var slug := DashSpaceRuns(ToLower(title.value));
      DashSpaceRunsNoUpper(ToLower(title.value));
      DashSpaceRunsKeepsInk(ToLower(title.value));
      InkDash(slug);
      var r := slug + "-";
      assert r[..|r| - 1] == slug;
      NoSpaceConcat(slug, "-");
      r
    else DefaultPrefix
  }

  lemma {:induction false} InkDash(s: string)
    ensures Ink(s + "-") == Ink(s)
    decreases |s|
  {
    if |s| > 0 {
      assert (s + "-")[1..] == s[1..] + "-";
      InkDash(s[1..]);
    }
  }

  /** The name of the downloaded file. */
  function Filename(title: Option<string>, iso: string): (r: string)
    ensures |r| == |TitlePrefix(title)| + |Stamp(iso)| + |Extension|
    ensures EndsWith(r, Extension)
    ensures StartsWith(r, TitlePrefix(title))
    ensures r[|TitlePrefix(title)|..|r| - |Extension|] == Stamp(iso)
  {
    var prefix := TitlePrefix(title);
    var r := prefix + Stamp(iso) + Extension;
    assert r[..|prefix|] == prefix;
    assert r[|r| - |Extension|..] == Extension;
    assert r[|prefix|..|r| - |Extension|] == Stamp(iso);
    r
  }

  /** `handleDownload`: no file without a screenshot, otherwise the file name. */
  function Download(p: Panel, title: Option<string>, iso: string): (r: Option<string>)
    ensures p.screenshot.None? || p.screenshot.value == "" ==> r.None?
    ensures p.screenshot.Some? && p.screenshot.value != "" ==> r == Some(Filename(title, iso))
  {
    if p.screenshot.Some? && p.screenshot.value != "" then Some(Filename(title, iso)) else None
  }

  lemma NoSpaceConcat(a: string, b: string)
    requires NoSpace(a) && NoSpace(b)
    ensures NoSpace(a + b)
  {
    assert forall i :: |a| <= i < |a + b| ==> (a + b)[i] == b[i - |a|];
  }

  /** A file name built from a whitespace-free timestamp holds no whitespace. */
  lemma FilenameHasNoSpace(title: Option<string>, iso: string)
    requires NoSpace(iso)
    ensures NoSpace(Filename(title, iso))
  {
    NoSpaceConcat(TitlePrefix(title), Stamp(iso));
    NoSpaceConcat(TitlePrefix(title) + Stamp(iso), Extension);
  }

  /** A concrete timestamp: the milliseconds and zone are cut and the colons become dashes. */
  lemma StampOfIsoTime()
    ensures Stamp("2024-05-01T12:34:56.789Z") == "2024-05-01T12-34-56"
  {
  }
}
