/**
 * Display detection (`locate_display`) and the rendering settings derived
 * from the detected display.
 */
module Display {
  import opened Base
  import opened Host

  datatype DisplayModule = Ssd1306 | XWindows

  /** The module name and the pixel size `locate_display` returns. */
  datatype Target = Target(kind: DisplayModule, width: nat, height: nat)

  const PanelTarget := Target(Ssd1306, 128, 32)
  const WindowTarget := Target(XWindows, 1024, 768)

  /**
   * How detection ends: a display, `fail(...)` (exit status 1), or an
   * uncaught `CalledProcessError` from the bus probe (also exit status 1).
   */
  datatype Detection = Detected(target: Target) | NoDisplay | ProbeFailed

  const I2cNode := "/dev/i2c-1"
  const I2cDetect := "/usr/sbin/i2cdetect"

  /** A line `grep "^30:.*3c"` selects: the row for 0x30 shows a device at 0x3c. */
  predicate ProbeLine(line: string)
  {
    |line| >= 3 && line[..3] == "30:"
    && exists k :: 3 <= k < |line| - 1 && line[k] == '3' && line[k + 1] == 'c'
  }

  /**
   * `cmd_output('i2cdetect -y 1 60 60 | grep "^30:.*3c"')` returns, and then
   * returns a non-empty text, exactly when grep selects a line; otherwise grep
   * exits with status 1 and `check_output` raises.
   */
  predicate PanelAnswers(m: Machine)
  {
    exists k | 0 <= k < |m.i2cdetectOutput| :: ProbeLine(m.i2cdetectOutput[k])
  }

  predicate BusReady(m: Machine)
  {
    Exists(m.fs, I2cNode) && Exists(m.fs, I2cDetect)
  }

  predicate WindowedReady(m: Machine)
  {
    "DISPLAY" in m.environ && (FehInstalled(m.fs) || XmessageInstalled(m.fs))
  }

  /**
   * `locate_display` as written. The probe runs only when the bus device
   * node and `i2cdetect` both exist; when it runs and finds no panel it
   * raises, so the windowed branch is never reached in that case.
   */
  function LocateDisplay(m: Machine): (r: Detection)
    ensures r == Detected(PanelTarget) <==> BusReady(m) && PanelAnswers(m)
    ensures r == ProbeFailed <==> BusReady(m) && !PanelAnswers(m)
    ensures r == Detected(WindowTarget) <==> !BusReady(m) && WindowedReady(m)
    ensures r == NoDisplay <==> !BusReady(m) && !WindowedReady(m)
  {
    if BusReady(m) then
      if PanelAnswers(m) then Detected(PanelTarget) else ProbeFailed
    else if WindowedReady(m) then Detected(WindowTarget)
    else NoDisplay
  }

  /** The row for 0x30 that `i2cdetect -y 1 60 60` prints when nothing answers at 0x3c. */
  const EmptyBusRow := "30:          --"

  /**
   * A machine with the I2C bus enabled but no panel attached, an X display
   * and feh installed.
   */
  const BusWithoutPanel := Machine(
    map[I2cNode := Special, I2cDetect := RegularFile([], None, true), "/usr/bin/feh" := RegularFile([], None, true)],
    {"DISPLAY"},
    [EmptyBusRow])

  /** On that machine the program stops although the window could be used. */
  lemma ProbeMissSkipsWindow()
    ensures WindowedReady(BusWithoutPanel)
    ensures LocateDisplay(BusWithoutPanel) == ProbeFailed
  {
    var out := BusWithoutPanel.i2cdetectOutput;
    assert !ProbeLine(EmptyBusRow) by {
      assert forall k :: 3 <= k < |EmptyBusRow| ==> EmptyBusRow[k] == ' ' || EmptyBusRow[k] == '-';
    }
    assert out == [EmptyBusRow];
  }

  /**
   * Detection as the program evidently intends it: a missing panel on an
   * enabled bus falls through to the windowed check.
   */
  function LocateDisplayIntended(m: Machine): Detection
  {
    if BusReady(m) && PanelAnswers(m) then Detected(PanelTarget)
    else if WindowedReady(m) then Detected(WindowTarget)
    else NoDisplay
  }

  /**
   * The intended detection never crashes, fails only when neither display is
   * available, prefers the panel, and agrees with the code whenever the code
   * does not crash.
   */
  lemma IntendedDetection(m: Machine)
    ensures LocateDisplayIntended(m) != ProbeFailed
    ensures LocateDisplayIntended(m) == NoDisplay <==> !(BusReady(m) && PanelAnswers(m)) && !WindowedReady(m)
    ensures LocateDisplayIntended(m) == Detected(WindowTarget) <==> !(BusReady(m) && PanelAnswers(m)) && WindowedReady(m)
    ensures LocateDisplay(m) != ProbeFailed ==> LocateDisplayIntended(m) == LocateDisplay(m)
  {
  }

  /** The padding handed to `send_text` (`padding = -2`). */
  const Padding: int := -2
  /** Pixel rows per text line. */
  const LineHeight: nat := 8
  /** Pixel columns per character. */
  const CharWidth: nat := 6

  datatype RenderConfig = RenderConfig(maxLines: nat, maxChars: nat, padding: int)

  /**
   * `max_lines = y_size // 8`, `max_chars = x_size // 6`, `pad = padding`:
   * the largest numbers of 8-pixel rows and 6-pixel columns that fit.
   */
  function ConfigFor(t: Target): (c: RenderConfig)
    ensures LineHeight * c.maxLines <= t.height < LineHeight * (c.maxLines + 1)
    ensures CharWidth * c.maxChars <= t.width < CharWidth * (c.maxChars + 1)
    ensures c.padding == Padding
  {
    RenderConfig(t.height / LineHeight, t.width / CharWidth, Padding)
  }

  lemma KnownConfigs()
    ensures ConfigFor(PanelTarget) == RenderConfig(4, 21, -2)
    ensures ConfigFor(WindowTarget) == RenderConfig(96, 170, -2)
  {
  }

  /** Start-up ends with a display and its settings, or with exit status 1. */
  datatype Startup = Ready(target: Target, config: RenderConfig) | Fatal(exitCode: int)

  /**
   * `if cl_args['font'] and not os.path.exists(...)`: a font name was given,
   * is not empty (the empty string is false in Python), and names nothing.
   */
  predicate FontMissing(m: Machine, font: Option<string>)
  {
    font.Some? && font.value != "" && !Exists(m.fs, font.value)
  }

  /**
   * Detection, then the font check. A failed bus probe raises an exception
   * nothing catches, which also ends the process with status 1.
   */
  function Start(m: Machine, font: Option<string>): (r: Startup)
    ensures r.Fatal? ==> r.exitCode == 1
    ensures r.Fatal? <==> !LocateDisplay(m).Detected? || FontMissing(m, font)
    ensures r.Ready? ==> LocateDisplay(m) == Detected(r.target) && r.config == ConfigFor(r.target)
  {
    match LocateDisplay(m)
    case Detected(t) => if FontMissing(m, font) then Fatal(1) else Ready(t, ConfigFor(t))
    case _ => Fatal(1)
  }

  /** `-f ''` is the same as giving no font: the empty name is never checked. */
  lemma EmptyFontName(m: Machine)
    ensures Start(m, Some("")) == Start(m, None)
  {
  }

  /** Start-up on the corrected detection. */
  function StartIntended(m: Machine, font: Option<string>): (r: Startup)
    ensures r.Fatal? ==> r.exitCode == 1
    ensures r.Fatal? <==> LocateDisplayIntended(m) == NoDisplay || FontMissing(m, font)
    ensures r.Ready? ==> LocateDisplayIntended(m) == Detected(r.target) && r.config == ConfigFor(r.target)
  {
    match LocateDisplayIntended(m)
    case Detected(t) => if FontMissing(m, font) then Fatal(1) else Ready(t, ConfigFor(t))
    case _ => Fatal(1)
  }

  /**
   * The corrected start-up agrees with the code except where the bus probe
   * crashes; on the machine with no panel it opens the window instead of
   * exiting.
   */
  lemma IntendedStart(m: Machine, font: Option<string>)
    ensures LocateDisplay(m) != ProbeFailed ==> StartIntended(m, font) == Start(m, font)
    ensures Start(BusWithoutPanel, None) == Fatal(1)
    ensures StartIntended(BusWithoutPanel, None) == Ready(WindowTarget, ConfigFor(WindowTarget))
  {
    ProbeMissSkipsWindow();
    IntendedDetection(BusWithoutPanel);
  }
}
