# pi_show: a verified model of the render-planning core

`pi_show.py` shows text files and pictures on the display of a Raspberry Pi.
It uses a 128x32 SSD1306 OLED panel on the I2C bus. When there is no panel,
it falls back to the X programs `xmessage` (text) and `feh` (pictures). This
project models, in Dafny, the deterministic decisions under the device I/O:

- which display is used;
- the rendering settings derived from the display;
- how a text block is laid out on the panel;
- how a picture is shown, including the one resize retry;
- which files are listed, and in which order;
- what one pass of the main loop dispatches.

The machine the program runs on is an input: a file system (a map from the
path strings the program builds to a regular file, a directory or something
else, where files and directories are marked as readable by the process or
not), the set of environment variable names, and the lines
`i2cdetect -y 1 60 60` prints. During a pass, content can be deleted or added
by another process. So the pass takes the file system at listing time and a
function giving the file system at each listed item's turn.

Modules, following the program's structure:

| file | module | models |
|---|---|---|
| base.dfy | `Base` | `Option`, `Min` |
| pystr.dfy | `PyStr` | `str.strip`, `lower().endswith('.txt')`, `s[0:n]`, `"\n".join` |
| order.dfy | `Order` | Python's `str` ordering and `list.sort()` |
| host.dfy | `Host` | `os.path.exists/isfile/isdir`, `xmessage_installed`, `feh_installed` |
| display.dfy | `Display` | `locate_display`, `y_size//8`, `x_size//6`, `padding`, start-up |
| canvas.dfy | `Drawing` | the drawing surface and `send_text` |
| images.dfy | `Images` | `send_image` |
| listing.dfy | `Listing` | `sorted_dir_list` |
| mainloop.dfy | `MainLoop` | one pass of the `while True` loop |
| scenario.dfy | `Scenario` | a worked pass over a small directory |

Python's `//` is floor division. Dafny's `/` on `int` is Euclidean. The two
agree whenever the divisor is positive, which it always is here (8 and 6).

Where the program's documentation and its code differ, the model follows the
code:

- No per-item exception is caught. If opening a listed `.txt` path fails (it
  is no longer a regular file, or the process may not read it), the pass ends
  with `Crashed`. The same happens when Pillow cannot open a picture, and when
  `os.listdir` may not read the show directory.
- `strip()` removes whitespace at both ends of each line, not only at the end.
- When `--stdin` is set, `send_text` is called on every pass, also with an
  empty batch once standard input is at end of file. On the panel, that blanks
  the screen for one dwell.
- The text handed to `xmessage` is the lines joined by newlines, with no cap on
  the number of lines or their length.
- The existence check in the main loop comes just before `send_image`'s own
  check. So inside a pass, `send_image` never takes its "unreadable, skipping"
  branch (`MainLoop.Handle`).

## Model

| member | source | states |
|---|---|---|
| `PyStr.StripBounds` | pi_show.py:305 | `strip()` keeps the infix between two whitespace-only runs; the kept text neither starts nor ends with whitespace; an empty result means the line was all whitespace |
| `PyStr.StripIdempotent` | pi_show.py:314 | stripping a stripped line changes nothing |
| `PyStr.IsTextNameChars` | pi_show.py:311 | a name counts as text exactly when its last four characters are `.`, `t`/`T`, `x`/`X`, `t`/`T` |
| `PyStr.Prefix` | pi_show.py:174 | `s[0:n]` is a prefix of `s` of length `min(n, len(s))`, and all of `s` when `s` fits |
| `PyStr.SplitJoin` | pi_show.py:166 | the xmessage text `"\n".join(lines)` (`PyStr.Join`) splits back on newlines into every line, whole and in order, when the lines hold no newline; `PyStr.Split` is only the reference inverse used to state this |
| `Host.ViewerLocations` | pi_show.py:266-267 | xmessage counts as installed exactly when one of `/opt/X11/bin/xmessage`, `/bin/xmessage`, `/usr/bin/xmessage` exists, and feh exactly when one of `/usr/bin/feh`, `/bin/feh`, `/opt/local/bin/feh` exists; adding paths never uninstalls either |
| `Order.LexLeReflexive` | pi_show.py:226 | string order is reflexive |
| `Order.LexLeAntisymmetric` | pi_show.py:226 | string order is antisymmetric |
| `Order.LexLeTransitive` | pi_show.py:226 | string order is transitive |
| `Order.LexLeTotal` | pi_show.py:226 | any two strings are comparable |
| `Order.InsertSorted` | pi_show.py:226 | inserting into an ascending list keeps it ascending and adds exactly the one element |
| `Order.SortCorrect` | pi_show.py:226 | `list.sort()` yields an ascending permutation of its input |
| `Order.SortStrict` | pi_show.py:226 | sorting a list without repeats yields a strictly ascending list with the same elements |
| `Order.StrictlySortedUnique` | pi_show.py:226 | two strictly ascending lists with the same elements are equal |
| `Display.LocateDisplay` | pi_show.py:231-258 | the decision table in priority order: panel 128x32 when the bus node and `i2cdetect` exist and a device answers at 0x3c; probe crash when they exist and none answers; window 1024x768 when they are missing, `DISPLAY` is set and feh or xmessage is installed; exit 1 otherwise |
| `Display.ProbeMissSkipsWindow` | pi_show.py:241-251 | a machine with the bus enabled, no panel, an X display and feh ends in the probe crash, not in the window |
| `Display.IntendedDetection` | pi_show.py:231-258 | corrected detection never crashes; it fails exactly when neither the panel nor the window is available; it agrees with the code whenever the code does not crash |
| `Display.ConfigFor` | pi_show.py:307 | `max_lines`/`max_chars` are the largest counts of 8-pixel rows and 6-pixel columns that fit the display; padding is -2 |
| `Display.KnownConfigs` | pi_show.py:315 | the panel gets 4 lines of 21 characters; the window gets 96 lines of 170 characters |
| `Display.Start` | pi_show.py:287-296 | start-up ends with status 1 exactly when detection does not find a display (including the uncaught bus-probe exception) or a non-empty font name names nothing; otherwise it yields the detected target with its settings |
| `Display.EmptyFontName` | pi_show.py:291-292 | `-f ''` is treated as no font: the empty name is false in Python and is never checked |
| `Display.StartIntended` | pi_show.py:287-296 | corrected start-up: status 1 exactly when the corrected detection finds nothing or the font is missing; otherwise the target that detection found |
| `Display.IntendedStart` | pi_show.py:241-292 | the corrected start-up agrees with the code wherever the probe does not crash; on the machine with the bus enabled, no panel, X and feh, the code exits with status 1 and the corrected start-up opens the window |
| `Drawing.LayoutFirstAt` | pi_show.py:173-174 | the first `n` line commands are, in order, the commands for lines 0 to n-1 |
| `Drawing.TextLayoutSpec` | pi_show.py:173-174 | exactly `min(max_lines, len(lines))` lines are drawn, the earliest first; line i is at x 0, y `pad + 8*i`, with fill 255; its text is the prefix of length `min(max_chars, len)`, and the whole line when it fits |
| `Drawing.PanelLayout` | pi_show.py:296 | on the 128x32 panel at most 4 lines are drawn, at y -2, 6, 14, 22, each at most 21 characters long |
| `Drawing.Canvas.constructor` | pi_show.py:123-132 | a new surface has the display's size and holds only the background rectangle |
| `Drawing.Canvas.Clear` | pi_show.py:171 | the whole surface `(0, 0, width, height)` is filled with background 0, so nothing drawn before remains |
| `Drawing.Canvas.DrawText` | pi_show.py:174 | one text command is added after the existing ones |
| `Drawing.Canvas.SendText` | pi_show.py:161-177 | with X and xmessage: a popup with the joined lines, and the surface untouched; otherwise: the surface is cleared and then holds exactly the text layout of the lines |
| `Images.SendImage` | pi_show.py:186-210 | a missing path only warns; with X and feh the viewer gets the path; otherwise a picture Pillow cannot open (unreadable, or not a picture) raises; a picture of the panel's size is shown at once; any other picture is resized to exactly the panel's size and shown on the single retry, which never fails |
| `Images.SmallPictureResized` | pi_show.py:196-202 | a 64x64 picture on the 128x32 panel is shown after one resize to 128x32 |
| `Listing.ChildPathInjective` | pi_show.py:223-224 | different names in one directory give different full paths |
| `Listing.SortedDirList` | pi_show.py:213-228 | a file gives `[path]`; a directory gives its direct child files as `dir + '/' + name`, without subdirectories or recursion, each once, in strictly ascending order; a directory the process may not read makes `os.listdir` raise; anything else gives `[]` |
| `Listing.ListingUnique` | pi_show.py:213-228 | the listing is determined by the file system, whatever order `os.listdir` reports names in |
| `MainLoop.Handle` | pi_show.py:310-317 | a name ending in `.txt` in any case goes to `send_text` with its lines stripped (or raises when the path is no longer a regular file or may not be read); every other name goes to `send_image`, which never finds it missing |
| `MainLoop.ItemsInOrder` | pi_show.py:309-317 | every dispatch is for a listed path that existed at its turn, handled as its name says; positions strictly increase; only the last dispatch may crash |
| `MainLoop.ItemsComplete` | pi_show.py:309-317 | every listed path that exists at its turn is dispatched, unless an earlier dispatch crashed |
| `MainLoop.DispatchListing` | pi_show.py:309-317 | the loop produces exactly the specified dispatches and reports a crash exactly when the last one raised |
| `MainLoop.OnePass` | pi_show.py:301-320 | the stripped stdin batch is dispatched first and consumes standard input; then the files of a single listing, in order, unless listing the directory raises, which ends the pass right after the stdin batch; `--once` ends a pass that did not crash with status 0, otherwise another pass follows |
| `Scenario.ScenarioListing` | pi_show.py:213-228 | the listing of a directory holding `a.txt`, `b.png` and a subdirectory is `[dir/a.txt, dir/b.png]` |
| `Scenario.ScenarioText` | pi_show.py:312-314 | the lines `one`, `two`, `three` read from `a.txt` lose their newlines |
| `Scenario.ScenarioPass` | pi_show.py:309-317 | `a.txt` goes to the text renderer and the 64x64 `b.png` is shown after one resize |
| `Scenario.ScenarioDeleted` | pi_show.py:310 | when `a.txt` is deleted after the listing, only `b.png` is dispatched |
| `Scenario.ScenarioLocked` | pi_show.py:311-313 | when `a.txt` may not be read, opening it raises and `b.png` is never reached |
| `Scenario.ScenarioLayout` | pi_show.py:173-174 | with room for two lines, only `one` and `two` are drawn, at y -2 and 6 |

## Findings

| source | as written | input that shows it | evidently intended | confidence | as-written member | corrected member |
|---|---|---|---|---|---|---|
| pi_show.py:241 | the bus probe runs `i2cdetect ... \| grep "^30:.*3c"` through `subprocess.check_output`; when grep selects nothing it exits with status 1, so `check_output` raises `CalledProcessError`, nothing catches it, and the `elif` for the X window is never reached | `/dev/i2c-1` and `/usr/sbin/i2cdetect` exist, nothing answers at 0x3c, `DISPLAY` is set and `/usr/bin/feh` exists | with no panel on the bus, fall back to the X window (or fail with the message) | high; not executed | `Display.LocateDisplay`, `Display.ProbeMissSkipsWindow`, `Display.Start` | `Display.LocateDisplayIntended`, `Display.IntendedDetection`, `Display.StartIntended`, `Display.IntendedStart` |

`Display.Start` follows the code, bus-probe crash included. `Display.StartIntended` is start-up on the corrected detection.

## Left out

- `time.sleep` dwell and the `KeyboardInterrupt` handling that exits with status 0: timing and signals.
- The Adafruit SSD1306, `busio` and `board` driver. This covers `disp_h.image` copying a picture to the device, `disp_h.show()`, and the I2C transfer. The driver appears only through its size check (`Images.PanelAccepts`).
- Pillow glyph rasterisation, fonts and `load_font_h`: the surface is a list of drawing commands, not pixels.
- `Image.ANTIALIAS` resampling and the conversion to mode '1': floating-point image processing. A resize is modelled only as "the size becomes the display's".
- Spawning and terminating `xmessage` and `feh`. The model records the popup text and the viewer path instead.
- `cmd_output`'s shell, and the reading of files and standard input. These are inputs: the lines `i2cdetect` prints, the `readlines()` result stored in each regular file, and the pending standard-input lines.
- Argument parsing, defaults, `warn`/`debug`/`fail` messages and the module-import probes. These are I/O with no decision in them.
- The endless repetition of `while True`. One pass is modelled, and its result says whether another pass follows.
- The case where the driver libraries failed to import (`disp_h` is `None`, so the panel path raises `AttributeError`). The panel path is modelled with the detected size.
- `Images.SendImage`: the driver is modelled as refusing only pictures of the wrong size. The retry after the resize therefore always succeeds, and a second `ValueError` raised for another reason is not modelled.
- Race windows inside one item's turn, such as a file deleted between `os.path.exists` and `open`. Each item sees one file-system state.
- Path normalisation. The default directory `/var/toshow/` yields paths such as `/var/toshow//a.txt`, and the model looks paths up exactly as spelled.
- Unicode decoding errors in `readlines()`.
- `PyStr.Lower`: only ASCII letters are lowered. For the `.txt` test that is enough: the only non-ASCII character whose lower case is longer (U+0130) ends in U+0307. No other character lowers to `.`, `t` or `x`.
- The `--debug`, `--wait` and `--font` values, except the font's existence check in `Display.Start`.
