/**
 * The drawing surface of `send_text`: the in-memory picture (`image_h`) and
 * its drawing handle (`draw_h`). The surface is kept as the list of drawing
 * commands that are visible on it; a rectangle that covers the whole
 * surface with the background hides everything drawn before it, so the
 * list then starts afresh.
 */
module Drawing {
  import opened Base
  import opened PyStr
  import opened Display

  const BackgroundFill: nat := 0
  const TextFill: nat := 255

  datatype DrawCmd =
    | Rectangle(x0: int, y0: int, x1: int, y1: int, fill: nat)
    | Text(x: int, y: int, text: string, fill: nat)

  /** `draw_h.text((0, pad + 8 * i), lines[i][0:max_chars], fill=255)` */
  function LineCmd(lines: seq<string>, i: nat, maxChars: nat, pad: int): DrawCmd
    requires i < |lines|
  {
    Text(0, pad + LineHeight * i, Prefix(lines[i], maxChars), TextFill)
  }

  /** The commands that draw the first `n` lines, in order. */
  function LayoutFirst(lines: seq<string>, n: nat, maxChars: nat, pad: int): seq<DrawCmd>
    requires n <= |lines|
  {
    if n == 0 then [] else LayoutFirst(lines, n - 1, maxChars, pad) + [LineCmd(lines, n - 1, maxChars, pad)]
  }

  /** The text commands of one `send_text` call: `range(0, min(max_lines, len(text_l)))`. */
  function TextLayout(lines: seq<string>, maxLines: nat, maxChars: nat, pad: int): seq<DrawCmd>
  {
    LayoutFirst(lines, Min(maxLines, |lines|), maxChars, pad)
  }

  lemma {:induction false} LayoutFirstAt(lines: seq<string>, n: nat, maxChars: nat, pad: int)
    requires n <= |lines|
    ensures |LayoutFirst(lines, n, maxChars, pad)| == n
    ensures forall i :: 0 <= i < n ==> LayoutFirst(lines, n, maxChars, pad)[i] == LineCmd(lines, i, maxChars, pad)
  {
    if n > 0 {
      LayoutFirstAt(lines, n - 1, maxChars, pad);
    }
  }

  /**
   * What one text block draws: exactly the first `min(maxLines, |lines|)`
   * lines, in input order; line `i` at column 0 and row `pad + 8 * i`; its
   * text the first `min(maxChars, |line|)` characters of the line, so a line
   * that fits is drawn whole.
   */
  lemma TextLayoutSpec(lines: seq<string>, maxLines: nat, maxChars: nat, pad: int)
    ensures var r := TextLayout(lines, maxLines, maxChars, pad);
      |r| == Min(maxLines, |lines|)
      && (forall i :: 0 <= i < |r| ==>
            r[i].Text? && r[i].x == 0 && r[i].y == pad + 8 * i && r[i].fill == TextFill
            && |r[i].text| == Min(maxChars, |lines[i]|) && r[i].text <= lines[i]
            && (|lines[i]| <= maxChars ==> r[i].text == lines[i]))
  {
    LayoutFirstAt(lines, Min(maxLines, |lines|), maxChars, pad);
  }

  /** On the 128x32 panel at most four lines of at most 21 characters are drawn, from row -2 down. */
  lemma PanelLayout(lines: seq<string>)
    ensures var c := ConfigFor(PanelTarget);
      var r := TextLayout(lines, c.maxLines, c.maxChars, c.padding);
      |r| <= 4
      && forall i :: 0 <= i < |r| ==> r[i].Text? && r[i].y == -2 + 8 * i && |r[i].text| <= 21
  {
    KnownConfigs();
    TextLayoutSpec(lines, 4, 21, -2);
  }

  class Canvas {
    const width: nat
    const height: nat
    /** The commands visible on the surface, oldest first. */
    var commands: seq<DrawCmd>

    /** The full-surface background rectangle `(0, 0, width, height)`. */
    function Blank(): DrawCmd
    {
      Rectangle(0, 0, width, height, BackgroundFill)
    }

    /** `Image.new('1', (w, h))` followed by the clearing rectangle of `load_drawing_h`. */
    constructor (w: nat, h: nat)
      ensures width == w && height == h
      ensures commands == [Rectangle(0, 0, w, h, BackgroundFill)]
    {
      width, height := w, h;
      commands := [Rectangle(0, 0, w, h, BackgroundFill)];
    }

    /** `draw_h.rectangle((0, 0, width, height), outline=0, fill=0)`: nothing drawn before stays visible. */
    method Clear()
      modifies this
      ensures commands == [Blank()]
    {
      commands := [Blank()];
    }

    /** `draw_h.text((x, y), s, fill=fill)` */
    method DrawText(x: int, y: int, s: string, fill: nat)
      modifies this
      ensures commands == old(commands) + [Text(x, y, s, fill)]
    {
      commands := commands + [Text(x, y, s, fill)];
    }

    /**
     * `send_text`. On an X display with xmessage installed the lines go,
     * joined by newlines and uncut, to an xmessage popup and the surface is
     * untouched. Otherwise the surface is cleared and then the first lines
     * are drawn, each cut to `maxChars` characters.
     */
    method SendText(kind: DisplayModule, xmessageInstalled: bool, lines: seq<string>,
                    maxLines: nat, maxChars: nat, pad: int) returns (popup: Option<string>)
      modifies this
      ensures kind == XWindows && xmessageInstalled ==>
        popup == Some(Join(lines)) && commands == old(commands)
      ensures !(kind == XWindows && xmessageInstalled) ==>
        popup == None && commands == [Blank()] + TextLayout(lines, maxLines, maxChars, pad)
    {
      if kind == XWindows && xmessageInstalled {
        popup := Some(Join(lines));
        return;
      }
      popup := None;
      Clear();
      var count := Min(maxLines, |lines|);
      for i := 0 to count
        invariant commands == [Blank()] + LayoutFirst(lines, i, maxChars, pad)
      {
        DrawText(0, pad + LineHeight * i, Prefix(lines[i], maxChars), TextFill);
      }
    }
  }
}
