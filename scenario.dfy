/**
 * A worked pass: a directory holding `a.txt` with three lines and a 64x64
 * picture `b.png`, shown once on the 128x32 panel.
 */
module Scenario {
  import opened Base
  import opened PyStr
  import opened Order
  import opened Host
  import opened Display
  import opened Images
  import opened Listing
  import opened MainLoop
  import opened Drawing

  const Dir := "/show"
  const TextPath := "/show/a.txt"
  const PicturePath := "/show/b.png"

  const Files: FileSystem := map[
    Dir := Directory({"a.txt", "b.png", "old"}, true),
    Dir + "/old" := Directory({}, true),
    TextPath := RegularFile(["one\n", "two\n", "three\n"], None, true),
    PicturePath := RegularFile([], Some(Dims(64, 64)), true)]

  /** Nothing is deleted or added during the pass. */
  function Unchanging(k: nat): FileSystem
  {
    Files
  }

  /** The subdirectory `old` is not among the files of the directory. */
  lemma ScenarioChildren()
    ensures ChildFiles(Files, Dir) == {TextPath, PicturePath}
  {
    assert ChildPath(Dir, "a.txt") == TextPath;
    assert ChildPath(Dir, "b.png") == PicturePath;
    assert !IsFile(Files, ChildPath(Dir, "old")) by {
      assert ChildPath(Dir, "old") == Dir + "/old";
    }
  }

  /** The listing holds the two files, the text first; the subdirectory is left out. */
  lemma ScenarioListing(listing: seq<string>)
    requires ListingOf(Files, Dir, listing)
    ensures listing == [TextPath, PicturePath]
  {
    ScenarioChildren();
    assert LexLt(TextPath, PicturePath);
    ListingUnique(Files, Dir, listing, [TextPath, PicturePath]);
  }

  /** Reading `a.txt` and stripping its lines leaves the three words. */
  lemma ScenarioText()
    ensures StripAll(Files[TextPath].lines) == ["one", "two", "three"]
  {
    assert Strip("one\n") == "one" by { assert "one\n"[..3] == "one"; }
    assert Strip("two\n") == "two" by { assert "two\n"[..3] == "two"; }
    assert Strip("three\n") == "three" by { assert "three\n"[..5] == "three"; }
  }

  /** How each of the two files is handled on the panel. */
  lemma ScenarioHandles()
    ensures Handle(PanelTarget, false, Files, TextPath) == AsText(["one", "two", "three"])
    ensures Handle(PanelTarget, false, Files, PicturePath) == AsImage(Shown([Dims(64, 64), Dims(128, 32)]))
  {
    assert IsTextName(TextPath) by { IsTextNameChars(TextPath); }
    assert !IsTextName(PicturePath) by { IsTextNameChars(PicturePath); }
    ScenarioText();
  }

  /**
   * The text file goes to the text renderer as its stripped lines and the
   * picture is shown after one resize to the panel's size.
   */
  lemma ScenarioPass()
    ensures ItemsFrom(PanelTarget, false, [TextPath, PicturePath], Unchanging, 0)
      == [ShowFile(0, TextPath, AsText(["one", "two", "three"])),
          ShowFile(1, PicturePath, AsImage(Shown([Dims(64, 64), Dims(128, 32)])))]
  {
    var listing := [TextPath, PicturePath];
    ScenarioHandles();
    var picture := ShowFile(1, PicturePath, AsImage(Shown([Dims(64, 64), Dims(128, 32)])));
    assert ItemsFrom(PanelTarget, false, listing, Unchanging, 2) == [];
    assert ItemsFrom(PanelTarget, false, listing, Unchanging, 1) == [picture];
  }

  /** `a.txt` is deleted after the listing was taken. */
  function TextDeleted(k: nat): FileSystem
  {
    Files - {TextPath}
  }

  /** The deleted file is skipped without a dispatch; the picture is still shown. */
  lemma ScenarioDeleted()
    ensures ItemsFrom(PanelTarget, false, [TextPath, PicturePath], TextDeleted, 0)
      == [ShowFile(1, PicturePath, AsImage(Shown([Dims(64, 64), Dims(128, 32)])))]
  {
    var listing := [TextPath, PicturePath];
    assert !IsTextName(PicturePath) by { IsTextNameChars(PicturePath); }
    assert TextPath !in TextDeleted(0);
    assert PicturePath in TextDeleted(1) && TextDeleted(1)[PicturePath] == Files[PicturePath];
    assert ItemsFrom(PanelTarget, false, listing, TextDeleted, 2) == [];
  }

  /** `a.txt` may not be read by the process. */
  function TextLocked(k: nat): FileSystem
  {
    Files[TextPath := RegularFile(["one\n", "two\n", "three\n"], None, false)]
  }

  /** Opening the unreadable `a.txt` raises, so the pass ends before the picture. */
  lemma ScenarioLocked()
    ensures ItemsFrom(PanelTarget, false, [TextPath, PicturePath], TextLocked, 0)
      == [ShowFile(0, TextPath, TextOpenFailed)]
  {
    assert IsTextName(TextPath) by { IsTextNameChars(TextPath); }
    assert !IsReadableFile(TextLocked(0), TextPath);
  }

  /** With room for two lines, only "one" and "two" are drawn. */
  lemma ScenarioLayout()
    ensures TextLayout(["one", "two", "three"], 2, 21, -2)
      == [Text(0, -2, "one", TextFill), Text(0, 6, "two", TextFill)]
  {
  }
}
