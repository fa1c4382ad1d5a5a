/**
 * `send_image`: show one picture file, on the panel or through feh.
 */
module Images {
  import opened Base
  import opened Host
  import opened Display

  /**
   * How one `send_image` call ends. `Shown` lists the sizes of the pictures
   * handed to `disp_h.image`, in order; the last one was accepted.
   * `OpenFailed` and `RetryFailed` are exceptions that leave `send_image`
   * uncaught.
   */
  datatype ImageOutcome =
    | Missing
    | Viewer(path: string)
    | Shown(attempts: seq<Dims>)
    | OpenFailed
    | RetryFailed

  /**
   * `Image.open(path).convert('1')`: the picture's size, or None when Pillow
   * cannot open the path (not a readable regular file, or not a picture).
   */
  function Decode(fs: FileSystem, path: string): Option<Dims>
  {
    if IsReadableFile(fs, path) then fs[path].picture else None
  }

  /**
   * `disp_h.image(image)` raises `ValueError` unless the picture, already in
   * mode '1', has exactly the panel's size.
   */
  predicate PanelAccepts(t: Target, d: Dims)
  {
    d.width == t.width && d.height == t.height
  }

  /** `.resize((disp_h.width, disp_h.height), ...)`: the size becomes the display's. */
  function Resize(d: Dims, t: Target): Dims
  {
    Dims(t.width, t.height)
  }

  function SendImage(t: Target, fehInstalled: bool, fs: FileSystem, path: string): (r: ImageOutcome)
    ensures r == Missing <==> !Exists(fs, path)
    ensures r.Viewer? <==> Exists(fs, path) && t.kind == XWindows && fehInstalled
    ensures r.Viewer? ==> r.path == path
    ensures r == OpenFailed <==> Exists(fs, path) && !(t.kind == XWindows && fehInstalled) && Decode(fs, path).None?
    ensures r != RetryFailed
    ensures r.Shown? ==>
      Decode(fs, path).Some? && |r.attempts| > 0 && r.attempts[0] == Decode(fs, path).value
      && PanelAccepts(t, r.attempts[|r.attempts| - 1])
      && (|r.attempts| == 1 <==> PanelAccepts(t, r.attempts[0]))
      && |r.attempts| <= 2
  {
    if !Exists(fs, path) then Missing
    else if t.kind == XWindows && fehInstalled then Viewer(path)
    else match Decode(fs, path)
      case None => OpenFailed
      case Some(d) =>
        if PanelAccepts(t, d) then Shown([d])
        else
          var resized := Resize(d, t);
          if PanelAccepts(t, resized) then Shown([d, resized]) else RetryFailed
  }

  /** A 64x64 picture on the 128x32 panel is shown after one resize to 128x32. */
  lemma SmallPictureResized(path: string)
    ensures var fs := map[path := RegularFile([], Some(Dims(64, 64)), true)];
      SendImage(PanelTarget, false, fs, path) == Shown([Dims(64, 64), Dims(128, 32)])
  {
  }
}
