/**
 * One pass of the main `while True` loop: the standard-input text first,
 * then every listed path that still exists at its turn, in listing order.
 */
module MainLoop {
  import opened Base
  import opened PyStr
  import opened Host
  import opened Display
  import opened Images
  import opened Listing

  /** `--once` and `--stdin` */
  datatype Options = Options(once: bool, readStdin: bool)

  /**
   * What happens to a listed path that exists: its stripped lines go to
   * `send_text`, opening it as text raises (it is not a regular file, or
   * the process may not read it), or it goes to `send_image`.
   */
  datatype Handling = AsText(lines: seq<string>) | TextOpenFailed | AsImage(outcome: ImageOutcome)

  /** One dispatch; `at` is the position of the path in the listing. */
  datatype Action =
    | ShowStdin(lines: seq<string>)
    | ShowFile(at: nat, path: string, handling: Handling)

  /** `sys.exit(0)` after the pass, another pass, or an uncaught exception. */
  datatype PassEnd = Exit(code: int) | Repeat | Crashed

  /** The handlings that end the process with an exception nothing catches. */
  predicate Halts(h: Handling)
  {
    h.TextOpenFailed? || (h.AsImage? && (h.outcome.OpenFailed? || h.outcome.RetryFailed?))
  }

  /**
   * The body of the loop for a path that exists: a name ending in `.txt` in
   * any case is read, its lines stripped and sent to `send_text`; any other
   * name goes to `send_image`, which then never finds the path missing.
   */
  function Handle(t: Target, fehInstalled: bool, fs: FileSystem, path: string): (h: Handling)
    requires Exists(fs, path)
    ensures (h.AsText? || h.TextOpenFailed?) <==> IsTextName(path)
    ensures h.TextOpenFailed? <==> IsTextName(path) && !IsReadableFile(fs, path)
    ensures h.AsText? ==> IsReadableFile(fs, path) && h.lines == StripAll(fs[path].lines)
    ensures h.AsImage? ==> h.outcome == SendImage(t, fehInstalled, fs, path) && !h.outcome.Missing?
  {
    if IsTextName(path) then
      if IsReadableFile(fs, path) then AsText(StripAll(fs[path].lines)) else TextOpenFailed
    else AsImage(SendImage(t, fehInstalled, fs, path))
  }

  /**
   * The dispatches for the listing from position `i` on, where `fsAt(k)` is
   * the file system when position `k` has its turn.
   */
  function ItemsFrom(t: Target, fehInstalled: bool, listing: seq<string>, fsAt: nat -> FileSystem, i: nat): seq<Action>
    decreases |listing| - i
  {
    if i >= |listing| then []
    else if !Exists(fsAt(i), listing[i]) then ItemsFrom(t, fehInstalled, listing, fsAt, i + 1)
    else
      var a := ShowFile(i, listing[i], Handle(t, fehInstalled, fsAt(i), listing[i]));
      if Halts(a.handling) then [a] else [a] + ItemsFrom(t, fehInstalled, listing, fsAt, i + 1)
  }

  /**
   * Each dispatch in `r` is for a listed path, from position `i` on, that
   * existed at its turn, and is handled as `Handle` says.
   */
  ghost predicate FaithfulDispatches(t: Target, fehInstalled: bool, listing: seq<string>, fsAt: nat -> FileSystem, i: nat, r: seq<Action>)
  {
    forall j :: 0 <= j < |r| ==>
      r[j].ShowFile? && i <= r[j].at < |listing| && r[j].path == listing[r[j].at]
      && Exists(fsAt(r[j].at), r[j].path)
      && r[j].handling == Handle(t, fehInstalled, fsAt(r[j].at), r[j].path)
  }

  /** Listing positions strictly increase along `r`. */
  ghost predicate InListingOrder(r: seq<Action>)
  {
    forall j, k :: 0 <= j < k < |r| && r[j].ShowFile? && r[k].ShowFile? ==> r[j].at < r[k].at
  }

  /** Only the last dispatch of `r` may crash. */
  ghost predicate CrashOnlyLast(r: seq<Action>)
  {
    forall j :: 0 <= j < |r| - 1 && r[j].ShowFile? ==> !Halts(r[j].handling)
  }

  /**
   * The dispatches follow the listing: each is for a listed path that
   * existed at its turn and is handled as `Handle` says, positions strictly
   * increase, and only the last may crash.
   */
  lemma {:induction false} ItemsInOrder(t: Target, fehInstalled: bool, listing: seq<string>, fsAt: nat -> FileSystem, i: nat)
    ensures FaithfulDispatches(t, fehInstalled, listing, fsAt, i, ItemsFrom(t, fehInstalled, listing, fsAt, i))
    ensures InListingOrder(ItemsFrom(t, fehInstalled, listing, fsAt, i))
    ensures CrashOnlyLast(ItemsFrom(t, fehInstalled, listing, fsAt, i))
    decreases |listing| - i
  {
    if i < |listing| {
      var r := ItemsFrom(t, fehInstalled, listing, fsAt, i);
      var rest := ItemsFrom(t, fehInstalled, listing, fsAt, i + 1);
      ItemsInOrder(t, fehInstalled, listing, fsAt, i + 1);
      if Exists(fsAt(i), listing[i]) {
        var a := ShowFile(i, listing[i], Handle(t, fehInstalled, fsAt(i), listing[i]));
        if !Halts(a.handling) {
          assert r == [a] + rest;
          forall j | 0 <= j < |r| ensures r[j].ShowFile? && i <= r[j].at
            ensures j > 0 ==> r[j] == rest[j - 1]
          {
          }
        }
      } else {
        assert r == rest;
      }
    }
  }

  /** The last dispatch of a pass that crashes. */
  predicate CrashesBefore(r: seq<Action>, k: nat)
  {
    |r| > 0 && r[|r| - 1].ShowFile? && Halts(r[|r| - 1].handling) && r[|r| - 1].at < k
  }

  /**
   * Nothing that existed at its turn is left out: every such position is
   * dispatched unless an earlier dispatch crashed.
   */
  lemma {:induction false} ItemsComplete(t: Target, fehInstalled: bool, listing: seq<string>, fsAt: nat -> FileSystem, i: nat, k: nat)
    requires i <= k < |listing| && Exists(fsAt(k), listing[k])
    requires !CrashesBefore(ItemsFrom(t, fehInstalled, listing, fsAt, i), k)
    ensures exists j :: 0 <= j < |ItemsFrom(t, fehInstalled, listing, fsAt, i)|
                        && ItemsFrom(t, fehInstalled, listing, fsAt, i)[j] == ShowFile(k, listing[k], Handle(t, fehInstalled, fsAt(k), listing[k]))
    decreases |listing| - i
  {
    var r := ItemsFrom(t, fehInstalled, listing, fsAt, i);
    var a := ShowFile(k, listing[k], Handle(t, fehInstalled, fsAt(k), listing[k]));
    if k == i {
      assert r[0] == a;
    } else {
      var rest := ItemsFrom(t, fehInstalled, listing, fsAt, i + 1);
      if Exists(fsAt(i), listing[i]) {
        var h := Handle(t, fehInstalled, fsAt(i), listing[i]);
        if Halts(h) {
          assert false;
        } else {
          assert r == [ShowFile(i, listing[i], h)] + rest;
          assert |rest| > 0 ==> r[|r| - 1] == rest[|rest| - 1];
          ItemsComplete(t, fehInstalled, listing, fsAt, i + 1, k);
          var j :| 0 <= j < |rest| && rest[j] == a;
          assert r[j + 1] == a;
        }
      } else {
        assert r == rest;
        ItemsComplete(t, fehInstalled, listing, fsAt, i + 1, k);
      }
    }
  }

  /** `[ShowStdin(...)]` when standard input is read, else nothing. */
  function StdinPart(opts: Options, stdin: seq<string>): seq<Action>
  {
    if opts.readStdin then [ShowStdin(StripAll(stdin))] else []
  }

  /** Every dispatch of the listing is for a listed file. */
  lemma {:induction false} ItemsAreFiles(t: Target, fehInstalled: bool, listing: seq<string>, fsAt: nat -> FileSystem, i: nat)
    ensures forall j :: 0 <= j < |ItemsFrom(t, fehInstalled, listing, fsAt, i)| ==> ItemsFrom(t, fehInstalled, listing, fsAt, i)[j].ShowFile?
    decreases |listing| - i
  {
    if i < |listing| {
      ItemsAreFiles(t, fehInstalled, listing, fsAt, i + 1);
    }
  }

  /**
   * The `for full_file in ...` loop: each listed path is looked up again in
   * the file system of its turn and, when it still exists, handled; an
   * uncaught exception ends the loop.
   */
  method DispatchListing(t: Target, fehInstalled: bool, listing: seq<string>, fsAt: nat -> FileSystem)
    returns (items: seq<Action>, crashed: bool)
    ensures items == ItemsFrom(t, fehInstalled, listing, fsAt, 0)
    ensures crashed <==> |items| > 0 && items[|items| - 1].ShowFile? && Halts(items[|items| - 1].handling)
    ensures forall j :: 0 <= j < |items| ==> items[j].ShowFile?
  {
    ghost var all := ItemsFrom(t, fehInstalled, listing, fsAt, 0);
    items, crashed := [], false;
    var i := 0;
    while i < |listing|
      invariant 0 <= i <= |listing|
      invariant items + ItemsFrom(t, fehInstalled, listing, fsAt, i) == all
      invariant |items| > 0 ==> items[|items| - 1].ShowFile? && !Halts(items[|items| - 1].handling)
    {
      var path := listing[i];
      if Exists(fsAt(i), path) {
        var a := ShowFile(i, path, Handle(t, fehInstalled, fsAt(i), path));
        items := items + [a];
        if Halts(a.handling) {
          assert items == all;
          crashed := true;
          break;
        }
        assert items + ItemsFrom(t, fehInstalled, listing, fsAt, i + 1) == all;
      }
      i := i + 1;
    }
    ItemsAreFiles(t, fehInstalled, listing, fsAt, 0);
  }

  /**
   * One pass. The listing is taken once, from `listingFs`; each listed path
   * is then looked up again in `fsAt(k)`, the file system at its turn, so a
   * path deleted meanwhile is skipped without a dispatch and a file added
   * meanwhile waits for the next pass. The standard-input text, read in full
   * and stripped line by line, is dispatched before any file; afterwards
   * nothing is left to read. A show directory the process may not list
   * raises right after that batch. With `--once` a pass that does not crash
   * ends the program with status 0.
   */
  method OnePass(t: Target, fehInstalled: bool, opts: Options, showDir: string, stdin: seq<string>,
                 listingFs: FileSystem, fsAt: nat -> FileSystem)
    returns (listing: seq<string>, actions: seq<Action>, stdinRest: seq<string>, end: PassEnd)
    ensures ListingFails(listingFs, showDir) ==> listing == [] && actions == StdinPart(opts, stdin) && end == Crashed
    ensures !ListingFails(listingFs, showDir) ==>
      ListingOf(listingFs, showDir, listing) && actions == StdinPart(opts, stdin) + ItemsFrom(t, fehInstalled, listing, fsAt, 0)
    ensures opts.readStdin ==> |actions| > 0 && actions[0] == ShowStdin(StripAll(stdin)) && stdinRest == []
    ensures !opts.readStdin ==> stdinRest == stdin
    ensures forall j :: |StdinPart(opts, stdin)| <= j < |actions| ==> actions[j].ShowFile?
    ensures end == Crashed <==>
      ListingFails(listingFs, showDir) || (|actions| > 0 && actions[|actions| - 1].ShowFile? && Halts(actions[|actions| - 1].handling))
    ensures end != Crashed ==> end == (if opts.once then Exit(0) else Repeat)
  {
    stdinRest := stdin;
    var head: seq<Action> := [];
    if opts.readStdin {
      head := [ShowStdin(StripAll(stdin))];
      stdinRest := [];
    }
    var listed := SortedDirList(listingFs, showDir);
    if listed.None? {
      listing, actions, end := [], head, Crashed;
      return;
    }
    listing := listed.value;
    var items, crashed := DispatchListing(t, fehInstalled, listing, fsAt);
    actions := head + items;
    assert |items| > 0 ==> actions[|actions| - 1] == items[|items| - 1];
    if crashed {
      end := Crashed;
    } else {
      end := if opts.once then Exit(0) else Repeat;
    }
  }
}
