/** `create_story` of artistrack/storybuilder/instastory.py and of the root
    instastory.py: look a song up by title ignoring case, lay out a 1080x1300
    canvas around its art, and save `story_<safe title>.png`. Pixels, fonts and the
    download are not modelled; the scaled art height and whether the fonts load
    are inputs, and the outcome records what is drawn where and the file written. */
module Story {
  import opened Wrappers
  import opened Text
  import opened Catalog
  import opened Store

  const Width := 1080
  const Height := 1300
  /** The art is as wide as the canvas less 100 pixels on each side. */
  const ArtWidth := Width - 200

  /** Where `create_story` draws: the art's top-left corner and height, the title's
      baseline centre, then the "NOW STREAMING EVERYWHERE" and link lines. */
  datatype Layout = Layout(artX: int, artY: int, artHeight: nat, titleY: int, streamingY: int, linkY: int)

  /** The integer layout; Python's `//` on a positive divisor is Dafny's `/`. */
  function ComputeLayout(artHeight: nat): (l: Layout)
    ensures l.artHeight == artHeight
    ensures 2 * l.artX + ArtWidth == Width
    ensures Height - 1 <= 2 * (l.artY + 20) + artHeight <= Height
    ensures l.titleY + 100 == l.artY
    ensures l.artY + artHeight + 40 == l.streamingY && l.streamingY + 40 == l.linkY
  {
    var y := (Height - artHeight) / 2 - 20;
    Layout((Width - ArtWidth) / 2, y, artHeight, y - 100, y + artHeight + 40, y + artHeight + 80)
  }

  /** The title sits above the art and the two text lines below it, in order; for
      art no taller than 1060 pixels everything drawn lies on the canvas. */
  lemma LayoutOrder(artHeight: nat)
    ensures var l := ComputeLayout(artHeight);
            l.titleY < l.artY <= l.artY + artHeight < l.streamingY < l.linkY &&
            (artHeight <= 1060 ==> 0 <= l.titleY && l.linkY <= Height)
  {
  }

  /** Square art, 880 pixels high. */
  lemma SquareArtLayout()
    ensures ComputeLayout(880) == Layout(100, 190, 880, 90, 1110, 1150)
  {
  }

  /** The row the lookup selects: `COALESCE(a.name, 'Single')` through the left join. */
  datatype StoryRow = StoryRow(name: string, releaseDate: string, duration: string, spotifyUrl: string,
                               imageUri: string, albumName: string)

  function StoryRowOf(st: Store, s: SongRow): StoryRow {
    var album := if s.albumId.Some? && s.albumId.value in st.albums then st.albums[s.albumId.value].name else "Single";
    StoryRow(s.name, s.releaseDate, s.duration, s.spotifyUrl, s.imageLarge, album)
  }

  function StoryFile(name: string): string {
    "story_" + SafeName(name) + ".png"
  }

  datatype Outcome =
    | NotFound
    | FontError
    | Created(row: StoryRow, layout: Layout, path: string)

  /** The shared body: `fontsLoad` is whether the three `truetype` calls succeed and
      `artHeight` the scaled height of the downloaded art. */
  method Render(st: Store, title: string, dir: string, fontsLoad: bool, artHeight: nat) returns (out: Outcome)
    ensures out.NotFound? <==> TitleMatches(st, title) == {}
    ensures out.FontError? <==> TitleMatches(st, title) != {} && !fontsLoad
    ensures out.Created? ==>
              (exists s :: s in TitleMatches(st, title) && out.row == StoryRowOf(st, s)) &&
              out.layout == ComputeLayout(artHeight) &&
              out.path == dir + "/" + StoryFile(out.row.name)
  {
    var matches := TitleMatches(st, title);
    if matches == {} {
      return NotFound;
    }
    var s :| s in matches;
    if !fontsLoad {
      return FontError;
    }
    var row := StoryRowOf(st, s);
    out := Created(row, ComputeLayout(artHeight), dir + "/" + StoryFile(row.name));
  }

  /** The package revision: the output directory defaults to the working directory,
      and the saved path is returned; nothing is returned otherwise. */
  method CreateStory(st: Store, title: string, outputDir: Option<string>, cwd: string, fontsLoad: bool, artHeight: nat)
    returns (out: Outcome, returned: Option<string>)
    ensures out.NotFound? <==> TitleMatches(st, title) == {}
    ensures out.FontError? <==> TitleMatches(st, title) != {} && !fontsLoad
    ensures returned.Some? <==> out.Created?
    ensures out.Created? ==>
              returned.value == out.path &&
              out.path == outputDir.GetOr(cwd) + "/" + StoryFile(out.row.name) &&
              Lower(out.row.name) == Lower(title)
  {
    out := Render(st, title, outputDir.GetOr(cwd), fontsLoad, artHeight);
    returned := if out.Created? then Some(out.path) else None;
  }

  /** The root revision: always under `stories`, and it returns nothing even when
      the story is saved. */
  method CreateStoryRoot(st: Store, title: string, fontsLoad: bool, artHeight: nat)
    returns (out: Outcome, returned: Option<string>)
    ensures out.NotFound? <==> TitleMatches(st, title) == {}
    ensures out.FontError? <==> TitleMatches(st, title) != {} && !fontsLoad
    ensures returned == None
    ensures out.Created? ==> out.path == "stories/" + StoryFile(out.row.name) && Lower(out.row.name) == Lower(title)
  {
    out := Render(st, title, "stories", fontsLoad, artHeight);
    returned := None;
  }

  /** The file name carries no space and only letters, digits, '-' and '_' between
      `story_` and `.png`. */
  lemma StoryFileSafe(name: string)
    ensures var f := StoryFile(name);
            StartsWith(f, "story_") && EndsWith(f, ".png") &&
            forall i :: 6 <= i < |f| - 4 ==> SafeChar(f[i])
  {
    var safe := SafeName(name);
    var f := StoryFile(name);
    SafeNameChars(name);
    assert f == "story_" + safe + ".png";
    assert f[..6] == "story_";
    assert f[|f| - 4..] == ".png";
    assert forall i :: 6 <= i < |f| - 4 ==> f[i] == safe[i - 6];
  }

  /** A song named by its own safe form writes the same file, so such names
      overwrite each other's story. */
  lemma StoryFileCollides(name: string)
    ensures StoryFile(SafeName(name)) == StoryFile(name)
  {
    SafeNameIdempotent(name);
  }
}
