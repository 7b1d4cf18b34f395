/** The name-handling logic of the game browser web application: the home
    page listing (category filter, case-insensitive search, pagination),
    the choice of a game's thumbnail, the split of a game folder into
    images and other files, and the file types refused for download.
    Every directory listing is an input sequence of names in the order
    the operating system returned it. */
module Wap {
  import opened Text
  import opened Seqs

  /** Games shown on one page of the home listing. */
  const GamesPerPage: nat := 18

  /** Suffixes (of the lower-cased name) that make a file an image. */
  const ImageSuffixes: seq<string> := [".png", ".jpg", ".jpeg", ".gif"]

  /** Suffixes the game page hides from both of its lists, unless an image one matches. */
  const HiddenSuffixes: seq<string> := [".txt", ".html", ".cfg"]

  /** Suffixes the download route refuses. */
  const RefusedSuffixes: seq<string> := [".txt", ".html"]

  const RefusedMessage: string := "This file type is not available for download."

  predicate IsImage(name: string)
  {
    EndsWithAny(Lower(name), ImageSuffixes)
  }

  /** Whether the game page lists the name under "other files": it ends in
      none of the seven suffixes of the source's tuple. */
  predicate IsOtherFile(name: string)
  {
    !EndsWithAny(Lower(name), ImageSuffixes + HiddenSuffixes)
  }

  predicate IsRefused(name: string)
  {
    EndsWithAny(Lower(name), RefusedSuffixes)
  }

  // ---------------------------------------------------------------------
  // The game folder tree

  /** A game folder and the names it lists. */
  datatype GameFolder = GameFolder(name: string, files: seq<string>)

  /** An entry of the games root; only directories are categories, and
      `games` is the listing of a directory entry. */
  datatype RootEntry = RootEntry(name: string, isDir: bool, games: seq<GameFolder>)

  /** One row of the home listing; `thumbnail` names the image file inside
      the game's folder (the source turns it into `category/game/file`). */
  datatype Game = Game(name: string, category: string, thumbnail: Option<string>)

  /** What the home page is rendered from. */
  datatype IndexPage = IndexPage(
    categories: seq<string>,
    games: seq<Game>,
    page: int,
    totalPages: nat,
    searchQuery: string,
    categoryFilter: string)

  // ---------------------------------------------------------------------
  // Thumbnail choice

  /** The first image among `files`, in listing order. */
  function FirstImage(files: seq<string>): (r: Option<string>)
    ensures r.None? <==> forall i :: 0 <= i < |files| ==> !IsImage(files[i])
    ensures r.Some? ==> r.value in files && IsImage(r.value)
  {
    if files == [] then None
    else if IsImage(files[0]) then Some(files[0])
    else FirstImage(files[1..])
  }

  /** `files[i]` is an image and no earlier name is. */
  predicate IsFirstImageAt(files: seq<string>, i: int)
  {
    0 <= i < |files| && IsImage(files[i]) && forall j :: 0 <= j < i ==> !IsImage(files[j])
  }

  /** FirstImage picks the earliest image, not just any image. */
  lemma {:induction false} FirstImageIsEarliest(files: seq<string>, i: int)
    requires IsFirstImageAt(files, i)
    ensures FirstImage(files) == Some(files[i])
  {
    if i > 0 {
      assert !IsImage(files[0]);
      assert IsFirstImageAt(files[1..], i - 1) by {
        forall j | 0 <= j < i - 1 ensures !IsImage(files[1..][j]) {
          assert files[1..][j] == files[j + 1];
        }
      }
      FirstImageIsEarliest(files[1..], i - 1);
    }
  }

  /** get_thumbnail_path: scan the folder listing and return at the first image. */
  method ThumbnailPath(files: seq<string>) returns (r: Option<string>)
    ensures r == FirstImage(files)
  {
    for i := 0 to |files|
      invariant FirstImage(files) == FirstImage(files[i..])
    {
      if IsImage(files[i]) {
        return Some(files[i]);
      }
      assert files[i..][1..] == files[i + 1..];
    }
    assert files[|files|..] == [];
    return None;
  }

  // ---------------------------------------------------------------------
  // Home listing: collection (the specification of the loops in Index)

  predicate IsDirectory(e: RootEntry) { e.isDir }

  /** The categories: the directory entries of the games root, in order. */
  function Directories(root: seq<RootEntry>): (dirs: seq<RootEntry>)
    ensures forall i :: 0 <= i < |dirs| ==> dirs[i].isDir
    ensures forall e :: e in root && e.isDir ==> e in dirs
    ensures IsSubseq(dirs, root)
  {
    FilterIsSubseq(IsDirectory, root);
    Filter(IsDirectory, root)
  }

  /** The categories' names, in order. */
  function Names(dirs: seq<RootEntry>): seq<string>
  {
    seq(|dirs|, i requires 0 <= i < |dirs| => dirs[i].name)
  }

  /** The category filter: empty admits every category. */
  predicate Admits(filter: string, category: string)
  {
    filter == "" || category == filter
  }

  /** The search: the lower-cased query occurs in the lower-cased name. */
  predicate Matches(query: string, name: string)
  {
    Contains(Lower(name), Lower(query))
  }

  function Listing(category: string, g: GameFolder): Game
  {
    Game(g.name, category, FirstImage(g.files))
  }

  /** The rows the inner loop appends for one category, given a prefix of its
      listing: each is a game of the category whose name matches the search. */
  function Matching(category: string, games: seq<GameFolder>, query: string): (rows: seq<Game>)
    ensures |rows| <= |games|
    ensures forall i :: 0 <= i < |rows| ==> rows[i].category == category && Matches(query, rows[i].name)
  {
    if games == [] then []
    else
      var last := games[|games| - 1];
      Matching(category, games[..|games| - 1], query)
        + (if Matches(query, last.name) then [Listing(category, last)] else [])
  }

  /** The rows the outer loop has collected after a prefix of the categories:
      each passes the category filter and the search. */
  function Collect(dirs: seq<RootEntry>, query: string, filter: string): (rows: seq<Game>)
    ensures forall i :: 0 <= i < |rows| ==> Admits(filter, rows[i].category) && Matches(query, rows[i].name)
  {
    if dirs == [] then []
    else
      var last := dirs[|dirs| - 1];
      Collect(dirs[..|dirs| - 1], query, filter)
        + (if Admits(filter, last.name) then Matching(last.name, last.games, query) else [])
  }

  /** One more category step of the outer loop. */
  lemma CollectStep(dirs: seq<RootEntry>, i: nat, query: string, filter: string)
    requires i < |dirs|
    ensures Collect(dirs[..i + 1], query, filter)
         == Collect(dirs[..i], query, filter)
            + (if Admits(filter, dirs[i].name) then Matching(dirs[i].name, dirs[i].games, query) else [])
  {
    assert dirs[..i + 1][..i] == dirs[..i];
  }

  /** One more game step of the inner loop. */
  lemma MatchingStep(category: string, games: seq<GameFolder>, j: nat, query: string)
    requires j < |games|
    ensures Matching(category, games[..j + 1], query)
         == Matching(category, games[..j], query)
            + (if Matches(query, games[j].name) then [Listing(category, games[j])] else [])
  {
    assert games[..j + 1][..j] == games[..j];
  }

  // ---------------------------------------------------------------------
  // Home listing: an independent description of the same list

  /** Every game of one category, as a row, in listing order. */
  function Listings(category: string, games: seq<GameFolder>): (rows: seq<Game>)
    ensures |rows| == |games|
  {
    seq(|games|, i requires 0 <= i < |games| => Listing(category, games[i]))
  }

  /** Every game of every category, categories first to last. */
  function AllGames(dirs: seq<RootEntry>): seq<Game>
  {
    if dirs == [] then [] else Listings(dirs[0].name, dirs[0].games) + AllGames(dirs[1..])
  }

  predicate Kept(query: string, filter: string, g: Game)
  {
    Admits(filter, g.category) && Matches(query, g.name)
  }

  function KeepFn(query: string, filter: string): Game -> bool
  {
    g => Kept(query, filter, g)
  }

  /** The rows of `gs` that pass both filters, in order. */
  function Select(gs: seq<Game>, query: string, filter: string): seq<Game>
  {
    Filter(KeepFn(query, filter), gs)
  }

  lemma {:induction false} AllGamesSnoc(dirs: seq<RootEntry>, d: RootEntry)
    ensures AllGames(dirs + [d]) == AllGames(dirs) + Listings(d.name, d.games)
  {
    if dirs == [] {
      assert [d][1..] == [];
    } else {
      assert (dirs + [d])[0] == dirs[0];
      assert (dirs + [d])[1..] == dirs[1..] + [d];
      AllGamesSnoc(dirs[1..], d);
    }
  }

  lemma {:induction false} SelectListings(category: string, games: seq<GameFolder>, query: string, filter: string)
    ensures Select(Listings(category, games), query, filter)
         == if Admits(filter, category) then Matching(category, games, query) else []
  {
    if games != [] {
      var init, last := games[..|games| - 1], games[|games| - 1];
      assert Listings(category, games) == Listings(category, init) + [Listing(category, last)];
      FilterAppend(KeepFn(query, filter), Listings(category, init), [Listing(category, last)]);
      SelectListings(category, init, query, filter);
      assert [Listing(category, last)][1..] == [];
    }
  }

  /** The loops of index() compute exactly the rows of the whole tree that
      pass both filters, in tree order. */
  lemma {:induction false} CollectIsSelection(dirs: seq<RootEntry>, query: string, filter: string)
    ensures Collect(dirs, query, filter) == Select(AllGames(dirs), query, filter)
  {
    if dirs != [] {
      var init, last := dirs[..|dirs| - 1], dirs[|dirs| - 1];
      assert dirs == init + [last];
      AllGamesSnoc(init, last);
      FilterAppend(KeepFn(query, filter), AllGames(init), Listings(last.name, last.games));
      SelectListings(last.name, last.games, query, filter);
      CollectIsSelection(init, query, filter);
    }
  }

  /** A row is listed iff it is a game of the tree, its category passes the
      category filter and its name matches the search. */
  lemma CollectMembership(dirs: seq<RootEntry>, query: string, filter: string, g: Game)
    ensures g in Collect(dirs, query, filter)
        <==> g in AllGames(dirs) && Admits(filter, g.category) && Matches(query, g.name)
  {
    CollectIsSelection(dirs, query, filter);
    var all := AllGames(dirs);
    if g in all && Kept(query, filter, g) {
      var i :| 0 <= i < |all| && all[i] == g;
      assert KeepFn(query, filter)(all[i]);
    }
  }

  /** The listing keeps the tree's order. */
  lemma CollectKeepsOrder(dirs: seq<RootEntry>, query: string, filter: string)
    ensures IsSubseq(Collect(dirs, query, filter), AllGames(dirs))
  {
    CollectIsSelection(dirs, query, filter);
    FilterIsSubseq(KeepFn(query, filter), AllGames(dirs));
  }

  /** With a category filter, only that category's games are collected. */
  lemma CollectOnlyFilteredCategory(dirs: seq<RootEntry>, query: string, filter: string, g: Game)
    requires filter != "" && g in Collect(dirs, query, filter)
    ensures g.category == filter
  {
    CollectMembership(dirs, query, filter, g);
  }

  /** With no search and no category filter nothing is dropped. */
  lemma CollectUnfiltered(dirs: seq<RootEntry>)
    ensures Collect(dirs, "", "") == AllGames(dirs)
  {
    CollectIsSelection(dirs, "", "");
    var all := AllGames(dirs);
    forall i | 0 <= i < |all| ensures KeepFn("", "")(all[i]) {
      ContainsEmpty(Lower(all[i].name));
      assert Lower("") == "";
    }
    FilterAll(KeepFn("", ""), all);
  }

  /** The search is a case-insensitive substring test, and the empty search
      matches every name. */
  lemma SearchIgnoresCase(query: string, name: string)
    ensures Matches(query, name) <==> Matches(Lower(query), Lower(name))
    ensures Matches("", name)
  {
    LowerIdempotent(query);
    LowerIdempotent(name);
    assert Lower("") == "";
    ContainsEmpty(Lower(name));
  }

  /** With an empty search only the category filter decides. */
  lemma CollectEmptySearch(dirs: seq<RootEntry>, filter: string, g: Game)
    ensures g in Collect(dirs, "", filter) <==> g in AllGames(dirs) && Admits(filter, g.category)
  {
    CollectMembership(dirs, "", filter, g);
    SearchIgnoresCase("", g.name);
  }

  /** Search examples: case is ignored both in the query and in the name. */
  lemma SearchExamples()
    ensures Matches("game", "SuperGame")
    ensures Matches("GAME", "supergame")
  {
    assert Lower("SuperGame") == "supergame";
    assert Lower("GAME") == "game";
    assert Lower("game") == "game";
    assert Lower("supergame") == "supergame";
    ContainsAt("supergame", "game", 5);
  }

  // ---------------------------------------------------------------------
  // Pagination

  /** math.ceil(total / GAMES_PER_PAGE); no games means no pages. */
  function TotalPages(total: nat): (pages: nat)
    ensures total <= pages * GamesPerPage
    ensures pages == 0 || (pages - 1) * GamesPerPage < total
    ensures pages == 0 <==> total == 0
  {
    (total + GamesPerPage - 1) / GamesPerPage
  }

  /** Python's normalisation of one slice bound for a sequence of length n. */
  function SliceBound(i: int, n: nat): (b: nat)
    ensures b <= n
    ensures 0 <= i ==> b == if i < n then i else n
  {
    if i < 0 then (if i + n < 0 then 0 else i + n)
    else if i > n then n
    else i
  }

  /** `s[start:stop]` in Python: a contiguous piece of `s`; for non-negative
      bounds, the piece between them, each cut at the end of `s`. */
  function PySlice<T>(s: seq<T>, start: int, stop: int): (r: seq<T>)
    ensures |r| <= |s|
    ensures 0 <= start <= stop ==>
      r == s[if start < |s| then start else |s|..if stop < |s| then stop else |s|]
  {
    var a, b := SliceBound(start, |s|), SliceBound(stop, |s|);
    if a < b then s[a..b] else []
  }

  /** The games shown on page `page`: games[start_index:end_index]. Whatever
      the page number, at most 18 games, all from the list. */
  function PageOf(games: seq<Game>, page: int): (r: seq<Game>)
    ensures |r| <= GamesPerPage
    ensures forall i :: 0 <= i < |r| ==> r[i] in games
  {
    var start := (page - 1) * GamesPerPage;
    PySlice(games, start, start + GamesPerPage)
  }

  /** A page from 1 on is the window of the list starting at
      (page - 1) * GAMES_PER_PAGE, cut at the list's end. */
  lemma PageWindow(games: seq<Game>, page: int)
    requires page >= 1
    ensures var start := (page - 1) * GamesPerPage;
            PageOf(games, page)
            == if start < |games| then games[start..if start + GamesPerPage < |games| then start + GamesPerPage else |games|]
               else []
    ensures |PageOf(games, page)| <= GamesPerPage
  {
  }

  /** A page past the last one is empty rather than an error. */
  lemma PageBeyondLastIsEmpty(games: seq<Game>, page: int)
    requires page > TotalPages(|games|)
    ensures PageOf(games, page) == []
  {
    var pages := TotalPages(|games|);
    assert (page - 1) * GamesPerPage >= pages * GamesPerPage;
  }

  /** Every page from the first to the last has at least one game. */
  lemma PageInRangeIsNotEmpty(games: seq<Game>, page: int)
    requires 1 <= page <= TotalPages(|games|)
    ensures PageOf(games, page) != []
  {
    assert (page - 1) * GamesPerPage <= (TotalPages(|games|) - 1) * GamesPerPage;
    PageWindow(games, page);
  }

  /** Pages 1 to n, one after the other. */
  function PagesUpTo(games: seq<Game>, n: nat): seq<Game>
  {
    if n == 0 then [] else PagesUpTo(games, n - 1) + PageOf(games, n)
  }

  lemma {:induction false} PagesUpToIsPrefix(games: seq<Game>, n: nat)
    ensures PagesUpTo(games, n)
         == games[..if n * GamesPerPage < |games| then n * GamesPerPage else |games|]
  {
    if n > 0 {
      PagesUpToIsPrefix(games, n - 1);
      PageWindow(games, n);
      assert (n - 1) * GamesPerPage + GamesPerPage == n * GamesPerPage;
      var a := if (n - 1) * GamesPerPage < |games| then (n - 1) * GamesPerPage else |games|;
      var b := if n * GamesPerPage < |games| then n * GamesPerPage else |games|;
      assert games[..b] == games[..a] + games[a..b];
    }
  }

  /** The pages, read in order, are the whole list: no game is lost or shown twice. */
  lemma PagesCoverAll(games: seq<Game>)
    ensures PagesUpTo(games, TotalPages(|games|)) == games
  {
    PagesUpToIsPrefix(games, TotalPages(|games|));
  }

  // ---------------------------------------------------------------------
  // index()

  /** The inner loop of index() for one category: append every game whose
      lower-cased name contains the lower-cased query, with its thumbnail. */
  method CollectCategory(category: RootEntry, search: string, query: string)
    returns (rows: seq<Game>)
    requires query == Lower(search)
    ensures rows == Matching(category.name, category.games, search)
  {
    rows := [];
    for j := 0 to |category.games|
      invariant rows == Matching(category.name, category.games[..j], search)
    {
      var game := category.games[j];
      MatchingStep(category.name, category.games, j, search);
      if Contains(Lower(game.name), query) {
        var thumbnail := ThumbnailPath(game.files);
        rows := rows + [Game(game.name, category.name, thumbnail)];
      }
    }
    assert category.games[..|category.games|] == category.games;
  }

  /** The outer loop of index(): walk the categories in order, skip those the
      category filter rejects, and append the matching games of the others. */
  method CollectGames(dirs: seq<RootEntry>, search: string, categoryFilter: string)
    returns (games: seq<Game>)
    ensures games == Collect(dirs, search, categoryFilter)
  {
    games := [];
    var query := Lower(search);
    for i := 0 to |dirs|
      invariant games == Collect(dirs[..i], search, categoryFilter)
    {
      var category := dirs[i];
      CollectStep(dirs, i, search, categoryFilter);
      if categoryFilter != "" && category.name != categoryFilter {
        continue;
      }
      var rows := CollectCategory(category, search, query);
      games := games + rows;
    }
    assert dirs[..|dirs|] == dirs;
  }

  /** The home page: collect the games that pass the filters, then cut out
      the requested page. */
  method Index(root: seq<RootEntry>, search: string, categoryFilter: string, page: int)
    returns (view: IndexPage)
    ensures view.categories == Names(Directories(root))
    ensures view.games == PageOf(Collect(Directories(root), search, categoryFilter), page)
    ensures view.totalPages == TotalPages(|Collect(Directories(root), search, categoryFilter)|)
    ensures view.page == page && view.searchQuery == Lower(search)
    ensures view.categoryFilter == categoryFilter
  {
    var dirs := Directories(root);
    var categories := Names(dirs);
    var games := CollectGames(dirs, search, categoryFilter);
    var totalPages := TotalPages(|games|);
    var startIndex := (page - 1) * GamesPerPage;
    var endIndex := startIndex + GamesPerPage;
    view := IndexPage(categories, PySlice(games, startIndex, endIndex), page, totalPages, Lower(search), categoryFilter);
  }

  // ---------------------------------------------------------------------
  // game(): the two lists of the game page

  /** The names the game page shows as images, in listing order. */
  function Images(files: seq<string>): (r: seq<string>)
    ensures forall i :: 0 <= i < |r| ==> r[i] in files && IsImage(r[i])
  {
    Filter(IsImage, files)
  }

  /** The names the game page offers as other files, in listing order. */
  function OtherFiles(files: seq<string>): (r: seq<string>)
    ensures forall i :: 0 <= i < |r| ==> r[i] in files && IsOtherFile(r[i])
  {
    Filter(IsOtherFile, files)
  }

  datatype GamePage = GamePage(category: string, game: string, images: seq<string>, otherFiles: seq<string>)

  /** What the game page is rendered from: the category and game it was asked
      for, the folder's images, and its other files. */
  function GameView(category: string, game: string, files: seq<string>): (v: GamePage)
    ensures v.category == category && v.game == game
    ensures forall i :: 0 <= i < |v.images| ==> v.images[i] in files && IsImage(v.images[i])
    ensures forall i :: 0 <= i < |v.otherFiles| ==> v.otherFiles[i] in files && IsOtherFile(v.otherFiles[i])
  {
    GamePage(category, game, Images(files), OtherFiles(files))
  }

  /** The last character of every image suffix is 'g' or 'f'. */
  lemma ImageEndsInGOrF(s: string)
    requires EndsWithAny(s, ImageSuffixes)
    ensures s != [] && (s[|s| - 1] == 'g' || s[|s| - 1] == 'f')
  {
    var m :| 0 <= m < |ImageSuffixes| && EndsWith(s, ImageSuffixes[m]);
    EndsWithLast(s, ImageSuffixes[m]);
  }

  /** A lower-cased name ending in a hidden suffix is not an image. */
  lemma HiddenIsNotImage(s: string)
    requires EndsWithAny(s, HiddenSuffixes)
    ensures !EndsWithAny(s, ImageSuffixes)
  {
    var k :| 0 <= k < |HiddenSuffixes| && EndsWith(s, HiddenSuffixes[k]);
    if k < 2 {
      EndsWithLast(s, HiddenSuffixes[k]);
      if EndsWithAny(s, ImageSuffixes) {
        ImageEndsInGOrF(s);
      }
    } else {
      forall m | 0 <= m < |ImageSuffixes| ensures !EndsWith(s, ImageSuffixes[m]) {
        SuffixesExclusive(s, ".cfg", ImageSuffixes[m]);
      }
    }
  }

  /** A file is offered as an "other file" exactly when it is neither an image
      nor hidden. */
  lemma OtherFileIff(f: string)
    ensures IsOtherFile(f) <==> !IsImage(f) && !EndsWithAny(Lower(f), HiddenSuffixes)
  {
    var lf := Lower(f);
    var all := ImageSuffixes + HiddenSuffixes;
    if EndsWithAny(lf, all) {
      var k :| 0 <= k < |all| && EndsWith(lf, all[k]);
      if k < |ImageSuffixes| {
        assert EndsWith(lf, ImageSuffixes[k]);
      } else {
        assert EndsWith(lf, HiddenSuffixes[k - |ImageSuffixes|]);
      }
    } else {
      forall k | 0 <= k < |ImageSuffixes| ensures !EndsWith(lf, ImageSuffixes[k]) {
        assert all[k] == ImageSuffixes[k];
      }
      forall k | 0 <= k < |HiddenSuffixes| ensures !EndsWith(lf, HiddenSuffixes[k]) {
        assert all[k + |ImageSuffixes|] == HiddenSuffixes[k];
      }
    }
  }

  /** Both lists keep the folder's order. */
  lemma GameViewKeepsOrder(category: string, game: string, files: seq<string>)
    ensures IsSubseq(GameView(category, game, files).images, files)
    ensures IsSubseq(GameView(category, game, files).otherFiles, files)
  {
    FilterIsSubseq(IsImage, files);
    FilterIsSubseq(IsOtherFile, files);
  }

  /** The images are exactly the folder's image files. */
  lemma ImagesMembership(files: seq<string>, f: string)
    ensures f in Images(files) <==> f in files && IsImage(f)
  {
    if f in files && IsImage(f) {
      var i :| 0 <= i < |files| && files[i] == f;
      assert IsImage(files[i]);
    }
  }

  /** The other files are exactly the folder's files that are neither images
      nor hidden. */
  lemma OtherFilesMembership(files: seq<string>, f: string)
    ensures f in OtherFiles(files) <==> f in files && !IsImage(f) && !EndsWithAny(Lower(f), HiddenSuffixes)
  {
    OtherFileIff(f);
    if f in files && IsOtherFile(f) {
      var i :| 0 <= i < |files| && files[i] == f;
      assert IsOtherFile(files[i]);
    }
  }

  /** No name is in both lists, and a .txt, .html or .cfg name is in neither. */
  lemma GameViewSplit(category: string, game: string, files: seq<string>, f: string)
    ensures var v := GameView(category, game, files);
            && !(f in v.images && f in v.otherFiles)
            && (EndsWithAny(Lower(f), HiddenSuffixes) ==> f !in v.images && f !in v.otherFiles)
  {
    ImagesMembership(files, f);
    OtherFilesMembership(files, f);
    if EndsWithAny(Lower(f), HiddenSuffixes) {
      HiddenIsNotImage(Lower(f));
    }
  }

  // ---------------------------------------------------------------------
  // download()

  datatype Response =
    | Refused(status: nat, message: string)
    | Attachment(category: string, game: string, file: string)

  /** The download route: .txt and .html files are refused with 403, every
      other file is sent as an attachment. */
  function Download(category: string, game: string, file: string): (r: Response)
    ensures r.Refused? <==> IsRefused(file)
    ensures r.Refused? ==> r.status == 403
    ensures !IsRefused(file) ==> r == Attachment(category, game, file)
  {
    if EndsWithAny(Lower(file), RefusedSuffixes) then Refused(403, RefusedMessage)
    else Attachment(category, game, file)
  }

  /** No name ending in an image suffix or in .cfg ends in a refused suffix:
      these end in 'g' or 'f', the refused ones in 't' or 'l'. */
  lemma EndsInGOrFNotRefused(s: string)
    requires s != [] && (s[|s| - 1] == 'g' || s[|s| - 1] == 'f')
    ensures !EndsWithAny(s, RefusedSuffixes)
  {
    forall k | 0 <= k < |RefusedSuffixes| ensures !EndsWith(s, RefusedSuffixes[k]) {
      EndsWithLast(s, RefusedSuffixes[k]);
    }
  }

  /** Everything the game page lists can be downloaded; .cfg files, though
      hidden from the page, can be downloaded too. */
  lemma ListedFilesDownloadable(category: string, game: string, files: seq<string>, f: string)
    requires f in Images(files) || f in OtherFiles(files) || EndsWith(Lower(f), ".cfg")
    ensures Download(category, game, f) == Attachment(category, game, f)
  {
    var lf := Lower(f);
    ImagesMembership(files, f);
    OtherFilesMembership(files, f);
    if f in Images(files) {
      ImageEndsInGOrF(lf);
      EndsInGOrFNotRefused(lf);
    } else if f in OtherFiles(files) {
      forall k | 0 <= k < |RefusedSuffixes| ensures !EndsWith(lf, RefusedSuffixes[k]) {
        assert HiddenSuffixes[k] == RefusedSuffixes[k];
      }
    } else {
      EndsWithLast(lf, ".cfg");
      EndsInGOrFNotRefused(lf);
    }
  }

  /** The refusal looks at the lower-cased name only, so it ignores case. */
  lemma DownloadIgnoresCase(category: string, game: string, file: string)
    ensures Download(category, game, file).Refused? <==> Download(category, game, Lower(file)).Refused?
  {
    LowerIdempotent(file);
  }

  /** An upper-case extension is refused like a lower-case one. */
  lemma DownloadExample()
    ensures Download("A", "B", "a.TXT").Refused?
  {
    assert Lower("a.TXT") == "a.txt";
    assert EndsWith("a.txt", RefusedSuffixes[0]);
  }
}
