# Game browser and scraper name handling, in Dafny

This project models the name-handling logic of a small game-browsing web
application (`wap.py`) and of the scraper that fills its folder tree
(`tools/s_game_em52.py`), and proves what that logic guarantees.

- `seqs.dfy` (module `Seqs`): order-preserving filtering, the shape of a
  Python list comprehension `[x for x in s if p(x)]`, and the subsequence
  relation.
- `text.dfy` (module `Text`): the Python string operations the code relies
  on — `str.lower`, `str.endswith` with a tuple of suffixes, `sub in s`,
  and `str(n)` for a natural number, with its parse round trip.
- `wap.dfy` (module `Wap`): the home page `index()` — categories in listing
  order, the optional exact category filter, the case-insensitive search,
  the thumbnail choice `get_thumbnail_path`, the page count and the page
  slice. The loops (`CollectGames`, `CollectCategory`, `ThumbnailPath`) are
  methods, each proved equal to a recursive specification, and `Index`
  combines them with the page arithmetic. The specification is in turn
  proved equal to an independent description: every game of the tree,
  filtered. Also the split of a game folder into
  images and other files in `game()`, and the refusal of `.txt` and
  `.html` files in `download()`.
- `scraper.dfy` (module `Scraper`): `sanitize_filename` (delete the
  characters `\ / * ? : " < > |`, replace colons, strip dots and spaces
  from both ends, substitute a default), the download's fallback name, and
  the screenshot names.

Every directory listing is an input sequence of names, in whatever order
the operating system returned it. A game folder is its name and its
listing; a root entry is a name, whether it is a directory, and (for a
directory) its listing of game folders.

The page count is `ceil(total / 18)` with no minimum, so no matching games
means 0 pages. A thumbnail is the first name ending in `.png`, `.jpg`,
`.jpeg` or `.gif`. The code has no thumbnail cache, no resizing, no
path-traversal check and no table-driven file classifier, so none is
modelled.

## Model

| member | source | states |
|---|---|---|
| Wap.FirstImage | wap.py:161-165 | the result is None exactly when no listed name is an image (lower-cased name ending in .png, .jpg, .jpeg or .gif); otherwise it is a listed image name |
| Wap.FirstImageIsEarliest | wap.py:162-164 | the chosen name is the earliest image in listing order |
| Wap.ThumbnailPath | wap.py:161-165 | the scan with early return yields the first image of the listing, or None when there is none |
| Wap.Directories | wap.py:170 | the categories are exactly the directory entries of the root, in order |
| Wap.Matching | wap.py:180-188 | the rows one category contributes, at most one per game, each of that category and matching the search |
| Wap.Collect | wap.py:176-188 | every collected row passes the category filter and the search |
| Wap.SelectListings | wap.py:180-188 | the rows one category contributes are its games, as rows, that pass both filters, in listing order (none when the category filter rejects it) |
| Wap.CollectIsSelection | wap.py:176-188 | the nested loops collect exactly the games of the whole tree that pass the category filter and the search, in tree order |
| Wap.CollectMembership | wap.py:172-181 | a game is listed if and only if it is in the tree, its category passes the filter (empty filter or equal name) and the lower-cased query occurs in its lower-cased name |
| Wap.CollectKeepsOrder | wap.py:176-188 | the listing is a subsequence of all games, categories in listing order and games in listing order within each |
| Wap.CollectOnlyFilteredCategory | wap.py:177-178 | with a non-empty category filter every listed game belongs to that category |
| Wap.CollectUnfiltered | wap.py:172-188 | with no search and no category filter nothing is dropped |
| Wap.SearchIgnoresCase | wap.py:172-181 | the search matches regardless of case, and the empty search matches every name |
| Wap.CollectEmptySearch | wap.py:172-181 | with an empty search a game is listed exactly when it is in the tree and its category passes the filter |
| Wap.SearchExamples | wap.py:172-181 | "game" matches "SuperGame" and "GAME" matches "supergame" |
| Wap.TotalPages | wap.py:190-191 | the page count is the least number of 18-game pages holding all games: 0 exactly when there are no games |
| Wap.PySlice | wap.py:194 | a Python slice is at most as long as the list, and for non-negative bounds is the piece between them, each cut at the list's end |
| Wap.PageOf | wap.py:192-194 | whatever the page number, the page holds at most 18 games, all from the list |
| Wap.SliceBound | wap.py:194 | a Python slice bound is normalised into 0..length; a non-negative bound is clamped to the length |
| Wap.PageWindow | wap.py:192-194 | for page >= 1 the displayed games are the list from (page-1)*18 for up to 18 games, cut at its end; at most 18 games |
| Wap.PageBeyondLastIsEmpty | wap.py:190-194 | a page past the last one is empty, not an error |
| Wap.PageInRangeIsNotEmpty | wap.py:190-194 | every page from 1 to the page count shows at least one game |
| Wap.PagesUpToIsPrefix | wap.py:192-194 | pages 1 to n, read in order, are the first n*18 games |
| Wap.PagesCoverAll | wap.py:190-194 | the pages 1 to the page count, read in order, are the whole list: no game lost or repeated |
| Wap.CollectCategory | wap.py:180-188 | the inner loop computes the matching games of one category, as rows with their thumbnails, in listing order |
| Wap.CollectGames | wap.py:176-188 | the outer loop with continue and append computes the collected list of the specification |
| Wap.Index | wap.py:168-198 | the home page shows the root's directory names, the requested page of the collected games, the page count of the whole collected list, the page number, the lower-cased search and the category filter |
| Wap.Images | wap.py:231 | every image shown is a listed image name |
| Wap.OtherFiles | wap.py:232 | every other file shown is a listed name ending in none of the seven suffixes |
| Wap.GameView | wap.py:229-233 | the game page shows the requested category and game, listed images, and listed other files |
| Wap.ImageEndsInGOrF | wap.py:231 | every image name, lower-cased, ends in g or f |
| Wap.HiddenIsNotImage | wap.py:231-232 | a name ending in .txt, .html or .cfg (any case) is not an image |
| Wap.OtherFileIff | wap.py:232 | a name is an other file exactly when it is neither an image nor ends in .txt, .html or .cfg |
| Wap.GameViewKeepsOrder | wap.py:229-233 | the images and the other files are both subsequences of the folder listing, in its order |
| Wap.ImagesMembership | wap.py:231 | a name is among the images exactly when it is listed and is an image |
| Wap.OtherFilesMembership | wap.py:232 | a name is among the other files exactly when it is listed, is not an image and does not end in .txt, .html or .cfg |
| Wap.GameViewSplit | wap.py:231-232 | no name is in both lists, and a .txt, .html or .cfg name (any case) is in neither |
| Wap.Download | wap.py:260-265 | the route refuses with status 403 exactly the names whose lower-cased form ends in .txt or .html, and otherwise sends the requested file as an attachment |
| Wap.EndsInGOrFNotRefused | wap.py:263 | a name ending in g or f never ends in a refused suffix |
| Wap.ListedFilesDownloadable | wap.py:263-265 | every name the game page lists, and every .cfg name, is sent, not refused |
| Wap.DownloadIgnoresCase | wap.py:263 | a name is refused exactly when its lower-cased form is |
| Wap.DownloadExample | wap.py:263-264 | an upper-case .TXT extension is refused |
| Text.DecimalString | tools/s_game_em52.py:79 | `str(n)` is non-empty, all decimal digits, without a leading zero |
| Text.ParseDecimalString | tools/s_game_em52.py:79 | reading back `str(n)` gives n |
| Text.DecimalStringInjective | tools/s_game_em52.py:79 | different numbers have different decimal strings |
| Scraper.SkipEdgesForward | tools/s_game_em52.py:30 | the left scan of strip stops at the first character that is not a dot or space, having passed only dots and spaces |
| Scraper.SkipEdgesBackward | tools/s_game_em52.py:30 | the right scan of strip stops after the last character that is not a dot or space, without crossing the left end |
| Scraper.StripTrims | tools/s_game_em52.py:30 | strip keeps a contiguous piece of its input and cuts only dots and spaces around it |
| Scraper.Strip | tools/s_game_em52.py:30 | strip never lengthens its input, and its result neither starts nor ends with a dot or a space |
| Scraper.RemoveForbidden | tools/s_game_em52.py:26 | the deletion keeps exactly the allowed characters: each kept one is an allowed character of the input, and every allowed input character is kept |
| Scraper.ReplaceColon | tools/s_game_em52.py:28 | the replacement keeps the length, leaves no colon, and changes no other character |
| Scraper.ColonReplaceNoOp | tools/s_game_em52.py:26-28 | the colon replacement changes nothing: the deletion already removed every colon |
| Scraper.DefaultNameIsClean | tools/s_game_em52.py:32-33 | the default name is non-empty, has no forbidden character, no dot or space at either end, and no underscore |
| Scraper.CoreCharFromInput | tools/s_game_em52.py:26-30 | every surviving character is an allowed character of the input |
| Scraper.CoreIsClean | tools/s_game_em52.py:26-30 | whatever survives deletion and stripping is empty or clean |
| Scraper.Sanitize | tools/s_game_em52.py:24-34 | the result is never empty, contains no backslash, slash, star, question mark, colon, double quote, angle bracket or vertical bar, and neither starts nor ends with a dot or a space |
| Scraper.SanitizeIsCoreOrDefault | tools/s_game_em52.py:26-33 | when nothing survives cleaning the result is the default name; otherwise it is what survives |
| Scraper.SanitizeTrims | tools/s_game_em52.py:26-30 | what survives is a contiguous piece of the input with forbidden characters deleted, with only dots and spaces cut around it; the deletion keeps the input's order |
| Scraper.SanitizeAddsNoUnderscore | tools/s_game_em52.py:26-28 | an underscore appears in the result only if the input had one |
| Scraper.SanitizeClean | tools/s_game_em52.py:24-34 | a name that is already clean is returned unchanged |
| Scraper.SanitizeIdempotent | tools/s_game_em52.py:24-34 | sanitising twice is sanitising once |
| Scraper.SanitizeExampleColon | tools/s_game_em52.py:26-28 | a colon is deleted, not replaced by an underscore |
| Scraper.DownloadFileName | tools/s_game_em52.py:60-64 | the downloaded file's name is never empty and never "." |
| Scraper.DownloadFallbackUnreachable | tools/s_game_em52.py:60-64 | the fallback to game_file.jar never applies: a sanitised name is never empty or "." |
| Scraper.ScreenshotName | tools/s_game_em52.py:79 | a screenshot name is "screenshot_", then the 1-based position in decimal, then ".jpg" |
| Scraper.ScreenshotNames | tools/s_game_em52.py:77-79 | one name per screenshot |
| Scraper.ScreenshotNamesDistinct | tools/s_game_em52.py:77-80 | screenshots at different positions get different names, so none overwrites another |
| Scraper.ScreenshotIsImage | tools/s_game_em52.py:79 | every screenshot name is shown as an image on the game page |

## Left out

- Filesystem and web I/O: `os.listdir`, `os.path.isdir`, `os.path.join`, `send_file`, Flask routing and templates. Listings are inputs; the rendered page is the `IndexPage` or `GamePage` value, and a sent file is an `Attachment` value.
- Wap.Index: the page number is taken as an integer. The `int()` parsing of the query argument, which raises on non-numeric input, is not modelled. Negative and zero pages follow Python's slice rules exactly.
- Wap.CollectGames: every entry of a category is taken to be a game folder. The source also calls `get_thumbnail_path` on plain files, where `os.listdir` raises; that error is not modelled.
- Wap.FirstImage: the thumbnail is the image file's name. The source joins it to the game's path and makes that relative to the games root.
- Wap.TotalPages: modelled on integers. The source divides in floating point, which is exact for any realistic number of games.
- Text.Lower: lower-cases only the ASCII letters A-Z. Python's full Unicode case mapping is not modelled.
- The accounts, sessions, comments, SQLite database, verification e-mail and the default-image request in `wap.py` are not modelled. Neither are `get_game_id` (an MD5 digest) and the comments shown on the game page; they are I/O and foreign libraries.
- The scraper's Selenium and HTML scraping, HTTP downloads, chunked writes and the `Content-Disposition` regular expression are not modelled. The name taken from the URL (`unquote`, `basename`) is not modelled either. Only the names the scraper derives are.
- `un.py` (the archive-extraction GUI) is not part of this model.
