# IPTV channel catalog: a Dafny model

This project models the non-UI logic of a small IPTV web player, `iptv_app.py`.
The player fetches an M3U playlist. It turns the playlist into an ordered
catalog of `(name, url)` channels, narrows the catalog with a search box, and
keeps a per-browser session. The session holds a growing page limit
("Show More") and the channel currently in the player.

The model has four modules:

- `Text` (`text.dfy`) holds the string primitives the code relies on:
  `str.strip()` (Python's `isspace` set), `startswith`, `split(",")[-1]`,
  `lower()` restricted to ASCII letters, substring containment, and
  `splitlines()` with Python's line boundaries. In `splitlines()`, `\r\n`
  counts as one boundary and a final boundary adds no empty line.
- `Playlist` (`playlist.dfy`) holds the loader. `LoadChannels` is the source's
  index loop over the lines, appending to a list. It is proved equal to the
  specification function `Load`. `Load` maps a failed fetch to the empty list
  and otherwise parses the split lines. The parse first classifies each line
  (metadata flag, display name, stripped text, URL flag). It then scans the
  classified lines in order.
- `Search` (`search.dfy`) holds the search filter, a pure function. It keeps
  the channels whose lower-cased name contains the lower-cased query, in
  catalog order.
- `Session` (`session.dfy`) holds the session state as a class. Its fields are
  the search text, `visible_count` and the optional selected channel. Each
  method is one rerun of the page script or one button click. The page shown
  is the pure slice `Page`.

The network fetch is not modelled. The loader takes its outcome as a
parameter: `Fetched(text)` or `Failed`. A failed fetch gives the empty list, as
in the code (iptv_app.py:25-27), so a caller cannot tell a failed fetch from an
empty playlist: `Load(Failed) == []`.

The session methods give the state right after a click. The script reads a
click only after it has drawn the player (iptv_app.py:55-60) and the rows
(line 64), so what a click changes is displayed from the following run on.

## Model

| member | source | states |
|---|---|---|
| Playlist.LoadChannels | iptv_app.py:14-27 | the loop returns exactly `Load(fetched)`: the empty list for a failed fetch, otherwise the channels parsed from the split lines |
| Playlist.StepOfLine | iptv_app.py:20-24 | one step of the scan appends `(name after last comma, stripped next line)` exactly when the line starts with `#EXTINF`, a next line exists and that line stripped starts with `http`, and appends nothing otherwise |
| Playlist.IsMeta | iptv_app.py:20 | `line.startswith("#EXTINF")`, the test that opens an entry; `MetaIsNotUrl` and `ParseCount` state its consequences |
| Playlist.NameOf | iptv_app.py:21 | `line.split(",")[-1].strip()`, the display name; `NameHasNoComma` and `NameOfMetaLine` state what it returns |
| Playlist.Load | iptv_app.py:14-27 | defined as the empty list for a failed fetch and otherwise `Parse` of the split lines; `LoadChannels` is proved equal to it |
| Playlist.Parse | iptv_app.py:18-24 | defined as the scan of the classified lines; the lemmas below state what it returns |
| Playlist.ParseProvenance | iptv_app.py:19-24 | each channel comes from its own `#EXTINF` line `i`: its name is that line's stripped text after the last comma and its url is line `i+1` stripped, which starts with `http`; the source lines strictly increase with the channel's position; every `#EXTINF` line followed by a url line is one of the kept lines, so an entry that appears twice yields two channels |
| Playlist.ParseKeepsPair | iptv_app.py:20-24 | an `#EXTINF` line followed by a line whose stripped text starts with `http` yields its channel |
| Playlist.ParseUrlsAndNames | iptv_app.py:21-24 | every returned url starts with `http` and no returned name contains a comma |
| Playlist.NameHasNoComma | iptv_app.py:21 | the display name of any line contains no comma |
| Playlist.ParseCount | iptv_app.py:19-24 | there are never more channels than lines starting with `#EXTINF` |
| Playlist.ParseEmpty | iptv_app.py:19-22 | text with no `#EXTINF` line at all, or whose only ones are on the last line, yields the empty list |
| Playlist.MetaIsNotUrl | iptv_app.py:20-23 | a line that starts with `#EXTINF` never passes the url test, even after stripping |
| Playlist.MetaAfterMeta | iptv_app.py:19-22 | when an `#EXTINF` line follows an `#EXTINF` line, the first entry is dropped and the second line is still examined as a metadata line, yielding its channel when a URL follows |
| Playlist.ParseAppend | iptv_app.py:19-24 | two playlists joined after a line that is not a metadata line parse to the concatenation of their channel lists |
| Playlist.ParsePrefix | iptv_app.py:19-24 | the channels of the first `n` lines, cut anywhere (even between an `#EXTINF` line and its url), are a prefix of the channels of the whole playlist |
| Playlist.ParsePair | iptv_app.py:20-24 | a metadata line and its next line yield that one channel when the next line stripped starts with `http`, and nothing otherwise |
| Playlist.NameOfMetaLine | iptv_app.py:21 | the display name of `#EXTINF:-1,<title>` is the title, for a title without commas or surrounding whitespace |
| Playlist.ParseKeepsDuplicates | iptv_app.py:19-24 | an entry listed twice yields the same channel twice, nothing is deduplicated |
| Playlist.ParseDropsEntryWithoutUrl | iptv_app.py:19-24 | of three entries whose middle one is followed by a non-URL line, the first and third channels are kept in order and the middle one is dropped |
| Playlist.DropsEntryWithoutUrl | iptv_app.py:18-24 | the same three entries, fetched as text joined by `\n`, load to the first and third channels in order |
| Text.Strip | iptv_app.py:21-22 | `strip()`: the result is never longer than the input; `StripExact` pins it down |
| Text.StripExact | iptv_app.py:21-22 | `strip()` returns the slice of the input after its leading whitespace that neither starts nor ends with whitespace and keeps every non-space character |
| Text.StripIdempotent | iptv_app.py:21-22 | stripping twice is stripping once |
| Text.StartsWith | iptv_app.py:20-23 | `str.startswith`: the prefix occurs at the start of the text, used for the `#EXTINF` test and the `http` test |
| Text.AfterLast | iptv_app.py:21 | `split(",")[-1]`: the result is never longer than the input; `AfterLastExact` pins it down |
| Text.AfterLastExact | iptv_app.py:21 | `split(",")[-1]` is a suffix of the line without a comma, preceded by a comma unless it is the whole line |
| Text.AfterLastOfSplit | iptv_app.py:21 | the text after the last comma of `p + "," + q`, where `q` has no comma, is `q` |
| Text.SplitLines | iptv_app.py:18 | `splitlines()`: defined line by line up to the first boundary, `\r\n` counting as one; the round-trip lemmas below state what it returns |
| Text.SplitLinesHaveNoBreak | iptv_app.py:18 | no line returned by `splitlines()` contains a line boundary |
| Text.SplitLinesCrLf | iptv_app.py:18 | a line followed by `\r\n` is split off as one line, the pair counting as a single boundary, just as `SplitLinesCons` splits off a line followed by `\n` |
| Text.SplitJoinRoundTrip | iptv_app.py:18 | splitting lines that are each terminated by `\n` gives the lines back, so a final newline adds no empty line |
| Text.SplitJoinLinesRoundTrip | iptv_app.py:18 | splitting lines joined by `\n` gives them back when the last one is not empty |
| Text.LowerChar | iptv_app.py:40 | an ASCII capital becomes the lower-case letter at the same place in the alphabet, the result is never an ASCII capital, and anything that is not an ASCII capital is unchanged |
| Text.Lower | iptv_app.py:40 | `lower()` keeps the length and lower-cases each character in place |
| Text.LowerIdempotent | iptv_app.py:40 | lower-casing twice is lower-casing once |
| Text.IsSubstring | iptv_app.py:40 | `in` on strings: the needle is a prefix of the text or of one of its suffixes; `IsSubstringAt` characterises it |
| Text.IsSubstringAt | iptv_app.py:40 | the recursive `in` test holds exactly when the needle occurs in the text at some offset |
| Search.Matches | iptv_app.py:40 | the comprehension's condition: the lower-cased query occurs in the lower-cased name |
| Search.Filter | iptv_app.py:40 | the filtered list is never longer than the catalog |
| Search.FilterIsSubsequence | iptv_app.py:40 | the filtered list is a subsequence of the catalog, in catalog order |
| Search.FilterMembership | iptv_app.py:40 | a channel is in the filtered list exactly when it is in the catalog and its lower-cased name contains the lower-cased query |
| Search.FilterAppend | iptv_app.py:40 | filtering a concatenation is concatenating the filtered parts |
| Search.FilterEmptyQuery | iptv_app.py:40 | the empty query keeps the whole catalog, in order |
| Search.FilterIdempotent | iptv_app.py:40 | filtering the filtered list again with the same query changes nothing |
| Search.MatchesVerbatim | iptv_app.py:40 | a name that contains the query verbatim always matches it |
| Search.FilterIgnoresQueryCase | iptv_app.py:40 | queries that differ only in ASCII letter case select the same channels |
| Session.Page | iptv_app.py:64 | the page is a prefix of the filtered list, of length `min(count, len(filtered))`, and is defined for every count |
| Session.PageExtends | iptv_app.py:64 | a larger count shows the rows shown before, and possibly more |
| Session.CatalogSession.View | iptv_app.py:40 | `filtered_channels` for the session's current search text |
| Session.CatalogSession.Shown | iptv_app.py:64 | `filtered_channels[:visible_count]` in the current state, the rows the next run draws |
| Session.CatalogSession.constructor | iptv_app.py:43-44 | a fresh session has `visible_count` 10, an empty search text and no selection |
| Session.CatalogSession.Rerun | iptv_app.py:40-53 | a rerun with a new search text leaves `visible_count` unchanged and keeps an existing selection even when it is no longer in the view; with no selection yet, the first filtered channel becomes the selection if there is one |
| Session.CatalogSession.ChooseChannel | iptv_app.py:64-66 | a click on row `i` of the page makes that row the selection, which is a channel of the current view; nothing else changes |
| Session.CatalogSession.ShowMore | iptv_app.py:72-74 | "Show More" adds exactly 10 to `visible_count` when it is below the filtered length and otherwise changes nothing; the rows shown before stay shown; `visible_count` stays a positive multiple of 10 |
| Session.ShowMoreTwice | iptv_app.py:43-74 | with 25 channels and no query, after two clicks of "Show More" the session's page is all 25 channels and a further click leaves `visible_count` unchanged |

## Left out

- The Streamlit page, sidebar, widgets, button keys, spinner and warnings (iptv_app.py:1-9, 33-37, 56-59, 63, 76-80) are UI rendering. A button click is modelled as a method call.
- `requests.get`, `raise_for_status` and the exception path to `st.error` (iptv_app.py:15-17, 25-26) are network I/O. The outcome enters as the `Fetch` parameter, and a failure gives the empty list as in the code.
- The fixed playlist address (iptv_app.py:30) is a network location and is not modelled.
- `@st.cache_data` memoisation (iptv_app.py:12) is framework caching. `CatalogSession` takes the loaded catalog as a constant.
- `st_player` playback, `volume / 100.0`, `is_playing` and `DEFAULT_PLAYBACK_SPEED` (iptv_app.py:37, 47, 60, 67-69) are a foreign widget and float arithmetic.
- Text.LowerChar: lower-cases ASCII letters only, not the full Unicode case mapping of Python's `str.lower()`.
- `str.strip()` and `splitlines()` use Python's character sets for whitespace and line boundaries, but strings are sequences of Unicode scalar values, so the decoding of the response body is not modelled.
- The search text is held as a field that `Rerun` receives, because it is a widget value in the source.
- A click on a channel is modelled only for a row of the current page, because only those rows are rendered as buttons.
- The methods of `CatalogSession` give the state after a click, not the screen. The script draws the player and the rows before it reads the click (iptv_app.py:55-66, 72-74), so the screen shows the new state only from the next run. For example, after two "Show More" clicks on 25 channels the screen still shows 20 rows and offers the button once more.
- The scenarios with several channels are stated for arbitrary titles and URLs that meet their conditions, not for one literal playlist text.
