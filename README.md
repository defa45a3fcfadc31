# YouTube video portfolio and page-state rules

This project models the client-side scripts of a portfolio website: the
video-portfolio utilities of `youtube-portfolio.js`, and the parts of
`script.js` that carry logic.

- **Identifier extraction.** `extractYouTubeID` trims its input. It then tries
  the short-link form, the watch/embed form and the bare 11-character
  identifier, in that order. The older `extractYouTubeVideoId` does no
  trimming, and after a link marker it takes the whole run of characters up
  to the first `&`, `?`, `#` or newline. The regular expressions are not run
  through a general engine. Module `UrlPatterns` models what
  `String.prototype.match` returns for the one shape all the link patterns
  share: a marker, or an alternation of markers, followed by one capturing
  group. The anchored bare-identifier patterns are modelled directly by
  `IsVideoId`. The leftmost
  match wins, and at one position the alternatives are tried in order.
- **URL templates.** These are the watch URL, the `maxresdefault` thumbnail,
  and the five-tier thumbnail table with its fallback to `hq`.
- **Cards.** `createPortfolioCard` builds a card record around a new `Image`
  object. `renderVideoPortfolio` replaces a container's children with the
  cards that succeed, in input order. The card loop of `initVideoPortfolio`
  appends its cards to whatever the container already holds.
- **Lazy loading.** Both loaders move `data-src` into `src` on the images
  they observe, in place. The portfolio loader swaps only a non-empty
  `data-src`, and swaps everything at once when observers are unavailable.
  The page loader swaps unconditionally and stops observing the image.
- **Page state.** This covers:
  - the active navigation link on scroll and on click;
  - the dark/light theme toggle with its stored preference;
  - opening and closing modals, including Escape.

The theme button labels are the characters `script.js` actually contains.
Those are the UTF-8 bytes of a sun and of a crescent moon read back as
Windows-1252 text (`â˜€ï¸ Light`, `ðŸŒ™ Dark`), which is what the page shows.
They are not the emoji that were evidently intended.

Strings are `seq<char>`. The document is reduced to classes that hold the
attributes the scripts read and write. Lookups the scripts make in
the document become arguments. A container looked up by
`getElementById` or `querySelector` is passed in, and is `null` when there
is none. The theme toggle is told whether its button exists. A link click
is given the set of element identifiers in the document.

## Model

| member | source | states |
|---|---|---|
| YouTubePortfolio.ExtractYouTubeId | youtube-portfolio.js:14-33 | any identifier found is 11 characters of `[a-zA-Z0-9_-]` |
| YouTubePortfolio.ExtractedIdOccursInInput | youtube-portfolio.js:18-30 | an identifier found occurs, in order, in the trimmed input |
| YouTubePortfolio.MatchTrimmed | youtube-portfolio.js:20-32 | the three forms tried on the trimmed text; a result is a valid identifier taken from that text |
| YouTubePortfolio.GetYouTubeWatchUrl | youtube-portfolio.js:57-60 | the watch URL is empty exactly for an empty identifier |
| YouTubePortfolio.GetYouTubeThumbnail | youtube-portfolio.js:42-49 | the thumbnail URL is empty exactly for an empty identifier |
| YouTubePortfolio.BlankHasNoId | youtube-portfolio.js:15-18 | input made only of white space yields no identifier |
| YouTubePortfolio.BareIdIsItsOwnId | youtube-portfolio.js:28-30 | a valid bare identifier is returned unchanged |
| YouTubePortfolio.BareIdMustBeWholeInput | youtube-portfolio.js:29 | the bare form is anchored: twelve identifier characters yield nothing |
| YouTubePortfolio.SurroundingSpaceIsIgnored | youtube-portfolio.js:17-18 | white space around any input never changes the result |
| YouTubePortfolio.WatchUrlHasNoShortLink | youtube-portfolio.js:20-22 | a watch URL, even one whose identifier runs on, never matches the short-link form |
| YouTubePortfolio.WatchUrlMatchesAt12 | youtube-portfolio.js:24-26 | in a watch URL the watch/embed pattern matches first at `youtube.com/watch?v=` and captures the identifier |
| YouTubePortfolio.FoundByShortLink | youtube-portfolio.js:20-22 | whenever the short-link form matches the trimmed input, its capture is the result |
| YouTubePortfolio.FoundByPageLink | youtube-portfolio.js:20-26 | when the short-link form finds nothing and the watch/embed form matches, that capture is the result |
| YouTubePortfolio.WatchUrlGivesId | youtube-portfolio.js:24-26 | a watch URL gives its 11-character identifier, even when more identifier characters follow |
| YouTubePortfolio.WatchUrlRoundTrip | youtube-portfolio.js:57-60 | round trip: extracting from the generated watch URL of a valid identifier gives that identifier |
| YouTubePortfolio.ShortLinkGivesId | youtube-portfolio.js:20-22 | `https://youtu.be/<id>` followed by anything gives `<id>` |
| YouTubePortfolio.EmbedUrlHasNoShortLink | youtube-portfolio.js:20-22 | an embed URL, with anything free of dots after it, never matches the short-link form |
| YouTubePortfolio.EmbedUrlMatchesAt12 | youtube-portfolio.js:24-26 | in an embed URL, whatever follows the identifier, the second alternative, `youtube.com/embed/`, is the one that matches, and it captures the identifier |
| YouTubePortfolio.EmbedUrlGivesId | youtube-portfolio.js:17-26 | an embed URL gives its identifier, also when a query string (no dot, no trailing white space) follows it |
| YouTubePortfolio.ShortLinkTakesPrecedence | youtube-portfolio.js:20-26 | when a watch URL and a short link both occur, the short link's identifier wins: the order of the forms is observable |
| YouTubePortfolio.ShortLinkAfterWatchUrl | youtube-portfolio.js:20-22 | the short-link search passes over a watch URL and finds the short link after it |
| YouTubePortfolio.CardFor | youtube-portfolio.js:68-125 | no card exactly when URL or title is missing or extraction fails; alt and heading are the title; the description element exists only for a non-empty description and holds exactly that text |
| YouTubePortfolio.CardBelongsToVideo | youtube-portfolio.js:76-88 | the card's link is the watch URL of the identifier extracted from the input URL (not the input URL), opens in a new tab with `noopener noreferrer`, and extracts back to that identifier; its thumbnail is that identifier's |
| YouTubePortfolio.ShortLinkCardLinksToWatchPage | youtube-portfolio.js:82-87 | the card of a short link links to the watch page of its video, which differs from the short link given |
| YouTubePortfolio.CreatePortfolioCard | youtube-portfolio.js:68-132 | the card is `CardFor`'s, around a new image of class `video-portfolio-thumbnail` showing the placeholder with the thumbnail staged in `data-src` |
| YouTubePortfolio.PortfolioSwap | youtube-portfolio.js:144-147 | a non-empty `data-src` becomes `src` and is removed; other images unchanged; nothing is staged afterwards |
| YouTubePortfolio.PortfolioSwapIdempotent | youtube-portfolio.js:156-159 | swapping twice is swapping once |
| YouTubePortfolio.PortfolioObserver.OnEntry | youtube-portfolio.js:152-162 | an intersecting staged image is swapped and unobserved; otherwise nothing changes |
| YouTubePortfolio.InitPortfolioLazyLoad | youtube-portfolio.js:138-168 | fallback swaps exactly the selected images; otherwise a new observer watches exactly them and nothing changes yet |
| YouTubePortfolio.AddCard | youtube-portfolio.js:188-190 | one turn of the card loop: earlier cards are kept, the item's card (if any) is appended, and its image is new and shared with no other card |
| Collections.FilterMap | youtube-portfolio.js:187-190 | the reference definition of the card loop: the successful results, in order, never more than the items |
| YouTubePortfolio.BuildCards | youtube-portfolio.js:186-190 | the cards are the successful cards of the items in order, each with its own new staged image |
| YouTubePortfolio.RenderVideoPortfolio | youtube-portfolio.js:176-194 | nothing without a container; otherwise children are exactly the successful cards in order, images distinct and new, lazy loading applied |
| YouTubePortfolio.RenderTwice | youtube-portfolio.js:183-190 | after two renderings only the second one's cards remain |
| Collections.FilterMapMembers | youtube-portfolio.js:187-190 | a card is rendered exactly when some item produces it |
| Collections.FilterMapCount | youtube-portfolio.js:187-190 | the number of cards is the number of items minus the items that fail |
| Collections.FilterMapSnoc | youtube-portfolio.js:187-190 | one more item adds its card at the end, or nothing when it fails |
| Collections.FilterMapAppend | script.js:391-420 | cards of two item lists appended one after the other are the cards of the joined list |
| Text.TrimIgnoresSurroundingSpace | youtube-portfolio.js:18 | trimming ignores white space added on either side |
| Text.Trim | youtube-portfolio.js:18 | the trimmed text is no longer than the input and neither starts nor ends with white space |
| Text.TrimStartDropsSpace | youtube-portfolio.js:18 | trimming the front removes exactly a prefix of white space and keeps the rest |
| Text.TrimEndDropsSpace | youtube-portfolio.js:18 | trimming the back removes exactly a suffix of white space and keeps the front |
| Text.TrimOfPadded | youtube-portfolio.js:18 | white space, a core that neither starts nor ends with white space, white space: trimming gives the core |
| Text.TrimIsSlice | youtube-portfolio.js:18 | the trimmed text is a slice of the input with only white space cut off at both ends |
| UrlPatterns.Search | youtube-portfolio.js:21 | a capture returned by `match` was taken right after a marker occurrence |
| UrlPatterns.SearchFinds | youtube-portfolio.js:25 | the match is the one at the leftmost position where the pattern matches |
| UrlPatterns.SearchFails | youtube-portfolio.js:21 | `match` gives nothing when the pattern matches at no position |
| UrlPatterns.SearchFindsAfterPrefix | youtube-portfolio.js:25 | a marker behind a prefix free of the markers' first character, with no earlier alternative there and a capture behind it, is what `match` returns |
| UrlPatterns.CaptureAtIsTheCapture | script.js:323 | the group captures exactly one thing at a position, and is found whenever there is one |
| UrlPatterns.MatchAtFirstMarker | script.js:323 | at one position the first alternative present decides the capture |
| VideoUtilities.ExtractYouTubeVideoId | script.js:318-334 | nothing for empty input; any result is a non-empty run free of `&?#` and newline taken from the input |
| VideoUtilities.BareIdUnchanged | script.js:324 | a valid bare identifier is returned unchanged |
| VideoUtilities.IdTextOfOtherLengthHasNone | script.js:324-333 | identifier text of any length other than 11 yields nothing |
| VideoUtilities.LinkAfterPrefix | script.js:323-331 | behind a prefix with no `y`, the first link marker present and a delimited run give the whole run, whatever its length |
| VideoUtilities.WatchUrlGivesRun | script.js:323 | a watch URL gives the run after `v=` up to the first delimiter |
| VideoUtilities.ShortLinkGivesRun | script.js:323 | a short link gives the run after `youtu.be/` |
| VideoUtilities.EmbedUrlGivesRun | script.js:323 | an embed URL gives the run after `embed/` |
| VideoUtilities.WatchUrlRoundTrip | script.js:323 | round trip with the generated watch URL of a valid identifier |
| VideoUtilities.LongRunIsKeptWhole | script.js:323 | a 12-character identifier run is returned whole, while `extractYouTubeID` returns its first 11 characters |
| VideoUtilities.GetYouTubeThumbnailUrl | script.js:337-349 | nothing exactly for an empty identifier; otherwise one of the table's URLs; the quality defaults to `hq` |
| VideoUtilities.ThumbnailTiers | script.js:337-346 | each of the five keys gives its own `img.youtube.com/vi/<id>/<tier>.jpg` URL, and omitting the key means `hq` |
| VideoUtilities.UnknownQualityFallsBack | script.js:348 | any other key gives the `hq` URL |
| VideoUtilities.MaxTierIsPortfolioThumbnail | script.js:341 | the `max` tier equals the thumbnail of `getYouTubeThumbnail` |
| VideoUtilities.ThumbnailUrlDeterminesId | script.js:340-348 | two identifiers with the same thumbnail URL of a tier are equal |
| VideoUtilities.LegacyCardFor | script.js:391-402 | a card exactly when extraction succeeds; href is the input URL, opened in a new tab with `noopener noreferrer`, title attribute `Watch: <title>`, thumbnail the `hq` URL of the identifier |
| VideoUtilities.AppendPortfolioCards | script.js:391-420 | the container's children become the old children followed by the cards, in order; nothing without a container |
| VideoUtilities.InitVideoPortfolio | script.js:352-420 | the sample cards are appended after the existing children |
| VideoUtilities.SampleUrlsGiveIds | script.js:357-388 | every sample URL gives its identifier |
| VideoUtilities.SampleIdIsId | script.js:357-388 | each sample identifier is a valid 11-character identifier |
| VideoUtilities.SampleUrlGivesId | script.js:357-388 | each sample URL gives its own identifier |
| VideoUtilities.SamplePortfolioCards | script.js:357-399 | all six sample entries become cards, in order, linking to their own URLs with their `hq` thumbnails |
| VideoUtilities.NoCookieLinkHasNoId | youtube-portfolio.js:9-33 | neither extractor finds an identifier in `https://www.youtube-nocookie.com/embed/<id>`, whatever the identifier |
| LazyLoad.LazySwap | script.js:265-267 | `data-src` is removed and its value, or `null` when absent, becomes `src` |
| LazyLoad.SwapsAgreeOnStagedImages | script.js:265-267 | on a non-empty `data-src` both lazy loaders do the same |
| LazyLoad.SecondSwapLosesSource | script.js:266-268 | a second swap would lose the loaded source, which is why the image is unobserved |
| LazyLoad.ImageObserver.OnEntry | script.js:262-271 | an intersecting image is swapped and unobserved, so it is swapped at most once; every observed image keeps a `data-src` |
| LazyLoad.InitLazyLoad | script.js:259-274 | a new observer watches exactly the images with `data-src` |
| Navigation.HrefTarget | script.js:38 | the target is the `href` without its first character |
| Navigation.ActiveSectionOf | script.js:27-34 | the reference definition of the scroll rule: a non-empty result is the name of a reached section |
| Navigation.ActiveSectionIsLastReached | script.js:27-34 | the current section is the last one reached, or `""` when none is |
| Navigation.CurrentSection | script.js:27-34 | the loop computes the current section |
| Navigation.OnScroll | script.js:26-41 | afterwards exactly the links naming the current section are active |
| Navigation.OnLinkClick | script.js:10-22 | when the target element exists the clicked link is the only active one; otherwise nothing changes |
| ThemeToggle.SavedTheme | script.js:228 | the stored theme if non-empty, otherwise dark |
| ThemeToggle.NextTheme | script.js:233 | light exactly from dark; always dark or light |
| ThemeToggle.LabelFor | script.js:236-239 | the button shows the light label, as script.js spells it, exactly on a dark page, and the dark label otherwise |
| ThemeToggle.TwoTogglesRestore | script.js:232-235 | two toggles restore the theme exactly when it was dark or light |
| ThemeToggle.OtherThemesBecomeDark | script.js:233 | any theme other than dark becomes dark |
| ThemeToggle.ThemeState.Init | script.js:224-239 | nothing without a button; otherwise the saved theme is applied, the button wired and labelled, storage untouched |
| ThemeToggle.ThemeState.Click | script.js:231-237 | the next theme goes to the attribute and storage alike, with the matching label; nothing before the button is wired |
| Modals.Modal.OpenButtonClicked | script.js:154-158 | the listener of an open button: the modal is shown |
| Modals.OpenButtonClick | script.js:152-158 | a click on a button whose `data-modal` is `target` shows exactly the modals with that `id` and leaves every other modal as it was |
| Modals.Modal.CloseButtonClicked | script.js:160-162 | the modal is hidden when it has a close button |
| Modals.Modal.OverlayClicked | script.js:164-168 | the modal is hidden only when the click landed on the overlay itself |
| Modals.KeyDown | script.js:172-178 | Escape leaves no modal shown; any other key changes nothing |

## Left out

- getYouTubeThumbnail's fallback: its doc comment promises a fall back to `hq`, but the code always returns the `maxresdefault` URL. The model follows the code, and `YouTubePortfolio.GetYouTubeThumbnail` returns that one URL.
- youtube-nocookie.com links: the header comment of `youtube-portfolio.js` lists this host as supported, but neither extractor has a pattern for it. The model follows the code. `VideoUtilities.NoCookieLinkHasNoId` states that both extractors return nothing for such a link.
- Non-string arguments (`typeof` checks, `null`/`undefined` inputs) are not modelled. An absent item field is the empty string, which is falsy as well.
- The console diagnostics of `createPortfolioCard` and `renderVideoPortfolio` are left out, being output only.
- Event wiring (`addEventListener`, `DOMContentLoaded`) is left out: each handler is a method called by the caller. Observer geometry (`rootMargin`, thresholds) is left out too: visibility arrives as `isIntersecting`.
- Timers, the typing effect, the form stub, notifications, counters, parallax, scroll reveal, page transitions and the clipboard are outside the modelled core.
- The HTML markup of `initVideoPortfolio` is left out. Its cards are records of the values the markup interpolates. Their text escaping, and the `undefined` printed for a missing description, are not modelled.
- The play icon, the wrapper elements and the CSS classes other than `video-portfolio-thumbnail` are left out; they are styling only. The opacity-only observer of `initVideoPortfolio` is left out for the same reason.
- `module.exports` is not modelled.
- YouTubePortfolio.RenderVideoPortfolio: its lazy loading is applied to the container's card images only. In the source, `initPortfolioLazyLoad` queries the whole document, so other staged thumbnails on the page are not modelled.
- YouTubePortfolio.ExtractYouTubeId: the white-space set of `String.prototype.trim` is written out by hand (the ECMAScript WhiteSpace and LineTerminator characters). A Unicode version that changes the `Zs` category is not followed.
- VideoUtilities.GetYouTubeThumbnailUrl: the quality table is a finite map. Inherited object keys such as `constructor` are not modelled.
- LazyLoad.LazySwap: a missing `data-src` becomes the text `null` in the `src` attribute. The browser's resolution of that text to a URL is not modelled.
- Navigation.CurrentSection: offsets are integers. A fractional `pageYOffset` is not modelled.
- Navigation.OnLinkClick: `getElementById` is the set of element identifiers in the document. `scrollIntoView` is not modelled.
- ThemeToggle.ThemeState.Init: storage is a single optional value for the key `theme`. Storage failures are not modelled.
