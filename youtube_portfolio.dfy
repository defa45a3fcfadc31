/**
 * The video-portfolio utilities of youtube-portfolio.js: identifier
 * extraction, the thumbnail and watch-page URL templates, card construction,
 * rendering into a container, and lazy loading of the card thumbnails.
 */
module YouTubePortfolio {
  import opened Wrappers
  import opened Text
  import opened UrlPatterns
  import opened Dom
  import opened Collections

  // ----- Identifier extraction -----

  /** `/youtu\.be\/([a-zA-Z0-9_-]{11})/` */
  const ShortLink := Pattern([ShortMarker], ElevenIdChars)

  /** `/(?:youtube\.com\/watch\?v=|youtube\.com\/embed\/)([a-zA-Z0-9_-]{11})/` */
  const PageLink := Pattern([WatchMarker, EmbedMarker], ElevenIdChars)

  /**
   * `extractYouTubeID`: the input is trimmed, then the short-link form, the
   * watch-or-embed form and the bare identifier are tried in that order.
   * Any identifier found is eleven characters of `[a-zA-Z0-9_-]`
   * (`ExtractedIdOccursInInput` adds that they are taken from the trimmed
   * input).
   */
  function ExtractYouTubeId(url: string): (r: Option<string>)
    ensures r.Some? ==> IsVideoId(r.value)
  {
    if url == "" then None else MatchTrimmed(Trim(url))
  }

  /** An identifier found is eleven characters that occur, in order, in the trimmed input. */
  lemma ExtractedIdOccursInInput(url: string)
    requires ExtractYouTubeId(url).Some?
    ensures exists j :: OccursAt(Trim(url), j, ExtractYouTubeId(url).value)
  {
  }

  /** The three patterns of `extractYouTubeID`, in order, on the trimmed input `t`. */
  function MatchTrimmed(t: string): (r: Option<string>)
    ensures r.Some? ==> IsVideoId(r.value)
    ensures r.Some? ==> exists j :: OccursAt(t, j, r.value)
  {
    var short := Search(t, ShortLink);
    if short.Some? then short
    else
      var page := Search(t, PageLink);
      if page.Some? then page
      else if IsVideoId(t) then (assert OccursAt(t, 0, t); Some(t))
      else None
  }

  // ----- URL templates -----

  const Https := "https://"
  const Www := Https + "www."
  /** `https://www.youtube.com/watch?v=` */
  const WatchPrefix := Www + WatchMarker
  const ThumbnailPrefix := "https://img.youtube.com/vi/"
  const MaxResSuffix := "/maxresdefault.jpg"

  /** `getYouTubeWatchURL`: empty for an empty identifier. */
  function GetYouTubeWatchUrl(videoId: string): (r: string)
    ensures r == "" <==> videoId == ""
  {
    if videoId == "" then "" else WatchPrefix + videoId
  }

  /** `getYouTubeThumbnail`: the highest-resolution tier; empty for an empty identifier. */
  function GetYouTubeThumbnail(videoId: string): (r: string)
    ensures r == "" <==> videoId == ""
  {
    if videoId == "" then "" else ThumbnailPrefix + videoId + MaxResSuffix
  }

  // ----- Properties of extraction -----

  lemma ShortLinkHasNonIdChar()
    ensures forall n :: 0 <= n < |ShortLink.markers| ==> HasNonIdChar(ShortLink.markers[n])
  {
    assert !IsIdChar(ShortLink.markers[0][5]);
  }

  lemma PageLinkHasNonIdChar()
    ensures forall n :: 0 <= n < |PageLink.markers| ==> HasNonIdChar(PageLink.markers[n])
  {
    assert !IsIdChar(PageLink.markers[0][7]);
    assert !IsIdChar(PageLink.markers[1][7]);
  }

  /** Input that is only white space has no identifier. */
  lemma {:induction false} BlankHasNoId(url: string)
    requires AllSpace(url)
    ensures ExtractYouTubeId(url).None?
  {
    if url != "" {
      assert [] + [] + url == url;
      TrimOfPadded([], [], url);
      assert Trim(url) == [];
      ShortLinkHasNonIdChar();
      PageLinkHasNonIdChar();
      NoMatchInIdText([], ShortLink);
      NoMatchInIdText([], PageLink);
    }
  }

  /** A bare identifier is returned as it is. */
  lemma BareIdIsItsOwnId(id: string)
    requires IsVideoId(id)
    ensures ExtractYouTubeId(id) == Some(id)
  {
    assert !IsSpace(id[0]) && !IsSpace(id[10]);
    TrimOfTrimmed(id);
    ShortLinkHasNonIdChar();
    PageLinkHasNonIdChar();
    assert forall i :: 0 <= i < |id| ==> IsIdChar(id[i]);
    NoMatchInIdText(id, ShortLink);
    NoMatchInIdText(id, PageLink);
  }

  /** The bare form is anchored at both ends: a twelfth identifier character spoils it. */
  lemma BareIdMustBeWholeInput(id: string, c: char)
    requires IsVideoId(id) && IsIdChar(c)
    ensures ExtractYouTubeId(id + [c]).None?
  {
    var s := id + [c];
    assert forall i :: 0 <= i < |s| ==> IsIdChar(s[i]) by {
      forall i | 0 <= i < |s| ensures IsIdChar(s[i]) {
        assert i < 11 ==> s[i] == id[i];
      }
    }
    assert !IsSpace(s[0]) && !IsSpace(s[11]);
    TrimOfTrimmed(s);
    ShortLinkHasNonIdChar();
    PageLinkHasNonIdChar();
    NoMatchInIdText(s, ShortLink);
    NoMatchInIdText(s, PageLink);
    assert !IsVideoId(s);
  }

  /** White space around the input never changes the identifier found. */
  lemma SurroundingSpaceIsIgnored(w1: string, url: string, w2: string)
    requires AllSpace(w1) && AllSpace(w2)
    ensures ExtractYouTubeId(w1 + url + w2) == ExtractYouTubeId(url)
  {
    if url == "" {
      assert w1 + url + w2 == w1 + w2;
      AllSpaceConcat(w1, w2);
      BlankHasNoId(w1 + w2);
    } else {
      TrimIgnoresSurroundingSpace(w1, url, w2);
      assert w1 + url + w2 != "" by {
        assert |w1 + url + w2| >= |url|;
      }
    }
  }

  /** No link marker can start inside the scheme and host prefixes: none of them holds a `y`. */
  lemma PrefixesHaveNoY()
    ensures forall k :: 0 <= k < |Https| ==> Https[k] != 'y'
    ensures forall k :: 0 <= k < |Www| ==> Www[k] != 'y'
  {
  }

  lemma PageLinkStartsWithY()
    ensures forall i :: 0 <= i < |PageLink.markers| ==> |PageLink.markers[i]| > 0 && PageLink.markers[i][0] == 'y'
  {
  }

  /** The marker `youtube.com/watch?v=` and the identifier behind it are what the watch-or-embed form finds in a watch URL. */
  lemma WatchUrlMatchesAt12(id: string, rest: string)
    requires IsVideoId(id)
    ensures Search(WatchPrefix + id + rest, PageLink) == Some(id)
  {
    PrefixesHaveNoY();
    PageLinkStartsWithY();
    IdAfterPrefix(Www, PageLink, 0, id, rest, 'y');
  }

  /** Where `y` and `.` sit in the watch-URL prefix. */
  lemma WatchPrefixChars()
    ensures |WatchPrefix| == 32
    ensures forall k :: 0 <= k < 27 && k != 12 ==> WatchPrefix[k] != 'y'
    ensures WatchPrefix[17] != '.'
  {
    PrefixesHaveNoY();
    assert forall k :: 12 <= k < 32 ==> WatchPrefix[k] == WatchMarker[k - 12];
  }

  /**
   * No `youtu.be/` starts inside a leading watch-URL prefix, provided none
   * of the five characters after it is a dot.
   */
  lemma NoShortLinkInWatchPrefix(s: string)
    requires |WatchPrefix| <= |s| && forall k :: 0 <= k < |WatchPrefix| ==> s[k] == WatchPrefix[k]
    requires forall k :: |WatchPrefix| <= k < |WatchPrefix| + 5 && k < |s| ==> s[k] != '.'
    ensures forall j :: 0 <= j < |WatchPrefix| ==> PatternAt(s, j, ShortLink).None?
  {
    WatchPrefixChars();
    NoMatchWithout(s, ShortLink, 0, 12, 0, 'y');
    NoMatchWithout(s, ShortLink, 12, 13, 5, '.');
    NoMatchWithout(s, ShortLink, 13, 27, 0, 'y');
    NoMatchWithout(s, ShortLink, 27, 32, 5, '.');
  }

  /** A watch URL has no `youtu.be/` in it, nor does one followed by more identifier characters. */
  lemma WatchUrlHasNoShortLink(id: string, rest: string)
    requires IsVideoId(id)
    requires forall i :: 0 <= i < |rest| ==> IsIdChar(rest[i])
    ensures Search(WatchPrefix + id + rest, ShortLink).None?
  {
    var u := id + rest;
    var s := WatchPrefix + u;
    assert s == WatchPrefix + id + rest;
    assert forall k :: 0 <= k < |u| ==> IsIdChar(u[k]) by {
      forall k | 0 <= k < |u| ensures IsIdChar(u[k]) {
        if k < 11 {
          assert u[k] == id[k];
        } else {
          assert u[k] == rest[k - 11];
        }
      }
    }
    assert forall k :: 0 <= k < 32 ==> s[k] == WatchPrefix[k];
    assert forall k :: 32 <= k < |s| ==> s[k] == u[k - 32];
    WatchPrefixChars();
    NoShortLinkInWatchPrefix(s);
    forall j | 32 <= j <= |s| ensures PatternAt(s, j, ShortLink).None? {
      assert j + 5 < |s| ==> s[j + 5] == u[j + 5 - 32];
      NotMarkedAt(s, j, ShortLink.markers[0], 5);
      NoMarkerNoMatch(s, j, ShortLink);
    }
    SearchFails(s, ShortLink);
  }

  /**
   * A watch URL gives its identifier, and so does one whose identifier runs
   * on: the group takes exactly eleven characters.
   */
  lemma WatchUrlGivesId(id: string, rest: string)
    requires IsVideoId(id)
    requires forall i :: 0 <= i < |rest| ==> IsIdChar(rest[i])
    ensures ExtractYouTubeId(WatchPrefix + id + rest) == Some(id)
  {
    WatchUrlFacts(id, rest);
    FoundByPageLink(WatchPrefix + id + rest, id);
  }

  lemma WatchUrlFacts(id: string, rest: string)
    requires IsVideoId(id)
    requires forall i :: 0 <= i < |rest| ==> IsIdChar(rest[i])
    ensures var s := WatchPrefix + id + rest;
      s != "" && Trim(s) == s && Search(s, ShortLink).None? && Search(s, PageLink) == Some(id)
  {
    WatchUrlIsTrimmed(id, rest);
    WatchUrlHasNoShortLink(id, rest);
    WatchUrlMatchesAt12(id, rest);
    assert |WatchPrefix + id + rest| > 0;
  }

  /** The second form decides when the first finds nothing in the trimmed input. */
  lemma FoundByPageLink(url: string, id: string)
    requires url != ""
    requires Search(Trim(url), ShortLink).None? && Search(Trim(url), PageLink) == Some(id)
    ensures ExtractYouTubeId(url) == Some(id)
  {
  }

  /** The first form decides whenever it finds something in the trimmed input. */
  lemma FoundByShortLink(url: string, id: string)
    requires url != "" && Search(Trim(url), ShortLink) == Some(id)
    ensures ExtractYouTubeId(url) == Some(id)
  {
  }

  lemma WatchUrlIsTrimmed(id: string, rest: string)
    requires IsVideoId(id)
    requires forall i :: 0 <= i < |rest| ==> IsIdChar(rest[i])
    ensures Trim(WatchPrefix + id + rest) == WatchPrefix + id + rest
  {
    var s := WatchPrefix + id + rest;
    assert s[0] == 'h';
    assert !IsSpace(s[|s| - 1]) by {
      if rest == [] {
        assert s[|s| - 1] == id[10];
      } else {
        assert s[|s| - 1] == rest[|rest| - 1];
      }
    }
    TrimOfTrimmed(s);
  }

  /** Round trip: the identifier extracted from a generated watch URL is the original one. */
  lemma WatchUrlRoundTrip(id: string)
    requires IsVideoId(id)
    ensures ExtractYouTubeId(GetYouTubeWatchUrl(id)) == Some(id)
  {
    assert GetYouTubeWatchUrl(id) == WatchPrefix + id + "";
    WatchUrlGivesId(id, "");
  }

  /** `https://youtu.be/` */
  const ShortLinkPrefix := Https + ShortMarker
  /** `https://www.youtube.com/embed/` */
  const EmbedPrefix := Www + EmbedMarker

  /** A short link gives its identifier, whatever follows the identifier. */
  lemma ShortLinkGivesId(id: string, rest: string)
    requires IsVideoId(id)
    ensures ExtractYouTubeId(ShortLinkPrefix + id + rest) == Some(id)
  {
    var s := ShortLinkPrefix + id + rest;
    ConcatParts(ShortLinkPrefix, id, rest);
    assert !IsSpace(s[0]) && !IsSpace(s[27]);
    TrimKeepsFront(s, 27);
    var t := Trim(s);
    assert t == Https + ShortMarker + id + t[28..] by {
      assert t[..28] == s[..28] == ShortLinkPrefix + id;
      assert t == t[..28] + t[28..];
    }
    PrefixesHaveNoY();
    IdAfterPrefix(Https, ShortLink, 0, id, t[28..], 'y');
    FoundByShortLink(s, id);
  }

  /** Where `y` and `.` sit in the embed-URL prefix. */
  lemma EmbedPrefixChars()
    ensures |EmbedPrefix| == 30
    ensures forall k :: 0 <= k < 25 && k != 12 ==> EmbedPrefix[k] != 'y'
    ensures EmbedPrefix[17] != '.'
  {
    PrefixesHaveNoY();
    assert forall k :: 12 <= k < 30 ==> EmbedPrefix[k] == EmbedMarker[k - 12];
  }

  /** An embed URL has no `youtu.be/` in it, provided nothing after the identifier is a dot. */
  lemma EmbedUrlHasNoShortLink(id: string, rest: string)
    requires IsVideoId(id)
    requires forall k :: 0 <= k < |rest| ==> rest[k] != '.'
    ensures Search(EmbedPrefix + id + rest, ShortLink).None?
  {
    var s := EmbedPrefix + id + rest;
    EmbedPrefixChars();
    assert forall k :: 0 <= k < 30 ==> s[k] == EmbedPrefix[k];
    assert forall k :: 30 <= k < 41 ==> s[k] == id[k - 30];
    assert forall k :: 41 <= k < |s| ==> s[k] == rest[k - 41];
    NoMatchWithout(s, ShortLink, 0, 12, 0, 'y');
    NoMatchWithout(s, ShortLink, 12, 13, 5, '.');
    NoMatchWithout(s, ShortLink, 13, 25, 0, 'y');
    NoMatchWithout(s, ShortLink, 25, |s| + 1, 5, '.');
    SearchFails(s, ShortLink);
  }

  /**
   * Behind `youtube.com/embed/`, which is not `youtube.com/watch?v=`, the
   * identifier is found, whatever follows it.
   */
  lemma EmbedUrlMatchesAt12(id: string, rest: string)
    requires IsVideoId(id)
    ensures Search(EmbedPrefix + id + rest, PageLink) == Some(id)
  {
    var s := Www + EmbedMarker + id + rest;
    assert s == EmbedPrefix + id + rest;
    ConcatParts(Www, EmbedMarker, id + rest);
    assert s == Www + EmbedMarker + (id + rest);
    assert s[24] == s[12..30][12];
    NotMarkedAt(s, 12, WatchMarker, 12);
    PrefixesHaveNoY();
    PageLinkStartsWithY();
    IdAfterPrefix(Www, PageLink, 1, id, rest, 'y');
  }

  /**
   * An embed URL gives its identifier, also with a query string behind it
   * (anything without a dot that does not end in white space).
   */
  lemma EmbedUrlGivesId(id: string, rest: string)
    requires IsVideoId(id)
    requires forall k :: 0 <= k < |rest| ==> rest[k] != '.'
    requires rest == [] || !IsSpace(rest[|rest| - 1])
    ensures ExtractYouTubeId(EmbedPrefix + id + rest) == Some(id)
  {
    var s := EmbedPrefix + id + rest;
    EmbedUrlIsTrimmed(id, rest);
    EmbedUrlHasNoShortLink(id, rest);
    EmbedUrlMatchesAt12(id, rest);
    FoundByPageLink(s, id);
  }

  lemma EmbedUrlIsTrimmed(id: string, rest: string)
    requires IsVideoId(id)
    requires rest == [] || !IsSpace(rest[|rest| - 1])
    ensures Trim(EmbedPrefix + id + rest) == EmbedPrefix + id + rest
  {
    var s := EmbedPrefix + id + rest;
    assert s[0] == 'h';
    assert !IsSpace(s[|s| - 1]) by {
      if rest == [] {
        assert s[|s| - 1] == id[10];
      } else {
        assert s[|s| - 1] == rest[|rest| - 1];
      }
    }
    TrimOfTrimmed(s);
  }

  /**
   * The short-link form is tried first over the whole input: a `youtu.be/`
   * link wins even when a watch URL comes before it.
   */
  lemma ShortLinkTakesPrecedence(a: string, b: string)
    requires IsVideoId(a) && IsVideoId(b)
    ensures ExtractYouTubeId(WatchPrefix + a + " " + ShortLinkPrefix + b) == Some(b)
  {
    var s := WatchPrefix + a + " " + ShortLinkPrefix + b;
    assert !IsSpace(s[0]) && !IsSpace(s[|s| - 1]);
    TrimOfTrimmed(s);
    ShortLinkAfterWatchUrl(a, b);
    FoundByShortLink(s, b);
  }

  /** The short-link form finds the identifier of the short link that follows a watch URL. */
  lemma ShortLinkAfterWatchUrl(a: string, b: string)
    requires IsVideoId(a) && IsVideoId(b)
    ensures Search(WatchPrefix + a + " " + ShortLinkPrefix + b, ShortLink) == Some(b)
  {
    var s := WatchPrefix + a + " " + ShortLinkPrefix + b;
    NoShortLinkBefore(a, b);
    ShortLinkAt52(a, b);
    SearchFinds(s, ShortLink, 52);
  }

  /** The short link's marker starts at position 52, and its identifier behind it. */
  lemma ShortLinkAt52(a: string, b: string)
    requires IsVideoId(a) && IsVideoId(b)
    ensures PatternAt(WatchPrefix + a + " " + ShortLinkPrefix + b, 52, ShortLink) == Some(b)
  {
    var s := WatchPrefix + a + " " + ShortLinkPrefix + b;
    var pre := WatchPrefix + a + " " + Https;
    assert s == pre + ShortMarker + b + "";
    ConcatParts(pre, ShortMarker, b);
    CaptureAtIsTheCapture(s, 61, ElevenIdChars, b);
  }

  /** In a watch URL, a space and a short link, no `youtu.be/` starts before the short link's own. */
  lemma NoShortLinkBefore(a: string, b: string)
    requires IsVideoId(a) && IsVideoId(b)
    ensures forall j :: 0 <= j < 52 ==> PatternAt(WatchPrefix + a + " " + ShortLinkPrefix + b, j, ShortLink).None?
  {
    var s := WatchPrefix + a + " " + ShortLinkPrefix + b;
    WatchPrefixChars();
    assert forall k :: 0 <= k < 32 ==> s[k] == WatchPrefix[k];
    assert forall k :: 32 <= k < 43 ==> s[k] == a[k - 32];
    NoShortLinkInWatchPrefix(s);
    NoMatchWithout(s, ShortLink, 32, 38, 5, '.');
    PrefixesHaveNoY();
    assert s[43] == ' ';
    assert forall k :: 44 <= k < 52 ==> s[k] == Https[k - 44];
    NoMatchWithout(s, ShortLink, 38, 43, 5, '.');
    NoMatchWithout(s, ShortLink, 43, 52, 0, 'y');
  }

  // ----- Cards -----

  /** One entry of the video list; an absent field is the empty string (both are falsy). */
  datatype VideoItem = VideoItem(youtubeUrl: string, title: string, description: string)

  /**
   * What a card shows and links to: the link's `href`, `target` and `rel`, the
   * image's `alt` text and the thumbnail staged in its `data-src`, the title,
   * and the description element when there is one.
   */
  datatype CardData = CardData(href: string, target: string, rel: string, alt: string,
                               thumbnail: string, title: string, description: Option<string>)

  /** A card element: its fixed attributes and the image element that lazy loading updates. */
  datatype Card = Card(data: CardData, image: Image)

  /** The 1x1 transparent GIF a card image shows until its thumbnail is loaded. */
  const Placeholder := "data:image/gif;base64,R0lGODlhAQABAIAAAAAAAP///yH5BAEAAAAALAAAAAABAAEAAAIBRAA7"
  const ThumbnailClass := "video-portfolio-thumbnail"

  /**
   * The card `createPortfolioCard` builds for `item`, or none. There is none
   * exactly when the URL or the title is missing or no identifier can be
   * extracted. Otherwise the link and the thumbnail both belong to the video
   * the input names, and the description element exists only for a
   * non-empty description.
   */
  function CardFor(item: VideoItem): (r: Option<CardData>)
    ensures r.None? <==> item.youtubeUrl == "" || item.title == "" || ExtractYouTubeId(item.youtubeUrl).None?
    ensures r.Some? ==> r.value.thumbnail != ""
    ensures r.Some? ==> r.value.alt == item.title && r.value.title == item.title
    ensures r.Some? ==> r.value.description == (if item.description == "" then None else Some(item.description))
  {
    if item.youtubeUrl == "" || item.title == "" then None
    else
      match ExtractYouTubeId(item.youtubeUrl)
      case None => None
      case Some(id) =>
        Some(CardData(GetYouTubeWatchUrl(id), "_blank", "noopener noreferrer", item.title,
                      GetYouTubeThumbnail(id), item.title,
                      if item.description == "" then None else Some(item.description)))
  }

  /**
   * The link and the thumbnail of a card both belong to the video its input
   * URL names. The link is the canonical watch URL of the extracted
   * identifier, not the input URL, opened in a new tab without an opener,
   * and it extracts back to the same identifier.
   */
  lemma CardBelongsToVideo(item: VideoItem)
    requires CardFor(item).Some?
    ensures ExtractYouTubeId(item.youtubeUrl).Some?
    ensures var id := ExtractYouTubeId(item.youtubeUrl).value;
      var card := CardFor(item).value;
      card.href == GetYouTubeWatchUrl(id) && ExtractYouTubeId(card.href) == Some(id)
      && card.thumbnail == GetYouTubeThumbnail(id)
      && card.target == "_blank" && card.rel == "noopener noreferrer"
  {
    var id := ExtractYouTubeId(item.youtubeUrl).value;
    WatchUrlRoundTrip(id);
  }

  /**
   * A card built from a short link does not link to that short link: its
   * link is the watch URL of the same video.
   */
  lemma ShortLinkCardLinksToWatchPage(id: string, title: string, description: string)
    requires IsVideoId(id) && title != ""
    ensures var item := VideoItem(ShortLinkPrefix + id, title, description);
      CardFor(item).Some? && CardFor(item).value.href == GetYouTubeWatchUrl(id)
      && CardFor(item).value.href != item.youtubeUrl
  {
    ShortLinkGivesId(id, "");
    assert ShortLinkPrefix + id + "" == ShortLinkPrefix + id;
    var url := ShortLinkPrefix + id;
    assert url[8] == 'y' && GetYouTubeWatchUrl(id)[8] == 'w';
  }

  /**
   * `createPortfolioCard`: builds the card for `item` around a new image that
   * shows the placeholder and stages the thumbnail in `data-src`.
   */
  method CreatePortfolioCard(item: VideoItem) returns (card: Option<Card>)
    ensures card.None? <==> CardFor(item).None?
    ensures card.Some? ==> card.value.data == CardFor(item).value && fresh(card.value.image)
    ensures card.Some? ==> card.value.image.className == ThumbnailClass && card.value.image.alt == item.title
    ensures card.Some? ==> card.value.image.State() == ImageState(Placeholder, Some(card.value.data.thumbnail))
  {
    if item.youtubeUrl == "" || item.title == "" {
      return None;
    }
    var videoId := ExtractYouTubeId(item.youtubeUrl);
    if videoId.None? {
      return None;
    }
    var watchUrl := GetYouTubeWatchUrl(videoId.value);
    var thumbnailUrl := GetYouTubeThumbnail(videoId.value);
    var img := new Image(ThumbnailClass, item.title, Placeholder, Some(thumbnailUrl));
    var description := if item.description == "" then None else Some(item.description);
    card := Some(Card(CardData(watchUrl, "_blank", "noopener noreferrer", item.title, thumbnailUrl,
                               item.title, description), img));
  }

  // ----- Lazy loading -----

  /** The image still has a truthy `data-src` to load. */
  predicate Staged(st: ImageState) {
    st.dataSrc.Some? && st.dataSrc.value != ""
  }

  /**
   * The swap `initPortfolioLazyLoad` performs on one image: a truthy
   * `data-src` becomes the `src` and is removed; any other image is left as
   * it is. Afterwards nothing is staged, so the swap happens at most once.
   */
  function PortfolioSwap(st: ImageState): (r: ImageState)
    ensures Staged(st) ==> r.src == st.dataSrc.value && r.dataSrc.None?
    ensures !Staged(st) ==> r == st
    ensures !Staged(r)
  {
    if Staged(st) then ImageState(st.dataSrc.value, None) else st
  }

  /** Swapping again changes nothing. */
  lemma PortfolioSwapIdempotent(st: ImageState)
    ensures PortfolioSwap(PortfolioSwap(st)) == PortfolioSwap(st)
  {
  }

  /** The images `.video-portfolio-thumbnail[data-src]` selects. */
  predicate Selected(img: Image)
    reads img
  {
    img.className == ThumbnailClass && img.dataSrc.Some?
  }

  /**
   * The intersection observer `initPortfolioLazyLoad` creates, reduced to the
   * set of images it still observes; the viewport geometry that decides when
   * an entry intersects is the host's and arrives as `isIntersecting`.
   */
  class PortfolioObserver {
    var targets: set<Image>

    constructor (targets: set<Image>)
      ensures this.targets == targets
    {
      this.targets := targets;
    }

    /**
     * The callback for one entry: an intersecting image with a truthy
     * `data-src` is swapped and no longer observed; anything else is left
     * as it is and stays observed.
     */
    method OnEntry(img: Image, isIntersecting: bool)
      requires img in targets
      modifies this, img
      ensures img.State() == if isIntersecting then PortfolioSwap(old(img.State())) else old(img.State())
      ensures targets == if isIntersecting && Staged(old(img.State())) then old(targets) - {img} else old(targets)
    {
      if isIntersecting {
        if img.dataSrc.Some? && img.dataSrc.value != "" {
          img.src := img.dataSrc.value;
          img.dataSrc := None;
          targets := targets - {img};
        }
      }
    }
  }

  /**
   * `initPortfolioLazyLoad` over the images `images` of the page. Without
   * intersection observers every selected image is swapped at once;
   * otherwise a new observer watches exactly the selected images and no
   * image changes yet.
   */
  method InitPortfolioLazyLoad(images: seq<Image>, observerSupported: bool) returns (observer: PortfolioObserver?)
    modifies set img | img in images
    ensures !observerSupported ==> observer == null
    ensures !observerSupported ==> forall img :: img in images ==>
      img.State() == if old(Selected(img)) then PortfolioSwap(old(img.State())) else old(img.State())
    ensures observerSupported ==> fresh(observer)
    ensures observerSupported ==> observer.targets == (set img | img in images && old(Selected(img)))
    ensures observerSupported ==> forall img :: img in images ==> img.State() == old(img.State())
  {
    if !observerSupported {
      var i := 0;
      while i < |images|
        invariant 0 <= i <= |images|
        invariant forall img :: img in images ==>
          img.State() == if img in images[..i] && old(Selected(img)) then PortfolioSwap(old(img.State()))
                         else old(img.State())
      {
        var img := images[i];
        if img.className == ThumbnailClass && img.dataSrc.Some? {
          if img.dataSrc.value != "" {
            img.src := img.dataSrc.value;
            img.dataSrc := None;
          }
        }
        assert images[..i + 1] == images[..i] + [img];
        i := i + 1;
      }
      assert images[..|images|] == images;
      return null;
    }
    observer := new PortfolioObserver(set img | img in images && Selected(img));
  }

  // ----- Rendering -----

  /** The cards a render produces for `items`: one per item that yields a card, in input order. */
  function RenderedCards(items: seq<VideoItem>): seq<CardData> {
    FilterMap(items, CardFor)
  }

  function DataOf(cards: seq<Card>): (r: seq<CardData>)
    ensures |r| == |cards| && forall k :: 0 <= k < |cards| ==> r[k] == cards[k].data
  {
    seq(|cards|, k requires 0 <= k < |cards| => cards[k].data)
  }

  function ImagesOf(cards: seq<Card>): (r: seq<Image>)
    ensures |r| == |cards| && forall k :: 0 <= k < |cards| ==> r[k] == cards[k].image
  {
    seq(|cards|, k requires 0 <= k < |cards| => cards[k].image)
  }

  /** A card as `createPortfolioCard` leaves it: thumbnail staged, placeholder shown. */
  predicate FreshlyBuilt(c: Card)
    reads c.image
  {
    c.image.className == ThumbnailClass && c.image.alt == c.data.alt && c.data.thumbnail != ""
    && c.image.State() == ImageState(Placeholder, Some(c.data.thumbnail))
  }

  predicate AllFreshlyBuilt(cards: seq<Card>)
    reads ImagesOf(cards)
  {
    forall k :: 0 <= k < |cards| ==> FreshlyBuilt(cards[k])
  }

  /** No two cards share an image element. */
  predicate DistinctImages(cards: seq<Card>) {
    forall k, l :: 0 <= k < l < |cards| ==> cards[k].image != cards[l].image
  }

  lemma AppendCard(cards: seq<Card>, c: Card)
    requires AllFreshlyBuilt(cards) && DistinctImages(cards) && FreshlyBuilt(c)
    requires forall k :: 0 <= k < |cards| ==> cards[k].image != c.image
    ensures AllFreshlyBuilt(cards + [c]) && DistinctImages(cards + [c])
    ensures DataOf(cards + [c]) == DataOf(cards) + [c.data]
  {
  }

  /**
   * One turn of the card loop of `renderVideoPortfolio`: the card
   * `createPortfolioCard` builds for `item`, if any, is appended, with an
   * image no earlier card has.
   */
  method AddCard(done: seq<VideoItem>, cards: seq<Card>, item: VideoItem) returns (next: seq<Card>)
    requires DataOf(cards) == RenderedCards(done)
    requires AllFreshlyBuilt(cards) && DistinctImages(cards)
    ensures DataOf(next) == RenderedCards(done + [item])
    ensures AllFreshlyBuilt(next) && DistinctImages(next)
    ensures |cards| <= |next| && next[..|cards|] == cards
    ensures forall k :: |cards| <= k < |next| ==> fresh(next[k].image)
  {
    var card := CreatePortfolioCard(item);
    FilterMapSnoc(done, item, CardFor);
    next := cards;
    if card.Some? {
      AppendCard(cards, card.value);
      next := cards + [card.value];
    }
  }

  /**
   * The card loop of `renderVideoPortfolio`: one card per item that
   * `createPortfolioCard` accepts, in order, each with its own new image.
   */
  method BuildCards(items: seq<VideoItem>) returns (cards: seq<Card>)
    ensures DataOf(cards) == RenderedCards(items)
    ensures forall k :: 0 <= k < |cards| ==> fresh(cards[k].image)
    ensures AllFreshlyBuilt(cards) && DistinctImages(cards)
  {
    cards := [];
    var i := 0;
    while i < |items|
      invariant 0 <= i <= |items|
      invariant DataOf(cards) == RenderedCards(items[..i])
      invariant forall k :: 0 <= k < |cards| ==> fresh(cards[k].image)
      invariant AllFreshlyBuilt(cards) && DistinctImages(cards)
    {
      assert items[..i + 1] == items[..i] + [items[i]];
      cards := AddCard(items[..i], cards, items[i]);
      i := i + 1;
    }
    assert items[..|items|] == items;
  }

  /**
   * `renderVideoPortfolio` on the element `getElementById` resolved (null
   * when there is none, and then nothing changes). The container's previous
   * children are discarded and replaced by the cards of `items`, in order,
   * each with its own new image; then lazy loading starts over those images:
   * without intersection observers every thumbnail is shown at once,
   * otherwise every card image is observed and still shows the placeholder.
   */
  method RenderVideoPortfolio(container: Container?<Card>, items: seq<VideoItem>, observerSupported: bool)
      returns (observer: PortfolioObserver?)
    modifies container
    ensures container == null ==> observer == null
    ensures container != null ==> DataOf(container.children) == RenderedCards(items)
    ensures container != null ==> forall k :: 0 <= k < |container.children| ==>
      fresh(container.children[k].image) && container.children[k].image.alt == container.children[k].data.alt
    ensures container != null ==> forall k, l :: 0 <= k < l < |container.children| ==>
      container.children[k].image != container.children[l].image
    ensures container != null && !observerSupported ==> observer == null
    ensures container != null && !observerSupported ==> forall k :: 0 <= k < |container.children| ==>
      container.children[k].image.State() == ImageState(container.children[k].data.thumbnail, None)
    ensures container != null && observerSupported ==> fresh(observer)
    ensures container != null && observerSupported ==>
      observer.targets == set k | 0 <= k < |container.children| :: container.children[k].image
    ensures container != null && observerSupported ==> forall k :: 0 <= k < |container.children| ==>
      container.children[k].image.State() == ImageState(Placeholder, Some(container.children[k].data.thumbnail))
  {
    if container == null {
      return null;
    }
    var cards := BuildCards(items);
    container.children := cards;
    assert forall k :: 0 <= k < |cards| ==> FreshlyBuilt(cards[k]);
    var images := ImagesOf(container.children);
    assert forall k :: 0 <= k < |container.children| ==> container.children[k].image in images;
    observer := InitPortfolioLazyLoad(images, observerSupported);
  }

  /** Rendering discards what was there: after two renderings only the second one's cards remain. */
  method RenderTwice(container: Container<Card>, first: seq<VideoItem>, second: seq<VideoItem>, observerSupported: bool)
    modifies container
    ensures DataOf(container.children) == RenderedCards(second)
  {
    var _ := RenderVideoPortfolio(container, first, observerSupported);
    var _ := RenderVideoPortfolio(container, second, observerSupported);
  }
}
