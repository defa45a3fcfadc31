/**
 * The older video-portfolio utilities of script.js: `extractYouTubeVideoId`,
 * `getYouTubeThumbnailUrl` and the card loop of `initVideoPortfolio`.
 */
module VideoUtilities {
  import opened Wrappers
  import opened Text
  import opened UrlPatterns
  import opened Dom
  import opened Collections
  import YouTubePortfolio

  // ----- Identifier extraction -----

  /** `/(?:youtube\.com\/watch\?v=|youtu\.be\/|youtube\.com\/embed\/)([^&\n?#]+)/` */
  const LinkForms := Pattern([WatchMarker, ShortMarker, EmbedMarker], UntilDelimiter)

  /**
   * `extractYouTubeVideoId`: no trimming; the first pattern is a link form
   * followed by a run of characters other than `&`, `?`, `#` and newline, of
   * any length; the second is the whole input being one bare identifier.
   * Whatever is found is a non-empty such run taken from the input.
   */
  function ExtractYouTubeVideoId(url: string): (r: Option<string>)
    ensures url == "" ==> r.None?
    ensures r.Some? ==> r.value != [] && forall i :: 0 <= i < |r.value| ==> IsRunChar(r.value[i])
    ensures r.Some? ==> exists j :: OccursAt(url, j, r.value)
  {
    if url == "" then None
    else
      var link := Search(url, LinkForms);
      if link.Some? then link
      else if IsVideoId(url) then (assert OccursAt(url, 0, url); Some(url))
      else None
  }

  lemma LinkFormsHaveNonIdChar()
    ensures forall n :: 0 <= n < |LinkForms.markers| ==> HasNonIdChar(LinkForms.markers[n])
  {
    assert !IsIdChar(LinkForms.markers[0][7]);
    assert !IsIdChar(LinkForms.markers[1][5]);
    assert !IsIdChar(LinkForms.markers[2][7]);
  }

  /** A bare identifier is returned unchanged. */
  lemma BareIdUnchanged(id: string)
    requires IsVideoId(id)
    ensures ExtractYouTubeVideoId(id) == Some(id)
  {
    LinkFormsHaveNonIdChar();
    assert forall i :: 0 <= i < |id| ==> IsIdChar(id[i]);
    NoMatchInIdText(id, LinkForms);
  }

  /**
   * Text of identifier characters that is not exactly eleven long has no
   * identifier: the bare form is anchored at both ends.
   */
  lemma IdTextOfOtherLengthHasNone(s: string)
    requires forall i :: 0 <= i < |s| ==> IsIdChar(s[i])
    requires |s| != 11
    ensures ExtractYouTubeVideoId(s).None?
  {
    LinkFormsHaveNonIdChar();
    NoMatchInIdText(s, LinkForms);
  }

  /**
   * The general link rule: behind a prefix with no `y` in it, marker `n`,
   * when no earlier marker starts there, and the run behind it give that run,
   * however long it is.
   */
  lemma LinkAfterPrefix(pre: string, n: nat, v: string, rest: string)
    requires n < |LinkForms.markers|
    requires forall k :: 0 <= k < |pre| ==> pre[k] != 'y'
    requires forall m :: 0 <= m < n ==> !OccursAt(pre + LinkForms.markers[n] + v + rest, |pre|, LinkForms.markers[m])
    requires v != [] && forall i :: 0 <= i < |v| ==> IsRunChar(v[i])
    requires rest == [] || !IsRunChar(rest[0])
    ensures ExtractYouTubeVideoId(pre + LinkForms.markers[n] + v + rest) == Some(v)
  {
    MarkersStartWithY();
    RunAfterPrefix(pre, LinkForms, n, v, rest, 'y');
    assert |pre + LinkForms.markers[n] + v + rest| > 0;
  }

  lemma MarkersStartWithY()
    ensures forall i :: 0 <= i < |LinkForms.markers| ==> |LinkForms.markers[i]| > 0 && LinkForms.markers[i][0] == 'y'
  {
  }

  /** A watch URL gives the whole run after `v=`, up to the first `&`, `?`, `#` or newline. */
  lemma WatchUrlGivesRun(v: string, rest: string)
    requires v != [] && forall i :: 0 <= i < |v| ==> IsRunChar(v[i])
    requires rest == [] || !IsRunChar(rest[0])
    ensures ExtractYouTubeVideoId(YouTubePortfolio.WatchPrefix + v + rest) == Some(v)
  {
    YouTubePortfolio.PrefixesHaveNoY();
    LinkAfterPrefix(YouTubePortfolio.Www, 0, v, rest);
  }

  /** A short link gives the whole run after `youtu.be/`. */
  lemma ShortLinkGivesRun(v: string, rest: string)
    requires v != [] && forall i :: 0 <= i < |v| ==> IsRunChar(v[i])
    requires rest == [] || !IsRunChar(rest[0])
    ensures ExtractYouTubeVideoId(YouTubePortfolio.ShortLinkPrefix + v + rest) == Some(v)
  {
    var s := YouTubePortfolio.Https + ShortMarker + v + rest;
    assert s == YouTubePortfolio.Https + ShortMarker + (v + rest);
    ConcatParts(YouTubePortfolio.Https, ShortMarker, v + rest);
    assert s[13] == s[8..17][5];
    NotMarkedAt(s, 8, WatchMarker, 5);
    YouTubePortfolio.PrefixesHaveNoY();
    LinkAfterPrefix(YouTubePortfolio.Https, 1, v, rest);
  }

  /** An embed URL gives the whole run after `embed/`. */
  lemma EmbedUrlGivesRun(v: string, rest: string)
    requires v != [] && forall i :: 0 <= i < |v| ==> IsRunChar(v[i])
    requires rest == [] || !IsRunChar(rest[0])
    ensures ExtractYouTubeVideoId(YouTubePortfolio.EmbedPrefix + v + rest) == Some(v)
  {
    var s := YouTubePortfolio.Www + EmbedMarker + v + rest;
    assert s == YouTubePortfolio.Www + EmbedMarker + (v + rest);
    ConcatParts(YouTubePortfolio.Www, EmbedMarker, v + rest);
    assert s[24] == s[12..30][12] && s[17] == s[12..30][5];
    NotMarkedAt(s, 12, WatchMarker, 12);
    NotMarkedAt(s, 12, ShortMarker, 5);
    YouTubePortfolio.PrefixesHaveNoY();
    LinkAfterPrefix(YouTubePortfolio.Www, 2, v, rest);
  }

  /** Round trip with the watch URLs the newer utilities generate. */
  lemma WatchUrlRoundTrip(id: string)
    requires IsVideoId(id)
    ensures ExtractYouTubeVideoId(YouTubePortfolio.GetYouTubeWatchUrl(id)) == Some(id)
  {
    assert YouTubePortfolio.GetYouTubeWatchUrl(id) == YouTubePortfolio.WatchPrefix + id + "";
    WatchUrlGivesRun(id, "");
  }

  /** A twelve-character run is kept whole, where the newer extractor stops at eleven. */
  lemma LongRunIsKeptWhole(id: string, c: char)
    requires IsVideoId(id) && IsIdChar(c)
    ensures ExtractYouTubeVideoId(YouTubePortfolio.WatchPrefix + (id + [c])) == Some(id + [c])
    ensures YouTubePortfolio.ExtractYouTubeId(YouTubePortfolio.WatchPrefix + (id + [c])) == Some(id)
  {
    LongRunFromWatchUrl(id, c);
    assert YouTubePortfolio.WatchPrefix + (id + [c]) == YouTubePortfolio.WatchPrefix + id + [c];
    YouTubePortfolio.WatchUrlGivesId(id, [c]);
  }

  lemma LongRunFromWatchUrl(id: string, c: char)
    requires IsVideoId(id) && IsIdChar(c)
    ensures ExtractYouTubeVideoId(YouTubePortfolio.WatchPrefix + (id + [c])) == Some(id + [c])
  {
    var v := id + [c];
    assert forall i :: 0 <= i < |v| ==> IsRunChar(v[i]) by {
      forall i | 0 <= i < |v| ensures IsRunChar(v[i]) {
        assert i < 11 ==> v[i] == id[i];
      }
    }
    assert YouTubePortfolio.WatchPrefix + v == YouTubePortfolio.WatchPrefix + v + "";
    WatchUrlGivesRun(v, "");
  }

  // ----- Thumbnail URLs -----

  /** The `qualityMap` of `getYouTubeThumbnailUrl`: one URL per thumbnail tier. */
  function QualityMap(videoId: string): map<string, string> {
    map[
      "max" := YouTubePortfolio.ThumbnailPrefix + videoId + "/maxresdefault.jpg",
      "sd" := YouTubePortfolio.ThumbnailPrefix + videoId + "/sddefault.jpg",
      "hq" := YouTubePortfolio.ThumbnailPrefix + videoId + "/hqdefault.jpg",
      "mq" := YouTubePortfolio.ThumbnailPrefix + videoId + "/mqdefault.jpg",
      "default" := YouTubePortfolio.ThumbnailPrefix + videoId + "/default.jpg"
    ]
  }

  /**
   * `getYouTubeThumbnailUrl`: none for an empty identifier; otherwise the URL
   * of the requested tier (`hq` when none is given), or of the `hq` tier for
   * a key the table lacks.
   */
  function GetYouTubeThumbnailUrl(videoId: string, quality: string := "hq"): (r: Option<string>)
    ensures r.None? <==> videoId == ""
    ensures r.Some? ==> r.value in QualityMap(videoId).Values
  {
    if videoId == "" then None
    else
      var m := QualityMap(videoId);
      if quality in m && m[quality] != "" then Some(m[quality]) else Some(m["hq"])
  }

  /** The five tiers, URL by URL, for a non-empty identifier. */
  lemma ThumbnailTiers(id: string)
    requires id != ""
    ensures GetYouTubeThumbnailUrl(id, "max") == Some(YouTubePortfolio.ThumbnailPrefix + id + "/maxresdefault.jpg")
    ensures GetYouTubeThumbnailUrl(id, "sd") == Some(YouTubePortfolio.ThumbnailPrefix + id + "/sddefault.jpg")
    ensures GetYouTubeThumbnailUrl(id, "hq") == Some(YouTubePortfolio.ThumbnailPrefix + id + "/hqdefault.jpg")
    ensures GetYouTubeThumbnailUrl(id, "mq") == Some(YouTubePortfolio.ThumbnailPrefix + id + "/mqdefault.jpg")
    ensures GetYouTubeThumbnailUrl(id, "default") == Some(YouTubePortfolio.ThumbnailPrefix + id + "/default.jpg")
    ensures GetYouTubeThumbnailUrl(id) == GetYouTubeThumbnailUrl(id, "hq")
  {
  }

  /** Any other quality key falls back to the `hq` tier. */
  lemma UnknownQualityFallsBack(id: string, quality: string)
    requires id != ""
    requires quality !in {"max", "sd", "hq", "mq", "default"}
    ensures GetYouTubeThumbnailUrl(id, quality) == GetYouTubeThumbnailUrl(id, "hq")
  {
  }

  /** The `max` tier is the thumbnail the newer utilities use. */
  lemma MaxTierIsPortfolioThumbnail(id: string)
    requires id != ""
    ensures GetYouTubeThumbnailUrl(id, "max") == Some(YouTubePortfolio.GetYouTubeThumbnail(id))
  {
  }

  /** Different identifiers never share a thumbnail URL of the same tier. */
  lemma ThumbnailUrlDeterminesId(a: string, b: string, quality: string)
    requires a != "" && b != ""
    requires GetYouTubeThumbnailUrl(a, quality) == GetYouTubeThumbnailUrl(b, quality)
    ensures a == b
  {
    var p := YouTubePortfolio.ThumbnailPrefix;
    var q := if quality in {"max", "sd", "hq", "mq", "default"} then quality else "hq";
    var suffixes := map["max" := "/maxresdefault.jpg", "sd" := "/sddefault.jpg", "hq" := "/hqdefault.jpg",
                        "mq" := "/mqdefault.jpg", "default" := "/default.jpg"];
    var t := suffixes[q];
    assert GetYouTubeThumbnailUrl(a, quality).value == p + a + t;
    assert GetYouTubeThumbnailUrl(b, quality).value == p + b + t;
    assert |a| == |b|;
    assert a == (p + a + t)[|p|..|p| + |a|];
    assert b == (p + b + t)[|p|..|p| + |b|];
  }

  // ----- Cards -----

  /**
   * What a card of `initVideoPortfolio` carries: the link's `href` (the
   * input URL as given), `target`, `rel` and `title` attribute, the image's
   * `src` (the `hq` thumbnail, loaded at once) and `alt`, the heading and the
   * description.
   */
  datatype LegacyCard = LegacyCard(href: string, target: string, rel: string, titleAttr: string,
                                   thumbnail: string, alt: string, heading: string, description: string)

  /**
   * The card for `item`, or none when no identifier can be extracted from
   * its URL; the title and the description are not checked.
   */
  function LegacyCardFor(item: YouTubePortfolio.VideoItem): (r: Option<LegacyCard>)
    ensures r.None? <==> ExtractYouTubeVideoId(item.youtubeUrl).None?
    ensures r.Some? ==> r.value.href == item.youtubeUrl && r.value.titleAttr == "Watch: " + item.title
    ensures r.Some? ==> r.value.target == "_blank" && r.value.rel == "noopener noreferrer"
    ensures r.Some? ==> r.value.alt == item.title && r.value.heading == item.title
                        && r.value.description == item.description
    ensures r.Some? ==> var id := ExtractYouTubeVideoId(item.youtubeUrl).value;
                        r.value.thumbnail == YouTubePortfolio.ThumbnailPrefix + id + "/hqdefault.jpg"
  {
    match ExtractYouTubeVideoId(item.youtubeUrl)
    case None => None
    case Some(id) =>
      ThumbnailTiers(id);
      Some(LegacyCard(item.youtubeUrl, "_blank", "noopener noreferrer", "Watch: " + item.title,
                      GetYouTubeThumbnailUrl(id, "hq").value, item.title, item.title, item.description))
  }

  /**
   * The card loop of `initVideoPortfolio`: one card per item whose URL gives
   * an identifier, appended in order after whatever the container already
   * holds; nothing happens without a container.
   */
  method AppendPortfolioCards(container: Container?<LegacyCard>, items: seq<YouTubePortfolio.VideoItem>)
    modifies container
    ensures container != null ==>
      container.children == old(container.children) + FilterMap(items, LegacyCardFor)
  {
    if container == null {
      return;
    }
    var i := 0;
    while i < |items|
      invariant 0 <= i <= |items|
      invariant container.children == old(container.children) + FilterMap(items[..i], LegacyCardFor)
    {
      var card := LegacyCardFor(items[i]);
      if card.Some? {
        container.children := container.children + [card.value];
      }
      FilterMapPrefix(items, i, LegacyCardFor);
      i := i + 1;
    }
    assert items[..|items|] == items;
  }

  /** The six entries `initVideoPortfolio` renders, field by field. */
  const SampleUrls := [
    YouTubePortfolio.WatchPrefix + "dQw4w9WgXcQ",
    YouTubePortfolio.WatchPrefix + "9bZkp7q19f0",
    YouTubePortfolio.ShortLinkPrefix + "jNQXAC9IVRw",
    YouTubePortfolio.WatchPrefix + "tYzD26wJnYQ",
    YouTubePortfolio.WatchPrefix + "8jwH_yKuWqI",
    YouTubePortfolio.WatchPrefix + "ZyhrYis509A"
  ]

  const SampleTitles := [
    "Professional Editing Demo",
    "Brand Storytelling",
    "Commercial Production",
    "Content Optimization",
    "Motion Graphics Integration",
    "Documentary Style Production"
  ]

  const SampleDescriptions := [
    "High-quality post-production work demonstrating color grading, transitions, and audio synchronization.",
    "Cinematic narrative production showcasing conceptual development and creative execution.",
    "Professional commercial video demonstrating client vision interpretation and technical precision.",
    "Multi-platform video content creation optimized for various distribution channels and audiences.",
    "Seamless integration of motion graphics, text animation, and visual effects for enhanced storytelling.",
    "Long-form narrative content with interview integration and atmospheric sound design."
  ]

  const SamplePortfolio: seq<YouTubePortfolio.VideoItem> :=
    seq(6, i requires 0 <= i < 6 => YouTubePortfolio.VideoItem(SampleUrls[i], SampleTitles[i], SampleDescriptions[i]))

  /** `initVideoPortfolio`: the sample cards appended to the container, if there is one. */
  method InitVideoPortfolio(container: Container?<LegacyCard>)
    modifies container
    ensures container != null ==>
      container.children == old(container.children) + FilterMap(SamplePortfolio, LegacyCardFor)
  {
    AppendPortfolioCards(container, SamplePortfolio);
  }

  /** The identifiers of the six sample entries. */
  const SampleIds := ["dQw4w9WgXcQ", "9bZkp7q19f0", "jNQXAC9IVRw", "tYzD26wJnYQ", "8jwH_yKuWqI", "ZyhrYis509A"]

  /** Every sample URL gives its identifier. */
  lemma SampleUrlsGiveIds()
    ensures forall i :: 0 <= i < |SamplePortfolio| ==>
      ExtractYouTubeVideoId(SamplePortfolio[i].youtubeUrl) == Some(SampleIds[i])
  {
    forall i | 0 <= i < 6
      ensures ExtractYouTubeVideoId(SampleUrls[i]) == Some(SampleIds[i])
    {
      SampleUrlGivesId(i);
    }
  }

  lemma SampleUrlGivesId(i: nat)
    requires i < 6
    ensures ExtractYouTubeVideoId(SampleUrls[i]) == Some(SampleIds[i])
  {
    var id := SampleIds[i];
    SampleIdIsId(i);
    if i == 2 {
      assert SampleUrls[2] == YouTubePortfolio.ShortLinkPrefix + id;
      ShortLinkGivesId(id);
    } else {
      assert SampleUrls[i] == YouTubePortfolio.WatchPrefix + id;
      WatchUrlGivesId(id);
    }
  }

  lemma SampleIdIsId(i: nat)
    requires i < 6
    ensures IsVideoId(SampleIds[i])
  {
    var id := SampleIds[i];
    assert |id| == 11;
    forall k | 0 <= k < 11 ensures IsIdChar(id[k]) {
      if i == 0 {} else if i == 1 {} else if i == 2 {} else if i == 3 {} else if i == 4 {} else {}
    }
  }

  lemma WatchUrlGivesId(id: string)
    requires IsVideoId(id)
    ensures ExtractYouTubeVideoId(YouTubePortfolio.WatchPrefix + id) == Some(id)
  {
    assert forall k :: 0 <= k < 11 ==> IsRunChar(id[k]);
    assert YouTubePortfolio.WatchPrefix + id == YouTubePortfolio.WatchPrefix + id + "";
    WatchUrlGivesRun(id, "");
  }

  lemma ShortLinkGivesId(id: string)
    requires IsVideoId(id)
    ensures ExtractYouTubeVideoId(YouTubePortfolio.ShortLinkPrefix + id) == Some(id)
  {
    assert forall k :: 0 <= k < 11 ==> IsRunChar(id[k]);
    assert YouTubePortfolio.ShortLinkPrefix + id == YouTubePortfolio.ShortLinkPrefix + id + "";
    ShortLinkGivesRun(id, "");
  }

  /**
   * All six sample entries become cards, in order, each linking to its own
   * URL and showing the `hq` thumbnail of its identifier.
   */
  lemma SamplePortfolioCards()
    ensures |FilterMap(SamplePortfolio, LegacyCardFor)| == 6
    ensures forall i :: 0 <= i < 6 ==>
      FilterMap(SamplePortfolio, LegacyCardFor)[i].href == SamplePortfolio[i].youtubeUrl
      && FilterMap(SamplePortfolio, LegacyCardFor)[i].thumbnail
         == YouTubePortfolio.ThumbnailPrefix + SampleIds[i] + "/hqdefault.jpg"
  {
    SampleUrlsGiveIds();
    FilterMapTotal(SamplePortfolio, LegacyCardFor);
  }

  // ----- Privacy-enhanced embed links -----

  /** The host and path of a privacy-enhanced embed link. */
  const NoCookieMarker := "youtube-nocookie.com/embed/"
  /** `https://www.youtube-nocookie.com/embed/` */
  const NoCookiePrefix := YouTubePortfolio.Www + NoCookieMarker

  /** Where `y`, `.` and `/` sit in a privacy-enhanced embed link. */
  lemma NoCookieChars(id: string)
    requires IsVideoId(id)
    ensures var s := NoCookiePrefix + id;
      |s| == 50 && s[17] != '.' && s[19] != '.'
      && (forall k :: 0 <= k < 39 && k != 12 ==> s[k] != 'y')
      && (forall k :: 39 <= k < 50 ==> s[k] != '/')
  {
    var s := NoCookiePrefix + id;
    YouTubePortfolio.PrefixesHaveNoY();
    assert forall k :: 1 <= k < 27 ==> NoCookieMarker[k] != 'y';
    assert forall k :: 0 <= k < 12 ==> s[k] == YouTubePortfolio.Www[k];
    assert forall k :: 12 <= k < 39 ==> s[k] == NoCookieMarker[k - 12];
    assert forall k :: 39 <= k < 50 ==> s[k] == id[k - 39];
  }

  /** None of the three link markers occurs anywhere in a privacy-enhanced embed link. */
  lemma NoLinkMarkerInNoCookieLink(id: string, j: nat, m: string)
    requires IsVideoId(id)
    requires m == WatchMarker || m == ShortMarker || m == EmbedMarker
    ensures !OccursAt(NoCookiePrefix + id, j, m)
  {
    var s := NoCookiePrefix + id;
    NoCookieChars(id);
    if j == 12 {
      if m == ShortMarker {
        NotMarkedAt(s, j, m, 5);
      } else {
        NotMarkedAt(s, j, m, 7);
      }
    } else if j < 39 {
      NotMarkedAt(s, j, m, 0);
    } else if m == ShortMarker {
      NotMarkedAt(s, j, m, 8);
    } else {
      NotMarkedAt(s, j, m, 11);
    }
  }

  /** A pattern built from the link markers finds nothing in a privacy-enhanced embed link. */
  lemma NoCookieLinkHasNoMatch(id: string, p: Pattern)
    requires IsVideoId(id)
    requires forall n :: 0 <= n < |p.markers| ==>
      p.markers[n] == WatchMarker || p.markers[n] == ShortMarker || p.markers[n] == EmbedMarker
    ensures Search(NoCookiePrefix + id, p).None?
  {
    var s := NoCookiePrefix + id;
    forall j | 0 <= j <= |s| ensures PatternAt(s, j, p).None? {
      forall n | 0 <= n < |p.markers| ensures !OccursAt(s, j, p.markers[n]) {
        NoLinkMarkerInNoCookieLink(id, j, p.markers[n]);
      }
      NoMarkerNoMatch(s, j, p);
    }
    SearchFails(s, p);
  }

  /**
   * The header comment of youtube-portfolio.js lists youtube-nocookie.com
   * among the supported hosts, but neither extractor has a pattern for it:
   * both return nothing for a privacy-enhanced embed link.
   */
  lemma NoCookieLinkHasNoId(id: string)
    requires IsVideoId(id)
    ensures YouTubePortfolio.ExtractYouTubeId(NoCookiePrefix + id).None?
    ensures ExtractYouTubeVideoId(NoCookiePrefix + id).None?
  {
    NoCookieLinkHasNoMatch(id, LinkForms);
    NewerExtractorMissesNoCookie(id);
  }

  lemma NewerExtractorMissesNoCookie(id: string)
    requires IsVideoId(id)
    ensures YouTubePortfolio.ExtractYouTubeId(NoCookiePrefix + id).None?
  {
    var s := NoCookiePrefix + id;
    NoCookieChars(id);
    assert !IsSpace(s[0]) && !IsSpace(s[|s| - 1]);
    TrimOfTrimmed(s);
    NoCookieLinkHasNoMatch(id, YouTubePortfolio.ShortLink);
    NoCookieLinkHasNoMatch(id, YouTubePortfolio.PageLink);
  }
}
