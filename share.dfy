/** Share links for tracks (src/controllers/share.controller.js). */
module Share {
  import opened Common
  import UriComponent

  const DefaultBaseUrl: string := "http://localhost:3000"
  const SharePath: string := "/music/?t="
  const FacebookPrefix: string := "https://www.facebook.com/sharer/sharer.php?u="
  const TwitterPrefix: string := "https://twitter.com/intent/tweet?url="
  const WhatsappPrefix: string := "https://api.whatsapp.com/send?text="

  /** `FRONTEND_URL || "http://localhost:3000"`: an unset or empty variable falls back to the default. */
  function BaseUrl(frontendUrl: Option<string>): string {
    if frontendUrl.Some? && frontendUrl.value != "" then frontendUrl.value else DefaultBaseUrl
  }

  /** The plain link: the base URL, the player path and the track id, inserted as it is. */
  function ShareUrl(frontendUrl: Option<string>, trackId: string): string {
    BaseUrl(frontendUrl) + SharePath + trackId
  }

  /** The sharer prefix of the three platforms the switch knows. */
  function PlatformPrefix(platform: string): Option<string> {
    if platform == "facebook" then Some(FacebookPrefix)
    else if platform == "twitter" then Some(TwitterPrefix)
    else if platform == "whatsapp" then Some(WhatsappPrefix)
    else None
  }

  /** A JavaScript-falsy platform: absent or empty. */
  predicate NoPlatform(platform: Option<string>) {
    platform.None? || platform.value == ""
  }

  /** generateShareUrl(trackId, platform) with the environment variable passed in. */
  function GenerateShareUrl(frontendUrl: Option<string>, trackId: string, platform: Option<string>): string {
    var shareUrl := ShareUrl(frontendUrl, trackId);
    if NoPlatform(platform) then shareUrl
    else
      match PlatformPrefix(platform.value)
      case Some(prefix) => prefix + UriComponent.Encode(shareUrl)
      case None => shareUrl
  }

  /**
   * Without a known platform the link is the plain one: the base URL (FRONTEND_URL when
   * set, the local address otherwise), then the path, then the unencoded track id.
   */
  lemma PlainShareUrl(frontendUrl: Option<string>, trackId: string, platform: Option<string>)
    requires NoPlatform(platform) || PlatformPrefix(platform.value).None?
    ensures var url := GenerateShareUrl(frontendUrl, trackId, platform);
            var base := if frontendUrl.Some? && frontendUrl.value != "" then frontendUrl.value else "http://localhost:3000";
            && url == base + "/music/?t=" + trackId
            && url[|url| - |trackId|..] == trackId
  {
  }

  /**
   * For facebook, twitter and whatsapp the link is the platform's prefix followed by an
   * encoded part that decodes back to the plain link and holds no `:`, `/`, `?`, `=`, `&`
   * or `#` of its own.
   */
  lemma PlatformShareUrl(frontendUrl: Option<string>, trackId: string, platform: string)
    requires PlatformPrefix(platform).Some?
    ensures platform in {"facebook", "twitter", "whatsapp"}
    ensures var url := GenerateShareUrl(frontendUrl, trackId, Some(platform));
            var prefix := PlatformPrefix(platform).value;
            && |prefix| <= |url| && url[..|prefix|] == prefix
            && UriComponent.Decode(url[|prefix|..]) == Some(ShareUrl(frontendUrl, trackId))
            && forall i :: |prefix| <= i < |url| ==> url[i] !in {':', '/', '?', '=', '&', '#'}
  {
    var url := GenerateShareUrl(frontendUrl, trackId, Some(platform));
    var prefix := PlatformPrefix(platform).value;
    var encoded := UriComponent.Encode(ShareUrl(frontendUrl, trackId));
    assert url == prefix + encoded;
    assert url[|prefix|..] == encoded;
    UriComponent.DecodeEncode(ShareUrl(frontendUrl, trackId));
    UriComponent.EncodeHasNoDelimiters(ShareUrl(frontendUrl, trackId));
    forall i | |prefix| <= i < |url|
      ensures url[i] !in {':', '/', '?', '=', '&', '#'}
    {
      assert url[i] == encoded[i - |prefix|];
    }
  }

  /** A track document as loaded by Track.findById; only its share counter is touched here. */
  class TrackDoc {
    const id: Id
    var shareCount: Option<int>

    constructor (id: Id, shareCount: Option<int>)
      ensures this.id == id && this.shareCount == shareCount
    {
      this.id := id;
      this.shareCount := shareCount;
    }

    /** `track.shareCount = (track.shareCount || 0) + 1`: an absent count counts as 0. */
    method RecordShare()
      modifies this
      ensures shareCount == Some(old(shareCount).GetOr(0) + 1)
    {
      var current := if shareCount.Some? then shareCount.value else 0;
      shareCount := Some(current + 1);
    }
  }

  /** `!trackId`: the id is absent or empty. */
  predicate MissingTrackId(trackId: Option<string>) {
    trackId.None? || trackId.value == ""
  }

  /** shareTrack: validates the id, finds the track, builds the link and counts the share. */
  method ShareTrack(catalog: map<Id, TrackDoc>, trackId: Option<string>, platform: Option<string>, frontendUrl: Option<string>)
    returns (r: Outcome<string>)
    modifies catalog.Values
    ensures MissingTrackId(trackId) ==> r == Fail(400, "Track ID is required")
    ensures !MissingTrackId(trackId) && trackId.value !in catalog ==> r == Fail(404, "Track not found")
    ensures r.Fail? ==> forall t :: t in catalog.Values ==> t.shareCount == old(t.shareCount)
    ensures !MissingTrackId(trackId) && trackId.value in catalog ==>
              && r == Ok(GenerateShareUrl(frontendUrl, trackId.value, platform))
              && catalog[trackId.value].shareCount == Some(old(catalog[trackId.value].shareCount).GetOr(0) + 1)
              && forall t :: t in catalog.Values && t != catalog[trackId.value] ==> t.shareCount == old(t.shareCount)
  {
    if MissingTrackId(trackId) {
      return Fail(400, "Track ID is required");
    }
    if trackId.value !in catalog {
      return Fail(404, "Track not found");
    }
    var track := catalog[trackId.value];
    var shareUrl := GenerateShareUrl(frontendUrl, trackId.value, platform);
    track.RecordShare();
    r := Ok(shareUrl);
  }

  /** getShareLink: the same checks as shareTrack, always the plain link, and no counting. */
  method GetShareLink(catalog: map<Id, TrackDoc>, trackId: Option<string>, frontendUrl: Option<string>)
    returns (r: Outcome<string>)
    ensures MissingTrackId(trackId) ==> r == Fail(400, "Track ID is required")
    ensures !MissingTrackId(trackId) && trackId.value !in catalog ==> r == Fail(404, "Track not found")
    ensures !MissingTrackId(trackId) && trackId.value in catalog ==>
              r == Ok(BaseUrl(frontendUrl) + "/music/?t=" + trackId.value)
  {
    if MissingTrackId(trackId) {
      return Fail(400, "Track ID is required");
    }
    if trackId.value !in catalog {
      return Fail(404, "Track not found");
    }
    r := Ok(GenerateShareUrl(frontendUrl, trackId.value, None));
  }

  /** handleShareTrack: the same checks, counts the share and answers with the track itself. */
  method HandleShareTrack(catalog: map<Id, TrackDoc>, trackId: Option<string>)
    returns (r: Outcome<TrackDoc>)
    modifies catalog.Values
    ensures MissingTrackId(trackId) ==> r == Fail(400, "Track ID is required")
    ensures !MissingTrackId(trackId) && trackId.value !in catalog ==> r == Fail(404, "Track not found")
    ensures r.Fail? ==> forall t :: t in catalog.Values ==> t.shareCount == old(t.shareCount)
    ensures !MissingTrackId(trackId) && trackId.value in catalog ==>
              && r == Ok(catalog[trackId.value])
              && catalog[trackId.value].shareCount == Some(old(catalog[trackId.value].shareCount).GetOr(0) + 1)
              && forall t :: t in catalog.Values && t != catalog[trackId.value] ==> t.shareCount == old(t.shareCount)
  {
    if MissingTrackId(trackId) {
      return Fail(400, "Track ID is required");
    }
    if trackId.value !in catalog {
      return Fail(404, "Track not found");
    }
    var track := catalog[trackId.value];
    track.RecordShare();
    r := Ok(track);
  }
}
