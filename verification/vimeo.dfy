/** The video-player URLs the grid and the modal build from a project's video
    id and optional access hash. */
module Vimeo {

  import opened Wrappers
  import opened Text
  import opened Projects

  const PlayerBase: string := "https://player.vimeo.com/video/"

  /** The query of the full-screen overlay iframe on narrow viewports. */
  const OverlayQuery: string := "autoplay=1&autopause=0&background=0&fullscreen=1&playsinline=0"

  /** The player flags of the modal iframe, split where the autoplay flags begin. */
  const ModalChromeFlags: string := "badge=0&autopause=0&player_id=0&app_id=58479&"
  const ModalPlaybackFlags: string := JoinParams(RequiredModalFlags)
  const ModalQuery: string := ModalChromeFlags + ModalPlaybackFlags

  /** The flags both modal variants must carry: autoplay muted, no title,
      byline or portrait chrome. */
  const RequiredModalFlags: seq<string> := ["autoplay=1", "muted=1", "title=0", "byline=0", "portrait=0"]

  /** The playback flags spell the tail of the modal query as the player expects it. */
  lemma ModalPlaybackFlagsLiteral()
    ensures ModalPlaybackFlags == "autoplay=1&muted=1&title=0&byline=0&portrait=0"
  {
  }

  /** The `href` of the prefetch hint for a video. */
  function PrefetchUrl(vimeoId: string): (url: string)
    ensures HasPrefix(url, PlayerBase)
    ensures url[|PlayerBase|..] == vimeoId
  {
    PlayerBase + vimeoId
  }

  /** Recovers the video id from a player URL without a query. */
  function VideoIdOfUrl(url: string): (r: Option<string>)
    ensures r.Some? <==> HasPrefix(url, PlayerBase)
  {
    if HasPrefix(url, PlayerBase) then Some(url[|PlayerBase|..]) else None
  }

  lemma PrefetchUrlRoundTrip(vimeoId: string)
    ensures VideoIdOfUrl(PrefetchUrl(vimeoId)) == Some(vimeoId)
  {
  }

  lemma PrefetchUrlInjective(a: string, b: string)
    ensures PrefetchUrl(a) == PrefetchUrl(b) <==> a == b
  {
  }

  /** The `src` of the overlay iframe: the hash is not an input. */
  function OverlaySrc(vimeoId: string): (src: string)
    ensures HasPrefix(src, PrefetchUrl(vimeoId) + "?")
    ensures src[|PlayerBase| + |vimeoId| + 1..] == OverlayQuery
  {
    PlayerBase + vimeoId + "?" + OverlayQuery
  }

  /** The `src` of the modal iframe: with a truthy hash the query starts with
      `h=<hash>&`, otherwise it is the flags alone. */
  function ModalEmbedSrc(vimeoId: string, vimeoHash: Option<string>): (src: string)
    ensures HasPrefix(src, PlayerBase + vimeoId + "?")
    ensures Truthy(vimeoHash) ==>
      src[|PlayerBase| + |vimeoId| + 1..] == "h=" + vimeoHash.value + "&" + ModalQuery
    ensures !Truthy(vimeoHash) ==> src[|PlayerBase| + |vimeoId| + 1..] == ModalQuery
  {
    if Truthy(vimeoHash)
    then PlayerBase + vimeoId + "?h=" + vimeoHash.value + "&" + ModalQuery
    else PlayerBase + vimeoId + "?" + ModalQuery
  }

  /** The hashed src is the unhashed one with `h=<hash>&` inserted right after `?`. */
  lemma ModalHashSegmentIsTheOnlyDifference(vimeoId: string, hash: string)
    requires hash != ""
    ensures var plain := ModalEmbedSrc(vimeoId, None);
            var k := |PlayerBase| + |vimeoId| + 1;
            ModalEmbedSrc(vimeoId, Some(hash)) == plain[..k] + "h=" + hash + "&" + plain[k..]
  {
  }

  /** An empty hash is treated like a missing one. */
  lemma ModalEmptyHashIsNoHash(vimeoId: string)
    ensures ModalEmbedSrc(vimeoId, Some("")) == ModalEmbedSrc(vimeoId, None)
  {
  }

  lemma PlaybackFlagsInQuery()
    ensures forall f :: f in RequiredModalFlags ==> Contains(ModalPlaybackFlags, f)
  {
    forall f | f in RequiredModalFlags
      ensures Contains(ModalPlaybackFlags, f)
    {
      var i :| 0 <= i < |RequiredModalFlags| && RequiredModalFlags[i] == f;
      JoinParamsContainsEach(RequiredModalFlags, i);
    }
  }

  /** Both modal variants carry every required flag. */
  lemma ModalSrcHasRequiredFlags(vimeoId: string, vimeoHash: Option<string>)
    ensures forall f :: f in RequiredModalFlags ==> Contains(ModalEmbedSrc(vimeoId, vimeoHash), f)
  {
    PlaybackFlagsInQuery();
    var src := ModalEmbedSrc(vimeoId, vimeoHash);
    var front := src[..|src| - |ModalPlaybackFlags|];
    assert src == front + ModalPlaybackFlags;
    forall f | f in RequiredModalFlags
      ensures Contains(src, f)
    {
      ContainsInSuffix(front, ModalPlaybackFlags, f);
    }
  }
}
