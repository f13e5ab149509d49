/** Mapping design-tool asset URLs to images bundled with the app
    (utils/imageMapper.ts). */
module ImageMapper {
  import opened Wrappers

  /** The bundled images, keyed by asset id. */
  const ImageMap: map<string, string> := map[
    "290490a2-5396-4f24-97ea-74c38365d0e9" := "/images/default-image.png",
    "fe3aad0c-1c04-41cd-9ffa-725ef1c483b6" := "/images/image-1.png",
    "1ede7ea0-7e0c-4915-bb90-bb9a4bcc49e5" := "/images/map-image.png",
    "91636383-9b42-436d-b2c8-f460e654377a" := "/images/vector.png",
    "21456f3d-7309-4435-9d98-85b64264d593" := "/images/vector-1.png",
    "17325962-5fde-4cd0-873b-d78ea088b73c" := "/images/vector-2.png",
    "7c5e6a34-4138-455f-9811-3cef886a43fc" := "/images/vector-3.png",
    "15a8cdde-bd45-46bd-9a6a-4a443c719b15" := "/images/ellipse-1.png",
    "8d737b67-199c-42be-9d1c-4dc5c43b079b" := "/images/ellipse-2.png",
    "cc8fe8de-31f7-43fb-ad11-87265528d4d2" := "/images/ellipse-8.png",
    "03550ac2-1210-439a-bf0d-b82a96307284" := "/images/ellipse-7.png",
    "051eac42-6e3d-4589-a0fe-14a92c291351" := "/images/ellipse-3.png",
    "d921f7b1-3642-4aa1-a761-1202cc99ce83" := "/images/ellipse-5.png",
    "8fce0ca8-dfee-4c9c-8d83-84f036f80e1d" := "/images/ellipse-6.png",
    "048c86ff-e79d-4483-8859-702d8db23cdb" := "/images/icon.png",
    "d06002c0-215c-4ee9-8f0f-676445a616fc" := "/images/icon-1.png",
    "4f6da687-3b39-4f18-b901-674f8b56eb8f" := "/images/icon-2.png",
    "6e8aa37e-5765-43ab-8729-7774f326405a" := "/images/icon-3.png",
    "671bcbbd-ed89-4e21-8c04-0f17add86636" := "/images/icon-4.png"
  ]

  /** The characters `[a-f0-9\-]` of an asset id. */
  predicate IdChar(c: char)
  {
    ('a' <= c <= 'f') || ('0' <= c <= '9') || c == '-'
  }

  /** The pattern `asset/[a-f0-9\-]+` starts at `i`. */
  predicate MatchAt(s: string, i: nat)
  {
    i + 7 <= |s| && s[i..i + 6] == "asset/" && IdChar(s[i + 6])
  }

  /** The leftmost match at or after `from`, as a regular-expression
      search finds it. */
  function FindMatch(s: string, from: nat): (r: Option<nat>)
    requires from <= |s|
    ensures r.None? <==> forall i :: from <= i <= |s| ==> !MatchAt(s, i)
    ensures r.Some? ==> from <= r.value < |s| && MatchAt(s, r.value)
    ensures r.Some? ==> forall i :: from <= i < r.value ==> !MatchAt(s, i)
    decreases |s| - from
  {
    if from == |s| then None
    else if MatchAt(s, from) then Some(from)
    else FindMatch(s, from + 1)
  }

  /** The longest run of id characters starting at `j`: the greedy `+`. */
  function IdRun(s: string, j: nat): (r: string)
    requires j <= |s|
    ensures j + |r| <= |s| && r == s[j..j + |r|]
    ensures forall k :: 0 <= k < |r| ==> IdChar(r[k])
    ensures j + |r| == |s| || !IdChar(s[j + |r|])
    decreases |s| - j
  {
    if j < |s| && IdChar(s[j]) then [s[j]] + IdRun(s, j + 1) else []
  }

  /** The captured asset id of the leftmost match, if there is one. */
  function AssetId(url: string): (r: Option<string>)
    ensures r.Some? ==> |r.value| > 0
  {
    match FindMatch(url, 0)
    case None => None
    case Some(i) => Some(IdRun(url, i + 6))
  }

  /** The lookup `getLocalImagePath` does, over a given image table: the
      mapped path for a known asset id, and the URL itself otherwise; an
      empty mapped path would also fall back. */
  function LocalPath(url: string, images: map<string, string>): (r: string)
    ensures r == url || r in images.Values
  {
    match AssetId(url)
    case None => url
    case Some(id) => if id in images && |images[id]| > 0 then images[id] else url
  }

  /** `getLocalImagePath`. */
  function GetLocalImagePath(url: string): (r: string)
    ensures r == url || r in ImageMap.Values
  {
    LocalPath(url, ImageMap)
  }

  /** `getImageUrl`: the bundled path when local images are preferred. */
  function GetImageUrl(url: string, useLocal: bool): (r: string)
    ensures !useLocal ==> r == url
    ensures useLocal ==> r == GetLocalImagePath(url)
  {
    if useLocal then GetLocalImagePath(url) else url
  }

  /** No bundled path is empty, so a known id always maps to its path. */
  lemma ImagePathsNonEmpty(id: string)
    requires id in ImageMap
    ensures |ImageMap[id]| > 0
  {
  }

  /** A URL with no `asset/` followed by an id character comes back as it
      is. */
  lemma NoAssetUnchanged(url: string)
    requires forall i :: 0 <= i <= |url| ==> !MatchAt(url, i)
    ensures GetLocalImagePath(url) == url
  {
  }

  /** The id captured right after the first `asset/` that an id character
      follows selects its path from any table that maps it to a non-empty
      path. */
  lemma LocalPathKnown(url: string, images: map<string, string>, i: nat, id: string)
    requires MatchAt(url, i)
    requires forall k :: 0 <= k < i ==> !MatchAt(url, k)
    requires id == IdRun(url, i + 6)
    requires id in images && |images[id]| > 0
    ensures LocalPath(url, images) == images[id]
  {
    assert FindMatch(url, 0) == Some(i);
  }

  /** The same for the bundled table, whose ids all have a path. */
  lemma KnownAssetMapped(url: string, i: nat, id: string)
    requires MatchAt(url, i)
    requires forall k :: 0 <= k < i ==> !MatchAt(url, k)
    requires id == IdRun(url, i + 6)
    requires id in ImageMap
    ensures GetLocalImagePath(url) == ImageMap[id]
  {
    ImagePathsNonEmpty(id);
    LocalPathKnown(url, ImageMap, i, id);
  }

  /** An id that is not bundled leaves the URL as it is. */
  lemma UnknownAssetUnchanged(url: string, id: string)
    requires AssetId(url) == Some(id)
    requires id !in ImageMap
    ensures GetLocalImagePath(url) == url
  {
  }
}
