/** The texture-pack decisions of the network processor: which prompt or
    download a server's texture-pack url leads to, and what a finished
    download does to the world's texture url. The downloader, the cache on
    disk and the texture extraction are modelled as the effects requested
    of them. */
module Network {
  import opened Common

  const Https := "https://"
  const Http := "http://"

  /** The prefix marking a content-length request's identifier. */
  const ContentLengthPrefix := "CL_"

  predicate StartsWith(s: string, prefix: string)
  {
    |prefix| <= |s| && s[..|prefix|] == prefix
  }

  /** Whether `part` occurs in `s` (String.Contains). */
  predicate Contains(s: string, part: string)
  {
    exists i :: 0 <= i <= |s| - |part| && OccursAt(s, part, i)
  }

  predicate OccursAt(s: string, part: string, i: int)
  {
    0 <= i <= |s| - |part| && s[i..i + |part|] == part
  }

  /** The address shown to the user: the url without its http(s) scheme. */
  function Address(url: string): (a: string)
    ensures StartsWith(url, Https) ==> url == Https + a
    ensures StartsWith(url, Http) ==> url == Http + a
    ensures !StartsWith(url, Https) && !StartsWith(url, Http) ==> a == url
  {
    SchemesExclusive(url);
    var address := url;
    var address := if StartsWith(url, Https) then url[8..] else address;
    if StartsWith(url, Http) then url[7..] else address
  }

  /** The two schemes exclude each other, so at most one is stripped. */
  lemma SchemesExclusive(url: string)
    ensures !(StartsWith(url, Https) && StartsWith(url, Http))
  {
    if StartsWith(url, Https) {
      assert url[..7][4] == Https[4];
    }
  }

  /** The address is the url minus exactly one scheme, or all of it. */
  lemma AddressDropsScheme(url: string)
    ensures |Address(url)| == |url| - (if StartsWith(url, Https) then 8 else if StartsWith(url, Http) then 7 else 0)
  {
    SchemesExclusive(url);
  }

  /** String.Substring(3). */
  function Substring3(s: string): (r: Result<string>)
    ensures r.Ok? <==> 3 <= |s|
    ensures r.Ok? ==> s == s[..3] + r.value
  {
    if |s| < 3 then Err(ArgumentOutOfRange) else Ok(s[3..])
  }

  /** The identifier of the content-length request for a url. */
  function Identifier(url: string): string
  {
    ContentLengthPrefix + url
  }

  /** The url is recovered from its identifier. */
  lemma IdentifierRoundTrip(url: string)
    ensures Substring3(Identifier(url)) == Ok(url)
  {
    assert Identifier(url)[3..] == url;
  }

  // ---------------------------------------------------------------------
  // Requests

  /** What is asked of the downloader and the user interface. */
  datatype Request =
    | RequestContentLength(url: string, identifier: string)
    | ShowWarning(identifier: string, address: string)
    | DownloadData(url: string, identifier: string)
    | DownloadImage(url: string, identifier: string)

  /** The url lists the user has answered. */
  datatype UrlLists = UrlLists(accepted: set<string>, denied: set<string>)

  /** DownloadTexturePack(url): nothing for a denied url; a zip is fetched as
      "texturePack" data, anything else as the "terrain" image. */
  function DownloadTexturePack(lists: UrlLists, url: string): (r: seq<Request>)
    ensures url in lists.denied ==> r == []
    ensures url !in lists.denied ==> |r| == 1
    ensures url !in lists.denied ==> (r[0] == DownloadData(url, "texturePack") <==> Contains(url, ".zip"))
    ensures url !in lists.denied ==> (r[0] == DownloadImage(url, "terrain") <==> !Contains(url, ".zip"))
  {
    if url in lists.denied then []
    else if Contains(url, ".zip") then [DownloadData(url, "texturePack")]
    else [DownloadImage(url, "terrain")]
  }

  /** RetrieveTexturePack: an unanswered url asks for the download size and
      prompts the user; an answered one goes straight to
      DownloadTexturePack. */
  function RetrieveTexturePack(lists: UrlLists, url: string): (r: seq<Request>)
    ensures url !in lists.accepted && url !in lists.denied ==>
              r == [RequestContentLength(url, Identifier(url)), ShowWarning(Identifier(url), Address(url))]
    ensures url in lists.accepted || url in lists.denied ==> r == DownloadTexturePack(lists, url)
  {
    if url !in lists.accepted && url !in lists.denied then
      [RequestContentLength(url, Identifier(url)), ShowWarning(Identifier(url), Address(url))]
    else DownloadTexturePack(lists, url)
  }

  /** The prompt's accept action: DownloadTexturePack of the url after the
      identifier's prefix. */
  function DownloadFromScreen(lists: UrlLists, metadata: string): Result<seq<Request>>
  {
    var url :- Substring3(metadata);
    Ok(DownloadTexturePack(lists, url))
  }

  /** Accepting the prompt downloads exactly the url that was prompted for,
      and a prompt is shown only for a url that is not denied, so it always
      leads to a download. */
  lemma PromptDownloadsPromptedUrl(lists: UrlLists, url: string)
    requires url !in lists.accepted && url !in lists.denied
    ensures RetrieveTexturePack(lists, url)[1].ShowWarning?
    ensures DownloadFromScreen(lists, RetrieveTexturePack(lists, url)[1].identifier)
            == Ok(DownloadTexturePack(lists, url))
    ensures |DownloadTexturePack(lists, url)| == 1
  {
    IdentifierRoundTrip(url);
  }

  /** An answered url is never prompted for again. */
  lemma AnsweredUrlNotPrompted(lists: UrlLists, url: string)
    requires url in lists.accepted || url in lists.denied
    ensures forall k :: 0 <= k < |RetrieveTexturePack(lists, url)| ==> !RetrieveTexturePack(lists, url)[k].ShowWarning?
  {
  }

  // ---------------------------------------------------------------------
  // Downloaded items

  /** What a download produced: a content length (from a size request) or
      a payload (an image or a zip), by identity. */
  datatype ItemData = ContentLength(length: int) | Payload(asset: nat)

  /** A WebException: whether its status is ProtocolError, and the HTTP
      status code of its response. */
  datatype WebError = WebError(protocolError: bool, statusCode: int)

  datatype DownloadedItem = DownloadedItem(url: string, data: Option<ItemData>, webError: Option<WebError>)

  /** The texts the warning screen is updated with. */
  datatype WarningText = WarningText(address: string, contentLength: int)

  /** WarningScreenTick: once the size request for the prompt's identifier
      has a positive length, show the address and the size. */
  function WarningScreenTick(identifier: string, items: map<string, DownloadedItem>): (r: Result<Option<WarningText>>)
    ensures identifier !in items || items[identifier].data.None? ==> r == Ok(Option<WarningText>.None)
    ensures (identifier in items && items[identifier].data.Some? && items[identifier].data.value.ContentLength?
             && items[identifier].data.value.length <= 0) ==> r == Ok(Option<WarningText>.None)
    ensures r.Ok? && r.value.Some? ==> identifier in items && items[identifier].data.Some?
                                       && items[identifier].data.value.ContentLength?
                                       && r.value.value.contentLength == items[identifier].data.value.length > 0
  {
    if identifier !in items || items[identifier].data.None? then Ok(None)
    else match items[identifier].data.value
      case Payload(_) => Err(InvalidCast)
      case ContentLength(length) =>
        if length <= 0 then Ok(None)
        else
          var url :- Substring3(identifier);
          Ok(Some(WarningText(Address(url), length)))
  }

  /** The prompt's own identifier shows the prompted url's address. */
  lemma WarningShowsPromptedAddress(url: string, length: int, items: map<string, DownloadedItem>)
    requires Identifier(url) in items
    requires items[Identifier(url)].data == Some(ContentLength(length)) && length > 0
    ensures WarningScreenTick(Identifier(url), items) == Ok(Some(WarningText(Address(url), length)))
  {
    IdentifierRoundTrip(url);
  }

  /** Is304Status: a protocol error whose response is 304 Not Modified. */
  function Is304Status(ex: Option<WebError>): (b: bool)
    ensures ex.None? ==> !b
    ensures ex.Some? && !ex.value.protocolError ==> !b
    ensures b <==> ex.Some? && ex.value.protocolError && ex.value.statusCode == 304
  {
    if ex.None? || !ex.value.protocolError then false
    else ex.value.statusCode == 304
  }

  datatype Resource = Terrain | TexturePack

  /** What finishing a download does besides setting the texture url. */
  datatype Effect =
    | DisposeAnimations
    | Apply(resource: Resource, asset: nat)   // ChangeTerrainAtlas or TexturePackExtractor.Extract
    | AddToCache(url: string, asset: nat)
    | ExtractDefault                          // the default pack; the texture url becomes null

  datatype Outcome = Outcome(textureUrl: Option<string>, effects: seq<Effect>)

  /** One branch of CheckAsyncResources for a finished item. `cached` is the
      texture cache on disk, by url. */
  function ApplyItem(resource: Resource, item: DownloadedItem, textureUrl: Option<string>,
                     cached: map<string, nat>): (r: Result<Outcome>)
    ensures item.data.Some? && item.data.value.Payload? ==>
              r == Ok(Outcome(Some(item.url), [DisposeAnimations, Apply(resource, item.data.value.asset),
                                                AddToCache(item.url, item.data.value.asset)]))
    ensures item.data.None? && Is304Status(item.webError) && item.url !in cached ==>
              r == Ok(Outcome(None, [ExtractDefault]))
    ensures item.data.None? && Is304Status(item.webError) && item.url in cached ==>
              r.Ok? && r.value.textureUrl == Some(item.url)
              && (r.value.effects != [] <==> textureUrl != Some(item.url))
    ensures item.data.None? && !Is304Status(item.webError) ==> r == Ok(Outcome(None, [ExtractDefault]))
    ensures r.Ok? ==> (r.value.textureUrl == Some(item.url) <==> ExtractDefault !in r.value.effects)
  {
    if item.data.Some? then
      match item.data.value
      case ContentLength(_) => Err(InvalidCast)
      case Payload(asset) =>
        Ok(Outcome(Some(item.url), [DisposeAnimations, Apply(resource, asset), AddToCache(item.url, asset)]))
    else if Is304Status(item.webError) then
      if item.url !in cached then Ok(Outcome(None, [ExtractDefault]))
      else if Some(item.url) != textureUrl then
        Ok(Outcome(Some(item.url), [DisposeAnimations, Apply(resource, cached[item.url])]))
      else Ok(Outcome(Some(item.url), []))
    else Ok(Outcome(None, [ExtractDefault]))
  }

  /** A 304 for the pack already in use changes nothing at all. */
  lemma NotModifiedCurrentIsNoOp(resource: Resource, item: DownloadedItem, cached: map<string, nat>)
    requires item.data.None? && Is304Status(item.webError) && item.url in cached
    ensures ApplyItem(resource, item, Some(item.url), cached) == Ok(Outcome(Some(item.url), []))
  {
  }

  /** CheckAsyncResources: the "terrain" item, then the "texturePack" item. */
  function CheckAsyncResources(items: map<string, DownloadedItem>, textureUrl: Option<string>,
                               cached: map<string, nat>): (r: Result<Outcome>)
    ensures "terrain" !in items && "texturePack" !in items ==> r == Ok(Outcome(textureUrl, []))
    ensures r.Err? <==> exists key :: key in items && (key == "terrain" || key == "texturePack")
                                      && items[key].data.Some? && items[key].data.value.ContentLength?
    ensures "texturePack" in items && items["texturePack"].data.Some? && items["texturePack"].data.value.Payload? && r.Ok? ==>
              r.value.textureUrl == Some(items["texturePack"].url) && |r.value.effects| > 0
              && r.value.effects[|r.value.effects| - 1] == AddToCache(items["texturePack"].url, items["texturePack"].data.value.asset)
    ensures r.Ok? && "texturePack" in items && items["texturePack"].data.None?
            && !Is304Status(items["texturePack"].webError) ==>
              r.value.textureUrl.None? && ExtractDefault in r.value.effects
  {
    var afterTerrain :-
      if "terrain" in items then ApplyItem(Terrain, items["terrain"], textureUrl, cached)
      else Ok(Outcome(textureUrl, []));
    if "texturePack" in items then
      var pack :- ApplyItem(TexturePack, items["texturePack"], afterTerrain.textureUrl, cached);
      Ok(Outcome(pack.textureUrl, afterTerrain.effects + pack.effects))
    else Ok(afterTerrain)
  }

  /** With only a terrain image finished, the texture url afterwards is that
      image's url exactly when it was applied, and the effects are the
      terrain branch's. */
  lemma CheckTerrainOnly(item: DownloadedItem, textureUrl: Option<string>, cached: map<string, nat>)
    requires item.data.None? || item.data.value.Payload?
    ensures var r := CheckAsyncResources(map["terrain" := item], textureUrl, cached);
            && r == ApplyItem(Terrain, item, textureUrl, cached)
            && r.Ok?
            && (r.value.textureUrl == Some(item.url) <==> ExtractDefault !in r.value.effects)
  {
  }
}
