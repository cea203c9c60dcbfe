/** The bulk-data direct-URL resolver (`getDirectURL`): given the data
    source's configuration and a request naming an instance and one of its
    attributes, produce a URL for that attribute's bulk data, following the
    DICOMweb WADO-RS addressing of DICOM PS3.18 (the Retrieve transaction and
    its rendered resources, section 10.4; the `accept` query parameter,
    section 8.3.3.1).

    The resolver is split in two. `Decide` is the pure precedence logic: which
    branch fires for a request, given a snapshot (`AttrView`) of the
    attribute. `Resolve` carries the branch out on the mutable attribute
    object, the only state the resolver writes being the memoised
    `DirectRetrieveURL`. `CompleteFetch` is the continuation that runs when
    an asynchronous bulk-data retrieval delivers its bytes. */
module DirectUrl {
  import opened Wrappers
  import opened JsString
  import opened ObjectUrls

  /** `config.singlepart`: `false` (or any falsy value), `true`, a string of
      part names, or an array of part names. */
  datatype SinglePart = Disabled | Enabled | PartString(text: string) | PartArray(parts: seq<string>)

  datatype Config = Config(wadoRoot: string, singlepart: SinglePart)

  /** One attribute of an instance, as a mutable object: naturalised DICOM
      JSON (`InlineBinary`, `BulkDataURI`) plus the runtime additions
      `DirectRetrieveURL` (the memo) and `retrieveBulkData` (whether the
      asynchronous retrieval capability is attached). */
  class AttributeValue {
    var DirectRetrieveURL: Option<string>
    var InlineBinary: Option<string>
    var BulkDataURI: Option<string>
    var hasRetrieveBulkData: bool

    constructor (direct: Option<string>, inline: Option<string>, bulk: Option<string>, retrieve: bool)
      ensures View() == AttrView(direct, inline, bulk, retrieve)
    {
      DirectRetrieveURL, InlineBinary, BulkDataURI, hasRetrieveBulkData := direct, inline, bulk, retrieve;
    }

    /** The attribute's current field values. */
    function View(): AttrView
      reads this
    {
      AttrView(DirectRetrieveURL, InlineBinary, BulkDataURI, hasRetrieveBulkData)
    }
  }

  /** A snapshot of an `AttributeValue`'s fields. */
  datatype AttrView = AttrView(
    DirectRetrieveURL: Option<string>,
    InlineBinary: Option<string>,
    BulkDataURI: Option<string>,
    hasRetrieveBulkData: bool)

  /** Naturalised instance metadata: its three identifying UIDs and its
      attributes by keyword. */
  datatype Instance = Instance(
    StudyInstanceUID: string,
    SeriesInstanceUID: string,
    SOPInstanceUID: string,
    attributes: map<string, AttributeValue>)

  /** Per-call parameters; `None` is a parameter left undefined. `singlepart`
      is the part being fetched (`fetchPart`). */
  datatype Params = Params(
    instance: Instance,
    tag: Option<string>,
    defaultPath: Option<string>,
    defaultType: Option<string>,
    singlepart: Option<string>,
    url: Option<string>)

  /** The two fallbacks consulted when the attribute is absent. */
  datatype Fallbacks = Fallbacks(
    renderedRetrieve: (Config, Params) -> Option<string>,
    bulkdataValue: (Config, Params) -> Option<string>)

  // The destructuring defaults of the per-call parameters.
  function Tag(p: Params): string { p.tag.GetOr("PixelData") }
  function DefaultPath(p: Params): string { p.defaultPath.GetOr("/pixeldata") }
  function DefaultType(p: Params): string { p.defaultType.GetOr("video/mp4") }
  function FetchPart(p: Params): string { p.singlepart.GetOr("video") }

  /** The attribute object the request addresses, if the instance has it. */
  function Target(p: Params): set<AttributeValue> {
    if Tag(p) in p.instance.attributes then {p.instance.attributes[Tag(p)]} else {}
  }

  /** The current fields of the addressed attribute, or `None` if absent. */
  function ViewOf(p: Params): Option<AttrView>
    reads Target(p)
  {
    if Tag(p) in p.instance.attributes then Some(p.instance.attributes[Tag(p)].View()) else None
  }

  // ---------------------------------------------------------------------
  // Eligibility for direct single-part retrieval

  predicate SinglePartTruthy(sp: SinglePart) {
    match sp
    case Disabled => false
    case Enabled => true
    case PartString(t) => t != ""
    case PartArray(_) => true
  }

  /** `singlepart.indexOf(fetchPart)`: a substring search on a string, an
      element search on an array. */
  function SinglePartIndexOf(sp: SinglePart, fetchPart: string): int
    requires sp.PartString? || sp.PartArray?
  {
    if sp.PartString? then IndexOf(sp.text, fetchPart) else ArrayIndexOf(sp.parts, fetchPart)
  }

  /** The test that sends a request away from direct URL construction:
      single-part retrieval is off (falsy), or it is a list or string of part
      names in which the search for the requested part comes back empty. */
  predicate Ineligible(sp: SinglePart, fetchPart: string) {
    !SinglePartTruthy(sp) || (!sp.Enabled? && SinglePartIndexOf(sp, fetchPart) == -1)
  }

  /** Eligibility holds exactly when `singlepart` is `true`, or a non-empty
      string containing `fetchPart`, or an array with `fetchPart` as an element. */
  lemma EligibleIff(sp: SinglePart, fetchPart: string)
    ensures !Ineligible(sp, fetchPart) <==>
      || sp == Enabled
      || (sp.PartString? && sp.text != "" && Contains(sp.text, fetchPart))
      || (sp.PartArray? && fetchPart in sp.parts)
  {
  }

  // ---------------------------------------------------------------------
  // Direct URL construction

  /** The attribute's `BulkDataURI`, or the series-relative default. */
  function BulkDataUriFor(inst: Instance, bulk: Option<string>, defaultPath: string): (uri: string)
    ensures Truthy(bulk) ==> uri == bulk.value
    ensures !Truthy(bulk) ==>
      uri == "series/" + inst.SeriesInstanceUID + "/instances/" + inst.SOPInstanceUID + defaultPath
  {
    if Truthy(bulk) then bulk.value
    else "series/" + inst.SeriesInstanceUID + "/instances/" + inst.SOPInstanceUID + defaultPath
  }

  /** The URI with `accept=<mediaType>` added as a query parameter, unless
      it already names one. */
  function AcceptUri(uri: string, mediaType: string): (r: string)
    ensures Contains(uri, "accept=") ==> r == uri
    ensures !Contains(uri, "accept=") ==>
      r == uri + [if Contains(uri, "?") then '&' else '?'] + "accept=" + mediaType
  {
    var hasQuery := IndexOf(uri, "?") != -1;
    var hasAccept := IndexOf(uri, "accept=") != -1;
    uri + (if hasAccept then "" else (if hasQuery then "&" else "?") + "accept=" + mediaType)
  }

  /** The WADO-RS rendered resource of an instance. */
  function RenderedUrl(wadoRoot: string, inst: Instance): string {
    wadoRoot + "/studies/" + inst.StudyInstanceUID + "/series/" + inst.SeriesInstanceUID
      + "/instances/" + inst.SOPInstanceUID + "/rendered"
  }

  /** The URL built for an eligible attribute. */
  function ConstructUrl(wadoRoot: string, inst: Instance, tag: string, bulk: Option<string>,
                        defaultPath: string, defaultType: string): (r: string)
    ensures var uri := BulkDataUriFor(inst, bulk, defaultPath);
      && ((tag == "PixelData" || tag == "EncapsulatedDocument") && !Contains(uri, "?") ==>
            r == RenderedUrl(wadoRoot, inst))
      && (!((tag == "PixelData" || tag == "EncapsulatedDocument") && !Contains(uri, "?")) ==>
            r == if StartsWith(AcceptUri(uri, defaultType), "series")
                 then wadoRoot + "/studies/" + inst.StudyInstanceUID + "/" + AcceptUri(uri, defaultType)
                 else AcceptUri(uri, defaultType))
  {
    var uri := BulkDataUriFor(inst, bulk, defaultPath);
    var hasQuery := IndexOf(uri, "?") != -1;
    var acceptUri := AcceptUri(uri, defaultType);
    if (tag == "PixelData" || tag == "EncapsulatedDocument") && !hasQuery then
      RenderedUrl(wadoRoot, inst)
    else if StartsWith(acceptUri, "series") then
      wadoRoot + "/studies/" + inst.StudyInstanceUID + "/" + acceptUri
    else
      acceptUri
  }

  /** Adding the accept parameter to a URI that has none, with a media type
      that does not itself spell `accept=`, leaves exactly one `accept=`, at
      the position just after the separator. */
  lemma AcceptAddedOnce(uri: string, mediaType: string)
    requires !Contains(uri, "accept=") && !Contains(mediaType, "accept=")
    ensures Occurrences(AcceptUri(uri, mediaType), "accept=") == {|uri| + 1}
    ensures |Occurrences(AcceptUri(uri, mediaType), "accept=")| == 1
  {
    var c := if Contains(uri, "?") then '&' else '?';
    var s := AcceptUri(uri, mediaType);
    assert s == uri + [c] + "accept=" + mediaType;
    assert s[|uri| + 1..|uri| + 8] == "accept=";
    forall i | 0 <= i <= |s| && OccursAt(s, "accept=", i) ensures i == |uri| + 1 {
      OnlyAfterSeparator(uri, c, mediaType, i);
    }
    assert OccursAt(s, "accept=", |uri| + 1);
  }

  /** Where `accept=` can occur once a separator and the parameter are
      appended to a URI and a media type that have none. */
  lemma OnlyAfterSeparator(uri: string, c: char, t: string, i: int)
    requires c == '?' || c == '&'
    requires !Contains(uri, "accept=") && !Contains(t, "accept=")
    requires OccursAt(uri + [c] + "accept=" + t, "accept=", i)
    ensures i == |uri| + 1
  {
    var s, n := uri + [c] + "accept=" + t, |uri|;
    CharInOccurrence(s, "accept=", i, n);
    CharInOccurrence(s, "accept=", i, i);
    if i + 7 <= n {
      assert s == uri + ([c] + "accept=" + t);
      OccursInParts(uri, [c] + "accept=" + t, "accept=", i);
    } else if i >= n + 8 {
      OccursInParts(uri + [c] + "accept=", t, "accept=", i);
    }
  }

  /** An accept parameter already present is left alone: the URI, and so
      every `accept=` in it, is unchanged. */
  lemma AcceptKept(uri: string, mediaType: string)
    requires Contains(uri, "accept=")
    ensures Occurrences(AcceptUri(uri, mediaType), "accept=") == Occurrences(uri, "accept=")
  {
  }

  /** Whenever the rendered endpoint is not chosen, the constructed URL
      carries an `accept=` parameter. */
  lemma {:induction false} ConstructedUrlHasAccept(wadoRoot: string, inst: Instance, tag: string,
                                                   bulk: Option<string>, defaultPath: string, defaultType: string)
    requires var uri := BulkDataUriFor(inst, bulk, defaultPath);
      !((tag == "PixelData" || tag == "EncapsulatedDocument") && !Contains(uri, "?"))
    ensures Contains(ConstructUrl(wadoRoot, inst, tag, bulk, defaultPath, defaultType), "accept=")
  {
    var uri := BulkDataUriFor(inst, bulk, defaultPath);
    AcceptUriHasAccept(uri, defaultType);
    ContainsInParts(wadoRoot + "/studies/" + inst.StudyInstanceUID + "/", AcceptUri(uri, defaultType), "accept=");
  }

  /** After `AcceptUri` the URI names an accept parameter. */
  lemma AcceptUriHasAccept(uri: string, mediaType: string)
    ensures Contains(AcceptUri(uri, mediaType), "accept=")
  {
    if !Contains(uri, "accept=") {
      var c := if Contains(uri, "?") then '&' else '?';
      ContainsInParts(uri + [c], "accept=" + mediaType, "accept=");
      assert OccursAt("accept=" + mediaType, "accept=", 0);
      assert uri + [c] + "accept=" + mediaType == (uri + [c]) + ("accept=" + mediaType);
    }
  }

  /** A series-relative `BulkDataURI` that already has a query gets the
      accept parameter after `&`, and the study prefix in front. */
  lemma SeriesRelativeWithQuery(wadoRoot: string, inst: Instance, tag: string, uri: string,
                                defaultPath: string, defaultType: string)
    requires StartsWith(uri, "series") && Contains(uri, "?") && !Contains(uri, "accept=")
    ensures ConstructUrl(wadoRoot, inst, tag, Some(uri), defaultPath, defaultType)
         == wadoRoot + "/studies/" + inst.StudyInstanceUID + "/" + uri + "&accept=" + defaultType
  {
  }

  /** A `PixelData` or `EncapsulatedDocument` request without a
      `BulkDataURI` is answered with the rendered endpoint, whenever the
      default path and the UIDs hold no `?` (DICOM UIDs are digits and dots). */
  lemma NoBulkDataUriGivesRendered(wadoRoot: string, inst: Instance, tag: string,
                                   defaultPath: string, defaultType: string)
    requires tag == "PixelData" || tag == "EncapsulatedDocument"
    requires !Contains(inst.SeriesInstanceUID, "?") && !Contains(inst.SOPInstanceUID, "?")
    requires !Contains(defaultPath, "?")
    ensures ConstructUrl(wadoRoot, inst, tag, None, defaultPath, defaultType) == RenderedUrl(wadoRoot, inst)
  {
    var u1 := "series/" + inst.SeriesInstanceUID;
    var u2 := u1 + "/instances/";
    var u3 := u2 + inst.SOPInstanceUID;
    assert BulkDataUriFor(inst, None, defaultPath) == u3 + defaultPath;
    CharAbsent("series/", '?');
    CharAbsent("/instances/", '?');
    CharAbsentConcat("series/", inst.SeriesInstanceUID, '?');
    CharAbsentConcat(u1, "/instances/", '?');
    CharAbsentConcat(u2, inst.SOPInstanceUID, '?');
    CharAbsentConcat(u3, defaultPath, '?');
  }

  // ---------------------------------------------------------------------
  // Branch selection

  /** What a request resolves to, before any effect is carried out. */
  datatype Plan =
    | Override(url: string)              // an explicit `url` parameter
    | Fallback(result: Option<string>)   // attribute absent: the fallbacks' answer
    | Cached(url: string)                // the memoised `DirectRetrieveURL`
    | MemoInline(blob: Blob)             // register the inline binary and memoise its URL
    | Fetch(mediaType: string)           // start an asynchronous retrieval
    | Unavailable                        // nothing to retrieve with
    | Direct(url: string)                // a constructed WADO-RS URL

  /** The branch `getDirectURL` takes, tried in the source's order. */
  function Decide(config: Config, params: Params, fallbacks: Fallbacks, view: Option<AttrView>): Plan {
    if Truthy(params.url) then Override(params.url.value)
    else if view.None? then
      Fallback(Or(fallbacks.renderedRetrieve(config, params), fallbacks.bulkdataValue(config, params)))
    else if Truthy(view.value.DirectRetrieveURL) then Cached(view.value.DirectRetrieveURL.value)
    else if Truthy(view.value.InlineBinary) then
      MemoInline(Blob(Base64(view.value.InlineBinary.value), DefaultType(params)))
    else if Ineligible(config.singlepart, FetchPart(params)) then
      if view.value.hasRetrieveBulkData then Fetch(DefaultType(params)) else Unavailable
    else
      Direct(ConstructUrl(config.wadoRoot, params.instance, Tag(params), view.value.BulkDataURI,
                          DefaultPath(params), DefaultType(params)))
  }

  /** An explicit URL wins over everything else, whatever the attribute holds. */
  lemma OverrideWins(config: Config, params: Params, fallbacks: Fallbacks, view: Option<AttrView>)
    requires Truthy(params.url)
    ensures Decide(config, params, fallbacks, view) == Override(params.url.value)
  {
  }

  /** An absent attribute is answered by the rendered-retrieve fallback when
      that gives a truthy URL; only otherwise is the bulk-data fallback's
      result used, and with neither the answer is `undefined`. */
  lemma AbsentUsesFallbacks(config: Config, params: Params, fallbacks: Fallbacks)
    requires !Truthy(params.url)
    ensures var rendered := fallbacks.renderedRetrieve(config, params);
      var bulk := fallbacks.bulkdataValue(config, params);
      Immediate(Decide(config, params, fallbacks, None))
        == if Truthy(rendered) then Resolved(rendered.value)
           else if bulk.Some? then Resolved(bulk.value)
           else Undefined
  {
  }

  /** A memoised URL is answered as is, whatever else the attribute holds. */
  lemma CacheHit(config: Config, params: Params, fallbacks: Fallbacks, v: AttrView)
    requires !Truthy(params.url) && Truthy(v.DirectRetrieveURL)
    ensures Decide(config, params, fallbacks, Some(v)) == Cached(v.DirectRetrieveURL.value)
  {
  }

  /** Storing a non-empty URL into `DirectRetrieveURL` after an inline
      binary or a bulk retrieval makes every later request answer that URL
      through the cache, without decoding or fetching again. */
  lemma MemoisedThenCached(config: Config, params: Params, fallbacks: Fallbacks, v: AttrView, url: string)
    requires Decide(config, params, fallbacks, Some(v)).MemoInline?
          || Decide(config, params, fallbacks, Some(v)).Fetch?
    requires url != ""
    ensures Decide(config, params, fallbacks, Some(v.(DirectRetrieveURL := Some(url)))) == Cached(url)
  {
  }

  /** An ineligible attribute without a retrieval capability resolves to
      nothing; with one, a retrieval of the default media type starts. */
  lemma IneligibleOutcome(config: Config, params: Params, fallbacks: Fallbacks, v: AttrView)
    requires !Truthy(params.url) && !Truthy(v.DirectRetrieveURL) && !Truthy(v.InlineBinary)
    requires Ineligible(config.singlepart, FetchPart(params))
    ensures Decide(config, params, fallbacks, Some(v))
         == if v.hasRetrieveBulkData then Fetch(DefaultType(params)) else Unavailable
  {
  }

  // ---------------------------------------------------------------------
  // Carrying the branch out

  /** `getDirectURL`'s return value: a URL, a pending promise for one
      (retrieval started with the given media type), or `undefined`. */
  datatype Resolution = Resolved(url: string) | Pending(mediaType: string) | Undefined

  /** What a branch that writes nothing returns. */
  function Immediate(plan: Plan): (r: Resolution)
    requires !plan.MemoInline?
  {
    match plan
    case Override(u) => Resolved(u)
    case Fallback(o) => if o.Some? then Resolved(o.value) else Undefined
    case Cached(u) => Resolved(u)
    case Fetch(t) => Pending(t)
    case Unavailable => Undefined
    case Direct(u) => Resolved(u)
  }

  /** `getDirectURL(config, params)`. Only the inline-binary branch changes
      anything: it registers one blob and memoises its fresh URL on the
      attribute; every other field of the attribute stays as it was. */
  method Resolve(config: Config, params: Params, fallbacks: Fallbacks, registry: BlobRegistry)
    returns (r: Resolution)
    modifies registry, Target(params)
    ensures var plan := Decide(config, params, fallbacks, old(ViewOf(params)));
      && (!plan.MemoInline? ==>
            r == Immediate(plan) && unchanged(registry) && unchanged(Target(params)))
      && (plan.MemoInline? ==>
            && r.Resolved?
            && r.url == BlobUrl(|old(registry.blobs)|)
            && r.url !in old(registry.Issued())
            && registry.blobs == old(registry.blobs) + [plan.blob]
            && ViewOf(params) == Some(old(ViewOf(params)).value.(DirectRetrieveURL := Some(r.url))))
  {
    if Truthy(params.url) {
      return Resolved(params.url.value);
    }
    var tag := Tag(params);
    if tag !in params.instance.attributes {
      var fallback := Or(fallbacks.renderedRetrieve(config, params), fallbacks.bulkdataValue(config, params));
      return if fallback.Some? then Resolved(fallback.value) else Undefined;
    }
    var value := params.instance.attributes[tag];
    if Truthy(value.DirectRetrieveURL) {
      return Resolved(value.DirectRetrieveURL.value);
    }
    var defaultType := DefaultType(params);
    if Truthy(value.InlineBinary) {
      var url := registry.CreateObjectUrl(Blob(Base64(value.InlineBinary.value), defaultType));
      value.DirectRetrieveURL := Some(url);
      return Resolved(url);
    }
    if Ineligible(config.singlepart, FetchPart(params)) {
      if value.hasRetrieveBulkData {
        return Pending(defaultType);
      }
      return Undefined;
    }
    var url := ConstructUrl(config.wadoRoot, params.instance, tag, value.BulkDataURI,
                            DefaultPath(params), defaultType);
    return Resolved(url);
  }

  /** The continuation of a started retrieval: the bytes `data` arrive, are
      wrapped in a blob of `mediaType`, registered, and the blob's fresh URL
      is memoised on the attribute and delivered. */
  method CompleteFetch(value: AttributeValue, data: seq<bv8>, mediaType: string, registry: BlobRegistry)
    returns (url: string)
    modifies value`DirectRetrieveURL, registry
    ensures url != "" && url !in old(registry.Issued())
    ensures registry.blobs == old(registry.blobs) + [Blob(Bytes(data), mediaType)]
    ensures value.DirectRetrieveURL == Some(url)
  {
    url := registry.CreateObjectUrl(Blob(Bytes(data), mediaType));
    value.DirectRetrieveURL := Some(url);
  }

  /** Resolving the same request twice. Outside the retrieval branch both
      calls give the same answer, and an inline binary is registered on the
      first call only. In the retrieval branch each call starts a retrieval of
      its own: both answers are pending, nothing is registered yet, and each
      retrieval's continuation (`CompleteFetch`) later registers its own blob. */
  method ResolveTwice(config: Config, params: Params, fallbacks: Fallbacks, registry: BlobRegistry)
    returns (first: Resolution, second: Resolution)
    modifies registry, Target(params)
    ensures var plan := Decide(config, params, fallbacks, old(ViewOf(params)));
      && (!plan.Fetch? ==> second == first)
      && (plan.Fetch? ==> first.Pending? && second.Pending? && registry.blobs == old(registry.blobs))
    ensures |registry.blobs| <= |old(registry.blobs)| + 1
  {
    ghost var v0 := ViewOf(params);
    first := Resolve(config, params, fallbacks, registry);
    if Decide(config, params, fallbacks, v0).MemoInline? {
      MemoisedThenCached(config, params, fallbacks, v0.value, first.url);
    }
    second := Resolve(config, params, fallbacks, registry);
  }
}
