/**
 * Upload and export as whole operations: `externalizeEmbeddedImages` moves images of mutations to
 * the File API, `resolveWorkspaceExportImages` inlines them again.
 */
module ImageTransfer {
  import opened Wrappers
  import opened Strings
  import opened Json
  import opened ImageEquality
  import opened ImageReach
  import opened ImageReferences
  import opened ImageRewriting
  import opened ImageRoundTrip
  import opened EmbeddedImages
  import opened ExportAssets
  import B = Base64

  datatype Mutation = Mutation(id: string, data: Text)

  /** SHA-256 is treated as injective: a digest stands for the bytes it was computed from. */
  datatype Digest = Digest(bytes: seq<B.Byte>)

  /** What the File API answers for the upload of each content; no entry is a failed upload. */
  type Uploads = map<Digest, Text>

  // ---------- Upload ----------

  function VisitedSources(mutations: seq<Mutation>): seq<Text> {
    if mutations == [] then []
    else
      (match ParseJson(mutations[0].data)
       case Some(data) => Visit(data, Base64)
       case None => [])
      + VisitedSources(mutations[1..])
  }

  /** The file id that a source gets, if it is an image and its upload succeeds. */
  function FileIdOf(source: Text, uploads: Uploads): Option<Text> {
    match TryParseEmbeddedImage(source)
    case None => None
    case Some(image) =>
      var digest := Digest(image.bytes);
      if digest in uploads && NonEmpty(uploads[digest]) then Some(uploads[digest]) else None
  }

  function FileIds(sources: seq<Text>, uploads: Uploads): map<Text, Text> {
    map s | s in sources && FileIdOf(s, uploads).Some? :: FileIdOf(s, uploads).value
  }

  /** `rewriteMutation`: data that keeps its identity leaves the mutation as it is. */
  function RewriteMutation(mutation: Mutation, ids: map<Text, Text>): Mutation {
    match ParseJson(mutation.data)
    case None => mutation
    case Some(data) =>
      var plan := Plan(Base64, Uuid, ids);
      if Changed(data, plan) then mutation.(data := Stringify(Rewrite(data, plan))) else mutation
  }

  predicate ValidMutation(mutation: Mutation) {
    Valid(Str(mutation.data))
  }

  /** What `externalizeEmbeddedImages` returns: all mutations use the ids of all their images. */
  predicate Externalized(mutations: seq<Mutation>, uploads: Uploads, result: seq<Mutation>) {
    && |result| == |mutations|
    && forall i | 0 <= i < |mutations| ::
         result[i] == RewriteMutation(mutations[i], FileIds(VisitedSources(mutations), uploads))
  }

  /** With nothing to replace nothing changes, so the early returns lose nothing. */
  lemma {:induction false} NothingMapped(v: Json, plan: Plan)
    requires plan.replacements == map[]
    ensures !Changed(v, plan)
    decreases v, 0
  {
    match v
    case Arr(items) =>
      forall i | 0 <= i < |items| ensures !Changed(items[i], plan) {
        NothingMapped(items[i], plan);
      }
    case Obj(fields) =>
      forall i | 0 <= i < |fields|
        ensures !ChangedMember(fields[i].key, fields[i].value, plan)
      {
        NothingMappedMember(fields[i].key, fields[i].value, plan);
      }
    case _ =>
  }

  lemma {:induction false} NothingMappedMember(key: string, v: Json, plan: Plan)
    requires plan.replacements == map[]
    ensures !ChangedMember(key, v, plan)
    decreases v, 2
  {
    if key == "resources" && v.Arr? {
      forall i | 0 <= i < |v.items| ensures !ChangedResource(v.items[i], plan) {
        NothingMapped(v.items[i], plan);
        if EncodedData(v.items[i]).Some? {
          NothingMapped(EncodedData(v.items[i]).value, plan);
        }
      }
    } else {
      NothingMapped(v, plan);
    }
  }

  lemma NothingRewritten(mutations: seq<Mutation>)
    ensures forall i | 0 <= i < |mutations| :: RewriteMutation(mutations[i], map[]) == mutations[i]
  {
    forall i | 0 <= i < |mutations|
      ensures RewriteMutation(mutations[i], map[]) == mutations[i]
    {
      if ParseJson(mutations[i].data).Some? {
        NothingMapped(ParseJson(mutations[i].data).value, Plan(Base64, Uuid, map[]));
      }
    }
  }

  /** `collectEmbeddedImages` */
  method CollectEmbeddedImages(mutations: seq<Mutation>)
    returns (images: map<Text, EmbeddedImage>)
    ensures forall s ::
      s in images <==> s in VisitedSources(mutations) && TryParseEmbeddedImage(s).Some?
    ensures forall s | s in images :: TryParseEmbeddedImage(s) == Some(images[s])
  {
    hide TryParseEmbeddedImage, Visit;
    images := map[];
    for i := 0 to |mutations|
      invariant forall s ::
        s in images <==> s in VisitedSources(mutations[..i]) && TryParseEmbeddedImage(s).Some?
      invariant forall s | s in images :: TryParseEmbeddedImage(s) == Some(images[s])
    {
      var data := ParseJson(mutations[i].data);
      var visited := if data.Some? then Visit(data.value, Base64) else [];
      VisitedThen(mutations, i);
      ghost var before := images;
      for k := 0 to |visited|
        invariant forall s ::
          s in images <==> s in before || (s in visited[..k] && TryParseEmbeddedImage(s).Some?)
        invariant forall s | s in images :: TryParseEmbeddedImage(s) == Some(images[s])
      {
        if visited[k] !in images {
          var image := TryParseEmbeddedImage(visited[k]);
          if image.Some? {
            images := images[visited[k] := image.value];
          }
        }
      }
      assert visited[..|visited|] == visited;
    }
    assert mutations[..|mutations|] == mutations;
  }

  lemma {:induction false} VisitedThen(mutations: seq<Mutation>, i: nat)
    requires i < |mutations|
    ensures VisitedSources(mutations[..i + 1])
            == VisitedSources(mutations[..i])
               + match ParseJson(mutations[i].data)
                 case Some(data) => Visit(data, Base64)
                 case None => []
  {
    hide Visit;
    if i > 0 {
      VisitedThen(mutations[1..], i - 1);
      assert mutations[..i + 1][1..] == mutations[1..][..i];
      assert mutations[..i][1..] == mutations[1..][..i - 1];
    }
  }

  /** One upload for each content; those that succeed have a file id. */
  method UploadAll(images: set<Digest>, uploads: Uploads)
    returns (fileIdByDigest: map<Digest, Text>, uploaded: set<Digest>)
    ensures uploaded == images
    ensures forall d :: d in fileIdByDigest <==> d in images && d in uploads && NonEmpty(uploads[d])
    ensures forall d | d in fileIdByDigest :: fileIdByDigest[d] == uploads[d]
  {
    hide NonEmpty;
    uploaded := {};
    var remaining := images;
    fileIdByDigest := map[];
    while remaining != {}
      invariant uploaded + remaining == images && uploaded !! remaining
      invariant forall d ::
        d in fileIdByDigest <==> d in uploaded && d in uploads && NonEmpty(uploads[d])
      invariant forall d | d in fileIdByDigest :: fileIdByDigest[d] == uploads[d]
      decreases remaining
    {
      var digest :| digest in remaining;
      remaining := remaining - {digest};
      uploaded := uploaded + {digest};
      if digest in uploads && NonEmpty(uploads[digest]) {
        fileIdByDigest := fileIdByDigest[digest := uploads[digest]];
      }
    }
  }

  /** `externalizeEmbeddedImages`: every content is uploaded once, failures keep the image inline. */
  method ExternalizeEmbeddedImages(mutations: seq<Mutation>, uploads: Uploads)
    returns (result: seq<Mutation>, uploaded: set<Digest>)
    requires forall i | 0 <= i < |mutations| :: ValidMutation(mutations[i])
    ensures Externalized(mutations, uploads, result)
    ensures uploaded == set s | s in VisitedSources(mutations) && TryParseEmbeddedImage(s).Some?
                            :: Digest(TryParseEmbeddedImage(s).value.bytes)
  {
    hide TryParseEmbeddedImage, RewriteMutation, NonEmpty, VisitedSources, ValidMutation;
    var imagesBySource := CollectEmbeddedImages(mutations);
    var uniqueImages := set s | s in imagesBySource :: Digest(imagesBySource[s].bytes);
    var fileIdByDigest: map<Digest, Text>;
    fileIdByDigest, uploaded := UploadAll(uniqueImages, uploads);
    var fileIdBySource := map s | s in imagesBySource
                                  && Digest(imagesBySource[s].bytes) in fileIdByDigest
                              :: fileIdByDigest[Digest(imagesBySource[s].bytes)];
    assert fileIdBySource == FileIds(VisitedSources(mutations), uploads);
    if imagesBySource == map[] || fileIdByDigest == map[] {
      assert fileIdBySource == map[];
      NothingRewritten(mutations);
      return mutations, uploaded;
    }
    result := [];
    for i := 0 to |mutations|
      invariant |result| == i
      invariant forall j | 0 <= j < i ::
        result[j] == RewriteMutation(mutations[j], fileIdBySource)
    {
      var mutation := RewriteMutationData(mutations[i], fileIdBySource);
      result := result + [mutation];
    }
  }

  method RewriteMutationData(mutation: Mutation, ids: map<Text, Text>) returns (result: Mutation)
    requires ValidMutation(mutation)
    ensures result == RewriteMutation(mutation, ids)
  {
    var data := ParseJson(mutation.data);
    if data.None? {
      return mutation;
    }
    var changed, rewritten := RewriteValue(data.value, Plan(Base64, Uuid, ids));
    result := if changed then mutation.(data := Stringify(rewritten)) else mutation;
  }

  // ---------- Export ----------

  datatype ExportError = AssetUnavailable(assetId: Text) | ImageInvalid(assetId: Text)

  /** What the File API returns for an asset id; no entry is a failed request. */
  type Assets = map<Text, Asset>

  /** The replacements an export makes, when every asset it needs is there and valid. */
  function Replacements(ids: seq<Text>, assets: Assets): map<Text, Text> {
    map id | id in ids && id in assets :: InlineSource(assets[id])
  }

  predicate AllResolve(ids: seq<Text>, assets: Assets) {
    forall id | id in ids :: id in assets && ValidAsset(assets[id])
  }

  /** This asset id cannot be inlined, and the error says why: there is no asset, or a bad one. */
  ghost predicate Refused(assets: Assets, error: ExportError) {
    match error
    case AssetUnavailable(id) => id !in assets
    case ImageInvalid(id) => id in assets && !Accepted(assets[id])
  }

  lemma RefusedExactly(assets: Assets, id: Text)
    ensures id !in assets ==> Refused(assets, AssetUnavailable(id))
    ensures id in assets ==> (ValidAsset(assets[id]) <==> !Refused(assets, ImageInvalid(id)))
  {
    if id in assets {
      AcceptedExactly(assets[id]);
    }
    hide ValidAsset, Accepted;
  }

  ghost predicate AllAccepted(ids: seq<Text>, assets: Assets) {
    forall id | id in ids :: id in assets && Accepted(assets[id])
  }

  /** Each asset is inlined in full, under the media type that it names. */
  ghost predicate InlinedInFull(replacements: map<Text, Text>, assets: Assets) {
    forall id, mime: string | id in replacements && id in assets && Accepts(assets[id], mime) ::
      replacements[id] == Plain("data:" + mime + ";base64," + B.Encode(assets[id].bytes))
  }

  lemma ReplacedInFull(ids: seq<Text>, assets: Assets)
    ensures AllResolve(ids, assets) <==> AllAccepted(ids, assets)
    ensures InlinedInFull(Replacements(ids, assets), assets)
  {
    hide ValidAsset, Accepted, InlineSource, Accepts;
    forall id | id in ids && id in assets
      ensures ValidAsset(assets[id]) <==> Accepted(assets[id])
      ensures forall mime: string | Accepts(assets[id], mime) ::
                InlineSource(assets[id]) == Plain("data:" + mime + ";base64," + B.Encode(assets[id].bytes))
    {
      AcceptedExactly(assets[id]);
    }
  }

  /**
   * `resolveWorkspaceExportImages`: it succeeds exactly when every visited id has an asset that is
   * accepted, with each inlined as the data URI of its bytes, or names the first id that has none.
   */
  method ResolveExportImages(data: Json, assets: Assets)
    returns (r: Result<Json, ExportError>)
    requires Valid(data)
    ensures r.Success? <==> AllAccepted(Visit(data, Uuid), assets)
    ensures r.Success? ==>
      r.value == Rewrite(data, Plan(Uuid, Base64, Replacements(Visit(data, Uuid), assets)))
    ensures InlinedInFull(Replacements(Visit(data, Uuid), assets), assets)
    ensures r.Failure? ==>
      var ids := Visit(data, Uuid);
      exists k :: 0 <= k < |ids| && ids[k] == r.error.assetId && Refused(assets, r.error)
                  && AllResolve(ids[..k], assets)
  {
    hide Visit, ValidAsset, InlineSource, Accepted, AllAccepted, InlinedInFull, Refused;
    var visited := Visit(data, Uuid);
    ReplacedInFull(visited, assets);
    var replacements: map<Text, Text> := map[];
    for k := 0 to |visited|
      invariant replacements == Replacements(visited[..k], assets) && AllResolve(visited[..k], assets)
    {
      var id := visited[k];
      RefusedExactly(assets, id);
      assert visited[..k + 1] == visited[..k] + [id];
      if id !in replacements {
        if id !in assets {
          return Failure(AssetUnavailable(id));
        }
        if !ValidAsset(assets[id]) {
          return Failure(ImageInvalid(id));
        }
        replacements := replacements[id := InlineSource(assets[id])];
      }
    }
    assert visited[..|visited|] == visited;
    var _, rewritten := RewriteValue(data, Plan(Uuid, Base64, replacements));
    return Success(rewritten);
  }

  // ---------- Upload, then export ----------

  /**
   * The store serves under each file id the content that was uploaded for it, under its media type
   * in any spelling, and states its length or does not.
   */
  ghost predicate Serves(assets: Assets, uploads: Uploads, sources: seq<Text>) {
    forall s | s in sources && FileIdOf(s, uploads).Some? ::
      var id, image := FileIdOf(s, uploads).value, TryParseEmbeddedImage(s).value;
      && id in assets
      && assets[id].bytes == image.bytes
      && Names(assets[id].mediaType, MimeOf(image.mediaType))
      && (assets[id].contentLength == None || assets[id].contentLength == Some(|image.bytes|))
  }

  /** A visit for the new type reports exactly the replacements of the sources in use. */
  lemma {:induction false} ReplacementsRemain(sources: seq<Text>, plan: Plan)
    requires plan.to != plan.from
    ensures forall id :: id in Remaining(sources, plan, plan.to)
                         <==> exists s :: s in sources && s in plan.replacements
                                          && plan.replacements[s] == id
  {
    if sources != [] {
      ReplacementsRemain(sources[1..], plan);
    }
  }

  /** File ids are strings as JavaScript has them. */
  predicate ValidUploads(uploads: Uploads) {
    forall d | d in uploads :: Valid(Str(uploads[d]))
  }

  function UploadPlan(sources: seq<Text>, uploads: Uploads): Plan {
    Plan(Base64, Uuid, FileIds(sources, uploads))
  }

  function ExportPlan(stored: Json, assets: Assets): Plan {
    Plan(Uuid, Base64, Replacements(Visit(stored, Uuid), assets))
  }

  /** The id of an uploaded source that the export resolves is inlined as that very source. */
  lemma InlinedAgain(s: Text, sources: seq<Text>, uploads: Uploads, assets: Assets)
    requires Serves(assets, uploads, sources) && s in FileIds(sources, uploads)
    ensures
      var u := FileIds(sources, uploads)[s];
      NonEmpty(u) && u in assets && ValidAsset(assets[u]) && InlineSource(assets[u]) == s
  {
    hide TryParseEmbeddedImage, ValidAsset, InlineSource, DataUri, Names, MatchesSignature;
    ParsedIsDataUri(s);
    ParsedIsPlain(s);
    var image, asset := TryParseEmbeddedImage(s).value, assets[FileIds(sources, uploads)[s]];
    ImageIsAccepted(asset, image.mediaType);
  }

  lemma ImageIsAccepted(asset: Asset, mediaType: MediaType)
    requires Names(asset.mediaType, MimeOf(mediaType)) && 0 < |asset.bytes| <= MAX_IMAGE_BYTES
    requires asset.contentLength == None || asset.contentLength == Some(|asset.bytes|)
    ensures ValidAsset(asset) && InlineSource(asset) == Plain(DataUri(MimeOf(mediaType), asset.bytes))
  {
    hide Names, ValidAsset, InlineSource;
    AcceptedExactly(asset);
    assert Accepts(asset, MimeOf(mediaType));
  }

  lemma UndoneWhereResolved(v: Json, sources: seq<Text>, uploads: Uploads, assets: Assets)
    requires Serves(assets, uploads, sources)
    requires
      var forth := UploadPlan(sources, uploads);
      forall s | s in Reached(v, Base64) && s in forth.replacements ::
        forth.replacements[s] in Visit(Rewrite(v, forth), Uuid)
    ensures
      var forth := UploadPlan(sources, uploads);
      Undoes(Restricted(forth, Reached(v, Base64)), ExportPlan(Rewrite(v, forth), assets))
  {
    hide Reached, Visit, Rewrite, FileIdOf, InlineSource, ValidAsset, Serves, NonEmpty;
    var forth := UploadPlan(sources, uploads);
    forall s | s in Reached(v, Base64) && s in forth.replacements
      ensures
        var u := forth.replacements[s];
        NonEmpty(u) && u in assets && InlineSource(assets[u]) == s
    {
      InlinedAgain(s, sources, uploads, assets);
    }
  }

  /**
   * Data that was stored with the ids of uploaded images, those of other mutations included, and
   * whose ids in reach the export resolves, is exported as it was exactly when no record of it is
   * captured.
   */
  lemma ExportExactly(v: Json, sources: seq<Text>, uploads: Uploads, assets: Assets)
    requires Valid(v) && Serves(assets, uploads, sources)
    requires
      var stored := Rewrite(v, UploadPlan(sources, uploads));
      forall u | u in Reached(stored, Uuid) :: u in Visit(stored, Uuid)
    ensures
      var forth := UploadPlan(sources, uploads);
      var back := ExportPlan(Rewrite(v, forth), assets);
      SameJson(ThereAndBack(v, forth, back), v) <==> !Captures(v, forth, back)
  {
    hide Reached, Visit, Rewrite, FileIdOf, InlineSource, ValidAsset, Serves, Captures, Canon;
    var forth := UploadPlan(sources, uploads);
    forall s | s in Reached(v, Base64) && s in forth.replacements
      ensures forth.replacements[s] in Visit(Rewrite(v, forth), Uuid)
    {
      InlinedAgain(s, sources, uploads, assets);
      StillReached(v, forth, Uuid, s, forth.replacements[s]);
    }
    UndoneWhereResolved(v, sources, uploads, assets);
    RoundTripInReach(v, forth, ExportPlan(Rewrite(v, forth), assets));
  }

  /** Without older ids in reach, a visit of the stored data reports exactly the uploaded ids. */
  lemma StoredIds(v: Json, sources: seq<Text>, uploads: Uploads, id: Text)
    requires Valid(v) && Reached(v, Uuid) == {}
    ensures
      var forth := UploadPlan(sources, uploads);
      id in Visit(Rewrite(v, forth), Uuid)
      <==> exists s :: s in Visit(v, Base64) && s in forth.replacements && forth.replacements[s] == id
  {
    var forth := UploadPlan(sources, uploads);
    forall s ensures s !in Visit(v, Uuid) {
      VisitedIsReached(v, Uuid, s);
    }
    hide Reached, Visit, Rewrite, TryParseEmbeddedImage;
    FirstIsIn(Visit(v, Uuid));
    VisitAfterRewrite(v, forth, Uuid);
    ReplacementsRemain(Visit(v, Base64), forth);
  }

  lemma FirstIsIn(sources: seq<Text>)
    ensures sources == [] || sources[0] in sources
  {
  }

  /** Every id that the export meets resolves, and it undoes the upload of all visited sources. */
  lemma ExportUndoesUpload(v: Json, sources: seq<Text>, uploads: Uploads, assets: Assets)
    requires Valid(v) && Reached(v, Uuid) == {} && Serves(assets, uploads, sources)
    ensures
      var forth := UploadPlan(sources, uploads);
      var stored := Rewrite(v, forth);
      && AllResolve(Visit(stored, Uuid), assets)
      && (!Hides(v, forth) ==>
            Undoes(Restricted(forth, Reached(v, Base64)), ExportPlan(stored, assets)))
  {
    hide Reached, Visit, Rewrite, FileIdOf, InlineSource, ValidAsset, Serves;
    var forth := UploadPlan(sources, uploads);
    forall id ensures id in Visit(Rewrite(v, forth), Uuid)
                      <==> exists s :: s in Visit(v, Base64) && s in forth.replacements
                                       && forth.replacements[s] == id
    {
      StoredIds(v, sources, uploads, id);
    }
    forall s | s in forth.replacements
      ensures forth.replacements[s] in assets && ValidAsset(assets[forth.replacements[s]])
    {
      InlinedAgain(s, sources, uploads, assets);
    }
    if !Hides(v, forth) {
      UndoneWhereResolved(v, sources, uploads, assets);
    }
  }

  /** The id of a source that no visit reports is never exported. */
  lemma HiddenStays(v: Json, sources: seq<Text>, uploads: Uploads, assets: Assets)
    requires Valid(v) && Reached(v, Uuid) == {} && Serves(assets, uploads, sources)
    requires ValidUploads(uploads) && Hides(v, UploadPlan(sources, uploads))
    ensures
      var forth := UploadPlan(sources, uploads);
      Reached(ThereAndBack(v, forth, ExportPlan(Rewrite(v, forth), assets)), Uuid) != {}
  {
    hide Reached, Visit, Rewrite, FileIdOf, InlineSource, ValidAsset, Serves, Valid;
    var forth := UploadPlan(sources, uploads);
    var stored := Rewrite(v, forth);
    var back := ExportPlan(stored, assets);
    var s :| s in Reached(v, Base64) && s in forth.replacements && s !in Visit(v, Base64);
    var u := forth.replacements[s];
    InlinedAgain(s, sources, uploads, assets);
    StillReached(v, forth, Uuid, s, u);
    StoredIds(v, sources, uploads, u);
    if u in Visit(stored, Uuid) {
      var other :| other in Visit(v, Base64) && other in forth.replacements
                   && forth.replacements[other] == u;
      InlinedAgain(other, sources, uploads, assets);
    }
    UploadPlanIsValid(sources, uploads);
    RewriteIsValid(v, forth);
    StillReached(stored, back, Uuid, u, u);
  }

  lemma UploadPlanIsValid(sources: seq<Text>, uploads: Uploads)
    requires ValidUploads(uploads)
    ensures ValidPlan(UploadPlan(sources, uploads))
  {
    hide TryParseEmbeddedImage, Valid;
  }

  lemma ExportPlanIsValid(stored: Json, assets: Assets)
    ensures ValidPlan(ExportPlan(stored, assets))
  {
    hide Visit, DataUri;
  }

  /**
   * End to end, for data without older ids in reach: the export of the stored data succeeds, for
   * every pattern of failed uploads, and it gives the data as it was exactly when no uploaded
   * source is hidden from the visit.
   */
  lemma UploadThenExport(v: Json, sources: seq<Text>, uploads: Uploads, assets: Assets)
    requires Valid(v) && Reached(v, Uuid) == {} && Serves(assets, uploads, sources)
    requires ValidUploads(uploads)
    ensures
      var forth := UploadPlan(sources, uploads);
      var stored := Rewrite(v, forth);
      && Valid(stored) && AllResolve(Visit(stored, Uuid), assets)
      && (SameJson(Rewrite(stored, ExportPlan(stored, assets)), v) <==> !Hides(v, forth))
  {
    hide Rewrite, Visit, Canon, Reached, Captures, Valid, Serves, AllResolve, Hides;
    var forth := UploadPlan(sources, uploads);
    var back := ExportPlan(Rewrite(v, forth), assets);
    UploadPlanIsValid(sources, uploads);
    RewriteIsValid(v, forth);
    ExportUndoesUpload(v, sources, uploads, assets);
    if Hides(v, forth) {
      HiddenStays(v, sources, uploads, assets);
      ExportPlanIsValid(Rewrite(v, forth), assets);
      RewriteIsValid(Rewrite(v, forth), back);
      if SameJson(ThereAndBack(v, forth, back), v) {
        SameReach(ThereAndBack(v, forth, back), v, Uuid);
      }
    } else {
      UnusedNotCaptured(v, forth, back);
      RoundTripInReach(v, forth, back);
    }
  }

  /** Any image that was uploaded stays behind as an id where a `resources` member hides it. */
  lemma HiddenImageIsNotRestored(s: Text, sources: seq<Text>, uploads: Uploads, assets: Assets)
    requires s in sources && FileIdOf(s, uploads).Some?
    requires Serves(assets, uploads, sources) && ValidUploads(uploads)
    ensures
      var v, forth := HiddenImage(s), UploadPlan(sources, uploads);
      var stored := Rewrite(v, forth);
      && Valid(v) && AllResolve(Visit(stored, Uuid), assets)
      && !SameJson(Rewrite(stored, ExportPlan(stored, assets)), v)
  {
    hide *;
    MappedByUpload(s, sources, uploads);
    ImageIsHidden(s, UploadPlan(sources, uploads));
    HiddenImageHasNoIds(s);
    UploadThenExport(HiddenImage(s), sources, uploads, assets);
  }

  lemma MappedByUpload(s: Text, sources: seq<Text>, uploads: Uploads)
    requires s in sources && FileIdOf(s, uploads).Some?
    ensures Valid(HiddenImage(s)) && NonEmpty(s)
    ensures UploadPlan(sources, uploads).from == Base64 && s in UploadPlan(sources, uploads).replacements
  {
    hide TryParseEmbeddedImage, Valid, HiddenImage, NonEmpty;
    ParsedIsPlain(s);
    HiddenImageIsValid(s);
  }

  lemma ParsedIsPlain(s: Text)
    requires TryParseEmbeddedImage(s).Some?
    ensures s.Plain? && NonEmpty(s)
  {
    ParsedIsDataUri(s);
  }

  /** Each mutation that `externalizeEmbeddedImages` returns, exported. */
  lemma MutationsRoundTrip(mutations: seq<Mutation>, uploads: Uploads, assets: Assets,
                           result: seq<Mutation>, i: nat)
    requires Externalized(mutations, uploads, result) && i < |mutations|
    requires ValidMutation(mutations[i]) && ValidUploads(uploads)
    requires Serves(assets, uploads, VisitedSources(mutations))
    requires ParseJson(mutations[i].data).Some?
    ensures ParseJson(result[i].data).Some? && result[i].id == mutations[i].id
    ensures
      var v, stored := ParseJson(mutations[i].data).value, ParseJson(result[i].data).value;
      var forth, back := UploadPlan(VisitedSources(mutations), uploads), ExportPlan(stored, assets);
      && Valid(stored)
      && ((forall u | u in Reached(stored, Uuid) :: u in Visit(stored, Uuid)) ==>
            (SameJson(Rewrite(stored, back), v) <==> !Captures(v, forth, back)))
      && (Reached(v, Uuid) == {} ==>
            && AllResolve(Visit(stored, Uuid), assets)
            && (SameJson(Rewrite(stored, back), v) <==> !Hides(v, forth)))
  {
    hide Rewrite, Visit, Canon, Reached, Captures, Serves, AllResolve, Hides, VisitedSources, FileIds;
    var v := ParseJson(mutations[i].data).value;
    var sources := VisitedSources(mutations);
    var forth := UploadPlan(sources, uploads);
    if !Changed(v, forth) {
      Unchanged(v, forth);
    }
    var stored := Rewrite(v, forth);
    hide Changed;
    UploadPlanIsValid(sources, uploads);
    RewriteIsValid(v, forth);
    hide Valid;
    if forall u | u in Reached(stored, Uuid) :: u in Visit(stored, Uuid) {
      ExportExactly(v, sources, uploads, assets);
    }
    if Reached(v, Uuid) == {} {
      UploadThenExport(v, sources, uploads, assets);
    }
  }

  /**
   * Nothing is lost where a call has one mutation only, or where every `resources` member of the
   * mutation is an array, whatever the other mutations of the call hold and whichever uploads fail.
   */
  lemma MutationComesBack(mutations: seq<Mutation>, uploads: Uploads, assets: Assets,
                          result: seq<Mutation>, i: nat)
    requires Externalized(mutations, uploads, result) && i < |mutations|
    requires ValidMutation(mutations[i]) && ValidUploads(uploads)
    requires Serves(assets, uploads, VisitedSources(mutations))
    requires ParseJson(mutations[i].data).Some?
    requires Reached(ParseJson(mutations[i].data).value, Uuid) == {}
    requires |mutations| == 1 || ArraysOnly(ParseJson(mutations[i].data).value)
    ensures ParseJson(result[i].data).Some?
    ensures
      var stored := ParseJson(result[i].data).value;
      && AllResolve(Visit(stored, Uuid), assets)
      && SameJson(Rewrite(stored, ExportPlan(stored, assets)), ParseJson(mutations[i].data).value)
  {
    hide *;
    MutationsRoundTrip(mutations, uploads, assets, result, i);
    var v := ParseJson(mutations[i].data).value;
    if |mutations| == 1 {
      VisitedOnce(mutations);
      OwnSourcesAreNotHidden(v, uploads);
    } else {
      ParsedIsValid(mutations[i]);
      NothingIsHidden(v, UploadPlan(VisitedSources(mutations), uploads));
    }
  }

  lemma ParsedIsValid(mutation: Mutation)
    requires ValidMutation(mutation) && ParseJson(mutation.data).Some?
    ensures Valid(ParseJson(mutation.data).value)
  {}

  lemma VisitedOnce(mutations: seq<Mutation>)
    requires |mutations| == 1 && ParseJson(mutations[0].data).Some?
    ensures VisitedSources(mutations) == Visit(ParseJson(mutations[0].data).value, Base64)
  {
    hide Visit;
    assert mutations[1..] == [];
  }

  lemma OwnSourcesAreNotHidden(v: Json, uploads: Uploads)
    ensures !Hides(v, UploadPlan(Visit(v, Base64), uploads))
  {
    hide Reached, Visit, FileIdOf;
  }

  lemma NothingIsHidden(v: Json, plan: Plan)
    requires Valid(v) && ArraysOnly(v)
    ensures !Hides(v, plan)
  {
    hide *;
    ChangedExactly(v, plan);
  }
}
