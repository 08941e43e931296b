/** `RevImgApi`: the library other apps call to reach this app. Each call checks that the
    app is installed, builds an explicit intent for it and launches it, answering `false`
    instead of throwing whenever a step fails. */
module RevImgApi {
  import opened Common
  import opened IntentEx

  const PACKAGE_NAME := "zdz.revimg"

  // `RevImgApi.Actions`
  const ACTION_SEARCH_IMAGE := "zdz.revimg.action.SEARCH_IMAGE"
  const ACTION_SEARCH_IMAGE_URL := "zdz.revimg.action.SEARCH_IMAGE_URL"
  const ACTION_GET_SEARCH_ENGINES := "zdz.revimg.action.GET_SEARCH_ENGINES"

  // `RevImgApi.Extras`
  const EXTRA_SEARCH_ENGINE := "search_engine"
  const EXTRA_SEARCH_ENGINES := "search_engines"
  const EXTRA_IMAGE_URL := "image_url"

  // `RevImgApi.Engines`
  const GOOGLE := "google"
  const SAUCENAO := "saucenao"
  const YANDEX := "yandex"
  const IQDB := "iqdb"
  const ASCII2D := "ascii2d"
  const TRACEMOE := "tracemoe"

  /** `Engines.ALL`. */
  const ALL := [GOOGLE, SAUCENAO, YANDEX, IQDB, ASCII2D, TRACEMOE]

  /** What a calling app's context does: which packages it can look up, where it stores a
      bitmap (the content URI for a cache file name, or `None` when writing the file or
      getting its URI throws), and which launches complete without an exception. */
  datatype Context = Context(
    installedPackages: set<string>,
    store: string -> Option<Uri>,
    start: IntentRecord -> bool)

  /** `isInstalled(context)`: `getPackageInfo(PACKAGE_NAME, 0)` returns rather than throws;
      `installedPackages` holds the names for which it returns. */
  function IsInstalled(context: Context): bool {
    PACKAGE_NAME in context.installedPackages
  }

  /** The request `getSearchEngines` sends. */
  function EnginesRequest(): IntentRecord {
    Blank(Some(ACTION_GET_SEARCH_ENGINES), None).(targetPackage := Some(PACKAGE_NAME))
  }

  /** The request both `searchImage` overloads send, differing only in the MIME type. */
  function SearchImageRequest(image: Uri, engine: string, mimeType: string): IntentRecord {
    IntentRecord(Some(ACTION_SEARCH_IMAGE), Some(image), Some(mimeType), None,
                 map[EXTRA_SEARCH_ENGINE := StringExtra(engine)], Some(PACKAGE_NAME),
                 FLAG_GRANT_READ_URI_PERMISSION)
  }

  /** The request `searchImageUrl` sends: no data and no type. */
  function SearchImageUrlRequest(imageUrl: string, engine: string): IntentRecord {
    Blank(Some(ACTION_SEARCH_IMAGE_URL), None).(
      targetPackage := Some(PACKAGE_NAME),
      extras := map[EXTRA_SEARCH_ENGINE := StringExtra(engine), EXTRA_IMAGE_URL := StringExtra(imageUrl)])
  }

  /** The cache file `searchImage(bitmap)` writes the JPEG to. */
  function CacheFileName(millis: nat): string {
    "shared_image_" + NatToString(millis) + ".jpg"
  }

  /** `getSearchEngines(context, resultLauncher)`: `attempted` is the intent handed to the
      launcher, if any. */
  method GetSearchEngines(context: Context) returns (ok: bool, attempted: Option<IntentRecord>)
    ensures !IsInstalled(context) ==> !ok && attempted.None?
    ensures IsInstalled(context) ==>
              attempted == Some(EnginesRequest()) && ok == context.start(EnginesRequest())
  {
    if !IsInstalled(context) {
      return false, None;
    }
    var intent := new Intent(Some(ACTION_GET_SEARCH_ENGINES), None);
    intent.SetPackage(PACKAGE_NAME);
    attempted := Some(intent.Value());
    ok := context.start(intent.Value());
  }

  /** `searchImage(context, bitmap, engine = "google")`: the bitmap is saved as a JPEG in
      the cache and shared as `image/jpeg`. */
  method SearchImageBitmap(context: Context, millis: nat, engine: string := GOOGLE)
    returns (ok: bool, attempted: Option<IntentRecord>)
    ensures !IsInstalled(context) ==> !ok && attempted.None?
    ensures IsInstalled(context) && context.store(CacheFileName(millis)).None? ==> !ok && attempted.None?
    ensures IsInstalled(context) && context.store(CacheFileName(millis)).Some? ==>
              var request := SearchImageRequest(context.store(CacheFileName(millis)).value, engine, "image/jpeg");
              attempted == Some(request) && ok == context.start(request)
  {
    if !IsInstalled(context) {
      return false, None;
    }
    var uri := context.store(CacheFileName(millis));
    if uri.None? {
      return false, None;
    }
    var intent := new Intent(Some(ACTION_SEARCH_IMAGE), None);
    intent.SetPackage(PACKAGE_NAME);
    intent.PutExtra(EXTRA_SEARCH_ENGINE, StringExtra(engine));
    intent.SetDataAndType(uri.value, Some("image/jpeg"));
    intent.AddFlags(FLAG_GRANT_READ_URI_PERMISSION);
    attempted := Some(intent.Value());
    ok := context.start(intent.Value());
  }

  /** `searchImage(context, imageUri, engine = "google")`: the URI is shared with the
      wildcard image type. */
  method SearchImageUri(context: Context, imageUri: Uri, engine: string := GOOGLE)
    returns (ok: bool, attempted: Option<IntentRecord>)
    ensures !IsInstalled(context) ==> !ok && attempted.None?
    ensures IsInstalled(context) ==>
              var request := SearchImageRequest(imageUri, engine, "image/*");
              attempted == Some(request) && ok == context.start(request)
  {
    if !IsInstalled(context) {
      return false, None;
    }
    var intent := new Intent(Some(ACTION_SEARCH_IMAGE), None);
    intent.SetPackage(PACKAGE_NAME);
    intent.PutExtra(EXTRA_SEARCH_ENGINE, StringExtra(engine));
    intent.SetDataAndType(imageUri, Some("image/*"));
    intent.AddFlags(FLAG_GRANT_READ_URI_PERMISSION);
    attempted := Some(intent.Value());
    ok := context.start(intent.Value());
  }

  /** `searchImageUrl(context, imageUrl, engine = "google")`. */
  method SearchImageUrl(context: Context, imageUrl: string, engine: string := GOOGLE)
    returns (ok: bool, attempted: Option<IntentRecord>)
    ensures !IsInstalled(context) ==> !ok && attempted.None?
    ensures IsInstalled(context) ==>
              var request := SearchImageUrlRequest(imageUrl, engine);
              attempted == Some(request) && ok == context.start(request)
  {
    if !IsInstalled(context) {
      return false, None;
    }
    var intent := new Intent(Some(ACTION_SEARCH_IMAGE_URL), None);
    intent.SetPackage(PACKAGE_NAME);
    intent.PutExtra(EXTRA_SEARCH_ENGINE, StringExtra(engine));
    intent.PutExtra(EXTRA_IMAGE_URL, StringExtra(imageUrl));
    attempted := Some(intent.Value());
    ok := context.start(intent.Value());
  }

  /** `parseSearchEnginesResult(data)`: the `search_engines` list of the result, as stored. */
  function ParseSearchEnginesResult(data: Option<IntentRecord>): (r: Option<seq<string>>)
    ensures data.None? ==> r.None?
    ensures r.Some? <==> data.Some? && EXTRA_SEARCH_ENGINES in data.value.extras &&
                         data.value.extras[EXTRA_SEARCH_ENGINES].StringListExtra?
    ensures r.Some? ==> data.value.extras[EXTRA_SEARCH_ENGINES] == StringListExtra(r.value)
  {
    if data.None? then None else GetStringListExtra(data.value, EXTRA_SEARCH_ENGINES)
  }

  /** The two image requests are explicit, carry the engine and grant read access to the
      image; they differ only in their MIME type. The URL request carries the engine and
      the URL, and no data or type. */
  lemma RequestShapes(image: Uri, imageUrl: string, engine: string)
    ensures var jpeg, any := SearchImageRequest(image, engine, "image/jpeg"), SearchImageRequest(image, engine, "image/*");
            && jpeg.action == Some(ACTION_SEARCH_IMAGE) && jpeg.targetPackage == Some(PACKAGE_NAME)
            && GetStringExtra(jpeg, EXTRA_SEARCH_ENGINE) == Some(engine)
            && jpeg.data == Some(image)
            && jpeg.flags & FLAG_GRANT_READ_URI_PERMISSION != 0
            && jpeg.(mimeType := None) == any.(mimeType := None)
            && jpeg.mimeType == Some("image/jpeg") && any.mimeType == Some("image/*")
    ensures var u := SearchImageUrlRequest(imageUrl, engine);
            && u.action == Some(ACTION_SEARCH_IMAGE_URL) && u.targetPackage == Some(PACKAGE_NAME)
            && GetStringExtra(u, EXTRA_SEARCH_ENGINE) == Some(engine)
            && GetStringExtra(u, EXTRA_IMAGE_URL) == Some(imageUrl)
            && u.data.None? && u.mimeType.None?
  {
    assert EXTRA_SEARCH_ENGINE != EXTRA_IMAGE_URL;
  }

  /** The six engines are distinct names. */
  lemma EnginesDistinct()
    ensures forall a, b :: 0 <= a < b < |ALL| ==> ALL[a] != ALL[b]
  {
    assert ALL[0][0] == 'g' && ALL[1][0] == 's' && ALL[2][0] == 'y';
    assert ALL[3][0] == 'i' && ALL[4][0] == 'a' && ALL[5][0] == 't';
  }
}
