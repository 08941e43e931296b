/** `ApiActivity`: the activity that answers the requests `RevImgApi` sends. A search
    request names an engine from the registry and carries an image (or a link); the engine
    list request is answered with the registry's names. */
module ApiActivity {
  import opened Common
  import opened IntentEx
  import opened QueryTemplates
  import opened Scaling
  import opened Upload
  import opened Effects
  import opened RevImgApi
  import Share

  const UNSUPPORTED_REQUEST_MESSAGE := "不支持的请求类型"
  const UNSUPPORTED_ENGINE_MESSAGE := "不支持的搜索引擎"
  const NO_IMAGE_MESSAGE := "无法处理图片"

  /** `Activity.RESULT_OK`. */
  const RESULT_OK := -1

  /** `SUPPORTED_ENGINES`: engine name to query template, in insertion order. */
  const SUPPORTED_ENGINES: seq<(string, string)> := [
    (GOOGLE, GOOGLE_LENS_QUERY_URL),
    (SAUCENAO, SAUCENAO_QUERY_URL),
    (YANDEX, YANDEX_QUERY_URL),
    (IQDB, IQDB_QUERY_URL),
    (ASCII2D, ASCII2D_QUERY_URL),
    (TRACEMOE, TRACEMOE_QUERY_URL)
  ]

  /** The keys of a registry, in order. */
  function Keys(registry: seq<(string, string)>): (r: seq<string>)
    ensures |r| == |registry|
    ensures forall k :: 0 <= k < |r| ==> r[k] == registry[k].0
  {
    if registry == [] then [] else [registry[0].0] + Keys(registry[1..])
  }

  /** `SUPPORTED_ENGINES[engine]`: a null or unknown name has no template. */
  function Lookup(registry: seq<(string, string)>, engine: Option<string>): (r: Option<string>)
    ensures r.Some? <==> engine.Some? && engine.value in Keys(registry)
    ensures r.Some? ==> (engine.value, r.value) in registry
  {
    if engine.None? || registry == [] then None
    else if registry[0].0 == engine.value then Some(registry[0].1)
    else
      assert Keys(registry) == [registry[0].0] + Keys(registry[1..]);
      Lookup(registry[1..], engine)
  }

  /** The toast of a search that was opened. */
  function SearchedMessage(engine: string): string {
    "已使用" + engine + "搜索图片"
  }

  /** The result intent `handleGetSearchEngines` returns. */
  function EnginesResult(): IntentRecord {
    Blank(None, None).(extras := map[EXTRA_SEARCH_ENGINES := StringListExtra(Keys(SUPPORTED_ENGINES))])
  }

  /** How a request to `ApiActivity` ends. */
  datatype ApiOutcome =
    | Searched(engine: string, launched: IntentRecord)
    | UnsupportedEngine
    | UploadFailed(message: Option<string>)
    | NoImage
    | Crashed(errorMessage: string)
    | UnsupportedRequest
    | EnginesListed(result: IntentRecord)

  /** The subject `handleSearchImage` computes: `intent.uri` as text for a type that is not
      an image type, otherwise the hosted copy of the decoded image. */
  function SearchSubject(i: IntentRecord, w: Share.World): (r: Share.Subject)
    ensures !IsImageType(i.mimeType) ==> (r.Found? <==> UriOf(i).Some?) && !r.UploadRaised? && !r.UploadErrored?
  {
    if !IsImageType(i.mimeType) then
      if UriOf(i).Some? then Share.Found(UriOf(i).value.text) else Share.Missing
    else
      var uploaded := Share.ImageUpload(i, w);
      if uploaded.None? then Share.Missing
      else
        match uploaded.value
        case Hosted(url) => Share.Found(url)
        case Raised(message) => Share.UploadRaised(message)
        case ErrorThrown(message) => Share.UploadErrored(message)
  }

  /** The intent `startActivity(viewContent(queryUrl.replace("%s", subject).toUri()))`
      launches: the subject is put into the template as it is. */
  function RawSearchIntent(queryUrl: string, subject: string): IntentRecord {
    ViewIntent(Uri(Substitute(queryUrl, subject)), None, true)
  }

  /** The outcome of `handleSearchImage()`. A launch that throws is not caught. */
  function SearchOutcome(i: IntentRecord, w: Share.World): (r: ApiOutcome)
    ensures !r.UnsupportedRequest? && !r.EnginesListed?
  {
    var engine := GetStringExtra(i, EXTRA_SEARCH_ENGINE);
    var queryUrl := Lookup(SUPPORTED_ENGINES, engine);
    if queryUrl.None? then UnsupportedEngine
    else
      match SearchSubject(i, w)
      case UploadRaised(message) => UploadFailed(message)
      case UploadErrored(message) => Crashed(message)
      case Missing => NoImage
      case Found(subject) =>
        var intent := RawSearchIntent(queryUrl.value, subject);
        match w.launch(intent)
        case Started => Searched(engine.value, intent)
        case Refused(message) => Crashed(MessageText(message))
  }

  /** The outcome of `onCreate` for the intent `i`. */
  function ApiOutcomeOf(i: IntentRecord, w: Share.World): (r: ApiOutcome)
    ensures r.EnginesListed? <==> i.action == Some(ACTION_GET_SEARCH_ENGINES)
    ensures r.UnsupportedRequest? <==>
              i.action != Some(ACTION_SEARCH_IMAGE) && i.action != Some(ACTION_GET_SEARCH_ENGINES)
  {
    if i.action == Some(ACTION_SEARCH_IMAGE) then SearchOutcome(i, w)
    else if i.action == Some(ACTION_GET_SEARCH_ENGINES) then EnginesListed(EnginesResult())
    else UnsupportedRequest
  }

  /** The effects of each outcome. The engine list is answered with a result and a plain
      finish and no toast; an uncaught throwable leaves neither a toast nor a finish; every
      other outcome toasts once and finishes once. Only a search starts an activity. */
  function ApiEffects(o: ApiOutcome): (r: seq<Effect>)
    ensures o.Crashed? ==> Toasts(r) == [] && Finishes(r) == 0
    ensures o.EnginesListed? ==> Toasts(r) == [] && Finishes(r) == 1
    ensures !o.Crashed? && !o.EnginesListed? ==> |Toasts(r)| == 1 && Finishes(r) == 1
    ensures Launches(r) == if o.Searched? then [o.launched] else []
  {
    match o
    case Searched(engine, launched) =>
      CountsAppend([StartActivity(launched)], ToastAndFinish(SearchedMessage(engine)));
      assert [StartActivity(launched)][1..] == [];
      [StartActivity(launched)] + ToastAndFinish(SearchedMessage(engine))
    case UnsupportedEngine => ToastAndFinish(UNSUPPORTED_ENGINE_MESSAGE)
    case UploadFailed(message) => ToastAndFinish(Share.UPLOAD_FAILED_PREFIX + MessageText(message))
    case NoImage => ToastAndFinish(NO_IMAGE_MESSAGE)
    case Crashed(message) =>
      var r := [UncaughtThrowable(message)];
      assert r[1..] == [];
      r
    case UnsupportedRequest => ToastAndFinish(UNSUPPORTED_REQUEST_MESSAGE)
    case EnginesListed(result) =>
      var r := [SetResult(RESULT_OK, result), Finish];
      assert r[1..] == [Finish] && r[1..][1..] == [];
      assert Toasts(r[1..]) == [] && Finishes(r[1..]) == 1 && Launches(r[1..]) == [];
      r
  }

  /** The subject half of `handleSearchImage()`, which decodes and uploads an image. */
  method ResolveSearchSubject(i: IntentRecord, w: Share.World) returns (subject: Share.Subject)
    ensures subject == SearchSubject(i, w)
  {
    if !IsImageType(i.mimeType) {
      var uri := UriOf(i);
      return if uri.Some? then Share.Found(uri.value.text) else Share.Missing;
    }
    subject := Share.Missing;
    var imageUri := UriOf(i);
    if imageUri.Some? {
      var bitmap := ProcessImageUri(w.content, imageUri.value);
      if bitmap.Some? {
        var request, uploaded := Upload.Upload(w.jpeg, w.fileMillis, w.boundaryMillis, w.reply);
        match uploaded {
          case Hosted(url) =>
            subject := Share.Found(url);
          case Raised(message) =>
            subject := Share.UploadRaised(message);
          case ErrorThrown(message) =>
            subject := Share.UploadErrored(message);
        }
      }
    }
  }

  /** `handleSearchImage()` on the intent `i`. */
  method HandleSearchImage(i: IntentRecord, w: Share.World) returns (outcome: ApiOutcome)
    ensures outcome == SearchOutcome(i, w)
  {
    var engine := GetStringExtra(i, EXTRA_SEARCH_ENGINE);
    var queryUrl := Lookup(SUPPORTED_ENGINES, engine);
    if queryUrl.None? {
      return UnsupportedEngine;
    }
    var subject := ResolveSearchSubject(i, w);
    match subject {
      case UploadRaised(message) =>
        outcome := UploadFailed(message);
      case UploadErrored(message) =>
        outcome := Crashed(message);
      case Missing =>
        outcome := NoImage;
      case Found(imageUrl) =>
        var view := ViewContent(Uri(Substitute(queryUrl.value, imageUrl)));
        var launched := view.Value();
        match w.launch(launched) {
          case Started =>
            outcome := Searched(engine.value, launched);
          case Refused(message) =>
            outcome := Crashed(MessageText(message));
        }
    }
  }

  /** `handleGetSearchEngines()`: the result carries the registry's names; the activity
      sets it with RESULT_OK and finishes. */
  method HandleGetSearchEngines() returns (effects: seq<Effect>)
    ensures effects == ApiEffects(EnginesListed(EnginesResult()))
  {
    var result := new Intent(None, None);
    result.PutExtra(EXTRA_SEARCH_ENGINES, StringListExtra(Keys(SUPPORTED_ENGINES)));
    effects := [SetResult(RESULT_OK, result.Value()), Finish];
  }

  /** `onCreate`: routes on the action of the intent `i`. */
  method OnCreate(i: IntentRecord, w: Share.World) returns (outcome: ApiOutcome, effects: seq<Effect>)
    ensures outcome == ApiOutcomeOf(i, w)
    ensures effects == ApiEffects(outcome)
  {
    if i.action == Some(ACTION_SEARCH_IMAGE) {
      outcome := HandleSearchImage(i, w);
      effects := ApiEffects(outcome);
    } else if i.action == Some(ACTION_GET_SEARCH_ENGINES) {
      outcome := EnginesListed(EnginesResult());
      effects := HandleGetSearchEngines();
    } else {
      outcome := UnsupportedRequest;
      effects := ToastAndFinish(UNSUPPORTED_REQUEST_MESSAGE);
    }
  }

  // ---------------------------------------------------------------------------
  // Properties.

  /** The registry's names are `Engines.ALL`, in the same order. */
  lemma RegistryKeysAreAll()
    ensures Keys(SUPPORTED_ENGINES) == ALL
  {
  }

  /** In a registry whose names are distinct, each name finds the template it was
      registered with. */
  lemma {:induction false} LookupRegistered(registry: seq<(string, string)>, k: nat)
    requires forall a, b :: 0 <= a < b < |registry| ==> registry[a].0 != registry[b].0
    requires k < |registry|
    ensures Lookup(registry, Some(registry[k].0)) == Some(registry[k].1)
  {
    if k > 0 {
      assert registry[0].0 != registry[k].0;
      assert registry[1..][k - 1] == registry[k];
      LookupRegistered(registry[1..], k - 1);
    }
  }

  /** Each engine name finds its own activity's query template. */
  lemma RegistryTemplates()
    ensures Lookup(SUPPORTED_ENGINES, Some(GOOGLE)) == Some(GOOGLE_LENS_QUERY_URL)
    ensures Lookup(SUPPORTED_ENGINES, Some(SAUCENAO)) == Some(SAUCENAO_QUERY_URL)
    ensures Lookup(SUPPORTED_ENGINES, Some(YANDEX)) == Some(YANDEX_QUERY_URL)
    ensures Lookup(SUPPORTED_ENGINES, Some(IQDB)) == Some(IQDB_QUERY_URL)
    ensures Lookup(SUPPORTED_ENGINES, Some(ASCII2D)) == Some(ASCII2D_QUERY_URL)
    ensures Lookup(SUPPORTED_ENGINES, Some(TRACEMOE)) == Some(TRACEMOE_QUERY_URL)
  {
    RegistryKeysAreAll();
    EnginesDistinct();
    assert forall a, b :: 0 <= a < b < |SUPPORTED_ENGINES| ==> SUPPORTED_ENGINES[a].0 != SUPPORTED_ENGINES[b].0 by {
      forall a, b | 0 <= a < b < |SUPPORTED_ENGINES|
        ensures SUPPORTED_ENGINES[a].0 != SUPPORTED_ENGINES[b].0
      {
        assert SUPPORTED_ENGINES[a].0 == ALL[a] && SUPPORTED_ENGINES[b].0 == ALL[b];
      }
    }
    LookupRegistered(SUPPORTED_ENGINES, 0);
    LookupRegistered(SUPPORTED_ENGINES, 1);
    LookupRegistered(SUPPORTED_ENGINES, 2);
    LookupRegistered(SUPPORTED_ENGINES, 3);
    LookupRegistered(SUPPORTED_ENGINES, 4);
    LookupRegistered(SUPPORTED_ENGINES, 5);
  }

  /** What a caller gets back from the engine list request parses to `Engines.ALL`. */
  lemma EnginesResultParses()
    ensures ParseSearchEnginesResult(Some(EnginesResult())) == Some(ALL)
    ensures ApiEffects(EnginesListed(EnginesResult())) == [SetResult(RESULT_OK, EnginesResult()), Finish]
  {
    RegistryKeysAreAll();
  }

  /** Only SEARCH_IMAGE and GET_SEARCH_ENGINES are served: every other action, the URL
      search request included, ends with the unsupported-request toast and opens nothing. */
  lemma UnsupportedActions(i: IntentRecord, w: Share.World)
    requires i.action != Some(ACTION_SEARCH_IMAGE) && i.action != Some(ACTION_GET_SEARCH_ENGINES)
    ensures ApiOutcomeOf(i, w) == UnsupportedRequest
    ensures Toasts(ApiEffects(ApiOutcomeOf(i, w))) == [UNSUPPORTED_REQUEST_MESSAGE]
    ensures Launches(ApiEffects(ApiOutcomeOf(i, w))) == []
  {
  }

  /** The URL search request that `searchImageUrl` sends is one of those. */
  lemma SearchImageUrlUnsupported(imageUrl: string, engine: string, w: Share.World)
    ensures ApiOutcomeOf(SearchImageUrlRequest(imageUrl, engine), w) == UnsupportedRequest
  {
    UnsupportedActions(SearchImageUrlRequest(imageUrl, engine), w);
  }

  /** A search request whose engine is missing or not one of `Engines.ALL` ends with the
      unsupported-engine toast, before any image is read, and opens nothing. */
  lemma UnknownEngine(i: IntentRecord, w: Share.World)
    requires i.action == Some(ACTION_SEARCH_IMAGE)
    requires GetStringExtra(i, EXTRA_SEARCH_ENGINE).None? || GetStringExtra(i, EXTRA_SEARCH_ENGINE).value !in ALL
    ensures ApiOutcomeOf(i, w) == UnsupportedEngine
    ensures Toasts(ApiEffects(ApiOutcomeOf(i, w))) == [UNSUPPORTED_ENGINE_MESSAGE]
    ensures Launches(ApiEffects(ApiOutcomeOf(i, w))) == []
  {
    RegistryKeysAreAll();
  }

  /** For a type that is not an image type the subject is `intent.uri` as text, with no
      decode and no upload; for an image type it is the hosted copy, and an Exception from
      the upload ends the request with its message. */
  lemma SubjectByType(i: IntentRecord, w: Share.World)
    ensures !IsImageType(i.mimeType) ==>
              SearchSubject(i, w) == (if UriOf(i).Some? then Share.Found(UriOf(i).value.text) else Share.Missing)
    ensures IsImageType(i.mimeType) && SearchSubject(i, w).Found? ==>
              UriOf(i).Some? && ProcessedSize(w.content(UriOf(i).value)).Some? &&
              UploadVerdict(w.reply) == Hosted(SearchSubject(i, w).text)
    ensures IsImageType(i.mimeType) && Share.ImageUpload(i, w).Some? && Share.ImageUpload(i, w).value.Raised? &&
            Lookup(SUPPORTED_ENGINES, GetStringExtra(i, EXTRA_SEARCH_ENGINE)).Some? ==>
              SearchOutcome(i, w) == UploadFailed(Share.ImageUpload(i, w).value.message)
  {
  }

  /** A search that was opened used a registered engine, put the subject into its template
      without encoding it, launched a VIEW intent in a new task, and toasted the engine. */
  lemma SearchedRaw(i: IntentRecord, w: Share.World)
    requires ApiOutcomeOf(i, w).Searched?
    ensures var o := ApiOutcomeOf(i, w);
            && o.engine in ALL
            && SearchSubject(i, w).Found?
            && o.launched.action == Some(ACTION_VIEW)
            && o.launched.flags == FLAG_NEW_TASK
            && Lookup(SUPPORTED_ENGINES, Some(o.engine)).Some?
            && o.launched.data == Some(Uri(Substitute(Lookup(SUPPORTED_ENGINES, Some(o.engine)).value,
                                                      SearchSubject(i, w).text)))
            && Toasts(ApiEffects(o)) == [SearchedMessage(o.engine)]
            && Launches(ApiEffects(o)) == [o.launched]
  {
    RegistryKeysAreAll();
    var o := ApiOutcomeOf(i, w);
    var j := Blank(Some(ACTION_VIEW), None).(data := o.launched.data, mimeType := None);
    ViewIntentFlags(o.launched.data.value, None, true);
    CountsAppend([StartActivity(o.launched)], ToastAndFinish(SearchedMessage(o.engine)));
  }

  /** With a one-placeholder template, the opened URL is the template's prefix, the subject
      verbatim, and the suffix: reserved characters of the subject reach the engine as they
      are, where the share path would have form-encoded them. */
  lemma RawSubjectInUrl(t: string, p: string, q: string, subject: string)
    requires SinglePlaceholder(t, p, q)
    ensures RawSearchIntent(t, subject).data == Some(Uri(p + subject + q))
  {
    FillSinglePlaceholder(t, p, q, subject);
  }

  /** An image upload that throws an `Error` leaves that `Error` as the subject. */
  lemma UploadErrorSubject(i: IntentRecord, w: Share.World)
    requires Share.ImageUpload(i, w).Some? && Share.ImageUpload(i, w).value.ErrorThrown?
    ensures w.reply.Response?
    ensures SearchSubject(i, w) == Share.UploadErrored(ErrorMessage(w.reply.status))
  {
    var u := Share.ImageUpload(i, w);
    assert u == Some(UploadVerdict(w.reply));
    UploadVerdictSpec(w.reply);
    assert u.value == ErrorThrown(ErrorMessage(w.reply.status));
  }

  /** An `Error` thrown by `upload` (a bad status or an empty `dest`) escapes the
      `catch (e: Exception)`: the request ends with no toast and no finish. */
  lemma UploadErrorEscapes(i: IntentRecord, w: Share.World)
    requires i.action == Some(ACTION_SEARCH_IMAGE)
    requires Lookup(SUPPORTED_ENGINES, GetStringExtra(i, EXTRA_SEARCH_ENGINE)).Some?
    requires Share.ImageUpload(i, w).Some? && Share.ImageUpload(i, w).value.ErrorThrown?
    ensures w.reply.Response?
    ensures ApiOutcomeOf(i, w) == Crashed(ErrorMessage(w.reply.status))
    ensures Toasts(ApiEffects(ApiOutcomeOf(i, w))) == [] && Finishes(ApiEffects(ApiOutcomeOf(i, w))) == 0
  {
    UploadErrorSubject(i, w);
    var m := ErrorMessage(w.reply.status);
    ErrorSubjectCrashes(i, w, m);
    assert ApiOutcomeOf(i, w) == Crashed(m);
  }

  /** A search whose subject is an `Error` ends as that `Error`. */
  lemma ErrorSubjectCrashes(i: IntentRecord, w: Share.World, m: string)
    requires Lookup(SUPPORTED_ENGINES, GetStringExtra(i, EXTRA_SEARCH_ENGINE)).Some?
    requires SearchSubject(i, w) == Share.UploadErrored(m)
    ensures SearchOutcome(i, w) == Crashed(m)
  {
  }
}
