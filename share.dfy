/** `Activity.handleIntent(queryURL)`: what an engine activity does with the intent that
    started it. It settles on a subject (shared text, a link, or the hosted copy of a
    shared image), checks that the subject is a web URL, and opens the engine's query URL
    with the subject form-encoded into it. Every path ends in one toast and a finish,
    except an `Error` thrown by `upload`, which no handler catches. */
module Share {
  import opened Common
  import opened IntentEx
  import opened FormEncoding
  import opened QueryTemplates
  import opened Scaling
  import opened Upload
  import opened Effects

  const OPENED_MESSAGE := "已打开"
  const OPEN_FAILED_PREFIX := "打开搜索结果失败: "
  const UPLOAD_FAILED_PREFIX := "上传失败: "
  const NO_SUBJECT_MESSAGE := "分享类型错误 | 分享内容不包含URI"
  const INVALID_URL_MESSAGE := "分享内容不包含有效的URL"

  /** What `startActivity` does with an intent: starts it, or throws an Exception (such as
      ActivityNotFoundException) with the given message. */
  datatype Launch = Started | Refused(message: Option<string>)

  /** What the handler learns from outside the model: the content resolver and decoder,
      the JPEG bytes of the processed bitmap, the two clock readings in `upload`, the
      reply of the image host, the `Patterns.WEB_URL` test, and the platform's launcher. */
  datatype World = World(
    content: Uri -> ImageSource,
    jpeg: seq<Byte>,
    fileMillis: nat,
    boundaryMillis: nat,
    reply: HttpReply,
    isValidUrl: string -> bool,
    launch: IntentRecord -> Launch)

  /** The subject `handleIntent` settles on, or the upload failure that ends it first. */
  datatype Subject =
    | Found(text: string)
    | Missing
    | UploadRaised(message: Option<string>)
    | UploadErrored(errorMessage: string)

  /** The image branch of `run { ... }`: the upload's outcome, or null when the type is not
      an image type, no image URI exists, or `processImageUri` gives null. */
  function ImageUpload(i: IntentRecord, w: World): Option<UploadResult> {
    if IsImageType(i.mimeType) && UriOf(i).Some? && ProcessedSize(w.content(UriOf(i).value)).Some? then
      Some(UploadVerdict(w.reply))
    else None
  }

  /** The `when (intent.action)` chain that computes `uriString`. */
  function ResolveSubject(i: IntentRecord, w: World): (r: Subject)
    ensures r.UploadRaised? || r.UploadErrored? ==>
              (i.action == Some(ACTION_VIEW) || i.action == Some(ACTION_SEND)) && IsImageType(i.mimeType)
    ensures i.action == Some(ACTION_PROCESS_TEXT) ==> (r.Found? <==> GetStringExtra(i, EXTRA_PROCESS_TEXT).Some?)
  {
    if i.action == Some(ACTION_PROCESS_TEXT) then
      var text := GetStringExtra(i, EXTRA_PROCESS_TEXT);
      if text.Some? then Found(text.value) else Missing
    else if i.action == Some(ACTION_VIEW) || i.action == Some(ACTION_SEND) then
      var uploaded := ImageUpload(i, w);
      if uploaded.Some? then
        match uploaded.value
        case Hosted(url) => Found(url)
        case Raised(message) => UploadRaised(message)
        case ErrorThrown(message) => UploadErrored(message)
      else
        var fallback := FirstNonNull([DataString(i), GetStringExtra(i, EXTRA_TEXT)]);
        if fallback.Some? then Found(fallback.value) else Missing
    else Missing
  }

  /** The query URL for a subject: the template with every `%s` replaced by the subject,
      form-encoded. */
  function SearchUrl(queryUrl: string, subject: string): string {
    Substitute(queryUrl, FormEncode(subject))
  }

  /** The intent `startActivity(ACTION_VIEW) { data = ...; flagNewTask() }` launches. */
  function SearchIntent(queryUrl: string, subject: string): IntentRecord {
    LaunchIntent(ACTION_VIEW, None, false,
                 (j: IntentRecord) => WithNewTaskFlags(j.(data := Some(Uri(SearchUrl(queryUrl, subject))), mimeType := None)))
  }

  /** How `handleIntent` ends. */
  datatype ShareOutcome =
    | Opened(launched: IntentRecord)
    | OpenFailed(message: Option<string>)
    | UploadFailed(message: Option<string>)
    | NoSubject
    | InvalidUrl(subject: string)
    | Crashed(errorMessage: string)

  /** The outcome of `handleIntent(queryUrl)` for the intent `i`. */
  function ShareOutcomeOf(i: IntentRecord, queryUrl: string, w: World): (r: ShareOutcome)
    ensures r.Crashed? <==> ResolveSubject(i, w).UploadErrored?
    ensures r.NoSubject? <==> ResolveSubject(i, w).Missing?
    ensures r.Opened? || r.OpenFailed? ==>
              ResolveSubject(i, w).Found? && w.isValidUrl(ResolveSubject(i, w).text)
  {
    match ResolveSubject(i, w)
    case UploadRaised(message) => UploadFailed(message)
    case UploadErrored(message) => Crashed(message)
    case Missing => NoSubject
    case Found(subject) =>
      if !w.isValidUrl(subject) then InvalidUrl(subject)
      else
        var intent := SearchIntent(queryUrl, subject);
        match w.launch(intent)
        case Started => Opened(intent)
        case Refused(message) => OpenFailed(message)
  }

  /** The effects of each outcome. Every handled outcome toasts once and finishes once; only
      an opened search starts an activity; an uncaught `Error` does neither. */
  function ShareEffects(o: ShareOutcome): (r: seq<Effect>)
    ensures o.Crashed? ==> Toasts(r) == [] && Finishes(r) == 0
    ensures !o.Crashed? ==> |Toasts(r)| == 1 && Finishes(r) == 1
    ensures Launches(r) == if o.Opened? then [o.launched] else []
  {
    match o
    case Opened(launched) =>
      var r := [StartActivity(launched)] + ToastAndFinish(OPENED_MESSAGE);
      CountsAppend([StartActivity(launched)], ToastAndFinish(OPENED_MESSAGE));
      assert [StartActivity(launched)][1..] == [];
      r
    case OpenFailed(message) =>
      ToastAndFinish(OPEN_FAILED_PREFIX + MessageText(message))
    case UploadFailed(message) =>
      ToastAndFinish(UPLOAD_FAILED_PREFIX + MessageText(message))
    case NoSubject =>
      ToastAndFinish(NO_SUBJECT_MESSAGE)
    case InvalidUrl(_) =>
      ToastAndFinish(INVALID_URL_MESSAGE)
    case Crashed(message) =>
      var r := [UncaughtThrowable(message)];
      assert r[1..] == [];
      r
  }

  /** The first half of `handleIntent`: the `when (intent.action)` chain, which decodes and
      uploads a shared image on the way. */
  method ResolveUriString(i: IntentRecord, w: World) returns (subject: Subject)
    ensures subject == ResolveSubject(i, w)
  {
    var uriString: Option<string> := None;
    if i.action == Some(ACTION_PROCESS_TEXT) {
      uriString := GetStringExtra(i, EXTRA_PROCESS_TEXT);
    } else if i.action == Some(ACTION_VIEW) || i.action == Some(ACTION_SEND) {
      if IsImageType(i.mimeType) {
        var imgUrl := UriOf(i);
        if imgUrl.Some? {
          var bitmap := ProcessImageUri(w.content, imgUrl.value);
          if bitmap.Some? {
            var request, uploaded := Upload.Upload(w.jpeg, w.fileMillis, w.boundaryMillis, w.reply);
            match uploaded {
              case Hosted(url) =>
                uriString := Some(url);
              case Raised(message) =>
                return UploadRaised(message);
              case ErrorThrown(message) =>
                return UploadErrored(message);
            }
          }
        }
      }
      if uriString.None? {
        uriString := FirstNonNull([DataString(i), GetStringExtra(i, EXTRA_TEXT)]);
      }
    }
    subject := if uriString.Some? then Found(uriString.value) else Missing;
  }

  /** `handleIntent(queryUrl)` on the intent `i`: the outcome and the effects it leaves. */
  method HandleIntent(i: IntentRecord, queryUrl: string, w: World)
    returns (outcome: ShareOutcome, effects: seq<Effect>)
    ensures outcome == ShareOutcomeOf(i, queryUrl, w)
    ensures effects == ShareEffects(outcome)
  {
    var subject := ResolveUriString(i, w);
    match subject {
      case UploadRaised(message) =>
        outcome := UploadFailed(message);
      case UploadErrored(message) =>
        outcome := Crashed(message);
      case Missing =>
        outcome := NoSubject;
      case Found(uriString) =>
        if !w.isValidUrl(uriString) {
          outcome := InvalidUrl(uriString);
        } else {
          var search := new Intent(Some(ACTION_VIEW), None);
          search.SetData(Uri(Substitute(queryUrl, FormEncode(uriString))));
          search.FlagNewTask();
          var launched := search.Value();
          match w.launch(launched) {
            case Started =>
              outcome := Opened(launched);
            case Refused(message) =>
              outcome := OpenFailed(message);
          }
        }
    }
    effects := ShareEffects(outcome);
  }

  // ---------------------------------------------------------------------------
  // Properties of the decision chain.

  /** PROCESS_TEXT takes its subject from EXTRA_PROCESS_TEXT alone; an action other than
      PROCESS_TEXT, VIEW and SEND has no subject. */
  lemma SubjectByAction(i: IntentRecord, w: World)
    ensures i.action == Some(ACTION_PROCESS_TEXT) ==>
              ResolveSubject(i, w) == (if GetStringExtra(i, EXTRA_PROCESS_TEXT).Some?
                                       then Found(GetStringExtra(i, EXTRA_PROCESS_TEXT).value) else Missing)
    ensures i.action !in {Some(ACTION_PROCESS_TEXT), Some(ACTION_VIEW), Some(ACTION_SEND)} ==>
              ResolveSubject(i, w) == Missing
    ensures forall queryUrl :: i.action !in {Some(ACTION_PROCESS_TEXT), Some(ACTION_VIEW), Some(ACTION_SEND)} ==>
              ShareOutcomeOf(i, queryUrl, w) == NoSubject
  {
  }

  /** For VIEW and SEND with an image type, the image is the first of data, clip item 0 and
      EXTRA_STREAM; when it decodes and the upload hosts it, the hosted URL is the subject. */
  lemma UploadedImageIsSubject(i: IntentRecord, w: World, url: string)
    requires i.action == Some(ACTION_VIEW) || i.action == Some(ACTION_SEND)
    requires IsImageType(i.mimeType) && UriOf(i).Some?
    requires ProcessedSize(w.content(UriOf(i).value)).Some?
    requires UploadVerdict(w.reply) == Hosted(url)
    ensures ResolveSubject(i, w) == Found(url)
    ensures UriOf(i) == FirstNonNull([i.data, i.clipUri, GetUriExtra(i, EXTRA_STREAM)])
  {
  }

  /** For VIEW and SEND, when the type is not an image type, no image URI exists, or the
      image does not decode, the subject is `dataString`, else EXTRA_TEXT. */
  lemma SubjectFallsBack(i: IntentRecord, w: World)
    requires i.action == Some(ACTION_VIEW) || i.action == Some(ACTION_SEND)
    requires !IsImageType(i.mimeType) || UriOf(i).None? || ProcessedSize(w.content(UriOf(i).value)).None?
    ensures DataString(i).Some? ==> ResolveSubject(i, w) == Found(DataString(i).value)
    ensures DataString(i).None? && GetStringExtra(i, EXTRA_TEXT).Some? ==>
              ResolveSubject(i, w) == Found(GetStringExtra(i, EXTRA_TEXT).value)
    ensures DataString(i).None? && GetStringExtra(i, EXTRA_TEXT).None? ==> ResolveSubject(i, w) == Missing
  {
    var c := [DataString(i), GetStringExtra(i, EXTRA_TEXT)];
    assert c[0] == DataString(i) && c[1] == GetStringExtra(i, EXTRA_TEXT);
  }

  /** Each handled outcome ends with exactly one toast, with its own message, and one
      finish; no subject and an invalid URL start nothing, and their toasts are told apart
      whatever the rejected subject. */
  lemma OneTerminalToast(o: ShareOutcome)
    requires !o.Crashed?
    ensures Finishes(ShareEffects(o)) == 1
    ensures Toasts(ShareEffects(o)) == [match o
                                        case Opened(_) => OPENED_MESSAGE
                                        case OpenFailed(m) => OPEN_FAILED_PREFIX + MessageText(m)
                                        case UploadFailed(m) => UPLOAD_FAILED_PREFIX + MessageText(m)
                                        case NoSubject => NO_SUBJECT_MESSAGE
                                        case InvalidUrl(_) => INVALID_URL_MESSAGE
                                        case Crashed(_) => ""]
    ensures o.NoSubject? || o.InvalidUrl? ==> Launches(ShareEffects(o)) == []
    ensures forall s :: Toasts(ShareEffects(NoSubject)) != Toasts(ShareEffects(InvalidUrl(s)))
  {
    if o.Opened? {
      CountsAppend([StartActivity(o.launched)], ToastAndFinish(OPENED_MESSAGE));
      assert [StartActivity(o.launched)][1..] == [];
    }
    forall s
      ensures Toasts(ShareEffects(NoSubject)) != Toasts(ShareEffects(InvalidUrl(s)))
    {
      assert Toasts(ShareEffects(NoSubject)) == [NO_SUBJECT_MESSAGE];
      assert Toasts(ShareEffects(InvalidUrl(s))) == [INVALID_URL_MESSAGE];
      assert NO_SUBJECT_MESSAGE[2] != INVALID_URL_MESSAGE[2];
    }
  }

  /** The `Error` thrown by `upload` escapes `catch (e: Exception)`: nothing is toasted,
      nothing finished, nothing opened. */
  lemma UploadErrorEscapes(i: IntentRecord, queryUrl: string, w: World)
    requires ResolveSubject(i, w).UploadErrored?
    ensures ShareOutcomeOf(i, queryUrl, w) == Crashed(ResolveSubject(i, w).errorMessage)
    ensures ShareEffects(ShareOutcomeOf(i, queryUrl, w)) == [UncaughtThrowable(ResolveSubject(i, w).errorMessage)]
  {
  }

  /** An opened search views the query URL in a new, cleared task; the subject sits in it
      form-encoded, and the encoding holds no `%s` for a later replacement to hit. */
  lemma OpenedSearch(i: IntentRecord, queryUrl: string, w: World)
    requires ShareOutcomeOf(i, queryUrl, w).Opened?
    ensures ResolveSubject(i, w).Found? && w.isValidUrl(ResolveSubject(i, w).text)
    ensures var l := ShareOutcomeOf(i, queryUrl, w).launched;
            var s := ResolveSubject(i, w).text;
            && l.action == Some(ACTION_VIEW)
            && l.data == Some(Uri(Substitute(queryUrl, FormEncode(s))))
            && l.flags == FLAG_NEW_TASK
            && !ContainsPlaceholder(FormEncode(s))
  {
    EncodingHasNoPlaceholder(ResolveSubject(i, w).text);
  }

  /** With a template of one placeholder, the opened URL is the template's prefix, the
      encoded subject and its suffix, and the subject decodes back out of it. */
  lemma SearchUrlCarriesSubject(queryUrl: string, p: string, q: string, subject: string)
    requires SinglePlaceholder(queryUrl, p, q)
    ensures SearchUrl(queryUrl, subject) == p + FormEncode(subject) + q
    ensures FormDecode(SearchUrl(queryUrl, subject)[|p|..|p| + |FormEncode(subject)|]) == Some(subject)
  {
    FillSinglePlaceholder(queryUrl, p, q, FormEncode(subject));
    var e := FormEncode(subject);
    assert (p + e + q)[|p|..|p| + |e|] == e;
    FormDecodeEncode(subject);
  }
}
