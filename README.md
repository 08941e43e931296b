# Reverse Image Search, modelled in Dafny

Reverse Image Search is an Android app. It takes whatever another app shares with it and
opens a reverse image search on one of six engines: Google Lens, SauceNAO, Yandex, IQDB,
ascii2d and trace.moe. The shared item may be text chosen with PROCESS_TEXT, a link, or an
image. An image is decoded and shrunk to at most 1024 x 1024. It is then uploaded as a
multipart POST to an image host, and the hosted URL becomes the search subject. The
subject is form-encoded into the engine's query URL, which is opened in a new task. Every
path ends with one toast and the activity finishing, with one exception: a
`java.lang.Error` thrown by the upload escapes the handler's `catch (e: Exception)`.

The app also has a public side:

- a client library, `RevImgApi`, with which other apps ask the app to search an image or
  to list its engines;
- the activity that answers those requests, `ApiActivity`.

The model is organised one Dafny module per part of the app:

| module | file | what it holds |
|---|---|---|
| `Common` | common.dfy | Kotlin nullables (`Option`), elvis chains, decimal text of numbers |
| `IntentEx` | intent_ex.dfy | intents as values (`IntentRecord`) and as objects whose setters change them in place (`Intent`); the `viewContent`/`sendContent` builders, `flagNewTask`, the `uri` fallback |
| `FormEncoding` | form_encoding.dfy | `URLEncoder.encode(s, "UTF-8")` and a strict decoder for it |
| `QueryTemplates` | query_templates.dfy | the six `QUERY_URL` templates and `replace("%s", …)` |
| `Effects` | effects.dfy | what an activity leaves behind: launches, toasts, results, finishes, an uncaught throwable |
| `Scaling` | scaling.dfy | `processImageUri` and `scaleBitmap` on bitmap dimensions; `Bitmap` is a class whose `recycle()` changes it in place |
| `Upload` | upload.dfy | `upload`: the multipart body written through a byte sink, a reader that parses it back, and the verdict on the host's reply |
| `Share` | share.dfy | `Activity.handleIntent(queryURL)`: subject resolution, URL check, launch, effects |
| `RevImgApi` | revimg_api.dfy | the client library: install gate, request intents, result parsing |
| `ApiActivity` | api_activity.dfy | the engine registry, action routing, the search request and the engine list request |

Each handler has two forms:

- a pure specification function (`ShareOutcomeOf`, `ApiOutcomeOf`) that gives the outcome;
- an imperative method (`HandleIntent`, `OnCreate`) that builds intents through the
  `Intent` class, calls `ProcessImageUri` and `Upload`, and is proved to produce that
  outcome and its effects.

Whatever the app learns from outside is a parameter of the model:

- the content resolver and decoder (`Uri -> ImageSource`);
- the JPEG bytes of the processed bitmap;
- the clock readings used for the file name and the boundary;
- the host's reply;
- the `Patterns.WEB_URL` test;
- the launcher's behaviour;
- for the library, the set of installed packages and the cache file store. A package is
  installed when `getPackageInfo(PACKAGE_NAME, 0)` returns for it, and not installed when
  that call throws (`RevImgApi.IsInstalled`).

Behaviour worth noting:

- **Scaling policy.** Each side is clamped to 1024, the image being scaled by
  `min(1024 / w, 1024 / h)`.
- **Failed image processing.** In `handleIntent`, a decode or scale failure does not end
  the request. The subject falls back to `dataString` and then to EXTRA_TEXT. Only
  `ApiActivity` ends such a request, with "无法处理图片".
- **URL search requests.** `ApiActivity` routes only SEARCH_IMAGE and GET_SEARCH_ENGINES.
  A SEARCH_IMAGE_URL request, which `RevImgApi.searchImageUrl` sends and reports as sent,
  ends with "不支持的请求类型" (`ApiActivity.SearchImageUrlUnsupported`).
- **Raw substitution.** `ApiActivity` puts the subject into the template without
  encoding it. `handleIntent` form-encodes it.
- **Launch exceptions.** An Exception thrown by `ApiActivity`'s `startActivity` is not
  caught. It is modelled like the upload's `Error`: an uncaught throwable with no toast
  and no finish.
- **Multipart body.** The body ends with the delimiter line `--B\r\n` and has no closing
  `--B--`. The model writes it that way.

## Model

| member | source | states |
|---|---|---|
| Common.FirstNonNull | app/src/main/java/zdz/revimg/utils/IntentEx.kt:91 | An elvis chain is null exactly when every candidate is null; otherwise it is the first non-null candidate. |
| Common.NatToStringRoundTrip | app/src/main/java/zdz/revimg/utils/utils.kt:127-130 | The decimal text of a clock reading, as used in the file name and the boundary, reads back to that reading. |
| Common.NatToStringInjective | app/src/main/java/zdz/revimg/utils/utils.kt:127-130 | Distinct clock readings give distinct file names and boundaries. |
| Common.IntToStringInjective | app/src/main/java/zdz/revimg/utils/utils.kt:174 | Distinct status codes, negative ones included, give distinct texts. |
| IntentEx.GetStringExtra | app/src/main/java/zdz/revimg/utils/utils.kt:28 | Null unless a String is stored under the name, and then exactly that String. |
| IntentEx.GetUriExtra | app/src/main/java/zdz/revimg/utils/IntentEx.kt:77-83 | `getExtra<Uri>`: null unless a Uri is stored under the name, and then exactly that Uri. |
| IntentEx.GetStringListExtra | api/src/main/java/zdz/revimg/api/RevImgApi.kt:193 | `getStringArrayListExtra`: null unless a string list is stored under the name, and then exactly that list. |
| IntentEx.GetStringExtraAfterPut | app/src/main/java/zdz/revimg/utils/IntentEx.kt:61 | A String put under a key reads back through `getStringExtra`. Every other key reads as before through each typed getter. |
| IntentEx.GetUriExtraAfterPut | app/src/main/java/zdz/revimg/utils/IntentEx.kt:66-67 | A Uri put under a key reads back through `getExtra<Uri>`, and as null through the String and string-list getters. |
| IntentEx.GetStringListExtraAfterPut | app/src/main/java/zdz/revimg/ApiActivity.kt:84 | A string list put under a key reads back through `getStringArrayListExtra`, and as null through the other getters. |
| IntentEx.DataString | app/src/main/java/zdz/revimg/utils/utils.kt:45 | `dataString` is present exactly when data is, and is its text. |
| IntentEx.UriOfIsFirstNonNull | app/src/main/java/zdz/revimg/utils/IntentEx.kt:91 | `uri` is data if present, else clip item 0's uri, else the EXTRA_STREAM Uri. |
| IntentEx.FlagNewTaskOverwrites | app/src/main/java/zdz/revimg/utils/IntentEx.kt:85-89 | `flagNewTask` assigns FLAG_NEW_TASK, so earlier flags make no difference, and applying it twice is the same as once. |
| IntentEx.LaunchIntent | app/src/main/java/zdz/revimg/utils/IntentEx.kt:100-105 | `startActivity(action, data, newTask = false) { … }`: with `newTask`, `flagNewTask` overwrites whatever flags the handler set with exactly FLAG_NEW_TASK and changes nothing else. Without it, the handler's intent is launched as is. |
| IntentEx.Intent.constructor | app/src/main/java/zdz/revimg/utils/IntentEx.kt:17-21 | `Intent(action, data)` holds only its action and data. |
| IntentEx.Intent.SetPackage | api/src/main/java/zdz/revimg/api/RevImgApi.kt:109 | Sets the target package; nothing else changes. |
| IntentEx.Intent.PutExtra | api/src/main/java/zdz/revimg/api/RevImgApi.kt:147 | Replaces the extra under the key; nothing else changes. |
| IntentEx.Intent.SetData | app/src/main/java/zdz/revimg/utils/utils.kt:60 | The `data =` setter sets the data and clears the type; nothing else changes. |
| IntentEx.Intent.SetDataAndType | app/src/main/java/zdz/revimg/utils/IntentEx.kt:40 | Sets data and type together; nothing else changes. |
| IntentEx.Intent.SetType | app/src/main/java/zdz/revimg/utils/IntentEx.kt:56 | The `type =` setter sets the type and clears the data; nothing else changes. |
| IntentEx.Intent.SetClipUri | app/src/main/java/zdz/revimg/utils/IntentEx.kt:75 | `setClipData`, as `createChooser` calls it on the chooser: the clip's first URI is set; nothing else changes. |
| IntentEx.Intent.AddFlags | api/src/main/java/zdz/revimg/api/RevImgApi.kt:149 | ORs the flag into the existing flags; nothing else changes. |
| IntentEx.Intent.FlagNewTask | app/src/main/java/zdz/revimg/utils/IntentEx.kt:89 | Replaces the flags with FLAG_NEW_TASK; nothing else changes. |
| IntentEx.ViewContent | app/src/main/java/zdz/revimg/utils/IntentEx.kt:35-42 | A new VIEW intent with the uri and type; with `newTask` its flags are FLAG_NEW_TASK. |
| IntentEx.ViewImage | app/src/main/java/zdz/revimg/utils/IntentEx.kt:47-48 | `viewContent` with the image type; `choose` is ignored. |
| IntentEx.ViewUri | app/src/main/java/zdz/revimg/utils/IntentEx.kt:50-51 | `viewContent` with no type; `choose` is ignored. |
| IntentEx.SendContent | app/src/main/java/zdz/revimg/utils/IntentEx.kt:54-58 | A new SEND intent with the type and the one extra its handler puts. |
| IntentEx.SendText | app/src/main/java/zdz/revimg/utils/IntentEx.kt:60-61 | A SEND intent carrying the text as EXTRA_TEXT. |
| IntentEx.SendImage | app/src/main/java/zdz/revimg/utils/IntentEx.kt:66-67 | A SEND intent carrying the image as EXTRA_STREAM. |
| IntentEx.CreateChooser | app/src/main/java/zdz/revimg/utils/IntentEx.kt:71-75 | With `confirm`, a new CHOOSER intent wrapping the target and the title, which takes over the target's URI-grant flags together with its clip, or its data as a clip; without `confirm`, the receiver itself. |
| IntentEx.ChooserMigratesGrants | app/src/main/java/zdz/revimg/utils/IntentEx.kt:71-75 | The chooser wraps the target and the title and has no data. With a URI-grant flag and a clip or data, it carries exactly the target's grant flags and that URI. Without a grant flag, it has no flags and no clip. It never carries the target's other flags. |
| IntentEx.ChooserOfViewImage | app/src/main/java/zdz/revimg/utils/IntentEx.kt:47-48 | A chooser over `viewImage(u)` holds the read grant and `u` as its clip. A chooser over `sendImage(u)` migrates nothing, since that intent has no grant flag. |
| IntentEx.ViewIntentFlags | app/src/main/java/zdz/revimg/utils/IntentEx.kt:35-42 | A view intent has action VIEW, the given data and type, and flags that are FLAG_NEW_TASK or zero depending on `newTask`. |
| FormEncoding.HexDigitValue | app/src/main/java/zdz/revimg/utils/utils.kt:60 | Every hex digit the encoder writes reads back as its value. |
| FormEncoding.FormEncode | app/src/main/java/zdz/revimg/utils/utils.kt:60 | `URLEncoder.encode(s, "UTF-8")` is never shorter than its input, and is empty exactly when the input is. |
| FormEncoding.FormEncodeShape | app/src/main/java/zdz/revimg/utils/utils.kt:60 | The encoder's output contains only unreserved characters, `+`, and `%` followed by two upper-case hex digits. |
| FormEncoding.EncodingHasNoPlaceholder | app/src/main/java/zdz/revimg/utils/utils.kt:60 | An encoded subject never contains `%s`. |
| FormEncoding.FormDecodeEncode | app/src/main/java/zdz/revimg/utils/utils.kt:60 | Decoding the encoding of any string gives that string back. |
| FormEncoding.FormEncodeInjective | app/src/main/java/zdz/revimg/utils/utils.kt:60 | Distinct subjects have distinct encodings. |
| FormEncoding.FormEncodeConcat | app/src/main/java/zdz/revimg/utils/utils.kt:60 | Encoding distributes over concatenation. |
| FormEncoding.FormEncodeUnreserved | app/src/main/java/zdz/revimg/utils/utils.kt:60 | A string of letters, digits and `.-*_` encodes to itself. |
| FormEncoding.EncodeSimpleUrl | app/src/main/java/zdz/revimg/utils/utils.kt:60 | `scheme://host/path` with plain parts encodes as `scheme%3A%2F%2Fhost%2Fpath`. |
| QueryTemplates.Substitute | app/src/main/java/zdz/revimg/utils/utils.kt:60 | `replace("%s", value)`: replacing the placeholder by itself leaves any template unchanged. |
| QueryTemplates.SubstituteNoPlaceholder | app/src/main/java/zdz/revimg/utils/utils.kt:60 | `replace("%s", v)` leaves a text without `%s` unchanged. |
| QueryTemplates.SubstituteFirst | app/src/main/java/zdz/revimg/utils/utils.kt:60 | The first `%s` after a placeholder-free prefix becomes the value; scanning resumes after it. |
| QueryTemplates.SubstituteSingle | app/src/main/java/zdz/revimg/utils/utils.kt:60 | A template with exactly one `%s` becomes its prefix, the value, then its suffix. |
| QueryTemplates.NoPercentNoPlaceholder | app/src/main/java/zdz/revimg/utils/utils.kt:60 | A text without `%` holds no placeholder. |
| QueryTemplates.FillSinglePlaceholder | app/src/main/java/zdz/revimg/utils/utils.kt:60 | Filling a single-placeholder template puts the value between its prefix and its suffix. |
| QueryTemplates.GoogleLensTemplate | app/src/main/java/zdz/revimg/GoogleLensActivity.kt:11 | The Google Lens template has exactly one placeholder, at its end. |
| QueryTemplates.GoogleLensQueryUrl | app/src/main/java/zdz/revimg/GoogleLensActivity.kt:11 | The Google Lens query URL is `https://lens.google.com/uploadbyurl?url=` followed by the value. |
| QueryTemplates.SauceNaoTemplate | app/src/main/java/zdz/revimg/SauceNaoActivity.kt:11 | The SauceNAO template has exactly one placeholder, at its end. |
| QueryTemplates.SauceNaoQueryUrl | app/src/main/java/zdz/revimg/SauceNaoActivity.kt:11 | The SauceNAO query URL is `https://saucenao.com/search.php?url=` followed by the value. |
| QueryTemplates.YandexTemplate | app/src/main/java/zdz/revimg/YandexActivity.kt:11 | The Yandex template has exactly one placeholder, followed by `&rpt=imageview`. |
| QueryTemplates.YandexQueryUrl | app/src/main/java/zdz/revimg/YandexActivity.kt:11 | The Yandex query URL is its prefix, the value, then `&rpt=imageview`. |
| QueryTemplates.IqdbTemplate | app/src/main/java/zdz/revimg/IqdbActivity.kt:9 | The IQDB template has exactly one placeholder, at its end. |
| QueryTemplates.IqdbQueryUrl | app/src/main/java/zdz/revimg/IqdbActivity.kt:9 | The IQDB query URL is `http://iqdb.org/?url=` followed by the value. |
| QueryTemplates.Ascii2dTemplate | app/src/main/java/zdz/revimg/Ascii2dActivity.kt:11 | The ascii2d template has exactly one placeholder, at its end. |
| QueryTemplates.Ascii2dQueryUrl | app/src/main/java/zdz/revimg/Ascii2dActivity.kt:11 | The ascii2d query URL is `https://ascii2d.net/search/url/` followed by the value. |
| QueryTemplates.TraceMoeTemplate | app/src/main/java/zdz/revimg/TraceMoeActivity.kt:11 | The trace.moe template has exactly one placeholder, at its end. |
| QueryTemplates.TraceMoeQueryUrl | app/src/main/java/zdz/revimg/TraceMoeActivity.kt:11 | The trace.moe query URL is `https://trace.moe/?auto&url=` followed by the value. |
| QueryTemplates.SauceNaoSimpleUrl | app/src/main/java/zdz/revimg/utils/utils.kt:60 | A shared `scheme://host/path` link opens SauceNAO with the `:` and `/` characters escaped and the plain parts unchanged. |
| Effects.ToastAndFinish | app/src/main/java/zdz/revimg/utils/utils.kt:81-84 | `toastAndFinish(msg)` toasts exactly `msg` once, finishes once and starts nothing. |
| Scaling.ScaledSize | app/src/main/java/zdz/revimg/utils/utils.kt:104-110 | The size `scaleBitmap` computes never grows either side, whatever the bounds. |
| Scaling.ScaledSizeByDivision | app/src/main/java/zdz/revimg/utils/utils.kt:104-110 | An integer reference for the scaled size: the side with the tighter bound becomes that bound, and the other side is scaled in proportion and rounded down. |
| Scaling.ScaledSizeBounds | app/src/main/java/zdz/revimg/utils/utils.kt:98-117 | An image within 1024 x 1024 keeps its size. A larger one ends within both bounds with no side grown and one side exactly at its bound, and its aspect ratio changes by less than one pixel of a side. |
| Scaling.ThinImageTruncatesToZero | app/src/main/java/zdz/revimg/utils/utils.kt:106-110 | A 3000 x 1 image scales to 1024 x 0. |
| Scaling.Bitmap.Recycle | app/src/main/java/zdz/revimg/utils/utils.kt:115 | `recycle()` marks the bitmap released. |
| Scaling.ScaleBitmap | app/src/main/java/zdz/revimg/utils/utils.kt:98-117 | A bitmap that fits is returned itself, its recycled state unchanged. Otherwise a new bitmap of the scaled size is returned and the receiver is recycled; a side that truncates to 0 makes `scale` throw, and nothing is recycled then. |
| Scaling.ProcessedSizeSpec | app/src/main/java/zdz/revimg/utils/utils.kt:86-95 | A processed image exists exactly when the URI decodes and neither scaled side is 0. It is at most 1024 x 1024 and no larger than the decoded image, and an image already within bounds keeps its size. |
| Scaling.ProcessImageUri | app/src/main/java/zdz/revimg/utils/utils.kt:86-95 | Null exactly when no stream opens, opening throws, decoding gives null, or scaling throws; otherwise a new, unrecycled bitmap of the processed size. |
| Upload.Latin1RoundTrip | app/src/main/java/zdz/revimg/utils/utils.kt:150-152 | `writeBytes` loses nothing on text whose characters fit in one byte. |
| Upload.ByteSink.WriteBytes | app/src/main/java/zdz/revimg/utils/utils.kt:150 | `writeBytes(s)` appends the low byte of each character. |
| Upload.ByteSink.Write | app/src/main/java/zdz/revimg/utils/utils.kt:154 | `write(bytes)` appends the bytes. |
| Upload.MultipartBody | app/src/main/java/zdz/revimg/utils/utils.kt:149-159 | The body is the headers, the image bytes unchanged right after them, and a closing line break and delimiter line. |
| Upload.WriteBody | app/src/main/java/zdz/revimg/utils/utils.kt:149-159 | The six writes produce the delimiter line, the two part headers and a blank line, the image, a line break, and the delimiter line again. |
| Upload.ParseMultipartBody | app/src/main/java/zdz/revimg/utils/utils.kt:149-159 | A receiver that parses the body with the boundary gets back the file name and the image bytes unchanged, provided the name holds no quote and only one-byte characters. |
| Upload.FileNameIsPlain | app/src/main/java/zdz/revimg/utils/utils.kt:127 | `image_<millis>.jpg` holds no quote and only one-byte characters. |
| Upload.UploadedPartReadsBack | app/src/main/java/zdz/revimg/utils/utils.kt:126-159 | The host reads the file name and the image out of the body `upload` sends. |
| Upload.UploadVerdict | app/src/main/java/zdz/revimg/utils/utils.kt:161-174 | A hosted URL is never empty. An `Error` is thrown only once a status was read, and its message carries that status. |
| Upload.UploadVerdictSpec | app/src/main/java/zdz/revimg/utils/utils.kt:161-174 | A URL comes back exactly when the status is 200 and `dest` is non-empty, and it is `dest`. An `Error` is thrown exactly when a status was read and the status or `dest` is unusable, and its message carries the status. Every other failure is an Exception. |
| Upload.ErrorMessageInjective | app/src/main/java/zdz/revimg/utils/utils.kt:174 | The status can be recovered from the `Error`'s message. |
| Upload.Upload | app/src/main/java/zdz/revimg/utils/utils.kt:119-175 | POSTs the multipart body to `https://api.resmush.it/?qlty=60` with the boundary in its Content-Type; the result is the verdict on the reply. |
| Share.ShareEffects | app/src/main/java/zdz/revimg/utils/utils.kt:40-67 | Every handled outcome toasts once and finishes once. An escaping `Error` does neither. Only an opened search starts an activity, and it starts that search. |
| Share.ResolveSubject | app/src/main/java/zdz/revimg/utils/utils.kt:27-48 | An upload failure arises only for an image type shared by VIEW or SEND. For PROCESS_TEXT a subject is found exactly when EXTRA_PROCESS_TEXT holds a String. |
| Share.ShareOutcomeOf | app/src/main/java/zdz/revimg/utils/utils.kt:26-69 | The request crashes exactly when the upload threw an `Error`, and ends with "no subject" exactly when no subject was found. A search is launched only for a subject that passed the URL check. |
| Share.ResolveUriString | app/src/main/java/zdz/revimg/utils/utils.kt:27-48 | The imperative `when (intent.action)` chain, which decodes and uploads an image on the way, settles on the subject `ResolveSubject` describes. |
| Share.HandleIntent | app/src/main/java/zdz/revimg/utils/utils.kt:26-69 | Ends with the outcome `ShareOutcomeOf` gives and exactly that outcome's effects. |
| Share.SubjectByAction | app/src/main/java/zdz/revimg/utils/utils.kt:27-50 | PROCESS_TEXT takes its subject from EXTRA_PROCESS_TEXT alone. Any action other than PROCESS_TEXT, VIEW and SEND has no subject and ends as "no subject", whatever the engine's template. |
| Share.UploadedImageIsSubject | app/src/main/java/zdz/revimg/utils/utils.kt:31-37 | For VIEW or SEND with an image type, the image is the first of data, clip item 0 and EXTRA_STREAM; once it decodes and is hosted, the hosted URL is the subject. |
| Share.SubjectFallsBack | app/src/main/java/zdz/revimg/utils/utils.kt:44-45 | When the type is not an image type, no image exists or it does not decode, the subject is `dataString`, else EXTRA_TEXT, else none. |
| Share.OneTerminalToast | app/src/main/java/zdz/revimg/utils/utils.kt:40-67 | Each handled outcome ends with exactly its own toast message and one finish. "No subject" and "invalid URL" start nothing, and their toasts differ whatever subject was rejected. |
| Share.UploadErrorEscapes | app/src/main/java/zdz/revimg/utils/utils.kt:36-41 | An `Error` from `upload` ends the handler with only the uncaught throwable: no toast, no finish, nothing opened. |
| Share.OpenedSearch | app/src/main/java/zdz/revimg/utils/utils.kt:52-62 | An opened search had a subject that passed the URL check. It is a VIEW of the template with the form-encoded subject, with flags exactly FLAG_NEW_TASK, and the encoding holds no `%s`. |
| Share.SearchUrlCarriesSubject | app/src/main/java/zdz/revimg/utils/utils.kt:60 | With a one-placeholder template, the query URL is prefix, encoded subject, suffix, and the subject decodes back out of it. |
| RevImgApi.GetSearchEngines | api/src/main/java/zdz/revimg/api/RevImgApi.kt:105-118 | Not installed: false and nothing launched. Otherwise a GET_SEARCH_ENGINES intent explicit to `zdz.revimg` is launched, and the result is whether the launch completed. |
| RevImgApi.SearchImageBitmap | api/src/main/java/zdz/revimg/api/RevImgApi.kt:127-158 | Not installed, or the cache file cannot be written or shared: false and nothing launched. Otherwise the SEARCH_IMAGE intent with type `image/jpeg` for the stored file is launched, and the result is whether the launch completed. The engine defaults to google. |
| RevImgApi.SearchImageUri | api/src/main/java/zdz/revimg/api/RevImgApi.kt:167-185 | Not installed: false and nothing launched. Otherwise the SEARCH_IMAGE intent with the wildcard image type for the URI is launched, and the result is whether the launch completed. The engine defaults to google. |
| RevImgApi.SearchImageUrl | api/src/main/java/zdz/revimg/api/RevImgApi.kt:203-220 | Not installed: false and nothing launched. Otherwise the SEARCH_IMAGE_URL intent is launched, and the result is whether the launch completed. The engine defaults to google. |
| RevImgApi.ParseSearchEnginesResult | api/src/main/java/zdz/revimg/api/RevImgApi.kt:192-194 | Null data gives null. Otherwise the result is the stored `search_engines` list exactly when one is stored. |
| RevImgApi.RequestShapes | api/src/main/java/zdz/revimg/api/RevImgApi.kt:145-212 | Both image requests carry action SEARCH_IMAGE, package `zdz.revimg`, the engine, the image and the read-grant flag, and differ only in type. The URL request carries the engine and the URL and has no data or type. |
| RevImgApi.EnginesDistinct | api/src/main/java/zdz/revimg/api/RevImgApi.kt:72-82 | The six engine names of `Engines.ALL` are distinct. |
| ApiActivity.Keys | app/src/main/java/zdz/revimg/ApiActivity.kt:84 | `SUPPORTED_ENGINES.keys` lists the registry's names in insertion order. |
| ApiActivity.Lookup | app/src/main/java/zdz/revimg/ApiActivity.kt:61 | A template is found exactly when the engine is non-null and registered, and it is one registered under that name. |
| ApiActivity.LookupRegistered | app/src/main/java/zdz/revimg/ApiActivity.kt:29-36 | In a registry with distinct names, each name finds the template registered with it. |
| ApiActivity.RegistryKeysAreAll | app/src/main/java/zdz/revimg/ApiActivity.kt:29-36 | The registry's names are exactly `Engines.ALL`, in the same order. |
| ApiActivity.RegistryTemplates | app/src/main/java/zdz/revimg/ApiActivity.kt:29-36 | Each engine name maps to its own engine activity's `QUERY_URL`. |
| ApiActivity.ApiEffects | app/src/main/java/zdz/revimg/ApiActivity.kt:43-87 | The engine list gives a result and a finish with no toast. An uncaught throwable gives neither toast nor finish. Every other outcome toasts once and finishes once, and only a search starts an activity. |
| ApiActivity.SearchSubject | app/src/main/java/zdz/revimg/ApiActivity.kt:63-71 | For a type that is not an image type, a subject is found exactly when `intent.uri` exists, and no upload happens, so no upload failure can occur. |
| ApiActivity.SearchOutcome | app/src/main/java/zdz/revimg/ApiActivity.kt:59-76 | A search request never ends as an unsupported request or as an engine list. |
| ApiActivity.ApiOutcomeOf | app/src/main/java/zdz/revimg/ApiActivity.kt:39-53 | The engine list is answered exactly for GET_SEARCH_ENGINES. A request is refused as unsupported exactly when its action is neither SEARCH_IMAGE nor GET_SEARCH_ENGINES. |
| ApiActivity.ResolveSearchSubject | app/src/main/java/zdz/revimg/ApiActivity.kt:63-71 | The imperative subject step, which decodes and uploads an image, gives the subject `SearchSubject` describes. |
| ApiActivity.HandleSearchImage | app/src/main/java/zdz/revimg/ApiActivity.kt:59-76 | Ends with the outcome `SearchOutcome` gives. |
| ApiActivity.HandleGetSearchEngines | app/src/main/java/zdz/revimg/ApiActivity.kt:82-87 | Sets RESULT_OK with a result whose `search_engines` are the registry's names, then finishes. |
| ApiActivity.OnCreate | app/src/main/java/zdz/revimg/ApiActivity.kt:39-53 | Routes on the action and ends with the outcome `ApiOutcomeOf` gives and exactly its effects. |
| ApiActivity.EnginesResultParses | app/src/main/java/zdz/revimg/ApiActivity.kt:82-87 | What the engine list request returns parses, with `parseSearchEnginesResult`, to `Engines.ALL`. |
| ApiActivity.UnsupportedActions | app/src/main/java/zdz/revimg/ApiActivity.kt:43-51 | Every action but SEARCH_IMAGE and GET_SEARCH_ENGINES ends with the toast "不支持的请求类型" and opens nothing. |
| ApiActivity.SearchImageUrlUnsupported | app/src/main/java/zdz/revimg/ApiActivity.kt:43-51 | The request `searchImageUrl` sends is refused as unsupported. |
| ApiActivity.UnknownEngine | app/src/main/java/zdz/revimg/ApiActivity.kt:60-61 | A missing or unregistered engine ends with the toast "不支持的搜索引擎" and opens nothing. |
| ApiActivity.SubjectByType | app/src/main/java/zdz/revimg/ApiActivity.kt:63-71 | A non-image type takes `intent.uri` as text, with no decode or upload. An image type's subject is the hosted copy of a decodable image, and an Exception from the upload ends the request as an upload failure with its message. |
| ApiActivity.SearchedRaw | app/src/main/java/zdz/revimg/ApiActivity.kt:72-74 | A completed search used a registered engine. It opened a VIEW of the template with the subject substituted unencoded, with flags FLAG_NEW_TASK, and toasted "已使用<engine>搜索图片". |
| ApiActivity.RawSubjectInUrl | app/src/main/java/zdz/revimg/ApiActivity.kt:73 | With a one-placeholder template, the opened URL is prefix, subject verbatim, suffix. |
| ApiActivity.UploadErrorSubject | app/src/main/java/zdz/revimg/ApiActivity.kt:64-70 | An upload that throws an `Error` leaves that `Error`, carrying the status, as the subject. |
| ApiActivity.UploadErrorEscapes | app/src/main/java/zdz/revimg/ApiActivity.kt:64-70 | That `Error` escapes `catch (e: Exception)`: the request ends with no toast and no finish. |

## Left out

- The HTTP transport of `upload`: connecting, request headers, the 15-second timeouts and
  stream reads. The reply is an input: a transport failure, or a status plus a JSON body
  that either fails to parse or has an optional `dest`.
- A failure part-way through writing the body is not modelled separately. Any IOException
  is the reply's transport failure.
- JSON parsing by `org.json` is a foreign library. A parse failure is just an Exception
  with its message.
- Pixel work is out: decoding, `compress(JPEG, 90)`, and the pixels of `scale`. Bitmaps
  carry only their dimensions, and the JPEG bytes handed to `upload` are a parameter.
- Scaling.ScaledSize: uses exact rational arithmetic for `Float` division and
  multiplication before `toInt()`. Single-precision rounding can differ by one pixel near
  integer boundaries.
- `Patterns.WEB_URL` is the `isValidUrl` parameter of the world; the Android regex itself
  is not modelled.
- Coroutines, dispatchers, `withContext` and `runOnUiThread` are out, because each request
  is handled sequentially. A throwable that no handler catches is recorded as an effect;
  what the platform does with it afterwards is not modelled.
- Toast, `finishAndRemoveTask`, `finish`, `startActivity` and `setResult` appear as
  effects in a trace. The model has no activity state beyond that trace.
- The `File` overloads of `viewImage` and `sendImage` (`File.toUri()`) and the
  `IntentSender` argument of `createChooser` (always null here) are not modelled.
- IntentEx.Intent.SetDataAndType: also stands for `setDataAndTypeAndNormalize`. Its
  normalisation is not modelled: lower-casing the URI scheme, lower-casing the MIME type,
  and stripping MIME parameters and whitespace.
- IntentEx.CreateChooser: the clip is only its first URI, so the MIME types of the clip
  built from the target's data are not modelled. A target clip whose first item has no
  URI counts as no clip.
- Logging (`Log.e` and `Log.w` in `handleIntent`, `processImageUri` and `ApiActivity`)
  has no observable effect on the outcome, so it is not part of the effect trace.
- The pre-Tiramisu branch of `getExtra` is modelled like the typed one: an extra of the
  wrong type reads as null.
- `OutOfMemoryError` and other throwables from the platform are not modelled. Neither is
  any launcher exception in `ApiActivity` other than an Exception from `startActivity`.
- `handleCreate`, which `IqdbActivity` calls, is not part of this model. The IQDB template
  is still modelled, through the `ApiActivity` registry.
- FormEncoding.FormEncode: strings are sequences of Unicode scalar values. An unpaired
  UTF-16 surrogate, which `URLEncoder` replaces with `?`, cannot occur in the model.
- RevImgApi.SearchImageBitmap: the cache file store and its FileProvider URI are one
  parameter from file name to URI; the cache directory and the authority string are not
  modelled.
- Notification, update checks and the build scripts are not part of this model.
