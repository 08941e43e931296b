/** Android intents and the helper extensions the app builds them with.

    An `Intent` object is mutated in place by its setters (`apply { ... }` blocks);
    `IntentRecord` is the value such an object holds at one moment, which is what
    the dispatchers read and what a launch hands to the platform. */
module IntentEx {
  import opened Common

  // Platform constants of android.content.Intent used by the app.
  const ACTION_VIEW := "android.intent.action.VIEW"
  const ACTION_SEND := "android.intent.action.SEND"
  const ACTION_PROCESS_TEXT := "android.intent.action.PROCESS_TEXT"
  const ACTION_CHOOSER := "android.intent.action.CHOOSER"
  const EXTRA_TEXT := "android.intent.extra.TEXT"
  const EXTRA_STREAM := "android.intent.extra.STREAM"
  const EXTRA_PROCESS_TEXT := "android.intent.extra.PROCESS_TEXT"
  const EXTRA_INTENT := "android.intent.extra.INTENT"
  const EXTRA_TITLE := "android.intent.extra.TITLE"

  const FLAG_ACTIVITY_NEW_TASK: bv32 := 0x1000_0000
  const FLAG_ACTIVITY_CLEAR_TASK: bv32 := 0x0000_8000
  const FLAG_GRANT_READ_URI_PERMISSION: bv32 := 0x0000_0001
  const FLAG_GRANT_WRITE_URI_PERMISSION: bv32 := 0x0000_0002
  const FLAG_GRANT_PERSISTABLE_URI_PERMISSION: bv32 := 0x0000_0040
  const FLAG_GRANT_PREFIX_URI_PERMISSION: bv32 := 0x0000_0080

  /** The URI-grant flags `Intent.createChooser` carries over from its target. */
  const URI_GRANT_FLAGS: bv32 :=
    FLAG_GRANT_READ_URI_PERMISSION | FLAG_GRANT_WRITE_URI_PERMISSION |
    FLAG_GRANT_PERSISTABLE_URI_PERMISSION | FLAG_GRANT_PREFIX_URI_PERMISSION

  /** `FLAG_NEW_TASK`: a fresh task, cleared, with read access to the data URI. */
  const FLAG_NEW_TASK: bv32 :=
    FLAG_ACTIVITY_NEW_TASK | FLAG_ACTIVITY_CLEAR_TASK | FLAG_GRANT_READ_URI_PERMISSION

  /** A `Uri`, identified by its string form (`toString()` / `toUri()` are inverse). */
  datatype Uri = Uri(text: string)

  /** The typed value stored under one extra key. `OtherExtra` is any type that the
      typed getters used here (`getStringExtra`, `getParcelableExtra<Uri>`,
      `getStringArrayListExtra`) do not return, e.g. a non-String CharSequence. */
  datatype ExtraValue =
    | StringExtra(s: string)
    | UriExtra(u: Uri)
    | StringListExtra(items: seq<string>)
    | IntentExtra(intent: IntentRecord)
    | OtherExtra

  /** The observable content of an intent. `clipUri` is `clipData?.getItemAt(0)?.uri`. */
  datatype IntentRecord = IntentRecord(
    action: Option<string>,
    data: Option<Uri>,
    mimeType: Option<string>,
    clipUri: Option<Uri>,
    extras: map<string, ExtraValue>,
    targetPackage: Option<string>,
    flags: bv32)

  /** `Intent(action, data)`: nothing else set. */
  function Blank(action: Option<string>, data: Option<Uri>): IntentRecord {
    IntentRecord(action, data, None, None, map[], None, 0)
  }

  /** `getStringExtra(name)`: null unless a String is stored under `name`. */
  function GetStringExtra(i: IntentRecord, name: string): (r: Option<string>)
    ensures r.Some? <==> name in i.extras && i.extras[name].StringExtra?
    ensures r.Some? ==> i.extras[name] == StringExtra(r.value)
  {
    if name in i.extras && i.extras[name].StringExtra? then Some(i.extras[name].s) else None
  }

  /** `getParcelableExtra<Uri>(name)`: null unless a Uri is stored under `name`. */
  function GetUriExtra(i: IntentRecord, name: string): (r: Option<Uri>)
    ensures r.Some? <==> name in i.extras && i.extras[name].UriExtra?
    ensures r.Some? ==> i.extras[name] == UriExtra(r.value)
  {
    if name in i.extras && i.extras[name].UriExtra? then Some(i.extras[name].u) else None
  }

  /** `getStringArrayListExtra(name)`: null unless a string list is stored under `name`. */
  function GetStringListExtra(i: IntentRecord, name: string): (r: Option<seq<string>>)
    ensures r.Some? <==> name in i.extras && i.extras[name].StringListExtra?
    ensures r.Some? ==> i.extras[name] == StringListExtra(r.value)
  {
    if name in i.extras && i.extras[name].StringListExtra? then Some(i.extras[name].items) else None
  }

  /** A String put under a key reads back through `getStringExtra`, and every other key
      reads as before, whatever it holds. */
  lemma GetStringExtraAfterPut(i: IntentRecord, key: string, value: string, other: string)
    ensures GetStringExtra(i.(extras := i.extras[key := StringExtra(value)]), key) == Some(value)
    ensures other != key ==>
              GetStringExtra(i.(extras := i.extras[key := StringExtra(value)]), other) == GetStringExtra(i, other)
    ensures other != key ==>
              GetUriExtra(i.(extras := i.extras[key := StringExtra(value)]), other) == GetUriExtra(i, other)
    ensures other != key ==>
              GetStringListExtra(i.(extras := i.extras[key := StringExtra(value)]), other) == GetStringListExtra(i, other)
  {
  }

  /** A Uri put under a key reads back through `getExtra<Uri>`, and through no other getter. */
  lemma GetUriExtraAfterPut(i: IntentRecord, key: string, u: Uri)
    ensures GetUriExtra(i.(extras := i.extras[key := UriExtra(u)]), key) == Some(u)
    ensures GetStringExtra(i.(extras := i.extras[key := UriExtra(u)]), key).None?
    ensures GetStringListExtra(i.(extras := i.extras[key := UriExtra(u)]), key).None?
  {
  }

  /** A string list put under a key reads back through `getStringArrayListExtra`, and
      through no other getter. */
  lemma GetStringListExtraAfterPut(i: IntentRecord, key: string, items: seq<string>)
    ensures GetStringListExtra(i.(extras := i.extras[key := StringListExtra(items)]), key) == Some(items)
    ensures GetStringExtra(i.(extras := i.extras[key := StringListExtra(items)]), key).None?
    ensures GetUriExtra(i.(extras := i.extras[key := StringListExtra(items)]), key).None?
  {
  }

  /** `dataString`: the data URI as a string, or null. */
  function DataString(i: IntentRecord): (r: Option<string>)
    ensures r.Some? <==> i.data.Some?
    ensures r.Some? ==> r.value == i.data.value.text
  {
    if i.data.Some? then Some(i.data.value.text) else None
  }

  /** The extension property `uri`: data, else clip item 0's uri, else the EXTRA_STREAM Uri. */
  function UriOf(i: IntentRecord): Option<Uri> {
    FirstNonNull([i.data, i.clipUri, GetUriExtra(i, EXTRA_STREAM)])
  }

  lemma UriOfIsFirstNonNull(i: IntentRecord)
    ensures i.data.Some? ==> UriOf(i) == i.data
    ensures i.data.None? && i.clipUri.Some? ==> UriOf(i) == i.clipUri
    ensures i.data.None? && i.clipUri.None? ==> UriOf(i) == GetUriExtra(i, EXTRA_STREAM)
  {
    var c := [i.data, i.clipUri, GetUriExtra(i, EXTRA_STREAM)];
    if i.data.None? {
      assert c[1..] == [i.clipUri, GetUriExtra(i, EXTRA_STREAM)];
      assert UriOf(i) == FirstNonNull(c[1..]);
      if i.clipUri.None? {
        assert c[1..][1..] == [GetUriExtra(i, EXTRA_STREAM)];
        assert FirstNonNull(c[1..]) == FirstNonNull(c[1..][1..]);
        assert c[1..][1..][1..] == [];
        assert FirstNonNull(c[1..][1..]) == GetUriExtra(i, EXTRA_STREAM);
      }
    }
  }

  /** What `flagNewTask()` leaves: the flags replaced (not OR-ed) by FLAG_NEW_TASK. */
  function WithNewTaskFlags(i: IntentRecord): IntentRecord {
    i.(flags := FLAG_NEW_TASK)
  }

  /** `flagNewTask` discards every earlier flag, keeps everything else, and is idempotent. */
  lemma FlagNewTaskOverwrites(i: IntentRecord, j: IntentRecord)
    requires i.(flags := 0) == j.(flags := 0)
    ensures WithNewTaskFlags(i) == WithNewTaskFlags(j)
    ensures WithNewTaskFlags(WithNewTaskFlags(i)) == WithNewTaskFlags(i)
    ensures WithNewTaskFlags(i).flags & FLAG_ACTIVITY_NEW_TASK != 0
    ensures WithNewTaskFlags(i).flags & FLAG_GRANT_READ_URI_PERMISSION != 0
  {
  }

  /** The intent `viewContent(uri, mimeType, newTask)` builds. */
  function ViewIntent(uri: Uri, mimeType: Option<string>, newTask: bool): IntentRecord {
    var base := Blank(Some(ACTION_VIEW), None).(data := Some(uri), mimeType := mimeType);
    if newTask then WithNewTaskFlags(base) else base
  }

  /** The intent `sendContent(mimeType) { putExtra(key, value) }` builds. */
  function SendIntent(mimeType: Option<string>, key: string, value: ExtraValue): IntentRecord {
    Blank(Some(ACTION_SEND), None).(mimeType := mimeType, extras := map[key := value])
  }

  /** The clip `Intent.createChooser` moves onto the chooser: none unless the target has a
      URI-grant flag; then the target's clip, or else a clip made of the target's data. */
  function MigratedClip(target: IntentRecord): Option<Uri> {
    if target.flags & URI_GRANT_FLAGS == 0 then None
    else if target.clipUri.Some? then target.clipUri
    else target.data
  }

  /** The chooser `Intent.createChooser(target, title, null)` wraps a target in. When a
      clip is migrated, the target's URI-grant flags come with it. */
  function ChooserIntent(target: IntentRecord, title: string): IntentRecord {
    var base := Blank(Some(ACTION_CHOOSER), None).(
      extras := map[EXTRA_INTENT := IntentExtra(target), EXTRA_TITLE := StringExtra(title)]);
    var clip := MigratedClip(target);
    if clip.Some? then base.(clipUri := clip, flags := target.flags & URI_GRANT_FLAGS) else base
  }

  /** The intent `Context.startActivity(action, data, newTask) { handler }` launches:
      the handler runs on `Intent(action, data)` first, `flagNewTask()` afterwards. */
  function LaunchIntent(action: string, data: Option<Uri>, newTask: bool := false,
                        handler: IntentRecord -> IntentRecord): (r: IntentRecord)
    ensures newTask ==> r.flags == FLAG_NEW_TASK
    ensures newTask ==> r.(flags := 0) == handler(Blank(Some(action), data)).(flags := 0)
    ensures !newTask ==> r == handler(Blank(Some(action), data))
  {
    var i := handler(Blank(Some(action), data));
    if newTask then WithNewTaskFlags(i) else i
  }

  /** An intent under construction: the setters change it in place. */
  class Intent {
    var action: Option<string>
    var data: Option<Uri>
    var mimeType: Option<string>
    var clipUri: Option<Uri>
    var extras: map<string, ExtraValue>
    var targetPackage: Option<string>
    var flags: bv32

    /** The value the object holds now. */
    function Value(): IntentRecord
      reads this
    {
      IntentRecord(action, data, mimeType, clipUri, extras, targetPackage, flags)
    }

    /** `Intent(action, data)`. */
    constructor (action: Option<string>, data: Option<Uri>)
      ensures Value() == Blank(action, data)
    {
      this.action := action;
      this.data := data;
      mimeType := None;
      clipUri := None;
      extras := map[];
      targetPackage := None;
      flags := 0;
    }

    /** `setPackage(name)`. */
    method SetPackage(name: string)
      modifies this
      ensures Value() == old(Value()).(targetPackage := Some(name))
    {
      targetPackage := Some(name);
    }

    /** `putExtra(key, value)`: replaces any earlier value under `key`. */
    method PutExtra(key: string, value: ExtraValue)
      modifies this
      ensures Value() == old(Value()).(extras := old(extras)[key := value])
    {
      extras := extras[key := value];
    }

    /** The `data = ...` property setter (`setData`), which also clears any type. */
    method SetData(uri: Uri)
      modifies this
      ensures Value() == old(Value()).(data := Some(uri), mimeType := None)
    {
      data := Some(uri);
      mimeType := None;
    }

    /** `setDataAndType(uri, type)`; also stands for `setDataAndTypeAndNormalize`. */
    method SetDataAndType(uri: Uri, mimeType: Option<string>)
      modifies this
      ensures Value() == old(Value()).(data := Some(uri), mimeType := mimeType)
    {
      data := Some(uri);
      this.mimeType := mimeType;
    }

    /** The `type = ...` property setter (`setType`), which also clears any data. */
    method SetType(mimeType: Option<string>)
      modifies this
      ensures Value() == old(Value()).(data := None, mimeType := mimeType)
    {
      data := None;
      this.mimeType := mimeType;
    }

    /** `setClipData(clip)`, the clip's first item holding `uri`. */
    method SetClipUri(uri: Uri)
      modifies this
      ensures Value() == old(Value()).(clipUri := Some(uri))
    {
      clipUri := Some(uri);
    }

    /** `addFlags(f)`: OR-ed into the flags already set. */
    method AddFlags(f: bv32)
      modifies this
      ensures Value() == old(Value()).(flags := old(flags) | f)
    {
      flags := flags | f;
    }

    /** `flagNewTask()`: assigns, rather than adds, FLAG_NEW_TASK. */
    method FlagNewTask()
      modifies this
      ensures Value() == WithNewTaskFlags(old(Value()))
    {
      flags := FLAG_NEW_TASK;
    }
  }

  /** `viewContent(uri, mimeType = null, newTask = true)`. */
  method ViewContent(uri: Uri, mimeType: Option<string> := None, newTask: bool := true)
    returns (i: Intent)
    ensures fresh(i)
    ensures i.Value() == ViewIntent(uri, mimeType, newTask)
  {
    i := new Intent(Some(ACTION_VIEW), None);
    i.SetDataAndType(uri, mimeType);
    if newTask {
      i.FlagNewTask();
    }
  }

  /** `viewImage(image: Uri, choose, newTask)`: `choose` has no effect. */
  method ViewImage(image: Uri, choose: bool := true, newTask: bool := true) returns (i: Intent)
    ensures fresh(i)
    ensures i.Value() == ViewIntent(image, Some("image/*"), newTask)
  {
    i := ViewContent(image, Some("image/*"), newTask);
  }

  /** `viewUri(uri, choose, newTask)`: no MIME type, and `choose` has no effect. */
  method ViewUri(uri: Uri, choose: bool := true, newTask: bool := true) returns (i: Intent)
    ensures fresh(i)
    ensures i.Value() == ViewIntent(uri, None, newTask)
  {
    i := ViewContent(uri, newTask := newTask);
  }

  /** `sendContent(mimeType) { putExtra(key, value) }`, the one extra every caller puts. */
  method SendContent(mimeType: Option<string>, key: string, value: ExtraValue) returns (i: Intent)
    ensures fresh(i)
    ensures i.Value() == SendIntent(mimeType, key, value)
  {
    i := new Intent(Some(ACTION_SEND), None);
    i.SetType(mimeType);
    i.PutExtra(key, value);
  }

  /** `sendText(text, mimeType)`, the MIME type defaulting to any text type. */
  method SendText(text: string, mimeType: string := "text/*") returns (i: Intent)
    ensures fresh(i)
    ensures i.Value() == SendIntent(Some(mimeType), EXTRA_TEXT, StringExtra(text))
  {
    i := SendContent(Some(mimeType), EXTRA_TEXT, StringExtra(text));
  }

  /** `sendImage(image: Uri, mimeType)`, the MIME type defaulting to any image type. */
  method SendImage(image: Uri, mimeType: string := "image/*") returns (i: Intent)
    ensures fresh(i)
    ensures i.Value() == SendIntent(Some(mimeType), EXTRA_STREAM, UriExtra(image))
  {
    i := SendContent(Some(mimeType), EXTRA_STREAM, UriExtra(image));
  }

  /** `createChooser(title, sender = null, confirm)`: the receiver itself when `confirm` is false. */
  method CreateChooser(target: Intent, title: string := "选择应用：", confirm: bool := true)
    returns (r: Intent)
    ensures !confirm ==> r == target
    ensures confirm ==> fresh(r) && r.Value() == ChooserIntent(target.Value(), title)
  {
    if confirm {
      r := new Intent(Some(ACTION_CHOOSER), None);
      r.PutExtra(EXTRA_INTENT, IntentExtra(target.Value()));
      r.PutExtra(EXTRA_TITLE, StringExtra(title));
      var grants := target.flags & URI_GRANT_FLAGS;
      if grants != 0 {
        var clip := target.clipUri;
        if clip.None? {
          clip := target.data;
        }
        if clip.Some? {
          r.SetClipUri(clip.value);
          r.AddFlags(grants);
        }
      }
    } else {
      r := target;
    }
  }

  /** The view intents differ only in their flags, which are exactly FLAG_NEW_TASK when
      `newTask` holds and untouched (zero) otherwise. */
  lemma ViewIntentFlags(uri: Uri, mimeType: Option<string>, newTask: bool)
    ensures ViewIntent(uri, mimeType, newTask).action == Some(ACTION_VIEW)
    ensures ViewIntent(uri, mimeType, newTask).data == Some(uri)
    ensures ViewIntent(uri, mimeType, newTask).mimeType == mimeType
    ensures ViewIntent(uri, mimeType, newTask).flags == (if newTask then FLAG_NEW_TASK else 0)
  {
  }

  /** The chooser grants what its target grants: with a URI-grant flag and a clip or data,
      the target's grant flags and that URI move onto the chooser; without one, the chooser
      has no flags and no clip. It never carries the target's other flags. */
  lemma ChooserMigratesGrants(target: IntentRecord, title: string)
    ensures var c := ChooserIntent(target, title);
            && c.action == Some(ACTION_CHOOSER) && c.data.None?
            && GetStringExtra(c, EXTRA_TITLE) == Some(title)
            && EXTRA_INTENT in c.extras && c.extras[EXTRA_INTENT] == IntentExtra(target)
            && c.flags & !URI_GRANT_FLAGS == 0
            && (target.flags & URI_GRANT_FLAGS != 0 && (target.clipUri.Some? || target.data.Some?) ==>
                  c.flags == target.flags & URI_GRANT_FLAGS &&
                  c.clipUri == (if target.clipUri.Some? then target.clipUri else target.data))
            && (target.flags & URI_GRANT_FLAGS == 0 ==> c.flags == 0 && c.clipUri.None?)
  {
    assert EXTRA_INTENT != EXTRA_TITLE;
    assert (target.flags & URI_GRANT_FLAGS) & !URI_GRANT_FLAGS == 0;
  }

  /** Offering `viewImage(u)` through a chooser keeps the read grant on `u`; a `sendImage`
      target has no grant flag, so its chooser migrates nothing. */
  lemma ChooserOfViewImage(u: Uri, title: string)
    ensures ChooserIntent(ViewIntent(u, Some("image/*"), true), title).flags == FLAG_GRANT_READ_URI_PERMISSION
    ensures ChooserIntent(ViewIntent(u, Some("image/*"), true), title).clipUri == Some(u)
    ensures ChooserIntent(SendIntent(Some("image/*"), EXTRA_STREAM, UriExtra(u)), title).flags == 0
    ensures ChooserIntent(SendIntent(Some("image/*"), EXTRA_STREAM, UriExtra(u)), title).clipUri.None?
  {
    assert FLAG_NEW_TASK & URI_GRANT_FLAGS == FLAG_GRANT_READ_URI_PERMISSION;
  }
}
