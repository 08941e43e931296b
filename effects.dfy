/** What an activity leaves behind once a request is handled: the launches, toasts,
    results and finishes it performs, in order. */
module Effects {
  import opened Common
  import opened IntentEx

  /** One observable step of an activity. `UncaughtThrowable` is a `Throwable` that no
      handler catches: the coroutine dies with it and nothing after it happens. */
  datatype Effect =
    | StartActivity(intent: IntentRecord)
    | Toast(message: string)
    | FinishAndRemoveTask
    | SetResult(code: int, data: IntentRecord)
    | Finish
    | UncaughtThrowable(message: string)

  /** `Activity.toastAndFinish(msg)`: a short toast, then the task is finished and removed. */
  function ToastAndFinish(msg: string): (r: seq<Effect>)
    ensures Toasts(r) == [msg] && Finishes(r) == 1 && Launches(r) == []
  {
    var r := [Toast(msg), FinishAndRemoveTask];
    assert r[1..] == [FinishAndRemoveTask] && r[1..][1..] == [];
    assert Toasts(r[1..]) == [] && Finishes(r[1..]) == 1 && Launches(r[1..]) == [];
    r
  }

  /** The text a string template gives for `e.message`: the message, or `null`. */
  function MessageText(message: Option<string>): string {
    if message.Some? then message.value else "null"
  }

  /** The messages toasted, in order. */
  function Toasts(effects: seq<Effect>): seq<string> {
    if effects == [] then []
    else (if effects[0].Toast? then [effects[0].message] else []) + Toasts(effects[1..])
  }

  /** How many times the activity is finished (either way). */
  function Finishes(effects: seq<Effect>): nat {
    if effects == [] then 0
    else (if effects[0].FinishAndRemoveTask? || effects[0].Finish? then 1 else 0) + Finishes(effects[1..])
  }

  /** The activities started, in order. */
  function Launches(effects: seq<Effect>): seq<IntentRecord> {
    if effects == [] then []
    else (if effects[0].StartActivity? then [effects[0].intent] else []) + Launches(effects[1..])
  }

  /** Counting distributes over a trace that is run after another. */
  lemma {:induction false} CountsAppend(a: seq<Effect>, b: seq<Effect>)
    ensures Toasts(a + b) == Toasts(a) + Toasts(b)
    ensures Finishes(a + b) == Finishes(a) + Finishes(b)
    ensures Launches(a + b) == Launches(a) + Launches(b)
  {
    if a != [] {
      CountsAppend(a[1..], b);
      assert (a + b)[1..] == a[1..] + b;
    } else {
      assert a + b == b;
    }
  }
}
