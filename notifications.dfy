/** The notification handlers: `push` builds the notification to show from a
    parsed payload, and `notificationclick` closes it and brings an application
    window to the front, reusing an open one when it can. Showing, focusing and
    opening are returned as values for the host to perform. */
module Notifications {
  import opened Http

  const DEFAULT_TITLE: string := "சாரம்"
  const DEFAULT_BODY: string := "இன்றைய தமிழ் ஞானம் உங்களுக்காக காத்திருக்கிறது"
  const DEFAULT_URL: string := "/"
  const OPEN_ACTION: string := "open"
  const CLOSE_ACTION: string := "close"

  /** The fields of a parsed push payload; a field the payload lacks is `None`. */
  datatype Payload = Payload(title: Option<string>, body: Option<string>, url: Option<string>)

  /** `event.data`: absent, unusable, or a parsed payload. `Malformed` is a body
      that is not JSON, or is JSON `null`, whose `.title` throws; any other JSON
      value is a `Payload`, every field a non-object lacks being `None`. */
  datatype PushData = NoData | Malformed | Json(payload: Payload)

  /** The data a notification carries to the click handler. */
  datatype ClickData = ClickData(url: Option<string>)

  datatype NotificationAction = NotificationAction(action: string, title: string)

  /** A notification to display; icon and badge are fixed images and left out. */
  datatype Notification = Notification(title: string, body: string, data: ClickData, actions: seq<NotificationAction>)

  /** What the push handler does: nothing, fail on an unusable payload, or ask
      the host to show a notification. */
  datatype PushEffect = NothingShown | ParseError | Show(notification: Notification)

  /** The two buttons every notification offers, in this order. */
  const ACTIONS: seq<NotificationAction> := [
    NotificationAction(OPEN_ACTION, "படிக்க"),
    NotificationAction(CLOSE_ACTION, "மூடு")
  ]

  /** JavaScript `value || fallback` for a string field that may be absent: the
      empty string is falsy, so it falls back too. */
  function OrElse(value: Option<string>, fallback: string): (r: string)
    ensures r == fallback || value == Some(r)
    ensures value.Some? && value.value != "" ==> r == value.value
    ensures fallback != "" ==> r != ""
  {
    if value.Some? && value.value != "" then value.value else fallback
  }

  /** The push handler. */
  function Push(d: PushData): (e: PushEffect)
    ensures e.NothingShown? <==> d.NoData?
    ensures e.ParseError? <==> d.Malformed?
    ensures e.Show? ==>
              && e.notification.title != "" && e.notification.body != ""
              && e.notification.data.url.Some? && e.notification.data.url.value != ""
              && |e.notification.actions| == 2
              && e.notification.actions[0].action == OPEN_ACTION
              && e.notification.actions[1].action == CLOSE_ACTION
  {
    match d
    case NoData => NothingShown
    case Malformed => ParseError
    case Json(p) =>
      Show(Notification(OrElse(p.title, DEFAULT_TITLE), OrElse(p.body, DEFAULT_BODY),
                        ClickData(Some(OrElse(p.url, DEFAULT_URL))), ACTIONS))
  }

  /** A payload field that is present and not empty is shown as given; an absent
      or empty one is replaced by its default. */
  lemma PushFieldDefaults(p: Payload)
    ensures Push(Json(p)).Show?
    ensures Push(Json(p)).notification.title ==
            if p.title.Some? && p.title.value != "" then p.title.value else DEFAULT_TITLE
    ensures Push(Json(p)).notification.body ==
            if p.body.Some? && p.body.value != "" then p.body.value else DEFAULT_BODY
    ensures Push(Json(p)).notification.data.url ==
            Some(if p.url.Some? && p.url.value != "" then p.url.value else DEFAULT_URL)
    ensures Push(Json(p)).notification.actions == ACTIONS
  {
  }

  /** A full payload is shown as given; an empty object falls back on every field. */
  lemma PushExamples()
    ensures Push(Json(Payload(Some("T"), Some("B"), Some("/x")))) ==
            Show(Notification("T", "B", ClickData(Some("/x")), ACTIONS))
    ensures Push(Json(Payload(None, None, None))) ==
            Show(Notification(DEFAULT_TITLE, DEFAULT_BODY, ClickData(Some("/")), ACTIONS))
  {
  }

  // ---------------------------------------------------------------------------
  // notificationclick

  /** An open application window as the host lists it. */
  datatype WindowClient = WindowClient(url: string, focusable: bool)

  /** What happens to windows after a click: nothing, focusing the window at
      `index` in the host's list, or opening a new window at `url`. */
  datatype WindowAction = NoWindowAction | Focus(index: nat) | OpenWindow(url: string)

  datatype ClickEffect = ClickEffect(closed: bool, window: WindowAction)

  /** The "open" button, or a click on the notification itself (no action). */
  predicate OpensWindow(action: string) {
    action == OPEN_ACTION || action == ""
  }

  /** `notification.data?.url || '/'`. */
  function Target(data: Option<ClickData>): (t: string)
    ensures t != ""
    ensures t == DEFAULT_URL || (data.Some? && data.value.url == Some(t))
    ensures data.Some? && data.value.url.Some? && data.value.url.value != "" ==> t == data.value.url.value
  {
    if data.Some? then OrElse(data.value.url, DEFAULT_URL) else DEFAULT_URL
  }

  /** A window the click handler may reuse for `target`. */
  predicate Focusable(w: WindowClient, target: string) {
    w.url == target && w.focusable
  }

  /** The index of the first listed window that can be reused for `target`. */
  method FirstFocusable(windows: seq<WindowClient>, target: string) returns (found: Option<nat>)
    ensures found.Some? ==>
              && found.value < |windows|
              && Focusable(windows[found.value], target)
              && forall j | 0 <= j < found.value :: !Focusable(windows[j], target)
    ensures found.None? ==> forall j | 0 <= j < |windows| :: !Focusable(windows[j], target)
  {
    var i := 0;
    while i < |windows|
      invariant 0 <= i <= |windows|
      invariant forall j | 0 <= j < i :: !Focusable(windows[j], target)
    {
      if windows[i].url == target && windows[i].focusable {
        return Some(i);
      }
      i := i + 1;
    }
    return None;
  }

  /** The click handler, as written. The notification is always closed. For the
      "open" action or no action, the first listed window whose url equals the
      target and that can be focused is focused; when there is none, one window
      is opened at the target. Any other action, such as "close", does nothing
      more. */
  method HandleClick(action: string, data: Option<ClickData>, windows: seq<WindowClient>)
    returns (e: ClickEffect)
    ensures e.closed
    ensures !OpensWindow(action) ==> e.window == NoWindowAction
    ensures OpensWindow(action) ==> e.window.Focus? || e.window == OpenWindow(Target(data))
    ensures e.window.Focus? ==>
              && e.window.index < |windows|
              && Focusable(windows[e.window.index], Target(data))
              && forall j | 0 <= j < e.window.index :: !Focusable(windows[j], Target(data))
    ensures e.window.OpenWindow? ==> forall j | 0 <= j < |windows| :: !Focusable(windows[j], Target(data))
  {
    e := ClickEffect(true, NoWindowAction);
    if OpensWindow(action) {
      var found := FirstFocusable(windows, Target(data));
      if found.Some? {
        e := ClickEffect(true, Focus(found.value));
      } else {
        e := ClickEffect(true, OpenWindow(Target(data)));
      }
    }
  }

  /** A url that is a path on the worker's own origin, such as "/": it starts
      with one slash, not two (a protocol-relative url names another host). */
  predicate IsPath(u: string) {
    |u| > 0 && u[0] == '/' && (|u| == 1 || u[1] != '/')
  }

  /** `u` resolved against `origin` (scheme, host and port, without a trailing
      slash): a path gets the origin in front, anything else is kept. */
  function Resolve(origin: string, u: string): string {
    if IsPath(u) then origin + u else u
  }

  /** The host lists windows by absolute url, while the target is the path the
      payload carried or "/". As written, such a target never equals a window's
      url, so no window is ever reused and every click opens a new one. */
  lemma PathTargetNeverFocuses(data: Option<ClickData>, windows: seq<WindowClient>)
    requires IsPath(Target(data))
    requires forall j | 0 <= j < |windows| :: !IsPath(windows[j].url)
    ensures forall j | 0 <= j < |windows| :: !Focusable(windows[j], Target(data))
  {
  }

  /** The default click, with the application's start page open and focusable:
      the window is not reused as written, and is once the target is resolved. */
  lemma StartPageNotReused()
    ensures !Focusable(WindowClient("https://saram.example/", true), Target(None))
    ensures Focusable(WindowClient("https://saram.example/", true), Resolve("https://saram.example", Target(None)))
  {
  }

  /** Only a single leading slash marks a path: a protocol-relative url is kept
      as it is rather than being put after the origin. */
  lemma ProtocolRelativeKept()
    ensures Resolve("https://saram.example", "/x") == "https://saram.example/x"
    ensures Resolve("https://saram.example", "//cdn.example/x") == "//cdn.example/x"
  {
  }

  /** The click handler as evidently intended: the target is resolved against
      the worker's origin before it is compared with the windows' urls, so an
      open window showing it is focused. A new window is opened at the target
      as before, `openWindow` resolving it itself. */
  method HandleClickResolved(action: string, data: Option<ClickData>, windows: seq<WindowClient>, origin: string)
    returns (e: ClickEffect)
    ensures e.closed
    ensures !OpensWindow(action) ==> e.window == NoWindowAction
    ensures OpensWindow(action) ==> e.window.Focus? || e.window == OpenWindow(Target(data))
    ensures e.window.Focus? ==>
              && e.window.index < |windows|
              && Focusable(windows[e.window.index], Resolve(origin, Target(data)))
              && forall j | 0 <= j < e.window.index :: !Focusable(windows[j], Resolve(origin, Target(data)))
    ensures e.window.OpenWindow? ==>
              forall j | 0 <= j < |windows| :: !Focusable(windows[j], Resolve(origin, Target(data)))
  {
    e := ClickEffect(true, NoWindowAction);
    if OpensWindow(action) {
      var found := FirstFocusable(windows, Resolve(origin, Target(data)));
      if found.Some? {
        e := ClickEffect(true, Focus(found.value));
      } else {
        e := ClickEffect(true, OpenWindow(Target(data)));
      }
    }
  }

  /** The url a pushed notification carries is the one its click opens or
      focuses: the payload's url when present and not empty, otherwise "/". */
  lemma PushThenClickTarget(p: Payload)
    ensures Push(Json(p)).Show?
    ensures Target(Some(Push(Json(p)).notification.data)) == OrElse(p.url, DEFAULT_URL)
  {
  }
}
