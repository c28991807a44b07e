/**
 * The popup of `popup/popup.tsx`: the root that waits for the theme and the translations, the
 * connection form, and the bookmark form with its article verdict, its save gate and its submit
 * handler. The browser's answers (the active tabs, the injected capture, the server's reply) are
 * parameters of the handlers; the React state of each component is the fields of a class.
 */
module Popup {
  import opened Optional
  import PageDetector
  import Capture
  import Api
  import I18n
  import Themes

  // ---------------------------------------------------------------- the submit handler, as values

  /** `tab?.url` is truthy: there is a first tab and its URL is a non-empty string. */
  function PageUrl(tabs: seq<PageDetector.Tab>): (u: Option<string>)
    ensures u.Some? <==> |tabs| > 0 && tabs[0].url.Some? && tabs[0].url.value != ""
    ensures u.Some? ==> u == tabs[0].url
  {
    if |tabs| > 0 && tabs[0].url.Some? && tabs[0].url.value != "" then tabs[0].url else None
  }

  /**
   * `chrome.scripting.executeScript` with the capture function: it throws (no tab id, a page
   * that cannot be scripted, no frame result to destructure), or the first frame returns no
   * result, or the capture runs from a document through a sequence of events.
   */
  datatype Injection =
    | InjectThrew(message: string)
    | NoResult
    | Captured(start: Capture.Doc, events: seq<Capture.Event>)

  /** How far a submit gets: no page URL, a thrown step, a capture still waiting, or a request sent. */
  datatype Attempt =
    | NoUrl
    | Threw(message: string)
    | Pending
    | Sent(url: string, content: string, outcome: Api.Outcome)

  /** What `handleSubmit` does with the tabs, the injection and the server's reply. */
  function Attempted(tabs: seq<PageDetector.Tab>, injection: Injection, reply: Api.Reply): (a: Attempt)
    ensures a.NoUrl? <==> PageUrl(tabs).None?
    ensures a.Sent? ==> a.url == PageUrl(tabs).value && a.outcome == Api.SaveOutcome(reply)
    ensures a.Threw? <==> PageUrl(tabs).Some? && injection.InjectThrew?
    ensures a.Threw? ==> a.message == injection.message
    ensures a.Pending? <==>
      PageUrl(tabs).Some? && injection.Captured? && Capture.Settle(injection.start, injection.events).None?
    ensures a.Sent? && injection.NoResult? ==> a.content == ""
    ensures a.Sent? && injection.Captured? ==>
      a.content == Capture.Settle(injection.start, injection.events).value.snapshot
  {
    match PageUrl(tabs)
    case None => NoUrl
    case Some(url) =>
      match injection
      case InjectThrew(m) => Threw(m)
      case NoResult => Sent(url, "", Api.SaveOutcome(reply))
      case Captured(start, events) =>
        match Capture.Settle(start, events)
        case None => Pending
        case Some(o) => Sent(url, o.snapshot, Api.SaveOutcome(reply))
  }

  /** The message of the error the handler catches, if it catches one. */
  function Caught(a: Attempt, urlMessage: string): (m: Option<string>)
    ensures m.None? <==> a.Pending? || (a.Sent? && a.outcome.Done?)
    ensures a.NoUrl? ==> m == Some(urlMessage)
    ensures a.Threw? ==> m == Some(a.message)
    ensures a.Sent? && a.outcome.Error? ==> m == Some(a.outcome.message)
  {
    match a
    case NoUrl => Some(urlMessage)
    case Threw(message) => Some(message)
    case Pending => None
    case Sent(_, _, outcome) =>
      match outcome
      case Done => None
      case Error(message) => Some(message)
  }

  /** `err?.message || t("error.save")`: the caught message, or the fallback when it is empty. */
  function Shown(message: string, fallback: string): (s: string)
    ensures message != "" ==> s == message
    ensures message == "" ==> s == fallback
    ensures s == "" <==> message == "" && fallback == ""
  {
    if message != "" then message else fallback
  }

  /** A submit succeeds exactly when there is a URL, the capture settles (or returns nothing) and the server accepts. */
  lemma SuccessIffServerAccepts(tabs: seq<PageDetector.Tab>, injection: Injection, reply: Api.Reply)
    ensures (Attempted(tabs, injection, reply).Sent? && Attempted(tabs, injection, reply).outcome.Done?) <==>
      PageUrl(tabs).Some?
      && (injection.NoResult? || (injection.Captured? && Capture.Settle(injection.start, injection.events).Some?))
      && reply.Http? && reply.ok && reply.code == 0
  {
  }

  /**
   * When neither the missing-URL message nor an injection error reads `Unauthorized`, the
   * connection is reset exactly when the server answered code 61 to a request that was sent.
   */
  lemma UnauthorizedComesFromTheServer(tabs: seq<PageDetector.Tab>, injection: Injection, reply: Api.Reply, urlMessage: string)
    requires urlMessage != "Unauthorized"
    requires injection.InjectThrew? ==> injection.message != "Unauthorized"
    ensures Caught(Attempted(tabs, injection, reply), urlMessage) == Some("Unauthorized") <==>
      Attempted(tabs, injection, reply).Sent? && Api.SaveOutcome(reply) == Api.Error("Unauthorized")
  {
  }

  /** The content sent with a captured page is the whole document at the moment the capture settled. */
  lemma SentContentIsWholeDocument(tabs: seq<PageDetector.Tab>, start: Capture.Doc, events: seq<Capture.Event>, reply: Api.Reply)
    requires Attempted(tabs, Captured(start, events), reply).Sent?
    ensures var c := Attempted(tabs, Captured(start, events), reply).content;
      (Capture.Ready(start) && c == start.outerHtml)
      || (exists k :: 0 <= k < |events| && Capture.Triggers(events[k]) && c == events[k].doc.outerHtml)
  {
    Capture.SnapshotIsWholeDocument(start, events);
  }

  // ---------------------------------------------------------------- the save gate

  /** `disabled={isArticle === false || isSubmitting}`; the unknown verdict (`null`) does not disable. */
  function SaveDisabled(isArticle: Option<bool>, isSubmitting: bool): (d: bool)
    ensures isSubmitting ==> d
    ensures isArticle == Some(false) ==> d
    ensures isArticle.None? ==> (d <==> isSubmitting)
    ensures isArticle == Some(true) ==> (d <==> isSubmitting)
  {
    isArticle == Some(false) || isSubmitting
  }

  /** The not-an-article advisory shows only for a verdict of `false`, never while it is unknown. */
  function ShowsAdvisory(isArticle: Option<bool>): (s: bool)
    ensures s <==> isArticle.Some? && !isArticle.value
    ensures s ==> SaveDisabled(isArticle, false)
  {
    isArticle == Some(false)
  }

  /** The fields of `BookmarkForm` that `handleSubmit` sets. */
  datatype FormFields = FormFields(labelText: string, error: string, success: bool, showSettings: bool, isSubmitting: bool)

  /**
   * The fields after a submit that got as far as `attempt`, given the translations of
   * `error.getPageUrl` and `error.save`: still in flight with the messages cleared while the
   * capture is pending; else done, with success and the label cleared, or with the caught
   * message shown and the settings opened on `Unauthorized`.
   */
  function AfterSubmit(before: FormFields, attempt: Attempt, urlMessage: string, saveMessage: string): (after: FormFields)
    ensures after.isSubmitting <==> attempt.Pending?
    ensures after.success <==> attempt.Sent? && attempt.outcome.Done?
    ensures after.success ==> after.labelText == "" && after.error == ""
    ensures !after.success ==> after.labelText == before.labelText
    ensures var m := Caught(attempt, urlMessage);
      (m.None? ==> after.error == "")
      && (m.Some? ==> after.error == Shown(m.value, saveMessage))
      && (after.showSettings <==> before.showSettings || m == Some("Unauthorized"))
  {
    match Caught(attempt, urlMessage)
    case None =>
      if attempt.Pending? then before.(error := "", success := false, isSubmitting := true)
      else before.(labelText := "", error := "", success := true, isSubmitting := false)
    case Some(m) =>
      before.(error := Shown(m, saveMessage), success := false, isSubmitting := false,
              showSettings := before.showSettings || m == "Unauthorized")
  }

  /**
   * While a submit is pending the save button is disabled, so a second submit cannot start;
   * once it has ended only a `false` verdict disables it.
   */
  lemma NoSecondSubmitInFlight(before: FormFields, attempt: Attempt, urlMessage: string, saveMessage: string, isArticle: Option<bool>)
    ensures var after := AfterSubmit(before, attempt, urlMessage, saveMessage);
      (attempt.Pending? ==> SaveDisabled(isArticle, after.isSubmitting))
      && (!attempt.Pending? ==> (SaveDisabled(isArticle, after.isSubmitting) <==> isArticle == Some(false)))
  {
  }

  // ---------------------------------------------------------------- the bookmark form

  /** The state of `BookmarkForm`. */
  class BookmarkForm {
    var title: string
    var labelText: string
    var error: string
    var success: bool
    var showSettings: bool
    /** `null` until the detection has answered. */
    var isArticle: Option<bool>
    var isSubmitting: bool

    constructor ()
      ensures title == "" && labelText == "" && error == "" && !success && !showSettings
      ensures isArticle.None? && !isSubmitting
      ensures !SaveDisabled(isArticle, isSubmitting)
    {
      title, labelText, error, success := "", "", "", false;
      showSettings, isArticle, isSubmitting := false, None, false;
    }

    /**
     * The mount effect: the tab's title, when it has a non-empty one, becomes the title, and the
     * detector's verdict becomes `isArticle`.
     */
    method OnDetected(tabs: seq<PageDetector.Tab>, run: PageDetector.ScriptRun)
      modifies this`title, this`isArticle
      ensures title == if |tabs| > 0 && tabs[0].title.Some? && tabs[0].title.value != ""
        then tabs[0].title.value else old(title)
      ensures isArticle == Some(PageDetector.IsArticlePage(tabs, run))
    {
      if |tabs| > 0 && tabs[0].title.Some? && tabs[0].title.value != "" {
        title := tabs[0].title.value;
      }
      isArticle := Some(PageDetector.IsArticlePage(tabs, run));
    }

    /** The settings button, the back button and a successful connection toggle the settings view. */
    method SetShowSettings(show: bool)
      modifies this`showSettings
      ensures showSettings == show
    {
      showSettings := show;
    }

    /** The part of the form's state that a submit changes. */
    function Fields(): FormFields
      reads this
    {
      FormFields(labelText, error, success, showSettings, isSubmitting)
    }

    /**
     * `handleSubmit`: clears the messages, goes through the requests, and ends as `AfterSubmit`
     * says; an `Unauthorized` error resets the connection. The title and the verdict stay.
     */
    method Submit(conn: Api.Connection, catalog: I18n.Catalog, lang: string,
                  tabs: seq<PageDetector.Tab>, injection: Injection, reply: Api.Reply)
      returns (attempt: Attempt, req: Option<Api.Request>)
      modifies this`labelText, this`error, this`success, this`showSettings, this`isSubmitting, conn
      ensures attempt == Attempted(tabs, injection, reply)
      ensures req.Some? <==> attempt.Sent?
      ensures attempt.Sent? ==> req.value == Api.Request("POST", old(conn.url) + "/ext/bookmark",
        "Bearer " + old(conn.apiKey),
        Some(Api.Bookmark(title, Api.ParseLabels(old(labelText)), attempt.url, attempt.content)))
      ensures Fields() == AfterSubmit(old(Fields()), attempt,
        catalog.Translate(lang, "error.getPageUrl"), catalog.Translate(lang, "error.save"))
      ensures Caught(attempt, catalog.Translate(lang, "error.getPageUrl")) == Some("Unauthorized") ==>
        conn.url == "" && conn.apiKey == "" && !conn.isConnected
      ensures Caught(attempt, catalog.Translate(lang, "error.getPageUrl")) != Some("Unauthorized") ==>
        conn.url == old(conn.url) && conn.apiKey == old(conn.apiKey) && conn.isConnected == old(conn.isConnected)
    {
      error, success, isSubmitting := "", false, true;
      attempt, req := Save(conn, title, labelText, tabs, injection, reply);
      if !attempt.Pending? {
        Conclude(attempt, conn, catalog, lang);
      }
      // Otherwise the injected promise never resolves: the handler stays suspended in flight.
    }

    /** The catch and finally blocks of `handleSubmit`, once the requests have settled; the error was cleared on entry. */
    method Conclude(attempt: Attempt, conn: Api.Connection, catalog: I18n.Catalog, lang: string)
      requires !attempt.Pending? && error == ""
      modifies this`labelText, this`error, this`success, this`showSettings, this`isSubmitting, conn
      ensures Fields() == AfterSubmit(old(Fields()), attempt,
        catalog.Translate(lang, "error.getPageUrl"), catalog.Translate(lang, "error.save"))
      ensures Caught(attempt, catalog.Translate(lang, "error.getPageUrl")) == Some("Unauthorized") ==>
        conn.url == "" && conn.apiKey == "" && !conn.isConnected
      ensures Caught(attempt, catalog.Translate(lang, "error.getPageUrl")) != Some("Unauthorized") ==>
        conn.url == old(conn.url) && conn.apiKey == old(conn.apiKey) && conn.isConnected == old(conn.isConnected)
    {
      var thrown := CaughtMessage(attempt, catalog, lang);
      Finish(thrown, conn, catalog, lang);
    }

    /**
     * The end of `handleSubmit` once the capture has settled: success, or the caught message
     * shown (the translated `error.save` for an empty one) with the `Unauthorized` reset; in
     * both cases the submit is no longer in flight.
     */
    method Finish(thrown: Option<string>, conn: Api.Connection, catalog: I18n.Catalog, lang: string)
      modifies this`labelText, this`error, this`success, this`showSettings, this`isSubmitting, conn
      ensures !isSubmitting && success == thrown.None?
      ensures thrown.None? ==> labelText == "" && error == old(error)
      ensures thrown.Some? ==> labelText == old(labelText)
      ensures thrown.Some? ==> error == Shown(thrown.value, catalog.Translate(lang, "error.save"))
      ensures showSettings == (old(showSettings) || thrown == Some("Unauthorized"))
      ensures thrown == Some("Unauthorized") ==> conn.url == "" && conn.apiKey == "" && !conn.isConnected
      ensures thrown != Some("Unauthorized") ==>
        conn.url == old(conn.url) && conn.apiKey == old(conn.apiKey) && conn.isConnected == old(conn.isConnected)
    {
      if thrown.None? {
        success := true;
        labelText := "";
      } else {
        success := false;
        ShowError(thrown.value, catalog, lang);
        if thrown.value == "Unauthorized" {
          conn.ResetConnection();
          showSettings := true;
        }
      }
      isSubmitting := false;
    }

    /** `setError(err?.message || t("error.save"))`. */
    method ShowError(message: string, catalog: I18n.Catalog, lang: string)
      modifies this`error
      ensures error == Shown(message, catalog.Translate(lang, "error.save"))
    {
      var fallback := catalog.T(lang, "error.save");
      error := Shown(message, fallback);
    }
  }

  /** The message `handleSubmit` catches; the missing-URL error carries the translated `error.getPageUrl`. */
  method CaughtMessage(attempt: Attempt, catalog: I18n.Catalog, lang: string) returns (m: Option<string>)
    ensures m == Caught(attempt, catalog.Translate(lang, "error.getPageUrl"))
  {
    if attempt.NoUrl? {
      var message := catalog.T(lang, "error.getPageUrl");
      m := Some(message);
    } else {
      m := Caught(attempt, "");
    }
  }

  /**
   * The requests of `handleSubmit`: the page URL is read, the capture is injected and awaited,
   * and the bookmark is posted with the content it returned (`""` when it returned nothing).
   */
  method Save(conn: Api.Connection, title: string, labelText: string,
              tabs: seq<PageDetector.Tab>, injection: Injection, reply: Api.Reply)
    returns (attempt: Attempt, req: Option<Api.Request>)
    ensures attempt == Attempted(tabs, injection, reply)
    ensures req.Some? <==> attempt.Sent?
    ensures attempt.Sent? ==> req.value == Api.Request("POST", conn.url + "/ext/bookmark",
      "Bearer " + conn.apiKey, Some(Api.Bookmark(title, Api.ParseLabels(labelText), attempt.url, attempt.content)))
  {
    req := None;
    var url := PageUrl(tabs);
    if url.None? {
      return NoUrl, None;
    }
    var content: string;
    match injection {
      case InjectThrew(m) =>
        return Threw(m), None;
      case NoResult =>
        content := "";
      case Captured(start, events) =>
        var captured, _ := Capture.Run(start, events);
        if captured.None? {
          return Pending, None;
        }
        content := captured.value.snapshot;
    }
    var r, o := conn.SaveBookmark(title, labelText, url.value, content, reply);
    attempt, req := Sent(url.value, content, o), Some(r);
  }

  // ---------------------------------------------------------------- the connection form

  /** The state of `ConnectionForm`. */
  class ConnectionForm {
    var url: string
    var apiKey: string
    var error: string
    var isSubmitting: bool

    /** `initialUrl || ""` and `initialApiKey || ""`. */
    constructor (initialUrl: Option<string>, initialApiKey: Option<string>)
      ensures url == initialUrl.GetOr("") && apiKey == initialApiKey.GetOr("")
      ensures error == "" && !isSubmitting
    {
      url, apiKey := initialUrl.GetOr(""), initialApiKey.GetOr("");
      error, isSubmitting := "", false;
    }

    /**
     * `handleSubmit`: clears the error, connects with the form's URL and key, and on failure
     * shows the translated `error.connection` whatever the failure was. `connected` says whether
     * `onSuccess` runs.
     */
    method Submit(conn: Api.Connection, catalog: I18n.Catalog, lang: string, reply: Api.Reply)
      returns (connected: bool, req: Api.Request)
      modifies this`error, this`isSubmitting, conn
      ensures req == Api.Request("GET", url + "/ext/connect", "Bearer " + apiKey, None)
      ensures connected <==> Api.ConnectOutcome(reply).Done?
      ensures error == if connected then "" else catalog.Translate(lang, "error.connection")
      ensures !isSubmitting
      ensures connected ==> conn.url == url && conn.apiKey == apiKey && conn.isConnected
      ensures !connected ==>
        conn.url == old(conn.url) && conn.apiKey == old(conn.apiKey) && conn.isConnected == old(conn.isConnected)
    {
      error, isSubmitting := "", true;
      var o;
      req, o := conn.SetConnection(url, apiKey, reply);
      connected := o.Done?;
      if !connected {
        error := catalog.T(lang, "error.connection");
      }
      isSubmitting := false;
    }
  }

  // ---------------------------------------------------------------- the root

  /** What the popup shows. */
  datatype Screen = Spinner | BookmarkScreen | ConnectScreen

  /** The spinner until loading is done, then the bookmark form when connected, else the connection form. */
  function ScreenOf(isLoaded: bool, isConnected: bool): (s: Screen)
    ensures s == Spinner <==> !isLoaded
    ensures s == BookmarkScreen <==> isLoaded && isConnected
    ensures s == ConnectScreen <==> isLoaded && !isConnected
  {
    if !isLoaded then Spinner else if isConnected then BookmarkScreen else ConnectScreen
  }

  /** The state of `Popup`. */
  class Root {
    var isLoaded: bool

    constructor ()
      ensures !isLoaded
    {
      isLoaded := false;
    }

    /**
     * The mount effect: the stored theme is applied and the translations are awaited; neither
     * can reject, so loading always completes, even when the translations failed to load.
     */
    method Start(host: Themes.Host, catalog: I18n.Catalog, load: I18n.Load)
      modifies this, host`rootClasses, catalog
      ensures isLoaded
      ensures Themes.Consistent(host.stored, host.rootClasses, host.prefersDark)
      ensures old(catalog.loaded) ==> catalog.loaded
      ensures !old(catalog.loaded) ==> (catalog.loaded <==> load.Loaded?)
    {
      host.Initialize();
      var _ := catalog.WaitForTranslations(load);
      isLoaded := true;
    }
  }
}
