/**
 * The capture coordinator injected by the popup's submit handler (`popup/popup.tsx`):
 * it resolves with the whole document's markup as soon as the primary content has text,
 * or when its one-shot timer fires, whichever comes first.
 *
 * Wall-clock time and the browser's callback delivery are replaced by a sequence of
 * discrete events: a `Mutation` carries the document as the observer's callback sees it,
 * and `TimerFired` the document as the 5000 ms timer's callback sees it.
 */
module Capture {
  import opened Optional

  /**
   * What the readiness check reads of the document at one moment: the `textContent` of the
   * first `article`, `.article-content`, `.post-content` and `main` element (`None` when no
   * such element exists), and `document.documentElement.outerHTML`.
   */
  datatype Doc = Doc(
    article: Option<string>,
    articleContent: Option<string>,
    postContent: Option<string>,
    main: Option<string>,
    outerHtml: string)

  /** The fallback container: the first of `.article-content`, `.post-content`, `main` that exists. */
  function MainContent(d: Doc): (r: Option<string>)
    ensures r.None? <==> d.articleContent.None? && d.postContent.None? && d.main.None?
    ensures r.Some? ==> r == d.articleContent
                        || (d.articleContent.None? && (r == d.postContent || (d.postContent.None? && r == d.main)))
  {
    if d.articleContent.Some? then d.articleContent
    else if d.postContent.Some? then d.postContent
    else d.main
  }

  /**
   * `checkContent()` is truthy: the article's text is non-empty, or else the fallback container's is.
   * An existing fallback with empty text hides the later ones.
   */
  predicate Ready(d: Doc): (r: bool)
    ensures r <==> (d.article.Some? && d.article.value != "")
                   || (d.articleContent.Some? && d.articleContent.value != "")
                   || (d.articleContent.None? && d.postContent.Some? && d.postContent.value != "")
                   || (d.articleContent.None? && d.postContent.None? && d.main.Some? && d.main.value != "")
  {
    (d.article.Some? && d.article.value != "")
    || (MainContent(d).Some? && MainContent(d).value != "")
  }

  datatype Kind = ContentFound | TimedOut

  /** What the capture resolves with, tagged by the path that resolved it. */
  datatype Outcome = Outcome(kind: Kind, snapshot: string)

  datatype Event = Mutation(doc: Doc) | TimerFired(doc: Doc)

  /** The state of one capture request. */
  class Coordinator {
    /** The 5000 ms timer is set and has neither fired nor been cleared. */
    var timerArmed: bool
    /** The mutation observer is connected to `document.body`. */
    var observing: bool
    /** The value the promise settled with, if it has settled. */
    var outcome: Option<Outcome>
    /** How many times `resolve` has been called. */
    var resolveCalls: nat

    /** Pending exactly while both the timer and the observer are live; `resolve` was called once per settlement. */
    ghost predicate Valid()
      reads this
    {
      timerArmed == observing == outcome.None?
      && resolveCalls == (if outcome.Some? then 1 else 0)
    }

    /** The promise's `resolve`: counts the call; only the first call settles the promise. */
    method Resolve(o: Outcome)
      modifies this
      ensures resolveCalls == old(resolveCalls) + 1
      ensures outcome == if old(outcome).None? then Some(o) else old(outcome)
      ensures timerArmed == old(timerArmed) && observing == old(observing)
    {
      resolveCalls := resolveCalls + 1;
      if outcome.None? {
        outcome := Some(o);
      }
    }

    /**
     * The start of the injected function: readiness is checked once; if it holds, the promise
     * resolves with the document at once and neither timer nor observer is created;
     * otherwise both are set up and the capture is pending.
     */
    constructor (d: Doc)
      ensures Valid()
      ensures Ready(d) ==> outcome == Some(Outcome(ContentFound, d.outerHtml)) && !timerArmed && !observing
      ensures !Ready(d) ==> outcome.None? && timerArmed && observing
    {
      timerArmed, observing, outcome, resolveCalls := false, false, None, 0;
      new;
      if Ready(d) {
        Resolve(Outcome(ContentFound, d.outerHtml));
      } else {
        timerArmed := true;
        observing := true;
      }
    }

    /**
     * The observer's callback. It runs only while the observer is connected; when the content is
     * now ready it clears the timer, disconnects, and resolves with the whole document.
     * Otherwise nothing changes.
     */
    method OnMutation(d: Doc)
      requires Valid()
      modifies this
      ensures Valid()
      ensures old(observing) && Ready(d) ==>
        outcome == Some(Outcome(ContentFound, d.outerHtml)) && !timerArmed && !observing
      ensures !(old(observing) && Ready(d)) ==>
        outcome == old(outcome) && timerArmed == old(timerArmed) && observing == old(observing)
        && resolveCalls == old(resolveCalls)
    {
      if observing && Ready(d) {
        timerArmed := false;
        observing := false;
        Resolve(Outcome(ContentFound, d.outerHtml));
      }
    }

    /** The timer's callback. It runs only if the timer was not cleared; it disconnects the observer and resolves with the whole document. */
    method OnTimer(d: Doc)
      requires Valid()
      modifies this
      ensures Valid()
      ensures old(timerArmed) ==> outcome == Some(Outcome(TimedOut, d.outerHtml)) && !timerArmed && !observing
      ensures !old(timerArmed) ==>
        outcome == old(outcome) && timerArmed == old(timerArmed) && observing == old(observing)
        && resolveCalls == old(resolveCalls)
    {
      if timerArmed {
        timerArmed := false;
        observing := false;
        Resolve(Outcome(TimedOut, d.outerHtml));
      }
    }

    method Deliver(e: Event)
      requires Valid()
      modifies this
      ensures Valid()
      ensures old(outcome).Some? ==> outcome == old(outcome) && resolveCalls == old(resolveCalls)
      ensures old(outcome).None? ==> outcome == (if Triggers(e) then Some(TriggerOutcome(e)) else None)
    {
      match e
      case Mutation(d) => OnMutation(d);
      case TimerFired(d) => OnTimer(d);
    }
  }

  // ---------------------------------------------------------------- the specification of a capture

  /** An event that settles a pending capture: the timer firing, or a mutation after which the content is ready. */
  predicate Triggers(e: Event) {
    e.TimerFired? || Ready(e.doc)
  }

  function TriggerOutcome(e: Event): Outcome {
    match e
    case Mutation(d) => Outcome(ContentFound, d.outerHtml)
    case TimerFired(d) => Outcome(TimedOut, d.outerHtml)
  }

  /** The outcome decided by the first settling event, if any. */
  function FirstTrigger(events: seq<Event>): Option<Outcome> {
    if events == [] then None
    else if Triggers(events[0]) then Some(TriggerOutcome(events[0]))
    else FirstTrigger(events[1..])
  }

  /** How a capture that starts on document `start` and then sees `events` settles (`None`: still pending). */
  function Settle(start: Doc, events: seq<Event>): Option<Outcome> {
    if Ready(start) then Some(Outcome(ContentFound, start.outerHtml))
    else FirstTrigger(events)
  }

  /**
   * Runs one capture request: creates the coordinator on the initial document and delivers
   * the events in order. The promise settles as `Settle` says, and `resolve` is called at most once.
   */
  method Run(start: Doc, events: seq<Event>) returns (outcome: Option<Outcome>, resolveCalls: nat)
    ensures outcome == Settle(start, events)
    ensures resolveCalls <= 1
    ensures resolveCalls == 1 <==> outcome.Some?
  {
    var c := new Coordinator(start);
    var i := 0;
    while i < |events|
      invariant 0 <= i <= |events|
      invariant c.Valid()
      invariant Settle(start, events) == if c.outcome.Some? then c.outcome else FirstTrigger(events[i..])
    {
      assert events[i..][1..] == events[i + 1..];
      c.Deliver(events[i]);
      i := i + 1;
    }
    outcome, resolveCalls := c.outcome, c.resolveCalls;
  }

  // ---------------------------------------------------------------- properties

  /** The capture settles with the first settling event and with nothing else. */
  lemma {:induction false} FirstTriggerWins(events: seq<Event>, k: nat)
    requires k < |events| && Triggers(events[k])
    requires forall j :: 0 <= j < k ==> !Triggers(events[j])
    ensures FirstTrigger(events) == Some(TriggerOutcome(events[k]))
  {
    if k > 0 {
      FirstTriggerWins(events[1..], k - 1);
    }
  }

  /** Without a settling event the capture stays pending. */
  lemma {:induction false} NoTriggerPending(events: seq<Event>)
    requires forall j :: 0 <= j < |events| ==> !Triggers(events[j])
    ensures FirstTrigger(events) == None
  {
    if events != [] {
      NoTriggerPending(events[1..]);
    }
  }

  /**
   * When no mutation makes the content ready before the timer fires, the capture times out
   * with the whole document as the timer's callback sees it.
   */
  lemma TimesOutWithoutReadyMutation(start: Doc, events: seq<Event>, k: nat)
    requires !Ready(start)
    requires k < |events| && events[k].TimerFired?
    requires forall j :: 0 <= j < k ==> events[j].Mutation? && !Ready(events[j].doc)
    ensures Settle(start, events) == Some(Outcome(TimedOut, events[k].doc.outerHtml))
  {
    FirstTriggerWins(events, k);
  }

  /** Ready content at the start settles the capture at once, whatever events follow. */
  lemma ReadyAtStart(start: Doc, events: seq<Event>)
    requires Ready(start)
    ensures Settle(start, events) == Some(Outcome(ContentFound, start.outerHtml))
  {
  }

  /** Once settled, later events change nothing: there is no second resolution. */
  lemma {:induction false} SettledIsFinal(start: Doc, events: seq<Event>, k: nat)
    requires k <= |events|
    requires Settle(start, events[..k]).Some?
    ensures Settle(start, events) == Settle(start, events[..k])
  {
    if !Ready(start) {
      FirstTriggerPrefix(events, k);
    }
  }

  lemma {:induction false} FirstTriggerPrefix(events: seq<Event>, k: nat)
    requires k <= |events|
    requires FirstTrigger(events[..k]).Some?
    ensures FirstTrigger(events) == FirstTrigger(events[..k])
  {
    assert k > 0;
    if !Triggers(events[0]) {
      assert events[..k][1..] == events[1..][..k - 1];
      FirstTriggerPrefix(events[1..], k - 1);
    }
  }

  /**
   * The snapshot is always the markup of the whole document, taken from the document on
   * which the capture settled: the initial one, or the one of the first settling event.
   */
  lemma SnapshotIsWholeDocument(start: Doc, events: seq<Event>)
    requires Settle(start, events).Some?
    ensures var o := Settle(start, events).value;
      (Ready(start) && o == Outcome(ContentFound, start.outerHtml))
      || (exists k :: 0 <= k < |events| && Triggers(events[k]) && o == TriggerOutcome(events[k])
            && o.snapshot == events[k].doc.outerHtml)
  {
    if !Ready(start) {
      var k := FirstTriggerIndex(events);
    }
  }

  /** The position of the first settling event of a settled sequence. */
  lemma {:induction false} FirstTriggerIndex(events: seq<Event>) returns (k: nat)
    requires FirstTrigger(events).Some?
    ensures k < |events| && Triggers(events[k]) && FirstTrigger(events) == Some(TriggerOutcome(events[k]))
    ensures forall j :: 0 <= j < k ==> !Triggers(events[j])
  {
    if Triggers(events[0]) {
      k := 0;
    } else {
      var k' := FirstTriggerIndex(events[1..]);
      k := k' + 1;
    }
  }

  /** The fallback takes the first container that exists, even when its text is empty and a later one has text. */
  lemma FallbackTakesFirstExisting(d: Doc)
    requires d.article.None? && d.articleContent == Some("") && d.main.Some? && d.main.value != ""
    ensures !Ready(d)
  {
  }
}
