/**
 * The connection store of `lib/api.ts`: the server URL and API key the user connected with,
 * the label parsing and the outcome rules of the two requests. The network is replaced by the
 * `Reply` a request receives; each request the store would send is returned as a `Request` value.
 */
module Api {
  import opened Optional
  import opened Strings

  // ---------------------------------------------------------------- labels

  /** Every piece trimmed, in order. */
  function TrimAll(pieces: seq<string>): (r: seq<string>)
    ensures |r| == |pieces|
    ensures forall i :: 0 <= i < |pieces| ==> r[i] == Trim(pieces[i])
  {
    if pieces == [] then [] else [Trim(pieces[0])] + TrimAll(pieces[1..])
  }

  /** `.filter((l) => l)`: the non-empty pieces, in order. */
  function DropEmpty(pieces: seq<string>): (r: seq<string>)
    ensures forall l <- r :: l != ""
    ensures forall l :: l in r <==> l in pieces && l != ""
    ensures |r| <= |pieces|
  {
    if pieces == [] then []
    else if pieces[0] == "" then DropEmpty(pieces[1..])
    else [pieces[0]] + DropEmpty(pieces[1..])
  }

  /** Characters of a trimmed piece come from the piece. */
  lemma TrimKeepsOut(s: string, c: char)
    requires c !in s
    ensures c !in Trim(s)
  {
    var i, j :| 0 <= i <= j <= |s| && Trim(s) == s[i..j] && AllSpace(s[..i]) && AllSpace(s[j..]);
  }

  /** A valid label: non-empty, free of commas, without spaces at either end. */
  predicate IsLabel(l: string) {
    l != "" && ',' !in l && IsTrimmed(l)
  }

  /** The labels of `saveBookmark`: `label.split(",").map(trim).filter(non-empty)`. */
  function ParseLabels(text: string): (labels: seq<string>)
    ensures forall l <- labels :: IsLabel(l)
  {
    var pieces := Split(text, ',');
    TrimAllKeepsOut(pieces, ',');
    DropEmpty(TrimAll(pieces))
  }

  lemma TrimAllKeepsOut(pieces: seq<string>, c: char)
    requires forall p <- pieces :: c !in p
    ensures forall l <- TrimAll(pieces) :: c !in l
  {
    forall l | l in TrimAll(pieces)
      ensures c !in l
    {
      var i :| 0 <= i < |pieces| && TrimAll(pieces)[i] == l;
      TrimKeepsOut(pieces[i], c);
    }
  }

  lemma {:induction false} TrimAllAppend(a: seq<string>, b: seq<string>)
    ensures TrimAll(a + b) == TrimAll(a) + TrimAll(b)
  {
    if a != [] {
      assert (a + b)[1..] == a[1..] + b;
      TrimAllAppend(a[1..], b);
    }
  }

  lemma {:induction false} DropEmptyAppend(a: seq<string>, b: seq<string>)
    ensures DropEmpty(a + b) == DropEmpty(a) + DropEmpty(b)
  {
    if a != [] {
      assert (a + b)[0] == a[0];
      assert (a + b)[1..] == a[1..] + b;
      DropEmptyAppend(a[1..], b);
      if a[0] == "" {
        assert DropEmpty(a + b) == DropEmpty(a[1..] + b);
      } else {
        assert DropEmpty(a + b) == [a[0]] + DropEmpty(a[1..] + b);
        assert DropEmpty(a) == [a[0]] + DropEmpty(a[1..]);
      }
    } else {
      assert a + b == b;
    }
  }

  /** Splitting at a comma that is placed between two strings splits both of them. */
  lemma {:induction false} SplitAppend(a: string, b: string)
    ensures Split(a + [','] + b, ',') == Split(a, ',') + Split(b, ',')
    decreases |a|
  {
    if ',' in a {
      var ia := IndexOf(a, ',');
      SplitAppend(a[ia + 1..], b);
      SplitAppendCons(a, b, ia);
    } else {
      SplitAppendLast(a, b);
    }
  }

  /** The inductive step: the first comma of `a` splits off its first piece on both sides. */
  lemma SplitAppendCons(a: string, b: string, ia: nat)
    requires ia < |a| && a[ia] == ',' && ',' !in a[..ia]
    requires Split(a[ia + 1..] + [','] + b, ',') == Split(a[ia + 1..], ',') + Split(b, ',')
    ensures Split(a + [','] + b, ',') == Split(a, ',') + Split(b, ',')
  {
    var rest := a[ia + 1..];
    calc {
      Split(a + [','] + b, ',');
      == { SplitAppendStep(a, b, ia); }
      [a[..ia]] + Split(rest + [','] + b, ',');
      ==
      [a[..ia]] + (Split(rest, ',') + Split(b, ','));
      ==
      ([a[..ia]] + Split(rest, ',')) + Split(b, ',');
      == { SplitAtFirst(a, ',', ia); }
      Split(a, ',') + Split(b, ',');
    }
  }

  lemma SplitAppendStep(a: string, b: string, ia: nat)
    requires ia < |a| && a[ia] == ',' && ',' !in a[..ia]
    ensures Split(a + [','] + b, ',') == [a[..ia]] + Split(a[ia + 1..] + [','] + b, ',')
  {
    var s := a + [','] + b;
    assert s[..ia] == a[..ia];
    assert s[ia + 1..] == a[ia + 1..] + [','] + b;
    SplitAtFirst(s, ',', ia);
  }

  lemma SplitAppendLast(a: string, b: string)
    requires ',' !in a
    ensures Split(a + [','] + b, ',') == Split(a, ',') + Split(b, ',')
  {
    var s := a + [','] + b;
    assert s[..|a|] == a;
    assert s[|a| + 1..] == b;
    SplitAtFirst(s, ',', |a|);
  }

  /** Labels keep their order: the labels of `a,b` are those of `a` followed by those of `b`. */
  lemma LabelsInOrder(a: string, b: string)
    ensures ParseLabels(a + [','] + b) == ParseLabels(a) + ParseLabels(b)
  {
    SplitAppend(a, b);
    TrimAllAppend(Split(a, ','), Split(b, ','));
    DropEmptyAppend(TrimAll(Split(a, ',')), TrimAll(Split(b, ',')));
  }

  lemma {:induction false} DropEmptyKeepsLabels(ls: seq<string>)
    requires forall l <- ls :: l != ""
    ensures DropEmpty(ls) == ls
  {
    if ls != [] {
      assert forall l <- ls[1..] :: l in ls;
      DropEmptyKeepsLabels(ls[1..]);
      assert ls[0] in ls;
      assert DropEmpty(ls) == [ls[0]] + DropEmpty(ls[1..]);
    }
  }

  lemma TrimAllKeepsTrimmed(ls: seq<string>)
    requires forall l <- ls :: IsTrimmed(l)
    ensures TrimAll(ls) == ls
  {
    forall i | 0 <= i < |ls|
      ensures TrimAll(ls)[i] == ls[i]
    {
      TrimmedIsFixed(ls[i]);
    }
  }

  /** Parsing the comma-joined list of valid labels gives back that list. */
  lemma ParseJoinedLabels(ls: seq<string>)
    requires forall l <- ls :: IsLabel(l)
    ensures ParseLabels(Join(ls, ',')) == ls
  {
    if ls == [] {
      assert Split("", ',') == [""];
      assert TrimAll([""]) == [""];
    } else {
      SplitJoin(ls, ',');
      TrimAllKeepsTrimmed(ls);
      DropEmptyKeepsLabels(ls);
    }
  }

  /** A label is a non-empty trimmed comma-separated piece of the input. */
  lemma LabelMembership(text: string, l: string)
    ensures l in ParseLabels(text) <==> l != "" && exists p <- Split(text, ',') :: Trim(p) == l
  {
    var pieces := Split(text, ',');
    var trimmed := TrimAll(pieces);
    if l in trimmed {
      var i :| 0 <= i < |trimmed| && trimmed[i] == l;
      assert pieces[i] in pieces;
    }
    if l != "" && exists p <- pieces :: Trim(p) == l {
      var p :| p in pieces && Trim(p) == l;
      var i :| 0 <= i < |pieces| && pieces[i] == p;
      assert trimmed[i] == l;
    }
  }

  // ---------------------------------------------------------------- replies and outcomes

  /**
   * What a request receives: a failure before a status is known (`fetch` or `response.json()`
   * threw, with that error's message), or an HTTP response with its status flag and text and
   * the `code` and `msg` fields of its JSON body.
   */
  datatype Reply = Failed(message: string) | Http(ok: bool, statusText: string, code: int, msg: string)

  /** A request settles, or throws an error with a message. */
  datatype Outcome = Done | Error(message: string)

  /** The outcome of `setConnection`'s request. */
  function ConnectOutcome(reply: Reply): (o: Outcome)
    ensures o.Done? <==> reply.Http? && reply.ok && reply.code == 0
    ensures reply.Http? && !reply.ok ==> o == Error("Connection failed")
    ensures reply.Http? && reply.ok && reply.code != 0 ==> o == Error(reply.msg)
    ensures reply.Failed? ==> o == Error(reply.message)
  {
    match reply
    case Failed(m) => Error(m)
    case Http(ok, _, code, msg) =>
      if !ok then Error("Connection failed")
      else if code != 0 then Error(msg)
      else Done
  }

  /** The outcome of `saveBookmark`'s request; code 61 is tested before any other non-zero code. */
  function SaveOutcome(reply: Reply): (o: Outcome)
    ensures o.Done? <==> reply.Http? && reply.ok && reply.code == 0
    ensures reply.Http? && !reply.ok ==> o == Error(reply.statusText)
    ensures reply.Http? && reply.ok && reply.code == 61 ==> o == Error("Unauthorized")
    ensures reply.Http? && reply.ok && reply.code != 0 && reply.code != 61 ==> o == Error(reply.msg)
    ensures reply.Failed? ==> o == Error(reply.message)
  {
    match reply
    case Failed(m) => Error(m)
    case Http(ok, statusText, code, msg) =>
      if !ok then Error(statusText)
      else if code == 61 then Error("Unauthorized")
      else if code != 0 then Error(msg)
      else Done
  }

  /**
   * When a save ends with the message `Unauthorized`: code 61, but also an HTTP failure whose
   * status text is `Unauthorized` (status 401), or any other error carrying that message.
   */
  lemma UnauthorizedSave(reply: Reply)
    ensures SaveOutcome(reply) == Error("Unauthorized") <==>
      (reply.Http? && reply.ok && reply.code == 61)
      || (reply.Http? && !reply.ok && reply.statusText == "Unauthorized")
      || (reply.Http? && reply.ok && reply.code != 0 && reply.code != 61 && reply.msg == "Unauthorized")
      || (reply.Failed? && reply.message == "Unauthorized")
  {
  }

  // ---------------------------------------------------------------- the store

  /** `getItem` of the storage adapter: a missing key and an empty stored string both read as `null`. */
  function GetItem(stored: Option<string>): (r: Option<string>)
    ensures r.None? <==> stored.None? || stored == Some("")
    ensures r.Some? ==> r == stored
  {
    match stored
    case Some(v) => if v != "" then Some(v) else None
    case None => None
  }

  /** The JSON body of a save request. */
  datatype Bookmark = Bookmark(title: string, labels: seq<string>, url: string, content: string)

  /** A request: method, endpoint, `Authorization` header and body. */
  datatype Request = Request(verb: string, endpoint: string, authorization: string, body: Option<Bookmark>)

  /** The persisted connection state. */
  class Connection {
    var url: string
    var apiKey: string
    var isConnected: bool

    /** The initial state: not connected, no URL, no key. */
    constructor ()
      ensures url == "" && apiKey == "" && !isConnected
    {
      url, apiKey, isConnected := "", "", false;
    }

    /**
     * `setConnection`: asks `<newUrl>/ext/connect` with the new key; on success the three fields
     * are set together, on any failure the error is rethrown and the state is left as it was.
     */
    method SetConnection(newUrl: string, newKey: string, reply: Reply) returns (req: Request, o: Outcome)
      modifies this
      ensures req == Request("GET", newUrl + "/ext/connect", "Bearer " + newKey, None)
      ensures o == ConnectOutcome(reply)
      ensures o.Done? ==> url == newUrl && apiKey == newKey && isConnected
      ensures o.Error? ==> url == old(url) && apiKey == old(apiKey) && isConnected == old(isConnected)
    {
      req := Request("GET", newUrl + "/ext/connect", "Bearer " + newKey, None);
      o := ConnectOutcome(reply);
      if o.Done? {
        url, apiKey, isConnected := newUrl, newKey, true;
      }
    }

    /** `resetConnection`: back to the initial state. */
    method ResetConnection()
      modifies this
      ensures url == "" && apiKey == "" && !isConnected
    {
      url, apiKey, isConnected := "", "", false;
    }

    /**
     * `saveBookmark`: posts the bookmark with the parsed labels to `<url>/ext/bookmark` with
     * the stored key. It reads the store and changes nothing in it.
     */
    method SaveBookmark(title: string, labelText: string, pageUrl: string, content: string, reply: Reply)
      returns (req: Request, o: Outcome)
      ensures req.verb == "POST" && req.endpoint == url + "/ext/bookmark" && req.authorization == "Bearer " + apiKey
      ensures req.body == Some(Bookmark(title, ParseLabels(labelText), pageUrl, content))
      ensures o == SaveOutcome(reply)
    {
      var labels := ParseLabels(labelText);
      req := Request("POST", url + "/ext/bookmark", "Bearer " + apiKey, Some(Bookmark(title, labels, pageUrl, content)));
      o := SaveOutcome(reply);
    }
  }
}
