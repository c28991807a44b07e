/**
 * The translation helper of `lib/i18n.ts`: two translation trees (Chinese and English), a
 * flag that records whether they were loaded, and the dotted-path lookup `t` with its fallback
 * to the English tree. Fetching and parsing the JSON files is replaced by the `Load` value a
 * loading attempt produced.
 */
module I18n {
  import opened Optional
  import opened Strings

  /** A translation tree: a string, or an object of named subtrees. */
  datatype Node = Leaf(text: string) | Dict(entries: map<string, Node>)

  /** The separator of the keys in a translation path. */
  const KeySeparator: char := '.'

  datatype Language = ZhCN | En

  /** `getBrowserLanguage`: Chinese for any language tag starting with `zh`, English otherwise. */
  function BrowserLanguage(navigatorLanguage: string): (l: Language)
    ensures l == ZhCN <==> StartsWith(navigatorLanguage, "zh")
  {
    if StartsWith(navigatorLanguage, "zh") then ZhCN else En
  }

  // ---------------------------------------------------------------- paths in a tree

  /**
   * The result of following keys from a node: the node reached, `Missing` when an object lacks
   * the next key, `Blocked` when a string is reached while keys remain.
   */
  datatype Walk = Found(node: Node) | Missing | Blocked

  function WalkFrom(n: Node, keys: seq<string>): Walk
    decreases |keys|
  {
    if keys == [] then Found(n)
    else match n
      case Leaf(_) => Blocked
      case Dict(m) => if keys[0] in m then WalkFrom(m[keys[0]], keys[1..]) else Missing
  }

  /** Continues a walk with further keys; a walk that stopped stays stopped. */
  function Then(w: Walk, keys: seq<string>): Walk {
    match w
    case Found(n) => WalkFrom(n, keys)
    case _ => w
  }

  /** Following a path is following a prefix of it and then the rest. */
  lemma {:induction false} WalkSplit(n: Node, keys: seq<string>, i: nat)
    requires i <= |keys|
    ensures WalkFrom(n, keys) == Then(WalkFrom(n, keys[..i]), keys[i..])
    decreases i
  {
    if i > 0 {
      assert keys[..i][0] == keys[0] && keys[..i][1..] == keys[1..][..i - 1];
      match n
      case Leaf(_) =>
      case Dict(m) =>
        if keys[0] in m {
          WalkSplit(m[keys[0]], keys[1..], i - 1);
          assert keys[1..][i - 1..] == keys[i..];
        }
    }
  }

  /** Following a single key. */
  lemma WalkOne(c: Node, k: string)
    ensures WalkFrom(c, [k]) ==
      match c
      case Leaf(_) => Blocked
      case Dict(m) => if k in m then Found(m[k]) else Missing
  {
    assert [k][1..] == [];
  }

  /** One more key after a prefix that was found. */
  lemma WalkStep(n: Node, keys: seq<string>, i: nat, c: Node)
    requires i < |keys| && WalkFrom(n, keys[..i]) == Found(c)
    ensures WalkFrom(n, keys[..i + 1]) ==
      match c
      case Leaf(_) => Blocked
      case Dict(m) => if keys[i] in m then Found(m[keys[i]]) else Missing
  {
    WalkSplit(n, keys[..i + 1], i);
    assert keys[..i + 1][..i] == keys[..i];
    assert keys[..i + 1][i..] == [keys[i]];
    WalkOne(c, keys[i]);
  }

  /** The optional-chaining walk `current?.[k]`: a string, like a missing value, has no keys. */
  function AsOption(w: Walk): Option<Node> {
    if w.Found? then Some(w.node) else None
  }

  // ---------------------------------------------------------------- lookup

  /**
   * What `t` returns for `keys` (the dotted `path` split at `.`) once translations are loaded,
   * `root` being the chosen language's tree: the string the path names in that tree; when a key
   * is missing there, the string it names in the English tree; otherwise the path itself.
   */
  function Resolve(root: Node, en: Node, keys: seq<string>, path: string): string {
    match WalkFrom(root, keys)
    case Found(Leaf(s)) => s
    case Missing =>
      (match WalkFrom(en, keys)
       case Found(Leaf(s)) => s
       case _ => path)
    case _ => path
  }

  /** The lookup returns either the path or the text of a string it reached. */
  lemma ResolveIsLeafOrPath(root: Node, en: Node, keys: seq<string>, path: string)
    ensures var r := Resolve(root, en, keys, path);
      r == path
      || WalkFrom(root, keys) == Found(Leaf(r))
      || (WalkFrom(root, keys) == Missing && WalkFrom(en, keys) == Found(Leaf(r)))
  {
  }

  /** A string met before all keys are used makes the lookup return the path, without fallback. */
  lemma LeafBeforeEndGivesPath(root: Node, en: Node, keys: seq<string>, path: string, i: nat, s: string)
    requires i < |keys| && WalkFrom(root, keys[..i]) == Found(Leaf(s))
    ensures Resolve(root, en, keys, path) == path
  {
    WalkSplit(root, keys, i);
  }

  /** A key missing in the chosen tree makes the lookup use the whole path in the English tree. */
  lemma {:induction false} MissingKeyFallsBack(root: Node, en: Node, keys: seq<string>, path: string, i: nat)
    requires i < |keys| && WalkFrom(root, keys[..i + 1]) == Missing
    ensures WalkFrom(root, keys) == Missing
    ensures Resolve(root, en, keys, path) == (if WalkFrom(en, keys).Found? && WalkFrom(en, keys).node.Leaf?
                                              then WalkFrom(en, keys).node.text else path)
  {
    WalkSplit(root, keys, i + 1);
  }

  // ---------------------------------------------------------------- the loop as the source writes it

  /**
   * The loop of `t` from position `i` with value `current`, with the fallback re-walk as written:
   * it follows the English tree along `keys` up to the FIRST occurrence of the missing key
   * (`keys.indexOf(key)`), not up to the current position.
   */
  function LoopAsWritten(en: Node, keys: seq<string>, i: nat, current: Node, path: string): (r: string)
    requires i <= |keys|
    ensures r == path || Reaches(current, r) || Reaches(en, r)
    decreases |keys| - i
  {
    if i == |keys| then
      if current.Leaf? then
        assert WalkFrom(current, []) == Found(current);
        current.text
      else path
    else if current.Leaf? then path
    else if keys[i] in current.entries then
      var r := LoopAsWritten(en, keys, i + 1, current.entries[keys[i]], path);
      ReachesThrough(current.entries, keys[i], r);
      r
    else
      var prefix := keys[..IndexOf(keys, keys[i]) + 1];
      match AsOption(WalkFrom(en, prefix))
      case Some(n) =>
        var r := LoopAsWritten(en, keys, i + 1, n, path);
        ReachesAfter(en, prefix, r);
        r
      case None => path
  }

  /** Some path leads from `n` to the string `s`. */
  ghost predicate Reaches(n: Node, s: string) {
    exists ks :: WalkFrom(n, ks) == Found(Leaf(s))
  }

  /** A string reachable from an entry is reachable from the object holding it. */
  lemma ReachesThrough(m: map<string, Node>, k: string, s: string)
    requires k in m
    ensures Reaches(m[k], s) ==> Reaches(Dict(m), s)
  {
    if Reaches(m[k], s) {
      var ks :| WalkFrom(m[k], ks) == Found(Leaf(s));
      assert ([k] + ks)[0] == k && ([k] + ks)[1..] == ks;
      assert WalkFrom(Dict(m), [k] + ks) == Found(Leaf(s));
    }
  }

  /** A string reachable from the node a prefix leads to is reachable from the root. */
  lemma ReachesAfter(n: Node, prefix: seq<string>, s: string)
    requires WalkFrom(n, prefix).Found?
    ensures Reaches(WalkFrom(n, prefix).node, s) ==> Reaches(n, s)
  {
    if Reaches(WalkFrom(n, prefix).node, s) {
      var ks :| WalkFrom(WalkFrom(n, prefix).node, ks) == Found(Leaf(s));
      WalkSplit(n, prefix + ks, |prefix|);
      assert (prefix + ks)[..|prefix|] == prefix && (prefix + ks)[|prefix|..] == ks;
      assert WalkFrom(n, prefix + ks) == Found(Leaf(s));
    }
  }

  predicate Distinct(keys: seq<string>) {
    forall a, b :: 0 <= a < b < |keys| ==> keys[a] != keys[b]
  }

  /** With no repeated key in the path, the loop as written computes `Resolve`. */
  lemma {:induction false} LoopAsWrittenAgrees(root: Node, en: Node, keys: seq<string>, path: string,
                                               i: nat, current: Node, fellBack: bool)
    requires Distinct(keys) && i <= |keys|
    requires !fellBack ==> WalkFrom(root, keys[..i]) == Found(current)
    requires fellBack ==> WalkFrom(root, keys) == Missing && WalkFrom(en, keys[..i]) == Found(current)
    ensures LoopAsWritten(en, keys, i, current, path) == Resolve(root, en, keys, path)
    decreases |keys| - i
  {
    assert keys[..|keys|] == keys;
    if i < |keys| {
      if current.Leaf? {
        if fellBack {
          WalkSplit(en, keys, i);
        } else {
          WalkSplit(root, keys, i);
        }
      } else if keys[i] in current.entries {
        if fellBack {
          WalkStep(en, keys, i, current);
        } else {
          WalkStep(root, keys, i, current);
        }
        LoopAsWrittenAgrees(root, en, keys, path, i + 1, current.entries[keys[i]], fellBack);
      } else {
        IndexOfAt(keys, keys[i], i);
        if fellBack {
          WalkStep(en, keys, i, current);
          WalkSplit(en, keys, i + 1);
        } else {
          WalkStep(root, keys, i, current);
          WalkSplit(root, keys, i + 1);
          if WalkFrom(en, keys[..i + 1]).Found? {
            LoopAsWrittenAgrees(root, en, keys, path, i + 1, WalkFrom(en, keys[..i + 1]).node, true);
          } else {
            WalkSplit(en, keys, i + 1);
          }
        }
      }
    }
  }

  /**
   * A repeated key sends the re-walk to the wrong depth: for `a.b.a` with the last key missing
   * in the Chinese tree, the English tree is re-entered at `a` instead of `a.b.a`, and the loop as
   * written returns the path although the English tree has a string there.
   */
  lemma RepeatedKeyCounterexample()
    ensures var zh := Dict(map["a" := Dict(map["b" := Dict(map[])])]);
      var en := Dict(map["a" := Dict(map["b" := Dict(map["a" := Leaf("X")])])]);
      Split("a.b.a", '.') == ["a", "b", "a"]
      && LoopAsWritten(en, ["a", "b", "a"], 0, zh, "a.b.a") == "a.b.a"
      && Resolve(zh, en, ["a", "b", "a"], "a.b.a") == "X"
  {
    SplitJoin(["a", "b", "a"], '.');
    assert Join(["a", "b", "a"], '.') == "a.b.a";
    var keys := ["a", "b", "a"];
    assert IndexOf(keys, "a") == 0;
    assert keys[..1] == ["a"];
    assert keys[1..] == ["b", "a"] && keys[1..][1..] == ["a"] && keys[1..][1..][1..] == [];
  }

  // ---------------------------------------------------------------- the module state

  /** The outcome of one loading attempt. */
  datatype Load =
    | LoadFailed                                                    // a fetch or the Chinese JSON failed
    | EnglishUnreadable(zh: map<string, Node>)                     // only the English JSON failed
    | Loaded(zh: map<string, Node>, en: map<string, Node>)

  /** The module-level `translations` and `translationsLoaded`. */
  class Catalog {
    var zh: map<string, Node>
    var en: map<string, Node>
    var loaded: bool

    constructor ()
      ensures zh == map[] && en == map[] && !loaded
    {
      zh, en, loaded := map[], map[], false;
    }

    function Root(lang: Language): Node
      reads this
    {
      if lang == ZhCN then Dict(zh) else Dict(en)
    }

    /** The value of `t(path)` in the current state. */
    function Translate(navigatorLanguage: string, path: string): string
      reads this
    {
      if !loaded then path
      else Resolve(Root(BrowserLanguage(navigatorLanguage)), Dict(en), Split(path, KeySeparator), path)
    }

    /**
     * `waitForTranslations`: loads only when not yet loaded, and reports the flag. A failed attempt
     * leaves the flag false; when only the English file fails, the Chinese tree is already replaced.
     */
    method WaitForTranslations(load: Load) returns (ok: bool)
      modifies this
      ensures ok == loaded
      ensures old(loaded) ==> loaded && zh == old(zh) && en == old(en)
      ensures !old(loaded) ==> match load
        case LoadFailed => !loaded && zh == old(zh) && en == old(en)
        case EnglishUnreadable(z) => !loaded && zh == z && en == old(en)
        case Loaded(z, e) => loaded && zh == z && en == e
    {
      if !loaded {
        match load
        case LoadFailed =>
        case EnglishUnreadable(z) =>
          zh := z;
        case Loaded(z, e) =>
          zh := z;
          en := e;
          loaded := true;
      }
      ok := loaded;
    }

    /**
     * `t`: walks the chosen language's tree key by key; at a missing key it re-walks the English
     * tree up to the current key and continues there. Before loading it returns the path.
     */
    method T(navigatorLanguage: string, path: string) returns (s: string)
      ensures s == Translate(navigatorLanguage, path)
      ensures !loaded ==> s == path
    {
      var lang := BrowserLanguage(navigatorLanguage);
      if !loaded {
        return path;
      }
      var keys := Split(path, KeySeparator);
      var root := Root(lang);
      var english := Dict(en);
      var current := root;
      ghost var fellBack := false;
      var i := 0;
      while i < |keys|
        invariant 0 <= i <= |keys|
        invariant !fellBack ==> WalkFrom(root, keys[..i]) == Found(current)
        invariant fellBack ==> WalkFrom(root, keys) == Missing && WalkFrom(english, keys[..i]) == Found(current)
      {
        if current.Leaf? {
          if fellBack {
            WalkSplit(english, keys, i);
          } else {
            WalkSplit(root, keys, i);
          }
          return path;
        }
        var key := keys[i];
        if key in current.entries {
          if fellBack {
            WalkStep(english, keys, i, current);
          } else {
            WalkStep(root, keys, i, current);
          }
          current := current.entries[key];
        } else {
          if fellBack {
            WalkStep(english, keys, i, current);
          } else {
            WalkStep(root, keys, i, current);
            WalkSplit(root, keys, i + 1);
          }
          var fallback := Rewalk(english, keys, i);
          if fallback.None? {
            WalkSplit(english, keys, i + 1);
            return path;
          }
          current := fallback.value;
          fellBack := true;
        }
        i := i + 1;
      }
      assert keys[..i] == keys;
      s := if current.Leaf? then current.text else path;
    }
  }

  /**
   * The fallback re-walk of `t`: `current = translations["en"]`, then `current = current?.[k]`
   * for each key up to position `i`; a string or a missing value ends the chain as `undefined`.
   */
  method Rewalk(english: Node, keys: seq<string>, i: nat) returns (fallback: Option<Node>)
    requires i < |keys|
    ensures fallback == AsOption(WalkFrom(english, keys[..i + 1]))
  {
    fallback := Some(english);
    var j := 0;
    while j <= i
      invariant 0 <= j <= i + 1
      invariant fallback == AsOption(WalkFrom(english, keys[..j]))
    {
      WalkSplit(english, keys[..j + 1], j);
      assert keys[..j + 1][..j] == keys[..j] && keys[..j + 1][j..] == [keys[j]];
      if fallback.Some? {
        WalkOne(fallback.value, keys[j]);
      }
      fallback :=
        match fallback
        case Some(Dict(m)) => if keys[j] in m then Some(m[keys[j]]) else None
        case _ => None;
      j := j + 1;
    }
  }
}
