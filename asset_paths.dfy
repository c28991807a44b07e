/**
 * The `assetFileNames` function of the build configuration (`vite.config.ts`): where an emitted
 * asset goes, chosen from its file extension. Images and fonts get shared directories; any
 * other asset goes to a directory named after its extension.
 */
module AssetPaths {
  import opened Optional
  import opened Strings

  lemma {:induction false} JoinLast(parts: seq<string>, sep: char)
    requires |parts| >= 2
    ensures Join(parts, sep) == Join(parts[..|parts| - 1], sep) + [sep] + parts[|parts| - 1]
    decreases |parts|
  {
    if |parts| > 2 {
      JoinLast(parts[1..], sep);
      assert parts[1..][..|parts| - 2] == parts[..|parts| - 1][1..];
    } else {
      assert parts[..1] == [parts[0]];
    }
  }

  /**
   * `info[info.length - 1]` for `info = name?.split('.') || []`: the text after the last `.`
   * of the name, the whole name when it has no `.`, and `undefined` when there is no name.
   */
  function Extension(name: Option<string>): (ext: Option<string>)
    ensures name.None? <==> ext.None?
    ensures name.Some? ==> '.' !in ext.value
    ensures name.Some? ==> exists i :: 0 <= i <= |name.value| && name.value[i..] == ext.value
                                      && (i == 0 || name.value[i - 1] == '.')
    ensures name.Some? && '.' !in name.value ==> ext == name
  {
    match name
    case None => None
    case Some(n) =>
      var parts := Split(n, '.');
      var last := parts[|parts| - 1];
      if |parts| >= 2 then
        JoinLast(parts, '.');
        assert n[|n| - |last|..] == last && n[|n| - |last| - 1] == '.';
        Some(last)
      else
        assert n[0..] == n;
        Some(last)
  }

  const ImagePatterns: seq<string> := ["png", "jpg", "jpeg", "svg", "gif", "tiff", "bmp", "ico"]

  /** `/png|jpe?g|svg|gif|tiff|bmp|ico/i` on an already lower-cased string, from pattern `k` on. */
  function ImageFrom(lowered: string, k: nat): (r: bool)
    requires k <= |ImagePatterns|
    ensures r <==> exists j, i :: k <= j < |ImagePatterns| && 0 <= i <= |lowered| && OccursAt(lowered, ImagePatterns[j], i)
    decreases |ImagePatterns| - k
  {
    if k == |ImagePatterns| then false
    else Contains(lowered, ImagePatterns[k]) || ImageFrom(lowered, k + 1)
  }

  /** The image test: some image extension occurs anywhere in the extension, in any letter case. */
  function IsImage(ext: string): (r: bool)
    ensures r <==> exists j, i :: 0 <= j < |ImagePatterns| && 0 <= i <= |ext| && OccursAt(Lower(ext), ImagePatterns[j], i)
  {
    ImageFrom(Lower(ext), 0)
  }

  /**
   * The directory of an asset: `images`, else `fonts` for an extension containing `woff`
   * (letter case matters here), else the extension itself. A missing extension is tested and
   * printed as the text `undefined`.
   */
  function AssetDir(ext: Option<string>): (dir: string)
    ensures var e := ext.GetOr("undefined");
      (IsImage(e) ==> dir == "images")
      && (!IsImage(e) && Contains(e, "woff") ==> dir == "fonts")
      && (!IsImage(e) && !Contains(e, "woff") ==> dir == e)
  {
    var e := ext.GetOr("undefined");
    if IsImage(e) then "images"
    else if Contains(e, "woff") then "fonts"
    else e
  }

  /** `assetFileNames`: the output path pattern for an asset. */
  function AssetFileName(name: Option<string>): (path: string)
    ensures StartsWith(path, "assets/")
    ensures path == "assets/" + AssetDir(Extension(name)) + "/[name][extname]"
  {
    "assets/" + AssetDir(Extension(name)) + "/[name][extname]"
  }

  // ---------------------------------------------------------------- properties

  /** The extension of `stem.ext` is `ext` whenever `ext` has no `.`, whatever the stem holds. */
  lemma ExtensionAfterLastDot(stem: string, ext: string)
    requires '.' !in ext
    ensures Extension(Some(stem + "." + ext)) == Some(ext)
  {
    var n := stem + "." + ext;
    var e := Extension(Some(n)).value;
    var i :| 0 <= i <= |n| && n[i..] == e && (i == 0 || n[i - 1] == '.');
    assert n[|stem|] == '.';
    assert i == |stem| + 1;
  }

  /** A pattern with a character that does not occur in `s` does not occur in `s`. */
  lemma AbsentChar(s: string, pat: string, k: nat)
    requires k < |pat| && pat[k] !in s
    ensures !Contains(s, pat)
  {
    forall i | 0 <= i <= |s|
      ensures !OccursAt(s, pat, i)
    {
      if i + |pat| <= |s| {
        assert s[i..i + |pat|][k] == s[i + k];
      }
    }
  }

  /** No extension whose lower-cased letters avoid `p j s g t b c` is an image. */
  lemma NotImageWithout(e: string)
    requires forall i :: 0 <= i < |e| ==> LowerChar(e[i]) !in "pjsgtbc"
    ensures !IsImage(e)
  {
    var l := Lower(e);
    AbsentChar(l, "png", 0);
    AbsentChar(l, "jpg", 0);
    AbsentChar(l, "jpeg", 0);
    AbsentChar(l, "svg", 0);
    AbsentChar(l, "gif", 0);
    AbsentChar(l, "tiff", 0);
    AbsentChar(l, "bmp", 0);
    AbsentChar(l, "ico", 1);
  }

  /** The image test ignores letter case: `.PNG` is an image. */
  lemma UpperCaseImage(stem: string)
    ensures AssetDir(Extension(Some(stem + ".PNG"))) == "images"
  {
    assert stem + "." + "PNG" == stem + ".PNG";
    ExtensionAfterLastDot(stem, "PNG");
    UpperPng();
  }

  /** An extension that merely contains an image extension counts as one (`.svgz`, say). */
  lemma ContainedImageExtension(stem: string, ext: string)
    requires '.' !in ext
    ensures AssetDir(Extension(Some(stem + "." + ext + "svgz"))) == "images"
  {
    var e := ext + "svgz";
    assert stem + "." + ext + "svgz" == stem + "." + e;
    ExtensionAfterLastDot(stem, e);
    SvgAfter(ext);
  }

  lemma SvgAfter(ext: string)
    ensures OccursAt(Lower(ext + "svgz"), ImagePatterns[3], |ext|)
  {
    var l := Lower(ext + "svgz");
    var i := |ext|;
    assert l[i..i + 3] == "svg";
  }

  /** `.woff2` fonts go to `assets/fonts`. */
  lemma Woff2IsFont(stem: string)
    ensures AssetDir(Extension(Some(stem + ".woff2"))) == "fonts"
  {
    assert stem + "." + "woff2" == stem + ".woff2";
    ExtensionAfterLastDot(stem, "woff2");
    LowerCaseLiteral("woff2");
    NotImageWithout("woff2");
    assert OccursAt("woff2", "woff", 0);
  }

  /** The font test is case-sensitive: `.WOFF` goes to a directory named `WOFF`. */
  lemma UpperCaseWoffIsNotFont(stem: string)
    ensures AssetDir(Extension(Some(stem + ".WOFF"))) == "WOFF"
  {
    assert stem + "." + "WOFF" == stem + ".WOFF";
    ExtensionAfterLastDot(stem, "WOFF");
    LowerCaseLiteral("WOFF");
    NotImageWithout("WOFF");
    AbsentChar("WOFF", "woff", 0);
  }

  /** An asset without a name goes to `assets/undefined`. */
  lemma MissingNameGoesToUndefined()
    ensures AssetDir(Extension(None)) == "undefined"
  {
    LowerCaseLiteral("undefined");
    NotImageWithout("undefined");
    AbsentChar("undefined", "woff", 0);
  }

  /** The three extensions above have none of the letters an image extension needs. */
  lemma LowerCaseLiteral(e: string)
    requires e == "undefined" || e == "woff2" || e == "WOFF"
    ensures forall i :: 0 <= i < |e| ==> LowerChar(e[i]) !in "pjsgtbc"
  {
    if e == "WOFF" {
      assert Lower(e) == "woff";
    } else {
      assert Lower(e) == e;
    }
  }

  /** `.PNG`, lower-cased, is `png`. */
  lemma UpperPng()
    ensures OccursAt(Lower("PNG"), ImagePatterns[0], 0)
  {
    assert Lower("PNG") == "png";
  }
}
