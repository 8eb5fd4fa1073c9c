/**
 * The extension validator of the upload route: the fixed allow-sets, the
 * lower-casing of an extension, the "text after the last dot" split and the
 * `allowed_file` predicate built from them.
 */
module FileTypes {
  import opened Wrappers

  /** The extensions an upload may carry, compared after lower-casing. */
  const AllowedExtensions: set<string> := {"pdf", "png", "jpg", "jpeg", "gif"}

  /** The declared MIME types an upload may carry, compared exactly. */
  const AllowedMimeTypes: set<string> := {"application/pdf", "image/png", "image/jpeg", "image/gif"}

  predicate IsUpper(c: char) {
    'A' <= c <= 'Z'
  }

  /** ASCII case mapping of one character, as Python's `str.lower` does on ASCII text. */
  function LowerChar(c: char): (d: char)
    ensures !IsUpper(d)
    ensures d == '.' <==> c == '.'
    ensures !IsUpper(c) ==> d == c
  {
    if IsUpper(c) then (c as int + ('a' as int - 'A' as int)) as char else c
  }

  /** `s.lower()` on an ASCII string. */
  function Lower(s: string): (r: string)
    ensures |r| == |s|
    ensures forall i :: 0 <= i < |r| ==> !IsUpper(r[i])
    ensures '.' in r <==> '.' in s
  {
    var r := seq(|s|, i requires 0 <= i < |s| => LowerChar(s[i]));
    assert forall i :: 0 <= i < |s| ==> r[i] == LowerChar(s[i]);
    assert '.' in r ==> '.' in s by {
      if '.' in r {
        var k :| 0 <= k < |r| && r[k] == '.';
        assert s[k] == '.';
      }
    }
    r
  }

  lemma LowerAt(s: string, i: nat)
    requires i < |s|
    ensures Lower(s)[i] == LowerChar(s[i])
  {
  }

  /** Lower-casing commutes with concatenation. */
  lemma LowerAppend(a: string, b: string)
    ensures Lower(a + b) == Lower(a) + Lower(b)
  {
    var l, r := Lower(a + b), Lower(a) + Lower(b);
    assert |l| == |r|;
    forall i | 0 <= i < |l| ensures l[i] == r[i] {
      LowerAt(a + b, i);
      if i < |a| { LowerAt(a, i); } else { LowerAt(b, i - |a|); }
    }
  }

  /** Lower-casing twice is lower-casing once. */
  lemma LowerIdempotent(s: string)
    ensures Lower(Lower(s)) == Lower(s)
  {
    var l := Lower(s);
    forall i | 0 <= i < |l| ensures Lower(l)[i] == l[i] {
      LowerAt(l, i);
    }
  }

  /** Index of the last '.' in `s`, if there is one. */
  function LastDot(s: string): (r: Option<nat>)
    ensures r.None? <==> '.' !in s
    ensures r.Some? ==> r.value < |s| && s[r.value] == '.' && '.' !in s[r.value + 1..]
  {
    if |s| == 0 then None
    else if s[|s| - 1] == '.' then Some(|s| - 1)
    else
      var r := LastDot(s[..|s| - 1]);
      assert s == s[..|s| - 1] + [s[|s| - 1]];
      if r.Some? then
        assert s[r.value + 1..] == s[..|s| - 1][r.value + 1..] + [s[|s| - 1]];
        r
      else r
  }

  /** `s.rsplit('.', 1)[1]`: the text after the last '.', absent when `s` has no '.'. */
  function Extension(s: string): (r: Option<string>)
    ensures r.Some? <==> '.' in s
    ensures r.Some? ==>
      && '.' !in r.value
      && |r.value| < |s|
      && s[|s| - |r.value| - 1] == '.'
      && s[|s| - |r.value|..] == r.value
  {
    match LastDot(s)
    case None => None
    case Some(k) => Some(s[k + 1..])
  }

  /** The text after the last '.' of `p + "." + e` is `e`, whenever `e` has no '.'. */
  lemma ExtensionOfJoin(p: string, e: string)
    requires '.' !in e
    ensures Extension(p + "." + e) == Some(e)
  {
    var s := p + "." + e;
    assert s[|p|] == '.';
    assert s[|p| + 1..] == e;
  }

  /**
   * `allowed_file`: there is a '.', and the lower-cased text after the last
   * one is allowed; an accepted name's extension has three or four characters.
   */
  predicate AllowedFile(filename: string)
    ensures AllowedFile(filename) ==>
      Extension(filename).Some? && 3 <= |Extension(filename).value| <= 4
  {
    '.' in filename && Lower(Extension(filename).value) in AllowedExtensions
  }

  /**
   * `mimetype in ALLOWED_MIME_TYPES`: an exact, case-sensitive membership
   * test. Every allowed type is a lower-case `type/subtype` pair.
   */
  predicate AllowedMime(mimetype: string)
    ensures AllowedMime(mimetype) ==> '/' in mimetype
    ensures AllowedMime(mimetype) ==> forall i :: 0 <= i < |mimetype| ==> !IsUpper(mimetype[i])
  {
    mimetype in AllowedMimeTypes
  }

  /**
   * Every accepted name has a last-dot split, and its extension is allowed:
   * `p + "." + e` (with no '.' in `e`) is accepted exactly when `Lower(e)` is
   * in the allow-set.
   */
  lemma AllowedFileSplit(p: string, e: string)
    requires '.' !in e
    ensures AllowedFile(p + "." + e) <==> Lower(e) in AllowedExtensions
  {
    ExtensionOfJoin(p, e);
  }

  /** A name without a '.' is rejected. */
  lemma NoDotRejected(filename: string)
    requires '.' !in filename
    ensures !AllowedFile(filename)
  {
  }

  /** A name ending in '.' is rejected: its extension is empty. */
  lemma TrailingDotRejected(p: string)
    ensures !AllowedFile(p + ".")
  {
    AllowedFileSplit(p, "");
    assert p + "." + "" == p + ".";
  }

  /** The extension of a lower-cased name is the lower-cased extension. */
  lemma ExtensionOfLower(s: string)
    ensures Extension(Lower(s)).Some? <==> Extension(s).Some?
    ensures Extension(s).Some? ==> Extension(Lower(s)) == Some(Lower(Extension(s).value))
  {
    if '.' in s {
      var e := Extension(s).value;
      var p := s[..|s| - |e| - 1];
      assert s == p + "." + e;
      LowerAppend(p + ".", e);
      LowerAppend(p, ".");
      assert Lower(".") == ".";
      ExtensionOfJoin(Lower(p), Lower(e));
    }
  }

  /** Case does not matter: names that agree after lower-casing are accepted alike. */
  lemma AllowedFileCaseInsensitive(f: string, g: string)
    requires Lower(f) == Lower(g)
    ensures AllowedFile(f) <==> AllowedFile(g)
  {
    ExtensionOfLower(f);
    ExtensionOfLower(g);
  }

  /**
   * Verdicts on example names, whatever precedes the last
   * '.': `.pdf`, `.PNG` and `.jpg` pass (so `report.pdf`, `photo.PNG` and
   * `evil.exe.jpg` do), `.exe` fails (so `malware.exe` and `photo.png.exe` do).
   */
  lemma ExtensionExamples(p: string, e: string)
    requires e in {"pdf", "PNG", "jpg", "exe"}
    ensures AllowedFile(p + "." + e) <==> e != "exe"
  {
    AllowedFileSplit(p, e);
    if e == "pdf" {
      assert Lower(e) == "pdf";
    } else if e == "PNG" {
      assert Lower(e) == "png";
    } else if e == "jpg" {
      assert Lower(e) == "jpg";
    } else {
      assert Lower(e) == "exe";
    }
  }

  /**
   * Membership in the MIME allow-set is exact: `image/png` is in it, while a
   * differently cased string and a shell-script type are not.
   */
  lemma MimeExamples()
    ensures AllowedMime("image/png")
    ensures !AllowedMime("IMAGE/PNG")
    ensures !AllowedMime("application/x-sh")
  {
  }
}
