/** The general helpers of `action/src/utils.ts`. */
module Utils {
  import opened Options
  import opened Strings
  import Assoc
  import opened Json

  // ---------------------------------------------------------------- chunkArray

  function Flatten<T>(xss: seq<seq<T>>): seq<T>
  {
    if |xss| == 0 then [] else xss[0] + Flatten(xss[1..])
  }

  lemma {:induction false} FlattenAppend<T>(xss: seq<seq<T>>, ys: seq<T>)
    ensures Flatten(xss + [ys]) == Flatten(xss) + ys
  {
    if |xss| > 0 {
      assert (xss + [ys])[1..] == xss[1..] + [ys];
      FlattenAppend(xss[1..], ys);
    }
  }

  lemma MulSucc(c: nat, size: nat)
    ensures (c + 1) * size == c * size + size
  {
  }

  /** What the chunks cover after the loop index reached `i`. */
  ghost predicate ChunksUpTo<T>(a: seq<T>, chunks: seq<seq<T>>, i: nat, size: nat)
  {
    i == |chunks| * size &&
    (forall k :: 0 <= k < |chunks| ==> 1 <= |chunks[k]| <= size) &&
    (i <= |a| ==> Flatten(chunks) == a[..i] && forall k :: 0 <= k < |chunks| ==> |chunks[k]| == size) &&
    (i > |a| ==> Flatten(chunks) == a && |chunks| >= 1 && (|chunks| - 1) * size < |a| &&
                 forall k :: 0 <= k < |chunks| - 1 ==> |chunks[k]| == size)
  }

  /** One more slice `a[i..i + size]` (cut at the end of `a`) keeps the coverage. */
  lemma ChunksStep<T>(a: seq<T>, chunks: seq<seq<T>>, i: nat, size: nat)
    requires size >= 1 && i < |a| && ChunksUpTo(a, chunks, i, size)
    ensures var end := if i + size <= |a| then i + size else |a|;
      ChunksUpTo(a, chunks + [a[i..end]], i + size, size)
  {
    var end := if i + size <= |a| then i + size else |a|;
    var piece := a[i..end];
    FlattenAppend(chunks, piece);
    assert a[..end] == a[..i] + piece;
    MulSucc(|chunks|, size);
    if i + size > |a| {
      assert a[..end] == a;
    }
  }

  /**
   * `chunkArray(array, size)`: consecutive slices of `size` elements, the last
   * one possibly shorter. The source loops forever for `size` 0, so the model
   * asks for a positive size.
   */
  method ChunkArray<T>(a: seq<T>, size: nat) returns (chunks: seq<seq<T>>)
    requires size >= 1
    ensures Flatten(chunks) == a
    ensures forall k :: 0 <= k < |chunks| ==> 1 <= |chunks[k]| <= size
    ensures forall k :: 0 <= k < |chunks| - 1 ==> |chunks[k]| == size
    ensures |chunks| == 0 <==> |a| == 0
    ensures |a| > 0 ==> (|chunks| - 1) * size < |a| <= |chunks| * size
  {
    chunks := [];
    var i := 0;
    while i < |a|
      invariant ChunksUpTo(a, chunks, i, size)
    {
      var end := if i + size <= |a| then i + size else |a|;
      ChunksStep(a, chunks, i, size);
      chunks := chunks + [a[i..end]];
      i := i + size;
    }
    if |a| == 0 {
      assert chunks == [];
    } else if i == |a| {
      assert |chunks| >= 1 by { assert |chunks| * size == |a|; }
      MulSucc(|chunks| - 1, size);
      assert a[..i] == a;
    }
  }

  // ---------------------------------------------------------------- escapeRegex

  /** The characters `escapeRegex` escapes: `. * + ? ^ $ { } ( ) | [ ] \`. */
  predicate IsRegexSpecial(c: char)
  {
    c == '.' || c == '*' || c == '+' || c == '?' || c == '^' || c == '$' || c == '{' || c == '}'
    || c == '(' || c == ')' || c == '|' || c == '[' || c == ']' || c == '\\'
  }

  function CountSpecial(s: string): nat
  {
    if |s| == 0 then 0 else (if IsRegexSpecial(s[0]) then 1 else 0) + CountSpecial(s[1..])
  }

  /** `escapeRegex(str)`: a backslash before every special character. */
  function EscapeRegex(s: string): (r: string)
    ensures |r| == |s| + CountSpecial(s)
  {
    if |s| == 0 then ""
    else (if IsRegexSpecial(s[0]) then ['\\', s[0]] else [s[0]]) + EscapeRegex(s[1..])
  }

  /** Drops the backslash of every `\c` pair. */
  function RemoveEscapes(t: string): string
  {
    if |t| == 0 then ""
    else if t[0] == '\\' && |t| >= 2 then [t[1]] + RemoveEscapes(t[2..])
    else [t[0]] + RemoveEscapes(t[1..])
  }

  /** Removing the added backslashes gives the input back. */
  lemma {:induction false} EscapeRegexRoundTrip(s: string)
    ensures RemoveEscapes(EscapeRegex(s)) == s
  {
    if |s| > 0 {
      EscapeRegexRoundTrip(s[1..]);
      var tail := EscapeRegex(s[1..]);
      if IsRegexSpecial(s[0]) {
        assert EscapeRegex(s) == ['\\', s[0]] + tail;
        assert (['\\', s[0]] + tail)[2..] == tail;
      } else {
        assert EscapeRegex(s) == [s[0]] + tail;
        assert ([s[0]] + tail)[1..] == tail;
      }
      assert s == [s[0]] + s[1..];
    }
  }

  /** A string without special characters is returned unchanged. */
  lemma {:induction false} EscapeRegexPlain(s: string)
    requires forall i :: 0 <= i < |s| ==> !IsRegexSpecial(s[i])
    ensures EscapeRegex(s) == s
  {
    if |s| > 0 {
      EscapeRegexPlain(s[1..]);
      assert s == [s[0]] + s[1..];
    }
  }

  // ---------------------------------------------------------------- detectRepo

  predicate HasHttpScheme(s: string) { StartsWith(s, "http://") || StartsWith(s, "https://") }

  /** `detectRepo(repo)`: URLs pass through, `owner/repo` shorthands become GitHub URLs. */
  function DetectRepo(repo: string): (r: string)
    ensures HasHttpScheme(r)
    ensures HasHttpScheme(repo) ==> r == repo
    ensures !HasHttpScheme(repo) ==> r == "https://github.com/" + repo
  {
    if HasHttpScheme(repo) then repo else "https://github.com/" + repo
  }

  lemma DetectRepoIdempotent(repo: string)
    ensures DetectRepo(DetectRepo(repo)) == DetectRepo(repo)
  {
  }

  // ---------------------------------------------------------------- detectRepoName

  /** The longest prefix without `/` (the regular-expression group `[^/]+`, greedy). */
  function NonSlashRun(s: string): (r: string)
    ensures StartsWith(s, r) && '/' !in r
    ensures |r| == |s| || s[|r|] == '/'
  {
    if |s| > 0 && s[0] != '/' then [s[0]] + NonSlashRun(s[1..]) else ""
  }

  lemma {:induction false} NonSlashRunSplit(x: string, y: string)
    requires '/' !in x
    ensures NonSlashRun(x + "/" + y) == x
  {
    if |x| > 0 {
      assert (x + "/" + y)[1..] == x[1..] + "/" + y;
      NonSlashRunSplit(x[1..], y);
      assert x == [x[0]] + x[1..];
    }
  }

  /**
   * The tail `([^/]+)/([^/]+?)(?:\.git)?(?:\/.*)?$` of the GitHub pattern on `t`:
   * the owner is the first segment; the repository is the second segment with a
   * final `.git` removed when something is left; anything after it must be a
   * sub-path without line terminators.
   */
  function MatchOwnerRepo(t: string): Option<(string, string)>
  {
    var owner := NonSlashRun(t);
    if |owner| == 0 || |owner| == |t| then None
    else
      var u := t[|owner| + 1..];
      var seg := NonSlashRun(u);
      var rest := u[|seg|..];
      if |seg| == 0 || !NoLineTerminator(rest) then None
      else if |seg| >= 5 && EndsWith(seg, ".git") then Some((owner, seg[..|seg| - 4]))
      else Some((owner, seg))
  }

  /** The GitHub pattern tried at index `i` (`https?://github\.com/` then the tail). */
  function MatchGithubAt(s: string, i: nat): Option<(string, string)>
    requires i <= |s|
  {
    if StartsWith(s[i..], "https://github.com/") then MatchOwnerRepo(s[i + 19..])
    else if StartsWith(s[i..], "http://github.com/") then MatchOwnerRepo(s[i + 18..])
    else None
  }

  /** The leftmost match at or after `i` (the pattern is not anchored at the start). */
  function FindGithub(s: string, i: nat): Option<(string, string)>
    requires i <= |s|
    decreases |s| - i
  {
    var m := MatchGithubAt(s, i);
    if m.Some? then m else if i == |s| then None else FindGithub(s, i + 1)
  }

  /** `detectRepoName(repo)`: `owner/repo` for a GitHub URL, the input otherwise. */
  function DetectRepoName(repo: string): (r: string)
  {
    match FindGithub(repo, 0)
    case Some((owner, name)) => owner + "/" + name
    case None => repo
  }

  lemma HttpsGithub(t: string)
    requires MatchOwnerRepo(t).Some?
    ensures DetectRepoName("https://github.com/" + t) == MatchOwnerRepo(t).value.0 + "/" + MatchOwnerRepo(t).value.1
  {
    var s := "https://github.com/" + t;
    assert s[0..] == s;
    assert s[..19] == "https://github.com/";
    assert s[19..] == t;
  }

  lemma {:induction false} NonSlashRunAll(x: string)
    requires '/' !in x
    ensures NonSlashRun(x) == x
  {
    if |x| > 0 {
      NonSlashRunAll(x[1..]);
      assert x == [x[0]] + x[1..];
    }
  }

  lemma NotHttp(owner: string, name: string)
    requires '/' !in owner && '/' !in name
    ensures !HasHttpScheme(owner + "/" + name)
  {
    var s := owner + "/" + name;
    if |s| >= 7 {
      assert s[5] == '/' ==> 5 == |owner|;
      assert s[6] == '/' ==> 6 == |owner|;
    }
    if |s| >= 8 {
      assert s[6] == '/' ==> 6 == |owner|;
      assert s[7] == '/' ==> 7 == |owner|;
    }
  }

  /** Expanding a shorthand and extracting the name round-trips. */
  lemma DetectRepoNameOfShorthand(owner: string, name: string)
    requires |owner| > 0 && |name| > 0 && '/' !in owner && '/' !in name
    requires !EndsWith(name, ".git")
    ensures DetectRepoName(DetectRepo(owner + "/" + name)) == owner + "/" + name
  {
    var t := owner + "/" + name;
    NotHttp(owner, name);
    NonSlashRunSplit(owner, name);
    assert t[|owner| + 1..] == name;
    NonSlashRunAll(name);
    assert name[|name|..] == "";
    assert MatchOwnerRepo(t) == Some((owner, name));
    HttpsGithub(t);
  }

  /** A full GitHub URL with a `.git` suffix and a sub-path still yields `owner/repo`. */
  lemma DetectRepoNameOfCloneUrl(owner: string, name: string, sub: string)
    requires |owner| > 0 && |name| > 0 && '/' !in owner && '/' !in name && NoLineTerminator(sub)
    ensures DetectRepoName("https://github.com/" + (owner + "/" + (name + ".git" + "/" + sub))) == owner + "/" + name
  {
    var seg := name + ".git";
    assert '/' !in seg;
    SlashNoLineTerminator(sub);
    MatchOwnerRepoOf(owner, seg, sub);
    GitSuffixOf(name);
    HttpsGithub(owner + "/" + (seg + "/" + sub));
  }

  /** `owner/seg/sub` matches with the two slash-free segments, once `/sub` has no line break. */
  lemma MatchOwnerRepoOf(owner: string, seg: string, sub: string)
    requires |owner| > 0 && |seg| > 0 && '/' !in owner && '/' !in seg && NoLineTerminator("/" + sub)
    ensures MatchOwnerRepo(owner + "/" + (seg + "/" + sub))
      == Some((owner, if |seg| >= 5 && EndsWith(seg, ".git") then seg[..|seg| - 4] else seg))
  {
    var u := seg + "/" + sub;
    var t := owner + "/" + u;
    NonSlashRunSplit(owner, u);
    assert t[|owner| + 1..] == u;
    NonSlashRunSplit(seg, sub);
    assert u[|seg|..] == "/" + sub;
  }

  lemma SlashNoLineTerminator(sub: string)
    requires NoLineTerminator(sub)
    ensures NoLineTerminator("/" + sub)
  {
    var rest := "/" + sub;
    forall i | 0 <= i < |rest| ensures !IsLineTerminator(rest[i]) {
      if i > 0 { assert rest[i] == sub[i - 1]; }
    }
  }

  lemma GitSuffixOf(name: string)
    requires |name| > 0
    ensures var seg := name + ".git"; |seg| >= 5 && EndsWith(seg, ".git") && seg[..|seg| - 4] == name
  {
    var seg := name + ".git";
    assert seg[|seg| - 4..] == ".git";
    assert seg[..|seg| - 4] == name;
  }

  // ---------------------------------------------------------------- escapeHtml

  function EscapeHtmlChar(c: char): string
  {
    if c == '&' then "&amp;"
    else if c == '<' then "&lt;"
    else if c == '>' then "&gt;"
    else if c == '"' then "&quot;"
    else if c == '\'' then "&#39;"
    else [c]
  }

  /** `escapeHtml(text)`: the five characters become entities, in one pass. */
  function EscapeHtml(s: string): string
  {
    if |s| == 0 then "" else EscapeHtmlChar(s[0]) + EscapeHtml(s[1..])
  }

  /** Decodes the five entities in one left-to-right pass. */
  function UnescapeHtml(t: string): string
    decreases |t|
  {
    if |t| == 0 then ""
    else if StartsWith(t, "&amp;") then "&" + UnescapeHtml(t[5..])
    else if StartsWith(t, "&lt;") then "<" + UnescapeHtml(t[4..])
    else if StartsWith(t, "&gt;") then ">" + UnescapeHtml(t[4..])
    else if StartsWith(t, "&quot;") then "\"" + UnescapeHtml(t[6..])
    else if StartsWith(t, "&#39;") then "'" + UnescapeHtml(t[5..])
    else [t[0]] + UnescapeHtml(t[1..])
  }

  lemma UnescapeStep(c: char, tail: string)
    ensures UnescapeHtml(EscapeHtmlChar(c) + tail) == [c] + UnescapeHtml(tail)
  {
    if c == '&' {
      UnescapeAmp(tail);
    } else if c == '<' {
      UnescapeLt(tail);
    } else if c == '>' {
      UnescapeGt(tail);
    } else if c == '"' {
      UnescapeQuot(tail);
    } else if c == '\'' {
      UnescapeApos(tail);
    } else {
      UnescapePlain(c, tail);
    }
  }

  lemma UnescapeAmp(tail: string)
    ensures UnescapeHtml("&amp;" + tail) == "&" + UnescapeHtml(tail)
  {
    var t := "&amp;" + tail;
    assert t[..5] == "&amp;" && t[5..] == tail;
  }

  lemma UnescapeLt(tail: string)
    ensures UnescapeHtml("&lt;" + tail) == "<" + UnescapeHtml(tail)
  {
    var t := "&lt;" + tail;
    assert t[..4] == "&lt;" && t[4..] == tail;
    assert t[1] == 'l';
    assert |t| < 5 || t[..5][1] == 'l';
  }

  lemma UnescapeGt(tail: string)
    ensures UnescapeHtml("&gt;" + tail) == ">" + UnescapeHtml(tail)
  {
    var t := "&gt;" + tail;
    assert t[..4] == "&gt;" && t[4..] == tail;
    assert t[1] == 'g';
    assert |t| < 5 || t[..5][1] == 'g';
    assert t[..4][1] == 'g';
  }

  lemma UnescapeQuot(tail: string)
    ensures UnescapeHtml("&quot;" + tail) == "\"" + UnescapeHtml(tail)
  {
    var t := "&quot;" + tail;
    assert t[..6] == "&quot;" && t[6..] == tail;
    assert t[..5][1] == 'q' && t[..4][1] == 'q';
  }

  lemma UnescapeApos(tail: string)
    ensures UnescapeHtml("&#39;" + tail) == "'" + UnescapeHtml(tail)
  {
    var t := "&#39;" + tail;
    assert t[..5] == "&#39;" && t[5..] == tail;
    assert t[..5][1] == '#' && t[..4][1] == '#';
    assert |t| < 6 || t[..6][1] == '#';
  }

  lemma UnescapePlain(c: char, tail: string)
    requires c != '&'
    ensures UnescapeHtml([c] + tail) == [c] + UnescapeHtml(tail)
  {
    var t := [c] + tail;
    assert t[0] == c && t[1..] == tail;
  }

  /** Decoding the entities gives the text back. */
  lemma {:induction false} EscapeHtmlRoundTrip(s: string)
    ensures UnescapeHtml(EscapeHtml(s)) == s
  {
    if |s| > 0 {
      EscapeHtmlRoundTrip(s[1..]);
      UnescapeStep(s[0], EscapeHtml(s[1..]));
      assert s == [s[0]] + s[1..];
    }
  }

  /** No raw `<`, `>`, `"` or `'` is left. */
  lemma {:induction false} EscapeHtmlSafe(s: string)
    ensures forall i :: 0 <= i < |EscapeHtml(s)| ==> EscapeHtml(s)[i] !in "<>\"'"
  {
    if |s| > 0 {
      EscapeHtmlSafe(s[1..]);
      var e := EscapeHtmlChar(s[0]);
      var tail := EscapeHtml(s[1..]);
      forall i | 0 <= i < |e + tail| ensures (e + tail)[i] !in "<>\"'" {
        if i >= |e| { assert (e + tail)[i] == tail[i - |e|]; }
      }
    }
  }

  // ---------------------------------------------------------------- normalizeVersion

  /** `version.replace(/^v/, '')` */
  function NormalizeVersion(v: string): (r: string)
    ensures StartsWith(v, "v") ==> "v" + r == v
    ensures !StartsWith(v, "v") ==> r == v
  {
    if |v| > 0 && v[0] == 'v' then v[1..] else v
  }

  /** Normalising twice equals normalising once exactly when the input does not start with `vv`. */
  lemma NormalizeVersionIdempotence(v: string)
    ensures NormalizeVersion(NormalizeVersion(v)) == NormalizeVersion(v) <==> !StartsWith(v, "vv")
  {
    if StartsWith(v, "vv") {
      assert |NormalizeVersion(NormalizeVersion(v))| == |v| - 2;
    }
  }

  // ---------------------------------------------------------------- parseVersionLoose

  datatype LooseVersion = LooseVersion(major: string, minor: string, patch: string)

  /** The optional `(?:\.(\d+))?` group at the start of `s`: the digits and what follows them. */
  function DotDigits(s: string): Option<(string, string)>
  {
    if |s| >= 2 && s[0] == '.' && IsDigit(s[1]) then
      var d := DigitRun(s[1..]);
      Some((d, s[1 + |d|..]))
    else None
  }

  /**
   * `parseVersionLoose(version)` with `/v?\s*(\d+)(?:\.(\d+))?(?:\.(\d+))?/i`:
   * the optional `v` and blanks never change the captures, so the match is
   * decided by the first digit of the string.
   */
  function ParseVersionLoose(s: string): (r: Option<LooseVersion>)
    ensures r.Some? ==> |r.value.major| >= 1 && AllDigits(r.value.major) && (|r.value.major| > 1 ==> r.value.major[0] != '0')
    decreases |s|
  {
    if |s| == 0 then None
    else if !IsDigit(s[0]) then ParseVersionLoose(s[1..])
    else
      var major := DigitRun(s);
      var m2 := DotDigits(s[|major|..]);
      var m3 := if m2.Some? then DotDigits(m2.value.1) else None;
      Some(LooseVersion(
        NatToString(DigitsValue(major)),
        if m2.Some? then NatToString(DigitsValue(m2.value.0)) else "0",
        if m3.Some? then NatToString(DigitsValue(m3.value.0)) else "0"))
  }

  predicate HasDigit(s: string) { exists i :: 0 <= i < |s| && IsDigit(s[i]) }

  /** `parseVersionLoose` returns null exactly when there is no digit. */
  lemma {:induction false} ParseVersionLooseNull(s: string)
    ensures ParseVersionLoose(s).None? <==> !HasDigit(s)
    decreases |s|
  {
    if |s| > 0 && !IsDigit(s[0]) {
      ParseVersionLooseNull(s[1..]);
      assert HasDigit(s) <==> HasDigit(s[1..]) by {
        if HasDigit(s) {
          var i :| 0 <= i < |s| && IsDigit(s[i]);
          assert i > 0 && IsDigit(s[1..][i - 1]);
        }
        if HasDigit(s[1..]) {
          var i :| 0 <= i < |s[1..]| && IsDigit(s[1..][i]);
          assert IsDigit(s[i + 1]);
        }
      }
    } else if |s| > 0 {
      assert IsDigit(s[0]);
    }
  }

  lemma {:induction false} DigitRunConcat(x: string, y: string)
    requires AllDigits(x) && (|y| == 0 || !IsDigit(y[0]))
    ensures DigitRun(x + y) == x
  {
    if |x| > 0 {
      assert (x + y)[1..] == x[1..] + y;
      DigitRunConcat(x[1..], y);
      assert x == [x[0]] + x[1..];
    } else {
      assert x + y == y;
    }
  }

  lemma DotDigitsOf(x: string, y: string)
    requires |x| >= 1 && AllDigits(x) && (|y| == 0 || !IsDigit(y[0]))
    ensures DotDigits("." + x + y) == Some((x, y))
  {
    var s := "." + x + y;
    assert s[1..] == x + y;
    DigitRunConcat(x, y);
    assert s[1 + |x|..] == y;
  }

  /** A plain `a.b.c` version parses back to its three numbers. */
  lemma ParseVersionLooseOfTriple(a: nat, b: nat, c: nat)
    ensures ParseVersionLoose(NatToString(a) + ("." + NatToString(b) + ("." + NatToString(c) + "")))
         == Some(LooseVersion(NatToString(a), NatToString(b), NatToString(c)))
  {
    var sa, sb, sc := NatToString(a), NatToString(b), NatToString(c);
    var r2 := "." + sc + "";
    var r1 := "." + sb + r2;
    var s := sa + r1;
    DotDigitsOf(sc, "");
    DotDigitsOf(sb, r2);
    DigitRunConcat(sa, r1);
    assert s[|sa|..] == r1;
    assert IsDigit(s[0]);
    DigitsValueOfNatToString(a);
    DigitsValueOfNatToString(b);
    DigitsValueOfNatToString(c);
  }

  // ---------------------------------------------------------------- get / set / pick / omit

  /**
   * A string path `"a.b.0"` split on `.`; a segment `Number()` accepts becomes
   * a number, i.e. the property name of its value (`"01"` and `""` become
   * `"1"` and `"0"`). Only digit-only segments are treated as numeric.
   */
  function PathKeys(path: string): (r: seq<string>)
    ensures |r| == |Split(path, '.')|
  {
    var segs := Split(path, '.');
    seq(|segs|, i requires 0 <= i < |segs| => if AllDigits(segs[i]) then NatToString(DigitsValue(segs[i])) else segs[i])
  }

  /** The value `get` computes: the walk stops with the default at `null` or `undefined`. */
  function GetSpec(v: Value, keys: seq<string>, default: Value): Value
    decreases |keys|
  {
    if |keys| == 0 then (if v == Undefined then default else v)
    else if v == Undefined || v == Null then default
    else GetSpec(Lookup(v, keys[0]), keys[1..], default)
  }

  /** `get(object, path, defaultValue)`, walking with a mutable `result`. */
  method Get(obj: Value, keys: seq<string>, default: Value) returns (r: Value)
    ensures r == GetSpec(obj, keys, default)
  {
    var result := obj;
    var i := 0;
    while i < |keys|
      invariant 0 <= i <= |keys|
      invariant GetSpec(result, keys[i..], default) == GetSpec(obj, keys, default)
    {
      if result == Undefined || result == Null {
        return default;
      }
      assert keys[i..][1..] == keys[i + 1..];
      result := Lookup(result, keys[i]);
      i := i + 1;
    }
    r := if result != Undefined then result else default;
  }

  /** `get` returns the default once it reaches `null` or `undefined` before the end of the path. */
  lemma GetStopsAtNullish(v: Value, keys: seq<string>, default: Value)
    requires |keys| > 0 && (v == Null || v == Undefined)
    ensures GetSpec(v, keys, default) == default
  {
  }

  datatype SetOutcome = Updated(value: Value) | Throws | Unsupported

  /**
   * `set(object, path, value)` as a new value: a missing (`undefined`) step
   * becomes `{}`, the last key receives `value`. Writing through `null` or a
   * primitive throws (ES modules are strict). Array elements are written by
   * index, holes reading as `undefined`; other keys on arrays are not
   * modelled.
   */
  function SetSpec(acc: Value, keys: seq<string>, value: Value): SetOutcome
    requires |keys| > 0
    decreases |keys|
  {
    var k := keys[0];
    var cur := Lookup(acc, k);
    var next :=
      if |keys| == 1 then Updated(value)
      else SetSpec(if cur == Undefined then Obj([]) else cur, keys[1..], value);
    if !next.Updated? then next
    else match acc
      case Obj(f) => Updated(Obj(Assoc.Put(f, k, next.value)))
      case Arr(items) =>
        if !IsIndexName(k) then Unsupported
        else
          var n := DigitsValue(k);
          if n < |items| then Updated(Arr(items[n := next.value]))
          else Updated(Arr(items + seq(n - |items|, _ => Undefined) + [next.value]))
      case _ => Throws
  }

  /** A path whose intermediate steps are objects or absent. */
  predicate ObjectPath(v: Value, keys: seq<string>)
    decreases |keys|
  {
    v.Obj? && (|keys| <= 1 || (var c := Lookup(v, keys[0]); (c == Undefined || c.Obj?) && ObjectPath(if c == Undefined then Obj([]) else c, keys[1..])))
  }

  /** Reading a path back after writing it returns the written value (or the default for `undefined`). */
  lemma {:induction false} GetAfterSet(v: Value, keys: seq<string>, value: Value, default: Value)
    requires |keys| > 0 && ObjectPath(v, keys)
    ensures SetSpec(v, keys, value).Updated?
    ensures GetSpec(SetSpec(v, keys, value).value, keys, default) == if value == Undefined then default else value
    decreases |keys|
  {
    var k := keys[0];
    var f := v.fields;
    var cur := Lookup(v, k);
    if |keys| == 1 {
      Assoc.PutGet(f, k, value, k);
      assert Lookup(Obj(Assoc.Put(f, k, value)), k) == value;
    } else {
      var c := if cur == Undefined then Obj([]) else cur;
      GetAfterSet(c, keys[1..], value, default);
      var c' := SetSpec(c, keys[1..], value).value;
      SetKeepsObject(c, keys[1..], value);
      SetSpecObjStep(v, keys, value, c);
      GetSpecPutStep(f, keys, c', default);
    }
  }

  /** Writing below an object key puts the rewritten child under that key. */
  lemma SetSpecObjStep(v: Value, keys: seq<string>, value: Value, c: Value)
    requires |keys| > 1 && v.Obj?
    requires c == if Lookup(v, keys[0]) == Undefined then Obj([]) else Lookup(v, keys[0])
    requires SetSpec(c, keys[1..], value).Updated?
    ensures SetSpec(v, keys, value) == Updated(Obj(Assoc.Put(v.fields, keys[0], SetSpec(c, keys[1..], value).value)))
  {
  }

  /** Reading through the key just put continues in the value put there. */
  lemma GetSpecPutStep(f: seq<(string, Value)>, keys: seq<string>, c: Value, default: Value)
    requires |keys| > 0
    ensures GetSpec(Obj(Assoc.Put(f, keys[0], c)), keys, default) == GetSpec(c, keys[1..], default)
  {
    Assoc.PutGet(f, keys[0], c, keys[0]);
  }

  lemma {:induction false} SetKeepsObject(v: Value, keys: seq<string>, value: Value)
    requires |keys| > 0 && v.Obj? && SetSpec(v, keys, value).Updated?
    ensures SetSpec(v, keys, value).value.Obj?
  {
  }

  /** `pick(data, keys)`: a fresh record with every listed key, `undefined` when absent. */
  method Pick(data: seq<(string, Value)>, keys: seq<string>) returns (result: seq<(string, Value)>)
    ensures forall k :: Assoc.Get(result, k) == if k in keys then Some(Lookup(Obj(data), k)) else None
  {
    result := [];
    var i := 0;
    while i < |keys|
      invariant 0 <= i <= |keys|
      invariant forall k :: Assoc.Get(result, k) == if k in keys[..i] then Some(Lookup(Obj(data), k)) else None
    {
      var key := keys[i];
      var v := Lookup(Obj(data), key);
      forall k ensures Assoc.Get(Assoc.Put(result, key, v), k) == if k == key then Some(v) else Assoc.Get(result, k) {
        Assoc.PutGet(result, key, v, k);
      }
      assert keys[..i + 1] == keys[..i] + [key];
      result := Assoc.Put(result, key, v);
      i := i + 1;
    }
    assert keys[..i] == keys;
  }

  function Remove(m: seq<(string, Value)>, k: string): (r: seq<(string, Value)>)
    ensures forall k' :: Assoc.Get(r, k') == if k' == k then None else Assoc.Get(m, k')
  {
    if |m| == 0 then []
    else if m[0].0 == k then Remove(m[1..], k)
    else [m[0]] + Remove(m[1..], k)
  }

  /** `omit(data, keys)`: a shallow copy without the listed keys. */
  method Omit(data: seq<(string, Value)>, keys: seq<string>) returns (result: seq<(string, Value)>)
    ensures forall k :: Assoc.Get(result, k) == if k in keys then None else Assoc.Get(data, k)
  {
    result := data;
    var i := 0;
    while i < |keys|
      invariant 0 <= i <= |keys|
      invariant forall k :: Assoc.Get(result, k) == if k in keys[..i] then None else Assoc.Get(data, k)
    {
      assert keys[..i + 1] == keys[..i] + [keys[i]];
      result := Remove(result, keys[i]);
      i := i + 1;
    }
    assert keys[..i] == keys;
  }
}
