/**
 * `action/src/manifest.ts`: the script that lists every build context (a
 * directory holding a `meta.json` that is not skipped) and writes that list
 * between the `# ContextStart` and `# ContextEnd` markers of three workflow
 * files. The glob and the file system are parameters: `metaFiles` is what the
 * glob found, `readMeta` and `readText` are `readJson` and `readFile`, and the
 * writes are returned in the order they are issued.
 */
module Manifest {
  import opened Options
  import opened Strings
  import J = Json
  import Sorting
  import Lists
  import CheckVersion

  // ------------------------------------------------------------------ default sort order

  /** The order `sort()` without a comparator puts strings in: character by character, a prefix first. */
  predicate TextLeq(a: string, b: string)
    decreases |a|
  {
    |a| == 0 || (|b| > 0 && (a[0] < b[0] || (a[0] == b[0] && TextLeq(a[1..], b[1..]))))
  }

  lemma {:induction false} TextLeqTotal(a: string, b: string)
    ensures TextLeq(a, b) || TextLeq(b, a)
    decreases |a|
  {
    if |a| > 0 && |b| > 0 && a[0] == b[0] {
      TextLeqTotal(a[1..], b[1..]);
    }
  }

  lemma {:induction false} TextLeqTransitive(a: string, b: string, c: string)
    requires TextLeq(a, b) && TextLeq(b, c)
    ensures TextLeq(a, c)
    decreases |a|
  {
    if |a| > 0 && a[0] == b[0] && b[0] == c[0] {
      TextLeqTransitive(a[1..], b[1..], c[1..]);
    }
  }

  lemma {:induction false} TextLeqAntisymmetric(a: string, b: string)
    requires TextLeq(a, b) && TextLeq(b, a)
    ensures a == b
    decreases |a|
  {
    if |a| > 0 {
      TextLeqAntisymmetric(a[1..], b[1..]);
      assert a == [a[0]] + a[1..] && b == [b[0]] + b[1..];
    }
  }

  /** The default order is a total order, so a sorted arrangement is unique. */
  lemma TextOrder()
    ensures Sorting.TotalPreorder(TextLeq) && Sorting.Antisymmetric(TextLeq)
  {
    forall a, b ensures TextLeq(a, b) || TextLeq(b, a) {
      TextLeqTotal(a, b);
    }
    forall a, b, c | TextLeq(a, b) && TextLeq(b, c) ensures TextLeq(a, c) {
      TextLeqTransitive(a, b, c);
    }
    forall a, b | TextLeq(a, b) && TextLeq(b, a) ensures a == b {
      TextLeqAntisymmetric(a, b);
    }
  }

  /** `a.sort()` on a string array: `a` is rearranged in place into the default order. */
  method SortStrings(a: array<string>)
    modifies a
    ensures a[..] == Sorting.Sort(old(a[..]), TextLeq)
  {
    TextOrder();
    Sorting.SortInPlace(a, TextLeq);
    Sorting.SortedIsSort(old(a[..]), a[..], TextLeq);
  }

  // ------------------------------------------------------------------ getContextList

  /** `!app?.skip` fails: the meta was read and its `skip` is truthy. An unreadable meta spreads as `{}` and stays. */
  predicate Skipped(content: Option<J.Value>)
  {
    content.Some? && J.Truthy(J.Lookup(content.value, "skip"))
  }

  function Kept(readMeta: string -> Option<J.Value>): string -> bool
  {
    f => !Skipped(readMeta(f))
  }

  /** `path.dirname` of each path. */
  function Dirnames(files: seq<string>): (r: seq<string>)
    ensures |r| == |files| && forall i :: 0 <= i < |files| ==> r[i] == Dirname(files[i])
  {
    if |files| == 0 then [] else Dirnames(files[..|files| - 1]) + [Dirname(files[|files| - 1])]
  }

  /** The contexts of the kept metas, in the order of `files`. */
  function Contexts(files: seq<string>, readMeta: string -> Option<J.Value>): seq<string>
  {
    Dirnames(Lists.Filter(files, Kept(readMeta)))
  }

  /** A context is listed exactly when some meta file in that directory is not skipped. */
  lemma ContextsMembers(files: seq<string>, readMeta: string -> Option<J.Value>, c: string)
    ensures c in Contexts(files, readMeta) <==>
      exists f :: f in files && !Skipped(readMeta(f)) && Dirname(f) == c
  {
    var kept := Lists.Filter(files, Kept(readMeta));
    if c in Contexts(files, readMeta) {
      var i :| 0 <= i < |kept| && Dirname(kept[i]) == c;
      assert kept[i] in kept;
    }
    if exists f :: f in files && !Skipped(readMeta(f)) && Dirname(f) == c {
      var f :| f in files && !Skipped(readMeta(f)) && Dirname(f) == c;
      assert Kept(readMeta)(f);
      var i :| 0 <= i < |kept| && kept[i] == f;
      assert Contexts(files, readMeta)[i] == c;
    }
  }

  /** The meta file of each directory. */
  function MetaPaths(dirs: seq<string>): (r: seq<string>)
    ensures |r| == |dirs| && forall i :: 0 <= i < |dirs| ==> r[i] == dirs[i] + "/meta.json"
  {
    if |dirs| == 0 then [] else MetaPaths(dirs[..|dirs| - 1]) + [dirs[|dirs| - 1] + "/meta.json"]
  }

  /** The directories whose meta file is not skipped. */
  function DirKept(readMeta: string -> Option<J.Value>): string -> bool
  {
    d => !Skipped(readMeta(d + "/meta.json"))
  }

  lemma ContextsSnoc(files: seq<string>, f: string, readMeta: string -> Option<J.Value>)
    ensures Contexts(files + [f], readMeta)
         == Contexts(files, readMeta) + (if Kept(readMeta)(f) then [Dirname(f)] else [])
  {
    Lists.FilterSnoc(files, f, Kept(readMeta));
    if Kept(readMeta)(f) {
      DirnamesSnoc(Lists.Filter(files, Kept(readMeta)), f);
    } else {
      assert Lists.Filter(files, Kept(readMeta)) + [] == Lists.Filter(files, Kept(readMeta));
    }
  }

  /** Listing the metas of directories `dirs`, in that order, gives the directories whose meta is kept. */
  lemma {:induction false} ContextsOfDirectories(dirs: seq<string>, readMeta: string -> Option<J.Value>)
    requires forall i :: 0 <= i < |dirs| ==> dirs[i] != ""
    ensures Contexts(MetaPaths(dirs), readMeta) == Lists.Filter(dirs, DirKept(readMeta))
  {
    if |dirs| > 0 {
      var front, d := dirs[..|dirs| - 1], dirs[|dirs| - 1];
      ContextsOfDirectories(front, readMeta);
      assert MetaPaths(dirs) == MetaPaths(front) + [d + "/meta.json"];
      ContextsSnoc(MetaPaths(front), d + "/meta.json", readMeta);
      assert dirs == front + [d];
      Lists.FilterSnoc(front, d, DirKept(readMeta));
      CheckVersion.DirnameOfMetaFile(d);
      assert Kept(readMeta)(d + "/meta.json") == DirKept(readMeta)(d);
    }
  }

  lemma DirnamesSnoc(files: seq<string>, f: string)
    ensures Dirnames(files + [f]) == Dirnames(files) + [Dirname(f)]
  {
    assert (files + [f])[..|files|] == files;
  }

  /** `getContextList()`: the meta paths are sorted in place, then the kept metas give their directories. */
  method GetContextList(metaFiles: array<string>, readMeta: string -> Option<J.Value>) returns (contexts: seq<string>)
    modifies metaFiles
    ensures metaFiles[..] == Sorting.Sort(old(metaFiles[..]), TextLeq)
    ensures contexts == Contexts(metaFiles[..], readMeta)
  {
    SortStrings(metaFiles);
    contexts := Contexts(metaFiles[..], readMeta);
  }

  // ------------------------------------------------------------------ updateCiContextOption

  /** The indentation of the list items in the workflow files: ten spaces. */
  const Indent := "          "
  const StartMarker := "# ContextStart"
  const EndMarker := "# ContextEnd"

  const Workflows := [".github/workflows/check-version.yaml", ".github/workflows/build-image.yaml", ".github/workflows/build-test.yaml"]

  /** One YAML list item. */
  function ContextLine(c: string): string
  {
    Indent + "- " + c
  }

  function ContextLines(list: seq<string>): (r: seq<string>)
    ensures |r| == |list| && forall i :: 0 <= i < |list| ==> r[i] == ContextLine(list[i])
  {
    if |list| == 0 then [] else [ContextLine(list[0])] + ContextLines(list[1..])
  }

  /** The text written between the markers. */
  function ContextText(list: seq<string>): string
  {
    Join(ContextLines(list), "\n")
  }

  /** An item's fixed head holds no line break and can be cut off again. */
  lemma ContextLineParts(c: string)
    ensures '\n' !in c ==> '\n' !in ContextLine(c)
    ensures ContextLine(c)[|Indent| + 2..] == c
  {
    var head := Indent + "- ";
    assert |head| == |Indent| + 2 && '\n' !in head;
    assert ContextLine(c) == head + c;
  }

  /** Splitting the text at line breaks gives one item per context, and each item gives back its context. */
  lemma ContextTextLines(list: seq<string>)
    requires |list| >= 1
    requires forall i :: 0 <= i < |list| ==> '\n' !in list[i]
    ensures Split(ContextText(list), '\n') == ContextLines(list)
    ensures forall i :: 0 <= i < |list| ==> ContextLines(list)[i][|Indent| + 2..] == list[i]
  {
    var lines := ContextLines(list);
    forall k | 0 <= k < |lines| ensures '\n' !in lines[k] && lines[k][|Indent| + 2..] == list[k] {
      ContextLineParts(list[k]);
    }
    SplitJoin(lines, '\n');
  }

  // The expression `(p)[\s\S]*(q)` without the `g` flag matches from the first `p` that
  // has a `q` after it, which is the first `p` of all, to the last `q` after it.

  /** `[s, e + |q|)` is the span `(p)[\s\S]*(q)` matches: the first `p`, and the last `q` after it. */
  ghost predicate SpanOf(c: string, p: string, q: string, s: nat, e: nat)
  {
    OccursAt(c, p, s) && OccursAt(c, q, e) && s + |p| <= e
    && (forall j: nat :: j < s ==> !OccursAt(c, p, j))
    && (forall j: nat :: e < j ==> !OccursAt(c, q, j))
  }

  /** `c.replace(/(p)[\s\S]*(q)/, rep)` with a replacement free of `$` patterns. */
  function ReplaceSpan(c: string, p: string, q: string, rep: string): string
    requires |p| > 0 && |q| > 0
  {
    match FindFrom(c, p, 0)
    case None => c
    case Some(s) =>
      match LastFrom(c, q, s + |p|)
      case None => c
      case Some(e) => c[..s] + rep + c[e + |q|..]
  }

  lemma ReplaceSpanAt(c: string, p: string, q: string, rep: string, s: nat, e: nat)
    requires |p| > 0 && |q| > 0 && SpanOf(c, p, q, s, e)
    ensures ReplaceSpan(c, p, q, rep) == c[..s] + rep + c[e + |q|..]
  {
    assert FindFrom(c, p, 0) == Some(s);
    assert LastFrom(c, q, s + |p|) == Some(e);
  }

  /** The first character of each marker occurs nowhere else in it. */
  predicate HeadUnique(p: string)
  {
    |p| > 0 && forall k :: 0 < k < |p| ==> p[k] != p[0]
  }

  /** An occurrence of a `HeadUnique` pattern cannot start before and span a position holding its first character. */
  lemma NoOccurrenceAcross(u: string, p: string, i: nat, j: nat)
    requires HeadUnique(p) && i < |u| && u[i] == p[0] && j < i < j + |p|
    ensures !OccursAt(u, p, j)
  {
    if j + |p| <= |u| {
      assert u[j..j + |p|][i - j] == u[i];
    }
  }

  /** Text put after `c[..s]` that starts with `p`'s first character creates no occurrence of `p` before `s`. */
  lemma NoEarlier(c: string, p: string, s: nat, rest: string, j: nat)
    requires HeadUnique(p) && s <= |c| && j < s && !OccursAt(c, p, j)
    requires |rest| > 0 && rest[0] == p[0]
    ensures !OccursAt(c[..s] + rest, p, j)
  {
    var r := c[..s] + rest;
    if j + |p| <= s {
      assert r[j..j + |p|] == c[j..j + |p|];
    } else {
      assert r[s] == p[0];
      NoOccurrenceAcross(r, p, s, j);
    }
  }

  /** Text ending with `p` at `q` put before `c[e + |p|..]` creates no occurrence of `p` after `q` that `c` lacks after `e`. */
  lemma NoLater(c: string, p: string, e: nat, head: string, q: nat, j: nat)
    requires HeadUnique(p) && e + |p| <= |c| && |head| == q + |p| && head[q..] == p
    requires q < j && !OccursAt(c, p, e + (j - q))
    ensures !OccursAt(head + c[e + |p|..], p, j)
  {
    var r := head + c[e + |p|..];
    if j + |p| <= |r| {
      if j < q + |p| {
        assert r[j] == head[q..][j - q];
        assert r[j..j + |p|][0] == r[j];
      } else {
        assert r[j..j + |p|] == c[e + (j - q)..e + (j - q) + |p|];
      }
    }
  }

  /** After the span is replaced by `p + mid + q`, the span matched is exactly that replacement. */
  lemma ReplacedSpan(c: string, p: string, q: string, mid: string, s: nat, e: nat)
    requires HeadUnique(p) && HeadUnique(q) && SpanOf(c, p, q, s, e)
    ensures SpanOf(c[..s] + (p + mid + q) + c[e + |q|..], p, q, s, s + |p| + |mid|)
  {
    var pre, b, post := c[..s], p + mid + q, c[e + |q|..];
    var r := pre + b + post;
    var t := s + |p| + |mid|;
    assert r == pre + (b + post) && r == (pre + b) + post;
    assert r[s..s + |p|] == p;
    assert (pre + b)[t..] == q;
    assert r[t..t + |q|] == q;
    forall j: nat | j < s ensures !OccursAt(r, p, j) {
      NoEarlier(c, p, s, b + post, j);
    }
    forall j: nat | t < j ensures !OccursAt(r, q, j) {
      NoLater(c, q, e, pre + b, t, j);
    }
  }

  /** Replacing the span twice, by `p + x + q` and then by `p + y + q`, is replacing it once by the second. */
  lemma ReplaceSpanTwice(c: string, p: string, q: string, x: string, y: string)
    requires HeadUnique(p) && HeadUnique(q)
    ensures ReplaceSpan(ReplaceSpan(c, p, q, p + x + q), p, q, p + y + q) == ReplaceSpan(c, p, q, p + y + q)
  {
    var first := FindFrom(c, p, 0);
    if first.Some? {
      var s := first.value;
      var last := LastFrom(c, q, s + |p|);
      if last.Some? {
        var e := last.value;
        assert SpanOf(c, p, q, s, e);
        ReplaceSpanAgain(c, p, q, x, y, s, e);
      }
    }
  }

  lemma ReplaceSpanAgain(c: string, p: string, q: string, x: string, y: string, s: nat, e: nat)
    requires HeadUnique(p) && HeadUnique(q) && SpanOf(c, p, q, s, e)
    ensures ReplaceSpan(ReplaceSpan(c, p, q, p + x + q), p, q, p + y + q) == ReplaceSpan(c, p, q, p + y + q)
  {
    var pre, post := c[..s], c[e + |q|..];
    ReplaceSpanAt(c, p, q, p + x + q, s, e);
    ReplaceSpanAt(c, p, q, p + y + q, s, e);
    ReplacedSpan(c, p, q, x, s, e);
    var r := pre + (p + x + q) + post;
    ReplaceSpanAt(r, p, q, p + y + q, s, s + |p| + |x|);
    PartsOf(pre, p + x + q, post);
  }

  lemma PartsOf(pre: string, mid: string, post: string)
    ensures (pre + mid + post)[..|pre|] == pre
    ensures (pre + mid + post)[|pre| + |mid|..] == post
  {
  }

  /** What the regular expression's match is replaced with: the two markers around the list. */
  function Block(text: string): string
  {
    StartMarker + "\n" + text + "\n" + Indent + EndMarker
  }

  /** The workflow text rewritten with the list text `text`. */
  function Rewrite(content: string, text: string): string
  {
    ReplaceSpan(content, StartMarker, EndMarker, Block(text))
  }

  /** `[s, e + |EndMarker|)` is the span the expression matches: the first start marker to the last end marker after it. */
  ghost predicate Span(content: string, s: nat, e: nat)
  {
    SpanOf(content, StartMarker, EndMarker, s, e)
  }

  lemma MarkersHeadUnique()
    ensures HeadUnique(StartMarker) && HeadUnique(EndMarker)
    ensures forall text :: Block(text) == StartMarker + ("\n" + text + "\n" + Indent) + EndMarker
  {
  }

  /** The matched span is replaced by the two markers around the list; the text before and after it is kept. */
  lemma RewriteReplacesSpan(content: string, text: string, s: nat, e: nat)
    requires Span(content, s, e)
    ensures Rewrite(content, text) == content[..s] + Block(text) + content[e + |EndMarker|..]
  {
    ReplaceSpanAt(content, StartMarker, EndMarker, Block(text), s, e);
  }

  /** A start marker followed by an end marker means the expression matches, on a span around both. */
  lemma SpanAround(content: string, i: nat, j: nat)
    requires OccursAt(content, StartMarker, i) && OccursAt(content, EndMarker, j) && i + |StartMarker| <= j
    ensures exists s: nat, e: nat :: s <= i && j <= e && Span(content, s, e)
  {
    var s := FindFrom(content, StartMarker, 0).value;
    var e := LastFrom(content, EndMarker, s + |StartMarker|).value;
    assert Span(content, s, e);
  }

  /** Without a start marker followed by an end marker the file is left as it is. */
  lemma RewriteUnmatched(content: string, text: string)
    requires forall i: nat, j: nat :: OccursAt(content, StartMarker, i) && OccursAt(content, EndMarker, j) ==> j < i + |StartMarker|
    ensures Rewrite(content, text) == content
  {
    var first := FindFrom(content, StartMarker, 0);
    if first.Some? {
      var last := LastFrom(content, EndMarker, first.value + |StartMarker|);
      assert last.None?;
    }
  }

  /** A file missing either marker is left as it is. */
  lemma RewriteWithoutMarkers(content: string, text: string)
    requires !Contains(content, StartMarker) || !Contains(content, EndMarker)
    ensures Rewrite(content, text) == content
  {
    var first := FindFrom(content, StartMarker, 0);
    assert first.Some? ==> Contains(content, StartMarker);
    assert first.Some? && LastFrom(content, EndMarker, first.value + |StartMarker|).Some? ==> Contains(content, EndMarker);
  }

  /** Rewriting a rewritten file with a second list gives the file rewritten with the second list alone. */
  lemma RewriteTwice(content: string, x: string, y: string)
    ensures Rewrite(Rewrite(content, x), y) == Rewrite(content, y)
  {
    MarkersHeadUnique();
    ReplaceSpanTwice(content, StartMarker, EndMarker, "\n" + x + "\n" + Indent, "\n" + y + "\n" + Indent);
  }

  /** Running the script twice on an unchanged repository leaves the workflows as the first run wrote them. */
  lemma RewriteIdempotent(content: string, text: string)
    ensures Rewrite(Rewrite(content, text), text) == Rewrite(content, text)
  {
    RewriteTwice(content, text, text);
  }

  /** The files rewritten in order, stopping at the first that cannot be read (`null!.replace` throws). */
  function Writes(files: seq<string>, text: string, readText: string -> Option<string>): (r: seq<(string, string)>)
    ensures |r| <= |files|
    ensures forall i :: 0 <= i < |r| ==> readText(files[i]).Some? && r[i] == (files[i], Rewrite(readText(files[i]).value, text))
    ensures |r| < |files| ==> readText(files[|r|]).None?
  {
    if |files| == 0 then []
    else
      match readText(files[0])
      case None => []
      case Some(c) => [(files[0], Rewrite(c, text))] + Writes(files[1..], text, readText)
  }

  /**
   * `updateCiContextOption(contextList)`: sorts the caller's list in place and rewrites the
   * three workflows with it; `complete` is false when a workflow could not be read.
   */
  method UpdateCiContextOption(contextList: array<string>, readText: string -> Option<string>)
    returns (writes: seq<(string, string)>, complete: bool)
    modifies contextList
    ensures contextList[..] == Sorting.Sort(old(contextList[..]), TextLeq)
    ensures writes == Writes(Workflows, ContextText(contextList[..]), readText)
    ensures complete <==> |writes| == |Workflows|
  {
    SortStrings(contextList);
    var text := ContextText(contextList[..]);
    assert Workflows[1..][1..] == [Workflows[2]];
    writes := [];
    var checkContent := readText(Workflows[0]);
    if checkContent.None? {
      return writes, false;
    }
    writes := writes + [(Workflows[0], Rewrite(checkContent.value, text))];
    var buildContent := readText(Workflows[1]);
    if buildContent.None? {
      return writes, false;
    }
    writes := writes + [(Workflows[1], Rewrite(buildContent.value, text))];
    var buildTestContent := readText(Workflows[2]);
    if buildTestContent.None? {
      return writes, false;
    }
    writes := writes + [(Workflows[2], Rewrite(buildTestContent.value, text))];
    complete := true;
  }

  /** `main()`: the contexts found are sorted once more and written into the workflows. */
  method Regenerate(metaFiles: array<string>, readMeta: string -> Option<J.Value>, readText: string -> Option<string>)
    returns (writes: seq<(string, string)>, complete: bool)
    modifies metaFiles
    ensures writes == Writes(Workflows,
      ContextText(Sorting.Sort(Contexts(Sorting.Sort(old(metaFiles[..]), TextLeq), readMeta), TextLeq)), readText)
    ensures complete <==> |writes| == |Workflows|
  {
    var contexts := GetContextList(metaFiles, readMeta);
    var list := new string[|contexts|](i requires 0 <= i < |contexts| => contexts[i]);
    assert list[..] == contexts;
    writes, complete := UpdateCiContextOption(list, readText);
  }
}
