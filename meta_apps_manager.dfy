/**
 * `MetaAppsManager` (action/src/context/metaAppsManager.ts): which application
 * and which variants a metadata run resolves, from the dispatch inputs or the
 * pull-request title, and the guards of loading one application.
 */
module MetaApps {
  import opened Options
  import opened Strings
  import opened Schema
  import Variants
  import CheckApp
  import CheckApps
  import MetaApp

  /** The value `scanChangedContext` returns. */
  datatype ChangedContext = ChangedContext(context: string, variants: seq<string>)

  // ------------------------------------------------------------------ `^update\((.*?)\):`

  /** The lazy `(.*?)\):` from the start of `s`: up to the first `):`; `.` stops at a line terminator. */
  function UpToClose(s: string): Option<string>
    decreases |s|
  {
    if StartsWith(s, "):") then Some("")
    else if |s| == 0 || IsLineTerminator(s[0]) then None
    else
      var rest := UpToClose(s[1..]);
      if rest.Some? then Some([s[0]] + rest.value) else None
  }

  /** Group 1 of `^update\((.*?)\):` */
  function ContextCapture(message: string): Option<string>
  {
    if StartsWith(message, "update(") then UpToClose(message[7..]) else None
  }

  // ------------------------------------------------------------------ `/update (\w+) version to/g`

  /**
   * A match of `update (\w+) version to` at the start of `s`: the captured
   * word and the length of the match. `\w+` backtracks only into word
   * characters, none of which is the space that must follow, so only the
   * longest run can match.
   */
  function VariantMatch(s: string): Option<(string, nat)>
  {
    if !StartsWith(s, "update ") then None
    else
      var w := WordRun(s[7..]);
      if |w| > 0 && StartsWith(s[7 + |w|..], " version to") then Some((w, 7 + |w| + 11)) else None
  }

  /** Group 1 of every match of `matchAll`, left to right, each search resuming after the previous match. */
  function VariantCaptures(s: string): seq<string>
    decreases |s|
  {
    if |s| == 0 then []
    else
      var m := VariantMatch(s);
      if m.Some? && m.value.1 <= |s| then [m.value.0] + VariantCaptures(s[m.value.1..])
      else VariantCaptures(s[1..])
  }

  /**
   * `scanChangedContext`. `contextInput` and `variantsInput` are the trimmed
   * action inputs (empty when unset); `title` is the pull request's title.
   */
  function ScanChangedContext(event: string, contextInput: string, variantsInput: string, title: Option<string>)
    : (r: Option<ChangedContext>)
    ensures event != "workflow_dispatch" && event != "pull_request" ==> r.None?
    ensures event == "workflow_dispatch" ==> (r.None? <==> contextInput == "")
    ensures r.Some? && event == "workflow_dispatch" ==> r.value.context == contextInput
  {
    if event == "workflow_dispatch" then
      if contextInput == "" then None
      else Some(ChangedContext(contextInput, if variantsInput != "" then CheckApps.TrimAll(Split(variantsInput, ',')) else []))
    else if event == "pull_request" then
      var message := if Truthy(title) then title.value else "";
      var captured := ContextCapture(message);
      if captured.None? || Trim(captured.value) == "" then None
      else Some(ChangedContext(Trim(captured.value), NonEmpty(CheckApps.TrimAll(VariantCaptures(message)))))
    else None
  }

  // ------------------------------------------------------------------ loadAppContext

  /** `loadAppContext`: the same guards as the version check's loader; the `pathExists` guard never fires. */
  method LoadAppContext(appPath: string, readMeta: string -> Option<Meta>, valid: Meta -> bool)
    returns (app: Option<MetaApp.MetaAppContext>)
    ensures app.Some? <==> CheckApps.Loadable(appPath, readMeta, valid)
    ensures app.Some? ==>
      fresh(app.value) && app.value.context == Dirname(CheckApps.MetaFile(appPath)) &&
      app.value.meta == readMeta(CheckApps.MetaFile(appPath)).value && app.value.name == app.value.meta.name
  {
    var metaFile := CheckApps.MetaFile(appPath);
    var context := Dirname(metaFile);
    var meta := readMeta(metaFile);
    if meta.None? {
      return None;
    }
    if !valid(meta.value) {
      return None;
    }
    if meta.value.skip == Some(true) {
      return None;
    }
    var ctx := new MetaApp.MetaAppContext(context, meta.value);
    return Some(ctx);
  }

  // ------------------------------------------------------------------ properties

  /** Dispatch: the context as given and the comma-split, trimmed variants, or none when the input is empty. */
  lemma DispatchVariants(contextInput: string, variantsInput: string, title: Option<string>)
    requires contextInput != ""
    ensures var r := ScanChangedContext("workflow_dispatch", contextInput, variantsInput, title);
      r.Some? && r.value.context == contextInput &&
      (variantsInput == "" ==> r.value.variants == []) &&
      (variantsInput != "" ==>
        |r.value.variants| == |Split(variantsInput, ',')| &&
        forall i :: 0 <= i < |r.value.variants| ==> r.value.variants[i] == Trim(Split(variantsInput, ',')[i]))
  {
  }

  /** A pull-request title yields a context exactly when it starts with `update(`, has a `):` on its first line, and a non-blank capture. */
  lemma PullRequestContext(title: Option<string>)
    ensures var r := ScanChangedContext("pull_request", "", "", title);
      var message := if Truthy(title) then title.value else "";
      r.Some? <==> ContextCapture(message).Some? && Trim(ContextCapture(message).value) != ""
  {
  }

  /** The capture, when there is one, is the text between `update(` and the first `):`, on one line. */
  lemma {:induction false} UpToCloseShape(s: string)
    ensures var c := UpToClose(s);
      c.Some? ==> StartsWith(s, c.value + "):") && NoLineTerminator(c.value) && !Contains(c.value, "):")
    decreases |s|
  {
    var c := UpToClose(s);
    if c.Some? && !StartsWith(s, "):") {
      UpToCloseShape(s[1..]);
      var t := UpToClose(s[1..]).value;
      assert c.value == [s[0]] + t;
      assert (c.value + "):") == [s[0]] + (t + "):");
      assert s == [s[0]] + s[1..];
      assert !OccursAt(c.value, "):", 0) by {
        if |c.value| >= 2 {
          assert c.value[..2] == [s[0], c.value[1]];
          assert s[..2] == c.value[..2];
        }
      }
      forall i: nat | i <= |c.value| ensures !OccursAt(c.value, "):", i) {
        if i > 0 {
          OccursAtTail(c.value, "):", i - 1);
          assert c.value[1..] == t;
        }
      }
    }
  }

  /** The first `):` ends the capture: a context free of `):` and line terminators is captured whole. */
  lemma {:induction false} UpToCloseOf(ctx: string, rest: string)
    requires !Contains(ctx, "):") && NoLineTerminator(ctx)
    ensures UpToClose(ctx + "):" + rest) == Some(ctx)
    decreases |ctx|
  {
    var s := ctx + "):" + rest;
    if |ctx| == 0 {
      assert s == "):" + rest;
      assert StartsWith(s, "):");
    } else {
      assert !StartsWith(s, "):") by {
        if |ctx| >= 2 {
          assert s[..2] == ctx[..2];
          assert !OccursAt(ctx, "):", 0);
        } else {
          assert s[1] == ')';
        }
      }
      assert s[1..] == ctx[1..] + "):" + rest;
      NotContainsTail(ctx, "):");
      UpToCloseOf(ctx[1..], rest);
      assert [ctx[0]] + ctx[1..] == ctx;
    }
  }

  /** A match needs `update ` at its start, so text whose first character is not `u` is skipped. */
  lemma SkipChar(s: string)
    requires |s| > 0 && s[0] != 'u'
    ensures VariantCaptures(s) == VariantCaptures(s[1..])
  {
  }

  /** The same, for a character put in front. */
  lemma SkipFirst(c: char, t: string)
    requires c != 'u'
    ensures VariantCaptures([c] + t) == VariantCaptures(t)
  {
    SkipChar([c] + t);
    assert ([c] + t)[1..] == t;
  }

  /** A text that differs from `update ` at some position within it starts no match. */
  lemma NotUpdateAt(s: string, i: nat)
    requires i < 7 && i < |s| && s[i] != "update "[i]
    ensures VariantMatch(s).None?
  {
    if |s| >= 7 {
      assert s[..7][i] == s[i];
    }
  }

  /** No match starts inside space-free text followed by a character that cannot continue `update `. */
  lemma {:induction false} NoMatchIn(a: string, rest: string)
    requires ' ' !in a && |rest| > 0 && rest[0] !in "update "
    ensures VariantCaptures(a + rest) == VariantCaptures(rest)
    decreases |a|
  {
    if |a| > 0 {
      var s := a + rest;
      if |a| > 6 {
        assert s[6] == a[6];
        NotUpdateAt(s, 6);
      } else {
        assert s[|a|] == rest[0];
        assert "update "[|a|] in "update ";
        NotUpdateAt(s, |a|);
      }
      assert s[1..] == a[1..] + rest;
      NoMatchIn(a[1..], rest);
    } else {
      assert a + rest == rest;
    }
  }

  /** No match starts inside space-free text at the end. */
  lemma {:induction false} NoMatchAtEnd(a: string)
    requires ' ' !in a
    ensures VariantCaptures(a) == []
    decreases |a|
  {
    if |a| > 0 {
      if |a| >= 7 {
        assert a[..7][6] == a[6];
      }
      assert VariantMatch(a).None?;
      NoMatchAtEnd(a[1..]);
    }
  }

  /** The longest word run of a word followed by a non-word character is that word. */
  lemma {:induction false} WordRunOf(w: string, rest: string)
    requires AllWordChars(w) && (|rest| == 0 || !IsWordChar(rest[0]))
    ensures WordRun(w + rest) == w
    decreases |w|
  {
    if |w| > 0 {
      assert (w + rest)[1..] == w[1..] + rest;
      WordRunOf(w[1..], rest);
      assert [w[0]] + w[1..] == w;
    } else {
      assert w + rest == rest;
    }
  }

  /** A title item starts with a match of its own variant name, ending just before ` <version>`. */
  lemma ItemVariantMatch(r: Variants.CheckResult, rest: string)
    requires |r.variantName| > 0 && AllWordChars(r.variantName)
    ensures var s := CheckApp.TitleItem(r) + rest;
      VariantMatch(s) == Some((r.variantName, 7 + |r.variantName| + 11)) &&
      7 + |r.variantName| + 11 <= |s| && s[7 + |r.variantName| + 11..] == " " + r.version + rest
  {
    var name := r.variantName;
    var s := CheckApp.TitleItem(r) + rest;
    var after := " version to " + r.version + rest;
    assert s == "update " + (name + after);
    assert s[..7] == "update ";
    assert s[7..] == name + after;
    WordRunOf(name, after);
    assert s[7 + |name|..] == after;
    assert after[..11] == " version to";
    assert s[7 + |name| + 11..] == " " + r.version + rest;
  }

  /** One title item matches at its start, capturing the variant name and leaving ` <version>` and what follows. */
  lemma ItemMatch(r: Variants.CheckResult, rest: string)
    requires |r.variantName| > 0 && AllWordChars(r.variantName)
    ensures VariantCaptures(CheckApp.TitleItem(r) + rest) == [r.variantName] + VariantCaptures(" " + r.version + rest)
  {
    ItemVariantMatch(r, rest);
    MatchStep(CheckApp.TitleItem(r) + rest);
  }

  /** After a match, the search resumes at its end. */
  lemma MatchStep(s: string)
    requires VariantMatch(s).Some? && VariantMatch(s).value.1 <= |s|
    ensures VariantCaptures(s) == [VariantMatch(s).value.0] + VariantCaptures(s[VariantMatch(s).value.1..])
  {
  }

  /** The variant names of the results, in order. */
  function Names(results: seq<Variants.CheckResult>): (r: seq<string>)
    ensures |r| == |results| && forall i :: 0 <= i < |results| ==> r[i] == results[i].variantName
  {
    if |results| == 0 then [] else [results[0].variantName] + Names(results[1..])
  }

  /** What makes a list of results parse back: word-character names and versions without a space. */
  predicate ParsableResults(results: seq<Variants.CheckResult>)
  {
    forall i :: 0 <= i < |results| ==>
      |results[i].variantName| > 0 && AllWordChars(results[i].variantName) && ' ' !in results[i].version
  }

  /** The last title item: its name, and nothing from its version. */
  lemma LastItemCaptures(r: Variants.CheckResult)
    requires |r.variantName| > 0 && AllWordChars(r.variantName) && ' ' !in r.version
    ensures VariantCaptures(CheckApp.TitleItem(r)) == [r.variantName]
  {
    var v := r.version;
    ItemMatch(r, "");
    assert CheckApp.TitleItem(r) + "" == CheckApp.TitleItem(r);
    SkipChar(" " + v + "");
    assert (" " + v + "")[1..] == v;
    NoMatchAtEnd(v);
  }

  /** A version without spaces, then `, ...`: no match starts in the version. */
  lemma VersionSkipped(v: string, rest: string)
    requires ' ' !in v && |rest| > 0 && rest[0] == ','
    ensures VariantCaptures(" " + v + rest) == VariantCaptures(rest)
  {
    assert " " + v + rest == [' '] + (v + rest);
    SkipFirst(' ', v + rest);
    NoMatchIn(v, rest);
  }

  /** The separator `, ` holds no match. */
  lemma SeparatorSkipped(tail: string)
    ensures VariantCaptures(", " + tail) == VariantCaptures(tail)
  {
    assert ", " + tail == [','] + ([' '] + tail);
    SkipFirst(',', [' '] + tail);
    SkipFirst(' ', tail);
  }

  /** A title item followed by `, ` and more items: its name, then the captures of the rest. */
  lemma ItemThenMore(r: Variants.CheckResult, tail: string)
    requires |r.variantName| > 0 && AllWordChars(r.variantName) && ' ' !in r.version
    ensures VariantCaptures(CheckApp.TitleItem(r) + ", " + tail) == [r.variantName] + VariantCaptures(tail)
  {
    var rest := ", " + tail;
    assert CheckApp.TitleItem(r) + ", " + tail == CheckApp.TitleItem(r) + rest;
    ItemMatch(r, rest);
    VersionSkipped(r.version, rest);
    SeparatorSkipped(tail);
  }

  /** The joined title items give back the variant names, in order. */
  lemma {:induction false} ItemsCaptures(results: seq<Variants.CheckResult>)
    requires ParsableResults(results)
    ensures VariantCaptures(Join(CheckApp.TitleItems(results), ", ")) == Names(results)
    decreases |results|
  {
    var items := CheckApp.TitleItems(results);
    if |results| == 1 {
      assert Join(items, ", ") == CheckApp.TitleItem(results[0]);
      LastItemCaptures(results[0]);
    } else if |results| > 1 {
      var tail := Join(items[1..], ", ");
      assert items[1..] == CheckApp.TitleItems(results[1..]);
      ItemsCaptures(results[1..]);
      assert Join(items, ", ") == CheckApp.TitleItem(results[0]) + ", " + tail;
      ItemThenMore(results[0], tail);
      assert Names(results) == [results[0].variantName] + Names(results[1..]);
    }
  }

  /** A context that parses back: non-blank, free of spaces and line terminators, no `):`, trimmed. */
  predicate ParsableContext(ctx: string)
  {
    ctx != "" && IsTrimmed(ctx) && ' ' !in ctx && NoLineTerminator(ctx) && !Contains(ctx, "):")
  }

  lemma TitleContext(ctx: string, items: string)
    requires ParsableContext(ctx)
    ensures ContextCapture("update(" + ctx + "): " + items) == Some(ctx)
  {
    var title := "update(" + ctx + "): " + items;
    assert title[..7] == "update(";
    assert title[7..] == ctx + "):" + (" " + items);
    UpToCloseOf(ctx, " " + items);
  }

  lemma HeadHasNoSpace(ctx: string)
    requires ' ' !in ctx
    ensures ' ' !in "update(" + ctx
  {
    var head := "update(" + ctx;
    forall k | 0 <= k < |head| ensures head[k] != ' ' {
      if k >= 7 {
        assert head[k] == ctx[k - 7];
      }
    }
  }

  lemma TitleVariants(ctx: string, items: string)
    requires ' ' !in ctx
    ensures VariantCaptures("update(" + ctx + "): " + items) == VariantCaptures(items)
  {
    var head := "update(" + ctx;
    var tail := "): " + items;
    assert "update(" + ctx + "): " + items == head + tail;
    HeadHasNoSpace(ctx);
    assert tail[0] == ')';
    NoMatchIn(head, tail);
    CloseSkipped(items);
  }

  /** The `): ` closing the context holds no match. */
  lemma CloseSkipped(items: string)
    ensures VariantCaptures("): " + items) == VariantCaptures(items)
  {
    assert "): " + items == [')'] + ([':'] + ([' '] + items));
    SkipFirst(')', [':'] + ([' '] + items));
    SkipFirst(':', [' '] + items);
    SkipFirst(' ', items);
  }

  lemma WordTrimmed(w: string)
    requires |w| > 0 && AllWordChars(w)
    ensures Trim(w) == w
  {
    assert IsWordChar(w[0]) && IsWordChar(w[|w| - 1]);
    TrimOfTrimmed(w);
  }

  /** Word-character names are kept by the trim and the filter. */
  lemma NamesKept(names: seq<string>)
    requires forall i :: 0 <= i < |names| ==> |names[i]| > 0 && AllWordChars(names[i])
    ensures NonEmpty(CheckApps.TrimAll(names)) == names
  {
    forall i | 0 <= i < |names| ensures Trim(names[i]) == names[i] {
      WordTrimmed(names[i]);
    }
    assert CheckApps.TrimAll(names) == names;
    NonEmptyOfNonEmpty(names);
  }

  /** The variants parsed from a non-development title are the results' names. */
  lemma TitleNames(ctx: string, results: seq<Variants.CheckResult>)
    requires ' ' !in ctx && ParsableResults(results) && |results| > 0
    ensures VariantCaptures(CheckApp.PrTitle(false, ctx, results)) == Names(results)
  {
    var items := Join(CheckApp.TitleItems(results), ", ");
    PrTitleShape(ctx, results);
    TitleVariants(ctx, items);
    ItemsCaptures(results);
  }

  lemma PrTitleShape(ctx: string, results: seq<Variants.CheckResult>)
    ensures CheckApp.PrTitle(false, ctx, results) == "update(" + ctx + "): " + Join(CheckApp.TitleItems(results), ", ")
  {
  }

  /** The context parsed from a non-development title is the context it was built for. */
  lemma TitleContextOf(ctx: string, results: seq<Variants.CheckResult>)
    requires ParsableContext(ctx)
    ensures ContextCapture(CheckApp.PrTitle(false, ctx, results)) == Some(ctx)
  {
    var items := Join(CheckApp.TitleItems(results), ", ");
    assert CheckApp.PrTitle(false, ctx, results) == "update(" + ctx + "): " + items;
    TitleContext(ctx, items);
  }

  /**
   * Round trip: the title of a (non-development) pull request built for a
   * context and its results is parsed back into that context and the
   * results' variant names, in order.
   */
  lemma TitleRoundTrip(ctx: string, results: seq<Variants.CheckResult>)
    requires ParsableContext(ctx) && ParsableResults(results) && |results| > 0
    ensures ScanChangedContext("pull_request", "", "", Some(CheckApp.PrTitle(false, ctx, results))) ==
      Some(ChangedContext(ctx, Names(results)))
  {
    var title := CheckApp.PrTitle(false, ctx, results);
    TitleContextOf(ctx, results);
    TrimOfTrimmed(ctx);
    TitleNames(ctx, results);
    NamesKept(Names(results));
    PullRequestScan(title);
  }

  /** A pull request's title with a non-blank capture: the trimmed capture and the kept variant captures. */
  lemma PullRequestScan(title: string)
    requires ContextCapture(title).Some? && Trim(ContextCapture(title).value) != ""
    ensures ScanChangedContext("pull_request", "", "", Some(title)) ==
      Some(ChangedContext(Trim(ContextCapture(title).value), NonEmpty(CheckApps.TrimAll(VariantCaptures(title)))))
  {
  }

  /** A development title (`test(...)`) yields nothing for a pull request. */
  lemma DevelopmentTitleIgnored(ctx: string, results: seq<Variants.CheckResult>)
    ensures ScanChangedContext("pull_request", "", "", Some(CheckApp.PrTitle(true, ctx, results))).None?
  {
    var title := CheckApp.PrTitle(true, ctx, results);
    assert title == "test(" + ctx + "): " + Join(CheckApp.TitleItems(results), ", ");
    assert title[..7][0] == 't';
    assert ContextCapture(title).None?;
    NoCaptureNoContext(title);
  }

  lemma NoCaptureNoContext(title: string)
    requires ContextCapture(title).None?
    ensures ScanChangedContext("pull_request", "", "", Some(title)).None?
  {
  }
}
