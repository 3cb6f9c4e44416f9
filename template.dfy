/**
 * `resolveTemplate`, the placeholder engine shared (as three near-copies) by
 * `CheckAppContext`, `MetaAppContext` and the legacy `AppVersionHandler`.
 *
 * For each key in record order it replaces, in one left-to-right scan,
 * `$key$`, `{{key}}` and `{key}` (tried in that order at each position) by
 * the new value, and then, when an old value is given, every literal
 * occurrence of the old value by the new one. Replacement strings are taken
 * literally (they are assumed to contain no `$` pattern).
 */
module Template {
  import opened Options
  import opened Strings

  /** Record order of `Object.entries(data)`; each key maps to `[new, old?]`. */
  type PlaceholderData = seq<(string, seq<Option<string>>)>

  /** The three copies differ only in these two points. */
  datatype Dialect =
    | Plain       // checkAppContext.ts: a missing new value becomes ''
    | Unescaping  // metaAppContext.ts: also turns `\{`, `\$`, `\}` into bare characters after each key
    | Legacy      // AppVersionHandler.ts: a missing new value is rendered as "undefined"

  function DollarForm(key: string): string { "$" + key + "$" }
  function DoubleBraceForm(key: string): string { "{{" + key + "}}" }
  function BraceForm(key: string): string { "{" + key + "}" }

  /** The global replace with `$key$|{{key}}|{key}`. */
  function ReplacePlaceholders(s: string, key: string, v: string): string
    decreases |s|
  {
    if |s| == 0 then ""
    // every form starts with `$` or `{`; testing the first character first changes nothing
    else if s[0] == '$' && StartsWith(s, DollarForm(key)) then v + ReplacePlaceholders(s[|key| + 2..], key, v)
    else if s[0] == '{' && StartsWith(s, DoubleBraceForm(key)) then v + ReplacePlaceholders(s[|key| + 4..], key, v)
    else if s[0] == '{' && StartsWith(s, BraceForm(key)) then v + ReplacePlaceholders(s[|key| + 2..], key, v)
    else [s[0]] + ReplacePlaceholders(s[1..], key, v)
  }

  predicate IsUnescapable(c: char) { c == '{' || c == '$' || c == '}' }

  /** `content.replace(/\\([{$}])/g, '$1')` */
  function Unescape(s: string): string
    decreases |s|
  {
    if |s| == 0 then ""
    else if |s| >= 2 && s[0] == '\\' && IsUnescapable(s[1]) then [s[1]] + Unescape(s[2..])
    else [s[0]] + Unescape(s[1..])
  }

  /** What one record entry does to the content. */
  function ApplyEntry(content: string, key: string, values: seq<Option<string>>, d: Dialect): string
  {
    if |values| == 0 then content
    else
      var newValue := values[0].GetOr(if d == Legacy then "undefined" else "");
      var replaced := ReplacePlaceholders(content, key, newValue);
      var unescaped := if d == Unescaping then Unescape(replaced) else replaced;
      if |values| == 2 && values[1].Some? && values[1].value != "" then
        ReplaceAll(unescaped, values[1].value, values[0].GetOr("undefined"))
      else unescaped
  }

  /** The content after every entry has been applied, in record order. */
  function Resolve(template: string, data: PlaceholderData, d: Dialect): string
    decreases |data|
  {
    if |data| == 0 then template
    else Resolve(ApplyEntry(template, data[0].0, data[0].1, d), data[1..], d)
  }

  /** `resolveTemplate(template, data)`: rebinds `content` once per entry. */
  method ResolveTemplate(template: string, data: Option<PlaceholderData>, d: Dialect) returns (content: string)
    ensures data.None? ==> content == template
    ensures data.Some? ==> content == Resolve(template, data.value, d)
  {
    if data.None? || |data.value| == 0 {
      return template;
    }
    content := template;
    var i := 0;
    while i < |data.value|
      invariant 0 <= i <= |data.value|
      invariant Resolve(content, data.value[i..], d) == Resolve(template, data.value, d)
    {
      var (key, values) := data.value[i];
      assert data.value[i..][1..] == data.value[i + 1..];
      if |values| == 0 {
        i := i + 1;
        continue;
      }
      content := ApplyEntry(content, key, values, d);
      i := i + 1;
    }
  }

  // ------------------------------------------------------------------ properties

  /** An empty record changes nothing; an entry with no values is skipped. */
  lemma ResolveIdentities(t: string, key: string, rest: PlaceholderData, d: Dialect)
    ensures Resolve(t, [], d) == t
    ensures Resolve(t, [(key, [])] + rest, d) == Resolve(t, rest, d)
  {
    assert ([(key, [])] + rest)[1..] == rest;
  }

  /** Contents without `$` and `{` hold no placeholder, so the pass leaves them alone. */
  predicate Clean(s: string) { '$' !in s && '{' !in s }

  lemma {:induction false} ReplacePlaceholdersClean(s: string, key: string, v: string)
    requires Clean(s)
    ensures ReplacePlaceholders(s, key, v) == s
    decreases |s|
  {
    if |s| > 0 {
      assert s[0] != '$' && s[0] != '{';
      ReplacePlaceholdersClean(s[1..], key, v);
      assert s == [s[0]] + s[1..];
    }
  }

  /** Clean text in front passes through unchanged. */
  lemma {:induction false} ReplacePlaceholdersCleanPrefix(a: string, t: string, key: string, v: string)
    requires Clean(a)
    ensures ReplacePlaceholders(a + t, key, v) == a + ReplacePlaceholders(t, key, v)
    decreases |a|
  {
    if |a| > 0 {
      var s := a + t;
      assert s[0] == a[0] && a[0] != '$' && a[0] != '{';
      assert s[1..] == a[1..] + t;
      ReplacePlaceholdersCleanPrefix(a[1..], t, key, v);
    } else {
      assert a + t == t;
    }
  }

  lemma DollarFormReplaced(key: string, b: string, v: string)
    ensures ReplacePlaceholders(DollarForm(key) + b, key, v) == v + ReplacePlaceholders(b, key, v)
  {
    var p := DollarForm(key);
    var s := p + b;
    assert s[..|p|] == p && s[0] == '$';
    assert s[|key| + 2..] == b;
  }

  lemma DoubleBraceFormReplaced(key: string, b: string, v: string)
    ensures ReplacePlaceholders(DoubleBraceForm(key) + b, key, v) == v + ReplacePlaceholders(b, key, v)
  {
    var p := DoubleBraceForm(key);
    var s := p + b;
    assert s[..|p|] == p && s[0] == '{';
    assert s[|key| + 4..] == b;
  }

  lemma BraceFormReplaced(key: string, b: string, v: string)
    requires AllWordChars(key)
    ensures ReplacePlaceholders(BraceForm(key) + b, key, v) == v + ReplacePlaceholders(b, key, v)
  {
    var p := BraceForm(key);
    var s := p + b;
    assert s[..|p|] == p && s[0] == '{';
    assert s[|key| + 2..] == b;
    assert s[1] != '{' by {
      if |key| > 0 { assert s[1] == key[0]; } else { assert s[1] == '}'; }
    }
    assert !StartsWith(s, DoubleBraceForm(key)) by {
      assert DoubleBraceForm(key)[1] == '{';
    }
  }

  /** A placeholder after clean text becomes the new value; `{{key}}` is replaced whole, never as `{` + `{key}` + `}`. */
  lemma ReplacePlaceholdersAt(a: string, p: string, b: string, key: string, v: string)
    requires Clean(a) && AllWordChars(key)
    requires p == DollarForm(key) || p == DoubleBraceForm(key) || p == BraceForm(key)
    ensures ReplacePlaceholders(a + p + b, key, v) == a + v + ReplacePlaceholders(b, key, v)
  {
    assert a + p + b == a + (p + b);
    ReplacePlaceholdersCleanPrefix(a, p + b, key, v);
    if p == DollarForm(key) {
      DollarFormReplaced(key, b, v);
    } else if p == DoubleBraceForm(key) {
      DoubleBraceFormReplaced(key, b, v);
    } else {
      BraceFormReplaced(key, b, v);
    }
  }

  /** Without a (non-empty) old value only the placeholders change. */
  lemma OnlyPlaceholdersWithoutOldValue(content: string, key: string, newValue: Option<string>, oldValue: Option<string>)
    requires oldValue.None? || oldValue == Some("")
    ensures ApplyEntry(content, key, [newValue, oldValue], Plain) == ReplacePlaceholders(content, key, newValue.GetOr(""))
    ensures ApplyEntry(content, key, [newValue], Plain) == ReplacePlaceholders(content, key, newValue.GetOr(""))
  {
  }

  /** With an old value, its literal occurrences are replaced after the placeholders. */
  lemma OldValueReplaced(content: string, key: string, newValue: string, oldValue: string)
    requires oldValue != ""
    ensures ApplyEntry(content, key, [Some(newValue), Some(oldValue)], Plain)
         == ReplaceAll(ReplacePlaceholders(content, key, newValue), oldValue, newValue)
  {
  }

  /**
   * The order `version`, `sha`, `fullSha` is a hazard: a hard-coded old full
   * SHA first has its 7-character prefix rewritten by the `sha` entry, so the
   * `fullSha` entry no longer finds it and the file ends up with the new short
   * SHA followed by the old tail.
   */
  lemma {:induction false} ShortShaRewritesFullSha(
    oldFull: string, newFull: string, newVersion: string, oldVersion: string)
    requires |oldFull| >= 7 && |newFull| >= 7 && Clean(oldFull) && Clean(newFull)
    requires oldVersion != "" && !Contains(oldFull, oldVersion)
    requires !Contains(oldFull[7..], oldFull[..7])
    requires newFull[..7] != oldFull[..7]
    ensures Resolve(oldFull,
              [("version", [Some(newVersion), Some(oldVersion)]),
               ("sha", [Some(newFull[..7]), Some(oldFull[..7])]),
               ("fullSha", [Some(newFull), Some(oldFull)])], Plain)
         == newFull[..7] + oldFull[7..]
  {
    var o7, n7 := oldFull[..7], newFull[..7];
    var data := [("version", [Some(newVersion), Some(oldVersion)]),
                 ("sha", [Some(n7), Some(o7)]),
                 ("fullSha", [Some(newFull), Some(oldFull)])];
    ReplacePlaceholdersClean(oldFull, "version", newVersion);
    ReplaceAllAbsent(oldFull, oldVersion, newVersion);
    var c1 := ApplyEntry(oldFull, "version", data[0].1, Plain);
    assert c1 == oldFull;
    ReplacePlaceholdersClean(oldFull, "sha", n7);
    assert oldFull == o7 + oldFull[7..];
    assert StartsWith(oldFull, o7);
    assert oldFull[|o7|..] == oldFull[7..];
    ReplaceAllAbsent(oldFull[7..], o7, n7);
    var c2 := ApplyEntry(c1, "sha", data[1].1, Plain);
    assert c2 == ReplaceAll(oldFull, o7, n7);
    assert c2 == n7 + oldFull[7..];
    assert Clean(c2) by {
      assert forall c :: c in n7 ==> c in newFull;
      assert forall c :: c in oldFull[7..] ==> c in oldFull;
    }
    assert !Contains(c2, oldFull) by {
      assert |c2| == |oldFull|;
      assert c2[..7] == n7;
      forall i: nat | i <= |c2| ensures !OccursAt(c2, oldFull, i) {
        if i == 0 {
          assert c2[..|oldFull|][..7] == n7;
        }
      }
    }
    ReplacePlaceholdersClean(c2, "fullSha", newFull);
    ReplaceAllAbsent(c2, oldFull, newFull);
    var c3 := ApplyEntry(c2, "fullSha", data[2].1, Plain);
    assert c3 == c2;
    assert Resolve(oldFull, data, Plain) == Resolve(c1, data[1..], Plain);
    assert data[1..][0] == data[1] && data[1..][1..] == data[2..];
    assert Resolve(c1, data[1..], Plain) == Resolve(c2, data[2..], Plain);
    assert data[2..][0] == data[2] && data[2..][1..] == [];
    assert Resolve(c2, data[2..], Plain) == Resolve(c3, [], Plain);
  }

  /** Every `\{`, `\$` and `\}` loses its backslash; text without backslashes is unchanged. */
  lemma UnescapeStep(c: char, t: string)
    requires IsUnescapable(c)
    ensures Unescape(['\\', c] + t) == [c] + Unescape(t)
  {
    assert (['\\', c] + t)[2..] == t;
  }

  lemma {:induction false} UnescapeNoBackslash(s: string)
    requires '\\' !in s
    ensures Unescape(s) == s
    decreases |s|
  {
    if |s| > 0 {
      UnescapeNoBackslash(s[1..]);
      assert s == [s[0]] + s[1..];
    }
  }

  /** A key whose only value is `undefined` still runs: its placeholders become `''` (and the un-escape runs). */
  lemma UndefinedValueStillProcessed(content: string, key: string)
    ensures ApplyEntry(content, key, [None], Unescaping) == Unescape(ReplacePlaceholders(content, key, ""))
    ensures ApplyEntry(content, key, [None], Plain) == ReplacePlaceholders(content, key, "")
  {
  }

  /** `\{\{w\}\}`: a double-brace placeholder written with escaped braces. */
  function EscapedDoubleBrace(w: string): string { "\\{\\{" + w + "\\}\\}" }

  /**
   * Because the un-escape runs after every key, `\{\{w\}\}` stays a literal
   * `{{w}}` only when `w` is the first key: after any earlier key has run,
   * the `w` entry sees a bare placeholder and replaces it.
   */
  lemma EscapeProtectsOnlyFromEarlierKeys(w: string, v: string, k: string, u: string)
    requires Clean(w) && '\\' !in w && '}' !in w
    requires '\\' !in k && '\\' !in v
    ensures Resolve(EscapedDoubleBrace(w), [(w, [Some(v)])], Unescaping) == DoubleBraceForm(w)
    ensures Resolve(EscapedDoubleBrace(w), [(k, [Some(u)]), (w, [Some(v)])], Unescaping) == v
  {
    var e := EscapedDoubleBrace(w);
    ReplacePlaceholdersEscaped(w, w, v);
    ReplacePlaceholdersEscaped(w, k, u);
    UnescapeEscaped(w);
    DoubleBraceFormReplaced(w, "", v);
    assert DoubleBraceForm(w) + "" == DoubleBraceForm(w);
    UnescapeNoBackslash(v);
    assert v + ReplacePlaceholders("", w, v) == v;
    var data := [(k, [Some(u)]), (w, [Some(v)])];
    assert data[1..] == [(w, [Some(v)])];
    assert ApplyEntry(e, k, [Some(u)], Unescaping) == DoubleBraceForm(w);
    assert ApplyEntry(DoubleBraceForm(w), w, [Some(v)], Unescaping) == v;
    assert Resolve(e, data, Unescaping) == Resolve(DoubleBraceForm(w), data[1..], Unescaping);
    assert Resolve(v, [], Unescaping) == v;
  }

  lemma UnescapeEscaped(w: string)
    requires '\\' !in w
    ensures Unescape(EscapedDoubleBrace(w)) == DoubleBraceForm(w)
  {
    var tail: string := ['\\', '}', '\\', '}'];
    assert EscapedDoubleBrace(w) == ['\\', '{'] + (['\\', '{'] + (w + tail));
    UnescapeStep('{', ['\\', '{'] + (w + tail));
    UnescapeStep('{', w + tail);
    UnescapeCleanPrefix(w, tail);
    assert tail == ['\\', '}'] + ['\\', '}'];
    UnescapeStep('}', ['\\', '}']);
    assert ['\\', '}'] == ['\\', '}'] + "";
    UnescapeStep('}', "");
    assert DoubleBraceForm(w) == ['{'] + (['{'] + (w + ['}', '}']));
  }

  lemma {:induction false} UnescapeCleanPrefix(a: string, t: string)
    requires '\\' !in a
    ensures Unescape(a + t) == a + Unescape(t)
    decreases |a|
  {
    if |a| > 0 {
      assert (a + t)[1..] == a[1..] + t;
      UnescapeCleanPrefix(a[1..], t);
    } else {
      assert a + t == t;
    }
  }

  /** A backslash is never the start of a placeholder. */
  lemma ReplacePlaceholdersBackslash(t: string, key: string, v: string)
    ensures ReplacePlaceholders(['\\'] + t, key, v) == ['\\'] + ReplacePlaceholders(t, key, v)
  {
    assert (['\\'] + t)[1..] == t;
  }

  /** `{w\}\}` does not start with `{key}` for a backslash-free key, as `w` holds no closing brace. */
  lemma InnerBraceNotBraceForm(w: string, key: string)
    requires '}' !in w && '\\' !in key
    ensures !StartsWith(['{'] + (w + ['\\', '}', '\\', '}']), BraceForm(key))
  {
    var t3 := ['{'] + (w + ['\\', '}', '\\', '}']);
    var j := |key|;
    if j < |w| {
      assert t3[j + 1] == w[j];
    } else if j == |w| {
      assert t3[j + 1] == '\\';
    } else {
      assert t3[|w| + 1] == '\\';
      assert BraceForm(key)[|w| + 1] == key[|w|];
    }
  }

  /** `{w\}\}` does not start with `{{`, as `w` holds no opening brace. */
  lemma InnerBraceNotDoubleBraceForm(w: string, key: string)
    requires Clean(w)
    ensures !StartsWith(['{'] + (w + ['\\', '}', '\\', '}']), DoubleBraceForm(key))
  {
    var t3 := ['{'] + (w + ['\\', '}', '\\', '}']);
    if |w| > 0 { assert t3[1] == w[0]; } else { assert t3[1] == '\\'; }
  }

  /** `{w\}\}`: the single brace is not a placeholder of a backslash-free key. */
  lemma ReplacePlaceholdersInnerBrace(w: string, key: string, v: string)
    requires Clean(w) && '\\' !in w && '}' !in w && '\\' !in key
    ensures ReplacePlaceholders(['{'] + (w + ['\\', '}', '\\', '}']), key, v) == ['{'] + (w + ['\\', '}', '\\', '}'])
  {
    var tail: string := ['\\', '}', '\\', '}'];
    var t3 := ['{'] + (w + tail);
    assert Clean(w + tail);
    ReplacePlaceholdersClean(w + tail, key, v);
    InnerBraceNotDoubleBraceForm(w, key);
    InnerBraceNotBraceForm(w, key);
    assert t3[1..] == w + tail;
  }

  /** `\{\{w\}\}` taken apart one character at a time at the front. */
  lemma EscapedDoubleBraceShape(w: string)
    ensures EscapedDoubleBrace(w) == ['\\'] + (['{'] + (['\\'] + (['{'] + (w + ['\\', '}', '\\', '}']))))
  {
  }

  /** A brace followed by a backslash starts no placeholder of a backslash-free key. */
  lemma ReplacePlaceholdersBraceBackslash(t: string, key: string, v: string)
    requires '\\' !in key
    ensures ReplacePlaceholders(['{'] + (['\\'] + t), key, v) == ['{'] + ReplacePlaceholders(['\\'] + t, key, v)
  {
    var t1 := ['{'] + (['\\'] + t);
    assert !StartsWith(t1, DoubleBraceForm(key)) by { assert t1[1] == '\\'; }
    assert !StartsWith(t1, BraceForm(key)) by {
      assert t1[1] == '\\';
      if |key| > 0 { assert BraceForm(key)[1] == key[0]; } else { assert BraceForm(key)[1] == '}'; }
    }
    assert t1[1..] == ['\\'] + t;
  }

  /** In `\{\{w\}\}` no placeholder of a backslash-free key starts anywhere. */
  lemma ReplacePlaceholdersEscaped(w: string, key: string, v: string)
    requires Clean(w) && '\\' !in w && '}' !in w && '\\' !in key
    ensures ReplacePlaceholders(EscapedDoubleBrace(w), key, v) == EscapedDoubleBrace(w)
  {
    var t3 := ['{'] + (w + ['\\', '}', '\\', '}']);
    ReplacePlaceholdersInnerBrace(w, key, v);
    ReplacePlaceholdersBackslash(t3, key, v);
    ReplacePlaceholdersBraceBackslash(t3, key, v);
    ReplacePlaceholdersBackslash(['{'] + (['\\'] + t3), key, v);
    EscapedDoubleBraceShape(w);
  }
}
