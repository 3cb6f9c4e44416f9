/**
 * The docs catalogue generator (scripts/generate-data.js): the JSON-with-
 * comments reader, the schema and variant defaults, the fields added to each
 * catalogue entry, and the newest-first order of the output.
 *
 * `JSON.parse`, the schema's `properties` (read from
 * `.vscode/meta.schema.json`), the directory listing and the `git log` run
 * are parameters. Timestamps are epoch seconds; their ISO rendering is not
 * modelled.
 */
module GenerateData {
  import opened Options
  import opened Strings
  import Assoc
  import Sorting
  import J = Json

  // ------------------------------------------------------------------ JSONC

  /** One line of `parseJSONC`'s first pass: cut at the first `//` when an even number of `"` precede it. */
  function StripLineComment(line: string): (r: string)
    ensures StartsWith(line, r)
  {
    match FindFrom(line, "//", 0)
    case None => line
    case Some(c) => if CountChar(line[..c], '"') % 2 == 0 then line[..c] else line
  }

  /** A line loses its text from the first `//` on exactly when that `//` has an even number of quotes before it. */
  lemma StripLineCommentCases(line: string)
    ensures var c := FindFrom(line, "//", 0);
      var r := StripLineComment(line);
      (r != line <==> c.Some? && CountChar(line[..c.value], '"') % 2 == 0)
      && (r != line ==> r == line[..c.value])
  {
    var c := FindFrom(line, "//", 0);
    if c.Some? {
      assert |line[..c.value]| < |line|;
    }
  }

  function StripLines(lines: seq<string>): (r: seq<string>)
    ensures |r| == |lines| && forall k :: 0 <= k < |lines| ==> r[k] == StripLineComment(lines[k])
  {
    if |lines| == 0 then [] else [StripLineComment(lines[0])] + StripLines(lines[1..])
  }

  /** `content.split('\n').map(...).join('\n')` */
  function StripLineComments(content: string): string
  {
    Join(StripLines(Split(content, '\n')), "\n")
  }

  /** The first pass keeps the line structure: same number of lines, each one stripped on its own. */
  lemma LineCountPreserved(content: string)
    ensures Split(StripLineComments(content), '\n') == StripLines(Split(content, '\n'))
  {
    var lines := Split(content, '\n');
    var out := StripLines(lines);
    SplitPieces(content, '\n');
    forall k | 0 <= k < |out| ensures '\n' !in out[k] {
      assert StartsWith(lines[k], out[k]);
      forall j | 0 <= j < |out[k]| ensures out[k][j] != '\n' {
        assert out[k][j] == lines[k][j];
      }
    }
    SplitJoin(out, '\n');
  }

  /** `content.replace(/\/\*[\s\S]*?\*\//g, '')`: each block runs to the first `*` `/` after its opener. */
  function StripBlocks(s: string): (r: string)
    ensures |r| <= |s|
    decreases |s|
  {
    if |s| < 2 then s
    else if s[0] == '/' && s[1] == '*' then
      match FindFrom(s, "*/", 2)
      case Some(j) => StripBlocks(s[j + 2..])
      case None => [s[0]] + StripBlocks(s[1..])
    else [s[0]] + StripBlocks(s[1..])
  }

  /** Text without an opener is left alone. */
  lemma {:induction false} StripBlocksAbsent(s: string)
    requires !Contains(s, "/*")
    ensures StripBlocks(s) == s
    decreases |s|
  {
    if |s| >= 2 {
      assert !OccursAt(s, "/*", 0);
      assert s[..2] != "/*";
      NotContainsTail(s, "/*");
      StripBlocksAbsent(s[1..]);
      assert s == [s[0]] + s[1..];
    }
  }

  /** A block is removed up to its first closer, however much it spans. */
  lemma StripBlock(body: string, rest: string)
    requires !Contains(body + "*", "*/")
    ensures StripBlocks("/*" + body + "*/" + rest) == StripBlocks(rest)
  {
    var s := "/*" + body + "*/" + rest;
    var j := 2 + |body|;
    assert OccursAt(s, "*/", j) by { assert s[j..j + 2] == "*/"; }
    forall i | 2 <= i < j ensures !OccursAt(s, "*/", i) {
      assert !OccursAt(body + "*", "*/", i - 2);
      assert s[i..i + 2] == (body + "*")[i - 2..i];
    }
    assert FindFrom(s, "*/", 2) == Some(j);
    assert s[j + 2..] == rest;
  }

  /** `s[i..]` begins with white space and then `}` or `]`. */
  predicate ClosesAt(s: string, i: nat)
    decreases |s| - i
  {
    i < |s| && (s[i] == '}' || s[i] == ']' || (IsSpace(s[i]) && ClosesAt(s, i + 1)))
  }

  /** `content.replace(/,(\s*[}\]])/g, '$1')` from index `i`: a comma before a closer is dropped. */
  function DropTrailingCommasFrom(s: string, i: nat): string
    requires i <= |s|
    decreases |s| - i
  {
    if i == |s| then ""
    else (if s[i] == ',' && ClosesAt(s, i + 1) then "" else [s[i]]) + DropTrailingCommasFrom(s, i + 1)
  }

  function DropTrailingCommas(s: string): string { DropTrailingCommasFrom(s, 0) }

  /** The text without its commas. */
  function WithoutCommas(s: string): string
  {
    if |s| == 0 then "" else (if s[0] == ',' then "" else [s[0]]) + WithoutCommas(s[1..])
  }

  /** Only commas are dropped: every other character is kept, in order. */
  lemma {:induction false} DropOnlyCommas(s: string, i: nat)
    requires i <= |s|
    ensures WithoutCommas(DropTrailingCommasFrom(s, i)) == WithoutCommas(s[i..])
    decreases |s| - i
  {
    if i < |s| {
      DropOnlyCommas(s, i + 1);
      var head := if s[i] == ',' && ClosesAt(s, i + 1) then "" else [s[i]];
      WithoutCommasConcat(head, DropTrailingCommasFrom(s, i + 1));
      assert s[i..] == [s[i]] + s[i + 1..];
      WithoutCommasConcat([s[i]], s[i + 1..]);
    }
  }

  lemma {:induction false} WithoutCommasConcat(a: string, b: string)
    ensures WithoutCommas(a + b) == WithoutCommas(a) + WithoutCommas(b)
  {
    if |a| > 0 {
      assert (a + b)[1..] == a[1..] + b;
      WithoutCommasConcat(a[1..], b);
    } else {
      assert a + b == b;
    }
  }

  /** A comma is dropped exactly when only white space separates it from a closer. */
  lemma {:induction false} DropTrailingCommasAt(s: string, i: nat)
    requires i < |s|
    ensures DropTrailingCommasFrom(s, i) ==
      (if s[i] == ',' && ClosesAt(s, i + 1) then "" else [s[i]]) + DropTrailingCommasFrom(s, i + 1)
  {
  }

  /** One comma per closer: `,,]` loses only its second comma. */
  lemma OneCommaPerCloser()
    ensures DropTrailingCommas(",,]") == ",]"
  {
    var s := ",,]";
    assert ClosesAt(s, 2);
    assert !ClosesAt(s, 1);
    assert DropTrailingCommasFrom(s, 3) == "";
    assert DropTrailingCommasFrom(s, 2) == "]";
    assert DropTrailingCommasFrom(s, 1) == "]";
    assert DropTrailingCommasFrom(s, 0) == "," + "]";
  }

  /** `parseJSONC(content)`; `None` when `JSON.parse` throws. */
  function ParseJsonc(content: string, parse: string -> Option<J.Value>): Option<J.Value>
  {
    parse(DropTrailingCommas(StripBlocks(StripLineComments(content))))
  }

  // ------------------------------------------------------------------ filling undefined keys

  /** `obj[key]` of an object's fields; missing is `undefined`. */
  function Field(f: seq<(string, J.Value)>, k: string): J.Value
  {
    Assoc.Get(f, k).GetOr(J.Undefined)
  }

  /** How a default is turned into the value written: `(obj, key, default) -> value`. */
  type Valuer = (seq<(string, J.Value)>, string, J.Value) -> J.Value

  /** A valuer never writes `undefined` for a defined default. */
  ghost predicate Definite(val: Valuer)
  {
    forall g, k, d :: d != J.Undefined ==> val(g, k, d) != J.Undefined
  }

  /** `if (obj[key] === undefined && default !== undefined) obj[key] = value` */
  function Step(f: seq<(string, J.Value)>, kd: (string, J.Value), val: Valuer): seq<(string, J.Value)>
  {
    if Field(f, kd.0) == J.Undefined && kd.1 != J.Undefined then Assoc.Put(f, kd.0, val(f, kd.0, kd.1)) else f
  }

  /** The steps for `ks`, in order. */
  function Fill(f: seq<(string, J.Value)>, ks: seq<(string, J.Value)>, val: Valuer): seq<(string, J.Value)>
  {
    if |ks| == 0 then f else Step(Fill(f, ks[..|ks| - 1], val), ks[|ks| - 1], val)
  }

  /** Every key with a defined default has a defined value. */
  predicate AllSet(g: seq<(string, J.Value)>, ks: seq<(string, J.Value)>)
  {
    forall i :: 0 <= i < |ks| && ks[i].1 != J.Undefined ==> Field(g, ks[i].0) != J.Undefined
  }

  lemma StepKeeps(f: seq<(string, J.Value)>, kd: (string, J.Value), val: Valuer, k: string)
    requires Field(f, k) != J.Undefined || k != kd.0
    ensures Field(Step(f, kd, val), k) == Field(f, k)
  {
    if Field(f, kd.0) == J.Undefined && kd.1 != J.Undefined {
      Assoc.PutGet(f, kd.0, val(f, kd.0, kd.1), k);
    }
  }

  /** Filling never changes a defined value, nor a key without a default. */
  lemma {:induction false} FillKeeps(f: seq<(string, J.Value)>, ks: seq<(string, J.Value)>, val: Valuer, k: string)
    requires Field(f, k) != J.Undefined || k !in Assoc.Keys(ks)
    ensures Field(Fill(f, ks, val), k) == Field(f, k)
  {
    if |ks| > 0 {
      var front := ks[..|ks| - 1];
      assert Assoc.Keys(ks) == Assoc.Keys(front) + [ks[|ks| - 1].0];
      FillKeeps(f, front, val, k);
      StepKeeps(Fill(f, front, val), ks[|ks| - 1], val, k);
    }
  }

  /** After filling, every key with a defined default is defined. */
  lemma {:induction false} FillSets(f: seq<(string, J.Value)>, ks: seq<(string, J.Value)>, val: Valuer)
    requires Definite(val)
    ensures AllSet(Fill(f, ks, val), ks)
  {
    if |ks| > 0 {
      var front := ks[..|ks| - 1];
      var last := ks[|ks| - 1];
      var g := Fill(f, front, val);
      FillSets(f, front, val);
      var h := Step(g, last, val);
      forall i | 0 <= i < |ks| && ks[i].1 != J.Undefined ensures Field(h, ks[i].0) != J.Undefined {
        if i < |ks| - 1 {
          assert front[i] == ks[i];
          StepKeeps(g, last, val, ks[i].0);
        } else if Field(g, last.0) == J.Undefined {
          Assoc.PutGet(g, last.0, val(g, last.0, last.1), last.0);
        }
      }
    }
  }

  /** Filling an object whose defaulted keys are all defined changes nothing. */
  lemma {:induction false} FillOfSet(g: seq<(string, J.Value)>, ks: seq<(string, J.Value)>, val: Valuer)
    requires AllSet(g, ks)
    ensures Fill(g, ks, val) == g
  {
    if |ks| > 0 {
      var front := ks[..|ks| - 1];
      assert AllSet(g, front) by {
        forall i | 0 <= i < |front| && front[i].1 != J.Undefined ensures Field(g, front[i].0) != J.Undefined {
          assert front[i] == ks[i];
        }
      }
      FillOfSet(g, front, val);
    }
  }

  /** Filling twice is filling once. */
  lemma FillIdempotent(f: seq<(string, J.Value)>, ks: seq<(string, J.Value)>, val: Valuer)
    requires Definite(val)
    ensures Fill(Fill(f, ks, val), ks, val) == Fill(f, ks, val)
  {
    FillSets(f, ks, val);
    FillOfSet(Fill(f, ks, val), ks, val);
  }

  // ------------------------------------------------------------------ schema defaults

  /** `obj.name || ''` */
  function NameOr(g: seq<(string, J.Value)>): string
  {
    var n := Field(g, "name");
    if J.Truthy(n) then J.Text(n) else ""
  }

  /** `getContextByType(type)` */
  function ContextByType(isBase: bool): string
  {
    if isBase then "base/{name}" else "apps/{name}"
  }

  /** How a schema default is written: strings get the first `{name}` replaced, `context` by its type-specific template. */
  function PropValue(isBase: bool): Valuer
  {
    (g: seq<(string, J.Value)>, k: string, d: J.Value) =>
      if d.Str? then J.Str(ReplaceFirst(if k == "context" then ContextByType(isBase) else d.s, "{name}", NameOr(g))) else d
  }

  lemma PropValueDefinite(isBase: bool)
    ensures Definite(PropValue(isBase))
  {
  }

  /** Replacing the first `{name}` after text without `{`. */
  lemma {:induction false} ReplaceName(pre: string, post: string, name: string)
    requires '{' !in pre
    ensures ReplaceFirst(pre + "{name}" + post, "{name}", name) == pre + name + post
    decreases |pre|
  {
    var s := pre + "{name}" + post;
    if |pre| == 0 {
      assert s == "{name}" + post;
      assert StartsWith(s, "{name}") by { assert s[..6] == "{name}"; }
      assert s[6..] == post;
    } else {
      assert pre[0] in pre;
      assert s[0] == pre[0] != '{';
      assert s[..6][0] == s[0] != "{name}"[0];
      assert s[1..] == pre[1..] + "{name}" + post;
      assert '{' !in pre[1..] by {
        forall j | 0 <= j < |pre[1..]| ensures pre[1..][j] != '{' {
          assert pre[1..][j] == pre[j + 1] && pre[j + 1] in pre;
        }
      }
      ReplaceName(pre[1..], post, name);
      assert [pre[0]] + pre[1..] == pre;
    }
  }

  /** A `context` default is `base/<name>` for base metas, else `apps/<name>`, whatever the schema's string. */
  lemma ContextDefault(g: seq<(string, J.Value)>, isBase: bool, d: string)
    ensures PropValue(isBase)(g, "context", J.Str(d)) == J.Str((if isBase then "base/" else "apps/") + NameOr(g))
  {
    var pre := if isBase then "base/" else "apps/";
    assert ContextByType(isBase) == pre + "{name}" + "";
    ReplaceName(pre, "", NameOr(g));
  }

  predicate Reserved(k: string) { k == "$ref" || k == "additionalProperties" }

  /** The schema properties the defaults loop does not skip. */
  function Unreserved(props: seq<(string, J.Value)>): seq<(string, J.Value)>
  {
    if |props| == 0 then []
    else Unreserved(props[..|props| - 1]) + (if Reserved(props[|props| - 1].0) then [] else [props[|props| - 1]])
  }

  /** `applyPropertyDefaults(result, schema.properties)`, specified; `props` maps each property to its `default`. */
  function PropertyDefaults(f: seq<(string, J.Value)>, props: seq<(string, J.Value)>, isBase: bool): seq<(string, J.Value)>
  {
    Fill(f, Unreserved(props), PropValue(isBase))
  }

  /** One more property filled: nothing for a reserved key, else one `Step`. */
  lemma FillNext(obj: seq<(string, J.Value)>, props: seq<(string, J.Value)>, i: nat, val: Valuer)
    requires i < |props|
    ensures Fill(obj, Unreserved(props[..i + 1]), val) ==
      if Reserved(props[i].0) then Fill(obj, Unreserved(props[..i]), val)
      else Step(Fill(obj, Unreserved(props[..i]), val), props[i], val)
  {
    var next := props[..i + 1];
    assert next[..|next| - 1] == props[..i] && next[|next| - 1] == props[i];
    var done := Unreserved(props[..i]);
    assert Unreserved(next) == done + (if Reserved(props[i].0) then [] else [props[i]]);
    if !Reserved(props[i].0) {
      var more := done + [props[i]];
      assert more[..|more| - 1] == done && more[|more| - 1] == props[i];
      assert Fill(obj, more, val) == Step(Fill(obj, done, val), props[i], val);
    } else {
      assert Unreserved(next) == done;
    }
  }

  /** `applyPropertyDefaults(obj, properties)` */
  method ApplyPropertyDefaults(obj: seq<(string, J.Value)>, props: seq<(string, J.Value)>, isBase: bool)
    returns (r: seq<(string, J.Value)>)
    ensures r == PropertyDefaults(obj, props, isBase)
  {
    r := obj;
    var i := 0;
    while i < |props|
      invariant 0 <= i <= |props|
      invariant r == Fill(obj, Unreserved(props[..i]), PropValue(isBase))
    {
      var (key, default) := props[i];
      assert props[..i + 1][..i] == props[..i];
      FillNext(obj, props, i, PropValue(isBase));
      if Reserved(key) {
        i := i + 1;
        continue;
      }
      if Field(r, key) == J.Undefined && default != J.Undefined {
        var value := default;
        if default.Str? {
          if key == "context" {
            value := J.Str(ReplaceFirst(ContextByType(isBase), "{name}", NameOr(r)));
          } else {
            value := J.Str(ReplaceFirst(default.s, "{name}", NameOr(r)));
          }
        }
        assert value == PropValue(isBase)(r, key, default);
        r := Assoc.Put(r, key, value);
      }
      i := i + 1;
    }
    assert props[..i] == props;
  }

  // ------------------------------------------------------------------ variant defaults

  /** Writes the default itself. */
  function AsIs(): Valuer { (g: seq<(string, J.Value)>, k: string, d: J.Value) => d }

  const VariantTop: seq<(string, J.Value)> := [("enabled", J.Bool(true))]
  const CheckverDefaults: seq<(string, J.Value)> := [("branch", J.Str("main")), ("processFiles", J.Arr([J.Str("Dockerfile")]))]

  /** The `docker` defaults, images named after `result.name`. */
  function DockerDefaults(name: string): seq<(string, J.Value)>
  {
    [("file", J.Str("Dockerfile")),
     ("images", J.Arr([J.Str(ReplaceFirst("aliuq/{name}", "{name}", name)), J.Str(ReplaceFirst("ghcr.io/aliuq/{name}", "{name}", name))])),
     ("tags", J.Arr([J.Str("type=raw,value=latest"), J.Str("type=raw,value={{version}}"), J.Str("type=raw,value={{sha}}")])),
     ("platforms", J.Arr([J.Str("linux/amd64"), J.Str("linux/arm64")])),
     ("push", J.Bool(true)),
     ("load", J.Bool(false))]
  }

  /** The default images are `aliuq/<name>` and `ghcr.io/aliuq/<name>`. */
  lemma DockerDefaultImages(name: string)
    ensures Field(DockerDefaults(name), "images") == J.Arr([J.Str("aliuq/" + name), J.Str("ghcr.io/aliuq/" + name)])
  {
    assert "aliuq/{name}" == "aliuq/" + "{name}" + "";
    assert "ghcr.io/aliuq/{name}" == "ghcr.io/aliuq/" + "{name}" + "";
    ReplaceName("aliuq/", "", name);
    ReplaceName("ghcr.io/aliuq/", "", name);
    var d := DockerDefaults(name);
    assert d[0].0 != "images" && d[1].0 == "images";
    assert Assoc.Get(d, "images") == Assoc.Get(d[1..], "images") == Some(d[1].1);
    assert ReplaceFirst("aliuq/{name}", "{name}", name) == "aliuq/" + name;
    assert ReplaceFirst("ghcr.io/aliuq/{name}", "{name}", name) == "ghcr.io/aliuq/" + name;
    assert d[1].1 == J.Arr([J.Str("aliuq/" + name), J.Str("ghcr.io/aliuq/" + name)]);
  }

  /** Replaces an object-valued field by the result of filling it; `checkver`/`docker` objects are filled in place. */
  function FillNested(f: seq<(string, J.Value)>, key: string, ks: seq<(string, J.Value)>): seq<(string, J.Value)>
  {
    var sub := Field(f, key);
    if sub.Obj? then Assoc.Put(f, key, J.Obj(Fill(sub.fields, ks, AsIs()))) else f
  }

  /** The defaults of one variant; `None` when the variant is `null` (reading its fields throws). */
  function FillVariant(v: J.Value, name: string): Option<J.Value>
  {
    match v
    case Null => None
    case Obj(f) =>
      var f1 := Fill(f, VariantTop, AsIs());
      Some(J.Obj(FillNested(FillNested(f1, "checkver", CheckverDefaults), "docker", DockerDefaults(name))))
    case _ => Some(v)      // a primitive ignores the writes; an array's extra properties are not serialised
  }

  lemma FillNestedKeeps(f: seq<(string, J.Value)>, key: string, ks: seq<(string, J.Value)>, k: string)
    requires k != key
    ensures Field(FillNested(f, key, ks), k) == Field(f, k)
  {
    var sub := Field(f, key);
    if sub.Obj? {
      Assoc.PutGet(f, key, J.Obj(Fill(sub.fields, ks, AsIs())), k);
    }
  }

  lemma FillOne(f: seq<(string, J.Value)>, kd: (string, J.Value), val: Valuer)
    ensures Fill(f, [kd], val) == Step(f, kd, val)
  {
    assert [kd][..0] == [];
  }

  /** A variant object gets `enabled: true` unless it sets `enabled` itself. */
  lemma FillVariantEnabled(f: seq<(string, J.Value)>, name: string)
    ensures FillVariant(J.Obj(f), name).Some? && FillVariant(J.Obj(f), name).value.Obj?
    ensures Field(FillVariant(J.Obj(f), name).value.fields, "enabled") ==
      if Field(f, "enabled") == J.Undefined then J.Bool(true) else Field(f, "enabled")
  {
    var f1 := Fill(f, VariantTop, AsIs());
    var expected := if Field(f, "enabled") == J.Undefined then J.Bool(true) else Field(f, "enabled");
    assert Field(f1, "enabled") == expected by {
      FillOne(f, ("enabled", J.Bool(true)), AsIs());
      if Field(f, "enabled") == J.Undefined {
        Assoc.PutGet(f, "enabled", J.Bool(true), "enabled");
      }
    }
    var f2 := FillNested(f1, "checkver", CheckverDefaults);
    var dd := DockerDefaults(name);
    FillNestedKeeps(f1, "checkver", CheckverDefaults, "enabled");
    FillNestedKeeps(f2, "docker", dd, "enabled");
    assert FillVariant(J.Obj(f), name) == Some(J.Obj(FillNested(f2, "docker", dd)));
  }

  /** Only a `null` variant throws. */
  lemma FillVariantNone(v: J.Value, name: string)
    ensures FillVariant(v, name).None? <==> v == J.Null
  {
  }

  /** A `null` variant makes `applyDefaults` throw. */
  predicate NullFree(vs: seq<J.Value>)
  {
    forall i :: 0 <= i < |vs| ==> vs[i] != J.Null
  }

  /** Each variant with its defaults, keys kept. */
  function FilledFields(vs: seq<(string, J.Value)>, name: string): (r: seq<(string, J.Value)>)
    ensures Assoc.Keys(r) == Assoc.Keys(vs)
  {
    if |vs| == 0 then []
    else FilledFields(vs[..|vs| - 1], name) + [(vs[|vs| - 1].0, FillVariant(vs[|vs| - 1].1, name).GetOr(J.Null))]
  }

  function FilledItems(vs: seq<J.Value>, name: string): (r: seq<J.Value>)
    ensures |r| == |vs|
  {
    if |vs| == 0 then [] else FilledItems(vs[..|vs| - 1], name) + [FillVariant(vs[|vs| - 1], name).GetOr(J.Null)]
  }

  /** The `result.variants` step. */
  function VariantDefaults(r: seq<(string, J.Value)>): Option<seq<(string, J.Value)>>
  {
    var vs := Field(r, "variants");
    var name := J.Text(Field(r, "name"));
    if !J.Truthy(vs) then Some(r)
    else match vs
      case Obj(fields) =>
        if NullFree(Assoc.Values(fields)) then Some(Assoc.Put(r, "variants", J.Obj(FilledFields(fields, name)))) else None
      case Arr(items) =>
        if NullFree(items) then Some(Assoc.Put(r, "variants", J.Arr(FilledItems(items, name)))) else None
      case _ => Some(r)
  }

  /** `applyDefaults(meta)`, specified: schema defaults on a shallow copy, then variant defaults; `None` when it throws. */
  function ApplyDefaultsSpec(meta: J.Value, props: seq<(string, J.Value)>): Option<seq<(string, J.Value)>>
  {
    var fields := if meta.Obj? then meta.fields else [];
    var isBase := Field(fields, "type") == J.Str("base");
    VariantDefaults(PropertyDefaults(fields, props, isBase))
  }

  lemma NullFreeValues(vs: seq<(string, J.Value)>)
    ensures NullFree(Assoc.Values(vs)) <==> forall j :: 0 <= j < |vs| ==> vs[j].1 != J.Null
  {
    var w := Assoc.Values(vs);
    assert forall j :: 0 <= j < |vs| ==> w[j] == vs[j].1;
  }

  lemma FilledFieldsSnoc(vs: seq<(string, J.Value)>, i: nat, name: string)
    requires i < |vs|
    ensures FilledFields(vs[..i + 1], name) == FilledFields(vs[..i], name) + [(vs[i].0, FillVariant(vs[i].1, name).GetOr(J.Null))]
  {
    var next := vs[..i + 1];
    assert next[..i] == vs[..i] && next[i] == vs[i];
  }

  /** The loop over an object of variants. */
  method FillVariantsLoop(vs: seq<(string, J.Value)>, name: string) returns (r: Option<seq<(string, J.Value)>>)
    ensures r == if NullFree(Assoc.Values(vs)) then Some(FilledFields(vs, name)) else None
  {
    var done: seq<(string, J.Value)> := [];
    var i := 0;
    while i < |vs|
      invariant 0 <= i <= |vs|
      invariant done == FilledFields(vs[..i], name)
      invariant forall j :: 0 <= j < i ==> vs[j].1 != J.Null
    {
      var v := FillVariant(vs[i].1, name);
      FillVariantNone(vs[i].1, name);
      if v.None? {
        NullFreeValues(vs);
        return None;
      }
      FilledFieldsSnoc(vs, i, name);
      done := done + [(vs[i].0, v.GetOr(J.Null))];
      i := i + 1;
    }
    assert vs[..i] == vs;
    NullFreeValues(vs);
    r := Some(done);
  }

  /** The loop over an array of variants. */
  method FillVariantItemsLoop(vs: seq<J.Value>, name: string) returns (r: Option<seq<J.Value>>)
    ensures r == if NullFree(vs) then Some(FilledItems(vs, name)) else None
  {
    var done: seq<J.Value> := [];
    var i := 0;
    while i < |vs|
      invariant 0 <= i <= |vs|
      invariant done == FilledItems(vs[..i], name)
      invariant forall j :: 0 <= j < i ==> vs[j] != J.Null
    {
      var v := FillVariant(vs[i], name);
      FillVariantNone(vs[i], name);
      if v.None? {
        return None;
      }
      assert vs[..i + 1][..i] == vs[..i];
      done := done + [v.value];
      i := i + 1;
    }
    assert vs[..i] == vs;
    r := Some(done);
  }

  lemma VariantDefaultsKeeps(r: seq<(string, J.Value)>, k: string)
    requires k != "variants"
    ensures VariantDefaults(r).Some? ==> Field(VariantDefaults(r).value, k) == Field(r, k)
  {
    var vs := Field(r, "variants");
    if J.Truthy(vs) && vs.Obj? && NullFree(Assoc.Values(vs.fields)) {
      Assoc.PutGet(r, "variants", J.Obj(FilledFields(vs.fields, J.Text(Field(r, "name")))), k);
    } else if J.Truthy(vs) && vs.Arr? && NullFree(vs.items) {
      Assoc.PutGet(r, "variants", J.Arr(FilledItems(vs.items, J.Text(Field(r, "name")))), k);
    }
  }

  lemma VariantDefaultsDefined(r: seq<(string, J.Value)>)
    requires Field(r, "variants") != J.Undefined
    ensures VariantDefaults(r).Some? ==> Field(VariantDefaults(r).value, "variants") != J.Undefined
  {
    var vs := Field(r, "variants");
    if J.Truthy(vs) && vs.Obj? && NullFree(Assoc.Values(vs.fields)) {
      Assoc.PutGet(r, "variants", J.Obj(FilledFields(vs.fields, J.Text(Field(r, "name")))), "variants");
    } else if J.Truthy(vs) && vs.Arr? && NullFree(vs.items) {
      Assoc.PutGet(r, "variants", J.Arr(FilledItems(vs.items, J.Text(Field(r, "name")))), "variants");
    }
  }

  /** A top-level field the meta sets, or one the schema gives no default, comes through `applyDefaults` unchanged (`variants` aside). */
  lemma ApplyDefaultsKeeps(meta: J.Value, props: seq<(string, J.Value)>, k: string)
    requires meta.Obj? && k != "variants"
    requires Field(meta.fields, k) != J.Undefined || k !in Assoc.Keys(Unreserved(props))
    ensures ApplyDefaultsSpec(meta, props).Some? ==> Field(ApplyDefaultsSpec(meta, props).value, k) == Field(meta.fields, k)
  {
    var isBase := Field(meta.fields, "type") == J.Str("base");
    FillKeeps(meta.fields, Unreserved(props), PropValue(isBase), k);
    VariantDefaultsKeeps(PropertyDefaults(meta.fields, props, isBase), k);
  }

  /** After `applyDefaults` every property with a schema default is defined. */
  lemma ApplyDefaultsSets(meta: J.Value, props: seq<(string, J.Value)>)
    ensures ApplyDefaultsSpec(meta, props).Some? ==> AllSet(ApplyDefaultsSpec(meta, props).value, Unreserved(props))
  {
    var fields := if meta.Obj? then meta.fields else [];
    var isBase := Field(fields, "type") == J.Str("base");
    var ks := Unreserved(props);
    var r := PropertyDefaults(fields, props, isBase);
    PropValueDefinite(isBase);
    FillSets(fields, ks, PropValue(isBase));
    var out := VariantDefaults(r);
    if out.Some? {
      forall i | 0 <= i < |ks| && ks[i].1 != J.Undefined ensures Field(out.value, ks[i].0) != J.Undefined {
        if ks[i].0 == "variants" {
          VariantDefaultsDefined(r);
        } else {
          VariantDefaultsKeeps(r, ks[i].0);
        }
      }
    }
  }

  /** `applyDefaults(meta, _category)` */
  method ApplyDefaults(meta: J.Value, props: seq<(string, J.Value)>) returns (result: Option<seq<(string, J.Value)>>)
    ensures result == ApplyDefaultsSpec(meta, props)
  {
    var fields := if meta.Obj? then meta.fields else [];
    var r := ApplyPropertyDefaults(fields, props, Field(fields, "type") == J.Str("base"));
    var vs := Field(r, "variants");
    var name := J.Text(Field(r, "name"));
    if J.Truthy(vs) && vs.Obj? {
      var m := FillVariantsLoop(vs.fields, name);
      if m.None? {
        return None;
      }
      r := Assoc.Put(r, "variants", J.Obj(m.value));
    } else if J.Truthy(vs) && vs.Arr? {
      var m := FillVariantItemsLoop(vs.items, name);
      if m.None? {
        return None;
      }
      r := Assoc.Put(r, "variants", J.Arr(m.value));
    }
    result := Some(r);
  }

  // ------------------------------------------------------------------ catalogue entries

  /** What `spawnSync('git', ['log', '-1', '--format=%ct', '--', path])` reported. */
  datatype GitRun = GitRun(status: Option<int>, stdout: string)

  /** `Number.parseInt(t, 10)`: an optional sign, then the leading digits; `None` for `NaN`. */
  function ParseIntText(t: string): (r: Option<int>)
    ensures r.Some? ==> |t| > 0
  {
    var signed := |t| > 0 && (t[0] == '-' || t[0] == '+');
    var body := if signed then t[1..] else t;
    var d := DigitRun(body);
    if |d| == 0 then None
    else Some(if signed && t[0] == '-' then -(DigitsValue(d) as int) else DigitsValue(d))
  }

  /** The commit time of the meta file's last change, in epoch seconds; `None` leaves `updatedAt` undefined. */
  function UpdatedAt(run: GitRun): Option<int>
  {
    if run.status == Some(0) && |run.stdout| > 0 then ParseIntText(Trim(run.stdout)) else None
  }

  /** The line `git log --format=%ct` prints gives back its timestamp. */
  lemma UpdatedAtOfLog(n: nat)
    ensures UpdatedAt(GitRun(Some(0), NatToString(n) + "\n")) == Some(n)
  {
    var d := NatToString(n);
    TrimLine(d);
    ParseDigits(d);
    DigitsValueOfNatToString(n);
  }

  lemma TrimLine(d: string)
    requires |d| >= 1 && AllDigits(d)
    ensures Trim(d + "\n") == d
  {
    var out := d + "\n";
    DigitNotSpace(d[0]);
    DigitNotSpace(d[|d| - 1]);
    assert out[0] == d[0];
    assert TrimStart(out) == out;
    assert out[|out| - 1] == '\n' && out[..|out| - 1] == d;
    assert TrimEnd(out) == TrimEnd(d);
    assert TrimEnd(d) == d;
  }

  lemma DigitNotSpace(c: char)
    requires IsDigit(c)
    ensures !IsSpace(c)
  {
  }

  lemma ParseDigits(d: string)
    requires |d| >= 1 && AllDigits(d)
    ensures ParseIntText(d) == Some(DigitsValue(d) as int)
  {
    assert !(d[0] == '-' || d[0] == '+');
    DigitRunOfDigits(d);
  }

  lemma {:induction false} DigitRunOfDigits(d: string)
    requires AllDigits(d)
    ensures DigitRun(d) == d
  {
    if |d| > 0 {
      DigitRunOfDigits(d[1..]);
      assert d == [d[0]] + d[1..];
    }
  }

  /** A failed or silent `git log` leaves the entry without a time. */
  lemma UpdatedAtMissing(run: GitRun)
    ensures run.status != Some(0) || run.stdout == [] ==> UpdatedAt(run).None?
    ensures UpdatedAt(run).Some? ==> exists k :: 0 <= k < |run.stdout| && IsDigit(run.stdout[k])
  {
    if UpdatedAt(run).Some? {
      var t := Trim(run.stdout);
      var start := TrimStart(run.stdout);
      var signed := |t| > 0 && (t[0] == '-' || t[0] == '+');
      var body := if signed then t[1..] else t;
      var d := DigitRun(body);
      var k := |run.stdout| - |start| + (if signed then 1 else 0);
      assert t == start[..|t|];
      assert d[0] == body[0] == t[if signed then 1 else 0];
      assert run.stdout[k] == start[if signed then 1 else 0];
    }
  }

  /** A sub-directory of `apps` or `base`. */
  datatype DirEntry = DirEntry(
    name: string, isDirectory: bool,
    metaJson: Option<string>,     // the content of `<name>/meta.json`, `None` when it is absent
    hasReadme: bool, log: GitRun)

  /** The category of a directory: `app` for `apps`, else `base`. */
  datatype Category = App | Base

  /** One catalogue entry: the completed meta followed by the fields the generator adds. */
  datatype AppEntry = AppEntry(
    meta: seq<(string, J.Value)>, category: Category, readmePath: string, hasReadme: bool,
    updatedAt: Option<int>)          // epoch seconds, written out as an ISO date

  /** `apps/<meta.name>` or `base/<meta.name>`, from the meta as read. */
  function ReadmePath(category: Category, meta: J.Value): string
  {
    var fields := if meta.Obj? then meta.fields else [];
    (if category == App then "apps/" else "base/") + J.Text(Field(fields, "name"))
  }

  /**
   * The path is the category's directory and the name of the meta as read:
   * a string name as it is, a missing one as `undefined`.
   */
  lemma ReadmePathCases(category: Category, meta: J.Value)
    ensures var dir := if category == App then "apps/" else "base/";
      var r := ReadmePath(category, meta);
      StartsWith(r, dir)
      && (meta.Obj? && Field(meta.fields, "name").Str? ==> r == dir + Field(meta.fields, "name").s)
      && (!meta.Obj? || Field(meta.fields, "name") == J.Undefined ==> r == dir + "undefined")
  {
  }

  /** Reading `meta.name` for the README path throws when the parsed meta is `null` (or `undefined`). */
  predicate ReadmeThrows(meta: J.Value) { meta == J.Null || meta == J.Undefined }

  /** The entry of one directory; `None` when it is skipped or its reading throws. */
  function EntryOf(e: DirEntry, category: Category, parse: string -> Option<J.Value>, props: seq<(string, J.Value)>): Option<AppEntry>
  {
    if !e.isDirectory || e.metaJson.None? then None
    else match ParseJsonc(e.metaJson.value, parse)
      case None => None
      case Some(meta) =>
        match ApplyDefaultsSpec(meta, props)
        case None => None
        case Some(complete) => if ReadmeThrows(meta) then None else Some(AppEntry(complete, category, ReadmePath(category, meta), e.hasReadme, UpdatedAt(e.log)))
  }

  /** The entries of a directory listing, in listing order. */
  function Entries(es: seq<DirEntry>, category: Category, parse: string -> Option<J.Value>, props: seq<(string, J.Value)>): seq<AppEntry>
  {
    if |es| == 0 then []
    else
      var front := Entries(es[..|es| - 1], category, parse, props);
      match EntryOf(es[|es| - 1], category, parse, props) case Some(a) => front + [a] case None => front
  }

  /** Every entry comes from a listed directory with a readable meta, carries the category, and none is made up. */
  lemma {:induction false} EntriesSound(es: seq<DirEntry>, category: Category, parse: string -> Option<J.Value>, props: seq<(string, J.Value)>)
    ensures |Entries(es, category, parse, props)| <= |es|
    ensures forall a :: a in Entries(es, category, parse, props) ==>
      a.category == category && exists e :: e in es && EntryOf(e, category, parse, props) == Some(a)
  {
    if |es| > 0 {
      var front := es[..|es| - 1];
      EntriesSound(front, category, parse, props);
      forall a | a in Entries(es, category, parse, props)
        ensures a.category == category && exists e :: e in es && EntryOf(e, category, parse, props) == Some(a)
      {
        if a in Entries(front, category, parse, props) {
          var e :| e in front && EntryOf(e, category, parse, props) == Some(a);
          assert e in es;
        } else {
          assert EntryOf(es[|es| - 1], category, parse, props) == Some(a);
          assert es[|es| - 1] in es;
        }
      }
    }
  }

  /** A directory whose meta reads without error gives exactly one entry. */
  lemma EntriesSnoc(es: seq<DirEntry>, e: DirEntry, category: Category, parse: string -> Option<J.Value>, props: seq<(string, J.Value)>)
    ensures Entries(es + [e], category, parse, props) ==
      Entries(es, category, parse, props) + (match EntryOf(e, category, parse, props) case Some(a) => [a] case None => [])
  {
    assert (es + [e])[..|es|] == es;
  }

  /** One turn of the `readMetaFiles` loop: the skips and the `try` block. */
  method ReadEntry(e: DirEntry, category: Category, parse: string -> Option<J.Value>, props: seq<(string, J.Value)>)
    returns (entry: Option<AppEntry>)
    ensures entry == EntryOf(e, category, parse, props)
  {
    if !e.isDirectory || e.metaJson.None? {
      return None;
    }
    var meta := ParseJsonc(e.metaJson.value, parse);
    if meta.None? {
      return None;
    }
    var complete := ApplyDefaults(meta.value, props);
    if complete.None? || ReadmeThrows(meta.value) {
      return None;
    }
    entry := Some(AppEntry(complete.value, category, ReadmePath(category, meta.value), e.hasReadme, UpdatedAt(e.log)));
  }

  /** `readMetaFiles(dir, category)`; `listing` is `None` when the directory does not exist. */
  method ReadMetaFiles(listing: Option<seq<DirEntry>>, category: Category, parse: string -> Option<J.Value>, props: seq<(string, J.Value)>)
    returns (apps: seq<AppEntry>)
    ensures apps == if listing.None? then [] else Entries(listing.value, category, parse, props)
  {
    apps := [];
    if listing.None? {
      return;
    }
    var es := listing.value;
    var i := 0;
    while i < |es|
      invariant 0 <= i <= |es|
      invariant apps == Entries(es[..i], category, parse, props)
    {
      var e := es[i];
      assert es[..i + 1] == es[..i] + [e];
      EntriesSnoc(es[..i], e, category, parse, props);
      var entry := ReadEntry(e, category, parse, props);
      if entry.Some? {
        apps := apps + [entry.value];
      }
      i := i + 1;
    }
    assert es[..i] == es;
  }

  // ------------------------------------------------------------------ output

  /** `new Date(a.updatedAt || 0).getTime()` */
  function SortTime(a: AppEntry): int
  {
    match a.updatedAt case Some(t) => t * 1000 case None => 0
  }

  /** The comparator `dateB - dateA` read as "`a` may stay before `b`": newest first. */
  function NewestFirst(): (AppEntry, AppEntry) -> bool
  {
    (a: AppEntry, b: AppEntry) => SortTime(a) >= SortTime(b)
  }

  lemma NewestFirstTotal()
    ensures Sorting.TotalPreorder(NewestFirst())
  {
  }

  /** `data.json`: the generation time is not modelled. */
  datatype Data = Data(total: nat, apps: seq<AppEntry>)

  /** `main()`: apps then base entries, sorted newest first. */
  method Generate(appsDir: Option<seq<DirEntry>>, baseDir: Option<seq<DirEntry>>, parse: string -> Option<J.Value>, props: seq<(string, J.Value)>)
    returns (data: Data)
    ensures data.total == |data.apps|
    ensures multiset(data.apps) ==
      multiset((if appsDir.None? then [] else Entries(appsDir.value, App, parse, props))
               + (if baseDir.None? then [] else Entries(baseDir.value, Base, parse, props)))
    ensures forall i, j :: 0 <= i < j < |data.apps| ==> SortTime(data.apps[i]) >= SortTime(data.apps[j])
  {
    var fromApps := ReadMetaFiles(appsDir, App, parse, props);
    var fromBase := ReadMetaFiles(baseDir, Base, parse, props);
    var all := fromApps + fromBase;
    NewestFirstTotal();
    var sorted := Sorting.Sort(all, NewestFirst());
    Sorting.SortSorted(all, NewestFirst());
    data := Data(|sorted|, sorted);
  }
}
