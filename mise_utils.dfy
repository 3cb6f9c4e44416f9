/**
 * The history and log helpers of the local workflow runner
 * (mise-tasks/lib/utils.mjs): the per-task trimmed command history kept in
 * `.mise-logs/history.json`, its per-task view, and the log file name.
 *
 * The history file's content is a parameter (`None` when it is absent or
 * cannot be read), `JSON.parse` is an oracle, and the ISO timestamp of
 * `new Date()` is a parameter.
 */
module MiseUtils {
  import opened Options
  import opened Strings
  import Lists
  import J = Json

  const DataDir := ".mise-logs"
  const MaxHistory := 20

  /** `readHistory()`: the stored array, or `[]` when the file is missing, unparsable or not an array. */
  function ReadHistory(file: Option<string>, parse: string -> Option<J.Value>): (r: seq<J.Value>)
    ensures file.Some? && parse(file.value).Some? && parse(file.value).value.Arr? ==> r == parse(file.value).value.items
    ensures !(file.Some? && parse(file.value).Some? && parse(file.value).value.Arr?) ==> r == []
  {
    if file.None? then []
    else
      var data := parse(file.value);
      if data.Some? && data.value.Arr? then data.value.items else []
  }

  /** The property name `counts[e.task]` looks up; `None` when reading `e.task` throws. */
  function TaskKey(e: J.Value): Option<string>
  {
    if e.Null? || e.Undefined? then None else Some(J.Text(J.Lookup(e, "task")))
  }

  /** How an entry's counting name is read: `TaskKey` in the program. */
  type Reader = J.Value -> Option<string>

  /** The history can be trimmed without a `TypeError`. */
  predicate Readable(key: Reader, es: seq<J.Value>)
  {
    forall i :: 0 <= i < |es| ==> key(es[i]).Some?
  }

  function KeyOf(key: Reader, e: J.Value): string { key(e).GetOr("") }

  /** Entries counted under the name `k`. */
  function Counted(key: Reader, k: string): J.Value -> bool { (e: J.Value) => KeyOf(key, e) == k }

  function CountKey(key: Reader, es: seq<J.Value>, k: string): nat { Lists.Count(es, Counted(key, k)) }

  /** The `filter` of `saveHistory` with its running `counts`: an entry stays when fewer than 20 earlier ones share its task. */
  function Trim(key: Reader, es: seq<J.Value>): (r: seq<J.Value>)
    ensures |r| <= |es|
  {
    if |es| == 0 then []
    else
      var front := es[..|es| - 1];
      var e := es[|es| - 1];
      Trim(key, front) + (if CountKey(key, front, KeyOf(key, e)) < MaxHistory then [e] else [])
  }

  /** Per task, the trimmed history holds exactly the first 20 entries of that task. */
  lemma {:induction false} TrimPerTask(key: Reader, es: seq<J.Value>, k: string)
    ensures Lists.Filter(Trim(key, es), Counted(key, k)) == Prefix(Lists.Filter(es, Counted(key, k)), MaxHistory)
  {
    if |es| > 0 {
      var front := es[..|es| - 1];
      var e := es[|es| - 1];
      var p := Counted(key, k);
      var kept := CountKey(key, front, KeyOf(key, e)) < MaxHistory;
      var t := Trim(key, front);
      var f := Lists.Filter(front, p);
      TrimPerTask(key, front, k);
      assert Trim(key, es) == t + (if kept then [e] else []);
      assert Lists.Filter(es, p) == f + (if p(e) then [e] else []) by {
        assert es == front + [e];
        Lists.FilterSnoc(front, e, p);
      }
      assert p(e) ==> (kept <==> |f| < MaxHistory) by {
        Lists.FilterCount(front, p);
        if p(e) {
          assert KeyOf(key, e) == k;
        }
      }
      PerTaskStep(t, f, e, p, kept, MaxHistory);
    }
  }

  /** One step of `TrimPerTask`, on sequences alone. */
  lemma PerTaskStep<T(!new)>(t: seq<T>, f: seq<T>, e: T, p: T -> bool, kept: bool, n: nat)
    requires Lists.Filter(t, p) == Prefix(f, n)
    requires p(e) ==> (kept <==> |f| < n)
    ensures Lists.Filter(t + (if kept then [e] else []), p) == Prefix(f + (if p(e) then [e] else []), n)
  {
    PrefixSnoc(f, e, n);
    if kept {
      Lists.FilterSnoc(t, e, p);
    } else {
      assert t + [] == t;
    }
    if !p(e) {
      assert f + [] == f;
      assert Lists.Filter(t, p) + [] == Lists.Filter(t, p);
    }
  }

  lemma PrefixSnoc<T>(f: seq<T>, e: T, n: nat)
    ensures Prefix(f + [e], n) == if |f| < n then f + [e] else Prefix(f, n)
  {
    if |f| >= n {
      assert (f + [e])[..n] == f[..n];
    }
  }

  /** No task keeps more than 20 entries; a task with at most 20 keeps them all. */
  lemma TrimCount(key: Reader, es: seq<J.Value>, k: string)
    ensures CountKey(key, Trim(key, es), k) == if CountKey(key, es, k) < MaxHistory then CountKey(key, es, k) else MaxHistory
  {
    TrimPerTask(key, es, k);
    Lists.FilterCount(Trim(key, es), Counted(key, k));
    Lists.FilterCount(es, Counted(key, k));
  }

  /** Trimming keeps the order of what it keeps. */
  lemma {:induction false} TrimSublist(key: Reader, es: seq<J.Value>)
    ensures Lists.Sublist(Trim(key, es), es)
  {
    if |es| > 0 {
      var front := es[..|es| - 1];
      var e := es[|es| - 1];
      TrimSublist(key, front);
      assert es == front + [e];
      if CountKey(key, front, KeyOf(key, e)) < MaxHistory {
        Lists.SublistSnoc(Trim(key, front), front, e);
      } else {
        assert Trim(key, es) == Trim(key, front);
        Lists.SublistSkip(Trim(key, front), front, e);
      }
    }
  }

  /** The first entry always survives the trimming. */
  lemma {:induction false} TrimHead(key: Reader, es: seq<J.Value>)
    requires |es| > 0
    ensures |Trim(key, es)| > 0 && Trim(key, es)[0] == es[0]
  {
    if |es| == 1 {
      assert es[..0] == [];
    } else {
      var front := es[..|es| - 1];
      TrimHead(key, front);
      assert Trim(key, front)[0] == front[0] == es[0];
    }
  }

  /** The record `saveHistory` writes at the front. */
  function Entry(task: string, args: seq<string>, summary: string, timestamp: string): J.Value
  {
    J.Obj([("task", J.Str(task)), ("args", J.Arr(seq(|args|, i requires 0 <= i < |args| => J.Str(args[i])))),
           ("label", J.Str(summary)), ("timestamp", J.Str(timestamp))])
  }

  lemma EntryKey(task: string, args: seq<string>, summary: string, timestamp: string)
    ensures TaskKey(Entry(task, args, summary, timestamp)) == Some(task)
    ensures J.Lookup(Entry(task, args, summary, timestamp), "task") == J.Str(task)
  {
  }

  /** `saveHistory(task, args, label)`: the array written back; `None` when an entry without properties makes it throw. */
  method SaveHistory(task: string, args: seq<string>, summary: string, timestamp: string,
                     file: Option<string>, parse: string -> Option<J.Value>)
    returns (written: Option<seq<J.Value>>)
    ensures var all := [Entry(task, args, summary, timestamp)] + ReadHistory(file, parse);
      written == if Readable(TaskKey, all) then Some(Trim(TaskKey, all)) else None
  {
    var all := ReadHistory(file, parse);
    all := [Entry(task, args, summary, timestamp)] + all;
    written := TrimHistory(TaskKey, all);
  }

  /** `counts` holds the number of entries seen so far under each name. */
  ghost predicate CountsMatch(key: Reader, counts: map<string, nat>, seen: seq<J.Value>)
  {
    (forall k :: k in counts ==> counts[k] == CountKey(key, seen, k))
    && (forall k :: k !in counts ==> CountKey(key, seen, k) == 0)
  }

  lemma CountsNext(key: Reader, counts: map<string, nat>, seen: seq<J.Value>, e: J.Value)
    requires CountsMatch(key, counts, seen)
    ensures var k := KeyOf(key, e);
      var n := (if k in counts then counts[k] else 0) + 1;
      n == CountKey(key, seen, k) + 1 && CountsMatch(key, counts[k := n], seen + [e])
  {
    var name := KeyOf(key, e);
    TrimStep(key, seen, e);
    var n := (if name in counts then counts[name] else 0) + 1;
    var next := counts[name := n];
    forall k | k in next ensures next[k] == CountKey(key, seen + [e], k) {
      if k != name {
        assert next[k] == counts[k];
      }
    }
    forall k | k !in next ensures CountKey(key, seen + [e], k) == 0 {
      assert k != name && k !in counts;
    }
  }

  lemma HistoryStep(key: Reader, counts: map<string, nat>, all: seq<J.Value>, i: nat, k: string, n: nat)
    requires i < |all| && CountsMatch(key, counts, all[..i]) && key(all[i]) == Some(k)
    requires n == (if k in counts then counts[k] else 0) + 1
    ensures CountsMatch(key, counts[k := n], all[..i + 1])
    ensures Trim(key, all[..i + 1]) == Trim(key, all[..i]) + (if n <= MaxHistory then [all[i]] else [])
  {
    assert all[..i + 1] == all[..i] + [all[i]];
    TrimStep(key, all[..i], all[i]);
    CountsNext(key, counts, all[..i], all[i]);
  }

  /** The `filter` with its `counts` dictionary, over the history with the new entry in front. */
  method TrimHistory(key: Reader, all: seq<J.Value>) returns (written: Option<seq<J.Value>>)
    ensures written == if Readable(key, all) then Some(Trim(key, all)) else None
  {
    var counts: map<string, nat> := map[];
    var trimmed: seq<J.Value> := [];
    var i := 0;
    while i < |all|
      invariant 0 <= i <= |all|
      invariant trimmed == Trim(key, all[..i])
      invariant CountsMatch(key, counts, all[..i])
      invariant forall j :: 0 <= j < i ==> key(all[j]).Some?
    {
      var name := key(all[i]);
      if name.None? {
        return None;
      }
      var n := (if name.value in counts then counts[name.value] else 0) + 1;
      HistoryStep(key, counts, all, i, name.value, n);
      counts := counts[name.value := n];
      if n <= MaxHistory {
        trimmed := trimmed + [all[i]];
      }
      i := i + 1;
    }
    assert all[..i] == all;
    written := Some(trimmed);
  }

  /** One more entry: counted under its own name only, and kept when its count is still below 20. */
  lemma TrimStep(key: Reader, before: seq<J.Value>, e: J.Value)
    ensures forall k :: CountKey(key, before + [e], k) == CountKey(key, before, k) + (if KeyOf(key, e) == k then 1 else 0)
    ensures Trim(key, before + [e]) == Trim(key, before) + (if CountKey(key, before, KeyOf(key, e)) < MaxHistory then [e] else [])
  {
    var all := before + [e];
    assert all[..|all| - 1] == before && all[|all| - 1] == e;
  }

  /** The new entry is always the first one written. */
  lemma NewEntrySurvives(task: string, args: seq<string>, summary: string, timestamp: string, history: seq<J.Value>)
    ensures |Trim(TaskKey, [Entry(task, args, summary, timestamp)] + history)| > 0
    ensures Trim(TaskKey, [Entry(task, args, summary, timestamp)] + history)[0] == Entry(task, args, summary, timestamp)
  {
    TrimHead(TaskKey, [Entry(task, args, summary, timestamp)] + history);
  }

  /** The names a `{}` inherits from `Object.prototype`: `counts[name]` starts out as a function or an object there. */
  const InheritedNames: set<string> := {
    "constructor", "__proto__", "__defineGetter__", "__defineSetter__", "__lookupGetter__", "__lookupSetter__",
    "hasOwnProperty", "isPrototypeOf", "propertyIsEnumerable", "toLocaleString", "toString", "valueOf"}

  /**
   * The `filter` exactly as written, `counts` being a plain `{}`: for an inherited name
   * `(counts[name] || 0) + 1` is a string and `<= 20` is false, so such entries are always dropped.
   */
  function TrimAsWritten(key: Reader, es: seq<J.Value>): (r: seq<J.Value>)
    ensures |r| <= |es|
  {
    if |es| == 0 then []
    else
      var front := es[..|es| - 1];
      var e := es[|es| - 1];
      TrimAsWritten(key, front)
        + (if KeyOf(key, e) !in InheritedNames && CountKey(key, front, KeyOf(key, e)) < MaxHistory then [e] else [])
  }

  /** As written, a task named `constructor` never gets its new entry saved. */
  lemma InheritedTaskDropped(timestamp: string)
    ensures TrimAsWritten(TaskKey, [Entry("constructor", [], "", timestamp)]) == []
  {
    var e := Entry("constructor", [], "", timestamp);
    EntryKey("constructor", [], "", timestamp);
    assert KeyOf(TaskKey, e) in InheritedNames;
    assert [e][..0] == [];
  }

  /** `e.task === task` */
  function TaskIs(task: string): J.Value -> bool { (e: J.Value) => J.Lookup(e, "task") == J.Str(task) }

  /** `getHistory(task)`; `None` when an entry without properties makes it throw. */
  function GetHistory(task: string, file: Option<string>, parse: string -> Option<J.Value>): (r: Option<seq<J.Value>>)
    ensures r.Some? ==> Lists.Sublist(r.value, ReadHistory(file, parse))
    ensures r.Some? ==> forall e :: e in r.value <==> e in ReadHistory(file, parse) && J.Lookup(e, "task") == J.Str(task)
    ensures r.None? <==> !Readable(TaskKey, ReadHistory(file, parse))
  {
    var all := ReadHistory(file, parse);
    if Readable(TaskKey, all) then
      Lists.FilterSublist(all, TaskIs(task));
      Some(Lists.Filter(all, TaskIs(task)))
    else None
  }

  /** The view of a task keeps every copy of that task's entries, and nothing else. */
  lemma GetHistoryCopies(task: string, file: Option<string>, parse: string -> Option<J.Value>)
    ensures var r := GetHistory(task, file, parse);
      r.Some? ==> forall e :: multiset(r.value)[e] == if J.Lookup(e, "task") == J.Str(task) then multiset(ReadHistory(file, parse))[e] else 0
  {
    Lists.FilterMultiset(ReadHistory(file, parse), TaskIs(task));
  }

  /** An entry shown for a task is counted under that task's name. */
  lemma TaskIsCounted(e: J.Value, task: string)
    requires TaskIs(task)(e)
    ensures Counted(TaskKey, task)(e)
  {
    assert J.Lookup(e, "task") == J.Str(task);
    assert !e.Null? && !e.Undefined?;
    assert TaskKey(e) == Some(J.Text(J.Str(task)));
  }

  /** A saved history shows at most 20 entries of any one task. */
  lemma HistoryBounded(all: seq<J.Value>, task: string)
    ensures |Lists.Filter(Trim(TaskKey, all), TaskIs(task))| <= MaxHistory
  {
    var t := Trim(TaskKey, all);
    forall i | 0 <= i < |t| && TaskIs(task)(t[i]) ensures Counted(TaskKey, task)(t[i]) {
      TaskIsCounted(t[i], task);
    }
    Lists.CountMono(t, TaskIs(task), Counted(TaskKey, task));
    Lists.FilterCount(t, TaskIs(task));
    TrimCount(TaskKey, all, task);
  }

  // ------------------------------------------------------------------ log files

  function SafeChar(c: char): char { if c == '/' then '_' else if c == ',' then '+' else c }

  /** `context.replace(/\//g, '_').replace(/,/g, '+')` */
  function SafeContext(context: string): (r: string)
    ensures |r| == |context| && forall i :: 0 <= i < |r| ==> r[i] == SafeChar(context[i])
    ensures '/' !in r && ',' !in r
  {
    MapChars(MapChars(context, (c: char) => if c == '/' then '_' else c), (c: char) => if c == ',' then '+' else c)
  }

  /** A context without `/` or `,` is used as it is. */
  lemma SafeContextPlain(context: string)
    requires '/' !in context && ',' !in context
    ensures SafeContext(context) == context
  {
    var r := SafeContext(context);
    forall i | 0 <= i < |r| ensures r[i] == context[i] {
      assert context[i] in context;
    }
  }

  function StampChar(c: char): char { if c == ':' || c == '.' then '-' else c }

  /** `toISOString().replace(/[:.]/g, '-').slice(0, 19)` */
  function LogStamp(iso: string): (r: string)
    ensures |r| <= 19 && ':' !in r && '.' !in r
  {
    var m := MapChars(iso, StampChar);
    var r := Take(m, 19);
    assert forall i :: 0 <= i < |r| ==> r[i] == m[i];
    r
  }

  /** An ISO time `YYYY-MM-DDTHH:mm:ss.sssZ` gives `YYYY-MM-DDTHH-mm-ss`. */
  lemma LogStampOfIso(date: string, hh: string, mm: string, ss: string, ms: string)
    requires |date| == 10 && AllDigits(hh) && AllDigits(mm) && AllDigits(ss)
    requires |hh| == 2 && |mm| == 2 && |ss| == 2
    requires ':' !in date && '.' !in date
    ensures LogStamp(date + "T" + hh + ":" + mm + ":" + ss + "." + ms + "Z") == date + "T" + hh + "-" + mm + "-" + ss
  {
    var iso := date + "T" + hh + ":" + mm + ":" + ss + "." + ms + "Z";
    var want := date + "T" + hh + "-" + mm + "-" + ss;
    var m := MapChars(iso, StampChar);
    assert |want| == 19;
    forall i | 0 <= i < 19 ensures m[i] == want[i] {
      if i < 10 {
        assert iso[i] == date[i] && want[i] == date[i] && date[i] in date;
      } else if i == 10 {
        assert iso[i] == 'T' == want[i];
      } else if i < 13 {
        assert iso[i] == hh[i - 11] == want[i];
      } else if i == 13 {
        assert iso[i] == ':' && want[i] == '-';
      } else if i < 16 {
        assert iso[i] == mm[i - 14] == want[i];
      } else if i == 16 {
        assert iso[i] == ':' && want[i] == '-';
      } else {
        assert iso[i] == ss[i - 17] == want[i];
      }
    }
    assert Take(m, 19) == want;
  }

  /** `getLogPath(task, context)` */
  function LogPath(task: string, context: string, iso: string): string
  {
    DataDir + "/" + task + "-" + SafeContext(context) + "-" + LogStamp(iso) + ".log"
  }

  /** The log file sits directly in `.mise-logs` when neither the name passed in nor the time holds `/`. */
  lemma LogPathInDataDir(task: string, context: string, iso: string)
    requires '/' !in task && '/' !in iso
    ensures var p := LogPath(task, context, iso);
      StartsWith(p, DataDir + "/") && EndsWith(p, ".log") && '/' !in p[|DataDir| + 1..]
  {
    var stamp := LogStamp(iso);
    var m := MapChars(iso, StampChar);
    assert '/' !in stamp by {
      forall i | 0 <= i < |stamp| ensures stamp[i] != '/' {
        assert stamp[i] == m[i] == StampChar(iso[i]);
        assert iso[i] in iso;
      }
    }
    var name := task + "-" + SafeContext(context) + "-" + stamp + ".log";
    assert LogPath(task, context, iso) == DataDir + "/" + name;
    assert '/' !in name;
  }
}
