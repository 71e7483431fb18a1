/** What the fail-safe controller does to a state before it is sealed
    (sara_v32_hardening.py): text is made printable and bounded, whatever stands under a
    sensitive key is replaced by a marker, and values that cannot be stored are refused. */
module Redaction {
  import opened Outcomes
  import opened Text

  /** JSON-like values. `Foreign` is anything the source does not know how to store; the
      entries of an object are in insertion order. */
  datatype Json =
    | Null
    | Bool(b: bool)
    | Number(n: real)
    | Str(s: string)
    | List(items: seq<Json>)
    | Object(entries: seq<Entry>)
    | Foreign

  datatype Entry = Entry(key: string, value: Json)

  datatype BackupError = TooDeep | UnsupportedType

  const MAX_DEPTH := 20
  const MAX_TEXT := 100_000
  const MAX_KEY := 256
  const REDACTED := Str("[REDACTED]")

  // ---------------------------------------------------------------- text

  predicate Printable(c: char) {
    (' ' <= c || c == '\t') && c != (0x7f as char)
  }

  function Escape(c: char): string {
    if c == '\r' then "\\r" else if c == '\n' then "\\n" else if Printable(c) then [c] else "?"
  }

  function EscapeAll(s: string): string {
    if s == [] then [] else Escape(s[0]) + EscapeAll(s[1..])
  }

  function SafeText(s: string, max: nat): string {
    var t := EscapeAll(s);
    if |t| <= max then t else t[..max]
  }

  predicate AllPrintable(s: string) {
    forall i :: 0 <= i < |s| ==> Printable(s[i])
  }

  lemma {:induction false} EscapePrintable(s: string)
    ensures AllPrintable(EscapeAll(s))
  {
    if s != [] { EscapePrintable(s[1..]); }
  }

  lemma {:induction false} EscapeFixed(s: string)
    requires AllPrintable(s)
    ensures EscapeAll(s) == s
  {
    if s != [] { EscapeFixed(s[1..]); }
  }

  /** Safe text is printable and short, and such text is left alone. */
  lemma SafeTextSettles(s: string, max: nat)
    ensures AllPrintable(SafeText(s, max)) && |SafeText(s, max)| <= max
    ensures SafeText(SafeText(s, max), max) == SafeText(s, max)
    ensures SafeText(s, max) == s <==> AllPrintable(s) && |s| <= max
  {
    EscapePrintable(s);
    EscapeFixed(SafeText(s, max));
    if AllPrintable(s) { EscapeFixed(s); }
  }

  /** What safe text spells: line breaks as a backslash and a letter, every other control
      character but the tab as a question mark, and all else as it stands. */
  lemma EscapeIs(c: char)
    ensures c == '\r' ==> Escape(c) == "\\r"
    ensures c == '\n' ==> Escape(c) == "\\n"
    ensures (c as int < 0x20 || c as int == 0x7F) && c !in "\t\r\n" ==> Escape(c) == "?"
    ensures c == '\t' || (0x20 <= c as int && c as int != 0x7F) ==> Escape(c) == [c]
  {
  }

  /** Letter by letter, and cut. */
  lemma {:induction false} SafeTextSpells(s: string, c: char, max: nat)
    ensures EscapeAll("") == "" && EscapeAll(s + [c]) == EscapeAll(s) + Escape(c)
    ensures SafeText(s, max) <= EscapeAll(s)
    ensures |SafeText(s, max)| == if |EscapeAll(s)| > max then max else |EscapeAll(s)|
  {
    EscapeAppended(s, [c]);
    assert [c][1..] == "" && EscapeAll([c]) == Escape(c) + "";
  }

  // ---------------------------------------------------------------- sensitive keys

  function Normalize(key: string): string {
    var s := Lower(Strip(key));
    seq(|s|, i requires 0 <= i < |s| => if s[i] == '-' then '_' else s[i])
  }

  predicate EndsWith(s: string, suffix: string) {
    |suffix| <= |s| && s[|s| - |suffix|..] == suffix
  }

  predicate StartsWith(s: string, prefix: string) {
    |prefix| <= |s| && s[..|prefix|] == prefix
  }

  const SENSITIVE: set<string> := {
    "password", "passwd", "token", "access_token", "refresh_token", "authorization",
    "cookie", "secret", "api_key", "apikey", "private_key", "client_secret" }

  const REFERENCES: set<string> := {"_ref", "_reference", "_id", "_name", "_arn", "_uri"}

  predicate Sensitive(key: string) {
    var k := Normalize(key);
    (forall suffix :: suffix in REFERENCES ==> !EndsWith(k, suffix))
    && (k in SENSITIVE || exists item :: item in SENSITIVE && (EndsWith(k, "_" + item) || StartsWith(k, item + "_")))
  }

  // ---------------------------------------------------------------- values

  /** Python's dictionary assignment: an existing key keeps its place. */
  function Put(entries: seq<Entry>, key: string, value: Json): seq<Entry> {
    if entries == [] then [Entry(key, value)]
    else if entries[0].key == key then [Entry(key, value)] + entries[1..]
    else [entries[0]] + Put(entries[1..], key, value)
  }

  /** Which keys are sensitive: the theorems hold of any classification. */
  type Classifier = string -> bool

  /** The source's own. */
  function Sanitize(value: Json, depth: nat): Result<Json, BackupError> {
    Redact(Sensitive, value, depth)
  }

  function Redact(secret: Classifier, value: Json, depth: nat): Result<Json, BackupError>
    decreases value, 1
  {
    if depth > MAX_DEPTH then Err(TooDeep)
    else
      match value
      case Str(s) => Ok(Str(SafeText(s, MAX_TEXT)))
      case Object(entries) =>
        var r := RedactEntries(secret, entries, depth);
        if r.Err? then Err(r.error) else Ok(Object(r.value))
      case List(items) =>
        var r := RedactItems(secret, items, depth);
        if r.Err? then Err(r.error) else Ok(List(r.value))
      case Foreign => Err(UnsupportedType)
      case _ => Ok(value)
  }

  function RedactEntry(secret: Classifier, e: Entry, depth: nat): Result<Entry, BackupError>
    decreases e, 2
  {
    var name := SafeText(e.key, MAX_KEY);
    if secret(name) then Ok(Entry(name, REDACTED))
    else
      var child := Redact(secret, e.value, depth + 1);
      if child.Err? then Err(child.error) else Ok(Entry(name, child.value))
  }

  function RedactEntries(secret: Classifier, entries: seq<Entry>, depth: nat): Result<seq<Entry>, BackupError>
    decreases entries, 0
  {
    if entries == [] then Ok([])
    else
      var before := RedactEntries(secret, entries[..|entries| - 1], depth);
      if before.Err? then before
      else
        var last := RedactEntry(secret, entries[|entries| - 1], depth);
        if last.Err? then Err(last.error) else Ok(Put(before.value, last.value.key, last.value.value))
  }

  function RedactItems(secret: Classifier, items: seq<Json>, depth: nat): Result<seq<Json>, BackupError>
    decreases items, 0
  {
    if items == [] then Ok([])
    else
      var before := RedactItems(secret, items[..|items| - 1], depth);
      if before.Err? then before
      else
        var child := Redact(secret, items[|items| - 1], depth + 1);
        if child.Err? then Err(child.error) else Ok(before.value + [child.value])
  }

  // ---------------------------------------------------------------- what comes out

  /** Nothing sensitive, nothing unprintable, no repeated key, not too deep: at every level. */
  ghost predicate Clean(secret: Classifier, value: Json, depth: nat)
    decreases value, 1
  {
    && depth <= MAX_DEPTH
    && match value
       case Str(s) => AllPrintable(s) && |s| <= MAX_TEXT
       case Object(entries) => CleanEntries(secret, entries, depth)
       case List(items) => forall i {:trigger items[i]} :: 0 <= i < |items| ==> Clean(secret, items[i], depth + 1)
       case Foreign => false
       case _ => true
  }

  ghost predicate CleanEntries(secret: Classifier, entries: seq<Entry>, depth: nat)
    decreases entries, 0
  {
    && DistinctKeys(entries)
    && forall i :: 0 <= i < |entries| ==> CleanEntry(secret, entries[i], depth)
  }

  ghost predicate CleanEntry(secret: Classifier, e: Entry, depth: nat)
    decreases e, 0
  {
    && AllPrintable(e.key) && |e.key| <= MAX_KEY
    && if secret(e.key) then e.value == REDACTED else Clean(secret, e.value, depth + 1)
  }

  ghost predicate DistinctKeys(entries: seq<Entry>) {
    forall i, j :: 0 <= i < j < |entries| ==> entries[i].key != entries[j].key
  }

  lemma {:induction false} PutKeepsDistinct(entries: seq<Entry>, key: string, value: Json)
    requires DistinctKeys(entries)
    ensures DistinctKeys(Put(entries, key, value))
    ensures forall e :: e in Put(entries, key, value) ==> e == Entry(key, value) || e in entries
  {
    if entries != [] && entries[0].key != key {
      var rest := entries[1..];
      assert forall i :: 0 <= i < |rest| ==> rest[i] == entries[i + 1];
      PutKeepsDistinct(rest, key, value);
      var tail := Put(rest, key, value);
      forall j | 0 <= j < |tail| ensures tail[j].key != entries[0].key { assert tail[j] in tail; }
    }
  }

  lemma PutKeepsClean(secret: Classifier, entries: seq<Entry>, key: string, value: Json, depth: nat)
    requires CleanEntries(secret, entries, depth) && CleanEntry(secret, Entry(key, value), depth)
    ensures CleanEntries(secret, Put(entries, key, value), depth)
  {
    PutKeepsDistinct(entries, key, value);
    var r := Put(entries, key, value);
    forall i | 0 <= i < |r| ensures CleanEntry(secret, r[i], depth) { assert r[i] in r; }
  }

  lemma {:induction false} PutFresh(entries: seq<Entry>, key: string, value: Json)
    requires forall e :: e in entries ==> e.key != key
    ensures Put(entries, key, value) == entries + [Entry(key, value)]
  {
    if entries != [] {
      assert entries[0] in entries;
      PutFresh(entries[1..], key, value);
    }
  }

  /** Redaction at any depth: whatever is saved is clean. */
  lemma {:induction false} RedactedIsClean(secret: Classifier, value: Json, depth: nat)
    requires Redact(secret, value, depth).Ok?
    ensures Clean(secret, Redact(secret, value, depth).value, depth)
    decreases value, 1
  {
    match value
    case Str(s) => SafeTextSettles(s, MAX_TEXT);
    case Object(entries) => RedactedEntriesClean(secret, entries, depth);
    case List(items) => RedactedItemsClean(secret, items, depth);
    case _ =>
  }

  lemma {:induction false} RedactedEntryClean(secret: Classifier, e: Entry, depth: nat)
    requires RedactEntry(secret, e, depth).Ok?
    ensures CleanEntry(secret, RedactEntry(secret, e, depth).value, depth)
    decreases e, 2
  {
    SafeTextSettles(e.key, MAX_KEY);
    if !secret(SafeText(e.key, MAX_KEY)) { RedactedIsClean(secret, e.value, depth + 1); }
  }

  lemma {:induction false} RedactedEntriesClean(secret: Classifier, entries: seq<Entry>, depth: nat)
    requires RedactEntries(secret, entries, depth).Ok?
    ensures CleanEntries(secret, RedactEntries(secret, entries, depth).value, depth)
    decreases entries, 0
  {
    if entries != [] {
      var before := entries[..|entries| - 1];
      var last := entries[|entries| - 1];
      RedactedEntriesClean(secret, before, depth);
      RedactedEntryClean(secret, last, depth);
      var e := RedactEntry(secret, last, depth).value;
      PutKeepsClean(secret, RedactEntries(secret, before, depth).value, e.key, e.value, depth);
    }
  }

  lemma {:induction false} RedactedItemsClean(secret: Classifier, items: seq<Json>, depth: nat)
    requires RedactItems(secret, items, depth).Ok?
    ensures var r := RedactItems(secret, items, depth).value;
      forall i {:trigger r[i]} :: 0 <= i < |r| ==> Clean(secret, r[i], depth + 1)
    decreases items, 0
  {
    if items != [] {
      RedactedItemsClean(secret, items[..|items| - 1], depth);
      RedactedIsClean(secret, items[|items| - 1], depth + 1);
    }
  }

  lemma {:induction false} CleanIsFixed(secret: Classifier, value: Json, depth: nat)
    requires Clean(secret, value, depth)
    ensures Redact(secret, value, depth) == Ok(value)
    decreases value, 1
  {
    match value
    case Str(s) => SafeTextSettles(s, MAX_TEXT);
    case Object(entries) => CleanEntriesFixed(secret, entries, depth);
    case List(items) => CleanItemsFixed(secret, items, depth);
    case _ =>
  }

  lemma {:induction false} CleanEntryFixed(secret: Classifier, e: Entry, depth: nat)
    requires CleanEntry(secret, e, depth)
    ensures RedactEntry(secret, e, depth) == Ok(e)
    decreases e, 2
  {
    SafeTextSettles(e.key, MAX_KEY);
    if !secret(e.key) { CleanIsFixed(secret, e.value, depth + 1); }
  }

  lemma DistinctFromLast(entries: seq<Entry>)
    requires entries != [] && DistinctKeys(entries)
    ensures forall e :: e in entries[..|entries| - 1] ==> e.key != entries[|entries| - 1].key
  {
  }

  lemma {:induction false} CleanEntriesFixed(secret: Classifier, entries: seq<Entry>, depth: nat)
    requires CleanEntries(secret, entries, depth)
    ensures RedactEntries(secret, entries, depth) == Ok(entries)
    decreases entries, 0
  {
    if entries != [] {
      var before := entries[..|entries| - 1];
      var last := entries[|entries| - 1];
      CleanEntriesFixed(secret, before, depth);
      CleanEntryFixed(secret, last, depth);
      DistinctFromLast(entries);
      PutFresh(before, last.key, last.value);
      assert entries == before + [last];
    }
  }

  lemma {:induction false} CleanItemsFixed(secret: Classifier, items: seq<Json>, depth: nat)
    requires forall i {:trigger items[i]} :: 0 <= i < |items| ==> Clean(secret, items[i], depth + 1)
    ensures RedactItems(secret, items, depth) == Ok(items)
    decreases items, 0
  {
    if items != [] {
      CleanItemsFixed(secret, items[..|items| - 1], depth);
      CleanIsFixed(secret, items[|items| - 1], depth + 1);
      assert items == items[..|items| - 1] + [items[|items| - 1]];
    }
  }

  /** Sanitizing is idempotent, and the clean values are exactly its fixed points. */
  lemma RedactIdempotent(secret: Classifier, value: Json, depth: nat)
    ensures Redact(secret, value, depth).Ok? ==>
      Redact(secret, Redact(secret, value, depth).value, depth) == Redact(secret, value, depth)
    ensures Redact(secret, value, depth) == Ok(value) <==> Clean(secret, value, depth)
  {
    if Redact(secret, value, depth).Ok? {
      RedactedIsClean(secret, value, depth);
      CleanIsFixed(secret, Redact(secret, value, depth).value, depth);
    }
    if Clean(secret, value, depth) { CleanIsFixed(secret, value, depth); }
  }

  // ---------------------------------------------------------------- what stays in

  /** Two values that agree except beneath the hidden keys, as they stand in the values. */
  ghost predicate AgreeOutside(hidden: Classifier, v: Json, w: Json)
    decreases v, 1
  {
    match (v, w)
    case (Object(es), Object(fs)) =>
      |es| == |fs| && forall i {:trigger es[i]} :: 0 <= i < |es| ==> EntriesAgree(hidden, es[i], fs[i])
    case (List(xs), List(ys)) =>
      |xs| == |ys| && forall i {:trigger xs[i]} :: 0 <= i < |xs| ==> AgreeOutside(hidden, xs[i], ys[i])
    case _ => v == w
  }

  ghost predicate EntriesAgree(hidden: Classifier, e: Entry, f: Entry)
    decreases e, 0
  {
    e.key == f.key && (hidden(e.key) || AgreeOutside(hidden, e.value, f.value))
  }

  /** Every hidden key is still sensitive when it has been made safe text. */
  ghost predicate StaySecret(secret: Classifier, hidden: Classifier) {
    forall key :: hidden(key) ==> secret(SafeText(key, MAX_KEY))
  }

  /** Non-interference: the saved copy does not depend on what stands beneath such keys. */
  lemma {:induction false} SecretsDoNotLeak(secret: Classifier, hidden: Classifier, v: Json, w: Json, depth: nat)
    requires StaySecret(secret, hidden) && AgreeOutside(hidden, v, w)
    ensures Redact(secret, v, depth) == Redact(secret, w, depth)
    decreases v, 1
  {
    match (v, w)
    case (Object(es), Object(fs)) => EntriesDoNotLeak(secret, hidden, es, fs, depth);
    case (List(xs), List(ys)) => ItemsDoNotLeak(secret, hidden, xs, ys, depth);
    case _ =>
  }

  lemma {:induction false} EntryDoesNotLeak(secret: Classifier, hidden: Classifier, e: Entry, f: Entry, depth: nat)
    requires StaySecret(secret, hidden) && EntriesAgree(hidden, e, f)
    ensures RedactEntry(secret, e, depth) == RedactEntry(secret, f, depth)
    decreases e, 2
  {
    if !hidden(e.key) { SecretsDoNotLeak(secret, hidden, e.value, f.value, depth + 1); }
  }

  lemma {:induction false} EntriesDoNotLeak(secret: Classifier, hidden: Classifier, es: seq<Entry>, fs: seq<Entry>,
      depth: nat)
    requires StaySecret(secret, hidden)
    requires |es| == |fs| && forall i {:trigger es[i]} :: 0 <= i < |es| ==> EntriesAgree(hidden, es[i], fs[i])
    ensures RedactEntries(secret, es, depth) == RedactEntries(secret, fs, depth)
    decreases es, 0
  {
    if es != [] {
      var n := |es| - 1;
      EntriesDoNotLeak(secret, hidden, es[..n], fs[..n], depth);
      EntryDoesNotLeak(secret, hidden, es[n], fs[n], depth);
    }
  }

  lemma {:induction false} ItemsDoNotLeak(secret: Classifier, hidden: Classifier, xs: seq<Json>, ys: seq<Json>,
      depth: nat)
    requires StaySecret(secret, hidden)
    requires |xs| == |ys| && forall i {:trigger xs[i]} :: 0 <= i < |xs| ==> AgreeOutside(hidden, xs[i], ys[i])
    ensures RedactItems(secret, xs, depth) == RedactItems(secret, ys, depth)
    decreases xs, 0
  {
    if xs != [] {
      var n := |xs| - 1;
      ItemsDoNotLeak(secret, hidden, xs[..n], ys[..n], depth);
      SecretsDoNotLeak(secret, hidden, xs[n], ys[n], depth + 1);
    }
  }

  /** Exactly which keys hide what stands beneath them: those whose safe text is sensitive. */
  lemma LeakFreeIff(secret: Classifier, hidden: Classifier, depth: nat)
    requires depth < MAX_DEPTH
    ensures (forall v, w :: AgreeOutside(hidden, v, w) ==> Redact(secret, v, depth) == Redact(secret, w, depth))
       <==> StaySecret(secret, hidden)
  {
    if StaySecret(secret, hidden) {
      forall v, w | AgreeOutside(hidden, v, w) ensures Redact(secret, v, depth) == Redact(secret, w, depth) {
        SecretsDoNotLeak(secret, hidden, v, w, depth);
      }
    } else {
      var key :| hidden(key) && !secret(SafeText(key, MAX_KEY));
      OpenKeyLeaks(secret, hidden, key, depth);
    }
  }

  function Single(key: string, value: Json): Json {
    Object([Entry(key, value)])
  }

  lemma OpenKeyLeaks(secret: Classifier, hidden: Classifier, key: string, depth: nat)
    requires depth < MAX_DEPTH && hidden(key) && !secret(SafeText(key, MAX_KEY))
    ensures AgreeOutside(hidden, Single(key, Bool(false)), Single(key, Bool(true)))
    ensures Redact(secret, Single(key, Bool(false)), depth) != Redact(secret, Single(key, Bool(true)), depth)
  {
    SingleSaved(secret, key, Bool(false), depth);
    SingleSaved(secret, key, Bool(true), depth);
    var name := SafeText(key, MAX_KEY);
    assert Single(name, Bool(false)).entries[0] != Single(name, Bool(true)).entries[0];
  }

  lemma SingleSaved(secret: Classifier, key: string, value: Json, depth: nat)
    requires depth < MAX_DEPTH && !secret(SafeText(key, MAX_KEY)) && Redact(secret, value, depth + 1).Ok?
    ensures Redact(secret, Single(key, value), depth)
      == Ok(Single(SafeText(key, MAX_KEY), Redact(secret, value, depth + 1).value))
  {
    var es := [Entry(key, value)];
    var saved := Entry(SafeText(key, MAX_KEY), Redact(secret, value, depth + 1).value);
    assert es[..0] == [] && RedactEntries(secret, es[..0], depth) == Ok([]);
    assert RedactEntry(secret, es[0], depth) == Ok(saved);
    assert Put([], saved.key, saved.value) == [saved];
    assert RedactEntries(secret, es, depth) == Ok([saved]);
  }

  /** What a caller can check: sensitive keys that are printable and at most 256 long. */
  function PlainOnly(secret: Classifier): Classifier {
    key => secret(key) && AllPrintable(key) && |key| <= MAX_KEY
  }

  lemma PlainStaysSecret(secret: Classifier)
    ensures StaySecret(secret, PlainOnly(secret))
  {
    forall key | PlainOnly(secret)(key) ensures secret(SafeText(key, MAX_KEY)) { SafeTextSettles(key, MAX_KEY); }
  }

  /** A sensitive key that does leak: trimming would remove its line break, but it is escaped
      first, and `token\n` with a backslash is not on the list. */
  lemma EscapedKeyLeaks(depth: nat)
    requires depth < MAX_DEPTH
    ensures Sensitive("token\n") && !Sensitive(SafeText("token\n", MAX_KEY))
    ensures AgreeOutside(Sensitive, Single("token\n", Bool(false)), Single("token\n", Bool(true)))
    ensures Redact(Sensitive, Single("token\n", Bool(false)), depth)
      != Redact(Sensitive, Single("token\n", Bool(true)), depth)
  {
    BreakIsTrimmed();
    BreakIsEscaped();
    OpenKeyLeaks(Sensitive, Sensitive, "token\n", depth);
  }

  lemma BreakIsTrimmed()
    ensures Sensitive("token\n")
  {
    assert "token\n"[..5] == "token";
    assert Strip("token\n") == Strip("token") == "token";
    assert Normalize("token\n") == "token";
  }

  lemma BreakIsEscaped()
    ensures !Sensitive(SafeText("token\n", MAX_KEY))
  {
    EscapedToken();
    NotSensitive("token\\n");
  }

  lemma EscapedToken()
    ensures SafeText("token\n", MAX_KEY) == "token\\n"
  {
    assert "token\n" == "token" + "\n" && "\n"[1..] == "";
    EscapeAppended("token", "\n");
    EscapeFixed("token");
    assert EscapeAll("\n") == "\\n" + "";
  }

  /** A key without an underscore is sensitive only as a whole word. */
  lemma NotSensitive(name: string)
    requires name == "token\\n"
    ensures !Sensitive(name)
  {
    assert Strip(name) == name;
    var k := Normalize(name);
    assert |k| == 7 && k[5] == '\\' && forall i :: 0 <= i < 7 ==> k[i] == name[i];
    assert forall i :: 0 <= i < 7 ==> k[i] != '_';
    forall item: string | item in SENSITIVE
      ensures k != item && !EndsWith(k, "_" + item) && !StartsWith(k, item + "_")
    {
      NoPart(k, item);
      assert |item| == 7 ==> item[5] != '\\';
    }
  }

  lemma NoPart(k: string, item: string)
    requires forall i :: 0 <= i < |k| ==> k[i] != '_'
    ensures !EndsWith(k, "_" + item) && !StartsWith(k, item + "_")
  {
    assert ("_" + item)[0] == '_' && (item + "_")[|item|] == '_';
  }

  lemma {:induction false} EscapeAppended(s: string, t: string)
    ensures EscapeAll(s + t) == EscapeAll(s) + EscapeAll(t)
  {
    if s == [] {
      assert s + t == t;
    } else {
      assert (s + t)[1..] == s[1..] + t;
      EscapeAppended(s[1..], t);
    }
  }

  /** Text that the printing rules leave alone, outside sensitive keys. */
  ghost predicate Tidy(secret: Classifier, v: Json)
    decreases v, 1
  {
    match v
    case Str(s) => AllPrintable(s) && |s| <= MAX_TEXT
    case Object(es) => DistinctKeys(es) && forall i {:trigger es[i]} :: 0 <= i < |es| ==> TidyEntry(secret, es[i])
    case List(xs) => forall i {:trigger xs[i]} :: 0 <= i < |xs| ==> Tidy(secret, xs[i])
    case _ => true
  }

  ghost predicate TidyEntry(secret: Classifier, e: Entry)
    decreases e, 0
  {
    AllPrintable(e.key) && |e.key| <= MAX_KEY && (secret(e.key) || Tidy(secret, e.value))
  }

  /** And nothing but those secrets is lost: the saved copy of a tidy value agrees with it
      everywhere else. */
  lemma {:induction false} OnlySecretsAreLost(secret: Classifier, v: Json, depth: nat)
    requires Tidy(secret, v) && Redact(secret, v, depth).Ok?
    ensures AgreeOutside(secret, v, Redact(secret, v, depth).value)
    decreases v, 1
  {
    match v
    case Str(s) => SafeTextSettles(s, MAX_TEXT);
    case Object(es) => TidyEntriesKept(secret, es, depth);
    case List(xs) => TidyItemsKept(secret, xs, depth);
    case _ =>
  }

  lemma {:induction false} TidyEntryKept(secret: Classifier, e: Entry, depth: nat)
    requires TidyEntry(secret, e) && RedactEntry(secret, e, depth).Ok?
    ensures EntriesAgree(secret, e, RedactEntry(secret, e, depth).value)
    decreases e, 2
  {
    SafeTextSettles(e.key, MAX_KEY);
    if !secret(e.key) { OnlySecretsAreLost(secret, e.value, depth + 1); }
  }

  lemma {:induction false} TidyEntriesKept(secret: Classifier, es: seq<Entry>, depth: nat)
    requires DistinctKeys(es) && RedactEntries(secret, es, depth).Ok?
    requires forall i {:trigger es[i]} :: 0 <= i < |es| ==> TidyEntry(secret, es[i])
    ensures var r := RedactEntries(secret, es, depth).value;
      |r| == |es| && forall i {:trigger es[i]} :: 0 <= i < |es| ==> EntriesAgree(secret, es[i], r[i])
    decreases es, 0
  {
    if es != [] {
      var n := |es| - 1;
      TidyEntriesKept(secret, es[..n], depth);
      TidyEntryKept(secret, es[n], depth);
      var r := RedactEntries(secret, es[..n], depth).value;
      var last := RedactEntry(secret, es[n], depth).value;
      forall f | f in r ensures f.key != last.key {
        var i :| 0 <= i < |r| && r[i] == f;
        assert EntriesAgree(secret, es[..n][i], r[i]);
      }
      PutFresh(r, last.key, last.value);
      forall i | 0 <= i < n ensures EntriesAgree(secret, es[i], r[i]) { assert es[..n][i] == es[i]; }
    }
  }

  lemma {:induction false} TidyItemsKept(secret: Classifier, xs: seq<Json>, depth: nat)
    requires RedactItems(secret, xs, depth).Ok?
    requires forall i {:trigger xs[i]} :: 0 <= i < |xs| ==> Tidy(secret, xs[i])
    ensures var r := RedactItems(secret, xs, depth).value;
      |r| == |xs| && forall i {:trigger xs[i]} :: 0 <= i < |xs| ==> AgreeOutside(secret, xs[i], r[i])
    decreases xs, 0
  {
    if xs != [] {
      var n := |xs| - 1;
      TidyItemsKept(secret, xs[..n], depth);
      OnlySecretsAreLost(secret, xs[n], depth + 1);
      var r := RedactItems(secret, xs[..n], depth).value;
      forall i | 0 <= i < n ensures AgreeOutside(secret, xs[i], r[i]) { assert xs[..n][i] == xs[i]; }
    }
  }

  // ---------------------------------------------------------------- what can be saved

  /** Nothing of a foreign type and nothing nested too deeply, outside sensitive keys. */
  ghost predicate Storable(secret: Classifier, v: Json, depth: nat)
    decreases v, 1
  {
    && depth <= MAX_DEPTH && !v.Foreign?
    && (v.Object? ==> forall i {:trigger v.entries[i]} :: 0 <= i < |v.entries| ==>
      EntryStorable(secret, v.entries[i], depth))
    && (v.List? ==> forall i {:trigger v.items[i]} :: 0 <= i < |v.items| ==> Storable(secret, v.items[i], depth + 1))
  }

  ghost predicate EntryStorable(secret: Classifier, e: Entry, depth: nat)
    decreases e, 2
  {
    secret(SafeText(e.key, MAX_KEY)) || Storable(secret, e.value, depth + 1)
  }

  /** Saving fails on exactly the other values. */
  lemma {:induction false} SavedIff(secret: Classifier, v: Json, depth: nat)
    ensures Redact(secret, v, depth).Ok? <==> Storable(secret, v, depth)
    decreases v, 1
  {
    if v.Object? { EntriesSavedIff(secret, v.entries, depth); }
    if v.List? { ItemsSavedIff(secret, v.items, depth); }
  }

  lemma {:induction false} EntrySavedIff(secret: Classifier, e: Entry, depth: nat)
    ensures RedactEntry(secret, e, depth).Ok? <==> EntryStorable(secret, e, depth)
    decreases e, 2
  {
    SavedIff(secret, e.value, depth + 1);
  }

  lemma {:induction false} EntriesSavedIff(secret: Classifier, es: seq<Entry>, depth: nat)
    ensures RedactEntries(secret, es, depth).Ok? <==>
      forall i {:trigger es[i]} :: 0 <= i < |es| ==> EntryStorable(secret, es[i], depth)
    decreases es, 0
  {
    if es != [] {
      var n := |es| - 1;
      EntriesSavedIff(secret, es[..n], depth);
      EntrySavedIff(secret, es[n], depth);
      assert forall i :: 0 <= i < n ==> es[..n][i] == es[i];
    }
  }

  lemma {:induction false} ItemsSavedIff(secret: Classifier, xs: seq<Json>, depth: nat)
    ensures RedactItems(secret, xs, depth).Ok? <==>
      forall i {:trigger xs[i]} :: 0 <= i < |xs| ==> Storable(secret, xs[i], depth + 1)
    decreases xs, 0
  {
    if xs != [] {
      var before, last := xs[..|xs| - 1], xs[|xs| - 1];
      ItemsSavedIff(secret, before, depth);
      SavedIff(secret, last, depth + 1);
      assert forall i :: 0 <= i < |before| ==> before[i] == xs[i];
    }
  }

  /** All of it for the source's own classification of keys. */
  lemma SanitizeProtects(v: Json, w: Json)
    ensures Sanitize(v, 0).Ok? <==> Storable(Sensitive, v, 0)
    ensures Sanitize(v, 0).Ok? ==>
      Clean(Sensitive, Sanitize(v, 0).value, 0) && Sanitize(Sanitize(v, 0).value, 0) == Sanitize(v, 0)
    ensures AgreeOutside(PlainOnly(Sensitive), v, w) ==> Sanitize(v, 0) == Sanitize(w, 0)
    ensures Tidy(Sensitive, v) && Sanitize(v, 0).Ok? ==> AgreeOutside(Sensitive, v, Sanitize(v, 0).value)
  {
    SavedIff(Sensitive, v, 0);
    if Sanitize(v, 0).Ok? { RedactedIsClean(Sensitive, v, 0); }
    RedactIdempotent(Sensitive, v, 0);
    PlainStaysSecret(Sensitive);
    if AgreeOutside(PlainOnly(Sensitive), v, w) { SecretsDoNotLeak(Sensitive, PlainOnly(Sensitive), v, w, 0); }
    if Tidy(Sensitive, v) && Sanitize(v, 0).Ok? { OnlySecretsAreLost(Sensitive, v, 0); }
  }

  /** The limits in numbers: more than twenty levels down nothing is saved, text is cut after
      100,000 characters, keys after 256. */
  lemma LimitsAre(v: Json, s: string, key: string, depth: nat)
    ensures depth > 20 ==> Sanitize(v, depth) == Err(TooDeep)
    ensures depth <= 20 ==> Sanitize(Foreign, depth) == Err(UnsupportedType)
    ensures depth <= 20 ==> Sanitize(Str(s), depth) == Ok(Str(SafeText(s, 100_000)))
    ensures depth < 20 && !Sensitive(SafeText(key, 256)) ==>
      Sanitize(Single(key, Str(s)), depth) == Ok(Single(SafeText(key, 256), Str(SafeText(s, 100_000))))
  {
    if depth < 20 && !Sensitive(SafeText(key, 256)) { SingleSaved(Sensitive, key, Str(s), depth); }
  }

  // ---------------------------------------------------------------- keys that become one

  function Find(entries: seq<Entry>, key: string): Option<Json> {
    if entries == [] then None
    else if entries[0].key == key then Some(entries[0].value)
    else Find(entries[1..], key)
  }

  /** The last entry that is saved under a name. */
  function LastNamed(entries: seq<Entry>, name: string): Option<Entry> {
    if entries == [] then None
    else
      var last := entries[|entries| - 1];
      if SafeText(last.key, MAX_KEY) == name then Some(last) else LastNamed(entries[..|entries| - 1], name)
  }

  function Keys(entries: seq<Entry>): seq<string> {
    if entries == [] then [] else [entries[0].key] + Keys(entries[1..])
  }

  /** The names that entries are saved under, each where it first occurs. */
  function SavedNames(entries: seq<Entry>): seq<string> {
    if entries == [] then []
    else
      var before, name := SavedNames(entries[..|entries| - 1]), SafeText(entries[|entries| - 1].key, MAX_KEY);
      if name in before then before else before + [name]
  }

  lemma {:induction false} PutFinds(entries: seq<Entry>, key: string, value: Json, k: string)
    ensures Find(Put(entries, key, value), k) == if k == key then Some(value) else Find(entries, k)
    ensures Keys(Put(entries, key, value)) == if key in Keys(entries) then Keys(entries) else Keys(entries) + [key]
  {
    if entries != [] && entries[0].key != key {
      PutFinds(entries[1..], key, value, k);
      var rest := Put(entries[1..], key, value);
      assert ([entries[0]] + rest)[1..] == rest;
    } else if entries != [] {
      assert ([Entry(key, value)] + entries[1..])[1..] == entries[1..];
    }
  }

  /** Two keys can become one when they are escaped and cut. The saved object then has the later
      value in the earlier place; nothing else is lost or moved. */
  lemma {:induction false} LaterValueWins(secret: Classifier, entries: seq<Entry>, depth: nat, name: string)
    requires RedactEntries(secret, entries, depth).Ok?
    ensures var saved, last := RedactEntries(secret, entries, depth).value, LastNamed(entries, name);
      if last.None? then Find(saved, name).None?
      else
        var own := RedactEntry(secret, last.value, depth);
        own.Ok? && Find(saved, name) == Some(own.value.value)
    ensures Keys(RedactEntries(secret, entries, depth).value) == SavedNames(entries)
    decreases entries
  {
    if entries != [] {
      var before, last := entries[..|entries| - 1], entries[|entries| - 1];
      LaterValueWins(secret, before, depth, name);
      var e := RedactEntry(secret, last, depth).value;
      PutFinds(RedactEntries(secret, before, depth).value, e.key, e.value, name);
    }
  }
}
