/** The settings page: the object its Save button stores, built from the form's
    fields, and the values `loadSettings` puts back into the form. */
module Options {
  import opened Wrappers
  import opened Text
  import opened Protocol
  import opened Background

  /** The trimmed non-blank lines of `lines`, in order: `.map(line => line.trim()).filter(Boolean)`. */
  function NonBlank(lines: seq<string>): (r: seq<string>)
    ensures |r| <= |lines|
    ensures forall k :: 0 <= k < |r| ==> r[k] != "" && Trim(r[k]) == r[k]
  {
    if lines == [] then []
    else
      var t := Trim(lines[0]);
      TrimOfTrimmed(t);
      (if t != "" then [t] else []) + NonBlank(lines[1..])
  }

  /** Filtering keeps the order of the lines: the entries of `a + b` are those of `a`,
      then those of `b`. */
  lemma {:induction false} NonBlankAppend(a: seq<string>, b: seq<string>)
    ensures NonBlank(a + b) == NonBlank(a) + NonBlank(b)
  {
    if a == [] {
      assert a + b == b;
    } else {
      assert (a + b)[0] == a[0] && (a + b)[1..] == a[1..] + b;
      NonBlankAppend(a[1..], b);
      var t := Trim(a[0]);
      var head := if t != "" then [t] else [];
      assert head + (NonBlank(a[1..]) + NonBlank(b)) == (head + NonBlank(a[1..])) + NonBlank(b);
    }
  }

  /** `e` is the trim of one of `lines`. */
  ghost predicate TrimOfLine(lines: seq<string>, e: string) {
    exists i :: 0 <= i < |lines| && Trim(lines[i]) == e
  }

  /** The entries are the trims of the lines that are not blank. */
  lemma {:induction false} NonBlankMembers(lines: seq<string>)
    ensures forall e :: e in NonBlank(lines) <==> e != "" && TrimOfLine(lines, e)
  {
    if lines != [] {
      var tail := lines[1..];
      NonBlankMembers(tail);
      forall e
        ensures TrimOfLine(lines, e) <==> Trim(lines[0]) == e || TrimOfLine(tail, e)
      {
        if TrimOfLine(lines, e) {
          var i :| 0 <= i < |lines| && Trim(lines[i]) == e;
          if i > 0 {
            assert Trim(tail[i - 1]) == e;
          }
        }
        if TrimOfLine(tail, e) {
          var i :| 0 <= i < |tail| && Trim(tail[i]) == e;
          assert Trim(lines[i + 1]) == e;
        }
      }
    }
  }

  /** Lines that are already non-blank and trimmed are kept as they are. */
  lemma {:induction false} NonBlankOfTrimmed(xs: seq<string>)
    requires forall k :: 0 <= k < |xs| ==> xs[k] != "" && Trim(xs[k]) == xs[k]
    ensures NonBlank(xs) == xs
  {
    if xs != [] {
      NonBlankOfTrimmed(xs[1..]);
      assert [xs[0]] + xs[1..] == xs;
    }
  }

  /** `parseList(value)`: the trimmed non-blank lines of `value`. */
  function ParseList(value: string): seq<string> {
    NonBlank(Split(value, '\n'))
  }

  /** A part of a string that has no line break has none either. */
  lemma NoBreakInTrim(s: string)
    requires '\n' !in s
    ensures '\n' !in Trim(s)
  {
    var i := LeadingSpaces(s);
    var r := Trim(s);
    forall k | 0 <= k < |r|
      ensures r[k] != '\n'
    {
      assert r[k] == s[i + k];
    }
  }

  /** No two entries fewer than lines: no entry is empty, none has white space at either
      end, none holds a line break, and there are no more entries than lines. */
  lemma ParseListEntries(value: string)
    ensures var r := ParseList(value);
      && |r| <= CountChar(value, '\n') + 1
      && forall k :: 0 <= k < |r| ==> r[k] != "" && Trim(r[k]) == r[k] && '\n' !in r[k]
  {
    var lines := Split(value, '\n');
    var r := ParseList(value);
    NonBlankMembers(lines);
    forall k | 0 <= k < |r|
      ensures '\n' !in r[k]
    {
      assert r[k] in r;
      assert TrimOfLine(lines, r[k]);
      var i :| 0 <= i < |lines| && Trim(lines[i]) == r[k];
      NoBreakInTrim(lines[i]);
    }
  }

  /** What `loadSettings` writes into the list field (`xs.join("\n")`) is parsed back into
      `xs` on save, for entries that are non-empty, trimmed and free of line breaks. */
  lemma ParseListJoin(xs: seq<string>)
    requires forall k :: 0 <= k < |xs| ==> xs[k] != "" && Trim(xs[k]) == xs[k] && '\n' !in xs[k]
    ensures ParseList(Join(xs, "\n")) == xs
  {
    if xs == [] {
      assert Split("", '\n') == [""];
    } else {
      SplitJoin(xs, '\n');
    }
    NonBlankOfTrimmed(xs);
  }

  /** Saving, loading and saving again keeps the list field as after the first save. */
  lemma ParseListStable(value: string)
    ensures ParseList(Join(ParseList(value), "\n")) == ParseList(value)
  {
    ParseListEntries(value);
    ParseListJoin(ParseList(value));
  }

  // ---------------------------------------------------------------- the form

  /** The values of the form's inputs: the text fields as typed, the checkbox as ticked. */
  datatype Form = Form(
    apiKey: string,
    model: string,
    allowlist: string,
    denylist: string,
    requireConfirmRisky: bool,
    maxSteps: string)

  const DefaultModel := "gpt-4o-mini"

  /** `model.value.trim() || "gpt-4o-mini"`: never empty, and already trimmed. */
  function ModelOf(value: string): (m: string)
    ensures m != "" && Trim(m) == m
    ensures m == DefaultModel || m == Trim(value)
  {
    var t := Trim(value);
    TrimOfTrimmed(t);
    assert DefaultModel[0] == 'g' && DefaultModel[|DefaultModel| - 1] == 'i';
    TrimOfTrimmed(DefaultModel);
    if t != "" then t else DefaultModel
  }

  /** `Number.parseInt(value, 10) || 25`: the parsed number, or 25 for `NaN` and 0. */
  function MaxStepsOf(value: string): (n: int)
    ensures n != 0
    ensures ParseInt(value) == None || ParseInt(value) == Some(0) ==> n == 25
    ensures ParseInt(value).Some? && ParseInt(value) != Some(0) ==> n == ParseInt(value).value
  {
    match ParseInt(value)
    case None => 25
    case Some(v) => if v == 0 then 25 else v
  }

  /** The JSON array of the strings `xs`. */
  function Strings(xs: seq<string>): (r: seq<Json>)
    ensures |r| == |xs| && forall k :: 0 <= k < |xs| ==> r[k] == JString(xs[k])
  {
    if xs == [] then [] else [JString(xs[0])] + Strings(xs[1..])
  }

  /** The object literal of the Save handler, for field values already computed. */
  function SettingsObject(apiKey: string, model: string, allowlist: seq<string>, denylist: seq<string>,
                          confirm: bool, maxSteps: int): (s: Settings)
    ensures s.Keys == DefaultSettings().Keys
    ensures s["provider"] == JString("openai")
  {
    map[
      "apiKey" := JString(apiKey),
      "provider" := JString("openai"),
      "model" := JString(model),
      "allowlist" := JArray(Strings(allowlist)),
      "denylist" := JArray(Strings(denylist)),
      "safety" := JObject(map["requireConfirmRisky" := JBool(confirm)]),
      "maxSteps" := JNumber(maxSteps)]
  }

  /** The values the Save handler reads out of the form, before it builds the object. */
  datatype Entries = Entries(
    apiKey: string,
    model: string,
    allowlist: seq<string>,
    denylist: seq<string>,
    requireConfirmRisky: bool,
    maxSteps: int)

  /** The trimmed key, the model (`ModelOf`), the parsed lists, the checkbox and the
      budget (`MaxStepsOf`). */
  function Cleaned(form: Form): Entries {
    Entries(Trim(form.apiKey), ModelOf(form.model), ParseList(form.allowlist), ParseList(form.denylist),
      form.requireConfirmRisky, MaxStepsOf(form.maxSteps))
  }

  /** The object literal for entries already read. */
  function Publish(e: Entries): Settings {
    SettingsObject(e.apiKey, e.model, e.allowlist, e.denylist, e.requireConfirmRisky, e.maxSteps)
  }

  /** The settings object the Save button stores (`SavedFields`). */
  function SaveSettings(form: Form): Settings {
    Publish(Cleaned(form))
  }

  /** The fields of the object literal. */
  lemma ObjectFields(apiKey: string, model: string, allowlist: seq<string>, denylist: seq<string>, confirm: bool, maxSteps: int)
    ensures var s := SettingsObject(apiKey, model, allowlist, denylist, confirm, maxSteps);
      && "apiKey" in s && s["apiKey"] == JString(apiKey)
      && "model" in s && s["model"] == JString(model)
      && "allowlist" in s && s["allowlist"] == JArray(Strings(allowlist))
      && "denylist" in s && s["denylist"] == JArray(Strings(denylist))
      && "safety" in s && s["safety"] == JObject(map["requireConfirmRisky" := JBool(confirm)])
      && "maxSteps" in s && s["maxSteps"] == JNumber(maxSteps)
  {
  }

  /** What the Save button stores: the trimmed key; always the OpenAI provider; the
      trimmed model, or the default one when that is empty; the non-blank trimmed lines of
      each list; the checkbox as `safety.requireConfirmRisky`; and the parsed step
      budget, or 25 when it does not parse or is 0. */
  lemma SavedFields(form: Form)
    ensures var s := SaveSettings(form);
      && s.Keys == DefaultSettings().Keys
      && s["apiKey"] == JString(Trim(form.apiKey))
      && s["provider"] == JString("openai")
      && s["model"] == JString(if Trim(form.model) == "" then DefaultModel else Trim(form.model))
      && s["allowlist"] == JArray(Strings(ParseList(form.allowlist)))
      && s["denylist"] == JArray(Strings(ParseList(form.denylist)))
      && s["safety"] == JObject(map["requireConfirmRisky" := JBool(form.requireConfirmRisky)])
      && (ParseInt(form.maxSteps) in {None, Some(0)} ==> s["maxSteps"] == JNumber(25))
      && (ParseInt(form.maxSteps) !in {None, Some(0)} ==> s["maxSteps"] == JNumber(ParseInt(form.maxSteps).value))
  {
    var e := Cleaned(form);
    ObjectFields(e.apiKey, e.model, e.allowlist, e.denylist, e.requireConfirmRisky, e.maxSteps);
  }

  /** `String(v)` for the text of an input; an array is its items, `null` ones as
      nothing, joined by commas. */
  function ToText(v: Json): string {
    match v
    case JNull => "null"
    case JBool(b) => if b then "true" else "false"
    case JNumber(n) => IntToString(n)
    case JString(s) => s
    case JArray(items) =>
      Join(seq(|items|, i requires 0 <= i < |items| => if items[i] == JNull then "" else ToText(items[i])), ",")
    case JObject(_) => "[object Object]"
  }

  /** How `join` writes one array item: `null` as nothing, anything else as `String(item)`. */
  function ItemText(v: Json): string {
    if v == JNull then "" else ToText(v)
  }

  /** `(settings.key || fallback)` as the text of an input. */
  function TextOr(settings: Settings, key: string, fallback: string): string {
    if key in settings && !Falsy(settings[key]) then ToText(settings[key]) else fallback
  }

  /** `(settings.key || []).join("\n")`; `None` when the value is truthy but not an
      array, where `join` is not a function and `loadSettings` throws. */
  function ListText(settings: Settings, key: string): Option<string> {
    if key !in settings || Falsy(settings[key]) then Some("")
    else if settings[key].JArray? then
      var items := settings[key].items;
      Some(Join(seq(|items|, i requires 0 <= i < |items| => ItemText(items[i])), "\n"))
    else None
  }

  /** `settings.safety?.requireConfirmRisky ?? true`, as the checkbox sees it. */
  function ConfirmBox(settings: Settings): bool {
    var flag := Property(if "safety" in settings then settings["safety"] else JNull, "requireConfirmRisky");
    if flag.None? || flag.value == JNull then true else !Falsy(flag.value)
  }

  /** `loadSettings`: the form values for `settings`, or `None` when a list field throws. */
  function LoadForm(settings: Settings): Option<Form> {
    var allow := ListText(settings, "allowlist");
    var deny := ListText(settings, "denylist");
    if allow.None? || deny.None? then None
    else
      Some(Form(
        TextOr(settings, "apiKey", ""),
        TextOr(settings, "model", DefaultModel),
        allow.value,
        deny.value,
        ConfirmBox(settings),
        TextOr(settings, "maxSteps", "25")))
  }

  /** The defaults fill the form with no key, the default model, empty lists, the
      confirmation ticked and a budget of 25. */
  lemma LoadDefaults()
    ensures LoadForm(GetSettings(None)) == Some(Form("", DefaultModel, "", "", true, "25"))
  {
    var s := GetSettings(None);
    assert s == DefaultSettings();
    assert ToText(JNumber(25)) == "25";
  }

  /** A saved list is shown joined by line breaks. */
  lemma ListTextOfStrings(settings: Settings, key: string, xs: seq<string>)
    requires key in settings && settings[key] == JArray(Strings(xs))
    ensures ListText(settings, key) == Some(Join(xs, "\n"))
  {
    var items := Strings(xs);
    var texts := seq(|items|, i requires 0 <= i < |items| => ItemText(items[i]));
    assert forall i :: 0 <= i < |xs| ==> texts[i] == xs[i];
    assert texts == xs;
  }

  /** `loadSettings` on a stored object shows its values: the key, the model (which is not
      empty), the lists one entry per line, the checkbox and the budget (which is not 0). */
  lemma LoadObject(apiKey: string, model: string, allowlist: seq<string>, denylist: seq<string>, confirm: bool, maxSteps: int)
    requires model != "" && maxSteps != 0
    ensures LoadForm(SettingsObject(apiKey, model, allowlist, denylist, confirm, maxSteps))
      == Some(Form(apiKey, model, Join(allowlist, "\n"), Join(denylist, "\n"), confirm, IntToString(maxSteps)))
  {
    var s := SettingsObject(apiKey, model, allowlist, denylist, confirm, maxSteps);
    ObjectFields(apiKey, model, allowlist, denylist, confirm, maxSteps);
    ListTextOfStrings(s, "allowlist", allowlist);
    ListTextOfStrings(s, "denylist", denylist);
    TextOrString(s, "apiKey", apiKey, "");
    TextOrString(s, "model", model, DefaultModel);
    TextOrNumber(s, "maxSteps", maxSteps, "25");
    ConfirmBoxOf(s, confirm);
  }

  /** A stored string is shown as it is; an empty one gives way to the fallback. */
  lemma TextOrString(settings: Settings, key: string, v: string, fallback: string)
    requires key in settings && settings[key] == JString(v)
    ensures TextOr(settings, key, fallback) == if v == "" then fallback else v
  {
  }

  /** A stored number other than 0 is shown in decimal; 0 gives way to the fallback. */
  lemma TextOrNumber(settings: Settings, key: string, n: int, fallback: string)
    requires key in settings && settings[key] == JNumber(n)
    ensures TextOr(settings, key, fallback) == if n == 0 then fallback else IntToString(n)
  {
  }

  /** A stored `safety` object with a boolean flag ticks the checkbox as the flag says. */
  lemma ConfirmBoxOf(settings: Settings, confirm: bool)
    requires "safety" in settings && settings["safety"] == JObject(map["requireConfirmRisky" := JBool(confirm)])
    ensures ConfirmBox(settings) == confirm
  {
  }

  /** A stored object with every default key is what `getSettings` returns. */
  lemma GetSettingsOfObject(apiKey: string, model: string, allowlist: seq<string>, denylist: seq<string>, confirm: bool, maxSteps: int)
    ensures var s := SettingsObject(apiKey, model, allowlist, denylist, confirm, maxSteps);
      GetSettings(Some(JObject(s))) == s
  {
    var s := SettingsObject(apiKey, model, allowlist, denylist, confirm, maxSteps);
    assert GetSettings(Some(JObject(s))).Keys == s.Keys;
  }

  /** The form `loadSettings` shows for what the Save button stored from `form`. */
  function Reloaded(form: Form): Form {
    Form(Trim(form.apiKey), ModelOf(form.model), Join(ParseList(form.allowlist), "\n"),
      Join(ParseList(form.denylist), "\n"), form.requireConfirmRisky, IntToString(MaxStepsOf(form.maxSteps)))
  }

  /** Reading back what was saved: `getSettings` returns the saved object unchanged, and
      `loadSettings` shows the trimmed key and model, the parsed lists one per line, the
      checkbox as it was and the budget that was stored. */
  lemma SaveThenLoad(form: Form)
    ensures GetSettings(Some(JObject(SaveSettings(form)))) == SaveSettings(form)
    ensures LoadForm(SaveSettings(form)) == Some(Reloaded(form))
  {
    var key, model, allow, deny := Trim(form.apiKey), ModelOf(form.model), ParseList(form.allowlist), ParseList(form.denylist);
    var steps := MaxStepsOf(form.maxSteps);
    GetSettingsOfObject(key, model, allow, deny, form.requireConfirmRisky, steps);
    LoadObject(key, model, allow, deny, form.requireConfirmRisky, steps);
  }

  /** Saving the form `loadSettings` showed for a save stores the same settings again. */
  lemma SaveLoadSave(form: Form)
    ensures SaveSettings(Reloaded(form)) == SaveSettings(form)
  {
    CleanedStable(form);
    SaveSame(Reloaded(form), form);
  }

  /** Forms from which the Save handler reads the same entries are saved alike. */
  lemma SaveSame(f: Form, g: Form)
    requires Cleaned(f) == Cleaned(g)
    ensures SaveSettings(f) == SaveSettings(g)
  {
  }

  /** The Save handler reads the same entries out of the form `loadSettings` showed for
      a save: trimming, the default model, list parsing and budget parsing are
      idempotent. */
  lemma CleanedStable(form: Form)
    ensures Cleaned(Reloaded(form)) == Cleaned(form)
  {
    TrimIdempotent(form.apiKey);
    ModelOfIdempotent(form.model);
    ParseListStable(form.allowlist);
    ParseListStable(form.denylist);
    MaxStepsOfRendered(MaxStepsOf(form.maxSteps));
  }

  lemma TrimIdempotent(s: string)
    ensures Trim(Trim(s)) == Trim(s)
  {
    TrimOfTrimmed(Trim(s));
  }

  lemma ModelOfIdempotent(value: string)
    ensures ModelOf(ModelOf(value)) == ModelOf(value)
  {
    var m := ModelOf(value);
    assert Trim(m) == m && m != "";
  }

  /** A budget written into the form by `loadSettings` is read back as that budget. */
  lemma MaxStepsOfRendered(n: int)
    requires n != 0
    ensures MaxStepsOf(IntToString(n)) == n
  {
    ParseIntOfIntToString(n);
  }
}
