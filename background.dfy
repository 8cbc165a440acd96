/** The background service worker: the stored settings with their defaults, the demo
    planner, the check on the model's output and the answer to `MODEL_NEXT_ACTION`.
    Storage, the network request to OpenAI and JSON parsing are inputs here. */
module Background {
  import opened Wrappers
  import opened Text
  import opened Protocol

  type Settings = map<string, Json>

  /** `DEFAULT_SETTINGS`. */
  function DefaultSettings(): Settings {
    map[
      "apiKey" := JString(""),
      "provider" := JString("openai"),
      "model" := JString("gpt-4o-mini"),
      "allowlist" := JArray([]),
      "denylist" := JArray([]),
      "safety" := JObject(map["requireConfirmRisky" := JBool(true)]),
      "maxSteps" := JNumber(25)]
  }

  /** The own enumerable properties that `{ ...j }` copies out of `j`: the fields of an
      object, the indices of an array or of the characters of a string, and nothing for
      `null`, a boolean or a number. */
  function Spread(j: Json): Settings {
    match j
    case JObject(fields) => fields
    case JArray(items) => Indexed(seq(|items|, i requires 0 <= i < |items| => items[i]))
    case JString(s) => Indexed(seq(|s|, i requires 0 <= i < |s| => JString([s[i]])))
    case _ => map[]
  }

  /** The properties `"0"`, `"1"`, … of the values `vs`. */
  function Indexed(vs: seq<Json>): (m: Settings)
    ensures forall i :: 0 <= i < |vs| ==> NatToString(i) in m && m[NatToString(i)] == vs[i]
    ensures forall key :: key in m ==> exists i :: 0 <= i < |vs| && key == NatToString(i)
  {
    if vs == [] then map[]
    else
      var n := |vs| - 1;
      var front := Indexed(vs[..n]);
      forall i | 0 <= i < n
        ensures NatToString(i) != NatToString(n)
      {
        if NatToString(i) == NatToString(n) {
          NatToStringInjective(i, n);
        }
      }
      front[NatToString(n) := vs[n]]
  }

  /** `getSettings`: `{ ...DEFAULT_SETTINGS, ...(stored.settings || {}) }`, where `stored`
      is the `settings` entry of the storage area (`None` when there is none). Every
      default key is present. */
  function GetSettings(stored: Option<Json>): (r: Settings)
    ensures forall key :: key in DefaultSettings() ==> key in r
  {
    var own := if stored.None? || Falsy(stored.value) then map[] else Spread(stored.value);
    DefaultSettings() + own
  }

  /** The merge is shallow: a stored field is taken as it is, wholesale (a stored `safety`
      replaces the default object, whatever it lacks), and every other default stays. */
  lemma GetSettingsFields(fields: Settings)
    ensures var r := GetSettings(Some(JObject(fields)));
      && r.Keys == DefaultSettings().Keys + fields.Keys
      && (forall key :: key in fields ==> r[key] == fields[key])
      && (forall key :: key in DefaultSettings() && key !in fields ==> r[key] == DefaultSettings()[key])
  {
  }

  /** With nothing stored, or a falsy value, `getSettings` gives the defaults. */
  lemma GetSettingsDefaults(stored: Option<Json>)
    requires stored.None? || Falsy(stored.value)
    ensures GetSettings(stored) == DefaultSettings()
  {
  }

  /** Storing what `getSettings` returns (as `onInstalled` does) and reading again gives
      the same settings. */
  lemma GetSettingsStable(stored: Option<Json>)
    ensures GetSettings(Some(JObject(GetSettings(stored)))) == GetSettings(stored)
  {
    var r := GetSettings(stored);
    var again := GetSettings(Some(JObject(r)));
    assert again.Keys == r.Keys;
  }

  /** `data.actions` for a value that is an object; other values have no such property. */
  function Property(data: Json, key: string): Option<Json> {
    if data.JObject? && key in data.fields then Some(data.fields[key]) else None
  }

  /** `validateModelResponse`: accepted exactly when the value is an object whose
      `actions` is an array. */
  function ValidateModelResponse(data: Json): (ok: bool)
    ensures ok <==> data.JObject? && "actions" in data.fields && data.fields["actions"].JArray?
  {
    if Falsy(data) || !(data.JObject? || data.JArray?) then false
    else
      var actions := Property(data, "actions");
      if !(actions.Some? && actions.value.JArray?) then false else true
  }

  /** The items of `actions` are not looked at: an array of anything, `null` included, passes. */
  lemma ItemsNotValidated(items: seq<Json>)
    ensures ValidateModelResponse(JObject(map["actions" := JArray(items)]))
  {
  }

  // ---------------------------------------------------------------- demoActions

  const InputTags: set<string> := {"input", "textarea"}

  /** `elements.find(el => tags.includes(el.tag))`, as the index of the element found. */
  function FirstWithTag(elements: seq<Descriptor>, tags: set<string>): (r: Option<nat>)
    ensures r.Some? ==> r.value < |elements| && elements[r.value].tag in tags
    ensures r.Some? ==> forall i :: 0 <= i < r.value ==> elements[i].tag !in tags
    ensures r.None? ==> forall i :: 0 <= i < |elements| ==> elements[i].tag !in tags
  {
    if elements == [] then None
    else if elements[0].tag in tags then Some(0)
    else
      match FirstWithTag(elements[1..], tags)
      case Some(i) =>
        assert forall l :: 1 <= l <= i ==> elements[l] == elements[1..][l - 1];
        Some(i + 1)
      case None =>
        assert forall l :: 1 <= l < |elements| ==> elements[l] == elements[1..][l - 1];
        None
  }

  /** The demo's first action: scroll down by 400 pixels. */
  function DemoScroll(): Action {
    Action(Scroll, "", "", "", "down", 400, "", "Scroll down (demo)", 0)
  }

  /** The demo's second action: type a greeting into element `id`. */
  function DemoType(id: string): Action {
    Action(Type, id, "Hello from WebCursor Agent", "", "", 0, "", "Type in first input (demo)", 0)
  }

  /** The demo's third action: click element `id`. */
  function DemoClick(id: string): Action {
    Action(Click, id, "", "", "", 0, "", "Click first link (demo)", 0)
  }

  /** `demoActions(snapshot, stepCount)`. At step 0 it scrolls down; at step 1 it types
      into the first input or text area, at step 2 it clicks the first link, and it
      proposes nothing when there is no such element or at any other step. It is done
      from step 2 on, with "Demo complete". */
  function DemoActions(snapshot: PageSnapshot, stepCount: int): (d: Decision)
    ensures |d.actions| <= 1
    ensures d.thought == "Demo mode action"
    ensures d.done <==> stepCount >= 2
    ensures d.finalMessage == (if stepCount >= 2 then "Demo complete" else "")
    ensures stepCount == 0 ==> d.actions == [DemoScroll()]
    ensures stepCount == 1 ==> FirstElementAction(snapshot.elements, InputTags, d.actions, DemoType)
    ensures stepCount == 2 ==> FirstElementAction(snapshot.elements, {"a"}, d.actions, DemoClick)
    ensures stepCount !in {0, 1, 2} ==> d.actions == []
  {
    var elements := snapshot.elements;
    var actions :=
      if stepCount == 0 then [DemoScroll()]
      else if stepCount == 1 && |elements| > 0 then
        match FirstWithTag(elements, InputTags)
        case Some(i) => [DemoType(elements[i].id)]
        case None => []
      else if stepCount == 2 then
        match FirstWithTag(elements, {"a"})
        case Some(i) => [DemoClick(elements[i].id)]
        case None => []
      else [];
    Decision("Demo mode action", actions, stepCount >= 2, if stepCount >= 2 then "Demo complete" else "")
  }

  /** `actions` is `[make(id)]` for the id of the first element whose tag is in `tags`,
      or empty when no element has such a tag. */
  ghost predicate FirstElementAction(elements: seq<Descriptor>, tags: set<string>, actions: seq<Action>, make: string -> Action) {
    || (actions == [] && forall i :: 0 <= i < |elements| ==> elements[i].tag !in tags)
    || exists i :: 0 <= i < |elements| && elements[i].tag in tags
         && (forall l :: 0 <= l < i ==> elements[l].tag !in tags)
         && actions == [make(elements[i].id)]
  }

  /** The demo ends after three answers: once `stepCount` is 2 or more it is done and
      proposes nothing but, at step 2, one click. */
  lemma DemoEnds(snapshot: PageSnapshot, stepCount: int)
    requires stepCount >= 2
    ensures var d := DemoActions(snapshot, stepCount);
      d.done && d.finalMessage == "Demo complete"
      && forall k :: 0 <= k < |d.actions| ==> stepCount == 2 && d.actions[k].kind == Click
  {
  }

  // ---------------------------------------------------------------- MODEL_NEXT_ACTION

  /** The arguments `callOpenAI` is given. */
  datatype OpenAIRequest = OpenAIRequest(apiKey: Json, model: Json, task: string, snapshot: PageSnapshot)

  /** `callOpenAI` as far as this worker decides it: `fetch` stands for the request, the
      check of the status and the JSON parse of the message content, with the error
      message each of those throws; what they yield must pass `validateModelResponse`. */
  function CallOpenAI(req: OpenAIRequest, fetch: OpenAIRequest -> Result<Json, string>): (r: Result<Json, string>)
    ensures r.Ok? <==> fetch(req).Ok? && ValidateModelResponse(fetch(req).value)
    ensures r.Ok? ==> r.value == fetch(req).value
    ensures r.Err? && fetch(req).Ok? ==> r.error == "Model response did not match expected format."
  {
    match fetch(req)
    case Err(message) => Err(message)
    case Ok(parsed) =>
      if !ValidateModelResponse(parsed) then Err("Model response did not match expected format.")
      else Ok(parsed)
  }

  /** What the worker sends back: a demo decision, `{ error }`, or the model's output. */
  datatype Response = DemoReply(decision: Decision) | ErrorReply(error: string) | ModelReply(data: Json)

  /** Truthiness of an optional JSON value (`None` is `undefined`). */
  predicate Truthy(v: Option<Json>) {
    v.Some? && !Falsy(v.value)
  }

  /** The `MODEL_NEXT_ACTION` handler for the stored `settings` entry `stored`. */
  function RouteModelRequest(msg: ModelRequest, stored: Option<Json>, fetch: OpenAIRequest -> Result<Json, string>): Response {
    var settings := GetSettings(stored);
    if msg.demoMode then DemoReply(DemoActions(msg.snapshot, msg.stepCount))
    else if !Truthy(Some(settings["apiKey"])) then ErrorReply("API key missing. Set it in options.")
    else if settings["provider"] != JString("openai") then ErrorReply("Only OpenAI provider is configured.")
    else
      match CallOpenAI(OpenAIRequest(settings["apiKey"], settings["model"], msg.task, msg.snapshot), fetch)
      case Ok(result) => ModelReply(result)
      case Err(message) => ErrorReply(message)
  }

  /** The handler's order: demo mode answers with the demo planner whatever the settings;
      otherwise a missing key is reported first, then a provider other than OpenAI, and
      only then is the model asked, with the stored key and model, and its output is
      passed on only when it has an `actions` array. */
  lemma RouteOrder(msg: ModelRequest, stored: Option<Json>, fetch: OpenAIRequest -> Result<Json, string>)
    ensures var r := RouteModelRequest(msg, stored, fetch);
      var settings := GetSettings(stored);
      && (msg.demoMode <==> r.DemoReply?)
      && (msg.demoMode ==> r.decision == DemoActions(msg.snapshot, msg.stepCount))
      && (!msg.demoMode && Falsy(settings["apiKey"]) ==> r == ErrorReply("API key missing. Set it in options."))
      && (!msg.demoMode && !Falsy(settings["apiKey"]) && settings["provider"] != JString("openai") ==>
            r == ErrorReply("Only OpenAI provider is configured."))
      && (r.ModelReply? ==>
            && !Falsy(settings["apiKey"]) && settings["provider"] == JString("openai")
            && ValidateModelResponse(r.data)
            && fetch(OpenAIRequest(settings["apiKey"], settings["model"], msg.task, msg.snapshot)) == Ok(r.data))
  {
  }

  /** With the default settings (no key stored) only demo mode gets an answer that is
      not an error. */
  lemma NoKeyNoModel(msg: ModelRequest, fetch: OpenAIRequest -> Result<Json, string>)
    requires !msg.demoMode
    ensures RouteModelRequest(msg, None, fetch) == ErrorReply("API key missing. Set it in options.")
  {
  }
}
