/** The values exchanged between the page agent, the background worker and the
    settings page: element descriptors and snapshots, actions and decisions,
    replies, the run request, JSON values and the safety policy. */
module Protocol {
  import opened Wrappers
  import opened Dom

  datatype Descriptor = Descriptor(
    id: string,
    tag: string,
    role: Option<string>,
    text: string,
    placeholder: Option<string>,
    name: Option<string>,
    typeAttr: Option<string>,
    ariaLabel: Option<string>,
    cssSelector: string,
    boundingRect: Rect,
    isVisible: bool,
    isEnabled: bool)

  datatype PageSnapshot = PageSnapshot(url: string, title: string, visibleText: string, elements: seq<Descriptor>)

  /** The action `type` field; `Other` is any string the executor has no branch for. */
  datatype ActionType = Click | Type | Scroll | Wait | Keypress | Navigate | Select | Other(name: string)

  /** One proposed action. Absent string fields are "", an absent `amount` or `duration` is 0. */
  datatype Action = Action(
    kind: ActionType,
    targetElementId: string,
    text: string,
    key: string,
    direction: string,
    amount: int,
    url: string,
    note: string,
    duration: nat)

  datatype Decision = Decision(thought: string, actions: seq<Action>, done: bool, finalMessage: string)

  /** What the background worker answers to `MODEL_NEXT_ACTION`: a decision, or `{ error }`. */
  datatype Reply = Answer(decision: Decision) | Failure(error: string)

  /** The `MODEL_NEXT_ACTION` message. */
  datatype ModelRequest = ModelRequest(task: string, snapshot: PageSnapshot, stepCount: int, maxSteps: int, demoMode: bool)

  /** `safety` as stored and sent; the flag may be missing from a stored object. */
  datatype SafetyPolicy = SafetyPolicy(requireConfirmRisky: Option<bool>)

  /** JavaScript truthiness of `safety.requireConfirmRisky`. */
  predicate ConfirmationRequired(p: SafetyPolicy) {
    p.requireConfirmRisky == Some(true)
  }

  /** The `RUN_TASK` message; `None` is a missing field. */
  datatype RunTaskMessage = RunTaskMessage(
    task: Option<string>,
    mode: string,
    demoMode: bool,
    maxSteps: Option<int>,
    safety: Option<SafetyPolicy>,
    allowlist: Option<seq<string>>,
    denylist: Option<seq<string>>)

  /** JSON values (numbers are integers here). */
  datatype Json = JNull | JBool(b: bool) | JNumber(n: int) | JString(s: string) | JArray(items: seq<Json>) | JObject(fields: map<string, Json>)

  /** JavaScript falsiness of a JSON value. */
  predicate Falsy(j: Json) {
    j == JNull || j == JBool(false) || j == JNumber(0) || j == JString("")
  }
}
