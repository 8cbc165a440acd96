/** `executeAction` of the content script, as the effects it has on the page in
    the order it has them. The cursor animation, the highlight, the ripple and
    the typing indicator are overlay decoration and are not effects here. */
module Executor {
  import opened Wrappers
  import opened Dom
  import opened Protocol

  /** An effect on the page; `node` is the index of the target element. */
  datatype Effect =
    | Pause(ms: nat)                                  // `await sleep(ms)` of a wait action
    | ScrollBy(top: int)                              // `window.scrollBy({ top })`
    | Assign(url: string)                             // `window.location.href = url`
    | Focus(node: nat)
    | ClickOn(node: nat)
    | SetTextContent(node: nat, text: string)
    | SetValue(node: nat, text: string)
    | Fire(node: nat, event: string)                  // `dispatchEvent(new Event(event))`
    | KeyEvent(node: nat, event: string, key: string) // `dispatchEvent(new KeyboardEvent(event, { key }))`

  /** Why `executeAction` throws: the target id is not in the element map, or the
      browser raised an exception while acting (on the element, or on a navigate URL
      that the `location.href` setter cannot parse). */
  datatype ExecError = ElementNotFound(id: string) | DomFault

  /** The action types whose browser call can throw: the element actions, and navigate. */
  predicate MayFault(kind: ActionType) {
    TargetsElement(kind) || kind == Navigate
  }

  /** The action types that look up `targetElementId` in the element map. */
  predicate TargetsElement(kind: ActionType) {
    kind != Wait && kind != Scroll && kind != Navigate
  }

  /** The element an effect acts on, if any. */
  function EffectTarget(e: Effect): Option<nat> {
    match e
    case Focus(n) => Some(n)
    case ClickOn(n) => Some(n)
    case SetTextContent(n, _) => Some(n)
    case SetValue(n, _) => Some(n)
    case Fire(n, _) => Some(n)
    case KeyEvent(n, _, _) => Some(n)
    case _ => None
  }

  /** The effects on the target `node` of the action kinds that have one. */
  function ElementEffects(action: Action, node: nat, editable: bool): seq<Effect> {
    match action.kind
    case Click => [Focus(node), ClickOn(node)]
    case Type =>
      if editable then [Focus(node), SetTextContent(node, action.text)]
      else [Focus(node), SetValue(node, action.text), Fire(node, "input"), Fire(node, "change")]
    case Select => [Focus(node), SetValue(node, action.text), Fire(node, "change")]
    case Keypress => [KeyEvent(node, "keydown", action.key), KeyEvent(node, "keyup", action.key)]
    case _ => []
  }

  /** `executeAction(action)`, with `fault` standing for an exception the browser raises
      while it acts on the target or assigns a navigate URL. It throws exactly for an
      element action whose target is missing, or for an element action or a navigate that
      faults, and "not found" exactly when the id is not in the map; wait and scroll never
      throw; every effect of an element action is on the mapped element. */
  function ExecuteAction(action: Action, elementMap: map<string, nat>, doc: Document, fault: bool): (r: Result<seq<Effect>, ExecError>)
    requires forall id :: id in elementMap ==> elementMap[id] < |doc.nodes|
    ensures r.Err? <==>
      (TargetsElement(action.kind) && action.targetElementId !in elementMap) || (MayFault(action.kind) && fault)
    ensures r == Err(ElementNotFound(action.targetElementId)) <==>
      TargetsElement(action.kind) && action.targetElementId !in elementMap
    ensures r.Ok? && TargetsElement(action.kind) ==>
      forall k :: 0 <= k < |r.value| ==> EffectTarget(r.value[k]) == Some(elementMap[action.targetElementId])
    ensures r.Ok? && !TargetsElement(action.kind) ==> |r.value| == 1 && EffectTarget(r.value[0]).None?
  {
    match action.kind
    case Wait => Ok([Pause(if action.duration == 0 then 500 else action.duration)])
    case Scroll => Ok([ScrollBy(if action.direction == "up" then -action.amount else action.amount)])
    case Navigate => if fault then Err(DomFault) else Ok([Assign(action.url)])
    case _ =>
      if action.targetElementId !in elementMap then Err(ElementNotFound(action.targetElementId))
      else
        var node := elementMap[action.targetElementId];
        if fault then Err(DomFault)
        else Ok(ElementEffects(action, node, doc.nodes[node].element.isContentEditable))
  }

  /** Typing into an ordinary field sets the value and then fires `input` before `change`;
      typing into a content-editable element replaces its text and fires nothing. */
  lemma TypeEffectOrder(action: Action, elementMap: map<string, nat>, doc: Document)
    requires forall id :: id in elementMap ==> elementMap[id] < |doc.nodes|
    requires action.kind == Type && action.targetElementId in elementMap
    ensures var node := elementMap[action.targetElementId];
      var r := ExecuteAction(action, elementMap, doc, false);
      r.Ok? && r.value[0] == Focus(node)
      && (doc.nodes[node].element.isContentEditable ==> r.value == [Focus(node), SetTextContent(node, action.text)])
      && (!doc.nodes[node].element.isContentEditable ==>
            |r.value| == 4 && r.value[1] == SetValue(node, action.text)
            && r.value[2] == Fire(node, "input") && r.value[3] == Fire(node, "change"))
  {
  }

  /** A key press sends `keydown` and then `keyup` with the same key, and nothing else. */
  lemma KeypressEffectOrder(action: Action, elementMap: map<string, nat>, doc: Document)
    requires forall id :: id in elementMap ==> elementMap[id] < |doc.nodes|
    requires action.kind == Keypress && action.targetElementId in elementMap
    ensures var node := elementMap[action.targetElementId];
      ExecuteAction(action, elementMap, doc, false)
        == Ok([KeyEvent(node, "keydown", action.key), KeyEvent(node, "keyup", action.key)])
  {
  }
}
