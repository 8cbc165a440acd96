/** The risk classifier of the content script: `isRiskyElement` looks at the
    element's type attribute, its tag and a keyword search over its visible
    text and labels; `isRiskyAction` applies it to the element-targeting action
    types. Each keyword regex is an alternation without anchors or word
    boundaries, so it holds exactly when one keyword occurs as a substring. */
module Risk {
  import opened Wrappers
  import opened Text
  import opened Dom
  import opened Protocol
  import opened Snapshot

  const PaymentTerms: seq<string> := ["pay", "card", "cvv", "cvc", "bank", "iban", "routing", "swift"]
  const PublishTerms: seq<string> := ["send", "post", "publish", "submit"]
  const DestructiveTerms: seq<string> := ["delete", "remove", "destroy", "erase"]
  const CredentialTerms: seq<string> := ["password", "passcode"]

  /** The four keyword tables, in the order they are tested. */
  const RiskTerms: seq<string> := PaymentTerms + PublishTerms + DestructiveTerms + CredentialTerms

  /** `attr || ""` for an attribute that may be `null`. */
  function OrEmpty(attr: Option<string>): string {
    match attr
    case Some(v) => v
    case None => ""
  }

  /** The text searched for keywords: inner text, aria-label, name and placeholder,
      separated by spaces, normalized and lower-cased. */
  function RiskText(e: Element): string {
    Lower(NormalizeText(e.innerText + " " + OrEmpty(e.ariaLabel) + " " + OrEmpty(e.name) + " " + OrEmpty(e.placeholder)))
  }

  /** `/(t1|t2|…)/.test(s)`. */
  function ContainsAny(s: string, terms: seq<string>): (r: bool)
    ensures r <==> exists t :: t in terms && Contains(s, t)
  {
    if terms == [] then false
    else
      assert forall t :: t in terms <==> t == terms[0] || t in terms[1..];
      Contains(s, terms[0]) || ContainsAny(s, terms[1..])
  }

  /** Trying the tables one after the other is searching their concatenation. */
  lemma {:induction false} ContainsAnyConcat(s: string, a: seq<string>, b: seq<string>)
    ensures ContainsAny(s, a + b) == (ContainsAny(s, a) || ContainsAny(s, b))
  {
    assert forall t :: t in a + b <==> t in a || t in b;
  }

  /** `isRiskyElement`: a submit control, a form, or a keyword from one of the
      four tables somewhere in the element's lower-cased text. */
  function IsRiskyElement(e: Element): (r: bool)
    ensures r <==>
      || Lower(OrEmpty(e.typeAttr)) == "submit"
      || Lower(e.tagName) == "form"
      || exists t :: t in RiskTerms && Contains(RiskText(e), t)
  {
    var text := RiskText(e);
    var kind := Lower(OrEmpty(e.typeAttr));
    ContainsAnyConcat(text, PaymentTerms, PublishTerms);
    ContainsAnyConcat(text, PaymentTerms + PublishTerms, DestructiveTerms);
    ContainsAnyConcat(text, PaymentTerms + PublishTerms + DestructiveTerms, CredentialTerms);
    if kind == "submit" || Lower(e.tagName) == "form" then true
    else if ContainsAny(text, PaymentTerms) then true
    else if ContainsAny(text, PublishTerms) then true
    else if ContainsAny(text, DestructiveTerms) then true
    else if ContainsAny(text, CredentialTerms) then true
    else false
  }

  /** The action types whose target is examined. */
  predicate ChecksTarget(kind: ActionType) {
    kind == Click || kind == Type || kind == Keypress || kind == Select
  }

  /** `isRiskyAction(action, element)`: only a click, type, keypress or select on an
      element that exists can be risky, and then exactly when the element is. */
  function IsRiskyAction(action: Action, element: Option<Element>): (r: bool)
    ensures r <==> element.Some? && ChecksTarget(action.kind) && IsRiskyElement(element.value)
  {
    if element.None? then false
    else if action.kind == Navigate then false
    else if action.kind == Click || action.kind == Keypress || action.kind == Select then IsRiskyElement(element.value)
    else if action.kind == Type then IsRiskyElement(element.value)
    else false
  }

  /** A keyword found anywhere in the text, even inside a longer word, makes the element risky. */
  lemma KeywordInsideWord(e: Element, t: string, i: nat)
    requires t in RiskTerms && i + |t| <= |RiskText(e)| && OccursAt(RiskText(e), t, i)
    ensures IsRiskyElement(e)
  {
  }

  /** Lower-casing comes before the keyword search, and it maps KELVIN SIGN to the ASCII 'k':
      the text of a button reading "BAN" followed by a Kelvin sign is "bank". */
  lemma KelvinSignText(e: Element)
    requires e.innerText == "BAN\U{212A}"
    requires e.ariaLabel.None? && e.name.None? && e.placeholder.None?
    ensures RiskText(e) == "bank"
  {
    var w := e.innerText;
    assert e.innerText + " " + OrEmpty(e.ariaLabel) + " " + OrEmpty(e.name) + " " + OrEmpty(e.placeholder) == w + "   ";
    assert LeadingSpaces("   ") == 3;
    NormalizeLastWord(w, "   ");
    KelvinSignLowers();
  }

  /** Such a button is risky: its text holds the payment keyword "bank". */
  lemma KelvinSignRisky(e: Element)
    requires e.innerText == "BAN\U{212A}"
    requires e.ariaLabel.None? && e.name.None? && e.placeholder.None?
    ensures IsRiskyElement(e)
  {
    KelvinSignText(e);
    assert "bank" in RiskTerms;
    KeywordInsideWord(e, "bank", 0);
  }

  /** A text with none of the keywords, on an element that is neither a submit control nor a
      form, is not risky. */
  lemma NoKeywordNotRisky(e: Element)
    requires Lower(OrEmpty(e.typeAttr)) != "submit" && Lower(e.tagName) != "form"
    requires forall t :: t in RiskTerms ==> !Contains(RiskText(e), t)
    ensures !IsRiskyElement(e)
  {
  }
}
