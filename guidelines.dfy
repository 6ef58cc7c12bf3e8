/** The `get_accessibility_guidelines` tool: a lookup in the table of
    guideline texts, with a fallback message naming what is available. */
module Guidelines {
  import opened JsString

  /** The component names the tool's input schema accepts, in the order
      the fallback message lists them. */
  const Components: seq<string> :=
    ["modal", "tabs", "accordion", "combobox", "carousel", "form", "live-region", "navigation", "general"]

  const Available := "modal, tabs, accordion, combobox, carousel, form, live-region, navigation, general"

  function NotFound(component: string): string {
    "No guidelines found for \"" + component + "\". Available: " + Available
  }

  /** `GUIDELINES[component]`, or the fallback when the entry is missing or
      empty (both are falsy in JavaScript). The answer is never empty. */
  function Lookup(guidelines: map<string, string>, component: string): (text: string)
    ensures text != ""
    ensures component in guidelines && guidelines[component] != "" ==> text == guidelines[component]
    ensures component !in guidelines || guidelines[component] == "" ==> text == NotFound(component)
  {
    if component in guidelines && guidelines[component] != "" then guidelines[component]
    else NotFound(component)
  }

  /** A table with a non-empty text for every component of the schema. */
  predicate Complete(guidelines: map<string, string>) {
    forall c | c in Components :: c in guidelines && guidelines[c] != ""
  }

  /** With a complete table, every input the schema admits gets its own
      text and never the fallback. */
  lemma SchemaInputsAreFound(guidelines: map<string, string>, component: string)
    requires Complete(guidelines) && component in Components
    ensures Lookup(guidelines, component) == guidelines[component]
  {
  }

  /** The fallback's list of available components is the schema's
      component names joined with `", "`. */
  lemma AvailableListsComponents()
    ensures Available == Join(Components, ", ")
  {
    JoinedFirst8();
    JoinStep(Components, ", ", 8);
    assert Components[..9] == Components;
  }

  /** The joins of the first k component names, one name at a time. */
  lemma JoinedFirst2()
    ensures Join(Components[..2], ", ") == "modal, tabs"
  {
    assert Components[..1] == ["modal"];
    JoinStep(Components, ", ", 1);
  }

  lemma JoinedFirst3()
    ensures Join(Components[..3], ", ") == "modal, tabs, accordion"
  {
    JoinedFirst2();
    JoinStep(Components, ", ", 2);
  }

  lemma JoinedFirst4()
    ensures Join(Components[..4], ", ") == "modal, tabs, accordion, combobox"
  {
    JoinedFirst3();
    JoinStep(Components, ", ", 3);
  }

  lemma JoinedFirst5()
    ensures Join(Components[..5], ", ") == "modal, tabs, accordion, combobox, carousel"
  {
    JoinedFirst4();
    JoinStep(Components, ", ", 4);
  }

  lemma JoinedFirst6()
    ensures Join(Components[..6], ", ") == "modal, tabs, accordion, combobox, carousel, form"
  {
    JoinedFirst5();
    JoinStep(Components, ", ", 5);
  }

  lemma JoinedFirst7()
    ensures Join(Components[..7], ", ") == "modal, tabs, accordion, combobox, carousel, form, live-region"
  {
    JoinedFirst6();
    JoinStep(Components, ", ", 6);
  }

  lemma JoinedFirst8()
    ensures Join(Components[..8], ", ") == "modal, tabs, accordion, combobox, carousel, form, live-region, navigation"
  {
    JoinedFirst7();
    JoinStep(Components, ", ", 7);
  }

  /** One more part: the join so far, a separator and the part. */
  lemma JoinStep(parts: seq<string>, sep: string, k: nat)
    requires 1 <= k < |parts|
    ensures Join(parts[..k + 1], sep) == Join(parts[..k], sep) + sep + parts[k]
  {
    assert parts[..k + 1][..k] == parts[..k];
  }
}
