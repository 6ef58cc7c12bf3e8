/** Slash-command routing of the chat participant: which agent files a
    command loads. */
module Routing {
  import opened Wrappers

  /** Slash-command names and the agent-file stems they route to. */
  const CommandAgentMap: map<string, seq<string>> := map[
    "aria" := ["aria-specialist"],
    "contrast" := ["contrast-master"],
    "keyboard" := ["keyboard-navigator"],
    "forms" := ["forms-specialist"],
    "alt-text" := ["alt-text-headings"],
    "tables" := ["tables-data-specialist"],
    "links" := ["link-checker"],
    "modal" := ["modal-specialist"],
    "live-region" := ["live-region-controller"],
    "audit" := ["web-accessibility-wizard"],
    "document" := ["document-accessibility-wizard"],
    "markdown" := ["markdown-a11y-assistant"],
    "test" := ["testing-coach"],
    "wcag" := ["wcag-guide"],
    "cognitive" := ["cognitive-accessibility"],
    "mobile" := ["mobile-accessibility"],
    "design-system" := ["design-system-auditor"]
  ]

  /** The agent used when no slash command is given. */
  const DefaultAgent := "accessibility-lead"

  function UnknownCommandNote(command: string): string {
    "> Unknown command `/" + command + "`. Routing to the Accessibility Lead.\n\n"
  }

  /** The stems to load and the note written to the chat stream, if any. */
  datatype Route = Route(stems: seq<string>, note: Option<string>)

  /** Every command of the table routes to exactly one agent file. */
  lemma EveryCommandHasOneAgent(command: string)
    requires command in CommandAgentMap
    ensures |CommandAgentMap[command]| == 1
  {
  }

  /** The routing of `handler`: a known command gives its own stems; an
      unknown one falls back to the default agent with a note; an absent or
      empty command (falsy in JavaScript) falls back silently. Exactly one
      stem is routed in every case. */
  function RouteCommand(command: Option<string>): (r: Route)
    ensures |r.stems| == 1
    ensures command.Some? && command.value in CommandAgentMap ==>
      r == Route(CommandAgentMap[command.value], None)
    ensures command.Some? && command.value != "" && command.value !in CommandAgentMap ==>
      r == Route([DefaultAgent], Some(UnknownCommandNote(command.value)))
    ensures command.None? || command.value == "" ==> r == Route([DefaultAgent], None)
    ensures r.note.Some? <==> command.Some? && command.value != "" && command.value !in CommandAgentMap
  {
    if command.Some? && command.value != "" && command.value in CommandAgentMap then
      EveryCommandHasOneAgent(command.value);
      Route(CommandAgentMap[command.value], None)
    else if command.Some? && command.value != "" then
      Route([DefaultAgent], Some(UnknownCommandNote(command.value)))
    else
      Route([DefaultAgent], None)
  }
}
