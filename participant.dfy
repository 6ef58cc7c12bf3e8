/** The request handler of the chat participant: route the slash command,
    load the agent instructions, and assemble the messages sent to the
    language model. */
module Participant {
  import opened Wrappers
  import opened JsString
  import opened Routing
  import opened AgentFiles

  datatype Message = User(content: string)

  const InstructionsPreamble := "You are an accessibility specialist. Apply these instructions:\n\n"

  const MissingAgentsNote :=
    "I could not find the `.github/agents/` directory in your workspace. "
    + "Please open the **accessibility-agents** repository so I can load "
    + "the specialist instructions.\n\n"
    + "I will do my best with built-in knowledge.\n\n"

  /** The system prompt of a turn: empty without an agents directory,
      otherwise the joined bodies of the routed stems. */
  function SystemPrompt(agentsDir: Option<map<string, string>>, stems: seq<string>): string {
    match agentsDir
    case None => ""
    case Some(files) => Join(Bodies(files, stems), Separator)
  }

  /** One turn of `handler`. `agentsDir` is what the search for the agents
      directory found (the readable files in it, by name), `cancelled`
      whether cancellation was requested before the request is sent.
      Returns the notes written to the chat stream and the messages sent
      to the model (`None` when the turn is cancelled first). */
  method Handle(command: Option<string>, prompt: string,
                agentsDir: Option<map<string, string>>, cancelled: bool)
    returns (notes: seq<string>, sent: Option<seq<Message>>)
    ensures var route := RouteCommand(command);
      notes == (if route.note.Some? then [route.note.value] else [])
               + (if agentsDir.None? then [MissingAgentsNote] else [])
    ensures sent.None? <==> cancelled
    ensures sent.Some? ==>
      var messages, system := sent.value, SystemPrompt(agentsDir, RouteCommand(command).stems);
      && |messages| == (if system != "" then 2 else 1)
      && messages[|messages| - 1] == User(prompt)
      && (system != "" ==> messages[0] == User(InstructionsPreamble + system))
  {
    notes := [];
    var stems: seq<string>;
    if command.Some? && command.value != "" && command.value in CommandAgentMap {
      stems := CommandAgentMap[command.value];
    } else if command.Some? && command.value != "" {
      notes := notes + [UnknownCommandNote(command.value)];
      stems := [DefaultAgent];
    } else {
      stems := [DefaultAgent];
    }
    assert stems == RouteCommand(command).stems;

    if agentsDir.None? {
      notes := notes + [MissingAgentsNote];
    }

    var systemPrompt := "";
    if agentsDir.Some? {
      systemPrompt := BuildSystemPrompt(agentsDir.value, stems);
    }

    if cancelled {
      return notes, None;
    }

    var messages: seq<Message> := [];
    if systemPrompt != "" {
      messages := messages + [User(InstructionsPreamble + systemPrompt)];
    }
    messages := messages + [User(prompt)];
    sent := Some(messages);
  }

  /** Every route has one stem, so the system prompt is that agent's body
      alone, with no separator. */
  lemma {:induction false} RoutedPromptIsOneBody(files: map<string, string>, command: Option<string>)
    ensures var stems := RouteCommand(command).stems;
      SystemPrompt(Some(files), stems) == ReadAgentBody(files, stems[0])
  {
    var stems := RouteCommand(command).stems;
    assert stems == [stems[0]];
    SingleStemPrompt(files, stems[0]);
  }

  /** With an agents directory in which the routed agent's file is missing,
      the instructions message still goes out, carrying the load-failure
      note. */
  lemma {:induction false} MissingAgentFileStillInstructs(files: map<string, string>, command: Option<string>)
    requires AgentFileName(RouteCommand(command).stems[0]) !in files
    ensures var stem := RouteCommand(command).stems[0];
      SystemPrompt(Some(files), RouteCommand(command).stems) == LoadFailure(stem) != ""
  {
    RoutedPromptIsOneBody(files, command);
  }
}
