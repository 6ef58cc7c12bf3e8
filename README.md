# A11y Agent Team — verified model of the contrast tool and the chat participant

The A11y Agent Team ships accessibility specialists in two forms. This
project models the logic at the centre of each:

- **The desktop extension's MCP server** (`desktop-extension/server/index.js`).
  Its `check_contrast` tool normalises two hex colours (`expand`), parses
  their red, green and blue channels, computes the WCAG contrast ratio,
  grades it against the AA minimums (4.5:1 for normal text, 3:1 for large
  text and UI components) and writes a report. Its
  `get_accessibility_guidelines` tool looks a component up in a table of
  guideline texts, with a fallback message.
- **The VS Code chat participant** (`vscode-extension/src/extension.ts`).
  It routes a slash command to an agent file stem and reads each
  `<stem>.agent.md` file. It strips the YAML front matter, joins the
  bodies into a system prompt and assembles the messages sent to the
  language model.

Modules, one per concern:

| file | module | models |
|---|---|---|
| `wrappers.dfy` | `Wrappers` | `Option` |
| `jsstring.dfy` | `JsString` | the JavaScript string operations the source relies on: `trim`, ASCII `toLowerCase`, `replace` of the first occurrence, clamping `slice`, `Array.prototype.join` |
| `colour.dfy` | `Colour` | `expand`, and the `parseInt(hex.slice(…), 16)` channel decoding of `relativeLuminance` |
| `contrast.dfy` | `Contrast` | `contrastRatio`, the AA verdicts and the report built by `check_contrast` |
| `guidelines.dfy` | `Guidelines` | the guideline lookup and its fallback |
| `routing.dfy` | `Routing` | `COMMAND_AGENT_MAP`, `DEFAULT_AGENT` and the routing branch of `handler` |
| `agentfiles.dfy` | `AgentFiles` | `readAgentBody` (front-matter regex, `trim`, the load-failure fallback) and `buildSystemPrompt` |
| `participant.dfy` | `Participant` | the rest of `handler`: notes to the chat stream, the cancellation check and message assembly |

Modelling choices:

- A JavaScript `NaN` is `None`. `parseInt` of a slice with no hex digit
  at its start, after an optional `0x` or `0X`, yields `NaN`, and so do
  the luminance and the ratio;
  every `>=` comparison with `NaN` is false, so every verdict is FAIL.
- The relative luminance of a colour is a parameter
  `lum: Rgb -> Luminance` (any non-negative real). Display rounding is a
  parameter `render`. The ratio and verdict logic is proved for every
  choice of both.
- The agents directory is a map from file name to contents. A name that
  is not in the map is a file whose read fails. `None` is "no agents
  directory found". Cancellation is a boolean input.
- The front-matter regular expression `^---\r?\n[\s\S]*?\r?\n---\r?\n?`
  is modelled character by character. The opening fence is followed by
  the earliest closing fence (the lazy `*?`), then by an optional
  `\r` and an optional `\n` (greedy).

## Model

| member | source | states |
|---|---|---|
| Colour.Expand | desktop-extension/server/index.js:51-55 | the normalised colour always starts with `#` |
| Colour.ExpandShorthand | desktop-extension/server/index.js:52-54 | when three characters remain after removing the first `#`, each is doubled and lower-cased into a seven-character `#rrggbb` |
| Colour.WidenedRemainder | desktop-extension/server/index.js:52-54 | whatever the input, a three-character remainder after the first `#` becomes `#` and each character lower-cased and written twice |
| Colour.HashShorthand | desktop-extension/server/index.js:51-55 | `#` and any three characters become `#` and each character lower-cased and written twice |
| Colour.ExpandKeeps | desktop-extension/server/index.js:51-55 | `#` followed by a remainder of any length other than three with no ASCII upper-case letter is left unchanged |
| Colour.ExpandOtherLengths | desktop-extension/server/index.js:52-54 | any other length is kept as is, lower-cased, after a single `#` |
| Colour.ExpandLowerCases | desktop-extension/server/index.js:54 | no upper-case ASCII letter survives normalisation |
| Colour.ExpandIdempotent | desktop-extension/server/index.js:51-55 | normalising a normalised colour changes nothing |
| Colour.ShorthandMatchesLongForm | desktop-extension/server/index.js:51-55 | `#abc` and `#aabbcc` normalise to the same colour |
| Colour.DoubleHashIsNotShorthand | desktop-extension/server/index.js:52 | only the first `#` is removed, so `##abc` is not treated as shorthand and stays `##abc` |
| Colour.MixedCaseShorthand | desktop-extension/server/index.js:51-55 | `#FfF` normalises to `#ffffff` |
| Colour.ParseHex | desktop-extension/server/index.js:18-20 | `parseInt(…, 16)` skips a `0x` or `0X` prefix; it is NaN exactly when no hex digit follows that point; otherwise its value is below 16 to the power of the length of the digit run |
| Colour.RadixPrefixAlone | desktop-extension/server/index.js:18-20 | `0x` and `0X` alone are NaN, though `0` is a hex digit |
| Colour.DecodeChannels | desktop-extension/server/index.js:17-20 | the three channels parse exactly when positions 1, 3 and 5 each start a channel: a hex digit that is not the `0` of a `0x` or `0X`; every parsed channel is a byte |
| Colour.RadixPrefixChannel | desktop-extension/server/index.js:17-20 | `#0x0000` is unreadable, because its red channel `0x` is NaN |
| Colour.LongFormChannels | desktop-extension/server/index.js:17-20 | for `#rrggbb`, each channel is 16 times its first digit plus its second |
| Colour.ShorthandChannels | desktop-extension/server/index.js:17-20 | a shorthand colour decodes to channels of 17 times each digit |
| Colour.FormatRoundTrip | desktop-extension/server/index.js:17-20 | decoding the `#rrggbb` rendering of any byte triple gives that triple back |
| Colour.FormatIsExpanded | desktop-extension/server/index.js:51-55 | a lower-case `#rrggbb` colour is a fixed point of normalisation |
| Contrast.ColourLuminance | desktop-extension/server/index.js:17-21 | a colour has a luminance exactly when its channels decode |
| Contrast.ContrastRatio | desktop-extension/server/index.js:24-30 | the ratio is defined exactly when both luminances are; it is at least 1, and exactly 1 when the luminances are equal |
| Contrast.ContrastRatioSymmetric | desktop-extension/server/index.js:27-29 | swapping the two colours does not change the ratio |
| Contrast.ContrastRatioAtMost21 | desktop-extension/server/index.js:24-30 | for luminances in [0, 1] the ratio is at most 21, reached by black on white |
| Contrast.AtLeast | desktop-extension/server/index.js:63-65 | a verdict is PASS exactly when the ratio is a number at or above the minimum |
| Contrast.Classify | desktop-extension/server/index.js:63-65 | normal text passes exactly at 4.5 or more; large text and UI components share the 3.0 minimum; passing normal text implies passing large text |
| Contrast.Report | desktop-extension/server/index.js:63-87 | the report has eight lines, or eleven when normal text fails; it gives the ratio, the three verdicts and the colours; when normal text fails, the last line says "only sufficient for large text" exactly when large text passes; the text is the lines joined by newlines |
| Contrast.CheckContrast | desktop-extension/server/index.js:57-87 | the same report, for the normalised colours and the ratio of their luminances |
| Contrast.SameColourFailsAll | desktop-extension/server/index.js:51-65 | two colours that normalise alike fail all three levels |
| Contrast.SameColourRatio | desktop-extension/server/index.js:24-30 | a colour against itself has ratio 1, or NaN when it is unreadable |
| Contrast.RadixPrefixColourFailsAll | desktop-extension/server/index.js:51-65 | `#0x0000` fails all three levels against any background, because its ratio is NaN |
| Contrast.ShorthandAgainstLongFormFailsAll | desktop-extension/server/index.js:51-65 | `#abc` against `#aabbcc` fails all three levels |
| Guidelines.Lookup | desktop-extension/server/index.js:367-378 | a present, non-empty entry is returned as is; otherwise the "No guidelines found" message, which is never empty |
| Guidelines.AvailableListsComponents | desktop-extension/server/index.js:352-373 | the fallback's "Available" list is the schema's nine component names, in order, joined with `, ` |
| Guidelines.SchemaInputsAreFound | desktop-extension/server/index.js:352-378 | with a complete table, every component the input schema admits gets its own text |
| Routing.EveryCommandHasOneAgent | vscode-extension/src/extension.ts:6-24 | every slash command maps to exactly one agent stem |
| Routing.RouteCommand | vscode-extension/src/extension.ts:113-125 | a known command routes to its stem with no note; an unknown non-empty command routes to the accessibility lead with a note; no command or an empty command routes to the lead silently |
| AgentFiles.OpeningFence | vscode-extension/src/extension.ts:66 | the match starts only with `---` and a line break at the start of the file; the fence takes four characters for `---\n` and five for `---\r\n` |
| AgentFiles.FindClosing | vscode-extension/src/extension.ts:66 | the lazy `[\s\S]*?` stops at the earliest closing fence; none found means none exists |
| AgentFiles.ClosingFence | vscode-extension/src/extension.ts:66 | the closing fence takes four characters after an LF and five after a CR LF, and ends right after its three dashes |
| AgentFiles.LineBreak | vscode-extension/src/extension.ts:66 | the greedy optional CR and LF after the closing fence: two characters for CR LF, one for a lone CR or LF, none otherwise |
| AgentFiles.CrlfOpeningIsNotClosing | vscode-extension/src/extension.ts:66 | `---\r\n---\n` has no front matter, because the LF of a CR LF opening fence belongs to the opening fence and cannot start the closing one |
| AgentFiles.MatchFrontMatter | vscode-extension/src/extension.ts:66 | there is a match exactly when an opening fence is followed by a closing fence; the match ends after the optional CR and LF |
| AgentFiles.StripFrontMatter | vscode-extension/src/extension.ts:66-70 | with a match the body is the trimmed rest of the file; without one, the trimmed file; either way the body occurs in the file |
| AgentFiles.MatchesMetadataBlock | vscode-extension/src/extension.ts:66 | for `---\n` + metadata + `\n---\n` + rest, where the metadata holds no fence line, the match ends right before rest |
| AgentFiles.StripsMetadataBlock | vscode-extension/src/extension.ts:66-68 | such a file's body is the trimmed rest |
| AgentFiles.ReadAgentBody | vscode-extension/src/extension.ts:57-74 | a readable file yields its stripped body; an unreadable one yields the non-empty load-failure note naming the file |
| AgentFiles.BuildSystemPrompt | vscode-extension/src/extension.ts:80-90 | the prompt is the bodies of the stems, in order, joined by the `---` separator |
| AgentFiles.SingleStemPrompt | vscode-extension/src/extension.ts:84-89 | a single stem's prompt is its body, with no separator |
| Participant.Handle | vscode-extension/src/extension.ts:106-161 | the chat notes are the unknown-command note, then the missing-directory note, each only when it applies; nothing is sent when cancelled; otherwise the user prompt is the last message, preceded by the instructions message exactly when the system prompt is non-empty |
| Participant.RoutedPromptIsOneBody | vscode-extension/src/extension.ts:116-142 | every routed system prompt is one agent's body |
| Participant.MissingAgentFileStillInstructs | vscode-extension/src/extension.ts:139-157 | when the routed agent file is missing but the directory exists, the system prompt is the load-failure note, so the instructions message still goes out |
| JsString.Trim | vscode-extension/src/extension.ts:68-70 | the result is a substring of the input, only whitespace is removed around it, and it neither starts nor ends with whitespace |
| JsString.RemoveFirstSpec | desktop-extension/server/index.js:52 | `replace("#", "")` removes exactly the first `#`, wherever it is, and nothing if there is none |
| JsString.Slice | desktop-extension/server/index.js:18-20 | `slice` clamps both ends to the string: the requested span when it fits, the rest of the string when only its end is past the end, nothing when its start is |
| JsString.JoinLength | vscode-extension/src/extension.ts:89 | a join's length is the parts' total length plus one separator between each pair |
| JsString.JoinPartAt | vscode-extension/src/extension.ts:89 | each part appears at its offset in the join, with the separator after it unless it is the last |
| JsString.JoinLayout | vscode-extension/src/extension.ts:89 | the joined system prompt holds exactly the bodies in stem order, one separator between each two neighbours, and nothing else |

## Left out

- `srgbToLinear` and the weighted sum in `relativeLuminance` (index.js:12-15, 21) are floating-point arithmetic. The luminance is a parameter; the ratio is modelled on exact reals.
- `Math.round(ratio * 100) / 100` and number-to-text conversion (index.js:61) are floating-point display. They are the `render` parameter of `Contrast.CheckContrast`.
- Colour.ParseHex: `parseInt` also skips leading white space and accepts a sign before the digits. The model does not. So a two-character slice such as `-a` or ` a` is a number in JavaScript (-10, 10) but NaN here. Both come only from malformed colours.
- Colour.DecodeChannels: for the same reason, a colour such as `#-a0000` or `# a0000` is unreadable here. In JavaScript its red channel is -10 or 10.
- The `catch` branch of `check_contrast` (index.js:88-97) cannot be reached for string inputs, since nothing in the `try` block throws; it is not modelled.
- Guidelines.Lookup: the table's prose is left out. The lookup is proved for any table.
- JavaScript `in` and property lookup also see inherited keys such as `constructor`. The map model sees only own keys (extension.ts:116; index.js:367).
- Colour.ExpandLowerCases: `toLowerCase` is modelled on ASCII letters only. Non-ASCII letters are kept as they are. JavaScript also lower-cases them, and may make the string longer: `İ` (U+0130) becomes `i` and a combining dot.
- Colour.ExpandIdempotent: holds for the ASCII lower-casing of the model only. In JavaScript `expand("#İa")` is `#i̇a`, whose remainder has three code units, so a second `expand` widens it.
- Colour.ExpandShorthand: the seven-character result holds for the ASCII lower-casing of the model only. In JavaScript `expand("#İab")` is nine code units long.
- Colour.ExpandKeeps: a non-ASCII upper-case letter such as `É` is kept by the model's ASCII lower-casing, so `#É` is unchanged here but is `#é` in JavaScript.
- Colour.WidenedRemainder: each character is lower-cased by the model's ASCII rule, which keeps one character one character; the same gap as Colour.ExpandShorthand.
- Colour.HashShorthand: the same gap as Colour.ExpandShorthand.
- Strings are sequences of Unicode characters, not UTF-16 code units. `h.length === 3` at index.js:53 therefore differs for characters outside the Basic Multilingual Plane.
- The MCP server setup, tool and prompt registration, the prompt templates, and the stdio transport (the rest of index.js) are left out.
- `findAgentsDir`, the file reads, `activate` and `deactivate` (extension.ts:33-51, 92-104, 174-176) are left out. File I/O becomes the map of readable files.
- `request.model.sendRequest` and the streaming of the response, with its cancellation checks (extension.ts:164-171), are left out. `Participant.Handle` returns the messages it would send.
