/** Agent files of the chat participant: stripping the front matter from
    an agent file and joining the bodies of several into one system
    prompt. */
module AgentFiles {
  import opened Wrappers
  import opened JsString

  /** Three dashes start at `k`. */
  predicate DashesAt(raw: string, k: nat) {
    k + 3 <= |raw| && raw[k] == '-' && raw[k + 1] == '-' && raw[k + 2] == '-'
  }

  /** CR? LF starts at `k`. */
  predicate LineEndAt(raw: string, k: nat) {
    || (k < |raw| && raw[k] == '\n')
    || (k + 1 < |raw| && raw[k] == '\r' && raw[k + 1] == '\n')
  }

  /** Length of the opening fence `---` CR? LF at the very start, 0 if the
      text does not start with one. */
  function OpeningFence(raw: string): (n: nat)
    ensures n == 0 || n == 4 || n == 5
    ensures n <= |raw|
    ensures n > 0 <==> DashesAt(raw, 0) && LineEndAt(raw, 3)
    ensures n == 4 ==> raw[3] == '\n'
    ensures n == 5 ==> raw[3] == '\r' && raw[4] == '\n'
  {
    if DashesAt(raw, 0) && |raw| > 3 && raw[3] == '\n' then 4
    else if DashesAt(raw, 0) && |raw| > 4 && raw[3] == '\r' && raw[4] == '\n' then 5
    else 0
  }

  /** A closing fence CR? LF `---` starts at `k`. */
  predicate ClosesAt(raw: string, k: nat) {
    || (k < |raw| && raw[k] == '\n' && DashesAt(raw, k + 1))
    || (k + 1 < |raw| && raw[k] == '\r' && raw[k + 1] == '\n' && DashesAt(raw, k + 2))
  }

  /** Length of the closing fence CR? LF `---` at `k`: it ends right after
      its dashes. */
  function ClosingFence(raw: string, k: nat): (n: nat)
    requires ClosesAt(raw, k)
    ensures k + n <= |raw|
    ensures raw[k] == '\n' ==> n == 4
    ensures raw[k] == '\r' ==> n == 5 && raw[k + 1] == '\n'
    ensures n >= 4 && DashesAt(raw, k + n - 3)
  {
    if raw[k] == '\r' then 5 else 4
  }

  /** The greedy CR? LF? after the closing fence. */
  function LineBreak(raw: string, q: nat): (n: nat)
    requires q <= |raw|
    ensures q + n <= |raw| && n <= 2
    ensures n == 0 <==> q == |raw| || (raw[q] != '\r' && raw[q] != '\n')
    ensures n == 2 <==> q + 1 < |raw| && raw[q] == '\r' && raw[q + 1] == '\n'
    ensures n == 1 ==> raw[q] == '\n' || (raw[q] == '\r' && !(q + 1 < |raw| && raw[q + 1] == '\n'))
  {
    if q < |raw| && raw[q] == '\r' then
      (if q + 1 < |raw| && raw[q + 1] == '\n' then 2 else 1)
    else if q < |raw| && raw[q] == '\n' then 1
    else 0
  }

  /** The first closing fence at or after `from`. */
  function FindClosing(raw: string, from: nat): (k: Option<nat>)
    requires from <= |raw|
    ensures k.Some? ==> from <= k.value <= |raw| && ClosesAt(raw, k.value)
    ensures k.Some? ==> forall j | from <= j < k.value :: !ClosesAt(raw, j)
    ensures k.None? ==> forall j | from <= j <= |raw| :: !ClosesAt(raw, j)
    decreases |raw| - from
  {
    if ClosesAt(raw, from) then Some(from)
    else if from == |raw| then None
    else FindClosing(raw, from + 1)
  }

  /** Where the front matter's body starts, where its closing fence starts,
      and where the whole match ends. */
  datatype FrontMatter = FrontMatter(bodyStart: nat, close: nat, end: nat)

  /** The match of `^---\r?\n[\s\S]*?\r?\n---\r?\n?`: an opening fence, the
      shortest body after which a closing fence follows, the fence, and an
      optional line break. */
  function MatchFrontMatter(raw: string): (m: Option<FrontMatter>)
    ensures m.Some? ==>
      && m.value.bodyStart == OpeningFence(raw) > 0
      && m.value.bodyStart <= m.value.close
      && ClosesAt(raw, m.value.close)
      && (forall j | m.value.bodyStart <= j < m.value.close :: !ClosesAt(raw, j))
      && m.value.end == m.value.close + ClosingFence(raw, m.value.close)
                        + LineBreak(raw, m.value.close + ClosingFence(raw, m.value.close))
      && m.value.end <= |raw|
    ensures m.None? <==>
      OpeningFence(raw) == 0 || forall j | OpeningFence(raw) <= j <= |raw| :: !ClosesAt(raw, j)
  {
    var open := OpeningFence(raw);
    if open == 0 then None
    else
      match FindClosing(raw, open)
      case None => None
      case Some(close) =>
        var fence := ClosingFence(raw, close);
        Some(FrontMatter(open, close, close + fence + LineBreak(raw, close + fence)))
  }

  /** The body of an agent file: the text after the front matter, trimmed,
      or the whole text trimmed when there is none. Stripping only removes
      characters: the body is a piece of the raw text. */
  function StripFrontMatter(raw: string): (body: string)
    ensures MatchFrontMatter(raw).None? ==> body == Trim(raw)
    ensures MatchFrontMatter(raw).Some? ==> body == Trim(raw[MatchFrontMatter(raw).value.end..])
    ensures exists i :: OccursAt(raw, body, i)
  {
    match MatchFrontMatter(raw)
    case None =>
      TrimSuffixOccurs(raw, 0);
      assert raw[0..] == raw;
      Trim(raw)
    case Some(m) =>
      TrimSuffixOccurs(raw, m.end);
      Trim(raw[m.end..])
  }

  /** No line of the metadata (after the first) starts with `---`, and it
      does not end in a carriage return. */
  predicate FenceFree(meta: string) {
    && (forall j | 0 <= j < |meta| :: meta[j] == '\n' ==> !DashesAt(meta, j + 1))
    && (meta == [] || meta[|meta| - 1] != '\r')
  }

  /** No closing fence starts inside fence-free metadata placed after an
      opening fence. */
  lemma {:induction false} NoFenceInMetadata(meta: string, tail: string, j: nat)
    requires FenceFree(meta) && 4 <= j < 4 + |meta|
    ensures !ClosesAt("---\n" + meta + "\n---\n" + tail, j)
  {
    var raw := "---\n" + meta + "\n---\n" + tail;
    var c := 4 + |meta|;
    assert raw[c] == '\n';
    assert forall k | 4 <= k < c :: raw[k] == meta[k - 4];
    if raw[j] == '\n' {
      assert meta[j - 4] == '\n';
    } else if raw[j] == '\r' {
      assert j + 1 < c;
    }
  }

  /** The front matter of such a file ends right after the closing fence
      and its line feed. */
  lemma {:induction false} MatchesMetadataBlock(meta: string, rest: string)
    requires FenceFree(meta)
    ensures var c := 4 + |meta|;
      MatchFrontMatter("---\n" + meta + "\n---\n" + rest) == Some(FrontMatter(4, c, c + 5))
  {
    var raw := "---\n" + meta + "\n---\n" + rest;
    var c := 4 + |meta|;
    assert raw[..4] == "---\n";
    assert OpeningFence(raw) == 4;
    assert raw[c..c + 5] == "\n---\n";
    assert ClosesAt(raw, c);
    forall j | 4 <= j < c
      ensures !ClosesAt(raw, j)
    {
      NoFenceInMetadata(meta, rest, j);
    }
    assert FindClosing(raw, 4) == Some(c);
    assert ClosingFence(raw, c) == 4;
    assert LineBreak(raw, c + 4) == 1;
  }

  /** A CR LF opening fence is five characters long, so its own LF cannot
      also start the closing fence: `---\r\n---\n` has no front matter. */
  lemma CrlfOpeningIsNotClosing()
    ensures MatchFrontMatter("---\r\n---\n") == None
  {
    var raw := "---\r\n---\n";
    assert OpeningFence(raw) == 5;
    assert !ClosesAt(raw, 5) && !ClosesAt(raw, 6) && !ClosesAt(raw, 7) && !ClosesAt(raw, 8) && !ClosesAt(raw, 9);
  }

  /** An agent file that opens with a fence, carries fence-free metadata
      and closes with a fence on its own line yields its trimmed remainder. */
  lemma {:induction false} StripsMetadataBlock(meta: string, rest: string)
    requires FenceFree(meta)
    ensures StripFrontMatter("---\n" + meta + "\n---\n" + rest) == Trim(rest)
  {
    var raw := "---\n" + meta + "\n---\n" + rest;
    var c := 4 + |meta|;
    MatchesMetadataBlock(meta, rest);
    assert raw[c + 5..] == rest;
  }

  function AgentFileName(stem: string): string {
    stem + ".agent.md"
  }

  function LoadFailure(stem: string): string {
    "(Could not load agent instructions from " + stem + ".agent.md)"
  }

  /** `readAgentBody`: the stripped body of `<stem>.agent.md`, or a note
      when the file cannot be read. `files` holds the readable files of the
      agents directory by name. */
  function ReadAgentBody(files: map<string, string>, stem: string): (body: string)
    ensures AgentFileName(stem) in files ==> body == StripFrontMatter(files[AgentFileName(stem)])
    ensures AgentFileName(stem) !in files ==> body == LoadFailure(stem) && body != ""
  {
    var name := AgentFileName(stem);
    if name in files then StripFrontMatter(files[name]) else LoadFailure(stem)
  }

  /** What joins two agent bodies in the system prompt. */
  const Separator := "\n\n---\n\n"

  /** The body of each stem's file, in stem order. */
  function Bodies(files: map<string, string>, stems: seq<string>): (bodies: seq<string>)
    ensures |bodies| == |stems|
    ensures forall k | 0 <= k < |stems| :: bodies[k] == ReadAgentBody(files, stems[k])
  {
    seq(|stems|, k requires 0 <= k < |stems| => ReadAgentBody(files, stems[k]))
  }

  /** `buildSystemPrompt`: read each stem's body in turn, collect them and
      join them with the separator. */
  method BuildSystemPrompt(files: map<string, string>, stems: seq<string>) returns (prompt: string)
    ensures prompt == Join(Bodies(files, stems), Separator)
  {
    var parts: seq<string> := [];
    for i := 0 to |stems|
      invariant |parts| == i
      invariant forall k | 0 <= k < i :: parts[k] == ReadAgentBody(files, stems[k])
    {
      var body := ReadAgentBody(files, stems[i]);
      parts := parts + [body];
    }
    assert parts == Bodies(files, stems);
    prompt := Join(parts, Separator);
  }

  /** A single stem's prompt is just its body: no separator is added. */
  lemma SingleStemPrompt(files: map<string, string>, stem: string)
    ensures Join(Bodies(files, [stem]), Separator) == ReadAgentBody(files, stem)
  {
  }
}
