/**
 * How a question becomes chat messages (`_build_messages`): the retrieved chunks are numbered
 * `[i]` by their position, each cut to a per-chunk character limit, and added while a running
 * character budget allows; a persona preset picks the system prompt; and a short, filtered
 * slice of the conversation history goes between the system prompt and the question.
 */
module Prompt {
  import opened Wrappers
  import opened Text
  import opened Records

  /** Defaults of `RAG_CONTEXT_CHARS_PER_CHUNK` and `RAG_CONTEXT_MAX_CHARS`. */
  const DefaultCharsPerChunk := 800
  const DefaultMaxContextChars := 5000

  // ---------------------------------------------------------------------------
  // The numbered context
  // ---------------------------------------------------------------------------

  /** The context line for the retrieved item at 1-based position `n`. */
  function Line(n: nat, text: string, limit: int): string {
    "[" + NatToString(n) + "] " + Prefix(text, limit)
  }

  /** The 0-based positions, from `i` on, of the retrieved items that have text. */
  function Positions(rs: seq<Hit>, i: nat): (ps: seq<nat>)
    requires i <= |rs|
    decreases |rs| - i
  {
    if i == |rs| then []
    else if TextOf(rs[i]) == "" then Positions(rs, i + 1)
    else [i] + Positions(rs, i + 1)
  }

  /** Every position lies between `i` and the number of items. */
  lemma {:induction false} PositionsBounded(rs: seq<Hit>, i: nat)
    requires i <= |rs|
    ensures forall k :: 0 <= k < |Positions(rs, i)| ==> i <= Positions(rs, i)[k] < |rs|
    decreases |rs| - i
  {
    if i < |rs| {
      PositionsBounded(rs, i + 1);
    }
  }

  /** A retrieved item that has text, with its 1-based position. */
  datatype Item = Item(n: nat, text: string)

  /** The items at positions `ps`, each numbered by its 1-based position. */
  function ItemsAt(rs: seq<Hit>, ps: seq<nat>): (items: seq<Item>)
    requires forall k :: 0 <= k < |ps| ==> ps[k] < |rs|
    ensures |items| == |ps|
  {
    if ps == [] then [] else [Item(ps[0] + 1, TextOf(rs[ps[0]]))] + ItemsAt(rs, ps[1..])
  }

  /** The items from `i` on that have text, numbered by their position among all items. */
  function Numbered(rs: seq<Hit>, i: nat): (items: seq<Item>)
    requires i <= |rs|
    ensures |items| == |Positions(rs, i)|
  {
    PositionsBounded(rs, i);
    ItemsAt(rs, Positions(rs, i))
  }

  /** The context line of each item. */
  function Render(items: seq<Item>, limit: int): seq<string> {
    if items == [] then [] else [Line(items[0].n, items[0].text, limit)] + Render(items[1..], limit)
  }

  /** Every line the budget could admit, from item `i` on, in order. */
  function Candidates(rs: seq<Hit>, i: nat, limit: int): seq<string>
    requires i <= |rs|
  {
    Render(Numbered(rs, i), limit)
  }

  /**
   * Lines are taken in order while the running total stays within `budget`; the first
   * line that would overflow it ends the context.
   */
  function Fit(cands: seq<string>, used: int, budget: int): seq<string> {
    if cands == [] || used + |cands[0]| > budget then []
    else [cands[0]] + Fit(cands[1..], used + |cands[0]|, budget)
  }

  /** The context lines for `rs` under a per-chunk limit and a total budget. */
  function Context(rs: seq<Hit>, limit: int, budget: int): seq<string> {
    Fit(Candidates(rs, 0, limit), 0, budget)
  }

  /**
   * The context as the loop of `_build_messages` produces it, from item `i` on with `used`
   * characters already taken: items without text are skipped, and the first line that would
   * overflow the budget stops the loop.
   */
  function ContextFrom(rs: seq<Hit>, i: nat, limit: int, used: int, budget: int): seq<string>
    requires i <= |rs|
    decreases |rs| - i
  {
    if i == |rs| then []
    else if TextOf(rs[i]) == "" then ContextFrom(rs, i + 1, limit, used, budget)
    else
      var line := Line(i + 1, TextOf(rs[i]), limit);
      if used + |line| > budget then []
      else [line] + ContextFrom(rs, i + 1, limit, used + |line|, budget)
  }

  /** The loop of `_build_messages` that collects the numbered context lines. */
  method AssembleContext(rs: seq<Hit>, limit: int, budget: int) returns (lines: seq<string>)
    ensures lines == Context(rs, limit, budget)
  {
    lines := [];
    var used := 0;
    var i := 0;
    while i < |rs|
      invariant 0 <= i <= |rs|
      invariant lines + ContextFrom(rs, i, limit, used, budget) == ContextFrom(rs, 0, limit, 0, budget)
    {
      var text := TextOf(rs[i]);
      if text != "" {
        var line := Line(i + 1, text, limit);
        if used + |line| > budget {
          assert lines + [] == lines;
          break;
        }
        assert lines + ([line] + ContextFrom(rs, i + 1, limit, used + |line|, budget))
            == (lines + [line]) + ContextFrom(rs, i + 1, limit, used + |line|, budget);
        lines := lines + [line];
        used := used + |line|;
      }
      i := i + 1;
    }
    if i == |rs| {
      assert lines + [] == lines;
    }
    ContextFromFit(rs, 0, limit, 0, budget);
  }

  /** An item without text contributes no candidate. */
  lemma CandidatesSkip(rs: seq<Hit>, i: nat, limit: int)
    requires i < |rs| && TextOf(rs[i]) == ""
    ensures Candidates(rs, i, limit) == Candidates(rs, i + 1, limit)
  {
    NumberedSkip(rs, i);
  }

  /** An item with text contributes its line ahead of the later candidates. */
  lemma CandidatesKeep(rs: seq<Hit>, i: nat, limit: int)
    requires i < |rs| && TextOf(rs[i]) != ""
    ensures Candidates(rs, i, limit) == [Line(i + 1, TextOf(rs[i]), limit)] + Candidates(rs, i + 1, limit)
  {
    var items := Numbered(rs, i);
    NumberedKeep(rs, i);
    assert items[1..] == Numbered(rs, i + 1);
  }

  /** Past the last item there are no candidates left. */
  lemma CandidatesEnd(rs: seq<Hit>, limit: int)
    ensures Candidates(rs, |rs|, limit) == []
  {
  }

  /**
   * The loop agrees with the declarative context: it takes the candidate lines in order
   * while they fit the budget.
   */
  lemma {:induction false} ContextFromFit(rs: seq<Hit>, i: nat, limit: int, used: int, budget: int)
    requires i <= |rs|
    ensures ContextFrom(rs, i, limit, used, budget) == Fit(Candidates(rs, i, limit), used, budget)
    decreases |rs| - i
  {
    if i == |rs| {
      CandidatesEnd(rs, limit);
    } else if TextOf(rs[i]) == "" {
      CandidatesSkip(rs, i, limit);
      ContextFromFit(rs, i + 1, limit, used, budget);
    } else {
      var line, rest := Line(i + 1, TextOf(rs[i]), limit), Candidates(rs, i + 1, limit);
      CandidatesKeep(rs, i, limit);
      if used + |line| <= budget {
        ContextFromFit(rs, i + 1, limit, used + |line|, budget);
        assert ([line] + rest)[1..] == rest;
      }
    }
  }

  // ---------------------------------------------------------------------------
  // Properties of the context
  // ---------------------------------------------------------------------------

  /** What is admitted is a prefix of the candidates: nothing is reordered or skipped. */
  lemma {:induction false} FitPrefix(cands: seq<string>, used: int, budget: int)
    ensures var r := Fit(cands, used, budget); |r| <= |cands| && r == cands[..|r|]
    decreases |cands|
  {
    if cands != [] && used + |cands[0]| <= budget {
      FitPrefix(cands[1..], used + |cands[0]|, budget);
    }
  }

  /** Whatever is admitted fits the budget together with what was already used. */
  lemma {:induction false} FitWithinBudget(cands: seq<string>, used: int, budget: int)
    ensures var r := Fit(cands, used, budget); r == [] || used + SumLen(r) <= budget
    decreases |cands|
  {
    if cands != [] && used + |cands[0]| <= budget {
      var rest := Fit(cands[1..], used + |cands[0]|, budget);
      FitWithinBudget(cands[1..], used + |cands[0]|, budget);
      assert ([cands[0]] + rest)[1..] == rest;
    }
  }

  /** The first candidate left out is one that would have overflowed the budget. */
  lemma {:induction false} FitMaximal(cands: seq<string>, used: int, budget: int)
    ensures var r := Fit(cands, used, budget);
      |r| < |cands| ==> used + SumLen(r) + |cands[|r|]| > budget
    decreases |cands|
  {
    if cands != [] && used + |cands[0]| <= budget {
      var rest := Fit(cands[1..], used + |cands[0]|, budget);
      FitMaximal(cands[1..], used + |cands[0]|, budget);
      assert ([cands[0]] + rest)[1..] == rest;
    }
  }

  /** One line per item. */
  lemma {:induction false} RenderLength(items: seq<Item>, limit: int)
    ensures |Render(items, limit)| == |items|
  {
    if items != [] {
      RenderLength(items[1..], limit);
    }
  }

  /** The k-th line renders the k-th item. */
  lemma {:induction false} RenderAt(items: seq<Item>, limit: int, k: nat)
    requires k < |items|
    ensures k < |Render(items, limit)| && Render(items, limit)[k] == Line(items[k].n, items[k].text, limit)
  {
    RenderLength(items, limit);
    if k > 0 {
      RenderAt(items[1..], limit, k - 1);
    }
  }

  /** Position `i` holds an item without text: it is skipped. */
  lemma NumberedSkip(rs: seq<Hit>, i: nat)
    requires i < |rs| && TextOf(rs[i]) == ""
    ensures Numbered(rs, i) == Numbered(rs, i + 1)
  {
    assert Positions(rs, i) == Positions(rs, i + 1);
  }

  /** Position `i` holds an item with text: it comes first, numbered `i + 1`. */
  lemma NumberedKeep(rs: seq<Hit>, i: nat)
    requires i < |rs| && TextOf(rs[i]) != ""
    ensures Numbered(rs, i) == [Item(i + 1, TextOf(rs[i]))] + Numbered(rs, i + 1)
  {
    var ps, ps' := Positions(rs, i), Positions(rs, i + 1);
    PositionsBounded(rs, i);
    assert ps == [i] + ps';
    assert ps[1..] == ps';
  }

  /** The k-th item stands for position `ps[k]`. */
  lemma {:induction false} ItemsAtIndex(rs: seq<Hit>, ps: seq<nat>, k: nat)
    requires forall j :: 0 <= j < |ps| ==> ps[j] < |rs|
    requires k < |ps|
    ensures ItemsAt(rs, ps)[k] == Item(ps[k] + 1, TextOf(rs[ps[k]]))
  {
    if k > 0 {
      ItemsAtIndex(rs, ps[1..], k - 1);
    }
  }

  /** The k-th numbered item is the k-th item that has text, with its 1-based position. */
  lemma NumberedAt(rs: seq<Hit>, i: nat, k: nat)
    requires i <= |rs| && k < |Positions(rs, i)|
    ensures k < |Numbered(rs, i)| && Positions(rs, i)[k] < |rs|
    ensures var p := Positions(rs, i)[k]; Numbered(rs, i)[k] == Item(p + 1, TextOf(rs[p]))
  {
    PositionsBounded(rs, i);
    ItemsAtIndex(rs, Positions(rs, i), k);
  }

  /** There is one candidate per item that has text. */
  lemma CandidatesCount(rs: seq<Hit>, i: nat, limit: int)
    requires i <= |rs|
    ensures |Candidates(rs, i, limit)| == |Positions(rs, i)|
  {
    RenderLength(Numbered(rs, i), limit);
  }

  /**
   * The k-th candidate is the k-th item that has text, numbered by its position among all
   * retrieved items: an item without text is skipped and the numbering does not close up.
   */
  lemma CandidateAt(rs: seq<Hit>, i: nat, limit: int, k: nat)
    requires i <= |rs| && k < |Positions(rs, i)|
    ensures k < |Candidates(rs, i, limit)| && Positions(rs, i)[k] < |rs|
    ensures var p := Positions(rs, i)[k]; Candidates(rs, i, limit)[k] == Line(p + 1, TextOf(rs[p]), limit)
  {
    NumberedAt(rs, i, k);
    RenderAt(Numbered(rs, i), limit, k);
  }

  /** The positions are ascending and are exactly those of the items that have text. */
  lemma {:induction false} PositionsExact(rs: seq<Hit>, i: nat)
    requires i <= |rs|
    ensures var ps := Positions(rs, i);
      && (forall k, l :: 0 <= k < l < |ps| ==> ps[k] < ps[l])
      && (forall p :: p in ps <==> i <= p < |rs| && TextOf(rs[p]) != "")
    decreases |rs| - i
  {
    PositionsBounded(rs, i);
    if i < |rs| {
      PositionsExact(rs, i + 1);
    }
  }

  /**
   * The k-th context line is the text of item `ps[k]` cut to the limit and numbered
   * `ps[k] + 1`, where `ps` lists the items that have text: the context is a prefix of them.
   */
  lemma ContextLines(rs: seq<Hit>, limit: int, budget: int)
    ensures var lines, ps := Context(rs, limit, budget), Positions(rs, 0);
      && |lines| <= |ps|
      && (forall k :: 0 <= k < |ps| ==> ps[k] < |rs|)
      && (forall k :: 0 <= k < |lines| ==> lines[k] == Line(ps[k] + 1, TextOf(rs[ps[k]]), limit))
  {
    var cands, ps := Candidates(rs, 0, limit), Positions(rs, 0);
    var lines := Context(rs, limit, budget);
    assert |cands| == |ps| by { CandidatesCount(rs, 0, limit); }
    assert |lines| <= |cands| && lines == cands[..|lines|] by { FitPrefix(cands, 0, budget); }
    PositionsBounded(rs, 0);
    forall k | 0 <= k < |lines|
      ensures lines[k] == Line(ps[k] + 1, TextOf(rs[ps[k]]), limit)
    {
      CandidateAt(rs, 0, limit, k);
    }
  }

  /**
   * With the default per-chunk limit and budget, the context lines of any retrieval add up to
   * at most 5000 characters.
   */
  lemma DefaultContextWithin(rs: seq<Hit>)
    ensures SumLen(Context(rs, DefaultCharsPerChunk, DefaultMaxContextChars)) <= DefaultMaxContextChars
  {
    ContextBudget(rs, DefaultCharsPerChunk, DefaultMaxContextChars);
  }

  /**
   * The context lines fit the budget together, and the context stops only at the first
   * item with text whose line would have overflowed it.
   */
  lemma ContextBudget(rs: seq<Hit>, limit: int, budget: int)
    ensures var lines, ps := Context(rs, limit, budget), Positions(rs, 0);
      && (lines == [] || SumLen(lines) <= budget)
      && (forall k :: 0 <= k < |ps| ==> ps[k] < |rs|)
      && (|lines| < |ps| ==> SumLen(lines) + |Line(ps[|lines|] + 1, TextOf(rs[ps[|lines|]]), limit)| > budget)
  {
    var cands, ps := Candidates(rs, 0, limit), Positions(rs, 0);
    var lines := Context(rs, limit, budget);
    assert |cands| == |ps| by { CandidatesCount(rs, 0, limit); }
    assert |lines| <= |cands| by { FitPrefix(cands, 0, budget); }
    PositionsBounded(rs, 0);
    FitWithinBudget(cands, 0, budget);
    if |lines| < |ps| {
      FitMaximal(cands, 0, budget);
      CandidateAt(rs, 0, limit, |lines|);
    }
  }

  // ---------------------------------------------------------------------------
  // Persona presets
  // ---------------------------------------------------------------------------

  datatype Persona = Bullets | StepByStep | Formal | Concise

  /** `(persona or "concise").lower()` */
  function PersonaKey(persona: Option<string>): string {
    Lower(if persona.Some? && persona.value != "" then persona.value else "concise")
  }

  /** The preset a persona name selects; anything unrecognised selects the concise one. */
  function ChoosePersona(persona: Option<string>): Persona {
    var key := PersonaKey(persona);
    if key == "bullets" then Bullets
    else if key == "step-by-step" then StepByStep
    else if key == "formal" then Formal
    else Concise
  }

  /** Persona names are matched without regard to ASCII case. */
  lemma PersonaIgnoresCase(s: string, t: string)
    requires Lower(s) == Lower(t)
    ensures ChoosePersona(Some(s)) == ChoosePersona(Some(t))
  {
    assert |s| == |Lower(s)| == |Lower(t)| == |t|;
  }

  /** No persona, an empty one, or an unrecognised one all select the concise preset. */
  lemma PersonaDefault(persona: Option<string>)
    requires persona.Some? ==> Lower(persona.value) !in {"bullets", "step-by-step", "formal"}
    ensures ChoosePersona(persona) == Concise
  {
    if persona.None? || persona.value == "" {
      LowerAt("concise");
      assert PersonaKey(persona) == Lower("concise") == "concise";
    }
  }

  const BulletsTone := "You are a helpful, professional assistant for a RAG system. Use ONLY the provided context below (which was extracted from the user's uploaded PDFs). Never say that you cannot access or analyze uploaded files; treat the provided context as the relevant excerpts. Answer briefly using 3-6 bullet points. Each bullet should be a short sentence. Cite sources inline with [n] matching the numbered context entries. If the question is broad (e.g., 'tell me about my PDF'), provide a concise summary using the context. If context is incomplete, say what's missing and ask a targeted follow-up. Do not invent facts beyond the context."

  const StepByStepTone := "You are a friendly tutor for a RAG system. Use ONLY the provided context below (excerpts from uploaded PDFs). Never say you cannot read or access files; you can use the provided context. Explain step-by-step in clear, numbered steps (3-7 steps). Keep each step concise. Cite sources inline with [n] where relevant. Indicate uncertainty if context is thin, and suggest a follow-up if needed."

  const FormalTone := "You are a formal, professional assistant for a RAG system. Use ONLY the provided context below (from uploaded PDFs). Never claim inability to access files; rely on the provided context. Respond in 2-5 compact sentences. Maintain a neutral tone. Include inline citations with [n]. Acknowledge uncertainty if needed."

  const ConciseTone := "You are a helpful assistant for a RAG system. Use ONLY the provided context below (extracted from the user's uploaded PDFs). Do NOT say you cannot access or analyze uploaded files; treat the provided context as the accessible content. If the user asks generally about their PDF, summarize it using the context. Answer succinctly in 2-5 sentences or short bullets. Cite sources inline with [n] matching the numbered context entries. If information is incomplete, give the best answer you can using the most relevant context and note uncertainties. Do not invent facts beyond the context."

  /** The system prompt of each preset. */
  function Tone(p: Persona): string {
    match p
    case Bullets => BulletsTone
    case StepByStep => StepByStepTone
    case Formal => FormalTone
    case Concise => ConciseTone
  }

  // ---------------------------------------------------------------------------
  // History and the message list
  // ---------------------------------------------------------------------------

  /** One history entry; `content` is `None` when missing or not a string. */
  datatype Turn = Turn(role: Option<string>, content: Option<string>)

  /**
   * A chat message `{"role": ..., "content": ...}`. The system message is kept as the preset
   * it comes from; `Content` renders the preset's text.
   */
  datatype Message = System(persona: Persona) | Chat(role: string, content: string)

  function Role(m: Message): string {
    match m
    case System(_) => "system"
    case Chat(role, _) => role
  }

  function Content(m: Message): string {
    match m
    case System(p) => Tone(p)
    case Chat(_, content) => content
  }

  /** How many of the most recent history entries are looked at. */
  const HistoryWindow := 10

  /** An entry is kept when its role is user or assistant and its text is not blank. */
  predicate KeepTurn(h: Turn) {
    (h.role == Some("user") || h.role == Some("assistant"))
    && h.content.Some? && Strip(h.content.value) != ""
  }

  /** The kept entries, in order, as messages with their text stripped. */
  function KeptHistory(hs: seq<Turn>): seq<Message> {
    if hs == [] then []
    else
      var rest := KeptHistory(hs[1..]);
      if KeepTurn(hs[0]) then [Chat(hs[0].role.value, Strip(hs[0].content.value))] + rest
      else rest
  }

  /** One turn of the history loop: entry `i` is kept or dropped, then the rest follow. */
  lemma KeptHistoryStep(hs: seq<Turn>, i: nat)
    requires i < |hs|
    ensures KeptHistory(hs[i..]) == (if KeepTurn(hs[i])
                                     then [Chat(hs[i].role.value, Strip(hs[i].content.value))]
                                     else []) + KeptHistory(hs[i + 1..])
  {
    assert hs[i..][0] == hs[i] && hs[i..][1..] == hs[i + 1..];
  }

  /** The history messages that go into the prompt: the kept ones among the last ten. */
  function HistoryMessages(history: seq<Turn>): seq<Message> {
    KeptHistory(Suffix(history, -HistoryWindow))
  }

  /** The final user message around the assembled context. */
  function UserPrompt(context: string, question: string): string {
    "Context:\n" + context + "\n\nQuestion: " + question + "\nAnswer (with citations):"
  }

  /** The message list: system prompt, filtered history, then the question with its context. */
  function Messages(question: string, rs: seq<Hit>, persona: Option<string>, history: seq<Turn>,
                    limit: int, budget: int): seq<Message>
  {
    [System(ChoosePersona(persona))]
    + HistoryMessages(history)
    + [Chat("user", UserPrompt(Join("\n\n", Context(rs, limit, budget)), question))]
  }

  /** The history loop of `_build_messages`: appends the kept entries, in order, to `start`. */
  method AppendKept(start: seq<Message>, hs: seq<Turn>) returns (messages: seq<Message>)
    ensures messages == start + KeptHistory(hs)
  {
    messages := start;
    var i := 0;
    while i < |hs|
      invariant 0 <= i <= |hs|
      invariant messages + KeptHistory(hs[i..]) == start + KeptHistory(hs)
    {
      KeptHistoryStep(hs, i);
      var h := hs[i];
      if (h.role == Some("user") || h.role == Some("assistant")) && h.content.Some? && Strip(h.content.value) != "" {
        var m := Chat(h.role.value, Strip(h.content.value));
        assert messages + ([m] + KeptHistory(hs[i + 1..])) == (messages + [m]) + KeptHistory(hs[i + 1..]);
        messages := messages + [m];
      } else {
        assert [] + KeptHistory(hs[i + 1..]) == KeptHistory(hs[i + 1..]);
      }
      i := i + 1;
    }
    assert hs[i..] == [];
  }

  /**
   * `_build_messages`: assembles the context, then appends the kept history entries to the
   * system message one by one and closes with the user message. A missing history is the
   * empty one.
   */
  method BuildMessages(question: string, rs: seq<Hit>, persona: Option<string>, history: seq<Turn>,
                       limit: int, budget: int) returns (messages: seq<Message>)
    ensures messages == Messages(question, rs, persona, history, limit, budget)
  {
    var lines := AssembleContext(rs, limit, budget);
    var context := Join("\n\n", lines);
    var system := System(ChoosePersona(persona));
    messages := AppendKept([system], Suffix(history, -HistoryWindow));
    messages := messages + [Chat("user", UserPrompt(context, question))];
  }

  // ---------------------------------------------------------------------------
  // Properties of the history and the message list
  // ---------------------------------------------------------------------------

  /** A user or assistant message whose text is non-empty and has no surrounding whitespace. */
  predicate CleanMessage(m: Message) {
    && m.Chat?
    && (m.role == "user" || m.role == "assistant")
    && m.content != ""
    && !IsSpace(m.content[0]) && !IsSpace(m.content[|m.content| - 1])
  }

  /** Every kept entry becomes a clean message, and nothing is invented. */
  lemma {:induction false} KeptHistoryShape(hs: seq<Turn>)
    ensures var ms := KeptHistory(hs);
      |ms| <= |hs| && forall k :: 0 <= k < |ms| ==> CleanMessage(ms[k])
  {
    if hs != [] {
      var rest := KeptHistory(hs[1..]);
      KeptHistoryShape(hs[1..]);
      if KeepTurn(hs[0]) {
        var h := hs[0];
        var m := Chat(h.role.value, Strip(h.content.value));
        StripEnds(h.content.value);
        assert CleanMessage(m);
        var ms := [m] + rest;
        assert KeptHistory(hs) == ms;
        forall k | 0 <= k < |ms| ensures CleanMessage(ms[k]) {
          if k > 0 {
            assert ms[k] == rest[k - 1];
          }
        }
      }
    }
  }

  /** Filtering keeps the order of the history: it distributes over concatenation. */
  lemma {:induction false} KeptHistoryAppend(a: seq<Turn>, b: seq<Turn>)
    ensures KeptHistory(a + b) == KeptHistory(a) + KeptHistory(b)
  {
    if a == [] {
      assert a + b == b;
    } else {
      assert (a + b)[1..] == a[1..] + b;
      KeptHistoryAppend(a[1..], b);
    }
  }

  /** Only the last ten entries matter: anything said before them never reaches the prompt. */
  lemma OlderHistoryIgnored(older: seq<Turn>, recent: seq<Turn>)
    requires |recent| >= HistoryWindow
    ensures HistoryMessages(older + recent) == HistoryMessages(recent)
  {
    var all := older + recent;
    assert Suffix(all, -HistoryWindow) == all[|all| - HistoryWindow..];
    assert all[|all| - HistoryWindow..] == recent[|recent| - HistoryWindow..];
  }

  /**
   * The message list opens with the persona's system prompt, ends with the user prompt,
   * and holds at most ten history messages in between, all user or assistant ones.
   */
  lemma MessagesShape(question: string, rs: seq<Hit>, persona: Option<string>, history: seq<Turn>,
                      limit: int, budget: int)
    ensures var ms := Messages(question, rs, persona, history, limit, budget);
      && 2 <= |ms| <= 2 + HistoryWindow
      && ms[0] == System(ChoosePersona(persona))
      && ms[|ms| - 1].Chat? && ms[|ms| - 1].role == "user"
      && ms[|ms| - 1].content[..9] == "Context:\n"
      && forall k :: 0 < k < |ms| - 1 ==> CleanMessage(ms[k])
  {
    var hist := HistoryMessages(history);
    KeptHistoryShape(Suffix(history, -HistoryWindow));
    var ms := Messages(question, rs, persona, history, limit, budget);
    forall k | 0 < k < |ms| - 1
      ensures CleanMessage(ms[k])
    {
      assert ms[k] == hist[k - 1];
    }
  }
}
