/**
 * The command-line agent's request limiter: a daily cap of 20 answered
 * requests, a minimum interval of 60 / 10 = 6 seconds between requests, and
 * counters that move only when generation succeeds. The clock, the retriever
 * and the generator are parameters: `now` is the clock read before waiting,
 * `finishedAt` the clock read after a successful generation.
 */
module Agent {
  import opened Wrappers
  import opened Numeric
  import opened PyText

  const MaxRpm: nat := 10
  const MaxRpd: nat := 20

  /** `60 / MAX_RPM` seconds. */
  const MinInterval: real := 60.0 / (MaxRpm as real)

  const LimitMessage: string := "Daily limit reached (20 requests/day). Come back tomorrow!"

  const SystemInstruction: string :=
    "You are Lenny Rachitsky. Answer in his signature tone: thoughtful, analytical, "
    + "practical, and founder-focused. Use bullet points and frameworks where appropriate. "
    + "Use ONLY the provided context. If the answer is not in the context, say you are unsure."

  /** A retrieved chunk: the string fields of its stored dictionary. */
  type StoredChunk = map<string, string>

  /** `retrieve_topk`: the chunks retrieved for a question. */
  type Retriever = string -> seq<StoredChunk>

  /** What `generate_content` does with a prompt and a system instruction. */
  datatype Generation = Generated(text: string) | GenerationFailed(message: string)

  type Generator = (string, string) -> Generation

  /** `max(0, (60 / MAX_RPM) - (now - last_request_time))`: never negative,
      zero exactly when at least the minimum interval has passed, and otherwise
      the time still missing to it. */
  function WaitTime(now: real, last: real): (w: real)
    ensures w >= 0.0
    ensures w == 0.0 <==> now - last >= MinInterval
    ensures w > 0.0 ==> now - last + w == MinInterval
  {
    Max(0.0, MinInterval - (now - last))
  }

  /** `c["content"] if "content" in c else c.get("text", "")` */
  function ChunkText(c: StoredChunk): string {
    if "content" in c then c["content"] else if "text" in c then c["text"] else ""
  }

  /** `"\n\n".join(...)` over the chunks' texts. */
  function ContextText(chunks: seq<StoredChunk>): string {
    Join(seq(|chunks|, i requires 0 <= i < |chunks| => ChunkText(chunks[i])), "\n\n")
  }

  /** The context of no chunk is empty, and one more chunk appends a blank line
      and its text: the chunks' texts appear once each, in retrieval order. */
  lemma ContextTextExtend(chunks: seq<StoredChunk>, c: StoredChunk)
    ensures ContextText([]) == ""
    ensures ContextText(chunks + [c]) ==
      if chunks == [] then ChunkText(c) else ContextText(chunks) + "\n\n" + ChunkText(c)
  {
    var texts := seq(|chunks|, i requires 0 <= i < |chunks| => ChunkText(chunks[i]));
    var more := seq(|chunks + [c]|, i requires 0 <= i < |chunks + [c]| => ChunkText((chunks + [c])[i]));
    assert more == texts + [ChunkText(c)];
    JoinSnoc(texts, ChunkText(c), "\n\n");
  }

  /** `f"Context:\n---\n{context_text}\n---\n\nQuestion: {question}"` */
  function Prompt(context: string, question: string): string {
    "Context:\n---\n" + context + "\n---\n\nQuestion: " + question
  }

  class LennyAgent {
    var requestsToday: nat
    var lastRequestTime: real

    /** The daily cap is never exceeded. */
    predicate Valid()
      reads this
    {
      requestsToday <= MaxRpd
    }

    constructor()
      ensures requestsToday == 0 && lastRequestTime == 0.0
      ensures Valid()
    {
      requestsToday := 0;
      lastRequestTime := 0.0;
    }

    /** `ask_lenny`. Besides the reply it returns how long it slept and the prompt
        it sent (None when it sent nothing). */
    method AskLenny(question: string, now: real, retrieve: Retriever, generate: Generator, finishedAt: real)
      returns (reply: string, waited: real, sent: Option<string>)
      modifies this
      ensures old(requestsToday) >= MaxRpd ==>
        reply == LimitMessage && waited == 0.0 && sent == None &&
        requestsToday == old(requestsToday) && lastRequestTime == old(lastRequestTime)
      ensures old(requestsToday) < MaxRpd ==>
        waited == WaitTime(now, old(lastRequestTime)) &&
        sent == Some(Prompt(ContextText(retrieve(question)), question)) &&
        match generate(sent.value, SystemInstruction)
        case Generated(text) =>
          reply == text && requestsToday == old(requestsToday) + 1 && lastRequestTime == finishedAt
        case GenerationFailed(message) =>
          reply == " Error: " + message &&
          requestsToday == old(requestsToday) && lastRequestTime == old(lastRequestTime)
      ensures old(Valid()) ==> Valid()
    {
      if requestsToday >= MaxRpd {
        return LimitMessage, 0.0, None;
      }
      waited := WaitTime(now, lastRequestTime);
      var topChunks := retrieve(question);
      var contextText := ContextText(topChunks);
      var prompt := Prompt(contextText, question);
      sent := Some(prompt);
      var response := generate(prompt, SystemInstruction);
      match response
      case Generated(text) =>
        requestsToday := requestsToday + 1;
        lastRequestTime := finishedAt;
        reply := text;
      case GenerationFailed(message) =>
        reply := " Error: " + message;
    }
  }
}
