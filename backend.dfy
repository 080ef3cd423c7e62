/** The generative backend, seen from the core as an oracle that may fail
    (agents/llm.go and the forwarding call in Agent.GenerateArgument,
    agents/agent.go:19-45). Prompt wording is not modelled: a prompt is
    the data it is built from. */
module Backend {
  import opened Model

  /** The point in a run at which a request is made or the clock is read.
      It lets the oracle answer two otherwise identical requests differently,
      as a real backend may. */
  datatype Site =
    | Turn(t: nat)          // participant turn of loop iteration t
    | Interject(t: nat)     // judge interjection after the turn of iteration t
    | EndOfDebate           // the sentinel message
    | Verdict               // the judge's closing verdict
    | ReportBody            // the reporter's report body

  /** What Agent.GenerateArgument sends: the persona, the transcript so far
      and the document text. */
  datatype ArgumentRequest = ArgumentRequest(agent: Agent, history: seq<Message>, doc: string, site: Site)

  /** The prompts the report builder sends straight to the backend. */
  datatype Prompt =
    | SnippetPrompt(transcript: string)
    | TitlePrompt(doc: string, snippet: string)
    | ComicPrompt(doc: string, snippet: string)
    | ReportPrompt(title: Argument, doc: string, snippet: string)  // the whole title Argument is formatted

  /** A configured backend (a non-nil `*LLM`). */
  datatype Llm = Llm(
    generate: ArgumentRequest -> Result<Argument>,   // Agent.GenerateArgument
    getArgument: Prompt -> Result<Argument>,         // LLM.GetArgument
    getComicStrip: Prompt -> Result<seq<string>>)    // LLM.GetComicStrip: data-URI images
}
