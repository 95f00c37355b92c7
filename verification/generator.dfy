/**
 The provider round trip of `generate_readme`: the user prompt is sent with
 the fixed system prompt to the configured provider, and the reply is
 whitespace-stripped, or the failure is reported under a fixed prefix.

 The provider itself (an OpenAI chat completion or an Ollama chat) is a
 parameter: a function from the request sent to the reply text or the text
 of the exception it raised.
 */
module Generator {
  import opened Wrappers
  import opened Strings
  import opened Configuration
  import opened PromptBuilder

  /** The instructions sent as the system message of every request. */
  const SystemPrompt: string :=
    "You are a Senior Technical Writer specializing in creating professional GitHub README files.\n"
    + "\n"
    + "Your task is to transform minimal project descriptions into comprehensive, well-structured README.md files.\n"
    + "\n"
    + "REQUIREMENTS:\n"
    + "- Write in clear, professional Markdown\n"
    + "- Use appropriate emoji icons sparingly and tastefully\n"
    + "- Include these sections: Title, Description, Features, Tech Stack, Installation, Usage, Configuration (if needed), License\n"
    + "- Make the content engaging and informative\n"
    + "- Assume best practices for the technology stack\n"
    + "- Include code blocks with proper syntax highlighting\n"
    + "- Add badges if appropriate (build status, license, version)\n"
    + "- Keep the tone professional but approachable\n"
    + "\n"
    + "STRUCTURE:\n"
    + "1. Title with project name (use # header)\n"
    + "2. Brief description (2-3 sentences)\n"
    + "3. Features (bulleted list, 5-8 key features)\n"
    + "4. Tech Stack (technologies used)\n"
    + "5. Installation (step-by-step)\n"
    + "6. Usage (with examples)\n"
    + "7. Configuration (if applicable)\n"
    + "8. Contributing (optional, brief)\n"
    + "9. License\n"
    + "\n"
    + "OUTPUT:\n"
    + "- Return ONLY the Markdown content\n"
    + "- No additional commentary or explanations\n"
    + "- Ready to save as README.md"

  datatype Role = System | User

  datatype Message = Message(role: Role, content: string)

  /**
   One chat request: the provider and model it goes to, the two messages,
   the sampling temperature and, for OpenAI only, the completion limit.
   */
  datatype ChatCall = ChatCall(
    provider: Provider,
    model: string,
    messages: seq<Message>,
    temperature: real,
    maxTokens: Option<nat>)

  const Temperature: real := 0.7
  const OpenAIMaxTokens: nat := 2000
  const FailurePrefix := "Failed to generate README: "

  /** The provider, as seen by the generator: a reply text or the text of what it raised. */
  type Completion = ChatCall -> Result<string, string>

  /**
   The request sent for a user prompt: the system message then the user
   message, to the configured provider and model, at temperature 0.7, with
   a 2000-token limit for OpenAI and none for Ollama.
   */
  function BuildCall(cfg: Config, userPrompt: string): ChatCall {
    var messages := [Message(System, SystemPrompt), Message(User, userPrompt)];
    match cfg.provider
    case OpenAI => ChatCall(OpenAI, cfg.model, messages, Temperature, Some(OpenAIMaxTokens))
    case Ollama => ChatCall(Ollama, cfg.model, messages, Temperature, None)
  }

  /**
   `generate_readme`: builds the user prompt for the request, sends it, and
   returns the reply stripped of leading and trailing whitespace; anything
   raised while calling the provider is re-raised with the fixed prefix.
   */
  function GenerateReadme(cfg: Config, req: Request, complete: Completion): (r: Result<string, string>)
    ensures var reply := complete(BuildCall(cfg, UserPrompt(req)));
            && (r.Success? <==> reply.Success?)
            && (r.Success? ==> IsStripOf(reply.value, r.value))
            && (r.Failure? ==> r.error == FailurePrefix + reply.error)
  {
    match complete(BuildCall(cfg, UserPrompt(req)))
    case Success(text) => Success(Strip(text))
    case Failure(e) => Failure(FailurePrefix + e)
  }

  /**
   A generated README neither begins nor ends with whitespace, and stripping
   it again changes nothing.
   */
  lemma GeneratedIsTrimmed(cfg: Config, req: Request, complete: Completion)
    ensures var r := GenerateReadme(cfg, req, complete);
            r.Success? ==> Trimmed(r.value) && Strip(r.value) == r.value
  {
    var reply := complete(BuildCall(cfg, UserPrompt(req)));
    if reply.Success? {
      StripIdempotent(reply.value);
      StripCanonical(reply.value, GenerateReadme(cfg, req, complete).value);
    }
  }

  /** A reply without surrounding whitespace is returned exactly as received. */
  lemma TrimmedReplyIsKept(cfg: Config, req: Request, complete: Completion)
    requires var reply := complete(BuildCall(cfg, UserPrompt(req)));
             reply.Success? && Trimmed(reply.value)
    ensures GenerateReadme(cfg, req, complete) == complete(BuildCall(cfg, UserPrompt(req)))
  {
    var text := complete(BuildCall(cfg, UserPrompt(req))).value;
    assert StripWitness(text, text, 0, |text|) by {
      assert text == text[0..|text|] && text[..0] == [] && text[|text|..] == [];
    }
    StripCanonical(text, text);
  }

  /**
   What the provider receives for a request: one system message with the
   fixed instructions, then one user message whose lines are the prompt's
   reference lines; only the request's own text varies between requests.
   */
  lemma ProviderSeesPromptLines(cfg: Config, req: Request)
    requires SingleLineFields(req)
    ensures var c := BuildCall(cfg, UserPrompt(req));
            && |c.messages| == 2
            && c.messages[0] == Message(System, SystemPrompt)
            && c.messages[1].role == User
            && Split(c.messages[1].content, "\n") == PromptLines(req)
  {
    PromptLinesRoundTrip(req);
  }
}
