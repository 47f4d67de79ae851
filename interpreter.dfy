/** `AIProcessor.interpret_command`: the language model's reply is cleaned
    of markdown fences and decoded; every failure becomes an
    `{"error": ...}` object. The model itself and `json.loads` are
    collaborators given as functions. */
module Interpreter {
  import opened Common
  import opened Text
  import opened JsonValues

  /** `self.model`: absent when no API key was configured or the client
      failed to start; otherwise a call from the command text to the reply
      text, or to the message of the exception it raised. */
  datatype Backend = Unavailable | Available(generate: string -> Result<string, string>)

  /** `json.loads`: a decoded value or the message of the decode error. */
  type Decoder = string -> Result<Json, string>

  function JsonFence(): string { "```json" }

  /** `response.text.strip().replace("```json", "").replace("```", "")`. */
  function Clean(reply: string): string {
    RemoveAll(RemoveAll(Strip(reply), JsonFence()), Backticks())
  }

  function ErrorObject(message: string): Json {
    JObj(map["error" := JStr(message)])
  }

  function InterpretCommand(backend: Backend, decode: Decoder, command: string): Json {
    match backend
    case Unavailable => ErrorObject("AI model not available.")
    case Available(generate) =>
      match generate(command)
      case Err(e) => ErrorObject("Failed to parse AI response: " + e)
      case Ok(reply) =>
        match decode(Clean(reply))
        case Ok(parsed) => parsed
        case Err(e) => ErrorObject("Failed to parse AI response: " + e)
  }

  /** What reaches the decoder holds no fence at all, neither the
      json-tagged opening nor a bare one. */
  lemma CleanLeavesNoFence(reply: string)
    ensures !Contains(Clean(reply), Backticks())
    ensures !Contains(Clean(reply), JsonFence())
  {
    RemoveBackticksLeavesNone(RemoveAll(Strip(reply), JsonFence()));
    if Contains(Clean(reply), JsonFence()) {
      assert JsonFence() == Backticks() + "json";
      ContainsPrefixOfPattern(Clean(reply), Backticks(), "json");
    }
  }

  /** A reply without fences is only stripped. */
  lemma CleanKeepsUnfencedReply(reply: string)
    requires !Contains(reply, Backticks())
    ensures Clean(reply) == Strip(reply)
  {
    StrippedStaysUnfenced(reply);
    RemoveAllAbsent(Strip(reply), JsonFence());
    RemoveAllAbsent(Strip(reply), Backticks());
  }

  /** Stripping a reply without fences creates none. */
  lemma StrippedStaysUnfenced(reply: string)
    requires !Contains(reply, Backticks())
    ensures !Contains(Strip(reply), Backticks())
    ensures !Contains(Strip(reply), JsonFence())
  {
    var s := Strip(reply);
    if Contains(s, Backticks()) {
      StripContains(reply, Backticks());
    }
    if Contains(s, JsonFence()) {
      assert JsonFence() == Backticks() + "json";
      ContainsPrefixOfPattern(s, Backticks(), "json");
    }
  }

  /** A fenced json block gives back exactly the text between the fences. */
  lemma CleanUnwrapsFencedBlock(body: string)
    requires forall i :: 0 <= i < |body| ==> body[i] != '`'
    ensures Clean(JsonFence() + body + Backticks()) == body
  {
    var b := Backticks();
    var block := JsonFence() + body + b;
    StripUnpadded(block);
    assert block[..|JsonFence()|] == JsonFence();
    assert block[|JsonFence()|..] == body + b;
    calc {
      RemoveAll(block, JsonFence());
      RemoveAll(body + b, JsonFence());
      { RemoveAllKeepsPrefix(body, b, JsonFence()); }
      body + RemoveAll(b, JsonFence());
      body + b;
    }
    calc {
      RemoveAll(body + b, b);
      { RemoveAllKeepsPrefix(body, b, b); }
      body + RemoveAll(b, b);
      { assert b[..|b|] == b && b[|b|..] == []; }
      body + [];
    }
    assert body + [] == body;
  }

  /** Every way interpretation can fail -- no model, a failed model call,
      a reply that does not decode -- yields an object holding only a
      non-empty `error` message, never a value that could pass for a query. */
  lemma FailuresBecomeErrorObjects(backend: Backend, decode: Decoder, command: string)
    requires || backend.Unavailable?
             || backend.generate(command).Err?
             || decode(Clean(backend.generate(command).value)).Err?
    ensures var r := InterpretCommand(backend, decode, command);
      && r.JObj?
      && r.fields.Keys == {"error"}
      && r.fields["error"].JStr?
      && Truthy(r.fields["error"])
  {
  }
}
