/** The service layer: a lazily built, cached API client and the two request
    functions that turn every failure into a rejection with a fixed message. */
module Gemini {
  import opened Types

  /** The process environment as `initializeAi` finds it: either `process` /
      `process.env` is missing, or `API_KEY` is read (and may be absent). */
  datatype Env = NoProcess | Process(apiKey: Option<string>)

  /** The key `initializeAi` accepts: present and non-empty, i.e. truthy. */
  function UsableKey(env: Env): (k: Option<string>)
    ensures k.Some? ==> env == Process(k) && k.value != ""
    ensures k.None? ==> env.NoProcess? || env.apiKey.None? || env.apiKey.value == ""
  {
    if env.Process? && env.apiKey.Some? && env.apiKey.value != "" then env.apiKey else None
  }

  /** Opaque stand-in for the SDK client; each construction is a new object. */
  class Client {
    const apiKey: string

    constructor (apiKey: string)
      ensures this.apiKey == apiKey
    {
      this.apiKey := apiKey;
    }
  }

  /** What one remote request carries (model name and sampling parameters left out). */
  datatype Request = Request(contents: string, systemInstruction: Option<string>)

  /** How the remote call settles: a response text, or an exception of any kind. */
  datatype Remote = Responded(text: string) | Threw

  const EXPLAIN_PREFIX := "Explain the concept of: "

  /** The request `explainConcept` sends for `concept`. */
  function ExplainRequest(concept: string): Request {
    Request(EXPLAIN_PREFIX + concept, Some(EXPLAINER_INSTRUCTION))
  }

  /** The request `fetchStudyTip` sends: the fixed prompt, no system instruction. */
  const TIP_REQUEST := Request(STUDY_TIP_PROMPT, None)

  /** Recovers the concept from an explain request's prompt. */
  function ConceptOf(req: Request): Option<string> {
    if |EXPLAIN_PREFIX| <= |req.contents| && req.contents[..|EXPLAIN_PREFIX|] == EXPLAIN_PREFIX
    then Some(req.contents[|EXPLAIN_PREFIX|..])
    else None
  }

  /** The prompt determines the concept: explain requests for different
      concepts differ, and none of them is the study-tip request. */
  lemma {:induction false} ExplainRequestRoundTrip(concept: string)
    ensures ConceptOf(ExplainRequest(concept)) == Some(concept)
    ensures ExplainRequest(concept) != TIP_REQUEST
  {
  }

  /** How a started request settles: the response text unchanged, or a
      rejection with the general message (never the key message). */
  function Settle(remote: Remote): (r: Result<string>)
    ensures r.Ok? <==> remote.Responded?
    ensures r.Ok? ==> r.value == remote.text
    ensures r.Err? ==> r.message == GENERAL_ERROR && r.message != KEY_ERROR
  {
    match remote
    case Responded(text) => Ok(text)
    case Threw => Err(GENERAL_ERROR)
  }

  /** The module-level client cache together with a log of the remote requests made. */
  class GeminiService {
    var ai: Option<Client>
    ghost var constructed: nat
    ghost var sent: seq<Request>

    /** At most one client is ever constructed, and it is the cached one. */
    ghost predicate Valid()
      reads this
    {
      constructed == if ai.Some? then 1 else 0
    }

    constructor ()
      ensures Valid() && ai == None && sent == []
    {
      ai := None;
      constructed := 0;
      sent := [];
    }

    /** Returns the cached client, or builds and caches one when a usable key
        is present; a missing key is not cached, so a later call may succeed. */
    method InitializeAi(env: Env) returns (c: Option<Client>)
      requires Valid()
      modifies this
      ensures Valid() && c == ai && sent == old(sent)
      ensures old(ai).Some? ==> ai == old(ai)
      ensures old(ai).None? && UsableKey(env).None? ==> ai == None
      ensures old(ai).None? && UsableKey(env).Some? ==>
                ai.Some? && fresh(ai.value) && ai.value.apiKey == UsableKey(env).value
    {
      if ai.Some? {
        return ai;
      }
      if env.NoProcess? {
        return None;
      }
      var apiKey := env.apiKey;
      if apiKey.None? || apiKey.value == "" {
        return None;
      }
      var client := new Client(apiKey.value);
      ai := Some(client);
      constructed := constructed + 1;
      return ai;
    }

    /** Asks for an explanation of `concept`: rejects with the key message and
        sends nothing when no client is available, else sends exactly one request. */
    method ExplainConcept(env: Env, concept: string, remote: Remote) returns (r: Result<string>)
      requires Valid()
      modifies this
      ensures Valid()
      ensures old(ai).Some? ==> ai == old(ai)
      ensures old(ai).None? ==> (ai.Some? <==> UsableKey(env).Some?)
      ensures ai.None? ==> r == Err(KEY_ERROR) && sent == old(sent)
      ensures ai.Some? ==> r == Settle(remote) && sent == old(sent) + [ExplainRequest(concept)]
    {
      var genAI := InitializeAi(env);
      if genAI.None? {
        return Err(KEY_ERROR);
      }
      sent := sent + [ExplainRequest(concept)];
      r := Settle(remote);
    }

    /** Asks for one study tip, with the same guard and error mapping. */
    method FetchStudyTip(env: Env, remote: Remote) returns (r: Result<string>)
      requires Valid()
      modifies this
      ensures Valid()
      ensures old(ai).Some? ==> ai == old(ai)
      ensures old(ai).None? ==> (ai.Some? <==> UsableKey(env).Some?)
      ensures ai.None? ==> r == Err(KEY_ERROR) && sent == old(sent)
      ensures ai.Some? ==> r == Settle(remote) && sent == old(sent) + [TIP_REQUEST]
    {
      var genAI := InitializeAi(env);
      if genAI.None? {
        return Err(KEY_ERROR);
      }
      sent := sent + [TIP_REQUEST];
      r := Settle(remote);
    }
  }
}
