/**
 * `MasterAgent` (master_agent.py): analyse a request, then either answer it
 * directly or find or create a specialised agent and delegate to it.
 *
 * Each of the three language-model calls is an oracle parameter: the reply
 * the call produced, or the fact that it failed.
 */
module Orchestrator {
  import opened Values
  import opened Storage

  /** What `json.loads` produced: an object, or a value of another JSON type (named as Python names it). */
  datatype Json = JsonObject(fields: Dict) | JsonOther(typeName: string)

  /**
   * The outcome of a structured model call (`response_mime_type="application/json"`):
   * `Failed` covers a call that raised, an empty reply and text that is not JSON.
   */
  datatype JsonReply = Failed | Parsed(json: Json)

  /** The outcome of a free-text model call: the text (possibly empty) or the message of the exception raised. */
  datatype TextReply = Answer(text: string) | CallRaised(error: string)

  /** The fixed analysis `_analyze_task` falls back on. */
  function FallbackAnalysis(): Dict
  {
    map["task_type" := Str("general"), "agent_description" := Str("General purpose assistant"),
        "complexity" := Str("simple"), "requires_delegation" := Bool(false)]
  }

  /** `_analyze_task`: the parsed reply as it is, or the fallback analysis. */
  function AnalyzeTask(reply: JsonReply): (r: Json)
    ensures reply.Parsed? ==> r == reply.json
    ensures reply.Failed? ==> r == JsonObject(FallbackAnalysis())
    ensures reply.Failed? ==> !RequiresDelegation(r.fields)
  {
    match reply
    case Parsed(json) => json
    case Failed => JsonObject(FallbackAnalysis())
  }

  /** `task_analysis.get("requires_delegation", False)` is truthy. */
  predicate RequiresDelegation(task: Dict)
  {
    Truthy(GetOr(task, "requires_delegation", Bool(false)))
  }

  /**
   * The flag is read with Python truthiness and defaults to False: a missing
   * flag, `null`, `false` and `""` keep the request at the master, while any
   * non-empty string, even `"false"`, delegates it.
   */
  lemma DelegationFlagTruthiness(task: Dict)
    ensures "requires_delegation" !in task ==> !RequiresDelegation(task)
    ensures !RequiresDelegation(task["requires_delegation" := Null])
    ensures !RequiresDelegation(task["requires_delegation" := Bool(false)])
    ensures RequiresDelegation(task["requires_delegation" := Bool(true)])
    ensures forall s :: RequiresDelegation(task["requires_delegation" := Str(s)]) <==> s != ""
  {
  }

  /** The record `_create_new_agent` falls back on. */
  function FallbackAgent(task: Dict): (a: Dict)
    ensures a.Keys == {"name", "description", "system_prompt", "task_type", "created_by"}
    ensures a["created_by"] == Str("MasterAgent")
  {
    map["name" := Str(Show(GetOr(task, "task_type", Str("General"))) + "Agent"),
        "description" := GetOr(task, "agent_description", Str("General purpose assistant")),
        "system_prompt" := Str("You are a helpful assistant specializing in "
                               + Show(GetOr(task, "task_type", Str("general tasks"))) + "."),
        "task_type" := GetOr(task, "task_type", Str("general")),
        "created_by" := Str("MasterAgent")]
  }

  /**
   * `_create_new_agent`: the model's object with `created_by` set, or the
   * fallback record.  A parsed value that is not an object makes the
   * `created_by` assignment raise, which the same handler turns into the fallback.
   */
  function CreateNewAgent(task: Dict, reply: JsonReply): (a: Dict)
    ensures "created_by" in a && a["created_by"] == Str("MasterAgent")
    ensures reply.Parsed? && reply.json.JsonObject? ==>
      a.Keys == reply.json.fields.Keys + {"created_by"} &&
      forall k :: k in reply.json.fields && k != "created_by" ==> a[k] == reply.json.fields[k]
    ensures !(reply.Parsed? && reply.json.JsonObject?) ==> a == FallbackAgent(task)
  {
    match reply
    case Parsed(JsonObject(fields)) => fields["created_by" := Str("MasterAgent")]
    case _ => FallbackAgent(task)
  }

  /** The fallback record always has a name, so the creation path never fails on `new_agent['name']`. */
  lemma FallbackAgentNamed(task: Dict)
    ensures "name" in FallbackAgent(task)
    ensures var a := FallbackAgent(map[]);
      && a["name"] == Str("GeneralAgent")
      && a["description"] == Str("General purpose assistant")
      && a["system_prompt"] == Str("You are a helpful assistant specializing in " + "general tasks" + ".")
      && a["task_type"] == Str("general")
  {
    assert "General" + "Agent" == "GeneralAgent";
  }

  const DelegateFallback: string := "The specialized agent was unable to provide a response."
  const DirectFallback: string := "I'm unable to process your request at the moment."

  /** `_delegate_task`: the reply text, a fixed fallback for an empty reply, or an error naming the agent. */
  function DelegateTask(agent: Dict, reply: TextReply): (r: string)
    ensures r != []
    ensures reply.Answer? && reply.text != [] ==> r == reply.text
    ensures reply.Answer? && reply.text == [] ==> r == DelegateFallback
    ensures reply.CallRaised? ==>
      r == "Error occurred while delegating to " + Show(Get(agent, "name")) + ": " + reply.error
  {
    match reply
    case Answer(text) => if text != [] then text else DelegateFallback
    case CallRaised(error) => "Error occurred while delegating to " + Show(Get(agent, "name")) + ": " + error
  }

  /** `_handle_directly`: the reply text, a fixed fallback for an empty reply, or an error message. */
  function HandleDirectly(reply: TextReply): (r: string)
    ensures r != []
    ensures reply.Answer? && reply.text != [] ==> r == reply.text
    ensures reply.Answer? && reply.text == [] ==> r == DirectFallback
    ensures reply.CallRaised? ==> r == "I encountered an error: " + reply.error
  {
    match reply
    case Answer(text) => if text != [] then text else DirectFallback
    case CallRaised(error) => "I encountered an error: " + error
  }

  /** How `_find_or_create_agent` ends. */
  datatype Plan =
    | Direct                       // no delegation: returns None
    | Reuse(agent: Dict)           // the matcher's agent, returned unchanged
    | Create(agent: Dict)          // a new agent, passed to save_agent
    | Abort(message: string)       // an exception before any write

  /**
   * The decision `_find_or_create_agent` takes on an analysis, given `lookup`,
   * the outcome of `find_similar_agent(agent_description, list_agents())` for
   * that analysis (consulted only when the analysis asks for delegation), and
   * the reply of the creation call.
   *   - An analysis that is not an object has no `.get`.
   *   - Printing `existing_agent['name']` raises on a match without a name.
   */
  function PlanFor(analysis: Json, lookup: Outcome<Option<Dict>>, creation: JsonReply): (p: Plan)
    ensures p.Direct? <==> analysis.JsonObject? && !RequiresDelegation(analysis.fields)
    ensures p.Reuse? ==> lookup == Returned(Some(p.agent)) && p.agent != map[] && "name" in p.agent
    ensures p.Create? <==> analysis.JsonObject? && RequiresDelegation(analysis.fields) &&
                           (lookup == Returned(None) || lookup == Returned(Some(map[])))
    ensures p.Create? ==> p.agent == CreateNewAgent(analysis.fields, creation)
    ensures analysis.JsonOther? ==> p == Abort(NoAttribute(analysis.typeName, "get"))
    ensures analysis.JsonObject? && RequiresDelegation(analysis.fields) && lookup.Raised? ==> p == Abort(lookup.message)
    ensures analysis.JsonObject? && RequiresDelegation(analysis.fields) && lookup.Returned? &&
            lookup.value.Some? && lookup.value.value != map[] ==>
              p == (if "name" in lookup.value.value then Reuse(lookup.value.value) else Abort(KeyErrorMessage("name")))
  {
    match analysis
    case JsonOther(typeName) => Abort(NoAttribute(typeName, "get"))
    case JsonObject(task) =>
      if !RequiresDelegation(task) then Direct
      else
        match lookup
        case Raised(message) => Abort(message)
        case Returned(found) =>
          if found.Some? && found.value != map[] then
            if "name" in found.value then Reuse(found.value) else Abort(KeyErrorMessage("name"))
          else Create(CreateNewAgent(task, creation))
  }

  /** The reply `process_request` gives when an exception reaches its handler. */
  function ErrorReply(message: string): string
  {
    "I encountered an error while processing your request: " + message
  }

  /** The handler's reply carries the whole exception message: different messages give different replies. */
  lemma {:induction false} ErrorReplyInjective(m1: string, m2: string)
    requires ErrorReply(m1) == ErrorReply(m2)
    ensures m1 == m2
  {
    var p := "I encountered an error while processing your request: ";
    assert m1 == ErrorReply(m1)[|p|..];
    assert m2 == ErrorReply(m2)[|p|..];
  }

  /** `process_request`'s reply for a plan and the reply of the answering call. */
  function Respond(plan: Plan, answer: TextReply): (r: string)
    ensures r != []
    ensures plan.Direct? ==> r == HandleDirectly(answer)
    ensures plan.Reuse? ==> r == DelegateTask(plan.agent, answer)
    ensures plan.Create? && "name" in plan.agent ==> r == DelegateTask(plan.agent, answer)
    ensures plan.Create? && "name" !in plan.agent ==> r == ErrorReply(KeyErrorMessage("name"))
    ensures plan.Abort? ==> r == ErrorReply(plan.message)
  {
    match plan
    case Direct => HandleDirectly(answer)
    case Reuse(agent) => DelegateTask(agent, answer)
    case Create(agent) => if "name" in agent then DelegateTask(agent, answer) else ErrorReply(KeyErrorMessage("name"))
    case Abort(message) => ErrorReply(message)
  }

  /** The file after `process_request`: only the creation path calls `save_agent`. */
  function AfterRequest(f: StoreFile, plan: Plan, writeOk: bool): (g: StoreFile)
    ensures !plan.Create? ==> g == f
    ensures plan.Create? && f.Document? && f.agents.Some? && writeOk ==>
      g.Document? && g.agents.Some? && plan.agent in g.agents.value
  {
    if plan.Create? then Saved(f, plan.agent, writeOk) else f
  }

  /** A failed analysis never delegates: the request is answered directly and nothing is stored. */
  lemma FailedAnalysisAnswersDirectly(lookup: Outcome<Option<Dict>>, creation: JsonReply, answer: TextReply,
                                      f: StoreFile, writeOk: bool)
    ensures PlanFor(AnalyzeTask(Failed), lookup, creation) == Direct
    ensures Respond(PlanFor(AnalyzeTask(Failed), lookup, creation), answer) == HandleDirectly(answer)
    ensures AfterRequest(f, PlanFor(AnalyzeTask(Failed), lookup, creation), writeOk) == f
  {
  }

  /** When the creation call fails, the fallback agent is created and the request is delegated to it. */
  lemma FailedCreationDelegatesToFallback(analysis: Json, lookup: Outcome<Option<Dict>>, answer: TextReply)
    requires PlanFor(analysis, lookup, Failed).Create?
    ensures PlanFor(analysis, lookup, Failed).agent == FallbackAgent(analysis.fields)
    ensures Respond(PlanFor(analysis, lookup, Failed), answer) == DelegateTask(FallbackAgent(analysis.fields), answer)
  {
    FallbackAgentNamed(analysis.fields);
  }

  /** After a creation whose write succeeds, the registry returns the new agent for its name. */
  lemma CreatedAgentIsStored(analysis: Json, lookup: Outcome<Option<Dict>>, creation: JsonReply, f: StoreFile)
    requires f.Document? && f.agents.Some?
    requires PlanFor(analysis, lookup, creation).Create?
    ensures var plan := PlanFor(analysis, lookup, creation);
      && FirstNamed(StoredAgents(AfterRequest(f, plan, true)), NameOf(plan.agent)) == Some(plan.agent)
      && plan.agent["created_by"] == Str("MasterAgent")
  {
    SavedThenFound(f, PlanFor(analysis, lookup, creation).agent);
  }
}

/**
 * The `MasterAgent` object, wiring the decision logic above to its registry
 * and its matcher.
 */
module Master {
  import opened Values
  import opened Metrics
  import opened Ranking
  import opened Similarity
  import opened Storage
  import opened Orchestrator

  /**
   * What `find_similar_agent(agent_description, agents)` gives for an analysis
   * object: None on an empty list before the query is looked at, otherwise an
   * AttributeError from `.lower()` when the description is not a string, or the
   * matcher's pick.
   */
  function Lookup(analysis: Json, agents: seq<Dict>, threshold: real, sqrt: real -> real): (r: Outcome<Option<Dict>>)
    requires IsSqrt(sqrt)
    ensures agents == [] ==> r == Returned(None)
    ensures r.Returned? && r.value.Some? ==> r.value.value in agents && r.value.value != map[]
  {
    match analysis
    case JsonOther(_) => Returned(None)
    case JsonObject(task) =>
      var description := GetOr(task, "agent_description", Str(""));
      if agents == [] then Returned(None)
      else if !description.Str? then Raised(NoAttribute(TypeName(description), "lower"))
      else Returned(Pick(agents, Scores(description.s, agents, sqrt), threshold))
  }

  /** A reused agent is the matcher's pick: the earliest best-scoring agent, over the floor and the threshold. */
  lemma ReusedAgentIsBestMatch(analysis: Json, agents: seq<Dict>, creation: JsonReply, threshold: real,
                               sqrt: real -> real)
    requires IsSqrt(sqrt)
    requires PlanFor(analysis, Lookup(analysis, agents, threshold, sqrt), creation).Reuse?
    ensures analysis.JsonObject? && GetOr(analysis.fields, "agent_description", Str("")).Str?
    ensures var s := Scores(GetOr(analysis.fields, "agent_description", Str("")).s, agents, sqrt);
      exists k :: FirstBest(s, k) && ScoreFloor < s[k] && threshold <= s[k] &&
                  agents[k] == PlanFor(analysis, Lookup(analysis, agents, threshold, sqrt), creation).agent
  {
  }

  /** A new agent is created only when no stored agent is picked for the description. */
  lemma CreateOnlyWithoutMatch(analysis: Json, agents: seq<Dict>, creation: JsonReply, threshold: real,
                               sqrt: real -> real)
    requires IsSqrt(sqrt)
    requires PlanFor(analysis, Lookup(analysis, agents, threshold, sqrt), creation).Create?
    ensures agents != [] ==>
      && GetOr(analysis.fields, "agent_description", Str("")).Str?
      && Pick(agents, Scores(GetOr(analysis.fields, "agent_description", Str("")).s, agents, sqrt), threshold) == None
  {
  }

  /** The master agent: its `BaseAgent` identity, its registry and its matcher. */
  class MasterAgent {
    const name: string
    const description: string
    const storage: AgentStorage
    const similarity: SimilaritySearch

    /** `MasterAgent()`, on a registry file found in state `existing`. */
    constructor(existing: StoreFile)
      ensures name == "MasterAgent"
      ensures description == "Master coordinator agent that delegates tasks to specialized agents"
      ensures fresh(storage) && storage.storageFile == DefaultStorageFile && storage.file == Healed(existing)
      ensures fresh(similarity) && similarity.similarityThreshold == DefaultThreshold
    {
      name := "MasterAgent";
      description := "Master coordinator agent that delegates tasks to specialized agents";
      storage := new AgentStorage(DefaultStorageFile, existing);
      similarity := new SimilaritySearch(DefaultThreshold);
    }

    /** The `find_similar_agent(agent_description, list_agents())` call of `_find_or_create_agent`. */
    method SearchRegistry(task: Dict, sqrt: real -> real) returns (r: Outcome<Option<Dict>>)
      requires IsSqrt(sqrt)
      ensures r == Lookup(JsonObject(task), storage.ListAgents(), similarity.similarityThreshold, sqrt)
    {
      var agentDescription := GetOr(task, "agent_description", Str(""));
      var agents := storage.ListAgents();
      if agents == [] {
        return Returned(None);
      }
      if !agentDescription.Str? {
        return Raised(NoAttribute(TypeName(agentDescription), "lower"));
      }
      var found := similarity.FindSimilarAgent(agentDescription.s, agents, sqrt);
      r := Returned(found);
    }

    /**
     * `_find_or_create_agent`: `None` for no delegation, the matched agent,
     * or a new agent that is saved first; an exception is `Raised`.
     * Storage is written only on the creation path.
     */
    method FindOrCreateAgent(analysis: Json, creation: JsonReply, writeOk: bool, sqrt: real -> real)
      returns (r: Outcome<Option<Dict>>)
      requires IsSqrt(sqrt)
      modifies storage
      ensures var plan := PlanFor(analysis, Lookup(analysis, old(storage.ListAgents()), similarity.similarityThreshold, sqrt),
                                  creation);
        && storage.file == AfterRequest(old(storage.file), plan, writeOk)
        && r == match plan
                case Direct => Returned(None)
                case Reuse(agent) => Returned(Some(agent))
                case Create(agent) =>
                  if "name" in agent then Returned(Some(agent)) else Raised(KeyErrorMessage("name"))
                case Abort(message) => Raised(message)
    {
      if analysis.JsonOther? {
        return Raised(NoAttribute(analysis.typeName, "get"));
      }
      var task := analysis.fields;
      if !RequiresDelegation(task) {
        return Returned(None);
      }
      var lookup := SearchRegistry(task, sqrt);
      if lookup.Raised? {
        return Raised(lookup.message);
      }
      var existingAgent := lookup.value;
      if existingAgent.Some? && existingAgent.value != map[] {
        if "name" !in existingAgent.value {
          return Raised(KeyErrorMessage("name"));
        }
        return Returned(existingAgent);
      }
      var newAgent := CreateNewAgent(task, creation);
      if newAgent != map[] {
        var _ := storage.SaveAgent(newAgent, writeOk);
        if "name" !in newAgent {
          return Raised(KeyErrorMessage("name"));
        }
      }
      r := Returned(Some(newAgent));
    }

    /**
     * `process_request`: never raises; the reply comes from the delegated agent,
     * the direct answer, or the error handler.
     */
    method ProcessRequest(analysisReply: JsonReply, creation: JsonReply, answer: TextReply, writeOk: bool,
                          sqrt: real -> real)
      returns (response: string)
      requires IsSqrt(sqrt)
      modifies storage
      ensures var analysis := AnalyzeTask(analysisReply);
        var plan := PlanFor(analysis, Lookup(analysis, old(storage.ListAgents()), similarity.similarityThreshold, sqrt),
                            creation);
        && response == Respond(plan, answer)
        && storage.file == AfterRequest(old(storage.file), plan, writeOk)
    {
      var taskAnalysis := AnalyzeTask(analysisReply);
      var agent := FindOrCreateAgent(taskAnalysis, creation, writeOk, sqrt);
      match agent
      case Raised(message) =>
        response := ErrorReply(message);
      case Returned(found) =>
        if found.Some? && found.value != map[] {
          response := DelegateTask(found.value, answer);
        } else {
          response := HandleDirectly(answer);
        }
    }
  }
}
