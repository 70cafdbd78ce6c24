/**
 * The agent objects of base_agent.py: `BaseAgent`'s stored fields and
 * dictionary form, and `SpecializedAgent` with its two extra fields, its
 * placeholder `process_request` and the `to_dict`/`from_dict` pair.
 *
 * The attributes are held as JSON values: `from_dict` stores whatever the
 * dictionary holds under each key, which need not be a string.
 */
module Agents {
  import opened Values
  import opened Text

  /** `self.__class__.__name__` of every `SpecializedAgent`. */
  const SpecializedTypeName: string := "SpecializedAgent"

  /** The six attributes of a `SpecializedAgent`, as one value. */
  datatype AgentRecord = AgentRecord(
    name: Value,
    description: Value,
    createdAt: Value,
    lastUsed: Value,
    systemPrompt: Value,
    taskType: Value)

  /** The map `BaseAgent.get_info` and `BaseAgent.to_dict` build. */
  function BaseMap(a: AgentRecord, typeName: string): Dict
  {
    map["name" := a.name, "description" := a.description, "created_at" := a.createdAt,
        "last_used" := a.lastUsed, "type" := Str(typeName)]
  }

  /** `SpecializedAgent.to_dict`: the base map updated with the two specialised fields. */
  function Encode(a: AgentRecord): (d: Dict)
    ensures d.Keys == BaseMap(a, SpecializedTypeName).Keys + {"system_prompt", "task_type"}
    ensures forall k :: k in BaseMap(a, SpecializedTypeName) ==> d[k] == BaseMap(a, SpecializedTypeName)[k]
  {
    BaseMap(a, SpecializedTypeName) + map["system_prompt" := a.systemPrompt, "task_type" := a.taskType]
  }

  /** The attributes `SpecializedAgent.from_dict` assigns, with its defaults for missing keys. */
  function Decode(d: Dict): AgentRecord
  {
    AgentRecord(
      GetOr(d, "name", Str("UnknownAgent")),
      GetOr(d, "description", Str("")),
      Get(d, "created_at"),
      Get(d, "last_used"),
      GetOr(d, "system_prompt", Str("")),
      GetOr(d, "task_type", Str("general")))
  }

  /** Decoding what `to_dict` produced gives back every attribute. */
  lemma DecodeEncode(a: AgentRecord)
    ensures Decode(Encode(a)) == a
  {
  }

  /** A key `from_dict` reads and `to_dict` writes keeps the value it had in the dictionary. */
  lemma EncodeDecodeAgrees(d: Dict, k: string)
    requires k in d && k in Encode(Decode(d)) && k != "type"
    ensures Encode(Decode(d))[k] == d[k]
  {
  }

  /** An empty dictionary decodes to the defaults of `from_dict`. */
  lemma DecodeDefaults()
    ensures Decode(map[]) == AgentRecord(Str("UnknownAgent"), Str(""), Null, Null, Str(""), Str("general"))
  {
  }

  /** A `SpecializedAgent` object. */
  class SpecializedAgent {
    var name: Value
    var description: Value
    var createdAt: Value
    var lastUsed: Value
    var systemPrompt: Value
    var taskType: Value

    /** `SpecializedAgent(name, description, system_prompt, task_type)`: no timestamps yet. */
    constructor(name: Value, description: Value, systemPrompt: Value, taskType: Value)
      ensures this.name == name && this.description == description
      ensures this.systemPrompt == systemPrompt && this.taskType == taskType
      ensures createdAt == Null && lastUsed == Null
    {
      this.name := name;
      this.description := description;
      createdAt := Null;
      lastUsed := Null;
      this.systemPrompt := systemPrompt;
      this.taskType := taskType;
    }

    /** The object's attributes. */
    function Record(): AgentRecord
      reads this
    {
      AgentRecord(name, description, createdAt, lastUsed, systemPrompt, taskType)
    }

    /** `get_info`, inherited from `BaseAgent`. */
    function GetInfo(): (d: Dict)
      reads this
      ensures d.Keys == {"name", "description", "created_at", "last_used", "type"}
      ensures d["type"] == Str(SpecializedTypeName)
    {
      BaseMap(Record(), SpecializedTypeName)
    }

    /** `BaseAgent.to_dict`, the map the override starts from. */
    function BaseToDict(): (d: Dict)
      reads this
      ensures d.Keys == {"name", "description", "created_at", "last_used", "type"}
    {
      BaseMap(Record(), SpecializedTypeName)
    }

    /** `to_dict`: the base map extended with `system_prompt` and `task_type`. */
    function ToDict(): (d: Dict)
      reads this
      ensures d.Keys == BaseToDict().Keys + {"system_prompt", "task_type"}
      ensures forall k :: k in BaseToDict() ==> d[k] == BaseToDict()[k]
      ensures d["system_prompt"] == systemPrompt && d["task_type"] == taskType
    {
      Encode(Record())
    }

    /** `process_request`: the placeholder reply naming the agent. */
    function ProcessRequest(request: string): (r: string)
      reads this
      ensures IsPrefix("[" + Show(name) + "] Processing: ", r)
      ensures |r| == |Show(name)| + 15 + |request| && r[|r| - |request|..] == request
    {
      "[" + Show(name) + "] Processing: " + request
    }

    /** `SpecializedAgent.from_dict`: construct, then assign the two timestamps. */
    static method FromDict(d: Dict) returns (a: SpecializedAgent)
      ensures fresh(a)
      ensures a.Record() == Decode(d)
    {
      a := new SpecializedAgent(
        GetOr(d, "name", Str("UnknownAgent")),
        GetOr(d, "description", Str("")),
        GetOr(d, "system_prompt", Str("")),
        GetOr(d, "task_type", Str("general")));
      a.createdAt := Get(d, "created_at");
      a.lastUsed := Get(d, "last_used");
    }
  }

  /** `get_info` and the base `to_dict` return the same map. */
  lemma InfoIsBaseDict(a: SpecializedAgent)
    ensures a.GetInfo() == a.BaseToDict()
  {
  }

  /** `from_dict(a.to_dict())` reproduces every attribute of `a`. */
  lemma ObjectRoundTrip(a: SpecializedAgent)
    ensures Decode(a.ToDict()) == a.Record()
  {
    DecodeEncode(a.Record());
  }

  /** The reply to two requests from one agent differs when the requests differ. */
  lemma {:induction false} ProcessRequestInjective(a: SpecializedAgent, r1: string, r2: string)
    requires a.ProcessRequest(r1) == a.ProcessRequest(r2)
    ensures r1 == r2
  {
    var p := "[" + Show(a.name) + "] Processing: ";
    assert a.ProcessRequest(r1) == p + r1;
    assert a.ProcessRequest(r2) == p + r2;
    assert r1 == (p + r1)[|p|..];
    assert r2 == (p + r2)[|p|..];
  }
}
