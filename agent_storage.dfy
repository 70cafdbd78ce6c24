/**
 * `AgentStorage` (agent_storage.py): the name-keyed registry of agent records
 * kept in one JSON file.  The file is abstract state: missing, unreadable
 * (not JSON, or not readable), or a decoded top-level object whose `agents`
 * key may be absent.
 */
module Storage {
  import opened Values
  import opened Text

  /** The default `storage_file` of the constructor. */
  const DefaultStorageFile: string := "agents_storage.json"

  /**
   * The backing file.  `Document(agents, others)`: `agents` is the list under
   * the `agents` key (None when the key is absent), `others` the other keys.
   */
  datatype StoreFile =
    | Missing
    | Unreadable
    | Document(agents: Option<seq<Dict>>, others: Dict)

  /** The file `_ensure_storage_file` writes from scratch: `{"agents": []}`. */
  const EmptyStore: StoreFile := Document(Some([]), map[])

  /**
   * `_ensure_storage_file`: a missing or unreadable file becomes an empty
   * registry, a document without `agents` gains an empty list and keeps its
   * other keys, and a registry is left as it is.
   */
  function Healed(f: StoreFile): (r: StoreFile)
    ensures r.Document? && r.agents.Some?
    ensures f.Document? ==> r.others == f.others
    ensures f.Document? && f.agents.Some? ==> r == f
    ensures !f.Document? ==> r == EmptyStore
    ensures f.Document? && f.agents.None? ==> r.agents == Some([])
  {
    match f
    case Missing => EmptyStore
    case Unreadable => EmptyStore
    case Document(agents, others) =>
      if agents.None? then Document(Some([]), others) else f
  }

  /** Healing twice is healing once. */
  lemma HealedIdempotent(f: StoreFile)
    ensures Healed(Healed(f)) == Healed(f)
  {
  }

  /**
   * `list_agents`: the stored list, or `[]` when the file has none or cannot be
   * read, which is the list the healed file would hold: listing never needs the
   * file repaired first.
   */
  function StoredAgents(f: StoreFile): (r: seq<Dict>)
    ensures r == Healed(f).agents.value
  {
    if f.Document? && f.agents.Some? then f.agents.value else []
  }

  /** The `name` entry of a record, `None` when absent. */
  function NameOf(agent: Dict): Value
  {
    Get(agent, "name")
  }

  /**
   * The index of the first record whose name equals `name`, as the search loop
   * of `save_agent` finds it.
   */
  function FindIndex(agents: seq<Dict>, name: Value): (r: Option<nat>)
    ensures r.Some? ==> r.value < |agents| && NameOf(agents[r.value]) == name
    ensures r.Some? ==> forall j :: 0 <= j < r.value ==> NameOf(agents[j]) != name
    ensures r.None? <==> forall j :: 0 <= j < |agents| ==> NameOf(agents[j]) != name
  {
    if agents == [] then None
    else if NameOf(agents[0]) == name then Some(0)
    else
      match FindIndex(agents[1..], name)
      case None => None
      case Some(i) => Some(i + 1)
  }

  /** The first record with the given name: what `get_agent` returns. */
  function FirstNamed(agents: seq<Dict>, name: Value): (r: Option<Dict>)
    ensures r.Some? ==> r.value in agents && NameOf(r.value) == name
    ensures r.Some? ==> exists i :: 0 <= i < |agents| && agents[i] == r.value
                                    && forall j :: 0 <= j < i ==> NameOf(agents[j]) != name
    ensures r.None? <==> forall a :: a in agents ==> NameOf(a) != name
  {
    match FindIndex(agents, name)
    case None => None
    case Some(i) =>
      assert forall j :: 0 <= j < i ==> NameOf(agents[j]) != name;
      Some(agents[i])
  }

  /**
   * The list `save_agent` writes back: the first record with the agent's name
   * is replaced in place, otherwise the agent is appended.
   */
  function Upsert(agents: seq<Dict>, agent: Dict): (r: seq<Dict>)
    ensures agent in r
  {
    match FindIndex(agents, NameOf(agent))
    case Some(i) =>
      var r := agents[i := agent];
      assert r[i] == agent;
      r
    case None => agents + [agent]
  }

  /** A name already present: the first record of that name is replaced, nothing else changes. */
  lemma UpsertReplaces(agents: seq<Dict>, agent: Dict, i: nat)
    requires i < |agents| && NameOf(agents[i]) == NameOf(agent)
    requires forall j :: 0 <= j < i ==> NameOf(agents[j]) != NameOf(agent)
    ensures |Upsert(agents, agent)| == |agents|
    ensures Upsert(agents, agent)[i] == agent
    ensures forall j :: 0 <= j < |agents| && j != i ==> Upsert(agents, agent)[j] == agents[j]
  {
    var k := FindIndex(agents, NameOf(agent));
    assert k.Some?;
    assert k.value == i;
  }

  /** A new name: the agent is appended and the earlier records are kept. */
  lemma UpsertAppends(agents: seq<Dict>, agent: Dict)
    requires forall a :: a in agents ==> NameOf(a) != NameOf(agent)
    ensures Upsert(agents, agent) == agents + [agent]
    ensures |Upsert(agents, agent)| == |agents| + 1
  {
    assert forall j :: 0 <= j < |agents| ==> NameOf(agents[j]) != NameOf(agent) by {
      forall j | 0 <= j < |agents| ensures NameOf(agents[j]) != NameOf(agent) {
        assert agents[j] in agents;
      }
    }
  }

  /** After an upsert, looking the agent's name up finds exactly the agent. */
  lemma UpsertThenFind(agents: seq<Dict>, agent: Dict)
    ensures FirstNamed(Upsert(agents, agent), NameOf(agent)) == Some(agent)
  {
    var r := Upsert(agents, agent);
    match FindIndex(agents, NameOf(agent))
    case Some(i) =>
      UpsertReplaces(agents, agent, i);
      assert forall j :: 0 <= j < i ==> NameOf(r[j]) != NameOf(agent);
      assert FindIndex(r, NameOf(agent)) == Some(i);
    case None =>
      UpsertAppends(agents, agent);
      assert forall j :: 0 <= j < |agents| ==> NameOf(r[j]) != NameOf(agent);
      assert FindIndex(r, NameOf(agent)) == Some(|agents|);
  }

  /** No two records share a name. */
  predicate NamesDistinct(agents: seq<Dict>)
  {
    forall i, j :: 0 <= i < j < |agents| ==> NameOf(agents[i]) != NameOf(agents[j])
  }

  /** Saving keeps the stored names pairwise distinct. */
  lemma UpsertKeepsNamesDistinct(agents: seq<Dict>, agent: Dict)
    requires NamesDistinct(agents)
    ensures NamesDistinct(Upsert(agents, agent))
  {
    var r := Upsert(agents, agent);
    match FindIndex(agents, NameOf(agent))
    case Some(k) =>
      forall i, j | 0 <= i < j < |r| ensures NameOf(r[i]) != NameOf(r[j]) {
        if i == k {
          assert NameOf(r[j]) == NameOf(agents[j]);
        } else if j == k {
          assert NameOf(r[i]) == NameOf(agents[i]);
        }
      }
    case None =>
      forall i, j | 0 <= i < j < |r| ensures NameOf(r[i]) != NameOf(r[j]) {
        if j == |agents| {
          assert r[i] == agents[i];
        }
      }
  }

  /** The list comprehension of `delete_agent`: the records not named `name`, in order. */
  function RemoveNamed(agents: seq<Dict>, name: string): (r: seq<Dict>)
    ensures |r| <= |agents|
  {
    if agents == [] then []
    else
      var rest := RemoveNamed(agents[1..], name);
      if NameOf(agents[0]) != Str(name) then [agents[0]] + rest else rest
  }

  /** Exactly the records without the name are kept. */
  lemma {:induction false} RemoveNamedMembers(agents: seq<Dict>, name: string, a: Dict)
    ensures a in RemoveNamed(agents, name) <==> a in agents && NameOf(a) != Str(name)
  {
    if agents != [] {
      RemoveNamedMembers(agents[1..], name, a);
      assert a in agents <==> a == agents[0] || a in agents[1..];
    }
  }

  /** Deleting distributes over concatenation, so the kept records stay in their order. */
  lemma {:induction false} RemoveNamedAppend(a: seq<Dict>, b: seq<Dict>, name: string)
    ensures RemoveNamed(a + b, name) == RemoveNamed(a, name) + RemoveNamed(b, name)
  {
    if a != [] {
      RemoveNamedAppend(a[1..], b, name);
      assert (a + b)[1..] == a[1..] + b;
    } else {
      assert a + b == b;
    }
  }

  /** The list shrinks exactly when some record carries the name. */
  lemma {:induction false} RemoveNamedShrinks(agents: seq<Dict>, name: string)
    ensures |RemoveNamed(agents, name)| < |agents| <==> exists a :: a in agents && NameOf(a) == Str(name)
  {
    if agents != [] {
      RemoveNamedShrinks(agents[1..], name);
      assert forall a :: a in agents <==> a == agents[0] || a in agents[1..];
    }
  }

  /** Deleting an absent name changes nothing. */
  lemma {:induction false} RemoveAbsent(agents: seq<Dict>, name: string)
    requires forall a :: a in agents ==> NameOf(a) != Str(name)
    ensures RemoveNamed(agents, name) == agents
  {
    if agents != [] {
      RemoveAbsent(agents[1..], name);
      assert agents == [agents[0]] + agents[1..];
    }
  }

  /** `agent.get("task_type", "")`, the value `get_agents_by_type` lower-cases. */
  function TaskTypeOf(agent: Dict): Value
  {
    GetOr(agent, "task_type", Str(""))
  }

  /** Every stored task type is a string, so `.lower()` raises on none of them. */
  predicate TaskTypesAreStrings(agents: seq<Dict>)
  {
    forall i :: 0 <= i < |agents| ==> TaskTypeOf(agents[i]).Str?
  }

  /** The records whose task type equals `taskType`, ignoring ASCII case, in order. */
  function OfType(agents: seq<Dict>, taskType: string): (r: seq<Dict>)
    ensures |r| <= |agents|
  {
    if agents == [] then []
    else
      var rest := OfType(agents[1..], taskType);
      var t := TaskTypeOf(agents[0]);
      if t.Str? && Lower(t.s) == Lower(taskType) then [agents[0]] + rest else rest
  }

  /** Exactly the records of the requested type are kept. */
  lemma {:induction false} OfTypeMembers(agents: seq<Dict>, taskType: string, a: Dict)
    ensures a in OfType(agents, taskType) <==>
      a in agents && TaskTypeOf(a).Str? && Lower(TaskTypeOf(a).s) == Lower(taskType)
  {
    if agents != [] {
      OfTypeMembers(agents[1..], taskType, a);
      assert a in agents <==> a == agents[0] || a in agents[1..];
    }
  }

  /** Filtering by type distributes over concatenation: the stored order is kept. */
  lemma {:induction false} OfTypeAppend(a: seq<Dict>, b: seq<Dict>, taskType: string)
    ensures OfType(a + b, taskType) == OfType(a, taskType) + OfType(b, taskType)
  {
    if a != [] {
      OfTypeAppend(a[1..], b, taskType);
      assert (a + b)[1..] == a[1..] + b;
    } else {
      assert a + b == b;
    }
  }

  /**
   * `get_agents_by_type`: the matching records, or `[]` when some record's task
   * type is not a string (its `.lower()` raises and the error is swallowed).
   */
  function AgentsOfType(agents: seq<Dict>, taskType: string): (r: seq<Dict>)
    ensures !TaskTypesAreStrings(agents) ==> r == []
    ensures |r| <= |agents|
  {
    if TaskTypesAreStrings(agents) then OfType(agents, taskType) else []
  }

  /** When every task type is a string, a record is returned exactly when its type matches ignoring case. */
  lemma AgentsOfTypeMembers(agents: seq<Dict>, taskType: string, a: Dict)
    requires TaskTypesAreStrings(agents)
    ensures a in AgentsOfType(agents, taskType) <==> a in agents && Lower(TaskTypeOf(a).s) == Lower(taskType)
  {
    OfTypeMembers(agents, taskType, a);
    if a in agents {
      var i :| 0 <= i < |agents| && agents[i] == a;
    }
  }

  /** One entry of `type_counts`. */
  datatype TypeCount = TypeCount(taskType: Value, count: nat)

  /** `agent.get("task_type", "unknown")`: the key a record is counted under. */
  function TypeKey(agent: Dict): Value
  {
    GetOr(agent, "task_type", Str("unknown"))
  }

  /** The count stored for `key`, 0 when it has no entry. */
  function CountOf(counts: seq<TypeCount>, key: Value): nat
  {
    if counts == [] then 0
    else if counts[0].taskType == key then counts[0].count
    else CountOf(counts[1..], key)
  }

  /** The sum of all counts. */
  function Total(counts: seq<TypeCount>): nat
  {
    if counts == [] then 0 else counts[0].count + Total(counts[1..])
  }

  /** Some entry is keyed `key`. */
  predicate HasKey(counts: seq<TypeCount>, key: Value)
  {
    counts != [] && (counts[0].taskType == key || HasKey(counts[1..], key))
  }

  /** Keys are pairwise distinct, as in a dict. */
  predicate KeysDistinct(counts: seq<TypeCount>)
  {
    counts == [] || (!HasKey(counts[1..], counts[0].taskType) && KeysDistinct(counts[1..]))
  }

  /**
   * `type_counts[key] = type_counts.get(key, 0) + 1`: the entry of `key` goes up
   * by one (a new key is added at the end, as a dict does), the others stay.
   */
  function Bump(counts: seq<TypeCount>, key: Value): (r: seq<TypeCount>)
    ensures Total(r) == Total(counts) + 1
    ensures CountOf(r, key) == CountOf(counts, key) + 1
    ensures forall k :: k != key ==> CountOf(r, k) == CountOf(counts, k)
    ensures forall k :: HasKey(r, k) <==> k == key || HasKey(counts, k)
    ensures KeysDistinct(counts) ==> KeysDistinct(r)
  {
    if counts == [] then [TypeCount(key, 1)]
    else if counts[0].taskType == key then
      var r := [TypeCount(key, counts[0].count + 1)] + counts[1..];
      assert r[1..] == counts[1..];
      r
    else
      var rest := Bump(counts[1..], key);
      var r := [counts[0]] + rest;
      assert r[1..] == rest;
      r
  }

  /** The number of records counted under `key`. */
  function Occurrences(agents: seq<Dict>, key: Value): nat
  {
    if agents == [] then 0
    else Occurrences(agents[..|agents| - 1], key) + (if TypeKey(agents[|agents| - 1]) == key then 1 else 0)
  }

  /** `type_counts` after the counting loop has seen `agents`. */
  function TypeCounts(agents: seq<Dict>): (r: seq<TypeCount>)
    ensures Total(r) == |agents|
    ensures KeysDistinct(r)
    ensures forall key :: CountOf(r, key) == Occurrences(agents, key)
  {
    if agents == [] then []
    else Bump(TypeCounts(agents[..|agents| - 1]), TypeKey(agents[|agents| - 1]))
  }

  /** The dictionary `get_storage_stats` returns. */
  datatype StorageStats = StorageStats(
    totalAgents: nat,
    agentsByType: seq<TypeCount>,
    storageFile: string,
    fileExists: bool)

  /**
   * The file after `save_agent(agent)`: the upserted registry when the file
   * holds one and the rewrite (`writeOk`) succeeds, otherwise the file as it was.
   */
  function Saved(f: StoreFile, agent: Dict, writeOk: bool): (r: StoreFile)
    ensures f.Document? && f.agents.Some? && writeOk ==> StoredAgents(r) == Upsert(StoredAgents(f), agent)
    ensures !(f.Document? && f.agents.Some? && writeOk) ==> r == f
    ensures r.Document? == f.Document? && (f.Document? ==> r.others == f.others)
    ensures NamesDistinct(StoredAgents(f)) ==> NamesDistinct(StoredAgents(r))
  {
    if f.Document? && f.agents.Some? && writeOk then
      assert NamesDistinct(f.agents.value) ==> NamesDistinct(Upsert(f.agents.value, agent)) by {
        if NamesDistinct(f.agents.value) { UpsertKeepsNamesDistinct(f.agents.value, agent); }
      }
      Document(Some(Upsert(f.agents.value, agent)), f.others)
    else f
  }

  /** Healing keeps the listed records. */
  lemma HealingKeepsAgents(f: StoreFile)
    ensures StoredAgents(Healed(f)) == StoredAgents(f)
  {
  }

  /** A saved agent is what a later lookup of its name returns. */
  lemma SavedThenFound(f: StoreFile, agent: Dict)
    requires f.Document? && f.agents.Some?
    ensures FirstNamed(StoredAgents(Saved(f, agent, true)), NameOf(agent)) == Some(agent)
  {
    UpsertThenFind(f.agents.value, agent);
  }

  /** The registry of agent_storage.py over its backing file. */
  class AgentStorage {
    const storageFile: string
    var file: StoreFile

    /** `AgentStorage(storage_file)` on a file found in state `existing`. */
    constructor(storageFile: string, existing: StoreFile)
      ensures this.storageFile == storageFile
      ensures file == Healed(existing)
    {
      this.storageFile := storageFile;
      file := existing;
      new;
      EnsureStorageFile();
    }

    /** `_ensure_storage_file`. */
    method EnsureStorageFile()
      modifies this
      ensures file == Healed(old(file))
    {
      match file
      case Missing =>
        file := EmptyStore;
      case Unreadable =>
        file := EmptyStore;
      case Document(agents, others) =>
        if agents.None? {
          file := Document(Some([]), others);
        }
    }

    /** `list_agents`: the records the healed file holds. */
    function ListAgents(): (r: seq<Dict>)
      reads this
      ensures r == Healed(file).agents.value
    {
      StoredAgents(file)
    }

    /**
     * `save_agent`: succeeds exactly when the file holds a registry and the
     * rewrite (`writeOk`) succeeds; then the registry is the upserted list.
     * A failure leaves the file as it was.
     */
    method SaveAgent(agent: Dict, writeOk: bool) returns (saved: bool)
      modifies this
      ensures saved <==> old(file).Document? && old(file).agents.Some? && writeOk
      ensures file == Saved(old(file), agent, writeOk)
    {
      if !(file.Document? && file.agents.Some?) {
        return false;
      }
      var agents := file.agents.value;
      var existing: Option<nat> := None;
      var i := 0;
      while i < |agents|
        invariant 0 <= i <= |agents| && existing.None?
        invariant forall j :: 0 <= j < i ==> NameOf(agents[j]) != NameOf(agent)
      {
        if NameOf(agents[i]) == NameOf(agent) {
          existing := Some(i);
          break;
        }
        i := i + 1;
      }
      assert existing == FindIndex(agents, NameOf(agent));
      var updated := if existing.Some? then agents[existing.value := agent] else agents + [agent];
      if !writeOk {
        return false;
      }
      file := Document(Some(updated), file.others);
      saved := true;
    }

    /** `get_agent`: the first record with the given name. */
    method GetAgent(agentName: string) returns (r: Option<Dict>)
      ensures r == FirstNamed(ListAgents(), Str(agentName))
    {
      if !(file.Document? && file.agents.Some?) {
        return None;
      }
      var agents := file.agents.value;
      for i := 0 to |agents|
        invariant forall j :: 0 <= j < i ==> NameOf(agents[j]) != Str(agentName)
      {
        if NameOf(agents[i]) == Str(agentName) {
          assert FindIndex(agents, Str(agentName)) == Some(i);
          return Some(agents[i]);
        }
      }
      r := None;
    }

    /**
     * `delete_agent`: removes every record with the name and reports `True`
     * exactly when one existed and the rewrite succeeded.  Nothing is written
     * when no record matched.
     */
    method DeleteAgent(agentName: string, writeOk: bool) returns (deleted: bool)
      modifies this
      ensures deleted <==> old(file).Document? && old(file).agents.Some? && writeOk
                           && |RemoveNamed(old(file).agents.value, agentName)| < |old(file).agents.value|
      ensures deleted ==> file == Document(Some(RemoveNamed(old(file).agents.value, agentName)), old(file).others)
      ensures !deleted ==> file == old(file)
    {
      if !(file.Document? && file.agents.Some?) {
        return false;
      }
      var originalCount := |file.agents.value|;
      var kept := RemoveNamed(file.agents.value, agentName);
      if |kept| < originalCount && writeOk {
        file := Document(Some(kept), file.others);
        return true;
      }
      return false;
    }

    /** `get_agents_by_type`. */
    function GetAgentsByType(taskType: string): (r: seq<Dict>)
      reads this
      ensures !TaskTypesAreStrings(ListAgents()) ==> r == []
      ensures |r| <= |ListAgents()|
    {
      AgentsOfType(ListAgents(), taskType)
    }

    /** `get_storage_stats`: the counting loop over `list_agents()`. */
    method GetStorageStats() returns (stats: StorageStats)
      ensures stats == StorageStats(|ListAgents()|, TypeCounts(ListAgents()), storageFile, !file.Missing?)
    {
      var agents := ListAgents();
      var typeCounts: seq<TypeCount> := [];
      for i := 0 to |agents|
        invariant typeCounts == TypeCounts(agents[..i])
      {
        assert agents[..i + 1][..i] == agents[..i];
        typeCounts := Bump(typeCounts, TypeKey(agents[i]));
      }
      assert agents[..|agents|] == agents;
      stats := StorageStats(|agents|, typeCounts, storageFile, !file.Missing?);
    }
  }

  /** A record with no `task_type` key is counted under "unknown". */
  lemma {:induction false} MissingTypeCountsAsUnknown(agents: seq<Dict>, i: nat)
    requires i < |agents| && "task_type" !in agents[i]
    ensures CountOf(TypeCounts(agents), Str("unknown")) > 0
  {
    UntypedOccurs(agents, i);
  }

  lemma {:induction false} UntypedOccurs(agents: seq<Dict>, i: nat)
    requires i < |agents| && "task_type" !in agents[i]
    ensures Occurrences(agents, Str("unknown")) > 0
    decreases |agents|
  {
    var n := |agents| - 1;
    if i < n {
      UntypedOccurs(agents[..n], i);
    }
  }
}
