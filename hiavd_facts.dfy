/**
 * The "new configuration" fact of library/hiavd_facts.py: a cluster counts
 * as newly configured when its configuration file names no cluster nodes,
 * or when its state file is missing or still at the initial revision. The
 * configuration file is given as its lines, the state file as its decoded
 * JSON value (None when the file does not exist).
 */
module HiavdFacts {
  import opened Common

  const DefaultRevisionId: int := 1

  /** A decoded JSON value; an object keeps its members in file order. */
  datatype Json =
    | JNull
    | JBool(b: bool)
    | JInt(i: int)
    | JString(s: string)
    | JArray(items: seq<Json>)
    | JObject(members: seq<(string, Json)>)

  /** Python's truth value of a decoded value. */
  predicate Truthy(j: Json) {
    match j
    case JNull => false
    case JBool(b) => b
    case JInt(i) => i != 0
    case JString(s) => s != ""
    case JArray(items) => items != []
    case JObject(members) => members != []
  }

  /** `dict.get(key)`: the value of the last member with that key, since a
      repeated key overwrites the earlier one when the object is decoded. */
  function Get(members: seq<(string, Json)>, key: string): (r: Option<Json>)
    ensures r.None? <==> forall i :: 0 <= i < |members| ==> members[i].0 != key
    ensures r.Some? ==> exists i :: 0 <= i < |members| && members[i] == (key, r.value)
  {
    if members == [] then None
    else
      var last := members[|members| - 1];
      if last.0 == key then Some(last.1)
      else
        var r := Get(members[..|members| - 1], key);
        assert forall i :: 0 <= i < |members| - 1 ==> members[..|members| - 1][i] == members[i];
        r
  }

  /** Python's `value == 1` for a decoded value: an integer 1, or `true`,
      which Python counts as equal to 1. */
  predicate EqualsDefaultRevision(j: Option<Json>) {
    j == Some(JInt(DefaultRevisionId)) || j == Some(JBool(true))
  }

  /** Why reading the revision failed: `MissingRevisionError`, or the
      AttributeError of calling `get` on a value that is not an object. */
  datatype StateError = MissingRevisionError | AttributeError

  /** `revision_is_initial` on the decoded state file. */
  function RevisionIsInitial(state: Json): (r: Result<bool, StateError>)
    ensures !state.JObject? ==> r == Err(AttributeError)
    ensures r.Ok? ==> (state.JObject? && Get(state.members, "Cluster").Some?
                       && Get(state.members, "Cluster").value.JObject? && Truthy(Get(state.members, "Cluster").value))
  {
    if !state.JObject? then Err(AttributeError)
    else
      var cluster := Get(state.members, "Cluster");
      if cluster.None? || !Truthy(cluster.value) then Err(MissingRevisionError)
      else if !cluster.value.JObject? then Err(AttributeError)
      else Ok(EqualsDefaultRevision(Get(cluster.value.members, "Revision")))
  }

  /** The cases of `revision_is_initial` for a state file that is an object:
      a missing or empty `Cluster` raises, a `Cluster` object gives whether
      its `Revision` is 1, and one without `Revision` gives false. */
  lemma RevisionCases(members: seq<(string, Json)>)
    ensures var r := RevisionIsInitial(JObject(members));
      var cluster := Get(members, "Cluster");
      && (r == Err(MissingRevisionError) <==> cluster.None? || !Truthy(cluster.value))
      && (r == Ok(true) <==>
            cluster.Some? && cluster.value.JObject? && cluster.value.members != []
            && EqualsDefaultRevision(Get(cluster.value.members, "Revision")))
      && ((cluster.Some? && cluster.value.JObject? && cluster.value.members != []
           && Get(cluster.value.members, "Revision").None?) ==> r == Ok(false))
  {
  }

  /** `statefile_missing_or_initial`: a missing file short-circuits, and its
      revision is read only when it exists. */
  function StatefileMissingOrInitial(state: Option<Json>): (r: Result<bool, StateError>)
    ensures state.None? ==> r == Ok(true)
  {
    if state.None? then Ok(true) else RevisionIsInitial(state.value)
  }

  /** `no_cluster_nodes_defined`: scan the lines for a `[[ClusterNodes]]` section. */
  function NoClusterNodesDefined(lines: seq<string>): (r: bool)
    ensures !r <==> exists i :: 0 <= i < |lines| && StartsWith(lines[i], "[[ClusterNodes]]")
  {
    if lines == [] then true
    else if StartsWith(lines[0], "[[ClusterNodes]]") then false
    else
      assert forall i :: 1 <= i < |lines| ==> lines[i] == lines[1..][i - 1];
      NoClusterNodesDefined(lines[1..])
  }

  /** The `new_configuration` fact. `revisionId` is the module's
      `revision_id` parameter, which is read and never used. */
  function NewConfiguration(configLines: seq<string>, state: Option<Json>, revisionId: int): (r: Result<bool, StateError>)
    ensures NoClusterNodesDefined(configLines) ==> r == Ok(true)
    ensures state.None? ==> r == Ok(true)
  {
    if NoClusterNodesDefined(configLines) then Ok(true) else StatefileMissingOrInitial(state)
  }

  /** The fact is true when no node section exists, whatever the state file
      holds; otherwise it is the state file's answer, errors included; and
      the `revision_id` parameter never changes it. */
  lemma NewConfigurationCases(configLines: seq<string>, state: Option<Json>, revisionId: int, otherId: int)
    ensures (forall i :: 0 <= i < |configLines| ==> !StartsWith(configLines[i], "[[ClusterNodes]]")) ==>
      NewConfiguration(configLines, state, revisionId) == Ok(true)
    ensures (exists i :: 0 <= i < |configLines| && StartsWith(configLines[i], "[[ClusterNodes]]")) ==>
      NewConfiguration(configLines, state, revisionId) == StatefileMissingOrInitial(state)
    ensures NewConfiguration(configLines, state, revisionId) == NewConfiguration(configLines, state, otherId)
  {
  }

  /** A configured cluster whose state file records revision 2 is not new. */
  lemma NewConfigurationExample()
    ensures NewConfiguration(["[global]\n", "[[ClusterNodes]]\n"],
      Some(JObject([("Cluster", JObject([("Revision", JInt(2))]))])), 1) == Ok(false)
  {
    var lines := ["[global]\n", "[[ClusterNodes]]\n"];
    assert lines[1][..16] == "[[ClusterNodes]]";
  }
}
