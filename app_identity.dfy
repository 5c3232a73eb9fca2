/**
 * How a module's identity is written into Marathon and read back: the app
 * id `group-label`, and the module marker `group:label` stored in the app's
 * environment and parsed at its first colon.
 */
module AppIdentity {
  import opened Wrappers
  import opened MarathonTypes

  /** `String.indexOf(char)`: the first position of `c` in `s`, or -1. */
  function IndexOf(s: string, c: char): (r: int)
    ensures -1 <= r < |s|
    ensures r == -1 <==> c !in s
    ensures r >= 0 ==> s[r] == c && c !in s[..r]
  {
    if |s| == 0 then -1
    else if s[0] == c then 0
    else
      var k := IndexOf(s[1..], c);
      if k < 0 then -1
      else
        assert s[..k + 1] == [s[0]] + s[1..][..k];
        k + 1
  }

  /** The first occurrence of `c` in `a + [c] + b` is the one after `a`, when `a` has none. */
  lemma IndexOfJoin(a: string, c: char, b: string)
    requires c !in a
    ensures IndexOf(a + [c] + b, c) == |a|
  {
    var s := a + [c] + b;
    assert s[..|a|] == a;
    assert s[|a|] == c;
  }

  /** The Marathon app id of a deployed module (`deduceAppId(ModuleDeploymentId)`). */
  function DeduceAppId(id: ModuleDeploymentId): (appId: string)
    ensures |appId| == |id.group| + 1 + |id.moduleLabel|
    ensures appId[..|id.group|] == id.group
    ensures appId[|id.group|] == '-'
    ensures appId[|id.group| + 1..] == id.moduleLabel
  {
    id.group + "-" + id.moduleLabel
  }

  /** The identity `ModuleDeploymentId.fromModuleDefinition` gives a definition. */
  function DefinitionId(definition: ModuleDefinition): ModuleDeploymentId
  {
    ModuleDeploymentId(definition.group, definition.moduleLabel)
  }

  /**
   * The Marathon app id of a request (`deduceAppId(ModuleDeploymentRequest)`):
   * the same id that the request's module identity maps to, so that
   * `undeploy` and `status` find the app that `deploy` created.
   */
  function DeduceRequestAppId(request: DeploymentRequest): (appId: string)
    ensures appId == DeduceAppId(DefinitionId(request.definition))
  {
    request.definition.group + "-" + request.definition.moduleLabel
  }

  /** Two distinct modules can map to the same app id when a group holds a dash. */
  lemma AppIdCollision()
    ensures ModuleDeploymentId("a-b", "c") != ModuleDeploymentId("a", "b-c")
    ensures DeduceAppId(ModuleDeploymentId("a-b", "c")) == DeduceAppId(ModuleDeploymentId("a", "b-c"))
  {
  }

  /** App ids are unambiguous among modules whose groups hold no dash. */
  lemma AppIdInjective(x: ModuleDeploymentId, y: ModuleDeploymentId)
    requires '-' !in x.group && '-' !in y.group
    requires DeduceAppId(x) == DeduceAppId(y)
    ensures x == y
  {
  }

  /** The module marker `deploy` stores in the app environment: `group:label`. */
  function EncodeMarker(id: ModuleDeploymentId): (marker: string)
    ensures |marker| == |id.group| + 1 + |id.moduleLabel|
    ensures marker[..|id.group|] == id.group
    ensures marker[|id.group|] == ':'
    ensures marker[|id.group| + 1..] == id.moduleLabel
  {
    id.group + ":" + id.moduleLabel
  }

  /**
   * The identity `status()` reads from a marker: the text before and after
   * the first colon. Without a colon, `substring(0, -1)` throws.
   */
  function ParseMarker(marker: string): (r: Result<ModuleDeploymentId, DeployerError>)
    ensures r.Err? <==> ':' !in marker
    ensures r.Err? ==> r.error == StringIndexOutOfBounds(marker)
    ensures r.Ok? ==> ':' !in r.value.group && EncodeMarker(r.value) == marker
  {
    var colon := IndexOf(marker, ':');
    if colon < 0 then
      Err(StringIndexOutOfBounds(marker))
    else
      assert marker == marker[..colon] + ":" + marker[colon + 1..];
      Ok(ModuleDeploymentId(marker[..colon], marker[colon + 1..]))
  }

  /** Parsing a written marker recovers the module identity when the group holds no colon. */
  lemma {:induction false} MarkerRoundTrip(id: ModuleDeploymentId)
    requires ':' !in id.group
    ensures ParseMarker(EncodeMarker(id)) == Ok(id)
  {
    var s := EncodeMarker(id);
    assert s == id.group + [':'] + id.moduleLabel;
    IndexOfJoin(id.group, ':', id.moduleLabel);
    assert s[..|id.group|] == id.group;
    assert s[|id.group| + 1..] == id.moduleLabel;
  }

  /** ... and only then: a colon in the group splits the marker too early. */
  lemma MarkerRoundTripNeedsColonFreeGroup(id: ModuleDeploymentId)
    requires ':' in id.group
    ensures ParseMarker(EncodeMarker(id)) != Ok(id)
  {
  }
}
