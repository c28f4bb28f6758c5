/**
 * The graph queries of the first, single-pass variant of the add-on: find the
 * material output, find the shader feeding it, list the shader inputs that can
 * be baked, and report them.  Each of them only reads the material's node tree.
 */
module BakeTextureScript {
  import opened NodeGraph

  /**
   * The position of the first material-output node at or after position `k`
   * of the enumeration order (the search loop with its `break`).
   */
  function FirstOutputFrom(t: NodeTree, k: nat): (r: Option<nat>)
    requires k <= |t.order|
    ensures r.Some? ==> k <= r.value < |t.order| && IsOutputNode(t, t.order[r.value])
    ensures r.Some? ==> forall j :: k <= j < r.value ==> !IsOutputNode(t, t.order[j])
    ensures r.None? ==> forall j :: k <= j < |t.order| ==> !IsOutputNode(t, t.order[j])
    decreases |t.order| - k
  {
    if k == |t.order| then None
    else if IsOutputNode(t, t.order[k]) then Some(k)
    else FirstOutputFrom(t, k + 1)
  }

  /** Position `i` holds a material-output node and no earlier position does. */
  ghost predicate IsFirstOutput(t: NodeTree, i: int) {
    0 <= i < |t.order| && IsOutputNode(t, t.order[i]) &&
    forall j :: 0 <= j < i ==> !IsOutputNode(t, t.order[j])
  }

  /** The first node of type OUTPUT_MATERIAL in enumeration order, if any. */
  function GetMaterialOutput(t: NodeTree): (r: Option<NodeId>)
    ensures r.None? <==> forall j :: 0 <= j < |t.order| ==> !IsOutputNode(t, t.order[j])
    ensures r.Some? ==> exists i :: IsFirstOutput(t, i) && t.order[i] == r.value
  {
    match FirstOutputFrom(t, 0)
    case None => None
    case Some(i) => Some(t.order[i])
  }

  /** The node whose output feeds input 0 of the material output, if both exist. */
  function GetMaterialShader(t: NodeTree): (r: Option<NodeId>)
    ensures r.Some? ==> GetMaterialOutput(t).Some?
  {
    var output := GetMaterialOutput(t);
    if output.Some? && IsLinked(t, Socket(output.value, 0)) then
      Some(t.links[Socket(output.value, 0)].node)
    else
      None
  }

  /**
   * The shader is the node linked into input 0 of the FIRST material-output
   * node, and there is none when that input is unlinked.
   */
  lemma ShaderFeedsFirstOutput(t: NodeTree, i: int)
    requires IsFirstOutput(t, i)
    ensures GetMaterialOutput(t) == Some(t.order[i])
    ensures IsLinked(t, Socket(t.order[i], 0)) ==>
              GetMaterialShader(t) == Some(t.links[Socket(t.order[i], 0)].node)
    ensures !IsLinked(t, Socket(t.order[i], 0)) ==> GetMaterialShader(t).None?
  {
  }

  /** With no material-output node there is no shader and nothing to bake. */
  lemma NoOutputNothingToBake(t: NodeTree)
    requires forall j :: 0 <= j < |t.order| ==> !IsOutputNode(t, t.order[j])
    ensures GetMaterialShader(t).None?
    ensures GetBakeList(t) == []
  {
    assert GetMaterialOutput(t).None?;
  }

  /** The names of the linked inputs among the first `k` inputs of `shader`, in order. */
  function LinkedInputNames(t: NodeTree, shader: NodeId, k: nat): (r: seq<string>)
    requires k <= |InputsOf(t, shader)|
    ensures |r| <= k
    ensures forall m :: 0 <= m < |r| ==> r[m] in InputsOf(t, shader)[..k]
  {
    if k == 0 then []
    else
      var before := LinkedInputNames(t, shader, k - 1);
      var name := InputsOf(t, shader)[k - 1];
      assert InputsOf(t, shader)[..k] == InputsOf(t, shader)[..k - 1] + [name];
      if IsLinked(t, Socket(shader, k - 1)) then before + [name] else before
  }

  /** The names of the shader's linked inputs, in declaration order. */
  function GetBakeList(t: NodeTree): (r: seq<string>)
    ensures GetMaterialShader(t).None? ==> r == []
    ensures GetMaterialShader(t).Some? ==> |r| <= |InputsOf(t, GetMaterialShader(t).value)|
    ensures forall m :: 0 <= m < |r| ==> r[m] in InputsOf(t, GetMaterialShader(t).value)
  {
    var shader := GetMaterialShader(t);
    if shader.None? then []
    else LinkedInputNames(t, shader.value, |InputsOf(t, shader.value)|)
  }

  /**
   * The script's entry point returns right after reporting the bake list: the
   * copy, bake and cleanup that follow the `return` never run, so the only
   * effect is one report line per bakeable input.
   */
  function BakeTextures(t: NodeTree): (report: seq<string>)
    ensures |report| == |GetBakeList(t)|
    ensures forall m :: 0 <= m < |report| ==> report[m] == "can bake " + GetBakeList(t)[m]
  {
    var bakeList := GetBakeList(t);
    seq(|bakeList|, m requires 0 <= m < |bakeList| => "can bake " + bakeList[m])
  }
}
