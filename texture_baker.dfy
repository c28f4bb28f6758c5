/**
 * The `TextureBaker` of the modal add-on: it copies the object and its
 * material, builds the list of shader inputs to bake, bakes them one per call
 * (adding an image-texture node and routing the input's source straight into
 * the material output), and finally rewires the baked textures into the
 * shader, deletes every node it no longer needs and lays the rest out.
 */
module Baker {
  import opened NodeGraph
  import BakeTextureScript

  const NODE_SPACING := 50
  const LAYOUT_ORIGIN := 100
  const BAKED_SUFFIX := "_baked"

  /** One pending bake: the shader input's name and its position among the shader's inputs. */
  datatype BakeJob = BakeJob(name: string, index: nat)

  /** A finished bake: the job's name and index, and the image-texture node baked into. */
  datatype BakedTextureRecord = BakedTextureRecord(name: string, index: nat, textureNode: NodeId)

  /** The jobs for the linked inputs among the first `k` inputs of `shader`, in input order. */
  function JobsUpTo(t: NodeTree, shader: NodeId, k: nat): (r: seq<BakeJob>)
    requires k <= |InputsOf(t, shader)|
    ensures |r| <= k
    ensures forall m :: 0 <= m < |r| ==> r[m].index < k
  {
    if k == 0 then []
    else
      var before := JobsUpTo(t, shader, k - 1);
      if IsLinked(t, Socket(shader, k - 1)) then before + [BakeJob(InputsOf(t, shader)[k - 1], k - 1)]
      else before
  }

  /** The bake list of a material whose output shader is `shader`. */
  function BakeJobs(t: NodeTree, shader: Option<NodeId>): (r: seq<BakeJob>) {
    if shader.None? then [] else JobsUpTo(t, shader.value, |InputsOf(t, shader.value)|)
  }

  /** Each job's input comes strictly after the previous job's. */
  ghost predicate Ascending(jobs: seq<BakeJob>) {
    forall i, j :: 0 <= i < j < |jobs| ==> jobs[i].index < jobs[j].index
  }

  /** Every job of the bake list is a linked shader input, named after that input. */
  lemma {:induction false} JobsAreLinkedInputs(t: NodeTree, shader: NodeId, k: nat)
    requires k <= |InputsOf(t, shader)|
    ensures forall m :: 0 <= m < |JobsUpTo(t, shader, k)| ==>
      IsLinked(t, Socket(shader, JobsUpTo(t, shader, k)[m].index)) &&
      JobsUpTo(t, shader, k)[m].name == InputsOf(t, shader)[JobsUpTo(t, shader, k)[m].index]
  {
    if k > 0 {
      JobsAreLinkedInputs(t, shader, k - 1);
      var before := JobsUpTo(t, shader, k - 1);
      var r := JobsUpTo(t, shader, k);
      forall m | 0 <= m < |r|
        ensures IsLinked(t, Socket(shader, r[m].index)) && r[m].name == InputsOf(t, shader)[r[m].index]
      {
        if m < |before| {
          assert r[m] == before[m];
        }
      }
    }
  }

  /** The bake list is in ascending input order. */
  lemma {:induction false} JobsAreInInputOrder(t: NodeTree, shader: NodeId, k: nat)
    requires k <= |InputsOf(t, shader)|
    ensures Ascending(JobsUpTo(t, shader, k))
  {
    if k > 0 {
      JobsAreInInputOrder(t, shader, k - 1);
      var before := JobsUpTo(t, shader, k - 1);
      var r := JobsUpTo(t, shader, k);
      forall i, j | 0 <= i < j < |r| ensures r[i].index < r[j].index {
        assert r[i] == before[i];
        if j < |before| {
          assert r[j] == before[j];
        }
      }
    }
  }

  /** Some job of `jobs` is for shader input `i`. */
  ghost predicate HasJobFor(jobs: seq<BakeJob>, i: int) {
    exists m :: 0 <= m < |jobs| && jobs[m].index == i
  }

  /** No linked shader input is skipped: each has a job in the bake list. */
  lemma {:induction false} LinkedInputsHaveJobs(t: NodeTree, shader: NodeId, k: nat)
    requires k <= |InputsOf(t, shader)|
    ensures forall i :: 0 <= i < k && IsLinked(t, Socket(shader, i)) ==> HasJobFor(JobsUpTo(t, shader, k), i)
  {
    if k > 0 {
      LinkedInputsHaveJobs(t, shader, k - 1);
      var before := JobsUpTo(t, shader, k - 1);
      var r := JobsUpTo(t, shader, k);
      forall i | 0 <= i < k && IsLinked(t, Socket(shader, i))
        ensures HasJobFor(r, i)
      {
        if i < k - 1 {
          assert HasJobFor(before, i);
          var m :| 0 <= m < |before| && before[m].index == i;
          assert r[m] == before[m];
        } else {
          assert r == before + [BakeJob(InputsOf(t, shader)[k - 1], k - 1)];
          assert r[|before|].index == i;
        }
      }
    }
  }

  /** The bake list depends only on the shader's inputs and the links. */
  lemma {:induction false} JobsUpToFrame(t1: NodeTree, t2: NodeTree, shader: NodeId, k: nat)
    requires t1.links == t2.links && InputsOf(t1, shader) == InputsOf(t2, shader)
    requires k <= |InputsOf(t1, shader)|
    ensures JobsUpTo(t1, shader, k) == JobsUpTo(t2, shader, k)
  {
    if k > 0 {
      JobsUpToFrame(t1, t2, shader, k - 1);
    }
  }

  function Names(jobs: seq<BakeJob>): (r: seq<string>)
    ensures |r| == |jobs|
    ensures forall m :: 0 <= m < |jobs| ==> r[m] == jobs[m].name
  {
    seq(|jobs|, m requires 0 <= m < |jobs| => jobs[m].name)
  }

  lemma {:induction false} JobNamesAreLinkedInputNames(t: NodeTree, shader: NodeId, k: nat)
    requires k <= |InputsOf(t, shader)|
    ensures Names(JobsUpTo(t, shader, k)) == BakeTextureScript.LinkedInputNames(t, shader, k)
  {
    if k > 0 {
      JobNamesAreLinkedInputNames(t, shader, k - 1);
    }
  }

  /**
   * Cross-check with the earlier script: the names of the jobs the class
   * builds are exactly the script's bake list for the same material.
   */
  lemma BakeListAgreesWithScript(t: NodeTree)
    ensures Names(BakeJobs(t, BakeTextureScript.GetMaterialShader(t))) == BakeTextureScript.GetBakeList(t)
  {
    var shader := BakeTextureScript.GetMaterialShader(t);
    if shader.Some? {
      JobNamesAreLinkedInputNames(t, shader.value, |InputsOf(t, shader.value)|);
    }
  }

  /** The distance from the top of the texture column down to the top of the node after `ns`. */
  function StackHeight(nodes: map<NodeId, Node>, ns: seq<NodeId>): (r: int)
    requires forall m :: 0 <= m < |ns| ==> ns[m] in nodes
  {
    if ns == [] then 0
    else StackHeight(nodes, ns[..|ns| - 1]) + nodes[ns[|ns| - 1]].height + NODE_SPACING
  }

  /** The width of the widest node of `ns`, and 0 when there is none. */
  function MaxTextureWidth(nodes: map<NodeId, Node>, ns: seq<NodeId>): (w: int)
    requires forall m :: 0 <= m < |ns| ==> ns[m] in nodes
    ensures w >= 0
    ensures forall m :: 0 <= m < |ns| ==> nodes[ns[m]].width <= w
    ensures w == 0 || exists m :: 0 <= m < |ns| && nodes[ns[m]].width == w
  {
    if ns == [] then 0
    else
      var before := MaxTextureWidth(nodes, ns[..|ns| - 1]);
      var last := nodes[ns[|ns| - 1]].width;
      assert forall m :: 0 <= m < |ns| - 1 ==> ns[..|ns| - 1][m] == ns[m];
      if before < last then last else before
  }

  /**
   * Stacked texture nodes never overlap: every node lies below the bottom of
   * each node stacked before it, by at least the spacing.
   */
  lemma {:induction false} StackedNodesDoNotOverlap(nodes: map<NodeId, Node>, ns: seq<NodeId>, i: nat, j: nat)
    requires forall m :: 0 <= m < |ns| ==> ns[m] in nodes && nodes[ns[m]].height >= 0
    requires i < j <= |ns|
    ensures StackHeight(nodes, ns[..j]) >= StackHeight(nodes, ns[..i]) + nodes[ns[i]].height + NODE_SPACING
  {
    assert ns[..j][..j - 1] == ns[..j - 1];
    if j == i + 1 {
    } else {
      StackedNodesDoNotOverlap(nodes, ns, i, j - 1);
    }
  }

  /** The texture nodes of the records, in order. */
  function TextureNodes(records: seq<BakedTextureRecord>): (r: seq<NodeId>)
    ensures |r| == |records|
  {
    if records == [] then [] else TextureNodes(records[..|records| - 1]) + [records[|records| - 1].textureNode]
  }

  /** The jobs the records were baked from, in order. */
  function JobsOf(records: seq<BakedTextureRecord>): (r: seq<BakeJob>)
    ensures |r| == |records|
  {
    if records == [] then [] else JobsOf(records[..|records| - 1]) + [JobOf(records[|records| - 1])]
  }

  function JobOf(record: BakedTextureRecord): (r: BakeJob) {
    BakeJob(record.name, record.index)
  }

  lemma {:induction false} RecordsAt(records: seq<BakedTextureRecord>)
    ensures forall i :: 0 <= i < |records| ==>
      TextureNodes(records)[i] == records[i].textureNode && JobsOf(records)[i] == JobOf(records[i])
  {
    if records != [] {
      var n := |records| - 1;
      RecordsAt(records[..n]);
      assert forall i :: 0 <= i < n ==> records[..n][i] == records[i];
    }
  }

  lemma RecordsAppend(records: seq<BakedTextureRecord>, record: BakedTextureRecord)
    ensures TextureNodes(records + [record]) == TextureNodes(records) + [record.textureNode]
    ensures JobsOf(records + [record]) == JobsOf(records) + [JobOf(record)]
  {
    assert (records + [record])[..|records|] == records;
  }

  /**
   * The nodes the baker tracks are pairwise distinct: the material output, the
   * output shader, the UV node and every baked texture node.  (The shader is
   * never the material output because no link starts at a material output.)
   */
  ghost predicate DistinctNodes(out: Option<NodeId>, shader: Option<NodeId>, uv: NodeId,
                                records: seq<BakedTextureRecord>) {
    (out.Some? ==> out.value != uv) &&
    (shader.Some? ==> out.Some? && shader.value != out.value && shader.value != uv) &&
    (forall i, j :: 0 <= i < j < |records| ==> records[i].textureNode != records[j].textureNode) &&
    forall i :: 0 <= i < |records| ==>
      records[i].textureNode != uv && Some(records[i].textureNode) != out && Some(records[i].textureNode) != shader
  }

  /** Every node the baker tracks is a node of the tree. */
  ghost predicate TrackedInTree(t: NodeTree, out: Option<NodeId>, shader: Option<NodeId>, uv: NodeId,
                                records: seq<BakedTextureRecord>) {
    WellFormed(t) && uv in t.nodes &&
    (out.Some? ==> out.value in t.nodes) && (shader.Some? ==> shader.value in t.nodes) &&
    forall i :: 0 <= i < |records| ==> records[i].textureNode in t.nodes
  }

  /**
   * The baker's bookkeeping, with `planned` the bake list as first built and
   * `pending` the jobs not yet baked: the tracked nodes are distinct and in
   * the tree, the baked jobs followed by the pending ones are exactly the
   * planned jobs, and there is an output shader when anything was planned.
   */
  ghost predicate Consistent(t: NodeTree, out: Option<NodeId>, shader: Option<NodeId>, uv: NodeId,
                             records: seq<BakedTextureRecord>, pending: seq<BakeJob>, planned: seq<BakeJob>) {
    DistinctNodes(out, shader, uv, records) && TrackedInTree(t, out, shader, uv, records) &&
    JobsOf(records) + pending == planned && (planned != [] ==> shader.Some?)
  }

  /** The shader input of every pending job is linked. */
  ghost predicate PendingLinked(t: NodeTree, shader: Option<NodeId>, pending: seq<BakeJob>) {
    forall k :: 0 <= k < |pending| ==> shader.Some? && IsLinked(t, Socket(shader.value, pending[k].index))
  }

  /**
   * The links cleanup restores: the shader feeds the material output, every
   * baked texture feeds the shader input it was baked from, and the UV node
   * feeds every baked texture.
   */
  ghost predicate RelinkedIn(t: NodeTree, out: Option<NodeId>, shader: Option<NodeId>, uv: NodeId,
                             records: seq<BakedTextureRecord>) {
    out.Some? && shader.Some? &&
    Socket(out.value, 0) in t.links && t.links[Socket(out.value, 0)] == Socket(shader.value, 0) &&
    RecordsRelinked(t, shader.value, uv, records, |records|)
  }

  /**
   * The state `prep_for_baking` sets up is consistent, its bake list is in
   * ascending input order, and every job of it is a linked shader input;
   * adding the UV node leaves the bake list as it was.
   */
  lemma InitiallyConsistent(t: NodeTree, uv: NodeId, n: Node)
    requires WellFormed(t) && NoLinksFromOutputs(t) && uv !in t.nodes
    ensures var shader := BakeTextureScript.GetMaterialShader(t);
      BakeJobs(AddNode(t, uv, n), shader) == BakeJobs(t, shader)
    ensures var out := BakeTextureScript.GetMaterialOutput(t);
      var shader := BakeTextureScript.GetMaterialShader(t);
      var t2 := AddNode(t, uv, n);
      var jobs := BakeJobs(t, shader);
      Consistent(t2, out, shader, uv, [], jobs, jobs) && PendingLinked(t2, shader, jobs) && Ascending(jobs)
  {
    var out := BakeTextureScript.GetMaterialOutput(t);
    var shader := BakeTextureScript.GetMaterialShader(t);
    var t2 := AddNode(t, uv, n);
    if out.Some? {
      var i :| BakeTextureScript.IsFirstOutput(t, i) && t.order[i] == out.value;
      BakeTextureScript.ShaderFeedsFirstOutput(t, i);
    }
    if shader.Some? {
      var s := shader.value;
      assert s in t.nodes;
      assert InputsOf(t2, s) == InputsOf(t, s);
      JobsUpToFrame(t, t2, s, |InputsOf(t, s)|);
      JobsAreLinkedInputs(t2, s, |InputsOf(t2, s)|);
      JobsAreInInputOrder(t2, s, |InputsOf(t2, s)|);
    }
  }

  /** The recorded inputs are distinct, in fact ascending, because the planned jobs are. */
  lemma RecordIndicesAscend(records: seq<BakedTextureRecord>, pending: seq<BakeJob>, planned: seq<BakeJob>)
    requires JobsOf(records) + pending == planned && Ascending(planned)
    ensures forall i, j :: 0 <= i < j < |records| ==> records[i].index < records[j].index
  {
    RecordsAt(records);
    forall i, j | 0 <= i < j < |records| ensures records[i].index < records[j].index {
      assert planned[i] == JobOf(records[i]) && planned[j] == JobOf(records[j]);
    }
  }

  /** `kept` lists only nodes of the tree, and among them every node the baker tracks. */
  ghost predicate KeepsTracked(t: NodeTree, kept: seq<NodeId>, out: Option<NodeId>, shader: Option<NodeId>, uv: NodeId,
                               records: seq<BakedTextureRecord>) {
    (forall i :: 0 <= i < |kept| ==> kept[i] in t.nodes) &&
    uv in kept && (out.Some? ==> out.value in kept) && (shader.Some? ==> shader.value in kept) &&
    forall i :: 0 <= i < |records| ==> records[i].textureNode in kept
  }

  /** A new tree that keeps every node of the old one keeps the invariant. */
  lemma ConsistentInLargerTree(t1: NodeTree, t2: NodeTree, out: Option<NodeId>, shader: Option<NodeId>, uv: NodeId,
                               records: seq<BakedTextureRecord>, pending: seq<BakeJob>, planned: seq<BakeJob>)
    requires Consistent(t1, out, shader, uv, records, pending, planned)
    requires WellFormed(t2) && t1.nodes.Keys <= t2.nodes.Keys
    ensures Consistent(t2, out, shader, uv, records, pending, planned)
  {
  }

  /** A record whose texture node is new to the tree keeps the tracked nodes distinct. */
  lemma NewRecordKeepsDistinct(t: NodeTree, out: Option<NodeId>, shader: Option<NodeId>, uv: NodeId,
                               records: seq<BakedTextureRecord>, record: BakedTextureRecord)
    requires DistinctNodes(out, shader, uv, records) && TrackedInTree(t, out, shader, uv, records)
    requires record.textureNode !in t.nodes
    ensures DistinctNodes(out, shader, uv, records + [record])
  {
    var rs := records + [record];
    forall i, j | 0 <= i < j < |rs| ensures rs[i].textureNode != rs[j].textureNode {
      assert rs[i] == records[i];
      if j < |records| {
        assert rs[j] == records[j];
      }
    }
  }

  /** A record whose texture node is in the larger tree keeps the tracked nodes in it. */
  lemma NewRecordKeepsTracked(t1: NodeTree, t2: NodeTree, out: Option<NodeId>, shader: Option<NodeId>, uv: NodeId,
                              records: seq<BakedTextureRecord>, record: BakedTextureRecord)
    requires TrackedInTree(t1, out, shader, uv, records)
    requires WellFormed(t2) && t1.nodes.Keys <= t2.nodes.Keys && record.textureNode in t2.nodes
    ensures TrackedInTree(t2, out, shader, uv, records + [record])
  {
    var rs := records + [record];
    assert forall i :: 0 <= i < |records| ==> rs[i] == records[i];
  }

  /**
   * One bake step keeps the invariant: the front job moves to the records
   * with a texture node new to the tree, and the rest stay pending and linked.
   */
  lemma BakeKeepsConsistent(t1: NodeTree, t2: NodeTree, out: Option<NodeId>, shader: Option<NodeId>, uv: NodeId,
                            records: seq<BakedTextureRecord>, job: BakeJob, pending: seq<BakeJob>,
                            planned: seq<BakeJob>, node: NodeId)
    requires Consistent(t1, out, shader, uv, records, [job] + pending, planned)
    requires PendingLinked(t1, shader, [job] + pending)
    requires node !in t1.nodes && node in t2.nodes && WellFormed(t2)
    requires t1.nodes.Keys <= t2.nodes.Keys && t1.links.Keys <= t2.links.Keys
    ensures Consistent(t2, out, shader, uv, records + [BakedTextureRecord(job.name, job.index, node)], pending, planned)
    ensures PendingLinked(t2, shader, pending)
  {
    var record := BakedTextureRecord(job.name, job.index, node);
    NewRecordKeepsDistinct(t1, out, shader, uv, records, record);
    NewRecordKeepsTracked(t1, t2, out, shader, uv, records, record);
    NewRecordKeepsPlan(records, job, pending, planned, node);
    RestStayLinked(t1, t2, shader, job, pending);
  }

  lemma NewRecordKeepsPlan(records: seq<BakedTextureRecord>, job: BakeJob, pending: seq<BakeJob>,
                           planned: seq<BakeJob>, node: NodeId)
    requires JobsOf(records) + ([job] + pending) == planned
    ensures JobsOf(records + [BakedTextureRecord(job.name, job.index, node)]) + pending == planned
  {
    RecordsAppend(records, BakedTextureRecord(job.name, job.index, node));
    assert JobsOf(records) + [job] + pending == JobsOf(records) + ([job] + pending);
  }

  lemma RestStayLinked(t1: NodeTree, t2: NodeTree, shader: Option<NodeId>, job: BakeJob, pending: seq<BakeJob>)
    requires PendingLinked(t1, shader, [job] + pending) && t1.links.Keys <= t2.links.Keys
    ensures PendingLinked(t2, shader, pending)
  {
    if pending != [] {
      assert ([job] + pending)[0] == job;
      assert shader.Some?;
      var sh := shader.value;
      forall k | 0 <= k < |pending| ensures IsLinked(t2, Socket(sh, pending[k].index)) {
        var all := [job] + pending;
        assert all[k + 1] == pending[k];
        assert IsLinked(t1, Socket(sh, all[k + 1].index));
        assert Socket(sh, pending[k].index) in t1.links.Keys;
      }
    }
  }

  /** Cleanup's deletion keeps the invariant when every tracked node survives it. */
  lemma RemoveKeepsConsistent(t: NodeTree, kept: seq<NodeId>, out: Option<NodeId>, shader: Option<NodeId>, uv: NodeId,
                              records: seq<BakedTextureRecord>, pending: seq<BakeJob>, planned: seq<BakeJob>)
    requires Consistent(t, out, shader, uv, records, pending, planned)
    requires KeepsTracked(t, kept, out, shader, uv, records)
    ensures Consistent(RemoveAllBut(t, kept), out, shader, uv, records, pending, planned)
  {
    RemoveAllButWellFormed(t, kept);
  }

  /** Deleting nodes other than the tracked ones keeps the restored links. */
  lemma RemoveKeepsRelinked(t: NodeTree, kept: seq<NodeId>, out: Option<NodeId>, shader: Option<NodeId>, uv: NodeId,
                            records: seq<BakedTextureRecord>)
    requires RelinkedIn(t, out, shader, uv, records) && TrackedInTree(t, out, shader, uv, records)
    requires KeepsTracked(t, kept, out, shader, uv, records)
    ensures RelinkedIn(RemoveAllBut(t, kept), out, shader, uv, records)
  {
  }

  /** Moving nodes keeps the invariant and the restored links. */
  lemma MoveKeepsConsistent(t1: NodeTree, t2: NodeTree, out: Option<NodeId>, shader: Option<NodeId>, uv: NodeId,
                            records: seq<BakedTextureRecord>, pending: seq<BakeJob>, planned: seq<BakeJob>)
    requires Consistent(t1, out, shader, uv, records, pending, planned) && SameShape(t1, t2)
    ensures Consistent(t2, out, shader, uv, records, pending, planned)
    ensures RelinkedIn(t1, out, shader, uv, records) ==> RelinkedIn(t2, out, shader, uv, records)
  {
  }

  /** `unused_node`: neither one of the kept nodes nor a baked texture node. */
  function Unused(keep: seq<Option<NodeId>>, baked: seq<NodeId>, id: NodeId): (r: bool)
    ensures r <==> (forall k :: 0 <= k < |keep| ==> keep[k] != Some(id)) && (forall k :: 0 <= k < |baked| ==> baked[k] != id)
  {
    Some(id) !in keep && id !in baked
  }

  /** The nodes of `ns` that cleanup keeps, in their original order. */
  function Survivors(ns: seq<NodeId>, keep: seq<Option<NodeId>>, baked: seq<NodeId>): (r: seq<NodeId>)
    ensures forall id :: id in r <==> id in ns && !Unused(keep, baked, id)
    ensures |r| <= |ns|
  {
    if ns == [] then []
    else
      var before := Survivors(ns[..|ns| - 1], keep, baked);
      var last := ns[|ns| - 1];
      assert ns == ns[..|ns| - 1] + [last];
      if Unused(keep, baked, last) then before else before + [last]
  }

  /** Every node the baker tracks survives the deletion of unused nodes. */
  lemma TrackedSurvive(t: NodeTree, out: Option<NodeId>, shader: Option<NodeId>, uv: NodeId,
                       records: seq<BakedTextureRecord>)
    requires TrackedInTree(t, out, shader, uv, records)
    ensures KeepsTracked(t, Survivors(t.order, [out, shader, Some(uv)], TextureNodes(records)), out, shader, uv, records)
  {
    var keep := [out, shader, Some(uv)];
    var baked := TextureNodes(records);
    var kept := Survivors(t.order, keep, baked);
    forall i | 0 <= i < |kept| ensures kept[i] in t.nodes {
      var id: NodeId := kept[i];
      assert id in kept;
      var j :| 0 <= j < |t.order| && t.order[j] == id;
    }
    assert keep[2] == Some(uv);
    if out.Some? {
      var o: NodeId := out.value;
      assert o in t.nodes && keep[0] == Some(o);
    }
    if shader.Some? {
      var s: NodeId := shader.value;
      assert s in t.nodes && keep[1] == Some(s);
    }
    RecordsAt(records);
    forall i | 0 <= i < |records| ensures records[i].textureNode in kept {
      var id: NodeId := records[i].textureNode;
      assert id in t.nodes && id == baked[i];
    }
  }

  /** The first `i` records are linked back in: texture into its shader input, UV node into the texture. */
  ghost predicate RecordsRelinked(r: NodeTree, shader: NodeId, uv: NodeId, records: seq<BakedTextureRecord>, i: nat)
    requires i <= |records|
  {
    forall j :: 0 <= j < i ==>
      Socket(shader, records[j].index) in r.links &&
      r.links[Socket(shader, records[j].index)] == Socket(records[j].textureNode, 0) &&
      Socket(records[j].textureNode, 0) in r.links &&
      r.links[Socket(records[j].textureNode, 0)] == Socket(uv, 0)
  }

  /**
   * The input sockets that relinking the first `i` records writes: input 0 of
   * the material output, and for each record its shader input and input 0 of
   * its texture.
   */
  ghost predicate RelinkTarget(s: Socket, out: NodeId, shader: NodeId, records: seq<BakedTextureRecord>, i: nat)
    requires i <= |records|
  {
    if i == 0 then s == Socket(out, 0)
    else
      RelinkTarget(s, out, shader, records, i - 1) ||
      s == Socket(shader, records[i - 1].index) || s == Socket(records[i - 1].textureNode, 0)
  }

  /**
   * Every input of `r` other than the targets of the first `i` records is
   * linked exactly as in `t`: no other link is added, removed or re-sourced.
   */
  ghost predicate OtherLinksKept(t: NodeTree, r: NodeTree, out: NodeId, shader: NodeId,
                                 records: seq<BakedTextureRecord>, i: nat)
    requires i <= |records|
  {
    (forall s :: s in r.links ==> s in t.links || RelinkTarget(s, out, shader, records, i)) &&
    (forall s :: s in t.links && !RelinkTarget(s, out, shader, records, i) ==> s in r.links && r.links[s] == t.links[s])
  }

  /** Relinking record `i` keeps the links already restored, and the shader's link into the output. */
  lemma RelinkStep(r: NodeTree, out: NodeId, shader: NodeId, uv: NodeId, records: seq<BakedTextureRecord>, i: nat)
    requires i < |records|
    requires DistinctNodes(Some(out), Some(shader), uv, records)
    requires forall i, j :: 0 <= i < j < |records| ==> records[i].index < records[j].index
    requires RecordsRelinked(r, shader, uv, records, i)
    requires Socket(out, 0) in r.links && r.links[Socket(out, 0)] == Socket(shader, 0)
    ensures var r2 := Connect(Connect(r, Socket(records[i].textureNode, 0), Socket(shader, records[i].index)),
                              Socket(uv, 0), Socket(records[i].textureNode, 0));
      RecordsRelinked(r2, shader, uv, records, i + 1) &&
      Socket(out, 0) in r2.links && r2.links[Socket(out, 0)] == Socket(shader, 0)
  {
  }

  /** Relinking record `i` writes only its two target inputs. */
  lemma OtherLinksStep(t: NodeTree, r: NodeTree, out: NodeId, shader: NodeId, uv: NodeId,
                        records: seq<BakedTextureRecord>, i: nat)
    requires i < |records|
    requires OtherLinksKept(t, r, out, shader, records, i)
    ensures OtherLinksKept(t, Connect(Connect(r, Socket(records[i].textureNode, 0), Socket(shader, records[i].index)),
                                      Socket(uv, 0), Socket(records[i].textureNode, 0)),
                           out, shader, records, i + 1)
  {
  }

  /** Relinking the shader into the material output writes only that input. */
  lemma OtherLinksStart(t: NodeTree, out: NodeId, shader: NodeId, records: seq<BakedTextureRecord>)
    ensures OtherLinksKept(t, Connect(t, Socket(shader, 0), Socket(out, 0)), out, shader, records, 0)
  {
  }

  /**
   * The state of relinking after the first `i` records: nodes untouched, no
   * link lost, the tree well formed, the shader back into the material
   * output, the first `i` records linked back in, and every other input
   * linked as before.
   */
  ghost predicate RelinkedUpTo(t: NodeTree, r: NodeTree, out: NodeId, shader: NodeId, uv: NodeId,
                               records: seq<BakedTextureRecord>, i: nat)
    requires i <= |records|
  {
    r.order == t.order && r.nodes == t.nodes && r.locations == t.locations &&
    t.links.Keys <= r.links.Keys && WellFormed(r) &&
    Socket(out, 0) in r.links && r.links[Socket(out, 0)] == Socket(shader, 0) &&
    RecordsRelinked(r, shader, uv, records, i) && OtherLinksKept(t, r, out, shader, records, i)
  }

  /** One iteration of the relinking loop, on record `i`. */
  lemma RelinkIteration(t: NodeTree, r: NodeTree, out: NodeId, shader: NodeId, uv: NodeId,
                        records: seq<BakedTextureRecord>, i: nat)
    requires TrackedInTree(t, Some(out), Some(shader), uv, records)
    requires DistinctNodes(Some(out), Some(shader), uv, records)
    requires forall i, j :: 0 <= i < j < |records| ==> records[i].index < records[j].index
    requires i < |records| && RelinkedUpTo(t, r, out, shader, uv, records, i)
    ensures RelinkedUpTo(t, Connect(Connect(r, Socket(records[i].textureNode, 0), Socket(shader, records[i].index)),
                                    Socket(uv, 0), Socket(records[i].textureNode, 0)),
                         out, shader, uv, records, i + 1)
  {
    RelinkStep(r, out, shader, uv, records, i);
    OtherLinksStep(t, r, out, shader, uv, records, i);
  }

  /**
   * The relinking half of cleanup: the shader back into input 0 of the
   * material output, each baked texture into the shader input it was baked
   * from, and the UV node into each baked texture.  Every other input keeps
   * its link, and no node changes.
   */
  method Relink(t: NodeTree, out: NodeId, shader: NodeId, uv: NodeId, records: seq<BakedTextureRecord>)
    returns (r: NodeTree)
    requires TrackedInTree(t, Some(out), Some(shader), uv, records)
    requires DistinctNodes(Some(out), Some(shader), uv, records)
    requires forall i, j :: 0 <= i < j < |records| ==> records[i].index < records[j].index
    ensures r.order == t.order && r.nodes == t.nodes && r.locations == t.locations
    ensures t.links.Keys <= r.links.Keys && WellFormed(r)
    ensures RelinkedIn(r, Some(out), Some(shader), uv, records)
    ensures OtherLinksKept(t, r, out, shader, records, |records|)
  {
    // connect shader back to material output
    r := Connect(t, Socket(shader, 0), Socket(out, 0));
    OtherLinksStart(t, out, shader, records);
    // connect uv map to baked texture nodes, and texture nodes to shader
    var i := 0;
    while i < |records|
      invariant 0 <= i <= |records| && RelinkedUpTo(t, r, out, shader, uv, records, i)
    {
      var bakedTextureNode := records[i].textureNode;
      var shaderInput := Socket(shader, records[i].index);
      RelinkIteration(t, r, out, shader, uv, records, i);
      r := Connect(r, Socket(bakedTextureNode, 0), shaderInput);
      r := Connect(r, Socket(uv, 0), Socket(bakedTextureNode, 0));
      i := i + 1;
    }
  }

  /**
   * The deletion half of cleanup: every node that is neither kept nor a
   * baked texture is removed, together with the links that touch it.
   */
  method DeleteUnusedNodes(t: NodeTree, keep: seq<Option<NodeId>>, baked: seq<NodeId>) returns (r: NodeTree)
    ensures r == RemoveAllBut(t, Survivors(t.order, keep, baked))
  {
    var kept: seq<NodeId> := [];
    var i := 0;
    while i < |t.order|
      invariant 0 <= i <= |t.order|
      invariant kept == Survivors(t.order[..i], keep, baked)
    {
      var node := t.order[i];
      if !Unused(keep, baked, node) {
        kept := kept + [node];
      }
      assert t.order[..i + 1][..i] == t.order[..i];
      i := i + 1;
    }
    assert t.order[..i] == t.order;
    r := RemoveAllBut(t, kept);
  }

  /** The x position of the baked-texture column: right of the UV node, plus the spacing. */
  function ColumnX(t: NodeTree, uv: NodeId): (r: int)
    requires uv in t.nodes
  {
    LAYOUT_ORIGIN + t.nodes[uv].width + NODE_SPACING
  }

  /**
   * The final layout: the UV node at the origin, the baked textures stacked
   * downwards in one column to its right, the shader right of the widest
   * texture, and the material output right of the shader, level with it.
   */
  ghost predicate LaidOutIn(t: NodeTree, out: Option<NodeId>, shader: Option<NodeId>, uv: NodeId, baked: seq<NodeId>) {
    out.Some? && shader.Some? &&
    uv in t.nodes && out.value in t.nodes && shader.value in t.nodes &&
    uv in t.locations && out.value in t.locations && shader.value in t.locations &&
    (forall i :: 0 <= i < |baked| ==> baked[i] in t.nodes && baked[i] in t.locations) &&
    t.locations[uv] == Point(LAYOUT_ORIGIN, LAYOUT_ORIGIN) &&
    (forall i :: 0 <= i < |baked| ==>
      t.locations[baked[i]] == Point(ColumnX(t, uv), LAYOUT_ORIGIN - StackHeight(t.nodes, baked[..i]))) &&
    t.locations[shader.value] ==
      Point(ColumnX(t, uv) + MaxTextureWidth(t.nodes, baked) + NODE_SPACING, LAYOUT_ORIGIN) &&
    t.locations[out.value] ==
      Point(t.locations[shader.value].x + t.nodes[shader.value].width + NODE_SPACING, LAYOUT_ORIGIN)
  }

  /**
   * The loop of cleanup that stacks the baked texture nodes in one column at
   * `x`, from the origin downwards, and measures the widest of them.
   */
  method StackColumn(t: NodeTree, baked: seq<NodeId>, x: int) returns (r: NodeTree, maxWidth: int)
    requires forall j :: 0 <= j < |baked| ==> baked[j] in t.nodes && baked[j] in t.locations
    requires forall j, k :: 0 <= j < k < |baked| ==> baked[j] != baked[k]
    ensures SameShape(t, r)
    ensures maxWidth == MaxTextureWidth(t.nodes, baked)
    ensures forall j :: 0 <= j < |baked| ==>
      r.locations[baked[j]] == Point(x, LAYOUT_ORIGIN - StackHeight(t.nodes, baked[..j]))
    ensures forall id :: id in t.locations && id !in baked ==> r.locations[id] == t.locations[id]
  {
    r := t;
    var currentYPos := LAYOUT_ORIGIN;
    maxWidth := 0;
    var i := 0;
    while i < |baked|
      invariant 0 <= i <= |baked|
      invariant SameShape(t, r)
      invariant currentYPos == LAYOUT_ORIGIN - StackHeight(t.nodes, baked[..i])
      invariant maxWidth == MaxTextureWidth(t.nodes, baked[..i])
      invariant forall j :: 0 <= j < i ==>
        r.locations[baked[j]] == Point(x, LAYOUT_ORIGIN - StackHeight(t.nodes, baked[..j]))
      invariant forall id :: id in t.locations && id !in baked ==> r.locations[id] == t.locations[id]
    {
      var bakedTexNode := baked[i];
      r := SetLocation(r, bakedTexNode, Point(x, currentYPos));
      currentYPos := currentYPos - (r.nodes[bakedTexNode].height + NODE_SPACING);
      maxWidth := if maxWidth < r.nodes[bakedTexNode].width then r.nodes[bakedTexNode].width else maxWidth;
      assert baked[..i + 1][..i] == baked[..i];
      i := i + 1;
    }
    assert baked[..i] == baked;
  }

  /**
   * Places the UV node at the origin, the baked-texture column right of it,
   * the shader right of the widest texture and the material output right of
   * the shader.
   */
  method LayOut(t: NodeTree, uv: NodeId, shader: NodeId, output: NodeId, baked: seq<NodeId>) returns (r: NodeTree)
    requires WellFormed(t)
    requires uv in t.nodes && shader in t.nodes && output in t.nodes
    requires uv != shader && uv != output && shader != output
    requires forall j :: 0 <= j < |baked| ==> baked[j] in t.nodes && baked[j] != uv && baked[j] != shader && baked[j] != output
    requires forall j, k :: 0 <= j < k < |baked| ==> baked[j] != baked[k]
    ensures SameShape(t, r)
    ensures LaidOutIn(r, Some(output), Some(shader), uv, baked)
  {
    var currentXPos := LAYOUT_ORIGIN;
    var startingYPos := LAYOUT_ORIGIN;
    r := SetLocation(t, uv, Point(currentXPos, startingYPos));
    currentXPos := currentXPos + r.nodes[uv].width + NODE_SPACING;
    var maxTexNodeWidth;
    r, maxTexNodeWidth := StackColumn(r, baked, currentXPos);
    currentXPos := currentXPos + maxTexNodeWidth + NODE_SPACING;
    // line up the shader and material output nodes
    r := SetLocation(r, shader, Point(currentXPos, startingYPos));
    currentXPos := currentXPos + r.nodes[shader].width + NODE_SPACING;
    r := SetLocation(r, output, Point(currentXPos, startingYPos));
  }

  /**
   * After relinking, deleting nodes and moving nodes, an input outside the
   * relink targets is linked exactly when it was linked before and both ends
   * of its link survive, and then from the same socket as before.
   */
  lemma PrunedLinks(t: NodeTree, relinked: NodeTree, kept: seq<NodeId>, r: NodeTree, out: NodeId, shader: NodeId,
                    records: seq<BakedTextureRecord>)
    requires OtherLinksKept(t, relinked, out, shader, records, |records|)
    requires SameShape(RemoveAllBut(relinked, kept), r)
    ensures forall s :: !RelinkTarget(s, out, shader, records, |records|) ==>
      (s in r.links <==> s in t.links && s.node in r.nodes && t.links[s].node in r.nodes)
    ensures forall s :: s in r.links && !RelinkTarget(s, out, shader, records, |records|) ==>
      s in t.links && r.links[s] == t.links[s]
  {
  }

  /**
   * The work of `clean_up_baked_material` once there is an output shader:
   * relink, delete the unused nodes, lay out what is left.  The surviving
   * nodes are the tracked ones, in their old order and with their old data.
   */
  method CleanUp(t: NodeTree, out: NodeId, shader: NodeId, uv: NodeId, records: seq<BakedTextureRecord>,
                 ghost pending: seq<BakeJob>, ghost planned: seq<BakeJob>) returns (r: NodeTree)
    requires Consistent(t, Some(out), Some(shader), uv, records, pending, planned) && Ascending(planned)
    ensures Consistent(r, Some(out), Some(shader), uv, records, pending, planned)
    ensures RelinkedIn(r, Some(out), Some(shader), uv, records)
    ensures LaidOutIn(r, Some(out), Some(shader), uv, TextureNodes(records))
    ensures r.order == Survivors(t.order, [Some(out), Some(shader), Some(uv)], TextureNodes(records))
    ensures forall id :: id in r.nodes <==>
      id in t.nodes && !Unused([Some(out), Some(shader), Some(uv)], TextureNodes(records), id)
    ensures forall id :: id in r.nodes ==> r.nodes[id] == t.nodes[id]
    ensures forall s :: !RelinkTarget(s, out, shader, records, |records|) ==>
      (s in r.links <==> s in t.links && s.node in r.nodes && t.links[s].node in r.nodes)
    ensures forall s :: s in r.links && !RelinkTarget(s, out, shader, records, |records|) ==>
      s in t.links && r.links[s] == t.links[s]
  {
    var keep, baked := [Some(out), Some(shader), Some(uv)], TextureNodes(records);
    RecordIndicesAscend(records, pending, planned);
    var relinked := Relink(t, out, shader, uv, records);
    ConsistentInLargerTree(t, relinked, Some(out), Some(shader), uv, records, pending, planned);
    var pruned := DeleteUnusedNodes(relinked, keep, baked);
    TrackedSurvive(relinked, Some(out), Some(shader), uv, records);
    RemoveKeepsConsistent(relinked, pruned.order, Some(out), Some(shader), uv, records, pending, planned);
    RemoveKeepsRelinked(relinked, pruned.order, Some(out), Some(shader), uv, records);
    RecordsAt(records);
    r := LayOut(pruned, uv, shader, out, baked);
    MoveKeepsConsistent(pruned, r, Some(out), Some(shader), uv, records, pending, planned);
    PrunedLinks(t, relinked, Survivors(relinked.order, keep, baked), r, out, shader, records);
  }

  /**
   * The host calls of one bake: `node` is added as the last node, at the
   * origin; the UV node feeds its input 0; and the output socket that feeds
   * `shaderInput` now also feeds input 0 of the material output, in place of
   * whatever fed it before.  Nothing else changes.
   */
  function WithBakedTexture(t: NodeTree, uv: NodeId, output: NodeId, shaderInput: Socket, node: NodeId, n: Node)
    : (r: NodeTree)
    requires node !in t.nodes && shaderInput in t.links
    ensures r.order == t.order + [node] && r.nodes == t.nodes[node := n]
    ensures r.locations == t.locations[node := Point(0, 0)]
    ensures r.links == t.links[Socket(node, 0) := Socket(uv, 0)][Socket(output, 0) := t.links[shaderInput]]
    ensures WellFormed(t) && uv in t.nodes && output in t.nodes ==> WellFormed(r)
  {
    NodeTree(t.order + [node], t.nodes[node := n], t.locations[node := Point(0, 0)],
             t.links[Socket(node, 0) := Socket(uv, 0)][Socket(output, 0) := t.links[shaderInput]])
  }

  /** `get_material_output`: the search loop over the node tree, stopping at the first match. */
  method GetMaterialOutput(t: NodeTree) returns (r: Option<NodeId>)
    ensures r == BakeTextureScript.GetMaterialOutput(t)
  {
    r := None;
    var i := 0;
    while i < |t.order|
      invariant 0 <= i <= |t.order|
      invariant forall j :: 0 <= j < i ==> !IsOutputNode(t, t.order[j])
    {
      if IsOutputNode(t, t.order[i]) {
        r := Some(t.order[i]);
        assert BakeTextureScript.IsFirstOutput(t, i);
        BakeTextureScript.ShaderFeedsFirstOutput(t, i);
        return;
      }
      i := i + 1;
    }
  }

  /**
   * The baker's fields agree with each other: the kept nodes are the material
   * output, the output shader and the UV node; the baked texture nodes are
   * those of the records, in order; the planned jobs are in ascending input
   * order; and the bookkeeping is `Consistent` with `pending` as the jobs not
   * yet baked.
   */
  ghost predicate BakerConsistent(t: NodeTree, out: Option<NodeId>, shader: Option<NodeId>, uv: NodeId,
                                  keep: seq<Option<NodeId>>, baked: seq<NodeId>, records: seq<BakedTextureRecord>,
                                  pending: seq<BakeJob>, planned: seq<BakeJob>) {
    keep == [out, shader, Some(uv)] && baked == TextureNodes(records) && Ascending(planned) &&
    Consistent(t, out, shader, uv, records, pending, planned)
  }

  /** Baking the front job keeps the baker consistent, and the rest of the bake list linked. */
  lemma BakeKeepsBakerConsistent(t1: NodeTree, t2: NodeTree, out: Option<NodeId>, shader: Option<NodeId>, uv: NodeId,
                                 keep: seq<Option<NodeId>>, baked: seq<NodeId>, records: seq<BakedTextureRecord>,
                                 job: BakeJob, pending: seq<BakeJob>, planned: seq<BakeJob>, node: NodeId)
    requires BakerConsistent(t1, out, shader, uv, keep, baked, records, [job] + pending, planned)
    requires PendingLinked(t1, shader, [job] + pending)
    requires node !in t1.nodes && node in t2.nodes && WellFormed(t2)
    requires t1.nodes.Keys <= t2.nodes.Keys && t1.links.Keys <= t2.links.Keys
    ensures BakerConsistent(t2, out, shader, uv, keep, baked + [node],
                            records + [BakedTextureRecord(job.name, job.index, node)], pending, planned)
    ensures PendingLinked(t2, shader, pending)
  {
    BakeKeepsConsistent(t1, t2, out, shader, uv, records, job, pending, planned, node);
    RecordsAppend(records, BakedTextureRecord(job.name, job.index, node));
  }

  /** `make_bake_list`: one job per linked input of the output shader, in input order. */
  method MakeBakeList(t: NodeTree, outputShader: Option<NodeId>) returns (bakeList: seq<BakeJob>)
    ensures bakeList == BakeJobs(t, outputShader)
  {
    bakeList := [];
    if outputShader.None? {
      return;
    }
    var shader := outputShader.value;
    var inputs := InputsOf(t, shader);
    var idx := 0;
    while idx < |inputs|
      invariant 0 <= idx <= |inputs|
      invariant bakeList == JobsUpTo(t, shader, idx)
    {
      if IsLinked(t, Socket(shader, idx)) {
        bakeList := bakeList + [BakeJob(inputs[idx], idx)];
      }
      idx := idx + 1;
    }
  }

  /** `get_output_shader`: the node linked into input 0 of the material output, if there is one. */
  function GetOutputShader(t: NodeTree, materialOutput: Option<NodeId>): (r: Option<NodeId>)
    ensures materialOutput == BakeTextureScript.GetMaterialOutput(t) ==> r == BakeTextureScript.GetMaterialShader(t)
    ensures r.Some? <==> materialOutput.Some? && IsLinked(t, Socket(materialOutput.value, 0))
    ensures r.Some? ==> r.value == t.links[Socket(materialOutput.value, 0)].node
  {
    if materialOutput.Some? && IsLinked(t, Socket(materialOutput.value, 0)) then
      Some(t.links[Socket(materialOutput.value, 0)].node)
    else
      None
  }

  class TextureBaker {
    var objName: string
    var materialName: string
    var texDim: int
    /** The node tree of the material copy being baked. */
    var tree: NodeTree
    var materialOutput: Option<NodeId>
    var outputShader: Option<NodeId>
    var materialUvNode: NodeId
    var bakedTextureNodes: seq<NodeId>
    var nodesToKeep: seq<Option<NodeId>>
    var bakeList: seq<BakeJob>
    var previouslyBakedTextureInfo: seq<BakedTextureRecord>
    /** The bake list as `prep_for_baking` built it. */
    ghost var plannedJobs: seq<BakeJob>

    /**
     * The kept nodes are the material output, the output shader and the UV
     * node; the baked texture nodes are those of the records, in order; the
     * planned jobs are in ascending input order; and the baker is
     * `Consistent` with `pending` as the jobs not yet baked.
     */
    ghost predicate ConsistentWith(pending: seq<BakeJob>)
      reads this
    {
      BakerConsistent(tree, materialOutput, outputShader, materialUvNode, nodesToKeep, bakedTextureNodes,
                      previouslyBakedTextureInfo, pending, plannedJobs)
    }

    /** `ConsistentWith(pending)`, and the shader input of every pending job is still linked. */
    ghost predicate ValidWith(pending: seq<BakeJob>)
      reads this
    {
      ConsistentWith(pending) && PendingLinked(tree, outputShader, pending)
    }

    ghost predicate Valid()
      reads this
    {
      ValidWith(bakeList)
    }

    /**
     * The baker as `execute` leaves it: `__init__` followed by
     * `prep_for_baking` on the active object.
     */
    constructor (objName: string, materialName: string, tree: NodeTree, texDim: int, uvWidth: int, uvHeight: int)
      requires WellFormed(tree) && NoLinksFromOutputs(tree)
      ensures Valid()
      ensures this.objName == objName + BAKED_SUFFIX && this.materialName == materialName + BAKED_SUFFIX
      ensures this.texDim == texDim
      ensures materialOutput == BakeTextureScript.GetMaterialOutput(tree)
      ensures outputShader == BakeTextureScript.GetMaterialShader(tree)
      ensures materialUvNode !in tree.nodes
      ensures this.tree == AddNode(tree, materialUvNode, Node(UVMAP, uvWidth, uvHeight, [], None))
      ensures nodesToKeep == [materialOutput, outputShader, Some(materialUvNode)]
      ensures bakeList == BakeJobs(tree, outputShader) && plannedJobs == bakeList
      ensures bakedTextureNodes == [] && previouslyBakedTextureInfo == []
    {
      // __init__, make_obj_bake_copy, make_material_bake_copy
      this.objName := objName + BAKED_SUFFIX;
      this.materialName := materialName + BAKED_SUFFIX;
      this.texDim := texDim;
      var output := GetMaterialOutput(tree);
      var shader := GetOutputShader(tree, output);
      materialOutput := output;
      outputShader := shader;
      // the UV map node
      FreshIdIsNew(tree);
      var uvNode := FreshId(tree.order);
      var uvMap := Node(UVMAP, uvWidth, uvHeight, [], None);
      InitiallyConsistent(tree, uvNode, uvMap);
      this.tree := AddNode(tree, uvNode, uvMap);
      materialUvNode := uvNode;
      nodesToKeep := [output, shader, Some(uvNode)];
      bakedTextureNodes := [];
      previouslyBakedTextureInfo := [];
      var jobs := MakeBakeList(tree, shader);
      bakeList := jobs;
      plannedJobs := jobs;
    }

    function IsFinishedBaking(): (r: bool)
      reads this
      ensures r <==> bakeList == []
    {
      |bakeList| == 0
    }

    /**
     * The baker is in the state of having baked `job` from tree `t0`, baked
     * texture nodes `baked0` and records `records0`: one node, new to `t0`,
     * appended to the baked texture nodes; one record with the job's name
     * and index and that node; and the tree as `WithBakedTexture` makes it,
     * the new node holding a tex_dim x tex_dim image named after the object
     * and the job.
     */
    ghost predicate BakedFrom(t0: NodeTree, baked0: seq<NodeId>, records0: seq<BakedTextureRecord>, job: BakeJob,
                              texWidth: int, texHeight: int)
      reads this
    {
      |bakedTextureNodes| == |baked0| + 1 &&
      bakedTextureNodes == baked0 + [bakedTextureNodes[|baked0|]] &&
      bakedTextureNodes[|baked0|] !in t0.nodes &&
      previouslyBakedTextureInfo == records0 + [BakedTextureRecord(job.name, job.index, bakedTextureNodes[|baked0|])] &&
      materialOutput.Some? && outputShader.Some? && Socket(outputShader.value, job.index) in t0.links &&
      tree == WithBakedTexture(t0, materialUvNode, materialOutput.value, Socket(outputShader.value, job.index),
                               bakedTextureNodes[|baked0|],
                               Node(TEX_IMAGE, texWidth, texHeight, ["Vector"],
                                    Some(Image(objName + "_" + job.name, texDim, texDim, false))))
    }

    /** Pops the front job and bakes it. */
    method BakeNextTexture(texWidth: int, texHeight: int)
      requires Valid() && bakeList != []
      modifies this`bakeList, this`tree, this`bakedTextureNodes, this`previouslyBakedTextureInfo
      ensures Valid()
      ensures bakeList == old(bakeList)[1..]
      ensures BakedFrom(old(tree), old(bakedTextureNodes), old(previouslyBakedTextureInfo), old(bakeList)[0],
                        texWidth, texHeight)
    {
      var inputInfo := bakeList[0];
      bakeList := bakeList[1..];
      assert [inputInfo] + bakeList == old(bakeList);
      assert PendingLinked(tree, outputShader, [inputInfo] + bakeList);
      BakeTexture(inputInfo, texWidth, texHeight);
    }

    /**
     * Bakes one job: a new image-texture node, fed by the UV node, holding a
     * fresh tex_dim x tex_dim image; the job's record; and the source of the
     * job's shader input routed straight into the material output.  The job
     * is the one just taken from the front of the bake list, so its shader
     * input is linked.
     */
    method BakeTexture(job: BakeJob, texWidth: int, texHeight: int)
      requires ValidWith([job] + bakeList)
      requires outputShader.Some? && IsLinked(tree, Socket(outputShader.value, job.index))
      modifies this`tree, this`bakedTextureNodes, this`previouslyBakedTextureInfo
      ensures Valid()
      ensures BakedFrom(old(tree), old(bakedTextureNodes), old(previouslyBakedTextureInfo), job, texWidth, texHeight)
    {
      var shader := outputShader.value;
      var output := materialOutput.value;
      var uv := materialUvNode;
      var records := previouslyBakedTextureInfo;
      // create blank image for texture
      var texName := objName + "_" + job.name;
      var bakedImage := Image(texName, texDim, texDim, false);
      // an image texture node holding it, fed by the UV node; the job's source into the material output
      FreshIdIsNew(tree);
      var textureNode := FreshId(tree.order);
      var t := WithBakedTexture(tree, uv, output, Socket(shader, job.index), textureNode,
                                Node(TEX_IMAGE, texWidth, texHeight, ["Vector"], Some(bakedImage)));
      var record := BakedTextureRecord(job.name, job.index, textureNode);
      BakeKeepsBakerConsistent(tree, t, materialOutput, outputShader, uv, nodesToKeep, bakedTextureNodes, records,
                               job, bakeList, plannedJobs, textureNode);
      tree := t;
      bakedTextureNodes := bakedTextureNodes + [textureNode];
      previouslyBakedTextureInfo := records + [record];
    }

    ghost predicate Relinked()
      reads this
    {
      RelinkedIn(tree, materialOutput, outputShader, materialUvNode, previouslyBakedTextureInfo)
    }

    ghost predicate LaidOut()
      reads this
    {
      LaidOutIn(tree, materialOutput, outputShader, materialUvNode, bakedTextureNodes)
    }

    /**
     * The baker's tree is the cleanup of `t0`: the restored links are in
     * place and the nodes laid out; exactly the nodes of `t0` that are not
     * unused survive, in their old order and with their old data; and every
     * input outside the restored ones is linked exactly when it was linked in
     * `t0` and both ends of that link survive, from the same socket.
     */
    ghost predicate CleanedUpFrom(t0: NodeTree)
      reads this
    {
      materialOutput.Some? && outputShader.Some? && Relinked() && LaidOut() &&
      tree.order == Survivors(t0.order, nodesToKeep, bakedTextureNodes) &&
      (forall id :: id in tree.nodes <==> id in t0.nodes && !Unused(nodesToKeep, bakedTextureNodes, id)) &&
      (forall id :: id in tree.nodes ==> id in t0.nodes && tree.nodes[id] == t0.nodes[id]) &&
      (forall s :: !RelinkTarget(s, materialOutput.value, outputShader.value, previouslyBakedTextureInfo,
                                 |previouslyBakedTextureInfo|) ==>
        (s in tree.links <==> s in t0.links && s.node in tree.nodes && t0.links[s].node in tree.nodes)) &&
      (forall s :: s in tree.links && !RelinkTarget(s, materialOutput.value, outputShader.value,
                                                    previouslyBakedTextureInfo, |previouslyBakedTextureInfo|) ==>
        s in t0.links && tree.links[s] == t0.links[s])
    }

    /**
     * `clean_up_baked_material`: relink, delete the unused nodes, lay out
     * what is left.  Without an output shader the first link it makes raises
     * an attribute error before anything changes (`ok` is false).
     */
    method CleanUpBakedMaterial() returns (ok: bool)
      requires Valid()
      modifies this`tree
      ensures ok <==> outputShader.Some?
      ensures !ok ==> tree == old(tree)
      ensures ConsistentWith(bakeList)
      ensures bakeList == [] ==> Valid()
      ensures ok ==> CleanedUpFrom(old(tree))
    {
      if outputShader.None? {
        return false;
      }
      ok := true;
      tree := CleanUp(tree, materialOutput.value, outputShader.value, materialUvNode, previouslyBakedTextureInfo,
                      bakeList, plannedJobs);
    }
  }
}
