# glTF texture baker, modelled in Dafny

A Blender add-on bakes each linked input of a material's shader into its own
image texture. This project models the add-on's material-graph logic and the
timer-driven operator that runs it:

- **`node_graph.dfy`** (`NodeGraph`) is the host's node tree, taken as a value:
  - the node enumeration order;
  - each node's type tag, size, input names and image;
  - each node's location;
  - the links, kept as a map from an input socket to the output socket that
    feeds it. An input holds at most one link, and `links.new` into a linked
    input replaces that link.
- **`bake_texture.dfy`** (`BakeTextureScript`) is the earlier single-pass
  script. Its queries are pure functions: the first material output, the
  shader feeding it, and the names of the shader's linked inputs. Its entry
  point returns after reporting those names, so the model's entry point
  yields only the report lines.
- **`texture_baker.dfy`** (`Baker`) is the `TextureBaker` class, as a Dafny
  class whose methods update its fields:
  - `__init__` and `prep_for_baking` together form the constructor, since
    `execute` always calls them back to back;
  - `bake_next_texture` and `bake_texture` form the per-job step, which pops
    the front job, adds one texture node and one record, and routes the job's
    source into the material output;
  - `clean_up_baked_material` is the cleanup: relink, delete the unused nodes,
    lay out the rest.

  Cleanup's three loops are methods over the tree value, each proved against
  a specification. The class keeps a ghost `plannedJobs`: the bake list as
  first built. Its invariant says the jobs already baked, followed by the
  jobs still pending, are exactly the planned jobs. It also says every
  pending job's shader input is still linked, so the `links[0]` in
  `bake_texture` never fails when jobs come from the bake list.
- **`modal_operator.dfy`** (`ModalOperator`) holds the handler count and the
  operator:
  - The handler count walks a sequence of handler type tags.
  - `execute` registers the operator's own handler before counting. The count
    it keeps therefore includes the operator itself, and it is never refreshed
    afterwards.
  - On a timer tick with no additional modal operator running, the operator
    either starts exactly one bake or, with nothing left to bake, cleans up
    and finishes.
  - Cancelling only removes the timer. Finishing leaves the timer registered.

The baker is built from any well-formed tree in which no link starts at a
material-output node. Every material meets this, because a material-output
node has input sockets only. The proofs use it only to know that the shader
is never the material output itself.

Cleanup without an output shader fails on its first line
(texture_baker.py:131 dereferences the missing shader). A material without a
shader therefore does not finish quietly with nothing baked: its bake list is
empty, so its first timer tick goes straight to cleanup, which raises an
attribute error. The model follows the code:
`CleanUpBakedMaterial` reports failure and changes nothing, and `Modal` returns
`Raised`.

## Model

| member | source | states |
|---|---|---|
| `NodeGraph.FreshIdIsNew` | texture_baker.py:192 | a node the host creates gets an identity no node of the tree has |
| `NodeGraph.AddNode` | texture_baker.py:171 | adding a node with a new identity keeps the tree well formed |
| `NodeGraph.Connect` | texture_baker.py:131 | linking two nodes of the tree keeps it well formed |
| `NodeGraph.RemoveAllBut` | texture_baker.py:140-143 | removing every node outside `kept` leaves exactly the kept nodes, with their data and locations; the links that remain are the old links between two surviving nodes |
| `NodeGraph.RemoveAllButWellFormed` | texture_baker.py:140-143 | removing nodes keeps the tree well formed |
| `NodeGraph.SetLocation` | texture_baker.py:151 | setting a node's location moves that node only; nodes and links are unchanged |
| `BakeTextureScript.FirstOutputFrom` | bakeTexture.py:36-39 | the search returns the first material-output position at or after `k`, and no position when there is none |
| `BakeTextureScript.GetMaterialOutput` | bakeTexture.py:32-41 | none exactly when no node is a material output; otherwise the first material output in enumeration order |
| `BakeTextureScript.GetMaterialShader` | bakeTexture.py:43-51 | a shader is found only if a material output exists |
| `BakeTextureScript.ShaderFeedsFirstOutput` | bakeTexture.py:43-51 | the shader is the node linked into input 0 of the first material output; there is none when that input is unlinked |
| `BakeTextureScript.NoOutputNothingToBake` | bakeTexture.py:55-63 | with no material output there is no shader and the bake list is empty |
| `BakeTextureScript.LinkedInputNames` | bakeTexture.py:59-61 | every collected name is an input name of the shader, and there are at most as many as inputs scanned |
| `BakeTextureScript.GetBakeList` | bakeTexture.py:55-63 | empty without a shader; otherwise no longer than the shader's input list, and made of its input names |
| `BakeTextureScript.BakeTextures` | bakeTexture.py:65-76 | the script reports "can bake" plus the name of each bake-list entry, in order, and does nothing else |
| `Baker.JobsUpTo` | texture_baker.py:275-280 | the jobs for the first `k` inputs are at most `k`, each with an index below `k` |
| `Baker.JobsAreLinkedInputs` | texture_baker.py:275-280 | every job's input is linked, and the job carries that input's name |
| `Baker.JobsAreInInputOrder` | texture_baker.py:275-280 | the jobs' input indices strictly ascend |
| `Baker.LinkedInputsHaveJobs` | texture_baker.py:275-280 | every linked input has a job; with the two lemmas above, exactly the linked inputs are jobs, in order |
| `Baker.JobsUpToFrame` | texture_baker.py:171-175 | the bake list depends only on the shader's inputs and the links, so adding the UV node first does not change it |
| `Baker.JobNamesAreLinkedInputNames` | texture_baker.py:275-280 | the job names are the earlier script's collected input names |
| `Baker.BakeListAgreesWithScript` | bakeTexture.py:55-63 | the class's bake list, projected to names, equals the script's bake list for the same material |
| `Baker.MaxTextureWidth` | texture_baker.py:149-158 | the running maximum is non-negative, at least every texture's width, and equal to one of them unless it is 0 |
| `Baker.StackedNodesDoNotOverlap` | texture_baker.py:154-158 | each stacked texture starts below the previous ones' bottoms plus the spacing, so the column's y positions never increase |
| `Baker.RecordsAppend` | texture_baker.py:202-208 | appending a record appends its node to the texture-node list and its job to the job list, so the two lists grow in step |
| `Baker.InitiallyConsistent` | texture_baker.py:168-176 | after preparation the tracked nodes are distinct and in the tree; every planned job is linked, in ascending input order; nothing is baked yet |
| `Baker.RecordIndicesAscend` | texture_baker.py:181-183 | records are made in bake-list order, so their shader input indices ascend |
| `Baker.BakeKeepsConsistent` | texture_baker.py:185-218 | a bake keeps the tracked nodes distinct and in the tree, and the baked-then-pending jobs equal the plan |
| `Baker.RestStayLinked` | texture_baker.py:181-183 | after the pop, the remaining jobs' inputs are still linked |
| `Baker.BakeKeepsBakerConsistent` | texture_baker.py:185-218 | a bake keeps the whole class invariant, with the node list and the record list each one longer |
| `Baker.ConsistentInLargerTree` | texture_baker.py:133-138 | relinking, which keeps every node and adds links, keeps the invariant |
| `Baker.RemoveKeepsConsistent` | texture_baker.py:140-143 | deleting nodes other than the tracked ones keeps the invariant |
| `Baker.RemoveKeepsRelinked` | texture_baker.py:140-143 | deleting nodes other than the tracked ones keeps the restored links |
| `Baker.MoveKeepsConsistent` | texture_baker.py:145-166 | moving nodes keeps the invariant |
| `Baker.Unused` | texture_baker.py:126-127 | a node is unused exactly when it differs from every kept node and from every baked texture node |
| `Baker.Survivors` | texture_baker.py:126-127 | a node survives deletion exactly when `unused_node` is false: it is kept or it is a baked texture |
| `Baker.TrackedSurvive` | texture_baker.py:140-143 | the material output, shader, UV node and every baked texture survive deletion |
| `Baker.RelinkStep` | texture_baker.py:137-138 | relinking one record keeps the links already restored |
| `Baker.OtherLinksStart` | texture_baker.py:131 | linking the shader into the material output rewrites only input 0 of the material output |
| `Baker.OtherLinksStep` | texture_baker.py:137-138 | relinking one record rewrites only its shader input and its texture's input 0 |
| `Baker.RelinkIteration` | texture_baker.py:134-138 | one pass of the relinking loop moves the loop state from `i` records to `i + 1` |
| `Baker.PrunedLinks` | texture_baker.py:140-166 | after deletion and layout, an input outside the restored ones is linked exactly when it was linked before and both ends survive, from the same socket |
| `Baker.Relink` | texture_baker.py:129-138 | the shader feeds material-output input 0; each record's texture feeds the shader input it was baked from; the UV node feeds each texture; every other input keeps its link, from the same socket; nodes are unchanged and no link is lost |
| `Baker.DeleteUnusedNodes` | texture_baker.py:140-143 | the result is the tree without the unused nodes and their links, in the old order |
| `Baker.StackColumn` | texture_baker.py:154-158 | texture i lands at (x, 100 - the sum of height + 50 over the textures before it); the returned width is the widest texture; no other node moves |
| `Baker.LayOut` | texture_baker.py:145-166 | the UV node is at (100, 100); the textures form a column at 100 + UV width + 50; the shader is right of the widest texture plus 50, at y 100; the material output is right of the shader plus 50, level with it |
| `Baker.CleanUp` | texture_baker.py:129-166 | cleanup leaves the invariant, the restored links and the layout; exactly the nodes that are not unused survive, in their old order and with their old data; every other input is linked exactly when it was linked before and both ends survive, from the same socket |
| `Baker.WithBakedTexture` | texture_baker.py:192-218 | the bake adds one node, last, at the origin; the UV node feeds the texture; the job's source feeds material-output input 0; no other link changes and the tree stays well formed |
| `Baker.GetMaterialOutput` | texture_baker.py:251-258 | the loop with `break` returns the first material output, as the earlier script does |
| `Baker.GetOutputShader` | texture_baker.py:260-266 | present exactly when the output exists and its input 0 is linked, and then the node feeding it; agrees with the earlier script |
| `Baker.MakeBakeList` | texture_baker.py:268-280 | the loop builds the bake list: empty without a shader, otherwise one job per linked input, in input order |
| `Baker.TextureBaker.constructor` | texture_baker.py:168-176 | `__init__` plus `prep_for_baking`: "_baked" names, the material output and shader found, a new UV node added, the kept nodes set, the bake list built, nothing baked, invariant established |
| `Baker.TextureBaker.IsFinishedBaking` | texture_baker.py:178-179 | finished exactly when the bake list is empty |
| `Baker.TextureBaker.BakeNextTexture` | texture_baker.py:181-183 | removes exactly the front job, keeping the rest in order, and bakes that job: one new node and one record with its name and index; the tree changes as `WithBakedTexture` says, so the job's source feeds material-output input 0; invariant kept |
| `Baker.TextureBaker.BakeTexture` | texture_baker.py:185-221 | one fresh node appended to the baked nodes; one record with the job's name and index and that node; the tree changes as `WithBakedTexture` says; invariant kept |
| `Baker.TextureBaker.CleanUpBakedMaterial` | texture_baker.py:129-166 | fails without a shader and changes nothing; otherwise the tree becomes the cleanup of the old tree: relinked, exactly the unused nodes deleted with their links, other links and node data unchanged, laid out; invariant kept |
| `ModalOperator.GetNumRunningModalOps` | texture_baker.py:99-113 | the count is the number of handlers of type 3 (an operator) in the window's list |
| `ModalOperator.GltfBakerOperator.Execute` | texture_baker.py:318-329 | the timer is registered; the captured count includes the operator's own handler; the baker is the one `__init__` and `prep_for_baking` prepare: "_baked" names, the material output and shader, the given tree plus a new UV node, the kept nodes, the bake list, nothing baked |
| `ModalOperator.GltfBakerOperator.Cancel` | texture_baker.py:331-333 | removes the timer only |
| `ModalOperator.GltfBakerOperator.Modal` | texture_baker.py:298-316 | right mouse or Esc cancels with no cleanup; other events pass through unchanged. On a timer tick: a count above the captured one changes nothing. Otherwise, with jobs left, exactly the front job is popped and baked: its record is added and its source is routed into the material output. With none left, the tree is cleaned up and the operator finishes, or it raises without a shader; the bake list, node list and records stay. A tick changes only the timer flag and the baker's bake list, tree, node list and records, so the UV node, output, shader, kept nodes and names carry over to the next tick. At most one bake per tick |

## Left out

- Memory layout: the ctypes structure mirrors and pointer casts behind the handler count are not modelled. The window's modal handlers are a sequence of type tags passed in.
- Copying: duplicating the object, mesh and material, linking the copy into the scene and changing selection are host calls. Only the "_baked" suffix of the names is kept. The tree the constructor receives is the copied material's tree.
- Host creation of nodes and images: a new node gets an identity above every existing one, sits at the origin, and has the size the host reports (passed in as parameters). The baked image is a value stored in the texture node.
- Display flags: hiding and selecting the texture node and making it active are not modelled.
- Baking itself: the asynchronous bake operator is a host call. The model starts nothing; the other modal handler it would add appears only through the handler sequence given to `Modal`.
- Engine and timers: the render-engine switch is not modelled. Timer registration is a boolean.
- Scaffolding: the UI panel, add-on preferences, registration and the earlier script's operator are not modelled.
- Console messages: the `print` calls at texture_baker.py:173, 272 and 311 are not modelled. They change no state.
- Dead code: everything after the `return` at bakeTexture.py:76 never runs and is not modelled.
- Numbers: node widths, heights and locations are integers, not floats.
- Deletion: removing nodes while iterating over the host's collection is modelled as a filter. It keeps every node that is not unused, and nodes the host would skip while its collection shifts are not modelled.
- Baker.MakeBakeList: a module-level method that takes the tree and shader and returns the list, instead of a method of the baker that updates `bake_list`. The same goes for `Baker.GetMaterialOutput` and `Baker.GetOutputShader`. The constructor stores their results.
- Baker.TextureBaker.constructor: sets every field at once, instead of one assignment per line of `__init__`/`prep_for_baking`.
- ModalOperator.GltfBakerOperator.Execute: returns no value. Its "running modal" result and the window-manager context are implicit.
