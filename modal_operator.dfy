/**
 * The operator that drives a bake from the window manager's timer.  Each
 * timer tick compares the number of running modal operators with the number
 * counted when the operator started: while another modal operator (the
 * asynchronous bake) is still running it waits, otherwise it starts the next
 * bake or, with nothing left to bake, cleans up and finishes.
 */
module ModalOperator {
  import opened NodeGraph
  import opened Baker

  // The type tags of the window manager's event handlers.
  const WM_HANDLER_TYPE_GIZMO := 1
  const WM_HANDLER_TYPE_UI := 2
  const WM_HANDLER_TYPE_OP := 3
  const WM_HANDLER_TYPE_DROPBOX := 4
  const WM_HANDLER_TYPE_KEYMAP := 5

  /**
   * `get_num_running_modal_ops`: walks the window's list of modal handlers,
   * given here by their type tags in list order, and counts the operator
   * handlers.
   */
  method GetNumRunningModalOps(handlerTypes: seq<int>) returns (count: nat)
    ensures count == multiset(handlerTypes)[WM_HANDLER_TYPE_OP]
    ensures count <= |handlerTypes|
  {
    count := 0;
    var i := 0;
    while i < |handlerTypes|
      invariant 0 <= i <= |handlerTypes|
      invariant count == multiset(handlerTypes[..i])[WM_HANDLER_TYPE_OP] && count <= i
    {
      assert handlerTypes[..i + 1] == handlerTypes[..i] + [handlerTypes[i]];
      if handlerTypes[i] == WM_HANDLER_TYPE_OP {
        count := count + 1;
      }
      i := i + 1;
    }
    assert handlerTypes[..i] == handlerTypes;
  }

  /** The event types the operator tells apart; `Other` is any other event type. */
  datatype EventType = RightMouse | Esc | Timer | Other

  /**
   * What a modal step reports to the window manager; `Raised` is the
   * attribute error cleanup raises when the material has no output shader.
   */
  datatype ModalResult = Cancelled | Finished | PassThrough | Raised

  class GltfBakerOperator {
    var texDim: int
    /** The operator handlers counted when the operator started, itself included. */
    var previousNumModalOps: nat
    var textureBaker: TextureBaker
    /** Whether the operator's timer is still registered with the window manager. */
    var timerActive: bool

    ghost predicate Valid()
      reads this, textureBaker
    {
      textureBaker.Valid()
    }

    /**
     * `execute`: registers the timer and the operator's own modal handler
     * (in front of the window's handlers `handlersBefore`), counts the
     * running modal operators, and prepares a baker for the active object.
     */
    constructor Execute(texDim: int, objName: string, materialName: string, tree: NodeTree,
                        handlersBefore: seq<int>, uvWidth: int, uvHeight: int)
      requires WellFormed(tree) && NoLinksFromOutputs(tree)
      ensures Valid() && fresh(textureBaker) && timerActive
      ensures this.texDim == texDim
      ensures previousNumModalOps == multiset(handlersBefore)[WM_HANDLER_TYPE_OP] + 1
      ensures textureBaker.objName == objName + BAKED_SUFFIX && textureBaker.materialName == materialName + BAKED_SUFFIX
      ensures textureBaker.texDim == texDim
      ensures textureBaker.materialOutput == BakeTextureScript.GetMaterialOutput(tree)
      ensures textureBaker.outputShader == BakeTextureScript.GetMaterialShader(tree)
      ensures textureBaker.materialUvNode !in tree.nodes
      ensures textureBaker.tree == AddNode(tree, textureBaker.materialUvNode, Node(UVMAP, uvWidth, uvHeight, [], None))
      ensures textureBaker.nodesToKeep ==
        [textureBaker.materialOutput, textureBaker.outputShader, Some(textureBaker.materialUvNode)]
      ensures textureBaker.bakeList == BakeJobs(tree, textureBaker.outputShader)
      ensures textureBaker.bakedTextureNodes == [] && textureBaker.previouslyBakedTextureInfo == []
    {
      this.texDim := texDim;
      timerActive := true;
      var handlers := [WM_HANDLER_TYPE_OP] + handlersBefore;
      var count := GetNumRunningModalOps(handlers);
      assert multiset(handlers) == multiset{WM_HANDLER_TYPE_OP} + multiset(handlersBefore);
      previousNumModalOps := count;
      textureBaker := new TextureBaker(objName, materialName, tree, texDim, uvWidth, uvHeight);
    }

    /** `cancel`: removes the timer and leaves the baker as it is. */
    method Cancel()
      modifies this`timerActive
      ensures !timerActive
    {
      timerActive := false;
    }

    /**
     * One event delivered to the running operator; `handlerTypes` are the
     * type tags of the window's modal handlers at that moment, and
     * `texWidth`/`texHeight` the size the host gives a new texture node.
     */
    method Modal(event: EventType, handlerTypes: seq<int>, texWidth: int, texHeight: int) returns (result: ModalResult)
      requires Valid()
      modifies this`timerActive, textureBaker`bakeList, textureBaker`tree,
               textureBaker`bakedTextureNodes, textureBaker`previouslyBakedTextureInfo
      ensures Valid()
      ensures event == RightMouse || event == Esc ==> result == Cancelled && !timerActive && unchanged(textureBaker)
      ensures event == Other ==> result == PassThrough && timerActive == old(timerActive) && unchanged(textureBaker)
      ensures event == Timer && multiset(handlerTypes)[WM_HANDLER_TYPE_OP] > previousNumModalOps ==>
        result == PassThrough && unchanged(textureBaker)
      ensures event == Timer && multiset(handlerTypes)[WM_HANDLER_TYPE_OP] <= previousNumModalOps &&
              old(textureBaker.bakeList) != [] ==>
        result == PassThrough &&
        textureBaker.bakeList == old(textureBaker.bakeList)[1..] &&
        textureBaker.BakedFrom(old(textureBaker.tree), old(textureBaker.bakedTextureNodes),
                               old(textureBaker.previouslyBakedTextureInfo), old(textureBaker.bakeList)[0],
                               texWidth, texHeight)
      ensures event == Timer && multiset(handlerTypes)[WM_HANDLER_TYPE_OP] <= previousNumModalOps &&
              old(textureBaker.bakeList) == [] ==>
        textureBaker.bakeList == [] &&
        textureBaker.bakedTextureNodes == old(textureBaker.bakedTextureNodes) &&
        textureBaker.previouslyBakedTextureInfo == old(textureBaker.previouslyBakedTextureInfo) &&
        (result == Finished <==> textureBaker.outputShader.Some?) &&
        (result == Finished ==> textureBaker.CleanedUpFrom(old(textureBaker.tree))) &&
        (result != Finished ==> result == Raised && unchanged(textureBaker))
      ensures event != RightMouse && event != Esc ==> timerActive == old(timerActive)
      ensures |textureBaker.bakedTextureNodes| <= |old(textureBaker.bakedTextureNodes)| + 1
    {
      if event == RightMouse || event == Esc {
        Cancel();
        return Cancelled;
      }
      if event == Timer {
        var currentNumModalOps := GetNumRunningModalOps(handlerTypes);
        if currentNumModalOps <= previousNumModalOps {
          if textureBaker.IsFinishedBaking() {
            var ok := textureBaker.CleanUpBakedMaterial();
            return if ok then Finished else Raised;
          } else {
            textureBaker.BakeNextTexture(texWidth, texHeight);
          }
        }
      }
      return PassThrough;
    }
  }
}
