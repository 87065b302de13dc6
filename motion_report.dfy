/**
 * The motion-layer report of `detectMotionLayerScenes` in CC_ExportCleans.js:
 * one owning scene name for every (panel, layer) whose skew function has more
 * than one point, after a fixed header; the file is written only when some
 * name follows the header.
 */
module MotionReport {
  import opened Wrappers
  import opened Strings
  import opened Storyboard

  const Header := "SCENES WITH MOTION LAYERS: "

  /** The layers of one panel, in layer order, that contribute `sceneName`: those with more than one skew point. */
  function LayerHits(sceneName: string, skewPoints: seq<int>): seq<string>
  {
    if skewPoints == [] then []
    else LayerHits(sceneName, skewPoints[..|skewPoints| - 1])
         + (if skewPoints[|skewPoints| - 1] > 1 then [sceneName] else [])
  }

  /** The names contributed by panels in order, each followed by its layers. */
  function MotionScenes(panels: seq<ProjectPanel>): seq<string>
  {
    if panels == [] then []
    else MotionScenes(panels[..|panels| - 1])
         + LayerHits(panels[|panels| - 1].sceneName, panels[|panels| - 1].panel.skewPoints)
  }

  /** `(p, l)` is a panel index and layer index whose skew function has more than one point. */
  predicate IsMotionLayer(panels: seq<ProjectPanel>, p: int, l: int)
  {
    0 <= p < |panels| && 0 <= l < |panels[p].panel.skewPoints| && panels[p].panel.skewPoints[l] > 1
  }

  /** A panel contributes only its own scene name, and contributes it exactly when one of its layers moves. */
  lemma {:induction false} LayerHitsMembers(sceneName: string, skewPoints: seq<int>)
    ensures forall x :: x in LayerHits(sceneName, skewPoints) ==> x == sceneName
    ensures LayerHits(sceneName, skewPoints) == [] <==> forall l :: 0 <= l < |skewPoints| ==> skewPoints[l] <= 1
  {
    if skewPoints != [] {
      var init := skewPoints[..|skewPoints| - 1];
      LayerHitsMembers(sceneName, init);
      assert forall l :: 0 <= l < |init| ==> init[l] == skewPoints[l];
    }
  }

  /** Every moving layer puts its owning scene's name into the report. */
  lemma {:induction false} MotionLayerReported(panels: seq<ProjectPanel>, p: int, l: int)
    requires IsMotionLayer(panels, p, l)
    ensures panels[p].sceneName in MotionScenes(panels)
  {
    var init, last := panels[..|panels| - 1], panels[|panels| - 1];
    if p < |init| {
      MotionLayerReported(init, p, l);
    } else {
      var hits := LayerHits(last.sceneName, last.panel.skewPoints);
      LayerHitsMembers(last.sceneName, last.panel.skewPoints);
      assert hits != [] && hits[0] in hits;
      assert MotionScenes(panels) == MotionScenes(init) + hits;
    }
  }

  /** Every name in the report is the owning scene of some moving layer. */
  lemma {:induction false} ReportedNameHasMotionLayer(panels: seq<ProjectPanel>, name: string)
    requires name in MotionScenes(panels)
    ensures exists p, l :: IsMotionLayer(panels, p, l) && panels[p].sceneName == name
  {
    var init, last := panels[..|panels| - 1], panels[|panels| - 1];
    var hits := LayerHits(last.sceneName, last.panel.skewPoints);
    if name in hits {
      LayerHitsMembers(last.sceneName, last.panel.skewPoints);
      var l :| 0 <= l < |last.panel.skewPoints| && last.panel.skewPoints[l] > 1;
      assert IsMotionLayer(panels, |panels| - 1, l);
    } else {
      ReportedNameHasMotionLayer(init, name);
      var p, l :| IsMotionLayer(init, p, l) && init[p].sceneName == name;
      assert IsMotionLayer(panels, p, l);
    }
  }

  /**
   * A scene name is reported exactly when some layer of a panel of that scene
   * has more than one skew point.
   */
  lemma MotionScenesMembers(panels: seq<ProjectPanel>, name: string)
    ensures name in MotionScenes(panels)
            <==> exists p, l :: IsMotionLayer(panels, p, l) && panels[p].sceneName == name
  {
    if name in MotionScenes(panels) {
      ReportedNameHasMotionLayer(panels, name);
    }
    if exists p, l :: IsMotionLayer(panels, p, l) && panels[p].sceneName == name {
      var p, l :| IsMotionLayer(panels, p, l) && panels[p].sceneName == name;
      MotionLayerReported(panels, p, l);
    }
  }

  /** The report holds no scene name exactly when no layer of any panel moves. */
  lemma {:induction false} MotionScenesEmpty(panels: seq<ProjectPanel>)
    ensures MotionScenes(panels) == [] <==> forall p, l :: !IsMotionLayer(panels, p, l)
  {
    if MotionScenes(panels) != [] {
      var name := MotionScenes(panels)[0];
      MotionScenesMembers(panels, name);
    } else if exists p, l :: IsMotionLayer(panels, p, l) {
      var p, l :| IsMotionLayer(panels, p, l);
      MotionScenesMembers(panels, panels[p].sceneName);
    }
  }

  /** `writeLine` of an array writes its elements joined by commas. */
  function ReportText(motionLayers: seq<string>): (r: string)
    requires |motionLayers| >= 1
    ensures motionLayers[0] <= r
    ensures |motionLayers| == 1 ==> r == motionLayers[0]
  {
    Join(motionLayers, ',')
  }

  /** When no scene name holds a comma the written text splits back into the report lines. */
  lemma ReportTextRoundTrip(motionLayers: seq<string>)
    requires |motionLayers| >= 1
    requires forall k :: 0 <= k < |motionLayers| ==> ',' !in motionLayers[k]
    ensures Split(ReportText(motionLayers), ',') == motionLayers
  {
    SplitJoin(motionLayers, ',');
  }

  /**
   * `detectMotionLayerScenes` over the project's scenes: the report lines, and
   * the text written to `_MotionLayers.txt` (`None` when no file is written).
   */
  method DetectMotionLayerScenes(scenes: seq<Scene>) returns (motionLayers: seq<string>, written: Option<string>)
    ensures motionLayers == [Header] + MotionScenes(ProjectPanels(scenes))
    ensures written == if |motionLayers| == 1 then None else Some(ReportText(motionLayers))
  {
    motionLayers := [Header];
    var panelIdInProject := AllPanelsInProject(scenes);
    var panel := 0;
    while panel < |panelIdInProject|
      invariant 0 <= panel <= |panelIdInProject|
      invariant motionLayers == [Header] + MotionScenes(panelIdInProject[..panel])
    {
      var current := panelIdInProject[panel];
      var layers := current.panel.skewPoints;
      var layer := 0;
      while layer < |layers|
        invariant 0 <= layer <= |layers|
        invariant motionLayers == [Header] + MotionScenes(panelIdInProject[..panel]) + LayerHits(current.sceneName, layers[..layer])
      {
        var numOfPoints := layers[layer];
        if numOfPoints > 1 {
          motionLayers := motionLayers + [current.sceneName];
        }
        assert layers[..layer + 1][..layer] == layers[..layer];
        layer := layer + 1;
      }
      assert panelIdInProject[..panel + 1][..panel] == panelIdInProject[..panel];
      assert layers[..layer] == layers;
      panel := panel + 1;
    }
    assert panelIdInProject[..panel] == panelIdInProject;
    if |motionLayers| == 1 {
      written := None;
    } else {
      written := Some(ReportText(motionLayers));
    }
  }

  /** A report file is written exactly when some layer of some panel has a skew function with more than one point. */
  lemma ReportWrittenIffMotion(scenes: seq<Scene>, motionLayers: seq<string>)
    requires motionLayers == [Header] + MotionScenes(ProjectPanels(scenes))
    ensures |motionLayers| > 1 <==> exists p, l :: IsMotionLayer(ProjectPanels(scenes), p, l)
  {
    MotionScenesEmpty(ProjectPanels(scenes));
  }

  /**
   * Scene `1` has a panel with skew point counts 1, 2, 3 on its three layers;
   * scene `2` a panel with one single-point layer. Scene `1` is reported once
   * per moving layer and scene `2` not at all.
   */
  lemma MotionScenesExample()
    ensures MotionScenes([ProjectPanel("1", Panel(7, "1", [1, 2, 3])), ProjectPanel("2", Panel(8, "1", [1]))])
            == ["1", "1"]
  {
    var first, second := ProjectPanel("1", Panel(7, "1", [1, 2, 3])), ProjectPanel("2", Panel(8, "1", [1]));
    var pts := [1, 2, 3];
    assert pts[..2][..1][..0] == [] && pts[..2][..1] == [1] && pts[..2] == [1, 2];
    assert LayerHits("1", pts) == ["1", "1"];
    assert [1][..0] == [];
    assert LayerHits("2", [1]) == [];
    assert [first, second][..1] == [first] && [first][..0] == [];
  }
}
