/**
 * The storyboard as the export script sees it: scenes in project order, each
 * with its panels in scene order, each panel with the point count of the skew
 * function of each of its layers. Covers `renameScenesAndPanels` and
 * `allPanelsInProject` of CC_ExportCleans.js.
 */
module Storyboard {
  import opened Strings

  /** A panel: its identity, its name and, per layer index, the number of points of the layer's skew function. */
  datatype Panel = Panel(id: nat, name: string, skewPoints: seq<int>)

  /** A scene: its identity, its name and its panels in order. */
  datatype Scene = Scene(id: nat, name: string, panels: seq<Panel>)

  /** The name the host gives for `renameScene(id, n)` / `renamePanel(id, n)`: the number's decimal form. */
  function NumberName(n: nat): string
  {
    Decimal(n)
  }

  /** Panel `j` named `j + 1`, nothing else changed. */
  function RenumberedPanels(panels: seq<Panel>): seq<Panel>
  {
    seq(|panels|, j requires 0 <= j < |panels| => panels[j].(name := NumberName(j + 1)))
  }

  /** Scene `i` named `i + 1` and its panels renumbered, nothing else changed. */
  function Renumbered(scenes: seq<Scene>): seq<Scene>
  {
    seq(|scenes|, i requires 0 <= i < |scenes| =>
      scenes[i].(name := NumberName(i + 1), panels := RenumberedPanels(scenes[i].panels)))
  }

  /**
   * After renumbering the scene names read back as 1, 2, ... and are pairwise
   * distinct, and so are the panel names within each scene.
   */
  lemma RenumberedNamesAreDistinct(scenes: seq<Scene>)
    ensures var r := Renumbered(scenes);
            (forall i :: 0 <= i < |r| ==> ParseDecimal(r[i].name) == i + 1)
            && (forall i, j :: 0 <= i < j < |r| ==> r[i].name != r[j].name)
            && (forall i, p :: 0 <= i < |r| && 0 <= p < |r[i].panels| ==> ParseDecimal(r[i].panels[p].name) == p + 1)
            && (forall i, p, q :: 0 <= i < |r| && 0 <= p < q < |r[i].panels| ==> r[i].panels[p].name != r[i].panels[q].name)
  {
    var r := Renumbered(scenes);
    forall n: nat ensures ParseDecimal(NumberName(n)) == n {
      DecimalRoundTrip(n);
    }
  }

  /** Renumbering keeps the scenes and panels, their order and their layers; renumbering twice changes nothing more. */
  lemma RenumberedKeepsStructure(scenes: seq<Scene>)
    ensures var r := Renumbered(scenes);
            |r| == |scenes|
            && (forall i :: 0 <= i < |r| ==> r[i].id == scenes[i].id && |r[i].panels| == |scenes[i].panels|)
            && (forall i, p :: 0 <= i < |r| && 0 <= p < |r[i].panels| ==>
                  r[i].panels[p].id == scenes[i].panels[p].id
                  && r[i].panels[p].skewPoints == scenes[i].panels[p].skewPoints)
    ensures Renumbered(Renumbered(scenes)) == Renumbered(scenes)
  {
    var r := Renumbered(scenes);
    forall i | 0 <= i < |r| ensures RenumberedPanels(r[i].panels) == r[i].panels {
    }
  }

  /**
   * `renameScenesAndPanels`: for each scene in project order rename it to its
   * 1-based position, then rename each of its panels to its 1-based position.
   */
  method RenameScenesAndPanels(scenes: array<Scene>)
    modifies scenes
    ensures scenes[..] == Renumbered(old(scenes[..]))
  {
    ghost var original := scenes[..];
    var i := 0;
    while i < scenes.Length
      invariant 0 <= i <= scenes.Length
      invariant forall k :: 0 <= k < i ==> scenes[k] == Renumbered(original)[k]
      invariant forall k :: i <= k < scenes.Length ==> scenes[k] == original[k]
    {
      scenes[i] := scenes[i].(name := NumberName(i + 1));
      var panel := 0;
      while panel < |scenes[i].panels|
        invariant 0 <= panel <= |scenes[i].panels| == |original[i].panels|
        invariant scenes[i].id == original[i].id && scenes[i].name == NumberName(i + 1)
        invariant forall p :: 0 <= p < panel ==> scenes[i].panels[p] == RenumberedPanels(original[i].panels)[p]
        invariant forall p :: panel <= p < |scenes[i].panels| ==> scenes[i].panels[p] == original[i].panels[p]
        invariant forall k :: 0 <= k < i ==> scenes[k] == Renumbered(original)[k]
        invariant forall k :: i < k < scenes.Length ==> scenes[k] == original[k]
      {
        var panels := scenes[i].panels;
        scenes[i] := scenes[i].(panels := panels[panel := panels[panel].(name := NumberName(panel + 1))]);
        panel := panel + 1;
      }
      assert scenes[i].panels == RenumberedPanels(original[i].panels);
      i := i + 1;
    }
  }

  /** A panel of the project together with the name of the scene that owns it. */
  datatype ProjectPanel = ProjectPanel(sceneName: string, panel: Panel)

  /** All panels of the project in project order: the scenes' panels one scene after the other. */
  function ProjectPanels(scenes: seq<Scene>): seq<ProjectPanel>
  {
    if scenes == [] then []
    else seq(|scenes[0].panels|, p requires 0 <= p < |scenes[0].panels| => ProjectPanel(scenes[0].name, scenes[0].panels[p]))
         + ProjectPanels(scenes[1..])
  }

  /** `numberOfPanelsInProject`. */
  function NumberOfPanelsInProject(scenes: seq<Scene>): (n: nat)
    ensures n == 0 <==> forall i :: 0 <= i < |scenes| ==> scenes[i].panels == []
  {
    if scenes == [] then 0 else |scenes[0].panels| + NumberOfPanelsInProject(scenes[1..])
  }

  /** `panelInProject(k)` with `sceneIdOfPanel` resolved: the host walks the scenes to the `k`-th panel. */
  function PanelInProject(scenes: seq<Scene>, k: nat): (p: ProjectPanel)
    requires k < NumberOfPanelsInProject(scenes)
    ensures exists i :: 0 <= i < |scenes| && p.sceneName == scenes[i].name && p.panel in scenes[i].panels
  {
    if k < |scenes[0].panels| then ProjectPanel(scenes[0].name, scenes[0].panels[k])
    else PanelInProject(scenes[1..], k - |scenes[0].panels|)
  }

  /** The host's indexed access agrees with the flattened list, and the count is its length. */
  lemma {:induction false} PanelInProjectIsFlattening(scenes: seq<Scene>, k: nat)
    requires k < NumberOfPanelsInProject(scenes)
    ensures |ProjectPanels(scenes)| == NumberOfPanelsInProject(scenes)
    ensures PanelInProject(scenes, k) == ProjectPanels(scenes)[k]
  {
    if k >= |scenes[0].panels| {
      PanelInProjectIsFlattening(scenes[1..], k - |scenes[0].panels|);
    } else {
      ProjectPanelsLength(scenes[1..]);
    }
  }

  lemma {:induction false} ProjectPanelsLength(scenes: seq<Scene>)
    ensures |ProjectPanels(scenes)| == NumberOfPanelsInProject(scenes)
  {
    if scenes != [] {
      ProjectPanelsLength(scenes[1..]);
    }
  }

  /** `allPanelsInProject`: push `panelInProject(k)` for every `k` below the project's panel count. */
  method AllPanelsInProject(scenes: seq<Scene>) returns (panelIdInProject: seq<ProjectPanel>)
    ensures panelIdInProject == ProjectPanels(scenes)
  {
    panelIdInProject := [];
    var numberOfPanelsInProject := NumberOfPanelsInProject(scenes);
    ProjectPanelsLength(scenes);
    var panel := 0;
    while panel < numberOfPanelsInProject
      invariant 0 <= panel <= numberOfPanelsInProject
      invariant panelIdInProject == ProjectPanels(scenes)[..panel]
    {
      PanelInProjectIsFlattening(scenes, panel);
      panelIdInProject := panelIdInProject + [PanelInProject(scenes, panel)];
      panel := panel + 1;
    }
  }
}
