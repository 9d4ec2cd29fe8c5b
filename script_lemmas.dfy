/** What the merge of dpamvifgenerator/script.py guarantees: how the label map
    is built, where each DPAM block lands, what stays untouched, which errors
    win, and that merging twice adds the block twice. */
module ScriptLemmas {

  import opened Wrappers
  import opened Xml
  import opened Script

  // ---- the label map ----

  /** The label map is built exactly when every settings Component has a
      non-empty label, and otherwise fails with the first bad Component's error. */
  lemma {:induction false} PortSettingsFirstError(ports: seq<Node>)
    requires forall j :: 0 <= j < |ports| ==> ports[j].Element?
    ensures BuildPortSettings(ports).Success? <==> forall j :: 0 <= j < |ports| ==> SettingsEntry(ports[j]).Success?
    ensures forall j ::
      (0 <= j < |ports| && SettingsEntry(ports[j]).Failure? && forall i :: 0 <= i < j ==> SettingsEntry(ports[i]).Success?)
      ==> BuildPortSettings(ports) == Failure(SettingsEntry(ports[j]).error)
  {
    PortSettingsAllSucceed(ports);
    forall j | 0 <= j < |ports| && SettingsEntry(ports[j]).Failure? && forall i :: 0 <= i < j ==> SettingsEntry(ports[i]).Success?
      ensures BuildPortSettings(ports) == Failure(SettingsEntry(ports[j]).error)
    {
      PortSettingsFirstErrorAt(ports, j);
    }
  }

  lemma {:induction false} PortSettingsAllSucceed(ports: seq<Node>)
    requires forall j :: 0 <= j < |ports| ==> ports[j].Element?
    ensures BuildPortSettings(ports).Success? <==> forall j :: 0 <= j < |ports| ==> SettingsEntry(ports[j]).Success?
  {
    if ports != [] {
      var pre := ports[..|ports| - 1];
      assert forall i :: 0 <= i < |pre| ==> pre[i] == ports[i];
      PortSettingsAllSucceed(pre);
    }
  }

  /** The first failing settings Component, at `j`, decides the error. */
  lemma {:induction false} PortSettingsFirstErrorAt(ports: seq<Node>, j: nat)
    requires forall i :: 0 <= i < |ports| ==> ports[i].Element?
    requires j < |ports| && SettingsEntry(ports[j]).Failure?
    requires forall i :: 0 <= i < j ==> SettingsEntry(ports[i]).Success?
    ensures BuildPortSettings(ports) == Failure(SettingsEntry(ports[j]).error)
  {
    var pre := ports[..|ports| - 1];
    if j < |ports| - 1 {
      assert pre[j] == ports[j];
      assert forall i :: 0 <= i < j ==> pre[i] == ports[i];
      PortSettingsFirstErrorAt(pre, j);
    } else {
      assert forall i :: 0 <= i < |pre| ==> pre[i] == ports[i];
      PortSettingsAllSucceed(pre);
    }
  }

  /** A failing label map reports the error of one of the settings Components. */
  lemma {:induction false} PortSettingsErrorSource(ports: seq<Node>)
    requires forall j :: 0 <= j < |ports| ==> ports[j].Element?
    requires BuildPortSettings(ports).Failure?
    ensures exists j :: 0 <= j < |ports| && SettingsEntry(ports[j]) == Failure(BuildPortSettings(ports).error)
  {
    var pre := ports[..|ports| - 1];
    if BuildPortSettings(pre).Failure? {
      PortSettingsErrorSource(pre);
      var j :| 0 <= j < |pre| && SettingsEntry(pre[j]) == Failure(BuildPortSettings(pre).error);
      assert pre[j] == ports[j];
    } else {
      assert SettingsEntry(ports[|ports| - 1]) == Failure(BuildPortSettings(ports).error);
    }
  }

  /** The last settings Component's entry is added on top of the map built from the others. */
  lemma BuildPortSettingsStep(ports: seq<Node>)
    requires |ports| > 0 && forall j :: 0 <= j < |ports| ==> ports[j].Element?
    requires BuildPortSettings(ports).Success?
    ensures BuildPortSettings(ports[..|ports| - 1]).Success? && SettingsEntry(ports[|ports| - 1]).Success?
    ensures var e := SettingsEntry(ports[|ports| - 1]).value;
      BuildPortSettings(ports).value == BuildPortSettings(ports[..|ports| - 1]).value[e.0 := e.1]
  {
  }

  /** Every settings Component's label is a key of the label map. */
  lemma {:induction false} PortSettingsHasEveryLabel(ports: seq<Node>)
    requires forall j :: 0 <= j < |ports| ==> ports[j].Element?
    requires BuildPortSettings(ports).Success?
    ensures forall j :: 0 <= j < |ports| ==>
      SettingsEntry(ports[j]).Success? && SettingsEntry(ports[j]).value.0 in BuildPortSettings(ports).value
  {
    if ports != [] {
      var pre := ports[..|ports| - 1];
      BuildPortSettingsStep(ports);
      PortSettingsHasEveryLabel(pre);
      forall j | 0 <= j < |pre|
        ensures SettingsEntry(ports[j]).Success? && SettingsEntry(ports[j]).value.0 in BuildPortSettings(ports).value
      {
        assert pre[j] == ports[j];
      }
    }
  }

  /** Last wins: a label is mapped to the OptionalContent of the last settings
      Component that carries it. */
  lemma {:induction false} PortSettingsLastWins(ports: seq<Node>)
    requires forall j :: 0 <= j < |ports| ==> ports[j].Element?
    requires BuildPortSettings(ports).Success?
    ensures forall j :: 0 <= j < |ports| ==> SettingsEntry(ports[j]).Success?
    ensures forall j ::
      (&& 0 <= j < |ports|
       && SettingsEntry(ports[j]).Success?
       && forall k :: j < k < |ports| ==> SettingsEntry(ports[k]).Success? && SettingsEntry(ports[k]).value.0 != SettingsEntry(ports[j]).value.0)
      ==> (&& SettingsEntry(ports[j]).value.0 in BuildPortSettings(ports).value
           && BuildPortSettings(ports).value[SettingsEntry(ports[j]).value.0] == SettingsEntry(ports[j]).value.1)
  {
    PortSettingsHasEveryLabel(ports);
    forall j | 0 <= j < |ports| && SettingsEntry(ports[j]).Success?
        && forall k :: j < k < |ports| ==> SettingsEntry(ports[k]).Success? && SettingsEntry(ports[k]).value.0 != SettingsEntry(ports[j]).value.0
      ensures SettingsEntry(ports[j]).value.0 in BuildPortSettings(ports).value
      ensures BuildPortSettings(ports).value[SettingsEntry(ports[j]).value.0] == SettingsEntry(ports[j]).value.1
    {
      PortSettingsLastWinsAt(ports, j);
    }
  }

  /** Last wins, for the Component at `j`. */
  lemma {:induction false} PortSettingsLastWinsAt(ports: seq<Node>, j: nat)
    requires forall i :: 0 <= i < |ports| ==> ports[i].Element?
    requires BuildPortSettings(ports).Success? && j < |ports| && SettingsEntry(ports[j]).Success?
    requires forall k :: j < k < |ports| ==> SettingsEntry(ports[k]).Success? && SettingsEntry(ports[k]).value.0 != SettingsEntry(ports[j]).value.0
    ensures SettingsEntry(ports[j]).value.0 in BuildPortSettings(ports).value
    ensures BuildPortSettings(ports).value[SettingsEntry(ports[j]).value.0] == SettingsEntry(ports[j]).value.1
  {
    BuildPortSettingsStep(ports);
    if j < |ports| - 1 {
      var pre := ports[..|ports| - 1];
      assert pre[j] == ports[j];
      assert forall k :: j < k < |pre| ==> pre[k] == ports[k];
      PortSettingsLastWinsAt(pre, j);
    }
  }

  /** Every key of the label map is the label of some settings Component, and
      maps to that Component's OptionalContent. */
  lemma {:induction false} PortSettingsOrigin(ports: seq<Node>)
    requires forall j :: 0 <= j < |ports| ==> ports[j].Element?
    requires BuildPortSettings(ports).Success?
    ensures var m := BuildPortSettings(ports).value;
      forall l :: l in m ==> exists j :: 0 <= j < |ports| && SettingsEntry(ports[j]) == Success((l, m[l]))
  {
    if ports != [] {
      var pre := ports[..|ports| - 1];
      BuildPortSettingsStep(ports);
      PortSettingsOrigin(pre);
      var m := BuildPortSettings(ports).value;
      var last := SettingsEntry(ports[|ports| - 1]).value;
      forall l | l in m
        ensures exists j :: 0 <= j < |ports| && SettingsEntry(ports[j]) == Success((l, m[l]))
      {
        if l != last.0 {
          var j :| 0 <= j < |pre| && SettingsEntry(pre[j]) == Success((l, BuildPortSettings(pre).value[l]));
          assert pre[j] == ports[j];
        } else {
          assert SettingsEntry(ports[|ports| - 1]) == Success((l, m[l]));
        }
      }
    }
  }

  /** A label no settings Component carries is not a key of the label map. */
  lemma {:induction false} PortSettingsOnlyLabels(ports: seq<Node>, portLabel: string)
    requires forall j :: 0 <= j < |ports| ==> ports[j].Element? && PortLabel(ports[j]) != Some(portLabel)
    requires BuildPortSettings(ports).Success?
    ensures portLabel !in BuildPortSettings(ports).value
  {
    if ports != [] {
      var pre := ports[..|ports| - 1];
      BuildPortSettingsStep(ports);
      assert forall j :: 0 <= j < |pre| ==> pre[j] == ports[j];
      PortSettingsOnlyLabels(pre, portLabel);
    }
  }

  /** The first OptionalContent below a comment-free Component is comment-free. */
  lemma EntryWithoutComments(port: Node)
    requires port.Element? && Comments(port) == multiset{}
    requires SettingsEntry(port).Success? && SettingsEntry(port).value.1.Some?
    ensures Comments(SettingsEntry(port).value.1.value) == multiset{}
  {
    DescendantsWithoutComments(port.children, OPTIONAL_CONTENT);
  }

  /** Every OptionalContent in a label map built from comment-free settings is comment-free. */
  lemma PortSettingsWithoutComments(ports: seq<Node>)
    requires forall j :: 0 <= j < |ports| ==> ports[j].Element? && Comments(ports[j]) == multiset{}
    requires BuildPortSettings(ports).Success?
    ensures var m := BuildPortSettings(ports).value;
      forall l :: l in m && m[l].Some? ==> Comments(m[l].value) == multiset{}
  {
    PortSettingsOrigin(ports);
    var m := BuildPortSettings(ports).value;
    forall l | l in m && m[l].Some?
      ensures Comments(m[l].value) == multiset{}
    {
      var j :| 0 <= j < |ports| && SettingsEntry(ports[j]) == Success((l, m[l]));
      EntryWithoutComments(ports[j]);
    }
  }

  // ---- one Component ----

  /** The block `MergeComponent` appends for this Component. */
  function DpamBlock(port: Node, ps: PortSettings): Node
    requires port.Element? && MergeComponent(port, ps).Success?
  {
    LookupDpam(ps, PortLabel(port).value).value
  }

  /** Where the block goes: as the last child of the Component's first
      OptionalContent child when that one has children, and otherwise as the
      Component's own last child; nothing else in the Component changes. */
  lemma MergeComponentPlacement(port: Node, ps: PortSettings)
    requires port.Element? && MergeComponent(port, ps).Success?
    ensures var r := MergeComponent(port, ps).value;
      r.tag == port.tag && r.attrs == port.attrs && r.text == port.text
    ensures var r := MergeComponent(port, ps).value;
      HasFilledOptionalContent(port) ==>
        var o := FindChild(port.children, OPTIONAL_CONTENT).value;
        && |r.children| == |port.children|
        && (forall k :: 0 <= k < |port.children| && k != o ==> r.children[k] == port.children[k])
        && r.children[o].tag == OPTIONAL_CONTENT && r.children[o].attrs == port.children[o].attrs
        && r.children[o].children == port.children[o].children + [DpamBlock(port, ps)]
    ensures var r := MergeComponent(port, ps).value;
      !HasFilledOptionalContent(port) ==> r.children == port.children + [DpamBlock(port, ps)]
  {
  }

  /** The Component gains exactly the DPAM block: its node count grows by the
      block's, and its comments are its old ones plus the block's. */
  lemma MergeComponentAddsBlock(port: Node, ps: PortSettings)
    requires port.Element? && MergeComponent(port, ps).Success?
    ensures Size(MergeComponent(port, ps).value) == Size(port) + Size(DpamBlock(port, ps))
    ensures Comments(MergeComponent(port, ps).value) == Comments(port) + Comments(DpamBlock(port, ps))
  {
    var d := DpamBlock(port, ps);
    var r := MergeComponent(port, ps).value;
    if HasFilledOptionalContent(port) {
      var o := FindChild(port.children, OPTIONAL_CONTENT).value;
      var x := AppendChild(port.children[o], d);
      assert r == port.(children := port.children[o := x]);
      AppendChildCounts(port.children[o], d);
      SizeOfAllUpdate(port.children, o, x);
      assert Size(x) == Size(port.children[o]) + Size(d);
      assert Size(r) == 1 + SizeOfAll(port.children[o := x]);
      assert Size(port) == 1 + SizeOfAll(port.children);
      assert Comments(x) == Comments(port.children[o]) + Comments(d);
      assert Comments(r) == CommentsOfAll(port.children[o := x]);
      assert Comments(port) == CommentsOfAll(port.children);
      MultisetCancel(Comments(r), Comments(port.children[o]), Comments(port) + Comments(d));
    } else {
      assert r == AppendChild(port, d);
      AppendChildCounts(port, d);
    }
  }

  lemma MultisetCancel(a: multiset<string>, b: multiset<string>, c: multiset<string>)
    requires a + b == c + b
    ensures a == c
  {
    assert forall e :: a[e] == (a + b)[e] - b[e];
  }

  /** `find` gives the same answer after a child is replaced by one that
      matches the tag exactly when the old one did. */
  lemma {:induction false} FindChildAfterUpdate(s: seq<Node>, k: nat, x: Node, tag: string)
    requires k < |s| && (IsElement(s[k], tag) <==> IsElement(x, tag))
    ensures FindChild(s[k := x], tag) == FindChild(s, tag)
  {
    if k > 0 && !IsElement(s[0], tag) {
      assert s[k := x][1..] == s[1..][k - 1 := x];
      FindChildAfterUpdate(s[1..], k - 1, x, tag);
    }
  }

  /** `find` gives the same answer after a child is appended behind a match. */
  lemma {:induction false} FindChildAfterAppend(s: seq<Node>, x: Node, tag: string)
    requires FindChild(s, tag).Some?
    ensures FindChild(s + [x], tag) == FindChild(s, tag)
  {
    if !IsElement(s[0], tag) {
      assert (s + [x])[1..] == s[1..] + [x];
      FindChildAfterAppend(s[1..], x, tag);
    }
  }

  /** The merged Component keeps its label, so a later lookup finds the same block. */
  lemma MergeComponentKeepsLabel(port: Node, ps: PortSettings)
    requires port.Element? && MergeComponent(port, ps).Success?
    ensures PortLabel(MergeComponent(port, ps).value) == PortLabel(port)
  {
    var r := MergeComponent(port, ps).value;
    var k := FindChild(port.children, PORT_LABEL).value;
    if HasFilledOptionalContent(port) {
      var o := FindChild(port.children, OPTIONAL_CONTENT).value;
      FindChildAfterUpdate(port.children, o, r.children[o], PORT_LABEL);
      assert r.children[k] == port.children[k];
    } else {
      FindChildAfterAppend(port.children, DpamBlock(port, ps), PORT_LABEL);
      assert r.children[k] == port.children[k];
    }
  }

  /** Merging a Component a second time succeeds again and adds a second copy
      of the block: the merge is not idempotent. */
  lemma MergeComponentTwice(port: Node, ps: PortSettings)
    requires port.Element? && MergeComponent(port, ps).Success?
    ensures var once := MergeComponent(port, ps).value;
      && MergeComponent(once, ps).Success?
      && DpamBlock(once, ps) == DpamBlock(port, ps)
      && Size(MergeComponent(once, ps).value) == Size(port) + 2 * Size(DpamBlock(port, ps))
      && MergeComponent(once, ps).value != once
  {
    var once := MergeComponent(port, ps).value;
    MergeComponentKeepsLabel(port, ps);
    MergeComponentAddsBlock(port, ps);
    MergeComponentAddsBlock(once, ps);
  }

  // ---- the merge pass ----

  /** The input Component that makes the merge pass stop. */
  predicate ComponentFails(n: Node, ps: PortSettings)
  {
    IsComponent(n) && MergeComponent(n, ps).Failure?
  }

  /** A node as a pass that reached it leaves it. */
  function Merged(n: Node, ps: PortSettings): Node
  {
    if IsComponent(n) && MergeComponent(n, ps).Success? then MergeComponent(n, ps).value else n
  }

  /** One step of the merge pass, in terms of `ComponentFails` and `Merged`. */
  lemma MergeNodesStep(nodes: seq<Node>, ps: PortSettings)
    requires |nodes| > 0
    ensures ComponentFails(nodes[0], ps) ==>
      MergeNodes(nodes, ps) == MergeState(nodes, Fail(MergeComponent(nodes[0], ps).error))
    ensures !ComponentFails(nodes[0], ps) ==>
      MergeNodes(nodes, ps) == Prepend([Merged(nodes[0], ps)], MergeNodes(nodes[1..], ps))
  {
  }

  /** The merge pass keeps the number of the root's children. */
  lemma {:induction false} MergeNodesLength(nodes: seq<Node>, ps: PortSettings)
    ensures |MergeNodes(nodes, ps).nodes| == |nodes|
  {
    if nodes != [] {
      MergeNodesStep(nodes, ps);
      MergeNodesLength(nodes[1..], ps);
    }
  }

  /** The merge pass runs to the end exactly when no Component fails, and
      then every Component is merged in place and every other node is untouched. */
  lemma {:induction false} MergeNodesRunsThrough(nodes: seq<Node>, ps: PortSettings)
    ensures MergeNodes(nodes, ps).outcome.Pass? <==> forall k :: 0 <= k < |nodes| ==> !ComponentFails(nodes[k], ps)
    ensures MergeNodes(nodes, ps).outcome.Pass? ==>
      (&& |MergeNodes(nodes, ps).nodes| == |nodes|
       && forall k :: 0 <= k < |nodes| ==> MergeNodes(nodes, ps).nodes[k] == Merged(nodes[k], ps))
  {
    if nodes != [] {
      MergeNodesStep(nodes, ps);
      MergeNodesRunsThrough(nodes[1..], ps);
      forall k | 0 < k < |nodes|
        ensures nodes[k] == nodes[1..][k - 1]
      {
      }
    }
  }

  /** A pass that meets a failing Component after only good ones stops there
      with that Component's error: the nodes before it are merged, and it and
      everything after it are unchanged. */
  lemma {:induction false} MergeNodesStopsAt(nodes: seq<Node>, ps: PortSettings, k: nat)
    requires k < |nodes| && ComponentFails(nodes[k], ps)
    requires forall i :: 0 <= i < k ==> !ComponentFails(nodes[i], ps)
    ensures MergeNodes(nodes, ps).outcome == Fail(MergeComponent(nodes[k], ps).error)
    ensures |MergeNodes(nodes, ps).nodes| == |nodes|
    ensures MergeNodes(nodes, ps).nodes[k..] == nodes[k..]
    ensures forall i :: 0 <= i < k ==> MergeNodes(nodes, ps).nodes[i] == Merged(nodes[i], ps)
  {
    MergeNodesStep(nodes, ps);
    if k > 0 {
      var tail := nodes[1..];
      assert tail[k - 1] == nodes[k];
      assert forall i :: 0 <= i < k - 1 ==> tail[i] == nodes[i + 1];
      MergeNodesStopsAt(tail, ps, k - 1);
      var rest := MergeNodes(tail, ps).nodes;
      assert MergeNodes(nodes, ps).nodes == [Merged(nodes[0], ps)] + rest;
      assert nodes[k..] == tail[k - 1..];
    }
  }

  /** The pass changes no comment of the input when the blocks it appends carry none. */
  lemma {:induction false} MergeNodesKeepsComments(nodes: seq<Node>, ps: PortSettings)
    requires forall l :: l in ps && ps[l].Some? ==> Comments(ps[l].value) == multiset{}
    ensures CommentsOfAll(MergeNodes(nodes, ps).nodes) == CommentsOfAll(nodes)
  {
    if nodes != [] {
      MergeNodesKeepsComments(nodes[1..], ps);
      if IsComponent(nodes[0]) && MergeComponent(nodes[0], ps).Success? {
        MergeComponentAddsBlock(nodes[0], ps);
      }
    }
  }

  /** The total size of the blocks a pass appends to the Components it can merge. */
  function BlocksSize(nodes: seq<Node>, ps: PortSettings): nat
  {
    if nodes == [] then 0
    else
      (if IsComponent(nodes[0]) && MergeComponent(nodes[0], ps).Success? then Size(DpamBlock(nodes[0], ps)) else 0)
      + BlocksSize(nodes[1..], ps)
  }

  /** A pass that runs to the end adds exactly the blocks of its Components. */
  lemma {:induction false} MergeNodesSize(nodes: seq<Node>, ps: PortSettings)
    requires MergeNodes(nodes, ps).outcome.Pass?
    ensures SizeOfAll(MergeNodes(nodes, ps).nodes) == SizeOfAll(nodes) + BlocksSize(nodes, ps)
  {
    if nodes != [] {
      MergeNodesStep(nodes, ps);
      MergeNodesSize(nodes[1..], ps);
      if IsComponent(nodes[0]) {
        MergeComponentAddsBlock(nodes[0], ps);
      }
    }
  }

  /** After a pass that ran to the end, a second pass with the same label map
      runs to the end too and has the same blocks to add. */
  lemma {:induction false} MergeNodesAgain(nodes: seq<Node>, ps: PortSettings)
    requires MergeNodes(nodes, ps).outcome.Pass?
    ensures MergeNodes(MergeNodes(nodes, ps).nodes, ps).outcome.Pass?
    ensures BlocksSize(MergeNodes(nodes, ps).nodes, ps) == BlocksSize(nodes, ps)
  {
    if nodes != [] {
      MergeNodesStep(nodes, ps);
      MergeNodesAgain(nodes[1..], ps);
      var once := MergeNodes(nodes, ps).nodes;
      assert once[0] == Merged(nodes[0], ps) && once[1..] == MergeNodes(nodes[1..], ps).nodes;
      if IsComponent(nodes[0]) {
        MergeComponentTwice(nodes[0], ps);
      }
      MergeNodesStep(once, ps);
    }
  }

  /** A pass that runs to the end over at least one Component appends something. */
  lemma {:induction false} BlocksSizePositive(nodes: seq<Node>, ps: PortSettings, k: nat)
    requires MergeNodes(nodes, ps).outcome.Pass?
    requires k < |nodes| && IsComponent(nodes[k])
    ensures BlocksSize(nodes, ps) > 0
  {
    MergeNodesStep(nodes, ps);
    if k > 0 {
      assert nodes[1..][k - 1] == nodes[k];
      BlocksSizePositive(nodes[1..], ps, k - 1);
    }
  }

  /** Merging is not idempotent: a second pass over the output runs to the
      end as well and adds every block a second time, so a document with a
      Component comes out different again. */
  lemma MergeNodesTwice(nodes: seq<Node>, ps: PortSettings)
    requires MergeNodes(nodes, ps).outcome.Pass?
    ensures var once := MergeNodes(nodes, ps).nodes;
      && MergeNodes(once, ps).outcome.Pass?
      && SizeOfAll(MergeNodes(once, ps).nodes) == SizeOfAll(nodes) + 2 * BlocksSize(nodes, ps)
    ensures (exists k :: 0 <= k < |nodes| && IsComponent(nodes[k])) ==>
      MergeNodes(MergeNodes(nodes, ps).nodes, ps).nodes != MergeNodes(nodes, ps).nodes
  {
    var once := MergeNodes(nodes, ps).nodes;
    MergeNodesSize(nodes, ps);
    MergeNodesAgain(nodes, ps);
    MergeNodesSize(once, ps);
    if exists k :: 0 <= k < |nodes| && IsComponent(nodes[k]) {
      var k :| 0 <= k < |nodes| && IsComponent(nodes[k]);
      BlocksSizePositive(nodes, ps, k);
    }
  }

  /** An input Component whose label no settings Component carries makes the
      merge fail, so no output is written. */
  lemma MissingLabelIsFatal(inputRoot: Node, settingsRoot: Node, k: nat)
    requires inputRoot.Element? && settingsRoot.Element?
    requires k < |inputRoot.children| && IsComponent(inputRoot.children[k])
    requires forall j :: 0 <= j < |SettingsPorts(settingsRoot)| ==>
      PortLabel(SettingsPorts(settingsRoot)[j]) != PortLabel(inputRoot.children[k])
    ensures DpamVif(inputRoot, settingsRoot).outcome.Fail?
  {
    var ports := SettingsPorts(settingsRoot);
    if BuildPortSettings(ports).Success? {
      var ps := BuildPortSettings(ports).value;
      var port := inputRoot.children[k];
      if PortLabel(port).Some? {
        PortSettingsOnlyLabels(ports, PortLabel(port).value);
      }
      assert ComponentFails(port, ps);
      MergeNodesRunsThrough(inputRoot.children, ps);
    }
  }

  /** A settings Component without a label text stops `generate_dpam_vif`
      with InvalidSettingsXML before the input is touched, provided every
      settings Component before it has a Port_Label. */
  lemma SettingsErrorBeforeMerge(inputRoot: Node, settingsRoot: Node, j: nat)
    requires inputRoot.Element? && settingsRoot.Element?
    requires j < |SettingsPorts(settingsRoot)| && PortLabel(SettingsPorts(settingsRoot)[j]) == Some("")
    requires forall i :: 0 <= i < j ==> SettingsEntry(SettingsPorts(settingsRoot)[i]).Success?
    ensures DpamVif(inputRoot, settingsRoot) == MergeState(inputRoot.children, Fail(InvalidSettingsXML(MissingPortLabel)))
  {
    PortSettingsFirstError(SettingsPorts(settingsRoot));
  }

  // ---- the batch run ----

  /** Errors are reported in the order of the steps: an unreadable input
      first, then unreadable settings, then the merge's, then the write's. */
  lemma GenerateVifErrorOrder(g: DpamVifGenerator, files: map<string, FileContent>)
    ensures LoadInputVif(files, g.inVif).Failure? ==>
      GenerateVifResult(g, files) == Failure(LoadInputVif(files, g.inVif).error)
    ensures LoadInputVif(files, g.inVif).Success? && LoadDpamSettings(files, g.settings).Failure? ==>
      GenerateVifResult(g, files) == Failure(LoadDpamSettings(files, g.settings).error)
    ensures GenerateVifResult(g, files).Success? ==> g.outVif.Path?
  {
  }

  /** A successful run writes the input document with every comment it had,
      and no other: the settings are read without comments. */
  lemma GenerateVifKeepsComments(g: DpamVifGenerator, files: map<string, FileContent>)
    requires GenerateVifResult(g, files).Success?
    ensures g.inVif.Path? && g.inVif.path in files && files[g.inVif.path].WellFormed?
    ensures Comments(GenerateVifResult(g, files).value) == Comments(files[g.inVif.path].root)
  {
    var input := LoadInputVif(files, g.inVif).value;
    var settings := LoadDpamSettings(files, g.settings).value;
    var ports := SettingsPorts(settings);
    DescendantsWithoutComments(settings.children, COMPONENT);
    PortSettingsWithoutComments(ports);
    MergeNodesKeepsComments(input.children, BuildPortSettings(ports).value);
  }
}
