/** The shape of the settings document `generate_settings` writes: the
    root's namespace declarations, and one Component per port holding its
    label and a single DPAM OptionalContent with one element per tab. */
module SettingsLemmas {

  import opened Wrappers
  import opened Xml
  import opened Script
  import opened Controller

  // ---- the root's namespace attributes ----

  lemma XmlnsInjective(p: string, q: string)
    requires "xmlns:" + p == "xmlns:" + q
    ensures p == q
  {
    assert ("xmlns:" + p)[6..] == p;
    assert ("xmlns:" + q)[6..] == q;
  }

  /** Every prefix except `vif` is declared with its namespace (the last one
      listed for it); `vif` is not declared. */
  lemma {:induction false} NamespaceAttrsDeclare(prefixes: seq<(string, string)>, p: string)
    ensures FindAttr(NamespaceAttrs(prefixes), "xmlns:" + p)
      == if p != "vif" && p in PairsToMap(prefixes) then Some(PairsToMap(prefixes)[p]) else None
  {
    if prefixes != [] {
      var last := prefixes[|prefixes| - 1];
      NamespaceAttrsDeclare(prefixes[..|prefixes| - 1], p);
      if "xmlns:" + p == "xmlns:" + last.0 {
        XmlnsInjective(p, last.0);
      }
    }
  }

  /** The settings root declares `xsi` and `opt` and nothing else. */
  lemma SettingsRootNamespaces()
    ensures NamespaceAttrs(GetPrefixMap()) == [("xmlns:xsi", XSI_NAMESPACE), ("xmlns:opt", OPT_NAMESPACE)]
    ensures FindAttr(NamespaceAttrs(GetPrefixMap()), "xmlns:vif") == None
  {
    var m := GetPrefixMap();
    assert m[..1][..0] == [] && m[..2][..1] == m[..1] && m[..3] == m && m[..3][..2] == m[..2];
    assert NamespaceAttrs(m[..1]) == [];
    assert m[..2][1] == ("xsi", XSI_NAMESPACE) && m[2] == ("opt", OPT_NAMESPACE);
    assert "xsi" != "vif" && "opt" != "vif";
    assert "xmlns:" + "xsi" == "xmlns:xsi" && "xmlns:" + "opt" == "xmlns:opt";
    assert NamespaceAttrs(m[..2]) == SetAttr([], "xmlns:xsi", XSI_NAMESPACE);
    assert "xmlns:xsi" != "xmlns:opt" by {
      assert "xmlns:xsi"[6] != "xmlns:opt"[6];
    }
    assert NamespaceAttrs(m) == SetAttr([("xmlns:xsi", XSI_NAMESPACE)], "xmlns:opt", OPT_NAMESPACE);
    NamespaceAttrsDeclare(m, "vif");
  }

  // ---- the Components ----

  lemma {:induction false} PortComponentsAt(ds: Datastore, ports: seq<string>, tabs: seq<Tab>)
    ensures |PortComponents(ds, ports, tabs)| == |ports|
    ensures forall i :: 0 <= i < |ports| ==> PortComponents(ds, ports, tabs)[i] == ComponentFor(ds, ports[i], i, tabs)
  {
    if ports != [] {
      var pre := ports[..|ports| - 1];
      PortComponentsAt(ds, pre, tabs);
      assert forall i :: 0 <= i < |pre| ==> pre[i] == ports[i];
    }
  }

  lemma {:induction false} TabElementsAt(ds: Datastore, tabs: seq<Tab>, port: nat)
    ensures |TabElements(ds, tabs, port)| == |tabs|
    ensures forall t :: 0 <= t < |tabs| ==> TabElements(ds, tabs, port)[t] == TabElement(ds, tabs[t], port)
  {
    if tabs != [] {
      var pre := tabs[..|tabs| - 1];
      TabElementsAt(ds, pre, port);
      assert forall t :: 0 <= t < |pre| ==> pre[t] == tabs[t];
    }
  }

  /** A port's Component: its label in a Port_Label first, then exactly one
      OptionalContent, marked DPAM, holding one element per tab named after
      the tab, in tab order. */
  lemma ComponentShape(ds: Datastore, portLabel: string, port: nat, tabs: seq<Tab>)
    ensures var c := ComponentFor(ds, portLabel, port, tabs);
      && IsComponent(c)
      && PortLabel(c) == Some(portLabel)
      && FindChild(c.children, OPTIONAL_CONTENT) == Some(1)
      && (forall k :: 0 <= k < |c.children| && IsElement(c.children[k], OPTIONAL_CONTENT) ==> k == 1)
      && GetAttr(c.children[1], "identifier") == Some("DPAM")
      && |c.children[1].children| == |tabs|
      && forall t :: 0 <= t < |tabs| ==>
           c.children[1].children[t].Element? && c.children[1].children[t].tag == TabTag(tabs[t].name)
  {
    TabElementsAt(ds, tabs, port);
  }

  /** The Component of the `i`-th port is the `i`-th Component, and carries the `i`-th label. */
  lemma PortComponentsLabels(ds: Datastore, ports: seq<string>, tabs: seq<Tab>)
    ensures |PortComponents(ds, ports, tabs)| == |ports|
    ensures forall i :: 0 <= i < |ports| ==>
      IsComponent(PortComponents(ds, ports, tabs)[i]) && PortLabel(PortComponents(ds, ports, tabs)[i]) == Some(ports[i])
  {
    PortComponentsAt(ds, ports, tabs);
  }

  // ---- no Component below a Component ----

  lemma OptLeafTagFree(n: Node)
    requires IsOptLeaf(n)
    ensures TagFree(n, COMPONENT)
  {
    assert COMPONENT[..4] == "vif:";
  }

  lemma {:induction false} LayoutElementsLeaves(ds: Datastore, widgets: seq<Widget>, port: nat)
    ensures forall j :: 0 <= j < |LayoutElements(ds, widgets, port)| ==> IsOptLeaf(LayoutElements(ds, widgets, port)[j])
  {
    if widgets != [] {
      LayoutElementsLeaves(ds, widgets[..|widgets| - 1], port);
    }
  }

  lemma {:induction false} TabChildrenLeaves(ds: Datastore, layouts: seq<seq<Widget>>, port: nat)
    ensures forall j :: 0 <= j < |TabChildren(ds, layouts, port)| ==> IsOptLeaf(TabChildren(ds, layouts, port)[j])
  {
    if layouts != [] {
      TabChildrenLeaves(ds, layouts[..|layouts| - 1], port);
      LayoutElementsLeaves(ds, layouts[|layouts| - 1], port);
    }
  }

  lemma TabElementTagFree(ds: Datastore, tab: Tab, port: nat)
    ensures TagFree(TabElement(ds, tab, port), COMPONENT)
  {
    var children := TabChildren(ds, tab.layouts, port);
    TabChildrenLeaves(ds, tab.layouts, port);
    forall j | 0 <= j < |children|
      ensures TagFree(children[j], COMPONENT)
    {
      OptLeafTagFree(children[j]);
    }
    assert TabTag(tab.name)[..4] == "opt:" && COMPONENT[..4] == "vif:";
  }

  lemma ComponentChildrenTagFree(ds: Datastore, portLabel: string, port: nat, tabs: seq<Tab>)
    ensures var c := ComponentFor(ds, portLabel, port, tabs);
      forall k :: 0 <= k < |c.children| ==> TagFree(c.children[k], COMPONENT)
  {
    var oc := OptionalContentFor(ds, tabs, port);
    TabElementsAt(ds, tabs, port);
    forall t | 0 <= t < |oc.children|
      ensures TagFree(oc.children[t], COMPONENT)
    {
      TabElementTagFree(ds, tabs[t], port);
    }
  }

  /** Components with no Component below them are found as they are. */
  lemma {:induction false} TopLevelComponents(nodes: seq<Node>)
    requires forall i :: 0 <= i < |nodes| ==>
      IsComponent(nodes[i]) && forall k :: 0 <= k < |nodes[i].children| ==> TagFree(nodes[i].children[k], COMPONENT)
    ensures Descendants(nodes, COMPONENT) == nodes
  {
    if nodes != [] {
      TagFreeNoDescendants(nodes[0].children, COMPONENT);
      TopLevelComponents(nodes[1..]);
      assert nodes == [nodes[0]] + nodes[1..];
    }
  }

  /** The Components the merge reads back from the settings document are the
      ports' Components, in the order of the port list. */
  lemma SettingsDocumentPorts(ds: Datastore, ports: seq<string>, tabs: seq<Tab>)
    ensures SettingsPorts(SettingsDocument(ds, ports, tabs)) == PortComponents(ds, ports, tabs)
  {
    var header := SettingsHeader();
    var comps := PortComponents(ds, ports, tabs);
    DescendantsConcat(header.children, comps, COMPONENT);
    HeaderHasNoComponent();
    PortComponentsFound(ds, ports, tabs);
  }

  /** The header holds no Component. */
  lemma HeaderHasNoComponent()
    ensures Descendants(SettingsHeader().children, COMPONENT) == []
  {
    var app := SettingsHeader().children[1];
    assert forall k :: 0 <= k < |app.children| ==> TagFree(app.children[k], COMPONENT);
    TagFreeNoDescendants(SettingsHeader().children, COMPONENT);
  }

  lemma PortComponentsFound(ds: Datastore, ports: seq<string>, tabs: seq<Tab>)
    ensures Descendants(PortComponents(ds, ports, tabs), COMPONENT) == PortComponents(ds, ports, tabs)
  {
    var comps := PortComponents(ds, ports, tabs);
    PortComponentsAt(ds, ports, tabs);
    forall i | 0 <= i < |comps|
      ensures IsComponent(comps[i]) && forall k :: 0 <= k < |comps[i].children| ==> TagFree(comps[i].children[k], COMPONENT)
    {
      ComponentChildrenTagFree(ds, ports[i], i, tabs);
    }
    TopLevelComponents(comps);
  }

  /** The editor writes no comments: nothing in the settings document is a comment. */
  lemma SettingsDocumentCommentFree(ds: Datastore, ports: seq<string>, tabs: seq<Tab>)
    ensures Comments(SettingsDocument(ds, ports, tabs)) == multiset{}
  {
    var header := SettingsHeader();
    var comps := PortComponents(ds, ports, tabs);
    PortComponentsAt(ds, ports, tabs);
    forall i | 0 <= i < |comps|
      ensures Comments(comps[i]) == multiset{}
    {
      ComponentCommentFree(ds, ports[i], i, tabs);
    }
    var app := header.children[1];
    CommentsOfAllEmpty(app.children);
    CommentsOfAllEmpty(header.children);
    CommentsOfAllEmpty(comps);
    SizeOfAllConcat(header.children, comps);
  }

  lemma ComponentCommentFree(ds: Datastore, portLabel: string, port: nat, tabs: seq<Tab>)
    ensures Comments(ComponentFor(ds, portLabel, port, tabs)) == multiset{}
  {
    var oc := OptionalContentFor(ds, tabs, port);
    TabElementsAt(ds, tabs, port);
    forall t | 0 <= t < |oc.children|
      ensures Comments(oc.children[t]) == multiset{}
    {
      var children := TabChildren(ds, tabs[t].layouts, port);
      TabChildrenLeaves(ds, tabs[t].layouts, port);
      CommentsOfAllEmpty(children);
    }
    CommentsOfAllEmpty(oc.children);
    CommentsOfAllEmpty(ComponentFor(ds, portLabel, port, tabs).children);
  }
}
