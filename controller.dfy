/** The settings encoder of dpamvifgenerator/controller/mainwindow.py: the
    per-port key/value store, the three field encodings (select, boolean,
    bit-group) and `generate_settings`, which turns the store into a settings
    document with one Component per port. Qt's widget discovery is replaced
    by a static schema: each tab is a list of layouts, each layout a list of
    widgets in the order `findChildren` yields them. */
module Controller {

  import opened Wrappers
  import opened Xml
  import opened PyInt
  import opened Script

  const TAB_SUFFIX := "_tab"
  const CBB_SUFFIX := "_cbb"
  const CHECKBOX_SUFFIX := "_checkbox"
  const GROUPBOX_SUFFIX := "_groupbox"

  // ---- the store ----

  /** What the widgets' signals store: an index or check state (an int), or a path (a str). */
  datatype StoredValue = IntValue(i: int) | StrValue(s: string)

  type Datastore = map<string, StoredValue>

  /** `get_from_store(name)`: the stored value, or "" for a key never stored. */
  function GetFromStore(ds: Datastore, name: string): StoredValue
  {
    if name in ds then ds[name] else StrValue("")
  }

  /** `"{}_{}".format(widget_name, port_value)`: the key of a widget's value for one port. */
  function StoreKey(widget: string, port: nat): string
  {
    widget + "_" + IntToString(port)
  }

  /** `int(value)`, with ValueError turned into 0 as `generate_cbb_element` does. */
  function IndexValue(v: StoredValue): (r: int)
    ensures v.IntValue? ==> r == v.i
    ensures v == StrValue("") ==> r == 0
    ensures forall n :: v == StrValue(IntToString(n)) ==> r == n
    ensures v.StrValue? && ParseInt(v.s).None? ==> r == 0
  {
    ParseIntOfEveryIntToString();
    match v
    case IntValue(i) => i
    case StrValue(s) => if ParseInt(s).Some? then ParseInt(s).value else 0
  }

  datatype CheckState = Unchecked | PartiallyChecked | Checked

  /** `Qt.CheckState(value)`: None where the enum lookup raises ValueError. */
  function ToCheckState(v: StoredValue): (r: Option<CheckState>)
    ensures r == Some(Checked) <==> v == IntValue(2)
    ensures r.None? <==> !(v.IntValue? && 0 <= v.i <= 2)
  {
    match v
    case IntValue(i) =>
      if i == 0 then Some(Unchecked)
      else if i == 1 then Some(PartiallyChecked)
      else if i == 2 then Some(Checked)
      else None
    case StrValue(_) => None
  }

  /** True when the checkbox called `name` is stored as Checked for this port. */
  predicate IsChecked(ds: Datastore, name: string, port: nat)
  {
    ToCheckState(GetFromStore(ds, StoreKey(name, port))) == Some(Checked)
  }

  // ---- the widget schema ----

  datatype Widget =
    | ComboBox(name: string, items: seq<string>)
    | CheckBox(name: string)
      /** A group box and the names of its member checkboxes, in declaration order. */
    | GroupBox(name: string, members: seq<string>)
      /** A label or any other widget the encoder skips. */
    | OtherWidget(name: string)

  /** A capability tab: its object name and the widgets of each of its layouts. */
  datatype Tab = Tab(name: string, layouts: seq<seq<Widget>>)

  /** The element name of a field: `opt:` and the object name without its suffix. */
  function FieldTag(name: string, suffix: string): string
  {
    "opt:" + RemoveSuffix(name, suffix)
  }

  /** The element name of a tab: spaces become `_` before `_tab` is removed. */
  function TabTag(name: string): string
  {
    "opt:" + RemoveSuffix(ReplaceSpaces(name), TAB_SUFFIX)
  }

  // ---- the three encodings ----

  /** `field.itemText(index)`: "" for an index outside the list. */
  function ItemText(items: seq<string>, index: int): string
  {
    if 0 <= index < |items| then items[index] else ""
  }

  /** `generate_cbb_element`: the stored index (0 when missing or not a
      number) as the `value` attribute, and that item's text. */
  function CbbElement(ds: Datastore, name: string, items: seq<string>, port: nat): (r: Node)
    ensures r.Element? && r.tag == FieldTag(name, CBB_SUFFIX) && r.children == []
    ensures GetAttr(r, "value").Some?
      && ParseInt(GetAttr(r, "value").value) == Some(IndexValue(GetFromStore(ds, StoreKey(name, port))))
    ensures StoreKey(name, port) !in ds ==> GetAttr(r, "value") == Some("0") && r.text == ItemText(items, 0)
    ensures r.text == ItemText(items, IndexValue(GetFromStore(ds, StoreKey(name, port))))
  {
    var index := IndexValue(GetFromStore(ds, StoreKey(name, port)));
    ParseIntOfIntToString(index);
    Element(FieldTag(name, CBB_SUFFIX), [("value", IntToString(index))], ItemText(items, index), [])
  }

  /** `generate_checkbox_element`: "true" exactly when the stored state is Checked. */
  function CheckboxElement(ds: Datastore, name: string, port: nat): (r: Node)
    ensures r.Element? && r.tag == FieldTag(name, CHECKBOX_SUFFIX) && r.children == [] && r.text == ""
    ensures GetAttr(r, "value") == Some("true") || GetAttr(r, "value") == Some("false")
    ensures GetAttr(r, "value") == Some("true") <==> GetFromStore(ds, StoreKey(name, port)) == IntValue(2)
  {
    var checked := IsChecked(ds, name, port);
    Element(FieldTag(name, CHECKBOX_SUFFIX), [("value", if checked then "true" else "false")], "", [])
  }

  /** The member checkboxes' states, in declaration order. */
  function CheckedStates(ds: Datastore, members: seq<string>, port: nat): (r: seq<bool>)
    ensures |r| == |members|
    ensures forall i :: 0 <= i < |members| ==> (r[i] <==> GetFromStore(ds, StoreKey(members[i], port)) == IntValue(2))
  {
    seq(|members|, i requires 0 <= i < |members| => IsChecked(ds, members[i], port))
  }

  /** The bit-group value: bit `i` stands for `states[i]`. */
  function GroupValue(states: seq<bool>): nat
  {
    if states == [] then 0 else (if states[0] then 1 else 0) + 2 * GroupValue(states[1..])
  }

  /** The names, without `_checkbox`, of the checked members, in declaration order. */
  function CheckedNames(ds: Datastore, members: seq<string>, port: nat): seq<string>
  {
    if members == [] then []
    else
      (if IsChecked(ds, members[0], port) then [RemoveSuffix(members[0], CHECKBOX_SUFFIX)] else [])
      + CheckedNames(ds, members[1..], port)
  }

  /** `generate_groupbox_element`, as the value it builds. */
  function GroupboxElement(ds: Datastore, name: string, members: seq<string>, port: nat): (r: Node)
    ensures r.Element? && r.tag == FieldTag(name, GROUPBOX_SUFFIX) && r.children == []
    ensures GetAttr(r, "value") == Some(IntToString(GroupValue(CheckedStates(ds, members, port))))
    ensures r.text == Join(", ", CheckedNames(ds, members, port))
  {
    Element(FieldTag(name, GROUPBOX_SUFFIX),
            [("value", IntToString(GroupValue(CheckedStates(ds, members, port))))],
            Join(", ", CheckedNames(ds, members, port)), [])
  }

  /** A childless element in the `opt:` namespace, as every field element is. */
  predicate IsOptLeaf(n: Node)
  {
    n.Element? && n.children == [] && |n.tag| >= 4 && n.tag[..4] == "opt:"
  }

  /** `generate_element`: one element for a combobox, checkbox or group box, none for anything else. */
  function ElementFor(ds: Datastore, w: Widget, port: nat): (r: Option<Node>)
    ensures r.None? <==> w.OtherWidget?
    ensures r.Some? ==> IsOptLeaf(r.value)
  {
    match w
    case ComboBox(name, items) => Some(CbbElement(ds, name, items, port))
    case CheckBox(name) => Some(CheckboxElement(ds, name, port))
    case GroupBox(name, members) => Some(GroupboxElement(ds, name, members, port))
    case OtherWidget(_) => None
  }

  // ---- the settings document ----

  /** `element.attrib[key] = value`: replaces the value of an existing key in
      place, or adds the key at the end. */
  function SetAttr(attrs: seq<Attr>, key: string, value: string): (r: seq<Attr>)
    ensures FindAttr(r, key) == Some(value)
    ensures forall k :: k != key ==> FindAttr(r, k) == FindAttr(attrs, k)
  {
    if attrs == [] then [(key, value)]
    else if attrs[0].0 == key then [(key, value)] + attrs[1..]
    else [attrs[0]] + SetAttr(attrs[1..], key, value)
  }

  /** The root's namespace attributes: `xmlns:<prefix>` for every prefix but `vif`. */
  function NamespaceAttrs(prefixes: seq<(string, string)>): seq<Attr>
  {
    if prefixes == [] then []
    else
      var last := prefixes[|prefixes| - 1];
      var attrs := NamespaceAttrs(prefixes[..|prefixes| - 1]);
      if last.0 != "vif" then SetAttr(attrs, "xmlns:" + last.0, last.1) else attrs
  }

  const VIF_SPEC := "3.25"
  const COMPANY := "VESA DPAM WG"
  const PRODUCT := "DPAM VIF Generator"
  const VERSION := "0.1.0"

  /** The document `generate_settings` starts from: the VIF version and the application's identity. */
  function SettingsHeader(): (r: Node)
    ensures r.Element? && r.tag == "vif:VIF" && r.attrs == [] && |r.children| == 2
  {
    Element("vif:VIF", [], "", [
      Element("vif:VIF_Specification", [], VIF_SPEC, []),
      Element("vif:VIF_App", [], "", [
        Element("vif:Vendor", [], COMPANY, []),
        Element("vif:Name", [], PRODUCT, []),
        Element("vif:Version", [], VERSION, [])])])
  }

  /** The elements of one layout's widgets, in order, skipping the other widgets. */
  function LayoutElements(ds: Datastore, widgets: seq<Widget>, port: nat): seq<Node>
  {
    if widgets == [] then []
    else
      var e := ElementFor(ds, widgets[|widgets| - 1], port);
      LayoutElements(ds, widgets[..|widgets| - 1], port) + (if e.Some? then [e.value] else [])
  }

  lemma LayoutElementsStep(ds: Datastore, layout: seq<Widget>, f: nat, port: nat)
    requires f < |layout|
    ensures LayoutElements(ds, layout[..f + 1], port) == LayoutElements(ds, layout[..f], port) + LayoutElements(ds, [layout[f]], port)
  {
    assert layout[..f + 1][..f] == layout[..f];
    assert [layout[f]][..0] == [];
  }

  /** The children of a tab element: its layouts' elements, layout after layout. */
  function TabChildren(ds: Datastore, layouts: seq<seq<Widget>>, port: nat): seq<Node>
  {
    if layouts == [] then []
    else TabChildren(ds, layouts[..|layouts| - 1], port) + LayoutElements(ds, layouts[|layouts| - 1], port)
  }

  function TabElement(ds: Datastore, tab: Tab, port: nat): Node
  {
    Element(TabTag(tab.name), [], "", TabChildren(ds, tab.layouts, port))
  }

  function TabElements(ds: Datastore, tabs: seq<Tab>, port: nat): seq<Node>
  {
    if tabs == [] then []
    else TabElements(ds, tabs[..|tabs| - 1], port) + [TabElement(ds, tabs[|tabs| - 1], port)]
  }

  const DPAM_ATTRS: seq<Attr> := [("identifier", "DPAM"), ("space", "preserve")]

  /** The DPAM block of the port at `port` in the list: one element per tab. */
  function OptionalContentFor(ds: Datastore, tabs: seq<Tab>, port: nat): Node
  {
    Element(OPTIONAL_CONTENT, DPAM_ATTRS, "", TabElements(ds, tabs, port))
  }

  /** The Component of the port at `port` in the list, labelled `portLabel`. */
  function ComponentFor(ds: Datastore, portLabel: string, port: nat, tabs: seq<Tab>): Node
  {
    Element(COMPONENT, [], "", [Element(PORT_LABEL, [], portLabel, []), OptionalContentFor(ds, tabs, port)])
  }

  /** One Component per port, in the port list's order. */
  function PortComponents(ds: Datastore, ports: seq<string>, tabs: seq<Tab>): seq<Node>
  {
    if ports == [] then []
    else PortComponents(ds, ports[..|ports| - 1], tabs) + [ComponentFor(ds, ports[|ports| - 1], |ports| - 1, tabs)]
  }

  /** The document `generate_settings` writes. */
  function SettingsDocument(ds: Datastore, ports: seq<string>, tabs: seq<Tab>): Node
  {
    var header := SettingsHeader();
    header.(attrs := NamespaceAttrs(GetPrefixMap()), children := header.children + PortComponents(ds, ports, tabs))
  }

  // ---- the window ----

  /** The main window's state that the encoder uses: the store. */
  class MainWindow {
    var ds: Datastore

    constructor (ds: Datastore)
      ensures this.ds == ds
    {
      this.ds := ds;
    }

    /** `save_to_store`: the key now holds the value; every other key is unchanged. */
    method SaveToStore(name: string, value: StoredValue)
      modifies this
      ensures ds == old(ds)[name := value]
    {
      ds := ds[name := value];
    }

    /** `generate_groupbox_element`: or-s in bit `index` and records the
        name of every Checked member, in declaration order. */
    method GenerateGroupboxElement(name: string, members: seq<string>, port: nat) returns (element: Node)
      ensures element == GroupboxElement(ds, name, members, port)
    {
      var groupValue: nat := 0;
      var textList: seq<string> := [];
      var index := 0;
      while index < |members|
        invariant 0 <= index <= |members|
        invariant groupValue == GroupValue(CheckedStates(ds, members, port)[..index]) && groupValue < Pow2(index)
        invariant textList + CheckedNames(ds, members[index..], port) == CheckedNames(ds, members, port)
      {
        var checkboxName := members[index];
        var checkboxState := ToCheckState(GetFromStore(ds, StoreKey(checkboxName, port)));
        GroupboxStep(ds, members, port, index);
        ghost var rest := CheckedNames(ds, members[index + 1..], port);
        assert textList + CheckedNames(ds, members[index..], port) == CheckedNames(ds, members, port);
        if checkboxState == Some(Checked) {
          assert IsChecked(ds, members[index], port);
          BitOrHighBit(groupValue, index);
          groupValue := BitOr(groupValue, Pow2(index));
          assert CheckedNames(ds, members[index..], port) == [RemoveSuffix(checkboxName, CHECKBOX_SUFFIX)] + rest;
          textList := textList + [RemoveSuffix(checkboxName, CHECKBOX_SUFFIX)];
        } else {
          assert CheckedNames(ds, members[index..], port) == rest;
        }
        assert textList + rest == CheckedNames(ds, members, port);
        index := index + 1;
      }
      GroupboxDone(ds, members, port);
      assert index == |members|;
      assert textList == CheckedNames(ds, members, port);
      assert groupValue == GroupValue(CheckedStates(ds, members, port));
      element := Element(FieldTag(name, GROUPBOX_SUFFIX), [("value", IntToString(groupValue))], Join(", ", textList), []);
    }

    /** `generate_element`. */
    method GenerateElement(field: Widget, port: nat) returns (element: Option<Node>)
      ensures element == ElementFor(ds, field, port)
    {
      match field
      case ComboBox(name, items) =>
        element := Some(CbbElement(ds, name, items, port));
      case CheckBox(name) =>
        element := Some(CheckboxElement(ds, name, port));
      case GroupBox(name, members) =>
        var e := GenerateGroupboxElement(name, members, port);
        element := Some(e);
      case OtherWidget(_) =>
        element := None;
    }

    /** The loop over a tab's layouts in `generate_settings`: one tab
        element, its layouts' elements appended in order. */
    method GenerateTab(tab: Tab, port: nat) returns (tabRoot: Node)
      ensures tabRoot == TabElement(ds, tab, port)
    {
      tabRoot := Element(TabTag(tab.name), [], "", []);
      var l := 0;
      while l < |tab.layouts|
        invariant 0 <= l <= |tab.layouts|
        invariant tabRoot == Element(TabTag(tab.name), [], "", TabChildren(ds, tab.layouts[..l], port))
      {
        assert tab.layouts[..l + 1][..l] == tab.layouts[..l];
        tabRoot := AppendFields(tabRoot, tab.layouts[l], port);
        l := l + 1;
      }
      assert tab.layouts[..l] == tab.layouts;
    }

    /** One step of the fields loop: the field's element, if it has one, goes last. */
    method AppendElement(children: seq<Node>, field: Widget, port: nat) returns (r: seq<Node>)
      ensures r == children + LayoutElements(ds, [field], port)
    {
      var element := GenerateElement(field, port);
      assert [field][..0] == [];
      r := children;
      if element.Some? {
        r := r + [element.value];
      }
    }

    /** The innermost loop of `generate_settings`: the element of each field
        of one layout, appended in order to the tab element. */
    method AppendFields(tabRoot: Node, layout: seq<Widget>, port: nat) returns (r: Node)
      requires tabRoot.Element?
      ensures r == tabRoot.(children := tabRoot.children + LayoutElements(ds, layout, port))
    {
      var children := [];
      var f := 0;
      while f < |layout|
        invariant 0 <= f <= |layout|
        invariant children == LayoutElements(ds, layout[..f], port)
      {
        children := AppendElement(children, layout[f], port);
        LayoutElementsStep(ds, layout, f, port);
        f := f + 1;
      }
      assert layout[..f] == layout;
      r := tabRoot.(children := tabRoot.children + children);
    }

    /** The body of the port loop of `generate_settings`: a Component holding
        the port's label and one DPAM OptionalContent with a child per tab. */
    method GenerateComponent(portLabel: string, port: nat, tabs: seq<Tab>) returns (component: Node)
      ensures component == ComponentFor(ds, portLabel, port, tabs)
    {
      var portLabelElement := Element(PORT_LABEL, [], portLabel, []);
      var optContentRoot := Element(OPTIONAL_CONTENT, DPAM_ATTRS, "", []);
      var t := 0;
      while t < |tabs|
        invariant 0 <= t <= |tabs|
        invariant optContentRoot == Element(OPTIONAL_CONTENT, DPAM_ATTRS, "", TabElements(ds, tabs[..t], port))
      {
        var tabRoot := GenerateTab(tabs[t], port);
        assert tabs[..t + 1][..t] == tabs[..t];
        optContentRoot := AppendChild(optContentRoot, tabRoot);
        t := t + 1;
      }
      assert tabs[..t] == tabs;
      component := Element(COMPONENT, [], "", [portLabelElement, optContentRoot]);
    }

    /** `generate_settings`: the header, the namespace attributes, then one
        Component per port in the order of the port list. */
    method GenerateSettings(ports: seq<string>, tabs: seq<Tab>) returns (vifRoot: Node)
      ensures vifRoot == SettingsDocument(ds, ports, tabs)
    {
      vifRoot := SettingsHeader();
      var prefixMap := GetPrefixMap();
      var i := 0;
      while i < |prefixMap|
        invariant 0 <= i <= |prefixMap|
        invariant vifRoot == SettingsHeader().(attrs := NamespaceAttrs(prefixMap[..i]))
      {
        var (name, namespace) := prefixMap[i];
        assert prefixMap[..i + 1][..i] == prefixMap[..i];
        if name != "vif" {
          vifRoot := vifRoot.(attrs := SetAttr(vifRoot.attrs, "xmlns:" + name, namespace));
        }
        i := i + 1;
      }
      assert prefixMap[..i] == prefixMap;
      var portValue := 0;
      while portValue < |ports|
        invariant 0 <= portValue <= |ports|
        invariant vifRoot == SettingsDocument(ds, ports[..portValue], tabs)
      {
        var component := GenerateComponent(ports[portValue], portValue, tabs);
        assert ports[..portValue + 1][..portValue] == ports[..portValue];
        vifRoot := AppendChild(vifRoot, component);
        portValue := portValue + 1;
      }
      assert ports[..portValue] == ports;
    }
  }

  // ---- properties of the encodings ----

  /** Adding a state after the last one sets the next bit. */
  lemma {:induction false} GroupValueAppend(states: seq<bool>, b: bool)
    ensures GroupValue(states + [b]) == GroupValue(states) + (if b then Pow2(|states|) else 0)
  {
    if states != [] {
      assert (states + [b])[0] == states[0] && (states + [b])[1..] == states[1..] + [b];
      GroupValueAppend(states[1..], b);
    }
  }

  /** One turn of the group box loop: the member at `index` sets bit `index`
      and adds its name exactly when it is checked. */
  lemma GroupboxStep(ds: Datastore, members: seq<string>, port: nat, index: nat)
    requires index < |members|
    ensures var states := CheckedStates(ds, members, port);
      GroupValue(states[..index + 1])
        == GroupValue(states[..index]) + (if IsChecked(ds, members[index], port) then Pow2(index) else 0)
    ensures CheckedNames(ds, members[index..], port)
      == (if IsChecked(ds, members[index], port) then [RemoveSuffix(members[index], CHECKBOX_SUFFIX)] else [])
         + CheckedNames(ds, members[index + 1..], port)
  {
    var states := CheckedStates(ds, members, port);
    assert states[..index + 1] == states[..index] + [states[index]];
    GroupValueAppend(states[..index], states[index]);
    assert members[index..][1..] == members[index + 1..];
  }

  lemma GroupboxDone(ds: Datastore, members: seq<string>, port: nat)
    ensures CheckedStates(ds, members, port)[..|members|] == CheckedStates(ds, members, port)
    ensures CheckedNames(ds, members[|members|..], port) == []
  {
    assert members[|members|..] == [];
  }

  /** The group element's value reads back as a number whose bit `i` is set
      exactly when member `i`'s stored state is Checked. */
  lemma GroupboxValueBits(ds: Datastore, name: string, members: seq<string>, port: nat, i: nat)
    ensures var r := GroupboxElement(ds, name, members, port);
      GetAttr(r, "value").Some? && ParseInt(GetAttr(r, "value").value).Some?
      && ParseInt(GetAttr(r, "value").value).value >= 0
      && (TestBit(ParseInt(GetAttr(r, "value").value).value as nat, i)
          <==> i < |members| && GetFromStore(ds, StoreKey(members[i], port)) == IntValue(2))
  {
    var states := CheckedStates(ds, members, port);
    ParseIntOfIntToString(GroupValue(states));
    GroupValueBits(states, i);
  }

  /** With N members the bit-group value is below 2^N. */
  lemma {:induction false} GroupValueBound(states: seq<bool>)
    ensures GroupValue(states) < Pow2(|states|)
  {
    if states != [] {
      GroupValueBound(states[1..]);
    }
  }

  /** Bit `i` of the value is set exactly when the `i`-th state is true; no bit beyond them is set. */
  lemma {:induction false} GroupValueBits(states: seq<bool>, i: nat)
    ensures TestBit(GroupValue(states), i) <==> i < |states| && states[i]
  {
    if states == [] {
      ZeroHasNoBits(i);
    } else if i > 0 {
      var v := GroupValue(states);
      assert v / 2 == GroupValue(states[1..]);
      GroupValueBits(states[1..], i - 1);
    }
  }

  lemma {:induction false} ZeroHasNoBits(i: nat)
    ensures !TestBit(0, i)
  {
    if i > 0 {
      ZeroHasNoBits(i - 1);
    }
  }

  /** Number of set bits of a non-negative integer. */
  function PopCount(v: nat): nat
  {
    if v == 0 then 0 else v % 2 + PopCount(v / 2)
  }

  function CountTrue(states: seq<bool>): nat
  {
    if states == [] then 0 else (if states[0] then 1 else 0) + CountTrue(states[1..])
  }

  /** The value has one set bit per true state. */
  lemma {:induction false} PopCountGroupValue(states: seq<bool>)
    ensures PopCount(GroupValue(states)) == CountTrue(states)
  {
    if states != [] {
      PopCountGroupValue(states[1..]);
      var v := GroupValue(states);
      if v != 0 {
        assert v / 2 == GroupValue(states[1..]);
      }
    }
  }

  /** The group's text has one name per set bit of the group's value. */
  lemma {:induction false} CheckedNamesCount(ds: Datastore, members: seq<string>, port: nat)
    ensures |CheckedNames(ds, members, port)| == PopCount(GroupValue(CheckedStates(ds, members, port)))
  {
    var states := CheckedStates(ds, members, port);
    PopCountGroupValue(states);
    if members != [] {
      CheckedNamesCount(ds, members[1..], port);
      assert states[1..] == CheckedStates(ds, members[1..], port);
      PopCountGroupValue(states[1..]);
    }
  }

  /** The group's text names exactly the checked members (without `_checkbox`). */
  lemma {:induction false} CheckedNamesMembers(ds: Datastore, members: seq<string>, port: nat, n: string)
    ensures n in CheckedNames(ds, members, port) <==>
      exists i :: 0 <= i < |members| && IsChecked(ds, members[i], port) && n == RemoveSuffix(members[i], CHECKBOX_SUFFIX)
  {
    if members != [] {
      CheckedNamesMembers(ds, members[1..], port, n);
      if exists i :: 0 <= i < |members| && IsChecked(ds, members[i], port) && n == RemoveSuffix(members[i], CHECKBOX_SUFFIX) {
        var i :| 0 <= i < |members| && IsChecked(ds, members[i], port) && n == RemoveSuffix(members[i], CHECKBOX_SUFFIX);
        if i > 0 {
          assert members[1..][i - 1] == members[i];
        }
      }
      if n in CheckedNames(ds, members[1..], port) {
        var i :| 0 <= i < |members[1..]| && IsChecked(ds, members[1..][i], port) && n == RemoveSuffix(members[1..][i], CHECKBOX_SUFFIX);
        assert members[i + 1] == members[1..][i];
      }
    }
  }

  /** Members A, B, C with A and C checked give the value 5 and the text "A, C". */
  lemma GroupboxExample()
    ensures var ds := map["A_0" := IntValue(2), "B_0" := IntValue(1), "C_0" := IntValue(2)];
      GroupboxElement(ds, "Group_groupbox", ["A", "B", "C"], 0)
        == Element("opt:Group", [("value", "5")], "A, C", [])
  {
    var ds := map["A_0" := IntValue(2), "B_0" := IntValue(1), "C_0" := IntValue(2)];
    var members := ["A", "B", "C"];
    ExampleStates(ds);
    var states := CheckedStates(ds, members, 0);
    assert states[1..] == [false, true] && states[1..][1..] == [true] && states[1..][1..][1..] == [];
    assert GroupValue(states[1..][1..][1..]) == 0;
    assert GroupValue(states[1..][1..]) == 1;
    assert GroupValue(states[1..]) == 2;
    assert GroupValue(states) == 5;
    assert IntToString(5) == "5";
    ExampleNames(ds);
    assert Join(", ", ["A", "C"]) == "A, C" by {
      assert ["A", "C"][1..] == ["C"];
    }
    assert RemoveSuffix("Group_groupbox", GROUPBOX_SUFFIX) == "Group" by {
      assert EndsWith("Group_groupbox", GROUPBOX_SUFFIX);
    }
  }

  lemma ExampleStates(ds: Datastore)
    requires ds == map["A_0" := IntValue(2), "B_0" := IntValue(1), "C_0" := IntValue(2)]
    ensures CheckedStates(ds, ["A", "B", "C"], 0) == [true, false, true]
    ensures IsChecked(ds, "A", 0) && !IsChecked(ds, "B", 0) && IsChecked(ds, "C", 0)
  {
    assert IntToString(0) == "0";
    assert StoreKey("A", 0) == "A_0" && StoreKey("B", 0) == "B_0" && StoreKey("C", 0) == "C_0";
  }

  lemma ExampleNames(ds: Datastore)
    requires ds == map["A_0" := IntValue(2), "B_0" := IntValue(1), "C_0" := IntValue(2)]
    ensures CheckedNames(ds, ["A", "B", "C"], 0) == ["A", "C"]
  {
    var members := ["A", "B", "C"];
    ExampleStates(ds);
    assert members[1..] == ["B", "C"] && members[1..][1..] == ["C"] && members[1..][1..][1..] == [];
    assert RemoveSuffix("A", CHECKBOX_SUFFIX) == "A" && RemoveSuffix("C", CHECKBOX_SUFFIX) == "C";
    assert CheckedNames(ds, members[1..][1..][1..], 0) == [];
    assert CheckedNames(ds, members[1..][1..], 0) == ["C"];
    assert CheckedNames(ds, members[1..], 0) == ["C"];
  }


  /** A store key names its widget and port: no two (widget, port) pairs share a key. */
  lemma StoreKeyInjective(w1: string, p1: nat, w2: string, p2: nat)
    requires StoreKey(w1, p1) == StoreKey(w2, p2)
    ensures w1 == w2 && p1 == p2
  {
    var d1, d2 := IntToString(p1), IntToString(p2);
    var key := StoreKey(w1, p1);
    assert key == w1 + "_" + d1 && key == w2 + "_" + d2;
    KeyShape(w1, p1);
    KeyShape(w2, p2);
    assert |w1| == |w2|;
    assert d1 == key[|key| - |d1|..] == d2;
    IntToStringInjective(p1, p2);
    assert w1 == key[..|w1|] == w2;
  }

  /** A store key is the widget name, `_`, then only digits. */
  lemma KeyShape(w: string, p: nat)
    ensures |StoreKey(w, p)| > |w| + 1 && StoreKey(w, p)[|w|] == '_'
    ensures forall j :: |w| < j < |StoreKey(w, p)| ==> IsDigit(StoreKey(w, p)[j])
  {
    var key := StoreKey(w, p);
    forall j | |w| < j < |key|
      ensures IsDigit(key[j])
    {
      assert key[j] == IntToString(p)[j - |w| - 1];
    }
  }

  /** Saving a value and reading it back: the saved key gives the value, every other key what it gave before. */
  lemma StoreSaveThenGet(ds: Datastore, name: string, value: StoredValue, other: string)
    ensures GetFromStore(ds[name := value], name) == value
    ensures other != name ==> GetFromStore(ds[name := value], other) == GetFromStore(ds, other)
    ensures other !in ds && other != name ==> GetFromStore(ds[name := value], other) == StrValue("")
  {
  }

  /** A tab name loses its suffix only when it has it; spaces become `_` first. */
  lemma TabTagSuffix(name: string)
    ensures EndsWith(ReplaceSpaces(name), TAB_SUFFIX) ==> TabTag(name) + TAB_SUFFIX == "opt:" + ReplaceSpaces(name)
    ensures !EndsWith(ReplaceSpaces(name), TAB_SUFFIX) ==> TabTag(name) == "opt:" + ReplaceSpaces(name)
  {
    PrefixedRemoveSuffix("opt:", ReplaceSpaces(name), TAB_SUFFIX);
  }

  /** A tab element's name holds no space after its `opt:` prefix. */
  lemma TabTagNoSpaces(name: string)
    ensures forall j :: 4 <= j < |TabTag(name)| ==> TabTag(name)[j] != ' '
  {
    var r := ReplaceSpaces(name);
    var body := RemoveSuffix(r, TAB_SUFFIX);
    var tag := TabTag(name);
    assert tag == "opt:" + body;
    forall j | 4 <= j < |tag|
      ensures tag[j] != ' '
    {
      assert tag[j] == body[j - 4] == r[j - 4];
    }
  }


  /** Each combobox, checkbox and group box of a layout adds one element, in order; other widgets add none. */
  lemma {:induction false} LayoutElementsCount(ds: Datastore, widgets: seq<Widget>, port: nat)
    ensures |LayoutElements(ds, widgets, port)| == |FieldWidgets(widgets)|
    ensures forall j :: 0 <= j < |FieldWidgets(widgets)| ==>
      LayoutElements(ds, widgets, port)[j] == ElementFor(ds, FieldWidgets(widgets)[j], port).value
  {
    if widgets != [] {
      var init := widgets[..|widgets| - 1];
      var last := widgets[|widgets| - 1];
      LayoutElementsCount(ds, init, port);
      var e := ElementFor(ds, last, port);
      assert LayoutElements(ds, widgets, port) == LayoutElements(ds, init, port) + (if e.Some? then [e.value] else []);
      assert FieldWidgets(widgets) == FieldWidgets(init) + (if last.OtherWidget? then [] else [last]);
      assert e.Some? <==> !last.OtherWidget?;
    }
  }

  /** The widgets of a layout that produce an element, in order. */
  function FieldWidgets(widgets: seq<Widget>): (r: seq<Widget>)
    ensures forall j :: 0 <= j < |r| ==> !r[j].OtherWidget?
    ensures forall w :: w in r <==> w in widgets && !w.OtherWidget?
    ensures |r| <= |widgets|
  {
    if widgets == [] then []
    else
      var last := widgets[|widgets| - 1];
      FieldWidgets(widgets[..|widgets| - 1]) + (if last.OtherWidget? then [] else [last])
  }

  /** The filter keeps order: the field widgets of two runs of widgets are the
      first run's, then the second's. */
  lemma {:induction false} FieldWidgetsConcat(a: seq<Widget>, b: seq<Widget>)
    ensures FieldWidgets(a + b) == FieldWidgets(a) + FieldWidgets(b)
    decreases |b|
  {
    if b != [] {
      var b' := b[..|b| - 1];
      var last := b[|b| - 1];
      assert (a + b)[..|a + b| - 1] == a + b' && (a + b)[|a + b| - 1] == last;
      FieldWidgetsConcat(a, b');
    } else {
      assert a + b == a;
    }
  }
}
