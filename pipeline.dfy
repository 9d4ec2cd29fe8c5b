/** The two halves together: what the merge of dpamvifgenerator/script.py
    makes of the settings document that `generate_settings` in
    dpamvifgenerator/controller/mainwindow.py writes. */
module Pipeline {

  import opened Wrappers
  import opened Xml
  import opened Script
  import opened ScriptLemmas
  import opened Controller
  import opened SettingsLemmas

  /** What the merge reads from one port's Component: its label and its DPAM
      block, or InvalidSettingsXML for an empty label. */
  lemma SettingsEntryOfComponent(ds: Datastore, portLabel: string, port: nat, tabs: seq<Tab>)
    ensures SettingsEntry(ComponentFor(ds, portLabel, port, tabs))
      == if portLabel == "" then Failure(InvalidSettingsXML(MissingPortLabel))
         else Success((portLabel, Some(OptionalContentFor(ds, tabs, port))))
  {
    var c := ComponentFor(ds, portLabel, port, tabs);
    var oc := OptionalContentFor(ds, tabs, port);
    ComponentShape(ds, portLabel, port, tabs);
    var pl := c.children[0];
    assert c.children[1..] == [oc] && c.children[1..][1..] == [];
    assert PORT_LABEL[0] != OPTIONAL_CONTENT[0];
    assert DescendantsOf(pl, OPTIONAL_CONTENT) == [];
    assert DescendantsOf(oc, OPTIONAL_CONTENT) == [oc] + Descendants(oc.children, OPTIONAL_CONTENT);
    assert Descendants([oc], OPTIONAL_CONTENT) == DescendantsOf(oc, OPTIONAL_CONTENT);
    assert Descendants(c.children, OPTIONAL_CONTENT) == [oc] + Descendants(oc.children, OPTIONAL_CONTENT);
  }

  lemma EntriesOfDocument(ds: Datastore, ports: seq<string>, tabs: seq<Tab>)
    ensures var comps := SettingsPorts(SettingsDocument(ds, ports, tabs));
      && |comps| == |ports|
      && forall i :: 0 <= i < |ports| ==>
           SettingsEntry(comps[i]) == if ports[i] == "" then Failure(InvalidSettingsXML(MissingPortLabel))
                                      else Success((ports[i], Some(OptionalContentFor(ds, tabs, i))))
  {
    SettingsDocumentPorts(ds, ports, tabs);
    PortComponentsAt(ds, ports, tabs);
    forall i | 0 <= i < |ports| {
      SettingsEntryOfComponent(ds, ports[i], i, tabs);
    }
  }

  /** The label map built from the editor's settings document fails, with
      InvalidSettingsXML, exactly when some port label is empty. */
  lemma GeneratedSettingsRejectEmptyLabel(ds: Datastore, ports: seq<string>, tabs: seq<Tab>)
    ensures var r := BuildPortSettings(SettingsPorts(SettingsDocument(ds, ports, tabs)));
      && (r.Failure? <==> "" in ports)
      && (r.Failure? ==> r.error == InvalidSettingsXML(MissingPortLabel))
  {
    var comps := SettingsPorts(SettingsDocument(ds, ports, tabs));
    var r := BuildPortSettings(comps);
    EntriesOfDocument(ds, ports, tabs);
    PortSettingsFirstError(comps);
    if r.Failure? {
      PortSettingsErrorSource(comps);
      var i :| 0 <= i < |comps| && SettingsEntry(comps[i]) == Failure(r.error);
      assert ports[i] == "";
    } else {
      forall i | 0 <= i < |ports|
        ensures ports[i] != ""
      {
        assert SettingsEntry(comps[i]).Success?;
      }
    }
  }

  /** When every port label is non-empty, the label map's keys are the port
      labels, and each label maps to the DPAM block of the last port carrying it. */
  lemma GeneratedSettingsLabelMap(ds: Datastore, ports: seq<string>, tabs: seq<Tab>)
    requires "" !in ports
    ensures BuildPortSettings(SettingsPorts(SettingsDocument(ds, ports, tabs))).Success?
    ensures var m := BuildPortSettings(SettingsPorts(SettingsDocument(ds, ports, tabs))).value;
      forall l :: l in m <==> l in ports
    ensures var m := BuildPortSettings(SettingsPorts(SettingsDocument(ds, ports, tabs))).value;
      forall l :: l in m ==> m[l].Some?
    ensures var m := BuildPortSettings(SettingsPorts(SettingsDocument(ds, ports, tabs))).value;
      forall i :: (0 <= i < |ports| && forall j :: i < j < |ports| ==> ports[j] != ports[i])
        ==> ports[i] in m && m[ports[i]] == Some(OptionalContentFor(ds, tabs, i))
  {
    var comps := SettingsPorts(SettingsDocument(ds, ports, tabs));
    GeneratedSettingsRejectEmptyLabel(ds, ports, tabs);
    EntriesOfDocument(ds, ports, tabs);
    PortSettingsKeys(comps, ports);
    forall i | 0 <= i < |ports| && forall j :: i < j < |ports| ==> ports[j] != ports[i]
      ensures var m := BuildPortSettings(comps).value;
        ports[i] in m && m[ports[i]] == Some(OptionalContentFor(ds, tabs, i))
    {
      GeneratedSettingsLastPort(ds, ports, tabs, i);
    }
  }

  /** The label of the port at `i`, carried by no later port, maps to that port's DPAM block. */
  lemma GeneratedSettingsLastPort(ds: Datastore, ports: seq<string>, tabs: seq<Tab>, i: nat)
    requires "" !in ports && i < |ports| && forall j :: i < j < |ports| ==> ports[j] != ports[i]
    ensures BuildPortSettings(SettingsPorts(SettingsDocument(ds, ports, tabs))).Success?
    ensures var m := BuildPortSettings(SettingsPorts(SettingsDocument(ds, ports, tabs))).value;
      ports[i] in m && m[ports[i]] == Some(OptionalContentFor(ds, tabs, i))
  {
    var comps := SettingsPorts(SettingsDocument(ds, ports, tabs));
    GeneratedSettingsRejectEmptyLabel(ds, ports, tabs);
    EntriesOfDocument(ds, ports, tabs);
    PortSettingsLastWinsAt(comps, i);
  }

  /** The keys of the label map are the labels of the settings Components, and no key maps to None. */
  lemma PortSettingsKeys(comps: seq<Node>, labels: seq<string>)
    requires forall j :: 0 <= j < |comps| ==> comps[j].Element?
    requires BuildPortSettings(comps).Success? && |comps| == |labels|
    requires forall i :: 0 <= i < |comps| ==>
      (SettingsEntry(comps[i]).Success? && SettingsEntry(comps[i]).value.0 == labels[i] && SettingsEntry(comps[i]).value.1.Some?)
    ensures forall l :: l in BuildPortSettings(comps).value <==> l in labels
    ensures forall l :: l in BuildPortSettings(comps).value ==> BuildPortSettings(comps).value[l].Some?
  {
    var m := BuildPortSettings(comps).value;
    PortSettingsHasEveryLabel(comps);
    PortSettingsOrigin(comps);
    forall l | l in m
      ensures l in labels && m[l].Some?
    {
      var j :| 0 <= j < |comps| && SettingsEntry(comps[j]) == Success((l, m[l]));
      assert labels[j] == l;
    }
    forall l | l in labels
      ensures l in m
    {
      var i :| 0 <= i < |labels| && labels[i] == l;
      assert SettingsEntry(comps[i]).value.0 == l;
    }
  }

  /** With non-empty port labels, merging the editor's settings document into
      an input VIF runs to the end exactly when every input Component has a
      Port_Label whose text is one of the ports. */
  lemma GeneratedSettingsMerge(input: Node, ds: Datastore, ports: seq<string>, tabs: seq<Tab>)
    requires input.Element? && "" !in ports
    ensures DpamVif(input, SettingsDocument(ds, ports, tabs)).outcome.Pass? <==>
      forall k :: 0 <= k < |input.children| && IsComponent(input.children[k]) ==>
        PortLabel(input.children[k]).Some? && PortLabel(input.children[k]).value in ports
  {
    GeneratedSettingsLabelMap(ds, ports, tabs);
    GeneratedSettingsRejectEmptyLabel(ds, ports, tabs);
    var ps := BuildPortSettings(SettingsPorts(SettingsDocument(ds, ports, tabs))).value;
    MergeNodesRunsThrough(input.children, ps);
    forall k | 0 <= k < |input.children| && IsComponent(input.children[k])
      ensures ComponentFails(input.children[k], ps) <==>
        !(PortLabel(input.children[k]).Some? && PortLabel(input.children[k]).value in ports)
    {
    }
  }

  /** The settings file the editor writes loads back as the very document it
      wrote: it has no comments for the parser to drop. */
  lemma LoadGeneratedSettings(files: map<string, FileContent>, path: string, ds: Datastore, ports: seq<string>, tabs: seq<Tab>)
    requires path in files && files[path] == WellFormed(SettingsDocument(ds, ports, tabs))
    ensures LoadDpamSettings(files, Path(path)) == Success(SettingsDocument(ds, ports, tabs))
  {
    SettingsDocumentCommentFree(ds, ports, tabs);
    StripCommentFree(SettingsDocument(ds, ports, tabs));
  }
}
