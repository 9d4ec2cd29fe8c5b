/** The batch generator of dpamvifgenerator/script.py: the argument check of
    the generator's constructor, the namespace prefix map, loading the two
    documents, the merge of each port's DPAM OptionalContent block into the
    input VIF, and the order load, load, merge, write. */
module Script {

  import opened Wrappers
  import opened Xml

  const VIF_NAMESPACE := "http://usb.org/VendorInfoFile.xsd"
  const XSI_NAMESPACE := "http://www.w3.org/2001/XMLSchema-instance"
  const OPT_NAMESPACE := "http://usb.org/VendorInfoFileOptionalContent.xsd"

  const COMPONENT := "vif:Component"
  const PORT_LABEL := "vif:Port_Label"
  const OPTIONAL_CONTENT := "opt:OptionalContent"

  /** `dict(pairs)`: a later pair for the same key wins. */
  function PairsToMap(pairs: seq<(string, string)>): map<string, string>
  {
    if pairs == [] then map[]
    else PairsToMap(pairs[..|pairs| - 1])[pairs[|pairs| - 1].0 := pairs[|pairs| - 1].1]
  }

  /** `get_prefix_map()`, in the dictionary's insertion order. */
  function GetPrefixMap(): (m: seq<(string, string)>)
    ensures forall i, j :: 0 <= i < j < |m| ==> m[i].0 != m[j].0
    ensures PairsToMap(m) == map["vif" := VIF_NAMESPACE, "xsi" := XSI_NAMESPACE, "opt" := OPT_NAMESPACE]
  {
    var m := [("vif", VIF_NAMESPACE), ("xsi", XSI_NAMESPACE), ("opt", OPT_NAMESPACE)];
    assert PairsToMap(m[..1]) == map["vif" := VIF_NAMESPACE] by {
      assert m[..1][..0] == [];
    }
    assert PairsToMap(m[..2]) == map["vif" := VIF_NAMESPACE, "xsi" := XSI_NAMESPACE] by {
      assert m[..2][..1] == m[..1];
    }
    assert m[..3] == m && m[..3][..2] == m[..2];
    m
  }

  // ---- errors ----

  /** A value handed to the generator for a path: a string, or Python's None
      (what the command line passes for an option that was not given). */
  datatype PathArg = Path(path: string) | NoneArg

  datatype SettingsCause = Unparsable(settings: PathArg, detail: string) | MissingPortLabel

  /** The exceptions the generator lets escape. */
  datatype Error =
    | MissingGeneratorArg(key: string)
    | InvalidInputVIF(inVif: PathArg, detail: string)
    | InvalidSettingsXML(cause: SettingsCause)
      /** `port_settings[port_name]` for a label no settings Component has ("" stands for None). */
    | KeyError(portLabel: string)
      /** `.text` read from the None that `find("vif:Port_Label")` returns. */
    | AttributeError
    | TypeError(detail: string)

  const APPEND_NONE := "append() argument must be xml.etree.ElementTree.Element, not None"
  const PATH_NONE := "expected str, bytes or os.PathLike object, not NoneType"

  // ---- constructor ----

  const GENERATOR_ARGS := ["in_vif", "out_vif", "settings"]

  datatype DpamVifGenerator = DpamVifGenerator(inVif: PathArg, outVif: PathArg, settings: PathArg)

  /** The first of `keys` that `kwargs` lacks. */
  function FirstMissing(keys: seq<string>, kwargs: map<string, PathArg>): (r: Option<nat>)
    ensures r.Some? ==> r.value < |keys| && keys[r.value] !in kwargs
    ensures r.Some? ==> forall j :: 0 <= j < r.value ==> keys[j] in kwargs
    ensures r.None? ==> forall j :: 0 <= j < |keys| ==> keys[j] in kwargs
  {
    if keys == [] then None
    else if keys[0] !in kwargs then Some(0)
    else match FirstMissing(keys[1..], kwargs)
      case None => None
      case Some(k) => Some(k + 1)
  }

  /** `DPAMVIFGenerator(**kwargs)`: every argument is recorded unchanged; the
      first of in_vif, out_vif, settings that is absent raises
      MissingGeneratorArg. Other keys are ignored, and a present None is kept. */
  function NewDpamVifGenerator(kwargs: map<string, PathArg>): (r: Result<DpamVifGenerator, Error>)
    ensures r.Failure? <==> exists k :: k in GENERATOR_ARGS && k !in kwargs
    ensures r.Failure? ==>
      exists j :: (0 <= j < |GENERATOR_ARGS| && r.error == MissingGeneratorArg(GENERATOR_ARGS[j])
                   && GENERATOR_ARGS[j] !in kwargs && forall i :: 0 <= i < j ==> GENERATOR_ARGS[i] in kwargs)
    ensures r.Success? ==>
      (r.value.inVif == kwargs["in_vif"] && r.value.outVif == kwargs["out_vif"] && r.value.settings == kwargs["settings"])
  {
    match FirstMissing(GENERATOR_ARGS, kwargs)
    case Some(j) => Failure(MissingGeneratorArg(GENERATOR_ARGS[j]))
    case None =>
      assert GENERATOR_ARGS[0] in kwargs && GENERATOR_ARGS[1] in kwargs && GENERATOR_ARGS[2] in kwargs;
      Success(DpamVifGenerator(kwargs["in_vif"], kwargs["out_vif"], kwargs["settings"]))
  }

  // ---- loading ----

  /** What a file holds: a document the parser accepts (its root, comments
      included), or text it rejects with the given message. */
  datatype FileContent = WellFormed(root: Node) | Malformed(detail: string)

  /** `ET.parse(path)`; the parse error's message on failure. */
  function ParseFile(files: map<string, FileContent>, p: PathArg, insertComments: bool): (r: Result<Node, string>)
    ensures r.Success? ==> r.value.Element?
    ensures r.Success? && !insertComments ==> Comments(r.value) == multiset{}
  {
    match p
    case NoneArg => Failure(PATH_NONE)
    case Path(path) =>
      if path !in files then Failure("No such file or directory: " + path)
      else match files[path]
        case Malformed(detail) => Failure(detail)
        case WellFormed(root) =>
          if root.Comment? then Failure("no element found")
          else if insertComments then Success(root) else Success(StripComments(root))
  }

  /** `load_input_vif`: parsed with comments kept; any failure becomes InvalidInputVIF. */
  function LoadInputVif(files: map<string, FileContent>, inVif: PathArg): (r: Result<Node, Error>)
    ensures r.Failure? ==> r.error.InvalidInputVIF? && r.error.inVif == inVif
    ensures r.Success? ==>
      (r.value.Element? && inVif.Path? && inVif.path in files && files[inVif.path] == WellFormed(r.value))
    ensures r.Success? <==>
      inVif.Path? && inVif.path in files && files[inVif.path].WellFormed? && files[inVif.path].root.Element?
  {
    match ParseFile(files, inVif, true)
    case Failure(detail) => Failure(InvalidInputVIF(inVif, detail))
    case Success(root) => Success(root)
  }

  /** `load_dpam_settings`: parsed without comments; any failure becomes InvalidSettingsXML. */
  function LoadDpamSettings(files: map<string, FileContent>, settings: PathArg): (r: Result<Node, Error>)
    ensures r.Failure? ==> r.error.InvalidSettingsXML? && r.error.cause.Unparsable? && r.error.cause.settings == settings
    ensures r.Success? ==> r.value.Element? && Comments(r.value) == multiset{}
    ensures r.Success? <==>
      settings.Path? && settings.path in files && files[settings.path].WellFormed? && files[settings.path].root.Element?
    ensures r.Success? ==> r.value == StripComments(files[settings.path].root)
  {
    match ParseFile(files, settings, false)
    case Failure(detail) => Failure(InvalidSettingsXML(Unparsable(settings, detail)))
    case Success(root) => Success(root)
  }

  // ---- the label map ----

  /** Port label -> the settings Component's first OptionalContent (None if it has none). */
  type PortSettings = map<string, Option<Node>>

  /** `port.find("vif:Port_Label").text`; None where `find` finds nothing
      and reading `.text` raises AttributeError. */
  function PortLabel(port: Node): (r: Option<string>)
    requires port.Element?
    ensures r.None? <==> forall j :: 0 <= j < |port.children| ==> !IsElement(port.children[j], PORT_LABEL)
    ensures r.Some? ==>
      (FindChild(port.children, PORT_LABEL).Some?
       && r.value == port.children[FindChild(port.children, PORT_LABEL).value].text)
  {
    match FindChild(port.children, PORT_LABEL)
    case None => None
    case Some(k) => Some(port.children[k].text)
  }

  /** What one settings Component contributes to the label map: its label,
      which must be non-empty, and the first OptionalContent below it. */
  function SettingsEntry(port: Node): (r: Result<(string, Option<Node>), Error>)
    requires port.Element?
    ensures r.Success? ==> r.value.0 != "" && Some(r.value.0) == PortLabel(port)
    ensures r.Success? <==> PortLabel(port).Some? && PortLabel(port).value != ""
    ensures PortLabel(port).None? ==> r == Failure(AttributeError)
    ensures PortLabel(port) == Some("") ==> r == Failure(InvalidSettingsXML(MissingPortLabel))
    ensures r.Success? ==> r.value.1 == FindDescendant(port.children, OPTIONAL_CONTENT)
  {
    match PortLabel(port)
    case None => Failure(AttributeError)
    case Some(portName) =>
      if portName == "" then Failure(InvalidSettingsXML(MissingPortLabel))
      else Success((portName, FindDescendant(port.children, OPTIONAL_CONTENT)))
  }

  /** The label map built from the settings Components in document order. */
  function BuildPortSettings(ports: seq<Node>): (r: Result<PortSettings, Error>)
    requires forall j :: 0 <= j < |ports| ==> ports[j].Element?
  {
    if ports == [] then Success(map[])
    else
      match BuildPortSettings(ports[..|ports| - 1])
      case Failure(e) => Failure(e)
      case Success(m) =>
        match SettingsEntry(ports[|ports| - 1])
        case Failure(e) => Failure(e)
        case Success(entry) => Success(m[entry.0 := entry.1])
  }

  /** The settings Components of a settings document, in document order. */
  function SettingsPorts(settingsRoot: Node): (r: seq<Node>)
    requires settingsRoot.Element?
    ensures forall j :: 0 <= j < |r| ==> r[j].Element?
  {
    Descendants(settingsRoot.children, COMPONENT)
  }

  // ---- the merge ----

  predicate IsComponent(n: Node) { IsElement(n, COMPONENT) }

  /** `port_settings[label]`, which must also be an element for `append` to take it. */
  function LookupDpam(ps: PortSettings, portLabel: string): (r: Result<Node, Error>)
  {
    if portLabel !in ps then Failure(KeyError(portLabel))
    else match ps[portLabel]
      case None => Failure(TypeError(APPEND_NONE))
      case Some(n) => Success(n)
  }

  /** True when the Component's first OptionalContent child exists and has a
      child (ElementTree's truth value of an element). */
  predicate HasFilledOptionalContent(port: Node)
    requires port.Element?
  {
    var o := FindChild(port.children, OPTIONAL_CONTENT);
    o.Some? && |port.children[o.value].children| > 0
  }

  /** One input Component after the DPAM block for its label is appended. */
  function MergeComponent(port: Node, ps: PortSettings): (r: Result<Node, Error>)
    requires port.Element?
    ensures r.Success? ==> r.value.Element? && r.value.tag == port.tag
    ensures PortLabel(port).None? ==> r == Failure(AttributeError)
    ensures PortLabel(port).Some? && PortLabel(port).value !in ps ==> r == Failure(KeyError(PortLabel(port).value))
    ensures PortLabel(port).Some? && PortLabel(port).value in ps && ps[PortLabel(port).value].None? ==>
      r == Failure(TypeError(APPEND_NONE))
    ensures r.Success? <==> PortLabel(port).Some? && PortLabel(port).value in ps && ps[PortLabel(port).value].Some?
  {
    match PortLabel(port)
    case None => Failure(AttributeError)
    case Some(portName) =>
      match LookupDpam(ps, portName)
      case Failure(e) => Failure(e)
      case Success(dpam) =>
        if HasFilledOptionalContent(port) then
          var o := FindChild(port.children, OPTIONAL_CONTENT).value;
          Success(port.(children := port.children[o := AppendChild(port.children[o], dpam)]))
        else
          Success(AppendChild(port, dpam))
  }

  /** The nodes after a merge pass, and whether it ran to the end. */
  datatype MergeState = MergeState(nodes: seq<Node>, outcome: Outcome<Error>)

  /** The merge pass over the root's children: Components are merged in
      document order, other nodes are left alone, and the first failing
      Component stops the pass with it and everything after it unchanged. */
  function MergeNodes(nodes: seq<Node>, ps: PortSettings): (r: MergeState)
  {
    if nodes == [] then MergeState([], Pass)
    else
      var head := if IsComponent(nodes[0]) then MergeComponent(nodes[0], ps) else Success(nodes[0]);
      match head
      case Failure(e) => MergeState(nodes, Fail(e))
      case Success(n) =>
        var rest := MergeNodes(nodes[1..], ps);
        MergeState([n] + rest.nodes, rest.outcome)
  }

  /** `generate_dpam_vif` on values: the label map first, then the merge pass. */
  function DpamVif(inputRoot: Node, settingsRoot: Node): MergeState
    requires inputRoot.Element? && settingsRoot.Element?
  {
    match BuildPortSettings(SettingsPorts(settingsRoot))
    case Failure(e) => MergeState(inputRoot.children, Fail(e))
    case Success(ps) => MergeNodes(inputRoot.children, ps)
  }

  /** A parsed document whose root the merge changes in place. */
  class ElementTree {
    var root: Node

    constructor (root: Node)
      ensures this.root == root
    {
      this.root := root;
    }
  }

  /** `generate_dpam_vif`: builds the label map from the settings Components,
      then appends each input Component's DPAM block. A bad settings label
      stops it before the input is touched; a failing input Component stops it
      with the Components before it already changed. */
  method GenerateDpamVif(inputVif: ElementTree, dpamSettings: ElementTree) returns (outcome: Outcome<Error>)
    requires inputVif.root.Element? && dpamSettings.root.Element?
    modifies inputVif
    ensures var r := DpamVif(old(inputVif.root), old(dpamSettings.root));
      outcome == r.outcome && inputVif.root == old(inputVif.root).(children := r.nodes)
  {
    // Label -> DPAM block, from the settings Components
    var portSettings := GetPortSettings(dpamSettings.root);
    if portSettings.Failure? {
      return Fail(portSettings.error);
    }
    // Then every input Component receives its block
    outcome := InsertDpamBlocks(inputVif, portSettings.value);
  }

  /** The first loop of `generate_dpam_vif`: the label map, filled in
      document order, or the error of the first Component without a label. */
  method GetPortSettings(settingsRoot: Node) returns (r: Result<PortSettings, Error>)
    requires settingsRoot.Element?
    ensures r == BuildPortSettings(SettingsPorts(settingsRoot))
  {
    var ports := SettingsPorts(settingsRoot);
    var portSettings: PortSettings := map[];
    var i := 0;
    while i < |ports|
      invariant 0 <= i <= |ports|
      invariant BuildPortSettings(ports[..i]) == Success(portSettings)
    {
      assert ports[..i + 1][..i] == ports[..i];
      var labelIndex := FindChild(ports[i].children, PORT_LABEL);
      if labelIndex.None? {
        BuildPortSettingsStops(ports, i);
        return Failure(AttributeError);
      }
      var portName := ports[i].children[labelIndex.value].text;
      if portName == "" {
        BuildPortSettingsStops(ports, i);
        return Failure(InvalidSettingsXML(MissingPortLabel));
      }
      portSettings := portSettings[portName := FindDescendant(ports[i].children, OPTIONAL_CONTENT)];
      i := i + 1;
    }
    assert ports[..i] == ports;
    return Success(portSettings);
  }

  /** The body of the insertion loop for one Component: the Component with its
      DPAM block appended, or the error that stops the loop. */
  method MergePort(port: Node, portSettings: PortSettings) returns (r: Result<Node, Error>)
    requires IsComponent(port)
    ensures r == MergeComponent(port, portSettings)
  {
    var labelIndex := FindChild(port.children, PORT_LABEL);
    if labelIndex.None? {
      return Failure(AttributeError);
    }
    var portName := port.children[labelIndex.value].text;
    // The first OptionalContent child, if there is one
    var optionalContent := FindChild(port.children, OPTIONAL_CONTENT);
    if optionalContent.Some? && |port.children[optionalContent.value].children| > 0 {
      // It has children: the block goes inside it, last
      var dpam := LookupDpam(portSettings, portName);
      if dpam.Failure? {
        return Failure(dpam.error);
      }
      var o := optionalContent.value;
      r := Success(port.(children := port.children[o := AppendChild(port.children[o], dpam.value)]));
    } else {
      // Absent or empty: the block becomes the Component's last child
      var dpam := LookupDpam(portSettings, portName);
      if dpam.Failure? {
        return Failure(dpam.error);
      }
      r := Success(AppendChild(port, dpam.value));
    }
  }

  /** The second loop of `generate_dpam_vif`: each Component among the root's
      children, in document order, gets the DPAM block for its label. */
  method InsertDpamBlocks(inputVif: ElementTree, portSettings: PortSettings) returns (outcome: Outcome<Error>)
    requires inputVif.root.Element?
    modifies inputVif
    ensures var r := MergeNodes(old(inputVif.root.children), portSettings);
      outcome == r.outcome && inputVif.root == old(inputVif.root).(children := r.nodes)
  {
    ghost var original := inputVif.root.children;
    var j := 0;
    while j < |inputVif.root.children|
      invariant inputVif.root.Element? && 0 <= j <= |original| == |inputVif.root.children|
      invariant inputVif.root == old(inputVif.root).(children := inputVif.root.children)
      invariant inputVif.root.children[j..] == original[j..]
      invariant MergeNodes(original, portSettings) == Prepend(inputVif.root.children[..j], MergeNodes(original[j..], portSettings))
    {
      var port := inputVif.root.children[j];
      InsertStep(inputVif.root.children, original, j, portSettings);
      if IsComponent(port) {
        var merged := MergePort(port, portSettings);
        if merged.Failure? {
          return Fail(merged.error);
        }
        inputVif.root := inputVif.root.(children := inputVif.root.children[j := merged.value]);
      }
      j := j + 1;
    }
    InsertDone(inputVif.root.children, original, portSettings);
    return Pass;
  }

  /** `done` put in front of what the rest of a merge pass produces. */
  function Prepend(done: seq<Node>, rest: MergeState): MergeState
  {
    MergeState(done + rest.nodes, rest.outcome)
  }

  /** One turn of the insertion loop, seen from the merge pass: a failing
      Component ends the pass with the children as they stand, and any other
      node, merged or left alone, extends the finished prefix by one. */
  lemma InsertStep(cur: seq<Node>, original: seq<Node>, j: nat, ps: PortSettings)
    requires j < |cur| == |original| && cur[j..] == original[j..]
    requires MergeNodes(original, ps) == Prepend(cur[..j], MergeNodes(original[j..], ps))
    ensures IsComponent(cur[j]) && MergeComponent(cur[j], ps).Failure? ==>
      MergeNodes(original, ps) == MergeState(cur, Fail(MergeComponent(cur[j], ps).error))
    ensures IsComponent(cur[j]) && MergeComponent(cur[j], ps).Success? ==>
      var next := cur[j := MergeComponent(cur[j], ps).value];
      next[j + 1..] == original[j + 1..]
      && MergeNodes(original, ps) == Prepend(next[..j + 1], MergeNodes(original[j + 1..], ps))
    ensures !IsComponent(cur[j]) ==>
      MergeNodes(original, ps) == Prepend(cur[..j + 1], MergeNodes(original[j + 1..], ps))
  {
    var rest := MergeNodes(original[j + 1..], ps);
    MergeNodesHead(original[j..], ps);
    assert original[j..][0] == cur[j] && original[j..][1..] == original[j + 1..];
    if IsComponent(cur[j]) && MergeComponent(cur[j], ps).Failure? {
      assert cur[..j] + original[j..] == cur;
    } else if IsComponent(cur[j]) {
      var next := cur[j := MergeComponent(cur[j], ps).value];
      assert next[..j] == cur[..j];
      PrependOne(next, j, rest);
    } else {
      PrependOne(cur, j, rest);
    }
  }

  /** When the loop has visited every child, the pass has run to the end. */
  lemma InsertDone(cur: seq<Node>, original: seq<Node>, ps: PortSettings)
    requires |cur| == |original|
    requires MergeNodes(original, ps) == Prepend(cur[..|cur|], MergeNodes(original[|cur|..], ps))
    ensures MergeNodes(original, ps) == MergeState(cur, Pass)
  {
    assert original[|cur|..] == [] && cur[..|cur|] == cur && cur + [] == cur;
  }

  lemma PrependOne(nodes: seq<Node>, j: nat, rest: MergeState)
    requires j < |nodes|
    ensures Prepend(nodes[..j], Prepend([nodes[j]], rest)) == Prepend(nodes[..j + 1], rest)
  {
    assert nodes[..j + 1] == nodes[..j] + [nodes[j]];
  }

  /** One step of the merge pass. */
  lemma MergeNodesHead(nodes: seq<Node>, ps: PortSettings)
    requires |nodes| > 0
    ensures IsComponent(nodes[0]) && MergeComponent(nodes[0], ps).Failure? ==>
      MergeNodes(nodes, ps) == MergeState(nodes, Fail(MergeComponent(nodes[0], ps).error))
    ensures IsComponent(nodes[0]) && MergeComponent(nodes[0], ps).Success? ==>
      MergeNodes(nodes, ps) == Prepend([MergeComponent(nodes[0], ps).value], MergeNodes(nodes[1..], ps))
    ensures !IsComponent(nodes[0]) ==> MergeNodes(nodes, ps) == Prepend([nodes[0]], MergeNodes(nodes[1..], ps))
  {
  }

  /** A settings Component whose entry fails makes the whole label map fail
      with that error, whatever follows it. */
  lemma {:induction false} BuildPortSettingsStops(ports: seq<Node>, i: nat)
    requires forall j :: 0 <= j < |ports| ==> ports[j].Element?
    requires i < |ports| && BuildPortSettings(ports[..i]).Success? && SettingsEntry(ports[i]).Failure?
    ensures BuildPortSettings(ports) == Failure(SettingsEntry(ports[i]).error)
  {
    var prefix := ports[..i + 1];
    assert prefix[..|prefix| - 1] == ports[..i];
    BuildPortSettingsLastFails(prefix);
    BuildPortSettingsPrefixFails(ports, i + 1);
  }

  lemma BuildPortSettingsLastFails(ports: seq<Node>)
    requires |ports| > 0 && forall j :: 0 <= j < |ports| ==> ports[j].Element?
    requires BuildPortSettings(ports[..|ports| - 1]).Success? && SettingsEntry(ports[|ports| - 1]).Failure?
    ensures BuildPortSettings(ports) == Failure(SettingsEntry(ports[|ports| - 1]).error)
  {
  }

  lemma {:induction false} BuildPortSettingsPrefixFails(ports: seq<Node>, n: nat)
    requires forall j :: 0 <= j < |ports| ==> ports[j].Element?
    requires n <= |ports| && BuildPortSettings(ports[..n]).Failure?
    ensures BuildPortSettings(ports) == BuildPortSettings(ports[..n])
    decreases |ports| - n
  {
    if n < |ports| {
      assert ports[..n + 1][..n] == ports[..n];
      BuildPortSettingsPrefixFails(ports, n + 1);
    } else {
      assert ports[..n] == ports;
    }
  }

  // ---- the whole batch run ----

  /** The file system the loads read and the final write changes. */
  class FileSystem {
    var files: map<string, FileContent>

    constructor (files: map<string, FileContent>)
      ensures this.files == files
    {
      this.files := files;
    }
  }

  /** What `generate_vif` produces from the files as they are: the first
      error of load input, load settings, merge, write, or the merged input. */
  function GenerateVifResult(g: DpamVifGenerator, files: map<string, FileContent>): Result<Node, Error>
  {
    match LoadInputVif(files, g.inVif)
    case Failure(e) => Failure(e)
    case Success(input) =>
      match LoadDpamSettings(files, g.settings)
      case Failure(e) => Failure(e)
      case Success(settings) =>
        var m := DpamVif(input, settings);
        if m.outcome.Fail? then Failure(m.outcome.error)
        else if g.outVif.NoneArg? then Failure(TypeError(PATH_NONE))
        else Success(input.(children := m.nodes))
  }

  /** `write_output_vif`: the tree becomes the content of the output file. */
  method WriteOutputVif(generatedVif: ElementTree, outVif: PathArg, fs: FileSystem) returns (outcome: Outcome<Error>)
    modifies fs
    ensures outVif.NoneArg? ==> outcome == Fail(TypeError(PATH_NONE)) && fs.files == old(fs.files)
    ensures outVif.Path? ==> outcome == Pass && fs.files == old(fs.files)[outVif.path := WellFormed(generatedVif.root)]
  {
    if outVif.NoneArg? {
      return Fail(TypeError(PATH_NONE));
    }
    fs.files := fs.files[outVif.path := WellFormed(generatedVif.root)];
    return Pass;
  }

  /** `generate_vif`: load the input, load the settings, merge, write. The
      output file is written only when every earlier step succeeded. */
  method GenerateVif(g: DpamVifGenerator, fs: FileSystem) returns (outcome: Outcome<Error>)
    modifies fs
    ensures match GenerateVifResult(g, old(fs.files))
      case Failure(e) => outcome == Fail(e) && fs.files == old(fs.files)
      case Success(out) => outcome == Pass && fs.files == old(fs.files)[g.outVif.path := WellFormed(out)]
  {
    // Step 1: the input VIF, comments kept
    var input := LoadInputVif(fs.files, g.inVif);
    if input.Failure? {
      return Fail(input.error);
    }
    // Step 2: the settings document, comments dropped
    var settings := LoadDpamSettings(fs.files, g.settings);
    if settings.Failure? {
      return Fail(settings.error);
    }
    var inputVif := new ElementTree(input.value);
    var dpamSettings := new ElementTree(settings.value);
    // Step 3: the merge, in place
    var merged := GenerateDpamVif(inputVif, dpamSettings);
    if merged.Fail? {
      return merged;
    }
    // Step 4: the output file
    outcome := WriteOutputVif(inputVif, g.outVif, fs);
  }

  /** `script.main(**kwargs)`: construct the generator, then run it. */
  method RunScript(kwargs: map<string, PathArg>, fs: FileSystem) returns (outcome: Outcome<Error>)
    modifies fs
    ensures NewDpamVifGenerator(kwargs).Failure? ==>
      outcome == Fail(NewDpamVifGenerator(kwargs).error) && fs.files == old(fs.files)
    ensures NewDpamVifGenerator(kwargs).Success? ==>
      match GenerateVifResult(NewDpamVifGenerator(kwargs).value, old(fs.files))
      case Failure(e) => outcome == Fail(e) && fs.files == old(fs.files)
      case Success(out) =>
        (outcome == Pass && fs.files == old(fs.files)[NewDpamVifGenerator(kwargs).value.outVif.path := WellFormed(out)])
  {
    var generator := NewDpamVifGenerator(kwargs);
    if generator.Failure? {
      return Fail(generator.error);
    }
    outcome := GenerateVif(generator.value, fs);
  }
}
