# DPAM VIF Generator — a Dafny model

The DPAM VIF Generator adds VESA DisplayPort Alt Mode (DPAM) capability
settings to a USB-IF Vendor Info File (VIF). It has two halves:

- **Settings encoder** (`dpamvifgenerator/controller/mainwindow.py`). The
  editor keeps every widget value in a key/value store, keyed
  `"{widget}_{portIndex}"`. `generate_settings` turns the store into a
  settings document. The document has one `vif:Component` per port. Each
  Component holds a `vif:Port_Label` and one `opt:OptionalContent
  identifier="DPAM"` element, which has one element per capability tab.
  Fields are encoded in three ways:
  - a select (combobox) as an index;
  - a boolean (checkbox) as `"true"`/`"false"`;
  - a bit-group (group box) as an integer with one bit per member, plus the
    checked members' names.
- **Merge engine** (`dpamvifgenerator/script.py`). `DPAMVIFGenerator`
  checks its three arguments. `generate_vif` loads the input VIF, loads the
  settings document, merges, and writes the output. The merge
  (`generate_dpam_vif`) first builds a map from port label to that port's
  DPAM OptionalContent. It then appends each input Component's block, in
  place, to one of two places:
  - the Component's existing, non-empty OptionalContent;
  - otherwise, the Component itself.

The model is organised as follows:

- `xml.dfy` (module `Xml`): ElementTree as a value.
  - Elements have a tag, ordered attributes, text and children; there are also comment nodes.
  - It provides `find`, `findall(".//…")`, `append`, the comment stripping a
    parser without `insert_comments` does, and Python's `removesuffix`,
    `replace(" ", "_")` and `", ".join`.
- `pyint.dfy` (module `PyInt`): Python's `str(int)` and `int(str)`, and the
  `|=` / `1 << i` bit operations.
- `script.dfy` (module `Script`): the whole of `script.py`'s core.
  - The input tree is a class (`ElementTree`) whose root the merge replaces.
  - The file system is a class (`FileSystem`) whose file map the write updates.
  - The two loops of `generate_dpam_vif` are methods proved against the
    functions `BuildPortSettings` and `MergeNodes`.
- `script_lemmas.dfy` (module `ScriptLemmas`): what the merge guarantees.
- `controller.dfy` (module `Controller`): the store, the three encodings, and
  the `MainWindow` class with `save_to_store` and the loops of
  `generate_settings` and `generate_groupbox_element`.
- `settings_lemmas.dfy` (module `SettingsLemmas`): the shape of the settings document.
- `pipeline.dfy` (module `Pipeline`): what the merge makes of the document the editor writes.

Where the prose description of the program and the code differ, the model
follows the code:

- The whole DPAM `opt:OptionalContent` element is appended into an existing
  OptionalContent, not its children (`script.py:117`).
- "Existing OptionalContent" means an element with at least one child, as in
  ElementTree's truth test (`script.py:115`). An empty one takes the
  `port.append` branch.
- An input Component whose label is not in the label map fails with Python's
  `KeyError`, not with `InvalidSettingsXML`.
- An input Component without a `vif:Port_Label` fails with `AttributeError`.
- A settings Component without an OptionalContent maps its label to `None`.
  Merging that port then fails with `TypeError` at `append`.
- Only an absent keyword argument raises `MissingGeneratorArg`. An argument
  given as `None` is stored, and fails later when it is opened as a path.

## Model

| member | source | states |
|---|---|---|
| Script.GetPrefixMap | dpamvifgenerator/script.py:62-68 | the prefixes are distinct, and as a dictionary they are exactly vif, xsi, opt with their three namespace URIs |
| Script.NewDpamVifGenerator | dpamvifgenerator/script.py:33-43 | fails iff one of in_vif, out_vif, settings is absent; the error names the first absent one in that order; on success each of the three values is recorded unchanged |
| Script.ParseFile | dpamvifgenerator/script.py:71-95 | a parsed document is an element, and is free of comments unless comments are kept |
| Script.LoadInputVif | dpamvifgenerator/script.py:70-82 | every failure is InvalidInputVIF naming the path; it succeeds exactly when the path names a file holding a well-formed document with an element root, and returns that root with its comments |
| Script.LoadDpamSettings | dpamvifgenerator/script.py:84-95 | every failure is InvalidSettingsXML naming the path; it succeeds exactly when the path names a file holding a well-formed document with an element root, and returns that root with its comments stripped |
| Script.PortLabel | dpamvifgenerator/script.py:103 | no label exactly when the Component has no Port_Label child; otherwise the label is the text of its first Port_Label child |
| Script.SettingsEntry | dpamvifgenerator/script.py:102-108 | AttributeError without a Port_Label, InvalidSettingsXML for an empty one; it succeeds exactly when the label is non-empty, with that label and the Component's first OptionalContent descendant (None when there is none) |
| Script.GetPortSettings | dpamvifgenerator/script.py:100-108 | the map-building loop returns the label map of the settings Components in document order, or the first Component's error |
| Script.MergeComponent | dpamvifgenerator/script.py:112-120 | AttributeError without a Port_Label, KeyError for a label not in the map, TypeError for a label mapped to None; it succeeds exactly when the label maps to a block, and keeps the Component's tag |
| Script.MergePort | dpamvifgenerator/script.py:112-120 | one Component of the loop: AttributeError without a Port_Label, KeyError for an unknown label, otherwise the Component with its block placed as the merge prescribes |
| Script.InsertDpamBlocks | dpamvifgenerator/script.py:110-120 | the in-place loop leaves the root's children as the merge pass produces them and returns its outcome; nothing else in the root changes |
| Script.GenerateDpamVif | dpamvifgenerator/script.py:97-120 | the input root becomes the merge of the settings; a label-map error leaves the input untouched |
| Script.WriteOutputVif | dpamvifgenerator/script.py:122-125 | the output path now holds the merged tree and no other file changes; a None path fails with TypeError and writes nothing |
| Script.GenerateVif | dpamvifgenerator/script.py:45-60 | load input, load settings, merge, write: the first failure is reported and no file is written; on success only the output file changes |
| Script.RunScript | dpamvifgenerator/script.py:128-131 | a constructor error is reported before any file is read; otherwise the run is that of GenerateVif |
| Script.BuildPortSettingsStops | dpamvifgenerator/script.py:102-107 | once a settings Component fails, the whole label map fails with its error, whatever follows |
| ScriptLemmas.PortSettingsFirstError | dpamvifgenerator/script.py:102-107 | the label map is built iff every settings Component has a non-empty label; otherwise the error is that of the first bad Component |
| ScriptLemmas.PortSettingsErrorSource | dpamvifgenerator/script.py:102-107 | a failing label map reports the error of one of the settings Components |
| ScriptLemmas.PortSettingsHasEveryLabel | dpamvifgenerator/script.py:108 | every settings Component's label is a key of the map |
| ScriptLemmas.PortSettingsLastWins | dpamvifgenerator/script.py:101-108 | a label maps to the OptionalContent of the last settings Component carrying it |
| ScriptLemmas.PortSettingsLastWinsAt | dpamvifgenerator/script.py:101-108 | the label of a settings Component that no later Component repeats maps to that Component's OptionalContent |
| Pipeline.GeneratedSettingsLastPort | dpamvifgenerator/script.py:101-108 | in the editor's document, a port label no later port repeats maps to that port's DPAM block |
| ScriptLemmas.PortSettingsOrigin | dpamvifgenerator/script.py:101-108 | every key is some settings Component's label and maps to that Component's OptionalContent |
| ScriptLemmas.PortSettingsOnlyLabels | dpamvifgenerator/script.py:101-108 | a label that no settings Component carries is not a key |
| ScriptLemmas.PortSettingsWithoutComments | dpamvifgenerator/script.py:84-108 | every block in a map built from comment-free settings is comment-free |
| ScriptLemmas.MergeComponentPlacement | dpamvifgenerator/script.py:114-120 | into a non-empty first OptionalContent, the block becomes its last child and the rest of the Component is unchanged; otherwise it becomes the Component's last child |
| ScriptLemmas.MergeComponentAddsBlock | dpamvifgenerator/script.py:114-120 | a merged Component gains exactly the block: its node count grows by the block's, and its comments by the block's |
| ScriptLemmas.MergeComponentKeepsLabel | dpamvifgenerator/script.py:112-120 | merging keeps the Component's Port_Label |
| ScriptLemmas.MergeComponentTwice | dpamvifgenerator/script.py:114-120 | merging a merged Component succeeds again with the same block and adds it a second time, so the result differs |
| ScriptLemmas.MergeNodesLength | dpamvifgenerator/script.py:111-120 | the merge keeps the number of the root's children |
| ScriptLemmas.MergeNodesRunsThrough | dpamvifgenerator/script.py:111-120 | the pass runs to the end iff no Component fails; then every Component is merged in place and every other node is untouched |
| ScriptLemmas.MergeNodesStopsAt | dpamvifgenerator/script.py:111-120 | at the first failing Component the pass stops with its error; earlier Components are already merged, and it and everything after it are unchanged |
| ScriptLemmas.MergeNodesKeepsComments | dpamvifgenerator/script.py:70-120 | the pass changes no comment of the input when the appended blocks carry none |
| ScriptLemmas.MergeNodesSize | dpamvifgenerator/script.py:111-120 | a pass that runs to the end adds exactly the nodes of its Components' blocks |
| ScriptLemmas.MergeNodesAgain | dpamvifgenerator/script.py:111-120 | a second pass over the output runs to the end too, with the same blocks to add |
| ScriptLemmas.BlocksSizePositive | dpamvifgenerator/script.py:111-120 | a pass over at least one Component appends something |
| ScriptLemmas.MergeNodesTwice | dpamvifgenerator/script.py:111-120 | the merge is not idempotent: a second pass adds every block again, and a document with a Component comes out different |
| ScriptLemmas.MissingLabelIsFatal | dpamvifgenerator/script.py:111-120 | an input Component whose label no settings Component carries makes the merge fail |
| ScriptLemmas.SettingsErrorBeforeMerge | dpamvifgenerator/script.py:101-111 | an empty settings label stops the merge with InvalidSettingsXML before any input node changes |
| ScriptLemmas.GenerateVifErrorOrder | dpamvifgenerator/script.py:50-60 | an unreadable input is reported before unreadable settings; a successful run had an output path |
| ScriptLemmas.GenerateVifKeepsComments | dpamvifgenerator/script.py:45-120 | a successful run writes the input root element back with exactly the comments inside it |
| Controller.IndexValue | dpamvifgenerator/controller/mainwindow.py:302-307 | a key never stored (read as "") gives index 0; a stored str(n) reads back as n; an int is its own index; any text int() rejects gives 0 |
| Controller.ToCheckState | dpamvifgenerator/controller/mainwindow.py:322-326 | Checked exactly for the stored int 2; the lookup fails for every value except the ints 0, 1 and 2 |
| Controller.CbbElement | dpamvifgenerator/controller/mainwindow.py:299-314 | the element is named opt: plus the name without _cbb; its value parses back to the stored index, or "0" when the key was never stored; its text is the item at that index |
| Controller.CheckboxElement | dpamvifgenerator/controller/mainwindow.py:316-332 | the element is named opt: plus the name without _checkbox; its value is "true" or "false", and "true" exactly when the stored state is Checked |
| Controller.CheckedStates | dpamvifgenerator/controller/mainwindow.py:342-350 | one state per member, in declaration order; the i-th is true exactly when the store holds the int 2 under that member's key for the port |
| Controller.GroupboxElement | dpamvifgenerator/controller/mainwindow.py:353-357 | the group element is named opt: plus the name without _groupbox and has no children; its value is str of the bit-group value of the members' stored states, and its text is the checked members' names joined by ", " |
| Controller.ElementFor | dpamvifgenerator/controller/mainwindow.py:288-297 | no element exactly for a widget that is not a combobox, checkbox or group box; each element is a childless opt: element |
| Controller.SetAttr | dpamvifgenerator/controller/mainwindow.py:235 | after the assignment the key holds the value and every other key is unchanged |
| Controller.SettingsHeader | dpamvifgenerator/controller/mainwindow.py:211-228 | the document starts as a vif:VIF root without attributes, holding the specification and application elements |
| Controller.MainWindow.SaveToStore | dpamvifgenerator/controller/mainwindow.py:197-199 | the key now holds the value and every other key is unchanged |
| Controller.MainWindow.GenerateGroupboxElement | dpamvifgenerator/controller/mainwindow.py:334-358 | the loop's or-ed bits and collected names give the group element of the stored states |
| Controller.MainWindow.GenerateElement | dpamvifgenerator/controller/mainwindow.py:288-297 | dispatches on the widget kind to the element of its encoding |
| Controller.MainWindow.AppendFields | dpamvifgenerator/controller/mainwindow.py:273-279 | appends the elements of one layout's fields, in order, to the tab element |
| Controller.MainWindow.GenerateTab | dpamvifgenerator/controller/mainwindow.py:263-279 | a tab element named from the tab, holding its layouts' elements in order |
| Controller.MainWindow.GenerateComponent | dpamvifgenerator/controller/mainwindow.py:248-269 | a port's Component: its Port_Label, then a DPAM OptionalContent with one element per tab |
| Controller.MainWindow.GenerateSettings | dpamvifgenerator/controller/mainwindow.py:209-279 | the header with the namespace attributes, then one Component per port in the order of the port list |
| Controller.GroupValueAppend | dpamvifgenerator/controller/mainwindow.py:350-351 | a checked member at position i adds 2^i to the value |
| Controller.GroupboxValueBits | dpamvifgenerator/controller/mainwindow.py:340-357 | the group element's value parses as a number whose bit i is set iff member i's stored state is the int 2 |
| Controller.GroupValueBound | dpamvifgenerator/controller/mainwindow.py:340-351 | with N members the value is below 2^N |
| Controller.GroupValueBits | dpamvifgenerator/controller/mainwindow.py:340-351 | bit i of the value is set iff the i-th member is Checked; no higher bit is set |
| Controller.PopCountGroupValue | dpamvifgenerator/controller/mainwindow.py:340-351 | the value has one set bit per Checked member |
| Controller.CheckedNamesCount | dpamvifgenerator/controller/mainwindow.py:341-356 | the text lists as many names as the value has set bits |
| Controller.CheckedNamesMembers | dpamvifgenerator/controller/mainwindow.py:341-356 | a name is listed iff it is a Checked member's name without _checkbox |
| Controller.GroupboxExample | dpamvifgenerator/controller/mainwindow.py:334-358 | members A, B, C with A and C Checked and B partially checked give value "5" and text "A, C" |
| Controller.StoreKeyInjective | dpamvifgenerator/controller/mainwindow.py:303-305 | two different (widget, port) pairs never share a store key |
| Controller.KeyShape | dpamvifgenerator/controller/mainwindow.py:345-347 | a key built for a port index from `enumerate` is the widget name, "_", then only digits |
| Controller.StoreSaveThenGet | dpamvifgenerator/controller/mainwindow.py:197-207 | after a save the key reads back the value, other keys read what they read before, and a key never stored reads "" |
| Controller.TabTagSuffix | dpamvifgenerator/controller/mainwindow.py:264-268 | a tab element's name is opt: plus the name with spaces replaced, less _tab only when it ends with it |
| Controller.TabTagNoSpaces | dpamvifgenerator/controller/mainwindow.py:264-268 | a tab element's name holds no space after opt: |
| Controller.LayoutElementsCount | dpamvifgenerator/controller/mainwindow.py:270-279 | a layout gives one element per combobox, checkbox or group box, in order, and none for other widgets |
| Controller.FieldWidgets | dpamvifgenerator/controller/mainwindow.py:288-297 | a widget is kept exactly when it is a combobox, checkbox or group box of the layout, and no more widgets come out than went in |
| Controller.FieldWidgetsConcat | dpamvifgenerator/controller/mainwindow.py:273-279 | the kept widgets keep the layout's order: two runs of widgets give the first run's, then the second's |
| SettingsLemmas.NamespaceAttrsDeclare | dpamvifgenerator/controller/mainwindow.py:231-235 | every prefix except vif gets an xmlns: attribute with its namespace; vif gets none |
| SettingsLemmas.SettingsRootNamespaces | dpamvifgenerator/controller/mainwindow.py:231-235 | the settings root declares exactly xmlns:xsi and xmlns:opt, in that order |
| SettingsLemmas.ComponentShape | dpamvifgenerator/controller/mainwindow.py:248-269 | a port's Component has the port's label and exactly one OptionalContent, marked DPAM, holding one element per tab named after it, in tab order |
| SettingsLemmas.PortComponentsLabels | dpamvifgenerator/controller/mainwindow.py:238-254 | the i-th Component is a Component labelled with the i-th port |
| SettingsLemmas.SettingsDocumentPorts | dpamvifgenerator/controller/mainwindow.py:209-279 | a search of the document for Components finds exactly the ports' Components, in port order |
| Pipeline.SettingsEntryOfComponent | dpamvifgenerator/script.py:102-108 | reading back a port's Component gives its label and its DPAM block, or InvalidSettingsXML for an empty label |
| Pipeline.GeneratedSettingsRejectEmptyLabel | dpamvifgenerator/script.py:101-108 | the label map built from the editor's document fails with InvalidSettingsXML exactly when some port label is empty |
| Pipeline.GeneratedSettingsLabelMap | dpamvifgenerator/script.py:101-108 | with non-empty labels, the keys are the port labels, and each maps to the DPAM block of the last port carrying it |
| SettingsLemmas.SettingsDocumentCommentFree | dpamvifgenerator/controller/mainwindow.py:209-279 | the settings document holds no comment anywhere |
| Pipeline.LoadGeneratedSettings | dpamvifgenerator/script.py:84-95 | loading a file that holds the editor's settings document gives that document back unchanged |
| Pipeline.GeneratedSettingsMerge | dpamvifgenerator/script.py:110-120 | merging the editor's document runs to the end exactly when every input Component has a Port_Label naming one of the ports |
| PyInt.ParseIntOfIntToString | dpamvifgenerator/controller/mainwindow.py:303-311 | int(str(n)) == n, so a select's value attribute reads back as its index |
| PyInt.BitOrHighBit | dpamvifgenerator/controller/mainwindow.py:351 | or-ing in a bit above all bits already set adds its weight |
| Xml.FindChild | dpamvifgenerator/script.py:112-114 | find returns the first direct child with the tag, or nothing when none has it |
| Xml.AppendChild | dpamvifgenerator/script.py:115-120 | append keeps the element and its children and adds the child last |
| Xml.StripComments | dpamvifgenerator/script.py:87 | a document parsed without comment insertion has no comments |
| Xml.RemoveSuffix | dpamvifgenerator/controller/mainwindow.py:264-268 | the suffix is removed only when present and non-empty; otherwise the name is unchanged |
| Xml.ReplaceSpaces | dpamvifgenerator/controller/mainwindow.py:266 | every space becomes "_" and nothing else changes |

## Left out

- Qt plumbing is not modelled:
  - widget discovery with `findChildren`, replaced by a static list of tabs, layouts and widgets;
  - signal and slot wiring;
  - `port_label_changed`, the file dialogs, and enabling or disabling tabs;
  - the `save_as_output` sequence.

  `generate_settings` takes the port labels and the tabs as parameters.
- Namespaces are not expanded. Tags are the prefixed names the program
  writes, so `ET.register_namespace`, and the `xmlns:vif` declaration that
  the header string carries, are not modelled.
- Serialisation is not modelled: `ET.indent`, encoding, and whitespace-only
  text and tails. An element text of "" stands for ElementTree's `None`.
- Files are a map from path to content: a document or a parse-error
  message. The exact text of Python's error messages is not modelled.
- The editor's file handling is not modelled: writing `settings_new.xml`
  under the user data directory, returning its path, and `os.remove`.
  `GenerateSettings` returns the document itself. `Pipeline.LoadGeneratedSettings`
  states what loading a file holding that document gives.
- A file is only its root element, and the tree has no processing-instruction
  node. ElementTree's parser leaves out processing instructions anywhere in
  the file, since `insert_pis` is off, and comments before or after the root
  even with `insert_comments=True`. Both are lost on the round trip through
  the merge; the model cannot show this, and `GenerateVifKeepsComments`
  speaks only of comments inside the root.
- Input-side Components are the direct children of the input root, where a VIF
  places them. Components nested deeper in the input are not searched.
  The settings side uses the full descendant search.
- `generate_settings` appends three elements to their parents before filling
  them in: each Component to the root (line 251), its OptionalContent to the
  Component (line 260), and each tab element to the OptionalContent (line 269).
  The model builds each element and then appends it, which gives the same
  document.
- DPAM blocks are modelled as copies. In the source, every input Component
  with a given label receives the settings tree's own `OptionalContent`
  object (script.py:108, 117, 120), so those Components share it, and it is
  still part of the settings tree. Running `generate_dpam_vif` twice on the
  same in-memory trees would append that object into itself
  (`D.append(D)`). `write_output_vif` would then fail with RecursionError in
  `ET.indent` (script.py:124), before the output file is opened. The model
  cannot show this. `MergeComponentTwice`, `MergeNodesAgain` and `MergeNodesTwice`
  describe a second run on the documents as written and parsed again.
- Store keys built by the port widgets' signal handlers (mainwindow.py:72-75,
  108-110) use the port combobox's `currentIndex()`. That index is -1 when
  the port list is empty, which gives keys such as `"name_-1"`. `StoreKey`
  takes a non-negative port, as `enumerate` supplies in `generate_settings`,
  so those keys are not modelled.
- `int()` accepts only ASCII digits and ASCII whitespace here; Python also
  accepts other Unicode digits and spaces.
- Store values are ints or strings, which is what the widgets' signals and
  the path fields store. A stored combobox index is the widget's own, so it
  always fits in a C int; `CbbElement` gives an element for every int and
  does not model the OverflowError that `itemText` raises for an index
  outside the 32-bit range. The `except Exception` branch of `get_from_store` is
  not modelled, because it needs a failing `shelve` backend.
- Logging, and the `main.py` argument parser, are not modelled.
