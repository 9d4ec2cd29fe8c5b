/** An abstract ElementTree: elements with a tag, ordered attributes, text and
    children, and comment nodes (kept when a document is parsed with
    `insert_comments`). Tags are the prefixed names the program writes
    (`vif:Component`, `opt:OptionalContent`); namespace URIs are not expanded.
    An element whose text is "" stands for ElementTree's `text is None`. */
module Xml {

  import opened Wrappers

  type Attr = (string, string)

  datatype Node =
    | Element(tag: string, attrs: seq<Attr>, text: string, children: seq<Node>)
    | Comment(content: string)

  /** True when `n` is an element named `tag` (what an ElementPath step matches). */
  predicate IsElement(n: Node, tag: string)
  {
    n.Element? && n.tag == tag
  }

  /** `Element.get(name)`: the value of the attribute called `name`. */
  function GetAttr(n: Node, name: string): Option<string>
    requires n.Element?
  {
    FindAttr(n.attrs, name)
  }

  function FindAttr(attrs: seq<Attr>, name: string): Option<string>
  {
    if attrs == [] then None
    else if attrs[0].0 == name then Some(attrs[0].1)
    else FindAttr(attrs[1..], name)
  }

  /** `Element.append(child)`. */
  function AppendChild(parent: Node, child: Node): (r: Node)
    requires parent.Element?
    ensures r.Element? && r.tag == parent.tag && r.attrs == parent.attrs && r.text == parent.text
    ensures |r.children| == |parent.children| + 1
    ensures r.children[..|parent.children|] == parent.children && r.children[|parent.children|] == child
  {
    parent.(children := parent.children + [child])
  }

  /** Index of the first child that is an element named `tag`: `Element.find(tag)`. */
  function FindChild(children: seq<Node>, tag: string): (r: Option<nat>)
    ensures r.Some? ==> r.value < |children| && IsElement(children[r.value], tag)
    ensures r.Some? ==> forall j :: 0 <= j < r.value ==> !IsElement(children[j], tag)
    ensures r.None? ==> forall j :: 0 <= j < |children| ==> !IsElement(children[j], tag)
  {
    if children == [] then None
    else if IsElement(children[0], tag) then Some(0)
    else match FindChild(children[1..], tag)
      case None => None
      case Some(k) => Some(k + 1)
  }

  /** The elements named `tag` among the nodes and everything below them, in
      document (pre-)order: `findall(".//tag")` on their parent. */
  function Descendants(nodes: seq<Node>, tag: string): (r: seq<Node>)
    ensures forall j :: 0 <= j < |r| ==> IsElement(r[j], tag)
    decreases nodes
  {
    if nodes == [] then []
    else
      DescendantsOf(nodes[0], tag) + Descendants(nodes[1..], tag)
  }

  /** The elements named `tag` in the subtree rooted at `n`, `n` itself first. */
  function DescendantsOf(n: Node, tag: string): (r: seq<Node>)
    ensures forall j :: 0 <= j < |r| ==> IsElement(r[j], tag)
    decreases n
  {
    match n
    case Comment(_) => []
    case Element(t, _, _, children) =>
      (if t == tag then [n] else []) + Descendants(children, tag)
  }

  /** `find(".//tag")`: the first element named `tag` below the children. */
  function FindDescendant(children: seq<Node>, tag: string): Option<Node>
  {
    var found := Descendants(children, tag);
    if found == [] then None else Some(found[0])
  }

  /** Number of nodes in a subtree. */
  function Size(n: Node): (r: nat)
    ensures r >= 1
    decreases n
  {
    match n
    case Comment(_) => 1
    case Element(_, _, _, children) => 1 + SizeOfAll(children)
  }

  function SizeOfAll(nodes: seq<Node>): nat
    decreases nodes
  {
    if nodes == [] then 0 else Size(nodes[0]) + SizeOfAll(nodes[1..])
  }

  /** The texts of the comments in a subtree. */
  function Comments(n: Node): multiset<string>
    decreases n
  {
    match n
    case Comment(c) => multiset{c}
    case Element(_, _, _, children) => CommentsOfAll(children)
  }

  function CommentsOfAll(nodes: seq<Node>): multiset<string>
    decreases nodes
  {
    if nodes == [] then multiset{} else Comments(nodes[0]) + CommentsOfAll(nodes[1..])
  }

  /** What a parser that does not insert comments builds from the same text. */
  function StripComments(n: Node): (r: Node)
    requires n.Element?
    ensures r.Element? && r.tag == n.tag && r.attrs == n.attrs && r.text == n.text
    ensures Comments(r) == multiset{}
    decreases n, 1
  {
    n.(children := StripAll(n.children))
  }

  function StripAll(nodes: seq<Node>): (r: seq<Node>)
    ensures CommentsOfAll(r) == multiset{}
    ensures forall j :: 0 <= j < |r| ==> r[j].Element?
    decreases nodes, 0
  {
    if nodes == [] then []
    else
      var rest := StripAll(nodes[1..]);
      if nodes[0].Comment? then rest else [StripComments(nodes[0])] + rest
  }

  // ---- string helpers used to form element names and texts ----

  predicate EndsWith(s: string, suffix: string)
  {
    |suffix| <= |s| && s[|s| - |suffix|..] == suffix
  }

  /** Python's `str.removesuffix`. */
  function RemoveSuffix(s: string, suffix: string): (r: string)
    ensures |suffix| > 0 && EndsWith(s, suffix) ==> r + suffix == s
    ensures !(|suffix| > 0 && EndsWith(s, suffix)) ==> r == s
    ensures |r| <= |s| && r == s[..|r|]
  {
    if |suffix| > 0 && EndsWith(s, suffix) then s[..|s| - |suffix|] else s
  }

  /** A name formed as `prefix + s.removesuffix(suffix)` gets `prefix + s`
      back by re-adding the suffix exactly when one was removed. */
  lemma PrefixedRemoveSuffix(prefix: string, s: string, suffix: string)
    ensures |suffix| > 0 && EndsWith(s, suffix) ==> prefix + RemoveSuffix(s, suffix) + suffix == prefix + s
    ensures !(|suffix| > 0 && EndsWith(s, suffix)) ==> prefix + RemoveSuffix(s, suffix) == prefix + s
  {
    var r := RemoveSuffix(s, suffix);
    assert prefix + r + suffix == prefix + (r + suffix);
  }

  /** Python's `str.replace(" ", "_")`. */
  function ReplaceSpaces(s: string): (r: string)
    ensures |r| == |s|
    ensures forall j :: 0 <= j < |s| ==> r[j] == (if s[j] == ' ' then '_' else s[j])
  {
    if s == [] then [] else [if s[0] == ' ' then '_' else s[0]] + ReplaceSpaces(s[1..])
  }

  /** Python's `sep.join(parts)`. */
  function Join(sep: string, parts: seq<string>): string
  {
    if parts == [] then ""
    else if |parts| == 1 then parts[0]
    else parts[0] + sep + Join(sep, parts[1..])
  }

  // ---- node counts and comments over sequences ----

  lemma {:induction false} SizeOfAllConcat(a: seq<Node>, b: seq<Node>)
    ensures SizeOfAll(a + b) == SizeOfAll(a) + SizeOfAll(b)
    ensures CommentsOfAll(a + b) == CommentsOfAll(a) + CommentsOfAll(b)
  {
    if a == [] {
      assert a + b == b;
    } else {
      assert (a + b)[0] == a[0] && (a + b)[1..] == a[1..] + b;
      SizeOfAllConcat(a[1..], b);
    }
  }

  /** Replacing one node changes the totals by the difference of the two subtrees. */
  lemma SizeOfAllUpdate(s: seq<Node>, k: nat, x: Node)
    requires k < |s|
    ensures SizeOfAll(s[k := x]) + Size(s[k]) == SizeOfAll(s) + Size(x)
    ensures CommentsOfAll(s[k := x]) + Comments(s[k]) == CommentsOfAll(s) + Comments(x)
  {
    assert s == s[..k] + [s[k]] + s[k + 1..];
    assert s[k := x] == s[..k] + [x] + s[k + 1..];
    SizeOfAllConcat(s[..k] + [s[k]], s[k + 1..]);
    SizeOfAllConcat(s[..k], [s[k]]);
    SizeOfAllConcat(s[..k] + [x], s[k + 1..]);
    SizeOfAllConcat(s[..k], [x]);
    assert SizeOfAll([x]) == Size(x) && CommentsOfAll([x]) == Comments(x);
    assert SizeOfAll([s[k]]) == Size(s[k]) && CommentsOfAll([s[k]]) == Comments(s[k]);
  }

  /** Appending a child adds exactly that child's subtree. */
  lemma AppendChildCounts(parent: Node, child: Node)
    requires parent.Element?
    ensures Size(AppendChild(parent, child)) == Size(parent) + Size(child)
    ensures Comments(AppendChild(parent, child)) == Comments(parent) + Comments(child)
  {
    SizeOfAllConcat(parent.children, [child]);
    assert SizeOfAll([child]) == Size(child) && CommentsOfAll([child]) == Comments(child);
  }

  /** Every element found below comment-free nodes is comment-free. */
  lemma {:induction false} DescendantsWithoutComments(nodes: seq<Node>, tag: string)
    requires CommentsOfAll(nodes) == multiset{}
    ensures forall j :: 0 <= j < |Descendants(nodes, tag)| ==> Comments(Descendants(nodes, tag)[j]) == multiset{}
    decreases nodes
  {
    if nodes != [] {
      DescendantsOfWithoutComments(nodes[0], tag);
      DescendantsWithoutComments(nodes[1..], tag);
    }
  }

  lemma {:induction false} DescendantsOfWithoutComments(n: Node, tag: string)
    requires Comments(n) == multiset{}
    ensures forall j :: 0 <= j < |DescendantsOf(n, tag)| ==> Comments(DescendantsOf(n, tag)[j]) == multiset{}
    decreases n
  {
    if n.Element? {
      DescendantsWithoutComments(n.children, tag);
    }
  }

  /** No element named `tag` anywhere in the subtree. */
  predicate TagFree(n: Node, tag: string)
    decreases n
  {
    match n
    case Comment(_) => true
    case Element(t, _, _, children) => t != tag && forall i :: 0 <= i < |children| ==> TagFree(children[i], tag)
  }

  /** `findall(".//tag")` finds nothing below nodes that hold no such element. */
  lemma {:induction false} TagFreeNoDescendants(nodes: seq<Node>, tag: string)
    requires forall i :: 0 <= i < |nodes| ==> TagFree(nodes[i], tag)
    ensures Descendants(nodes, tag) == []
    decreases nodes
  {
    if nodes != [] {
      TagFreeNoDescendantsOf(nodes[0], tag);
      TagFreeNoDescendants(nodes[1..], tag);
    }
  }

  lemma {:induction false} TagFreeNoDescendantsOf(n: Node, tag: string)
    requires TagFree(n, tag)
    ensures DescendantsOf(n, tag) == []
    decreases n
  {
    if n.Element? {
      TagFreeNoDescendants(n.children, tag);
    }
  }

  /** A search over two runs of nodes finds the first run's matches, then the second's. */
  lemma {:induction false} DescendantsConcat(a: seq<Node>, b: seq<Node>, tag: string)
    ensures Descendants(a + b, tag) == Descendants(a, tag) + Descendants(b, tag)
  {
    if a == [] {
      assert a + b == b;
    } else {
      assert (a + b)[0] == a[0] && (a + b)[1..] == a[1..] + b;
      DescendantsConcat(a[1..], b, tag);
    }
  }

  /** Nodes none of which holds a comment hold no comment together. */
  lemma {:induction false} CommentsOfAllEmpty(nodes: seq<Node>)
    requires forall j :: 0 <= j < |nodes| ==> Comments(nodes[j]) == multiset{}
    ensures CommentsOfAll(nodes) == multiset{}
  {
    if nodes != [] {
      CommentsOfAllEmpty(nodes[1..]);
    }
  }

  /** Parsing without comments changes nothing in a document that has none. */
  lemma {:induction false} StripCommentFree(n: Node)
    requires n.Element? && Comments(n) == multiset{}
    ensures StripComments(n) == n
    decreases n, 1
  {
    StripAllCommentFree(n.children);
  }

  lemma {:induction false} StripAllCommentFree(nodes: seq<Node>)
    requires CommentsOfAll(nodes) == multiset{}
    ensures StripAll(nodes) == nodes
    decreases nodes, 0
  {
    if nodes != [] {
      assert |Comments(nodes[0])| + |CommentsOfAll(nodes[1..])| == 0;
      StripCommentFree(nodes[0]);
      StripAllCommentFree(nodes[1..]);
      assert nodes == [nodes[0]] + nodes[1..];
    }
  }
}
