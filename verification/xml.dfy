/** An already-parsed XML document in the shape Python's ElementTree gives
    it, and the child-step subset of ElementPath that `Element.findall`
    evaluates for a path such as `./a/b`. */
module Xml {
  import opened Wrappers

  /** An element: its tag in Clark notation (`{namespace}local`, or plain
      `local` outside any namespace), its text (the character data before
      its first child; absent when there is none) and its children in
      document order. */
  datatype Element = Element(tag: string, text: Option<string>, children: seq<Element>)

  /** The elements of `es` whose tag is `tag`, in their original order. */
  function Tagged(es: seq<Element>, tag: string): (r: seq<Element>)
    ensures |r| <= |es|
  {
    if |es| == 0 then []
    else (if es[0].tag == tag then [es[0]] else []) + Tagged(es[1..], tag)
  }

  lemma {:induction false} TaggedMembers(es: seq<Element>, tag: string)
    ensures forall x :: x in Tagged(es, tag) <==> x in es && x.tag == tag
  {
    if |es| > 0 {
      TaggedMembers(es[1..], tag);
      assert forall x :: x in es <==> x == es[0] || x in es[1..];
    }
  }

  /** One child step of an ElementPath: for each context element in turn,
      its children whose tag is `tag`, in document order. */
  function ChildStep(context: seq<Element>, tag: string): seq<Element>
  {
    if |context| == 0 then [] else Tagged(context[0].children, tag) + ChildStep(context[1..], tag)
  }

  /** A child step selects exactly the children with the tag of the context
      elements, and nothing else. */
  lemma {:induction false} ChildStepMembers(context: seq<Element>, tag: string)
    ensures forall x :: x in ChildStep(context, tag) <==>
      x.tag == tag && exists c :: c in context && x in c.children
  {
    if |context| > 0 {
      ChildStepMembers(context[1..], tag);
      TaggedMembers(context[0].children, tag);
      assert forall c :: c in context <==> c == context[0] || c in context[1..];
    }
  }

  /** `root.findall("./" + path[0] + "/" + path[1] + ...)`: the path starts at
      the root itself (`.`) and every further step selects children by tag. */
  function FindAll(root: Element, path: seq<string>): seq<Element>
  {
    Select([root], path)
  }

  function Select(context: seq<Element>, path: seq<string>): seq<Element>
    decreases |path|
  {
    if |path| == 0 then context else Select(ChildStep(context, path[0]), path[1..])
  }
}
