/** An MnT response as an element tree, and what a reading of the whole tree takes
    from it. */
module MntTree {
  import opened Util

  const MAX_ELEMENTS := 2000000
  const MAX_DEPTH := 64
  const MAX_SESSIONS := 250000
  const MAX_FIELDS := 128

  /** A tag or attribute name without its namespace. */
  datatype Name = Name(text: string)

  const ACTIVE := Name("activeSession")
  const AUTH := Name("authStatusElements")
  const TOTAL := Name("noOfActiveSession")

  type Record = map<Name, string>

  datatype Node = Node(tag: string, attributes: seq<(string, string)>, text: string, kids: seq<Node>)

  /** What follows the first closing brace, or the whole tag when there is none. */
  function StripNamespace(tag: string): string {
    if '}' !in tag then tag
    else if tag[0] == '}' then tag[1..]
    else StripNamespace(tag[1..])
  }

  /** The white space that str.strip removes. */
  predicate IsSpace(c: char) {
    var code := c as int;
    || 9 <= code <= 13 || 28 <= code <= 32 || code in {0x85, 0xa0, 0x1680, 0x2028, 0x2029, 0x202f, 0x205f, 0x3000}
    || 0x2000 <= code <= 0x200a
  }

  /** These are the 29 characters that Unicode counts as white space or separators. */
  lemma SpacesAreListed(c: char)
    ensures IsSpace(c) <==>
            c as int in {0x9, 0xa, 0xb, 0xc, 0xd, 0x1c, 0x1d, 0x1e, 0x1f, 0x20, 0x85, 0xa0, 0x1680, 0x2000, 0x2001,
                         0x2002, 0x2003, 0x2004, 0x2005, 0x2006, 0x2007, 0x2008, 0x2009, 0x200a, 0x2028, 0x2029,
                         0x202f, 0x205f, 0x3000}
  {
  }

  /** The namespace is what stands up to the first closing brace. */
  lemma {:induction false} NamespaceIsPrefix(tag: string)
    ensures '}' !in tag ==> StripNamespace(tag) == tag
    ensures '}' in tag ==> exists space: string :: '}' !in space && tag == space + "}" + StripNamespace(tag)
  {
    if '}' in tag {
      if tag[0] == '}' {
        var space: string := "";
        assert '}' !in space && tag == space + "}" + StripNamespace(tag);
      } else {
        NamespaceIsPrefix(tag[1..]);
        var rest: string :| '}' !in rest && tag[1..] == rest + "}" + StripNamespace(tag[1..]);
        var space := [tag[0]] + rest;
        assert '}' !in space && tag == space + "}" + StripNamespace(tag);
      }
    }
  }

  function TrimFront(text: string): string {
    if text != [] && IsSpace(text[0]) then TrimFront(text[1..]) else text
  }

  function TrimBack(text: string): string {
    if text != [] && IsSpace(text[|text| - 1]) then TrimBack(text[..|text| - 1]) else text
  }

  function Strip(text: string): string {
    TrimBack(TrimFront(text))
  }

  predicate AllSpace(text: string) {
    forall i | 0 <= i < |text| :: IsSpace(text[i])
  }

  lemma {:induction false} TrimFrontFacts(text: string)
    ensures var cut := |text| - |TrimFront(text)|;
            cut >= 0 && TrimFront(text) == text[cut..] && forall i | 0 <= i < cut :: IsSpace(text[i])
    ensures TrimFront(text) != [] ==> !IsSpace(TrimFront(text)[0])
  {
    if text != [] && IsSpace(text[0]) {
      TrimFrontFacts(text[1..]);
      forall i | 0 < i < |text| ensures text[1..][i - 1] == text[i] {
      }
    }
  }

  lemma {:induction false} TrimBackFacts(text: string)
    ensures var kept := |TrimBack(text)|;
            kept <= |text| && TrimBack(text) == text[..kept] && forall i | kept <= i < |text| :: IsSpace(text[i])
    ensures TrimBack(text) != [] ==> !IsSpace(TrimBack(text)[|TrimBack(text)| - 1])
  {
    if text != [] && IsSpace(text[|text| - 1]) {
      TrimBackFacts(text[..|text| - 1]);
    }
  }

  /** Stripping removes white space at both ends, all of it, and nothing else. */
  lemma StripFacts(text: string)
    ensures exists from: nat, to: nat :: from <= to <= |text| && Strip(text) == text[from..to]
              && AllSpace(text[..from]) && AllSpace(text[to..])
    ensures var s := Strip(text); s != [] ==> !IsSpace(s[0]) && !IsSpace(s[|s| - 1])
  {
    TrimFrontFacts(text);
    TrimBackFacts(TrimFront(text));
    var from := |text| - |TrimFront(text)|;
    var to := from + |Strip(text)|;
    assert Strip(text) == text[from..to];
    forall i | 0 <= i < |text| - to ensures IsSpace(text[to..][i]) {
      assert TrimFront(text)[to - from + i] == text[to + i];
    }
    assert AllSpace(text[..from]) && AllSpace(text[to..]);
  }

  function NameOf(tag: string): Name {
    Name(StripNamespace(tag))
  }

  function TotalOf(attributes: seq<(string, string)>): Option<string> {
    if attributes == [] then None
    else if NameOf(attributes[0].0) == TOTAL then Some(attributes[0].1)
    else TotalOf(attributes[1..])
  }

  /** The total is the value of the first attribute of that name. */
  lemma {:induction false} TotalIsFirst(attributes: seq<(string, string)>)
    ensures TotalOf(attributes).None? <==> forall i | 0 <= i < |attributes| :: NameOf(attributes[i].0) != TOTAL
    ensures TotalOf(attributes).Some? ==>
              exists i :: && 0 <= i < |attributes| && NameOf(attributes[i].0) == TOTAL
                          && TotalOf(attributes).value == attributes[i].1
                          && forall j | 0 <= j < i :: NameOf(attributes[j].0) != TOTAL
  {
    if attributes != [] && NameOf(attributes[0].0) != TOTAL {
      var rest := attributes[1..];
      TotalIsFirst(rest);
      if TotalOf(rest).Some? {
        var i :| && 0 <= i < |rest| && NameOf(rest[i].0) == TOTAL && TotalOf(rest).value == rest[i].1
                 && forall j | 0 <= j < i :: NameOf(rest[j].0) != TOTAL;
        forall j | 0 <= j < i + 1 ensures NameOf(attributes[j].0) != TOTAL {
          assert j > 0 ==> attributes[j] == rest[j - 1];
        }
        assert attributes[i + 1] == rest[i];
      }
    }
  }

  // ---- the recursive reading ------------------------------------------------------

  /** Fields of a record: the texts of its children, the last of a name winning. */
  function Fields(into: Record, kids: seq<Node>): Record
    decreases |kids|
  {
    if kids == [] then into
    else Fields(into[NameOf(kids[0].tag) := Strip(kids[0].text)], kids[1..])
  }

  /** The records of one kind in document order of their ends. */
  function Records(node: Node, kind: Name): seq<Record>
    decreases node, 1
  {
    RecordsIn(node.kids, kind) + (if NameOf(node.tag) == kind then [Fields(map[], node.kids)] else [])
  }

  function RecordsIn(kids: seq<Node>, kind: Name): seq<Record>
    decreases kids, 0
  {
    if kids == [] then [] else Records(kids[0], kind) + RecordsIn(kids[1..], kind)
  }

  /** The flat detail: the non-empty texts of the root's children. */
  function Flat(into: Record, kids: seq<Node>): Record
    decreases |kids|
  {
    if kids == [] then into
    else
      var text := Strip(kids[0].text);
      Flat(if text == "" then into else into[NameOf(kids[0].tag) := text], kids[1..])
  }

  function Detail(root: Node): Record {
    if NameOf(root.tag) in {ACTIVE, AUTH} then map[] else Flat(map[], root.kids)
  }

  function Count(node: Node): nat
    decreases node, 1
  {
    1 + CountIn(node.kids)
  }

  function CountIn(kids: seq<Node>): nat
    decreases kids, 0
  {
    if kids == [] then 0 else Count(kids[0]) + CountIn(kids[1..])
  }

  function Depth(node: Node): nat
    decreases node, 1
  {
    1 + DepthIn(node.kids)
  }

  function DepthIn(kids: seq<Node>): nat
    decreases kids, 0
  {
    if kids == [] then 0 else Max(Depth(kids[0]), DepthIn(kids[1..]))
  }

  /** No record inside another of its kind, and no record with too many fields. */
  predicate Flatly(node: Node, inActive: bool, inAuth: bool)
    decreases node, 1
  {
    var name := NameOf(node.tag);
    && !(name == ACTIVE && inActive) && !(name == AUTH && inAuth)
    && (name in {ACTIVE, AUTH} ==> |node.kids| <= MAX_FIELDS)
    && FlatlyIn(node.kids, inActive || name == ACTIVE, inAuth || name == AUTH)
  }

  predicate FlatlyIn(kids: seq<Node>, inActive: bool, inAuth: bool)
    decreases kids, 0
  {
    kids == [] || (Flatly(kids[0], inActive, inAuth) && FlatlyIn(kids[1..], inActive, inAuth))
  }

  /** The limits the reader enforces, over the whole document. */
  predicate WithinLimits(root: Node) {
    && Count(root) <= MAX_ELEMENTS && Depth(root) <= MAX_DEPTH
    && |Records(root, ACTIVE)| <= MAX_SESSIONS && |Records(root, AUTH)| <= MAX_SESSIONS
    && Flatly(root, false, false)
  }

  datatype Reading = Reading(total: Option<string>, active: seq<Record>, auth: seq<Record>, detail: Record)

  function Read(root: Node): Reading {
    Reading(TotalOf(root.attributes), Records(root, ACTIVE), Records(root, AUTH), Detail(root))
  }

  // ---- the event stream -------------------------------------------------------------

  datatype Event = Start(tag: string, attributes: seq<(string, string)>) | End(tag: string, text: string)

  function Events(node: Node): seq<Event>
    decreases node, 1
  {
    [Start(node.tag, node.attributes)] + EventsIn(node.kids) + [End(node.tag, node.text)]
  }

  function EventsIn(kids: seq<Node>): seq<Event>
    decreases kids, 0
  {
    if kids == [] then [] else Events(kids[0]) + EventsIn(kids[1..])
  }
}
