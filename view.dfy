/**
 * The base view of View.js. The DOM is abstracted to the flat list of
 * elements that `querySelectorAll('*')` returns, in document order; each
 * element is a record of its tag, its attributes, its `textContent` and the
 * kind of its first child. `isEqualNode` is equality of these records.
 */
module View {
  import opened Wrappers
  import opened JsString

  /** The kind of `element.firstChild`. */
  datatype FirstChild = NoChild | CharacterData(value: string) | ElementChild

  datatype Node = Node(tag: string, attributes: map<string, string>, text: string, firstChild: FirstChild)

  /** How `update` ended: it ran to the end, or threw a TypeError at a candidate index. */
  datatype Outcome = Completed | Threw(index: nat)

  /**
   * `newEl.firstChild?.nodeValue.trim() !== ''`: true with no first child,
   * whether the text is not blank for a text first child, and a TypeError
   * (`None`) for an element first child, whose `nodeValue` is null.
   */
  function TextGuard(c: FirstChild): (g: Option<bool>)
    ensures g.None? <==> c.ElementChild?
    ensures c.NoChild? ==> g == Some(true)
    ensures c.CharacterData? ==> (g == Some(false) <==> AllWhiteSpace(c.value))
  {
    match c
    case NoChild => Some(true)
    case CharacterData(v) => Some(Trim(v) != "")
    case ElementChild => None
  }

  /** `currEl.textContent = t`: the children are replaced by one text node, or none for "". */
  function WithText(l: Node, t: string): (r: Node)
    ensures r.tag == l.tag && r.attributes == l.attributes && r.text == t
    ensures r.firstChild.NoChild? <==> t == ""
    ensures r.firstChild.CharacterData? ==> r.firstChild.value == t
  {
    l.(text := t, firstChild := if t == "" then NoChild else CharacterData(t))
  }

  /**
   * One pass of the `forEach` body over a present live node `l` and its
   * candidate `c`, when it does not throw: the text is copied when the nodes
   * differ and the guard holds; then, when they still differ, every candidate
   * attribute is set on the live node.
   */
  function Patched(c: Node, l: Node): (p: Node)
    ensures c == l ==> p == l
    ensures p.tag == l.tag
    ensures c != l && TextGuard(c.firstChild) == Some(true) ==> p.text == c.text
    ensures TextGuard(c.firstChild) == Some(false) ==> p.text == l.text && p.firstChild == l.firstChild
    ensures forall a :: a in c.attributes ==> a in p.attributes && p.attributes[a] == c.attributes[a]
    ensures forall a :: a in l.attributes && a !in c.attributes ==> a in p.attributes && p.attributes[a] == l.attributes[a]
    ensures c != l ==> p.attributes.Keys == l.attributes.Keys + c.attributes.Keys
  {
    var l1 := if c != l && TextGuard(c.firstChild) == Some(true) then WithText(l, c.text) else l;
    if c != l1 then l1.(attributes := l1.attributes + c.attributes) else l1
  }

  function LiveAt(live: seq<Node>, i: nat): (l: Option<Node>)
    ensures l.Some? <==> i < |live|
    ensures i < |live| ==> l.value == live[i]
  {
    if i < |live| then Some(live[i]) else None
  }

  /**
   * Whether the pass for candidate `c` throws, `l` being its live node or
   * `None` when the live list is shorter (`currEl` undefined): an element
   * first child throws in the guard; a missing live node throws when its
   * text or any attribute would be written to it.
   */
  predicate Throws(c: Node, l: Option<Node>): (b: bool)
    ensures l.Some? ==> (b <==> l.value != c && c.firstChild.ElementChild?)
    ensures l.None? ==>
              (b <==> || c.firstChild.ElementChild? || c.firstChild.NoChild?
                      || (c.firstChild.CharacterData? && !AllWhiteSpace(c.firstChild.value))
                      || c.attributes != map[])
  {
    && l != Some(c)
    && (|| TextGuard(c.firstChild).None?
        || (l.None? && (TextGuard(c.firstChild) == Some(true) || c.attributes != map[])))
  }

  /** The index of the first candidate whose pass throws, or `|cand|` when none does. */
  function FirstThrow(cand: seq<Node>, live: seq<Node>): (k: nat)
    ensures k <= |cand|
    ensures forall j :: 0 <= j < k ==> !Throws(cand[j], LiveAt(live, j))
    ensures k < |cand| ==> Throws(cand[k], LiveAt(live, k))
  {
    FirstThrowFrom(cand, live, 0)
  }

  function FirstThrowFrom(cand: seq<Node>, live: seq<Node>, i: nat): (k: nat)
    requires i <= |cand|
    requires forall j :: 0 <= j < i ==> !Throws(cand[j], LiveAt(live, j))
    ensures i <= k <= |cand|
    ensures forall j :: 0 <= j < k ==> !Throws(cand[j], LiveAt(live, j))
    ensures k < |cand| ==> Throws(cand[k], LiveAt(live, k))
    decreases |cand| - i
  {
    if i == |cand| || Throws(cand[i], LiveAt(live, i)) then i else FirstThrowFrom(cand, live, i + 1)
  }

  function UpdateOutcome(cand: seq<Node>, live: seq<Node>): (o: Outcome)
    ensures o == Completed <==> forall j :: 0 <= j < |cand| ==> !Throws(cand[j], LiveAt(live, j))
    ensures o.Threw? ==> o.index < |cand| && Throws(cand[o.index], LiveAt(live, o.index))
    ensures o.Threw? ==> forall j :: 0 <= j < o.index ==> !Throws(cand[j], LiveAt(live, j))
  {
    var k := FirstThrow(cand, live);
    if k < |cand| then Threw(k) else Completed
  }

  /**
   * The live elements after `update`: the candidates are paired with the
   * live elements by index, the pairs before the first throw are patched,
   * and nothing is inserted, removed or reordered.
   */
  function Reconciled(cand: seq<Node>, live: seq<Node>): (r: seq<Node>)
    ensures |r| == |live|
    ensures forall j :: 0 <= j < |r| ==> r[j].tag == live[j].tag
    ensures forall j :: 0 <= j < |r| && j < FirstThrow(cand, live) ==> r[j] == Patched(cand[j], live[j])
    ensures forall j :: 0 <= j < |r| && FirstThrow(cand, live) <= j ==> r[j] == live[j]
  {
    var k := FirstThrow(cand, live);
    seq(|live|, j requires 0 <= j < |live| => if j < k then Patched(cand[j], live[j]) else live[j])
  }

  /**
   * The reconciliation loop of `update`, on the live elements in place: it
   * ends as `UpdateOutcome` says and leaves the elements as `Reconciled` says.
   */
  method Reconcile(live: array<Node>, cand: seq<Node>) returns (outcome: Outcome)
    modifies live
    ensures outcome == UpdateOutcome(cand, old(live[..]))
    ensures live[..] == Reconciled(cand, old(live[..]))
  {
    ghost var before := live[..];
    var i := 0;
    while i < |cand|
      invariant 0 <= i <= |cand|
      invariant forall j :: 0 <= j < i ==> !Throws(cand[j], LiveAt(before, j))
      invariant forall j :: 0 <= j < live.Length ==> live[j] == if j < i then Patched(cand[j], before[j]) else before[j]
    {
      var c := cand[i];
      if i >= live.Length || c != live[i] {
        var guard := TextGuard(c.firstChild);
        if guard.None? {
          assert FirstThrow(cand, before) == i;
          return Threw(i);
        }
        if guard.value {
          if i >= live.Length {
            assert FirstThrow(cand, before) == i;
            return Threw(i);
          }
          live[i] := WithText(live[i], c.text);
        }
      }
      if i >= live.Length {
        if c.attributes != map[] {
          assert FirstThrow(cand, before) == i;
          return Threw(i);
        }
      } else if c != live[i] {
        live[i] := live[i].(attributes := live[i].attributes + c.attributes);
      }
      i := i + 1;
    }
    assert live[..] == Reconciled(cand, before);
    outcome := Completed;
  }

  /** Updating elements with the markup they already show completes and changes nothing. */
  lemma UpdateWithSameMarkup(live: seq<Node>)
    ensures UpdateOutcome(live, live) == Completed
    ensures Reconciled(live, live) == live
  {
    assert FirstThrow(live, live) == |live|;
  }

  /**
   * After `update`, a live element that differed from its candidate before
   * the throw carries every attribute of the candidate; its text is the
   * candidate's when the candidate's first child is absent or non-blank text,
   * and is kept when that text is blank.
   */
  lemma UpdatePatchesPairs(cand: seq<Node>, live: seq<Node>, j: nat)
    requires j < |live| && j < FirstThrow(cand, live) && cand[j] != live[j]
    ensures var r := Reconciled(cand, live)[j];
            && (forall a :: a in cand[j].attributes ==> a in r.attributes && r.attributes[a] == cand[j].attributes[a])
            && (cand[j].firstChild.ElementChild? == false)
            && (!cand[j].firstChild.CharacterData? || !AllWhiteSpace(cand[j].firstChild.value) ==> r.text == cand[j].text)
            && (cand[j].firstChild.CharacterData? && AllWhiteSpace(cand[j].firstChild.value) ==> r.text == live[j].text)
  {
  }

  lemma PatchedTwice(c: Node, l: Node)
    ensures Patched(c, Patched(c, l)) == Patched(c, l)
  {
  }

  /** A node that was patched does not throw when it is patched again. */
  lemma PatchedDoesNotThrow(c: Node, l: Node)
    requires !Throws(c, Some(l))
    ensures !Throws(c, Some(Patched(c, l)))
  {
  }

  /**
   * Running `update` twice with the same markup has the effect of running it
   * once, and the second run ends the same way.
   */
  lemma UpdateTwice(cand: seq<Node>, live: seq<Node>)
    ensures Reconciled(cand, Reconciled(cand, live)) == Reconciled(cand, live)
    ensures UpdateOutcome(cand, Reconciled(cand, live)) == UpdateOutcome(cand, live)
  {
    var once := Reconciled(cand, live);
    var k := FirstThrow(cand, live);
    forall j | 0 <= j < k
      ensures !Throws(cand[j], LiveAt(once, j))
    {
      if j < |live| {
        assert once[j] == Patched(cand[j], live[j]);
        PatchedDoesNotThrow(cand[j], live[j]);
      }
    }
    if k < |cand| {
      assert LiveAt(once, k) == LiveAt(live, k);
    }
    assert FirstThrow(cand, once) == k;
    forall j | 0 <= j < |once|
      ensures Reconciled(cand, once)[j] == once[j]
    {
      if j < k {
        PatchedTwice(cand[j], live[j]);
      }
    }
  }

  // ---------------------------------------------------------------------------
  // Fixed markup

  /** The bundled sprite sheet the `icons` import resolves to. */
  const Icons: string := "img/icons.svg"

  /** The indentation between tags; one line break stands for each run of it. */
  const Gap: string := "\n"

  /** A `<svg><use href=...></use></svg>` pair pointing at one icon of the sprite sheet. */
  function IconNodes(icon: string, attributes: map<string, string>): (nodes: seq<Node>)
    ensures |nodes| == 2 && nodes[0].tag == "svg" && nodes[0].attributes == attributes
    ensures nodes[1].tag == "use" && nodes[1].attributes == map["href" := Icons + "#" + icon]
  {
    [ Node("svg", attributes, Gap + Gap, CharacterData(Gap)),
      Node("use", map["href" := Icons + "#" + icon], "", NoChild) ]
  }

  /** `renderSpinner`'s markup. */
  function SpinnerBlock(): (nodes: seq<Node>)
    ensures |nodes| == 3 && nodes[0].tag == "div" && nodes[0].attributes == map["class" := "spinner"]
    ensures nodes[1].tag == "svg" && nodes[2].attributes == map["href" := Icons + "#icon-loader"]
  {
    var icon := IconNodes("icon-loader", map[]);
    assert Icons + "#" + "icon-loader" == Icons + "#icon-loader";
    [Node("div", map["class" := "spinner"], Gap + icon[0].text + Gap, CharacterData(Gap))] + icon
  }

  /** A message box: an icon followed by a paragraph holding the message. */
  function MessageBox(cls: string, icon: string, message: string): (nodes: seq<Node>)
    ensures |nodes| == 5 && nodes[0].attributes == map["class" := cls]
    ensures nodes[4].tag == "p" && nodes[4].text == message
    ensures nodes[4].firstChild == NoChild <==> message == ""
  {
    var svg := IconNodes(icon, map[]);
    var iconDiv := Node("div", map[], Gap + svg[0].text + Gap, CharacterData(Gap));
    var para := Node("p", map[], message, if message == "" then NoChild else CharacterData(message));
    [Node("div", map["class" := cls], Gap + iconDiv.text + Gap + message + Gap, CharacterData(Gap)), iconDiv]
      + svg + [para]
  }

  function ErrorBlock(message: string): seq<Node> {
    MessageBox("error", "icon-alert-triangle", message)
  }

  function SuccessBlock(message: string): seq<Node> {
    MessageBox("message", "icon-smile", message)
  }

  // ---------------------------------------------------------------------------
  // The view

  /** What `render` receives: a falsy value, an object, or an array. */
  datatype ViewData<D> = Falsy | One(value: D) | Many(items: seq<D>)

  /** `!data || (Array.isArray(data) && data.length === 0)`. */
  predicate Blank<D>(d: ViewData<D>) {
    d.Falsy? || (d.Many? && d.items == [])
  }

  /**
   * A view: `_data`, the elements under `_parentElement`, the default
   * messages, and the subclass's `_generateMarkup` applied to the data.
   */
  class View<D> {
    var data: Option<ViewData<D>>
    var container: array<Node>
    const errorMessage: string
    const message: string
    const generateMarkup: ViewData<D> -> seq<Node>

    /** A view over a parent element that already holds `elements`. */
    constructor (elements: seq<Node>, generateMarkup: ViewData<D> -> seq<Node>, errorMessage: string, message: string)
      ensures data == None && fresh(container) && container[..] == elements
      ensures this.generateMarkup == generateMarkup
      ensures this.errorMessage == errorMessage && this.message == message
    {
      data := None;
      container := new Node[|elements|](i requires 0 <= i < |elements| => elements[i]);
      this.generateMarkup := generateMarkup;
      this.errorMessage := errorMessage;
      this.message := message;
    }

    /** `_clear()`: `innerHTML = ''`. */
    method Clear()
      modifies this`container
      ensures fresh(container) && container[..] == []
    {
      container := new Node[0];
    }

    /** `insertAdjacentHTML('afterbegin', markup)`: the markup goes before the current elements. */
    method InsertAfterBegin(markup: seq<Node>)
      modifies this`container
      ensures fresh(container) && container[..] == markup + old(container[..])
    {
      var elements := markup + container[..];
      container := new Node[|elements|](i requires 0 <= i < |elements| => elements[i]);
    }

    /**
     * `render(data, render = true)`: blank data shows the default error and
     * keeps `_data`; otherwise `_data` is set and the markup is returned
     * (`render` false) or replaces the elements.
     */
    method Render(d: ViewData<D>, render: bool) returns (markup: Option<seq<Node>>)
      modifies this`data, this`container
      ensures Blank(d) ==> markup == None && data == old(data) && container[..] == ErrorBlock(errorMessage)
      ensures !Blank(d) ==> data == Some(d)
      ensures !Blank(d) && !render ==> markup == Some(generateMarkup(d)) && container == old(container)
      ensures !Blank(d) && render ==> markup == None && container[..] == generateMarkup(d)
    {
      if Blank(d) {
        RenderError(None);
        return None;
      }
      data := Some(d);
      var generated := generateMarkup(d);
      if !render {
        return Some(generated);
      }
      Clear();
      InsertAfterBegin(generated);
      markup := None;
    }

    /**
     * `update(data)`: `_data` is set and the current elements are patched
     * against the new markup in place; the container itself is not replaced.
     */
    method Update(d: ViewData<D>) returns (outcome: Outcome)
      modifies this`data, container
      ensures data == Some(d) && container == old(container)
      ensures outcome == UpdateOutcome(generateMarkup(d), old(container[..]))
      ensures container[..] == Reconciled(generateMarkup(d), old(container[..]))
    {
      data := Some(d);
      var newElements := generateMarkup(d);
      outcome := Reconcile(container, newElements);
    }

    /** `renderSpinner()`. */
    method RenderSpinner()
      modifies this`container
      ensures container[..] == SpinnerBlock()
    {
      Clear();
      InsertAfterBegin(SpinnerBlock());
    }

    /** `renderError(message = this._errorMessage)`. */
    method RenderError(msg: Option<string>)
      modifies this`container
      ensures container[..] == ErrorBlock(if msg.Some? then msg.value else errorMessage)
    {
      var text := if msg.Some? then msg.value else errorMessage;
      Clear();
      InsertAfterBegin(ErrorBlock(text));
    }

    /** `renderMessage(message = this._message)`. */
    method RenderMessage(msg: Option<string>)
      modifies this`container
      ensures container[..] == SuccessBlock(if msg.Some? then msg.value else message)
    {
      var text := if msg.Some? then msg.value else message;
      Clear();
      InsertAfterBegin(SuccessBlock(text));
    }
  }
}
