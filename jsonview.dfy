/** The JSON viewer's renderer: a JSON value becomes a tree of styled spans
    and blocks, arrays and objects one indented item per element. */
module JsonView {
  import opened Wrappers
  import opened Text

  /** A parsed JSON value. Numbers are kept as the text the page shows for
      them; object entries are in the order `Object.entries` yields them. */
  datatype Json =
    | JNull
    | JString(s: string)
    | JNumber(text: string)
    | JBool(b: bool)
    | JArray(items: seq<Json>)
    | JObject(entries: seq<(string, Json)>)

  /** A rendered element: a `<span>` with a class and its text, or a `<div>`
      with a class, an optional left margin in pixels, and its children. */
  datatype Node =
    | Span(cls: string, text: string)
    | Block(cls: string, margin: Option<nat>, children: seq<Node>)

  const Comma := Span("json-comma", ",")

  function Bracket(b: string): Node {
    Span("json-bracket", b)
  }

  function Quoted(s: string): string {
    "\"" + s + "\""
  }

  /** The margin of the items of a container rendered at `level`. */
  function Indent(level: nat): nat {
    (level + 1) * 20
  }

  /** `renderJsonContent(obj, level)`. */
  function Render(j: Json, level: nat): Node
    decreases j, 1
  {
    match j
    case JNull => Span("json-null", "null")
    case JString(s) => Span("json-string", Quoted(s))
    case JNumber(t) => Span("json-number", t)
    case JBool(b) => Span("json-boolean", if b then "true" else "false")
    case JArray(items) =>
      Block("json-array", None,
        [Bracket("[")]
        + seq(|items|, k requires 0 <= k < |items| => ArrayItem(items, k, level))
        + [Bracket("]")])
    case JObject(entries) =>
      Block("json-object", None,
        [Bracket("{")]
        + seq(|entries|, k requires 0 <= k < |entries| => ObjectItem(entries, k, level))
        + [Bracket("}")])
  }

  /** The comma after every element but the last. */
  function CommaAfter(k: nat, n: nat): seq<Node> {
    if k < n - 1 then [Comma] else []
  }

  /** The `json-array-item` div of element `k`. */
  function ArrayItem(items: seq<Json>, k: nat, level: nat): Node
    requires k < |items|
    decreases JArray(items), 0
  {
    Block("json-array-item", Some(Indent(level)),
      [Render(items[k], level + 1)] + CommaAfter(k, |items|))
  }

  /** The `json-object-item` div of entry `k`: quoted key, colon, value. */
  function ObjectItem(entries: seq<(string, Json)>, k: nat, level: nat): Node
    requires k < |entries|
    decreases JObject(entries), 0
  {
    assert entries[k] in entries;
    Block("json-object-item", Some(Indent(level)),
      [Span("json-key", Quoted(entries[k].0)), Span("json-colon", ": "), Render(entries[k].1, level + 1)]
      + CommaAfter(k, |entries|))
  }

  // ---------------------------------------------------------------------------
  // What the rendering reads as

  function Concat(ss: seq<string>): string {
    if ss == [] then [] else ss[0] + Concat(ss[1..])
  }

  /** The text of a rendered element, read in document order. */
  function TextOf(n: Node): string {
    match n
    case Span(_, t) => t
    case Block(_, _, cs) => Concat(seq(|cs|, i requires 0 <= i < |cs| => TextOf(cs[i])))
  }

  function Texts(cs: seq<Node>): seq<string> {
    seq(|cs|, i requires 0 <= i < |cs| => TextOf(cs[i]))
  }

  /** The reference serialisation: compact JSON with `": "` after each key
      and strings quoted but not escaped. */
  function Serialize(j: Json): string {
    match j
    case JNull => "null"
    case JString(s) => Quoted(s)
    case JNumber(t) => t
    case JBool(b) => if b then "true" else "false"
    case JArray(items) =>
      "[" + Join(seq(|items|, k requires 0 <= k < |items| => Serialize(items[k])), ",") + "]"
    case JObject(entries) =>
      "{" + Join(seq(|entries|, k requires 0 <= k < |entries| => EntryText(entries, k)), ",") + "}"
  }

  function EntryText(entries: seq<(string, Json)>, k: nat): string
    requires k < |entries|
    decreases JObject(entries), 0
  {
    assert entries[k] in entries;
    Quoted(entries[k].0) + ": " + Serialize(entries[k].1)
  }

  lemma {:induction false} ConcatAppend(a: seq<string>, b: seq<string>)
    ensures Concat(a + b) == Concat(a) + Concat(b)
  {
    if a == [] {
      assert a + b == b;
    } else {
      var h, t := a[0], a[1..];
      assert Concat(a + b) == h + Concat(t + b) by {
        assert (a + b)[0] == h && (a + b)[1..] == t + b;
      }
      assert Concat(t + b) == Concat(t) + Concat(b) by {
        ConcatAppend(t, b);
      }
      assert h + (Concat(t) + Concat(b)) == (h + Concat(t)) + Concat(b);
    }
  }

  lemma TextOfBlock(c: string, m: Option<nat>, cs: seq<Node>)
    ensures TextOf(Block(c, m, cs)) == Concat(Texts(cs))
  {
  }

  lemma TextsAppend(a: seq<Node>, b: seq<Node>)
    ensures Texts(a + b) == Texts(a) + Texts(b)
  {
  }

  /** Pieces each followed by a comma, but the last, read as the pieces
      joined with commas. */
  lemma {:induction false} ConcatCommas(xs: seq<string>)
    ensures Concat(seq(|xs|, k requires 0 <= k < |xs| => xs[k] + (if k < |xs| - 1 then "," else "")))
            == Join(xs, ",")
  {
    var s := seq(|xs|, k requires 0 <= k < |xs| => xs[k] + (if k < |xs| - 1 then "," else ""));
    if |xs| == 1 {
      assert s[0] == xs[0] + "" == xs[0];
      assert s[1..] == [];
    } else if |xs| > 1 {
      var t := xs[1..];
      ConcatCommas(t);
      assert s[1..] == seq(|t|, k requires 0 <= k < |t| => t[k] + (if k < |t| - 1 then "," else ""));
    }
  }

  /** A block made of an opening span, items and a closing span reads as
      the opening, the items' texts in order, and the closing. */
  lemma BracketedText(c: string, open: string, items: seq<Node>, close: string)
    ensures TextOf(Block(c, None, [Bracket(open)] + items + [Bracket(close)]))
            == open + Concat(Texts(items)) + close
  {
    var cs := [Bracket(open)] + items + [Bracket(close)];
    TextsAppend([Bracket(open)] + items, [Bracket(close)]);
    TextsAppend([Bracket(open)], items);
    ConcatAppend(Texts([Bracket(open)]) + Texts(items), Texts([Bracket(close)]));
    ConcatAppend(Texts([Bracket(open)]), Texts(items));
  }

  /** An item block reads as its value's text (and its key, for an object
      entry) followed by a comma unless it is the last. */
  lemma ItemText(c: string, m: Option<nat>, head: seq<Node>, k: nat, n: nat)
    ensures TextOf(Block(c, m, head + CommaAfter(k, n)))
            == Concat(Texts(head)) + (if k < n - 1 then "," else "")
  {
    TextsAppend(head, CommaAfter(k, n));
    ConcatAppend(Texts(head), Texts(CommaAfter(k, n)));
  }

  /** The text of a rendering is the value's serialisation: every element
      once, in order, brackets around, commas between, keys quoted and
      followed by `": "`. */
  lemma {:induction false} TextIsSerialize(j: Json, level: nat)
    ensures TextOf(Render(j, level)) == Serialize(j)
    decreases j, 1
  {
    match j
    case JArray(items) => ArrayText(items, level);
    case JObject(entries) => ObjectText(entries, level);
    case _ =>
  }

  lemma {:induction false} ArrayText(items: seq<Json>, level: nat)
    ensures TextOf(Render(JArray(items), level)) == Serialize(JArray(items))
    decreases JArray(items), 0
  {
    var n := |items|;
    var nodes := seq(n, k requires 0 <= k < n => ArrayItem(items, k, level));
    var xs := seq(n, k requires 0 <= k < n => Serialize(items[k]));
    forall k | 0 <= k < n
      ensures Texts(nodes)[k] == xs[k] + (if k < n - 1 then "," else "")
    {
      TextIsSerialize(items[k], level + 1);
      ItemText("json-array-item", Some(Indent(level)), [Render(items[k], level + 1)], k, n);
    }
    assert Texts(nodes) == seq(n, k requires 0 <= k < n => xs[k] + (if k < n - 1 then "," else ""));
    ConcatCommas(xs);
    BracketedText("json-array", "[", nodes, "]");
  }

  lemma ConcatThree(a: string, b: string, c: string)
    ensures Concat([a, b, c]) == a + b + c
  {
    assert [a, b, c][1..] == [b, c];
    assert [b, c][1..] == [c];
    assert [c][1..] == [];
    assert Concat([c]) == c + [] == c;
  }

  lemma {:induction false} ObjectText(entries: seq<(string, Json)>, level: nat)
    ensures TextOf(Render(JObject(entries), level)) == Serialize(JObject(entries))
    decreases JObject(entries), 0
  {
    var n := |entries|;
    var nodes := seq(n, k requires 0 <= k < n => ObjectItem(entries, k, level));
    var xs := seq(n, k requires 0 <= k < n => EntryText(entries, k));
    forall k | 0 <= k < n
      ensures Texts(nodes)[k] == xs[k] + (if k < n - 1 then "," else "")
    {
      assert entries[k] in entries;
      var key, value := entries[k].0, entries[k].1;
      TextIsSerialize(value, level + 1);
      var head := [Span("json-key", Quoted(key)), Span("json-colon", ": "), Render(value, level + 1)];
      ItemText("json-object-item", Some(Indent(level)), head, k, n);
      assert Texts(head) == [Quoted(key), ": ", Serialize(value)];
      ConcatThree(Quoted(key), ": ", Serialize(value));
    }
    assert Texts(nodes) == seq(n, k requires 0 <= k < n => xs[k] + (if k < n - 1 then "," else ""));
    ConcatCommas(xs);
    BracketedText("json-object", "{", nodes, "}");
  }

  // ---------------------------------------------------------------------------
  // Layout: order, indentation and commas

  /** An item block whose last child is a comma. */
  predicate EndsWithComma(n: Node) {
    n.Block? && |n.children| > 0 && n.children[|n.children| - 1] == Comma
  }

  /** How many of the nodes are item blocks closed by a comma. */
  function CommaItems(cs: seq<Node>): nat {
    if cs == [] then 0 else (if EndsWithComma(cs[0]) then 1 else 0) + CommaItems(cs[1..])
  }

  lemma {:induction false} CommaItemsLeading(cs: seq<Node>, count: nat)
    requires count <= |cs|
    requires forall k :: 0 <= k < |cs| ==> (EndsWithComma(cs[k]) <==> k < count)
    ensures CommaItems(cs) == count
  {
    if cs != [] {
      assert EndsWithComma(cs[0]) <==> 0 < count;
      var next := if count > 0 then count - 1 else 0;
      forall k | 0 <= k < |cs| - 1 ensures EndsWithComma(cs[1..][k]) <==> k < next {
        assert cs[1..][k] == cs[k + 1];
      }
      CommaItemsLeading(cs[1..], next);
    }
  }

  lemma CommaItemsAround(open: Node, items: seq<Node>, close: Node)
    requires !EndsWithComma(open) && !EndsWithComma(close)
    ensures CommaItems([open] + items + [close]) == CommaItems(items)
  {
    var cs := [open] + items + [close];
    forall k | 0 <= k < |items| ensures EndsWithComma(cs[k + 1]) <==> EndsWithComma(items[k]) {
    }
    CommaItemsShift(cs, items);
  }

  lemma {:induction false} CommaItemsShift(cs: seq<Node>, items: seq<Node>)
    requires |cs| == |items| + 2 && !EndsWithComma(cs[0]) && !EndsWithComma(cs[|cs| - 1])
    requires forall k :: 0 <= k < |items| ==> cs[k + 1] == items[k]
    ensures CommaItems(cs) == CommaItems(items)
  {
    assert cs[1..][..|items|] == items;
    CommaItemsSnoc(cs[1..]);
  }

  lemma {:induction false} CommaItemsSnoc(cs: seq<Node>)
    requires cs != [] && !EndsWithComma(cs[|cs| - 1])
    ensures CommaItems(cs) == CommaItems(cs[..|cs| - 1])
  {
    if |cs| > 1 {
      CommaItemsSnoc(cs[1..]);
      assert cs[1..][..|cs| - 2] == cs[..|cs| - 1][1..];
    }
  }

  /** A rendered value is never a bare comma span. */
  lemma NeverComma(j: Json, level: nat)
    ensures Render(j, level) != Comma
  {
  }

  /** An array renders `[`, then one item block per element in order, each
      holding that element rendered one level deeper and indented by
      `(level + 1) * 20`, then `]`; exactly `n - 1` item blocks carry a
      comma, and the last one does not. */
  lemma ArrayLayout(items: seq<Json>, level: nat)
    ensures var r := Render(JArray(items), level);
      && r.Block? && |r.children| == |items| + 2
      && r.children[0] == Bracket("[") && r.children[|items| + 1] == Bracket("]")
      && (forall k :: 0 <= k < |items| ==>
            && r.children[k + 1].Block?
            && r.children[k + 1].margin == Some((level + 1) * 20)
            && |r.children[k + 1].children| >= 1
            && r.children[k + 1].children[0] == Render(items[k], level + 1)
            && (EndsWithComma(r.children[k + 1]) <==> k < |items| - 1))
      && CommaItems(r.children) == if items == [] then 0 else |items| - 1
  {
    var n := |items|;
    var nodes := seq(n, k requires 0 <= k < n => ArrayItem(items, k, level));
    forall k | 0 <= k < n ensures EndsWithComma(nodes[k]) <==> k < n - 1 {
      NeverComma(items[k], level + 1);
    }
    CommaItemsLeading(nodes, if n == 0 then 0 else n - 1);
    CommaItemsAround(Bracket("["), nodes, Bracket("]"));
  }

  /** An object renders `{`, then one item block per entry in entry order:
      the quoted key, `": "`, the value one level deeper, indented by
      `(level + 1) * 20`; a comma closes every entry but the last; then `}`. */
  lemma ObjectLayout(entries: seq<(string, Json)>, level: nat)
    ensures var r := Render(JObject(entries), level);
      && r.Block? && |r.children| == |entries| + 2
      && r.children[0] == Bracket("{") && r.children[|entries| + 1] == Bracket("}")
      && (forall k :: 0 <= k < |entries| ==>
            && r.children[k + 1].Block?
            && r.children[k + 1].margin == Some((level + 1) * 20)
            && |r.children[k + 1].children| >= 3
            && r.children[k + 1].children[..3] ==
                 [Span("json-key", Quoted(entries[k].0)), Span("json-colon", ": "),
                  Render(entries[k].1, level + 1)]
            && (EndsWithComma(r.children[k + 1]) <==> k < |entries| - 1))
      && CommaItems(r.children) == if entries == [] then 0 else |entries| - 1
  {
    var n := |entries|;
    var nodes := seq(n, k requires 0 <= k < n => ObjectItem(entries, k, level));
    forall k | 0 <= k < n ensures EndsWithComma(nodes[k]) <==> k < n - 1 {
      NeverComma(entries[k].1, level + 1);
    }
    CommaItemsLeading(nodes, if n == 0 then 0 else n - 1);
    CommaItemsAround(Bracket("{"), nodes, Bracket("}"));
  }

  /** `null` (and `undefined`), strings, numbers and booleans render as one
      span whatever the level: `null`, the string in double quotes without
      escaping, the number's text, `true` or `false`. */
  lemma ScalarRendering(j: Json, level: nat, other: nat)
    requires !j.JArray? && !j.JObject?
    ensures Render(j, level).Span? && Render(j, level) == Render(j, other)
    ensures Render(j, level).text == Serialize(j)
    ensures j.JNull? ==> Render(j, level) == Span("json-null", "null")
    ensures j.JString? ==> Render(j, level) == Span("json-string", "\"" + j.s + "\"")
    ensures j.JBool? ==> Render(j, level).text == if j.b then "true" else "false"
  {
  }

  // ---------------------------------------------------------------------------
  // Brackets

  /** The spans of a rendering in document order. */
  function Tokens(n: Node): seq<Node> {
    match n
    case Span(_, _) => [n]
    case Block(_, _, cs) => Flatten(seq(|cs|, i requires 0 <= i < |cs| => Tokens(cs[i])))
  }

  function Flatten(tss: seq<seq<Node>>): seq<Node> {
    if tss == [] then [] else tss[0] + Flatten(tss[1..])
  }

  function Closer(open: string): string {
    if open == "[" then "]" else "}"
  }

  /** Reads the spans with a stack of open brackets: an opening bracket is
      pushed, a closing one must close the bracket on top; `None` when one
      does not. */
  function Scan(ts: seq<Node>, stack: seq<string>): Option<seq<string>> {
    if ts == [] then Some(stack)
    else if ts[0] == Bracket("[") || ts[0] == Bracket("{") then Scan(ts[1..], stack + [ts[0].text])
    else if ts[0] == Bracket("]") || ts[0] == Bracket("}") then
      if stack != [] && Closer(stack[|stack| - 1]) == ts[0].text then Scan(ts[1..], stack[..|stack| - 1])
      else None
    else Scan(ts[1..], stack)
  }

  /** Spans whose brackets all match up among themselves. */
  ghost predicate Neutral(ts: seq<Node>) {
    forall stack :: Scan(ts, stack) == Some(stack)
  }

  predicate Balanced(ts: seq<Node>) {
    Scan(ts, []) == Some([])
  }

  lemma {:induction false} ScanAppend(a: seq<Node>, b: seq<Node>, stack: seq<string>)
    ensures Scan(a + b, stack) == if Scan(a, stack).Some? then Scan(b, Scan(a, stack).value) else None
  {
    if a == [] {
      assert a + b == b;
    } else {
      assert (a + b)[0] == a[0] && (a + b)[1..] == a[1..] + b;
      var t := a[0];
      if t == Bracket("[") || t == Bracket("{") {
        ScanAppend(a[1..], b, stack + [t.text]);
      } else if t == Bracket("]") || t == Bracket("}") {
        if stack != [] && Closer(stack[|stack| - 1]) == t.text {
          ScanAppend(a[1..], b, stack[..|stack| - 1]);
        }
      } else {
        ScanAppend(a[1..], b, stack);
      }
    }
  }

  lemma {:induction false} FlattenAppend(x: seq<seq<Node>>, y: seq<seq<Node>>)
    ensures Flatten(x + y) == Flatten(x) + Flatten(y)
  {
    if x == [] {
      assert x + y == y;
    } else {
      var h, t := x[0], x[1..];
      assert Flatten(x + y) == h + Flatten(t + y) by {
        assert (x + y)[0] == h && (x + y)[1..] == t + y;
      }
      assert Flatten(t + y) == Flatten(t) + Flatten(y) by {
        FlattenAppend(t, y);
      }
      assert h + (Flatten(t) + Flatten(y)) == (h + Flatten(t)) + Flatten(y);
    }
  }

  lemma NeutralAppend(a: seq<Node>, b: seq<Node>)
    requires Neutral(a) && Neutral(b)
    ensures Neutral(a + b)
  {
    forall stack ensures Scan(a + b, stack) == Some(stack) {
      ScanAppend(a, b, stack);
    }
  }

  lemma {:induction false} FlattenNeutral(tss: seq<seq<Node>>)
    requires forall i :: 0 <= i < |tss| ==> Neutral(tss[i])
    ensures Neutral(Flatten(tss))
  {
    if tss != [] {
      FlattenNeutral(tss[1..]);
      NeutralAppend(tss[0], Flatten(tss[1..]));
    }
  }

  /** A non-bracket span leaves the stack alone. */
  lemma PlainNeutral(t: Node)
    requires t.Span? && t.cls != "json-bracket"
    ensures Neutral([t])
  {
    forall stack ensures Scan([t], stack) == Some(stack) {
      assert [t][1..] == [];
    }
  }

  /** The spans of a block are its children's spans, in order. */
  lemma BlockTokens(c: string, m: Option<nat>, cs: seq<Node>, x: seq<Node>, y: seq<Node>)
    requires cs == x + y
    ensures Tokens(Block(c, m, cs)) == Flatten(TokenLists(x)) + Flatten(TokenLists(y))
  {
    assert TokenLists(cs) == TokenLists(x) + TokenLists(y);
    FlattenAppend(TokenLists(x), TokenLists(y));
  }

  function TokenLists(cs: seq<Node>): seq<seq<Node>> {
    seq(|cs|, i requires 0 <= i < |cs| => Tokens(cs[i]))
  }

  /** A matching pair around neutral spans is neutral. */
  lemma WrapNeutral(open: string, mid: seq<Node>, close: string)
    requires (open == "[" && close == "]") || (open == "{" && close == "}")
    requires Neutral(mid)
    ensures Neutral([Bracket(open)] + mid + [Bracket(close)])
  {
    forall stack ensures Scan([Bracket(open)] + mid + [Bracket(close)], stack) == Some(stack) {
      var pushed := stack + [open];
      assert ([Bracket(open)] + mid + [Bracket(close)])[1..] == mid + [Bracket(close)];
      ScanAppend(mid, [Bracket(close)], pushed);
      assert [Bracket(close)][1..] == [];
      assert pushed[..|pushed| - 1] == stack;
    }
  }

  /** Brackets are balanced in every rendering: each container opens and
      closes exactly one pair around its items, and each item is balanced. */
  lemma {:induction false} RenderBalanced(j: Json, level: nat)
    ensures Neutral(Tokens(Render(j, level)))
    ensures Balanced(Tokens(Render(j, level)))
    decreases j, 1
  {
    match j
    case JArray(items) => ArrayBalanced(items, level);
    case JObject(entries) => ObjectBalanced(entries, level);
    case _ =>
      var r := Render(j, level);
      assert Tokens(r) == [r];
      PlainNeutral(r);
    assert Scan(Tokens(Render(j, level)), []) == Some([]);
  }

  lemma {:induction false} ArrayBalanced(items: seq<Json>, level: nat)
    ensures Neutral(Tokens(Render(JArray(items), level)))
    decreases JArray(items), 0
  {
    var n := |items|;
    var nodes := seq(n, k requires 0 <= k < n => ArrayItem(items, k, level));
    forall k | 0 <= k < n ensures Neutral(TokenLists(nodes)[k]) {
      RenderBalanced(items[k], level + 1);
      var cs := [Render(items[k], level + 1)] + CommaAfter(k, n);
      BlockTokens("json-array-item", Some(Indent(level)), cs, [Render(items[k], level + 1)], CommaAfter(k, n));
      assert Flatten(TokenLists([Render(items[k], level + 1)])) == Tokens(Render(items[k], level + 1));
      CommaNeutral(k, n);
      NeutralAppend(Tokens(Render(items[k], level + 1)), Flatten(TokenLists(CommaAfter(k, n))));
    }
    FlattenNeutral(TokenLists(nodes));
    ContainerTokens("json-array", "[", nodes, "]");
    WrapNeutral("[", Flatten(TokenLists(nodes)), "]");
  }

  lemma {:induction false} ObjectBalanced(entries: seq<(string, Json)>, level: nat)
    ensures Neutral(Tokens(Render(JObject(entries), level)))
    decreases JObject(entries), 0
  {
    var n := |entries|;
    var nodes := seq(n, k requires 0 <= k < n => ObjectItem(entries, k, level));
    forall k | 0 <= k < n ensures Neutral(TokenLists(nodes)[k]) {
      assert entries[k] in entries;
      var key, value := entries[k].0, entries[k].1;
      RenderBalanced(value, level + 1);
      var head := [Span("json-key", Quoted(key)), Span("json-colon", ": "), Render(value, level + 1)];
      BlockTokens("json-object-item", Some(Indent(level)), head + CommaAfter(k, n), head, CommaAfter(k, n));
      PlainNeutral(Span("json-key", Quoted(key)));
      PlainNeutral(Span("json-colon", ": "));
      FlattenThree(head);
      NeutralAppend([Span("json-colon", ": ")], Tokens(Render(value, level + 1)));
      NeutralAppend([Span("json-key", Quoted(key))], [Span("json-colon", ": ")] + Tokens(Render(value, level + 1)));
      CommaNeutral(k, n);
      NeutralAppend(Flatten(TokenLists(head)), Flatten(TokenLists(CommaAfter(k, n))));
    }
    FlattenNeutral(TokenLists(nodes));
    ContainerTokens("json-object", "{", nodes, "}");
    WrapNeutral("{", Flatten(TokenLists(nodes)), "}");
  }

  lemma FlattenThree(head: seq<Node>)
    requires |head| == 3 && head[0].Span? && head[1].Span?
    ensures Flatten(TokenLists(head)) == [head[0]] + ([head[1]] + Tokens(head[2]))
  {
    var ts := TokenLists(head);
    assert ts[1..][1..][1..] == [];
    assert Flatten(ts[1..][1..]) == Tokens(head[2]) + [];
  }

  lemma CommaNeutral(k: nat, n: nat)
    ensures Neutral(Flatten(TokenLists(CommaAfter(k, n))))
  {
    if k < n - 1 {
      assert Flatten(TokenLists([Comma])) == [Comma];
      PlainNeutral(Comma);
    } else {
      assert Flatten(TokenLists([])) == [];
    }
  }

  lemma ContainerTokens(c: string, open: string, nodes: seq<Node>, close: string)
    ensures Tokens(Block(c, None, [Bracket(open)] + nodes + [Bracket(close)]))
            == [Bracket(open)] + Flatten(TokenLists(nodes)) + [Bracket(close)]
  {
    var cs := [Bracket(open)] + nodes + [Bracket(close)];
    assert TokenLists(cs) == [[Bracket(open)]] + TokenLists(nodes) + [[Bracket(close)]];
    FlattenAppend([[Bracket(open)]] + TokenLists(nodes), [[Bracket(close)]]);
    FlattenAppend([[Bracket(open)]], TokenLists(nodes));
    assert Flatten([[Bracket(close)]]) == [Bracket(close)];
    assert Flatten([[Bracket(open)]]) == [Bracket(open)];
  }
}
