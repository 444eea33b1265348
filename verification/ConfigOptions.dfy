/**
 ConfigManager::getOption on the configuration tree: a lookup that, given a default,
 creates the elements and the text or attribute it did not find.
 */
module ConfigOptions {
  import opened Wrappers

  /** An XML node. Attributes are a list of name and value, the first of a name counts. */
  datatype Node =
    | Text(text: string)
    | Comment(text: string)
    | Element(name: string, attributes: seq<(string, string)>, children: seq<Node>)

  /** The axis part of an xpath: none, attribute::name, or one that is not supported. */
  datatype Axis = ElementText | Attribute(name: string) | Unsupported

  datatype XPath = XPath(parts: seq<string>, axis: Axis)

  datatype Outcome = Value(value: string) | Throws

  // ----- strings -----

  predicate IsSpace(c: char) {
    c == ' ' || c == '\t' || c == '\n' || c == '\r'
  }

  function TrimLeft(s: string): (r: string)
    ensures r == s || (s != [] && IsSpace(s[0]))
    ensures |r| <= |s|
  {
    if s != [] && IsSpace(s[0]) then TrimLeft(s[1..]) else s
  }

  function TrimRight(s: string): (r: string)
    ensures r == s || (s != [] && IsSpace(s[|s| - 1]))
    ensures |r| <= |s|
  {
    if s != [] && IsSpace(s[|s| - 1]) then TrimRight(s[..|s| - 1]) else s
  }

  function Trim(s: string): string {
    TrimRight(TrimLeft(s))
  }

  // ----- elements -----

  /** The index of the first element child with the name, or the number of children. */
  function ChildIndex(children: seq<Node>, name: string): (r: nat)
    ensures r <= |children|
    ensures r < |children| ==> children[r].Element? && children[r].name == name
    ensures forall j :: 0 <= j < r ==> !(children[j].Element? && children[j].name == name)
  {
    if children == [] then 0
    else if children[0].Element? && children[0].name == name then 0
    else 1 + ChildIndex(children[1..], name)
  }

  /** getText: the text children joined, nil when there is none. */
  function TextOf(children: seq<Node>): Option<string> {
    if children == [] then None
    else
      var rest := TextOf(children[1..]);
      if children[0].Text? then Some(children[0].text + (if rest.Some? then rest.value else ""))
      else rest
  }

  function AttributeOf(attributes: seq<(string, string)>, name: string): Option<string> {
    if attributes == [] then None
    else if attributes[0].0 == name then Some(attributes[0].1)
    else AttributeOf(attributes[1..], name)
  }

  function SetAttribute(attributes: seq<(string, string)>, name: string, value: string): seq<(string, string)> {
    if attributes == [] then [(name, value)]
    else if attributes[0].0 == name then [(name, value)] + attributes[1..]
    else [attributes[0]] + SetAttribute(attributes[1..], name, value)
  }

  /** setText throws on an element with several children or a child that is not text. */
  predicate CanSetText(children: seq<Node>) {
    children == [] || (|children| == 1 && children[0].Text?)
  }

  // ----- lookup -----

  function Find(e: Node, parts: seq<string>): (r: Option<Node>)
    requires e.Element?
    ensures r.Some? ==> r.value.Element?
    decreases |parts|
  {
    if parts == [] then Some(e)
    else
      var i := ChildIndex(e.children, parts[0]);
      if i == |e.children| then None else Find(e.children[i], parts[1..])
  }

  /** What the axis selects on an element: XPath::getText. */
  function Read(e: Node, axis: Axis): Option<string>
    requires e.Element?
  {
    match axis
    case ElementText => TextOf(e.children)
    case Attribute(name) => AttributeOf(e.attributes, name)
    case Unsupported => None
  }

  /** The raw value of a path, nil when the element or the value is missing. */
  function Lookup(root: Node, x: XPath): Option<string>
    requires root.Element?
  {
    var el := Find(root, x.parts);
    if el.None? then None else Read(el.value, x.axis)
  }

  /** getOption without a default. */
  function GetOptionOrThrow(root: Node, x: XPath): Outcome
    requires root.Element?
  {
    var v := Lookup(root, x);
    if v.Some? then Value(Trim(v.value)) else Throws
  }

  // ----- creation -----

  /** The value is stored on the element the path ends in. */
  function Store(e: Node, axis: Axis, value: string): (r: Node)
    requires e.Element?
    ensures r.Element? && r.name == e.name
  {
    match axis
    case ElementText => if CanSetText(e.children) then e.(children := [Text(value)]) else e
    case Attribute(name) => e.(attributes := SetAttribute(e.attributes, name, value))
    case Unsupported => e
  }

  /** Elements are created for the parts that are missing, then the value is stored. */
  function Put(e: Node, parts: seq<string>, axis: Axis, value: string): (r: Node)
    requires e.Element?
    ensures r.Element? && r.name == e.name
    decreases |parts|
  {
    if parts == [] then Store(e, axis, value)
    else
      var i := ChildIndex(e.children, parts[0]);
      if i < |e.children| then
        e.(children := e.children[i := Put(e.children[i], parts[1..], axis, value)])
      else
        e.(children := e.children + [Put(Element(parts[0], [], []), parts[1..], axis, value)])
  }

  /** Whether storing at the path works: an existing element must take text, and the axis be known. */
  predicate CanStore(root: Node, x: XPath)
    requires root.Element?
  {
    var el := Find(root, x.parts);
    && !x.axis.Unsupported?
    && (x.axis.ElementText? && el.Some? ==> CanSetText(el.value.children))
  }

  /** getOption with a default: the tree afterwards and what the caller sees. */
  function OptionCall(root: Node, x: XPath, def: string): (r: (Node, Outcome))
    requires root.Element?
    ensures r.0.Element?
  {
    var v := Lookup(root, x);
    if x.axis.Unsupported? && Find(root, x.parts).Some? then (root, Throws)
    else if v.Some? && v.value != "" then (root, Value(Trim(v.value)))
    else (Put(root, x.parts, x.axis, def), if CanStore(root, x) then Value(def) else Throws)
  }

  // ----- facts about elements -----

  lemma {:induction false} IndexAfterUpdate(children: seq<Node>, i: nat, e: Node, name: string)
    requires i < |children| && children[i].Element? && e.Element? && e.name == children[i].name
    ensures ChildIndex(children[i := e], name) == ChildIndex(children, name)
  {
    var u := children[i := e];
    if i == 0 {
      assert u[1..] == children[1..];
    } else {
      assert u[1..] == children[1..][i - 1 := e];
      IndexAfterUpdate(children[1..], i - 1, e, name);
    }
  }

  lemma {:induction false} IndexAfterAppend(children: seq<Node>, e: Node, name: string)
    requires e.Element?
    ensures ChildIndex(children + [e], name) ==
            if ChildIndex(children, name) == |children| && e.name != name then |children| + 1
            else ChildIndex(children, name)
  {
    var u := children + [e];
    if children == [] {
      assert u[1..] == [];
    } else {
      assert u[1..] == children[1..] + [e];
      IndexAfterAppend(children[1..], e, name);
    }
  }

  lemma {:induction false} TextAfterUpdate(children: seq<Node>, i: nat, e: Node)
    requires i < |children| && children[i].Element? && e.Element?
    ensures TextOf(children[i := e]) == TextOf(children)
  {
    var u := children[i := e];
    if i == 0 {
      assert u[1..] == children[1..];
    } else {
      assert u[1..] == children[1..][i - 1 := e];
      TextAfterUpdate(children[1..], i - 1, e);
    }
  }

  lemma {:induction false} TextAfterAppend(children: seq<Node>, e: Node)
    requires e.Element?
    ensures TextOf(children + [e]) == TextOf(children)
  {
    var u := children + [e];
    if children == [] {
      assert u[1..] == [];
    } else {
      assert u[1..] == children[1..] + [e];
      TextAfterAppend(children[1..], e);
    }
  }

  lemma {:induction false} AttributeAfterSet(attributes: seq<(string, string)>, name: string, value: string,
                                             other: string)
    ensures AttributeOf(SetAttribute(attributes, name, value), other) ==
            if other == name then Some(value) else AttributeOf(attributes, other)
  {
    if attributes != [] {
      if attributes[0].0 == name {
        assert ([(name, value)] + attributes[1..])[1..] == attributes[1..];
      } else {
        AttributeAfterSet(attributes[1..], name, value, other);
        var rest := SetAttribute(attributes[1..], name, value);
        assert ([attributes[0]] + rest)[1..] == rest;
      }
    } else {
      assert [(name, value)][1..] == [];
    }
  }

  // ----- what lookups read -----

  function Joined(t: Option<string>, u: Option<string>): Option<string> {
    if t.None? then u else if u.None? then t else Some(t.value + u.value)
  }

  /** The text of an element is that of its text children, in order, and there is none without one. */
  lemma {:induction false} TextIsJoined(a: seq<Node>, b: seq<Node>)
    ensures TextOf(a + b) == Joined(TextOf(a), TextOf(b))
    ensures TextOf(a).None? <==> forall n :: n in a ==> !n.Text?
    ensures |a| == 1 && a[0].Text? ==> TextOf(a) == Some(a[0].text)
  {
    if a == [] {
      assert a + b == b;
    } else {
      assert (a + b)[1..] == a[1..] + b && a == [a[0]] + a[1..];
      TextIsJoined(a[1..], b);
      if a[0].Text? { assert a[0].text + "" == a[0].text; }
      if a[0].Text? && TextOf(a[1..]).Some? && TextOf(b).Some? {
        var x, y, z := a[0].text, TextOf(a[1..]).value, TextOf(b).value;
        assert x + (y + z) == (x + y) + z;
      }
    }
  }

  /** The first attribute of a name counts. */
  lemma {:induction false} AttributeIsFirst(attributes: seq<(string, string)>, name: string)
    ensures AttributeOf(attributes, name).None? <==> forall a :: a in attributes ==> a.0 != name
    ensures forall i :: 0 <= i < |attributes| && attributes[i].0 == name
                        && (forall j :: 0 <= j < i ==> attributes[j].0 != name) ==>
                          AttributeOf(attributes, name) == Some(attributes[i].1)
  {
    if attributes != [] {
      AttributeIsFirst(attributes[1..], name);
      assert attributes == [attributes[0]] + attributes[1..];
      assert forall j :: 0 <= j < |attributes| - 1 ==> attributes[1..][j] == attributes[j + 1];
      forall i | 1 <= i < |attributes| && attributes[i].0 == name
                 && (forall j :: 0 <= j < i ==> attributes[j].0 != name)
        ensures AttributeOf(attributes, name) == Some(attributes[i].1)
      {
        assert attributes[1..][i - 1].0 == name;
      }
    }
  }

  /** A path leads to the first child of each name, from one element to the next. */
  lemma {:induction false} FindGoesOn(e: Node, path: seq<string>, rest: seq<string>)
    requires e.Element?
    ensures Find(e, path + rest) == if Find(e, path).Some? then Find(Find(e, path).value, rest) else None
    ensures path == [] ==> Find(e, path) == Some(e)
    decreases |path|
  {
    if path == [] {
      assert path + rest == rest;
    } else {
      assert (path + rest)[1..] == path[1..] + rest;
      var i := ChildIndex(e.children, path[0]);
      if i < |e.children| { FindGoesOn(e.children[i], path[1..], rest); }
    }
  }

  /** A value that is there and not empty is returned without the white space around it, and the tree stays; if
      there is none, what is returned is the default. */
  lemma OptionIsTrimmed(root: Node, x: XPath, def: string) returns (i: nat, j: nat)
    requires root.Element?
    ensures var (t, out) := OptionCall(root, x, def);
            var v := Lookup(root, x);
            if v.Some? && v.value != "" then
              Trimmed(v.value, i, j) && out == Value(v.value[i..j]) && t == root
            else
              out == Value(def) || out == Throws
    ensures var v := Lookup(root, x);
            v.Some? ==> Trimmed(v.value, i, j) && GetOptionOrThrow(root, x) == Value(v.value[i..j])
    ensures Lookup(root, x).None? ==> GetOptionOrThrow(root, x) == Throws
  {
    i, j := 0, 0;
    if Lookup(root, x).Some? { i, j := TrimIsMiddle(Lookup(root, x).value); }
  }

  /** Where a lookup reads: the text of the element the path leads to, or its attribute. */
  lemma LookupReads(root: Node, x: XPath)
    requires root.Element?
    ensures var el := Find(root, x.parts);
            Lookup(root, x) ==
            if el.None? || x.axis.Unsupported? then None
            else if x.axis.Attribute? then AttributeOf(el.value.attributes, x.axis.name)
            else TextOf(el.value.children)
  {
  }

  // ----- get or create -----

  lemma StoreThenRead(e: Node, axis: Axis, value: string)
    requires e.Element? && !axis.Unsupported? && (axis.ElementText? ==> CanSetText(e.children))
    ensures Read(Store(e, axis, value), axis) == Some(value)
  {
    match axis
    case ElementText =>
      var c := [Text(value)];
      assert c[1..] == [];
      assert TextOf(c[1..]) == None;
      assert TextOf(c) == Some(value + "");
      assert value + "" == value;
    case Attribute(name) => AttributeAfterSet(e.attributes, name, value, name);
    case Unsupported =>
  }

  /** What was put is found. */
  lemma {:induction false} PutThenLookup(e: Node, parts: seq<string>, axis: Axis, value: string)
    requires e.Element? && CanStore(e, XPath(parts, axis))
    ensures Lookup(Put(e, parts, axis, value), XPath(parts, axis)) == Some(value)
    decreases |parts|
  {
    if parts == [] {
      StoreThenRead(e, axis, value);
    } else {
      var i := ChildIndex(e.children, parts[0]);
      if i < |e.children| {
        var c := Put(e.children[i], parts[1..], axis, value);
        IndexAfterUpdate(e.children, i, c, parts[0]);
        PutThenLookup(e.children[i], parts[1..], axis, value);
      } else {
        var fresh_ := Element(parts[0], [], []);
        var c := Put(fresh_, parts[1..], axis, value);
        IndexAfterAppend(e.children, c, parts[0]);
        PutThenLookup(fresh_, parts[1..], axis, value);
      }
    }
  }

  /** Storing does not change what another axis of the same element reads. */
  lemma StoreKeepsOthers(e: Node, axis: Axis, value: string, other: Axis)
    requires e.Element? && other != axis
    requires Read(e, other).Some?
    ensures Read(Store(e, axis, value), other) == Read(e, other)
  {
    if axis.Attribute? && other.Attribute? { AttributeAfterSet(e.attributes, axis.name, value, other.name); }
  }

  /** Every other path that had a value keeps it. */
  lemma {:induction false} PutKeepsOthers(e: Node, parts: seq<string>, axis: Axis, value: string, y: XPath)
    requires e.Element? && y != XPath(parts, axis) && Lookup(e, y).Some?
    ensures Lookup(Put(e, parts, axis, value), y) == Lookup(e, y)
    decreases |parts|
  {
    if parts == [] {
      if y.parts == [] {
        StoreKeepsOthers(e, axis, value, y.axis);
      }
    } else {
      var i := ChildIndex(e.children, parts[0]);
      var c := if i < |e.children| then Put(e.children[i], parts[1..], axis, value)
               else Put(Element(parts[0], [], []), parts[1..], axis, value);
      if y.parts == [] {
        if i < |e.children| { TextAfterUpdate(e.children, i, c); } else { TextAfterAppend(e.children, c); }
      } else {
        var j := ChildIndex(e.children, y.parts[0]);
        if i < |e.children| {
          IndexAfterUpdate(e.children, i, c, y.parts[0]);
          if i == j {
            assert parts[0] == y.parts[0];
            assert y.parts == [y.parts[0]] + y.parts[1..] && parts == [parts[0]] + parts[1..];
            PutKeepsOthers(e.children[i], parts[1..], axis, value, XPath(y.parts[1..], y.axis));
          }
        } else {
          IndexAfterAppend(e.children, c, y.parts[0]);
        }
      }
    }
  }

  lemma {:induction false} TrimRightKeepsStart(s: string)
    requires s != [] && !IsSpace(s[0])
    ensures TrimRight(s) != [] && TrimRight(s)[0] == s[0]
  {
    if IsSpace(s[|s| - 1]) { TrimRightKeepsStart(s[..|s| - 1]); }
  }

  lemma {:induction false} TrimmedEnds(s: string)
    ensures TrimLeft(s) != [] ==> !IsSpace(TrimLeft(s)[0])
    ensures TrimRight(s) != [] ==> !IsSpace(TrimRight(s)[|TrimRight(s)| - 1])
    decreases |s|
  {
    if s != [] {
      TrimmedEnds(s[1..]);
      TrimmedEnds(s[..|s| - 1]);
    }
  }

  /** s[i..j] is s without the blanks, tabs and line ends at its two ends. */
  ghost predicate Trimmed(s: string, i: nat, j: nat) {
    && i <= j <= |s|
    && (forall k :: 0 <= k < i || j <= k < |s| ==> s[k] in [' ', '\t', '\r', '\n'])
    && (i < j ==> s[i] !in [' ', '\t', '\r', '\n'] && s[j - 1] !in [' ', '\t', '\r', '\n'])
  }

  lemma {:induction false} TrimLeftDrops(s: string) returns (i: nat)
    ensures i <= |s| && TrimLeft(s) == s[i..] && forall k :: 0 <= k < i ==> IsSpace(s[k])
  {
    i := 0;
    if s != [] && IsSpace(s[0]) {
      var n := TrimLeftDrops(s[1..]);
      i := n + 1;
      assert s[1..][n..] == s[i..] && forall k :: 1 <= k < i ==> s[k] == s[1..][k - 1];
    }
  }

  lemma {:induction false} TrimRightDrops(s: string) returns (j: nat)
    ensures j <= |s| && TrimRight(s) == s[..j] && forall k :: j <= k < |s| ==> IsSpace(s[k])
  {
    j := |s|;
    if s != [] && IsSpace(s[|s| - 1]) {
      j := TrimRightDrops(s[..|s| - 1]);
      assert s[..|s| - 1][..j] == s[..j];
    }
  }

  /** What trimming leaves: the middle of the string, with nothing but white space around it and none at its
      ends. */
  lemma TrimIsMiddle(s: string) returns (i: nat, j: nat)
    ensures Trimmed(s, i, j) && Trim(s) == s[i..j]
  {
    i := TrimLeftDrops(s);
    var n := TrimRightDrops(s[i..]);
    j := i + n;
    TrimmedEnds(s);
    TrimmedEnds(s[i..]);
    if n > 0 { assert s[i..][..n][0] == s[i] && s[i..][..n][n - 1] == s[j - 1]; }
    assert forall k :: j <= k < |s| ==> s[k] == s[i..][k - i];
  }

  /** There is one such middle. */
  lemma TrimmedOnce(s: string, i: nat, j: nat, i': nat, j': nat)
    requires Trimmed(s, i, j) && Trimmed(s, i', j')
    ensures s[i..j] == s[i'..j']
  {
  }

  /** Trimming twice is trimming once. */
  lemma TrimTwice(s: string)
    ensures Trim(Trim(s)) == Trim(s)
  {
    var t := TrimLeft(s);
    TrimmedEnds(s);
    TrimmedEnds(t);
    if t != [] { TrimRightKeepsStart(t); }
  }

  lemma SetAttributeTwice(attributes: seq<(string, string)>, name: string, value: string)
    ensures SetAttribute(SetAttribute(attributes, name, value), name, value) == SetAttribute(attributes, name, value)
  {
    if attributes != [] && attributes[0].0 != name {
      SetAttributeTwice(attributes[1..], name, value);
      var rest := SetAttribute(attributes[1..], name, value);
      assert ([attributes[0]] + rest)[1..] == rest;
    }
  }

  /** Storing the same value again changes nothing. */
  lemma {:induction false} PutTwice(e: Node, parts: seq<string>, axis: Axis, value: string)
    requires e.Element?
    ensures var t := Put(e, parts, axis, value); Put(t, parts, axis, value) == t
    decreases |parts|
  {
    if parts == [] {
      if axis.Attribute? { SetAttributeTwice(e.attributes, axis.name, value); }
    } else {
      var i := ChildIndex(e.children, parts[0]);
      var child := if i < |e.children| then e.children[i] else Element(parts[0], [], []);
      var c := Put(child, parts[1..], axis, value);
      PutTwice(child, parts[1..], axis, value);
      var t := Put(e, parts, axis, value);
      if i < |e.children| {
        IndexAfterUpdate(e.children, i, c, parts[0]);
      } else {
        IndexAfterAppend(e.children, c, parts[0]);
      }
      assert t.children[i] == c && ChildIndex(t.children, parts[0]) == i;
      assert t.children[i := c] == t.children;
    }
  }

  /** Get or create, whatever the default: a call that returns a value makes a lookup of the path return
      that value trimmed, a repeated call changes nothing, and every other path that had a value keeps it. */
  lemma GetOrCreate(root: Node, x: XPath, def: string, y: XPath)
    requires root.Element?
    ensures var (t, out) := OptionCall(root, x, def);
            && (out.Value? ==> GetOptionOrThrow(t, x) == Value(Trim(out.value)) && OptionCall(t, x, def).0 == t)
            && (y != x && Lookup(root, y).Some? ==> Lookup(t, y) == Lookup(root, y))
  {
    var v := Lookup(root, x);
    if v.Some? && v.value != "" {
      TrimTwice(v.value);
    } else if !(x.axis.Unsupported? && Find(root, x.parts).Some?) {
      if CanStore(root, x) {
        PutThenLookup(root, x.parts, x.axis, def);
        PutTwice(root, x.parts, x.axis, def);
      }
      if y != x && Lookup(root, y).Some? { PutKeepsOthers(root, x.parts, x.axis, def, y); }
    }
  }

  /** A call that returned a value returns the same when repeated, and so does a lookup, exactly when the
      path had a value to return or the default is its own trimming. */
  lemma RepeatsExactly(root: Node, x: XPath, def: string)
    requires root.Element? && OptionCall(root, x, def).1.Value?
    ensures var (t, out) := OptionCall(root, x, def);
            var kept := (Lookup(root, x).Some? && Lookup(root, x).value != "") || Trim(def) == def;
            && (GetOptionOrThrow(t, x) == out <==> kept)
            && (OptionCall(t, x, def).1 == out <==> kept)
  {
    var v := Lookup(root, x);
    if v.Some? && v.value != "" {
      TrimTwice(v.value);
    } else {
      PutThenLookup(root, x.parts, x.axis, def);
      var t := Put(root, x.parts, x.axis, def);
      assert Lookup(t, x) == Some(def);
      if def == "" { WhenGetOptionThrows(t, x, def); EmptyTextIsStorable(root, x); }
    }
  }

  /** An element whose text was just set takes text again. */
  lemma {:induction false} EmptyTextIsStorable(root: Node, x: XPath)
    requires root.Element? && CanStore(root, x)
    ensures CanStore(Put(root, x.parts, x.axis, ""), x)
    decreases |x.parts|
  {
    var parts, e := x.parts, root;
    if parts != [] {
      var i := ChildIndex(e.children, parts[0]);
      var child := if i < |e.children| then e.children[i] else Element(parts[0], [], []);
      var c := Put(child, parts[1..], x.axis, "");
      if i < |e.children| {
        IndexAfterUpdate(e.children, i, c, parts[0]);
      } else {
        IndexAfterAppend(e.children, c, parts[0]);
      }
      EmptyTextIsStorable(child, XPath(parts[1..], x.axis));
    }
  }

  /** A call throws exactly when the axis is not supported, or the element is there without a value and
      cannot take text. */
  lemma WhenGetOptionThrows(root: Node, x: XPath, def: string)
    requires root.Element?
    ensures OptionCall(root, x, def).1.Throws? <==>
            || x.axis.Unsupported?
            || (&& x.axis.ElementText? && (Lookup(root, x).None? || Lookup(root, x).value == "")
                && Find(root, x.parts).Some?
                && var c := Find(root, x.parts).value.children; |c| > 1 || (|c| == 1 && !c[0].Text?))
  {
  }

  lemma {:induction false} PutNothing(e: Node, parts: seq<string>, axis: Axis, value: string)
    requires e.Element? && Find(e, parts).Some? && !CanStore(e, XPath(parts, axis))
    ensures Put(e, parts, axis, value) == e
    decreases |parts|
  {
    if parts != [] {
      var i := ChildIndex(e.children, parts[0]);
      PutNothing(e.children[i], parts[1..], axis, value);
      assert e.children[i := e.children[i]] == e.children;
    }
  }

  /** A call that throws leaves the tree alone exactly when the element is there; an unsupported axis on a
      missing path throws only after the elements have been created. */
  lemma ThrowingCallKeepsTree(root: Node, x: XPath, def: string)
    requires root.Element? && OptionCall(root, x, def).1.Throws?
    ensures OptionCall(root, x, def).0 == root <==> Find(root, x.parts).Some?
  {
    if Find(root, x.parts).Some? {
      if !x.axis.Unsupported? { PutNothing(root, x.parts, x.axis, def); }
    } else {
      PutCreates(root, x.parts, x.axis, def);
    }
  }

  lemma {:induction false} PutCreates(e: Node, parts: seq<string>, axis: Axis, value: string)
    requires e.Element?
    ensures Find(Put(e, parts, axis, value), parts).Some?
    decreases |parts|
  {
    if parts != [] {
      var i := ChildIndex(e.children, parts[0]);
      if i < |e.children| {
        IndexAfterUpdate(e.children, i, Put(e.children[i], parts[1..], axis, value), parts[0]);
        PutCreates(e.children[i], parts[1..], axis, value);
      } else {
        var child := Element(parts[0], [], []);
        IndexAfterAppend(e.children, Put(child, parts[1..], axis, value), parts[0]);
        PutCreates(child, parts[1..], axis, value);
      }
    }
  }

  // ----- the method -----

  /** An empty element is appended to the element at the end of the path. */
  function AddChild(e: Node, path: seq<string>, name: string): (r: Node)
    requires e.Element? && Find(e, path).Some?
    ensures r.Element? && r.name == e.name
    decreases |path|
  {
    if path == [] then e.(children := e.children + [Element(name, [], [])])
    else
      var i := ChildIndex(e.children, path[0]);
      e.(children := e.children[i := AddChild(e.children[i], path[1..], name)])
  }

  /** The element at the end of the path is replaced. */
  function ReplaceAt(e: Node, path: seq<string>, node: Node): (r: Node)
    requires e.Element? && Find(e, path).Some? && node.Element?
    requires node.name == Find(e, path).value.name
    ensures r.Element? && r.name == e.name
    decreases |path|
  {
    if path == [] then node
    else
      var i := ChildIndex(e.children, path[0]);
      e.(children := e.children[i := ReplaceAt(e.children[i], path[1..], node)])
  }

  /** Storing at the cursor is storing along the whole path. */
  lemma {:induction false} StoreAtCursor(e: Node, path: seq<string>, axis: Axis, value: string)
    requires e.Element? && Find(e, path).Some?
    ensures ReplaceAt(e, path, Store(Find(e, path).value, axis, value)) == Put(e, path, axis, value)
    decreases |path|
  {
    if path != [] { StoreAtCursor(e.children[ChildIndex(e.children, path[0])], path[1..], axis, value); }
  }

  lemma {:induction false} FindStep(e: Node, path: seq<string>, name: string)
    requires e.Element? && Find(e, path).Some?
    ensures Find(e, path + [name]) ==
            var c := Find(e, path).value.children;
            var i := ChildIndex(c, name);
            if i == |c| then None else Some(c[i])
    decreases |path|
  {
    if path == [] {
      assert [name][1..] == [];
      assert path + [name] == [name];
    } else {
      assert (path + [name])[1..] == path[1..] + [name];
      FindStep(e.children[ChildIndex(e.children, path[0])], path[1..], name);
    }
  }

  lemma {:induction false} FindBeyond(e: Node, path: seq<string>, all: seq<string>)
    requires e.Element? && path <= all && Find(e, path).None?
    ensures Find(e, all).None?
    decreases |path|
  {
    var i := ChildIndex(e.children, path[0]);
    if i < |e.children| { FindBeyond(e.children[i], path[1..], all[1..]); }
  }

  /** After a missing element was appended at the cursor, the cursor can move to it, which is empty, and
      the tree that remains to be reached is the same. */
  lemma {:induction false} AddChildKeepsGoal(e: Node, path: seq<string>, name: string, rest: seq<string>,
                                             axis: Axis, value: string)
    requires e.Element? && Find(e, path).Some? && Find(e, path + [name]).None?
    ensures var r := AddChild(e, path, name);
            && Find(r, path + [name]) == Some(Element(name, [], []))
            && Put(r, path + [name] + rest, axis, value) == Put(e, path + [name] + rest, axis, value)
    decreases |path|
  {
    var r := AddChild(e, path, name);
    var all := path + [name] + rest;
    FindStep(e, path, name);
    if path == [] {
      var child := Element(name, [], []);
      assert path + [name] == [name] && [name][1..] == [];
      assert all[1..] == rest;
      IndexAfterAppend(e.children, child, name);
      var c := Put(child, rest, axis, value);
      assert (e.children + [child])[|e.children| := c] == e.children + [c];
    } else {
      var i := ChildIndex(e.children, path[0]);
      var child := AddChild(e.children[i], path[1..], name);
      assert (path + [name])[1..] == path[1..] + [name];
      assert all[1..] == path[1..] + [name] + rest;
      AddChildKeepsGoal(e.children[i], path[1..], name, rest, axis, value);
      IndexAfterUpdate(e.children, i, child, path[0]);
      var c := Put(child, all[1..], axis, value);
      assert e.children[i := child][i := c] == e.children[i := c];
    }
  }

  class ConfigManager {
    var root: Node

    ghost predicate Valid()
      reads this
    {
      root.Element?
    }

    /** The walk down to the last element of the path there is. */
    method Walk(parts: seq<string>) returns (i: nat, cur: Node)
      requires Valid()
      ensures i <= |parts| && Find(root, parts[..i]) == Some(cur)
      ensures i < |parts| ==> Find(root, parts[..i] + [parts[i]]).None?
      ensures Find(root, parts).Some? <==> i == |parts|
    {
      cur, i := root, 0;
      while i < |parts|
        invariant i <= |parts| && Find(root, parts[..i]) == Some(cur)
      {
        FindStep(root, parts[..i], parts[i]);
        var k := ChildIndex(cur.children, parts[i]);
        if k == |cur.children| {
          FindBeyond(root, parts[..i] + [parts[i]], parts);
          return;
        }
        cur := cur.children[k];
        i := i + 1;
        assert parts[..i] == parts[..i - 1] + [parts[i - 1]];
      }
      assert parts[..i] == parts;
    }

    /** The elements that are missing are created one below the other. */
    method Create(parts: seq<string>, start: nat, ghost axis: Axis, ghost value: string)
      requires Valid() && start < |parts|
      requires Find(root, parts[..start]).Some? && Find(root, parts[..start] + [parts[start]]).None?
      modifies this
      ensures Valid()
      ensures Find(root, parts) == Some(Element(parts[|parts| - 1], [], []))
      ensures Put(root, parts, axis, value) == Put(old(root), parts, axis, value)
    {
      hide Put, AddChild;
      var i := start;
      while i < |parts|
        invariant start <= i <= |parts| && root.Element?
        invariant Find(root, parts[..i]).Some?
        invariant i < |parts| ==> Find(root, parts[..i] + [parts[i]]).None?
        invariant start < i ==> Find(root, parts[..i]) == Some(Element(parts[i - 1], [], []))
        invariant Put(root, parts, axis, value) == Put(old(root), parts, axis, value)
      {
        assert parts == parts[..i] + [parts[i]] + parts[i + 1..];
        AddChildKeepsGoal(root, parts[..i], parts[i], parts[i + 1..], axis, value);
        root := AddChild(root, parts[..i], parts[i]);
        i := i + 1;
        assert parts[..i] == parts[..i - 1] + [parts[i - 1]];
        if i < |parts| { FindStep(root, parts[..i], parts[i]); }
      }
      assert parts[..i] == parts;
    }

    /** trim_string: the first and the last character that is not white space. */
    static method TrimString(str: string) returns (r: string)
      ensures r == Trim(str)
    {
      ghost var from, to := TrimIsMiddle(str);
      var start := 0;
      while start < |str| && IsSpace(str[start])
        invariant start <= |str| && forall k :: 0 <= k < start ==> IsSpace(str[k])
      {
        start := start + 1;
      }
      if start == |str| {
        assert str[from..to] == "";
        return "";
      }
      var end := |str|;
      while IsSpace(str[end - 1])
        invariant start < end <= |str| && forall k :: end <= k < |str| ==> IsSpace(str[k])
        decreases end
      {
        end := end - 1;
      }
      TrimmedOnce(str, from, to, start, end);
      r := str[start..end];
    }

    /** Lookup; without a value, the walk, the creation and the store at the element they end in. */
    method GetOption(x: XPath, def: string) returns (out: Outcome)
      requires Valid()
      modifies this
      ensures Valid()
      ensures (root, out) == OptionCall(old(root), x, def)
    {
      var parts := x.parts;
      var i, cur := Walk(parts);
      assert i == |parts| ==> parts[..i] == parts;
      if i == |parts| {
        if x.axis.Unsupported? { return Throws; }
        var value := Read(cur, x.axis);
        if value.Some? && value.value != "" {
          var trimmed := TrimString(value.value);
          return Value(trimmed);
        }
      } else {
        Create(parts, i, x.axis, def);
        cur := Element(parts[|parts| - 1], [], []);
      }
      StoreAtCursor(root, parts, x.axis, def);
      root := ReplaceAt(root, parts, Store(cur, x.axis, def));
      if x.axis.Unsupported? || (x.axis.ElementText? && !CanSetText(cur.children)) {
        return Throws;
      }
      out := Value(def);
    }
  }
}
