/** Reading a rendered pipeline and printing the result gives the pipeline back. */
module PipelineRoundTrip {
  import opened PipelineText
  import opened PipelineCutter
  import opened Wrappers

  //
  // Runs of the machine
  //

  function Then(r: Option<Context>, s: string): Option<Context>
  {
    match r
    case None => None
    case Some(c) => Run(c, s)
  }

  lemma {:induction false} RunConcat(c: Context, a: string, b: string)
    ensures Run(c, a + b) == Then(Run(c, a), b)
    decreases |b|
  {
    if b == "" {
      assert a + b == a;
    } else {
      var n := |b| - 1;
      assert (a + b)[..|a + b| - 1] == a + b[..n];
      RunConcat(c, a, b[..n]);
    }
  }

  lemma RunChar(c: Context, x: char)
    ensures Run(c, [x]) == Step(c, x)
  {
    assert [x][..0] == "";
    assert Run(c, "") == Some(c);
  }

  lemma {:induction false} RunWord(c: Context, w: string)
    requires c.mode != Init && AllAbc(w)
    ensures Run(c, w) == Some(c.(acc := c.acc + w))
    decreases |w|
  {
    if w == "" {
      assert c.acc + w == c.acc;
    } else {
      var n := |w| - 1;
      RunWord(c, w[..n]);
      assert c.acc + w[..n] + [w[n]] == c.acc + w;
    }
  }

  /** The first character of a name leaves the initial state. */
  lemma {:induction false} RunFromInit(c: Context, s: string)
    requires c.mode == Init && s != "" && IsAbc(s[0])
    ensures Run(c, s) == Run(c.(mode := InObject), s)
    decreases |s|
  {
    var n := |s| - 1;
    if n > 0 {
      RunFromInit(c, s[..n]);
    } else {
      assert s[..n] == "";
    }
  }

  //
  // The open path through the tree
  //

  /** The tree whose open nodes have the finished entries `spine[i]` and, below them, the open child `path[i]`. */
  ghost function Plug(spine: seq<seq<Entry>>, path: seq<string>): Value
    requires |spine| == |path| + 1
    decreases |path|
  {
    if path == [] then Dict(spine[0]) else Dict(spine[0] + [Entry(path[0], Plug(spine[1..], path[1..]))])
  }

  /** The open child is none of the finished entries. */
  ghost predicate FreshPath(spine: seq<seq<Entry>>, path: seq<string>)
    requires |spine| == |path| + 1
  {
    forall i :: 0 <= i < |path| ==> path[i] !in Keys(spine[i])
  }

  ghost function Top(spine: seq<seq<Entry>>, es: seq<Entry>): seq<seq<Entry>>
    requires spine != []
  {
    spine[|spine| - 1 := es]
  }

  lemma FindLast(es: seq<Entry>, k: string, v: Value, w: Value)
    requires k !in Keys(es)
    ensures Find(es, k) == |es| && Find(es + [Entry(k, v)], k) == |es|
    ensures Assign(es, k, w) == es + [Entry(k, w)] && Assign(es + [Entry(k, v)], k, w) == es + [Entry(k, w)]
  {
    var es' := es + [Entry(k, v)];
    assert forall n :: 0 <= n < |es| ==> es[n].key in Keys(es) && es'[n] == es[n];
    assert es'[|es|].key == k;
  }

  lemma {:induction false} EnsurePlug(spine: seq<seq<Entry>>, path: seq<string>, k: string)
    requires |spine| == |path| + 1 && FreshPath(spine, path) && k !in Keys(spine[|path|])
    ensures Ensure(Plug(spine, path), path + [k]) == Some(Plug(spine + [[]], path + [k]))
    decreases |path|
  {
    var full := path + [k];
    if path == [] {
      FindLast(spine[0], k, Dict([]), Dict([]));
      assert full[1..] == [] && (spine + [[]])[1..] == [[]];
    } else {
      FindLast(spine[0], path[0], Plug(spine[1..], path[1..]), Plug(spine[1..] + [[]], path[1..] + [k]));
      assert FreshPath(spine[1..], path[1..]);
      EnsurePlug(spine[1..], path[1..], k);
      assert full[1..] == path[1..] + [k] && (spine + [[]])[1..] == spine[1..] + [[]];
    }
  }

  lemma {:induction false} SetPlug(spine: seq<seq<Entry>>, path: seq<string>, k: string, v: Value)
    requires |spine| == |path| + 1 && FreshPath(spine, path)
    ensures SetAt(Plug(spine, path), path, k, v) == Some(Plug(Top(spine, Assign(spine[|path|], k, v)), path))
    decreases |path|
  {
    if path != [] {
      var inner := Top(spine[1..], Assign(spine[|path|], k, v));
      FindLast(spine[0], path[0], Plug(spine[1..], path[1..]), Plug(inner, path[1..]));
      assert FreshPath(spine[1..], path[1..]);
      SetPlug(spine[1..], path[1..], k, v);
      assert Top(spine, Assign(spine[|path|], k, v))[1..] == inner;
    }
  }

  /** Closing a node makes it a finished entry of its parent. */
  lemma {:induction false} ClosePlug(spine: seq<seq<Entry>>, path: seq<string>, es: seq<Entry>, k: string)
    requires |spine| == |path| + 1
    ensures Plug(spine + [es], path + [k]) == Plug(Top(spine, spine[|path|] + [Entry(k, Dict(es))]), path)
    decreases |path|
  {
    if path == [] {
      assert (spine + [es])[1..] == [es] && (path + [k])[1..] == [];
    } else {
      ClosePlug(spine[1..], path[1..], es, k);
      assert (spine + [es])[1..] == spine[1..] + [es] && (path + [k])[1..] == path[1..] + [k];
      assert Top(spine, spine[|path|] + [Entry(k, Dict(es))])[1..] ==
             Top(spine[1..], spine[|path|] + [Entry(k, Dict(es))]);
    }
  }

  ghost predicate Shaped(c: Context, spine: seq<seq<Entry>>)
  {
    |spine| == |c.nested| + 1 && FreshPath(spine, c.nested) && c.tree == Plug(spine, c.nested)
  }

  //
  // Names
  //

  /** `key` was created below `path`: it is a name, possibly tagged, and the path of the name is in the history. */
  ghost predicate NamedKey(c: Context, path: seq<string>, key: string, name: string)
  {
    AllAbc(name) && Tagged(key, name, c.counter) && Join(path + [name]) in c.history
  }

  ghost predicate Named(c: Context, path: seq<string>, es: seq<Entry>)
  {
    forall i :: 0 <= i < |es| ==> HasName(c, path, es[i].key)
  }

  ghost predicate HasName(c: Context, path: seq<string>, key: string)
  {
    exists name :: NamedKey(c, path, key, name)
  }

  ghost predicate Later(c: Context, d: Context)
  {
    c.history <= d.history && c.counter <= d.counter
  }

  lemma TaggedLater(key: string, name: string, m: nat, n: nat)
    requires Tagged(key, name, m) && m <= n
    ensures Tagged(key, name, n)
  {
  }

  lemma NamedLater(c: Context, d: Context, path: seq<string>, es: seq<Entry>)
    requires Named(c, path, es) && Later(c, d)
    ensures Named(d, path, es)
  {
    forall i | 0 <= i < |es|
      ensures HasName(d, path, es[i].key)
    {
      assert HasName(c, path, es[i].key);
      var name :| NamedKey(c, path, es[i].key, name);
      TaggedLater(es[i].key, name, c.counter, d.counter);
      assert NamedKey(d, path, es[i].key, name);
    }
  }

  /** The key chosen for a new node. */
  function ChosenKey(c: Context, name: string): string
  {
    if Join(c.nested + [name]) in c.history then name + Tag(c.counter) else name
  }

  /** It is new among its siblings. */
  lemma ChosenIsNew(c: Context, name: string, es: seq<Entry>)
    requires AllAbc(name) && Named(c, c.nested, es)
    ensures ChosenKey(c, name) !in Keys(es)
  {
    forall i | 0 <= i < |es|
      ensures es[i].key != ChosenKey(c, name)
    {
      assert HasName(c, c.nested, es[i].key);
      var other :| NamedKey(c, c.nested, es[i].key, other);
      if Join(c.nested + [name]) in c.history {
        NewTag(es[i].key, name, other, c.counter);
      } else if es[i].key == name {
        TaggedCanonize(name, other, c.counter);
        CanonizePlain(name, "");
        assert name + "" == name;
      }
    }
  }

  /** A new node below the open one. */
  lemma Created(c: Context, spine: seq<seq<Entry>>, name: string) returns (d: Context)
    requires Shaped(c, spine) && AllAbc(name) && Named(c, c.nested, spine[|c.nested|])
    ensures CreateNode(c.(nested := c.nested + [name])) == Some(d)
    ensures d.nested == c.nested + [ChosenKey(c, name)] && Shaped(d, spine + [[]]) && Later(c, d)
    ensures d.mode == c.mode && d.acc == c.acc && d.option == c.option
    ensures NamedKey(d, c.nested, ChosenKey(c, name), name)
  {
    var key := ChosenKey(c, name);
    ChosenIsNew(c, name, spine[|c.nested|]);
    EnsurePlug(spine, c.nested, key);
    var full := c.nested + [name];
    assert full[|full| - 1 := key] == c.nested + [key];
    d := CreateNode(c.(nested := full)).value;
    assert Tagged(key, name, d.counter);
    var s' := spine + [[]];
    forall i | 0 <= i < |d.nested|
      ensures d.nested[i] !in Keys(s'[i])
    {
      if i < |c.nested| { assert d.nested[i] == c.nested[i] && s'[i] == spine[i]; }
    }
  }

  //
  // Settings of a pass
  //

  ghost function SettingEntries(s: seq<Setting>): seq<Entry>
  {
    seq(|s|, i requires 0 <= i < |s| => Entry(s[i].name, Text(s[i].value)))
  }

  /** What an indentation leaves in the node of the pass. */
  ghost function PadEntries(indent: nat): seq<Entry>
  {
    if indent == 0 then [] else [Entry("", Text(""))]
  }

  /** The entries while the last value is still being read. */
  ghost function OpenEntries(pad: seq<Entry>, s: seq<Setting>): seq<Entry>
    requires s != []
  {
    pad + SettingEntries(s[..|s| - 1]) + [Entry(s[|s| - 1].name, Text(""))]
  }

  /** Storing the last value completes the entries. */
  lemma StoreLast(indent: nat, s: seq<Setting>)
    requires s != [] && GoodSettings(s)
    ensures Assign(OpenEntries(PadEntries(indent), s), s[|s| - 1].name, Text(s[|s| - 1].value)) ==
            PadEntries(indent) + SettingEntries(s)
    ensures s[|s| - 1].name !in Keys(PadEntries(indent) + SettingEntries(s[..|s| - 1]))
  {
    var n, pad := |s| - 1, PadEntries(indent);
    var front := pad + SettingEntries(s[..n]);
    forall i | 0 <= i < |front|
      ensures front[i].key != s[n].name
    {
      if i >= |pad| { assert s[i - |pad|].name != s[n].name; }
    }
    FindLast(front, s[n].name, Text(""), Text(s[n].value));
    assert front + [Entry(s[n].name, Text(s[n].value))] == pad + SettingEntries(s);
  }

  /** `name=value` up to its end. */
  lemma ReadSetting(c: Context, spine: seq<seq<Entry>>, es: seq<Entry>, name: string, value: string)
    returns (d: Context)
    requires c.mode == InPass && c.acc == "" && Shaped(c, spine) && spine[|c.nested|] == es
    requires AllAbc(name) && AllAbc(value) && name !in Keys(es)
    ensures Run(c, name + "=" + value) == Some(d)
    ensures d == c.(tree := Plug(Top(spine, es + [Entry(name, Text(""))]), c.nested), option := name, acc := value)
  {
    RunWord(c, name);
    var c1 := c.(acc := "" + name);
    assert "" + name == name;
    RunConcat(c, name, "=");
    RunChar(c1, '=');
    SetPlug(spine, c.nested, name, Text(""));
    FindLast(es, name, Text(""), Text(""));
    var c2 := c1.(tree := Plug(Top(spine, es + [Entry(name, Text(""))]), c.nested), option := name, acc := "");
    assert Run(c, name + "=") == Some(c2);
    RunConcat(c, name + "=", value);
    RunWord(c2, value);
    d := c2.(acc := "" + value);
    assert "" + value == value;
  }

  lemma PadAgain(c: Context, spine: seq<seq<Entry>>, indent: nat)
    requires c.mode == InPass && c.acc == "" && c.option == "" && Shaped(c, spine)
    ensures OnOptionValue(PaddedContext(c, spine, indent)) == Some(PaddedContext(c, spine, indent + 1))
  {
    var top := Top(spine, PadEntries(indent));
    assert FreshPath(top, c.nested);
    SetPlug(top, c.nested, "", Text(""));
    assert Assign(PadEntries(indent), "", Text("")) == PadEntries(indent + 1);
    TopTwice(spine, PadEntries(indent), PadEntries(indent + 1));
  }

  lemma TopTwice(spine: seq<seq<Entry>>, es: seq<Entry>, fs: seq<Entry>)
    requires spine != []
    ensures Top(Top(spine, es), fs) == Top(spine, fs)
  {
  }

  /** Spaces in front of the settings store an empty value under the empty name. */
  lemma {:induction false} ReadIndent(c: Context, spine: seq<seq<Entry>>, indent: nat)
    requires c.mode == InPass && c.acc == "" && c.option == "" && Shaped(c, spine) && spine[|c.nested|] == []
    ensures Run(c, Spaces(indent)) == Some(PaddedContext(c, spine, indent))
  {
    if indent == 0 {
      assert Top(spine, []) == spine;
    } else {
      ReadIndent(c, spine, indent - 1);
      RunConcat(c, Spaces(indent - 1), " ");
      RunChar(PaddedContext(c, spine, indent - 1), ' ');
      PadAgain(c, spine, indent - 1);
    }
  }

  /** The context behind an indentation. */
  ghost function PaddedContext(c: Context, spine: seq<seq<Entry>>, indent: nat): Context
    requires |spine| == |c.nested| + 1
  {
    c.(tree := Plug(Top(spine, PadEntries(indent)), c.nested))
  }

  /** The context after reading `s` up to its end, and after storing the last value. */
  ghost function OpenContext(c: Context, spine: seq<seq<Entry>>, indent: nat, s: seq<Setting>): Context
    requires s != [] && |spine| == |c.nested| + 1
  {
    c.(tree := Plug(Top(spine, OpenEntries(PadEntries(indent), s)), c.nested), option := s[|s| - 1].name,
       acc := s[|s| - 1].value)
  }

  ghost function StoredContext(c: Context, spine: seq<seq<Entry>>, indent: nat, s: seq<Setting>): Context
    requires |spine| == |c.nested| + 1
  {
    c.(tree := Plug(Top(spine, PadEntries(indent) + SettingEntries(s)), c.nested), option := "", acc := "")
  }

  lemma StoreValue(c: Context, spine: seq<seq<Entry>>, indent: nat, s: seq<Setting>)
    requires |spine| == |c.nested| + 1 && FreshPath(spine, c.nested) && s != [] && GoodSettings(s)
    ensures OnOptionValue(OpenContext(c, spine, indent, s)) == Some(StoredContext(c, spine, indent, s))
  {
    var top, all := Top(spine, OpenEntries(PadEntries(indent), s)), PadEntries(indent) + SettingEntries(s);
    assert FreshPath(top, c.nested);
    SetPlug(top, c.nested, s[|s| - 1].name, Text(s[|s| - 1].value));
    StoreLast(indent, s);
    TopTwice(spine, OpenEntries(PadEntries(indent), s), all);
  }

  lemma {:induction false} ReadSettings(c: Context, spine: seq<seq<Entry>>, indent: nat, s: seq<Setting>)
    requires c.mode == InPass && c.acc == "" && Shaped(c, spine) && spine[|c.nested|] == PadEntries(indent) && s != []
    requires GoodSettings(s)
    ensures Run(c, RenderSettings(s)) == Some(OpenContext(c, spine, indent, s))
    decreases |s|
  {
    var n, pad := |s| - 1, PadEntries(indent);
    if n == 0 {
      StoreLast(indent, s);
      assert SettingEntries(s[..0]) == [] && pad + [] == pad;
      var d := ReadSetting(c, spine, pad, s[n].name, s[n].value);
    } else {
      ReadSettings(c, spine, indent, s[..n]);
      StoreValue(c, spine, indent, s[..n]);
      RunConcat(c, RenderSettings(s[..n]), " ");
      RunChar(OpenContext(c, spine, indent, s[..n]), ' ');
      ReadNext(c, spine, indent, s);
    }
  }

  lemma ReadNext(c: Context, spine: seq<seq<Entry>>, indent: nat, s: seq<Setting>)
    requires c.mode == InPass && Shaped(c, spine) && |s| > 1 && GoodSettings(s)
    requires Run(c, RenderSettings(s[..|s| - 1]) + " ") == Some(StoredContext(c, spine, indent, s[..|s| - 1]))
    ensures Run(c, RenderSettings(s)) == Some(OpenContext(c, spine, indent, s))
  {
    var front, last, pad := s[..|s| - 1], s[|s| - 1], PadEntries(indent);
    var text, more := RenderSettings(front) + " ", last.name + "=" + last.value;
    var stored, spine1 := StoredContext(c, spine, indent, front), Top(spine, pad + SettingEntries(front));
    assert FreshPath(spine1, c.nested);
    StoreLast(indent, s);
    var d := ReadSetting(stored, spine1, pad + SettingEntries(front), last.name, last.value);
    RunConcat(c, text, more);
    LastSetting(s);
    TopTwice(spine, pad + SettingEntries(front), OpenEntries(pad, s));
  }

  lemma LastSetting(s: seq<Setting>)
    requires |s| > 1
    ensures RenderSettings(s) == RenderSettings(s[..|s| - 1]) + " " + (s[|s| - 1].name + "=" + s[|s| - 1].value)
  {
  }

  /** Everything between the brackets; the closing one stores the last value. */
  lemma ReadInside(c: Context, spine: seq<seq<Entry>>, indent: nat, s: seq<Setting>) returns (d: Context)
    requires c.mode == InPass && c.acc == "" && c.option == "" && Shaped(c, spine) && spine[|c.nested|] == []
    requires GoodSettings(s) && (indent > 0 || s != [])
    ensures Run(c, Spaces(indent) + RenderSettings(s)) == Some(d) && d.mode == InPass
    ensures OnOptionValue(d) == Some(StoredContext(c, spine, indent, s))
  {
    var c1, spine1, pad := PaddedContext(c, spine, indent), Top(spine, PadEntries(indent)), PadEntries(indent);
    ReadIndent(c, spine, indent);
    RunConcat(c, Spaces(indent), RenderSettings(s));
    if s == [] {
      d := c1;
      PadAgain(c, spine, indent);
      assert pad + SettingEntries(s) == pad;
      assert Run(c1, "") == Some(c1);
    } else {
      assert FreshPath(spine1, c.nested);
      ReadSettings(c1, spine1, indent, s);
      StoreValue(c1, spine1, indent, s);
      d := OpenContext(c1, spine1, indent, s);
      TopTwice(spine, pad, pad + SettingEntries(s));
    }
  }

  //
  // Items
  //

  /** The entry made for an item, with tags below `n`. */
  ghost predicate Represents(e: Entry, item: Item, n: nat)
    decreases item, 0
  {
    && Tagged(e.key, item.name, n)
    && match item
       case Group(_, items) => e.value.Dict? && RepresentAll(e.value.entries, items, n)
       case Pass(_, indent, settings) => e.value == Dict(PadEntries(indent) + SettingEntries(settings))
  }

  ghost predicate RepresentAll(es: seq<Entry>, items: seq<Item>, n: nat)
    decreases items, 1
  {
    |es| == |items| && forall i :: 0 <= i < |items| ==> Represents(es[i], items[i], n)
  }

  lemma {:induction false} RepresentsLater(e: Entry, item: Item, m: nat, n: nat)
    requires Represents(e, item, m) && m <= n
    ensures Represents(e, item, n)
    decreases item, 0
  {
    TaggedLater(e.key, item.name, m, n);
    if item.Group? { RepresentAllLater(e.value.entries, item.items, m, n); }
  }

  lemma {:induction false} RepresentAllLater(es: seq<Entry>, items: seq<Item>, m: nat, n: nat)
    requires RepresentAll(es, items, m) && m <= n
    ensures RepresentAll(es, items, n)
    decreases items, 1
  {
    forall i | 0 <= i < |items|
      ensures Represents(es[i], items[i], n)
    {
      RepresentsLater(es[i], items[i], m, n);
    }
  }

  /** From `c` to `d` the open node gained the entries `es`. */
  ghost predicate After(c: Context, spine: seq<seq<Entry>>, d: Context, es: seq<Entry>)
    requires |spine| == |c.nested| + 1
  {
    var top := spine[|c.nested|] + es;
    && d.mode == InObject && d.option == "" && d.nested == c.nested
    && Shaped(d, Top(spine, top)) && Named(d, d.nested, top) && Later(c, d)
  }

  lemma AfterTrans(c: Context, spine: seq<seq<Entry>>, d: Context, es: seq<Entry>, e: Context, fs: seq<Entry>)
    requires |spine| == |c.nested| + 1 && After(c, spine, d, es) && After(d, Top(spine, spine[|c.nested|] + es), e, fs)
    ensures After(c, spine, e, es + fs)
  {
    var top := spine[|c.nested|];
    assert top + es + fs == top + (es + fs);
    assert Top(Top(spine, top + es), top + es + fs) == Top(spine, top + (es + fs));
  }

  /** A name and the bracket behind it open a node. */
  lemma Enter(c: Context, spine: seq<seq<Entry>>, name: string, x: char) returns (d: Context)
    requires c.mode == InObject && c.acc == "" && Shaped(c, spine) && Named(c, c.nested, spine[|c.nested|])
    requires AllAbc(name) && (x == '(' || x == '{')
    ensures Run(c, name + [x]) == Some(d)
    ensures d.mode == (if x == '(' then InObject else InPass) && d.acc == "" && d.option == c.option
    ensures d.nested == c.nested + [ChosenKey(c, name)] && Shaped(d, spine + [[]]) && Later(c, d)
    ensures NamedKey(d, c.nested, ChosenKey(c, name), name)
  {
    RunWord(c, name);
    assert "" + name == name;
    var c1 := c.(acc := name);
    RunConcat(c, name, [x]);
    RunChar(c1, x);
    NamedLater(c, c1, c.nested, spine[|c.nested|]);
    var d1 := Created(c1, spine, name);
    d := d1.(acc := "", mode := if x == '(' then InObject else InPass);
  }

  /** Leaving the node makes it an entry of the one around it. */
  lemma Leave(c: Context, spine: seq<seq<Entry>>, d: Context, es: seq<Entry>, key: string, name: string)
    requires Shaped(c, spine) && Named(c, c.nested, spine[|c.nested|]) && Later(c, d)
    requires d.nested == c.nested + [key] && Shaped(d, spine + [es]) && NamedKey(d, c.nested, key, name)
    requires d.option == ""
    ensures After(c, spine, d.(nested := c.nested, acc := "", mode := InObject), [Entry(key, Dict(es))])
  {
    var e, top := d.(nested := c.nested, acc := "", mode := InObject), spine[|c.nested|];
    ClosePlug(spine, c.nested, es, key);
    NamedLater(c, e, c.nested, top);
    assert NamedKey(e, c.nested, key, name);
    assert HasName(e, c.nested, key);
    assert FreshPath(Top(spine, top + [Entry(key, Dict(es))]), c.nested);
  }

  /** The pass whose name was read last is finished by what follows. */
  lemma Settle(c: Context, spine: seq<seq<Entry>>) returns (d: Context, es: seq<Entry>)
    requires c.mode == InObject && c.option == "" && Shaped(c, spine) && Named(c, c.nested, spine[|c.nested|])
    requires AllAbc(c.acc)
    ensures OnFinalizeEntity(c) == Some(d) && d.acc == "" && After(c, spine, d, es)
    ensures if c.acc == "" then es == [] else |es| == 1 && Represents(es[0], Pass(c.acc, 0, []), d.counter)
  {
    if c.acc == "" {
      d, es := c, [];
      AfterNothing(c, spine, "");
    } else {
      var key := ChosenKey(c, c.acc);
      var d1 := Created(c, spine, c.acc);
      Leave(c, spine, d1, [], key, c.acc);
      d, es := d1.(acc := "", nested := c.nested), [Entry(key, Dict([]))];
      assert PadEntries(0) + SettingEntries([]) == [];
    }
  }

  /** What is known after reading an item up to its last character. */
  ghost predicate ReadUpTo(c: Context, spine: seq<seq<Entry>>, d: Context, es: seq<Entry>, items: seq<Item>)
    requires |spine| == |c.nested| + 1 && items != []
  {
    var last := items[|items| - 1];
    After(c, spine, d, es) && d.acc == (if IsBare(last) then last.name else "") &&
    RepresentAll(es, Complete(items), d.counter)
  }

  lemma ReadPass(c: Context, spine: seq<seq<Entry>>, item: Item) returns (d: Context, es: seq<Entry>)
    requires c.mode == InObject && c.acc == "" && c.option == ""
    requires Shaped(c, spine) && Named(c, c.nested, spine[|c.nested|])
    requires GoodItem(item) && item.Pass? && !IsBare(item)
    ensures Run(c, RenderItem(item)) == Some(d) && ReadUpTo(c, spine, d, es, [item])
  {
    var name, n, s, key := item.name, item.indent, item.settings, ChosenKey(c, item.name);
    var c1 := Enter(c, spine, name, '{');
    var inner, all := spine + [[]], PadEntries(n) + SettingEntries(s);
    var c2 := ReadInside(c1, inner, n, s);
    var c3 := StoredContext(c1, inner, n, s);
    RunPass(c, item, c1, c2);
    assert Top(inner, all) == spine + [all];
    assert c3.nested[..|c3.nested| - 1] == c.nested;
    assert Shaped(c3, spine + [all]) by {
      assert FreshPath(spine + [all], c3.nested) by { assert FreshPath(inner, c3.nested); }
    }
    Leave(c, spine, c3, all, key, name);
    d, es := c3.(nested := c.nested, acc := "", mode := InObject), [Entry(key, Dict(all))];
  }

  lemma RunPass(c: Context, item: Item, c1: Context, c2: Context)
    requires item.Pass? && !IsBare(item) && Run(c, item.name + "{") == Some(c1)
    requires Run(c1, Spaces(item.indent) + RenderSettings(item.settings)) == Some(c2)
    ensures Run(c, RenderItem(item)) == Step(c2, '}')
  {
    var open, text := item.name + "{", Spaces(item.indent) + RenderSettings(item.settings);
    RunConcat(c, open, text);
    RunConcat(c, open + text, "}");
    RunChar(c2, '}');
    Assoc(open, Spaces(item.indent), RenderSettings(item.settings));
  }

  lemma ReadBare(c: Context, spine: seq<seq<Entry>>, item: Item) returns (d: Context, es: seq<Entry>)
    requires c.mode == InObject && c.acc == "" && c.option == ""
    requires Shaped(c, spine) && Named(c, c.nested, spine[|c.nested|])
    requires GoodItem(item) && IsBare(item)
    ensures Run(c, RenderItem(item)) == Some(d) && ReadUpTo(c, spine, d, es, [item])
  {
    RunName(c, item);
    d, es := c.(acc := item.name), [];
    AfterNothing(c, spine, item.name);
    assert Complete([item]) == [];
  }

  lemma RunName(c: Context, item: Item)
    requires c.mode == InObject && c.acc == "" && AllAbc(item.name) && IsBare(item)
    ensures Run(c, RenderItem(item)) == Some(c.(acc := item.name))
  {
    RunWord(c, item.name);
    assert "" + item.name == item.name;
  }

  lemma AfterNothing(c: Context, spine: seq<seq<Entry>>, acc: string)
    requires c.mode == InObject && c.option == "" && Shaped(c, spine) && Named(c, c.nested, spine[|c.nested|])
    ensures After(c, spine, c.(acc := acc), [])
  {
    var top := spine[|c.nested|];
    assert top + [] == top && Top(spine, top) == spine;
    NamedLater(c, c.(acc := acc), c.nested, top);
  }

  /** After a list of items, a comma or a closing bracket finishes the last one. */
  lemma SettleItems(c: Context, spine: seq<seq<Entry>>, d: Context, es: seq<Entry>, items: seq<Item>)
    returns (e: Context, fs: seq<Entry>)
    requires |spine| == |c.nested| + 1 && items != [] && GoodItems(items) && ReadUpTo(c, spine, d, es, items)
    ensures OnFinalizeEntity(d) == Some(e) && e.acc == "" && After(c, spine, e, fs)
    ensures RepresentAll(fs, items, e.counter)
  {
    var n := |items| - 1;
    var spine1 := Top(spine, spine[|c.nested|] + es);
    assert GoodItem(items[n]);
    var gs;
    e, gs := Settle(d, spine1);
    fs := es + gs;
    AfterTrans(c, spine, d, es, e, gs);
    RepresentAllLater(es, Complete(items), d.counter, e.counter);
    if IsBare(items[n]) {
      assert items[n] == Pass(items[n].name, 0, []);
      assert items == Complete(items) + [items[n]];
    }
  }

  lemma {:induction false} ReadItem(c: Context, spine: seq<seq<Entry>>, item: Item) returns (d: Context, es: seq<Entry>)
    requires c.mode == InObject && c.acc == "" && c.option == ""
    requires Shaped(c, spine) && Named(c, c.nested, spine[|c.nested|])
    requires GoodItem(item)
    ensures Run(c, RenderItem(item)) == Some(d) && ReadUpTo(c, spine, d, es, [item])
    decreases item, 0
  {
    if IsBare(item) {
      d, es := ReadBare(c, spine, item);
    } else if item.Pass? {
      d, es := ReadPass(c, spine, item);
    } else {
      var c1 := Enter(c, spine, item.name, '(');
      var inner := spine + [[]];
      assert inner[|c1.nested|] == [];
      var c2, es2 := ReadItems(c1, inner, item.items);
      d, es := CloseGroup(c, spine, item, c1, c2, es2);
    }
  }

  lemma CloseGroup(c: Context, spine: seq<seq<Entry>>, item: Item, c1: Context, c2: Context, es2: seq<Entry>)
    returns (d: Context, es: seq<Entry>)
    requires Shaped(c, spine) && Named(c, c.nested, spine[|c.nested|]) && item.Group? && GoodItem(item)
    requires Run(c, item.name + "(") == Some(c1) && Later(c, c1)
    requires c1.option == "" && c1.nested == c.nested + [ChosenKey(c, item.name)]
    requires NamedKey(c1, c.nested, ChosenKey(c, item.name), item.name)
    requires Run(c1, Render(item.items)) == Some(c2) && ReadUpTo(c1, spine + [[]], c2, es2, item.items)
    ensures Run(c, RenderItem(item)) == Some(d) && ReadUpTo(c, spine, d, es, [item])
  {
    var key, inner := ChosenKey(c, item.name), spine + [[]];
    var c3, es3 := SettleItems(c1, inner, c2, es2, item.items);
    var open := item.name + "(";
    RunConcat(c, open, Render(item.items));
    RunConcat(c, open + Render(item.items), ")");
    RunChar(c2, ')');
    assert [] + es3 == es3 && Top(inner, es3) == spine + [es3];
    assert c3.nested[..|c3.nested| - 1] == c.nested;
    TaggedLater(key, item.name, c1.counter, c3.counter);
    Leave(c, spine, c3, es3, key, item.name);
    d, es := c3.(nested := c.nested, acc := "", mode := InObject), [Entry(key, Dict(es3))];
    assert open + Render(item.items) + ")" == RenderItem(item);
  }

  lemma {:induction false} ReadItems(c: Context, spine: seq<seq<Entry>>, items: seq<Item>)
    returns (d: Context, es: seq<Entry>)
    requires c.mode == InObject && c.acc == "" && c.option == ""
    requires Shaped(c, spine) && Named(c, c.nested, spine[|c.nested|])
    requires items != [] && GoodItems(items)
    ensures Run(c, Render(items)) == Some(d) && ReadUpTo(c, spine, d, es, items)
    decreases items, 1
  {
    var n := |items| - 1;
    if n == 0 {
      d, es := ReadItem(c, spine, items[0]);
      assert items == [items[0]];
    } else {
      var front := items[..n];
      assert GoodItems(front);
      var c1, es1 := ReadItems(c, spine, front);
      var c2, es2 := SettleItems(c, spine, c1, es1, front);
      var es3;
      d, es3 := ReadItem(c2, Top(spine, spine[|c.nested|] + es2), items[n]);
      JoinRuns(c, items, c1, c2);
      JoinEntries(c, spine, items, c2, es2, d, es3);
      es := es2 + es3;
    }
  }

  lemma JoinRuns(c: Context, items: seq<Item>, c1: Context, c2: Context)
    requires |items| > 1 && Run(c, Render(items[..|items| - 1])) == Some(c1) && c1.mode == InObject
    requires OnFinalizeEntity(c1) == Some(c2)
    ensures Run(c, Render(items)) == Run(c2, RenderItem(items[|items| - 1]))
  {
    var n := |items| - 1;
    var front, last := Render(items[..n]), RenderItem(items[n]);
    RunConcat(c, front, ",");
    RunChar(c1, ',');
    RunConcat(c, front + ",", last);
    assert Render(items) == front + "," + last;
  }

  lemma JoinEntries(c: Context, spine: seq<seq<Entry>>, items: seq<Item>, c2: Context, es2: seq<Entry>, d: Context,
                    es3: seq<Entry>)
    requires |spine| == |c.nested| + 1 && |items| > 1
    requires After(c, spine, c2, es2) && RepresentAll(es2, items[..|items| - 1], c2.counter)
    requires ReadUpTo(c2, Top(spine, spine[|c.nested|] + es2), d, es3, [items[|items| - 1]])
    ensures ReadUpTo(c, spine, d, es2 + es3, items)
  {
    var n := |items| - 1;
    AfterTrans(c, spine, c2, es2, d, es3);
    RepresentAllLater(es2, items[..n], c2.counter, d.counter);
    RepresentConcat(es2, items[..n], es3, Complete([items[n]]), d.counter);
    assert Complete(items) == items[..n] + Complete([items[n]]);
  }

  lemma RepresentConcat(es: seq<Entry>, items: seq<Item>, fs: seq<Entry>, more: seq<Item>, n: nat)
    requires RepresentAll(es, items, n) && RepresentAll(fs, more, n)
    ensures RepresentAll(es + fs, items + more, n)
  {
    var gs, all := es + fs, items + more;
    forall i | 0 <= i < |all|
      ensures Represents(gs[i], all[i], n)
    {
      if i >= |items| { assert gs[i] == fs[i - |items|] && all[i] == more[i - |items|]; }
    }
  }

  //
  // Printing
  //

  /** What an indentation is printed as. */
  ghost function PrintedPad(indent: nat): string
  {
    if indent == 0 then "" else "  "
  }

  /** Printed settings end in a space. */
  ghost function Spaced(s: seq<Setting>): string
  {
    if s == [] then "" else RenderSettings(s) + " "
  }

  lemma SpacedStep(s: seq<Setting>)
    requires s != []
    ensures var n := |s| - 1; Spaced(s) == Spaced(s[..n]) + (s[n].name + "=" + s[n].value + " ")
  {
    var n := |s| - 1;
    var last := s[n].name + "=" + s[n].value;
    if n == 0 {
      assert "" + (last + " ") == last + " ";
    } else {
      LastSetting(s);
      Assoc(RenderSettings(s[..n]) + " ", last, " ");
    }
  }

  lemma Assoc(a: string, b: string, c: string)
    ensures a + b + c == a + (b + c)
  {
  }

  lemma PrintLast(es: seq<Entry>, s: Setting)
    requires es != [] && es[|es| - 1] == Entry(s.name, Text(s.value)) && s.name != ""
    ensures PrintSettings(es) == PrintSettings(es[..|es| - 1]) + (s.name + "=" + s.value + " ")
  {
  }

  lemma {:induction false} PrintedSettings(indent: nat, s: seq<Setting>)
    requires GoodSettings(s)
    ensures PrintSettings(PadEntries(indent) + SettingEntries(s)) == PrintedPad(indent) + Spaced(s)
    decreases |s|
  {
    var n, pad := |s| - 1, PadEntries(indent);
    var es := pad + SettingEntries(s);
    if s == [] {
      assert es == pad && (indent > 0 ==> pad[..0] == []);
    } else {
      assert es[..|es| - 1] == pad + SettingEntries(s[..n]);
      PrintedSettings(indent, s[..n]);
      assert es[|es| - 1] == Entry(s[n].name, Text(s[n].value));
      PrintLast(es, s[n]);
      SpacedStep(s);
      Assoc(PrintedPad(indent), Spaced(s[..n]), s[n].name + "=" + s[n].value + " ");
    }
  }

  /** The last character is dropped. */
  lemma PrintedInside(indent: nat, s: seq<Setting>)
    requires GoodSettings(s) && (indent > 0 || s != [])
    ensures var t := PrintSettings(PadEntries(indent) + SettingEntries(s));
            t != "" && t[..|t| - 1] == Spaces(NormalIndent(indent, s)) + RenderSettings(s)
  {
    PrintedSettings(indent, s);
    PadText(indent, s);
    Assoc(PrintedPad(indent), RenderSettings(s), " ");
    DropLast(PrintedPad(indent) + RenderSettings(s), ' ');
    DropLast(" ", ' ');
  }

  lemma PadText(indent: nat, s: seq<Setting>)
    ensures s == [] && indent > 0 ==> PrintedPad(indent) + Spaced(s) == " " + [' '] &&
                                      Spaces(NormalIndent(indent, s)) + RenderSettings(s) == " "
    ensures s != [] ==> Spaces(NormalIndent(indent, s)) == PrintedPad(indent)
  {
    assert Spaces(0) == "" && Spaces(1) == " " && Spaces(2) == "  ";
  }

  lemma DropLast(s: string, x: char)
    ensures (s + [x])[..|s + [x]| - 1] == s
  {
  }

  lemma NormalPass(item: Item)
    requires item.Pass? && !IsBare(item)
    ensures RenderItem(Normal(item)) ==
            item.name + "{" + (Spaces(NormalIndent(item.indent, item.settings)) + RenderSettings(item.settings)) + "}"
  {
    var pad := Spaces(NormalIndent(item.indent, item.settings));
    Assoc(item.name + "{", pad, RenderSettings(item.settings));
  }

  lemma PrintedPass(e: Entry, item: Item, n: nat)
    requires Represents(e, item, n) && GoodItem(item) && item.Pass?
    ensures PrintEntry(e) == RenderItem(Normal(item))
  {
    TaggedCanonize(e.key, item.name, n);
    TaggedIsObject(e.key, item.name, n);
    if !IsBare(item) {
      PrintedInside(item.indent, item.settings);
      assert e.value.entries != [];
      NormalPass(item);
    }
  }

  lemma {:induction false} PrintedItem(e: Entry, item: Item, n: nat)
    requires Represents(e, item, n) && GoodItem(item)
    ensures PrintEntry(e) == RenderItem(Normal(item))
    decreases item, 0
  {
    match item {
      case Group(name, items) =>
        TaggedCanonize(e.key, item.name, n);
        TaggedIsObject(e.key, item.name, n);
        PrintedItems(e.value.entries, items, n);
      case Pass(_, _, _) =>
        PrintedPass(e, item, n);
    }
  }

  lemma JoinPrinted(es: seq<Entry>, items: seq<Item>)
    requires |es| == |items| > 1
    ensures var k := |items| - 1;
            Print(es) == Print(es[..k]) + "," + PrintEntry(es[k]) &&
            Render(NormalAll(items)) == Render(NormalAll(items[..k])) + "," + RenderItem(Normal(items[k]))
  {
    var k := |items| - 1;
    assert NormalAll(items)[..k] == NormalAll(items[..k]);
  }

  /** Printing inverts reading, but for the width of indentations. */
  lemma {:induction false} PrintedItems(es: seq<Entry>, items: seq<Item>, n: nat)
    requires RepresentAll(es, items, n) && GoodItems(items)
    ensures Print(es) == Render(NormalAll(items))
    decreases items, 1
  {
    if items != [] {
      var k := |items| - 1;
      PrintedItem(es[k], items[k], n);
      if k > 0 {
        assert RepresentAll(es[..k], items[..k], n) && GoodItems(items[..k]);
        PrintedItems(es[..k], items[..k], n);
        JoinPrinted(es, items);
      }
    }
  }

  lemma {:induction false} RenderStarts(items: seq<Item>)
    requires items != [] && GoodItems(items)
    ensures Render(items) != "" && IsAbc(Render(items)[0])
    decreases |items|
  {
    if |items| > 1 {
      RenderStarts(items[..|items| - 1]);
    } else {
      assert GoodItem(items[0]);
    }
  }

  //
  // Round trip
  //

  /** Reading and printing a pipeline gives its complete items back, whatever is repeated in it. Indentations
      get the width that MLIR prints. */
  lemma ReadThenPrint(items: seq<Item>)
    requires items != [] && GoodItems(items)
    ensures var r := Run(Start(), Render(items));
            r.Some? && r.value.tree.Dict? && Print(r.value.tree.entries) == Render(NormalAll(Complete(items)))
  {
    var c, spine: seq<seq<Entry>> := Start().(mode := InObject), [[]];
    RenderStarts(items);
    RunFromInit(Start(), Render(items));
    var d, es := ReadItems(c, spine, items);
    assert [] + es == es && Top(spine, es) == [es];
    PrintedItems(es, Complete(items), d.counter);
  }

  /** The text survives exactly if the pipeline does not end in a pass without settings at the outermost level and
      every indentation has the width that is printed. */
  lemma RoundTrip(items: seq<Item>)
    requires items != [] && GoodItems(items)
    ensures var r := Run(Start(), Render(items));
            r.Some? && r.value.tree.Dict? && (Print(r.value.tree.entries) == Render(items) <==>
              !IsBare(items[|items| - 1]) && AllNormal(items))
  {
    ReadThenPrint(items);
    var n := |items| - 1;
    if IsBare(items[n]) {
      LastIsLost(items);
    } else if AllNormal(items) {
      AllNormalSame(items);
    } else if Render(NormalAll(items)) == Render(items) {
      assert "" + Render(items) == "" + Render(NormalAll(items));
      SameTextAllNormal("", "", items);
    }
  }

  /** A last pass without settings leaves the text with its comma. */
  lemma LastIsLost(items: seq<Item>)
    requires items != [] && GoodItems(items) && IsBare(items[|items| - 1])
    ensures Render(NormalAll(Complete(items))) != Render(items)
  {
    var n := |items| - 1;
    if n == 0 {
      RenderStarts(items);
    } else {
      AllNormalCommas(items[..n]);
      JoinCommas(Render(items[..n]), RenderItem(items[n]));
    }
  }
}
