/** The state machine that reads a textual pipeline into nested ordered dictionaries, and the printer for them. */
module PipelineCutter {
  import opened PipelineText
  import opened Wrappers

  //
  // Ordered dictionaries
  //

  datatype Value = Dict(entries: seq<Entry>) | Text(text: string)

  datatype Entry = Entry(key: string, value: Value)

  function Keys(es: seq<Entry>): set<string>
  {
    set i | 0 <= i < |es| :: es[i].key
  }

  /** Position of the first entry with key `k`; the length if there is none. */
  function Find(es: seq<Entry>, k: string): (i: nat)
    ensures i <= |es|
    ensures i < |es| ==> es[i].key == k
    ensures forall j :: 0 <= j < i ==> es[j].key != k
  {
    if es == [] || es[0].key == k then 0 else 1 + Find(es[1..], k)
  }

  function Assign(es: seq<Entry>, k: string, v: Value): seq<Entry>
  {
    var i := Find(es, k);
    if i < |es| then es[i := Entry(k, v)] else es + [Entry(k, v)]
  }

  /** `get_if_exist`: the nodes along `path` exist afterwards. A text in the way is an error of the program. */
  function Ensure(d: Value, path: seq<string>): Option<Value>
    decreases |path|
  {
    if path == [] then Some(d)
    else if d.Text? then None
    else
      var i := Find(d.entries, path[0]);
      match Ensure(if i < |d.entries| then d.entries[i].value else Dict([]), path[1..])
      case None => None
      case Some(v) => Some(Dict(Assign(d.entries, path[0], v)))
  }

  /** Sets `k` in the node at `path`, which is created if need be. */
  function SetAt(d: Value, path: seq<string>, k: string, v: Value): Option<Value>
    decreases |path|
  {
    if d.Text? then None
    else if path == [] then Some(Dict(Assign(d.entries, k, v)))
    else
      var i := Find(d.entries, path[0]);
      match SetAt(if i < |d.entries| then d.entries[i].value else Dict([]), path[1..], k, v)
      case None => None
      case Some(w) => Some(Dict(Assign(d.entries, path[0], w)))
  }

  //
  // The state machine
  //

  datatype Mode = Init | InObject | InPass

  /** `history` holds the joined paths of all nodes ever created; `counter` numbers the names made unique. */
  datatype Context = Context(mode: Mode, acc: string, nested: seq<string>, history: set<string>,
                             option: string, counter: nat, tree: Value)

  function Start(): Context
  {
    Context(Init, "", [], {}, "", 0, Dict([]))
  }

  function Join(path: seq<string>): string
  {
    if path == [] then "" else if |path| == 1 then path[0] else Join(path[..|path| - 1]) + "/" + path[|path| - 1]
  }

  /** `create_pipeline_node_from_tree_path` */
  function CreateNode(c: Context): Option<Context>
    requires c.nested != []
  {
    var key, n := Join(c.nested), |c.nested| - 1;
    var seen := key in c.history;
    var nested := if seen then c.nested[n := c.nested[n] + Tag(c.counter)] else c.nested;
    match Ensure(c.tree, nested)
    case None => None
    case Some(t) =>
      Some(c.(nested := nested, history := c.history + {key}, tree := t,
              counter := if seen then c.counter + 1 else c.counter))
  }

  function OnCreate(c: Context, mode: Mode): Option<Context>
  {
    match CreateNode(c.(nested := c.nested + [c.acc]))
    case None => None
    case Some(d) => Some(d.(acc := "", mode := mode))
  }

  function OnFinalizeEntity(c: Context): Option<Context>
  {
    if c.acc == "" then Some(c)
    else match CreateNode(c.(nested := c.nested + [c.acc]))
         case None => None
         case Some(d) => Some(d.(acc := "", nested := c.nested))
  }

  function OnFinalizeObject(c: Context): Option<Context>
  {
    match OnFinalizeEntity(c)
    case None => None
    case Some(d) => if d.nested == [] then None else Some(d.(nested := d.nested[..|d.nested| - 1], acc := ""))
  }

  function OnOptionName(c: Context): Option<Context>
  {
    match SetAt(c.tree, c.nested, c.acc, Text(""))
    case None => None
    case Some(t) => Some(c.(tree := t, option := c.acc, acc := ""))
  }

  function OnOptionValue(c: Context): Option<Context>
  {
    match SetAt(c.tree, c.nested, c.option, Text(c.acc))
    case None => None
    case Some(t) => Some(c.(tree := t, option := "", acc := ""))
  }

  function OnFinalizePass(c: Context): Option<Context>
  {
    match OnOptionValue(c)
    case None => None
    case Some(d) => if d.nested == [] then None
                    else Some(d.(nested := d.nested[..|d.nested| - 1], acc := "", mode := InObject))
  }

  /** The transition table. `None` is an unexpected or forbidden symbol, or an error inside a transition. */
  function Step(c: Context, x: char): Option<Context>
  {
    match c.mode
    case Init =>
      if x == '(' then OnCreate(c, InObject)
      else if IsAbc(x) then Some(c.(acc := c.acc + [x], mode := InObject))
      else None
    case InObject =>
      if x == '(' then OnCreate(c, InObject)
      else if x == ')' then OnFinalizeObject(c)
      else if x == '{' then OnCreate(c, InPass)
      else if x == ',' then OnFinalizeEntity(c)
      else if IsAbc(x) then Some(c.(acc := c.acc + [x]))
      else None
    case InPass =>
      if x == '}' then OnFinalizePass(c)
      else if x == '=' then OnOptionName(c)
      else if x == ' ' then OnOptionValue(c)
      else if IsAbc(x) then Some(c.(acc := c.acc + [x]))
      else None
  }

  function Run(c: Context, s: string): Option<Context>
    decreases |s|
  {
    if s == "" then Some(c)
    else match Run(c, s[..|s| - 1])
         case None => None
         case Some(d) => Step(d, s[|s| - 1])
  }

  //
  // The machine with its state in place
  //

  /** A transition succeeds and leads to the state given by the specification, or fails where that has none. */
  ghost predicate Outcome(r: Option<Context>, ok: bool, now: Context)
  {
    if r.None? then !ok else ok && now == r.value
  }

  class Reader {
    var mode: Mode
    var acc: string
    var nested: seq<string>
    var history: set<string>
    var option: string
    var counter: nat
    var tree: Value

    ghost function View(): Context
      reads this
    {
      Context(mode, acc, nested, history, option, counter, tree)
    }

    constructor ()
      ensures View() == Start()
    {
      mode, acc, nested, history, option, counter, tree := Init, "", [], {}, "", 0, Dict([]);
    }

    method CreatePipelineNode() returns (ok: bool)
      requires nested != []
      modifies this
      ensures Outcome(CreateNode(old(View())), ok, View())
    {
      var key, n := Join(nested), |nested| - 1;
      if key in history {
        nested := nested[n := nested[n] + Tag(counter)];
        counter := counter + 1;
      }
      var t := Ensure(tree, nested);
      if t.None? {
        return false;
      }
      tree, history := t.value, history + {key};
      return true;
    }

    method CreateAs(next: Mode) returns (ok: bool)
      modifies this
      ensures Outcome(OnCreate(old(View()), next), ok, View())
    {
      nested := nested + [acc];
      ok := CreatePipelineNode();
      if ok {
        acc, mode := "", next;
      }
    }

    method FinalizeEntity() returns (ok: bool)
      modifies this
      ensures Outcome(OnFinalizeEntity(old(View())), ok, View())
    {
      if acc == "" {
        return true;
      }
      ghost var before := nested;
      nested := nested + [acc];
      ok := CreatePipelineNode();
      if ok {
        nested := nested[..|nested| - 1];
        assert nested == before;
        acc := "";
      }
    }

    method FinalizeObject() returns (ok: bool)
      modifies this
      ensures Outcome(OnFinalizeObject(old(View())), ok, View())
    {
      ok := FinalizeEntity();
      if !ok || nested == [] {
        return false;
      }
      nested, acc := nested[..|nested| - 1], "";
    }

    method OptionName() returns (ok: bool)
      modifies this
      ensures Outcome(OnOptionName(old(View())), ok, View())
    {
      var t := SetAt(tree, nested, acc, Text(""));
      if t.None? {
        return false;
      }
      tree, option, acc := t.value, acc, "";
      return true;
    }

    method OptionValue() returns (ok: bool)
      modifies this
      ensures Outcome(OnOptionValue(old(View())), ok, View())
    {
      var t := SetAt(tree, nested, option, Text(acc));
      if t.None? {
        return false;
      }
      tree, option, acc := t.value, "", "";
      return true;
    }

    method FinalizePass() returns (ok: bool)
      modifies this
      ensures Outcome(OnFinalizePass(old(View())), ok, View())
    {
      ok := OptionValue();
      if !ok || nested == [] {
        return false;
      }
      nested, acc, mode := nested[..|nested| - 1], "", InObject;
    }

    method Feed(x: char) returns (ok: bool)
      modifies this
      ensures Outcome(Step(old(View()), x), ok, View())
    {
      if mode == Init {
        if x == '(' {
          ok := CreateAs(InObject);
        } else if IsAbc(x) {
          acc, mode, ok := acc + [x], InObject, true;
        } else {
          ok := false;
        }
      } else if mode == InObject {
        if x == '(' {
          ok := CreateAs(InObject);
        } else if x == ')' {
          ok := FinalizeObject();
        } else if x == '{' {
          ok := CreateAs(InPass);
        } else if x == ',' {
          ok := FinalizeEntity();
        } else if IsAbc(x) {
          acc, ok := acc + [x], true;
        } else {
          ok := false;
        }
      } else {
        if x == '}' {
          ok := FinalizePass();
        } else if x == '=' {
          ok := OptionName();
        } else if x == ' ' {
          ok := OptionValue();
        } else if IsAbc(x) {
          acc, ok := acc + [x], true;
        } else {
          ok := false;
        }
      }
    }
  }

  /** The driver loop: feeds the text character by character. */
  method Parse(text: string) returns (result: Option<Value>)
    ensures result == match Run(Start(), text) case None => None case Some(c) => Some(c.tree)
  {
    var reader := new Reader();
    var i := 0;
    while i < |text|
      invariant i <= |text| && Run(Start(), text[..i]) == Some(reader.View())
    {
      assert text[..i + 1][..i] == text[..i];
      var ok := reader.Feed(text[i]);
      if !ok {
        RunStuck(Start(), text, i + 1);
        return None;
      }
      i := i + 1;
    }
    assert text[..|text|] == text;
    return Some(reader.tree);
  }

  lemma {:induction false} RunStuck(c: Context, text: string, i: nat)
    requires i <= |text| && Run(c, text[..i]) == None
    ensures Run(c, text) == None
    decreases |text|
  {
    if i < |text| {
      assert text[..|text| - 1][..i] == text[..i];
      RunStuck(c, text[..|text| - 1], i);
    } else {
      assert text[..i] == text;
    }
  }

  //
  // The printer
  //

  function PrintSettings(es: seq<Entry>): string
  {
    if es == [] then ""
    else
      var e := es[|es| - 1];
      PrintSettings(es[..|es| - 1]) +
      if e.key == "" then "  " else e.key + "=" + (if e.value.Text? then e.value.text else "") + " "
  }

  /** One entry without separator. Texts outside of passes print nothing. */
  function PrintEntry(e: Entry): string
    decreases e, 0
  {
    var name := Canonize(e.key);
    match e.value
    case Text(_) => ""
    case Dict(es) =>
      if es == [] then name
      else if IsObject(e.key) then name + "(" + Print(es) + ")"
      else
        var s := PrintSettings(es);
        name + "{" + (if s == "" then "" else s[..|s| - 1]) + "}"
  }

  function Print(es: seq<Entry>): string
    decreases es, 1
  {
    if es == [] then ""
    else if |es| == 1 then PrintEntry(es[0])
    else Print(es[..|es| - 1]) + "," + PrintEntry(es[|es| - 1])
  }
}
