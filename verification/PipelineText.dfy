/** Pass pipelines as trees of named items, and their textual form. */
module PipelineText {

  datatype Setting = Setting(name: string, value: string)

  /** The settings of a pass may be indented by spaces. */
  datatype Item = Group(name: string, items: seq<Item>) | Pass(name: string, indent: nat, settings: seq<Setting>)

  /** The characters of names and values. */
  predicate IsAbc(c: char)
  {
    'a' <= c <= 'z' || 'A' <= c <= 'Z' || '0' <= c <= '9' || c == '.' || c == '-'
  }

  predicate AllAbc(s: string)
  {
    forall i :: 0 <= i < |s| ==> IsAbc(s[i])
  }

  predicate OccursAt(s: string, w: string, i: nat)
  {
    i + |w| <= |s| && s[i..i + |w|] == w
  }

  predicate Contains(s: string, w: string)
  {
    exists i :: 0 <= i <= |s| && OccursAt(s, w, i)
  }

  /** A name stands for a nested pipeline if one of two words occurs in it. */
  predicate IsObject(name: string)
  {
    Contains(name, "module") || Contains(name, "func.func")
  }

  ghost predicate GoodSettings(s: seq<Setting>)
  {
    && (forall i :: 0 <= i < |s| ==> s[i].name != "" && AllAbc(s[i].name) && AllAbc(s[i].value))
    && (forall i, j :: 0 <= i < j < |s| ==> s[i].name != s[j].name)
  }

  ghost predicate GoodItem(item: Item)
  {
    && item.name != "" && AllAbc(item.name)
    && match item
       case Group(name, items) => IsObject(name) && items != [] && GoodItems(items)
       case Pass(name, _, settings) => !IsObject(name) && GoodSettings(settings)
  }

  ghost predicate GoodItems(items: seq<Item>)
  {
    forall i :: 0 <= i < |items| ==> GoodItem(items[i])
  }

  function RenderSettings(s: seq<Setting>): string
  {
    if s == [] then ""
    else if |s| == 1 then s[0].name + "=" + s[0].value
    else RenderSettings(s[..|s| - 1]) + " " + s[|s| - 1].name + "=" + s[|s| - 1].value
  }

  function RenderItem(item: Item): string
    decreases item, 0
  {
    match item
    case Group(name, items) => name + "(" + Render(items) + ")"
    case Pass(name, indent, settings) =>
      if IsBare(item) then name else name + "{" + Spaces(indent) + RenderSettings(settings) + "}"
  }

  function Spaces(n: nat): string
  {
    if n == 0 then "" else Spaces(n - 1) + " "
  }

  function Render(items: seq<Item>): string
    decreases items, 1
  {
    if items == [] then ""
    else if |items| == 1 then RenderItem(items[0])
    else Render(items[..|items| - 1]) + "," + RenderItem(items[|items| - 1])
  }

  /** A pass without settings: its end is visible only from what follows. */
  predicate IsBare(item: Item)
  {
    item.Pass? && item.settings == [] && item.indent == 0
  }

  /** The items whose end is visible. */
  function Complete(items: seq<Item>): seq<Item>
  {
    if items != [] && IsBare(items[|items| - 1]) then items[..|items| - 1] else items
  }

  /** What is left of an indentation: a single space without settings, and two in front of some. */
  function NormalIndent(indent: nat, settings: seq<Setting>): nat
  {
    if indent == 0 then 0 else if settings == [] then 1 else 2
  }

  function Normal(item: Item): Item
    decreases item, 0
  {
    match item
    case Group(name, items) => Group(name, NormalAll(items))
    case Pass(name, indent, settings) => Pass(name, NormalIndent(indent, settings), settings)
  }

  function NormalAll(items: seq<Item>): (r: seq<Item>)
    ensures |r| == |items|
    decreases items, 1
  {
    if items == [] then [] else NormalAll(items[..|items| - 1]) + [Normal(items[|items| - 1])]
  }

  /** All indentations are of the kind that is printed. */
  predicate IsNormal(item: Item)
    decreases item, 0
  {
    match item
    case Group(_, items) => AllNormal(items)
    case Pass(_, indent, settings) => indent == NormalIndent(indent, settings)
  }

  predicate AllNormal(items: seq<Item>)
    decreases items, 1
  {
    items == [] || (AllNormal(items[..|items| - 1]) && IsNormal(items[|items| - 1]))
  }

  //
  // Texts and what they tell about their items
  //

  lemma {:induction false} NormalSame(item: Item)
    requires IsNormal(item)
    ensures Normal(item) == item
    decreases item, 0
  {
    if item.Group? { AllNormalSame(item.items); }
  }

  lemma {:induction false} AllNormalSame(items: seq<Item>)
    requires AllNormal(items)
    ensures NormalAll(items) == items
    decreases items, 1
  {
    if items != [] {
      AllNormalSame(items[..|items| - 1]);
      NormalSame(items[|items| - 1]);
    }
  }

  lemma {:induction false} SpacesLength(n: nat)
    ensures |Spaces(n)| == n && forall i :: 0 <= i < n ==> Spaces(n)[i] == ' '
  {
    if n > 0 { SpacesLength(n - 1); }
  }

  /** Behind a bracket the number of spaces is visible. */
  lemma BracketSpaces(x: string, y: string, i: nat, j: nat)
    requires x + "{" + Spaces(i) == y + "{" + Spaces(j)
    ensures i == j && x == y
  {
    var s, t := x + "{" + Spaces(i), y + "{" + Spaces(j);
    SpacesLength(i);
    SpacesLength(j);
    assert s[|x|] == '{' && t[|y|] == '{';
    assert forall k :: |x| < k < |s| ==> s[k] == Spaces(i)[k - |x| - 1];
    assert forall k :: |y| < k < |t| ==> t[k] == Spaces(j)[k - |y| - 1];
    assert |x| == |y|;
    assert x == s[..|x|] && y == t[..|y|];
  }

  lemma SameTail(x: string, y: string, w: string)
    requires x + w == y + w
    ensures x == y
  {
    assert |x| == |y|;
    assert x == (x + w)[..|x|] && y == (y + w)[..|y|];
  }

  /** A text that agrees with the normal one from its end on is normal. */
  lemma {:induction false} SameTextNormal(x: string, y: string, item: Item)
    requires x + RenderItem(item) == y + RenderItem(Normal(item))
    ensures IsNormal(item) && x == y
    decreases item, 0
  {
    match item
    case Group(name, items) =>
      var open := name + "(";
      assert x + RenderItem(item) == (x + open + Render(items)) + ")";
      assert y + RenderItem(Normal(item)) == (y + open + Render(NormalAll(items))) + ")";
      SameTail(x + open + Render(items), y + open + Render(NormalAll(items)), ")");
      SameTextAllNormal(x + open, y + open, items);
      SameTail(x, y, open);
    case Pass(name, indent, settings) =>
      if IsBare(item) {
        SameTail(x, y, name);
      } else {
        var tail := RenderSettings(settings) + "}";
        var i, j := indent, NormalIndent(indent, settings);
        assert x + RenderItem(item) == (x + name + "{" + Spaces(i)) + tail;
        assert y + RenderItem(Normal(item)) == (y + name + "{" + Spaces(j)) + tail;
        SameTail(x + name + "{" + Spaces(i), y + name + "{" + Spaces(j), tail);
        BracketSpaces(x + name, y + name, i, j);
        SameTail(x, y, name);
      }
  }

  lemma {:induction false} SameTextAllNormal(x: string, y: string, items: seq<Item>)
    requires x + Render(items) == y + Render(NormalAll(items))
    ensures AllNormal(items) && x == y
    decreases items, 1
  {
    var n := |items| - 1;
    if n == 0 {
      assert NormalAll(items) == [Normal(items[0])];
      SameTextNormal(x, y, items[0]);
    } else if n < 0 {
      assert x + "" == x && y + "" == y;
    } else {
      var front := items[..n];
      assert NormalAll(items)[..n] == NormalAll(front);
      var s, t := x + Render(front) + ",", y + Render(NormalAll(front)) + ",";
      assert x + Render(items) == s + RenderItem(items[n]);
      assert y + Render(NormalAll(items)) == t + RenderItem(Normal(items[n]));
      SameTextNormal(s, t, items[n]);
      SameTail(x + Render(front), y + Render(NormalAll(front)), ",");
      SameTextAllNormal(x, y, front);
    }
  }

  /** Number of commas. */
  function Commas(s: string): nat
  {
    if s == "" then 0 else Commas(s[..|s| - 1]) + if s[|s| - 1] == ',' then 1 else 0
  }

  lemma {:induction false} CommasConcat(s: string, t: string)
    ensures Commas(s + t) == Commas(s) + Commas(t)
    decreases |t|
  {
    if t == "" {
      assert s + t == s;
    } else {
      assert (s + t)[..|s + t| - 1] == s + t[..|t| - 1];
      CommasConcat(s, t[..|t| - 1]);
    }
  }

  lemma {:induction false} NoCommas(s: string)
    requires forall i :: 0 <= i < |s| ==> s[i] != ','
    ensures Commas(s) == 0
  {
    if s != "" { NoCommas(s[..|s| - 1]); }
  }

  /** Indentation does not change the number of commas. */
  lemma {:induction false} NormalCommas(item: Item)
    ensures Commas(RenderItem(Normal(item))) == Commas(RenderItem(item))
    decreases item, 0
  {
    match item
    case Group(name, items) =>
      AllNormalCommas(items);
      CommasConcat(name + "(" + Render(items), ")");
      CommasConcat(name + "(", Render(items));
      CommasConcat(name + "(" + Render(NormalAll(items)), ")");
      CommasConcat(name + "(", Render(NormalAll(items)));
    case Pass(name, indent, settings) =>
      if !IsBare(item) {
        PassCommas(name, indent, settings);
        PassCommas(name, NormalIndent(indent, settings), settings);
      }
  }

  lemma PassCommas(name: string, indent: nat, settings: seq<Setting>)
    ensures Commas(name + "{" + Spaces(indent) + RenderSettings(settings) + "}") ==
            Commas(name + "{") + Commas(RenderSettings(settings) + "}")
  {
    var open, tail := name + "{", RenderSettings(settings) + "}";
    SpacesLength(indent);
    NoCommas(Spaces(indent));
    CommasConcat(open, Spaces(indent));
    CommasConcat(open + Spaces(indent), tail);
    assert open + Spaces(indent) + tail == name + "{" + Spaces(indent) + RenderSettings(settings) + "}";
  }

  lemma {:induction false} AllNormalCommas(items: seq<Item>)
    ensures Commas(Render(NormalAll(items))) == Commas(Render(items))
    decreases items, 1
  {
    var n := |items| - 1;
    if n == 0 {
      assert NormalAll(items) == [Normal(items[0])];
      NormalCommas(items[0]);
    } else if n > 0 {
      AllNormalCommas(items[..n]);
      NormalCommas(items[n]);
      assert NormalAll(items)[..n] == NormalAll(items[..n]);
      JoinCommas(Render(items[..n]), RenderItem(items[n]));
      JoinCommas(Render(NormalAll(items[..n])), RenderItem(Normal(items[n])));
    }
  }

  lemma JoinCommas(s: string, t: string)
    ensures Commas(s + "," + t) == Commas(s) + 1 + Commas(t)
  {
    CommasConcat(s + ",", t);
    assert (s + ",")[..|s|] == s;
  }

  //
  // Names made unique
  //

  function Digit(n: nat): char
    requires n < 10
  {
    "0123456789"[n]
  }

  function Digits(n: nat): (s: string)
    ensures s != ""
  {
    if n < 10 then [Digit(n)] else Digits(n / 10) + [Digit(n % 10)]
  }

  lemma {:induction false} DigitsInjective(a: nat, b: nat)
    requires Digits(a) == Digits(b)
    ensures a == b
  {
    var s, t := Digits(a), Digits(b);
    assert s[|s| - 1] == Digit(a % 10) && t[|t| - 1] == Digit(b % 10);
    if a >= 10 && b >= 10 {
      assert s[..|s| - 1] == Digits(a / 10) && t[..|t| - 1] == Digits(b / 10);
      DigitsInjective(a / 10, b / 10);
    }
  }

  function Tag(n: nat): string { "[" + Digits(n) + "]" }

  /** The name up to the first bracket. */
  function Canonize(name: string): string
  {
    if name == "" || name[0] == '[' then "" else [name[0]] + Canonize(name[1..])
  }

  lemma {:induction false} CanonizePlain(name: string, rest: string)
    requires AllAbc(name) && (rest == "" || rest[0] == '[')
    ensures Canonize(name + rest) == name
  {
    if name == "" {
      assert name + rest == rest;
    } else {
      assert (name + rest)[1..] == name[1..] + rest;
      CanonizePlain(name[1..], rest);
    }
  }

  /** `key` is `name`, possibly with a tag below `n`. */
  ghost predicate Tagged(key: string, name: string, n: nat)
  {
    key == name || exists k :: 0 <= k < n && key == name + Tag(k)
  }

  lemma TaggedCanonize(key: string, name: string, n: nat)
    requires Tagged(key, name, n) && AllAbc(name)
    ensures Canonize(key) == name
  {
    CanonizePlain(name, "");
    assert name + "" == name;
    if key != name {
      var k :| 0 <= k < n && key == name + Tag(k);
      CanonizePlain(name, Tag(k));
    }
  }

  /** A new tag gives a new name. */
  lemma NewTag(key: string, name: string, other: string, n: nat)
    requires Tagged(key, other, n) && AllAbc(name) && AllAbc(other)
    ensures key != name + Tag(n)
  {
    if key == name + Tag(n) {
      TaggedCanonize(key, other, n);
      CanonizePlain(name, Tag(n));
      assert name == other;
      if key != name {
        var k :| 0 <= k < n && key == other + Tag(k);
        assert Tag(k) == key[|name|..] == Tag(n);
        assert Digits(k) == Tag(k)[1..|Tag(k)| - 1] == Tag(n)[1..|Tag(n)| - 1] == Digits(n);
        DigitsInjective(k, n);
      }
    }
  }

  lemma {:induction false} DigitsAreDigits(n: nat)
    ensures forall i :: 0 <= i < |Digits(n)| ==> '0' <= Digits(n)[i] <= '9'
  {
    if n >= 10 { DigitsAreDigits(n / 10); }
  }

  /** Characters that do not occur in a word cannot complete it. */
  lemma ContainsExtended(s: string, t: string, w: string)
    requires w != "" && forall i, j :: 0 <= i < |t| && 0 <= j < |w| ==> t[i] != w[j]
    ensures Contains(s + t, w) <==> Contains(s, w)
  {
    if Contains(s, w) {
      var i :| 0 <= i <= |s| && OccursAt(s, w, i);
      assert (s + t)[i..i + |w|] == s[i..i + |w|];
      assert OccursAt(s + t, w, i);
    }
    if Contains(s + t, w) {
      var i :| 0 <= i <= |s + t| && OccursAt(s + t, w, i);
      CharAt(s + t, w, i, |w| - 1);
      assert i + |w| <= |s|;
      assert (s + t)[i..i + |w|] == s[i..i + |w|];
      assert OccursAt(s, w, i);
    }
  }

  lemma CharAt(s: string, w: string, i: nat, j: nat)
    requires OccursAt(s, w, i) && j < |w|
    ensures s[i + j] == w[j]
  {
    assert s[i..i + |w|][j] == s[i + j];
  }

  lemma TaggedIsObject(key: string, name: string, n: nat)
    requires Tagged(key, name, n)
    ensures IsObject(key) <==> IsObject(name)
  {
    if key != name {
      var k :| 0 <= k < n && key == name + Tag(k);
      DigitsAreDigits(k);
      TagOutside(k, "module");
      TagOutside(k, "func.func");
      ContainsExtended(name, Tag(k), "module");
      ContainsExtended(name, Tag(k), "func.func");
    }
  }

  lemma TagOutside(k: nat, w: string)
    requires forall j :: 0 <= j < |w| ==> w[j] == '.' || 'a' <= w[j] <= 'z'
    ensures forall i, j :: 0 <= i < |Tag(k)| && 0 <= j < |w| ==> Tag(k)[i] != w[j]
  {
    DigitsAreDigits(k);
  }
}
