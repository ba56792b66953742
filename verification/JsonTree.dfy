/**
 A decoded JSON value, and the source paths that name positions inside it.

 An object is its sequence of fields; `Lookup` is Go's map index.
 */
module JsonTree {
  import opened Common
  import opened Text

  datatype Json =
    | Null
    | Bool(b: bool)
    | Number(literal: string)
    | Str(text: string)
    | Arr(items: seq<Json>)
    | Obj(fields: seq<Field>)

  datatype Field = Field(key: string, value: Json)

  function Lookup(fields: seq<Field>, key: string): (r: Option<Json>)
    ensures r.Some? <==> exists i :: 0 <= i < |fields| && fields[i].key == key
    ensures r.Some? ==> exists i :: 0 <= i < |fields| && fields[i] == Field(key, r.value)
  {
    if fields == [] then None
    else if fields[0].key == key then
      assert fields[0] == Field(key, fields[0].value);
      Some(fields[0].value)
    else
      var r := Lookup(fields[1..], key);
      assert forall i :: 0 <= i < |fields| - 1 ==> fields[1..][i] == fields[i + 1];
      assert r.None? ==> forall i :: 1 <= i < |fields| ==> fields[i] == fields[1..][i - 1];
      r
  }

  /** `object[key].(string)` with its `ok`. */
  function StringAt(fields: seq<Field>, key: string): Option<string> {
    match Lookup(fields, key)
    case Some(Str(t)) => Some(t)
    case _ => None
  }

  /** `s, _ := object[key].(string)` */
  function StringOr(fields: seq<Field>, key: string): string {
    StringAt(fields, key).GetOr("")
  }

  // ------------------------------------------------------------------- paths

  datatype Step = Key(name: string) | At(index: nat)
  type Path = seq<Step>

  function StepText(s: Step, first: bool): string {
    match s
    case Key(name) => if first then name else "." + name
    case At(index) => "[" + Decimal(index) + "]"
  }

  /** The `Source` text of a path, such as `messages[2].content[0].text`. */
  function Print(p: Path): string
    decreases |p|, 1
  {
    if p == [] then "" else PrintSteps(p)
  }

  function PrintSteps(p: Path): string
    requires p != []
    decreases |p|, 0
  {
    Print(p[..|p| - 1]) + StepText(p[|p| - 1], |p| == 1)
  }

  /** The value a path leads to. */
  function Follow(v: Json, p: Path): Option<Json>
    decreases |p|
  {
    if p == [] then Some(v)
    else
      var next := match p[0]
        case Key(name) => if v.Obj? then Lookup(v.fields, name) else None
        case At(index) => if v.Arr? && index < |v.items| then Some(v.items[index]) else None;
      if next.None? then None else Follow(next.value, p[1..])
  }

  lemma PrintSnoc(p: Path, s: Step)
    ensures Print(p + [s]) == Print(p) + StepText(s, p == [])
  {
    assert (p + [s])[..|p|] == p;
  }

  lemma PrintField(p: Path, name: string)
    requires p != []
    ensures Print(p + [Key(name)]) == Print(p) + "." + name
  {
    PrintSnoc(p, Key(name));
    assert Print(p) + ("." + name) == Print(p) + "." + name;
  }

  lemma PrintIndex(p: Path, index: nat)
    ensures Print(p + [At(index)]) == Print(p) + "[" + Decimal(index) + "]"
  {
    PrintSnoc(p, At(index));
    var a, d := Print(p), Decimal(index);
    assert a + ("[" + d + "]") == a + "[" + d + "]";
  }

  /** Field names free of the characters the printer uses as punctuation. */
  predicate PlainName(name: string) {
    name != "" && '.' !in name && '[' !in name && ']' !in name
  }

  /** A path as the extractor builds it: a field first, plain names throughout. */
  predicate PlainPath(p: Path) {
    && p != [] && p[0].Key?
    && forall i :: 0 <= i < |p| && p[i].Key? ==> PlainName(p[i].name)
  }

  /** Two plain paths with the same text are the same path: the printer loses nothing. */
  lemma {:induction false} PrintInjective(p: Path, q: Path)
    requires PlainPath(p) && PlainPath(q) && Print(p) == Print(q)
    ensures p == q
    decreases |p|
  {
    SameLastStep(p, q);
    if |p| > 1 {
      var a, b := p[..|p| - 1], q[..|q| - 1];
      Parent(p);
      Parent(q);
      PrintInjective(a, b);
    }
    SamePath(p, q);
  }

  lemma SamePath(p: Path, q: Path)
    requires p != [] && q != [] && p[|p| - 1] == q[|q| - 1]
    requires if |p| == 1 then |q| == 1 else p[..|p| - 1] == q[..|q| - 1]
    ensures p == q
  {
    if |p| > 1 {
      assert p == p[..|p| - 1] + [p[|p| - 1]];
      assert q == q[..|q| - 1] + [q[|q| - 1]];
    }
  }

  lemma Parent(p: Path)
    requires PlainPath(p) && |p| > 1
    ensures PlainPath(p[..|p| - 1])
  {
  }

  lemma SameLastStep(p: Path, q: Path)
    requires PlainPath(p) && PlainPath(q) && Print(p) == Print(q)
    ensures (|p| == 1 <==> |q| == 1) && p[|p| - 1] == q[|q| - 1]
    ensures |p| > 1 ==> Print(p[..|p| - 1]) == Print(q[..|q| - 1])
  {
    PrintLast(p);
    PrintLast(q);
    if p[|p| - 1].At? {
      SameIndex(p, q);
    } else if |p| > 1 && |q| > 1 {
      SameName(p, q);
    } else {
      FirstName(p, q);
    }
  }

  lemma SameIndex(p: Path, q: Path)
    requires PlainPath(p) && PlainPath(q) && Print(p) == Print(q)
    requires p[|p| - 1].At? && q[|q| - 1].At?
    ensures p[|p| - 1] == q[|q| - 1] && Print(p[..|p| - 1]) == Print(q[..|q| - 1])
  {
    var a, b := Print(p[..|p| - 1]), Print(q[..|q| - 1]);
    var i, j := p[|p| - 1].index, q[|q| - 1].index;
    LastIndex(p);
    LastIndex(q);
    SameBrackets(a, i, b, j);
  }

  lemma LastIndex(p: Path)
    requires p != [] && p[|p| - 1].At?
    ensures Print(p) == Print(p[..|p| - 1]) + ['['] + (Decimal(p[|p| - 1].index) + "]")
  {
    var a, d := Print(p[..|p| - 1]), Decimal(p[|p| - 1].index);
    assert Print(p) == PrintSteps(p) == a + ("[" + d + "]");
    assert a + ("[" + d + "]") == a + ['['] + (d + "]");
  }

  lemma SameBrackets(a: string, i: nat, b: string, j: nat)
    requires a + ['['] + (Decimal(i) + "]") == b + ['['] + (Decimal(j) + "]")
    ensures a == b && i == j
  {
    var d, e := Decimal(i), Decimal(j);
    JoinedAtLast(a, '[', d + "]", b, e + "]");
    assert d == (d + "]")[..|d + "]"| - 1] && e == (e + "]")[..|e + "]"| - 1];
    DecimalInjective(i, j);
  }

  lemma SameName(p: Path, q: Path)
    requires PlainPath(p) && PlainPath(q) && Print(p) == Print(q)
    requires |p| > 1 && |q| > 1 && p[|p| - 1].Key? && q[|q| - 1].Key?
    ensures p[|p| - 1] == q[|q| - 1] && Print(p[..|p| - 1]) == Print(q[..|q| - 1])
  {
    var a, b := Print(p[..|p| - 1]), Print(q[..|q| - 1]);
    var x, y := p[|p| - 1].name, q[|q| - 1].name;
    assert Print(p) == a + ['.'] + x;
    assert Print(q) == b + ['.'] + y;
    JoinedAtLast(a, '.', x, b, y);
  }

  lemma FirstName(p: Path, q: Path)
    requires PlainPath(p) && PlainPath(q) && Print(p) == Print(q)
    requires p[|p| - 1].Key? && q[|q| - 1].Key? && (|p| == 1 || |q| == 1)
    ensures p == q
  {
    KeyEnding(p);
    KeyEnding(q);
    assert |p| == 1 ==> p == [p[0]] && Print(p) == p[0].name;
    assert |q| == 1 ==> q == [q[0]] && Print(q) == q[0].name;
  }

  lemma KeyEnding(p: Path)
    requires PlainPath(p) && p[|p| - 1].Key?
    ensures |p| > 1 ==> '.' in Print(p)
    ensures |p| == 1 ==> Print(p) == p[0].name
  {
    var a := Print(p[..|p| - 1]);
    assert Print(p) == PrintSteps(p);
    if |p| > 1 {
      assert Print(p)[|a|] == '.';
    } else {
      assert a == "";
    }
  }

  /** Only a path ending in an index ends in a bracket. */
  lemma PrintLast(p: Path)
    requires PlainPath(p)
    ensures var t := Print(p); t != "" && (t[|t| - 1] == ']' <==> p[|p| - 1].At?)
  {
    var last := p[|p| - 1];
    var text := StepText(last, |p| == 1);
    assert Print(p) == PrintSteps(p);
    assert Print(p)[|Print(p)| - 1] == text[|text| - 1];
  }
}
