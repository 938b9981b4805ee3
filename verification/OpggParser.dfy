/** The parser of OP.GG's answers: objects written `Name(arg,arg,...)`, nested, with lists and plain
    values as leaves. It is proved to undo the printing of any tree of such objects. */
module OpggParser {
  import opened PyText

  // The two foreign pieces: what `\w` matches, and `str.lower`, which only picks a field table.
  datatype Lexis = Lexis(isWord: char -> bool, lower: string -> string) {
    ghost predicate Ok() {
      && (forall c :: c in "()[],\n" ==> !isWord(c))
      && (forall c :: IsSpace(c) ==> !isWord(c))
    }
  }

  // What a leaf turns into is left as text, apart from whether the list branch took it.
  datatype Value = Scalar(text: string) | ListText(text: string) | Dict(fields: map<string, Value>)

  type FieldNames = map<string, seq<string>>

  // Splitting arguments

  datatype Nest = Nest(depth: int, lists: int, inList: bool)

  const TOP := Nest(0, 0, false)

  function Step(n: Nest, c: char): Nest {
    match c
    case '[' => n.(lists := n.lists + 1, inList := true)
    case ']' => n.(lists := n.lists - 1, inList := n.lists - 1 != 0 && n.inList)
    case '(' => n.(depth := n.depth + 1)
    case ')' => n.(depth := n.depth - 1)
    case _ => n
  }

  predicate Cuts(n: Nest, c: char) {
    c == ',' && n.depth == 0 && !n.inList
  }

  // The arguments of the rest of a text, `pending` being the current one so far.
  function Args(n: Nest, pending: string, s: string): (r: seq<string>)
    ensures r != []
    decreases |s|
  {
    if s == "" then [Strip(pending)]
    else if Cuts(n, s[0]) then [Strip(pending)] + Args(n, "", s[1..])
    else Args(Step(n, s[0]), pending + [s[0]], s[1..])
  }

  lemma {:induction false} ArgsAreShort(n: Nest, pending: string, s: string)
    ensures forall a :: a in Args(n, pending, s) ==> |a| <= |pending| + |s|
    decreases |s|
  {
    if s != "" {
      if Cuts(n, s[0]) {
        ArgsAreShort(n, "", s[1..]);
      } else {
        ArgsAreShort(Step(n, s[0]), pending + [s[0]], s[1..]);
      }
    }
  }

  // One turn of the loop: what is left of the arguments when the character at `i` has been read.
  lemma ArgsNext(n: Nest, data: string, start: nat, i: nat)
    requires start <= i < |data|
    ensures var rest := Args(n, data[start..i], data[i..]);
      if Cuts(n, data[i])
      then rest == [Strip(data[start..i])] + Args(n, data[i + 1..i + 1], data[i + 1..])
      else rest == Args(Step(n, data[i]), data[start..i + 1], data[i + 1..])
  {
    assert data[i..][0] == data[i] && data[i..][1..] == data[i + 1..];
    assert data[start..i] + [data[i]] == data[start..i + 1];
    assert data[i + 1..i + 1] == "";
  }

  // `all` is the arguments found so far, then those of the rest.
  ghost predicate SplitSoFar(all: seq<string>, data: string, args: seq<string>, n: Nest, start: nat, i: nat) {
    start <= i <= |data| && args + Args(n, data[start..i], data[i..]) == all
  }

  lemma SplitStep(all: seq<string>, data: string, args: seq<string>, n: Nest, start: nat, i: nat)
    requires i < |data| && SplitSoFar(all, data, args, n, start, i)
    ensures if Cuts(n, data[i]) then SplitSoFar(all, data, args + [Strip(data[start..i])], n, i + 1, i + 1)
            else SplitSoFar(all, data, args, Step(n, data[i]), start, i + 1)
  {
    ArgsNext(n, data, start, i);
    if Cuts(n, data[i]) {
      var rest := Args(n, data[i + 1..i + 1], data[i + 1..]);
      assert args + ([Strip(data[start..i])] + rest) == args + [Strip(data[start..i])] + rest;
    }
  }

  lemma SplitEnds(all: seq<string>, data: string, args: seq<string>, n: Nest, start: nat)
    requires SplitSoFar(all, data, args, n, start, |data|)
    ensures args + [Strip(data[start..])] == all
  {
    assert data[|data|..] == "" && data[start..|data|] == data[start..];
  }

  /** OpggClient._split_args. */
  method SplitArgs(data: string) returns (args: seq<string>)
    ensures args == Args(TOP, "", data)
  {
    args := [];
    var depth, start, inList, listDepth := 0, 0, false, 0;
    ghost var all := Args(TOP, "", data);
    assert data[0..0] == "" && data[0..] == data;
    for i := 0 to |data|
      invariant SplitSoFar(all, data, args, Nest(depth, listDepth, inList), start, i)
    {
      SplitStep(all, data, args, Nest(depth, listDepth, inList), start, i);
      var c := data[i];
      if c == '[' {
        listDepth := listDepth + 1;
        inList := true;
      } else if c == ']' {
        listDepth := listDepth - 1;
        if listDepth == 0 {
          inList := false;
        }
      } else if c == '(' {
        depth := depth + 1;
      } else if c == ')' {
        depth := depth - 1;
      } else if c == ',' && depth == 0 && !inList {
        args := args + [Strip(data[start..i])];
        start := i + 1;
      }
    }
    SplitEnds(all, data, args, Nest(depth, listDepth, inList), start);
    args := args + [Strip(data[start..])];
  }

  // Parsing

  predicate Listed(arg: string) {
    arg != "" && arg[0] == '[' && arg[|arg| - 1] == ']'
  }

  // The first '(' of a text that has one.
  function Paren(s: string): (p: nat)
    requires '(' in s
    ensures p < |s| && s[p] == '(' && '(' !in s[..p]
  {
    if s[0] == '(' then 0
    else
      assert s == [s[0]] + s[1..];
      1 + Paren(s[1..])
  }

  // re.fullmatch(r'(\w+)\((.*)\)', arg): a dot matches anything but a newline.
  predicate Object(lexis: Lexis, arg: string) {
    && '(' in arg
    && arg[|arg| - 1] == ')'
    && var p := Paren(arg);
       0 < p < |arg| - 1 && (forall c :: c in arg[..p] ==> lexis.isWord(c)) && '\n' !in arg[p + 1..|arg| - 1]
  }

  function FieldName(names: seq<string>, index: nat): string {
    if index < |names| then names[index] else "field_" + Decimal(index)
  }

  function NamesOf(mapping: FieldNames, context: string): seq<string> {
    if context in mapping then mapping[context] else []
  }

  function ParseArg(lexis: Lexis, mapping: FieldNames, raw: string): Value
    decreases |raw|, 0
  {
    var arg := Strip(raw);
    if Listed(arg) then ListText(arg)
    else if Object(lexis, arg) then
      var p := Paren(arg);
      var data := arg[p + 1..|arg| - 1];
      ArgsAreShort(TOP, "", data);
      Dict(ParseAll(lexis, mapping, NamesOf(mapping, lexis.lower(arg[..p])), 0, Args(TOP, "", data), |data|))
    else Scalar(arg)
  }

  // A later argument of the same field name wins, as in the dictionary it is stored in.
  function ParseAll(
    lexis: Lexis, mapping: FieldNames, names: seq<string>, index: nat, args: seq<string>, size: nat): map<string, Value>
    requires forall a :: a in args ==> |a| <= size
    decreases size, 1, |args|
  {
    if args == [] then map[]
    else
      map[FieldName(names, index) := ParseArg(lexis, mapping, args[0])]
      + ParseAll(lexis, mapping, names, index + 1, args[1..], size)
  }

  // Printing

  datatype Tree = Leaf(text: string) | Node(name: string, fields: seq<Tree>)

  // The arguments are separated by a comma and any padding the printer likes.
  function Print(pad: string, t: Tree): string
    decreases t, 0
  {
    match t
    case Leaf(text) => text
    case Node(name, fields) => name + "(" + Join(pad, PrintAll(pad, fields)) + ")"
  }

  function PrintAll(pad: string, ts: seq<Tree>): (r: seq<string>)
    ensures |r| == |ts|
    decreases ts, 1
  {
    if ts == [] then [] else [Print(pad, ts[0])] + PrintAll(pad, ts[1..])
  }

  function Join(pad: string, parts: seq<string>): string {
    if parts == [] then ""
    else if |parts| == 1 then parts[0]
    else parts[0] + ("," + (pad + Join(pad, parts[1..])))
  }

  // The dictionaries a tree stands for.
  function Meaning(lexis: Lexis, mapping: FieldNames, t: Tree): Value
    decreases t, 0
  {
    match t
    case Leaf(text) => if Listed(text) then ListText(text) else Scalar(text)
    case Node(name, fields) =>
      Dict(MeaningAll(lexis, mapping, NamesOf(mapping, lexis.lower(name)), 0, fields))
  }

  function MeaningAll(
    lexis: Lexis, mapping: FieldNames, names: seq<string>, index: nat, ts: seq<Tree>): map<string, Value>
    decreases ts, 1
  {
    if ts == [] then map[]
    else
      map[FieldName(names, index) := Meaning(lexis, mapping, ts[0])]
      + MeaningAll(lexis, mapping, names, index + 1, ts[1..])
  }

  // Texts that sit in one argument: their brackets match, and no comma is outside all of them.

  function Run(n: Nest, s: string): Nest
    decreases |s|
  {
    if s == "" then n else Run(Step(n, s[0]), s[1..])
  }

  predicate Enclosed(n: Nest, s: string)
    decreases |s|
  {
    && n.depth >= 0 && n.lists >= 0
    && (s == "" || (!Cuts(n, s[0]) && Enclosed(Step(n, s[0]), s[1..])))
  }

  predicate OneArg(s: string) {
    Enclosed(TOP, s) && Run(TOP, s) == TOP
  }

  // A leaf: trimmed, in one argument, and not itself shaped like an object.
  predicate Fits(lexis: Lexis, t: Tree)
    decreases t, 0
  {
    match t
    case Leaf(text) => Trimmed(text) && OneArg(text) && !Object(lexis, text)
    case Node(name, fields) =>
      && name != "" && (forall c :: c in name ==> lexis.isWord(c))
      && fields != [] && FitsAll(lexis, fields)
  }

  predicate FitsAll(lexis: Lexis, ts: seq<Tree>)
    decreases ts, 1
  {
    ts == [] || (Fits(lexis, ts[0]) && FitsAll(lexis, ts[1..]))
  }

  lemma {:induction false} RunJoins(n: Nest, a: string, b: string)
    ensures Run(n, a + b) == Run(Run(n, a), b)
    ensures Enclosed(n, a) && Enclosed(Run(n, a), b) ==> Enclosed(n, a + b)
    decreases |a|
  {
    if a == "" {
      assert a + b == b;
    } else {
      assert (a + b)[1..] == a[1..] + b;
      RunJoins(Step(n, a[0]), a[1..], b);
    }
  }

  function Deeper(n: Nest): Nest {
    n.(depth := n.depth + 1)
  }

  lemma {:induction false} InsideParens(n: Nest, s: string)
    requires Enclosed(n, s)
    ensures Enclosed(Deeper(n), s) && Run(Deeper(n), s) == Deeper(Run(n, s))
    decreases |s|
  {
    if s != "" {
      InsideParens(Step(n, s[0]), s[1..]);
    }
  }

  lemma {:induction false} WordsAreFlat(lexis: Lexis, n: Nest, s: string)
    requires lexis.Ok() && n.depth >= 0 && n.lists >= 0 && forall c :: c in s ==> lexis.isWord(c)
    ensures Enclosed(n, s) && Run(n, s) == n && '(' !in s && '\n' !in s
    decreases |s|
  {
    if s != "" {
      assert lexis.isWord(s[0]) && s == [s[0]] + s[1..];
      WordsAreFlat(lexis, n, s[1..]);
    }
  }

  lemma {:induction false} BlankIsFlat(n: Nest, pad: string)
    requires n.depth >= 0 && n.lists >= 0 && Blank(pad)
    ensures Enclosed(n, pad) && Run(n, pad) == n
    decreases |pad|
  {
    if pad != "" {
      assert pad[0] in pad && pad == [pad[0]] + pad[1..];
      BlankIsFlat(n, pad[1..]);
    }
  }

  lemma PartsInside(pad: string, first: string, rest: string)
    requires Blank(pad) && OneArg(first)
    requires Enclosed(Deeper(TOP), rest) && Run(Deeper(TOP), rest) == Deeper(TOP)
    ensures Enclosed(Deeper(TOP), first + ("," + (pad + rest)))
    ensures Run(Deeper(TOP), first + ("," + (pad + rest))) == Deeper(TOP)
  {
    InsideParens(TOP, first);
    BlankIsFlat(Deeper(TOP), pad);
    RunJoins(Deeper(TOP), pad, rest);
    assert ("," + (pad + rest))[1..] == pad + rest;
    RunJoins(Deeper(TOP), first, "," + (pad + rest));
  }

  lemma {:induction false} JoinInside(pad: string, parts: seq<string>)
    requires Blank(pad) && forall p :: p in parts ==> OneArg(p)
    ensures Enclosed(Deeper(TOP), Join(pad, parts)) && Run(Deeper(TOP), Join(pad, parts)) == Deeper(TOP)
    decreases |parts|
  {
    if |parts| == 1 {
      assert parts[0] in parts;
      InsideParens(TOP, parts[0]);
    } else if |parts| > 1 {
      assert parts[0] in parts;
      JoinInside(pad, parts[1..]);
      PartsInside(pad, parts[0], Join(pad, parts[1..]));
    }
  }

  lemma ParensAround(data: string)
    requires Enclosed(Deeper(TOP), data) && Run(Deeper(TOP), data) == Deeper(TOP)
    ensures OneArg("(" + (data + ")"))
  {
    assert ")"[1..] == "";
    assert Enclosed(TOP, "") && Run(TOP, "") == TOP;
    assert Enclosed(Deeper(TOP), ")") && Run(Deeper(TOP), ")") == TOP;
    RunJoins(Deeper(TOP), data, ")");
    assert ("(" + (data + ")"))[1..] == data + ")";
  }

  lemma NodeIsOneArg(lexis: Lexis, name: string, data: string)
    requires lexis.Ok() && forall c :: c in name ==> lexis.isWord(c)
    requires Enclosed(Deeper(TOP), data) && Run(Deeper(TOP), data) == Deeper(TOP)
    ensures OneArg(name + "(" + data + ")")
  {
    WordsAreFlat(lexis, TOP, name);
    ParensAround(data);
    RunJoins(TOP, name, "(" + (data + ")"));
    assert name + "(" + data + ")" == name + ("(" + (data + ")"));
  }

  lemma {:induction false} PrintIsOneArg(lexis: Lexis, pad: string, t: Tree)
    requires lexis.Ok() && Fits(lexis, t) && Blank(pad)
    ensures OneArg(Print(pad, t)) && Trimmed(Print(pad, t))
    decreases t, 0
  {
    if t.Node? {
      PrintsAreArgs(lexis, pad, t.fields);
      JoinInside(pad, PrintAll(pad, t.fields));
      NodeIsOneArg(lexis, t.name, Join(pad, PrintAll(pad, t.fields)));
      assert Print(pad, t)[0] == t.name[0] && lexis.isWord(t.name[0]);
      assert Print(pad, t)[|Print(pad, t)| - 1] == ')';
    }
  }

  lemma {:induction false} PrintsAreArgs(lexis: Lexis, pad: string, ts: seq<Tree>)
    requires lexis.Ok() && FitsAll(lexis, ts) && Blank(pad)
    ensures forall p :: p in PrintAll(pad, ts) ==> OneArg(p) && Trimmed(p)
    decreases ts, 1
  {
    if ts != [] {
      PrintIsOneArg(lexis, pad, ts[0]);
      PrintsAreArgs(lexis, pad, ts[1..]);
    }
  }

  // Splitting undoes joining

  lemma {:induction false} ArgTakesAll(n: Nest, pending: string, a: string, rest: string)
    requires Enclosed(n, a) && Run(n, a) == TOP && (rest == "" || rest[0] == ',')
    ensures Args(n, pending, a + rest) ==
      [Strip(pending + a)] + if rest == "" then [] else Args(TOP, "", rest[1..])
    decreases |a|
  {
    if a == "" {
      assert a + rest == rest && pending + a == pending;
    } else {
      assert (a + rest)[1..] == a[1..] + rest;
      assert pending + [a[0]] + a[1..] == pending + a;
      ArgTakesAll(Step(n, a[0]), pending + [a[0]], a[1..], rest);
    }
  }

  lemma StripLead(lead: string, s: string)
    requires Blank(lead) && Trimmed(s)
    ensures Strip(lead + s) == s
  {
    StripExactly(lead, s, "");
    assert lead + s + "" == lead + s;
  }

  lemma NextArg(lead: string, first: string, rest: string)
    requires Blank(lead) && OneArg(first) && Trimmed(first) && (rest == "" || rest[0] == ',')
    ensures Args(TOP, "", lead + (first + rest)) == [first] + if rest == "" then [] else Args(TOP, "", rest[1..])
  {
    BlankIsFlat(TOP, lead);
    RunJoins(TOP, lead, first);
    StripLead(lead, first);
    assert "" + (lead + first) == lead + first;
    assert lead + (first + rest) == lead + first + rest;
    ArgTakesAll(TOP, "", lead + first, rest);
  }

  lemma {:induction false} SplitUndoesJoin(pad: string, lead: string, parts: seq<string>)
    requires Blank(pad) && Blank(lead) && parts != [] && forall p :: p in parts ==> OneArg(p) && Trimmed(p)
    ensures Args(TOP, "", lead + Join(pad, parts)) == parts
    decreases |parts|
  {
    assert parts[0] in parts;
    if |parts| == 1 {
      assert parts[0] + "" == parts[0] == Join(pad, parts);
      NextArg(lead, parts[0], "");
    } else {
      var rest := "," + (pad + Join(pad, parts[1..]));
      assert rest[1..] == pad + Join(pad, parts[1..]);
      SplitUndoesJoin(pad, pad, parts[1..]);
      NextArg(lead, parts[0], rest);
      assert parts == [parts[0]] + parts[1..];
    }
  }

  // Parsing undoes printing

  lemma {:induction false} ParenAt(s: string, p: nat)
    requires p < |s| && s[p] == '(' && '(' !in s[..p]
    ensures Paren(s) == p
  {
    if p > 0 {
      assert s[..p][0] == s[0] && s[1..][..p - 1] == s[..p][1..];
      ParenAt(s[1..], p - 1);
    }
  }

  lemma SameLines(name: string, data: string)
    requires '\n' !in name
    ensures '\n' in name + "(" + data + ")" <==> '\n' in data
  {
    var text := name + "(" + data + ")";
    if '\n' in text {
      var i :| 0 <= i < |text| && text[i] == '\n';
      assert i > |name| && data[i - |name| - 1] == '\n';
    }
    if '\n' in data {
      LineInObject(name, data);
    }
  }

  lemma PrintedObject(lexis: Lexis, name: string, data: string)
    requires lexis.Ok() && name != "" && forall c :: c in name ==> lexis.isWord(c)
    ensures var text := name + "(" + data + ")";
      && '(' in text && text[|text| - 1] == ')' && Paren(text) == |name|
      && text[..|name|] == name && text[|name| + 1..|text| - 1] == data
      && (Object(lexis, text) <==> '\n' !in data)
      && !Listed(text)
      && ('\n' in text <==> '\n' in data)
  {
    var text := name + "(" + data + ")";
    WordsAreFlat(lexis, TOP, name);
    SameLines(name, data);
    assert text[|name|] == '(' && text[..|name|] == name;
    ParenAt(text, |name|);
    assert text[|name| + 1..|text| - 1] == data;
    assert text[0] == name[0] && lexis.isWord(name[0]);
  }

  lemma {:induction false} LineInJoin(pad: string, parts: seq<string>, part: string)
    requires part in parts && '\n' in part
    ensures '\n' in Join(pad, parts)
    decreases |parts|
  {
    if |parts| > 1 && part != parts[0] {
      LineInJoin(pad, parts[1..], part);
    }
  }

  lemma {:induction false} ParseUndoesPrint(lexis: Lexis, mapping: FieldNames, pad: string, t: Tree)
    requires lexis.Ok() && Fits(lexis, t) && Blank(pad) && (t.Leaf? || '\n' !in Print(pad, t))
    ensures ParseArg(lexis, mapping, Print(pad, t)) == Meaning(lexis, mapping, t)
    decreases t, 0
  {
    PrintIsOneArg(lexis, pad, t);
    if t.Node? {
      var parts := PrintAll(pad, t.fields);
      var data := Join(pad, parts);
      PrintedObject(lexis, t.name, data);
      PrintsAreArgs(lexis, pad, t.fields);
      assert "" + data == data;
      SplitUndoesJoin(pad, "", parts);
      ArgsAreShort(TOP, "", data);
      forall part | part in parts ensures '\n' !in part {
        if '\n' in part {
          LineInJoin(pad, parts, part);
        }
      }
      ParseUndoesPrints(lexis, mapping, pad, NamesOf(mapping, lexis.lower(t.name)), 0, t.fields, |data|);
    }
  }

  lemma {:induction false} ParseUndoesPrints(
    lexis: Lexis, mapping: FieldNames, pad: string, names: seq<string>, index: nat, ts: seq<Tree>, size: nat)
    requires lexis.Ok() && FitsAll(lexis, ts) && Blank(pad)
    requires forall part :: part in PrintAll(pad, ts) ==> |part| <= size && '\n' !in part
    ensures ParseAll(lexis, mapping, names, index, PrintAll(pad, ts), size)
         == MeaningAll(lexis, mapping, names, index, ts)
    decreases ts, 1
  {
    if ts != [] {
      var parts := PrintAll(pad, ts);
      assert parts[0] == Print(pad, ts[0]) && parts[1..] == PrintAll(pad, ts[1..]);
      ParseUndoesPrint(lexis, mapping, pad, ts[0]);
      ParseUndoesPrints(lexis, mapping, pad, names, index + 1, ts[1..], size);
    }
  }

  // What parsing tells apart, without a printer

  // A class name, its arguments in parentheses, and no line break among them.
  predicate IsObject(lexis: Lexis, text: string, name: string, data: string) {
    text == name + "(" + data + ")" && name != "" && '\n' !in data && forall c :: c in name ==> lexis.isWord(c)
  }

  lemma ObjectParts(lexis: Lexis, text: string)
    requires Object(lexis, text)
    ensures exists name, data :: IsObject(lexis, text, name, data)
  {
    var p := Paren(text);
    var name, data := text[..p], text[p + 1..|text| - 1];
    assert text == name + "(" + data + ")";
    assert IsObject(lexis, text, name, data);
  }

  // An argument is a list exactly if brackets enclose it, an object exactly if it is a class name with
  // parentheses on one line, and otherwise the text itself, with the whitespace around it gone.
  lemma KindsExactly(lexis: Lexis, mapping: FieldNames, lead: string, text: string, tail: string)
    requires lexis.Ok() && Trimmed(text) && Blank(lead) && Blank(tail)
    ensures var v := ParseArg(lexis, mapping, lead + text + tail);
      && (v == ListText(text) <==> text != "" && text[0] == '[' && text[|text| - 1] == ']')
      && (v.Dict? <==> exists name, data :: IsObject(lexis, text, name, data))
      && (v.Dict? || v == ListText(text) || v == Scalar(text))
  {
    StripExactly(lead, text, tail);
    if Object(lexis, text) {
      ObjectParts(lexis, text);
    }
    if name, data :| IsObject(lexis, text, name, data) {
      PrintedObject(lexis, name, data);
    }
  }

  // The key of an argument: the name its class lists for that place, `field_` and the place past them.
  predicate Called(names: seq<string>, index: nat, key: string) {
    if index < |names| then key == names[index]
    else |key| > 6 && key[..6] == "field_" && Numeral(key[6..]) && Read(key[6..]) == index
  }

  lemma CalledExactly(names: seq<string>, index: nat, key: string)
    ensures Called(names, index, key) <==> key == FieldName(names, index)
  {
    DecimalIsRead(index);
    if index >= |names| {
      var unlisted := "field_" + Decimal(index);
      assert unlisted[..6] == "field_" && unlisted[6..] == Decimal(index);
      if Called(names, index, key) {
        ReadIsDecimal(key[6..]);
        assert key == key[..6] + key[6..];
      }
    }
  }

  // The i-th of the arguments from place `index` on goes by the key.
  predicate CalledAt(names: seq<string>, index: nat, i: nat, key: string) {
    Called(names, index + i, key)
  }

  // And none after it does.
  ghost predicate LastCalled(names: seq<string>, index: nat, count: nat, i: nat, key: string) {
    i < count && CalledAt(names, index, i, key) && forall j: nat :: i < j < count ==> !CalledAt(names, index, j, key)
  }

  lemma {:induction false} KeysByPlace(
    lexis: Lexis, mapping: FieldNames, names: seq<string>, index: nat, ts: seq<Tree>, key: string)
    ensures key in MeaningAll(lexis, mapping, names, index, ts) <==>
            exists i: nat :: i < |ts| && CalledAt(names, index, i, key)
    decreases |ts|
  {
    if ts != [] {
      var next := index + 1;
      CalledExactly(names, index, key);
      KeysByPlace(lexis, mapping, names, next, ts[1..], key);
      if i: nat :| i < |ts| - 1 && CalledAt(names, next, i, key) {
        assert CalledAt(names, index, i + 1, key);
      }
      if i: nat :| i < |ts| && CalledAt(names, index, i, key) {
        assert i == 0 || CalledAt(names, next, i - 1, key);
        assert i == 0 ==> key == FieldName(names, index);
      } else {
        assert !CalledAt(names, index, 0, key);
      }
    }
  }

  lemma LastOfRest(names: seq<string>, index: nat, count: nat, i: nat, key: string)
    requires LastCalled(names, index, count, i, key) && i > 0
    ensures LastCalled(names, index + 1, count - 1, i - 1, key)
  {
    var next := index + 1;
    forall j: nat | i - 1 < j < count - 1 ensures !CalledAt(names, next, j, key) {
      assert !CalledAt(names, index, j + 1, key);
    }
  }

  lemma {:induction false} FieldByPlace(
    lexis: Lexis, mapping: FieldNames, names: seq<string>, index: nat, ts: seq<Tree>, i: nat, key: string)
    requires LastCalled(names, index, |ts|, i, key)
    ensures var m := MeaningAll(lexis, mapping, names, index, ts);
      key in m && m[key] == Meaning(lexis, mapping, ts[i])
    decreases |ts|
  {
    if i == 0 {
      CalledExactly(names, index, key);
      var next := index + 1;
      KeysByPlace(lexis, mapping, names, next, ts[1..], key);
      forall j: nat | j < |ts| - 1 ensures !CalledAt(names, next, j, key) {
        assert !CalledAt(names, index, j + 1, key);
      }
    } else {
      LastOfRest(names, index, |ts|, i, key);
      FieldByPlace(lexis, mapping, names, index + 1, ts[1..], i - 1, key);
    }
  }

  lemma PartHasNoLine(pad: string, name: string, fields: seq<Tree>, i: nat)
    requires i < |fields| && '\n' !in Print(pad, Node(name, fields))
    ensures '\n' !in Print(pad, fields[i]) && Print(pad, fields[i]) in PrintAll(pad, fields)
  {
    PrintedAt(pad, fields, i);
    if '\n' in Print(pad, fields[i]) {
      LineInJoin(pad, PrintAll(pad, fields), Print(pad, fields[i]));
      LineInObject(name, Join(pad, PrintAll(pad, fields)));
    }
  }

  lemma LineInObject(name: string, data: string)
    requires '\n' in data
    ensures '\n' in name + "(" + data + ")"
  {
    var i :| 0 <= i < |data| && data[i] == '\n';
    assert (name + "(" + data + ")")[|name| + 1 + i] == '\n';
  }

  lemma {:induction false} PrintedAt(pad: string, ts: seq<Tree>, i: nat)
    requires i < |ts|
    ensures PrintAll(pad, ts)[i] == Print(pad, ts[i])
  {
    if i > 0 {
      PrintedAt(pad, ts[1..], i - 1);
    }
  }

  lemma {:induction false} EachFits(lexis: Lexis, ts: seq<Tree>, i: nat)
    requires FitsAll(lexis, ts) && i < |ts|
    ensures Fits(lexis, ts[i])
  {
    if i > 0 {
      EachFits(lexis, ts[1..], i - 1);
    }
  }

  // The fields of a parsed object are those its class lists, in order, and `field_n` past them; each
  // holds what its own argument parses to, the last one where two share a name.
  lemma FieldsByPlace(lexis: Lexis, mapping: FieldNames, pad: string, t: Tree, i: nat, key: string)
    requires lexis.Ok() && Fits(lexis, t) && Blank(pad) && t.Node? && '\n' !in Print(pad, t)
    ensures var v := ParseArg(lexis, mapping, Print(pad, t));
      var names := if lexis.lower(t.name) in mapping then mapping[lexis.lower(t.name)] else [];
      && v.Dict?
      && (key in v.fields <==> exists n: nat :: n < |t.fields| && CalledAt(names, 0, n, key))
      && (LastCalled(names, 0, |t.fields|, i, key) ==>
            v.fields[key] == ParseArg(lexis, mapping, Print(pad, t.fields[i])))
  {
    ParseUndoesPrint(lexis, mapping, pad, t);
    var names := NamesOf(mapping, lexis.lower(t.name));
    KeysByPlace(lexis, mapping, names, 0, t.fields, key);
    if LastCalled(names, 0, |t.fields|, i, key) {
      FieldByPlace(lexis, mapping, names, 0, t.fields, i, key);
      PartHasNoLine(pad, t.name, t.fields, i);
      EachFits(lexis, t.fields, i);
      ParseUndoesPrint(lexis, mapping, pad, t.fields[i]);
    }
  }

  // Printing and parsing an object gives it back exactly when no leaf in it spans a line: the dot
  // of the source's pattern stops at a newline, and the whole object is then taken for a value.
  lemma RoundTripExactly(lexis: Lexis, mapping: FieldNames, pad: string, t: Tree)
    requires lexis.Ok() && Fits(lexis, t) && Blank(pad) && t.Node?
    ensures ParseArg(lexis, mapping, Print(pad, t)) == Meaning(lexis, mapping, t) <==> '\n' !in Print(pad, t)
  {
    if '\n' !in Print(pad, t) {
      ParseUndoesPrint(lexis, mapping, pad, t);
    } else {
      PrintIsOneArg(lexis, pad, t);
      PrintedObject(lexis, t.name, Join(pad, PrintAll(pad, t.fields)));
      assert ParseArg(lexis, mapping, Print(pad, t)).Scalar?;
    }
  }

  lemma LineIsLeaf(lexis: Lexis)
    ensures Fits(lexis, Leaf("a\nb"))
  {
    var s := "a\nb";
    assert s[1..] == "\nb" && s[1..][1..] == "b" && s[1..][1..][1..] == "";
    assert Step(TOP, 'a') == Step(TOP, '\n') == Step(TOP, 'b') == TOP;
    assert Enclosed(TOP, "b") && Run(TOP, "b") == TOP;
    assert Enclosed(TOP, "\nb") && Run(TOP, "\nb") == TOP;
  }

  lemma LineBreaksAnObject(lexis: Lexis, mapping: FieldNames)
    requires lexis.Ok() && lexis.isWord('A')
    ensures var t := Node("A", [Leaf("a\nb")]);
      && Fits(lexis, t)
      && ParseArg(lexis, mapping, Print("", t)) == Scalar("A(a\nb)")
  {
    var t := Node("A", [Leaf("a\nb")]);
    LineIsLeaf(lexis);
    assert t.fields[1..] == [];
    assert Print("", t) == "A(a\nb)";
    PrintIsOneArg(lexis, "", t);
    PrintedObject(lexis, "A", "a\nb");
  }
}
