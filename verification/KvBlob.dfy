/** The `key=value` log-trailer parser of tools/crypto_latency_harness.py.

    Where keys and values begin and end does not depend on `ast.literal_eval`: the grammar
    gives raw texts, and the parser then evaluates each value that evaluates.  The evaluation
    is a function given from outside. */
module KvBlob {
  import opened Options
  import opened PythonText

  datatype Pair = Pair(key: string, value: string)

  /** The characters each scan runs over. */
  datatype Class = Space | KeyText | Token

  predicate Is(cl: Class, c: char) {
    match cl
    case Space => IsSpace(c)
    case KeyText => c != '=' && c != ' ' && c != '\t'
    case Token => !IsSpace(c)
  }

  // ----- The grammar, by index ---------------------------------------------------------

  function ScanEnd(cl: Class, text: string, i: nat): (j: nat)
    requires i <= |text|
    ensures i <= j <= |text|
    decreases |text| - i
  {
    if i < |text| && Is(cl, text[i]) then ScanEnd(cl, text, i + 1) else i
  }

  function Delta(c: char): int { if c == '{' then 1 else if c == '}' then -1 else 0 }

  /** Just past the closing brace that brings the depth back to zero, or the end of the text. */
  function BraceEnd(text: string, i: nat, depth: int): (j: nat)
    requires i <= |text|
    ensures i <= j <= |text|
    decreases |text| - i
  {
    if i == |text| then i
    else if text[i] == '}' && depth == 1 then i + 1
    else BraceEnd(text, i + 1, depth + Delta(text[i]))
  }

  function ValueEnd(text: string, i: nat): (j: nat)
    requires i <= |text|
    ensures i <= j <= |text|
  {
    if i < |text| && text[i] == '{' then BraceEnd(text, i, 0) else ScanEnd(Token, text, i)
  }

  /** The pairs from index i on; parsing stops at the first word without `=`. */
  function ParseFrom(text: string, i: nat): seq<Pair>
    requires i <= |text|
    decreases |text| - i
  {
    var a := ScanEnd(Space, text, i);
    var k := ScanEnd(KeyText, text, a);
    if k == |text| || text[k] != '=' then []
    else
      var v := ValueEnd(text, k + 1);
      [Pair(text[a..k], text[k + 1..v])] + ParseFrom(text, v)
  }

  /** Assigning the pairs one after the other to a dictionary. */
  function Assign(m: map<string, string>, ps: seq<Pair>): map<string, string>
    decreases |ps|
  {
    if ps == [] then m else Assign(m[ps[0].key := ps[0].value], ps[1..])
  }

  lemma AssignHead(m: map<string, string>, p: Pair, rest: seq<Pair>)
    ensures Assign(m, [p] + rest) == Assign(m[p.key := p.value], rest)
  {}

  // ----- The index-moving loops ----------------------------------------------------------

  method ReadBraces(text: string, start: nat) returns (i: nat)
    requires start < |text| && text[start] == '{'
    ensures i == BraceEnd(text, start, 0)
  {
    i := start;
    var depth := 0;
    while i < |text|
      invariant start <= i <= |text|
      invariant BraceEnd(text, i, depth) == BraceEnd(text, start, 0)
    {
      var ch := text[i];
      if ch == '{' {
        depth := depth + 1;
      } else if ch == '}' {
        depth := depth - 1;
        if depth == 0 {
          i := i + 1;
          break;
        }
      }
      i := i + 1;
    }
  }

  method ReadValue(text: string, start: nat) returns (i: nat)
    requires start <= |text|
    ensures i == ValueEnd(text, start)
  {
    if start < |text| && text[start] == '{' {
      i := ReadBraces(text, start);
    } else {
      i := start;
      while i < |text| && !IsSpace(text[i])
        invariant start <= i <= |text| && ScanEnd(Token, text, i) == ScanEnd(Token, text, start)
      {
        i := i + 1;
      }
    }
  }

  method SkipSpaces(text: string, start: nat) returns (i: nat)
    requires start <= |text|
    ensures i == ScanEnd(Space, text, start)
  {
    i := start;
    while i < |text| && IsSpace(text[i])
      invariant start <= i <= |text| && ScanEnd(Space, text, i) == ScanEnd(Space, text, start)
    {
      i := i + 1;
    }
  }

  method ReadKey(text: string, start: nat) returns (i: nat)
    requires start <= |text|
    ensures i == ScanEnd(KeyText, text, start)
  {
    i := start;
    while i < |text| && text[i] != '=' && text[i] != ' ' && text[i] != '\t'
      invariant start <= i <= |text| && ScanEnd(KeyText, text, i) == ScanEnd(KeyText, text, start)
    {
      i := i + 1;
    }
  }

  /** One turn of the outer loop; `found` is false where the source breaks out of it. */
  method ReadPair(text: string, start: nat) returns (found: bool, pair: Pair, i: nat)
    requires start <= |text|
    ensures found ==> start < i <= |text| && ParseFrom(text, start) == [pair] + ParseFrom(text, i)
    ensures !found ==> ParseFrom(text, start) == []
  {
    found, pair := false, Pair("", "");
    i := SkipSpaces(text, start);
    var keyStart := i;
    i := ReadKey(text, i);
    if i >= |text| || text[i] != '=' {
      return;
    }
    var key := text[keyStart..i];
    i := i + 1;
    var valueStart := i;
    i := ReadValue(text, i);
    found, pair := true, Pair(key, text[valueStart..i]);
    UnfoldAt(text, start, keyStart, valueStart - 1, i);
  }

  /** A stored value: the Python literal it evaluates to, or its text. */
  datatype Value<L> = Literal(literal: L) | Raw(text: string)

  function ValueOf<L>(evaluate: string -> Option<L>, text: string): Value<L> {
    var l := evaluate(text);
    if l.Some? then Literal(l.value) else Raw(text)
  }

  function Evaluated<L>(evaluate: string -> Option<L>, raw: map<string, string>): map<string, Value<L>> {
    map k <- raw :: ValueOf(evaluate, raw[k])
  }

  lemma EvaluatedPut<L>(evaluate: string -> Option<L>, raw: map<string, string>, p: Pair)
    ensures Evaluated(evaluate, raw[p.key := p.value]) == Evaluated(evaluate, raw)[p.key := ValueOf(evaluate, p.value)]
  {}

  /** `_parse_kv_blob`: ends on every string. */
  method ParseKvBlob<L>(text: string, evaluate: string -> Option<L>) returns (out: map<string, Value<L>>)
    ensures out == Evaluated(evaluate, Assign(map[], ParseFrom(text, 0)))
    ensures var raw := Assign(map[], ParseFrom(text, 0));
            out.Keys == raw.Keys && forall k <- raw ::
              match evaluate(raw[k])
              case Some(literal) => out[k] == Literal(literal)
              case None => out[k] == Raw(raw[k])
  {
    out := map[];
    ghost var raw: map<string, string> := map[];
    var i := 0;
    while i < |text|
      invariant i <= |text| && Assign(raw, ParseFrom(text, i)) == Assign(map[], ParseFrom(text, 0))
      invariant out == Evaluated(evaluate, raw)
    {
      var found, pair, next := ReadPair(text, i);
      if !found {
        break;
      }
      AssignHead(raw, pair, ParseFrom(text, next));
      EvaluatedPut(evaluate, raw, pair);
      out, raw := out[pair.key := ValueOf(evaluate, pair.value)], raw[pair.key := pair.value];
      i := next;
    }
    ParseAtEnd(text);
  }

  lemma ParseAtEnd(text: string)
    ensures ParseFrom(text, |text|) == []
  {}

  // ----- Later duplicates win ---------------------------------------------------------------

  ghost predicate LastOccurrence(ps: seq<Pair>, key: string, i: nat) {
    i < |ps| && ps[i].key == key && forall j :: i < j < |ps| ==> ps[j].key != key
  }

  lemma FirstIsLast(ps: seq<Pair>, key: string)
    requires LastOccurrence(ps, key, 0)
    ensures forall p <- ps[1..] :: p.key != key
  {}

  lemma {:induction false} AbsentKeyKept(m: map<string, string>, ps: seq<Pair>, key: string)
    requires forall p <- ps :: p.key != key
    ensures key in Assign(m, ps) <==> key in m
    ensures key in m ==> Assign(m, ps)[key] == m[key]
    decreases |ps|
  {
    if ps != [] {
      AbsentKeyKept(m[ps[0].key := ps[0].value], ps[1..], key);
    }
  }

  lemma {:induction false} LastWins(m: map<string, string>, ps: seq<Pair>, key: string, i: nat)
    requires LastOccurrence(ps, key, i)
    ensures key in Assign(m, ps) && Assign(m, ps)[key] == ps[i].value
    decreases |ps|
  {
    var m', tail := m[ps[0].key := ps[0].value], ps[1..];
    if i == 0 {
      FirstIsLast(ps, key);
      AbsentKeyKept(m', tail, key);
    } else {
      LastWins(m', tail, key, i - 1);
    }
  }

  /** After the assignments each key of the pairs has its last value and other keys are as before. */
  lemma LaterDuplicatesWin(m: map<string, string>, ps: seq<Pair>, key: string)
    ensures forall i: nat :: LastOccurrence(ps, key, i) ==> key in Assign(m, ps) && Assign(m, ps)[key] == ps[i].value
    ensures (forall p <- ps :: p.key != key) ==>
              (key in Assign(m, ps) <==> key in m) && (key in m ==> Assign(m, ps)[key] == m[key])
  {
    forall i: nat | LastOccurrence(ps, key, i) ensures key in Assign(m, ps) && Assign(m, ps)[key] == ps[i].value {
      LastWins(m, ps, key, i);
    }
    if forall p <- ps :: p.key != key {
      AbsentKeyKept(m, ps, key);
    }
  }

  // ----- Rendering ------------------------------------------------------------------------------

  /** Opening minus closing braces. */
  function Depth(s: string): int {
    if s == "" then 0
    else
      var init := Depth(s[..|s| - 1]);
      match s[|s| - 1]
      case '{' => init + 1
      case '}' => init - 1
      case _ => init
  }

  predicate KeyOk(k: string) {
    (forall c <- k :: c != '=' && c != ' ' && c != '\t') && (k != "" ==> !IsSpace(k[0]))
  }

  predicate IsToken(v: string) {
    (forall c <- v :: !IsSpace(c)) && (v != "" ==> v[0] != '{')
  }

  /** Starts with a brace that stays open strictly inside the text. */
  predicate Opened(v: string) {
    v != "" && v[0] == '{' && forall i :: 0 < i < |v| ==> Depth(v[..i]) > 0
  }

  predicate Balanced(v: string) { Opened(v) && Depth(v) == 0 }

  /** A brace that is never closed runs to the end of the text, so it can only come last. */
  predicate Unclosed(v: string) { Opened(v) && Depth(v) > 0 }

  predicate Renderable(ps: seq<Pair>) {
    forall i :: 0 <= i < |ps| ==> PairOk(ps[i], i == |ps| - 1)
  }

  predicate PairOk(p: Pair, last: bool) {
    KeyOk(p.key) && (IsToken(p.value) || Balanced(p.value) || (last && Unclosed(p.value)))
  }

  function RenderOne(p: Pair): string { p.key + "=" + p.value }

  function Render(ps: seq<Pair>): string {
    if ps == [] then ""
    else if |ps| == 1 then RenderOne(ps[0])
    else RenderOne(ps[0]) + " " + Render(ps[1..])
  }

  // ----- Round trip --------------------------------------------------------------------------------

  /** Word w stands at index i of the text. */
  ghost predicate At(text: string, i: nat, w: string) {
    i + |w| <= |text| && forall x {:trigger w[x]} :: 0 <= x < |w| ==> text[i + x] == w[x]
  }

  lemma AtSlice(text: string, i: nat, w: string)
    requires i + |w| <= |text|
    ensures At(text, i, w) <==> text[i..i + |w|] == w
  {}

  lemma AtParts(text: string, i: nat, u: string, w: string)
    requires At(text, i, u + w)
    ensures At(text, i, u) && At(text, i + |u|, w)
  {
    forall x | 0 <= x < |u| ensures text[i + x] == u[x] {
      assert (u + w)[x] == u[x];
    }
    forall x | 0 <= x < |w| ensures text[i + |u| + x] == w[x] {
      assert (u + w)[|u| + x] == w[x];
    }
  }

  lemma {:induction false} ScanIs(cl: Class, text: string, i: nat, j: nat)
    requires i <= j <= |text| && (forall x :: i <= x < j ==> Is(cl, text[x])) && (j < |text| ==> !Is(cl, text[j]))
    ensures ScanEnd(cl, text, i) == j
    decreases j - i
  {
    if i < j {
      ScanIs(cl, text, i + 1, j);
    }
  }

  lemma ScanWord(cl: Class, text: string, i: nat, w: string)
    requires At(text, i, w) && (forall c <- w :: Is(cl, c))
    requires i + |w| < |text| ==> !Is(cl, text[i + |w|])
    ensures ScanEnd(cl, text, i) == i + |w|
  {
    forall x | i <= x < i + |w| ensures Is(cl, text[x]) {
      assert w[x - i] in w;
    }
    ScanIs(cl, text, i, i + |w|);
  }

  lemma DepthStep(v: string, i: nat)
    requires i < |v|
    ensures Depth(v[..i + 1]) == Depth(v[..i]) + Delta(v[i])
  {
    assert v[..i + 1][..i] == v[..i];
  }

  /** The brace loop, i characters into a value that is still open there. */
  lemma {:induction false} BraceEnds(text: string, b: nat, v: string, i: nat)
    requires At(text, b, v)
    requires (Balanced(v) && i < |v|) || (Unclosed(v) && b + |v| == |text| && i <= |v|)
    ensures BraceEnd(text, b + i, Depth(v[..i])) == b + |v|
    decreases |v| - i
  {
    if i < |v| {
      DepthStep(v, i);
      assert text[b + i] == v[i];
      assert i + 1 == |v| ==> v[..i + 1] == v;
      if Unclosed(v) || i + 1 < |v| {
        BraceEnds(text, b, v, i + 1);
      }
    }
  }

  lemma ValueEnds(text: string, b: nat, v: string)
    requires At(text, b, v) && (b + |v| < |text| ==> IsSpace(text[b + |v|]))
    requires IsToken(v) || Balanced(v) || (b + |v| == |text| && Unclosed(v))
    ensures ValueEnd(text, b) == b + |v|
  {
    assert v != "" ==> text[b] == v[0];
    if IsToken(v) {
      ScanWord(Token, text, b, v);
      SpaceFacts();
    } else {
      assert v[..0] == "";
      BraceEnds(text, b, v, 0);
    }
  }

  lemma PairLayout(text: string, a: nat, p: Pair)
    requires At(text, a, RenderOne(p))
    ensures var k := a + |p.key|;
            && At(text, a, p.key) && k < |text| && text[k] == '=' && At(text, k + 1, p.value)
            && |RenderOne(p)| == |p.key| + 1 + |p.value| && text[a] == (if p.key == "" then '=' else p.key[0])
  {
    AtParts(text, a, p.key + "=", p.value);
    AtParts(text, a, p.key, "=");
    assert "="[0] == '=';
    assert p.key != "" ==> text[a + 0] == p.key[0];
  }

  /** Where the scans stop on one rendered pair, possibly after one space. */
  lemma PairEnds(text: string, i: nat, a: nat, p: Pair)
    requires a <= |text| && (i == a || (i + 1 == a && text[i] == ' ')) && At(text, a, RenderOne(p))
    requires var j := a + |RenderOne(p)|; PairOk(p, j == |text|) && (j < |text| ==> IsSpace(text[j]))
    ensures var k := a + |p.key|;
            && ScanEnd(Space, text, i) == a && ScanEnd(KeyText, text, a) == k && text[k] == '='
            && ValueEnd(text, k + 1) == k + 1 + |p.value|
            && text[a..k] == p.key && text[k + 1..k + 1 + |p.value|] == p.value
  {
    SpaceFacts();
    var k := a + |p.key|;
    PairLayout(text, a, p);
    ScanIs(Space, text, i, a);
    ScanWord(KeyText, text, a, p.key);
    ValueEnds(text, k + 1, p.value);
    AtSlice(text, a, p.key);
    AtSlice(text, k + 1, p.value);
  }

  lemma ParseOne(text: string, i: nat, a: nat, p: Pair)
    requires a <= |text| && (i == a || (i + 1 == a && text[i] == ' ')) && At(text, a, RenderOne(p))
    requires var j := a + |RenderOne(p)|; PairOk(p, j == |text|) && (j < |text| ==> IsSpace(text[j]))
    ensures ParseFrom(text, i) == [p] + ParseFrom(text, a + |RenderOne(p)|)
  {
    PairEnds(text, i, a, p);
    var k := a + |p.key|;
    UnfoldAt(text, i, a, k, k + 1 + |p.value|);
  }

  lemma ParseFirst(text: string, i: nat, a: nat, p: Pair)
    requires a <= |text| && (i == a || (i + 1 == a && text[i] == ' ')) && At(text, a, RenderOne(p))
    requires a + |RenderOne(p)| < |text| && text[a + |RenderOne(p)|] == ' ' && PairOk(p, false)
    ensures ParseFrom(text, i) == [p] + ParseFrom(text, a + |RenderOne(p)|)
  {
    SpaceFacts();
    ParseOne(text, i, a, p);
  }

  lemma ParseLast(text: string, i: nat, a: nat, p: Pair)
    requires a <= |text| && (i == a || (i + 1 == a && text[i] == ' ')) && At(text, a, RenderOne(p))
    requires a + |RenderOne(p)| == |text| && PairOk(p, true)
    ensures ParseFrom(text, i) == [p]
  {
    ParseOne(text, i, a, p);
    ParseAtEnd(text);
  }

  lemma UnfoldAt(text: string, i: nat, a: nat, k: nat, v: nat)
    requires i <= |text| && a <= k < |text| && text[k] == '=' && k < v <= |text|
    requires ScanEnd(Space, text, i) == a && ScanEnd(KeyText, text, a) == k && ValueEnd(text, k + 1) == v
    ensures ParseFrom(text, i) == [Pair(text[a..k], text[k + 1..v])] + ParseFrom(text, v)
  {}

  lemma {:induction false} RenderParseAt(text: string, i: nat, a: nat, ps: seq<Pair>)
    requires Renderable(ps) && (i == a || (i + 1 == a && i < |text| && text[i] == ' '))
    requires At(text, a, Render(ps)) && a + |Render(ps)| == |text| && (ps == [] ==> i == a)
    ensures ParseFrom(text, i) == ps
    decreases |ps|
  {
    if ps == [] {
      ParseAtEnd(text);
    } else if |ps| == 1 {
      ParseLast(text, i, a, ps[0]);
    } else {
      var j := a + |RenderOne(ps[0])|;
      RenderHead(text, i, a, ps);
      RenderParseAt(text, j, j + 1, ps[1..]);
      assert [ps[0]] + ps[1..] == ps;
    }
  }

  lemma RenderHead(text: string, i: nat, a: nat, ps: seq<Pair>)
    requires |ps| > 1 && Renderable(ps) && (i == a || (i + 1 == a && i < |text| && text[i] == ' '))
    requires At(text, a, Render(ps)) && a + |Render(ps)| == |text|
    ensures var j := a + |RenderOne(ps[0])|;
            && j < |text| && text[j] == ' ' && ParseFrom(text, i) == [ps[0]] + ParseFrom(text, j)
            && Renderable(ps[1..]) && At(text, j + 1, Render(ps[1..])) && j + 1 + |Render(ps[1..])| == |text|
  {
    RenderLayout(text, a, ps);
    TailRenderable(ps);
    ParseFirst(text, i, a, ps[0]);
  }

  lemma RenderLayout(text: string, a: nat, ps: seq<Pair>)
    requires |ps| > 1 && At(text, a, Render(ps))
    ensures var j := a + |RenderOne(ps[0])|;
            && At(text, a, RenderOne(ps[0])) && text[j] == ' ' && At(text, j + 1, Render(ps[1..]))
            && |Render(ps)| == |RenderOne(ps[0])| + 1 + |Render(ps[1..])|
  {
    var w := RenderOne(ps[0]);
    AtParts(text, a, w + " ", Render(ps[1..]));
    AtParts(text, a, w, " ");
    assert " "[0] == ' ';
  }

  lemma TailRenderable(ps: seq<Pair>)
    requires Renderable(ps) && |ps| > 1
    ensures Renderable(ps[1..]) && PairOk(ps[0], false)
  {}

  /** Rendering any list of well-formed pairs, then parsing, gives back the same list. */
  lemma RenderParse(ps: seq<Pair>)
    requires Renderable(ps)
    ensures ParseFrom(Render(ps), 0) == ps
  {
    RenderParseAt(Render(ps), 0, 0, ps);
  }

  // ----- Every text has a normal form -------------------------------------------------------------------

  lemma {:induction false} ScanMeans(cl: Class, text: string, i: nat)
    requires i <= |text|
    ensures var j := ScanEnd(cl, text, i);
            (forall c <- text[i..j] :: Is(cl, c)) && (j < |text| ==> !Is(cl, text[j]))
    decreases |text| - i
  {
    var j := ScanEnd(cl, text, i);
    if i < j {
      ScanMeans(cl, text, i + 1);
      assert text[i..j] == [text[i]] + text[i + 1..j];
    }
  }

  lemma OpenedSlice(text: string, b: nat, n: nat)
    requires b < n <= |text| && text[b] == '{' && forall x :: b < x < n ==> Depth(text[b..x]) > 0
    ensures Opened(text[b..n])
  {
    var v := text[b..n];
    forall x | 0 < x < |v| ensures Depth(v[..x]) > 0 {
      assert v[..x] == text[b..b + x];
    }
  }

  lemma DepthSlice(text: string, b: nat, i: nat)
    requires b <= i < |text|
    ensures Depth(text[b..i + 1]) == Depth(text[b..i]) + Delta(text[i])
  {
    assert text[b..i + 1][..i - b] == text[b..i];
  }

  /** Where the brace loop stops, the value is balanced, or the text has run out. */
  lemma {:induction false} BraceFinds(text: string, b: nat, i: nat)
    requires b < |text| && b <= i <= |text| && text[b] == '{' && (i == b || Depth(text[b..i]) > 0)
    requires forall x :: b < x < i ==> Depth(text[b..x]) > 0
    ensures var n := BraceEnd(text, i, Depth(text[b..i]));
            b <= n && (Balanced(text[b..n]) || (n == |text| && Unclosed(text[b..n])))
    decreases |text| - i
  {
    if i == |text| {
      OpenedSlice(text, b, i);
    } else {
      DepthSlice(text, b, i);
      if text[i] == '}' && Depth(text[b..i]) == 1 {
        OpenedSlice(text, b, i + 1);
      } else {
        BraceFinds(text, b, i + 1);
      }
    }
  }

  lemma ValueFound(text: string, b: nat)
    requires b <= |text|
    ensures var n := ValueEnd(text, b);
            IsToken(text[b..n]) || Balanced(text[b..n]) || (n == |text| && Unclosed(text[b..n]))
  {
    if b < |text| && text[b] == '{' {
      assert text[b..b] == "";
      BraceFinds(text, b, b);
    } else {
      ScanMeans(Token, text, b);
    }
  }

  lemma PairFound(text: string, i: nat, a: nat, k: nat, v: nat)
    requires i <= |text| && a <= k < |text| && text[k] == '=' && k < v <= |text|
    requires ScanEnd(Space, text, i) == a && ScanEnd(KeyText, text, a) == k && ValueEnd(text, k + 1) == v
    ensures PairOk(Pair(text[a..k], text[k + 1..v]), v == |text|)
  {
    ScanMeans(Space, text, i);
    ScanMeans(KeyText, text, a);
    ValueFound(text, k + 1);
  }

  lemma {:induction false} ParsedIsRenderable(text: string, i: nat)
    requires i <= |text|
    ensures Renderable(ParseFrom(text, i))
    decreases |text| - i
  {
    var a := ScanEnd(Space, text, i);
    var k := ScanEnd(KeyText, text, a);
    if k < |text| && text[k] == '=' {
      var v := ValueEnd(text, k + 1);
      var p, tail := Pair(text[a..k], text[k + 1..v]), ParseFrom(text, v);
      PairFound(text, i, a, k, v);
      UnfoldAt(text, i, a, k, v);
      ParsedIsRenderable(text, v);
      if v == |text| {
        ParseAtEnd(text);
      }
      PrependOk(p, tail, v == |text|);
    }
  }

  lemma PrependOk(p: Pair, tail: seq<Pair>, last: bool)
    requires PairOk(p, last) && Renderable(tail) && (last ==> tail == [])
    ensures Renderable([p] + tail)
  {}

  /** For every text: rendering what was parsed and parsing it again changes nothing. */
  lemma ParseRenderParse(text: string)
    ensures Renderable(ParseFrom(text, 0))
    ensures ParseFrom(Render(ParseFrom(text, 0)), 0) == ParseFrom(text, 0)
  {
    ParsedIsRenderable(text, 0);
    RenderParse(ParseFrom(text, 0));
  }
}
