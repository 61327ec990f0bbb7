/**
 Message templates: the placeholder pattern {{ name }}, rendering by replacement, extraction of the variable names and
 the list of names stored with a template.
 */
module Templates {
  import opened Wrappers

  // JavaScript's \s, which is also what trim() removes.
  predicate IsSpace(c: char) {
    var n := c as int;
    9 <= n <= 13 || n == 32 || n == 0xA0 || n == 0x1680 || 0x2000 <= n <= 0x200A
    || n == 0x2028 || n == 0x2029 || n == 0x202F || n == 0x205F || n == 0x3000 || n == 0xFEFF
  }

  // [\w.-]
  predicate IsNameChar(c: char) {
    'a' <= c <= 'z' || 'A' <= c <= 'Z' || '0' <= c <= '9' || c == '_' || c == '.' || c == '-'
  }

  predicate AllSpace(s: string) {
    forall i | 0 <= i < |s| :: IsSpace(s[i])
  }

  predicate IsName(s: string) {
    s != "" && forall i | 0 <= i < |s| :: IsNameChar(s[i])
  }

  /** The pattern by itself: the text is {{, spaces, the name, spaces, }}. */
  ghost predicate IsPlaceholder(text: string, name: string) {
    exists before: string, after: string :: IsSpaced(text, before, name, after)
  }

  predicate IsSpaced(text: string, before: string, name: string, after: string) {
    AllSpace(before) && AllSpace(after) && IsName(name) && text == "{{" + before + name + after + "}}"
  }

  // ------------------------------------------------------------ matching

  function SpaceEnd(t: string, i: nat): (j: nat)
    requires i <= |t|
    ensures i <= j <= |t|
    decreases |t| - i
  {
    if i < |t| && IsSpace(t[i]) then SpaceEnd(t, i + 1) else i
  }

  function NameEnd(t: string, i: nat): (j: nat)
    requires i <= |t|
    ensures i <= j <= |t|
    decreases |t| - i
  {
    if i < |t| && IsNameChar(t[i]) then NameEnd(t, i + 1) else i
  }

  datatype Match = Match(name: string, end: nat)

  function MatchAt(t: string, i: nat): (m: Option<Match>)
    requires i <= |t|
    ensures m.Some? ==> i < m.value.end <= |t|
  {
    if i + 2 <= |t| && t[i] == '{' && t[i + 1] == '{' then
      var a := SpaceEnd(t, i + 2);
      var b := NameEnd(t, a);
      var c := SpaceEnd(t, b);
      if a < b && c + 2 <= |t| && t[c] == '}' && t[c + 1] == '}' then
        Some(Match(t[a..b], c + 2))
      else None
    else None
  }

  lemma MatchIsPlaceholder(t: string, i: nat)
    requires i <= |t| && MatchAt(t, i).Some?
    ensures IsPlaceholder(t[i..MatchAt(t, i).value.end], MatchAt(t, i).value.name)
  {
    var a := SpaceEnd(t, i + 2);
    var b := NameEnd(t, a);
    SpaceEndSkips(t, i + 2);
    NameEndSkips(t, a);
    SpaceEndSkips(t, b);
    PartsAreAPlaceholder(t, i, a, b, SpaceEnd(t, b));
  }

  lemma {:induction false} SpaceEndSkips(t: string, i: nat)
    requires i <= |t|
    ensures forall k | i <= k < SpaceEnd(t, i) :: IsSpace(t[k])
    decreases |t| - i
  {
    if i == |t| || !IsSpace(t[i]) {
    } else {
      SpaceEndSkips(t, i + 1);
    }
  }

  lemma {:induction false} NameEndSkips(t: string, i: nat)
    requires i <= |t|
    ensures forall k | i <= k < NameEnd(t, i) :: IsNameChar(t[k])
    decreases |t| - i
  {
    if i == |t| || !IsNameChar(t[i]) {
    } else {
      NameEndSkips(t, i + 1);
    }
  }

  lemma PartsAreAPlaceholder(t: string, i: nat, a: nat, b: nat, c: nat)
    requires i + 2 <= a < b <= c && c + 2 <= |t|
    requires t[i] == '{' && t[i + 1] == '{' && t[c] == '}' && t[c + 1] == '}'
    requires forall k | i + 2 <= k < a || b <= k < c :: IsSpace(t[k])
    requires forall k | a <= k < b :: IsNameChar(t[k])
    ensures IsPlaceholder(t[i..c + 2], t[a..b])
  {
    JoinParts(t, i, a, b, c);
    assert IsSpaced(t[i..c + 2], t[i + 2..a], t[a..b], t[b..c]);
  }

  lemma JoinParts(t: string, i: nat, a: nat, b: nat, c: nat)
    requires i + 2 <= a < b <= c && c + 2 <= |t|
    requires t[i] == '{' && t[i + 1] == '{' && t[c] == '}' && t[c + 1] == '}'
    ensures t[i..c + 2] == "{{" + t[i + 2..a] + t[a..b] + t[b..c] + "}}"
  {
    assert t[i..i + 2] == "{{" && t[c..c + 2] == "}}";
    Slices(t, i, i + 2, a);
    Slices(t, i, a, b);
    Slices(t, i, b, c);
    Slices(t, i, c, c + 2);
  }

  lemma Slices(t: string, i: nat, j: nat, k: nat)
    requires i <= j <= k <= |t|
    ensures t[i..k] == t[i..j] + t[j..k]
  {
  }

  lemma SplitSlice(t: string, i: nat, end: nat, u: string, v: string)
    requires i <= end <= |t| && t[i..end] == u + v
    ensures i + |u| + |v| == end && t[i..i + |u|] == u && t[i + |u|..end] == v
  {
    assert t[i..end][..|u|] == t[i..i + |u|];
    assert t[i..end][|u|..] == t[i + |u|..end];
    assert (u + v)[..|u|] == u;
    assert (u + v)[|u|..] == v;
  }

  /** Wherever the pattern holds of some stretch, the matcher finds that stretch and that name, and no other. */
  lemma MatchIsComplete(t: string, i: nat, end: nat, name: string)
    requires i <= end <= |t| && IsPlaceholder(t[i..end], name)
    ensures MatchAt(t, i) == Some(Match(name, end))
  {
    var before: string, after: string :| IsSpaced(t[i..end], before, name, after);
    var a, b, c := SplitPlaceholder(t, i, end, before, name, after);
    MatchesParts(t, i, a, b, c);
  }

  lemma SplitPlaceholder(
    t: string, i: nat, end: nat, before: string, name: string, after: string) returns (a: nat, b: nat, c: nat)
    requires i <= end <= |t| && t[i..end] == "{{" + before + name + after + "}}"
    ensures i + 2 <= a <= b <= c && c + 2 == end && b - a == |name|
    ensures t[i..i + 2] == "{{" && t[i + 2..a] == before && t[a..b] == name && t[b..c] == after && t[c..c + 2] == "}}"
  {
    SplitSlice(t, i, end, "{{" + before + name + after, "}}");
    c := end - 2;
    SplitSlice(t, i, c, "{{" + before + name, after);
    b := c - |after|;
    SplitSlice(t, i, b, "{{" + before, name);
    a := b - |name|;
    SplitSlice(t, i, a, "{{", before);
  }

  /**
   The matcher succeeds exactly where some stretch fits the pattern; so text that scanning copies holds no
   placeholder.
   */
  lemma MatchIff(t: string, i: nat)
    requires i <= |t|
    ensures MatchAt(t, i).Some? <==> exists end: nat, name: string :: i <= end <= |t| && IsPlaceholder(t[i..end], name)
  {
    if MatchAt(t, i).Some? {
      MatchIsPlaceholder(t, i);
    }
    if end: nat, name: string :| i <= end <= |t| && IsPlaceholder(t[i..end], name) {
      MatchIsComplete(t, i, end, name);
    }
  }

  lemma MatchesParts(t: string, i: nat, a: nat, b: nat, c: nat)
    requires i + 2 <= a < b <= c && c + 2 <= |t|
    requires t[i..i + 2] == "{{" && AllSpace(t[i + 2..a]) && IsName(t[a..b]) && AllSpace(t[b..c]) && t[c..c + 2] == "}}"
    ensures MatchAt(t, i) == Some(Match(t[a..b], c + 2))
  {
    assert t[i] == t[i..i + 2][0] && t[i + 1] == t[i..i + 2][1];
    assert t[c] == t[c..c + 2][0] && t[c + 1] == t[c..c + 2][1];
    assert forall k | i + 2 <= k < a :: t[k] == t[i + 2..a][k - i - 2];
    assert forall k | a <= k < b :: t[k] == t[a..b][k - a];
    assert forall k | b <= k < c :: t[k] == t[b..c][k - b];
    SpaceEndIs(t, i + 2, a);
    NameEndIs(t, a, b);
    SpaceEndIs(t, b, c);
  }

  lemma {:induction false} SpaceEndIs(t: string, i: nat, j: nat)
    requires i <= j <= |t| && (forall k | i <= k < j :: IsSpace(t[k])) && (j < |t| ==> !IsSpace(t[j]))
    ensures SpaceEnd(t, i) == j
    decreases j - i
  {
    if i == j {
    } else {
      SpaceEndIs(t, i + 1, j);
    }
  }

  lemma {:induction false} NameEndIs(t: string, i: nat, j: nat)
    requires i <= j <= |t| && (forall k | i <= k < j :: IsNameChar(t[k])) && (j < |t| ==> !IsNameChar(t[j]))
    ensures NameEnd(t, i) == j
    decreases j - i
  {
    if i == j {
    } else {
      NameEndIs(t, i + 1, j);
    }
  }

  // ------------------------------------------------------------- scanning

  datatype Piece = Text(source: string) | Hole(source: string, name: string)

  function Scan(t: string, i: nat): seq<Piece>
    requires i <= |t|
    decreases |t| - i
  {
    if i == |t| then [] else
    var m := MatchAt(t, i);
    if m.Some? then [Hole(t[i..m.value.end], m.value.name)] + Scan(t, m.value.end)
    else [Text([t[i]])] + Scan(t, i + 1)
  }

  function Source(pieces: seq<Piece>): string {
    if pieces == [] then "" else pieces[0].source + Source(pieces[1..])
  }

  lemma ScanStep(t: string, i: nat)
    requires i < |t|
    ensures Scan(t, i) != []
    ensures MatchAt(t, i).Some? ==>
      Scan(t, i)[0] == Hole(t[i..MatchAt(t, i).value.end], MatchAt(t, i).value.name)
      && Scan(t, i)[1..] == Scan(t, MatchAt(t, i).value.end)
    ensures MatchAt(t, i).None? ==> Scan(t, i)[0] == Text([t[i]]) && Scan(t, i)[1..] == Scan(t, i + 1)
  {
  }

  lemma Cut(t: string, i: nat, j: nat)
    requires i <= j <= |t|
    ensures t[i..j] + t[j..] == t[i..]
  {
  }

  lemma ScanHead(t: string, i: nat) returns (next: nat)
    requires i < |t|
    ensures i < next <= |t| && Scan(t, i) != []
    ensures Scan(t, i)[0].source == t[i..next] && Scan(t, i)[1..] == Scan(t, next)
  {
    ScanStep(t, i);
    next := if MatchAt(t, i).Some? then MatchAt(t, i).value.end else i + 1;
  }

  lemma FirstSource(t: string, i: nat, next: nat, pieces: seq<Piece>)
    requires i <= next <= |t| && pieces != []
    requires pieces[0].source == t[i..next] && Source(pieces[1..]) == t[next..]
    ensures Source(pieces) == t[i..]
  {
    Cut(t, i, next);
  }

  /** Scanning loses nothing: the pieces' source text is the template again. */
  lemma {:induction false} ScanKeepsSource(t: string, i: nat)
    requires i <= |t|
    ensures Source(Scan(t, i)) == t[i..]
    decreases |t| - i
  {
    if i == |t| {
    } else {
      var next := ScanHead(t, i);
      ScanKeepsSource(t, next);
      FirstSource(t, i, next, Scan(t, i));
    }
  }

  // ------------------------------------------------------------- rendering

  // None is an explicit null; a missing key is undefined.
  type Variables = map<string, Option<string>>

  function ValueOf(variables: Variables, name: string): string {
    if name in variables && variables[name].Some? then variables[name].value else ""
  }

  function Fill(piece: Piece, variables: Variables): string {
    match piece case Text(source) => source case Hole(_, name) => ValueOf(variables, name)
  }

  function FillAll(pieces: seq<Piece>, variables: Variables): string {
    if pieces == [] then "" else Fill(pieces[0], variables) + FillAll(pieces[1..], variables)
  }

  // The leftmost position at or after i where the pattern matches; |t| if there is none.
  function NextMatch(t: string, i: nat): (k: nat)
    requires i <= |t|
    ensures i <= k <= |t|
    ensures k < |t| ==> MatchAt(t, k).Some?
    ensures forall j | i <= j < k :: MatchAt(t, j).None?
    decreases |t| - i
  {
    if i == |t| || MatchAt(t, i).Some? then i else NextMatch(t, i + 1)
  }

  // String.prototype.replace with a global pattern: copy up to the next match, insert its value, go on after it.
  function Replace(t: string, i: nat, variables: Variables): string
    requires i <= |t|
    decreases |t| - i
  {
    var k := NextMatch(t, i);
    if k == |t| then t[i..] else
    var m := MatchAt(t, k).value;
    t[i..k] + ValueOf(variables, m.name) + Replace(t, m.end, variables)
  }

  lemma NextMatchSkips(t: string, i: nat)
    requires i < |t| && MatchAt(t, i).None?
    ensures NextMatch(t, i) == NextMatch(t, i + 1)
  {
  }

  lemma Regroup(c: char, x: string, value: string, rest: string)
    ensures ([c] + x) + value + rest == [c] + (x + value + rest)
  {
  }

  lemma CopiesUpTo(t: string, i: nat, k: nat)
    requires i < k <= |t|
    ensures t[i..k] == [t[i]] + t[i + 1..k]
  {
  }

  lemma ReplaceCopies(t: string, i: nat, variables: Variables)
    requires i < |t| && MatchAt(t, i).None?
    ensures Replace(t, i, variables) == [t[i]] + Replace(t, i + 1, variables)
  {
    NextMatchSkips(t, i);
    var k := NextMatch(t, i + 1);
    CopiesUpTo(t, i, k);
    if k < |t| {
      var m := MatchAt(t, k).value;
      Regroup(t[i], t[i + 1..k], ValueOf(variables, m.name), Replace(t, m.end, variables));
    } else {
      assert t[i..] == t[i..k] && t[i + 1..] == t[i + 1..k];
    }
  }

  lemma ReplaceInserts(t: string, i: nat, variables: Variables)
    requires i < |t| && MatchAt(t, i).Some?
    ensures Replace(t, i, variables)
            == ValueOf(variables, MatchAt(t, i).value.name) + Replace(t, MatchAt(t, i).value.end, variables)
  {
    assert NextMatch(t, i) == i;
    var m := MatchAt(t, i).value;
    assert Replace(t, i, variables) == t[i..i] + ValueOf(variables, m.name) + Replace(t, m.end, variables);
    assert t[i..i] + ValueOf(variables, m.name) == ValueOf(variables, m.name);
  }

  lemma NamesOfScan(t: string, i: nat)
    requires i < |t|
    ensures MatchAt(t, i).Some? ==>
      Names(Scan(t, i)) == [MatchAt(t, i).value.name] + Names(Scan(t, MatchAt(t, i).value.end))
    ensures MatchAt(t, i).None? ==> Names(Scan(t, i)) == Names(Scan(t, i + 1))
  {
    ScanStep(t, i);
    var pieces := Scan(t, i);
    assert Names(pieces) == (if pieces[0].Hole? then [pieces[0].name] else []) + Names(pieces[1..]);
  }

  /** Replacement is one pass over the pieces; inserted values are never scanned again. */
  lemma {:induction false} ReplaceFillsPieces(t: string, i: nat, variables: Variables)
    requires i <= |t|
    ensures Replace(t, i, variables) == FillAll(Scan(t, i), variables)
    decreases |t| - i
  {
    if i == |t| {
    } else {
      ScanStep(t, i);
      if MatchAt(t, i).Some? {
        ReplaceFillsPieces(t, MatchAt(t, i).value.end, variables);
        ReplaceInserts(t, i, variables);
      } else {
        ReplaceFillsPieces(t, i + 1, variables);
        ReplaceCopies(t, i, variables);
      }
    }
  }

  function RenderTemplate(template: Option<string>, variables: Variables): Option<string> {
    if template.None? || template.value == "" then None else Some(Replace(template.value, 0, variables))
  }

  function Concat(parts: seq<string>): string {
    if parts == [] then "" else parts[0] + Concat(parts[1..])
  }

  // What each piece contributes: text itself, a name its value, a name that is null or not bound nothing.
  ghost predicate Contributes(piece: Piece, variables: Variables, part: string) {
    match piece
    case Text(source) => part == source
    case Hole(_, name) =>
      (name in variables && variables[name].Some? ==> part == variables[name].value)
      && (name !in variables || variables[name].None? ==> part == "")
  }

  lemma {:induction false} PartsMakeUp(pieces: seq<Piece>, variables: Variables, parts: seq<string>)
    requires |parts| == |pieces| && forall i | 0 <= i < |pieces| :: Contributes(pieces[i], variables, parts[i])
    ensures FillAll(pieces, variables) == Concat(parts)
  {
    if pieces == [] {
    } else {
      PartsMakeUp(pieces[1..], variables, parts[1..]);
    }
  }

  /** Rendering puts the value of each name in the place of its placeholder and leaves all other text. */
  lemma RenderingConcatenates(t: string, variables: Variables, parts: seq<string>)
    requires t != "" && |parts| == |Scan(t, 0)|
    requires forall i | 0 <= i < |parts| :: Contributes(Scan(t, 0)[i], variables, parts[i])
    ensures RenderTemplate(Some(t), variables) == Some(Concat(parts))
  {
    ReplaceFillsPieces(t, 0, variables);
    PartsMakeUp(Scan(t, 0), variables, parts);
  }

  lemma {:induction false} NoBraceNoMatch(t: string, i: nat, k: nat)
    requires i <= k <= |t| && forall j | i <= j < k :: t[j] != '{'
    ensures NextMatch(t, i) == NextMatch(t, k)
    decreases k - i
  {
    if i == k {
    } else {
      NoBraceNoMatch(t, i + 1, k);
      assert MatchAt(t, i).None?;
    }
  }

  /** A single placeholder between texts without braces: its value appears between them. */
  lemma RendersOne(
    before: string, spaces: string, name: string, more: string, after: string, variables: Variables, value: string)
    requires AllSpace(spaces) && AllSpace(more) && IsName(name)
    requires '{' !in before && '{' !in after
    requires if name in variables && variables[name].Some? then value == variables[name].value else value == ""
    ensures RenderTemplate(Some(before + ("{{" + spaces + name + more + "}}") + after), variables)
            == Some(before + value + after)
  {
    var hole := "{{" + spaces + name + more + "}}";
    var t := before + hole + after;
    var i, end := |before|, |before| + |hole|;
    assert t[..i] == before && t[i..end] == hole && t[end..] == after;
    forall j | 0 <= j < i ensures t[j] != '{' {
      assert t[j] == before[j] && before[j] in before;
    }
    forall j | end <= j < |t| ensures t[j] != '{' {
      assert t[j] == after[j - end] && after[j - end] in after;
    }
    NoBraceNoMatch(t, 0, i);
    NoBraceNoMatch(t, end, |t|);
    assert IsSpaced(t[i..end], spaces, name, more);
    MatchIsComplete(t, i, end, name);
    assert NextMatch(t, i) == i && NextMatch(t, end) == |t|;
    assert Replace(t, end, variables) == after;
    assert Replace(t, 0, variables) == t[0..i] + ValueOf(variables, name) + Replace(t, end, variables);
  }

  /** White space is what JavaScript's \s matches. */
  lemma SpaceCharacters(c: char)
    ensures IsSpace(c) <==>
      c as int in {9, 10, 11, 12, 13, 32, 0xA0, 0x1680, 0x2028, 0x2029, 0x202F, 0x205F, 0x3000, 0xFEFF}
      || 0x2000 <= c as int <= 0x200A
  {
  }

  /** Names are made of ASCII letters and digits, and of '-', '.' and '_'. */
  lemma NameCharacters(c: char)
    ensures IsNameChar(c) <==>
      48 <= c as int <= 57 || 65 <= c as int <= 90 || 97 <= c as int <= 122 || c as int in {45, 46, 95}
  {
  }

  // ------------------------------------------------------------ extraction

  function Names(pieces: seq<Piece>): seq<string> {
    if pieces == [] then []
    else (if pieces[0].Hole? then [pieces[0].name] else []) + Names(pieces[1..])
  }

  // Insertion order of a Set.
  function Distinct(names: seq<string>): seq<string> {
    if names == [] then [] else
    var rest := Distinct(names[..|names| - 1]);
    if names[|names| - 1] in rest then rest else rest + [names[|names| - 1]]
  }

  function Extract(subject: Option<string>, body: string): seq<string> {
    Distinct(Names(Scan(if subject.Some? then subject.value else "", 0)) + Names(Scan(body, 0)))
  }

  lemma {:induction false} DistinctKeepsMembers(names: seq<string>)
    ensures forall n :: n in Distinct(names) <==> n in names
    ensures forall i, j | 0 <= i < j < |Distinct(names)| :: Distinct(names)[i] != Distinct(names)[j]
  {
    if names == [] {
    } else {
      DistinctKeepsMembers(names[..|names| - 1]);
      assert names == names[..|names| - 1] + [names[|names| - 1]];
    }
  }

  lemma {:induction false} DistinctGrows(a: seq<string>, b: seq<string>)
    ensures Distinct(a) <= Distinct(a + b)
  {
    if b == [] {
      assert a + b == a;
    } else {
      assert (a + b)[..|a + b| - 1] == a + b[..|b| - 1];
      DistinctGrows(a, b[..|b| - 1]);
    }
  }

  lemma DistinctIsInOrder(earlier: seq<string>, name: string, later: seq<string>)
    requires name !in earlier
    ensures Distinct(earlier) + [name] <= Distinct(earlier + [name] + later)
  {
    DistinctKeepsMembers(earlier);
    DistinctSnoc(earlier, name);
    DistinctGrows(earlier + [name], later);
  }

  /** The names come in the order of their first use, those of the subject before those of the body. */
  lemma ExtractionIsInOrder(
    subject: Option<string>, body: string, earlier: seq<string>, name: string, later: seq<string>)
    requires name !in earlier && earlier + [name] + later
      == Names(Scan(if subject.Some? then subject.value else "", 0)) + Names(Scan(body, 0))
    ensures Distinct(earlier) + [name] <= Extract(subject, body)
  {
    DistinctIsInOrder(earlier, name, later);
  }

  ghost predicate AgreeOn(a: Variables, b: Variables, names: seq<string>) {
    forall n | n in names ::
      (if n in a && a[n].Some? then a[n].value else "") == (if n in b && b[n].Some? then b[n].value else "")
  }

  lemma {:induction false} AgreeingFill(pieces: seq<Piece>, a: Variables, b: Variables)
    requires AgreeOn(a, b, Names(pieces))
    ensures FillAll(pieces, a) == FillAll(pieces, b)
  {
    if pieces == [] {
    } else {
      var head: seq<string> := if pieces[0].Hole? then [pieces[0].name] else [];
      assert Names(pieces) == head + Names(pieces[1..]);
      AgreeingFill(pieces[1..], a, b);
    }
  }

  /** Variables that agree on the extracted names render the subject and the body alike. */
  lemma ExtractedNamesDecide(subject: Option<string>, body: string, a: Variables, b: Variables)
    requires AgreeOn(a, b, Extract(subject, body))
    ensures RenderTemplate(subject, a) == RenderTemplate(subject, b)
    ensures RenderTemplate(Some(body), a) == RenderTemplate(Some(body), b)
  {
    var text := if subject.Some? then subject.value else "";
    DistinctKeepsMembers(Names(Scan(text, 0)) + Names(Scan(body, 0)));
    assert AgreeOn(a, b, Names(Scan(text, 0)));
    assert AgreeOn(a, b, Names(Scan(body, 0)));
    AgreeingFill(Scan(text, 0), a, b);
    AgreeingFill(Scan(body, 0), a, b);
    ReplaceFillsPieces(text, 0, a);
    ReplaceFillsPieces(text, 0, b);
    ReplaceFillsPieces(body, 0, a);
    ReplaceFillsPieces(body, 0, b);
  }

  /** The extracted names are exactly those of the placeholders that scanning finds. */
  lemma {:induction false} NamesAreHoles(pieces: seq<Piece>, name: string)
    ensures name in Names(pieces) <==> exists i :: 0 <= i < |pieces| && pieces[i].Hole? && pieces[i].name == name
  {
    if pieces == [] {
    } else {
      var head: seq<string> := if pieces[0].Hole? then [pieces[0].name] else [];
      assert Names(pieces) == head + Names(pieces[1..]);
      NamesAreHoles(pieces[1..], name);
      if name in Names(pieces[1..]) {
        var i :| 0 <= i < |pieces| - 1 && pieces[1..][i].Hole? && pieces[1..][i].name == name;
        assert pieces[i + 1].name == name;
      }
      if i :| 0 <= i < |pieces| && pieces[i].Hole? && pieces[i].name == name {
        assert i > 0 ==> pieces[1..][i - 1].name == name;
      }
    }
  }

  // A loop over the matches of subject and body that adds each name to a Set.
  method ExtractTemplateVariables(subject: Option<string>, body: string) returns (names: seq<string>)
    ensures names == Extract(subject, body)
  {
    var text := if subject.Some? then subject.value else "";
    names := AddNames(text, [], []);
    assert [] + Names(Scan(text, 0)) == Names(Scan(text, 0));
    names := AddNames(body, names, Names(Scan(text, 0)));
  }

  lemma DistinctSnoc(names: seq<string>, name: string)
    ensures Distinct(names + [name]) == if name in Distinct(names) then Distinct(names) else Distinct(names) + [name]
  {
    assert (names + [name])[..|names|] == names;
  }

  lemma NamesStep(t: string, i: nat, found: seq<string>)
    requires i < |t|
    ensures found + Names(Scan(t, i)) ==
      if MatchAt(t, i).Some? then found + [MatchAt(t, i).value.name] + Names(Scan(t, MatchAt(t, i).value.end))
      else found + Names(Scan(t, i + 1))
  {
    NamesOfScan(t, i);
    if MatchAt(t, i).Some? {
      var rest := Names(Scan(t, MatchAt(t, i).value.end));
      assert found + ([MatchAt(t, i).value.name] + rest) == found + [MatchAt(t, i).value.name] + rest;
    }
  }

  method AddNames(t: string, before: seq<string>, ghost seen: seq<string>) returns (names: seq<string>)
    requires before == Distinct(seen)
    ensures names == Distinct(seen + Names(Scan(t, 0)))
  {
    names := before;
    ghost var found := seen;
    var i := 0;
    while i < |t|
      invariant i <= |t|
      invariant names == Distinct(found)
      invariant found + Names(Scan(t, i)) == seen + Names(Scan(t, 0))
      decreases |t| - i
    {
      NamesStep(t, i, found);
      var m := MatchAt(t, i);
      if m.Some? {
        DistinctSnoc(found, m.value.name);
        if m.value.name !in names {
          names := names + [m.value.name];
        }
        found := found + [m.value.name];
        i := m.value.end;
      } else {
        i := i + 1;
      }
    }
    assert found + [] == found;
  }

  // ------------------------------------------------------ the stored list

  function TrimStart(s: string): string {
    if s != "" && IsSpace(s[0]) then TrimStart(s[1..]) else s
  }

  function TrimEnd(s: string): string {
    if s != "" && IsSpace(s[|s| - 1]) then TrimEnd(s[..|s| - 1]) else s
  }

  function Trim(s: string): string {
    TrimEnd(TrimStart(s))
  }

  lemma {:induction false} TrimStartDropsSpace(s: string)
    ensures var r := TrimStart(s);
      |r| <= |s| && r == s[|s| - |r|..] && AllSpace(s[..|s| - |r|]) && (r != "" ==> !IsSpace(r[0]))
  {
    if s != "" && IsSpace(s[0]) {
      TrimStartDropsSpace(s[1..]);
      var n := |s| - |TrimStart(s)|;
      assert s[..n] == [s[0]] + s[1..][..n - 1];
    }
  }

  lemma {:induction false} TrimEndDropsSpace(s: string)
    ensures var r := TrimEnd(s);
      |r| <= |s| && r == s[..|r|] && AllSpace(s[|r|..]) && (r != "" ==> !IsSpace(r[|r| - 1]))
  {
    if s != "" && IsSpace(s[|s| - 1]) {
      var init := s[..|s| - 1];
      TrimEndDropsSpace(init);
      var n := |TrimEnd(s)|;
      assert s[n..] == init[n..] + [s[|s| - 1]];
    }
  }

  /** Trimming removes the outer white space and only that. */
  lemma TrimDropsOuterSpace(s: string)
    ensures exists a: string, b: string :: AllSpace(a) && AllSpace(b) && s == a + Trim(s) + b
    ensures Trim(s) != "" ==> !IsSpace(Trim(s)[0]) && !IsSpace(Trim(s)[|Trim(s)| - 1])
  {
    var t := TrimStart(s);
    TrimStartDropsSpace(s);
    TrimEndDropsSpace(t);
    var a, b := s[..|s| - |t|], t[|Trim(s)|..];
    assert s == a + Trim(s) + b;
  }

  function TrimToNull(s: string): Option<string> {
    if Trim(s) == "" then None else Some(Trim(s))
  }

  datatype Template = Template(subject: Option<string>, body: string, variables: seq<string>)

  // Absent fields of a request are None.
  datatype Change = Change(subject: Option<string>, body: Option<string>, variables: Option<seq<string>>)

  function Create(subject: Option<string>, body: string, variables: Option<seq<string>>): Template {
    var subject := if subject.Some? then TrimToNull(subject.value) else None;
    Template(subject, Trim(body),
             if variables.Some? && variables.value != [] then variables.value else Extract(subject, Trim(body)))
  }

  function Update(t: Template, c: Change): Template {
    var subject := if c.subject.Some? then TrimToNull(c.subject.value) else t.subject;
    var body := if c.body.Some? then Trim(c.body.value) else t.body;
    Template(subject, body,
             if c.variables.Some? then c.variables.value
             else if c.body.Some? || c.subject.Some? then Extract(subject, body)
             else t.variables)
  }

  function UpdateAll(t: Template, changes: seq<Change>): Template {
    if changes == [] then t else Update(UpdateAll(t, changes[..|changes| - 1]), changes[|changes| - 1])
  }

  ghost predicate UpToDate(t: Template) {
    t.variables == Extract(t.subject, t.body)
  }

  /** As long as no request names the variables itself, the stored list is the extraction from the current text. */
  lemma {:induction false} StoredListIsExtraction(subject: Option<string>, body: string, changes: seq<Change>)
    requires forall i | 0 <= i < |changes| :: changes[i].variables.None?
    ensures UpToDate(UpdateAll(Create(subject, body, None), changes))
  {
    if changes == [] {
    } else {
      StoredListIsExtraction(subject, body, changes[..|changes| - 1]);
    }
  }

  predicate TouchesText(c: Change) {
    c.subject.Some? || c.body.Some?
  }

  // The change that determines the list: it names the variables or touches the text, and none after it does.
  predicate DeterminesList(changes: seq<Change>, k: nat) {
    && k < |changes| && (changes[k].variables.Some? || TouchesText(changes[k]))
    && forall i | k < i < |changes| :: changes[i].variables.None? && !TouchesText(changes[i])
  }

  lemma {:induction false} ChangesElsewhereKeepList(t: Template, changes: seq<Change>, k: nat)
    requires k <= |changes|
    requires forall i | k <= i < |changes| :: changes[i].variables.None? && !TouchesText(changes[i])
    ensures UpdateAll(t, changes) == UpdateAll(t, changes[..k])
  {
    var n := |changes| - 1;
    if k == |changes| {
      assert changes[..k] == changes;
    } else {
      assert changes[..n][..k] == changes[..k];
      ChangesElsewhereKeepList(t, changes[..n], k);
    }
  }

  /**
   After any changes, named variables included, the stored list is that of the current text exactly if the change that
   determines it left it to the extraction or named just those variables; without such a change, if it was before.
   What is claimed is which change that is; that a named list has to be the current one is the definition.
   */
  lemma ListIsCurrentIff(t: Template, changes: seq<Change>)
    ensures forall k: nat | DeterminesList(changes, k) ::
      var now := UpdateAll(t, changes);
      UpToDate(now) <==> changes[k].variables.None? || changes[k].variables.value == Extract(now.subject, now.body)
    ensures (forall k: nat :: !DeterminesList(changes, k)) ==> UpdateAll(t, changes) == t
  {
    forall k: nat | DeterminesList(changes, k)
      ensures var now := UpdateAll(t, changes);
        UpToDate(now) <==> changes[k].variables.None? || changes[k].variables.value == Extract(now.subject, now.body)
    {
      ChangesElsewhereKeepList(t, changes, k + 1);
      assert changes[..k + 1][..k] == changes[..k];
    }
    if forall k: nat :: !DeterminesList(changes, k) {
      NothingDetermines(changes, 0);
      ChangesElsewhereKeepList(t, changes, 0);
    }
  }

  lemma {:induction false} NothingDetermines(changes: seq<Change>, k: nat)
    requires k <= |changes| && forall i: nat :: !DeterminesList(changes, i)
    ensures forall i | k <= i < |changes| :: changes[i].variables.None? && !TouchesText(changes[i])
    decreases |changes| - k
  {
    if k == |changes| {
    } else {
      NothingDetermines(changes, k + 1);
      assert !DeterminesList(changes, k);
    }
  }

  /** The text is what the changes wrote last, trimmed; an empty subject becomes none. */
  lemma {:induction false} TextIsLastWritten(t: Template, changes: seq<Change>, k: nat)
    requires k < |changes|
    ensures changes[k].subject.Some? && (forall i | k < i < |changes| :: changes[i].subject.None?) ==>
      var subject := Trim(changes[k].subject.value);
      UpdateAll(t, changes).subject == if subject == "" then None else Some(subject)
    ensures changes[k].body.Some? && (forall i | k < i < |changes| :: changes[i].body.None?) ==>
      UpdateAll(t, changes).body == Trim(changes[k].body.value)
  {
    if k == |changes| - 1 {
    } else {
      TextIsLastWritten(t, changes[..|changes| - 1], k);
    }
  }

  /** Without such a change it is what the template was created with; named variables are stored if there are any. */
  lemma {:induction false} TextIsAsCreated(
    subject: Option<string>, body: string, variables: Option<seq<string>>, changes: seq<Change>)
    ensures (forall i | 0 <= i < |changes| :: changes[i].subject.None?) ==>
      UpdateAll(Create(subject, body, variables), changes).subject
      == if subject.None? || Trim(subject.value) == "" then None else Some(Trim(subject.value))
    ensures (forall i | 0 <= i < |changes| :: changes[i].body.None?) ==>
      UpdateAll(Create(subject, body, variables), changes).body == Trim(body)
    ensures variables.Some? && variables.value != [] ==> Create(subject, body, variables).variables == variables.value
  {
    if changes == [] {
    } else {
      TextIsAsCreated(subject, body, variables, changes[..|changes| - 1]);
    }
  }
}
