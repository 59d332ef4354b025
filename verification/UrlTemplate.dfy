// Download URL templates: their holes, and what replacing a placeholder's name does to
// them (internal/manager/backend/backend.go:72-122).
module UrlTemplate {
  import opened Search
  import opened Rescan
  import opened RescanEnds

  datatype Placeholder = Version | Os | Platform | Arch | Ext
  datatype Token = Lit(text: string) | Hole(p: Placeholder)

  function Name(p: Placeholder): string {
    match p
    case Version => "{version}"
    case Os => "{os}"
    case Platform => "{platform}"
    case Arch => "{arch}"
    case Ext => "{ext}"
  }

  function Text(t: Token): string {
    match t
    case Lit(text) => text
    case Hole(p) => Name(p)
  }

  function Render(tokens: seq<Token>): string {
    if tokens == [] then "" else Text(tokens[0]) + Render(tokens[1..])
  }

  // The literals of a template contain no opening brace.
  predicate IsTemplate(tokens: seq<Token>) {
    forall t :: t in tokens && t.Lit? ==> '{' !in t.text
  }

  // All placeholders substituted at once.
  function Substitute(tokens: seq<Token>, values: Placeholder -> string): string {
    if tokens == [] then ""
    else
      (match tokens[0]
       case Lit(text) => text
       case Hole(p) => values(p))
      + Substitute(tokens[1..], values)
  }

  lemma NameBraces(p: Placeholder)
    ensures |Name(p)| > 1 && Name(p)[0] == '{' && Name(p)[|Name(p)| - 1] == '}'
    ensures Delimited(Name(p))
  {
  }

  lemma NamesDiffer(p: Placeholder, q: Placeholder)
    requires p != q
    ensures Name(p)[1] != Name(q)[1]
  {
  }

  lemma {:induction false} RenderConcat(s: seq<Token>, t: seq<Token>)
    ensures Render(s + t) == Render(s) + Render(t)
  {
    if s == [] {
      assert s + t == t;
    } else {
      assert (s + t)[1..] == s[1..] + t;
      RenderConcat(s[1..], t);
    }
  }

  // Where the k-th token starts.
  function Start(tokens: seq<Token>, k: nat): nat
    requires k <= |tokens|
  {
    |Render(tokens[..k])|
  }

  lemma TokensSplit(tokens: seq<Token>, k: nat)
    requires k < |tokens|
    ensures tokens[..k] + [tokens[k]] + tokens[k + 1..] == tokens
  {
  }

  lemma RenderSplit(tokens: seq<Token>, k: nat)
    requires k < |tokens|
    ensures Render(tokens) == Render(tokens[..k]) + Text(tokens[k]) + Render(tokens[k + 1..])
  {
    TokensSplit(tokens, k);
    RenderParts(tokens[..k], tokens[k], tokens[k + 1..]);
  }

  lemma RenderOne(t: Token)
    ensures Render([t]) == Text(t)
  {
    assert [t][1..] == [] && Render([]) == "";
  }

  lemma RenderParts(before: seq<Token>, t: Token, after: seq<Token>)
    ensures Render(before + [t] + after) == Render(before) + Text(t) + Render(after)
  {
    RenderConcat(before + [t], after);
    RenderConcat(before, [t]);
    RenderOne(t);
  }

  lemma StartsAscend(tokens: seq<Token>, j: nat, k: nat)
    requires j < k <= |tokens|
    ensures Start(tokens, j) + |Text(tokens[j])| <= Start(tokens, k)
  {
    assert tokens[..k][..j] == tokens[..j];
    RenderSplit(tokens[..k], j);
  }

  lemma HoleOccurs(tokens: seq<Token>, p: Placeholder, k: nat)
    requires k < |tokens| && tokens[k] == Hole(p)
    ensures OccursAt(Render(tokens), Name(p), Start(tokens, k))
  {
    RenderSplit(tokens, k);
  }

  // A name that starts inside the first token is the first token.
  lemma FirstToken(t: Token, rest: string, p: Placeholder, i: nat)
    requires t.Lit? ==> '{' !in t.text
    requires OccursAt(Text(t) + rest, Name(p), i) && i < |Text(t)|
    ensures t == Hole(p) && i == 0
  {
    var s := Text(t) + rest;
    NameBraces(p);
    assert s[i] == s[i..i + |Name(p)|][0] == '{';
    assert s[i] == Text(t)[i];
    if t.Hole? {
      NameBraces(t.p);
      assert s[i + 1] == s[i..i + |Name(p)|][1];
      if t.p != p { NamesDiffer(t.p, p); }
    }
  }

  lemma StartShifts(tokens: seq<Token>, j: nat)
    requires j < |tokens|
    ensures Start(tokens, j + 1) == |Text(tokens[0])| + Start(tokens[1..], j)
  {
    assert tokens[..j + 1] == [tokens[0]] + tokens[1..][..j];
    RenderConcat([tokens[0]], tokens[1..][..j]);
    RenderOne(tokens[0]);
  }

  // Every occurrence of a name in a template is one of its holes.
  lemma {:induction false} OccurrenceIsHole(tokens: seq<Token>, p: Placeholder, i: nat) returns (k: nat)
    requires IsTemplate(tokens) && OccursAt(Render(tokens), Name(p), i)
    ensures k < |tokens| && tokens[k] == Hole(p) && i == Start(tokens, k)
  {
    NameBraces(p);
    var first, rest := Text(tokens[0]), Render(tokens[1..]);
    if i < |first| {
      FirstToken(tokens[0], rest, p, i);
      k := 0;
    } else {
      OccursInRest(first, rest, Name(p), i);
      var j := OccurrenceIsHole(tokens[1..], p, i - |first|);
      StartShifts(tokens, j);
      k := j + 1;
    }
  }

  ghost predicate FirstHole(tokens: seq<Token>, p: Placeholder, k: nat) {
    k < |tokens| && tokens[k] == Hole(p) && forall j :: 0 <= j < k ==> tokens[j] != Hole(p)
  }

  lemma FirstHoleIsFound(tokens: seq<Token>, p: Placeholder, k: nat)
    requires IsTemplate(tokens) && FirstHole(tokens, p, k)
    ensures FirstIndex(Render(tokens), Name(p)) == Start(tokens, k)
  {
    HoleOccurs(tokens, p, k);
    forall i | 0 <= i < Start(tokens, k) ensures !OccursAt(Render(tokens), Name(p), i) {
      if OccursAt(Render(tokens), Name(p), i) {
        var j := OccurrenceIsHole(tokens, p, i);
        if k < j {
          StartsAscend(tokens, k, j);
        }
      }
    }
    FirstIndexIs(Render(tokens), Name(p), Start(tokens, k));
  }

  lemma NoHoleNotFound(tokens: seq<Token>, p: Placeholder)
    requires IsTemplate(tokens) && Hole(p) !in tokens
    ensures FirstIndex(Render(tokens), Name(p)) == -1
  {
    var i := FirstIndex(Render(tokens), Name(p));
    if i != -1 {
      var k := OccurrenceIsHole(tokens, p, i);
    }
  }

  // The template with the k-th token replaced by a template.
  function Grafted(tokens: seq<Token>, k: nat, inner: seq<Token>): seq<Token>
    requires k < |tokens|
  {
    tokens[..k] + inner + tokens[k + 1..]
  }

  lemma ReplaceHole(tokens: seq<Token>, p: Placeholder, inner: seq<Token>, k: nat)
    requires k < |tokens| && tokens[k] == Hole(p)
    ensures Start(tokens, k) + |Name(p)| <= |Render(tokens)|
    ensures Replaced(Render(tokens), Name(p), Render(inner), Start(tokens, k)) == Render(Grafted(tokens, k, inner))
  {
    var before, after := tokens[..k], tokens[k + 1..];
    RenderSplit(tokens, k);
    RenderConcat(before + inner, after);
    RenderConcat(before, inner);
    ReplacedParts(Render(before), Name(p), Render(inner), Render(after));
  }

  lemma ReplacedParts(before: string, pat: string, value: string, after: string)
    ensures Replaced(before + pat + after, pat, value, |before|) == before + value + after
  {
  }

  // The template with every hole of p replaced by a template.
  function Splice(tokens: seq<Token>, p: Placeholder, inner: seq<Token>): seq<Token> {
    if tokens == [] then []
    else (if tokens[0] == Hole(p) then inner else [tokens[0]]) + Splice(tokens[1..], p, inner)
  }

  lemma {:induction false} SpliceConcat(s: seq<Token>, t: seq<Token>, p: Placeholder, inner: seq<Token>)
    ensures Splice(s + t, p, inner) == Splice(s, p, inner) + Splice(t, p, inner)
  {
    if s == [] {
      assert s + t == t;
    } else {
      assert (s + t)[1..] == s[1..] + t;
      SpliceConcat(s[1..], t, p, inner);
    }
  }

  lemma {:induction false} SpliceNone(tokens: seq<Token>, p: Placeholder, inner: seq<Token>)
    requires Hole(p) !in tokens
    ensures Splice(tokens, p, inner) == tokens
  {
    if tokens != [] { SpliceNone(tokens[1..], p, inner); }
  }

  // The holes of the spliced template.
  lemma {:induction false} SpliceHas(tokens: seq<Token>, p: Placeholder, inner: seq<Token>, t: Token)
    ensures t in Splice(tokens, p, inner) <==> (t in tokens && t != Hole(p)) || (Hole(p) in tokens && t in inner)
  {
    if tokens != [] {
      assert tokens == [tokens[0]] + tokens[1..];
      SpliceHas(tokens[1..], p, inner, t);
    }
  }

  lemma SpliceIsTemplate(tokens: seq<Token>, p: Placeholder, inner: seq<Token>)
    requires IsTemplate(tokens) && (IsTemplate(inner) || Hole(p) !in tokens)
    ensures IsTemplate(Splice(tokens, p, inner))
  {
    forall t | t in Splice(tokens, p, inner) && t.Lit? ensures '{' !in t.text {
      SpliceHas(tokens, p, inner, t);
    }
  }

  function Holes(tokens: seq<Token>, p: Placeholder): nat {
    if tokens == [] then 0 else (if tokens[0] == Hole(p) then 1 else 0) + Holes(tokens[1..], p)
  }

  lemma {:induction false} HolesConcat(s: seq<Token>, t: seq<Token>, p: Placeholder)
    ensures Holes(s + t, p) == Holes(s, p) + Holes(t, p)
  {
    if s == [] {
      assert s + t == t;
    } else {
      assert (s + t)[1..] == s[1..] + t;
      HolesConcat(s[1..], t, p);
    }
  }

  lemma {:induction false} NoHoles(tokens: seq<Token>, p: Placeholder)
    requires Hole(p) !in tokens
    ensures Holes(tokens, p) == 0
  {
    if tokens != [] { NoHoles(tokens[1..], p); }
  }

  lemma GraftedHoles(tokens: seq<Token>, p: Placeholder, inner: seq<Token>, k: nat)
    requires k < |tokens| && tokens[k] == Hole(p) && Hole(p) !in inner
    ensures Holes(Grafted(tokens, k, inner), p) < Holes(tokens, p)
    ensures Splice(Grafted(tokens, k, inner), p, inner) == Splice(tokens, p, inner)
  {
    var before, hole, after := tokens[..k], [tokens[k]], tokens[k + 1..];
    assert tokens == before + (hole + after) && Grafted(tokens, k, inner) == before + (inner + after);
    HolesConcat(before, hole + after, p);
    HolesConcat(hole, after, p);
    HolesConcat(before, inner + after, p);
    HolesConcat(inner, after, p);
    NoHoles(inner, p);
    SpliceConcat(before, hole + after, p, inner);
    SpliceConcat(hole, after, p, inner);
    SpliceConcat(before, inner + after, p, inner);
    SpliceConcat(inner, after, p, inner);
    SpliceNone(inner, p, inner);
    assert Splice(hole, p, inner) == inner + Splice(hole[1..], p, inner) == inner;
  }

  lemma {:induction false} FindHole(tokens: seq<Token>, p: Placeholder) returns (k: nat)
    requires Hole(p) in tokens
    ensures FirstHole(tokens, p, k)
  {
    if tokens[0] == Hole(p) {
      k := 0;
    } else {
      var j := FindHole(tokens[1..], p);
      k := j + 1;
      assert forall i :: 0 < i < k ==> tokens[i] == tokens[1..][i - 1];
    }
  }

  lemma GraftedIsTemplate(tokens: seq<Token>, k: nat, inner: seq<Token>)
    requires k < |tokens| && IsTemplate(tokens) && IsTemplate(inner)
    ensures IsTemplate(Grafted(tokens, k, inner))
  {
    forall t | t in Grafted(tokens, k, inner) && t.Lit? ensures '{' !in t.text {
      assert t in tokens[..k] || t in inner || t in tokens[k + 1..];
    }
  }

  // Replacing a placeholder's name everywhere splices the value into its holes and does
  // nothing else.
  lemma {:induction false} ReplaceFills(tokens: seq<Token>, p: Placeholder, inner: seq<Token>)
    requires IsTemplate(tokens) && IsTemplate(inner) && Hole(p) !in inner
    ensures IsResult(Render(tokens), Name(p), Render(inner), Render(Splice(tokens, p, inner)))
    decreases Holes(tokens, p)
  {
    if Hole(p) in tokens {
      var k := FindHole(tokens, p);
      var next := Grafted(tokens, k, inner);
      FirstHoleIsFound(tokens, p, k);
      ReplaceHole(tokens, p, inner, k);
      GraftedHoles(tokens, p, inner, k);
      GraftedIsTemplate(tokens, k, inner);
      ReplaceFills(next, p, inner);
      ResultFromRound(Render(tokens), Name(p), Render(inner), Start(tokens, k), Render(Splice(tokens, p, inner)));
    } else {
      NoHoleNotFound(tokens, p);
      NotFoundIff(Render(tokens), Name(p));
      OwnResult(Render(tokens), Name(p), Render(inner));
      SpliceNone(tokens, p, inner);
    }
  }

  lemma HoldsIff(tokens: seq<Token>, p: Placeholder)
    requires IsTemplate(tokens)
    ensures Contains(Render(tokens), Name(p)) <==> Hole(p) in tokens
  {
    if Hole(p) in tokens {
      var k := FindHole(tokens, p);
      HoleOccurs(tokens, p, k);
    } else {
      NoHoleNotFound(tokens, p);
      NotFoundIff(Render(tokens), Name(p));
    }
  }

  lemma {:induction false} SubstituteConcat(s: seq<Token>, t: seq<Token>, values: Placeholder -> string)
    ensures Substitute(s + t, values) == Substitute(s, values) + Substitute(t, values)
  {
    if s == [] {
      assert s + t == t;
    } else {
      assert (s + t)[1..] == s[1..] + t;
      SubstituteConcat(s[1..], t, values);
    }
  }

  // A hole may be filled with its own value first.
  lemma {:induction false} SpliceSubstitutes(tokens: seq<Token>, p: Placeholder, values: Placeholder -> string)
    ensures Substitute(Splice(tokens, p, [Lit(values(p))]), values) == Substitute(tokens, values)
  {
    if tokens != [] {
      var first := if tokens[0] == Hole(p) then [Lit(values(p))] else [tokens[0]];
      SubstituteConcat(first, Splice(tokens[1..], p, [Lit(values(p))]), values);
      SpliceSubstitutes(tokens[1..], p, values);
      assert first[1..] == [] && Substitute([], values) == "";
    }
  }

  lemma {:induction false} LiteralsRender(tokens: seq<Token>, values: Placeholder -> string)
    requires forall t :: t in tokens ==> t.Lit?
    ensures Render(tokens) == Substitute(tokens, values)
  {
    if tokens != [] { LiteralsRender(tokens[1..], values); }
  }
}
