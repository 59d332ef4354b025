// The expansion of a download URL: five rescans, one placeholder after the other
// (internal/manager/backend/backend.go:72-131).
module UrlExpansion {
  import opened Search
  import opened Rescan
  import opened RescanEnds
  import opened UrlTemplate

  function Value(version: string, goos: string, goarch: string, p: Placeholder): string {
    match p
    case Version => version
    case Os => goos
    case Platform => MapPlatform(goos)
    case Arch => MapArch(goarch)
    case Ext => MapExt(goos)
  }

  function MapPlatform(goos: string): string {
    match goos
    case "darwin" => "macos"
    case "linux" => "ubuntu"
    case "windows" => "win-cpu"
    case _ => goos
  }

  function MapArch(goarch: string): string {
    if goarch == "amd64" then "x64" else goarch
  }

  function MapExt(goos: string): string {
    if goos == "windows" then "zip" else "tar.gz"
  }

  /* Any order of replacements. */

  // All the rescans end.
  ghost predicate EndsInOrder(s: string, order: seq<Placeholder>, values: Placeholder -> string)
    decreases |order|
  {
    order != [] ==>
      && Ends(s, Name(order[0]), values(order[0]))
      && forall r :: IsResult(s, Name(order[0]), values(order[0]), r) ==> EndsInOrder(r, order[1..], values)
  }

  ghost predicate ResultInOrder(s: string, order: seq<Placeholder>, values: Placeholder -> string, r: string)
    decreases |order|
  {
    if order == [] then r == s
    else exists m :: IsResult(s, Name(order[0]), values(order[0]), m) && ResultInOrder(m, order[1..], values, r)
  }

  lemma {:induction false} OneResultInOrder(
    s: string, order: seq<Placeholder>, values: Placeholder -> string, q: string, r: string)
    requires ResultInOrder(s, order, values, q) && ResultInOrder(s, order, values, r)
    ensures q == r
    decreases |order|
  {
    if order != [] {
      var pat, value := Name(order[0]), values(order[0]);
      var m :| IsResult(s, pat, value, m) && ResultInOrder(m, order[1..], values, q);
      var n :| IsResult(s, pat, value, n) && ResultInOrder(n, order[1..], values, r);
      OneResult(s, pat, value, m, n);
      OneResultInOrder(m, order[1..], values, q, r);
    }
  }

  /* When the expansion ends. */

  lemma {:induction false} ValuesEnd(s: string, order: seq<Placeholder>, values: Placeholder -> string)
    requires forall p :: Settled(Name(p), values(p)) && !Contains(values(p), Name(p))
    ensures EndsInOrder(s, order, values)
    decreases |order|
  {
    if order != [] {
      NameBraces(order[0]);
      EndsIff(s, Name(order[0]), values(order[0]));
      forall r | IsResult(s, Name(order[0]), values(order[0]), r) ensures EndsInOrder(r, order[1..], values) {
        ValuesEnd(r, order[1..], values);
      }
    }
  }

  // A value that does not hold its own placeholder is a template by its parts.
  ghost predicate Legible(values: Placeholder -> string, parts: Placeholder -> seq<Token>, p: Placeholder) {
    Contains(values(p), Name(p)) || (IsTemplate(parts(p)) && Render(parts(p)) == values(p))
  }

  // So are all values that come into the template while its holes are filled in order.
  ghost predicate AllLegible(
    tokens: seq<Token>, order: seq<Placeholder>, values: Placeholder -> string, parts: Placeholder -> seq<Token>)
    decreases |order|
  {
    if order == [] then true
    else
      var p := order[0];
      if Hole(p) in tokens && Contains(values(p), Name(p)) then true
      else
        && (Hole(p) in tokens ==> Legible(values, parts, p))
        && AllLegible(Splice(tokens, p, parts(p)), order[1..], values, parts)
  }

  // Filling the holes in order meets one whose value holds its own placeholder.
  ghost predicate MeetsOwn(
    tokens: seq<Token>, order: seq<Placeholder>, values: Placeholder -> string, parts: Placeholder -> seq<Token>)
    decreases |order|
  {
    if order == [] then false
    else
      var p := order[0];
      || (Hole(p) in tokens && Contains(values(p), Name(p)))
      || MeetsOwn(Splice(tokens, p, parts(p)), order[1..], values, parts)
  }

  function SpliceInOrder(
    tokens: seq<Token>, order: seq<Placeholder>, parts: Placeholder -> seq<Token>): seq<Token>
    decreases |order|
  {
    if order == [] then tokens else SpliceInOrder(Splice(tokens, order[0], parts(order[0])), order[1..], parts)
  }

  lemma EndsAfter(s: string, order: seq<Placeholder>, values: Placeholder -> string, m: string)
    requires order != [] && IsResult(s, Name(order[0]), values(order[0]), m)
    ensures EndsInOrder(s, order, values) <==> EndsInOrder(m, order[1..], values)
  {
    var pat, value := Name(order[0]), values(order[0]);
    ResultEnds(s, pat, value, m);
    forall r | IsResult(s, pat, value, r) ensures r == m { OneResult(s, pat, value, r, m); }
  }

  // One replacement, unless it meets its own placeholder.
  lemma StageSplices(
    tokens: seq<Token>, p: Placeholder, values: Placeholder -> string, parts: Placeholder -> seq<Token>)
    requires IsTemplate(tokens) && !(Hole(p) in tokens && Contains(values(p), Name(p)))
    requires Hole(p) in tokens ==> Legible(values, parts, p)
    ensures IsTemplate(Splice(tokens, p, parts(p)))
    ensures IsResult(Render(tokens), Name(p), values(p), Render(Splice(tokens, p, parts(p))))
  {
    SpliceIsTemplate(tokens, p, parts(p));
    if Hole(p) in tokens {
      HoldsIff(parts(p), p);
      ReplaceFills(tokens, p, parts(p));
    } else {
      HoldsIff(tokens, p);
      SpliceNone(tokens, p, parts(p));
      OwnResult(Render(tokens), Name(p), values(p));
    }
  }

  // The expansion of a template ends exactly if no hole is met whose value holds its own
  // placeholder.
  lemma {:induction false} EndsIffNoOwn(
    tokens: seq<Token>, order: seq<Placeholder>, values: Placeholder -> string, parts: Placeholder -> seq<Token>)
    requires IsTemplate(tokens) && AllLegible(tokens, order, values, parts)
    ensures EndsInOrder(Render(tokens), order, values) <==> !MeetsOwn(tokens, order, values, parts)
    decreases |order|
  {
    if order != [] {
      var p := order[0];
      if Hole(p) in tokens && Contains(values(p), Name(p)) {
        HoldsIff(tokens, p);
        RescanNeverEnds(Render(tokens), Name(p), values(p));
      } else {
        StageSplices(tokens, p, values, parts);
        EndsAfter(Render(tokens), order, values, Render(Splice(tokens, p, parts(p))));
        EndsIffNoOwn(Splice(tokens, p, parts(p)), order[1..], values, parts);
      }
    }
  }

  // And then its result is the template with the values spliced in, where later
  // replacements also reach the placeholders that earlier values brought.
  lemma {:induction false} OrderSplices(
    tokens: seq<Token>, order: seq<Placeholder>, values: Placeholder -> string, parts: Placeholder -> seq<Token>)
    requires IsTemplate(tokens) && AllLegible(tokens, order, values, parts)
    requires !MeetsOwn(tokens, order, values, parts)
    ensures ResultInOrder(Render(tokens), order, values, Render(SpliceInOrder(tokens, order, parts)))
    decreases |order|
  {
    if order != [] {
      var p := order[0];
      StageSplices(tokens, p, values, parts);
      OrderSplices(Splice(tokens, p, parts(p)), order[1..], values, parts);
    }
  }

  /* Values without opening braces. */

  function Literal(values: Placeholder -> string): Placeholder -> seq<Token> {
    p => [Lit(values(p))]
  }

  // Each value that a hole in order takes has no opening brace or holds its own
  // placeholder.
  ghost predicate PlainOrOwn(tokens: seq<Token>, order: seq<Placeholder>, values: Placeholder -> string) {
    forall p :: p in order && Hole(p) in tokens ==> '{' !in values(p) || Contains(values(p), Name(p))
  }

  lemma OwnHasBrace(value: string, p: Placeholder)
    requires Contains(value, Name(p))
    ensures '{' in value
  {
    NameBraces(p);
    HoldsEnds(value, Name(p));
  }

  lemma {:induction false} PlainOrOwnLegible(
    tokens: seq<Token>, order: seq<Placeholder>, values: Placeholder -> string)
    requires PlainOrOwn(tokens, order, values)
    ensures AllLegible(tokens, order, values, Literal(values))
    ensures MeetsOwn(tokens, order, values, Literal(values))
       <==> exists p :: p in order && Hole(p) in tokens && '{' in values(p)
    decreases |order|
  {
    if order != [] {
      var p, next := order[0], Splice(tokens, order[0], [Lit(values(order[0]))]);
      if Hole(p) in tokens && Contains(values(p), Name(p)) {
        OwnHasBrace(values(p), p);
      } else {
        if Hole(p) in tokens { LiteralRenders(values(p)); }
        forall q: Placeholder ensures Hole(q) in next <==> Hole(q) in tokens && q != p {
          SpliceHas(tokens, p, [Lit(values(p))], Hole(q));
        }
        PlainOrOwnLegible(next, order[1..], values);
        forall q: Placeholder ensures q in order <==> q == p || q in order[1..] {}
      }
    }
  }

  lemma LiteralRenders(value: string)
    ensures Render([Lit(value)]) == value
  {
    RenderOne(Lit(value));
  }

  // With such values the expansion ends exactly if every hole takes one without opening
  // braces.
  lemma PlainEndsIff(tokens: seq<Token>, order: seq<Placeholder>, values: Placeholder -> string)
    requires IsTemplate(tokens) && PlainOrOwn(tokens, order, values)
    ensures EndsInOrder(Render(tokens), order, values)
       <==> forall p :: p in order && Hole(p) in tokens ==> '{' !in values(p)
  {
    PlainOrOwnLegible(tokens, order, values);
    EndsIffNoOwn(tokens, order, values, Literal(values));
  }

  // Whichever placeholder it is.
  lemma OwnPlaceholderNeverEnds(
    tokens: seq<Token>, order: seq<Placeholder>, values: Placeholder -> string, p: Placeholder)
    requires IsTemplate(tokens) && PlainOrOwn(tokens, order, values)
    requires p in order && Hole(p) in tokens && Contains(values(p), Name(p))
    ensures !EndsInOrder(Render(tokens), order, values)
  {
    OwnHasBrace(values(p), p);
    PlainEndsIff(tokens, order, values);
  }

  // With values free of opening braces, replacing the placeholders one after the other,
  // in any order that has those of the template, is substituting them at once.
  lemma {:induction false} AnyOrderSubstitutes(
    tokens: seq<Token>, order: seq<Placeholder>, values: Placeholder -> string)
    requires IsTemplate(tokens) && forall p :: '{' !in values(p)
    requires forall t :: t in tokens && t.Hole? ==> t.p in order
    ensures ResultInOrder(Render(tokens), order, values, Substitute(tokens, values))
    decreases |order|
  {
    if order == [] {
      LiteralsRender(tokens, values);
    } else {
      var p := order[0];
      LiteralRenders(values(p));
      ReplaceFills(tokens, p, [Lit(values(p))]);
      SpliceIsTemplate(tokens, p, [Lit(values(p))]);
      SpliceSubstitutes(tokens, p, values);
      var next := Splice(tokens, p, [Lit(values(p))]);
      forall t | t in next && t.Hole? ensures t.p in order[1..] {
        SpliceHas(tokens, p, [Lit(values(p))], t);
      }
      AnyOrderSubstitutes(next, order[1..], values);
    }
  }

  /* The five replacements. */

  const ORDER := [Version, Os, Platform, Arch, Ext]

  lemma OrderHasAll(p: Placeholder)
    ensures p in ORDER
  {
    assert ORDER[0] == Version && ORDER[1] == Os && ORDER[2] == Platform && ORDER[3] == Arch && ORDER[4] == Ext;
  }

  function Values(version: string, goos: string, goarch: string): Placeholder -> string {
    p => Value(version, goos, goarch, p)
  }

  lemma ValuesArePlain(version: string, goos: string, goarch: string)
    requires '{' !in version && '{' !in goos && '{' !in goarch
    ensures forall p :: '{' !in Values(version, goos, goarch)(p)
  {
    forall p ensures '{' !in Values(version, goos, goarch)(p) {
      assert Values(version, goos, goarch)(p) == Value(version, goos, goarch, p);
    }
  }

  // The system and architecture names that are mapped have no braces, nor do the
  // results.
  lemma MappedHasNoBrace(goos: string, goarch: string)
    ensures MapPlatform(goos) == goos || ('{' !in goos && '{' !in MapPlatform(goos))
    ensures MapArch(goarch) == goarch || ('{' !in goarch && '{' !in MapArch(goarch))
    ensures '{' !in MapExt(goos)
  {
  }

  lemma PlainIsSettled(p: Placeholder, value: string)
    requires '{' !in value
    ensures Settled(Name(p), value) && !Contains(value, Name(p))
  {
    NameBraces(p);
    LackingIsOneSided(Name(p), value);
  }

  lemma FewBracesIsSettled(p: Placeholder, value: string)
    requires AtMostOne('{', value) || AtMostOne('}', value)
    ensures Settled(Name(p), value)
  {
    NameBraces(p);
  }

  lemma ValueIsSettled(version: string, goos: string, goarch: string, p: Placeholder)
    requires AtMostOne('{', version) || AtMostOne('}', version)
    requires AtMostOne('{', goos) || AtMostOne('}', goos)
    requires AtMostOne('{', goarch) || AtMostOne('}', goarch)
    requires !Contains(version, Name(Version)) && !Contains(goarch, Name(Arch))
    requires !Contains(goos, Name(Os)) && !Contains(goos, Name(Platform))
    ensures Settled(Name(p), Value(version, goos, goarch, p)) && !Contains(Value(version, goos, goarch, p), Name(p))
  {
    var value := Value(version, goos, goarch, p);
    if '{' !in value {
      PlainIsSettled(p, value);
    } else {
      MappedHasNoBrace(goos, goarch);
      FewBracesIsSettled(p, value);
    }
  }

  // The expansion ends, whatever the template, for arguments that each have at most one
  // opening or at most one closing brace and hold no placeholder of their own.
  lemma ExpansionEnds(tpl: string, version: string, goos: string, goarch: string)
    requires AtMostOne('{', version) || AtMostOne('}', version)
    requires AtMostOne('{', goos) || AtMostOne('}', goos)
    requires AtMostOne('{', goarch) || AtMostOne('}', goarch)
    requires !Contains(version, Name(Version)) && !Contains(goarch, Name(Arch))
    requires !Contains(goos, Name(Os)) && !Contains(goos, Name(Platform))
    ensures EndsInOrder(tpl, ORDER, Values(version, goos, goarch))
  {
    var values := Values(version, goos, goarch);
    forall p ensures Settled(Name(p), values(p)) && !Contains(values(p), Name(p)) {
      ValueIsSettled(version, goos, goarch, p);
    }
    ValuesEnd(tpl, ORDER, values);
  }

  // And never for a version that holds its own placeholder, on any text with it.
  lemma ExpansionNeverEnds(tpl: string, version: string, goos: string, goarch: string)
    requires Contains(version, "{version}") && Contains(tpl, "{version}")
    ensures !EndsInOrder(tpl, ORDER, Values(version, goos, goarch))
  {
    RescanNeverEnds(tpl, "{version}", version);
    assert ORDER[0] == Version && Values(version, goos, goarch)(Version) == version;
  }

  // https://github.com/ggml-org/llama.cpp/releases/download/{version}/llama-{version}-bin-{platform}-{arch}.{ext}
  const HOST := "https://github.com/ggml-org/"
  const PATH := "llama.cpp/releases/download/"
  const DEFAULT := [
    Lit(HOST), Lit(PATH), Hole(Version), Lit("/llama-"), Hole(Version),
    Lit("-bin-"), Hole(Platform), Lit("-"), Hole(Arch), Lit("."), Hole(Ext)]

  lemma Unfolds(tokens: seq<Token>, k: nat, values: Placeholder -> string)
    requires k < |tokens|
    ensures Substitute(tokens[k..], values)
         == (match tokens[k] case Lit(text) => text case Hole(p) => values(p)) + Substitute(tokens[k + 1..], values)
  {
    assert tokens[k..][0] == tokens[k] && tokens[k..][1..] == tokens[k + 1..];
  }

  function DefaultFile(version: string, platform: string, arch: string, ext: string): string {
    "/llama-" + (version + ("-bin-" + (platform + ("-" + (arch + ("." + ext))))))
  }

  lemma DefaultSubstitutes(v: Placeholder -> string)
    ensures Substitute(DEFAULT, v)
         == HOST + (PATH + (v(Version) + DefaultFile(v(Version), v(Platform), v(Arch), v(Ext))))
  {
    FileSubstitutes(v);
    Unfolds(DEFAULT, 2, v);
    Unfolds(DEFAULT, 1, v);
    Unfolds(DEFAULT, 0, v);
    assert DEFAULT[0..] == DEFAULT;
  }

  lemma FileSubstitutes(v: Placeholder -> string)
    ensures Substitute(DEFAULT[3..], v) == DefaultFile(v(Version), v(Platform), v(Arch), v(Ext))
  {
    EndSubstitutes(v);
    Unfolds(DEFAULT, 6, v);
    Unfolds(DEFAULT, 5, v);
    Unfolds(DEFAULT, 4, v);
    Unfolds(DEFAULT, 3, v);
  }

  lemma EndSubstitutes(v: Placeholder -> string)
    ensures Substitute(DEFAULT[7..], v) == "-" + (v(Arch) + ("." + v(Ext)))
  {
    assert DEFAULT[11..] == [] && v(Ext) + "" == v(Ext);
    Unfolds(DEFAULT, 10, v);
    Unfolds(DEFAULT, 9, v);
    Unfolds(DEFAULT, 8, v);
    Unfolds(DEFAULT, 7, v);
  }

  // The URLs of the platforms that clients run on.
  lemma PlatformUrls(version: string, goos: string, goarch: string)
    requires goos in {"darwin", "linux", "windows"} && goarch in {"amd64", "arm64"}
    ensures Substitute(DEFAULT, Values(version, goos, goarch))
         == HOST + (PATH + (version + DefaultFile(version,
              if goos == "darwin" then "macos" else if goos == "linux" then "ubuntu" else "win-cpu",
              if goarch == "amd64" then "x64" else "arm64",
              if goos == "windows" then "zip" else "tar.gz")))
  {
    DefaultSubstitutes(Values(version, goos, goarch));
  }

  // Names that are not mapped are kept.
  lemma OtherNamesAreKept(goos: string, goarch: string)
    requires goos !in {"darwin", "linux", "windows"} && goarch != "amd64"
    ensures MapPlatform(goos) == goos && MapArch(goarch) == goarch && MapExt(goos) == "tar.gz"
  {
  }

  lemma HostAndPathArePlain()
    ensures '{' !in HOST && '{' !in PATH
  {
  }

  lemma LiteralsAreTemplate(tokens: seq<Token>)
    requires forall k :: 0 <= k < |tokens| && tokens[k].Lit? ==> '{' !in tokens[k].text
    ensures IsTemplate(tokens)
  {
  }

  lemma DefaultIsTemplate()
    ensures IsTemplate(DEFAULT)
  {
    HostAndPathArePlain();
    LiteralsAreTemplate(DEFAULT);
  }

  lemma DefaultHoles(p: Placeholder)
    ensures Hole(p) in DEFAULT <==> p != Os
  {
    assert DEFAULT[2] == Hole(Version) && DEFAULT[6] == Hole(Platform);
    assert DEFAULT[8] == Hole(Arch) && DEFAULT[10] == Hole(Ext);
  }

  lemma DefaultValue(version: string, goos: string, goarch: string, p: Placeholder)
    requires '{' !in version || Contains(version, Name(Version))
    requires '{' !in goos || Contains(goos, Name(Platform))
    requires '{' !in goarch || Contains(goarch, Name(Arch))
    requires p != Os
    ensures '{' !in Value(version, goos, goarch, p) || Contains(Value(version, goos, goarch, p), Name(p))
    ensures '{' in Value(version, goos, goarch, p)
       <==> (p == Version && '{' in version) || (p == Platform && '{' in goos) || (p == Arch && '{' in goarch)
  {
    MappedHasNoBrace(goos, goarch);
  }

  // The default template, for arguments without opening braces or with the placeholder
  // they fill.
  lemma DefaultEndsIff(version: string, goos: string, goarch: string)
    requires '{' !in version || Contains(version, Name(Version))
    requires '{' !in goos || Contains(goos, Name(Platform))
    requires '{' !in goarch || Contains(goarch, Name(Arch))
    ensures EndsInOrder(Render(DEFAULT), ORDER, Values(version, goos, goarch))
       <==> '{' !in version && '{' !in goos && '{' !in goarch
  {
    var values := Values(version, goos, goarch);
    DefaultIsTemplate();
    forall p: Placeholder
      ensures p in ORDER && (Hole(p) in DEFAULT <==> p != Os)
      ensures p != Os ==> '{' !in values(p) || Contains(values(p), Name(p))
      ensures p != Os ==> ('{' in values(p)
        <==> (p == Version && '{' in version) || (p == Platform && '{' in goos) || (p == Arch && '{' in goarch))
    {
      OrderHasAll(p);
      DefaultHoles(p);
      if p != Os { DefaultValue(version, goos, goarch, p); }
    }
    PlainEndsIff(DEFAULT, ORDER, values);
  }

  // A worker that reports the architecture {arch} or the system {platform}.
  lemma DefaultNeverEnds(version: string, goos: string, goarch: string)
    requires '{' !in version
    ensures '{' !in goos ==> !EndsInOrder(Render(DEFAULT), ORDER, Values(version, goos, "{arch}"))
    ensures '{' !in goarch ==> !EndsInOrder(Render(DEFAULT), ORDER, Values(version, "{platform}", goarch))
  {
    assert OccursAt("{arch}", "{arch}", 0) && OccursAt("{platform}", "{platform}", 0);
    assert "{arch}"[0] == '{' && "{platform}"[0] == '{';
    if '{' !in goos { DefaultEndsIff(version, goos, "{arch}"); }
    if '{' !in goarch { DefaultEndsIff(version, "{platform}", goarch); }
  }

  /* The code itself. */

  lemma ResultStep(s: string, m: string, k: nat, values: Placeholder -> string, r: string)
    requires k < |ORDER| && IsResult(s, Name(ORDER[k]), values(ORDER[k]), m)
    requires ResultInOrder(m, ORDER[k + 1..], values, r)
    ensures ResultInOrder(s, ORDER[k..], values, r)
  {
    assert ORDER[k..][0] == ORDER[k] && ORDER[k..][1..] == ORDER[k + 1..];
  }

  lemma EndsStep(s: string, m: string, k: nat, values: Placeholder -> string)
    requires k < |ORDER| && EndsInOrder(s, ORDER[k..], values)
    ensures Ends(s, Name(ORDER[k]), values(ORDER[k]))
    ensures IsResult(s, Name(ORDER[k]), values(ORDER[k]), m) ==> EndsInOrder(m, ORDER[k + 1..], values)
  {
    assert ORDER[k..][0] == ORDER[k] && ORDER[k..][1..] == ORDER[k + 1..];
  }

  // One of the five calls of ExpandURL.
  method ReplaceNext(url: string, k: nat, value: string, ghost values: Placeholder -> string) returns (r: string)
    requires k < |ORDER| && value == values(ORDER[k]) && EndsInOrder(url, ORDER[k..], values)
    ensures IsResult(url, Name(ORDER[k]), values(ORDER[k]), r) && EndsInOrder(r, ORDER[k + 1..], values)
  {
    EndsStep(url, url, k, values);
    r := ReplaceEach(url, Name(ORDER[k]), value);
    EndsStep(url, r, k, values);
  }

  lemma PlainExpansion(tokens: seq<Token>, version: string, goos: string, goarch: string, url: string)
    requires '{' !in version && '{' !in goos && '{' !in goarch && IsTemplate(tokens)
    requires ResultInOrder(Render(tokens), ORDER, Values(version, goos, goarch), url)
    ensures url == Substitute(tokens, Values(version, goos, goarch))
  {
    var values := Values(version, goos, goarch);
    ValuesArePlain(version, goos, goarch);
    forall p: Placeholder ensures p in ORDER { OrderHasAll(p); }
    AnyOrderSubstitutes(tokens, ORDER, values);
    OneResultInOrder(Render(tokens), ORDER, values, url, Substitute(tokens, values));
  }

  lemma PlainExpansions(tpl: string, version: string, goos: string, goarch: string, url: string)
    requires ResultInOrder(tpl, ORDER, Values(version, goos, goarch), url)
    ensures '{' !in version && '{' !in goos && '{' !in goarch ==>
      forall tokens :: IsTemplate(tokens) && Render(tokens) == tpl ==>
        url == Substitute(tokens, Values(version, goos, goarch))
  {
    if '{' !in version && '{' !in goos && '{' !in goarch {
      forall tokens | IsTemplate(tokens) && Render(tokens) == tpl
        ensures url == Substitute(tokens, Values(version, goos, goarch))
      {
        PlainExpansion(tokens, version, goos, goarch, url);
      }
    }
  }

  lemma FiveResults(
    s: string, s1: string, s2: string, s3: string, s4: string, s5: string, values: Placeholder -> string)
    requires IsResult(s, Name(ORDER[0]), values(ORDER[0]), s1) && IsResult(s1, Name(ORDER[1]), values(ORDER[1]), s2)
    requires IsResult(s2, Name(ORDER[2]), values(ORDER[2]), s3) && IsResult(s3, Name(ORDER[3]), values(ORDER[3]), s4)
    requires IsResult(s4, Name(ORDER[4]), values(ORDER[4]), s5)
    ensures ResultInOrder(s, ORDER, values, s5)
  {
    assert ORDER[0..] == ORDER && ORDER[5..] == [];
    assert ResultInOrder(s5, [], values, s5);
    ResultStep(s4, s5, 4, values, s5);
    ResultStep(s3, s4, 3, values, s5);
    ResultStep(s2, s3, 2, values, s5);
    ResultStep(s1, s2, 1, values, s5);
    ResultStep(s, s1, 0, values, s5);
  }

  // Asks no more than that the five rescans end.
  method ExpandURL(tpl: string, version: string, goos: string, goarch: string)
    returns (url: string, ghost texts: seq<string>)
    requires EndsInOrder(tpl, ORDER, Values(version, goos, goarch))
    ensures |texts| == 6 && texts[0] == tpl && texts[5] == url
    ensures IsResult(texts[0], "{version}", version, texts[1]) && IsResult(texts[1], "{os}", goos, texts[2])
    ensures IsResult(texts[2], "{platform}", MapPlatform(goos), texts[3])
    ensures IsResult(texts[3], "{arch}", MapArch(goarch), texts[4])
    ensures IsResult(texts[4], "{ext}", MapExt(goos), texts[5])
    ensures ResultInOrder(tpl, ORDER, Values(version, goos, goarch), url)
    ensures '{' !in version && '{' !in goos && '{' !in goarch ==>
      forall tokens :: IsTemplate(tokens) && Render(tokens) == tpl ==>
        url == Substitute(tokens, Values(version, goos, goarch))
  {
    ghost var values := Values(version, goos, goarch);
    assert ORDER[0..] == ORDER;
    var url1 := ReplaceNext(tpl, 0, version, values);
    var url2 := ReplaceNext(url1, 1, goos, values);
    var url3 := ReplaceNext(url2, 2, MapPlatform(goos), values);
    var url4 := ReplaceNext(url3, 3, MapArch(goarch), values);
    url := ReplaceNext(url4, 4, MapExt(goos), values);
    texts := [tpl, url1, url2, url3, url4, url];
    FiveResults(tpl, url1, url2, url3, url4, url, values);
    PlainExpansions(tpl, version, goos, goarch, url);
  }
}
