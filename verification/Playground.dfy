/** The playground's URL builder and the parser that should undo it, on paths whose
    parameters each fill a whole segment. */
module Playground {
  import opened Schema
  import opened Seqs
  import opened Templates

  /** One element of a path pattern: a character, or a `{name}` placeholder. */
  datatype Part = Text(c: char) | Hole(name: string)

  /** A URL as far as the playground looks at it. */
  datatype Target = Target(origin: string, path: string)

  /** Percent-encoding (RFC 3986, section 2.1), and what `new URL(path, origin)` gives: None
      where it throws. */
  datatype Url = Url(encode: string -> string, decode: string -> Option<string>, resolve: (string, string) -> Option<Target>)

  // ---------------------------------------------------------------------- patterns

  /** The leftmost reading of `\{([^}]+)\}` placeholders. */
  function ScanHoles(s: string): seq<Part>
    decreases |s|
  {
    if s == "" then []
    else
      var n := FirstAt(s[1..], '}');
      if s[0] == '{' && 0 < n < |s| - 1 then [Hole(s[1..n + 1])] + ScanHoles(s[n + 2..])
      else [Text(s[0])] + ScanHoles(s[1..])
  }

  function WithoutOneTrailingSlash(s: string): string {
    if s != "" && s[|s| - 1] == '/' then s[..|s| - 1] else s
  }

  function WithoutOneLeadingSlash(s: string): string {
    if s != "" && s[0] == '/' then s[1..] else s
  }

  /** `operationPathMatcher`: the pattern of base path and operation path together. */
  function Pattern(basePath: string, operationPath: string): seq<Part> {
    ScanHoles(WithoutOneTrailingSlash(basePath) + "/" + WithoutOneLeadingSlash(operationPath))
  }

  /** A way for the pattern's regular expression to match: a non-empty, slash-free capture per placeholder. */
  ghost predicate Decomposes(parts: seq<Part>, captures: seq<string>, s: string)
    decreases |parts|
  {
    if parts == [] then captures == [] && s == ""
    else if parts[0].Text? then s != "" && s[0] == parts[0].c && Decomposes(parts[1..], captures, s[1..])
    else captures != [] && IsCapture(captures[0]) && captures[0] <= s && Decomposes(parts[1..], captures[1..], s[|captures[0]|..])
  }

  function HoleNames(parts: seq<Part>): seq<string> {
    if parts == [] then []
    else (if parts[0].Hole? then [parts[0].name] else []) + HoleNames(parts[1..])
  }

  function FillHoles(parts: seq<Part>, encode: string -> string, values: map<string, string>): string {
    if parts == [] then ""
    else
      (if parts[0].Text? then [parts[0].c]
       else if parts[0].name in values then encode(values[parts[0].name]) else "")
      + FillHoles(parts[1..], encode, values)
  }

  // ---------------------------------------------------------- building and parsing

  predicate HasValues(names: seq<string>, values: map<string, string>) {
    forall i :: 0 <= i < |names| ==> names[i] in values && values[names[i]] != ""
  }

  datatype BuildError = MissingParameter | InvalidUrl

  /** `buildPlaygroundTarget`, up to the query. */
  function Build(url: Url, origin: string, basePath: string, operationPath: string, values: map<string, string>)
    : Result<Target, BuildError>
  {
    if !HasValues(HoleNames(ScanHoles(operationPath)), values) then Err(MissingParameter)
    else
      var resolved := FillHoles(ScanHoles(operationPath), url.encode, values);
      match url.resolve(origin, WithoutOneTrailingSlash(basePath) + "/" + WithoutOneLeadingSlash(resolved))
      case None => Err(InvalidUrl)
      case Some(target) => Ok(target)
  }

  /** `validatePlaygroundTarget` lets the target through, with these captures. */
  ghost predicate Accepts(origin: string, basePath: string, operationPath: string, target: Target, captures: seq<string>) {
    target.origin == origin && Decomposes(Pattern(basePath, operationPath), captures, target.path)
  }

  /** `parsePlaygroundTarget`'s reading of one capture. */
  function ReadCapture(url: Url, name: string, capture: string): Option<string> {
    match url.decode(capture)
    case None => None
    case Some(value) => Some(if value == "{" + name + "}" then "" else value)
  }

  /** The parameters read back are the given ones. */
  ghost predicate ReadsBack(url: Url, names: seq<string>, captures: seq<string>, values: map<string, string>) {
    && |captures| == |names|
    && forall i :: 0 <= i < |names| ==>
         names[i] in values && ReadCapture(url, names[i], captures[i]) == Some(values[names[i]])
  }

  // --------------------------------------------------------- whole-segment templates

  datatype Segment = Literal(text: string) | Parameter(name: string)

  predicate IsDotSegment(s: string) {
    s == "." || s == ".."
  }

  predicate IsLiteral(s: string) {
    '/' !in s && '{' !in s && '}' !in s && !IsDotSegment(s)
  }

  predicate IsParameter(s: string) {
    s != "" && '}' !in s
  }

  predicate AreWholeSegments(segments: seq<Segment>) {
    forall i :: 0 <= i < |segments| ==>
      match segments[i]
      case Literal(text) => IsLiteral(text)
      case Parameter(name) => IsParameter(name)
  }

  /** The template as written: each segment behind its slash. */
  function Spell(segments: seq<Segment>): string {
    if segments == [] then ""
    else
      "/" + (match segments[0] case Literal(text) => text case Parameter(name) => "{" + name + "}") + Spell(segments[1..])
  }

  /** The path with every parameter's segment replaced. */
  function Written(segments: seq<Segment>, encode: string -> string, values: map<string, string>): string {
    if segments == [] then ""
    else
      "/" + (match segments[0]
             case Literal(text) => text
             case Parameter(name) => if name in values then encode(values[name]) else "")
      + Written(segments[1..], encode, values)
  }

  function Texts(s: string): seq<Part> {
    if s == "" then [] else [Text(s[0])] + Texts(s[1..])
  }

  function Parts(segments: seq<Segment>): seq<Part> {
    if segments == [] then []
    else
      [Text('/')] + (match segments[0] case Literal(text) => Texts(text) case Parameter(name) => [Hole(name)])
      + Parts(segments[1..])
  }

  function ParameterNames(segments: seq<Segment>): seq<string> {
    if segments == [] then []
    else (if segments[0].Parameter? then [segments[0].name] else []) + ParameterNames(segments[1..])
  }

  /** Percent-encoding is invertible, slash-free, keeps dot segments and makes no others, and
      writes plain text. */
  ghost predicate IsStandard(url: Url, plain: string -> bool) {
    && (forall v :: url.decode(url.encode(v)) == Some(v) && '/' !in url.encode(v))
    && (forall v :: v != "" ==> url.encode(v) != "" && plain(url.encode(v)))
    && (forall v :: IsDotSegment(url.encode(v)) <==> IsDotSegment(v))
  }

  /** The path begins with an empty segment and another one: two slashes. */
  predicate StartsEmpty(segments: seq<string>) {
    |segments| > 1 && segments[0] == ""
  }

  /** Plain, slash-free segments whose path does not begin with two slashes. */
  predicate ArePlain(segments: seq<string>, plain: string -> bool) {
    segments != [] && !StartsEmpty(segments) && forall i :: 0 <= i < |segments| ==> '/' !in segments[i] && plain(segments[i])
  }

  predicate HasDotSegment(segments: seq<string>) {
    exists i :: 0 <= i < |segments| && IsDotSegment(segments[i])
  }

  function JoinAll(segments: seq<string>): string {
    if segments == [] then "" else "/" + segments[0] + JoinAll(segments[1..])
  }

  function Slashes(s: string): nat {
    if s == "" then 0 else (if s[0] == '/' then 1 else 0) + Slashes(s[1..])
  }

  /** The URL parser keeps a plain path without dot segments under this origin as it is; a
      dot segment goes with its slash, unless it comes last, which leaves a slash at the end
      (RFC 3986, section 5.2.4); after two slashes a host is read, which takes those slashes
      out of the path (section 4.2). */
  ghost predicate ResolvesPaths(url: Url, plain: string -> bool, origin: string) {
    && (forall segments :: ArePlain(segments, plain) && !HasDotSegment(segments) ==>
          url.resolve(origin, JoinAll(segments)) == Some(Target(origin, JoinAll(segments))))
    && (forall segments ::
          ArePlain(segments, plain) && HasDotSegment(segments) && url.resolve(origin, JoinAll(segments)).Some? ==>
            var path := url.resolve(origin, JoinAll(segments)).value.path;
            Slashes(path) < |segments| || (IsDotSegment(segments[|segments| - 1]) && EndsWithSlash(path)))
    && (forall path :: |path| > 1 && path[0] == '/' == path[1] && url.resolve(origin, path).Some? ==>
          Slashes(url.resolve(origin, path).value.path) < Slashes(path))
  }

  predicate EndsWithSlash(path: string) {
    path != "" && path[|path| - 1] == '/'
  }

  // ------------------------------------------------------------------- the pattern

  lemma {:induction false} ScanText(text: string, rest: string)
    requires '{' !in text
    ensures ScanHoles(text + rest) == Texts(text) + ScanHoles(rest)
    decreases |text|
  {
    if text == "" {
      EmptyFront(rest);
      EmptyFront(ScanHoles(rest));
    } else {
      HeadFirst(text, rest);
      assert (text + rest)[1..] == text[1..] + rest && (text + rest)[0] == text[0];
      ScanText(text[1..], rest);
      Associate([Text(text[0])], Texts(text[1..]), ScanHoles(rest));
    }
  }

  lemma IndexBehind(name: string, rest: string)
    requires '}' !in name
    ensures FirstAt(name + "}" + rest, '}') == |name|
  {
    var s := name + "}" + rest;
    assert s[|name|] == '}' && forall i :: 0 <= i < |name| ==> s[i] == name[i];
  }

  lemma ScanHole(name: string, rest: string)
    requires IsParameter(name)
    ensures ScanHoles("{" + name + "}" + rest) == [Hole(name)] + ScanHoles(rest)
  {
    var s := "{" + name + "}" + rest;
    assert s[1..] == name + "}" + rest;
    IndexBehind(name, rest);
    assert s[1..|name| + 1] == name && s[|name| + 2..] == rest;
  }

  lemma {:induction false} ScanSpelling(segments: seq<Segment>)
    requires AreWholeSegments(segments)
    ensures ScanHoles(Spell(segments)) == Parts(segments)
    decreases |segments|
  {
    if segments != [] {
      var rest := Spell(segments[1..]);
      ScanSpelling(segments[1..]);
      match segments[0]
      case Literal(text) =>
        Associate("/", text, rest);
        ScanText("/", text + rest);
        ScanText(text, rest);
        Associate([Text('/')], Texts(text), ScanHoles(rest));
        assert Texts("/") == [Text('/')];
      case Parameter(name) =>
        var hole := "{" + name + "}";
        Associate("/", hole, rest);
        ScanText("/", hole + rest);
        ScanHole(name, rest);
        Associate([Text('/')], [Hole(name)], ScanHoles(rest));
        assert Texts("/") == [Text('/')];
    }
  }

  // ------------------------------------------------------------- one decomposition

  lemma {:induction false} DecomposeText(text: string, parts: seq<Part>, captures: seq<string>, rest: string)
    ensures Decomposes(Texts(text) + parts, captures, text + rest) <==> Decomposes(parts, captures, rest)
    decreases |text|
  {
    if text == "" {
      EmptyFront(parts);
      EmptyFront(rest);
    } else {
      HeadFirst(Texts(text), parts);
      HeadFirst(text, rest);
      assert (Texts(text) + parts)[1..] == Texts(text[1..]) + parts && (text + rest)[1..] == text[1..] + rest;
      DecomposeText(text[1..], parts, captures, rest);
    }
  }

  function Encoded(names: seq<string>, encode: string -> string, values: map<string, string>): seq<string> {
    if names == [] then []
    else [if names[0] in values then encode(values[names[0]]) else ""] + Encoded(names[1..], encode, values)
  }

  predicate AreCaptures(names: seq<string>, encode: string -> string, values: map<string, string>) {
    forall i :: 0 <= i < |names| ==> names[i] in values && IsCapture(encode(values[names[i]]))
  }

  /** What follows a whole segment starts with a slash or is nothing. */
  lemma RestStartsWithSlash(segments: seq<Segment>, encode: string -> string, values: map<string, string>)
    ensures Written(segments, encode, values) == "" || Written(segments, encode, values)[0] == '/'
  {}

  lemma MatchedRestStartsWithSlash(segments: seq<Segment>, captures: seq<string>, s: string)
    requires Decomposes(Parts(segments), captures, s)
    ensures s == "" || s[0] == '/'
  {}

  /** Two slash-free fronts of a text, each followed by a slash or the end, are the same. */
  lemma SameFront(a: string, b: string, x: string, y: string)
    requires a + x == b + y && '/' !in a && '/' !in b
    requires (x == "" || x[0] == '/') && (y == "" || y[0] == '/')
    ensures a == b && x == y
  {
    FrontEndsAtSlash(a, x);
    FrontEndsAtSlash(b, y);
    assert a == (a + x)[..|a|] && b == (b + y)[..|b|] && x == (a + x)[|a|..] && y == (b + y)[|b|..];
  }

  lemma {:induction false} FrontEndsAtSlash(a: string, x: string)
    requires '/' !in a && (x == "" || x[0] == '/')
    ensures FirstAt(a + x, '/') == |a|
    decreases |a|
  {
    if a == "" {
      EmptyFront(x);
    } else {
      HeadFirst(a, x);
      assert (a + x)[0] == a[0] && (a + x)[1..] == a[1..] + x;
      FrontEndsAtSlash(a[1..], x);
    }
  }

  lemma DecomposeHole(name: string, parts: seq<Part>, captures: seq<string>, s: string)
    ensures Decomposes([Hole(name)] + parts, captures, s)
       <==> captures != [] && IsCapture(captures[0]) && captures[0] <= s && Decomposes(parts, captures[1..], s[|captures[0]|..])
  {
    assert ([Hole(name)] + parts)[1..] == parts;
  }

  /** A written template decomposes into the encoded values, and in no other way. */
  lemma {:induction false} OnlyDecomposition(
    segments: seq<Segment>, encode: string -> string, values: map<string, string>, captures: seq<string>)
    requires AreCaptures(ParameterNames(segments), encode, values)
    ensures Decomposes(Parts(segments), captures, Written(segments, encode, values))
       <==> captures == Encoded(ParameterNames(segments), encode, values)
    decreases |segments|
  {
    if segments != [] {
      var rest, parts := Written(segments[1..], encode, values), Parts(segments[1..]);
      match segments[0]
      case Literal(text) =>
        EmptyFront(ParameterNames(segments[1..]));
        OnlyDecomposition(segments[1..], encode, values, captures);
        Associate("/", text, rest);
        Associate([Text('/')], Texts(text), parts);
        DecomposeText("/", Texts(text) + parts, captures, text + rest);
        DecomposeText(text, parts, captures, rest);
        assert Texts("/") == [Text('/')];
      case Parameter(name) =>
        var names := ParameterNames(segments[1..]);
        assert ParameterNames(segments)[1..] == names;
        var value := encode(values[ParameterNames(segments)[0]]);
        Associate("/", value, rest);
        Associate([Text('/')], [Hole(name)], parts);
        DecomposeText("/", [Hole(name)] + parts, captures, value + rest);
        DecomposeHole(name, parts, captures, value + rest);
        assert Texts("/") == [Text('/')];
        HoleTakesValue(segments[1..], encode, values, value, captures);
        if captures != [] { OnlyDecomposition(segments[1..], encode, values, captures[1..]); }
        EncodedHead(value, Encoded(names, encode, values), captures);
    }
  }

  lemma EncodedHead(value: string, rest: seq<string>, captures: seq<string>)
    ensures captures == [value] + rest <==> captures != [] && captures[0] == value && captures[1..] == rest
  {
    if captures != [] { HeadFirst(captures, []); }
  }

  lemma HoleTakesValue(
    segments: seq<Segment>, encode: string -> string, values: map<string, string>, value: string, captures: seq<string>)
    requires IsCapture(value)
    ensures var s := value + Written(segments, encode, values);
            captures != [] && IsCapture(captures[0]) && captures[0] <= s && Decomposes(Parts(segments), captures[1..], s[|captures[0]|..])
            <==> captures != [] && captures[0] == value && Decomposes(Parts(segments), captures[1..], Written(segments, encode, values))
  {
    var rest := Written(segments, encode, values);
    var s := value + rest;
    RestStartsWithSlash(segments, encode, values);
    assert s[|value|..] == rest && value <= s;
    if captures != [] && IsCapture(captures[0]) && captures[0] <= s
       && Decomposes(Parts(segments), captures[1..], s[|captures[0]|..]) {
      MatchedRestStartsWithSlash(segments, captures[1..], s[|captures[0]|..]);
      assert s == captures[0] + s[|captures[0]|..];
      SameFront(captures[0], value, s[|captures[0]|..], rest);
    }
  }

  // ------------------------------------------------------------- the path that is built

  lemma {:induction false} FillText(text: string, parts: seq<Part>, encode: string -> string, values: map<string, string>)
    ensures FillHoles(Texts(text) + parts, encode, values) == text + FillHoles(parts, encode, values)
    decreases |text|
  {
    if text == "" {
      EmptyFront(parts);
      EmptyFront(FillHoles(parts, encode, values));
    } else {
      HeadFirst(Texts(text), parts);
      assert (Texts(text) + parts)[1..] == Texts(text[1..]) + parts;
      FillText(text[1..], parts, encode, values);
      HeadFirst(text, FillHoles(parts, encode, values));
    }
  }

  lemma {:induction false} FillIsWritten(segments: seq<Segment>, encode: string -> string, values: map<string, string>)
    ensures FillHoles(Parts(segments), encode, values) == Written(segments, encode, values)
    ensures HoleNames(Parts(segments)) == ParameterNames(segments)
    decreases |segments|
  {
    if segments != [] {
      var parts := Parts(segments[1..]);
      FillIsWritten(segments[1..], encode, values);
      match segments[0]
      case Literal(text) =>
        Associate([Text('/')], Texts(text), parts);
        Associate("/", text, Written(segments[1..], encode, values));
        FillText("/", Texts(text) + parts, encode, values);
        FillText(text, parts, encode, values);
        NamesOfText("/", Texts(text) + parts);
        NamesOfText(text, parts);
        assert Texts("/") == [Text('/')];
      case Parameter(name) =>
        Associate([Text('/')], [Hole(name)], parts);
        FillText("/", [Hole(name)] + parts, encode, values);
        NamesOfText("/", [Hole(name)] + parts);
        assert ([Hole(name)] + parts)[1..] == parts && Texts("/") == [Text('/')];
        Associate("/", if name in values then encode(values[name]) else "", Written(segments[1..], encode, values));
    }
  }

  lemma {:induction false} NamesOfText(text: string, parts: seq<Part>)
    ensures HoleNames(Texts(text) + parts) == HoleNames(parts)
    decreases |text|
  {
    if text == "" {
      EmptyFront(parts);
    } else {
      HeadFirst(Texts(text), parts);
      assert (Texts(text) + parts)[1..] == Texts(text[1..]) + parts;
      NamesOfText(text[1..], parts);
    }
  }

  predicate AreLiterals(segments: seq<Segment>) {
    forall i :: 0 <= i < |segments| ==> segments[i].Literal?
  }

  lemma {:induction false} BaseInFront(base: seq<Segment>, segments: seq<Segment>, encode: string -> string, values: map<string, string>)
    requires AreLiterals(base)
    ensures Spell(base + segments) == Spell(base) + Spell(segments)
    ensures Written(base + segments, encode, values) == Spell(base) + Written(segments, encode, values)
    ensures ParameterNames(base + segments) == ParameterNames(segments)
    decreases |base|
  {
    if base == [] {
      EmptyFront(segments);
      EmptyFront(Spell(segments));
      EmptyFront(Written(segments, encode, values));
    } else {
      assert (base + segments)[1..] == base[1..] + segments && (base + segments)[0] == base[0];
      BaseInFront(base[1..], segments, encode, values);
      Associate("/" + base[0].text, Spell(base[1..]), Spell(segments));
      Associate("/" + base[0].text, Spell(base[1..]), Written(segments, encode, values));
      EmptyFront(ParameterNames(segments));
    }
  }

  function Pieces(segments: seq<Segment>, encode: string -> string, values: map<string, string>): (r: seq<string>)
    ensures |r| == |segments|
  {
    if segments == [] then []
    else
      [match segments[0] case Literal(text) => text case Parameter(name) => if name in values then encode(values[name]) else ""]
      + Pieces(segments[1..], encode, values)
  }

  /** The parameter's value is a dot segment. */
  predicate IsDotted(segment: Segment, values: map<string, string>) {
    segment.Parameter? && segment.name in values && IsDotSegment(values[segment.name])
  }

  lemma {:induction false} WrittenIsPlain(
    segments: seq<Segment>, url: Url, plain: string -> bool, values: map<string, string>)
    requires IsStandard(url, plain) && AreWholeSegments(segments)
    requires forall i :: 0 <= i < |segments| && segments[i].Literal? ==> plain(segments[i].text)
    requires forall i :: 0 <= i < |segments| && segments[i].Parameter? ==>
               segments[i].name in values && values[segments[i].name] != ""
    ensures var pieces := Pieces(segments, url.encode, values);
            && Written(segments, url.encode, values) == JoinAll(pieces)
            && (forall i :: 0 <= i < |pieces| ==> '/' !in pieces[i] && plain(pieces[i]))
            && (forall i :: 0 <= i < |pieces| ==> (IsDotSegment(pieces[i]) <==> IsDotted(segments[i], values)))
            && (StartsEmpty(pieces) <==> StartsWithEmptyLiteral(segments))
    decreases |segments|
  {
    if segments != [] {
      WrittenIsPlain(segments[1..], url, plain, values);
    }
  }

  lemma {:induction false} SlashesConcat(a: string, b: string)
    ensures Slashes(a + b) == Slashes(a) + Slashes(b)
    decreases |a|
  {
    if a == "" {
      EmptyFront(b);
    } else {
      HeadFirst(a, b);
      assert (a + b)[1..] == a[1..] + b;
      SlashesConcat(a[1..], b);
    }
  }

  lemma NoSlashes(s: string)
    requires '/' !in s
    ensures Slashes(s) == 0
  {}

  /** A match of a template, its first segment taken off. */
  lemma FirstMatched(segments: seq<Segment>, captures: seq<string>, s: string)
    returns (piece: string, others: seq<string>, rest: string)
    requires AreWholeSegments(segments) && segments != [] && Decomposes(Parts(segments), captures, s)
    ensures s == "/" + (piece + rest) && '/' !in piece && (segments[0].Parameter? ==> piece != "")
    ensures Decomposes(Parts(segments[1..]), others, rest)
  {
    var parts := Parts(segments[1..]);
    assert s == "/" + s[1..];
    match segments[0]
    case Literal(text) =>
      Associate([Text('/')], Texts(text), parts);
      assert ([Text('/')] + (Texts(text) + parts))[1..] == Texts(text) + parts;
      piece, others := text, captures;
      rest := MatchedText(text, parts, captures, s[1..]);
    case Parameter(name) =>
      Associate([Text('/')], [Hole(name)], parts);
      assert ([Text('/')] + ([Hole(name)] + parts))[1..] == [Hole(name)] + parts;
      DecomposeHole(name, parts, captures, s[1..]);
      piece, others, rest := captures[0], captures[1..], s[1..][|captures[0]|..];
      assert s[1..] == piece + rest;
  }

  /** Whatever matches a template has one slash for each of its segments. */
  lemma {:induction false} MatchedSlashes(segments: seq<Segment>, captures: seq<string>, s: string)
    requires AreWholeSegments(segments) && Decomposes(Parts(segments), captures, s)
    ensures Slashes(s) == |segments|
    decreases |segments|
  {
    if segments != [] {
      var piece, others, rest := FirstMatched(segments, captures, s);
      MatchedSlashes(segments[1..], others, rest);
      SlashesConcat("/", piece + rest);
      SlashesConcat(piece, rest);
      NoSlashes(piece);
    }
  }

  lemma {:induction false} MatchedText(text: string, parts: seq<Part>, captures: seq<string>, s: string) returns (rest: string)
    requires Decomposes(Texts(text) + parts, captures, s)
    ensures s == text + rest && Decomposes(parts, captures, rest)
    decreases |text|
  {
    if text == "" {
      EmptyFront(parts);
      EmptyFront(s);
      rest := s;
    } else {
      assert (Texts(text) + parts)[1..] == Texts(text[1..]) + parts && (Texts(text) + parts)[0] == Text(text[0]);
      rest := MatchedText(text[1..], parts, captures, s[1..]);
      assert s == [s[0]] + s[1..];
      Associate([s[0]], text[1..], rest);
      HeadFirst(text, rest);
    }
  }

  // -------------------------------------------------------------------- round trip

  lemma {:induction false} EncodedAt(names: seq<string>, encode: string -> string, values: map<string, string>, i: nat)
    requires i < |names| && names[i] in values
    ensures |Encoded(names, encode, values)| == |names| && Encoded(names, encode, values)[i] == encode(values[names[i]])
    decreases |names|
  {
    EncodedLength(names, encode, values);
    if i > 0 { EncodedAt(names[1..], encode, values, i - 1); }
  }

  lemma {:induction false} EncodedLength(names: seq<string>, encode: string -> string, values: map<string, string>)
    ensures |Encoded(names, encode, values)| == |names|
    decreases |names|
  {
    if names != [] { EncodedLength(names[1..], encode, values); }
  }

  lemma {:induction false} NamesAreParameters(segments: seq<Segment>, name: string)
    ensures name in ParameterNames(segments) <==> exists i :: 0 <= i < |segments| && segments[i] == Parameter(name)
    decreases |segments|
  {
    if segments != [] {
      NamesAreParameters(segments[1..], name);
      assert segments == [segments[0]] + segments[1..];
    }
  }

  /** A template of whole segments under a literal base path. */
  ghost predicate IsTemplate(
    basePath: string, operationPath: string, base: seq<Segment>, segments: seq<Segment>, plain: string -> bool)
  {
    && WithoutOneTrailingSlash(basePath) == Spell(base) && operationPath == Spell(segments) && segments != []
    && AreLiterals(base) && AreWholeSegments(base + segments)
    && forall i :: 0 <= i < |base + segments| && (base + segments)[i].Literal? ==> plain((base + segments)[i].text)
  }

  /** The template begins with an empty segment and another one. */
  predicate StartsWithEmptyLiteral(all: seq<Segment>) {
    |all| > 1 && all[0] == Literal("")
  }

  predicate NoneIsItsPlaceholder(names: seq<string>, values: map<string, string>) {
    forall i :: 0 <= i < |names| && names[i] in values ==> values[names[i]] != "{" + names[i] + "}"
  }

  lemma SlashBetween(base: string, path: string)
    requires path != "" && path[0] == '/'
    ensures base + "/" + WithoutOneLeadingSlash(path) == base + path
  {
    assert path == "/" + path[1..];
    Associate(base, "/", path[1..]);
  }

  lemma WrittenStartsWithSlash(segments: seq<Segment>, encode: string -> string, values: map<string, string>)
    requires segments != []
    ensures Spell(segments) != "" && Spell(segments)[0] == '/'
    ensures Written(segments, encode, values) != "" && Written(segments, encode, values)[0] == '/'
  {}

  lemma PatternIsParts(
    basePath: string, operationPath: string, base: seq<Segment>, segments: seq<Segment>, plain: string -> bool)
    requires IsTemplate(basePath, operationPath, base, segments, plain)
    ensures Pattern(basePath, operationPath) == Parts(base + segments)
    ensures ScanHoles(operationPath) == Parts(segments)
  {
    assert forall i :: 0 <= i < |segments| ==> (base + segments)[|base| + i] == segments[i];
    ScanSpelling(segments);
    ScanSpelling(base + segments);
    BaseInFront(base, segments, s => s, map[]);
    WrittenStartsWithSlash(segments, s => s, map[]);
    SlashBetween(Spell(base), operationPath);
  }

  /** The pieces of a written template: plain, and empty in front where the template is. */
  lemma WrittenPieces(url: Url, plain: string -> bool, all: seq<Segment>, values: map<string, string>)
    requires IsStandard(url, plain) && AreWholeSegments(all)
    requires forall i :: 0 <= i < |all| && all[i].Literal? ==> plain(all[i].text)
    requires HasValues(ParameterNames(all), values)
    ensures var pieces := Pieces(all, url.encode, values);
            && Written(all, url.encode, values) == JoinAll(pieces)
            && (forall i :: 0 <= i < |pieces| ==> '/' !in pieces[i] && plain(pieces[i]))
            && (forall i :: 0 <= i < |pieces| ==> (IsDotSegment(pieces[i]) <==> IsDotted(all[i], values)))
            && (StartsEmpty(pieces) <==> StartsWithEmptyLiteral(all))
  {
    forall i | 0 <= i < |all| && all[i].Parameter? ensures all[i].name in values && values[all[i].name] != "" {
      NamesAreParameters(all, all[i].name);
      ValueOf(ParameterNames(all), values, all[i].name);
    }
    WrittenIsPlain(all, url, plain, values);
  }

  lemma {:induction false} SlashPerPiece(pieces: seq<string>)
    requires forall i :: 0 <= i < |pieces| ==> '/' !in pieces[i]
    ensures Slashes(JoinAll(pieces)) == |pieces|
    decreases |pieces|
  {
    if pieces != [] {
      SlashPerPiece(pieces[1..]);
      NoSlashes(pieces[0]);
      SlashesConcat("/" + pieces[0], JoinAll(pieces[1..]));
      SlashesConcat("/", pieces[0]);
    }
  }

  lemma TwoSlashes(pieces: seq<string>)
    requires StartsEmpty(pieces)
    ensures |JoinAll(pieces)| > 1 && JoinAll(pieces)[0] == '/' == JoinAll(pieces)[1]
  {
    assert JoinAll(pieces) == "/" + JoinAll(pieces[1..]);
  }

  /** What is handed to the URL parser. */
  lemma BuiltFrom(
    url: Url, plain: string -> bool, origin: string, basePath: string, operationPath: string,
    base: seq<Segment>, segments: seq<Segment>, values: map<string, string>)
    requires IsTemplate(basePath, operationPath, base, segments, plain) && HasValues(ParameterNames(segments), values)
    ensures var resolved := url.resolve(origin, Written(base + segments, url.encode, values));
            Build(url, origin, basePath, operationPath, values) == if resolved.None? then Err(InvalidUrl) else Ok(resolved.value)
  {
    PatternIsParts(basePath, operationPath, base, segments, plain);
    FillIsWritten(segments, url.encode, values);
    BaseInFront(base, segments, url.encode, values);
    WrittenStartsWithSlash(segments, url.encode, values);
    SlashBetween(Spell(base), Written(segments, url.encode, values));
  }

  lemma ValueOf(names: seq<string>, values: map<string, string>, name: string)
    requires HasValues(names, values) && name in names
    ensures name in values && values[name] != ""
  {}

  lemma ReadsBackIff(url: Url, plain: string -> bool, names: seq<string>, values: map<string, string>)
    requires IsStandard(url, plain) && HasValues(names, values)
    ensures ReadsBack(url, names, Encoded(names, url.encode, values), values) <==> NoneIsItsPlaceholder(names, values)
  {
    EncodedLength(names, url.encode, values);
    forall i | 0 <= i < |names|
      ensures ReadCapture(url, names[i], Encoded(names, url.encode, values)[i]) == Some(values[names[i]])
         <==> values[names[i]] != "{" + names[i] + "}"
    {
      EncodedAt(names, url.encode, values, i);
    }
  }

  predicate NoneIsDotSegment(names: seq<string>, values: map<string, string>) {
    forall i :: 0 <= i < |names| && names[i] in values ==> !IsDotSegment(values[names[i]])
  }

  lemma DottedValues(base: seq<Segment>, segments: seq<Segment>, values: map<string, string>)
    requires AreLiterals(base)
    ensures NoneIsDotSegment(ParameterNames(segments), values)
       <==> forall i :: 0 <= i < |base + segments| ==> !IsDotted((base + segments)[i], values)
  {
    var all, names := base + segments, ParameterNames(segments);
    BaseInFront(base, segments, s => s, map[]);
    forall i | 0 <= i < |names| ensures exists k :: 0 <= k < |all| && all[k] == Parameter(names[i]) {
      NamesAreParameters(all, names[i]);
    }
    forall i | 0 <= i < |all| && all[i].Parameter? ensures all[i].name in names {
      NamesAreParameters(all, all[i].name);
    }
  }

  /** A template that begins with an empty segment: no reading of what is built exists. */
  lemma EmptyFrontIsRefused(
    url: Url, plain: string -> bool, origin: string, basePath: string, operationPath: string,
    base: seq<Segment>, segments: seq<Segment>, values: map<string, string>, captures: seq<string>)
    requires IsStandard(url, plain) && ResolvesPaths(url, plain, origin)
    requires IsTemplate(basePath, operationPath, base, segments, plain) && StartsWithEmptyLiteral(base + segments)
    requires HasValues(ParameterNames(segments), values)
    ensures var built := Build(url, origin, basePath, operationPath, values);
            built.Ok? ==> !Accepts(origin, basePath, operationPath, built.value, captures)
  {
    var all, pieces := base + segments, Pieces(base + segments, url.encode, values);
    BuiltFrom(url, plain, origin, basePath, operationPath, base, segments, values);
    BaseInFront(base, segments, url.encode, values);
    WrittenPieces(url, plain, all, values);
    SlashPerPiece(pieces);
    TwoSlashes(pieces);
    PatternIsParts(basePath, operationPath, base, segments, plain);
    var resolved := url.resolve(origin, JoinAll(pieces));
    if resolved.Some? && Decomposes(Parts(all), captures, resolved.value.path) {
      MatchedSlashes(all, captures, resolved.value.path);
    }
  }

  /** What matches a template that ends with a parameter does not end with a slash. */
  lemma {:induction false} MatchedEnd(segments: seq<Segment>, captures: seq<string>, s: string)
    requires AreWholeSegments(segments) && Decomposes(Parts(segments), captures, s)
    requires segments != [] && segments[|segments| - 1].Parameter?
    ensures !EndsWithSlash(s)
    decreases |segments|
  {
    var piece, others, rest := FirstMatched(segments, captures, s);
    MatchedSlashes(segments[1..], others, rest);
    if segments[1..] != [] {
      MatchedEnd(segments[1..], others, rest);
      assert s[|s| - 1] == rest[|rest| - 1];
    } else {
      assert rest == "" && s[|s| - 1] == piece[|piece| - 1] && piece[|piece| - 1] in piece;
    }
  }

  /** A dot segment among the values: the parser takes it out, and the path no longer matches. */
  lemma DotSegmentIsRefused(
    url: Url, plain: string -> bool, origin: string, basePath: string, operationPath: string,
    base: seq<Segment>, segments: seq<Segment>, values: map<string, string>, captures: seq<string>)
    requires IsStandard(url, plain) && ResolvesPaths(url, plain, origin)
    requires IsTemplate(basePath, operationPath, base, segments, plain) && !StartsWithEmptyLiteral(base + segments)
    requires HasValues(ParameterNames(segments), values) && !NoneIsDotSegment(ParameterNames(segments), values)
    ensures var built := Build(url, origin, basePath, operationPath, values);
            built.Ok? ==> !Accepts(origin, basePath, operationPath, built.value, captures)
  {
    var all, pieces := base + segments, Pieces(base + segments, url.encode, values);
    BuiltFrom(url, plain, origin, basePath, operationPath, base, segments, values);
    BaseInFront(base, segments, url.encode, values);
    WrittenPieces(url, plain, all, values);
    DottedValues(base, segments, values);
    PatternIsParts(basePath, operationPath, base, segments, plain);
    assert HasDotSegment(pieces) && ArePlain(pieces, plain);
    var resolved := url.resolve(origin, JoinAll(pieces));
    if resolved.Some? && Decomposes(Parts(all), captures, resolved.value.path) {
      MatchedSlashes(all, captures, resolved.value.path);
      if all[|all| - 1].Parameter? { MatchedEnd(all, captures, resolved.value.path); }
    }
  }

  lemma UndottedStays(
    url: Url, plain: string -> bool, origin: string, base: seq<Segment>, segments: seq<Segment>, values: map<string, string>)
    requires IsStandard(url, plain) && ResolvesPaths(url, plain, origin)
    requires AreLiterals(base) && AreWholeSegments(base + segments) && !StartsWithEmptyLiteral(base + segments)
    requires segments != []
    requires forall i :: 0 <= i < |base + segments| && (base + segments)[i].Literal? ==> plain((base + segments)[i].text)
    requires ParameterNames(base + segments) == ParameterNames(segments)
    requires HasValues(ParameterNames(segments), values) && NoneIsDotSegment(ParameterNames(segments), values)
    ensures var written := Written(base + segments, url.encode, values);
            url.resolve(origin, written) == Some(Target(origin, written))
  {
    var pieces := Pieces(base + segments, url.encode, values);
    WrittenPieces(url, plain, base + segments, values);
    DottedValues(base, segments, values);
    assert ArePlain(pieces, plain) && !HasDotSegment(pieces);
  }

  /** Otherwise the URL parser leaves what was written as it is. */
  lemma BuiltAsWritten(
    url: Url, plain: string -> bool, origin: string, basePath: string, operationPath: string,
    base: seq<Segment>, segments: seq<Segment>, values: map<string, string>)
    requires IsStandard(url, plain) && ResolvesPaths(url, plain, origin)
    requires IsTemplate(basePath, operationPath, base, segments, plain) && !StartsWithEmptyLiteral(base + segments)
    requires HasValues(ParameterNames(segments), values) && NoneIsDotSegment(ParameterNames(segments), values)
    ensures Build(url, origin, basePath, operationPath, values)
         == Ok(Target(origin, Written(base + segments, url.encode, values)))
  {
    BuiltFrom(url, plain, origin, basePath, operationPath, base, segments, values);
    BaseInFront(base, segments, url.encode, values);
    UndottedStays(url, plain, origin, base, segments, values);
  }

  /** So the built target is accepted in exactly one way. */
  lemma BuiltIsReadOneWay(
    url: Url, plain: string -> bool, origin: string, basePath: string, operationPath: string,
    base: seq<Segment>, segments: seq<Segment>, values: map<string, string>, captures: seq<string>)
    requires IsStandard(url, plain) && ResolvesPaths(url, plain, origin)
    requires IsTemplate(basePath, operationPath, base, segments, plain) && !StartsWithEmptyLiteral(base + segments)
    requires HasValues(ParameterNames(segments), values) && NoneIsDotSegment(ParameterNames(segments), values)
    ensures var built := Build(url, origin, basePath, operationPath, values);
            && built.Ok?
            && (Accepts(origin, basePath, operationPath, built.value, captures)
                <==> captures == Encoded(ParameterNames(segments), url.encode, values))
  {
    var names, all := ParameterNames(segments), base + segments;
    BuiltAsWritten(url, plain, origin, basePath, operationPath, base, segments, values);
    BaseInFront(base, segments, url.encode, values);
    PatternIsParts(basePath, operationPath, base, segments, plain);
    forall i | 0 <= i < |names| ensures names[i] in values && IsCapture(url.encode(values[names[i]])) {
      ValueOf(names, values, names[i]);
    }
    OnlyDecomposition(all, url.encode, values, captures);
  }

  /** And under no other origin. */
  lemma BuiltIsForItsOrigin(
    url: Url, plain: string -> bool, origin: string, basePath: string, operationPath: string,
    base: seq<Segment>, segments: seq<Segment>, values: map<string, string>, other: string, captures: seq<string>)
    requires IsStandard(url, plain) && ResolvesPaths(url, plain, origin)
    requires IsTemplate(basePath, operationPath, base, segments, plain) && !StartsWithEmptyLiteral(base + segments)
    requires HasValues(ParameterNames(segments), values) && NoneIsDotSegment(ParameterNames(segments), values)
    requires captures == Encoded(ParameterNames(segments), url.encode, values)
    ensures var built := Build(url, origin, basePath, operationPath, values);
            built.Ok? && (Accepts(other, basePath, operationPath, built.value, captures) <==> other == origin)
  {
    BuiltAsWritten(url, plain, origin, basePath, operationPath, base, segments, values);
    BuiltIsReadOneWay(url, plain, origin, basePath, operationPath, base, segments, values, captures);
  }

  predicate IsMissing(segment: Segment, values: map<string, string>) {
    segment.Parameter? && (segment.name !in values || values[segment.name] == "")
  }

  lemma {:induction false} ValuesAreMissingIff(segments: seq<Segment>, values: map<string, string>)
    ensures HasValues(ParameterNames(segments), values) <==> forall i :: 0 <= i < |segments| ==> !IsMissing(segments[i], values)
    decreases |segments|
  {
    if segments != [] {
      var names := ParameterNames(segments[1..]);
      ValuesAreMissingIff(segments[1..], values);
      EmptyFront(names);
      FirstHasValue(segments[0], names, values);
      HeadFirst(segments, []);
    }
  }

  lemma FirstHasValue(segment: Segment, names: seq<string>, values: map<string, string>)
    ensures HasValues((if segment.Parameter? then [segment.name] else []) + names, values)
       <==> HasValues(names, values) && !IsMissing(segment, values)
  {
    EmptyFront(names);
    if segment.Parameter? {
      var all := [segment.name] + names;
      assert all[0] == segment.name && forall i :: 0 <= i < |names| ==> all[i + 1] == names[i];
    }
  }

  /** Nothing is built while some parameter has no value. */
  lemma MissingIsRefusedIff(url: Url, origin: string, basePath: string, segments: seq<Segment>, values: map<string, string>)
    requires AreWholeSegments(segments)
    ensures Build(url, origin, basePath, Spell(segments), values) == Err(MissingParameter)
       <==> exists i :: 0 <= i < |segments| && IsMissing(segments[i], values)
  {
    ScanSpelling(segments);
    FillIsWritten(segments, url.encode, values);
    ValuesAreMissingIff(segments, values);
  }

  lemma SlashIsText(path: string, encode: string -> string, values: map<string, string>)
    ensures ScanHoles("/" + path) == [Text('/')] + ScanHoles(path)
    ensures HoleNames(ScanHoles("/" + path)) == HoleNames(ScanHoles(path))
    ensures FillHoles(ScanHoles("/" + path), encode, values) == "/" + FillHoles(ScanHoles(path), encode, values)
  {
    ScanText("/", path);
    NamesOfText("/", ScanHoles(path));
    FillText("/", ScanHoles(path), encode, values);
  }

  lemma SlashesAreCut(base: string, path: string)
    ensures WithoutOneTrailingSlash(base + "/") == base && WithoutOneLeadingSlash("/" + path) == path
    ensures base == "" || base[|base| - 1] != '/' ==> WithoutOneTrailingSlash(base) == base
    ensures path == "" || path[0] != '/' ==> WithoutOneLeadingSlash(path) == path
  {}

  lemma FirstIsFilled(path: string, encode: string -> string, values: map<string, string>)
    ensures var filled := FillHoles(ScanHoles(path), encode, values);
            && (path == "" ==> filled == "")
            && (path != "" && path[0] != '{' ==> filled != "" && filled[0] == path[0])
  {
    if path != "" && path[0] != '{' {
      var parts := ScanHoles(path);
      assert parts == [Text(path[0])] + ScanHoles(path[1..]);
      assert FillHoles(parts, encode, values) == [path[0]] + FillHoles(parts[1..], encode, values);
    }
  }

  /** Base path and operation path are joined by one slash, whether the base ends with it,
      the operation begins with it, or both. */
  lemma OneSlashJoins(url: Url, origin: string, base: string, path: string, values: map<string, string>)
    requires HasValues(HoleNames(ScanHoles(path)), values)
    ensures Build(url, origin, base + "/", "/" + path, values)
         == match url.resolve(origin, base + "/" + FillHoles(ScanHoles(path), url.encode, values))
            case None => Err(InvalidUrl)
            case Some(target) => Ok(target)
    ensures Pattern(base + "/", "/" + path) == ScanHoles(base + "/" + path)
    ensures base == "" || base[|base| - 1] != '/' ==>
              && Build(url, origin, base, "/" + path, values) == Build(url, origin, base + "/", "/" + path, values)
              && Pattern(base, "/" + path) == Pattern(base + "/", "/" + path)
    ensures path == "" || (path[0] != '/' && path[0] != '{') ==>
              && Build(url, origin, base, path, values) == Build(url, origin, base, "/" + path, values)
              && Pattern(base, path) == Pattern(base, "/" + path)
  {
    var resolved := FillHoles(ScanHoles(path), url.encode, values);
    SlashIsText(path, url.encode, values);
    SlashesAreCut(base, path);
    SlashesAreCut(base, resolved);
    FirstIsFilled(path, url.encode, values);
  }

  /** The target built from the values is accepted and read back as them. */
  ghost predicate RoundTrips(
    url: Url, origin: string, basePath: string, operationPath: string, names: seq<string>, values: map<string, string>)
  {
    var built := Build(url, origin, basePath, operationPath, values);
    built.Ok? && exists captures ::
      Accepts(origin, basePath, operationPath, built.value, captures) && ReadsBack(url, names, captures, values)
  }

  /** For every template of whole segments and all non-empty values, the round trip succeeds
      exactly when the template does not begin with two slashes and no value is a dot segment
      or its own placeholder. */
  lemma RoundTripIff(
    url: Url, plain: string -> bool, origin: string, basePath: string, operationPath: string,
    base: seq<Segment>, segments: seq<Segment>, values: map<string, string>)
    requires IsStandard(url, plain) && ResolvesPaths(url, plain, origin)
    requires IsTemplate(basePath, operationPath, base, segments, plain)
    requires HasValues(ParameterNames(segments), values)
    ensures var names := ParameterNames(segments);
            RoundTrips(url, origin, basePath, operationPath, names, values)
            <==> !StartsWithEmptyLiteral(base + segments) && NoneIsDotSegment(names, values) && NoneIsItsPlaceholder(names, values)
  {
    var names := ParameterNames(segments);
    var built := Build(url, origin, basePath, operationPath, values);
    if StartsWithEmptyLiteral(base + segments) {
      forall captures | built.Ok? ensures !Accepts(origin, basePath, operationPath, built.value, captures) {
        EmptyFrontIsRefused(url, plain, origin, basePath, operationPath, base, segments, values, captures);
      }
    } else if !NoneIsDotSegment(names, values) {
      forall captures | built.Ok? ensures !Accepts(origin, basePath, operationPath, built.value, captures) {
        DotSegmentIsRefused(url, plain, origin, basePath, operationPath, base, segments, values, captures);
      }
    } else {
      var encoded := Encoded(names, url.encode, values);
      forall captures
        ensures built.Ok? && (Accepts(origin, basePath, operationPath, built.value, captures) <==> captures == encoded)
      {
        BuiltIsReadOneWay(url, plain, origin, basePath, operationPath, base, segments, values, captures);
      }
      BuiltIsReadOneWay(url, plain, origin, basePath, operationPath, base, segments, values, encoded);
      ReadsBackIff(url, plain, names, values);
    }
  }

  // ------------------------------------------------------------ the standards can be met

  /** Percent-encoding of the two characters that must be encoded. */
  function Escape(s: string): string {
    if s == "" then ""
    else (if s[0] == '/' then "%2F" else if s[0] == '%' then "%25" else [s[0]]) + Escape(s[1..])
  }

  function Unescape(s: string): string
    decreases |s|
  {
    if s == "" then ""
    else if "%2F" <= s then "/" + Unescape(s[3..])
    else if "%25" <= s then "%" + Unescape(s[3..])
    else [s[0]] + Unescape(s[1..])
  }

  lemma {:induction false} UnescapeUndoes(s: string)
    ensures Unescape(Escape(s)) == s && '/' !in Escape(s)
    decreases |s|
  {
    if s != "" {
      var rest := Escape(s[1..]);
      UnescapeUndoes(s[1..]);
      assert ("%2F" + rest)[3..] == rest && ("%25" + rest)[3..] == rest && ([s[0]] + rest)[1..] == rest;
      assert ("%25" + rest)[2] == '5' && ([s[0]] + rest)[0] == s[0];
      HeadFirst(s, "");
    }
  }

  lemma DotsAreDots(v: string)
    ensures IsDotSegment(Escape(v)) <==> IsDotSegment(v)
  {
    UnescapeUndoes(v);
    assert "."[1..] == "" && ".."[1..] == ".";
    assert Unescape(".") == "." && Unescape("..") == ".." && Escape(".") == "." && Escape("..") == "..";
  }

  lemma SingleSlashInFront(segments: seq<string>)
    requires segments != [] && !StartsEmpty(segments) && forall i :: 0 <= i < |segments| ==> '/' !in segments[i]
    ensures var path := JoinAll(segments); !(|path| > 1 && path[0] == '/' == path[1])
  {
    var path := JoinAll(segments);
    assert path == "/" + (segments[0] + JoinAll(segments[1..]));
    if segments[0] != "" {
      assert path[1] == segments[0][0] && segments[0][0] in segments[0];
    }
  }

  predicate AnyText(s: string) {
    true
  }

  ghost predicate StaysAsItIs(path: string) {
    exists segments :: ArePlain(segments, AnyText) && !HasDotSegment(segments) && path == JoinAll(segments)
  }

  ghost function Resolved(origin: string, path: string): Option<Target> {
    Some(if StaysAsItIs(path) then Target(origin, path) else Target("", ""))
  }

  ghost const SIMPLE: Url := Url(Escape, s => Some(Unescape(s)), Resolved)

  lemma EscapeIsStandard(v: string)
    ensures Unescape(Escape(v)) == v && '/' !in Escape(v)
    ensures v != "" ==> Escape(v) != ""
    ensures IsDotSegment(Escape(v)) <==> IsDotSegment(v)
  {
    UnescapeUndoes(v);
    DotsAreDots(v);
  }

  lemma SimpleEncodes(v: string)
    ensures SIMPLE.decode(SIMPLE.encode(v)) == Some(v) && '/' !in SIMPLE.encode(v)
    ensures v != "" ==> SIMPLE.encode(v) != "" && AnyText(SIMPLE.encode(v))
    ensures IsDotSegment(SIMPLE.encode(v)) <==> IsDotSegment(v)
  {
    EscapeIsStandard(v);
  }

  lemma EncodingIsStandard(url: Url, plain: string -> bool)
    requires forall v :: url.decode(url.encode(v)) == Some(v) && '/' !in url.encode(v)
    requires forall v :: v != "" ==> url.encode(v) != "" && plain(url.encode(v))
    requires forall v :: IsDotSegment(url.encode(v)) <==> IsDotSegment(v)
    ensures IsStandard(url, plain)
  {}

  lemma SimpleIsStandard()
    ensures IsStandard(SIMPLE, AnyText)
  {
    forall v ensures SIMPLE.decode(SIMPLE.encode(v)) == Some(v) && '/' !in SIMPLE.encode(v) { SimpleEncodes(v); }
    forall v | v != "" ensures SIMPLE.encode(v) != "" && AnyText(SIMPLE.encode(v)) { SimpleEncodes(v); }
    forall v ensures IsDotSegment(SIMPLE.encode(v)) <==> IsDotSegment(v) { SimpleEncodes(v); }
    EncodingIsStandard(SIMPLE, AnyText);
  }

  lemma {:induction false} JoinAllIsInjective(a: seq<string>, b: seq<string>)
    requires JoinAll(a) == JoinAll(b)
    requires (forall i :: 0 <= i < |a| ==> '/' !in a[i]) && forall i :: 0 <= i < |b| ==> '/' !in b[i]
    ensures a == b
    decreases |a|
  {
    if a != [] && b != [] {
      Associate("/", a[0], JoinAll(a[1..]));
      Associate("/", b[0], JoinAll(b[1..]));
      assert JoinAll(a)[1..] == a[0] + JoinAll(a[1..]) && JoinAll(b)[1..] == b[0] + JoinAll(b[1..]);
      SameFront(a[0], b[0], JoinAll(a[1..]), JoinAll(b[1..]));
      JoinAllIsInjective(a[1..], b[1..]);
      HeadFirst(a, []);
      HeadFirst(b, []);
    }
  }

  lemma DottedIsMoved(segments: seq<string>)
    requires ArePlain(segments, AnyText) && HasDotSegment(segments)
    ensures !StaysAsItIs(JoinAll(segments))
  {
    if StaysAsItIs(JoinAll(segments)) {
      var other :| ArePlain(other, AnyText) && !HasDotSegment(other) && JoinAll(segments) == JoinAll(other);
      JoinAllIsInjective(segments, other);
    }
  }

  lemma TwoSlashesAreMoved(path: string)
    requires |path| > 1 && path[0] == '/' == path[1]
    ensures !StaysAsItIs(path)
  {
    if StaysAsItIs(path) {
      var segments :| ArePlain(segments, AnyText) && !HasDotSegment(segments) && path == JoinAll(segments);
      SingleSlashInFront(segments);
    }
  }

  /** Some URL type is standard and resolves paths as assumed. */
  lemma StandardsCanBeMet(origin: string)
    ensures IsStandard(SIMPLE, AnyText) && ResolvesPaths(SIMPLE, AnyText, origin)
  {
    SimpleIsStandard();
    forall segments | ArePlain(segments, AnyText) && HasDotSegment(segments) ensures !StaysAsItIs(JoinAll(segments)) {
      DottedIsMoved(segments);
    }
    forall path: string | |path| > 1 && path[0] == '/' == path[1] ensures !StaysAsItIs(path) {
      TwoSlashesAreMoved(path);
    }
  }
}
