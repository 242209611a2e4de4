/**
 * The `WebStorage` attribute macro: it reads the struct-level options and every field's
 * attributes, and produces the field list handed to `define_storage!`. Code emission itself
 * is reduced to the values the emitted tokens carry (`Expansion`, `Glue`).
 */
module Derive {
  import opened Wrappers
  import opened Tokens

  /** An attribute as `syn` parses it. */
  datatype Path = Path(leadingColon: bool, segments: seq<string>)

  /** An attribute value: a string literal (its value and its token) or any other expression. */
  datatype Expr = StrLiteral(value: string, token: Token) | OtherExpr(tokens: seq<Token>)

  datatype Meta = MetaPath | MetaList(tokens: seq<Token>) | MetaNameValue(value: Expr)

  datatype Attribute = Attribute(path: Path, meta: Meta)

  /** `Path::is_ident`: no leading `::` and exactly the one segment `name`. */
  predicate IsIdent(p: Path, name: string) {
    !p.leadingColon && p.segments == [name]
  }

  function ExprTokens(e: Expr): seq<Token> {
    match e
    case StrLiteral(_, t) => [t]
    case OtherExpr(ts) => ts
  }

  /**
   * `extract_doc_comment`: the text of a `doc = "..."` attribute, which is what a `///` comment
   * becomes; `None` for every other attribute.
   */
  function ExtractDocComment(attr: Attribute): (r: Option<string>)
    ensures r.Some? <==> IsIdent(attr.path, "doc") && attr.meta.MetaNameValue? && attr.meta.value.StrLiteral?
    ensures r.Some? ==> r.value == attr.meta.value.value
  {
    if IsIdent(attr.path, "doc") then
      match attr.meta
      case MetaNameValue(StrLiteral(s, _)) => Some(s)
      case _ => None
    else None
  }

  /** The doc lines of a field, in attribute order. */
  function DocLines(attrs: seq<Attribute>): (r: seq<string>)
    ensures |r| <= |attrs|
    ensures r == [] <==> forall i :: 0 <= i < |attrs| ==> ExtractDocComment(attrs[i]).None?
  {
    if attrs == [] then []
    else match ExtractDocComment(attrs[0])
      case Some(line) => [line] + DocLines(attrs[1..])
      case None => DocLines(attrs[1..])
  }

  /** A single attribute contributes its doc text, if it is a doc comment, and nothing otherwise. */
  lemma DocLinesOne(attr: Attribute)
    ensures DocLines([attr]) == if ExtractDocComment(attr).Some? then [ExtractDocComment(attr).value] else []
  {
    assert [attr][1..] == [];
  }

  /** The doc lines are collected attribute by attribute, in attribute order. */
  lemma {:induction false} DocLinesConcat(a: seq<Attribute>, b: seq<Attribute>)
    ensures DocLines(a + b) == DocLines(a) + DocLines(b)
    decreases |a|
  {
    if a == [] {
      assert a + b == b;
    } else {
      assert (a + b)[0] == a[0] && (a + b)[1..] == a[1..] + b;
      DocLinesConcat(a[1..], b);
    }
  }

  /** `join("\n")`. */
  function JoinLines(lines: seq<string>): string {
    if lines == [] then ""
    else if |lines| == 1 then lines[0]
    else lines[0] + "\n" + JoinLines(lines[1..])
  }

  function FieldDoc(attrs: seq<Attribute>): string {
    JoinLines(DocLines(attrs))
  }

  /** A field whose attributes hold no doc comment is documented by the empty string. */
  lemma UndocumentedField(attrs: seq<Attribute>)
    requires forall i :: 0 <= i < |attrs| ==> !IsIdent(attrs[i].path, "doc")
    ensures FieldDoc(attrs) == ""
  {
  }

  /*
   * Option names. The macro lowercases and trims a name before matching it against the
   * alias lists.
   */

  function LowerChar(c: char): char {
    if 'A' <= c <= 'Z' then (c as int + 32) as char else c
  }

  function ToLower(s: string): string {
    if s == [] then [] else [LowerChar(s[0])] + ToLower(s[1..])
  }

  predicate IsWhitespace(c: char) {
    c == ' ' || c == '\t' || c == '\n' || c == '\r' || c == '\U{000B}' || c == '\U{000C}'
  }

  function TrimStart(s: string): string {
    if s != [] && IsWhitespace(s[0]) then TrimStart(s[1..]) else s
  }

  function TrimEnd(s: string): string {
    if s != [] && IsWhitespace(s[|s| - 1]) then TrimEnd(s[..|s| - 1]) else s
  }

  /** `str::trim`, for the ASCII whitespace characters. */
  function Trim(s: string): string {
    TrimEnd(TrimStart(s))
  }

  function Canonical(name: string): string {
    Trim(ToLower(name))
  }

  const PrependAliases: seq<string> :=
    ["prepend", "prepend_key", "prepend_keys", "prepend_with", "prepend_key_with", "prepend_keys_with"]

  const VisibilityAliases: seq<string> :=
    ["constructorvisibility", "constructor_visibility", "constructorvis", "constructor_vis",
     "newvisibility", "new_visibility", "newvis", "new_vis"]

  const StorageKindAliases: seq<string> := ["storage_kind", "storagekind", "storage"]

  /** Whether `c` is one of `aliases`, tried in order as the arms of a `match` are. */
  function MatchesAny(c: string, aliases: seq<string>): bool {
    aliases != [] && (c == aliases[0] || MatchesAny(c, aliases[1..]))
  }

  datatype OptionName = PrependOption | VisibilityOption | StorageKindOption | UnknownOption

  /** Which option an attribute name selects, the alias lists being tried in this order. */
  function Classify(name: string): OptionName {
    var c := Canonical(name);
    if MatchesAny(c, PrependAliases) then PrependOption
    else if MatchesAny(c, VisibilityAliases) then VisibilityOption
    else if MatchesAny(c, StorageKindAliases) then StorageKindOption
    else UnknownOption
  }

  /** Case does not matter: `StorageKind`, `storagekind` and `STORAGEKIND` select the same option. */
  lemma ClassifyIgnoresCase(a: string, b: string)
    requires ToLower(a) == ToLower(b)
    ensures Classify(a) == Classify(b)
  {
  }

  /** `str::replace(" ", "")`. */
  function RemoveSpaces(s: string): (r: string)
    ensures ' ' !in r
    ensures ' ' !in s ==> r == s
    ensures |r| <= |s|
  {
    if s == [] then []
    else (if s[0] == ' ' then [] else [s[0]]) + RemoveSpaces(s[1..])
  }

  /** A single character is dropped if it is a space and kept otherwise. */
  lemma RemoveSpacesOne(c: char)
    ensures RemoveSpaces([c]) == if c == ' ' then [] else [c]
  {
    assert [c][1..] == [];
  }

  /** Every other character is kept, in order: removal works piece by piece. */
  lemma {:induction false} RemoveSpacesConcat(a: string, b: string)
    ensures RemoveSpaces(a + b) == RemoveSpaces(a) + RemoveSpaces(b)
    decreases |a|
  {
    if a == [] {
      assert a + b == b;
    } else {
      assert (a + b)[0] == a[0] && (a + b)[1..] == a[1..] + b;
      RemoveSpacesConcat(a[1..], b);
    }
  }

  /*
   * Struct-level options.
   */

  /** A visibility as `syn` parses it; `Visibility(tokens)` keeps its tokens. */
  datatype Visibility = Visibility(tokens: seq<Token>)

  datatype Options = Options(prepend: string, visibility: Visibility, storageKind: Option<seq<Token>>)

  /** Why the macro stops: an `abort` with a diagnostic, or a panic. */
  datatype Rejection =
    | ExpectedStruct(structName: string)
    | FieldsMustBeNamed
    | KeywordOptionPanic(keyword: string)
    | ExpectedVisibility(found: seq<Token>)
    | PathAttributePanic

  /** An option with its name already matched against the alias lists. */
  datatype OptionAttr = OptionAttr(option: OptionName, contents: seq<Token>)

  function Classified(attrs: seq<IdentGroup>): (r: seq<OptionAttr>)
    ensures |r| == |attrs|
    ensures forall i :: 0 <= i < |attrs| ==> r[i] == OptionAttr(Classify(attrs[i].ident), attrs[i].group)
  {
    seq(|attrs|, i requires 0 <= i < |attrs| => OptionAttr(Classify(attrs[i].ident), attrs[i].group))
  }

  /** The prepend string an option sets: its group's interior, printed, without spaces. */
  function PrependText(a: OptionAttr, render: seq<Token> -> string): string {
    RemoveSpaces(render(GroupInterior(a.contents)))
  }

  predicate BadVisibility(a: OptionAttr, parseVisibility: seq<Token> -> Option<Visibility>) {
    a.option == VisibilityOption && parseVisibility(GroupInterior(a.contents)).None?
  }

  /** One turn of the option loop. */
  function ApplyOption(o: Options, a: OptionAttr, render: seq<Token> -> string,
                       parseVisibility: seq<Token> -> Option<Visibility>): (r: Result<Options, Rejection>)
    ensures r.Err? <==> BadVisibility(a, parseVisibility)
  {
    match a.option
    case PrependOption => Ok(o.(prepend := PrependText(a, render)))
    case VisibilityOption =>
      (match parseVisibility(GroupInterior(a.contents))
       case None => Err(ExpectedVisibility(a.contents))
       case Some(v) => Ok(o.(visibility := v)))
    case StorageKindOption => Ok(o.(storageKind := Some(GroupInterior(a.contents))))
    case UnknownOption => Ok(o)
  }

  /** The options after the loop has run over `attrs`, starting from `start`. */
  function Configure(attrs: seq<OptionAttr>, start: Options, render: seq<Token> -> string,
                     parseVisibility: seq<Token> -> Option<Visibility>): Result<Options, Rejection>
    decreases |attrs|
  {
    if attrs == [] then Ok(start)
    else match Configure(attrs[..|attrs| - 1], start, render, parseVisibility)
      case Err(e) => Err(e)
      case Ok(o) => ApplyOption(o, attrs[|attrs| - 1], render, parseVisibility)
  }

  /** What the macro starts from: no prepend, the struct's own visibility, no storage kind. */
  function InitialOptions(vis: Visibility): Options {
    Options("", vis, None)
  }

  /**
   * The struct-level option loop: each recognized option overwrites what it sets, unknown names
   * are skipped, and a visibility that does not parse aborts the macro.
   */
  method ResolveOptions(attrs: seq<IdentGroup>, vis: Visibility, render: seq<Token> -> string,
                        parseVisibility: seq<Token> -> Option<Visibility>) returns (r: Result<Options, Rejection>)
    ensures r == Configure(Classified(attrs), InitialOptions(vis), render, parseVisibility)
  {
    ghost var options := Classified(attrs);
    var prepend := "";
    var constructorVisibility := vis;
    var storageKind: Option<seq<Token>> := None;
    var i := 0;
    while i < |attrs|
      invariant 0 <= i <= |attrs|
      invariant Configure(options[..i], InitialOptions(vis), render, parseVisibility) ==
                Ok(Options(prepend, constructorVisibility, storageKind))
    {
      var a := attrs[i];
      ghost var before := Options(prepend, constructorVisibility, storageKind);
      ConfigureExtend(options, i, before, InitialOptions(vis), render, parseVisibility);
      var option := Classify(a.ident);
      assert options[i] == OptionAttr(option, a.group);
      match option {
        case PrependOption =>
          prepend := RemoveSpaces(render(GroupInterior(a.group)));
        case VisibilityOption =>
          var visibility := parseVisibility(GroupInterior(a.group));
          if visibility.None? {
            ErrorPersists(options, i + 1, InitialOptions(vis), render, parseVisibility);
            return Err(ExpectedVisibility(a.group));
          }
          constructorVisibility := visibility.value;
        case StorageKindOption =>
          storageKind := Some(GroupInterior(a.group));
        case UnknownOption =>
      }
      assert ApplyOption(before, options[i], render, parseVisibility) ==
             Ok(Options(prepend, constructorVisibility, storageKind));
      i := i + 1;
    }
    assert options[..i] == options;
    r := Ok(Options(prepend, constructorVisibility, storageKind));
  }

  /** One more turn of the loop. */
  lemma ConfigureExtend(attrs: seq<OptionAttr>, i: nat, o: Options, start: Options, render: seq<Token> -> string,
                        parseVisibility: seq<Token> -> Option<Visibility>)
    requires i < |attrs|
    requires Configure(attrs[..i], start, render, parseVisibility) == Ok(o)
    ensures Configure(attrs[..i + 1], start, render, parseVisibility) == ApplyOption(o, attrs[i], render, parseVisibility)
  {
    assert attrs[..i + 1][..i] == attrs[..i];
  }

  /** Once the loop has aborted, the later options change nothing. */
  lemma {:induction false} ErrorPersists(attrs: seq<OptionAttr>, i: nat, start: Options, render: seq<Token> -> string,
                                         parseVisibility: seq<Token> -> Option<Visibility>)
    requires i <= |attrs|
    requires Configure(attrs[..i], start, render, parseVisibility).Err?
    ensures Configure(attrs, start, render, parseVisibility) == Configure(attrs[..i], start, render, parseVisibility)
    decreases |attrs|
  {
    if i < |attrs| {
      var front := attrs[..|attrs| - 1];
      assert front[..i] == attrs[..i];
      ErrorPersists(front, i, start, render, parseVisibility);
    } else {
      assert attrs[..i] == attrs;
    }
  }

  /** The position of the last option in `attrs` that selects `option`, if any. */
  function LastOf(attrs: seq<OptionAttr>, option: OptionName): (r: Option<nat>)
    ensures r.Some? ==> r.value < |attrs| && attrs[r.value].option == option
    ensures r.Some? ==> forall j :: r.value < j < |attrs| ==> attrs[j].option != option
    ensures r.None? ==> forall j :: 0 <= j < |attrs| ==> attrs[j].option != option
    decreases |attrs|
  {
    if attrs == [] then None
    else if attrs[|attrs| - 1].option == option then Some(|attrs| - 1)
    else LastOf(attrs[..|attrs| - 1], option)
  }

  /**
   * The loop aborts exactly when some visibility option does not parse, and it reports the
   * first such option.
   */
  lemma {:induction false} ConfigureFails(attrs: seq<OptionAttr>, start: Options, render: seq<Token> -> string,
                                          parseVisibility: seq<Token> -> Option<Visibility>)
    ensures Configure(attrs, start, render, parseVisibility).Err? <==>
              exists i :: 0 <= i < |attrs| && BadVisibility(attrs[i], parseVisibility)
    ensures Configure(attrs, start, render, parseVisibility).Err? ==>
              exists i :: 0 <= i < |attrs| && BadVisibility(attrs[i], parseVisibility) &&
                (forall j :: 0 <= j < i ==> !BadVisibility(attrs[j], parseVisibility)) &&
                Configure(attrs, start, render, parseVisibility).error == ExpectedVisibility(attrs[i].contents)
    decreases |attrs|
  {
    if attrs != [] {
      var front, last := attrs[..|attrs| - 1], attrs[|attrs| - 1];
      ConfigureFails(front, start, render, parseVisibility);
      assert forall i :: 0 <= i < |front| ==> front[i] == attrs[i];
      if Configure(front, start, render, parseVisibility).Ok? && BadVisibility(last, parseVisibility) {
        assert forall j :: 0 <= j < |front| ==> !BadVisibility(attrs[j], parseVisibility);
      }
    }
  }

  /*
   * Later options override earlier ones: when the loop succeeds, each setting is the one of the
   * last option that selects it, or the starting value when no option does.
   */

  lemma {:induction false} LastPrependWins(attrs: seq<OptionAttr>, start: Options, render: seq<Token> -> string,
                                           parseVisibility: seq<Token> -> Option<Visibility>)
    requires Configure(attrs, start, render, parseVisibility).Ok?
    ensures Configure(attrs, start, render, parseVisibility).value.prepend ==
              match LastOf(attrs, PrependOption)
              case None => start.prepend
              case Some(i) => PrependText(attrs[i], render)
    decreases |attrs|
  {
    if attrs != [] {
      LastPrependWins(attrs[..|attrs| - 1], start, render, parseVisibility);
    }
  }

  lemma {:induction false} LastVisibilityWins(attrs: seq<OptionAttr>, start: Options, render: seq<Token> -> string,
                                              parseVisibility: seq<Token> -> Option<Visibility>)
    requires Configure(attrs, start, render, parseVisibility).Ok?
    ensures var o := Configure(attrs, start, render, parseVisibility).value;
            match LastOf(attrs, VisibilityOption)
            case None => o.visibility == start.visibility
            case Some(i) => parseVisibility(GroupInterior(attrs[i].contents)) == Some(o.visibility)
    decreases |attrs|
  {
    if attrs != [] {
      LastVisibilityWins(attrs[..|attrs| - 1], start, render, parseVisibility);
    }
  }

  lemma {:induction false} LastStorageKindWins(attrs: seq<OptionAttr>, start: Options, render: seq<Token> -> string,
                                               parseVisibility: seq<Token> -> Option<Visibility>)
    requires Configure(attrs, start, render, parseVisibility).Ok?
    ensures Configure(attrs, start, render, parseVisibility).value.storageKind ==
              match LastOf(attrs, StorageKindOption)
              case None => start.storageKind
              case Some(i) => Some(GroupInterior(attrs[i].contents))
    decreases |attrs|
  {
    if attrs != [] {
      LastStorageKindWins(attrs[..|attrs| - 1], start, render, parseVisibility);
    }
  }

  function KnownOptions(attrs: seq<OptionAttr>): (r: seq<OptionAttr>)
    ensures forall a :: a in r ==> a.option != UnknownOption
    decreases |attrs|
  {
    if attrs == [] then []
    else
      var last := attrs[|attrs| - 1];
      KnownOptions(attrs[..|attrs| - 1]) + (if last.option != UnknownOption then [last] else [])
  }

  /** Unknown option names are ignored: dropping them does not change the outcome. */
  lemma {:induction false} UnknownOptionsIgnored(attrs: seq<OptionAttr>, start: Options, render: seq<Token> -> string,
                                                 parseVisibility: seq<Token> -> Option<Visibility>)
    ensures Configure(KnownOptions(attrs), start, render, parseVisibility) == Configure(attrs, start, render, parseVisibility)
    decreases |attrs|
  {
    if attrs != [] {
      var front, last := attrs[..|attrs| - 1], attrs[|attrs| - 1];
      UnknownOptionsIgnored(front, start, render, parseVisibility);
      var k := KnownOptions(attrs);
      if last.option != UnknownOption {
        assert k == KnownOptions(front) + [last];
        assert k[..|k| - 1] == KnownOptions(front);
      } else {
        assert k == KnownOptions(front);
      }
    }
  }

  /** Whatever the options say, the prepend string holds no space. */
  lemma {:induction false} PrependHasNoSpaces(attrs: seq<OptionAttr>, vis: Visibility, render: seq<Token> -> string,
                                              parseVisibility: seq<Token> -> Option<Visibility>)
    requires Configure(attrs, InitialOptions(vis), render, parseVisibility).Ok?
    ensures ' ' !in Configure(attrs, InitialOptions(vis), render, parseVisibility).value.prepend
    decreases |attrs|
  {
    if attrs != [] {
      PrependHasNoSpaces(attrs[..|attrs| - 1], vis, render, parseVisibility);
    }
  }

  /**
   * The struct-level option list: the attribute tokens cut at commas, every piece offered to
   * `ident_and_group`, the pieces of another shape dropped. A keyword in the identifier place
   * panics.
   */
  function Recognize(pieces: seq<seq<Token>>, isKeyword: string -> bool): (r: Result<seq<IdentGroup>, Rejection>)
    ensures r.Err? <==> exists i :: 0 <= i < |pieces| && IdentAndGroup(pieces[i], isKeyword).KeywordPanic?
    ensures r.Ok? ==> |r.value| <= |pieces|
    ensures r.Ok? ==> forall a :: a in r.value ==>
              exists i :: 0 <= i < |pieces| && IdentAndGroup(pieces[i], isKeyword) == Recognized(Some(a))
    decreases |pieces|
  {
    if pieces == [] then Ok([])
    else
      var rest := Recognize(pieces[1..], isKeyword);
      assert forall i :: 1 <= i < |pieces| ==> pieces[1..][i - 1] == pieces[i];
      match IdentAndGroup(pieces[0], isKeyword)
      case KeywordPanic(k) => Err(KeywordOptionPanic(k))
      case Recognized(None) => rest
      case Recognized(Some(a)) => if rest.Err? then rest else Ok([a] + rest.value)
  }

  /** A single piece: a keyword panics, an identifier and a group are kept, anything else is dropped. */
  lemma RecognizeOne(piece: seq<Token>, isKeyword: string -> bool)
    ensures Recognize([piece], isKeyword) ==
              match IdentAndGroup(piece, isKeyword)
              case KeywordPanic(k) => Err(KeywordOptionPanic(k))
              case Recognized(None) => Ok([])
              case Recognized(Some(a)) => Ok([a])
  {
    assert [piece][1..] == [];
    assert Recognize([piece][1..], isKeyword) == Ok([]);
    match IdentAndGroup(piece, isKeyword)
    case KeywordPanic(_) =>
    case Recognized(None) =>
    case Recognized(Some(a)) => assert [a] + [] == [a];
  }

  /**
   * The pieces are recognized one by one and what is kept stays in piece order; a panic in an
   * earlier piece wins over anything later.
   */
  lemma {:induction false} RecognizeConcat(p: seq<seq<Token>>, q: seq<seq<Token>>, isKeyword: string -> bool)
    ensures Recognize(p, isKeyword).Err? ==> Recognize(p + q, isKeyword) == Recognize(p, isKeyword)
    ensures Recognize(p, isKeyword).Ok? ==>
              Recognize(p + q, isKeyword) ==
                match Recognize(q, isKeyword)
                case Err(e) => Err(e)
                case Ok(kept) => Ok(Recognize(p, isKeyword).value + kept)
    decreases |p|
  {
    if p == [] {
      assert p + q == q && Recognize(p, isKeyword) == Ok([]);
      if Recognize(q, isKeyword).Ok? {
        assert [] + Recognize(q, isKeyword).value == Recognize(q, isKeyword).value;
      }
    } else {
      assert (p + q)[0] == p[0] && (p + q)[1..] == p[1..] + q;
      RecognizeConcat(p[1..], q, isKeyword);
      var rest := Recognize(p[1..], isKeyword);
      var tail := Recognize(q, isKeyword);
      match IdentAndGroup(p[0], isKeyword)
      case KeywordPanic(k) =>
      case Recognized(None) =>
      case Recognized(Some(a)) =>
        if rest.Ok? && tail.Ok? {
          assert [a] + (rest.value + tail.value) == ([a] + rest.value) + tail.value;
        }
    }
  }

  /*
   * Fields.
   */

  datatype Field = Field(ident: string, ty: seq<Token>, attrs: seq<Attribute>)

  /** `syn::Fields`; an unnamed field list is only counted, as the macro rejects it. */
  datatype Fields = Named(named: seq<Field>) | Unnamed(count: nat) | Unit

  datatype Data = StructData(fields: Fields) | EnumData | UnionData

  datatype DeriveInput = DeriveInput(vis: Visibility, ident: string, data: Data)

  /** An attribute's name and the tokens it carries, as the field loop sees them. */
  datatype NamedTokens = NamedTokens(name: string, contents: seq<Token>)

  predicate HasPathAttribute(attrs: seq<Attribute>) {
    exists i :: 0 <= i < |attrs| && attrs[i].meta.MetaPath?
  }

  function MetaTokens(m: Meta): seq<Token>
    requires !m.MetaPath?
  {
    match m
    case MetaList(ts) => ts
    case MetaNameValue(e) => ExprTokens(e)
  }

  /**
   * The name of an attribute: its path's segments parsed as one identifier, which fails for a
   * path of several segments and for a keyword.
   */
  function AttributeName(p: Path, isKeyword: string -> bool): (r: Option<string>)
    ensures r.Some? <==> |p.segments| == 1 && !isKeyword(p.segments[0])
  {
    if |p.segments| == 1 && !isKeyword(p.segments[0]) then Some(p.segments[0]) else None
  }

  /**
   * The attributes of a field as name and contents; those without a one-identifier name are
   * dropped, and a bare-path attribute (`#[name]`) makes the macro panic.
   */
  function SeparatedAttributes(attrs: seq<Attribute>, isKeyword: string -> bool): (r: Result<seq<NamedTokens>, Rejection>)
    ensures r.Err? <==> HasPathAttribute(attrs)
    ensures r.Err? ==> r.error == PathAttributePanic
    ensures r.Ok? ==> |r.value| <= |attrs|
    decreases |attrs|
  {
    if attrs == [] then Ok([])
    else
      var rest := SeparatedAttributes(attrs[1..], isKeyword);
      assert forall i :: 1 <= i < |attrs| ==> attrs[1..][i - 1] == attrs[i];
      if attrs[0].meta.MetaPath? then Err(PathAttributePanic)
      else if rest.Err? then rest
      else match AttributeName(attrs[0].path, isKeyword)
        case None => rest
        case Some(name) => Ok([NamedTokens(name, GroupInterior(MetaTokens(attrs[0].meta)))] + rest.value)
  }

  /**
   * A single attribute: a bare path panics, an attribute with a one-identifier name gives its
   * name and the interior of its tokens, any other attribute is dropped.
   */
  lemma SeparatedAttributesOne(attr: Attribute, isKeyword: string -> bool)
    ensures SeparatedAttributes([attr], isKeyword) ==
              if attr.meta.MetaPath? then Err(PathAttributePanic)
              else match AttributeName(attr.path, isKeyword)
                case None => Ok([])
                case Some(name) => Ok([NamedTokens(name, GroupInterior(MetaTokens(attr.meta)))])
  {
    assert [attr][1..] == [];
    assert SeparatedAttributes([attr][1..], isKeyword) == Ok([]);
    if !attr.meta.MetaPath? && AttributeName(attr.path, isKeyword).Some? {
      var pair := NamedTokens(AttributeName(attr.path, isKeyword).value, GroupInterior(MetaTokens(attr.meta)));
      assert [pair] + [] == [pair];
    }
  }

  /** The attributes are separated one by one, and the pairs stay in attribute order. */
  lemma {:induction false} SeparatedAttributesConcat(a: seq<Attribute>, b: seq<Attribute>, isKeyword: string -> bool)
    ensures SeparatedAttributes(a + b, isKeyword).Ok? <==>
              SeparatedAttributes(a, isKeyword).Ok? && SeparatedAttributes(b, isKeyword).Ok?
    ensures SeparatedAttributes(a, isKeyword).Ok? && SeparatedAttributes(b, isKeyword).Ok? ==>
              SeparatedAttributes(a + b, isKeyword) ==
                Ok(SeparatedAttributes(a, isKeyword).value + SeparatedAttributes(b, isKeyword).value)
    decreases |a|
  {
    if a == [] {
      assert a + b == b && SeparatedAttributes(a, isKeyword) == Ok([]);
      if SeparatedAttributes(b, isKeyword).Ok? {
        assert [] + SeparatedAttributes(b, isKeyword).value == SeparatedAttributes(b, isKeyword).value;
      }
    } else {
      assert (a + b)[0] == a[0] && (a + b)[1..] == a[1..] + b;
      SeparatedAttributesConcat(a[1..], b, isKeyword);
      var rest := SeparatedAttributes(a[1..], isKeyword);
      var tail := SeparatedAttributes(b, isKeyword);
      if !a[0].meta.MetaPath? && rest.Ok? && tail.Ok? && AttributeName(a[0].path, isKeyword).Some? {
        var pair := NamedTokens(AttributeName(a[0].path, isKeyword).value, GroupInterior(MetaTokens(a[0].meta)));
        assert [pair] + (rest.value + tail.value) == ([pair] + rest.value) + tail.value;
      }
    }
  }

  /** The field's attributes matched against the alias lists. */
  function FieldOptions(pairs: seq<NamedTokens>): (r: seq<OptionAttr>)
    ensures |r| == |pairs|
    ensures forall i :: 0 <= i < |pairs| ==> r[i] == OptionAttr(Classify(pairs[i].name), pairs[i].contents)
  {
    seq(|pairs|, i requires 0 <= i < |pairs| => OptionAttr(Classify(pairs[i].name), pairs[i].contents))
  }

  /**
   * The contents of the last storage-kind attribute, if any; `LastOf` states that no later
   * attribute selects the storage kind.
   */
  function LastStorageKind(opts: seq<OptionAttr>): (r: Option<seq<Token>>)
    ensures r.None? <==> forall j :: 0 <= j < |opts| ==> opts[j].option != StorageKindOption
    ensures r.Some? ==> LastOf(opts, StorageKindOption).Some? && r.value == opts[LastOf(opts, StorageKindOption).value].contents
  {
    match LastOf(opts, StorageKindOption)
    case None => None
    case Some(i) => Some(opts[i].contents)
  }

  /** The field-level loop over attributes: a later storage-kind attribute overrides an earlier one. */
  method FieldStorageKind(pairs: seq<NamedTokens>) returns (storage: Option<seq<Token>>)
    ensures storage == LastStorageKind(FieldOptions(pairs))
  {
    ghost var opts := FieldOptions(pairs);
    storage := None;
    var i := 0;
    while i < |pairs|
      invariant 0 <= i <= |pairs|
      invariant storage == LastStorageKind(opts[..i])
    {
      assert opts[..i + 1][..i] == opts[..i];
      if Classify(pairs[i].name) == StorageKindOption {
        storage := Some(pairs[i].contents);
      }
      i := i + 1;
    }
    assert opts[..i] == opts;
  }

  /** `Default::default()`. */
  const DefaultDefault: seq<Token> :=
    [Ident("Default"), Punct(':'), Punct(':'), Ident("default"), Group(Parenthesis, [])]

  /**
   * A field's default: the tokens of its first `default` attribute, `Default::default()` when it
   * has none. Bare-path attributes have stopped the macro before this point.
   */
  function DefaultTokens(attrs: seq<Attribute>): (r: seq<Token>)
    requires !HasPathAttribute(attrs)
    ensures (forall i :: 0 <= i < |attrs| ==> !IsIdent(attrs[i].path, "default")) ==> r == DefaultDefault
    ensures forall i :: 0 <= i < |attrs| && IsIdent(attrs[i].path, "default") &&
                        (forall j :: 0 <= j < i ==> !IsIdent(attrs[j].path, "default")) ==>
                        r == MetaTokens(attrs[i].meta)
    decreases |attrs|
  {
    if attrs == [] then DefaultDefault
    else if IsIdent(attrs[0].path, "default") then MetaTokens(attrs[0].meta)
    else
      assert forall i :: 1 <= i < |attrs| ==> attrs[1..][i - 1] == attrs[i];
      assert !HasPathAttribute(attrs[1..]) by {
        forall i | 0 <= i < |attrs| - 1 ensures !attrs[1..][i].meta.MetaPath? {
          assert attrs[1..][i] == attrs[i + 1];
        }
      }
      DefaultTokens(attrs[1..])
  }

  /** What the macro hands to `define_storage!` for one field. */
  datatype Glue = Glue(variable: string, ty: seq<Token>, webName: string, default: seq<Token>,
                       storage: Option<seq<Token>>, doc: string)

  /** The glue of one field under the struct-level options `o`; `camel` is the camel-casing. */
  function FieldGlue(f: Field, o: Options, isKeyword: string -> bool, camel: string -> string): (r: Result<Glue, Rejection>)
    ensures r.Err? <==> HasPathAttribute(f.attrs)
    ensures r.Err? ==> r.error == PathAttributePanic
    ensures r.Ok? ==> r.value.variable == f.ident && r.value.ty == f.ty
    ensures r.Ok? ==> r.value.webName == o.prepend + camel(f.ident)
    ensures r.Ok? ==> r.value.storage == match LastStorageKind(FieldOptions(SeparatedAttributes(f.attrs, isKeyword).value))
                                         case Some(kind) => Some(kind)
                                         case None => o.storageKind
    ensures r.Ok? ==> r.value.default == DefaultTokens(f.attrs) && r.value.doc == FieldDoc(f.attrs)
  {
    match SeparatedAttributes(f.attrs, isKeyword)
    case Err(e) => Err(e)
    case Ok(pairs) =>
      var storage := match LastStorageKind(FieldOptions(pairs)) case Some(kind) => Some(kind) case None => o.storageKind;
      Ok(Glue(f.ident, f.ty, o.prepend + camel(f.ident), DefaultTokens(f.attrs), storage, FieldDoc(f.attrs)))
  }

  /** A storage-kind attribute at the end of the list is the last one. */
  lemma LastStorageKindAppend(pairs: seq<NamedTokens>, pair: NamedTokens)
    requires Classify(pair.name) == StorageKindOption
    ensures LastStorageKind(FieldOptions(pairs + [pair])) == Some(pair.contents)
  {
    var opts := FieldOptions(pairs + [pair]);
    assert opts[|opts| - 1] == OptionAttr(StorageKindOption, pair.contents);
  }

  /**
   * A field's own storage-kind attribute wins: when its last attribute is a storage-kind option,
   * the glue's storage kind is that attribute's contents, whatever the struct-level options say.
   */
  lemma LastStorageAttributeWins(f: Field, attr: Attribute, o: Options, isKeyword: string -> bool, camel: string -> string)
    requires !HasPathAttribute(f.attrs) && !attr.meta.MetaPath?
    requires AttributeName(attr.path, isKeyword).Some?
    requires Classify(AttributeName(attr.path, isKeyword).value) == StorageKindOption
    ensures FieldGlue(f.(attrs := f.attrs + [attr]), o, isKeyword, camel).Ok?
    ensures FieldGlue(f.(attrs := f.attrs + [attr]), o, isKeyword, camel).value.storage ==
              Some(GroupInterior(MetaTokens(attr.meta)))
  {
    var attrs := f.attrs + [attr];
    var pair := NamedTokens(AttributeName(attr.path, isKeyword).value, GroupInterior(MetaTokens(attr.meta)));
    SeparatedAttributesOne(attr, isKeyword);
    assert SeparatedAttributes([attr], isKeyword) == Ok([pair]);
    SeparatedAttributesConcat(f.attrs, [attr], isKeyword);
    var front := SeparatedAttributes(f.attrs, isKeyword).value;
    assert SeparatedAttributes(attrs, isKeyword) == Ok(front + [pair]);
    LastStorageKindAppend(front, pair);
  }

  /** The per-field part of the macro. */
  method ResolveField(f: Field, o: Options, isKeyword: string -> bool, camel: string -> string) returns (r: Result<Glue, Rejection>)
    ensures r == FieldGlue(f, o, isKeyword, camel)
  {
    var separated := SeparatedAttributes(f.attrs, isKeyword);
    if separated.Err? {
      return Err(separated.error);
    }
    var fieldStorage := FieldStorageKind(separated.value);
    var storage := if fieldStorage.Some? then fieldStorage else o.storageKind;
    var webName := o.prepend + camel(f.ident);
    r := Ok(Glue(f.ident, f.ty, webName, DefaultTokens(f.attrs), storage, FieldDoc(f.attrs)));
  }

  /** The `define_storage!` invocation the macro emits. */
  datatype Expansion = Expansion(vis: Visibility, ident: string, len: nat,
                                 constructorVisibility: Visibility, glues: seq<Glue>)

  function NamedFields(fields: Fields): seq<Field> {
    if fields.Named? then fields.named else []
  }

  predicate UnnamedFields(d: Data) {
    d.StructData? && d.fields.Unnamed? && d.fields.count > 0
  }

  /** The struct-level options the attribute tokens select, or why reading them stops the macro. */
  function StructOptions(macroAttr: seq<Token>, vis: Visibility, isKeyword: string -> bool,
                         render: seq<Token> -> string, parseVisibility: seq<Token> -> Option<Visibility>): Result<Options, Rejection>
  {
    match Recognize(Pieces(macroAttr), isKeyword)
    case Err(e) => Err(e)
    case Ok(attrs) => Configure(Classified(attrs), InitialOptions(vis), render, parseVisibility)
  }

  /**
   * The loop over the fields, in declaration order: every field yields its glue, and a field
   * with a bare-path attribute stops the macro.
   */
  method ResolveFields(fields: seq<Field>, o: Options, isKeyword: string -> bool, camel: string -> string)
    returns (r: Result<seq<Glue>, Rejection>)
    ensures r.Err? <==> exists i :: 0 <= i < |fields| && HasPathAttribute(fields[i].attrs)
    ensures r.Err? ==> r.error == PathAttributePanic
    ensures r.Ok? ==> |r.value| == |fields| &&
                      forall i :: 0 <= i < |fields| ==> FieldGlue(fields[i], o, isKeyword, camel) == Ok(r.value[i])
  {
    var glues: seq<Glue> := [];
    var i := 0;
    while i < |fields|
      invariant 0 <= i <= |fields| && |glues| == i
      invariant forall j :: 0 <= j < i ==> FieldGlue(fields[j], o, isKeyword, camel) == Ok(glues[j])
    {
      var glue := ResolveField(fields[i], o, isKeyword, camel);
      if glue.Err? {
        return Err(glue.error);
      }
      glues := glues + [glue.value];
      i := i + 1;
    }
    r := Ok(glues);
  }

  /**
   * `WebStorage`: rejects anything but a struct with named fields (a tuple struct with no field
   * passes the check), then resolves the options and every field in order.
   */
  method WebStorage(macroAttr: seq<Token>, input: DeriveInput, isKeyword: string -> bool,
                    render: seq<Token> -> string, parseVisibility: seq<Token> -> Option<Visibility>,
                    camel: string -> string) returns (r: Result<Expansion, Rejection>)
    ensures !input.data.StructData? ==> r == Err(ExpectedStruct(input.ident))
    ensures UnnamedFields(input.data) ==> r == Err(FieldsMustBeNamed)
    ensures input.data.StructData? && !UnnamedFields(input.data) ==>
              var options := StructOptions(macroAttr, input.vis, isKeyword, render, parseVisibility);
              options.Err? ==> r == Err(options.error)
    ensures input.data.StructData? && !UnnamedFields(input.data) ==>
              var options := StructOptions(macroAttr, input.vis, isKeyword, render, parseVisibility);
              var fields := NamedFields(input.data.fields);
              options.Ok? ==>
                (r.Err? <==> exists i :: 0 <= i < |fields| && HasPathAttribute(fields[i].attrs)) &&
                (r.Err? ==> r.error == PathAttributePanic) &&
                (r.Ok? ==> r.value.vis == input.vis && r.value.ident == input.ident &&
                           r.value.constructorVisibility == options.value.visibility &&
                           r.value.len == |r.value.glues| == |fields| &&
                           forall i :: 0 <= i < |fields| ==>
                             FieldGlue(fields[i], options.value, isKeyword, camel) == Ok(r.value.glues[i]))
  {
    if !input.data.StructData? {
      return Err(ExpectedStruct(input.ident));
    }
    if UnnamedFields(input.data) {
      return Err(FieldsMustBeNamed);
    }
    var pieces := SeparateByCommas(macroAttr);
    var recognized := Recognize(pieces, isKeyword);
    if recognized.Err? {
      return Err(recognized.error);
    }
    var options := ResolveOptions(recognized.value, input.vis, render, parseVisibility);
    if options.Err? {
      return Err(options.error);
    }
    var fields := NamedFields(input.data.fields);
    var glues := ResolveFields(fields, options.value, isKeyword, camel);
    if glues.Err? {
      return Err(glues.error);
    }
    r := Ok(Expansion(input.vis, input.ident, |fields|, options.value.visibility, glues.value));
  }
}
