/**
 * The token trees a procedural macro receives, and the three small parsers of the
 * `WebStorage` attribute macro that work on them: comma splitting, recognition of an
 * `Ident(Group)` option, and unwrapping of a leading group.
 */
module Tokens {
  import opened Wrappers

  datatype Delimiter = Parenthesis | Brace | Bracket | NoDelimiter

  /**
   * One token tree. A group carries the tokens between its delimiters, so a comma inside a
   * group is not a comma of the enclosing stream.
   */
  datatype Token =
    | Ident(name: string)
    | Punct(ch: char)
    | Literal(text: string)
    | Group(delimiter: Delimiter, stream: seq<Token>)

  const Comma: Token := Punct(',')

  predicate IsComma(t: Token) {
    t.Punct? && t.ch == ','
  }

  predicate CommaFree(ts: seq<Token>) {
    forall i :: 0 <= i < |ts| ==> !IsComma(ts[i])
  }

  /** The number of top-level comma tokens of `ts`. */
  function CommaCount(ts: seq<Token>): (n: nat)
    ensures n <= |ts|
    ensures n == 0 <==> CommaFree(ts)
  {
    if ts == [] then 0
    else (if IsComma(ts[0]) then 1 else 0) + CommaCount(ts[1..])
  }

  /** `ts` with its top-level comma tokens dropped. */
  function WithoutCommas(ts: seq<Token>): seq<Token> {
    if ts == [] then []
    else (if IsComma(ts[0]) then [] else [ts[0]]) + WithoutCommas(ts[1..])
  }

  /** Index of the first top-level comma of `ts`, or `|ts|` when there is none. */
  function FirstComma(ts: seq<Token>): (k: nat)
    ensures k <= |ts|
    ensures CommaFree(ts[..k])
    ensures k < |ts| ==> IsComma(ts[k])
  {
    if ts == [] then 0
    else if IsComma(ts[0]) then 0
    else 1 + FirstComma(ts[1..])
  }

  /**
   * What `separate_token_stream_by_commas` returns, stated by cutting at the first comma:
   * the tokens before it form a piece and the rest is cut again; the tokens after the
   * last comma form a final piece only when there are some.
   */
  function Pieces(ts: seq<Token>): (r: seq<seq<Token>>)
    ensures r == [] <==> ts == []
    decreases |ts|
  {
    if ts == [] then []
    else
      var k := FirstComma(ts);
      if k == |ts| then [ts]
      else [ts[..k]] + Pieces(ts[k + 1..])
  }

  /** The inverse direction: the pieces put back together with one comma between each two. */
  function JoinWithCommas(pieces: seq<seq<Token>>): (r: seq<Token>)
  {
    if pieces == [] then []
    else if |pieces| == 1 then pieces[0]
    else pieces[0] + [Comma] + JoinWithCommas(pieces[1..])
  }

  function Flatten(pieces: seq<seq<Token>>): seq<Token> {
    if pieces == [] then [] else pieces[0] + Flatten(pieces[1..])
  }

  predicate EndsWithComma(ts: seq<Token>) {
    ts != [] && IsComma(ts[|ts| - 1])
  }

  /**
   * `separate_token_stream_by_commas`: one pass over the tokens, closing the current piece at
   * every comma and keeping the unfinished piece only when it is not empty.
   */
  method SeparateByCommas(ts: seq<Token>) returns (pieces: seq<seq<Token>>)
    ensures pieces == Pieces(ts)
  {
    pieces := [];
    var current: seq<Token> := [];
    var i := 0;
    assert current + ts[i..] == ts;
    while i < |ts|
      invariant 0 <= i <= |ts|
      invariant CommaFree(current)
      invariant pieces + Pieces(current + ts[i..]) == Pieces(ts)
    {
      var token := ts[i];
      if IsComma(token) {
        CommaClosesPiece(current, ts, i);
        pieces := pieces + [current];
        current := [];
      } else {
        TokenExtendsPiece(current, ts, i);
        current := current + [token];
      }
      i := i + 1;
    }
    PiecesOfCommaFree(current, ts, i);
    if current != [] {
      pieces := pieces + [current];
    }
  }

  lemma CommaClosesPiece(current: seq<Token>, ts: seq<Token>, i: nat)
    requires i < |ts| && IsComma(ts[i]) && CommaFree(current)
    ensures Pieces(current + ts[i..]) == [current] + Pieces([] + ts[i + 1..])
  {
    assert ts[i] == Comma;
    assert current + ts[i..] == current + [Comma] + ts[i + 1..];
    assert [] + ts[i + 1..] == ts[i + 1..];
    PiecesAtComma(current, ts[i + 1..]);
  }

  lemma TokenExtendsPiece(current: seq<Token>, ts: seq<Token>, i: nat)
    requires i < |ts| && !IsComma(ts[i]) && CommaFree(current)
    ensures CommaFree(current + [ts[i]])
    ensures current + ts[i..] == (current + [ts[i]]) + ts[i + 1..]
  {
  }

  lemma PiecesOfCommaFree(current: seq<Token>, ts: seq<Token>, i: nat)
    requires i == |ts| && CommaFree(current)
    ensures Pieces(current + ts[i..]) == if current == [] then [] else [current]
  {
    assert current + ts[i..] == current;
    if current != [] {
      FirstCommaOfCommaFree(current);
    }
  }

  lemma {:induction false} FirstCommaOfCommaFree(ts: seq<Token>)
    requires CommaFree(ts)
    ensures FirstComma(ts) == |ts|
    decreases |ts|
  {
    if ts != [] {
      FirstCommaOfCommaFree(ts[1..]);
    }
  }

  lemma {:induction false} FirstCommaAfter(front: seq<Token>, rest: seq<Token>)
    requires CommaFree(front)
    ensures FirstComma(front + [Comma] + rest) == |front|
    decreases |front|
  {
    if front != [] {
      assert (front + [Comma] + rest)[1..] == front[1..] + [Comma] + rest;
      FirstCommaAfter(front[1..], rest);
    }
  }

  lemma PiecesAtComma(front: seq<Token>, rest: seq<Token>)
    requires CommaFree(front)
    ensures Pieces(front + [Comma] + rest) == [front] + Pieces(rest)
  {
    var ts := front + [Comma] + rest;
    FirstCommaAfter(front, rest);
    assert ts[..|front|] == front;
    assert ts[|front| + 1..] == rest;
  }

  /** No piece contains a top-level comma. */
  lemma {:induction false} PiecesAreCommaFree(ts: seq<Token>)
    ensures forall p :: p in Pieces(ts) ==> CommaFree(p)
    decreases |ts|
  {
    if ts != [] {
      var k := FirstComma(ts);
      if k < |ts| {
        PiecesAreCommaFree(ts[k + 1..]);
      } else {
        assert ts[..k] == ts;
      }
    }
  }

  lemma {:induction false} WithoutCommasAppend(a: seq<Token>, b: seq<Token>)
    ensures WithoutCommas(a + b) == WithoutCommas(a) + WithoutCommas(b)
    decreases |a|
  {
    if a != [] {
      assert (a + b)[1..] == a[1..] + b;
      WithoutCommasAppend(a[1..], b);
    } else {
      assert a + b == b;
    }
  }

  lemma {:induction false} WithoutCommasOfCommaFree(ts: seq<Token>)
    requires CommaFree(ts)
    ensures WithoutCommas(ts) == ts
    decreases |ts|
  {
    if ts != [] {
      WithoutCommasOfCommaFree(ts[1..]);
    }
  }

  /** The facts about one cut at the first comma that the lemmas below share. */
  lemma CutAtFirstComma(ts: seq<Token>, k: nat)
    requires k == FirstComma(ts) < |ts|
    ensures ts == ts[..k] + [Comma] + ts[k + 1..]
    ensures Pieces(ts) == [ts[..k]] + Pieces(ts[k + 1..])
  {
    SplitAt(ts, k);
  }

  lemma SplitAt(ts: seq<Token>, k: nat)
    requires k < |ts| && IsComma(ts[k])
    ensures ts == ts[..k] + [Comma] + ts[k + 1..]
  {
    assert ts[k] == Comma;
    assert ts[k..] == [Comma] + ts[k + 1..];
    assert ts == ts[..k] + ts[k..];
  }

  /** Concatenating the pieces in order gives the input with its commas removed. */
  lemma {:induction false} PiecesConcatenate(ts: seq<Token>)
    ensures Flatten(Pieces(ts)) == WithoutCommas(ts)
    decreases |ts|
  {
    if ts != [] {
      var k := FirstComma(ts);
      if k == |ts| {
        assert ts[..k] == ts;
        WithoutCommasOfCommaFree(ts);
      } else {
        PiecesConcatenate(ts[k + 1..]);
        CutAtFirstComma(ts, k);
        ConcatenateAtComma(ts[..k], ts[k + 1..]);
      }
    }
  }

  lemma ConcatenateAtComma(front: seq<Token>, rest: seq<Token>)
    requires CommaFree(front)
    requires Flatten(Pieces(rest)) == WithoutCommas(rest)
    ensures Flatten(Pieces(front + [Comma] + rest)) == WithoutCommas(front + [Comma] + rest)
  {
    PiecesAtComma(front, rest);
    FlattenCons(front, Pieces(rest));
    WithoutCommasAtComma(front, rest);
  }

  lemma FlattenCons(p: seq<Token>, ps: seq<seq<Token>>)
    ensures Flatten([p] + ps) == p + Flatten(ps)
  {
    assert ([p] + ps)[1..] == ps;
  }

  lemma WithoutCommasAtComma(front: seq<Token>, rest: seq<Token>)
    requires CommaFree(front)
    ensures WithoutCommas(front + [Comma] + rest) == front + WithoutCommas(rest)
  {
    WithoutCommasAppend(front + [Comma], rest);
    DropTrailingComma(front);
  }

  lemma DropTrailingComma(front: seq<Token>)
    requires CommaFree(front)
    ensures WithoutCommas(front + [Comma]) == front
  {
    WithoutCommasAppend(front, [Comma]);
    WithoutCommasOfCommaFree(front);
    assert WithoutCommas([Comma]) == [];
    assert front + [] == front;
  }

  lemma {:induction false} CommaCountAppend(a: seq<Token>, b: seq<Token>)
    ensures CommaCount(a + b) == CommaCount(a) + CommaCount(b)
    decreases |a|
  {
    if a != [] {
      assert (a + b)[1..] == a[1..] + b;
      CommaCountAppend(a[1..], b);
    } else {
      assert a + b == b;
    }
  }

  /**
   * One piece per comma, plus a final piece exactly when tokens follow the last comma; the
   * pieces between two adjacent commas, or before a leading comma, are empty ones.
   */
  lemma {:induction false} PiecesCount(ts: seq<Token>)
    ensures |Pieces(ts)| == CommaCount(ts) + (if ts == [] || EndsWithComma(ts) then 0 else 1)
    decreases |ts|
  {
    if ts != [] {
      var k := FirstComma(ts);
      if k == |ts| {
        FinalPieceCount(ts);
      } else {
        var rest := ts[k + 1..];
        PiecesCount(rest);
        CommaSplitCount(ts, k);
      }
    }
  }

  lemma FinalPieceCount(ts: seq<Token>)
    requires ts != [] && FirstComma(ts) == |ts|
    ensures |Pieces(ts)| == 1 && CommaCount(ts) == 0 && !EndsWithComma(ts)
  {
    assert ts[..|ts|] == ts;
  }

  lemma CommaSplitCount(ts: seq<Token>, k: nat)
    requires k == FirstComma(ts) < |ts|
    ensures |Pieces(ts)| == 1 + |Pieces(ts[k + 1..])|
    ensures CommaCount(ts) == 1 + CommaCount(ts[k + 1..])
    ensures EndsWithComma(ts) <==> ts[k + 1..] == [] || EndsWithComma(ts[k + 1..])
  {
    var rest := ts[k + 1..];
    assert ts == ts[..k] + ([ts[k]] + rest);
    CommaCountAppend(ts[..k], [ts[k]] + rest);
    assert ([ts[k]] + rest)[1..] == rest;
    if rest != [] {
      assert ts[|ts| - 1] == rest[|rest| - 1];
    }
  }

  /**
   * The round trip: joining the pieces with commas gives the input back, except for a trailing
   * comma, after which no piece is emitted.
   */
  lemma {:induction false} JoinPieces(ts: seq<Token>)
    ensures JoinWithCommas(Pieces(ts)) + (if EndsWithComma(ts) then [Comma] else []) == ts
    decreases |ts|
  {
    if ts != [] {
      var k := FirstComma(ts);
      if k == |ts| {
        assert ts[..k] == ts;
      } else {
        JoinPieces(ts[k + 1..]);
        CutAtFirstComma(ts, k);
        JoinAtComma(ts[..k], ts[k + 1..]);
      }
    }
  }

  lemma JoinAtComma(front: seq<Token>, rest: seq<Token>)
    requires CommaFree(front)
    requires JoinWithCommas(Pieces(rest)) + (if EndsWithComma(rest) then [Comma] else []) == rest
    ensures var ts := front + [Comma] + rest;
            JoinWithCommas(Pieces(ts)) + (if EndsWithComma(ts) then [Comma] else []) == ts
  {
    var ts := front + [Comma] + rest;
    PiecesAtComma(front, rest);
    if rest == [] {
      assert EndsWithComma(ts);
    } else {
      assert ts[|ts| - 1] == rest[|rest| - 1];
      assert ([front] + Pieces(rest))[1..] == Pieces(rest);
    }
  }

  /**
   * `ident_and_group`, whose result is `Some((ident, group))` when the stream is one
   * identifier followed by one group and nothing else. Turning the identifier token into a
   * `syn` identifier is unwrapped, and `syn` refuses Rust keywords as identifiers, so a keyword
   * in that place makes the macro panic: `isKeyword` is that test.
   */
  datatype IdentGroup = IdentGroup(ident: string, group: seq<Token>)

  datatype Recognized = Recognized(found: Option<IdentGroup>) | KeywordPanic(keyword: string)

  function IdentAndGroup(ts: seq<Token>, isKeyword: string -> bool): (r: Recognized)
    ensures r.KeywordPanic? <==> |ts| == 2 && ts[0].Ident? && ts[1].Group? && isKeyword(ts[0].name)
    ensures r.Recognized? && r.found.Some? <==>
              |ts| == 2 && ts[0].Ident? && ts[1].Group? && !isKeyword(ts[0].name)
    ensures r.Recognized? && r.found.Some? ==>
              r.found.value.ident == ts[0].name && r.found.value.group == ts[1..]
  {
    if |ts| == 0 || !ts[0].Ident? then Recognized(None)
    else if |ts| == 1 || !ts[1].Group? then Recognized(None)
    else if |ts| > 2 then Recognized(None)
    else if isKeyword(ts[0].name) then KeywordPanic(ts[0].name)
    else Recognized(Some(IdentGroup(ts[0].name, [ts[1]])))
  }

  /**
   * `group_interior`: the tokens inside a leading group, or the stream itself when it is empty
   * or starts with anything else. Tokens after a leading group are dropped.
   */
  function GroupInterior(ts: seq<Token>): (r: seq<Token>)
    ensures ts == [] || !ts[0].Group? ==> r == ts
    ensures ts != [] && ts[0].Group? ==> r == ts[0].stream
  {
    if ts == [] then ts
    else match ts[0]
      case Group(_, inner) => inner
      case _ => ts
  }

  /** Wrapping tokens in any group and unwrapping it again gives them back. */
  lemma InteriorOfWrapped(d: Delimiter, inner: seq<Token>, after: seq<Token>)
    ensures GroupInterior([Group(d, inner)] + after) == inner
  {
  }
}
