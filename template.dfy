/** The placeholder syntax of URL templates: `${name}`, found by one
    left-to-right scan with the pattern `\${([^}]+)}` (global flag), the way
    `String.prototype.replace` walks a template. */
module Template {
  import opened Wrappers
  import opened Text

  /** A template read as a sequence of literal characters and placeholders. */
  datatype Token = Literal(c: char) | Placeholder(name: string)

  /** What the capture group `([^}]+)` accepts: one or more characters, none of them `}`. */
  predicate IsPlaceholderName(name: string)
  {
    |name| > 0 && '}' !in name
  }

  /** A placeholder found at the start of a template: its name and the
      position just after its closing brace. */
  datatype Span = Span(name: string, end: nat)

  /** The placeholder that starts at the first character of `t`, if any.
      The name runs to the FIRST `}`; `${}` and an unterminated `${` are no placeholder. */
  function PlaceholderAt(t: string): (r: Option<Span>)
    ensures r.Some? <==> |t| > 3 && t[0] == '$' && t[1] == '{' && t[2] != '}' && '}' in t[3..]
    ensures r.Some? ==> IsPlaceholderName(r.value.name) && r.value.end <= |t|
                        && t[..r.value.end] == "${" + r.value.name + "}"
  {
    if |t| < 2 || t[0] != '$' || t[1] != '{' then None
    else match IndexOf(t[2..], '}')
      case None =>
        assert forall i :: 2 <= i < |t| ==> t[i] == t[2..][i - 2];
        None
      case Some(k) =>
        if k == 0 then None
        else
          assert '}' in t[3..] by { assert t[3..][k - 1] == t[2..][k]; }
          assert t[2..2 + k] == t[2..][..k];
          assert t[..2 + k + 1] == "${" + t[2..2 + k] + "}";
          Some(Span(t[2..2 + k], 2 + k + 1))
  }

  /** Splits a template into literals and placeholders. Matching resumes
      after each placeholder, and text that is not part of a placeholder is
      kept one character at a time. */
  function Tokenize(t: string): seq<Token>
    decreases |t|
  {
    if |t| == 0 then []
    else match PlaceholderAt(t)
      case Some(p) => [Placeholder(p.name)] + Tokenize(t[p.end..])
      case None => [Literal(t[0])] + Tokenize(t[1..])
  }

  /** Every placeholder the scan finds has a name the capture group accepts. */
  lemma {:induction false} TokenizeNames(t: string)
    ensures forall i :: 0 <= i < |Tokenize(t)| && Tokenize(t)[i].Placeholder? ==>
              IsPlaceholderName(Tokenize(t)[i].name)
    decreases |t|
  {
    if |t| > 0 {
      match PlaceholderAt(t)
      case Some(p) =>
        TokenizeAtPlaceholder(t);
        TokenizeNames(t[p.end..]);
      case None =>
        TokenizeNoPlaceholder(t);
        TokenizeNames(t[1..]);
    }
  }

  /** The template text a single token stands for. */
  function TokenText(tok: Token): string
  {
    match tok
    case Literal(c) => [c]
    case Placeholder(name) => "${" + name + "}"
  }

  /** Writes tokens back as template text. */
  function Detokenize(ts: seq<Token>): string
  {
    if ts == [] then "" else TokenText(ts[0]) + Detokenize(ts[1..])
  }

  /** Writing back a token sequence writes its first token, then the rest. */
  lemma DetokenizeCons(tok: Token, ts: seq<Token>)
    ensures Detokenize([tok] + ts) == TokenText(tok) + Detokenize(ts)
  {
    assert ([tok] + ts)[1..] == ts;
  }

  /** Tokenizing loses nothing: writing the tokens back gives the template. */
  lemma {:induction false} DetokenizeTokenize(t: string)
    ensures Detokenize(Tokenize(t)) == t
    decreases |t|
  {
    if |t| > 0 {
      match PlaceholderAt(t)
      case Some(p) =>
        var tail := t[p.end..];
        TokenizeAtPlaceholder(t);
        DetokenizeCons(Placeholder(p.name), Tokenize(tail));
        DetokenizeTokenize(tail);
        assert Detokenize(Tokenize(t)) == t[..p.end] + tail;
        assert t == t[..p.end] + tail;
      case None =>
        var tail := t[1..];
        TokenizeNoPlaceholder(t);
        DetokenizeCons(Literal(t[0]), Tokenize(tail));
        DetokenizeTokenize(tail);
        assert Detokenize(Tokenize(t)) == [t[0]] + tail;
        assert t == [t[0]] + tail;
    }
  }

  /** Where a placeholder starts, it is taken whole and the scan goes on after its `}`. */
  lemma TokenizeAtPlaceholder(t: string)
    requires PlaceholderAt(t).Some?
    ensures Tokenize(t) == [Placeholder(PlaceholderAt(t).value.name)] + Tokenize(t[PlaceholderAt(t).value.end..])
  {
  }

  /** Where no placeholder starts, the first character is literal text and the
      scan goes on with the next one. */
  lemma TokenizeNoPlaceholder(t: string)
    requires |t| > 0 && PlaceholderAt(t).None?
    ensures Tokenize(t) == [Literal(t[0])] + Tokenize(t[1..])
  {
  }

  /** A character other than `$` is always literal text, and the scan goes on with the next one. */
  lemma TokenizeLiteral(t: string)
    requires |t| > 0 && t[0] != '$'
    ensures Tokenize(t) == [Literal(t[0])] + Tokenize(t[1..])
  {
    TokenizeNoPlaceholder(t);
  }

  /** A well-formed placeholder is taken whole, and the scan goes on right after its `}`:
      whatever text follows it is scanned afresh, never merged into the name. */
  lemma {:induction false} TokenizePlaceholder(name: string, rest: string)
    requires IsPlaceholderName(name)
    ensures Tokenize("${" + name + "}" + rest) == [Placeholder(name)] + Tokenize(rest)
  {
    var t := "${" + name + "}" + rest;
    assert t[2..] == name + "}" + rest;
    assert t[2 + |name|] == '}';
    assert '}' in t[3..] by { assert t[3..][|name| - 1] == '}'; }
    var p := PlaceholderAt(t).value;
    assert t[..p.end] == "${" + p.name + "}";
    assert p.name == name;
    assert t[p.end..] == rest;
  }

  /** `${}` is not a placeholder: all three characters stay literal. */
  lemma EmptyNameIsLiteral(rest: string)
    ensures Tokenize("${}" + rest) == [Literal('$'), Literal('{'), Literal('}')] + Tokenize(rest)
  {
    var t := "${}" + rest;
    assert t[0] == '$' && t[1] == '{' && t[2] == '}';
    EmptyBracesAreLiteral(t);
    assert t[3..] == rest;
  }

  lemma EmptyBracesAreLiteral(t: string)
    requires |t| >= 3 && t[0] == '$' && t[1] == '{' && t[2] == '}'
    ensures Tokenize(t) == [Literal('$'), Literal('{'), Literal('}')] + Tokenize(t[3..])
  {
    TokenizeNoPlaceholder(t);
    TokenizeLiteral(t[1..]);
    assert t[1..][1..] == t[2..];
    TokenizeLiteral(t[2..]);
    assert t[2..][1..] == t[3..];
  }

  /** Without a `}` there is no placeholder: an unterminated `${` stays literal text. */
  lemma {:induction false} NoCloseBraceAllLiteral(t: string)
    requires '}' !in t
    ensures forall i :: 0 <= i < |Tokenize(t)| ==> Tokenize(t)[i].Literal?
    decreases |t|
  {
    if |t| > 0 {
      assert '}' !in t[1..];
      NoCloseBraceAllLiteral(t[1..]);
    }
  }
}
