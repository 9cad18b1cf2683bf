/** Placeholder resolution and template substitution: the replace callback
    of `findUrl` and the all-or-nothing substitution of one template. */
module Resolver {
  import opened Wrappers
  import opened Text
  import opened Template

  /** The match array of `cloneUrl.match(pattern)`: index 0 is the whole
      match, index k is capture group k, and `None` stands for a group that
      did not take part in the match (`undefined`). */
  type Captures = seq<Option<string>>

  /** The values `findUrl` receives besides the configuration and the clone URL. */
  datatype Context = Context(
    filename: string,
    branch: Option<string>,
    startLine: Option<nat>,
    endLine: Option<nat>,
    hash: Option<string>)

  /** An optional string used only when it is truthy: present and not empty. */
  function TruthyText(v: Option<string>): Option<string>
  {
    if v.Some? && v.value != "" then v else None
  }

  /** An optional line number used only when it is truthy (present and not 0), rendered in decimal. */
  function LineText(v: Option<nat>): Option<string>
  {
    if v.Some? && v.value != 0 then Some(NatToDecimal(v.value)) else None
  }

  /** `m[k]` converted to text by `replace`: an index past the end, or a group that
      did not participate, is `undefined`, which becomes the text "undefined". */
  function CaptureText(m: Captures, k: nat): string
  {
    if k < |m| && m[k].Some? then m[k].value else "undefined"
  }

  predicate IsKeyword(key: string)
  {
    key == "filename" || key == "branch" || key == "startline" || key == "endline" || key == "hash"
  }

  /** The value a placeholder `${name}` is replaced by, or `None` where the
      callback throws "Unsupported variable". The keyword names are compared
      after lower-casing; any other name must be a capture-group number k with
      1 <= k <= |m|, where |m| is the number of groups plus one. */
  function ResolvePlaceholder(name: string, ctx: Context, m: Captures): (r: Option<string>)
    ensures LowerAscii(name) == "filename" ==> r == Some(ctx.filename)
    ensures LowerAscii(name) == "branch" ==>
              (r.Some? <==> ctx.branch.Some? && ctx.branch.value != "")
              && (r.Some? ==> r.value == ctx.branch.value)
    ensures LowerAscii(name) == "hash" ==>
              (r.Some? <==> ctx.hash.Some? && ctx.hash.value != "")
              && (r.Some? ==> r.value == ctx.hash.value)
    ensures LowerAscii(name) == "startline" ==>
              (r.Some? <==> ctx.startLine.Some? && ctx.startLine.value != 0)
              && (r.Some? ==> r.value == NatToDecimal(ctx.startLine.value)
                              && IsDecimal(r.value) && DecimalValue(r.value) == ctx.startLine.value)
    ensures LowerAscii(name) == "endline" ==>
              (r.Some? <==> ctx.endLine.Some? && ctx.endLine.value != 0)
              && (r.Some? ==> r.value == NatToDecimal(ctx.endLine.value)
                              && IsDecimal(r.value) && DecimalValue(r.value) == ctx.endLine.value)
    ensures IsDecimal(name) ==> (r.Some? <==> 1 <= DecimalValue(name) <= |m|)
    ensures IsDecimal(name) && r.Some? ==>
              var k := DecimalValue(name);
              r.value == if k < |m| && m[k].Some? then m[k].value else "undefined"
    ensures r.Some? ==> IsKeyword(LowerAscii(name)) || IsDecimal(name)
  {
    var key := LowerAscii(name);
    assert IsDecimal(name) ==> key[0] == name[0] && !IsKeyword(key);
    if key == "filename" then Some(ctx.filename)
    else if key == "branch" then TruthyText(ctx.branch)
    else if key == "startline" then LineText(ctx.startLine)
    else if key == "endline" then LineText(ctx.endLine)
    else if key == "hash" then TruthyText(ctx.hash)
    else if IsDecimal(name) && 1 <= DecimalValue(name) <= |m| then Some(CaptureText(m, DecimalValue(name)))
    else None
  }

  /** Both parts present: their concatenation; otherwise nothing. */
  function Join(a: Option<string>, b: Option<string>): Option<string>
  {
    if a.Some? && b.Some? then Some(a.value + b.value) else None
  }

  /** Every placeholder among the tokens can be resolved. */
  predicate AllResolvable(ts: seq<Token>, ctx: Context, m: Captures)
  {
    forall i :: 0 <= i < |ts| && ts[i].Placeholder? ==> ResolvePlaceholder(ts[i].name, ctx, m).Some?
  }

  /** Substitutes every token in order. One failing placeholder fails the whole sequence. */
  function Fill(ts: seq<Token>, ctx: Context, m: Captures): (r: Option<string>)
    ensures r.Some? <==> AllResolvable(ts, ctx, m)
  {
    if ts == [] then Some("")
    else
      var head := match ts[0]
        case Literal(c) => Some([c])
        case Placeholder(name) => ResolvePlaceholder(name, ctx, m);
      var tail := Fill(ts[1..], ctx, m);
      assert forall i :: 1 <= i < |ts| ==> ts[i] == ts[1..][i - 1];
      Join(head, tail)
  }

  /** One attempt at a template, as `webUrl.replace(...)` inside the `try`:
      the fully substituted URL, or `None` when some placeholder cannot be resolved. */
  function ResolveTemplate(t: string, ctx: Context, m: Captures): Option<string>
  {
    Fill(Tokenize(t), ctx, m)
  }

  /** A template yields a URL exactly when every placeholder found in it resolves;
      one unresolvable placeholder discards the whole template. */
  lemma ResolveTemplateAllOrNothing(t: string, ctx: Context, m: Captures)
    ensures ResolveTemplate(t, ctx, m).Some? <==> AllResolvable(Tokenize(t), ctx, m)
  {
  }

  /** A character where no placeholder starts (any character but `$`, and a `$`
      not followed by `{`, a non-`}` character and a later `}`) is copied, and
      substitution continues after it. */
  lemma ResolveTemplateLiteral(t: string, ctx: Context, m: Captures)
    requires |t| > 0 && PlaceholderAt(t).None?
    ensures ResolveTemplate(t, ctx, m) == Join(Some([t[0]]), ResolveTemplate(t[1..], ctx, m))
  {
    TokenizeNoPlaceholder(t);
    var ts := [Literal(t[0])] + Tokenize(t[1..]);
    assert ts[1..] == Tokenize(t[1..]);
  }

  /** Copying two pieces of text one after the other copies their concatenation. */
  lemma JoinText(a: string, b: string, x: Option<string>)
    ensures Join(Some(a), Join(Some(b), x)) == Join(Some(a + b), x)
  {
    if x.Some? {
      assert a + (b + x.value) == (a + b) + x.value;
    }
  }

  /** Copying no text changes nothing. */
  lemma JoinEmptyText(x: Option<string>)
    ensures Join(Some(""), x) == x
  {
    if x.Some? {
      assert "" + x.value == x.value;
    }
  }

  /** A prefix without `$` is copied unchanged, and substitution continues after it. */
  lemma {:induction false} ResolveTemplatePrefix(t: string, k: nat, ctx: Context, m: Captures)
    requires k <= |t| && '$' !in t[..k]
    ensures ResolveTemplate(t, ctx, m) == Join(Some(t[..k]), ResolveTemplate(t[k..], ctx, m))
  {
    if k == 0 {
      assert t[..0] == "" && t[0..] == t;
      JoinEmptyText(ResolveTemplate(t, ctx, m));
    } else {
      var u := t[1..];
      assert t[..k][0] == t[0];
      assert u[..k - 1] == t[..k][1..];
      assert u[k - 1..] == t[k..];
      ResolveTemplateLiteral(t, ctx, m);
      ResolveTemplatePrefix(u, k - 1, ctx, m);
      JoinText([t[0]], u[..k - 1], ResolveTemplate(t[k..], ctx, m));
      assert ResolveTemplate(t, ctx, m) == Join(Some([t[0]] + u[..k - 1]), ResolveTemplate(t[k..], ctx, m));
      assert [t[0]] + u[..k - 1] == t[..k];
    }
  }

  /** Text without `$` is copied unchanged, and substitution continues after it. */
  lemma ResolveTemplateText(s: string, rest: string, ctx: Context, m: Captures)
    requires '$' !in s
    ensures ResolveTemplate(s + rest, ctx, m) == Join(Some(s), ResolveTemplate(rest, ctx, m))
  {
    var t := s + rest;
    assert t[..|s|] == s && t[|s|..] == rest;
    ResolveTemplatePrefix(t, |s|, ctx, m);
  }

  /** A placeholder is replaced by its value, the value is not scanned again,
      and substitution continues right after the placeholder. */
  lemma ResolveTemplatePlaceholder(name: string, rest: string, ctx: Context, m: Captures)
    requires IsPlaceholderName(name)
    ensures ResolveTemplate("${" + name + "}" + rest, ctx, m)
            == Join(ResolvePlaceholder(name, ctx, m), ResolveTemplate(rest, ctx, m))
  {
    TokenizePlaceholder(name, rest);
    var ts := [Placeholder(name)] + Tokenize(rest);
    assert ts[1..] == Tokenize(rest);
  }

  /** Text, then a placeholder, then the rest: the text is kept, the placeholder
      is replaced by its value, and the rest is substituted on its own. */
  lemma ResolveTemplateSegment(text: string, name: string, rest: string, v: string, w: string,
                               ctx: Context, m: Captures)
    requires '$' !in text && IsPlaceholderName(name)
    requires ResolvePlaceholder(name, ctx, m) == Some(v) && ResolveTemplate(rest, ctx, m) == Some(w)
    ensures ResolveTemplate(text + ("${" + name + "}" + rest), ctx, m) == Some(text + (v + w))
  {
    ResolveTemplatePlaceholder(name, rest, ctx, m);
    ResolveTemplateText(text, "${" + name + "}" + rest, ctx, m);
  }

  /** A template without `}` holds no placeholder and resolves to itself. */
  lemma {:induction false} ResolveTemplateNoCloseBrace(t: string, ctx: Context, m: Captures)
    requires '}' !in t
    ensures ResolveTemplate(t, ctx, m) == Some(t)
    decreases |t|
  {
    if t != [] {
      assert PlaceholderAt(t).None?;
      assert '}' !in t[1..];
      ResolveTemplateNoCloseBrace(t[1..], ctx, m);
      assert [t[0]] + t[1..] == t;
    }
  }

  /** Placeholder names differing only in letter case resolve identically. */
  lemma PlaceholderCaseInsensitive(a: string, b: string, ctx: Context, m: Captures)
    requires LowerAscii(a) == LowerAscii(b)
    ensures ResolvePlaceholder(a, ctx, m) == ResolvePlaceholder(b, ctx, m)
  {
    if !IsKeyword(LowerAscii(a)) {
      LowerAsciiKeepsDigits(a);
      LowerAsciiKeepsDigits(b);
      if IsDecimal(a) || IsDecimal(b) {
        assert IsDecimal(a) && IsDecimal(b);
        LowerAsciiDecimal(a);
        LowerAsciiDecimal(b);
      }
    }
  }

  /** `${k}` for k = |m|, one past the last capture group, is accepted and becomes "undefined". */
  lemma OnePastLastGroupIsUndefined(ctx: Context, m: Captures)
    requires |m| > 0
    ensures ResolvePlaceholder(NatToDecimal(|m|), ctx, m) == Some("undefined")
  {
  }

  /** A capture group that did not take part in the match becomes "undefined", not a failure. */
  lemma MissingGroupIsUndefined(k: nat, ctx: Context, m: Captures)
    requires 1 <= k < |m| && m[k].None?
    ensures ResolvePlaceholder(NatToDecimal(k), ctx, m) == Some("undefined")
  {
  }
}
