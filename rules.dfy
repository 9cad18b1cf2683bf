/** The rule search of `findUrl`: an ordered list of (remote pattern, web URL
    templates) rules, tried until one rule yields a URL. */
module Rules {
  import opened Wrappers
  import opened Resolver

  /** One rule of the configuration; either field may be absent. */
  datatype UrlRule = UrlRule(remotePattern: Option<string>, webUrls: Option<seq<string>>)

  /** The configuration `findUrl` reads: the primary `remotePattern`/`webUrls`
      pair and the additional rules of `otherPatterns`. */
  datatype Config = Config(
    remotePattern: Option<string>,
    webUrls: Option<seq<string>>,
    otherPatterns: seq<UrlRule>)

  /** What `cloneUrl.match(pattern)` does: no match (`null`), a match array,
      or a `SyntaxError` because the pattern is not a valid regular expression. */
  datatype RegexOutcome = NoMatch | Matched(captures: Captures) | InvalidPattern

  /** The regular-expression engine, left uninterpreted: (clone URL, pattern) to outcome. */
  type Matcher = (string, string) -> RegexOutcome

  /** Why no URL was produced. `NoPatternMatches` is the error thrown once every
      rule is exhausted; `BadPattern` is the `SyntaxError` that escapes `findUrl`
      when a pattern does not compile. */
  datatype FindError = NoPatternMatches(cloneUrl: string) | BadPattern(pattern: string)

  /** The rule list: the primary rule, then `otherPatterns` in configuration order. */
  function BuildRules(config: Config): seq<UrlRule>
  {
    [UrlRule(config.remotePattern, config.webUrls)] + config.otherPatterns
  }

  /** A rule takes part only with a non-empty pattern and a non-empty template list. */
  predicate Eligible(rule: UrlRule)
  {
    rule.remotePattern.Some? && |rule.remotePattern.value| > 0
    && rule.webUrls.Some? && |rule.webUrls.value| > 0
  }

  /** The first template that resolves completely, trying the templates in order. */
  function FirstResolving(urls: seq<string>, ctx: Context, m: Captures): Option<string>
  {
    if urls == [] then None
    else match ResolveTemplate(urls[0], ctx, m)
      case Some(url) => Some(url)
      case None => FirstResolving(urls[1..], ctx, m)
  }

  /** What one rule contributes to the search: nothing, so that the next rule
      is tried, or the final outcome. */
  datatype Step = PassOver | Stop(result: Result<string, FindError>)

  function TryRule(rule: UrlRule, cloneUrl: string, ctx: Context, matcher: Matcher): Step
  {
    if !Eligible(rule) then PassOver
    else match matcher(cloneUrl, rule.remotePattern.value)
      case NoMatch => PassOver
      case InvalidPattern => Stop(Failure(BadPattern(rule.remotePattern.value)))
      case Matched(m) =>
        match FirstResolving(rule.webUrls.value, ctx, m)
        case Some(url) => Stop(Success(url))
        case None => PassOver
  }

  /** A rule ends the search only when it is eligible and either its pattern does
      not compile or its pattern matches and one of its templates resolves
      completely; the URL is then that template's substitution. */
  lemma TryRuleOutcome(rule: UrlRule, cloneUrl: string, ctx: Context, matcher: Matcher)
    ensures TryRule(rule, cloneUrl, ctx, matcher).Stop? ==> Eligible(rule)
    ensures TryRule(rule, cloneUrl, ctx, matcher).Stop? && TryRule(rule, cloneUrl, ctx, matcher).result.Failure?
            <==> Eligible(rule) && matcher(cloneUrl, rule.remotePattern.value).InvalidPattern?
    ensures Eligible(rule) && TryRule(rule, cloneUrl, ctx, matcher).Stop? && TryRule(rule, cloneUrl, ctx, matcher).result.Failure?
            ==> TryRule(rule, cloneUrl, ctx, matcher).result.error == BadPattern(rule.remotePattern.value)
    ensures TryRule(rule, cloneUrl, ctx, matcher).Stop? && TryRule(rule, cloneUrl, ctx, matcher).result.Success? ==>
              var outcome := matcher(cloneUrl, rule.remotePattern.value);
              outcome.Matched?
              && exists i :: 0 <= i < |rule.webUrls.value|
                             && ResolveTemplate(rule.webUrls.value[i], ctx, outcome.captures)
                                == Some(TryRule(rule, cloneUrl, ctx, matcher).result.value)
  {
    if Eligible(rule) && matcher(cloneUrl, rule.remotePattern.value).Matched? {
      FirstResolvingFound(rule.webUrls.value, ctx, matcher(cloneUrl, rule.remotePattern.value).captures);
    }
  }

  /** The outcome of `findUrl` over a rule list. */
  function SearchRules(rules: seq<UrlRule>, cloneUrl: string, ctx: Context, matcher: Matcher): Result<string, FindError>
  {
    if rules == [] then Failure(NoPatternMatches(cloneUrl))
    else match TryRule(rules[0], cloneUrl, ctx, matcher)
      case Stop(result) => result
      case PassOver => SearchRules(rules[1..], cloneUrl, ctx, matcher)
  }

  /** Templates are tried in list order: when template i is the first one that
      resolves completely, its URL is the result. */
  lemma {:induction false} FirstResolvingAt(urls: seq<string>, i: nat, ctx: Context, m: Captures)
    requires i < |urls| && ResolveTemplate(urls[i], ctx, m).Some?
    requires forall j :: 0 <= j < i ==> ResolveTemplate(urls[j], ctx, m).None?
    ensures FirstResolving(urls, ctx, m) == ResolveTemplate(urls[i], ctx, m)
  {
    if i > 0 {
      var tail := urls[1..];
      assert forall j :: 0 <= j < i - 1 ==> tail[j] == urls[j + 1];
      FirstResolvingAt(tail, i - 1, ctx, m);
    }
  }

  /** The template loop finds nothing exactly when every template fails. */
  lemma {:induction false} FirstResolvingNone(urls: seq<string>, ctx: Context, m: Captures)
    ensures FirstResolving(urls, ctx, m).None? <==>
              forall i :: 0 <= i < |urls| ==> ResolveTemplate(urls[i], ctx, m).None?
  {
    if urls != [] {
      FirstResolvingNone(urls[1..], ctx, m);
      assert forall i :: 1 <= i < |urls| ==> urls[i] == urls[1..][i - 1];
    }
  }

  /** A URL found by the template loop is the complete substitution of one of the
      templates, never a partially substituted string. */
  lemma {:induction false} FirstResolvingFound(urls: seq<string>, ctx: Context, m: Captures)
    ensures FirstResolving(urls, ctx, m).Some? ==>
              exists i :: 0 <= i < |urls| && ResolveTemplate(urls[i], ctx, m) == FirstResolving(urls, ctx, m)
  {
    if urls != [] && ResolveTemplate(urls[0], ctx, m).None? {
      var tail := urls[1..];
      FirstResolvingFound(tail, ctx, m);
      if FirstResolving(tail, ctx, m).Some? {
        var k :| 0 <= k < |tail| && ResolveTemplate(tail[k], ctx, m) == FirstResolving(tail, ctx, m);
        assert urls[k + 1] == tail[k];
      }
    }
  }

  /** Once a template resolves, templates after it are never consulted: appending
      more templates, whatever they contain, changes nothing. */
  lemma {:induction false} LaterTemplatesIgnored(urls: seq<string>, more: seq<string>, ctx: Context, m: Captures)
    requires FirstResolving(urls, ctx, m).Some?
    ensures FirstResolving(urls + more, ctx, m) == FirstResolving(urls, ctx, m)
  {
    assert urls != [];
    if ResolveTemplate(urls[0], ctx, m).None? {
      assert (urls + more)[1..] == urls[1..] + more;
      LaterTemplatesIgnored(urls[1..], more, ctx, m);
    }
  }

  /** Rules are considered strictly in order: the outcome is that of the first rule
      that stops the search, and the search fails with the clone URL exactly when
      every rule is passed over. */
  lemma {:induction false} SearchRulesFirstStop(rules: seq<UrlRule>, cloneUrl: string, ctx: Context, matcher: Matcher)
    ensures SearchRules(rules, cloneUrl, ctx, matcher) == Failure(NoPatternMatches(cloneUrl)) <==>
              forall i :: 0 <= i < |rules| ==> TryRule(rules[i], cloneUrl, ctx, matcher).PassOver?
    ensures forall i ::
              (0 <= i < |rules| && TryRule(rules[i], cloneUrl, ctx, matcher).Stop?
               && forall j :: 0 <= j < i ==> TryRule(rules[j], cloneUrl, ctx, matcher).PassOver?) ==>
              SearchRules(rules, cloneUrl, ctx, matcher) == TryRule(rules[i], cloneUrl, ctx, matcher).result
  {
    if rules != [] {
      SearchRulesFirstStop(rules[1..], cloneUrl, ctx, matcher);
      assert forall i :: 1 <= i < |rules| ==> rules[i] == rules[1..][i - 1];
      forall i | 0 <= i < |rules| && TryRule(rules[i], cloneUrl, ctx, matcher).Stop?
                 && (forall j :: 0 <= j < i ==> TryRule(rules[j], cloneUrl, ctx, matcher).PassOver?)
        ensures SearchRules(rules, cloneUrl, ctx, matcher) == TryRule(rules[i], cloneUrl, ctx, matcher).result
      {
        if i > 0 {
          assert forall j :: 0 <= j < i - 1 ==> TryRule(rules[1..][j], cloneUrl, ctx, matcher).PassOver?;
        }
      }
    }
  }

  /** A rule without a non-empty pattern or a non-empty template list is skipped
      without consulting the matcher. */
  lemma IneligibleRuleSkipped(rule: UrlRule, rest: seq<UrlRule>, cloneUrl: string, ctx: Context, matcher: Matcher)
    requires !Eligible(rule)
    ensures SearchRules([rule] + rest, cloneUrl, ctx, matcher) == SearchRules(rest, cloneUrl, ctx, matcher)
  {
    assert ([rule] + rest)[1..] == rest;
  }

  /** A rule whose pattern matches but none of whose templates resolves does
      not end the search: the later rules are tried next. */
  lemma MatchedRuleWithoutUrlFallsThrough(rule: UrlRule, rest: seq<UrlRule>, cloneUrl: string, ctx: Context, matcher: Matcher)
    requires Eligible(rule) && matcher(cloneUrl, rule.remotePattern.value).Matched?
    requires forall i :: 0 <= i < |rule.webUrls.value| ==>
               ResolveTemplate(rule.webUrls.value[i], ctx, matcher(cloneUrl, rule.remotePattern.value).captures).None?
    ensures SearchRules([rule] + rest, cloneUrl, ctx, matcher) == SearchRules(rest, cloneUrl, ctx, matcher)
  {
    FirstResolvingNone(rule.webUrls.value, ctx, matcher(cloneUrl, rule.remotePattern.value).captures);
    assert ([rule] + rest)[1..] == rest;
  }

  /** The primary rule from `remotePattern`/`webUrls` is tried first, and only
      when it is passed over are the `otherPatterns` tried, in their order. */
  lemma PrimaryRuleFirst(config: Config, cloneUrl: string, ctx: Context, matcher: Matcher)
    ensures SearchRules(BuildRules(config), cloneUrl, ctx, matcher) ==
              match TryRule(UrlRule(config.remotePattern, config.webUrls), cloneUrl, ctx, matcher)
              case Stop(result) => result
              case PassOver => SearchRules(config.otherPatterns, cloneUrl, ctx, matcher)
  {
    assert BuildRules(config)[1..] == config.otherPatterns;
  }

  /** `findUrl`: walks the rules in order and, for a rule whose pattern matches,
      its templates in order, returning the first URL that resolves completely. */
  method FindUrl(config: Config, cloneUrl: string, filename: string, branch: Option<string>,
                 startLine: Option<nat>, endLine: Option<nat>, hash: Option<string>,
                 matcher: Matcher)
    returns (r: Result<string, FindError>)
    ensures r == SearchRules(BuildRules(config), cloneUrl,
                             Context(filename, branch, startLine, endLine, hash), matcher)
  {
    var ctx := Context(filename, branch, startLine, endLine, hash);
    var rules := BuildRules(config);
    var i := 0;
    while i < |rules|
      invariant 0 <= i <= |rules|
      invariant SearchRules(rules[i..], cloneUrl, ctx, matcher) == SearchRules(rules, cloneUrl, ctx, matcher)
    {
      var rule := rules[i];
      assert rules[i..][1..] == rules[i + 1..];
      if Eligible(rule) {
        var pattern := rule.remotePattern.value;
        match matcher(cloneUrl, pattern) {
          case InvalidPattern =>
            return Failure(BadPattern(pattern));
          case NoMatch =>
          case Matched(m) =>
            var urls := rule.webUrls.value;
            var j := 0;
            while j < |urls|
              invariant 0 <= j <= |urls|
              invariant FirstResolving(urls[j..], ctx, m) == FirstResolving(urls, ctx, m)
            {
              assert urls[j..][1..] == urls[j + 1..];
              var attempt := ResolveTemplate(urls[j], ctx, m);
              if attempt.Some? {
                return Success(attempt.value);
              }
              j := j + 1;
            }
        }
      }
      i := i + 1;
    }
    return Failure(NoPatternMatches(cloneUrl));
  }
}
