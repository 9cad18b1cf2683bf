/** A worked configuration: a GitHub rule applied to an
    SSH clone URL. */
module Scenario {
  import opened Wrappers
  import opened Text
  import opened Resolver
  import opened Rules

  /** The text of the placeholder `${name}`. */
  function Hole(name: string): string
  {
    "${" + name + "}"
  }

  const GitHubPattern := "github\\.com[:/](.+?)(\\.git)?$"
  const GitHubTemplate :=
    "https://github.com/" + Hole("1") + "/blob/" + Hole("branch") + "/" + Hole("filename")
    + "#L" + Hole("startline") + "-L" + Hole("endline")
  const CloneUrl := "git@github.com:acme/widget.git"

  lemma GitHubTemplateParts()
    ensures GitHubTemplate ==
      "https://github.com/" + (Hole("1") + ("/blob/" + (Hole("branch") + ("/" + (Hole("filename")
      + ("#L" + (Hole("startline") + ("-L" + (Hole("endline") + "")))))))))
  {
  }

  lemma UrlParts(path: string, branch: string, filename: string, s: string, e: string)
    ensures "https://github.com/" + (path + ("/blob/" + (branch + ("/" + (filename + ("#L" + (s + ("-L" + (e + "")))))))))
            == "https://github.com/" + path + "/blob/" + branch + "/" + filename + "#L" + s + "-L" + e
  {
  }

  /** The values of the three text placeholders the GitHub template uses. */
  lemma GitHubTextValues(path: string, branch: string, filename: string, first: nat, last: nat, m: Captures)
    requires branch != "" && |m| >= 2 && m[1] == Some(path)
    ensures var ctx := Context(filename, Some(branch), Some(first), Some(last), None);
      && ResolvePlaceholder("1", ctx, m) == Some(path)
      && ResolvePlaceholder("branch", ctx, m) == Some(branch)
      && ResolvePlaceholder("filename", ctx, m) == Some(filename)
  {
    assert LowerAscii("branch") == "branch";
    assert LowerAscii("filename") == "filename";
    assert IsDecimal("1") && DecimalValue("1") == 1;
  }

  /** The values of the two line placeholders the GitHub template uses. */
  lemma GitHubLineValues(branch: string, filename: string, first: nat, last: nat, m: Captures)
    requires first > 0 && last > 0
    ensures var ctx := Context(filename, Some(branch), Some(first), Some(last), None);
      && ResolvePlaceholder("startline", ctx, m) == Some(NatToDecimal(first))
      && ResolvePlaceholder("endline", ctx, m) == Some(NatToDecimal(last))
  {
    assert LowerAscii("startline") == "startline";
    assert LowerAscii("endline") == "endline";
  }

  /** The line part `#L${startline}-L${endline}` of the template. */
  lemma LineAnchorResolves(ctx: Context, m: Captures, s: string, e: string)
    requires ResolvePlaceholder("startline", ctx, m) == Some(s)
    requires ResolvePlaceholder("endline", ctx, m) == Some(e)
    ensures ResolveTemplate("#L" + (Hole("startline") + ("-L" + (Hole("endline") + ""))), ctx, m)
            == Some("#L" + (s + ("-L" + (e + ""))))
  {
    ResolveTemplateNoCloseBrace("", ctx, m);
    ResolveTemplateSegment("-L", "endline", "", e, "", ctx, m);
    ResolveTemplateSegment("#L", "startline", "-L" + (Hole("endline") + ""), s, "-L" + (e + ""), ctx, m);
  }

  /** The GitHub template, given a repository path capture, a branch, a file and a
      line range, gives the blob URL of those lines; each value is inserted as it is. */
  lemma GitHubTemplateResolves(path: string, branch: string, filename: string,
                               first: nat, last: nat, m: Captures)
    requires branch != "" && first > 0 && last > 0
    requires |m| >= 2 && m[1] == Some(path)
    ensures ResolveTemplate(GitHubTemplate, Context(filename, Some(branch), Some(first), Some(last), None), m)
            == Some("https://github.com/" + path + "/blob/" + branch + "/" + filename
                    + "#L" + NatToDecimal(first) + "-L" + NatToDecimal(last))
  {
    var ctx := Context(filename, Some(branch), Some(first), Some(last), None);
    var s, e := NatToDecimal(first), NatToDecimal(last);
    GitHubTextValues(path, branch, filename, first, last, m);
    GitHubLineValues(branch, filename, first, last, m);
    var r3 := "#L" + (Hole("startline") + ("-L" + (Hole("endline") + "")));
    var w3 := "#L" + (s + ("-L" + (e + "")));
    LineAnchorResolves(ctx, m, s, e);
    ResolveTemplateSegment("/", "filename", r3, filename, w3, ctx, m);
    var r2 := "/" + (Hole("filename") + r3);
    var w2 := "/" + (filename + w3);
    ResolveTemplateSegment("/blob/", "branch", r2, branch, w2, ctx, m);
    var r1 := "/blob/" + (Hole("branch") + r2);
    var w1 := "/blob/" + (branch + w2);
    ResolveTemplateSegment("https://github.com/", "1", r1, path, w1, ctx, m);
    GitHubTemplateParts();
    UrlParts(path, branch, filename, s, e);
  }

  /** With that rule as the primary rule and the clone URL
      `git@github.com:acme/widget.git`, `findUrl` returns the blob URL of lines 3
      to 7 of `lib/a.ts` on `main`, whatever the additional rules are. */
  lemma GitHubScenario(others: seq<UrlRule>, matcher: Matcher)
    requires matcher(CloneUrl, GitHubPattern)
             == Matched([Some("github.com:acme/widget.git"), Some("acme/widget"), Some(".git")])
    ensures SearchRules(BuildRules(Config(Some(GitHubPattern), Some([GitHubTemplate]), others)),
                        CloneUrl, Context("lib/a.ts", Some("main"), Some(3), Some(7), None), matcher)
            == Success("https://github.com/" + "acme/widget" + "/blob/" + "main" + "/" + "lib/a.ts"
                       + "#L" + "3" + "-L" + "7")
  {
    var ctx := Context("lib/a.ts", Some("main"), Some(3), Some(7), None);
    var m := [Some("github.com:acme/widget.git"), Some("acme/widget"), Some(".git")];
    GitHubTemplateResolves("acme/widget", "main", "lib/a.ts", 3, 7, m);
    assert NatToDecimal(3) == "3" && NatToDecimal(7) == "7";
    var rule := UrlRule(Some(GitHubPattern), Some([GitHubTemplate]));
    assert Eligible(rule);
    assert FirstResolving([GitHubTemplate], ctx, m) == ResolveTemplate(GitHubTemplate, ctx, m);
  }
}
