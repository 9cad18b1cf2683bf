# git-web-link: the URL engine, in Dafny

git-web-link is a VS Code extension. It turns the file open in the editor into a
link on a web front-end for the repository, such as GitHub or GitLab. The heart
of it is `findUrl`. `findUrl` takes the fetch URL of a git remote (the clone URL)
and walks an ordered list of rules. Each rule is a regular expression over the
clone URL plus a list of web URL templates. For the first rule whose pattern
matches, the templates are tried in order. Each `${name}` placeholder in a
template is replaced by:

- the file's path in the repository;
- the branch or the commit hash;
- the first or last selected line;
- or a capture group of the match.

The first template whose placeholders all resolve gives the URL.

This project models that engine and the pure computations of `openLink` that
feed it:

- the repository-relative path with forward slashes;
- the selected line range;
- the choice of remote and its fetch URL;
- the wizard's reading of the items the user picked.

Modules, one file each:

- `Wrappers` (wrappers.dfy): `Option` and `Result`.
- `Text` (text.dfy): searching a string, ASCII lower-casing, and decimal digit strings (parsing and rendering).
- `Template` (template.dfy): the placeholder syntax. It is the left-to-right scan `String.prototype.replace` makes with `/\${([^}]+)}/gi`, written as a tokenizer.
- `Resolver` (resolver.dfy): the replace callback (`ResolvePlaceholder`) and all-or-nothing substitution of one template (`ResolveTemplate`). A throw from the callback is `None`.
- `Rules` (rules.dfy):
  - the rule list;
  - the specification of the search (`TryRule`, `FirstResolving`, `SearchRules`);
  - `FindUrl`, the nested loops of `findUrl` as a method proved equal to `SearchRules`.
- `OpenLink` (openlink.dfy): stem, line range, remote choice, and their composition `LinkUrl`.
- `Wizard` (wizard.dfy): icon stripping and the pick loop `ParsePicks`, proved against `Picked`/`PickedActions`.
- `Scenario` (scenario.dfy): a GitHub rule worked end to end.

The regular-expression engine is a parameter, `matcher: (cloneUrl, pattern) -> RegexOutcome`. The outcome is one of:

- no match;
- a match array, where index 0 is the whole match and a group that did not take part is `None`;
- an invalid pattern. `cloneUrl.match` throws a `SyntaxError` for one, and it escapes `findUrl` because it is raised outside the per-template `try`.

Where the code's behaviour is easy to misread, the model follows the code:

- A rule whose pattern matches but none of whose templates resolves does not end the search; later rules are tried.
- A numeric placeholder `${k}` is accepted for 1 <= k <= `m.length`, and `m.length` is the number of groups plus one. So `${k}` with k = `m.length` is inserted as the text `undefined`, and so is a group that did not take part in the match.
- `branch` and `hash` resolve only when non-empty, and `startline` and `endline` only when nonzero. Otherwise the template is discarded.
- The last line of a selection is `end.line + 1`, except `end.line` when `start.line > end.line` and `end.character == 0`. An editor selection's start never comes after its end, because the host orders the two positions of a range. So that exception cannot apply to a selection the editor hands over. In particular, a selection that ends at column 0 of a later line still includes that line. The model keeps the expression as written. `OrderedSelectionLines` states what it yields for every selection the editor can produce, and `BackwardSelectionToFirstLine` shows what the unreachable branch would do.

## Model

| member | source | states |
|---|---|---|
| Text.NatToDecimal | src/extension.ts:41 | a line number is rendered as a non-empty decimal digit string whose value is the number, without a leading zero |
| Template.PlaceholderAt | src/extension.ts:30 | a placeholder starts at a position exactly when `${` is followed by a non-`}` character and a later `}`; the name is the text up to the first `}` |
| Template.TokenizeNames | src/extension.ts:30 | (`Tokenize`, the scan of the template) every placeholder the scan finds has a non-empty name without `}` |
| Template.DetokenizeTokenize | src/extension.ts:30 | the scan loses nothing: writing the tokens back gives the template |
| Template.TokenizePlaceholder | src/extension.ts:30 | `${name}` is taken whole, and scanning resumes right after its `}` |
| Template.EmptyNameIsLiteral | src/extension.ts:30 | `${}` is not a placeholder; its three characters stay literal |
| Template.NoCloseBraceAllLiteral | src/extension.ts:30 | text without `}` (an unterminated `${` included) holds only literals |
| Resolver.ResolvePlaceholder | src/extension.ts:31-61 | `filename` always resolves; `branch`/`hash` resolve iff present and non-empty, to the value; `startline`/`endline` resolve iff present and nonzero, to exactly `NatToDecimal` of the number (no leading zero); a numeric name k resolves iff 1 <= k <= \|m\|, to `m[k]` or `undefined`; any other name fails |
| Resolver.Fill | src/extension.ts:30-62 | substitution of a token sequence succeeds exactly when every placeholder in it resolves |
| Resolver.ResolveTemplateAllOrNothing | src/extension.ts:29-63 | (`ResolveTemplate`, one attempt at a template) a template yields a URL exactly when every placeholder in it resolves; one failing placeholder discards the template |
| Resolver.ResolveTemplateText | src/extension.ts:30 | text without `$` is copied unchanged and substitution continues after it |
| Resolver.ResolveTemplatePrefix | src/extension.ts:30 | a prefix without `$` is copied unchanged and substitution continues after it |
| Resolver.ResolveTemplateLiteral | src/extension.ts:30 | a character where no placeholder starts, including a `$` that opens none (as in `$x${a}` or `${}${a}`), is copied unchanged and substitution continues with the next character; with `ResolveTemplatePlaceholder` this fixes the substituted text of every template |
| Resolver.ResolveTemplatePlaceholder | src/extension.ts:30 | a placeholder is replaced by its value, the value is not rescanned, and substitution continues after the `}` |
| Resolver.ResolveTemplateSegment | src/extension.ts:30 | text, placeholder, rest: the text is kept, the value inserted, the rest substituted |
| Resolver.ResolveTemplateNoCloseBrace | src/extension.ts:30 | a template without `}` resolves to itself |
| Resolver.PlaceholderCaseInsensitive | src/extension.ts:31 | names that agree up to case resolve alike |
| Resolver.OnePastLastGroupIsUndefined | src/extension.ts:55-57 | `${k}` with k = `m.length` is accepted and inserts `undefined` |
| Resolver.MissingGroupIsUndefined | src/extension.ts:55-57 | a group that did not take part in the match inserts `undefined` |
| Rules.TryRuleOutcome | src/extension.ts:25-66 | (`TryRule`, one pass of the outer loop) a rule stops the search only when it is eligible; it fails only with its own invalid pattern; a URL it returns is the full substitution of one of its templates under a match |
| Rules.FirstResolvingAt | src/extension.ts:28-63 | when template i is the first that resolves, its URL is returned |
| Rules.FirstResolvingNone | src/extension.ts:28-64 | (`FirstResolving`, the inner loop; with `FirstResolvingAt` and `FirstResolvingFound`) the template loop finds nothing exactly when every template fails |
| Rules.FirstResolvingFound | src/extension.ts:28-63 | a returned URL is one template's complete substitution, never a partial one |
| Rules.LaterTemplatesIgnored | src/extension.ts:28-30 | templates after the first resolving one are never evaluated: appending any templates changes nothing |
| Rules.SearchRulesFirstStop | src/extension.ts:24-68 | (`SearchRules`, the outer loop) the outcome is that of the first rule that stops the search; the search fails with the clone URL exactly when every rule is passed over |
| Rules.IneligibleRuleSkipped | src/extension.ts:25 | a rule without a non-empty pattern and a non-empty template list is skipped |
| Rules.MatchedRuleWithoutUrlFallsThrough | src/extension.ts:24-67 | a rule that matches but whose templates all fail hands over to the later rules |
| Rules.PrimaryRuleFirst | src/extension.ts:17-23 | (`BuildRules`) the `remotePattern`/`webUrls` rule comes first, then `otherPatterns` in order |
| Rules.FindUrl | src/extension.ts:16-69 | the nested loops with early returns compute `SearchRules` over the rule list |
| OpenLink.ForwardSlashes | src/extension.ts:161 | every `\` becomes `/`, every other character and the length are kept |
| OpenLink.Stem | src/extension.ts:161 | a stem exists iff the root is a prefix of the path; character by character it is the rest of the path with each `\` turned into `/` and every other character kept |
| OpenLink.StemRestoresPath | src/extension.ts:161 | for a path without `\`, root + stem is the path |
| OpenLink.OrderedSelectionLines | src/extension.ts:165-166 | (`LineRange`) for a selection whose start does not come after its end, the lines are `start.line + 1` and `end.line + 1`, in order, and both line placeholders resolve |
| OpenLink.BackwardSelectionToFirstLine | src/extension.ts:166 | the column-0 exception can give end line 0, and then `${endline}` fails |
| OpenLink.RemoteName | src/extension.ts:94 | HEAD's remote when set and non-empty, otherwise `origin` |
| OpenLink.FindRemote | src/extension.ts:95 | the index of the first remote with the name; none iff no remote has it |
| OpenLink.FetchUrl | src/extension.ts:94-99 | the non-empty fetch URL of the first remote with the chosen name, or an error naming that remote iff there is no such remote or its fetch URL is absent or empty |
| OpenLink.LinkContext | src/extension.ts:162-166 | the branch is HEAD's name and the hash HEAD's commit when requested, absent otherwise; the lines are present exactly when the region is requested and there is a selection, and are then `LineRange` of the selection, the first >= 1 |
| OpenLink.LinkUrl | src/extension.ts:89-170 | a file outside the root, or a remote without a fetch URL, gives the error shown; otherwise the result is exactly the rule search's for the stem and the fetch URL: its URL, or its error |
| Wizard.StripIconRemovesPrefix | src/extension.ts:133 | (`StripIcon`) only a leading `$(icon) ` with a non-empty icon name free of `)` is ever removed |
| Wizard.StripIconRoundTrip | src/extension.ts:133 | removing the icon from `$(icon) text` gives `text` |
| Wizard.StripIconWithoutIcon | src/extension.ts:133 | an item that does not start with `$(` is kept |
| Wizard.PickedActions | src/extension.ts:144-147 | the collected actions are only `Open`/`Copy`, at most one per picked item |
| Wizard.PickedActionsConcat | src/extension.ts:131-147 | actions are collected in pick order: picking a then b yields the actions of a followed by those of b |
| Wizard.PickedActionsMembers | src/extension.ts:144-147 | an action is collected exactly when some picked item reads as it |
| Wizard.PickedSomeLabel | src/extension.ts:131-143 | a flag's condition holds exactly when some picked item reads as its text |
| Wizard.ParsePicks | src/extension.ts:129-149 | the loop sets each include flag exactly when its item was picked, and collects exactly `PickedActions` |
| Scenario.GitHubTemplateResolves | src/extension.ts:30-62 | the template `https://github.com/${1}/blob/${branch}/${filename}#L${startline}-L${endline}` yields the blob URL of the lines, each value inserted as it is |
| Scenario.GitHubScenario | src/extension.ts:16-69 | with that rule first and clone URL `git@github.com:acme/widget.git`, the result is `https://github.com/acme/widget/blob/main/lib/a.ts#L3-L7`, whatever the other rules are |

## Left out

- The VS Code host:
  - the active editor;
  - error messages;
  - the quick-pick dialog and its asynchronous callback;
  - which items it offers;
  - the clipboard;
  - opening the browser;
  - command registration in `activate`.

  The model starts where those have produced plain values.
- `realpathSync` and the git extension lookup (`getRepository`, `repo.state`). The repository root, HEAD and the remotes are inputs.
- `actOnUrl` and the dispatch of actions to it, including the `defaultAction` fallback: these are only side effects.
- The semantics of the user's regular expression. The matcher is a parameter, so every property holds for any matcher.
- Resolver.ResolvePlaceholder: numeric names are decimal digit strings only. JavaScript's `+name` also accepts surrounding white space, a sign, hexadecimal, octal and binary literals, exponents and fractions (`m[1.5]` is `undefined`). Those names are treated as unsupported here.
- Resolver.ResolvePlaceholder: lower-casing is ASCII only. The one non-ASCII character JavaScript lower-cases to an ASCII letter (KELVIN SIGN, to `k`) cannot complete a keyword, because no keyword contains `k`. Keyword matching is therefore exact.
- Line numbers are unbounded naturals. JavaScript numbers lose precision above 2^53, far beyond any editor line.
