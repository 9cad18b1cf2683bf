/** The pure computations of `openLink` around `findUrl`: the remote whose
    fetch URL is matched, the repository-relative path, the selected lines,
    and the context they make up. */
module OpenLink {
  import opened Wrappers
  import opened Text
  import opened Resolver
  import opened Rules

  /** The parts of the repository's HEAD that are used; each may be absent. */
  datatype Head = Head(name: Option<string>, commit: Option<string>, remote: Option<string>)

  datatype Remote = Remote(name: string, fetchUrl: Option<string>)

  /** A zero-based editor position and a selection between two of them. */
  datatype Position = Position(line: nat, character: nat)
  datatype Selection = Selection(start: Position, end: Position)

  /** Which optional parts the link should include. */
  datatype LinkRequest = LinkRequest(includeRegion: bool, includeBranch: bool, includeHash: bool)

  /** Why `openLink` shows an error instead of a link. */
  datatype LinkError =
    | NotInRepository(filename: string, repoRoot: string)
    | NoFetchUrl(remoteName: string)
    | NoUrl(reason: FindError)

  /** `s` with every backslash turned into a forward slash. */
  function ForwardSlashes(s: string): (r: string)
    ensures |r| == |s| && '\\' !in r
    ensures forall i :: 0 <= i < |s| ==> r[i] == (if s[i] == '\\' then '/' else s[i])
  {
    seq(|s|, i requires 0 <= i < |s| => if s[i] == '\\' then '/' else s[i])
  }

  /** The file's path below the repository root (`repoRoot` ends with the
      platform separator), with `/` as separator; absent when the file is not
      under the root. */
  function Stem(filename: string, repoRoot: string): (r: Option<string>)
    ensures r.Some? <==> repoRoot <= filename
    ensures r.Some? ==> |r.value| == |filename| - |repoRoot| && '\\' !in r.value
    ensures r.Some? ==> forall i :: 0 <= i < |r.value| ==>
                          r.value[i] == (if filename[|repoRoot| + i] == '\\' then '/' else filename[|repoRoot| + i])
  {
    if repoRoot <= filename then Some(ForwardSlashes(filename[|repoRoot|..])) else None
  }

  /** For a path that already uses `/`, the root followed by the stem is the path again. */
  lemma StemRestoresPath(filename: string, repoRoot: string)
    requires repoRoot <= filename && '\\' !in filename
    ensures repoRoot + Stem(filename, repoRoot).value == filename
  {
    var rest := filename[|repoRoot|..];
    assert forall i :: 0 <= i < |rest| ==> rest[i] == filename[|repoRoot| + i];
    assert ForwardSlashes(rest) == rest;
    assert filename == filename[..|repoRoot|] + rest;
  }

  /** The one-based first and last line of a selection. The last line is the
      end's line plus one, except for a selection whose start lies on a later
      line than its end and whose end is at column 0. */
  function LineRange(sel: Selection): (nat, nat)
  {
    (sel.start.line + 1,
     sel.end.line + (if sel.start.line > sel.end.line && sel.end.character == 0 then 0 else 1))
  }

  predicate Ordered(sel: Selection)
  {
    sel.start.line < sel.end.line
    || (sel.start.line == sel.end.line && sel.start.character <= sel.end.character)
  }

  /** For a selection whose start does not come after its end, the lines are the
      one-based start and end lines, in order, and both line placeholders resolve. */
  lemma OrderedSelectionLines(sel: Selection, ctx: Context, m: Captures)
    requires Ordered(sel)
    requires ctx.startLine == Some(LineRange(sel).0) && ctx.endLine == Some(LineRange(sel).1)
    ensures LineRange(sel) == (sel.start.line + 1, sel.end.line + 1)
    ensures LineRange(sel).0 <= LineRange(sel).1
    ensures ResolvePlaceholder("startline", ctx, m) == Some(NatToDecimal(sel.start.line + 1))
    ensures ResolvePlaceholder("endline", ctx, m) == Some(NatToDecimal(sel.end.line + 1))
  {
    assert LowerAscii("startline") == "startline";
    assert LowerAscii("endline") == "endline";
  }

  /** The column-0 exception can give end line 0, which is falsy, so `${endline}` fails. */
  lemma BackwardSelectionToFirstLine(sel: Selection, ctx: Context, m: Captures)
    requires sel.start.line > 0 && sel.end == Position(0, 0)
    requires ctx.endLine == Some(LineRange(sel).1)
    ensures LineRange(sel).1 == 0
    ensures ResolvePlaceholder("endline", ctx, m).None?
  {
    assert LowerAscii("endline") == "endline";
  }

  /** The remote to use: HEAD's upstream remote when it is set and not empty, otherwise "origin". */
  function RemoteName(head: Option<Head>): (r: string)
    ensures r != ""
    ensures head.Some? && head.value.remote.Some? && head.value.remote.value != "" ==> r == head.value.remote.value
    ensures !(head.Some? && head.value.remote.Some? && head.value.remote.value != "") ==> r == "origin"
  {
    if head.Some? && head.value.remote.Some? && head.value.remote.value != "" then head.value.remote.value
    else "origin"
  }

  /** The index of the first remote called `name`, as `Array.prototype.find` picks it. */
  function FindRemote(remotes: seq<Remote>, name: string): (r: Option<nat>)
    ensures r.Some? ==> r.value < |remotes| && remotes[r.value].name == name
                        && forall j :: 0 <= j < r.value ==> remotes[j].name != name
    ensures r.None? <==> forall j :: 0 <= j < |remotes| ==> remotes[j].name != name
  {
    if remotes == [] then None
    else if remotes[0].name == name then Some(0)
    else match FindRemote(remotes[1..], name)
      case None => None
      case Some(k) => Some(k + 1)
  }

  /** The clone URL to match: the fetch URL of the first remote with the chosen
      name; an error naming the remote when there is no such remote or its fetch
      URL is absent or empty. */
  function FetchUrl(head: Option<Head>, remotes: seq<Remote>): (r: Result<string, string>)
    ensures r.Failure? ==> r.error == RemoteName(head)
    ensures r.Success? ==> r.value != ""
    ensures r.Success? ==>
              exists i :: 0 <= i < |remotes| && remotes[i].name == RemoteName(head)
                          && remotes[i].fetchUrl == Some(r.value)
                          && forall j :: 0 <= j < i ==> remotes[j].name != RemoteName(head)
    ensures r.Failure? <==> match FindRemote(remotes, RemoteName(head))
                              case None => true
                              case Some(i) => remotes[i].fetchUrl.None? || remotes[i].fetchUrl.value == ""
  {
    var name := RemoteName(head);
    match FindRemote(remotes, name)
    case None => Failure(name)
    case Some(i) =>
      if remotes[i].fetchUrl.Some? && remotes[i].fetchUrl.value != "" then Success(remotes[i].fetchUrl.value)
      else Failure(name)
  }

  /** The values handed to `findUrl`: the branch and the commit only when
      requested, the lines only when the region is requested and there is a selection. */
  function LinkContext(stem: string, head: Option<Head>, request: LinkRequest, selection: Option<Selection>): (ctx: Context)
    ensures ctx.filename == stem
    ensures request.includeBranch && head.Some? ==> ctx.branch == head.value.name
    ensures !(request.includeBranch && head.Some?) ==> ctx.branch.None?
    ensures request.includeHash && head.Some? ==> ctx.hash == head.value.commit
    ensures !(request.includeHash && head.Some?) ==> ctx.hash.None?
    ensures ctx.startLine.Some? <==> ctx.endLine.Some?
    ensures ctx.startLine.Some? <==> request.includeRegion && selection.Some?
    ensures ctx.startLine.Some? ==> ctx.startLine.value >= 1
                                    && (ctx.startLine.value, ctx.endLine.value) == LineRange(selection.value)
  {
    var branch := if request.includeBranch && head.Some? then head.value.name else None;
    var hash := if request.includeHash && head.Some? then head.value.commit else None;
    var lines := if request.includeRegion && selection.Some? then Some(LineRange(selection.value)) else None;
    Context(stem, branch,
            if lines.Some? then Some(lines.value.0) else None,
            if lines.Some? then Some(lines.value.1) else None,
            hash)
  }

  /** The URL `openLink` acts on, or the error it shows, for a file of a
      repository once the editor and the repository have been found. */
  function LinkUrl(config: Config, filename: string, repoRoot: string, head: Option<Head>,
                   remotes: seq<Remote>, request: LinkRequest, selection: Option<Selection>,
                   matcher: Matcher): (r: Result<string, LinkError>)
    ensures !(repoRoot <= filename) ==> r == Failure(NotInRepository(filename, repoRoot))
    ensures repoRoot <= filename && FetchUrl(head, remotes).Failure? ==>
              r == Failure(NoFetchUrl(RemoteName(head)))
    ensures r.Success? ==> repoRoot <= filename && FetchUrl(head, remotes).Success?
    ensures repoRoot <= filename && FetchUrl(head, remotes).Success? ==>
              r == match SearchRules(BuildRules(config), FetchUrl(head, remotes).value,
                                     LinkContext(Stem(filename, repoRoot).value, head, request, selection),
                                     matcher)
                   case Success(url) => Success(url)
                   case Failure(e) => Failure(NoUrl(e))
  {
    match Stem(filename, repoRoot)
    case None => Failure(NotInRepository(filename, repoRoot))
    case Some(stem) =>
      match FetchUrl(head, remotes)
      case Failure(name) => Failure(NoFetchUrl(name))
      case Success(cloneUrl) =>
        match SearchRules(BuildRules(config), cloneUrl, LinkContext(stem, head, request, selection), matcher)
        case Success(url) => Success(url)
        case Failure(e) => Failure(NoUrl(e))
  }
}
