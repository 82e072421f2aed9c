/** Path validation: workspace-relative paths and in-container working directories. */
module WorkspacePath {
  import opened Strings

  /** A directory entry's own name: resolving it cannot leave the directory it is looked up in. */
  predicate Plain(name: string) {
    name != "" && name != "." && name != ".." && '/' !in name
  }

  ghost predicate AllPlain(parts: seq<string>) {
    forall i :: 0 <= i < |parts| ==> Plain(parts[i])
  }

  /** The components that pathlib keeps: it drops empty and `.` components while parsing. */
  function Kept(parts: seq<string>): (kept: seq<string>)
    ensures forall i :: 0 <= i < |kept| ==> kept[i] in parts && kept[i] != "" && kept[i] != "."
  {
    if parts == [] then []
    else if parts[0] == "" || parts[0] == "." then Kept(parts[1..])
    else [parts[0]] + Kept(parts[1..])
  }

  /** `_relative_parts`: None stands for FileAccessError. */
  function RelativeParts(path: string): (parts: Option<seq<string>>)
    ensures parts.Some? ==> parts.value != [] && AllPlain(parts.value)
  {
    var kept := Kept(Split(path, '/'));
    if path != "" && path[0] == '/' then None
    else if kept == [] || ".." in kept then None
    else Some(kept)
  }

  /** `normalize_workspace_path`. */
  function NormalizeWorkspacePath(path: string): Option<string> {
    match RelativeParts(path)
    case None => None
    case Some(parts) => Some(Join(parts, '/'))
  }

  lemma {:induction false} KeptPlain(parts: seq<string>)
    requires AllPlain(parts)
    ensures Kept(parts) == parts
  {
    if parts != [] {
      KeptPlain(parts[1..]);
    }
  }

  /** A piece of a path that pathlib drops while parsing. */
  predicate Dropped(piece: string) {
    piece == "" || piece == "."
  }

  /** Which paths are refused: the absolute ones, those with a `..` anywhere, and those that name nothing. */
  lemma RefusedExactly(path: string)
    ensures var pieces := Split(path, '/');
      RelativeParts(path) == None
      <==> "/" <= path || ".." in pieces || forall i :: 0 <= i < |pieces| ==> Dropped(pieces[i])
  {
    var pieces := Split(path, '/');
    KeptKeeps(pieces);
    if Kept(pieces) == [] {
      forall i | 0 <= i < |pieces| ensures Dropped(pieces[i]) {
        assert pieces[i] in pieces;
      }
    } else {
      assert Kept(pieces)[0] in Kept(pieces);
    }
  }

  lemma {:induction false} KeptKeeps(pieces: seq<string>)
    ensures forall piece :: piece in Kept(pieces) <==> piece in pieces && !Dropped(piece)
  {
    if pieces != [] {
      KeptKeeps(pieces[1..]);
      assert pieces == [pieces[0]] + pieces[1..];
    }
  }

  /** The positions, in increasing order, of all the pieces that are not dropped. */
  ghost predicate Positions(at: seq<nat>, pieces: seq<string>) {
    && (forall k :: 0 <= k < |at| ==> at[k] < |pieces|)
    && (forall k, l :: 0 <= k < l < |at| ==> at[k] < at[l])
    && (forall i: nat :: i in at <==> i < |pieces| && !Dropped(pieces[i]))
  }

  /** The pieces at these positions. */
  ghost predicate Picks(at: seq<nat>, pieces: seq<string>, picked: seq<string>) {
    |at| == |picked| && forall k :: 0 <= k < |at| ==> at[k] < |pieces| && picked[k] == pieces[at[k]]
  }

  /** An accepted path gives all its other pieces, in their order. */
  lemma AcceptedKeepsOrder(path: string) returns (at: seq<nat>)
    requires RelativeParts(path).Some?
    ensures var pieces, parts := Split(path, '/'), RelativeParts(path).value;
      Positions(at, pieces) && Picks(at, pieces, parts)
  {
    at := KeptPositions(Split(path, '/'));
  }

  function Shifted(at: seq<nat>): (r: seq<nat>)
    ensures |r| == |at| && forall k :: 0 <= k < |at| ==> r[k] == at[k] + 1
  {
    seq(|at|, k requires 0 <= k < |at| => at[k] + 1)
  }

  lemma InShifted(at: seq<nat>, i: nat)
    ensures i in Shifted(at) <==> i > 0 && i - 1 in at
  {
    hide Shifted;
    if i in Shifted(at) {
      var k :| 0 <= k < |at| && Shifted(at)[k] == i;
      assert at[k] == i - 1;
    }
    if i > 0 && i - 1 in at {
      var k :| 0 <= k < |at| && at[k] == i - 1;
      assert Shifted(at)[k] == i;
    }
  }

  lemma OneMorePosition(rest: seq<nat>, pieces: seq<string>)
    requires pieces != [] && Positions(rest, pieces[1..])
    ensures Positions((if Dropped(pieces[0]) then [] else [0]) + Shifted(rest), pieces)
  {
    hide Dropped, Shifted;
    var first: seq<nat> := if Dropped(pieces[0]) then [] else [0];
    forall i: nat ensures i in first + Shifted(rest) <==> i < |pieces| && !Dropped(pieces[i]) {
      InShifted(rest, i);
      if i > 0 {
        assert i - 1 in rest <==> i - 1 < |pieces[1..]| && !Dropped(pieces[1..][i - 1]);
      }
    }
  }

  lemma PicksMore(rest: seq<nat>, pieces: seq<string>, picked: seq<string>)
    requires pieces != [] && Picks(rest, pieces[1..], picked)
    ensures Picks(Shifted(rest), pieces, picked) && Picks([0] + Shifted(rest), pieces, [pieces[0]] + picked)
  {
    hide Shifted;
  }

  lemma {:induction false} KeptPositions(pieces: seq<string>) returns (at: seq<nat>)
    ensures Positions(at, pieces) && Picks(at, pieces, Kept(pieces))
  {
    if pieces == [] {
      at := [];
    } else {
      var rest := KeptPositions(pieces[1..]);
      OneMorePosition(rest, pieces);
      PicksMore(rest, pieces, Kept(pieces[1..]));
      at := (if Dropped(pieces[0]) then [] else [0]) + Shifted(rest);
      assert [] + Shifted(rest) == Shifted(rest);
      hide Positions, Shifted, Picks;
    }
  }

  /** Joining validated components gives a path that validates to the same components. */
  lemma JoinedPartsParse(parts: seq<string>)
    requires parts != [] && AllPlain(parts)
    ensures RelativeParts(Join(parts, '/')) == Some(parts)
  {
    SplitJoin(parts, '/');
    KeptPlain(parts);
    assert Join(parts, '/') <= parts[0] + ['/'] + Join(parts[1..], '/');
    assert Join(parts, '/')[0] == parts[0][0];
  }

  /** The accepted form is a fixed point: sandbox and backend, which both normalise, agree. */
  lemma NormalizedPathIsStable(path: string)
    ensures var once := NormalizeWorkspacePath(path);
      once.Some? ==> NormalizeWorkspacePath(once.value) == once && RelativeParts(once.value) == RelativeParts(path)
  {
    if RelativeParts(path).Some? {
      JoinedPartsParse(RelativeParts(path).value);
    }
  }

  // ---------------------------------------------------------------- working directories

  /** One turn of the normpath loop over path components. */
  function PushComponent(kept: seq<string>, comp: string, rooted: bool): seq<string> {
    if comp == "" || comp == "." then kept
    else if comp != ".." || (!rooted && kept == []) || (kept != [] && kept[|kept| - 1] == "..")
    then kept + [comp]
    else if kept != [] then kept[..|kept| - 1]
    else kept
  }

  function NormComponents(comps: seq<string>, kept: seq<string>, rooted: bool): seq<string> {
    if comps == [] then kept
    else NormComponents(comps[1..], PushComponent(kept, comps[0], rooted), rooted)
  }

  /** How many leading slashes POSIX keeps: exactly two are kept, three or more become one. */
  function LeadingSlashes(path: string): nat {
    if !("/" <= path) then 0
    else if "//" <= path && !("///" <= path) then 2
    else 1
  }

  function Lead(slashes: nat): string {
    if slashes == 2 then "//" else if slashes == 1 then "/" else ""
  }

  /** The components that normpath computes for a path, before joining them. */
  function PathComponents(path: string): seq<string> {
    NormComponents(Split(path, '/'), [], LeadingSlashes(path) > 0)
  }

  function OrDot(path: string): string {
    if path == "" then "." else path
  }

  /** Python's posixpath.normpath. */
  function Normpath(path: string): string {
    OrDot(Lead(LeadingSlashes(path)) + Join(PathComponents(path), '/'))
  }

  const WORKSPACE := "/" + "workspace"

  /** `_normalize_workdir`: None stands for ValueError. */
  function NormalizeWorkdir(workdir: string): Option<string> {
    var normalized := Normpath(workdir);
    if normalized != WORKSPACE && !((WORKSPACE + "/") <= normalized) then None
    else Some(normalized)
  }

  predicate IsSlash(c: char) {
    c == '/'
  }

  /** The part of a working directory that `_prepare_workspace` creates on the host. */
  function HostRelative(workdir: string): string {
    TrimLeft(if WORKSPACE <= workdir then workdir[|WORKSPACE|..] else workdir, IsSlash)
  }

  function Below(comps: seq<string>): string {
    if comps == [] then "" else "/" + Join(comps, '/')
  }

  /** `/workspace` followed by the given components. */
  function Beneath(comps: seq<string>): string {
    WORKSPACE + Below(comps)
  }

  /** What normpath leaves: `..` only at the front of a relative path. */
  ghost predicate Normal(comps: seq<string>, rooted: bool) {
    && (forall i :: 0 <= i < |comps| ==> comps[i] != "" && comps[i] != "." && '/' !in comps[i])
    && (rooted ==> forall i :: 0 <= i < |comps| ==> comps[i] != "..")
    && (forall i :: 0 < i < |comps| ==> comps[i] == ".." ==> comps[i - 1] == "..")
  }

  lemma {:induction false} NormComponentsNormal(comps: seq<string>, kept: seq<string>, rooted: bool)
    requires forall i :: 0 <= i < |comps| ==> '/' !in comps[i]
    requires Normal(kept, rooted)
    ensures Normal(NormComponents(comps, kept, rooted), rooted)
  {
    if comps != [] {
      NormComponentsNormal(comps[1..], PushComponent(kept, comps[0], rooted), rooted);
    }
  }

  lemma {:induction false} NormComponentsKeepsNormal(comps: seq<string>, kept: seq<string>, rooted: bool)
    requires Normal(kept + comps, rooted)
    ensures NormComponents(comps, kept, rooted) == kept + comps
  {
    if comps == [] {
      assert kept + comps == kept;
    } else {
      assert comps[0] == (kept + comps)[|kept|];
      if comps[0] == ".." && kept != [] {
        assert (kept + comps)[|kept| - 1] == kept[|kept| - 1];
      }
      assert PushComponent(kept, comps[0], rooted) == kept + [comps[0]];
      assert kept + [comps[0]] + comps[1..] == kept + comps;
      NormComponentsKeepsNormal(comps[1..], kept + [comps[0]], rooted);
    }
  }

  lemma {:induction false} EmptyComponentsVanish(empties: nat, comps: seq<string>, rooted: bool)
    ensures NormComponents(seq(empties, i => "") + comps, [], rooted) == NormComponents(comps, [], rooted)
  {
    var all := seq(empties, i => "") + comps;
    if empties == 0 {
      assert all == comps;
    } else {
      assert all[1..] == seq(empties - 1, i => "") + comps;
      EmptyComponentsVanish(empties - 1, comps, rooted);
    }
  }

  /** A join of non-empty slash-free components does not begin with a slash. */
  lemma JoinStart(comps: seq<string>)
    requires comps != [] && comps[0] != "" && '/' !in comps[0]
    ensures Join(comps, '/') != "" && Join(comps, '/')[0] == comps[0][0] != '/'
  {
    assert comps[0] <= Join(comps, '/');
  }

  lemma SlashesSplit(slashes: nat, body: string)
    requires slashes <= 2
    ensures Split(Lead(slashes) + body, '/') == seq(slashes, i => "") + Split(body, '/')
  {
    assert ("/" + body)[1..] == body;
    if slashes == 2 {
      assert ("//" + body)[1..] == "/" + body;
    } else if slashes == 0 {
      assert "" + body == body;
    }
  }

  lemma SlashesCounted(slashes: nat, body: string)
    requires slashes <= 2 && (body == "" || body[0] != '/')
    ensures LeadingSlashes(Lead(slashes) + body) == slashes
  {
    var path := Lead(slashes) + body;
    assert "/" <= path <==> |path| > 0 && path[0] == '/';
    assert "//" <= path <==> |path| > 1 && path[0] == '/' && path[1] == '/';
    assert "///" <= path <==> |path| > 2 && path[0] == '/' && path[1] == '/' && path[2] == '/';
  }

  /** Normalised components survive being spelled out as a path. */
  lemma ComponentsOfNormal(slashes: nat, comps: seq<string>)
    requires slashes <= 2 && Normal(comps, slashes > 0)
    ensures var path := Lead(slashes) + Join(comps, '/');
      LeadingSlashes(path) == slashes && PathComponents(path) == comps
  {
    var body := Join(comps, '/');
    if comps != [] {
      JoinStart(comps);
      SplitJoin(comps, '/');
      EmptyComponentsVanish(slashes, comps, slashes > 0);
      NormComponentsKeepsNormal(comps, [], slashes > 0);
      assert [] + comps == comps;
    } else {
      EmptyComponentsVanish(slashes + 1, [], slashes > 0);
      assert seq(slashes, i => "") + [""] == seq(slashes + 1, i => "") + [];
    }
    SlashesCounted(slashes, body);
    SlashesSplit(slashes, body);
  }

  lemma NormpathOfDot()
    ensures Normpath(".") == "."
  {
    SplitAt(".", "", '/');
    assert NormComponents(["."], [], false) == NormComponents([], [], false);
  }

  /** normpath is idempotent on every path, relative or absolute. */
  lemma NormpathIdempotent(path: string)
    ensures Normpath(Normpath(path)) == Normpath(path)
  {
    hide Join, PushComponent, NormComponents;
    var slashes := LeadingSlashes(path);
    NormComponentsNormal(Split(path, '/'), [], slashes > 0);
    ComponentsOfNormal(slashes, PathComponents(path));
    NormpathOfDot();
  }

  lemma BeneathSpelled(comps: seq<string>)
    ensures "/" + Join(["workspace"] + comps, '/') == Beneath(comps)
  {
    if comps != [] {
      JoinConcat(["workspace"], comps, '/');
    }
  }

  lemma {:induction false} NormConcat(first: seq<string>, second: seq<string>, kept: seq<string>, rooted: bool)
    ensures NormComponents(first + second, kept, rooted)
         == NormComponents(second, NormComponents(first, kept, rooted), rooted)
    decreases first
  {
    hide PushComponent;
    if first == [] {
      assert first + second == second;
    } else {
      assert (first + second)[1..] == first[1..] + second;
      NormConcat(first[1..], second, PushComponent(kept, first[0], rooted), rooted);
    }
  }

  /** Components that lead back to where they start can be left out. */
  lemma DetourVanishes(first: seq<string>, detour: seq<string>, second: seq<string>, rooted: bool)
    requires forall kept :: NormComponents(detour, kept, rooted) == kept
    ensures NormComponents(first + detour + second, [], rooted) == NormComponents(first + second, [], rooted)
  {
    NormConcat(first + detour, second, [], rooted);
    NormConcat(first, detour, [], rooted);
    NormConcat(first, second, [], rooted);
  }

  lemma ParentLeadsBack(name: string, kept: seq<string>, rooted: bool)
    requires Plain(name)
    ensures NormComponents([name, ".."], kept, rooted) == kept && NormComponents(["."], kept, rooted) == kept
  {
    var climb := [".."];
    assert [name, ".."][1..] == climb && climb[1..] == [] && ["."][1..] == [];
    assert NormComponents(["."], kept, rooted) == NormComponents([], kept, rooted);
    assert (kept + [name])[..|kept|] == kept;
    assert NormComponents(climb, kept + [name], rooted) == NormComponents([], kept, rooted);
  }

  /** A path with something in its middle, and the same path without it. */
  function Via(before: string, middle: string, after: string): string {
    before + "/" + (middle + "/" + after)
  }

  lemma MiddleVanishes(before: string, middle: string, after: string)
    requires forall kept, rooted :: NormComponents(Split(middle, '/'), kept, rooted) == kept
    requires LeadingSlashes(Via(before, middle, after)) == LeadingSlashes(before + "/" + after)
    ensures Normpath(Via(before, middle, after)) == Normpath(before + "/" + after)
  {
    hide NormComponents, Split, Join, LeadingSlashes;
    DetourVanishes(Split(before, '/'), Split(middle, '/'), Split(after, '/'), LeadingSlashes(before + "/" + after) > 0);
    SplitConcat(before, after, '/');
    SplitConcat(before, middle + "/" + after, '/');
    SplitConcat(middle, after, '/');
    var first, second := Split(before, '/'), Split(after, '/');
    assert first + (Split(middle, '/') + second) == first + Split(middle, '/') + second;
  }

  /** Going into a directory and back to its parent can be left out of any path, as can staying where one
    * is, as long as the path begins with the same number of slashes, of which POSIX keeps two. */
  lemma ClimbingCancels(before: string, name: string, after: string)
    requires Plain(name)
    ensures LeadingSlashes(Via(before, name + "/" + "..", after)) == LeadingSlashes(before + "/" + after) ==>
              Normpath(Via(before, name + "/" + "..", after)) == Normpath(before + "/" + after)
    ensures LeadingSlashes(Via(before, ".", after)) == LeadingSlashes(before + "/" + after) ==>
              Normpath(Via(before, ".", after)) == Normpath(before + "/" + after)
  {
    forall kept, rooted
      ensures NormComponents([name, ".."], kept, rooted) == kept && NormComponents(["."], kept, rooted) == kept
    {
      ParentLeadsBack(name, kept, rooted);
    }
    assert Split(name + "/" + "..", '/') == [name, ".."] && Split(".", '/') == ["."] by {
      SplitConcat(name, "..", '/');
      SplitAt(name, "", '/');
      SplitAt("..", "", '/');
      SplitAt(".", "", '/');
    }
    hide *;
    if LeadingSlashes(Via(before, name + "/" + "..", after)) == LeadingSlashes(before + "/" + after) {
      MiddleVanishes(before, name + "/" + "..", after);
    }
    if LeadingSlashes(Via(before, ".", after)) == LeadingSlashes(before + "/" + after) {
      MiddleVanishes(before, ".", after);
    }
  }

  /** Exactly the paths with one leading slash whose first normalised component is `workspace`
    * are accepted, and each in the form `/workspace` followed by plain components. */
  lemma WorkdirNormalForm(workdir: string)
    ensures var comps := PathComponents(workdir);
      if LeadingSlashes(workdir) == 1 && comps != [] && comps[0] == "workspace"
      then AllPlain(comps[1..]) && NormalizeWorkdir(workdir) == Some(Beneath(comps[1..]))
      else NormalizeWorkdir(workdir) == None
  {
    hide Split, NormComponents, PushComponent;
    var slashes := LeadingSlashes(workdir);
    var comps := PathComponents(workdir);
    NormComponentsNormal(Split(workdir, '/'), [], slashes > 0);
    if comps != [] {
      JoinStart(comps);
    }
    if slashes != 1 {
      var path := Normpath(workdir);
      assert path[0] != '/' || (slashes == 2 && path[1] == '/');
    } else if comps != [] {
      var body := Join(comps, '/');
      SamePrefixDropped("/", "workspace", body);
      SamePrefixDropped("/", "workspace" + "/", body);
      assert WORKSPACE + "/" == "/" + ("workspace" + "/");
      if comps[0] == "workspace" {
        assert comps == ["workspace"] + comps[1..];
        BeneathSpelled(comps[1..]);
      } else {
        if NormalizeWorkdir(workdir).Some? {
          FirstComponent("workspace", comps);
        }
      }
    }
  }

  /** A working directory that climbs out of the workspace is judged by where it then goes. */
  lemma ClimbingOutIsSeen(after: string)
    requires after == "" || after[0] != '/'
    ensures NormalizeWorkdir(Via("", "workspace/..", after)) == NormalizeWorkdir("/" + after)
  {
    ClimbingCancels("", "workspace", after);
    var climbing := Via("", "workspace/..", after);
    assert "workspace" + "/" + ".." == "workspace/.." && "" + "/" + after == "/" + after;
    assert climbing[0] == '/' && climbing[1] == 'w';
    hide Normpath;
  }

  lemma {:induction false} FirstComponent(name: string, comps: seq<string>)
    requires comps != [] && '/' !in name
    requires forall i :: 0 <= i < |comps| ==> '/' !in comps[i]
    requires Join(comps, '/') == name || name + ['/'] <= Join(comps, '/')
    ensures comps[0] == name
  {
    SplitJoin(comps, '/');
    SplitHead(name, Join(comps, '/'));
  }

  lemma SplitHead(name: string, body: string)
    requires '/' !in name
    requires body == name || name + ['/'] <= body
    ensures Split(body, '/')[0] == name
  {
    if body == name {
      SplitAt(name, "", '/');
    } else {
      var rest := body[|name| + 1..];
      assert body == name + ['/'] + rest;
      SplitAt(name, rest, '/');
    }
  }

  lemma SamePrefixDropped(prefix: string, left: string, right: string)
    ensures prefix + left <= prefix + right <==> left <= right
    ensures prefix + left == prefix + right <==> left == right
  {
    assert (prefix + right)[|prefix|..] == right && (prefix + left)[|prefix|..] == left;
    if prefix + left <= prefix + right {
      assert (prefix + right)[..|prefix + left|] == prefix + left;
      assert right[..|left|] == (prefix + right)[..|prefix + left|][|prefix|..];
    }
  }

  lemma StripPrefix(prefix: string, rest: string)
    ensures prefix <= prefix + rest && (prefix + rest)[|prefix|..] == rest
  {}

  lemma HostRelativeStrips(tail: string)
    ensures HostRelative(WORKSPACE + tail) == TrimLeft(tail, IsSlash)
  {
    StripPrefix(WORKSPACE, tail);
  }

  lemma TrimOneSlash(body: string)
    requires body == "" || body[0] != '/'
    ensures TrimLeft("/" + body, IsSlash) == body
  {
    assert ("/" + body)[1..] == body;
  }

  lemma HostRelativeOf(comps: seq<string>)
    requires AllPlain(comps)
    ensures HostRelative(Beneath(comps)) == Join(comps, '/')
  {
    HostRelativeStrips(Below(comps));
    if comps != [] {
      JoinStart(comps);
      TrimOneSlash(Join(comps, '/'));
    }
  }

  /** An accepted working directory is a fixed point, and stripping `/workspace` from it loses
    * nothing: the host directory made for it is the workspace or a plain path below it. */
  lemma AcceptedWorkdirIsStable(comps: seq<string>)
    requires AllPlain(comps)
    ensures NormalizeWorkdir(Beneath(comps)) == Some(Beneath(comps))
    ensures HostRelative(Beneath(comps)) == Join(comps, '/')
    ensures comps != [] ==> RelativeParts(HostRelative(Beneath(comps))) == Some(comps)
  {
    ComponentsOfNormal(1, ["workspace"] + comps);
    WorkdirNormalForm(Beneath(comps));
    assert (["workspace"] + comps)[1..] == comps;
    BeneathSpelled(comps);
    HostRelativeOf(comps);
    if comps != [] {
      JoinedPartsParse(comps);
    }
  }
}
