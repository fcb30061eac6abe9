/** The string handling around the model call and the repository fetch
    (backend/server.py): stripping a markdown fence from the model's reply,
    taking owner and repository from a GitHub URL, and choosing the code
    files of a repository tree. */
module RepoIntake {
  import opened Wrappers
  import opened Text

  const Fence: string := "```"

  // ---------------------------------------------------------------------
  // Fence stripping (lines 309-315)

  /** A fence "```" starts at index `i` of `s`. */
  predicate FenceAt(s: string, i: nat)
  {
    i + 3 <= |s| && s[i] == '`' && s[i + 1] == '`' && s[i + 2] == '`'
  }

  /** No fence starts anywhere in `s`. */
  ghost predicate FenceFree(s: string)
  {
    forall i: nat :: !FenceAt(s, i)
  }

  /** A fence inside a slice is a fence in the whole string. */
  lemma FenceAtSlice(s: string, a: nat, b: nat, i: nat)
    requires a <= b <= |s|
    ensures FenceAt(s[a..b], i) ==> FenceAt(s, a + i)
  {
  }

  lemma FenceFreeSlice(s: string, a: nat, b: nat)
    requires a <= b <= |s| && FenceFree(s)
    ensures FenceFree(s[a..b])
  {
    forall i: nat ensures !FenceAt(s[a..b], i) {
      FenceAtSlice(s, a, b, i);
    }
  }

  /** `s` up to the first fence, or all of `s`: `split('```')` keeps the
      text between two fences. */
  function BeforeFence(s: string): (r: string)
    ensures |r| <= |s| && r == s[..|r|]
    ensures forall i: nat :: i < |r| ==> !FenceAt(s, i)
    ensures |r| < |s| ==> FenceAt(s, |r|)
    decreases |s|
  {
    if s == [] || FenceAt(s, 0) then []
    else
      var rest := BeforeFence(s[1..]);
      assert forall i: nat :: 0 < i <= |rest| ==> (FenceAt(s, i) <==> FenceAt(s[1..], i - 1));
      [s[0]] + rest
  }

  /** The text before the first fence has no fence in it. */
  lemma BeforeFenceIsFree(s: string)
    ensures FenceFree(BeforeFence(s))
  {
    var r := BeforeFence(s);
    forall i: nat ensures !FenceAt(r, i) {
      FenceAtSlice(s, 0, |r|, i);
    }
  }

  /** The text starts with "json". */
  predicate JsonTag(s: string)
  {
    |s| >= 4 && s[0] == 'j' && s[1] == 's' && s[2] == 'o' && s[3] == 'n'
  }

  /** The reply handling, for a given notion of whitespace. */
  function StripFenceWith(reply: string, space: char -> bool): string
  {
    var t := Trim(reply, space);
    if FenceAt(t, 0) then
      var body := BeforeFence(t[3..]);
      Trim(if JsonTag(body) then body[4..] else body, space)
    else t
  }

  /** The reply text the server hands to the JSON parser (`strip()` is
      Python's). */
  function StripFence(reply: string): string
  {
    StripFenceWith(reply, IsPySpace)
  }

  /** What follows the opening fence, as the server extracts it, has no
      fence in it. */
  lemma FencedBodyFree(t: string, space: char -> bool)
    requires |t| >= 3
    ensures FenceFree(Trim(
              if JsonTag(BeforeFence(t[3..])) then BeforeFence(t[3..])[4..] else BeforeFence(t[3..]),
              space))
  {
    var body := BeforeFence(t[3..]);
    BeforeFenceIsFree(t[3..]);
    var d: string;
    if JsonTag(body) {
      d := body[4..];
      FenceFreeSlice(body, 4, |body|);
      assert d == body[4..|body|];
    } else {
      d := body;
    }
    var a, b := TrimIsSlice(d, space);
    FenceFreeSlice(d, a, b);
  }

  lemma FencedWith(reply: string, space: char -> bool)
    ensures !FenceAt(Trim(reply, space), 0) ==> StripFenceWith(reply, space) == Trim(reply, space)
    ensures FenceAt(Trim(reply, space), 0) ==> FenceFree(StripFenceWith(reply, space))
  {
    var t := Trim(reply, space);
    if FenceAt(t, 0) {
      FencedBodyFree(t, space);
    }
  }

  /** A reply that does not open with a fence is only stripped of
      surrounding whitespace; a fenced one loses every fence. */
  lemma StripFenceShape(reply: string)
    ensures !FenceAt(Trim(reply, IsPySpace), 0) ==> StripFence(reply) == Trim(reply, IsPySpace)
    ensures FenceAt(Trim(reply, IsPySpace), 0) ==> FenceFree(StripFence(reply))
  {
    FencedWith(reply, IsPySpace);
  }

  lemma StripFenceWithIdempotent(reply: string, space: char -> bool)
    ensures StripFenceWith(StripFenceWith(reply, space), space) == StripFenceWith(reply, space)
  {
    var r := StripFenceWith(reply, space);
    FencedWith(reply, space);
    TrimIdempotent(reply, space);
    if FenceAt(Trim(reply, space), 0) {
      var t := Trim(reply, space);
      var body := BeforeFence(t[3..]);
      TrimIdempotent(if JsonTag(body) then body[4..] else body, space);
      assert !FenceAt(r, 0);
    }
  }

  /** Stripping is idempotent. */
  lemma StripFenceIdempotent(reply: string)
    ensures StripFence(StripFence(reply)) == StripFence(reply)
  {
    StripFenceWithIdempotent(reply, IsPySpace);
  }

  lemma {:induction false} BeforeFenceOf(x: string, y: string)
    requires forall i :: 0 <= i < |x| ==> x[i] != '`'
    requires FenceAt(y, 0)
    ensures BeforeFence(x + y) == x
    decreases |x|
  {
    var s := x + y;
    if x == [] {
      assert s == y;
    } else {
      assert s[1..] == x[1..] + y;
      BeforeFenceOf(x[1..], y);
      assert [x[0]] + x[1..] == x;
    }
  }

  lemma JsonFenceRoundTripWith(body: string, space: char -> bool)
    requires forall i :: 0 <= i < |body| ==> body[i] != '`'
    requires !space('`')
    ensures StripFenceWith(Fence + "json" + body + Fence, space) == Trim(body, space)
  {
    var inner := "json" + body;
    var reply := Fence + inner + Fence;
    assert reply == Fence + "json" + body + Fence;
    TrimKeeps(reply, space);
    assert FenceAt(reply, 0);
    assert reply[3..] == inner + Fence;
    BeforeFenceOf(inner, Fence);
    assert JsonTag(inner) && inner[4..] == body;
  }

  /** The usual reply shape: a `json` fence around a body without
      backquotes gives back the body, stripped. */
  lemma JsonFenceRoundTrip(body: string)
    requires forall i :: 0 <= i < |body| ==> body[i] != '`'
    ensures StripFence(Fence + "json" + body + Fence) == Trim(body, IsPySpace)
  {
    JsonFenceRoundTripWith(body, IsPySpace);
  }

  // ---------------------------------------------------------------------
  // GitHub URL (lines 425-433)

  predicate IsSlash(c: char)
  {
    c == '/'
  }

  const Host: string := "github.com/"

  /** Length of the run of non-slash characters of `s` from index `i`. */
  function NonSlashRun(s: string, i: nat): (n: nat)
    requires i <= |s|
    ensures i + n <= |s|
    ensures forall k :: i <= k < i + n ==> s[k] != '/'
    ensures i + n == |s| || s[i + n] == '/'
    decreases |s| - i
  {
    if i == |s| || s[i] == '/' then 0 else 1 + NonSlashRun(s, i + 1)
  }

  datatype Repo = Repo(owner: string, name: string)

  /** `github\.com/([^/]+)/([^/]+)` matched at index `i`: the host, then a
      run of non-slash characters followed by a slash, then another run.
      The greedy runs cannot backtrack into a different match. */
  function MatchAt(s: string, i: nat): Option<Repo>
    requires i <= |s|
  {
    if !OccursAt(s, Host, i) then None
    else
      var j := i + |Host|;
      var o := NonSlashRun(s, j);
      if o == 0 || j + o == |s| then None
      else
        var k := j + o + 1;
        var r := NonSlashRun(s, k);
        if r == 0 then None else Some(Repo(s[j..j + o], s[k..k + r]))
  }

  /** `re.search`: the match at the leftmost index from `i` on. */
  function SearchFrom(s: string, i: nat): Option<Repo>
    requires i <= |s|
    decreases |s| - i
  {
    if MatchAt(s, i).Some? then MatchAt(s, i)
    else if i == |s| then None
    else SearchFrom(s, i + 1)
  }

  /** `s.replace(pat, '')` for a non-empty `pat`: occurrences are removed
      left to right without overlap. */
  function RemoveAll(s: string, pat: string): string
    requires pat != []
    decreases |s|
  {
    if s == [] then []
    else if StartsWith(s, pat) then RemoveAll(s[|pat|..], pat)
    else [s[0]] + RemoveAll(s[1..], pat)
  }

  /** The URL parse as written: owner and repository of the first match in
      the URL stripped of slashes, with every ".git" removed from the
      repository name; None is the "Invalid GitHub URL format" error. */
  function ParseGithubUrl(url: string): Option<Repo>
  {
    match SearchFrom(Trim(url, IsSlash), 0)
    case None => None
    case Some(m) => Some(Repo(m.owner, RemoveAll(m.name, ".git")))
  }

  /** No slash in `s`. */
  predicate Segment(s: string)
  {
    s != [] && forall i :: 0 <= i < |s| ==> s[i] != '/'
  }

  const Https: string := "https://"

  /** The canonical repository URL `https://github.com/<owner>/<name>`. */
  function Canonical(o: string, r: string): (s: string)
    ensures |s| == 20 + |o| + |r|
  {
    Https + Host + o + "/" + r
  }

  lemma {:induction false} RunIs(s: string, i: nat, n: nat)
    requires i + n <= |s|
    requires forall k :: i <= k < i + n ==> s[k] != '/'
    requires i + n == |s| || s[i + n] == '/'
    ensures NonSlashRun(s, i) == n
    decreases n
  {
    if n > 0 {
      RunIs(s, i + 1, n - 1);
    }
  }

  /** A URL naming repository `r` of owner `o`: a lead-in, the host, the
      two segments, and a tail that is empty or starts with a slash (a
      path inside the repository, or trailing slashes). */
  function RepoUrl(lead: string, o: string, r: string, tail: string): string
  {
    lead + Host + o + "/" + r + tail
  }

  /** A lead-in that holds no start of a match and is not trimmed: no 'g'
      and no leading slash, as in "https://", "http://www." or nothing. */
  predicate PlainLead(lead: string)
  {
    (lead == [] || lead[0] != '/') && forall k :: 0 <= k < |lead| ==> lead[k] != 'g'
  }

  /** A tail that ends the second `[^/]+` run. */
  predicate PathTail(tail: string)
  {
    tail == [] || tail[0] == '/'
  }

  /** Where the parts of such a URL sit. */
  lemma RepoUrlLayout(lead: string, o: string, r: string, tail: string)
    ensures var s := RepoUrl(lead, o, r, tail);
      var j := |lead| + 11;
      var k := j + |o| + 1;
      && |s| == k + |r| + |tail|
      && s[..|lead|] == lead
      && s[|lead|..j] == Host
      && s[j..j + |o|] == o
      && s[j + |o|] == '/'
      && s[k..k + |r|] == r
      && s[k + |r|..] == tail
  {
    var s := RepoUrl(lead, o, r, tail);
    assert s == lead + (Host + (o + ("/" + (r + tail))));
  }

  /** The pattern matches right after the lead-in, with the owner and the
      repository as its groups, whatever path follows. */
  lemma MatchRepoUrl(lead: string, o: string, r: string, tail: string)
    requires Segment(o) && Segment(r) && PathTail(tail)
    ensures MatchAt(RepoUrl(lead, o, r, tail), |lead|) == Some(Repo(o, r))
  {
    var s := RepoUrl(lead, o, r, tail);
    var k := |lead| + |Host| + |o| + 1;
    RepoUrlLayout(lead, o, r, tail);
    if tail != [] {
      assert s[k + |r|] == s[k + |r|..][0];
    }
    MatchAtIs(s, |lead|, o, r);
  }

  /** The host at `i`, then a segment, a slash and a segment ended by a
      slash or the end: the match at `i` has the two segments as groups. */
  lemma MatchAtIs(s: string, i: nat, o: string, r: string)
    requires Segment(o) && Segment(r)
    requires OccursAt(s, Host, i)
    requires var j := i + |Host|;
      && j + |o| < |s| && s[j..j + |o|] == o && s[j + |o|] == '/'
    requires var k := i + |Host| + |o| + 1;
      && k + |r| <= |s| && s[k..k + |r|] == r
      && (k + |r| == |s| || s[k + |r|] == '/')
    ensures MatchAt(s, i) == Some(Repo(o, r))
  {
    var j := i + |Host|;
    SegmentRun(s, j, o);
    SegmentRun(s, j + |o| + 1, r);
  }

  /** A segment sitting at `j` and ended by a slash or the end is the run
      `[^/]+` takes from `j`. */
  lemma SegmentRun(s: string, j: nat, seg: string)
    requires Segment(seg) && j + |seg| <= |s| && s[j..j + |seg|] == seg
    requires j + |seg| == |s| || s[j + |seg|] == '/'
    ensures NonSlashRun(s, j) == |seg|
  {
    forall x | j <= x < j + |seg| ensures s[x] != '/' {
      assert s[x] == s[j..j + |seg|][x - j];
    }
    RunIs(s, j, |seg|);
  }

  /** No match starts at a character other than 'g'; the search moves on. */
  lemma NoMatchWithoutG(s: string, i: nat)
    requires i < |s| && s[i] != 'g'
    ensures MatchAt(s, i).None?
    ensures SearchFrom(s, i) == SearchFrom(s, i + 1)
  {
  }

  /** The leftmost match is the one after the lead-in. */
  lemma SearchRepoUrl(lead: string, o: string, r: string, tail: string)
    requires Segment(o) && Segment(r) && PathTail(tail) && PlainLead(lead)
    ensures SearchFrom(RepoUrl(lead, o, r, tail), 0) == Some(Repo(o, r))
  {
    var s := RepoUrl(lead, o, r, tail);
    RepoUrlLayout(lead, o, r, tail);
    MatchRepoUrl(lead, o, r, tail);
    var i := |lead| - 1;
    while i >= 0
      invariant -1 <= i < |lead|
      invariant SearchFrom(s, i + 1) == Some(Repo(o, r))
      decreases i + 1
    {
      assert s[i] == s[..|lead|][i] == lead[i];
      NoMatchWithoutG(s, i);
      i := i - 1;
    }
  }

  /** `strip('/')` leaves the lead-in, the host and both segments alone; of
      the tail it leaves a shorter tail, still empty or starting with a
      slash. */
  lemma TrimRepoUrl(lead: string, o: string, r: string, tail: string) returns (rest: string)
    requires Segment(o) && Segment(r) && PathTail(tail) && PlainLead(lead)
    ensures PathTail(rest) && |rest| <= |tail|
    ensures Trim(RepoUrl(lead, o, r, tail), IsSlash) == RepoUrl(lead, o, r, rest)
  {
    var s := RepoUrl(lead, o, r, tail);
    var head := lead + Host + o + "/" + r;
    assert s == head + tail;
    var a, b := TrimIsSlice(s, IsSlash);
    if lead == [] {
      assert s[0] == Host[0];
    } else {
      assert s[0] == lead[0];
    }
    assert a == 0;
    var p := |head|;
    assert s[p - 1] == head[p - 1] == r[|r| - 1];
    assert b >= p;
    rest := s[p..b];
    assert s[..b] == head + rest;
    if rest != [] {
      assert rest[0] == s[p] == tail[0];
    }
  }

  /** As written, any URL of the form `<lead-in>github.com/<owner>/<repo>`
      followed by nothing or by a path gives the owner and the repository
      name with every ".git" removed: "github.com/o/r" without a scheme,
      ".../o/r/tree/main" and ".../o/r/" alike. */
  lemma ParseRepoUrlAsWritten(lead: string, o: string, r: string, tail: string)
    requires Segment(o) && Segment(r) && PathTail(tail) && PlainLead(lead)
    ensures ParseGithubUrl(RepoUrl(lead, o, r, tail)) == Some(Repo(o, RemoveAll(r, ".git")))
  {
    var rest := TrimRepoUrl(lead, o, r, tail);
    SearchRepoUrl(lead, o, r, rest);
  }

  /** The form without a scheme that the source comment names. */
  lemma ParseBareUrl(o: string, r: string)
    requires Segment(o) && Segment(r)
    ensures ParseGithubUrl(Host + o + "/" + r) == Some(Repo(o, RemoveAll(r, ".git")))
  {
    var e: string := [];
    assert e + Host == Host;
    var u := Host + o + "/" + r;
    assert u + e == u;
    assert RepoUrl(e, o, r, e) == u;
    ParseRepoUrlAsWritten(e, o, r, e);
  }

  lemma HttpsPlain()
    ensures PlainLead(Https)
  {
    forall k | 0 <= k < |Https| ensures Https[k] != 'g' {
    }
  }

  /** A URL into the tree of a branch names the same repository. */
  lemma ParseTreeUrl(o: string, r: string, branch: string)
    requires Segment(o) && Segment(r)
    ensures ParseGithubUrl(Canonical(o, r) + "/tree/" + branch) == Some(Repo(o, RemoveAll(r, ".git")))
  {
    var tail := "/tree/" + branch;
    assert tail[0] == '/';
    HttpsPlain();
    var c := Canonical(o, r);
    assert RepoUrl(Https, o, r, tail) == c + tail;
    assert c + tail == c + "/tree/" + branch;
    ParseRepoUrlAsWritten(Https, o, r, tail);
  }

  /** The canonical URL is a repository URL with the lead-in "https://"
      and nothing after the name. */
  lemma CanonicalIsRepoUrl(o: string, r: string)
    ensures Canonical(o, r) == RepoUrl(Https, o, r, [])
    ensures PlainLead(Https) && PathTail([])
  {
    HttpsPlain();
  }

  /** A canonical URL matches with the owner and the name as its two
      groups: the scheme holds no match, so the search reaches the host. */
  lemma SearchCanonical(o: string, r: string)
    requires Segment(o) && Segment(r)
    ensures SearchFrom(Canonical(o, r), 0) == Some(Repo(o, r))
  {
    CanonicalIsRepoUrl(o, r);
    SearchRepoUrl(Https, o, r, []);
  }

  lemma CanonicalUntrimmed(o: string, r: string)
    requires Segment(o) && Segment(r)
    ensures Trim(Canonical(o, r), IsSlash) == Canonical(o, r)
  {
    CanonicalIsRepoUrl(o, r);
    var rest := TrimRepoUrl(Https, o, r, []);
    assert rest == [];
  }

  /** As written, the canonical URL of a repository gives back its owner
      and its name with every ".git" removed. */
  lemma ParseCanonicalAsWritten(o: string, r: string)
    requires Segment(o) && Segment(r)
    ensures ParseGithubUrl(Canonical(o, r)) == Some(Repo(o, RemoveAll(r, ".git")))
  {
    CanonicalIsRepoUrl(o, r);
    ParseRepoUrlAsWritten(Https, o, r, []);
  }

  /** Text without a dot is copied through by the removal. */
  lemma {:induction false} RemoveAllNoDot(x: string, y: string)
    requires forall i :: 0 <= i < |x| ==> x[i] != '.'
    ensures RemoveAll(x + y, ".git") == x + RemoveAll(y, ".git")
    decreases |x|
  {
    if x != [] {
      assert (x + y)[0] == x[0];
      assert (x + y)[1..] == x[1..] + y;
      RemoveAllNoDot(x[1..], y);
      assert [x[0]] + x[1..] == x;
    } else {
      assert x + y == y;
    }
  }

  lemma RemoveAllDropsGit(y: string)
    ensures RemoveAll(".git" + y, ".git") == RemoveAll(y, ".git")
  {
    assert (".git" + y)[4..] == y;
  }

  lemma RemoveAllKeepsIo()
    ensures RemoveAll(".io", ".git") == ".io"
  {
    RemoveAllNoDot("io", []);
    assert "io" + [] == "io";
    assert ".io"[1..] == "io";
  }

  lemma PagesNameMangled()
    ensures RemoveAll("user.github.io", ".git") == "userhub.io"
  {
    var tail := ".git" + ("hub" + ".io");
    assert "user.github.io" == "user" + tail;
    RemoveAllNoDot("user", tail);
    RemoveAllDropsGit("hub" + ".io");
    RemoveAllNoDot("hub", ".io");
    RemoveAllKeepsIo();
  }

  /** A GitHub Pages repository shows the difference: "user.github.io"
      comes back as "userhub.io". */
  lemma PagesRepoMangled()
    ensures ParseGithubUrl(Canonical("user", "user.github.io")) == Some(Repo("user", "userhub.io"))
  {
    var name := "user.github.io";
    assert Segment(name) by {
      forall i | 0 <= i < |name| ensures name[i] != '/' {
      }
    }
    ParseCanonicalAsWritten("user", name);
    PagesNameMangled();
  }

  /** The ".git" suffix the comment in the source means to remove. */
  function StripGitSuffix(name: string): (r: string)
    ensures EndsWith(name, ".git") ==> name == r + ".git"
    ensures !EndsWith(name, ".git") ==> r == name
  {
    if EndsWith(name, ".git") then name[..|name| - 4] else name
  }

  /** The URL parse with only a trailing ".git" removed. */
  function ParseGithubUrlCorrected(url: string): Option<Repo>
  {
    match SearchFrom(Trim(url, IsSlash), 0)
    case None => None
    case Some(m) => Some(Repo(m.owner, StripGitSuffix(m.name)))
  }

  /** The corrected parse recovers owner and name from the canonical URL
      of a name without the suffix, whatever the name contains. */
  lemma ParseCanonicalCorrected(o: string, r: string)
    requires Segment(o) && Segment(r) && !EndsWith(r, ".git")
    ensures ParseGithubUrlCorrected(Canonical(o, r)) == Some(Repo(o, r))
  {
    CanonicalIsRepoUrl(o, r);
    ParseRepoUrlCorrected(Https, o, r, []);
  }

  /** ... and from the canonical URL with the ".git" suffix appended. */
  lemma ParseCanonicalCorrectedGit(o: string, r: string)
    requires Segment(o) && Segment(r)
    ensures ParseGithubUrlCorrected(Canonical(o, r + ".git")) == Some(Repo(o, r))
  {
    var g := r + ".git";
    assert Segment(g) by {
      forall i | 0 <= i < |g| ensures g[i] != '/' {
        if i >= |r| {
          assert g[i] == ".git"[i - |r|];
        }
      }
    }
    CanonicalIsRepoUrl(o, g);
    ParseRepoUrlCorrected(Https, o, g, []);
    assert EndsWith(g, ".git") && g[..|g| - 4] == r;
  }

  /** The corrected parse on any URL of the same form: the owner, and the
      repository name without a trailing ".git". */
  lemma ParseRepoUrlCorrected(lead: string, o: string, r: string, tail: string)
    requires Segment(o) && Segment(r) && PathTail(tail) && PlainLead(lead)
    ensures ParseGithubUrlCorrected(RepoUrl(lead, o, r, tail)) == Some(Repo(o, StripGitSuffix(r)))
  {
    var rest := TrimRepoUrl(lead, o, r, tail);
    SearchRepoUrl(lead, o, r, rest);
  }

  // ---------------------------------------------------------------------
  // Code-file selection (lines 459-463)

  datatype TreeItem = TreeItem(path: string, kind: string)

  const CodeExtensions: seq<string> :=
    [".py", ".js", ".jsx", ".ts", ".tsx", ".java", ".cpp", ".c", ".go", ".rb", ".php", ".cs", ".swift"]

  const MaxFiles: nat := 20

  /** A blob whose path ends with one of the extensions. */
  predicate IsCodeFile(item: TreeItem)
  {
    item.kind == "blob" && exists e | e in CodeExtensions :: EndsWith(item.path, e)
  }

  /** The qualifying items, in tree order. */
  function Qualifying(tree: seq<TreeItem>): seq<TreeItem>
    decreases |tree|
  {
    if tree == [] then []
    else
      var n := |tree| - 1;
      Qualifying(tree[..n]) + (if IsCodeFile(tree[n]) then [tree[n]] else [])
  }

  /** The selection: the first 20 qualifying items. */
  function CodeFiles(tree: seq<TreeItem>): (files: seq<TreeItem>)
    ensures |files| <= MaxFiles
  {
    var q := Qualifying(tree);
    if |q| <= MaxFiles then q else q[..MaxFiles]
  }

  /** The qualifying items are exactly the code files of the tree, in tree order. */
  lemma {:induction false} QualifyingExact(tree: seq<TreeItem>) returns (idx: seq<nat>)
    ensures forall x :: x in Qualifying(tree) <==> x in tree && IsCodeFile(x)
    ensures |idx| == |Qualifying(tree)|
    ensures forall k :: 0 <= k < |idx| ==> idx[k] < |tree| && Qualifying(tree)[k] == tree[idx[k]]
    ensures forall k, l :: 0 <= k < l < |idx| ==> idx[k] < idx[l]
    decreases |tree|
  {
    if tree == [] {
      idx := [];
    } else {
      var n := |tree| - 1;
      var prev := QualifyingExact(tree[..n]);
      assert tree == tree[..n] + [tree[n]];
      idx := prev + (if IsCodeFile(tree[n]) then [n] else []);
    }
  }

  /** The selection holds only code files, keeps tree order, is all of
      them when there are at most 20, and is empty exactly when the tree
      has no code file (the "No code files found" error). */
  lemma CodeFilesSelection(tree: seq<TreeItem>)
    ensures forall x :: x in CodeFiles(tree) ==> x in tree && IsCodeFile(x)
    ensures CodeFiles(tree) == Qualifying(tree)[..|CodeFiles(tree)|]
    ensures |Qualifying(tree)| <= MaxFiles ==> CodeFiles(tree) == Qualifying(tree)
    ensures |Qualifying(tree)| > MaxFiles ==> |CodeFiles(tree)| == MaxFiles
    ensures CodeFiles(tree) == [] <==> forall x :: x in tree ==> !IsCodeFile(x)
  {
    var idx := QualifyingExact(tree);
    var q := Qualifying(tree);
    if |q| > MaxFiles {
      forall x | x in q[..MaxFiles] ensures x in q {
      }
    }
    if q != [] {
      assert q[0] in q;
    }
  }
}
