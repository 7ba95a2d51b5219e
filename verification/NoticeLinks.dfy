/** Resolution of documentation links among captured notices, without touching the host's files. */
module NoticeLinks {
  import opened Results
  import opened SnapshotPaths

  const BOUND := 8

  // ---------- paths ----------

  /** The parts that count: empty ones and `.` are dropped. */
  function Named(parts: seq<string>): (r: seq<string>)
    ensures forall part :: part in r <==> part in parts && part != "" && part != "."
  {
    if parts == [] then []
    else (if parts[0] == "" || parts[0] == "." then [] else [parts[0]]) + Named(parts[1..])
  }

  /** The root of a path: two leading slashes, and no third, are a root of their own. */
  function Root(path: string): seq<string> {
    if !("/" <= path) then [] else if "//" <= path && !("///" <= path) then ["//"] else ["/"]
  }

  function Parts(path: string): seq<string> { Root(path) + Named(Split(path)) }

  function Parent(parts: seq<string>): seq<string> {
    if parts == [] || (|parts| == 1 && parts[0] in {"/", "//"}) then parts else parts[..|parts| - 1]
  }

  /** The longest leading part of a path, of at most `i` parts, that is a link. */
  function LinkIn(links: map<string, string>, parts: seq<string>, i: nat): (r: Option<string>)
    requires i <= |parts|
    ensures r.Some? ==> r.value in links && exists k | 0 < k <= i :: Join(parts[..k]) == r.value
    ensures r.None? ==> forall k | 0 < k <= i :: Join(parts[..k]) !in links
  {
    if i == 0 then None else if Join(parts[..i]) in links then Some(Join(parts[..i])) else LinkIn(links, parts, i - 1)
  }

  /** Steps to a parent undo the part before them, and may not leave the tree. */
  function Normal(parts: seq<string>, done: seq<string>): (r: Option<seq<string>>)
    decreases parts
  {
    if parts == [] then Some(done)
    else if parts[0] == ".." then if done == [] then None else Normal(parts[1..], done[..|done| - 1])
    else if parts[0] == "." then Normal(parts[1..], done)
    else Normal(parts[1..], done + [parts[0]])
  }

  predicate Documented(path: string) { "usr/share/doc/" <= path || "usr/share/common-licenses/" <= path }

  /** Where the link at `candidate` points to. */
  function Aimed(candidate: string, target: string): seq<string> {
    if "/" <= target then Parts(target[1..]) else Parent(Parts(candidate)) + Parts(target)
  }

  /** One link followed, if it stays among the documentation. */
  function Next(links: map<string, string>, path: string): Option<string> {
    var parts := Parts(path);
    match LinkIn(links, parts, |parts|)
    case None => None
    case Some(candidate) =>
      match Normal(Aimed(candidate, links[candidate]), [])
      case None => None
      case Some(normal) =>
        var n := |Parts(candidate)|;
        var path' := Join(normal + if n <= |parts| then parts[n..] else []);
        if Documented(path') then Some(path') else None
  }

  // ---------- what following links means ----------

  /** The path reached by following `k` links. */
  function After(links: map<string, string>, path: string, k: nat): Option<string> {
    if k == 0 then Some(path)
    else match After(links, path, k - 1)
      case None => None
      case Some(q) => Next(links, q)
  }

  function Followed(notices: set<string>, links: map<string, string>, path: string, n: nat): Option<string>
    decreases n
  {
    if n == 0 then None
    else if path in notices then Some(path)
    else match Next(links, path)
      case None => None
      case Some(q) => Followed(notices, links, q, n - 1)
  }

  lemma {:induction false} AfterShift(links: map<string, string>, path: string, k: nat)
    ensures After(links, path, k + 1)
      == match Next(links, path)
         case None => None
         case Some(q) => After(links, q, k)
  {
    hide Next;
    if k > 0 {
      AfterShift(links, path, k - 1);
    }
  }

  /** After `k` links the path is `q`, a notice, and none came before. */
  ghost predicate FirstNotice(notices: set<string>, links: map<string, string>, path: string, k: nat, q: string) {
    && After(links, path, k) == Some(q) && q in notices
    && forall j: nat | j < k :: After(links, path, j).Some? && After(links, path, j).value !in notices
  }

  lemma FirstShift(notices: set<string>, links: map<string, string>, path: string, k: nat, q: string)
    ensures FirstNotice(notices, links, path, k + 1, q)
      <==> path !in notices && Next(links, path).Some? && FirstNotice(notices, links, Next(links, path).value, k, q)
  {
    hide Next;
    AfterShift(links, path, k);
    assert After(links, path, 0) == Some(path);
    if path !in notices && Next(links, path).Some? && FirstNotice(notices, links, Next(links, path).value, k, q) {
      forall j: nat | j < k + 1 ensures After(links, path, j).Some? && After(links, path, j).value !in notices {
        if j > 0 {
          AfterShift(links, path, j - 1);
        }
      }
    }
    if FirstNotice(notices, links, path, k + 1, q) {
      var p := Next(links, path).value;
      forall j: nat | j < k ensures After(links, p, j).Some? && After(links, p, j).value !in notices {
        AfterShift(links, path, j);
        assert After(links, path, j + 1).Some?;
      }
    }
  }

  lemma {:induction false} FirstIsFollowed(notices: set<string>, links: map<string, string>, path: string, n: nat,
                                           k: nat, q: string)
    requires k < n && FirstNotice(notices, links, path, k, q)
    ensures Followed(notices, links, path, n) == Some(q)
    decreases k
  {
    hide Next;
    if k > 0 {
      FirstShift(notices, links, path, k - 1, q);
      FirstIsFollowed(notices, links, Next(links, path).value, n - 1, k - 1, q);
    } else {
      assert After(links, path, 0) == Some(path);
    }
  }

  lemma {:induction false} FollowedIsFirst(notices: set<string>, links: map<string, string>, path: string, n: nat)
    returns (k: nat)
    requires Followed(notices, links, path, n).Some?
    ensures k < n && FirstNotice(notices, links, path, k, Followed(notices, links, path, n).value)
    decreases n
  {
    hide Next;
    if path in notices {
      k := 0;
    } else {
      k := FollowedIsFirst(notices, links, Next(links, path).value, n - 1);
      FirstShift(notices, links, path, k, Followed(notices, links, path, n).value);
      k := k + 1;
    }
  }

  /** The result is the first notice on the way, and it is found exactly when fewer than `n` links lead there. */
  lemma FollowedExactly(notices: set<string>, links: map<string, string>, path: string, n: nat, q: string)
    ensures Followed(notices, links, path, n) == Some(q) <==> exists k: nat | k < n :: FirstNotice(notices, links, path, k, q)
  {
    hide Followed, FirstNotice;
    if Followed(notices, links, path, n) == Some(q) {
      var k := FollowedIsFirst(notices, links, path, n);
    }
    if k: nat :| k < n && FirstNotice(notices, links, path, k, q) {
      FirstIsFollowed(notices, links, path, n, k, q);
    }
  }

  // ---------- the visited set ----------

  /** Following links inside a closed set without notices never ends at one. */
  lemma {:induction false} ClosedNeverEnds(notices: set<string>, links: map<string, string>, closed: set<string>,
                                           path: string, n: nat)
    requires path in closed && closed !! notices
    requires forall q | q in closed :: Next(links, q).Some? ==> Next(links, q).value in closed
    ensures Followed(notices, links, path, n) == None
    decreases n
  {
    hide Next;
    if n > 0 && Next(links, path).Some? {
      ClosedNeverEnds(notices, links, closed, Next(links, path).value, n - 1);
    }
  }

  method Normalize(parts: seq<string>) returns (r: Option<seq<string>>)
    ensures r == Normal(parts, [])
  {
    var normal: seq<string> := [];
    for i := 0 to |parts|
      invariant Normal(parts, []) == Normal(parts[i..], normal)
    {
      assert parts[i..][1..] == parts[i + 1..];
      if parts[i] == ".." {
        if normal == [] {
          return None;
        }
        normal := normal[..|normal| - 1];
      } else if parts[i] != "." {
        normal := normal + [parts[i]];
      }
    }
    r := Some(normal);
  }

  /** Leaving the loop at a path seen before changes no answer. */
  method ResolveNotice(start: string, notices: set<string>, links: map<string, string>) returns (r: Option<string>)
    ensures r == Followed(notices, links, start, 8)
  {
    hide Next, Parts, Normal, Aimed, LinkIn, Documented;
    var path, seen: set<string> := start, {};
    for i := 0 to BOUND
      invariant Followed(notices, links, start, BOUND) == Followed(notices, links, path, BOUND - i)
      invariant seen !! notices
      invariant forall q | q in seen :: Next(links, q).Some? && (Next(links, q).value in seen || Next(links, q).value == path)
    {
      if path in notices {
        return Some(path);
      }
      if path in seen {
        ClosedNeverEnds(notices, links, seen, path, BOUND - i);
        return None;
      }
      seen := seen + {path};
      var next := FollowLink(path, links);
      if next.None? {
        return None;
      }
      path := next.value;
    }
    r := None;
  }

  method FollowLink(path: string, links: map<string, string>) returns (r: Option<string>)
    ensures r == Next(links, path)
  {
    var parts := Parts(path);
    var candidate := LinkIn(links, parts, |parts|);
    if candidate.None? {
      return None;
    }
    var normal := Normalize(Aimed(candidate.value, links[candidate.value]));
    if normal.None? {
      return None;
    }
    var n := |Parts(candidate.value)|;
    var path' := Join(normal.value + if n <= |parts| then parts[n..] else []);
    r := if Documented(path') then Some(path') else None;
  }

  // ---------- no way out of the documentation ----------

  /** A root, or a name without a slash. */
  predicate Component(part: string) { part == "/" || part == "//" || '/' !in part }

  predicate Plain(parts: seq<string>) { forall part | part in parts :: part != ".." && Component(part) }

  lemma PartsPlain(path: string)
    requires ".." !in Split(path)
    ensures Plain(Parts(path))
  {
    SplitPartsPlain(path);
  }

  lemma {:induction false} NormalPlain(parts: seq<string>, done: seq<string>)
    requires (forall part | part in parts :: Component(part)) && Plain(done)
    ensures Normal(parts, done).Some? ==> Plain(Normal(parts, done).value)
  {
    hide Component;
    if parts != [] {
      var next := if parts[0] == ".." then if done == [] then done else done[..|done| - 1]
                  else if parts[0] == "." then done else done + [parts[0]];
      assert forall part | part in next :: part in done || (part == parts[0] && part != "..");
      assert parts[0] in parts;
      NormalPlain(parts[1..], next);
    }
  }

  /** Joining plain parts makes no step to a parent. */
  lemma {:induction false} JoinPlain(parts: seq<string>)
    requires Plain(parts)
    ensures ".." !in Split(Join(parts))
  {
    assert parts != [] ==> parts[0] in parts;
    if |parts| == 1 {
      PartSplit(parts[0]);
    } else if |parts| > 1 {
      JoinPlain(parts[1..]);
      PartSplit(parts[0]);
      SplitConcat(parts[0], Join(parts[1..]));
    }
  }

  lemma PartSplit(part: string)
    requires part != ".." && Component(part)
    ensures ".." !in Split(part)
  {
    if part == "/" {
      assert Split(part) == ["", ""];
    } else if part == "//" {
      assert Split(part[1..]) == ["", ""];
    } else {
      SplitName(part);
    }
  }

  /** From a path without steps to a parent, links lead only to such paths among the documentation. */
  lemma NextStaysInside(links: map<string, string>, path: string)
    requires ".." !in Split(path) && Next(links, path).Some?
    ensures ".." !in Split(Next(links, path).value) && Documented(Next(links, path).value)
  {
    hide Split, Join;
    var parts := Parts(path);
    var candidate := LinkIn(links, parts, |parts|).value;
    var aimed := Aimed(candidate, links[candidate]);
    PartsPlain(path);
    AimedPlain(candidate, links[candidate]);
    NormalPlain(aimed, []);
    var n := |Parts(candidate)|;
    JoinPlain(Normal(aimed, []).value + if n <= |parts| then parts[n..] else []);
  }

  lemma PartsComponents(path: string)
    ensures forall part | part in Parts(path) :: Component(part)
  {
    SplitPartsPlain(path);
    hide Split;
  }

  lemma AimedPlain(candidate: string, target: string)
    ensures forall part | part in Aimed(candidate, target) :: Component(part)
  {
    hide Parts, Component;
    PartsComponents(candidate);
    PartsComponents(target);
    if "/" <= target {
      PartsComponents(target[1..]);
    }
  }

  /** Whatever the links, a notice found from such a path is the path itself or lies among the documentation. */
  lemma {:induction false} FoundInside(notices: set<string>, links: map<string, string>, path: string, n: nat)
    requires ".." !in Split(path) && Followed(notices, links, path, n).Some?
    ensures var q := Followed(notices, links, path, n).value;
      q in notices && ".." !in Split(q) && (q == path || "usr/share/doc/" <= q || "usr/share/common-licenses/" <= q)
    decreases n
  {
    hide Next, Split;
    if path !in notices {
      NextStaysInside(links, path);
      FoundInside(notices, links, Next(links, path).value, n - 1);
    }
  }

  // ---------- where a link leads ----------

  /** Names that a path is made of: no separators, nothing that stands for here or above. */
  predicate Names(parts: seq<string>) {
    forall part | part in parts :: part != "" && part != "." && part != ".." && '/' !in part
  }

  lemma {:induction false} NamedAll(parts: seq<string>)
    requires forall part | part in parts :: part != "" && part != "."
    ensures Named(parts) == parts
  {
    if parts != [] {
      assert parts[0] in parts && forall part | part in parts[1..] :: part in parts;
      NamedAll(parts[1..]);
    }
  }

  /** A joined path reads back as its parts. */
  lemma PartsJoin(parts: seq<string>)
    requires parts != [] && forall part | part in parts :: part != "" && part != "." && '/' !in part
    ensures Parts(Join(parts)) == parts && !("/" <= Join(parts))
  {
    SplitJoin(parts);
    NamedAll(parts);
    assert parts[0] in parts && parts[0] != "";
    FrontOfJoin(parts);
    hide Split, Named;
  }

  lemma FrontOfJoin(parts: seq<string>)
    requires parts != [] && parts[0] != ""
    ensures Join(parts) != "" && Join(parts)[0] == parts[0][0]
  {
  }

  lemma {:induction false} NormalNames(done: seq<string>, names: seq<string>)
    requires Names(names)
    ensures Normal(names, done) == Some(done + names)
    decreases names
  {
    if names != [] {
      assert names[0] in names && forall part | part in names[1..] :: part in names;
      NormalNames(done + [names[0]], names[1..]);
      assert done + [names[0]] + names[1..] == done + names;
    } else {
      assert done + names == done;
    }
  }

  function Ups(n: nat): (r: seq<string>)
    ensures |r| == n && forall part | part in r :: part == ".."
  {
    seq(n, _ => "..")
  }

  lemma {:induction false} NormalAbove(done: seq<string>, ups: nat, names: seq<string>)
    requires Names(names)
    ensures Normal(Ups(ups) + names, done) == if ups <= |done| then Some(done[..|done| - ups] + names) else None
  {
    if ups == 0 {
      assert Ups(0) + names == names && done[..|done|] == done;
      NormalNames(done, names);
    } else {
      var parts := Ups(ups) + names;
      assert parts[0] == ".." && parts[1..] == Ups(ups - 1) + names;
      if done != [] {
        NormalAbove(done[..|done| - 1], ups - 1, names);
        assert ups <= |done| ==> done[..|done| - 1][..|done| - ups] == done[..|done| - ups];
      }
    }
  }

  lemma {:induction false} NormalThrough(done: seq<string>, front: seq<string>, rest: seq<string>)
    requires Names(front)
    ensures Normal(front + rest, done) == Normal(rest, done + front)
    decreases front
  {
    if front == [] {
      assert front + rest == rest && done + front == done;
    } else {
      assert front[0] in front && (front + rest)[1..] == front[1..] + rest;
      assert forall part | part in front[1..] :: part in front;
      NormalThrough(done + [front[0]], front[1..], rest);
      assert done + [front[0]] + front[1..] == done + front;
    }
  }

  /** The link is the longest part of the path that is one. */
  predicate LongestLink(links: map<string, string>, link: seq<string>, rest: seq<string>) {
    Join(link) in links && forall k | |link| < k <= |link + rest| :: Join((link + rest)[..k]) !in links
  }

  lemma {:induction false} LinkFound(links: map<string, string>, link: seq<string>, rest: seq<string>, i: nat)
    requires link != [] && LongestLink(links, link, rest) && |link| <= i <= |link + rest|
    ensures LinkIn(links, link + rest, i) == Some(Join(link))
  {
    if i == |link| {
      assert (link + rest)[..|link|] == link;
    } else {
      LinkFound(links, link, rest, i - 1);
    }
  }

  /** The link found, and where it points, decide the next path. */
  lemma NextBy(links: map<string, string>, link: seq<string>, rest: seq<string>, aimed: seq<string>)
    requires Names(link) && link != [] && Names(rest) && LongestLink(links, link, rest)
    requires Aimed(Join(link), links[Join(link)]) == aimed
    ensures Next(links, Join(link + rest)) == match Normal(aimed, [])
      case None => None
      case Some(normal) => if Documented(Join(normal + rest)) then Some(Join(normal + rest)) else None
  {
    hide Split, Named, Join, Documented, Root, Parts, Aimed, Normal, LongestLink;
    var parts := link + rest;
    PartsJoin(parts);
    PartsJoin(link);
    LinkFound(links, link, rest, |parts|);
    assert parts[|link|..] == rest;
  }

  lemma ParentOfLink(folder: seq<string>, name: string)
    requires Names(folder + [name])
    ensures Parent(folder + [name]) == folder && Names(folder)
  {
    var link := folder + [name];
    assert link[..|link| - 1] == folder && name in link && forall part | part in folder :: part in link;
  }

  lemma RelativeAim(folder: seq<string>, name: string, ups: nat, names: seq<string>)
    requires Names(folder + [name]) && Names(names) && ups + |names| > 0
    ensures Aimed(Join(folder + [name]), Join(Ups(ups) + names)) == folder + (Ups(ups) + names)
  {
    ParentOfLink(folder, name);
    PartsJoin(folder + [name]);
    PartsJoin(Ups(ups) + names);
    hide Split, Named, Join, Root, Parts, Names, Parent;
  }

  lemma RelativeNormal(folder: seq<string>, ups: nat, names: seq<string>)
    requires Names(folder) && Names(names)
    ensures Normal(folder + (Ups(ups) + names), [])
         == if ups <= |folder| then Some(folder[..|folder| - ups] + names) else None
  {
    hide Names, Normal;
    NormalThrough([], folder, Ups(ups) + names);
    assert [] + folder == folder;
    NormalAbove(folder, ups, names);
  }

  /**
   * A relative target is read from the folder that holds the link: so many folders up, then its names, then
   * what follows the link in the path. It leads nowhere when it leaves the tree or the documentation.
   */
  lemma RelativeLink(links: map<string, string>, folder: seq<string>, name: string, rest: seq<string>, ups: nat, names: seq<string>)
    requires Names(folder + [name]) && Names(rest) && Names(names) && ups + |names| > 0
    requires LongestLink(links, folder + [name], rest) && links[Join(folder + [name])] == Join(Ups(ups) + names)
    ensures var to := Join((if ups <= |folder| then folder[..|folder| - ups] else []) + names + rest);
      Next(links, Join(folder + [name] + rest)) == if ups <= |folder| && Documented(to) then Some(to) else None
  {
    hide Next, Aimed, Normal, Join, Names, LongestLink;
    RelativeAim(folder, name, ups, names);
    ParentOfLink(folder, name);
    RelativeNormal(folder, ups, names);
    NextBy(links, folder + [name], rest, folder + (Ups(ups) + names));
  }

  /** An absolute target is read from the root of the tree. */
  lemma AbsoluteLink(links: map<string, string>, link: seq<string>, rest: seq<string>, names: seq<string>)
    requires Names(link) && link != [] && Names(rest) && Names(names) && names != []
    requires LongestLink(links, link, rest) && links[Join(link)] == "/" + Join(names)
    ensures var to := Join(names + rest);
      Next(links, Join(link + rest)) == if Documented(to) then Some(to) else None
  {
    var target := "/" + Join(names);
    assert target[1..] == Join(names) && "/" <= target;
    hide Split, Named, Join, Documented, Root, Next, LongestLink;
    PartsJoin(names);
    NormalNames([], names);
    assert [] + names == names;
    NextBy(links, link, rest, names);
  }
}
