/** Looking up a path: `Ext2::find` of kernel/ext2.h. */
module PathWalk {
  import opened BlockIo
  import opened Directories

  type Name = seq<byte>

  datatype Node = Dir(entries: seq<Entry>) | Link | Other

  /** The i-nodes by their numbers, which are 1 to |nodes|. */
  type Nodes = seq<Node>

  /** Where a look-up ends: at a node; nowhere; at a symbolic link, with the part of the path behind it
      that is left in `my_path`; or in a failed assertion. */
  datatype Outcome = Found(number: int) | Missing | AtLink(number: int, rest: seq<byte>) | Panic

  const LONGEST := 256

  // ---- paths ----

  /** The rest of the path behind its first component. */
  function Component(path: seq<byte>): (c: seq<byte>)
    ensures |c| <= |path| && c == path[..|c|] && SLASH !in c
    ensures |c| < |path| ==> path[|c|] == SLASH
  {
    if path == [] || path[0] == SLASH then [] else [path[0]] + Component(path[1..])
  }

  /** The components of a path: what stands between its slashes, where anything does. */
  function Components(path: seq<byte>): seq<Name>
    decreases |path|
  {
    if path == [] then []
    else if path[0] == SLASH then Components(path[1..])
    else [Component(path)] + Components(path[|Component(path)|..])
  }

  /** Joining paths with a slash joins their components; so repeated, leading and trailing slashes do not
      matter. */
  lemma {:induction false} Joined(p: seq<byte>, q: seq<byte>)
    ensures Components(p + [SLASH] + q) == Components(p) + Components(q)
    decreases |p|
  {
    var pq := p + [SLASH] + q;
    if p == [] {
      assert pq[1..] == q;
    } else if p[0] == SLASH {
      assert pq[1..] == p[1..] + [SLASH] + q;
      Joined(p[1..], q);
    } else {
      FirstOfJoined(p, q);
      var n := |Component(p)|;
      assert pq[n..] == p[n..] + [SLASH] + q;
      Joined(p[n..], q);
      assert Components(pq) == [Component(p)] + (Components(p[n..]) + Components(q));
    }
  }

  lemma {:induction false} FirstOfJoined(p: seq<byte>, q: seq<byte>)
    ensures Component(p + [SLASH] + q) == Component(p)
    decreases |p|
  {
    if p != [] && p[0] != SLASH {
      assert (p + [SLASH] + q)[1..] == p[1..] + [SLASH] + q;
      FirstOfJoined(p[1..], q);
    }
  }

  predicate IsName(c: Name) {
    c != [] && SLASH !in c
  }

  /** Names with a slash in front of each. */
  function Written(names: seq<Name>): seq<byte> {
    if names == [] then [] else Written(names[..|names| - 1]) + [SLASH] + names[|names| - 1]
  }

  lemma {:induction false} OneComponent(c: Name)
    requires SLASH !in c
    ensures Component(c) == c
    ensures Components(c) == if c == [] then [] else [c]
    decreases |c|
  {
    if c != [] {
      assert c[0] in c;
      assert forall x | x in c[1..] :: x in c;
      OneComponent(c[1..]);
      assert c == [c[0]] + c[1..];
      assert c[|c|..] == [];
    }
  }

  /** The components of a path are the names with which it was written. */
  lemma {:induction false} ComponentsAreWritten(names: seq<Name>)
    requires forall i | 0 <= i < |names| :: IsName(names[i])
    ensures Components(Written(names)) == names
    decreases |names|
  {
    if names != [] {
      var n := |names| - 1;
      ComponentsAreWritten(names[..n]);
      Joined(Written(names[..n]), names[n]);
      OneComponent(names[n]);
    }
  }

  // ---- the walk ----

  predicate Exists(nodes: Nodes, number: int) {
    1 <= number <= |nodes|
  }

  /** The look-up, one directory for each component: a fold that ends early. */
  function Walk(nodes: Nodes, number: int, parts: seq<Name>): (Outcome, seq<Name>)
    requires Exists(nodes, number)
    decreases |parts|
  {
    if parts == [] then (Found(number), [])
    else if |parts[0]| > LONGEST || !nodes[number - 1].Dir? then (Panic, [])
    else
      var next := LastMatch(nodes[number - 1].entries, parts[0]);
      if next == 0 then (Missing, [])
      else if !Exists(nodes, next) then (Panic, [])
      else if nodes[next - 1].Link? then (AtLink(next, []), parts[1..])
      else Walk(nodes, next, parts[1..])
  }

  /** The walk along a path in two parts is the walk along the second from where the first ends. */
  lemma {:induction false} WalkJoined(nodes: Nodes, number: int, a: seq<Name>, b: seq<Name>)
    requires Exists(nodes, number)
    ensures match Walk(nodes, number, a).0
            case Found(n) => Exists(nodes, n) && Walk(nodes, number, a + b) == Walk(nodes, n, b)
            case AtLink(n, r) => Walk(nodes, number, a + b) == (AtLink(n, r), Walk(nodes, number, a).1 + b)
            case o => Walk(nodes, number, a + b).0 == o
    decreases |a|
  {
    if a == [] {
      assert a + b == b;
    } else if |a[0]| <= LONGEST && nodes[number - 1].Dir? {
      var next := LastMatch(nodes[number - 1].entries, a[0]);
      assert (a + b)[1..] == a[1..] + b;
      if Exists(nodes, next) && !nodes[next - 1].Link? {
        WalkJoined(nodes, next, a[1..], b);
      }
    }
  }

  // ---- what a walk is ----

  /** One directory further: the entry of that name in directory m is for node n, which is no link. */
  predicate Further(nodes: Nodes, m: int, c: Name, n: int) {
    && Exists(nodes, m) && nodes[m - 1].Dir? && |c| <= LONGEST
    && n == LastMatch(nodes[m - 1].entries, c) && Exists(nodes, n) && !nodes[n - 1].Link?
  }

  /** The nodes from `start` along the components. */
  ghost predicate Leads(nodes: Nodes, start: int, parts: seq<Name>, trail: seq<int>) {
    && |trail| == |parts| + 1 && trail[0] == start
    && forall i | 0 <= i < |parts| :: Further(nodes, trail[i], parts[i], trail[i + 1])
  }

  /** The trail goes as far as component k, and there it ends at directory n. */
  ghost predicate EndsAt(nodes: Nodes, start: int, parts: seq<Name>, trail: seq<int>, k: int, n: int) {
    && 0 <= k < |parts| && Leads(nodes, start, parts[..k], trail) && trail[k] == n
    && Exists(nodes, n) && nodes[n - 1].Dir? && |parts[k]| <= LONGEST
  }

  /** The walk along a path whose beginning has a trail goes on where the trail ends. */
  lemma {:induction false} Follows(nodes: Nodes, start: int, parts: seq<Name>, trail: seq<int>, k: int)
    requires Exists(nodes, start) && 0 <= k <= |parts| && Leads(nodes, start, parts[..k], trail)
    ensures Exists(nodes, trail[k]) && Walk(nodes, start, parts) == Walk(nodes, trail[k], parts[k..])
    decreases k
  {
    hide LastMatch;
    if k > 0 {
      assert Further(nodes, trail[0], parts[..k][0], trail[1]);
      var rest := parts[1..];
      forall i | 0 <= i < k - 1 ensures Further(nodes, trail[1..][i], rest[..k - 1][i], trail[1..][i + 1]) {
        assert Further(nodes, trail[i + 1], parts[..k][i + 1], trail[i + 2]);
      }
      Follows(nodes, trail[1], rest, trail[1..], k - 1);
      assert rest[k - 1..] == parts[k..];
    } else {
      assert parts[0..] == parts;
    }
  }

  /** How far the walk comes. */
  lemma {:induction false} Trail(nodes: Nodes, start: int, parts: seq<Name>) returns (trail: seq<int>, k: int)
    requires Exists(nodes, start)
    ensures 0 <= k <= |parts| && Leads(nodes, start, parts[..k], trail)
    ensures k < |parts| ==> forall n :: !Further(nodes, trail[k], parts[k], n)
    decreases |parts|
  {
    hide LastMatch;
    if parts == [] || !nodes[start - 1].Dir? {
      return [start], 0;
    }
    var next := LastMatch(nodes[start - 1].entries, parts[0]);
    if !Further(nodes, start, parts[0], next) {
      return [start], 0;
    }
    var rest;
    rest, k := Trail(nodes, next, parts[1..]);
    trail, k := [start] + rest, k + 1;
    forall i | 0 <= i < k ensures Further(nodes, trail[i], parts[..k][i], trail[i + 1]) {
      if i > 0 {
        assert Further(nodes, rest[i - 1], parts[1..][..k - 1][i - 1], rest[i]);
      }
    }
  }

  /** A node is found exactly if a trail leads to it. */
  lemma FoundExactly(nodes: Nodes, start: int, parts: seq<Name>, n: int)
    requires Exists(nodes, start)
    ensures Walk(nodes, start, parts).0 == Found(n) <==>
      exists trail :: Leads(nodes, start, parts, trail) && trail[|parts|] == n
  {
    hide LastMatch;
    assert parts[..|parts|] == parts;
    if trail :| Leads(nodes, start, parts, trail) && trail[|parts|] == n {
      Follows(nodes, start, parts, trail, |parts|);
    }
    if Walk(nodes, start, parts).0 == Found(n) {
      var trail, k := Trail(nodes, start, parts);
      Follows(nodes, start, parts, trail, k);
      if k < |parts| {
        Stops(nodes, trail[k], parts[k..]);
      }
    }
  }

  /** Where no component leads further the walk ends without a node. */
  lemma Stops(nodes: Nodes, m: int, parts: seq<Name>)
    requires Exists(nodes, m) && parts != [] && forall n :: !Further(nodes, m, parts[0], n)
    ensures var r := Walk(nodes, m, parts);
      if !nodes[m - 1].Dir? || |parts[0]| > LONGEST then r.0 == Panic
      else
        var n := LastMatch(nodes[m - 1].entries, parts[0]);
        if n == 0 then r.0 == Missing
        else if !Exists(nodes, n) then r.0 == Panic
        else nodes[n - 1].Link? && r == (AtLink(n, []), parts[1..])
  {
    hide LastMatch;
    if nodes[m - 1].Dir? {
      assert !Further(nodes, m, parts[0], LastMatch(nodes[m - 1].entries, parts[0]));
    }
  }

  /** Nothing is found exactly if some component has no entry in the directory that those before it lead to. */
  lemma MissingExactly(nodes: Nodes, start: int, parts: seq<Name>)
    requires Exists(nodes, start)
    ensures Walk(nodes, start, parts).0 == Missing <==>
      exists trail, k, n :: EndsAt(nodes, start, parts, trail, k, n) && LastMatch(nodes[n - 1].entries, parts[k]) == 0
  {
    hide LastMatch;
    if trail, k, n :| EndsAt(nodes, start, parts, trail, k, n) && LastMatch(nodes[n - 1].entries, parts[k]) == 0 {
      Follows(nodes, start, parts, trail, k);
    }
    if Walk(nodes, start, parts).0 == Missing {
      var trail, k := Trail(nodes, start, parts);
      Follows(nodes, start, parts, trail, k);
      assert k < |parts|;
      Stops(nodes, trail[k], parts[k..]);
      assert EndsAt(nodes, start, parts, trail, k, trail[k]);
    }
  }

  /** Component k names a link in directory n, and `rest` is what comes behind it. */
  predicate IsLink(nodes: Nodes, n: int, parts: seq<Name>, k: int, link: int, rest: seq<Name>)
    requires Exists(nodes, n) && nodes[n - 1].Dir? && 0 <= k < |parts|
  {
    && LastMatch(nodes[n - 1].entries, parts[k]) == link && Exists(nodes, link) && nodes[link - 1].Link?
    && rest == parts[k + 1..]
  }

  /** The walk stops at a link exactly if some component is the link's name in the directory that those before
      it lead to, and then the components behind it are left. */
  lemma LinkExactly(nodes: Nodes, start: int, parts: seq<Name>, link: int, rest: seq<Name>)
    requires Exists(nodes, start)
    ensures Walk(nodes, start, parts) == (AtLink(link, []), rest) <==>
      exists trail, k, n :: EndsAt(nodes, start, parts, trail, k, n) && IsLink(nodes, n, parts, k, link, rest)
  {
    hide LastMatch;
    if trail, k, n :| EndsAt(nodes, start, parts, trail, k, n) && IsLink(nodes, n, parts, k, link, rest) {
      Follows(nodes, start, parts, trail, k);
      assert parts[k..][1..] == parts[k + 1..];
    }
    if Walk(nodes, start, parts) == (AtLink(link, []), rest) {
      var trail, k := Trail(nodes, start, parts);
      Follows(nodes, start, parts, trail, k);
      assert k < |parts|;
      Stops(nodes, trail[k], parts[k..]);
      assert parts[k..][1..] == parts[k + 1..];
      assert EndsAt(nodes, start, parts, trail, k, trail[k]);
    }
  }

  // ---- the loop of the code ----

  /** The result r is that of the walk along the components of `path`; at a link it has the part of `path`
      that begins right behind the link's name, up to the end. */
  predicate Agrees(r: Outcome, w: (Outcome, seq<Name>), path: seq<byte>) {
    match r
    case AtLink(n, rest) =>
      && w.0.AtLink? && w.0.number == n && w.1 == Components(rest)
      && |rest| <= |path| && rest == path[|path| - |rest|..] && (rest != [] ==> rest[0] == SLASH)
    case _ => w.0 == r
  }

  method SkipSlashes(path: seq<byte>, from: int) returns (idx: int)
    requires 0 <= from <= |path|
    ensures from <= idx <= |path| && Components(path[idx..]) == Components(path[from..])
    ensures idx < |path| ==> path[idx] != SLASH
  {
    idx := from;
    while idx < |path| && path[idx] == SLASH
      invariant from <= idx <= |path| && Components(path[idx..]) == Components(path[from..])
    {
      assert path[idx..][1..] == path[idx + 1..];
      idx := idx + 1;
    }
  }

  lemma FirstPart(path: seq<byte>)
    requires path != [] && path[0] != SLASH
    ensures Components(path) == [Component(path)] + Components(path[|Component(path)|..]) && Component(path) != []
  {
  }

  lemma NextByte(path: seq<byte>, i: int)
    requires 0 <= i <= |path|
    ensures Component(path[i..]) ==
      if i == |path| || path[i] == SLASH then [] else [path[i]] + Component(path[i + 1..])
  {
    assert i < |path| ==> path[i..][1..] == path[i + 1..];
  }

  /** `part` and what follows up to the next slash are the first component. */
  ghost predicate SoFar(path: seq<byte>, from: int, i: int, part: seq<byte>) {
    && 0 <= from <= i <= |path| && |part| == i - from
    && Component(path[from..]) == part + Component(path[i..])
  }

  lemma PartGrows(path: seq<byte>, from: int, i: int, part: seq<byte>)
    requires SoFar(path, from, i, part) && i < |path| && path[i] != SLASH
    ensures SoFar(path, from, i + 1, part + [path[i]]) && |Component(path[from..])| > |part|
  {
    hide Component;
    NextByte(path, i);
    Regroup(part, path[i], Component(path[i + 1..]));
  }

  lemma Regroup(a: seq<byte>, x: byte, b: seq<byte>)
    ensures a + ([x] + b) == a + [x] + b
  {
  }

  lemma PartEnds(path: seq<byte>, from: int, i: int, part: seq<byte>)
    requires SoFar(path, from, i, part) && (i == |path| || path[i] == SLASH) && from < |path| && path[from] != SLASH
    ensures part == Component(path[from..]) && from < i
    ensures Components(path[from..]) == [part] + Components(path[i..])
  {
    hide Components, Component;
    NextByte(path, i);
    FirstPart(path[from..]);
    assert path[from..][|part|..] == path[i..];
  }

  method TakePart(path: seq<byte>, from: int) returns (panicked: bool, part: seq<byte>, idx: int)
    requires 0 <= from < |path| && path[from] != SLASH
    ensures Components(path[from..]) != [] && Components(path[from..])[0] == Component(path[from..])
    ensures panicked <==> |Component(path[from..])| > LONGEST
    ensures !panicked ==>
      && part == Component(path[from..]) && from < idx <= |path| && (idx < |path| ==> path[idx] == SLASH)
      && Components(path[from..]) == [part] + Components(path[idx..])
  {
    hide Components, Component, SoFar;
    FirstPart(path[from..]);
    idx, part := from, [];
    assert SoFar(path, from, from, []) by {
      PartBegins(path, from);
    }
    while idx < |path| && path[idx] != SLASH
      invariant from <= idx <= |path| && |part| == idx - from <= LONGEST && SoFar(path, from, idx, part)
    {
      PartGrows(path, from, idx, part);
      if |part| == LONGEST {
        return true, part, idx;
      }
      part := part + [path[idx]];
      idx := idx + 1;
    }
    PartEnds(path, from, idx, part);
    panicked := false;
  }

  lemma PartBegins(path: seq<byte>, from: int)
    requires 0 <= from <= |path|
    ensures SoFar(path, from, from, [])
  {
  }

  /** `find`; a `start` of 0 is the null reference. */
  method FindPath(nodes: Nodes, start: int, path: seq<byte>) returns (r: Outcome)
    requires start == 0 || Exists(nodes, start)
    ensures start == 0 ==> r == Missing
    ensures start != 0 ==> Agrees(r, Walk(nodes, start, Components(path)), path)
  {
    hide LastMatch, Components, Component;
    var idx := 0;
    var current := start;
    NoParts();
    assert path[0..] == path;
    while true
      invariant 0 <= idx <= |path| && (start == 0 ==> current == 0)
      invariant start != 0 ==> Exists(nodes, current)
      invariant start != 0 ==> Walk(nodes, start, Components(path)) == Walk(nodes, current, Components(path[idx..]))
      decreases |path| - idx
    {
      idx := SkipSlashes(path, idx);
      if current == 0 {
        return Missing;
      }
      if idx == |path| {
        return Found(current);
      }
      var panicked, part;
      panicked, part, idx := TakePart(path, idx);
      if panicked || !nodes[current - 1].Dir? {
        return Panic;
      }
      var number := LastMatch(nodes[current - 1].entries, part);
      if number == 0 {
        return Missing;
      }
      if !Exists(nodes, number) {
        return Panic;
      }
      current := number;
      if nodes[current - 1].Link? {
        return AtLink(current, path[idx..]);
      }
    }
  }

  lemma NoParts()
    ensures Components([]) == []
  {
  }

  /** Adding slashes to a path, or doubling them, finds the same. */
  lemma SlashesDoNotMatter(nodes: Nodes, start: int, p: seq<byte>, q: seq<byte>)
    requires Exists(nodes, start)
    ensures Walk(nodes, start, Components(p + [SLASH] + [SLASH] + q)) == Walk(nodes, start, Components(p + [SLASH] + q))
    ensures Walk(nodes, start, Components([SLASH] + p)) == Walk(nodes, start, Components(p))
    ensures Walk(nodes, start, Components(p + [SLASH])) == Walk(nodes, start, Components(p))
  {
    Joined(p, q);
    Joined(p, [SLASH] + q);
    assert p + [SLASH] + [SLASH] + q == p + [SLASH] + ([SLASH] + q);
    assert ([SLASH] + q)[1..] == q && ([SLASH] + p)[1..] == p;
    Joined(p, []);
    assert p + [SLASH] + [] == p + [SLASH];
    assert Components(p) + [] == Components(p);
  }

  /** Looking up p/q is looking up q from where p leads. */
  lemma PathsCompose(nodes: Nodes, start: int, p: seq<byte>, q: seq<byte>, n: int)
    requires Exists(nodes, start) && Walk(nodes, start, Components(p)).0 == Found(n)
    ensures Exists(nodes, n) && Walk(nodes, start, Components(p + [SLASH] + q)) == Walk(nodes, n, Components(q))
  {
    Joined(p, q);
    WalkJoined(nodes, start, Components(p), Components(q));
  }
}
