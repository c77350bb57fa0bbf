/** Slash-separated paths as pkg/bass/path.go writes them.

    path.Clean gives the shortest equivalent path and clarifyPath marks a path as relative.  A
    path settles when it survives both, which is when its components are canonical; and a
    cleaned path leads to the same place as the path it was made from. */
module CleanPaths {

  function Components(p: string): (parts: seq<string>)
    ensures parts != []
  {
    if p == "" then [""]
    else
      var rest := Components(p[1..]);
      if p[0] == '/' then [""] + rest else [[p[0]] + rest[0]] + rest[1..]
  }

  function Joined(parts: seq<string>): string {
    if parts == [] then ""
    else if |parts| == 1 then parts[0]
    else parts[0] + "/" + Joined(parts[1..])
  }

  /** What the components come to after those already resolved. */
  function Resolve(rooted: bool, parts: seq<string>, resolved: seq<string>): seq<string>
    decreases |parts|
  {
    if parts == [] then resolved
    else
      var c, n := parts[0], |resolved|;
      Resolve(rooted, parts[1..],
              if c == "" || c == "." then resolved
              else if c != ".." then resolved + [c]
              else if n > 0 && resolved[n - 1] != ".." then resolved[..n - 1]
              else if rooted then resolved
              else resolved + [c])
  }

  function Clean(p: string): string {
    if p == "" then "."
    else
      var rooted := p[0] == '/';
      var resolved := Resolve(rooted, Components(p), []);
      if rooted then "/" + Joined(resolved) else if resolved == [] then "." else Joined(resolved)
  }

  function Clarify(p: string): string {
    if "/" <= p || "./" <= p || "../" <= p then p else "./" + p
  }

  /** The clarified path comes back from cleaning and clarifying again. */
  predicate Settled(d: string) {
    Clarify(Clean(d)) == d
  }

  lemma {:induction false} FirstComponent(c: string, p: string)
    requires '/' !in c
    ensures Components(c + "/" + p) == [c] + Components(p)
    decreases c
  {
    var s := c + "/" + p;
    if c == "" {
      assert s == "/" + p && s[1..] == p;
    } else {
      assert s[1..] == c[1..] + "/" + p;
      FirstComponent(c[1..], p);
      assert [c[0]] + c[1..] == c;
    }
  }

  lemma {:induction false} OnlyComponent(c: string)
    requires '/' !in c
    ensures Components(c) == [c]
    decreases c
  {
    if c != "" {
      OnlyComponent(c[1..]);
      assert [c[0]] + c[1..] == c;
    }
  }

  lemma {:induction false} ComponentsOfJoined(parts: seq<string>)
    requires parts != [] && forall c :: c in parts ==> '/' !in c
    ensures Components(Joined(parts)) == parts
    decreases |parts|
  {
    if |parts| == 1 {
      OnlyComponent(parts[0]);
    } else {
      FirstComponent(parts[0], Joined(parts[1..]));
      ComponentsOfJoined(parts[1..]);
    }
  }

  lemma {:induction false} NoSlashInComponents(p: string)
    ensures forall c :: c in Components(p) ==> '/' !in c
    decreases p
  {
    if p != "" {
      NoSlashInComponents(p[1..]);
    }
  }

  /** Components that path.Clean leaves alone: ".." only leads, and not under the root. */
  predicate Normal(rooted: bool, parts: seq<string>) {
    && (forall c :: c in parts ==> c != "" && c != "." && '/' !in c)
    && forall i :: 0 <= i < |parts| && parts[i] == ".." ==> !rooted && forall j :: 0 <= j < i ==> parts[j] == ".."
  }

  lemma {:induction false} ResolvedIsNormal(rooted: bool, parts: seq<string>, resolved: seq<string>)
    requires Normal(rooted, resolved) && forall c :: c in parts ==> '/' !in c
    ensures Normal(rooted, Resolve(rooted, parts, resolved))
    decreases |parts|
  {
    if parts != [] {
      var c, n := parts[0], |resolved|;
      var next := if c == "" || c == "." then resolved
                  else if c != ".." then resolved + [c]
                  else if n > 0 && resolved[n - 1] != ".." then resolved[..n - 1]
                  else if rooted then resolved
                  else resolved + [c];
      assert c in parts && forall d :: d in next ==> d in resolved || d == c;
      ResolvedIsNormal(rooted, parts[1..], next);
    }
  }

  lemma {:induction false} NormalStays(rooted: bool, parts: seq<string>, resolved: seq<string>)
    requires Normal(rooted, resolved + parts)
    ensures Resolve(rooted, parts, resolved) == resolved + parts
    decreases |parts|
  {
    if parts != [] {
      var all, n := resolved + parts, |resolved|;
      assert all[n] == parts[0] && parts[0] in all;
      assert n > 0 && parts[0] == ".." ==> all[n - 1] == "..";
      assert (resolved + [parts[0]]) + parts[1..] == all;
      NormalStays(rooted, parts[1..], resolved + [parts[0]]);
    } else {
      assert resolved + [] == resolved;
    }
  }

  /** Cleaning a clean path changes nothing. */
  lemma {:induction false} CleanTwice(p: string)
    ensures Clean(Clean(p)) == Clean(p)
  {
    if p == "" {
      OnlyComponent(".");
    } else {
      var rooted := p[0] == '/';
      var resolved := Resolve(rooted, Components(p), []);
      NoSlashInComponents(p);
      ResolvedIsNormal(rooted, Components(p), []);
      CleanNormal(rooted, resolved);
    }
  }

  lemma {:induction false} CleanNormal(rooted: bool, parts: seq<string>)
    requires Normal(rooted, parts)
    ensures var p := if rooted then "/" + Joined(parts) else if parts == [] then "." else Joined(parts);
            Clean(p) == p
  {
    assert [] + parts == parts;
    NormalStays(rooted, parts, []);
    if rooted {
      var p := "/" + Joined(parts);
      assert p == "" + "/" + Joined(parts);
      FirstComponent("", Joined(parts));
      if parts == [] {
        assert Components(p) == ["", ""];
        assert Resolve(true, ["", ""], []) == Resolve(true, [""], []) == Resolve(true, [], []);
      } else {
        ComponentsOfJoined(parts);
        assert ([""] + parts)[1..] == parts;
      }
    } else if parts == [] {
      OnlyComponent(".");
    } else {
      ComponentsOfJoined(parts);
      assert parts[0] in parts && Joined(parts)[0] == parts[0][0];
    }
  }

  lemma {:induction false} CleanClarified(p: string)
    ensures Clean(Clarify(p)) == Clean(p)
  {
    var d := Clarify(p);
    if d != p {
      assert d == "." + "/" + p;
      FirstComponent(".", p);
      assert (["."] + Components(p))[1..] == Components(p);
      if p == "" {
        assert Resolve(false, Components(d), []) == Resolve(false, [""], []) == Resolve(false, [], []);
      } else {
        assert p[0] == '/' ==> "/" <= p;
      }
    }
  }

  /** Every path that came out of path.Clean settles. */
  lemma {:induction false} CleanPathsSettle(p: string)
    ensures Settled(Clarify(Clean(p)))
  {
    CleanClarified(Clean(p));
    CleanTwice(p);
  }

  // ---- A clean path leads to the same place

  /** Where one gets to from a directory, given by its names from the root. */
  function Follow(dir: seq<string>, parts: seq<string>): seq<string>
    decreases |parts|
  {
    if parts == [] then dir
    else
      Follow(if parts[0] == "" || parts[0] == "." then dir
             else if parts[0] == ".." then (if dir == [] then [] else dir[..|dir| - 1])
             else dir + [parts[0]],
             parts[1..])
  }

  /** The place a path names for someone in a directory. */
  function Place(dir: seq<string>, p: string): seq<string> {
    Follow(if "/" <= p then [] else dir, Components(p))
  }

  lemma {:induction false} FollowConcat(dir: seq<string>, xs: seq<string>, ys: seq<string>)
    ensures Follow(dir, xs + ys) == Follow(Follow(dir, xs), ys)
    decreases |xs|
  {
    if xs == [] {
      assert xs + ys == ys;
    } else {
      assert (xs + ys)[1..] == xs[1..] + ys;
      var next := if xs[0] == "" || xs[0] == "." then dir
                  else if xs[0] == ".." then (if dir == [] then [] else dir[..|dir| - 1])
                  else dir + [xs[0]];
      FollowConcat(next, xs[1..], ys);
    }
  }

  lemma {:induction false} FollowOne(dir: seq<string>, c: string)
    ensures Follow(dir, [c])
            == if c == "" || c == "." then dir
               else if c == ".." then (if dir == [] then [] else dir[..|dir| - 1])
               else dir + [c]
  {
    assert [c][1..] == [];
  }

  lemma {:induction false} ResolveLeadsThere(rooted: bool, parts: seq<string>, resolved: seq<string>, dir: seq<string>)
    requires Normal(rooted, resolved) && (rooted ==> dir == []) && forall c :: c in parts ==> '/' !in c
    ensures Follow(dir, Resolve(rooted, parts, resolved)) == Follow(Follow(dir, resolved), parts)
    decreases |parts|
  {
    if parts != [] {
      var c, n := parts[0], |resolved|;
      var next := if c == "" || c == "." then resolved
                  else if c != ".." then resolved + [c]
                  else if n > 0 && resolved[n - 1] != ".." then resolved[..n - 1]
                  else if rooted then resolved
                  else resolved + [c];
      assert c in parts && forall d :: d in next ==> d in resolved || d == c;
      assert parts == [c] + parts[1..];
      FollowConcat(Follow(dir, resolved), [c], parts[1..]);
      FollowOne(Follow(dir, resolved), c);
      OneStep(rooted, c, resolved, next, dir);
      ResolveLeadsThere(rooted, parts[1..], next, dir);
    }
  }

  lemma {:induction false} OneStep(rooted: bool, c: string, resolved: seq<string>, next: seq<string>, dir: seq<string>)
    requires Normal(rooted, resolved) && (rooted ==> dir == []) && '/' !in c
    requires var n := |resolved|;
             next == if c == "" || c == "." then resolved
                     else if c != ".." then resolved + [c]
                     else if n > 0 && resolved[n - 1] != ".." then resolved[..n - 1]
                     else if rooted then resolved
                     else resolved + [c]
    ensures Follow(dir, next) == Follow(Follow(dir, resolved), [c])
  {
    var n := |resolved|;
    FollowConcat(dir, resolved, [c]);
    FollowOne(Follow(dir, resolved), c);
    if c == ".." && n > 0 && resolved[n - 1] != ".." {
      assert resolved == resolved[..n - 1] + [resolved[n - 1]] && resolved[n - 1] in resolved;
      FollowConcat(dir, resolved[..n - 1], [resolved[n - 1]]);
      FollowOne(Follow(dir, resolved[..n - 1]), resolved[n - 1]);
    } else if c == ".." && rooted {
      assert resolved == [];
    }
  }

  /** Cleaning a path does not change where it leads, from whichever directory. */
  lemma {:induction false} CleanLeadsThere(p: string, dir: seq<string>)
    ensures Place(dir, Clean(p)) == Place(dir, p)
  {
    if p == "" {
      OnlyComponent(".");
      FollowOne(dir, ".");
      FollowOne(dir, "");
    } else {
      var rooted, from := p[0] == '/', if "/" <= p then [] else dir;
      var parts := Resolve(rooted, Components(p), []);
      NoSlashInComponents(p);
      ResolvedIsNormal(rooted, Components(p), []);
      ResolveLeadsThere(rooted, Components(p), [], from);
      CleanComponents(rooted, parts);
      if rooted || parts == [] {
        FollowConcat(from, [if rooted then "" else "."], if rooted then Components(Joined(parts)) else []);
        FollowOne(from, if rooted then "" else ".");
      }
      if rooted && parts == [] {
        FollowOne(from, "");
      }
    }
  }

  lemma {:induction false} CleanComponents(rooted: bool, parts: seq<string>)
    requires Normal(rooted, parts)
    ensures var p := if rooted then "/" + Joined(parts) else if parts == [] then "." else Joined(parts);
            && Components(p)
               == (if rooted then [""] + Components(Joined(parts)) else if parts == [] then ["."] else parts)
            && (parts != [] ==> Components(Joined(parts)) == parts)
            && ("/" <= p <==> rooted)
  {
    if parts != [] {
      ComponentsOfJoined(parts);
      assert parts[0] in parts && Joined(parts)[0] == parts[0][0];
    } else {
      OnlyComponent(".");
    }
    if rooted {
      assert "/" + Joined(parts) == "" + "/" + Joined(parts);
      FirstComponent("", Joined(parts));
    }
  }

  // ---- Which paths settle

  /** The paths that come back, by their spelling: "/" or "./" before, or "../" in front of,
      components that are not empty, not "." and ".." only where it leads; and "./.". */
  predicate Canonical(d: string) {
    if "/" <= d then d == "/" || Normal(true, Components(d[1..]))
    else if "./" <= d then
      var parts := Components(d[2..]);
      d == "./." || (Normal(false, parts) && (parts[0] == ".." ==> |parts| == 1))
    else "../" <= d && Normal(false, Components(d))
  }

  lemma {:induction false} JoinedComponents(p: string)
    ensures Joined(Components(p)) == p
    decreases p
  {
    if p != "" {
      var rest := Components(p[1..]);
      JoinedComponents(p[1..]);
      if p[0] == '/' {
        assert ([""] + rest)[1..] == rest;
        assert Joined([""] + rest) == "" + "/" + Joined(rest);
      } else {
        assert ([[p[0]] + rest[0]] + rest[1..])[1..] == rest[1..];
        assert |rest| > 1 ==> Joined([[p[0]] + rest[0]] + rest[1..]) == [p[0]] + rest[0] + "/" + Joined(rest[1..]);
        assert Joined([[p[0]] + rest[0]] + rest[1..]) == [p[0]] + Joined(rest);
      }
    }
  }

  lemma {:induction false} LeadingComponent(c: string, p: string)
    requires '/' !in c && c + "/" <= p
    ensures Components(p)[0] == c && |Components(p)| > 1
  {
    var rest := p[|c| + 1..];
    assert p == c + "/" + rest;
    FirstComponent(c, rest);
  }

  lemma {:induction false} CleanIsNormal(p: string) returns (parts: seq<string>)
    requires p != ""
    ensures Normal(p[0] == '/', parts)
    ensures Clean(p) == if p[0] == '/' then "/" + Joined(parts) else if parts == [] then "." else Joined(parts)
    ensures parts != [] ==> Components(Joined(parts)) == parts
  {
    parts := Resolve(p[0] == '/', Components(p), []);
    NoSlashInComponents(p);
    ResolvedIsNormal(p[0] == '/', Components(p), []);
    if parts != [] {
      ComponentsOfJoined(parts);
    }
  }

  lemma {:induction false} NormalPrefix(parts: seq<string>)
    requires parts != [] && Normal(false, parts)
    ensures !("./" <= Joined(parts))
    ensures "../" <= Joined(parts) <==> parts[0] == ".." && |parts| > 1
  {
    ComponentsOfJoined(parts);
    assert parts[0] in parts;
    if "./" <= Joined(parts) {
      LeadingComponent(".", Joined(parts));
    }
    if "../" <= Joined(parts) {
      LeadingComponent("..", Joined(parts));
    }
  }

  /** A clean relative path that does not climb is marked when it is clarified. */
  lemma {:induction false} NormalIsMarked(parts: seq<string>)
    requires parts != [] && Normal(false, parts) && (parts[0] == ".." ==> |parts| == 1)
    ensures Clarify(Joined(parts)) == "./" + Joined(parts)
  {
    NormalPrefix(parts);
    assert parts[0] in parts;
  }

  /** The paths that come back are the canonical ones. */
  lemma {:induction false} SettledWhenCanonical(d: string)
    ensures Settled(d) <==> Canonical(d)
  {
    if Canonical(d) {
      CanonicalSettles(d);
    } else if Settled(d) {
      SettledIsCanonical(d);
    }
  }

  /** A path that is cleaned and clarified comes back the same exactly when it is canonical,
      and is canonical in any case. */
  lemma {:induction false} PathsComeBack(d: string)
    ensures Clarify(Clean(d)) == d <==> Canonical(d)
    ensures Canonical(Clarify(Clean(d)))
  {
    SettledWhenCanonical(d);
    CleanPathsSettle(d);
    SettledWhenCanonical(Clarify(Clean(d)));
  }

  lemma {:induction false} CanonicalSettles(d: string)
    requires Canonical(d)
    ensures Settled(d)
  {
    if d == "/" {
      CleanNormal(true, []);
    } else if d == "./." {
      CleanNormal(false, []);
      CleanClarified(".");
    } else if "/" <= d {
      JoinedComponents(d[1..]);
      CleanNormal(true, Components(d[1..]));
    } else if "./" <= d {
      var parts := Components(d[2..]);
      JoinedComponents(d[2..]);
      NormalIsMarked(parts);
      CleanNormal(false, parts);
      CleanClarified(d[2..]);
    } else {
      JoinedComponents(d);
      CleanNormal(false, Components(d));
    }
  }

  lemma {:induction false} SettledIsCanonical(d: string)
    requires Settled(d)
    ensures Canonical(d)
  {
    assert "/" <= d || "./" <= d || "../" <= d;
    var parts := CleanIsNormal(d);
    if "/" <= d {
      assert parts == [] ==> d == "/";
      assert d[1..] == Joined(parts);
    } else if "./" <= d {
      if parts == [] {
        assert d == "./.";
      } else {
        NormalPrefix(parts);
        assert d[2..] == Joined(parts);
      }
    } else {
      assert parts != [] && d == Joined(parts);
    }
  }

  lemma {:induction false} UncleanPath()
    ensures !Settled(Clarify("a/"))
  {
    assert Clarify("a/") == "./a/";
    assert "./a/" == "." + "/" + "a/" && "a/" == "a" + "/" + "";
    FirstComponent(".", "a/");
    FirstComponent("a", "");
    assert Components("./a/") == [".", "a", ""];
    assert Resolve(false, [".", "a", ""], []) == Resolve(false, ["a", ""], []);
    assert Resolve(false, ["a", ""], []) == Resolve(false, [""], ["a"]) == ["a"];
    assert Clean("./a/") == "a";
  }
}
