/** Grants of a robot in canonical form (bridge/controlplane/harbor/client.go). */
module Permissions {
  import opened Text

  /** One entry: a project and a comma-separated list of actions. */
  datatype Permission = Permission(project: string, action: string)

  // ---- Lists of actions ------------------------------------------------------------------------

  /** Go's strings.Split at commas. */
  function CommaSplit(s: string): (parts: seq<string>)
    ensures |parts| >= 1
    ensures forall k :: 0 <= k < |parts| ==> ',' !in parts[k]
  {
    if s == "" then [""]
    else
      var rest := CommaSplit(s[1..]);
      if s[0] == ',' then [""] + rest else [[s[0]] + rest[0]] + rest[1..]
  }

  function CommaJoin(xs: seq<string>): string {
    if xs == [] then "" else if |xs| == 1 then xs[0] else xs[0] + "," + CommaJoin(xs[1..])
  }

  /** An action as it is kept: trimmed, without commas, not empty. */
  predicate Action(a: string) { a != "" && Trim(a) == a && ',' !in a }

  function Elements(xs: seq<string>): set<string> { set k | 0 <= k < |xs| :: xs[k] }

  /** The parts as `trim` leaves them, without the blank ones. */
  function Trimmed(parts: seq<string>, trim: string -> string): set<string> {
    if parts == [] then {}
    else
      var a := trim(parts[|parts| - 1]);
      Trimmed(parts[..|parts| - 1], trim) + if a == "" then {} else {a}
  }

  function ActionsIn(action: string): set<string> { Trimmed(CommaSplit(action), Trim) }

  lemma {:induction false} InTrimmed(parts: seq<string>, trim: string -> string, a: string)
    ensures a in Trimmed(parts, trim) <==> a != "" && exists k :: 0 <= k < |parts| && trim(parts[k]) == a
  {
    if parts != [] {
      var front := parts[..|parts| - 1];
      InTrimmed(front, trim, a);
      assert parts[|parts| - 1] == parts[|front|];
      assert forall k :: 0 <= k < |front| ==> front[k] == parts[k];
    }
  }

  lemma {:induction false} SplitOne(a: string)
    requires ',' !in a
    ensures CommaSplit(a) == [a]
  {
    if a != "" {
      SplitOne(a[1..]);
      assert [a[0]] + a[1..] == a;
    }
  }

  lemma {:induction false} SplitAfter(a: string, rest: string)
    requires ',' !in a
    ensures CommaSplit(a + "," + rest) == [a] + CommaSplit(rest)
  {
    var s := a + "," + rest;
    if a == "" {
      assert s[1..] == rest;
    } else {
      assert s[1..] == a[1..] + "," + rest;
      SplitAfter(a[1..], rest);
      assert [a[0]] + a[1..] == a;
    }
  }

  lemma {:induction false} SplitOfJoin(xs: seq<string>)
    requires xs != [] && forall k :: 0 <= k < |xs| ==> ',' !in xs[k]
    ensures CommaSplit(CommaJoin(xs)) == xs
  {
    if |xs| == 1 {
      SplitOne(xs[0]);
    } else {
      SplitOfJoin(xs[1..]);
      SplitAfter(xs[0], CommaJoin(xs[1..]));
      assert [xs[0]] + xs[1..] == xs;
    }
  }

  /** A joined list of actions holds those actions, and is the join of that list only. */
  lemma ActionsOfJoin(xs: seq<string>)
    requires forall k :: 0 <= k < |xs| ==> Action(xs[k])
    ensures ActionsIn(CommaJoin(xs)) == Elements(xs)
  {
    if xs == [] {
      assert CommaSplit("") == [""] && Trim("") == "" && [""][..0] == [];
    } else {
      SplitOfJoin(xs);
      forall a ensures a in ActionsIn(CommaJoin(xs)) <==> a in Elements(xs) {
        InTrimmed(xs, Trim, a);
        if a in Elements(xs) {
          var k :| 0 <= k < |xs| && xs[k] == a;
          assert Trim(xs[k]) == a;
        }
      }
    }
  }

  lemma JoinIsInjective(xs: seq<string>, ys: seq<string>)
    requires (forall k :: 0 <= k < |xs| ==> Action(xs[k])) && (forall k :: 0 <= k < |ys| ==> Action(ys[k]))
    requires CommaJoin(xs) == CommaJoin(ys)
    ensures xs == ys
  {
    if xs != [] && ys != [] {
      SplitOfJoin(xs);
      SplitOfJoin(ys);
    } else {
      assert forall zs: seq<string> :: zs != [] && Action(zs[0]) ==> CommaJoin(zs) != "";
    }
  }

  lemma TrimmedIsAction(p: string)
    requires ',' !in p && Trim(p) != ""
    ensures Action(Trim(p))
  {
    var i, j := TrimParts(p);
    assert forall k :: 0 <= k < j - i ==> p[i..j][k] == p[i + k];
    TrimAgain(p[i..j]);
  }

  lemma TrimAgain(t: string)
    requires t != "" ==> !IsSpace(t[0]) && !IsSpace(t[|t| - 1])
    ensures Trim(t) == t
  {
  }

  lemma ActionsAreActions(action: string, a: string)
    requires a in ActionsIn(action)
    ensures Action(a)
  {
    var parts := CommaSplit(action);
    InTrimmed(parts, Trim, a);
    var k :| 0 <= k < |parts| && Trim(parts[k]) == a;
    TrimmedIsAction(parts[k]);
  }

  // ---- Grants ----------------------------------------------------------------------------------

  function Projects(perms: seq<Permission>): set<string> {
    if perms == [] then {} else Projects(perms[..|perms| - 1]) + {perms[|perms| - 1].project}
  }

  /** What the entries of a project list, with `parts` the actions of one entry. */
  function OnProject(perms: seq<Permission>, project: string, parts: string -> set<string>): set<string> {
    if perms == [] then {}
    else
      var last := perms[|perms| - 1];
      OnProject(perms[..|perms| - 1], project, parts) + if last.project == project then parts(last.action) else {}
  }

  /** The actions granted on a project, over all entries. */
  function ActionsOn(perms: seq<Permission>, project: string): set<string> { OnProject(perms, project, ActionsIn) }

  lemma OnSnoc(perms: seq<Permission>, e: Permission, p: string, parts: string -> set<string>)
    ensures OnProject(perms + [e], p, parts) == OnProject(perms, p, parts) + if e.project == p then parts(e.action) else {}
    ensures Projects(perms + [e]) == Projects(perms) + {e.project}
  {
    assert (perms + [e])[..|perms|] == perms;
  }

  /** The grants: pairs of a project and an action. */
  ghost predicate SameGrants(a: seq<Permission>, b: seq<Permission>) {
    forall p :: ActionsOn(a, p) == ActionsOn(b, p)
  }

  lemma {:induction false} GrantedAreActions(perms: seq<Permission>, project: string, a: string)
    requires a in ActionsOn(perms, project)
    ensures Action(a) && project in Projects(perms)
    decreases |perms|
  {
    var front, last := perms[..|perms| - 1], perms[|perms| - 1];
    if a in ActionsOn(front, project) {
      GrantedAreActions(front, project, a);
    } else {
      ActionsAreActions(last.action, a);
    }
  }

  // ---- Orders ------------------------------------------------------------------------------------

  datatype Order = ByName | ByRank

  /** Byte order of strings. */
  predicate Less(a: string, b: string) {
    if b == "" then false
    else if a == "" then true
    else a[0] < b[0] || (a[0] == b[0] && Less(a[1..], b[1..]))
  }

  function Rank(a: string): nat { if a == "pull" then 0 else if a == "push" then 1 else 2 }

  /** Projects by name; actions with pull first, then push, then by name. */
  predicate Before(o: Order, a: string, b: string) {
    match o
    case ByName => Less(a, b)
    case ByRank => if Rank(a) < 2 || Rank(b) < 2 then Rank(a) < Rank(b) else Less(a, b)
  }

  lemma {:induction false} LessIsStrict(a: string, b: string)
    ensures !(Less(a, b) && Less(b, a)) && (a == b || Less(a, b) || Less(b, a))
  {
    if a != "" && b != "" && a[0] == b[0] {
      LessIsStrict(a[1..], b[1..]);
      assert a == [a[0]] + a[1..] && b == [b[0]] + b[1..];
    }
  }

  lemma {:induction false} LessTrans(a: string, b: string, c: string)
    requires Less(a, b) && Less(b, c)
    ensures Less(a, c)
  {
    if a != "" && a[0] == b[0] == c[0] { LessTrans(a[1..], b[1..], c[1..]); }
  }

  lemma BeforeIsStrict(o: Order, a: string, b: string)
    ensures !(Before(o, a, b) && Before(o, b, a)) && (a == b || Before(o, a, b) || Before(o, b, a))
  {
    LessIsStrict(a, b);
  }

  lemma BeforeTrans(o: Order, a: string, b: string, c: string)
    requires Before(o, a, b) && Before(o, b, c)
    ensures Before(o, a, c)
  {
    if Less(a, b) && Less(b, c) { LessTrans(a, b, c); }
  }

  ghost predicate Sorted(o: Order, xs: seq<string>) { forall i, j :: 0 <= i < j < |xs| ==> Before(o, xs[i], xs[j]) }

  /** A sorted list is determined by its elements. */
  lemma {:induction false} SortedIsUnique(o: Order, xs: seq<string>, ys: seq<string>)
    requires Sorted(o, xs) && Sorted(o, ys) && Elements(xs) == Elements(ys)
    ensures xs == ys
  {
    assert (xs != [] ==> xs[0] in Elements(xs)) && (ys != [] ==> ys[0] in Elements(ys));
    if xs != [] {
      var k :| 0 <= k < |ys| && ys[k] == xs[0];
      var l :| 0 <= l < |xs| && xs[l] == ys[0];
      BeforeIsStrict(o, xs[0], ys[0]);
      RestOf(o, xs);
      RestOf(o, ys);
      SortedIsUnique(o, xs[1..], ys[1..]);
      assert xs == [xs[0]] + xs[1..] && ys == [ys[0]] + ys[1..];
    }
  }

  lemma RestOf(o: Order, xs: seq<string>)
    requires Sorted(o, xs) && xs != []
    ensures Sorted(o, xs[1..]) && Elements(xs[1..]) == Elements(xs) - {xs[0]}
  {
    var rest := xs[1..];
    forall a ensures a in Elements(rest) <==> a in Elements(xs) - {xs[0]} {
      if a in Elements(rest) {
        var k :| 0 <= k < |rest| && rest[k] == a;
        assert xs[k + 1] == a;
        BeforeIsStrict(o, xs[0], a);
      }
      if a in Elements(xs) - {xs[0]} {
        var k :| 0 <= k < |xs| && xs[k] == a;
        assert rest[k - 1] == a;
      }
    }
  }

  // ---- Sorting -----------------------------------------------------------------------------------

  function Insert(o: Order, xs: seq<string>, a: string): seq<string> {
    if xs == [] then [a] else if Before(o, a, xs[0]) then [a] + xs else [xs[0]] + Insert(o, xs[1..], a)
  }

  lemma {:induction false} InsertSorts(o: Order, xs: seq<string>, a: string)
    requires Sorted(o, xs) && a !in Elements(xs)
    ensures Sorted(o, Insert(o, xs, a)) && Elements(Insert(o, xs, a)) == Elements(xs) + {a}
  {
    if xs == [] {
      ElementsCons(a, []);
      assert [a] + [] == [a] && Elements([]) == {};
    } else if Before(o, a, xs[0]) {
      forall e | e in Elements(xs) ensures Before(o, a, e) {
        var k :| 0 <= k < |xs| && xs[k] == e;
        if k > 0 { BeforeTrans(o, a, xs[0], e); }
      }
      SortedCons(o, a, xs);
      ElementsCons(a, xs);
    } else {
      RestOf(o, xs);
      InsertSorts(o, xs[1..], a);
      assert xs[0] in Elements(xs);
      BeforeIsStrict(o, a, xs[0]);
      InsertAfterFirst(o, xs[0], xs[1..], Insert(o, xs[1..], a), a);
      assert xs == [xs[0]] + xs[1..];
    }
  }

  lemma InsertAfterFirst(o: Order, x: string, xs: seq<string>, rest: seq<string>, a: string)
    requires Sorted(o, [x] + xs) && Sorted(o, rest) && Elements(rest) == Elements(xs) + {a} && Before(o, x, a)
    ensures Sorted(o, [x] + rest) && Elements([x] + rest) == Elements([x] + xs) + {a}
  {
    forall e | e in Elements(rest) ensures Before(o, x, e) {
      if e != a {
        var k :| 0 <= k < |xs| && xs[k] == e;
        assert ([x] + xs)[0] == x && ([x] + xs)[k + 1] == e;
      }
    }
    SortedCons(o, x, rest);
    ElementsCons(x, xs);
    ElementsCons(x, rest);
  }

  lemma SortedCons(o: Order, x: string, rest: seq<string>)
    requires Sorted(o, rest) && forall e :: e in Elements(rest) ==> Before(o, x, e)
    ensures Sorted(o, [x] + rest)
  {
    assert forall j :: 0 <= j < |rest| ==> rest[j] in Elements(rest);
  }

  lemma ElementsCons(a: string, xs: seq<string>)
    ensures Elements([a] + xs) == {a} + Elements(xs)
  {
    var all := [a] + xs;
    forall e ensures e in Elements(all) <==> e in {a} + Elements(xs) {
      if e in Elements(xs) {
        var k :| 0 <= k < |xs| && xs[k] == e;
        assert all[k + 1] == e;
      }
      assert all[0] == a;
    }
  }

  method Sort(o: Order, s: set<string>) returns (xs: seq<string>)
    ensures Sorted(o, xs) && Elements(xs) == s
  {
    xs := [];
    var todo := s;
    while todo != {}
      invariant todo <= s && Sorted(o, xs) && Elements(xs) == s - todo
    {
      var a :| a in todo;
      InsertSorts(o, xs, a);
      xs := Insert(o, xs, a);
      todo := todo - {a};
    }
  }

  lemma {:induction false} SortedExists(o: Order, s: set<string>) returns (xs: seq<string>)
    ensures Sorted(o, xs) && Elements(xs) == s
    decreases |s|
  {
    if s == {} {
      xs := [];
    } else {
      var a :| a in s;
      var rest := SortedExists(o, s - {a});
      InsertSorts(o, rest, a);
      xs := Insert(o, rest, a);
    }
  }

  /** The elements of a set in order. */
  ghost function InOrder(o: Order, s: set<string>): (xs: seq<string>)
    ensures Sorted(o, xs) && Elements(xs) == s
  {
    assert exists xs :: Sorted(o, xs) && Elements(xs) == s by { var xs := SortedExists(o, s); }
    var xs :| Sorted(o, xs) && Elements(xs) == s;
    xs
  }

  // ---- The canonical form --------------------------------------------------------------------------

  ghost function NormalEntry(perms: seq<Permission>, project: string): Permission {
    Permission(project, CommaJoin(InOrder(ByRank, ActionsOn(perms, project))))
  }

  /** One entry per project, in order, each with its actions once and in order. */
  ghost function Normal(perms: seq<Permission>): (out: seq<Permission>)
    ensures |out| == |InOrder(ByName, Projects(perms))|
    ensures forall k :: 0 <= k < |out| ==> out[k] == NormalEntry(perms, InOrder(ByName, Projects(perms))[k])
  {
    var ps := InOrder(ByName, Projects(perms));
    seq(|ps|, k requires 0 <= k < |ps| => NormalEntry(perms, ps[k]))
  }

  method ActionsFrom(action: string) returns (actions: set<string>)
    ensures actions == ActionsIn(action)
  {
    actions := {};
    var parts := CommaSplit(action);
    for j := 0 to |parts|
      invariant actions == Trimmed(parts[..j], Trim)
    {
      assert parts[..j + 1][..j] == parts[..j];
      var a := Trim(parts[j]);
      if a != "" {
        actions := actions + {a};
      }
    }
    assert parts[..|parts|] == parts;
  }

  /** What the map holds for a project. */
  function Held(byProject: map<string, set<string>>, p: string): set<string> {
    if p in byProject then byProject[p] else {}
  }

  ghost predicate Gathered(byProject: map<string, set<string>>, perms: seq<Permission>, parts: string -> set<string>) {
    byProject.Keys == Projects(perms) && forall p :: Held(byProject, p) == OnProject(perms, p, parts)
  }

  lemma GatherOne(byProject: map<string, set<string>>, perms: seq<Permission>, e: Permission, actions: set<string>, parts: string -> set<string>)
    requires Gathered(byProject, perms, parts) && parts(e.action) == actions
    ensures Gathered(byProject[e.project := Held(byProject, e.project) + actions], perms + [e], parts)
  {
    var more := byProject[e.project := Held(byProject, e.project) + actions];
    OnSnoc(perms, e, e.project, parts);
    forall p ensures Held(more, p) == OnProject(perms + [e], p, parts) {
      OnSnoc(perms, e, p, parts);
      assert Held(byProject, p) == OnProject(perms, p, parts);
    }
  }

  method AddEntry(byProject: map<string, set<string>>, e: Permission, ghost before: seq<Permission>) returns (more: map<string, set<string>>)
    requires Gathered(byProject, before, ActionsIn)
    ensures Gathered(more, before + [e], ActionsIn)
  {
    var actions := ActionsFrom(e.action);
    more := byProject[e.project := Held(byProject, e.project) + actions];
    GatherOne(byProject, before, e, actions, ActionsIn);
  }

  /** Gathers the actions of each project. */
  method Gather(perms: seq<Permission>) returns (byProject: map<string, set<string>>)
    ensures Gathered(byProject, perms, ActionsIn)
  {
    byProject := map[];
    for i := 0 to |perms|
      invariant Gathered(byProject, perms[..i], ActionsIn)
    {
      byProject := AddEntry(byProject, perms[i], perms[..i]);
      assert perms[..i + 1] == perms[..i] + [perms[i]];
    }
    assert perms[..|perms|] == perms;
  }

  method NormalizePermissions(perms: seq<Permission>) returns (out: seq<Permission>)
    ensures out == Normal(perms)
  {
    var byProject := Gather(perms);
    var projects := Sort(ByName, byProject.Keys);
    SortedIsUnique(ByName, projects, InOrder(ByName, Projects(perms)));
    out := [];
    for k := 0 to |projects|
      invariant |out| == k && forall i :: 0 <= i < k ==> out[i] == NormalEntry(perms, projects[i])
    {
      assert projects[k] in Elements(projects);
      var entry := Entry(perms, projects[k], Held(byProject, projects[k]));
      out := out + [entry];
    }
  }

  /** One canonical entry from the actions gathered for its project. */
  method Entry(ghost perms: seq<Permission>, project: string, held: set<string>) returns (entry: Permission)
    requires held == ActionsOn(perms, project)
    ensures entry == NormalEntry(perms, project)
  {
    var actions := Sort(ByRank, held);
    SortedIsUnique(ByRank, actions, InOrder(ByRank, held));
    entry := Permission(project, CommaJoin(actions));
  }

  // ---- Matching ------------------------------------------------------------------------------------

  lemma OrderedActions(perms: seq<Permission>, project: string, k: nat)
    requires k < |InOrder(ByRank, ActionsOn(perms, project))|
    ensures Action(InOrder(ByRank, ActionsOn(perms, project))[k])
  {
    var xs := InOrder(ByRank, ActionsOn(perms, project));
    assert xs[k] in Elements(xs);
    GrantedAreActions(perms, project, xs[k]);
  }

  /** An entry of the canonical form tells the actions. */
  lemma SameEntries(a: seq<Permission>, b: seq<Permission>, project: string)
    requires NormalEntry(a, project) == NormalEntry(b, project)
    ensures ActionsOn(a, project) == ActionsOn(b, project)
  {
    var xs, ys := InOrder(ByRank, ActionsOn(a, project)), InOrder(ByRank, ActionsOn(b, project));
    forall k | 0 <= k < |xs| ensures Action(xs[k]) { OrderedActions(a, project, k); }
    forall k | 0 <= k < |ys| ensures Action(ys[k]) { OrderedActions(b, project, k); }
    JoinIsInjective(xs, ys);
  }

  lemma NoProjectNoActions(perms: seq<Permission>, project: string)
    requires project !in Projects(perms)
    ensures ActionsOn(perms, project) == {}
  {
    if a :| a in ActionsOn(perms, project) { GrantedAreActions(perms, project, a); }
  }

  /** Two lists have the same canonical form exactly when they name the same projects and grant
      the same actions on each, whatever their order and repetitions. */
  lemma MatchExactly(a: seq<Permission>, b: seq<Permission>)
    ensures Normal(a) == Normal(b) <==> Projects(a) == Projects(b) && SameGrants(a, b)
  {
    var ps, qs := InOrder(ByName, Projects(a)), InOrder(ByName, Projects(b));
    if Normal(a) == Normal(b) {
      assert forall k :: 0 <= k < |ps| ==> ps[k] == Normal(a)[k].project;
      assert forall k :: 0 <= k < |qs| ==> qs[k] == Normal(b)[k].project;
      assert ps == qs;
      forall p ensures ActionsOn(a, p) == ActionsOn(b, p) {
        if p in Elements(ps) {
          var k :| 0 <= k < |ps| && ps[k] == p;
          assert Normal(a)[k] == Normal(b)[k];
          SameEntries(a, b, p);
        } else {
          NoProjectNoActions(a, p);
          NoProjectNoActions(b, p);
        }
      }
    }
  }

  /** Every entry carries an action. */
  ghost predicate Granting(perms: seq<Permission>) {
    forall p :: p in Projects(perms) ==> ActionsOn(perms, p) != {}
  }

  /** For lists that grant something in every entry, the grants alone decide. */
  lemma MatchIsGrants(a: seq<Permission>, b: seq<Permission>)
    requires Granting(a) && Granting(b)
    ensures Normal(a) == Normal(b) <==> SameGrants(a, b)
  {
    MatchExactly(a, b);
    if SameGrants(a, b) {
      forall p ensures p in Projects(a) <==> p in Projects(b) {
        if p in Projects(a) { assert ActionsOn(a, p) == ActionsOn(b, p); if p !in Projects(b) { NoProjectNoActions(b, p); } }
        if p in Projects(b) { assert ActionsOn(a, p) == ActionsOn(b, p); if p !in Projects(a) { NoProjectNoActions(a, p); } }
      }
    }
  }

  lemma {:induction false} EntriesOn(es: seq<Permission>, ps: seq<string>, p: string, on: set<string>, parts: string -> set<string>)
    requires |es| == |ps| && forall k :: 0 <= k < |es| ==> es[k].project == ps[k] && (ps[k] == p ==> parts(es[k].action) == on)
    ensures OnProject(es, p, parts) == (if p in ps then on else {}) && (p in Projects(es) <==> p in ps)
    decreases |es|
  {
    if es != [] {
      var n := |es| - 1;
      EntriesOn(es[..n], ps[..n], p, on, parts);
      assert ps == ps[..n] + [ps[n]];
    }
  }

  lemma NormalMeans(perms: seq<Permission>, p: string)
    ensures ActionsOn(Normal(perms), p) == ActionsOn(perms, p) && (p in Projects(Normal(perms)) <==> p in Projects(perms))
  {
    var es, ps := Normal(perms), InOrder(ByName, Projects(perms));
    assert ActionsIn(NormalEntry(perms, p).action) == ActionsOn(perms, p) by {
      var xs := InOrder(ByRank, ActionsOn(perms, p));
      forall k | 0 <= k < |xs| ensures Action(xs[k]) { OrderedActions(perms, p, k); }
      ActionsOfJoin(xs);
    }
    EntriesOn(es, ps, p, ActionsOn(perms, p), ActionsIn);
    assert p in ps <==> p in Elements(ps);
    if p !in Projects(perms) { NoProjectNoActions(perms, p); }
  }

  /** The canonical form means the same, and is its own canonical form. */
  lemma NormalAgain(perms: seq<Permission>)
    ensures Projects(Normal(perms)) == Projects(perms) && SameGrants(Normal(perms), perms)
    ensures Normal(Normal(perms)) == Normal(perms)
  {
    forall p ensures ActionsOn(Normal(perms), p) == ActionsOn(perms, p) && (p in Projects(Normal(perms)) <==> p in Projects(perms)) {
      NormalMeans(perms, p);
    }
    MatchExactly(Normal(perms), perms);
  }

  // ---- To Harbor and back ------------------------------------------------------------------------------

  const PROJECT := "project"
  const REPOSITORY := "repository"

  datatype Access = Access(resource: string, action: string, effect: string)

  /** A row of a robot in Harbor. */
  datatype Row = Row(kind: string, namespace: string, accesses: seq<Access>)

  /** What the client makes of a robot's rows: its grants, and whether it has any the bridge
      never writes. */
  datatype Read = Read(perms: seq<Permission>, foreign: bool)

  function Accesses(actions: seq<string>): seq<Access> {
    if actions == [] then []
    else
      var last := actions[|actions| - 1];
      Accesses(actions[..|actions| - 1]) + if last == "" then [] else [Access(REPOSITORY, last, "")]
  }

  function RowOf(p: Permission): Row { Row(PROJECT, p.project, Accesses(CommaSplit(p.action))) }

  ghost function ToHarbor(perms: seq<Permission>): seq<Row> {
    seq(|Normal(perms)|, k requires 0 <= k < |Normal(perms)| => RowOf(Normal(perms)[k]))
  }

  predicate Ours(a: Access) { a.resource == REPOSITORY && (a.effect == "" || a.effect == "allow") }

  function FromAccesses(namespace: string, accesses: seq<Access>): Read {
    if accesses == [] then Read([], false)
    else
      var front, last := FromAccesses(namespace, accesses[..|accesses| - 1]), accesses[|accesses| - 1];
      if Ours(last) then Read(front.perms + [Permission(namespace, last.action)], front.foreign) else Read(front.perms, true)
  }

  function FromRows(rows: seq<Row>): Read {
    if rows == [] then Read([], false)
    else
      var front, last := FromRows(rows[..|rows| - 1]), rows[|rows| - 1];
      if last.kind != PROJECT then Read(front.perms, true)
      else
        var more := FromAccesses(last.namespace, last.accesses);
        Read(front.perms + more.perms, front.foreign || more.foreign)
  }

  /** A robot as the client reads it: its grants in canonical form. */
  ghost function FromHarbor(rows: seq<Row>): Read { Read(Normal(FromRows(rows).perms), FromRows(rows).foreign) }

  /** The robot's grants are exactly the desired ones. */
  ghost predicate PermissionsMatch(r: Read, desired: seq<Permission>) { !r.foreign && Normal(r.perms) == Normal(desired) }

  lemma {:induction false} OnConcat(a: seq<Permission>, b: seq<Permission>, p: string, parts: string -> set<string>)
    ensures OnProject(a + b, p, parts) == OnProject(a, p, parts) + OnProject(b, p, parts)
    ensures Projects(a + b) == Projects(a) + Projects(b)
    decreases |b|
  {
    if b == [] {
      assert a + b == a;
    } else {
      var n := |b| - 1;
      assert (a + b)[..|a + b| - 1] == a + b[..n];
      OnConcat(a, b[..n], p, parts);
    }
  }

  /** The rows of a list of actions are read as these actions on that project. */
  lemma {:induction false} ReadAccesses(namespace: string, xs: seq<string>, p: string, parts: string -> set<string>)
    requires forall k :: 0 <= k < |xs| ==> xs[k] != "" && parts(xs[k]) == {xs[k]}
    ensures var r := FromAccesses(namespace, Accesses(xs));
            && !r.foreign && OnProject(r.perms, p, parts) == (if p == namespace then Elements(xs) else {})
            && (p in Projects(r.perms) <==> p == namespace && xs != [])
  {
    if xs != [] {
      var front, a := xs[..|xs| - 1], xs[|xs| - 1];
      assert xs == front + [a];
      ReadAccesses(namespace, front, p, parts);
      AddAccess(namespace, front, a);
      OnSnoc(FromAccesses(namespace, Accesses(front)).perms, Permission(namespace, a), p, parts);
      ElementsSnoc(front, a);
    }
  }

  lemma AddAccess(namespace: string, front: seq<string>, a: string)
    requires a != ""
    ensures var before, r := FromAccesses(namespace, Accesses(front)), FromAccesses(namespace, Accesses(front + [a]));
            r.perms == before.perms + [Permission(namespace, a)] && r.foreign == before.foreign
  {
    assert (front + [a])[..|front|] == front;
    var all := Accesses(front + [a]);
    assert all == Accesses(front) + [Access(REPOSITORY, a, "")];
    assert all[..|all| - 1] == Accesses(front);
  }

  lemma SingleAction(a: string)
    requires Action(a)
    ensures ActionsIn(a) == {a}
  {
    assert CommaJoin([a]) == a;
    ActionsOfJoin([a]);
    assert Elements([a]) == {a};
  }

  lemma ElementsSnoc(xs: seq<string>, a: string)
    ensures Elements(xs + [a]) == Elements(xs) + {a}
  {
    var all := xs + [a];
    forall e ensures e in Elements(all) <==> e in Elements(xs) + {a} {
      if e in Elements(xs) {
        var k :| 0 <= k < |xs| && xs[k] == e;
        assert all[k] == e;
      }
      assert all[|xs|] == a;
    }
  }

  /** A row is read as the actions `on` on its project, as far as project p is concerned. */
  ghost predicate RowReads(row: Row, project: string, p: string, on: set<string>, parts: string -> set<string>) {
    && row.kind == PROJECT
    && var r := FromAccesses(row.namespace, row.accesses);
    !r.foreign && Gives(r.perms, p == project, p, on, parts)
  }

  /** The entries grant the actions `on` on project p, if it is named. */
  ghost predicate Gives(perms: seq<Permission>, named: bool, p: string, on: set<string>, parts: string -> set<string>) {
    && OnProject(perms, p, parts) == (if named then on else {})
    && (p in Projects(perms) <==> named && on != {})
  }

  lemma GivesConcat(a: seq<Permission>, b: seq<Permission>, first: bool, second: bool, p: string, on: set<string>, parts: string -> set<string>)
    requires Gives(a, first, p, on, parts) && Gives(b, second, p, on, parts)
    ensures Gives(a + b, first || second, p, on, parts)
  {
    OnConcat(a, b, p, parts);
  }

  /** A canonical entry, written and read. */
  lemma ReadEntry(perms: seq<Permission>, project: string, p: string)
    ensures RowReads(RowOf(NormalEntry(perms, project)), project, p, ActionsOn(perms, project), ActionsIn)
  {
    var xs := InOrder(ByRank, ActionsOn(perms, project));
    forall k | 0 <= k < |xs| ensures Action(xs[k]) && ActionsIn(xs[k]) == {xs[k]} {
      OrderedActions(perms, project, k);
      SingleAction(xs[k]);
    }
    ReadAccesses(project, xs, p, ActionsIn);
    assert xs == [] <==> Elements(xs) == {} by {
      if xs != [] { assert xs[0] in Elements(xs); }
    }
    if xs == [] {
      assert CommaSplit("") == [""] && Accesses([""]) == Accesses([""][..0]) == [];
    } else {
      SplitOfJoin(xs);
    }
  }

  ghost predicate RowsRead(rows: seq<Row>, ps: seq<string>, p: string, on: set<string>, parts: string -> set<string>) {
    |rows| == |ps| && forall k :: 0 <= k < |rows| ==> RowReads(rows[k], ps[k], p, on, parts)
  }

  /** Rows are read as the actions `on` on project p, if it is named in them. */
  ghost predicate AllRead(rows: seq<Row>, named: bool, p: string, on: set<string>, parts: string -> set<string>) {
    !FromRows(rows).foreign && Gives(FromRows(rows).perms, named, p, on, parts)
  }

  lemma FromRowsSnoc(rows: seq<Row>, row: Row)
    requires row.kind == PROJECT
    ensures var before, more := FromRows(rows), FromAccesses(row.namespace, row.accesses);
            FromRows(rows + [row]) == Read(before.perms + more.perms, before.foreign || more.foreign)
  {
    assert (rows + [row])[..|rows|] == rows;
  }

  /** What reading one more row adds. */
  lemma ReadRow(rows: seq<Row>, row: Row, named: bool, project: string, p: string, on: set<string>, parts: string -> set<string>)
    requires RowReads(row, project, p, on, parts) && AllRead(rows, named, p, on, parts)
    ensures AllRead(rows + [row], named || p == project, p, on, parts)
  {
    FromRowsSnoc(rows, row);
    GivesConcat(FromRows(rows).perms, FromAccesses(row.namespace, row.accesses).perms, named, p == project, p, on, parts);
  }

  lemma {:induction false} ReadRows(rows: seq<Row>, ps: seq<string>, p: string, on: set<string>, parts: string -> set<string>)
    requires RowsRead(rows, ps, p, on, parts)
    ensures AllRead(rows, p in ps, p, on, parts)
    decreases |rows|
  {
    if rows != [] {
      var n := |rows| - 1;
      var front, names := rows[..n], ps[..n];
      assert RowsRead(front, names, p, on, parts);
      ReadRows(front, names, p, on, parts);
      ReadRow(front, rows[n], p in names, ps[n], p, on, parts);
      assert rows == front + [rows[n]];
      InSnoc(ps, n, p);
    }
  }

  lemma InSnoc(ps: seq<string>, n: nat, p: string)
    requires |ps| == n + 1
    ensures p in ps <==> p in ps[..n] || p == ps[n]
  {
    assert ps == ps[..n] + [ps[n]];
  }

  /** What Harbor is sent is read back as the same grants, on the projects that have any. */
  lemma ReadBack(perms: seq<Permission>, p: string)
    ensures var r := FromRows(ToHarbor(perms));
            && !r.foreign && ActionsOn(r.perms, p) == ActionsOn(perms, p)
            && (p in Projects(r.perms) <==> p in Projects(perms) && ActionsOn(perms, p) != {})
  {
    var ps, rows := InOrder(ByName, Projects(perms)), ToHarbor(perms);
    forall k | 0 <= k < |rows| ensures RowReads(rows[k], ps[k], p, ActionsOn(perms, p), ActionsIn) {
      ReadEntry(perms, ps[k], p);
      assert rows[k] == RowOf(NormalEntry(perms, ps[k]));
    }
    ReadRows(rows, ps, p, ActionsOn(perms, p), ActionsIn);
    assert p in ps <==> p in Elements(ps);
    if p !in Projects(perms) { NoProjectNoActions(perms, p); }
  }

  /** A robot read back after an update with the desired grants matches them, so one update is
      enough, exactly when every project of theirs is granted some action. */
  lemma UpdateConverges(desired: seq<Permission>)
    ensures PermissionsMatch(FromHarbor(ToHarbor(desired)), desired) <==> Granting(desired)
  {
    var r := FromRows(ToHarbor(desired));
    forall p ensures !r.foreign && ActionsOn(r.perms, p) == ActionsOn(desired, p)
      ensures p in Projects(r.perms) <==> p in Projects(desired) && ActionsOn(desired, p) != {}
    {
      ReadBack(desired, p);
    }
    NormalAgain(r.perms);
    MatchExactly(r.perms, desired);
    assert Projects(r.perms) == Projects(desired) <==> Granting(desired);
  }
}
