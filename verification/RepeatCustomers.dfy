/** Grouping subscriptions into customers, countRepeatCustomerGroups of internal/service/customer_care.go. */
module RepeatCustomers {

  datatype Subscription = Subscription(id: int, team: bool, resale: bool, email: string, wechat: string)

  // ---- identities

  predicate IsSpace(c: char) {
    c in " \t\n\r"
  }

  function Lower(s: string): string {
    if s == "" then ""
    else [if 'A' <= s[0] <= 'Z' then (s[0] as int + 32) as char else s[0]] + Lower(s[1..])
  }

  function TrimLeft(s: string): string {
    if s != "" && IsSpace(s[0]) then TrimLeft(s[1..]) else s
  }

  function TrimRight(s: string): string {
    if s != "" && IsSpace(s[|s| - 1]) then TrimRight(s[..|s| - 1]) else s
  }

  const PLACEHOLDERS: set<string> := {"", "-", "--", "无", "暂无", "未知", "未填写", "none", "null", "n/a"}

  /** A placeholder is no identity at all. */
  function Normalize(value: string): string {
    var normalized := Lower(TrimRight(TrimLeft(value)));
    if normalized in PLACEHOLDERS then "" else normalized
  }

  predicate SameIdentity(a: string, b: string) {
    Normalize(a) != "" && Normalize(a) == Normalize(b)
  }

  // ---- what a customer group is

  /** The two subscriptions show the same customer directly. */
  predicate Shares(a: Subscription, b: Subscription) {
    SameIdentity(a.email, b.email) || SameIdentity(a.wechat, b.wechat)
  }

  ghost predicate IsPath(team: seq<Subscription>, path: seq<nat>) {
    && path != []
    && (forall k :: 0 <= k < |path| ==> path[k] < |team|)
    && forall k :: 0 <= k < |path| - 1 ==> Shares(team[path[k]], team[path[k + 1]])
  }

  /** A chain of shared identities leads from one subscription to the other. */
  ghost predicate Connected(team: seq<Subscription>, i: nat, j: nat) {
    exists path :: IsPath(team, path) && path[0] == i && path[|path| - 1] == j
  }

  ghost function Component(team: seq<Subscription>, i: nat): set<nat> {
    set j: nat | j < |team| && Connected(team, i, j)
  }

  function BillCount(billCounts: map<int, int>, s: Subscription): int {
    if s.id in billCounts then billCounts[s.id] else 0
  }

  /** The components in which some subscription has been billed more than once. */
  ghost function RepeatGroups(team: seq<Subscription>, billCounts: map<int, int>): set<set<nat>> {
    set i: nat | i < |team| && BillCount(billCounts, team[i]) > 1 :: Component(team, i)
  }

  function TeamOnly(subscriptions: seq<Subscription>): seq<Subscription> {
    if subscriptions == [] then []
    else
      var last := subscriptions[|subscriptions| - 1];
      TeamOnly(subscriptions[..|subscriptions| - 1]) + (if last.team && !last.resale then [last] else [])
  }

  // ---- connectedness is an equivalence

  lemma ConnectedReflexive(team: seq<Subscription>, i: nat)
    requires i < |team|
    ensures Connected(team, i, i)
  {
    assert IsPath(team, [i]);
  }

  lemma ConnectedStep(team: seq<Subscription>, i: nat, j: nat)
    requires i < |team| && j < |team| && Shares(team[i], team[j])
    ensures Connected(team, i, j) && Connected(team, j, i)
  {
    assert IsPath(team, [i, j]) && IsPath(team, [j, i]);
  }

  lemma ConnectedTransitive(team: seq<Subscription>, i: nat, j: nat, k: nat)
    requires Connected(team, i, j) && Connected(team, j, k)
    ensures Connected(team, i, k)
  {
    var p :| IsPath(team, p) && p[0] == i && p[|p| - 1] == j;
    var q :| IsPath(team, q) && q[0] == j && q[|q| - 1] == k;
    var path := p + q[1..];
    assert forall m :: |p| - 1 <= m < |path| ==> path[m] == q[m - (|p| - 1)];
    assert IsPath(team, path);
  }

  function Backwards(path: seq<nat>): (reversed: seq<nat>)
    ensures |reversed| == |path| && forall m :: 0 <= m < |path| ==> reversed[m] == path[|path| - 1 - m]
  {
    seq(|path|, m requires 0 <= m < |path| => path[|path| - 1 - m])
  }

  lemma ConnectedSymmetric(team: seq<Subscription>, i: nat, j: nat)
    requires Connected(team, i, j)
    ensures Connected(team, j, i)
  {
    var p :| IsPath(team, p) && p[0] == i && p[|p| - 1] == j;
    var q := Backwards(p);
    forall m | 0 <= m < |q| - 1
      ensures Shares(team[q[m]], team[q[m + 1]])
    {
      var n := |p| - 2 - m;
      assert Shares(team[p[n]], team[p[n + 1]]);
    }
    assert IsPath(team, q);
  }

  /** So the components partition the subscriptions: being in one's component is an equivalence, and
      connected subscriptions have one component. */
  lemma ComponentsPartition(team: seq<Subscription>, i: nat, j: nat)
    requires i < |team| && j < |team|
    ensures i in Component(team, i) && (j in Component(team, i) <==> i in Component(team, j))
    ensures Connected(team, i, j) ==> Component(team, i) == Component(team, j)
    ensures !Connected(team, i, j) ==> Component(team, i) !! Component(team, j)
  {
    ConnectedReflexive(team, i);
    if Connected(team, i, j) {
      ConnectedSymmetric(team, i, j);
      forall k: nat | k < |team|
        ensures Connected(team, i, k) <==> Connected(team, j, k)
      {
        if Connected(team, i, k) { ConnectedTransitive(team, j, i, k); }
        if Connected(team, j, k) { ConnectedTransitive(team, i, j, k); }
      }
    } else {
      forall k: nat | k < |team| && Connected(team, i, k)
        ensures !Connected(team, j, k)
      {
        if Connected(team, j, k) {
          ConnectedSymmetric(team, j, k);
          ConnectedTransitive(team, i, k, j);
        }
      }
      if Connected(team, j, i) { ConnectedSymmetric(team, j, i); }
    }
  }

  // ---- the forest

  /** `rep` names each element's class. `depth` falls along every parent link, so find terminates. */
  ghost predicate Rooted(parents: seq<int>, rep: seq<nat>, depth: seq<nat>, i: nat)
    requires |parents| == |rep| == |depth| && i < |parents|
  {
    && 0 <= parents[i] < |parents| && rep[i] < |rep|
    && rep[parents[i]] == rep[i] && rep[rep[i]] == rep[i]
    && (parents[i] == i <==> rep[i] == i)
    && (parents[i] != i ==> depth[parents[i]] < depth[i])
    && (rep[i] != i ==> depth[rep[i]] < depth[i])
  }

  ghost predicate Forest(parents: seq<int>, rep: seq<nat>, depth: seq<nat>) {
    && |parents| == |rep| == |depth|
    && forall i: nat :: i < |parents| ==> Rooted(parents, rep, depth, i)
  }

  /** Elements of one class are connected. */
  ghost predicate Sound(team: seq<Subscription>, rep: seq<nat>) {
    |rep| == |team| && forall i, j :: 0 <= i < |rep| && 0 <= j < |rep| && rep[i] == rep[j] ==> Connected(team, i, j)
  }

  ghost predicate Coarser(rep: seq<nat>, rep': seq<nat>) {
    |rep'| == |rep| && forall i, j :: 0 <= i < |rep| && 0 <= j < |rep| && rep[i] == rep[j] ==> rep'[i] == rep'[j]
  }

  /** Pointing an element straight at its root keeps the forest and the classes. */
  lemma CompressedForest(parents: seq<int>, rep: seq<nat>, depth: seq<nat>, index: nat)
    requires Forest(parents, rep, depth) && index < |parents| && rep[index] != index
    ensures Rooted(parents, rep, depth, index) && Forest(parents[index := rep[index]], rep, depth)
  {
    var p := parents[index := rep[index]];
    assert Rooted(parents, rep, depth, index);
    forall i: nat | i < |p|
      ensures Rooted(p, rep, depth, i)
    {
      assert Rooted(parents, rep, depth, i);
    }
  }

  function MergedRep(rep: seq<nat>, left: nat, right: nat): (rep': seq<nat>)
    requires left < |rep| && right < |rep|
    ensures |rep'| == |rep|
    ensures forall i :: 0 <= i < |rep| ==> rep'[i] == if rep[i] == rep[right] then rep[left] else rep[i]
  {
    seq(|rep|, i requires 0 <= i < |rep| => if rep[i] == rep[right] then rep[left] else rep[i])
  }

  function MergedDepth(rep: seq<nat>, depth: seq<nat>, left: nat, right: nat): (depth': seq<nat>)
    requires |depth| == |rep| && left < |rep| && right < |rep| && rep[left] < |rep|
    ensures |depth'| == |rep|
    ensures forall i :: 0 <= i < |rep| ==>
      depth'[i] == if rep[i] == rep[right] then depth[i] + depth[rep[left]] + 1 else depth[i]
  {
    seq(|rep|, i requires 0 <= i < |rep| => if rep[i] == rep[right] then depth[i] + depth[rep[left]] + 1 else depth[i])
  }

  lemma MergedForest(parents: seq<int>, rep: seq<nat>, depth: seq<nat>, left: nat, right: nat)
    requires Forest(parents, rep, depth) && left < |parents| && right < |parents| && rep[left] != rep[right]
    ensures Rooted(parents, rep, depth, left) && Rooted(parents, rep, depth, right)
    ensures Forest(parents[rep[right] := rep[left]], MergedRep(rep, left, right), MergedDepth(rep, depth, left, right))
  {
    var l := rep[left];
    var p, r, d := parents[rep[right] := l], MergedRep(rep, left, right), MergedDepth(rep, depth, left, right);
    assert Rooted(parents, rep, depth, left) && Rooted(parents, rep, depth, l);
    assert Rooted(parents, rep, depth, right) && Rooted(parents, rep, depth, rep[right]);
    forall i: nat | i < |p|
      ensures Rooted(p, r, d, i)
    {
      assert Rooted(parents, rep, depth, i);
    }
  }

  method Find(parents: array<int>, index: int, ghost rep: seq<nat>, ghost depth: seq<nat>) returns (root: int)
    requires Forest(parents[..], rep, depth) && 0 <= index < parents.Length
    modifies parents
    ensures Forest(parents[..], rep, depth)
    ensures root == rep[index]
    decreases depth[index]
  {
    assert Rooted(parents[..], rep, depth, index);
    if parents[index] != index {
      assert Rooted(parents[..], rep, depth, parents[index]);
      var above := Find(parents, parents[index], rep, depth);
      CompressedForest(parents[..], rep, depth, index);
      ghost var before := parents[..];
      parents[index] := above;
      assert parents[..] == before[index := above];
    }
    return parents[index];
  }

  method Union(
    parents: array<int>, left: int, right: int, ghost team: seq<Subscription>, ghost rep: seq<nat>,
    ghost depth: seq<nat>)
    returns (ghost rep': seq<nat>, ghost depth': seq<nat>)
    requires Forest(parents[..], rep, depth) && Sound(team, rep)
    requires 0 <= left < parents.Length && 0 <= right < parents.Length && Shares(team[left], team[right])
    modifies parents
    ensures Forest(parents[..], rep', depth') && Sound(team, rep')
    ensures Coarser(rep, rep') && rep'[left] == rep'[right]
  {
    var leftRoot := Find(parents, left, rep, depth);
    var rightRoot := Find(parents, right, rep, depth);
    if leftRoot == rightRoot {
      return rep, depth;
    }
    MergedForest(parents[..], rep, depth, left, right);
    rep', depth' := MergedRep(rep, left, right), MergedDepth(rep, depth, left, right);
    ghost var before := parents[..];
    parents[rightRoot] := leftRoot;
    assert parents[..] == before[rightRoot := leftRoot];
    MergeSound(team, rep, rep', left, right);
  }

  lemma MergeSound(team: seq<Subscription>, rep: seq<nat>, rep': seq<nat>, left: nat, right: nat)
    requires Sound(team, rep) && left < |rep| && right < |rep| && Shares(team[left], team[right])
    requires |rep'| == |rep|
    requires forall i :: 0 <= i < |rep| ==> rep'[i] == if rep[i] == rep[right] then rep[left] else rep[i]
    ensures Sound(team, rep')
  {
    forall i, j | 0 <= i < |rep'| && 0 <= j < |rep'| && rep'[i] == rep'[j]
      ensures Connected(team, i, j)
    {
      ConnectedStep(team, left, right);
      if rep[i] == rep[right] && rep[j] == rep[left] {
        ConnectedTransitive(team, i, right, left);
        ConnectedTransitive(team, i, left, j);
      } else if rep[i] == rep[left] && rep[j] == rep[right] {
        ConnectedTransitive(team, i, left, right);
        ConnectedTransitive(team, i, right, j);
      }
    }
  }

  // ---- linking everything that shares an identity

  /** Every subscription seen so far is in the class of the first one with its identity. */
  ghost predicate Indexed(identities: seq<string>, firsts: map<string, int>, rep: seq<nat>, n: nat) {
    && n <= |identities| == |rep|
    && (forall key :: key in firsts ==> 0 <= firsts[key] < n && Normalize(identities[firsts[key]]) == key && key != "")
    && forall i :: 0 <= i < n && Normalize(identities[i]) != "" ==>
         Normalize(identities[i]) in firsts && rep[firsts[Normalize(identities[i])]] == rep[i]
  }

  lemma IndexedCoarser(identities: seq<string>, firsts: map<string, int>, rep: seq<nat>, rep': seq<nat>, n: nat)
    requires Indexed(identities, firsts, rep, n) && Coarser(rep, rep')
    ensures Indexed(identities, firsts, rep', n)
  {
  }

  function Emails(team: seq<Subscription>): seq<string> {
    seq(|team|, i requires 0 <= i < |team| => team[i].email)
  }

  function Wechats(team: seq<Subscription>): seq<string> {
    seq(|team|, i requires 0 <= i < |team| => team[i].wechat)
  }

  lemma {:induction false} PathStaysInClass(team: seq<Subscription>, rep: seq<nat>, path: seq<nat>, k: nat)
    requires |rep| == |team| && IsPath(team, path) && k < |path|
    requires forall i, j :: 0 <= i < |team| && 0 <= j < |team| && Shares(team[i], team[j]) ==> rep[i] == rep[j]
    ensures rep[path[0]] == rep[path[k]]
  {
    if k > 0 {
      PathStaysInClass(team, rep, path, k - 1);
      assert Shares(team[path[k - 1]], team[path[k - 1 + 1]]);
    }
  }

  /** The classes are exactly the connected components. */
  lemma ClassesAreComponents(
    team: seq<Subscription>, rep: seq<nat>, byEmail: map<string, int>, byWechat: map<string, int>)
    requires Sound(team, rep)
    requires Indexed(Emails(team), byEmail, rep, |team|) && Indexed(Wechats(team), byWechat, rep, |team|)
    ensures forall i: nat, j: nat :: i < |team| && j < |team| ==> (rep[i] == rep[j] <==> Connected(team, i, j))
  {
    forall i, j | 0 <= i < |team| && 0 <= j < |team| && Shares(team[i], team[j])
      ensures rep[i] == rep[j]
    {
      assert Emails(team)[i] == team[i].email && Emails(team)[j] == team[j].email;
      assert Wechats(team)[i] == team[i].wechat && Wechats(team)[j] == team[j].wechat;
    }
    forall i: nat, j: nat | i < |team| && j < |team| && Connected(team, i, j)
      ensures rep[i] == rep[j]
    {
      var path :| IsPath(team, path) && path[0] == i && path[|path| - 1] == j;
      PathStaysInClass(team, rep, path, |path| - 1);
    }
  }

  // ---- counting

  lemma {:induction false} InjectiveImageSize(roots: set<nat>, team: seq<Subscription>)
    requires forall r :: r in roots ==> r < |team|
    requires forall r, s :: r in roots && s in roots && Component(team, r) == Component(team, s) ==> r == s
    ensures |set r | r in roots :: Component(team, r)| == |roots|
  {
    if roots != {} {
      var r :| r in roots;
      var rest := roots - {r};
      InjectiveImageSize(rest, team);
      var image := set s | s in rest :: Component(team, s);
      assert (set s | s in roots :: Component(team, s)) == image + {Component(team, r)};
      assert Component(team, r) !in image;
    }
  }

  ghost predicate IsRootOf(rep: seq<nat>, i: nat)
    requires i < |rep|
  {
    rep[i] < |rep| && rep[rep[i]] == rep[i]
  }

  ghost predicate MatchesComponents(team: seq<Subscription>, rep: seq<nat>) {
    && |rep| == |team|
    && (forall i :: 0 <= i < |rep| ==> IsRootOf(rep, i))
    && forall i: nat, j: nat :: i < |team| && j < |team| ==> (rep[i] == rep[j] <==> Connected(team, i, j))
  }

  lemma SameComponent(team: seq<Subscription>, rep: seq<nat>, i: nat, j: nat)
    requires MatchesComponents(team, rep) && i < |team| && j < |team|
    ensures Component(team, i) == Component(team, j) <==> rep[i] == rep[j]
  {
    assert Connected(team, j, j);
    assert j in Component(team, j);
    if rep[i] == rep[j] {
      forall k: nat
        ensures k in Component(team, i) <==> k in Component(team, j)
      {
        if k < |team| {
          assert rep[i] == rep[k] <==> Connected(team, i, k);
          assert rep[j] == rep[k] <==> Connected(team, j, k);
        }
      }
    }
  }

  ghost function RepeatRoots(team: seq<Subscription>, billCounts: map<int, int>, rep: seq<nat>, n: nat): set<nat>
    requires n <= |team| == |rep|
  {
    set i: nat | i < n && BillCount(billCounts, team[i]) > 1 :: rep[i]
  }

  lemma RootsCountGroups(team: seq<Subscription>, billCounts: map<int, int>, rep: seq<nat>)
    requires MatchesComponents(team, rep)
    ensures |RepeatRoots(team, billCounts, rep, |team|)| == |RepeatGroups(team, billCounts)|
  {
    var roots := RepeatRoots(team, billCounts, rep, |team|);
    forall r | r in roots
      ensures r < |team| && rep[r] == r
    {
      var i: nat :| i < |team| && BillCount(billCounts, team[i]) > 1 && r == rep[i];
      assert IsRootOf(rep, i);
    }
    forall r, s | r in roots && s in roots && Component(team, r) == Component(team, s)
      ensures r == s
    {
      SameComponent(team, rep, r, s);
    }
    InjectiveImageSize(roots, team);
    var image := set r | r in roots :: Component(team, r);
    forall c
      ensures c in image <==> c in RepeatGroups(team, billCounts)
    {
      if c in image {
        var r :| r in roots && c == Component(team, r);
        var i: nat :| i < |team| && BillCount(billCounts, team[i]) > 1 && r == rep[i];
        assert IsRootOf(rep, i);
        SameComponent(team, rep, i, r);
      }
      if c in RepeatGroups(team, billCounts) {
        var i: nat :| i < |team| && BillCount(billCounts, team[i]) > 1 && c == Component(team, i);
        assert IsRootOf(rep, i);
        SameComponent(team, rep, i, rep[i]);
        assert rep[i] in roots;
      }
    }
    assert image == RepeatGroups(team, billCounts);
  }

  /** The number of customers, found by shared identities, with a subscription billed more than once. */
  method CountRepeatCustomerGroups(subscriptions: seq<Subscription>, billCounts: map<int, int>) returns (count: nat)
    ensures count == |RepeatGroups(TeamOnly(subscriptions), billCounts)|
  {
    var team := [];
    for index := 0 to |subscriptions|
      invariant team == TeamOnly(subscriptions[..index])
    {
      assert subscriptions[..index + 1][..index] == subscriptions[..index];
      if subscriptions[index].team && !subscriptions[index].resale {
        team := team + [subscriptions[index]];
      }
    }
    assert subscriptions[..|subscriptions|] == subscriptions;
    var parents := new int[|team|](i => i);
    ghost var rep, depth := LinkAll(team, parents);
    var repeatGroups: set<int> := {};
    for index := 0 to |team|
      invariant Forest(parents[..], rep, depth)
      invariant repeatGroups == RepeatRoots(team, billCounts, rep, index)
    {
      if BillCount(billCounts, team[index]) > 1 {
        var root := Find(parents, index, rep, depth);
        repeatGroups := repeatGroups + {root};
      }
    }
    RootsCountGroups(team, billCounts, rep);
    return |repeatGroups|;
  }

  /** Puts subscriptions that share an identity into one class, first by email and then by WeChat. */
  method LinkAll(team: seq<Subscription>, parents: array<int>) returns (ghost rep: seq<nat>, ghost depth: seq<nat>)
    requires parents.Length == |team| && forall i :: 0 <= i < |team| ==> parents[i] == i
    modifies parents
    ensures Forest(parents[..], rep, depth) && MatchesComponents(team, rep)
  {
    rep, depth := Identity(|team|), seq(|team|, i => 0);
    Unlinked(team, parents[..], depth);
    var byEmail: map<string, int> := map[];
    var byWechat: map<string, int> := map[];
    for index := 0 to |team|
      invariant Forest(parents[..], rep, depth) && Sound(team, rep)
      invariant Indexed(Emails(team), byEmail, rep, index) && Indexed(Wechats(team), byWechat, rep, index)
    {
      ghost var start := rep;
      byEmail, rep, depth := LinkIdentity(parents, Emails(team), byEmail, index, team, rep, depth);
      IndexedCoarser(Wechats(team), byWechat, start, rep, index);
      ghost var middle := rep;
      byWechat, rep, depth := LinkIdentity(parents, Wechats(team), byWechat, index, team, rep, depth);
      IndexedCoarser(Emails(team), byEmail, middle, rep, index + 1);
    }
    LinkedMatches(team, parents[..], rep, depth, byEmail, byWechat);
  }

  function Identity(n: nat): (rep: seq<nat>)
    ensures |rep| == n && forall i :: 0 <= i < n ==> rep[i] == i
  {
    seq(n, i requires 0 <= i < n => i)
  }

  /** To begin with every subscription is a class of its own. */
  lemma Unlinked(team: seq<Subscription>, parents: seq<int>, depth: seq<nat>)
    requires |parents| == |team| == |depth| && forall i :: 0 <= i < |team| ==> parents[i] == i
    ensures Forest(parents, Identity(|team|), depth) && Sound(team, Identity(|team|))
  {
    forall i | 0 <= i < |team|
      ensures Connected(team, i, i)
    {
      ConnectedReflexive(team, i);
    }
  }

  lemma LinkedMatches(
    team: seq<Subscription>, parents: seq<int>, rep: seq<nat>, depth: seq<nat>,
    byEmail: map<string, int>, byWechat: map<string, int>)
    requires Forest(parents, rep, depth) && Sound(team, rep)
    requires Indexed(Emails(team), byEmail, rep, |team|) && Indexed(Wechats(team), byWechat, rep, |team|)
    ensures MatchesComponents(team, rep)
  {
    ClassesAreComponents(team, rep, byEmail, byWechat);
    forall i: nat | i < |rep|
      ensures IsRootOf(rep, i)
    {
      assert Rooted(parents, rep, depth, i);
    }
  }

  /** Joins subscription `index` to the first one with the same identity, or makes it the first. */
  method LinkIdentity(
    parents: array<int>, identities: seq<string>, firsts: map<string, int>, index: nat,
    ghost team: seq<Subscription>, ghost rep: seq<nat>, ghost depth: seq<nat>)
    returns (firsts': map<string, int>, ghost rep': seq<nat>, ghost depth': seq<nat>)
    requires Forest(parents[..], rep, depth) && Sound(team, rep) && index < |team|
    requires identities == Emails(team) || identities == Wechats(team)
    requires Indexed(identities, firsts, rep, index)
    modifies parents
    ensures Forest(parents[..], rep', depth') && Sound(team, rep') && Coarser(rep, rep')
    ensures Indexed(identities, firsts', rep', index + 1)
  {
    var identity := Normalize(identities[index]);
    if identity == "" {
      return firsts, rep, depth;
    }
    if identity !in firsts {
      IndexedFirst(identities, firsts, rep, index);
      return firsts[identity := index], rep, depth;
    }
    SharedIdentity(team, identities, index, firsts[identity]);
    rep', depth' := Union(parents, index, firsts[identity], team, rep, depth);
    firsts' := firsts;
    IndexedCoarser(identities, firsts, rep, rep', index);
    IndexedNext(identities, firsts, rep', index);
  }

  /** The first subscription with its identity. */
  lemma IndexedFirst(identities: seq<string>, firsts: map<string, int>, rep: seq<nat>, index: nat)
    requires index < |identities| == |rep| && Indexed(identities, firsts, rep, index)
    requires Normalize(identities[index]) != "" && Normalize(identities[index]) !in firsts
    ensures Indexed(identities, firsts[Normalize(identities[index]) := index], rep, index + 1)
  {
  }

  /** A later one, already in the class of the first. */
  lemma IndexedNext(identities: seq<string>, firsts: map<string, int>, rep: seq<nat>, index: nat)
    requires index < |identities| == |rep| && Indexed(identities, firsts, rep, index)
    requires var identity := Normalize(identities[index]); identity in firsts && rep[index] == rep[firsts[identity]]
    ensures Indexed(identities, firsts, rep, index + 1)
  {
  }

  lemma SharedIdentity(team: seq<Subscription>, identities: seq<string>, i: nat, j: nat)
    requires identities == Emails(team) || identities == Wechats(team)
    requires i < |team| && j < |team| && SameIdentity(identities[i], identities[j])
    ensures Shares(team[i], team[j])
  {
  }
}
