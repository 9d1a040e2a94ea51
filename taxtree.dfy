/** The subtree closure that both taxonomy tools compute in `build_branch`:
    starting from a set of root taxids, repeatedly replace the current set by
    the children of its members, collecting everything seen. The loop of the
    source ends when a generation is empty, raises `KeyError` on a taxid that
    has no record, and runs forever when a cycle is reachable. */
module TaxTree {
  import opened Base

  /** The child lists, by taxid. */
  type Kids = map<string, seq<string>>

  /** The next generation: the children of every member of `todo` that has
      a record. */
  function Step(kids: Kids, todo: set<string>): set<string> {
    set t, c | t in todo && t in kids && c in kids[t] :: c
  }

  /** Generation `k` from `roots`. */
  function Level(kids: Kids, roots: set<string>, k: nat): set<string> {
    if k == 0 then roots else Step(kids, Level(kids, roots, k - 1))
  }

  /** How the worklist loop ends: with the set of taxids it visited, with the
      taxids of the first generation that lack a record (the loop raises
      `KeyError` on one of them), or not at all. */
  datatype Sweep = Reached(nodes: set<string>) | Missing(keys: set<string>) | Endless

  /** The worklist loop run for at most `fuel` further generations after
      `todo`; `Endless` when the fuel runs out. */
  function Explore(kids: Kids, todo: set<string>, fuel: nat): (r: Sweep)
    ensures r.Missing? ==> r.keys != {} && r.keys !! kids.Keys
    ensures r.Reached? ==> todo <= r.nodes
    decreases fuel
  {
    if todo == {} then Reached({})
    else if !(todo <= kids.Keys) then
      var t :| t in todo && t !in kids.Keys;
      assert t in todo - kids.Keys;
      Missing(todo - kids.Keys)
    else if fuel == 0 then Endless
    else match Explore(kids, Step(kids, todo), fuel - 1)
      case Reached(s) => Reached(todo + s)
      case other => other
  }

  /** `build_branch`'s loop. The fuel, one generation per taxid with a
      record, is enough: `BranchEndlessForever` shows no larger bound
      changes an `Endless` outcome, and `ExploreMoreFuel` that no larger
      bound changes the other two. */
  function Branch(kids: Kids, roots: set<string>): Sweep {
    Explore(kids, roots, |kids.Keys|)
  }

  /** Taxid `y` is reached from `roots` by a walk down the child lists. */
  ghost predicate IsPath(kids: Kids, w: seq<string>) {
    |w| > 0 && forall i :: 0 <= i < |w| - 1 ==> w[i] in kids && w[i + 1] in kids[w[i]]
  }

  ghost predicate Reachable(kids: Kids, roots: set<string>, y: string) {
    exists w :: IsPath(kids, w) && w[0] in roots && w[|w| - 1] == y
  }

  lemma {:induction false} LevelShift(kids: Kids, todo: set<string>, k: nat)
    ensures Level(kids, Step(kids, todo), k) == Level(kids, todo, k + 1)
    decreases k
  {
    if k > 0 {
      LevelShift(kids, todo, k - 1);
    }
  }

  lemma {:induction false} LevelEmpty(kids: Kids, k: nat)
    ensures Level(kids, {}, k) == {}
    decreases k
  {
    if k > 0 {
      LevelEmpty(kids, k - 1);
    }
  }

  lemma {:induction false} LevelPath(kids: Kids, roots: set<string>, k: nat, y: string) returns (w: seq<string>)
    requires y in Level(kids, roots, k)
    ensures IsPath(kids, w) && |w| == k + 1 && w[0] in roots && w[k] == y
    decreases k
  {
    if k == 0 {
      w := [y];
    } else {
      var t :| t in Level(kids, roots, k - 1) && t in kids && y in kids[t];
      var u := LevelPath(kids, roots, k - 1, t);
      w := u + [y];
      assert forall i :: 0 <= i < |u| ==> w[i] == u[i];
    }
  }

  lemma {:induction false} PathLevel(kids: Kids, roots: set<string>, w: seq<string>, i: nat)
    requires IsPath(kids, w) && w[0] in roots && i < |w|
    ensures w[i] in Level(kids, roots, i)
    decreases i
  {
    if i > 0 {
      PathLevel(kids, roots, w, i - 1);
      assert w[i - 1] in kids && w[i] in kids[w[i - 1]];
    }
  }

  /** Being in some generation is being reachable. */
  lemma LevelReachable(kids: Kids, roots: set<string>, y: string)
    ensures (exists k: nat :: y in Level(kids, roots, k)) <==> Reachable(kids, roots, y)
  {
    if k: nat :| y in Level(kids, roots, k) {
      var w := LevelPath(kids, roots, k, y);
      assert IsPath(kids, w) && w[0] in roots && w[|w| - 1] == y;
    }
    if Reachable(kids, roots, y) {
      var w :| IsPath(kids, w) && w[0] in roots && w[|w| - 1] == y;
      PathLevel(kids, roots, w, |w| - 1);
    }
  }

  /** A finished sweep visits exactly the taxids of all generations, and
      every one of them has a record. */
  lemma {:induction false} ExploreReached(kids: Kids, todo: set<string>, fuel: nat, y: string)
    requires Explore(kids, todo, fuel).Reached?
    ensures Explore(kids, todo, fuel).nodes <= kids.Keys
    ensures y in Explore(kids, todo, fuel).nodes <==> exists k: nat :: y in Level(kids, todo, k)
    decreases fuel
  {
    if todo == {} {
      assert Explore(kids, todo, fuel).nodes == {};
      forall k: nat
        ensures y !in Level(kids, todo, k)
      {
        LevelEmpty(kids, k);
      }
    } else {
      var next := Step(kids, todo);
      ExploreReached(kids, next, fuel - 1, y);
      assert Explore(kids, todo, fuel).nodes == todo + Explore(kids, next, fuel - 1).nodes;
      assert Level(kids, todo, 0) == todo;
      if y in Explore(kids, next, fuel - 1).nodes {
        var k: nat :| y in Level(kids, next, k);
        LevelShift(kids, todo, k);
        assert y in Level(kids, todo, k + 1);
      }
      if k: nat :| y in Level(kids, todo, k) {
        if k > 0 {
          LevelShift(kids, todo, k - 1);
          assert y in Level(kids, next, k - 1);
        }
      }
    }
  }

  /** The taxids reported missing belong to some generation: they are
      reachable. */
  lemma {:induction false} ExploreMissing(kids: Kids, todo: set<string>, fuel: nat, y: string)
    requires Explore(kids, todo, fuel).Missing? && y in Explore(kids, todo, fuel).keys
    ensures exists k: nat :: y in Level(kids, todo, k)
    decreases fuel
  {
    if todo <= kids.Keys {
      var next := Step(kids, todo);
      ExploreMissing(kids, next, fuel - 1, y);
      var k: nat :| y in Level(kids, next, k);
      LevelShift(kids, todo, k);
      assert y in Level(kids, todo, k + 1);
    } else {
      assert Level(kids, todo, 0) == todo;
    }
  }

  /** More fuel does not change a sweep that ended. */
  lemma {:induction false} ExploreMoreFuel(kids: Kids, todo: set<string>, fuel: nat, more: nat)
    requires !Explore(kids, todo, fuel).Endless? && fuel <= more
    ensures Explore(kids, todo, more) == Explore(kids, todo, fuel)
    decreases fuel
  {
    if todo != {} && todo <= kids.Keys {
      ExploreMoreFuel(kids, Step(kids, todo), fuel - 1, more - 1);
    }
  }

  /** An endless sweep saw `fuel + 1` non-empty generations, all with
      records. */
  lemma {:induction false} ExploreEndless(kids: Kids, todo: set<string>, fuel: nat, k: nat)
    requires Explore(kids, todo, fuel).Endless? && k <= fuel
    ensures Level(kids, todo, k) != {} && Level(kids, todo, k) <= kids.Keys
    decreases fuel
  {
    if k > 0 {
      var next := Step(kids, todo);
      ExploreEndless(kids, next, fuel - 1, k - 1);
      LevelShift(kids, todo, k - 1);
    }
  }

  /** If every generation is non-empty and has records, no fuel ends the
      sweep. */
  lemma {:induction false} ExploreForever(kids: Kids, todo: set<string>, fuel: nat)
    requires forall k: nat :: Level(kids, todo, k) != {} && Level(kids, todo, k) <= kids.Keys
    ensures Explore(kids, todo, fuel) == Endless
    decreases fuel
  {
    assert Level(kids, todo, 0) == todo;
    if fuel > 0 {
      var next := Step(kids, todo);
      forall k: nat
        ensures Level(kids, next, k) != {} && Level(kids, next, k) <= kids.Keys
      {
        LevelShift(kids, todo, k);
      }
      ExploreForever(kids, next, fuel - 1);
    }
  }

  /** A sequence longer than a set it draws from repeats an element. */
  lemma {:induction false} Pigeonhole(s: seq<string>, keys: set<string>) returns (a: nat, b: nat)
    requires forall i :: 0 <= i < |s| ==> s[i] in keys
    requires |s| > |keys|
    ensures a < b < |s| && s[a] == s[b]
    decreases |s|
  {
    if s[0] in s[1..] {
      var j :| 0 <= j < |s[1..]| && s[1..][j] == s[0];
      a, b := 0, j + 1;
    } else {
      var rest := keys - {s[0]};
      forall i | 0 <= i < |s[1..]|
        ensures s[1..][i] in rest
      {
        assert s[1..][i] in s[1..];
      }
      var a', b' := Pigeonhole(s[1..], rest);
      a, b := a' + 1, b' + 1;
    }
  }

  /** Cutting out the loop between two visits of the same taxid leaves a
      walk. */
  lemma Splice(kids: Kids, w: seq<string>, a: nat, b: nat)
    requires IsPath(kids, w) && a < b < |w| && w[a] == w[b]
    ensures IsPath(kids, w[..a] + w[b..])
    ensures |w[..a] + w[b..]| == |w| - (b - a)
    ensures (w[..a] + w[b..])[0] == w[0] && (w[..a] + w[b..])[|w| - (b - a) - 1] == w[|w| - 1]
  {
    var v := w[..a] + w[b..];
    forall i | 0 <= i < |v| - 1
      ensures v[i] in kids && v[i + 1] in kids[v[i]]
    {
      if i + 1 < a {
        assert v[i] == w[i] && v[i + 1] == w[i + 1];
      } else if i + 1 == a {
        assert v[i] == w[i] && v[i + 1] == w[b] == w[i + 1];
      } else {
        assert v[i] == w[i + b - a] && v[i + 1] == w[i + 1 + b - a];
      }
    }
  }

  /** Once the first `|kids|` generations have records, all generations do:
      a walk longer than that repeats a taxid, and cutting the repeat gives a
      shorter walk to the same taxid. */
  lemma {:induction false} LevelsKeep(kids: Kids, roots: set<string>, k: nat)
    requires forall i: nat :: i <= |kids.Keys| ==> Level(kids, roots, i) <= kids.Keys
    ensures Level(kids, roots, k) <= kids.Keys
    decreases k
  {
    if k > |kids.Keys| {
      forall y | y in Level(kids, roots, k)
        ensures y in kids.Keys
      {
        var w := LevelPath(kids, roots, k, y);
        forall i | 0 <= i < k
          ensures w[..k][i] in kids.Keys
        {
          PathLevel(kids, roots, w, i);
          LevelsKeep(kids, roots, i);
        }
        var a, b := Pigeonhole(w[..k], kids.Keys);
        Splice(kids, w, a, b);
        var v := w[..a] + w[b..];
        PathLevel(kids, roots, v, |v| - 1);
        LevelsKeep(kids, roots, |v| - 1);
      }
    }
  }

  /** Around a cycle `w[a..b]` of a walk from the roots, some member of the
      cycle is in every generation from `a` on. */
  lemma {:induction false} CycleInLevel(kids: Kids, roots: set<string>, w: seq<string>, a: nat, b: nat, k: nat)
    returns (r: nat)
    requires IsPath(kids, w) && w[0] in roots && a < b < |w| && w[a] == w[b]
    requires a <= k
    ensures a + r < b && w[a + r] in Level(kids, roots, k)
    decreases k
  {
    if k == a {
      r := 0;
      PathLevel(kids, roots, w, a);
    } else {
      var r' := CycleInLevel(kids, roots, w, a, b, k - 1);
      r := if a + r' + 1 < b then r' + 1 else 0;
      assert w[a + r'] in kids && w[a + r' + 1] in kids[w[a + r']];
      assert w[a + r] in Step(kids, Level(kids, roots, k - 1));
    }
  }

  /** If generation `|kids|` is non-empty while all generations up to it have
      records, then every generation is non-empty. */
  lemma LevelsNonEmpty(kids: Kids, roots: set<string>, k: nat)
    requires forall i: nat :: i <= |kids.Keys| ==> Level(kids, roots, i) <= kids.Keys
    requires Level(kids, roots, |kids.Keys|) != {}
    ensures Level(kids, roots, k) != {}
  {
    var n := |kids.Keys|;
    var y :| y in Level(kids, roots, n);
    var w := LevelPath(kids, roots, n, y);
    forall i | 0 <= i < |w|
      ensures w[i] in kids.Keys
    {
      PathLevel(kids, roots, w, i);
    }
    var a, b := Pigeonhole(w, kids.Keys);
    if k < a {
      PathLevel(kids, roots, w, k);
    } else {
      var r := CycleInLevel(kids, roots, w, a, b, k);
    }
  }

  /** `Endless` is the true outcome: when the bounded loop reports it, no
      amount of fuel would have ended the loop. */
  lemma BranchEndlessForever(kids: Kids, roots: set<string>, fuel: nat)
    requires Branch(kids, roots) == Endless
    ensures Explore(kids, roots, fuel) == Endless
  {
    var n := |kids.Keys|;
    forall i: nat | i <= n
      ensures Level(kids, roots, i) <= kids.Keys
    {
      ExploreEndless(kids, roots, n, i);
    }
    ExploreEndless(kids, roots, n, n);
    forall k: nat
      ensures Level(kids, roots, k) != {} && Level(kids, roots, k) <= kids.Keys
    {
      LevelsKeep(kids, roots, k);
      LevelsNonEmpty(kids, roots, k);
    }
    ExploreForever(kids, roots, fuel);
  }

  /** A finished branch is exactly the taxids reachable from the roots, all
      of which have records. */
  lemma BranchReached(kids: Kids, roots: set<string>, y: string)
    requires Branch(kids, roots).Reached?
    ensures Branch(kids, roots).nodes <= kids.Keys
    ensures y in Branch(kids, roots).nodes <==> Reachable(kids, roots, y)
  {
    ExploreReached(kids, roots, |kids.Keys|, y);
    LevelReachable(kids, roots, y);
  }

  /** The taxids a branch reports missing are reachable and have no record. */
  lemma BranchMissing(kids: Kids, roots: set<string>, y: string)
    requires Branch(kids, roots).Missing? && y in Branch(kids, roots).keys
    ensures Reachable(kids, roots, y) && y !in kids
  {
    ExploreMissing(kids, roots, |kids.Keys|, y);
    LevelReachable(kids, roots, y);
  }

  // ---------------------------------------------------------------------
  // The worklist loop itself.

  /** The outcome of a sweep that has already visited `done`. */
  function After(done: set<string>, o: Sweep): Sweep {
    match o
    case Reached(s) => Reached(done + s)
    case _ => o
  }

  lemma StepAdd(kids: Kids, a: set<string>, t: string)
    requires t in kids
    ensures Step(kids, a + {t}) == Step(kids, a) + set c | c in kids[t]
  {
    forall c | c in Step(kids, a + {t})
      ensures c in Step(kids, a) + set c | c in kids[t]
    {
      var u :| u in a + {t} && u in kids && c in kids[u];
      if u in a {
        assert c in Step(kids, a);
      }
    }
  }

  /** `set(roots)`. */
  function Roots(roots: seq<string>): set<string> {
    set t | t in roots
  }

  /** `b` holds the entries of `data` for exactly the taxids `keys`. */
  ghost predicate Copied<V>(b: Dict<string, V>, data: map<string, V>, keys: set<string>) {
    b.Valid() && b.entries.Keys == keys && forall k :: k in b.entries ==> k in data && b.entries[k] == data[k]
  }

  /** One more generation of a sweep that has already visited `done`. */
  lemma ExploreStep(kids: Kids, done: set<string>, todo: set<string>, next: set<string>, fuel: nat)
    requires todo != {} && todo <= kids.Keys && fuel > 0 && next == Step(kids, todo)
    ensures After(done, Explore(kids, todo, fuel)) == After(done + todo, Explore(kids, next, fuel - 1))
  {
  }

  /** The body of `build_branch`'s loop: copy the entries of one generation
      into the branch and collect the next generation; `missing` is the
      taxid a `KeyError` is raised for, if any. */
  method SweepLevel<V>(data: map<string, V>, kids: Kids, todo: set<string>, branch: Dict<string, V>, ghost done: set<string>)
    returns (missing: Option<string>, found: set<string>, b: Dict<string, V>)
    requires kids.Keys == data.Keys && Copied(branch, data, done)
    ensures missing.None? <==> todo <= kids.Keys
    ensures missing.None? ==> found == Step(kids, todo) && Copied(b, data, done + todo)
    ensures missing.Some? ==> missing.value in todo - kids.Keys
  {
    found := {};
    var rest := todo;
    b := branch;
    while rest != {}
      invariant rest <= todo && todo - rest <= kids.Keys
      invariant found == Step(kids, todo - rest)
      invariant Copied(b, data, done + (todo - rest))
      decreases rest
    {
      var t :| t in rest;
      if t !in data {
        return Some(t), found, b;
      }
      StepAdd(kids, todo - rest, t);
      assert (todo - rest) + {t} == todo - (rest - {t});
      found := found + set c | c in kids[t];
      b := b.Put(t, data[t]);
      rest := rest - {t};
    }
    assert todo - rest == todo;
    missing := None;
  }

  /** `build_branch`: visit the roots generation by generation, copying
      each visited taxid's entry of `data` into the branch. A taxid without
      an entry raises `KeyError`; a reachable cycle makes the loop run out of
      its fuel, reported as `Diverges`. */
  method CollectBranch<V>(data: map<string, V>, kids: Kids, roots: seq<string>) returns (r: Result<Dict<string, V>>)
    requires kids.Keys == data.Keys
    ensures Branch(kids, Roots(roots)).Reached? ==>
      r.Success? && r.value.Valid() && r.value.entries.Keys == Branch(kids, Roots(roots)).nodes &&
      forall k :: k in r.value.entries ==> k in data && r.value.entries[k] == data[k]
    ensures Branch(kids, Roots(roots)).Missing? ==>
      r.Failure? && r.error.KeyError? && r.error.key in Branch(kids, Roots(roots)).keys
    ensures Branch(kids, Roots(roots)).Endless? ==> r == Failure(Diverges)
  {
    var branch: Dict<string, V> := EmptyDict();
    var todo := Roots(roots);
    var fuel: nat := |kids.Keys|;
    ghost var goal := Branch(kids, todo);
    ghost var done: set<string> := {};
    while todo != {}
      invariant goal == After(done, Explore(kids, todo, fuel))
      invariant Copied(branch, data, done)
      decreases fuel
    {
      var missing, next, b := SweepLevel(data, kids, todo, branch, done);
      if missing.Some? {
        return Failure(KeyError(missing.value));
      }
      if fuel == 0 {
        return Failure(Diverges);
      }
      ExploreStep(kids, done, todo, next, fuel);
      done := done + todo;
      todo, branch := next, b;
      fuel := fuel - 1;
    }
    r := Success(branch);
  }

  // ---------------------------------------------------------------------
  // The reverse index from gi to taxid.

  /** `build_gis_to_taxids`: every gi listed by a record, mapped to the last
      taxid (in dict order) whose record lists it. */
  method GisIndex(keys: seq<string>, gis: map<string, seq<string>>) returns (r: map<string, string>)
    requires forall k :: k in keys ==> k in gis
    ensures forall g :: g in r <==> exists i :: 0 <= i < |keys| && g in gis[keys[i]]
    ensures forall g :: g in r ==> exists i :: (0 <= i < |keys| && keys[i] == r[g] && g in gis[keys[i]] &&
      forall j :: i < j < |keys| ==> g !in gis[keys[j]])
  {
    r := map[];
    var i := 0;
    while i < |keys|
      invariant 0 <= i <= |keys|
      invariant forall g :: g in r <==> exists a :: 0 <= a < i && g in gis[keys[a]]
      invariant forall g :: g in r ==> exists a :: (0 <= a < i && keys[a] == r[g] && g in gis[keys[a]] &&
        forall j :: a < j < i ==> g !in gis[keys[j]])
    {
      var taxid := keys[i];
      var list := gis[taxid];
      var n := 0;
      while n < |list|
        invariant 0 <= n <= |list|
        invariant forall g :: g in r <==> (exists a :: 0 <= a < i && g in gis[keys[a]]) || g in list[..n]
        invariant forall g :: g in list[..n] ==> r[g] == taxid
        invariant forall g :: g in r && g !in list[..n] ==> exists a :: (0 <= a < i && keys[a] == r[g] &&
          g in gis[keys[a]] && forall j :: a < j < i ==> g !in gis[keys[j]])
      {
        assert list[..n + 1] == list[..n] + [list[n]];
        r := r[list[n] := taxid];
        n := n + 1;
      }
      assert list[..n] == list;
      forall g | g in r
        ensures exists a :: (0 <= a < i + 1 && keys[a] == r[g] && g in gis[keys[a]] &&
          forall j :: a < j < i + 1 ==> g !in gis[keys[j]])
      {
        if g in list {
          assert keys[i] == r[g] && g in gis[keys[i]];
        } else {
          var a :| 0 <= a < i && keys[a] == r[g] && g in gis[keys[a]] && forall j :: a < j < i ==> g !in gis[keys[j]];
          assert forall j :: a < j < i + 1 ==> g !in gis[keys[j]];
        }
      }
      i := i + 1;
    }
  }
}
